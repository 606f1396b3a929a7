/**
 * The store of `server/db.js`: a snapshot of users, items and carts. The
 * queries are functions of the snapshot; the operations that change it are
 * methods of `Store`, whose three fields are the snapshot's three arrays.
 * Each source operation reads the file, changes the snapshot and writes it
 * back; here the snapshot stays in the object between operations.
 */
module Db {
  import opened Wrappers
  import opened Seqs
  import opened Text
  import opened Domain

  // ---------------------------------------------------------------- queries

  /**
   * Case-insensitive lookup by email: nothing for an empty email, otherwise
   * the first user, in store order, whose lowered email is the lowered query.
   */
  function FindUserByEmail(users: seq<User>, email: string): (r: Option<User>)
    ensures email == "" ==> r.None?
    ensures r.Some? ==> r.value in users && Lower(r.value.email) == Lower(email)
    ensures r.None? && email != "" ==> forall u :: u in users ==> Lower(u.email) != Lower(email)
    ensures r.Some? ==> exists k :: 0 <= k < |users| && users[k] == r.value &&
                                    forall j :: 0 <= j < k ==> Lower(users[j].email) != Lower(email)
  {
    if email == "" then None
    else
      var r := FindBy(users, EmailKey, Lower(email));
      assert r.Some? ==> users[IndexOf(users, EmailKey, Lower(email))] == r.value;
      r
  }

  /** The first user with identifier `id`. */
  function GetUserById(users: seq<User>, id: string): (r: Option<User>)
    ensures r.Some? ==> r.value in users && r.value.id == id
    ensures r.Some? ==> exists k :: 0 <= k < |users| && users[k] == r.value &&
                                    forall j :: 0 <= j < k ==> users[j].id != id
    ensures r.None? <==> forall u :: u in users ==> u.id != id
  {
    var r := FindBy(users, UserId, id);
    assert r.Some? ==> users[IndexOf(users, UserId, id)] == r.value;
    r
  }

  /** The first item with identifier `id`. */
  function GetItem(items: seq<Item>, id: string): (r: Option<Item>)
    ensures r.Some? ==> r.value in items && r.value.id == id
    ensures r.Some? ==> exists k :: 0 <= k < |items| && items[k] == r.value &&
                                    forall j :: 0 <= j < k ==> items[j].id != id
    ensures r.None? <==> forall i :: i in items ==> i.id != id
  {
    var r := FindBy(items, ItemId, id);
    assert r.Some? ==> items[IndexOf(items, ItemId, id)] == r.value;
    r
  }

  // The four filters of the item list, as predicates.

  function TitleHas(q: string): Item -> bool
  {
    (i: Item) => Includes(Lower(i.title), Lower(q))
  }

  function CategoryIs(c: string): Item -> bool
  {
    (i: Item) => Lower(i.category) == Lower(c)
  }

  function PriceAtLeast(min: int): Item -> bool
  {
    (i: Item) => i.price >= min
  }

  function PriceAtMost(max: int): Item -> bool
  {
    (i: Item) => i.price <= max
  }

  /**
   * An item passes every filter that the query gives. This is written out
   * on its own, not built from the filters above, because it is the
   * reference that `ListItemsIsFilter` proves the chain of filters equal to.
   * `UpToTitle`, `UpToCategory` and `UpToMin` below are only the stages of
   * that proof.
   */
  predicate Matches(f: ItemQuery, i: Item)
  {
    && (f.q == "" || Includes(Lower(i.title), Lower(f.q)))
    && (f.category == "" || Lower(i.category) == Lower(f.category))
    && (f.min.None? || i.price >= f.min.value)
    && (f.max.None? || i.price <= f.max.value)
  }

  function MatchesQuery(f: ItemQuery): Item -> bool
  {
    (i: Item) => Matches(f, i)
  }

  /**
   * The item list: the given filters applied one after the other, each only
   * when its parameter is present. An item is listed exactly when it passes
   * them all.
   */
  function ListItems(items: seq<Item>, f: ItemQuery): (r: seq<Item>)
    ensures forall x :: x in r ==> x in items && Matches(f, x)
    ensures forall x :: x in items && Matches(f, x) ==> x in r
  {
    var a := if f.q != "" then Filter(items, TitleHas(f.q)) else items;
    var b := if f.category != "" then Filter(a, CategoryIs(f.category)) else a;
    var c := if f.min.Some? then Filter(b, PriceAtLeast(f.min.value)) else b;
    if f.max.Some? then Filter(c, PriceAtMost(f.max.value)) else c
  }

  /** `{ ...item, ...patch, id }`: the patch's fields win, and the identifier is `id` whatever the patch says. */
  function Merge(item: Item, patch: ItemPatch, id: string): (r: Item)
    ensures r.id == id
    ensures r.title == (if patch.title.Some? then patch.title.value else item.title)
    ensures r.category == (if patch.category.Some? then patch.category.value else item.category)
    ensures r.price == (if patch.price.Some? then patch.price.value else item.price)
    ensures r.image == (if patch.image.Some? then patch.image else item.image)
    ensures r.description == (if patch.description.Some? then patch.description else item.description)
  {
    Item(
      id,
      match patch.title case Some(t) => t case None => item.title,
      match patch.category case Some(c) => c case None => item.category,
      match patch.price case Some(p) => p case None => item.price,
      match patch.image case Some(_) => patch.image case None => item.image,
      match patch.description case Some(_) => patch.description case None => item.description)
  }

  /** The cart that `getCart` hands out: the stored one, or a new empty one. */
  function CartOf(carts: seq<Cart>, userId: string): (c: Cart)
    ensures c.userId == userId
    ensures FindBy(carts, CartOwner, userId).Some? ==> c == FindBy(carts, CartOwner, userId).value
    ensures FindBy(carts, CartOwner, userId).None? ==> c.items == []
  {
    match FindBy(carts, CartOwner, userId)
    case Some(c) => c
    case None => Cart(userId, [])
  }

  // ------------------------------------------------------------ properties

  /**
   * One step of the chain: applying filter `p` when `on`, after the filters
   * summed up by `prev`, is filtering once by `next`.
   */
  lemma FilterStep(s: seq<Item>, on: bool, p: Item -> bool, prev: Item -> bool, next: Item -> bool)
    requires forall x :: next(x) == (prev(x) && (!on || p(x)))
    ensures (if on then Filter(Filter(s, prev), p) else Filter(s, prev)) == Filter(s, next)
  {
    if on {
      FilterFilter(s, prev, p, next);
    } else {
      FilterExt(s, prev, next);
    }
  }

  /** The filters of `f` up to and including the title filter. */
  function UpToTitle(f: ItemQuery): Item -> bool
  {
    (i: Item) => f.q == "" || TitleHas(f.q)(i)
  }

  /** The filters of `f` up to and including the category filter. */
  function UpToCategory(f: ItemQuery): Item -> bool
  {
    (i: Item) => UpToTitle(f)(i) && (f.category == "" || CategoryIs(f.category)(i))
  }

  /** The filters of `f` up to and including the lower price bound. */
  function UpToMin(f: ItemQuery): Item -> bool
  {
    (i: Item) => UpToCategory(f)(i) && (f.min.None? || PriceAtLeast(f.min.value)(i))
  }

  lemma TitleStep(items: seq<Item>, f: ItemQuery)
    ensures (if f.q != "" then Filter(items, TitleHas(f.q)) else items) == Filter(items, UpToTitle(f))
  {
    var all := (i: Item) => true;
    FilterKeepsAll(items, all);
    FilterStep(items, f.q != "", TitleHas(f.q), all, UpToTitle(f));
  }

  lemma CategoryStep(items: seq<Item>, f: ItemQuery)
    ensures var a := Filter(items, UpToTitle(f));
      (if f.category != "" then Filter(a, CategoryIs(f.category)) else a) == Filter(items, UpToCategory(f))
  {
    FilterStep(items, f.category != "", CategoryIs(f.category), UpToTitle(f), UpToCategory(f));
  }

  lemma MinStep(items: seq<Item>, f: ItemQuery)
    requires f.min.Some?
    ensures Filter(Filter(items, UpToCategory(f)), PriceAtLeast(f.min.value)) == Filter(items, UpToMin(f))
  {
    FilterStep(items, true, PriceAtLeast(f.min.value), UpToCategory(f), UpToMin(f));
  }

  lemma NoMinStep(items: seq<Item>, f: ItemQuery)
    requires f.min.None?
    ensures Filter(items, UpToCategory(f)) == Filter(items, UpToMin(f))
  {
    FilterStep(items, false, PriceAtLeast(0), UpToCategory(f), UpToMin(f));
  }

  lemma MaxStep(items: seq<Item>, f: ItemQuery)
    requires f.max.Some?
    ensures Filter(Filter(items, UpToMin(f)), PriceAtMost(f.max.value)) == Filter(items, MatchesQuery(f))
  {
    forall x: Item
      ensures MatchesQuery(f)(x) == (UpToMin(f)(x) && PriceAtMost(f.max.value)(x))
    {
      assert UpToTitle(f)(x) == (f.q == "" || TitleHas(f.q)(x));
      assert UpToCategory(f)(x) == (UpToTitle(f)(x) && (f.category == "" || CategoryIs(f.category)(x)));
      assert UpToMin(f)(x) == (UpToCategory(f)(x) && (f.min.None? || PriceAtLeast(f.min.value)(x)));
    }
    FilterStep(items, true, PriceAtMost(f.max.value), UpToMin(f), MatchesQuery(f));
  }

  lemma NoMaxStep(items: seq<Item>, f: ItemQuery)
    requires f.max.None?
    ensures Filter(items, UpToMin(f)) == Filter(items, MatchesQuery(f))
  {
    forall x: Item
      ensures MatchesQuery(f)(x) == UpToMin(f)(x)
    {
      assert UpToTitle(f)(x) == (f.q == "" || TitleHas(f.q)(x));
      assert UpToCategory(f)(x) == (UpToTitle(f)(x) && (f.category == "" || CategoryIs(f.category)(x)));
      assert UpToMin(f)(x) == (UpToCategory(f)(x) && (f.min.None? || PriceAtLeast(f.min.value)(x)));
    }
    FilterStep(items, false, PriceAtMost(0), UpToMin(f), MatchesQuery(f));
  }

  /** The chain of filters is one filter by the conjunction of the given ones. */
  lemma ListItemsIsFilter(items: seq<Item>, f: ItemQuery)
    ensures ListItems(items, f) == Filter(items, MatchesQuery(f))
  {
    var a := if f.q != "" then Filter(items, TitleHas(f.q)) else items;
    TitleStep(items, f);
    var b := if f.category != "" then Filter(a, CategoryIs(f.category)) else a;
    CategoryStep(items, f);
    var c := if f.min.Some? then Filter(b, PriceAtLeast(f.min.value)) else b;
    if f.min.Some? { MinStep(items, f); } else { NoMinStep(items, f); }
    if f.max.Some? { MaxStep(items, f); } else { NoMaxStep(items, f); }
  }

  /** The list keeps the store order: it is the item array with some entries deleted. */
  lemma ListItemsSubsequence(items: seq<Item>, f: ItemQuery)
    ensures Subsequence(ListItems(items, f), items)
  {
    ListItemsIsFilter(items, f);
    FilterSubsequence(items, MatchesQuery(f));
  }

  /** With no filter at all, every item is listed, in store order. */
  lemma ListItemsUnfiltered(items: seq<Item>)
    ensures ListItems(items, ItemQuery("", "", None, None)) == items
  {
  }

  /** The price bounds are inclusive: `min = max = p` lists every item priced `p`. */
  lemma ListItemsExactPrice(items: seq<Item>, p: int, i: Item)
    requires i in items && i.price == p
    ensures i in ListItems(items, ItemQuery("", "", Some(p), Some(p)))
  {
  }

  /** Looking a user up by an email that differs only in letter case finds the same user. */
  lemma FindUserByEmailIgnoresCase(users: seq<User>, a: string, b: string)
    requires Lower(a) == Lower(b)
    ensures FindUserByEmail(users, a) == FindUserByEmail(users, b)
  {
    assert a == "" <==> b == "";
  }

  // ------------------------------------------------------------------ store

  class Store {
    var users: seq<User>
    var items: seq<Item>
    var carts: seq<Cart>

    /**
     * `read()`: the snapshot found in the file; a collection that is not an
     * array, or a file that cannot be read or parsed, gives empty collections.
     */
    constructor Load(doc: Document)
      ensures users == (if doc.Parsed? && doc.users.Some? then doc.users.value else [])
      ensures items == (if doc.Parsed? && doc.items.Some? then doc.items.value else [])
      ensures carts == (if doc.Parsed? && doc.carts.Some? then doc.carts.value else [])
    {
      users, items, carts := [], [], [];
      if doc.Parsed? {
        if doc.users.Some? { users := doc.users.value; }
        if doc.items.Some? { items := doc.items.value; }
        if doc.carts.Some? { carts := doc.carts.value; }
      }
    }

    /** `upsertUser`: replace the user with `u.id` in place, or push `u`. */
    method UpsertUser(u: User) returns (r: User)
      modifies this
      ensures r == u
      ensures users == Upsert(old(users), u, UserId)
      ensures UniqueKeys(old(users), UserId) ==> UniqueKeys(users, UserId)
      ensures items == old(items) && carts == old(carts)
    {
      var idx := IndexOf(users, UserId, u.id);
      if idx == -1 {
        users := users + [u];
      } else {
        users := users[idx := u];
      }
      if UniqueKeys(old(users), UserId) {
        UpsertUniqueKeys(old(users), u, UserId);
      }
      r := u;
    }

    /** `createItem`: push the item at the end; a fresh identifier then finds it. */
    method CreateItem(item: Item) returns (r: Item)
      modifies this
      ensures r == item
      ensures items == old(items) + [item]
      ensures GetItem(old(items), item.id).None? ==> GetItem(items, item.id) == Some(item)
      ensures users == old(users) && carts == old(carts)
    {
      items := items + [item];
      FindByAppend(old(items), item, ItemId);
      r := item;
    }

    /**
     * `updateItem`: nothing when no item has `id`; otherwise the first item
     * with `id` becomes the patch merged over it, and no other entry changes.
     */
    method UpdateItem(id: string, patch: ItemPatch) returns (r: Option<Item>)
      modifies this
      ensures GetItem(old(items), id).None? ==> r.None? && items == old(items)
      ensures GetItem(old(items), id).Some? ==>
        r == Some(Merge(GetItem(old(items), id).value, patch, id)) &&
        items == Upsert(old(items), r.value, ItemId)
      ensures r.Some? ==> |items| == |old(items)| && GetItem(items, id) == r
      ensures forall k :: k != id ==> GetItem(items, k) == GetItem(old(items), k)
      ensures users == old(users) && carts == old(carts)
    {
      var idx := IndexOf(items, ItemId, id);
      if idx == -1 {
        return None;
      }
      var merged := Merge(items[idx], patch, id);
      items := items[idx := merged];
      r := Some(merged);
      forall k | k != id
        ensures GetItem(items, k) == GetItem(old(items), k)
      {
        UpsertOtherKey(old(items), merged, ItemId, k);
      }
    }

    /** `deleteItem`: drop every item with `id`; true exactly when one existed. */
    method DeleteItem(id: string) returns (removed: bool)
      modifies this
      ensures items == RemoveKey(old(items), ItemId, id)
      ensures removed <==> GetItem(old(items), id).Some?
      ensures GetItem(items, id).None?
      ensures users == old(users) && carts == old(carts)
    {
      var before := |items|;
      items := RemoveKey(items, ItemId, id);
      removed := |items| != before;
    }

    /**
     * `getCart`: the user's stored cart; when there is none, an empty cart is
     * pushed and returned, so a second call finds it and adds nothing.
     */
    method GetCart(userId: string) returns (c: Cart)
      modifies this
      ensures c == CartOf(old(carts), userId)
      ensures FindBy(old(carts), CartOwner, userId).Some? ==> carts == old(carts)
      ensures FindBy(old(carts), CartOwner, userId).None? ==> carts == old(carts) + [c]
      ensures FindBy(carts, CartOwner, userId) == Some(c)
      ensures UniqueKeys(old(carts), CartOwner) ==> UniqueKeys(carts, CartOwner)
      ensures users == old(users) && items == old(items)
    {
      var found := FindBy(carts, CartOwner, userId);
      if found.Some? {
        c := found.value;
      } else {
        c := Cart(userId, []);
        carts := carts + [c];
        FindByAppend(old(carts), c, CartOwner);
        if UniqueKeys(old(carts), CartOwner) {
          UpsertUniqueKeys(old(carts), c, CartOwner);
        }
      }
    }

    /** `saveCart`: upsert by owner, so each user keeps at most one cart. */
    method SaveCart(cart: Cart) returns (r: Cart)
      modifies this
      ensures r == cart
      ensures carts == Upsert(old(carts), cart, CartOwner)
      ensures FindBy(carts, CartOwner, cart.userId) == Some(cart)
      ensures UniqueKeys(old(carts), CartOwner) ==> UniqueKeys(carts, CartOwner)
      ensures users == old(users) && items == old(items)
    {
      var idx := IndexOf(carts, CartOwner, cart.userId);
      if idx == -1 {
        carts := carts + [cart];
      } else {
        carts := carts[idx := cart];
      }
      if UniqueKeys(old(carts), CartOwner) {
        UpsertUniqueKeys(old(carts), cart, CartOwner);
      }
      r := cart;
    }
  }
}
