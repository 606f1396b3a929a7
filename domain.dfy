/**
 * The records kept in the store's snapshot `{ users, items, carts }`, and
 * the key each collection is searched by.
 */
module Domain {
  import opened Wrappers
  import Text

  /** A stored account; `password` holds the bcrypt hash, never the password. */
  datatype User = User(id: string, name: string, email: string, password: string, role: string)

  /** What a response may show of a user: no hash, no role. */
  datatype PublicUser = PublicUser(id: string, name: string, email: string)

  /** A catalog entry; `image` and `description` may be absent. */
  datatype Item = Item(
    id: string,
    title: string,
    category: string,
    price: int,
    image: Option<string>,
    description: Option<string>)

  /** The fields a client may send to update an item; an absent field keeps its old value. */
  datatype ItemPatch = ItemPatch(
    id: Option<string>,
    title: Option<string>,
    category: Option<string>,
    price: Option<int>,
    image: Option<string>,
    description: Option<string>)

  /** One cart line: an item and how many of it. */
  datatype Line = Line(itemId: string, qty: int)

  /** The cart of one user, lines in the order they were first added. */
  datatype Cart = Cart(userId: string, items: seq<Line>)

  /**
   * The item-list filters. An empty `q` or `category` is no filter, as the
   * source skips falsy ones; `None` is an absent or empty price bound.
   */
  datatype ItemQuery = ItemQuery(q: string, category: string, min: Option<int>, max: Option<int>)

  /**
   * The content of the store file as far as it could be read: `Unreadable`
   * when reading or parsing failed; otherwise each collection is `None` when
   * the document holds no array under that name.
   */
  datatype Document =
    | Unreadable
    | Parsed(users: Option<seq<User>>, items: Option<seq<Item>>, carts: Option<seq<Cart>>)

  /** The view of a user that responses carry: identifier, name and email, and nothing else. */
  function Public(u: User): (p: PublicUser)
    ensures p.id == u.id && p.name == u.name && p.email == u.email
  {
    PublicUser(u.id, u.name, u.email)
  }

  // The keys the store searches by.

  function UserId(u: User): string { u.id }

  /** Users are looked up by email case-insensitively. */
  function EmailKey(u: User): string { Text.Lower(u.email) }

  function ItemId(i: Item): string { i.id }

  function CartOwner(c: Cart): string { c.userId }

  function LineItem(l: Line): string { l.itemId }
}
