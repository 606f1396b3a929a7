/**
 * The route logic of `server/server.js`: the bearer check of the `auth`
 * middleware, signup and login, item create/update/delete and the cart
 * routes. Handlers that change the store are methods over a `Store`; the
 * checks on their inputs are functions. Password hashing, token signing and
 * verification and `nanoid` are outside the model: a handler receives the
 * hash and the fresh identifier as arguments, and signing and checking as
 * function arguments.
 */
module Routes {
  import opened Wrappers
  import opened Seqs
  import opened Text
  import opened Domain
  import opened Db
  import opened Carts

  /** An error response: status code and the `message` of its body. */
  datatype Failure = Failure(status: int, message: string)

  /** What a route answers: a success status with its body, or an error. */
  datatype Response<T> = Ok(status: int, value: T) | Err(failure: Failure)

  /** The caller as the token names it (`req.user`). */
  datatype Identity = Identity(id: string, email: string)

  /** The outcome of the `auth` middleware. */
  datatype Auth = Authenticated(user: Identity) | Rejected(failure: Failure)

  /** The body of a successful signup or login. */
  datatype Session = Session(token: string, user: PublicUser)

  /** The fields of an item-create request; `None` is an absent field. */
  datatype ItemInput = ItemInput(
    title: Option<string>,
    category: Option<string>,
    price: Option<int>,
    image: Option<string>,
    description: Option<string>)

  const BearerPrefix := "Bearer "
  const MinPasswordLength := 4
  const DefaultCategory := "Misc"

  const MissingToken := Failure(401, "Missing token")
  const InvalidToken := Failure(401, "Invalid token")
  const CredentialsRequired := Failure(400, "Email & password required")
  const PasswordTooShort := Failure(400, "Password must be at least 4 characters")
  const EmailUsed := Failure(409, "Email already used")
  const InvalidCredentials := Failure(401, "Invalid credentials")
  const TitleAndPriceRequired := Failure(400, "title & price required")
  const NotFound := Failure(404, "Not found")
  const ItemNotFound := Failure(404, "Item not found")
  const NotInCart := Failure(404, "Not in cart")

  // ------------------------------------------------------------------- auth

  /**
   * The token of an `Authorization` header (the empty string when absent):
   * what follows `"Bearer "`, and only when something follows it.
   */
  function BearerToken(header: string): (r: Option<string>)
    ensures r.Some? <==> StartsWith(header, BearerPrefix) && |header| > |BearerPrefix|
    ensures r.Some? ==> r.value != "" && header == BearerPrefix + r.value
  {
    if StartsWith(header, BearerPrefix) && |header| > |BearerPrefix| then
      Some(header[|BearerPrefix|..])
    else
      None
  }

  lemma BearerTokenRoundTrip(token: string)
    requires token != ""
    ensures BearerToken(BearerPrefix + token) == Some(token)
  {
    assert (BearerPrefix + token)[..|BearerPrefix|] == BearerPrefix;
    assert (BearerPrefix + token)[|BearerPrefix|..] == token;
  }

  /**
   * The `auth` middleware: 401 "Missing token" without a bearer token, 401
   * "Invalid token" when the verifier refuses it, else the token's identity.
   */
  function Authenticate(header: string, verifyToken: string -> Option<Identity>): (r: Auth)
    ensures BearerToken(header).None? ==> r == Rejected(MissingToken)
    ensures BearerToken(header).Some? && verifyToken(BearerToken(header).value).None? ==> r == Rejected(InvalidToken)
    ensures BearerToken(header).Some? && verifyToken(BearerToken(header).value).Some? ==>
      r == Authenticated(verifyToken(BearerToken(header).value).value)
    ensures r.Authenticated? ==> exists t :: header == BearerPrefix + t && verifyToken(t) == Some(r.user)
  {
    match BearerToken(header)
    case None => Rejected(MissingToken)
    case Some(t) =>
      match verifyToken(t)
      case None => Rejected(InvalidToken)
      case Some(who) => Authenticated(who)
  }

  // ---------------------------------------------------------- signup, login

  /** Some stored user has this email, ignoring letter case. */
  ghost predicate EmailTaken(users: seq<User>, email: string)
  {
    exists u :: u in users && Lower(u.email) == Lower(email)
  }

  /**
   * The signup checks, in order, on the trimmed email: both fields present
   * (400), a password of at least 4 characters once trimmed (400), an email
   * no user has in any letter case (409).
   */
  function SignupCheck(users: seq<User>, email: string, password: string): (r: Option<Failure>)
    ensures r == Some(CredentialsRequired) <==> email == "" || password == ""
    ensures r == Some(PasswordTooShort) <==>
      email != "" && password != "" && |Trim(password)| < MinPasswordLength
    ensures r == Some(EmailUsed) <==>
      email != "" && |Trim(password)| >= MinPasswordLength && EmailTaken(users, email)
    ensures r.None? <==>
      email != "" && |Trim(password)| >= MinPasswordLength && !EmailTaken(users, email)
  {
    if email == "" || password == "" then Some(CredentialsRequired)
    else if |Trim(password)| < MinPasswordLength then Some(PasswordTooShort)
    else if FindUserByEmail(users, email).Some? then Some(EmailUsed)
    else None
  }

  /**
   * The user a signup stores: role "user", and for an empty name the part
   * of the email before its first `@`.
   */
  function NewUser(id: string, name: string, email: string, passwordHash: string): (u: User)
    ensures u.id == id && u.email == email && u.password == passwordHash && u.role == "user"
    ensures name != "" ==> u.name == name
    ensures name == "" ==> StartsWith(email, u.name) && '@' !in u.name
    ensures name == "" && |u.name| < |email| ==> email[|u.name|] == '@'
  {
    User(id, if name != "" then name else BeforeAt(email), email, passwordHash, "user")
  }

  /**
   * POST /api/auth/signup. Name and email are trimmed; the password is not.
   * On success the new user is upserted by its identifier and the answer is a
   * token with the public view of the user, which carries no hash.
   */
  method Signup(
    store: Store, name: string, email: string, password: string,
    newId: string, passwordHash: string, sign: (string, string) -> string)
    returns (r: Response<Session>)
    modifies store
    ensures var check := SignupCheck(old(store.users), Trim(email), password);
      check.Some? ==> r == Err(check.value) && store.users == old(store.users)
    ensures var u := NewUser(newId, Trim(name), Trim(email), passwordHash);
      SignupCheck(old(store.users), Trim(email), password).None? ==>
        r == Ok(200, Session(sign(u.id, u.email), Public(u))) &&
        store.users == Upsert(old(store.users), u, UserId)
    ensures UniqueKeys(old(store.users), EmailKey) ==> UniqueKeys(store.users, EmailKey)
    ensures store.items == old(store.items) && store.carts == old(store.carts)
  {
    var n := Trim(name);
    var e := Trim(email);
    var check := SignupCheck(store.users, e, password);
    if check.Some? {
      return Err(check.value);
    }
    var user := NewUser(newId, n, e, passwordHash);
    ghost var before := store.users;
    var _ := store.UpsertUser(user);
    if UniqueKeys(before, EmailKey) {
      SignupKeepsEmailsUnique(before, n, e, password, newId, passwordHash);
    }
    var token := sign(user.id, user.email);
    r := Ok(200, Session(token, Public(user)));
  }

  /**
   * POST /api/auth/login. Both fields are required (400); an unknown email
   * and a wrong password get the same 401 "Invalid credentials".
   */
  function Login(
    users: seq<User>, email: string, password: string,
    verify: (string, string) -> bool, sign: (string, string) -> string): (r: Response<Session>)
    ensures Trim(email) == "" || password == "" ==> r == Err(CredentialsRequired)
    ensures Trim(email) != "" && password != "" && !EmailTaken(users, Trim(email)) ==>
      r == Err(InvalidCredentials)
    ensures var found := FindUserByEmail(users, Trim(email));
      password != "" && found.Some? && !verify(password, found.value.password) ==>
        r == Err(InvalidCredentials)
    ensures var found := FindUserByEmail(users, Trim(email));
      password != "" && found.Some? && verify(password, found.value.password) ==>
        r == Ok(200, Session(sign(found.value.id, found.value.email), Public(found.value)))
    ensures r.Ok? ==> exists u :: u in users && Lower(u.email) == Lower(Trim(email)) &&
                                  verify(password, u.password) &&
                                  r == Ok(200, Session(sign(u.id, u.email), Public(u)))
  {
    var e := Trim(email);
    if e == "" || password == "" then Err(CredentialsRequired)
    else
      match FindUserByEmail(users, e)
      case None => Err(InvalidCredentials)
      case Some(u) =>
        if !verify(password, u.password) then Err(InvalidCredentials)
        else Ok(200, Session(sign(u.id, u.email), Public(u)))
  }

  /** After a successful signup, logging in with the same email and password finds the new user. */
  lemma SignupThenLogin(
    users: seq<User>, name: string, email: string, password: string, newId: string,
    passwordHash: string, verify: (string, string) -> bool, sign: (string, string) -> string)
    requires SignupCheck(users, Trim(email), password).None?
    requires verify(password, passwordHash)
    ensures var u := NewUser(newId, Trim(name), Trim(email), passwordHash);
      Login(Upsert(users, u, UserId), email, password, verify, sign) ==
        Ok(200, Session(sign(newId, Trim(email)), Public(u)))
  {
    var e := Trim(email);
    var u := NewUser(newId, Trim(name), e, passwordHash);
    assert FindBy(users, EmailKey, Lower(e)).None?;
    FindByAfterUpsert(users, u, UserId, EmailKey, Lower(e));
  }

  /**
   * A signup that passes the checks keeps emails unique ignoring letter
   * case: the 409 check refuses exactly the emails already taken.
   */
  lemma SignupKeepsEmailsUnique(
    users: seq<User>, name: string, email: string, password: string, newId: string, passwordHash: string)
    requires SignupCheck(users, email, password).None?
    requires UniqueKeys(users, EmailKey)
    ensures UniqueKeys(Upsert(users, NewUser(newId, name, email, passwordHash), UserId), EmailKey)
  {
    var u := NewUser(newId, name, email, passwordHash);
    forall j | 0 <= j < |users|
      ensures EmailKey(users[j]) != EmailKey(u)
    {
      assert users[j] in users;
    }
    UpsertFreshKeyUnique(users, u, UserId, EmailKey);
  }

  /** Once a user is stored, a signup with the same email in any letter case is refused with 409. */
  lemma SignupRefusesEmailInAnyCase(users: seq<User>, u: User, email: string, password: string)
    requires Lower(email) == Lower(u.email) && email != ""
    requires |Trim(password)| >= MinPasswordLength
    ensures SignupCheck(Upsert(users, u, UserId), email, password) == Some(EmailUsed)
  {
    assert u in Upsert(users, u, UserId);
  }

  // ------------------------------------------------------------------ items

  /**
   * The item a create request makes: 400 unless the title is non-empty and a
   * price is given; the category is "Misc" when absent or empty.
   */
  function BuildItem(input: ItemInput, id: string): (r: Response<Item>)
    ensures r.Err? <==> input.title.None? || input.title == Some("") || input.price.None?
    ensures r.Err? ==> r.failure == TitleAndPriceRequired
    ensures r.Ok? ==> r.status == 201 && r.value.id == id && r.value.title != "" &&
                      Some(r.value.title) == input.title && Some(r.value.price) == input.price &&
                      r.value.image == input.image && r.value.description == input.description
    ensures r.Ok? ==> r.value.category != ""
    ensures r.Ok? && input.category.Some? && input.category.value != "" ==>
      r.value.category == input.category.value
    ensures r.Ok? && (input.category.None? || input.category == Some("")) ==>
      r.value.category == DefaultCategory
  {
    match (input.title, input.price)
    case (Some(title), Some(price)) =>
      if title == "" then Err(TitleAndPriceRequired)
      else
        var category := if input.category.Some? && input.category.value != "" then input.category.value else DefaultCategory;
        Ok(201, Item(id, title, category, price, input.image, input.description))
    case _ => Err(TitleAndPriceRequired)
  }

  /** POST /api/items: on a valid request the new item is pushed onto the catalog. */
  method CreateItemRoute(store: Store, input: ItemInput, newId: string) returns (r: Response<Item>)
    modifies store
    ensures r == BuildItem(input, newId)
    ensures r.Ok? ==> store.items == old(store.items) + [r.value]
    ensures r.Err? ==> store.items == old(store.items)
    ensures store.users == old(store.users) && store.carts == old(store.carts)
  {
    r := BuildItem(input, newId);
    if r.Ok? {
      var _ := store.CreateItem(r.value);
    }
  }

  /** PUT /api/items/:id: 404 for an unknown id, else the merged item. */
  method UpdateItemRoute(store: Store, id: string, patch: ItemPatch) returns (r: Response<Item>)
    modifies store
    ensures GetItem(old(store.items), id).None? ==> r == Err(NotFound) && store.items == old(store.items)
    ensures GetItem(old(store.items), id).Some? ==>
      r == Ok(200, Merge(GetItem(old(store.items), id).value, patch, id)) &&
      store.items == Upsert(old(store.items), r.value, ItemId)
    ensures store.users == old(store.users) && store.carts == old(store.carts)
  {
    var updated := store.UpdateItem(id, patch);
    if updated.None? {
      return Err(NotFound);
    }
    r := Ok(200, updated.value);
  }

  /** DELETE /api/items/:id: 404 when no item had the id. */
  method DeleteItemRoute(store: Store, id: string) returns (r: Response<bool>)
    modifies store
    ensures store.items == RemoveKey(old(store.items), ItemId, id)
    ensures r == if GetItem(old(store.items), id).Some? then Ok(200, true) else Err(NotFound)
    ensures store.users == old(store.users) && store.carts == old(store.carts)
  {
    var ok := store.DeleteItem(id);
    if !ok {
      return Err(NotFound);
    }
    r := Ok(200, true);
  }

  // ------------------------------------------------------------------- cart

  /**
   * POST /api/cart: 404 without touching any cart when the item is not in
   * the catalog; otherwise the caller's cart with `qty` (1 when absent) added.
   */
  method AddToCart(store: Store, userId: string, itemId: string, qty: Option<int>) returns (r: Response<Cart>)
    modifies store
    ensures GetItem(old(store.items), itemId).None? ==>
      r == Err(ItemNotFound) && store.carts == old(store.carts)
    ensures GetItem(old(store.items), itemId).Some? ==>
      var amount := if qty.Some? then qty.value else 1;
      var cart := Cart(userId, AddLine(CartOf(old(store.carts), userId).items, itemId, amount));
      r == Ok(201, cart) && store.carts == Upsert(old(store.carts), cart, CartOwner)
    ensures r.Ok? && OneLinePerItem(CartOf(old(store.carts), userId).items) ==> OneLinePerItem(r.value.items)
    ensures store.users == old(store.users) && store.items == old(store.items)
  {
    if GetItem(store.items, itemId).None? {
      return Err(ItemNotFound);
    }
    var amount := if qty.Some? then qty.value else 1;
    var cart := store.GetCart(userId);
    ghost var before := cart;
    var lines := cart.items;
    var idx := IndexOf(lines, LineItem, itemId);
    if idx == -1 {
      lines := lines + [Line(itemId, amount)];
    } else {
      lines := lines[idx := lines[idx].(qty := lines[idx].qty + amount)];
    }
    AddLineSteps(before.items, itemId, amount, idx, lines);
    cart := Cart(userId, lines);
    var _ := store.SaveCart(cart);
    r := Ok(201, cart);
    assert store.carts == Upsert(old(store.carts), cart, CartOwner) by {
      UpsertSameKey(old(store.carts), before, cart, CartOwner);
    }
    if OneLinePerItem(before.items) {
      AddLineOneLinePerItem(before.items, itemId, amount);
    }
  }

  /**
   * PATCH /api/cart/:itemId: 404 when the caller's cart has no line for the
   * item (the cart is still created if the caller had none); otherwise the
   * line's quantity becomes max(1, qty).
   */
  method SetQuantity(store: Store, userId: string, itemId: string, qty: int) returns (r: Response<Cart>)
    modifies store
    ensures var before := CartOf(old(store.carts), userId);
      SetLineQty(before.items, itemId, qty).None? ==>
        r == Err(NotInCart) &&
        store.carts == if FindBy(old(store.carts), CartOwner, userId).Some? then old(store.carts)
                       else old(store.carts) + [before]
    ensures var before := CartOf(old(store.carts), userId);
      SetLineQty(before.items, itemId, qty).Some? ==>
        var cart := Cart(userId, SetLineQty(before.items, itemId, qty).value);
        r == Ok(200, cart) && store.carts == Upsert(old(store.carts), cart, CartOwner)
    ensures store.users == old(store.users) && store.items == old(store.items)
  {
    var cart := store.GetCart(userId);
    var idx := IndexOf(cart.items, LineItem, itemId);
    if idx == -1 {
      return Err(NotInCart);
    }
    var lines := cart.items[idx := cart.items[idx].(qty := AtLeastOne(qty))];
    cart := cart.(items := lines);
    var _ := store.SaveCart(cart);
    r := Ok(200, cart);
    UpsertSameKey(old(store.carts), CartOf(old(store.carts), userId), cart, CartOwner);
  }

  /**
   * DELETE /api/cart/:itemId: never fails; the caller's cart without any line
   * for the item, and the very same cart when it had none.
   */
  method RemoveFromCart(store: Store, userId: string, itemId: string) returns (r: Response<Cart>)
    modifies store
    ensures var before := CartOf(old(store.carts), userId);
      var cart := Cart(userId, RemoveLine(before.items, itemId));
      r == Ok(200, cart) && store.carts == Upsert(old(store.carts), cart, CartOwner)
    ensures var before := CartOf(old(store.carts), userId);
      FindBy(before.items, LineItem, itemId).None? ==> r == Ok(200, before)
    ensures store.users == old(store.users) && store.items == old(store.items)
  {
    var cart := store.GetCart(userId);
    cart := cart.(items := RemoveLine(cart.items, itemId));
    var _ := store.SaveCart(cart);
    r := Ok(200, cart);
    UpsertSameKey(old(store.carts), CartOf(old(store.carts), userId), cart, CartOwner);
    if FindBy(CartOf(old(store.carts), userId).items, LineItem, itemId).None? {
      RemoveAbsentLine(CartOf(old(store.carts), userId).items, itemId);
    }
  }
}
