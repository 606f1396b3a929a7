# Shop server store and routes in Dafny

This project models the server side of a small shop: a catalog of items,
user accounts and one cart per user, served over a JSON API.

- **The store** (`server/db.js`) keeps a snapshot `{ users, items, carts }`. It offers:
  - user upsert by identifier;
  - a case-insensitive lookup of a user by email;
  - a filtered item list;
  - item create, get, update (a patch merge) and delete;
  - lazy creation of a user's cart, and cart upsert by owner.
- **The route handlers** (`server/server.js`) cover:
  - the bearer-token check;
  - signup and login validation;
  - item create, update and delete;
  - the cart routes: add, set a quantity, remove.

## Modules

- `wrappers.dfy`, module `Wrappers`: `Option`.
- `seqs.dfy`, module `Seqs`: the array primitives the store is built from.
  - `IndexOf` is `findIndex` by key.
  - `FindBy` is `find` by key.
  - `Filter` and `RemoveKey` are `filter`.
  - `Upsert` is "find the index, then push or assign in place". It is the reference definition for `upsertUser`, `saveCart`, `updateItem` and the add and set-quantity cart routes.
  - Lemmas about order (`Subsequence`), idempotence, uniqueness of keys and lookups after an upsert.
- `text.dfy`, module `Text`: `toLowerCase`, `trim`, `includes` and `split("@")[0]`.
- `domain.dfy`, module `Domain`: the records (`User`, `Item`, `ItemPatch`, `Line`, `Cart`, `ItemQuery`, the read `Document`) and the key each collection is searched by.
- `db.dfy`, module `Db`:
  - the queries, as functions of the snapshot;
  - the class `Store`, whose fields `users`, `items` and `carts` are the snapshot's three arrays. The store's mutating operations are its methods, each proved against `Upsert`, `RemoveKey` or an append.
- `carts.dfy`, module `Carts`: what the cart routes do to a cart's lines (`AddLine`, `SetLineQty`, `RemoveLine`) and the cart invariant (one line per item, positive quantities).
- `routes.dfy`, module `Routes`:
  - the handlers, as methods over a `Store` that return `Ok(status, body)` or `Err(Failure(status, message))`, with the source's status codes and messages;
  - the input checks (`BearerToken`, `SignupCheck`, `Login`, `BuildItem`), as functions.

Library calls and randomness are parameters:

- the bcrypt hash of a new password, and a `verify` predicate for `bcrypt.compare`;
- the identifier `nanoid()` would draw;
- token signing (`sign`), and token checking (`verifyToken`), which only `Routes.Authenticate` takes.

The cart routes take the caller's identifier directly; the item routes do not use it. The 401 answers of all these routes for a missing or invalid token are `Routes.Authenticate`'s, and the handlers do not repeat them.

The data model describes cart quantities as at least 1. The code does not enforce this on add: `POST /api/cart` adds whatever `qty` it is given. The model follows the code. `Carts.AddLineAcceptsZero` shows a line of quantity 0 being created. `Carts.AddLinePositive` shows that a positive amount keeps every quantity positive.

## Model

| member | source | states |
|---|---|---|
| Seqs.IndexOf | server/db.js:40 | `findIndex` by key: -1 exactly when no entry has the key, otherwise the index of the first entry that has it |
| Seqs.FindBy | server/db.js:55 | `find` by key: nothing exactly when no entry has the key, otherwise the entry at the first such index |
| Seqs.Filter | server/db.js:77 | `filter`: the result holds exactly the elements that satisfy the predicate, and is as long as the input iff every element does |
| Seqs.RemoveKey | server/db.js:77 | dropping key `k` keeps exactly the entries with another key, leaves no entry with `k`, and keeps the length iff no entry had `k` |
| Seqs.Upsert | server/db.js:40-41 | an absent key appends `x`; a present key keeps the length and changes only the first entry with that key; afterwards a lookup of `x`'s key finds `x` |
| Seqs.FilterSubsequence | server/db.js:60-63 | a filtered array keeps the original order (it is a subsequence) |
| Seqs.FilterFilter | server/db.js:60-63 | filtering by `p` and then by `q` is filtering once by `p && q` |
| Seqs.FilterIdempotent | server/db.js:77 | filtering twice by the same predicate is filtering once |
| Seqs.RemoveKeyIdempotent | server/server.js:168 | removing a key twice gives the same array as removing it once |
| Seqs.RemoveAbsentKey | server/db.js:77 | removing a key no entry has leaves the array unchanged |
| Seqs.RemoveKeySubsequence | server/db.js:77 | removal keeps the remaining entries in their order |
| Seqs.UpsertOtherKey | server/db.js:41 | an upsert leaves the lookup of every other key unchanged |
| Seqs.UpsertUniqueKeys | server/db.js:89-90 | an upsert keeps at most one entry per key |
| Seqs.UpsertFreshKeyUnique | server/db.js:38-43 | an upsert under one key keeps a second key unique when no stored entry shares the new entry's value of it |
| Seqs.UpsertSameKey | server/server.js:148-152 | a second upsert on the same key overrides the first, so lazily creating a cart and then saving it is one upsert |
| Seqs.FindByAppend | server/db.js:68 | after a push, a lookup of the new entry's key finds the new entry exactly when no earlier entry had that key |
| Seqs.FindByAfterUpsert | server/db.js:38-52 | after upserting a user whose email no stored user has, a lookup by that email finds exactly that user |
| Text.Lower | server/db.js:47 | `toLowerCase` keeps the length and maps every letter A-Z to its lower-case form, and every other character to itself |
| Text.LowerIdempotent | server/db.js:47-50 | lowering twice is lowering once |
| Text.Includes | server/db.js:60 | `includes` holds exactly when the needle occurs as a contiguous block at some position |
| Text.Trim | server/server.js:53-54 | `trim` gives a string that is no longer, with no white space at either end, and empty exactly when the input is all white space |
| Text.TrimIsBlock | server/server.js:53-54 | the result of `trim` is a contiguous block of the input, and everything before and after it is white space |
| Text.TrimIdempotent | server/server.js:53-54 | trimming twice is trimming once |
| Text.BeforeAt | server/server.js:70 | `split("@")[0]` is the longest prefix without `@`; when it is shorter than the input, the next character is `@` |
| Db.FindUserByEmail | server/db.js:45-52 | nothing for an empty email; a found user is stored and has the query's email ignoring case, and no earlier user does; nothing found means no user has that email in any case |
| Db.FindUserByEmailIgnoresCase | server/db.js:47-50 | two emails that differ only in letter case find the same user |
| Db.GetUserById | server/db.js:54-56 | a found user is stored and has the identifier, and no earlier user has it; nothing found exactly when no user has it |
| Db.GetItem | server/db.js:67 | a found item is in the catalog and has the identifier, and no earlier item has it; nothing found exactly when no item has it |
| Db.ListItems | server/db.js:58-65 | every listed item is in the catalog and passes every given filter, and every catalog item that passes them all is listed |
| Db.ListItemsIsFilter | server/db.js:58-65 | the chain of optional filters is one filter by the conjunction of the given ones |
| Db.ListItemsSubsequence | server/db.js:58-65 | the list keeps the catalog order |
| Db.ListItemsUnfiltered | server/db.js:58-64 | with no query, no category and no bounds, every item is listed |
| Db.ListItemsExactPrice | server/db.js:62-63 | the price bounds are inclusive: `min = max = p` lists every item priced `p` |
| Db.Merge | server/db.js:72 | the merged item takes each field the patch gives and keeps the others, and its identifier is the route's `id` whatever the patch says |
| Db.CartOf | server/db.js:83-85 | the cart handed out belongs to the user: the stored one when there is one, an empty one otherwise |
| Db.Store.Load | server/db.js:17-29 | an unreadable file, or a collection that is not an array, gives an empty collection; the others are taken as read |
| Db.Store.UpsertUser | server/db.js:38-43 | the users become the upsert of `u` by identifier, which keeps identifiers unique; items and carts are untouched |
| Db.Store.CreateItem | server/db.js:68 | the item is pushed at the end, and with a fresh identifier `getItem` then returns it |
| Db.Store.UpdateItem | server/db.js:69-74 | an unknown id gives nothing and changes nothing; otherwise the merged item replaces the old one, the count is kept, and every other id's lookup is unchanged |
| Db.Store.DeleteItem | server/db.js:75-79 | the result is true exactly when an item had the id; afterwards none has it, and the others are kept |
| Db.Store.GetCart | server/db.js:81-86 | returns the user's cart; pushes an empty one only when the user had none, after which a lookup finds it; one cart per user is preserved |
| Db.Store.SaveCart | server/db.js:87-92 | the carts become the upsert of the cart by owner; a lookup then finds it; one cart per user is preserved |
| Carts.AtLeastOne | server/server.js:161 | `Math.max(1, qty)` is at least 1 and at least `qty`: exactly `qty` when `qty` is at least 1, and exactly 1 otherwise |
| Carts.AddLine | server/server.js:149-151 | adding grows the lines by at most one, and leaves every line for another item where and as it was |
| Carts.AddLineIsUpsert | server/server.js:149-151 | adding is an upsert of the item's line carrying the old quantity plus the amount |
| Carts.AddLineQty | server/server.js:149-151 | adding raises the item's quantity by the amount, and adds a line only when the item had none |
| Carts.AddLineOtherItem | server/server.js:149-151 | adding to one item leaves every other item's quantity unchanged |
| Carts.AddLineOneLinePerItem | server/server.js:149-151 | adding keeps at most one line per item |
| Carts.AddLineTwice | server/server.js:149-151 | adding `a` and then `b` of a new item gives one new line of `a + b` |
| Carts.AddLinePositive | server/server.js:150-151 | a positive amount keeps every quantity positive |
| Carts.AddLineAcceptsZero | server/server.js:145-151 | an amount of 0 creates a line of quantity 0, so the add route alone does not keep quantities positive |
| Carts.SetLineQty | server/server.js:159-161 | nothing exactly when the cart has no line for the item; otherwise an upsert of the line with quantity `max(1, qty)`, with the length and every other line kept |
| Carts.SetLineQtyKeepsInvariant | server/server.js:159-161 | setting a quantity keeps one line per item and positive quantities |
| Carts.RemoveLine | server/server.js:168 | the item's quantity becomes 0; exactly the lines for other items are kept |
| Carts.RemoveLineIdempotent | server/server.js:168 | removing twice is removing once |
| Carts.RemoveAbsentLine | server/server.js:168 | removing an item that is not in the cart leaves the lines unchanged |
| Carts.RemoveLineKeepsInvariant | server/server.js:168 | removal keeps the order of the remaining lines, one line per item and positive quantities |
| Carts.CartScenario | server/server.js:144-171 | 2 of `a1` into an empty cart, then quantity 0 (raised to 1), then removal: `[a1 x2]`, `[a1 x1]`, `[]` |
| Routes.BearerToken | server/server.js:38-39 | a token exactly when the header starts with `Bearer ` and something follows; the header is then the prefix followed by the token |
| Routes.BearerTokenRoundTrip | server/server.js:38-39 | prefixing a non-empty token with `Bearer ` and extracting it gives the token back |
| Routes.Authenticate | server/server.js:37-48 | 401 "Missing token" without a bearer token, 401 "Invalid token" when verification fails, and otherwise the identity the token verifies to |
| Routes.SignupCheck | server/server.js:57-65 | each error exactly when its condition holds and the earlier checks pass (400 missing field, 400 trimmed password shorter than 4, 409 email taken in any letter case); no error exactly when all pass |
| Routes.NewUser | server/server.js:68-74 | the stored user has the new id, the email, the hash and role `user`; the given name, or when it is empty the email's prefix before `@` |
| Domain.Public | server/server.js:77 | the user in a signup or login response carries the identifier, name and email, and no hash or role |
| Routes.Signup | server/server.js:51-78 | a failed check leaves the users unchanged and returns its error; otherwise the new user is upserted and the answer is a token with its public view; emails stay unique ignoring case |
| Routes.SignupKeepsEmailsUnique | server/server.js:63-75 | a signup that passes the checks keeps emails unique ignoring letter case |
| Routes.Login | server/server.js:80-96 | 400 for a missing field; the same 401 "Invalid credentials" for an unknown email and for a wrong password; when the first stored user with that email (ignoring case) has a hash that verifies, 200 with that user's session, and success in no other case |
| Routes.SignupThenLogin | server/server.js:51-96 | after a successful signup, a login with the same email and password returns the new user's session |
| Routes.SignupRefusesEmailInAnyCase | server/server.js:63-64 | once a user is stored, a signup with the same email in any letter case gets 409 |
| Routes.BuildItem | server/server.js:112-121 | 400 exactly when the title is absent or empty or the price is absent; otherwise 201 with the given fields, and category `Misc` when none is given |
| Routes.CreateItemRoute | server/server.js:111-124 | a valid request pushes the built item onto the catalog; an invalid one changes nothing |
| Routes.UpdateItemRoute | server/server.js:126-130 | 404 "Not found" and no change for an unknown id; otherwise 200 with the merged item, which replaces the old one |
| Routes.DeleteItemRoute | server/server.js:132-136 | the items lose every entry with the id; 404 "Not found" exactly when there was none |
| Routes.AddToCart | server/server.js:144-154 | 404 "Item not found" and no cart change when the item is not in the catalog; otherwise 201 with the caller's cart with the amount added (1 when absent), stored by owner upsert, keeping one line per item |
| Routes.SetQuantity | server/server.js:156-164 | 404 "Not in cart" when the cart has no line for the item, with only the lazily created cart added; otherwise 200 with that line set to `max(1, qty)`, stored by owner upsert |
| Routes.RemoveFromCart | server/server.js:166-171 | always 200 with the caller's cart without the item's lines, stored by owner upsert; the very same cart when it had none |

## Left out

- The client (`client/`): React components, `localStorage` and the retrying `fetch` wrapper are UI and network code.
- The Express plumbing of `server/server.js` (CORS, body parsing, the text/plain body fallback, cache headers, the error handler, `listen`): this is transport.
- File reading and writing and JSON parsing (`server/db.js` lines 9-32). The model keeps the snapshot in the `Store` object. `Db.Store.Load` models only the fallback to empty collections, with the file's content given as a `Document`.
- The `GET` routes for the item list, one item and the cart: they hand straight to `Db.ListItems`, `Db.GetItem` and `Db.Store.GetCart`.
- `bcrypt.hash`, `bcrypt.compare`, `jwt.sign`, `jwt.verify` and `nanoid`: these are foreign libraries and randomness. They are parameters of the handlers, so token expiry and hash strength are not modelled.
- `Number(...)` and `String(...)` coercion of request fields, `NaN`, and fields of the wrong JSON type: prices, quantities and bounds are integers, and text fields are strings. An absent or empty price bound is `None`.
- JSON `null` in an item patch: `ItemPatch` has absent or present fields only, and a patch cannot add fields other than those of an item.
- Text.Lower: covers the ASCII letters only, not the full Unicode case mapping of `toLowerCase`.
- Text.Trim: string lengths are counted in characters, not UTF-16 code units.
- `server/seed.js`: random seed data with floating-point prices.
- Concurrent requests and lost updates between two read-modify-write cycles: the model is sequential.
- `/api/auth/me`: `server/server.js` does not define it.
