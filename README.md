# Expense tracker: accounts, sessions, per-user records and the shopping list

The system is a personal finance web application. An Express server
keeps users, expenses, income and shopping-list items in PostgreSQL. It
signs people up with an emailed verification link, logs them in with a
24-hour session token, and resets passwords through a one-hour emailed
link. Every record route is scoped to the calling user. A React page
keeps a shopping list; confirming a purchase there marks the item
purchased and records the price as a "Shopping" expense.

This project models two parts:

- **The server** (`server.dfy`). It is a class `Server.App` that holds
  - the four tables as maps from id to row;
  - their SERIAL sequence counters.

  It has one method per route. Each method's contract states:
  - the status code and payload;
  - the whole new store, so "nothing else changes" is explicit;
  - that the store invariant `Valid()` is kept. The invariant covers
    unique emails (the `UNIQUE` column of server/db.cjs), owners that
    exist, and the pairing of the reset token with its expiry.

  The supporting modules are:
  - `session.dfy`: the `authenticateToken` middleware;
  - `crypto.dfy`: stand-ins for bcryptjs and jsonwebtoken;
  - `listing.dfy`: `ORDER BY … DESC` as a sort with a proved order;
  - `text.dfy`: JavaScript's `split`, decimal digits and an injective escape.

  `scenarios.dfy` strings calls together: sign-up followed by login, the
  password reset, ownership between two users, and the admin gate.
- **The shopping-list page** (`shopping_list.dfy`). It is a class holding
  the page's React state. Its handlers take each awaited API call's outcome
  as a parameter and return the requests they sent. `total` and
  `purchasedTotal` are pure folds, with lemmas about them.

How the model reads the code:

- **Failures.** Every route takes a `storeDown` flag. It stands for the
  first database statement throwing. The route then answers 500 and changes
  nothing.
- **Auth order.** Authentication runs first and answers 401 or 403. A store
  failure comes next and answers 500. The admin gate, where there is one,
  comes last and answers 403.
- **Sequence values.** A PostgreSQL SERIAL value is spent even when the
  INSERT then fails: on the unique email in register, or on the
  `REFERENCES users(id)` foreign key. The foreign key fails when a token
  names a user id that is not stored; that answers 500.
- **32-bit ids.** Every id column is PostgreSQL `INTEGER`. A path id
  outside its range makes the query fail, so the route answers 500 and
  changes nothing. A sequence that has handed out 2147483647 fails on its
  next `nextval`, so that insert answers 500 and changes nothing.
- **Single-precision amounts.** `amount` and `price` are PostgreSQL `REAL`.
  A value that rounds to infinity or underflows to zero there is refused
  when the parameters are bound, before the INSERT draws an id, so the
  route answers 500 and changes nothing (`IsReal4`).
- **The secret.** `SECRET_KEY` falls back to `'default-secret-key'` when the
  variable is unset or empty, so the server's secret is never empty.
- **Ambiguous lookups.** Where the code takes `rows[0]` of a query that can
  match several users (the same verification or reset token), the model
  picks one of them. Its contract holds whichever is picked.
- **Purchase with two calls.** In `handlePurchaseConfirm`, if the
  mark-purchased call succeeds and the add-expense call fails, the page is
  left unchanged. The server row is purchased by then. The contract of
  `ConfirmPurchase` states both the calls sent and the unchanged page.
- **Zero as a price.** `parseFloat(...) || x` treats a parsed 0 like NaN.
  So a purchase confirmed at price 0 records a 0 expense but keeps the
  item's old price. `OrElse` models this.

## Model

| member | source | states |
|---|---|---|
| Text.Split | server/server.cjs:57 | `split(' ')` as used on the header: at least one field, no field holds the separator, and joining the fields with it gives back the input |
| Session.BearerToken | server/server.cjs:56-59 | the token taken from the header is the second space-separated word; when it exists it is non-empty and holds no space |
| Session.Authenticate | server/server.cjs:55-66 | "no token" exactly when the header has no non-empty second word; an accepted request's identity is exactly the payload the token verifies to; a refused token is one the verifier did not accept |
| Session.BearerTokenOf | server/server.cjs:57 | any first word (the scheme is never checked), a space, then a space-free token: that token is the one used |
| Session.NoSecondWord | server/server.cjs:57-59 | a header with no space, or one ending in its only space, carries no token and gets 401 for any secret and at any time |
| Session.SignedTokenAuthenticates | server/server.cjs:61-64 | a token signed with the server's secret authenticates as exactly its claims before its expiry second and is refused (403) from then on |
| Session.SessionLifetime | server/server.cjs:138 | the token a login issues identifies `{id, email}` until 24 hours (86400 s) after the login second, and is refused from then on |
| Session.ForeignTokenRefused | server/server.cjs:61-62 | a token signed with any other secret is refused whatever its claims |
| Jwt.Issue | server/server.cjs:138 | the claims carry the user's id and email, `iat` is the login time in whole seconds, and `exp` is `iat` + 86400 |
| Jwt.DecodePayloadText | server/server.cjs:138 | the payload's text decodes back to exactly the claims it was made from |
| Jwt.SignSegments | server/server.cjs:138 | a signed token has three dot-separated segments (header, payload, MAC) and no space |
| Jwt.VerifySign | server/server.cjs:61-63 | verifying a token with the secret it was signed with returns its claims, or "expired" once the clock in seconds reaches `exp` |
| Jwt.Verify | server/server.cjs:61-62 | a token is accepted only when it is the header, a payload holding the returned claims and this secret's code over those two, and only before the claims' expiry second; an expired verdict is likewise given only to such a token |
| Jwt.MacInjective | server/server.cjs:61 | equal MACs come from equal secrets over equal data |
| Jwt.ForeignSecretRejected | server/server.cjs:61-62 | a token signed under another secret fails the signature check |
| Bcrypt.Significant | server/server.cjs:71 | the bcrypt key of a password is 72 characters long: the password's first 72 when it has that many, and otherwise the password and a closing NUL, read round and round |
| Bcrypt.CompareHash | server/server.cjs:131 | a password matches its own hash, and another password matches it exactly when the two have the same bcrypt key (`Significant`) |
| Bcrypt.NulFreeKeys | server/server.cjs:131 | for passwords without NUL, two passwords match exactly when their first 72 characters agree |
| Bcrypt.NulCollision | server/server.cjs:131 | because of the closing NUL, a password and the password, NUL, password again open each other's hash ("a" and "a\0a") |
| Bcrypt.TailIgnored | server/server.cjs:131 | characters after the first 72 are never compared: two passwords sharing a 72-character prefix match each other's hash |
| Listing.SortDesc | server/server.cjs:212 | the listing holds exactly the selected ids, each once, ordered by the key from greatest to least under any total preorder |
| Listing.StrLeTotalPreorder | server/server.cjs:212 | comparing `date` text by code point is total and transitive, so `ORDER BY date DESC` is well defined up to ties |
| Server.Deny | server/server.cjs:59-62 | the middleware's refusal is 401 exactly for a missing token and 403 exactly for a refused one |
| Server.OwnedEntries | server/server.cjs:212 | exactly the owner's rows of the table, each once with its stored contents, latest `date` first |
| Server.OwnedItems | server/server.cjs:276 | exactly the owner's shopping items, each once with its stored contents, newest `created_at` first |
| Server.AllUsers | server/server.cjs:334 | every user, once each, as `{id, name, email, role, status}` and nothing else |
| Server.NewUser | server/server.cjs:75-77 | the inserted row has the given name and email, a hash that exactly the passwords with the given one's bcrypt key match, the fresh verification token, not verified, role User, status Active (the db.cjs defaults) and no reset token |
| Server.ResetLinkWindow | server/server.cjs:189 | `Redeemable` is the query's WHERE clause: a user whose reset was requested at time T redeems exactly its own token, and only while now < T + 3600000 |
| Server.ClearedResetRedeemsNothing | server/server.cjs:199 | once the reset token and expiry are NULL, no token is `Redeemable` at any time |
| Server.RoleChangeTakesEffect | server/server.cjs:319-330 | `AdminIn`, the test `App.IsAdmin` makes at server/server.cjs:321-323, reads the stored role: after a user's role and status are set, that user passes exactly when the new role is Admin, and every other user passes exactly as before |
| Server.SecretKey | server/server.cjs:16 | the key is the environment's value when that is set and non-empty, and `default-secret-key` otherwise; it is never empty |
| Server.App.constructor | server/db.cjs:24-34 | the store starts empty, with every sequence at 1, and satisfies the invariant |
| Server.App.Register | server/server.cjs:69-105 | a new email adds exactly one user with the hashed password, the fresh token, not verified, role User, status Active; a taken email answers 400 "Email already exists" and only spends a sequence value; a store failure or an exhausted sequence (`!CanDraw`) answers 500 and changes nothing |
| Server.App.VerifyEmail | server/server.cjs:107-120 | a held token verifies that one user and clears its token, nothing else changes; an unknown or spent token answers 400 and changes nothing |
| Server.App.Login | server/server.cjs:122-143 | unknown email gives 400, then a wrong password gives 400 "Invalid password", then an unverified account gives 403; only a verified user with the right password receives a 24-hour token for `{id, email}` and `{id, name, email, role}`, without the password |
| Server.App.ForgotPassword | server/server.cjs:145-183 | an unknown email answers 400 and changes nothing; a known one overwrites that user's reset token with the fresh one expiring one hour (3600000 ms) from now, and changes nothing else |
| Server.App.ResetPassword | server/server.cjs:185-207 | only a user holding the token with an expiry strictly after now gets the new password hash, with token and expiry cleared; otherwise 400 and no change |
| Server.App.ListEntries | server/server.cjs:210-217 | GET expenses (and GET income, server/server.cjs:242-249): exactly the caller's rows, latest date first; 401/403 before anything else |
| Server.App.AddEntry | server/server.cjs:219-230 | POST expenses (and POST income, server/server.cjs:251-262): a row owned by the caller under the next id, echoed with that id; other tables unchanged; a caller id with no stored user answers 500 and spends the id; an amount outside the `REAL` range (`!IsReal4`) or an exhausted sequence (`!CanDraw`) answers 500 and changes nothing |
| Server.App.DeleteEntry | server/server.cjs:232-239 | DELETE expenses (and DELETE income, server/server.cjs:264-271): removes the row only when the caller owns it, reporting rowCount 1; otherwise rowCount 0 and no change; an id outside the 32-bit range (`!IsInt32`) answers 500 and changes nothing |
| Server.App.ListShopping | server/server.cjs:274-281 | exactly the caller's shopping items, newest first |
| Server.App.AddShopping | server/server.cjs:283-294 | a new unpurchased item owned by the caller under the next id; a caller id with no stored user answers 500 and spends the id; a price outside the `REAL` range (`!IsReal4`) or an exhausted sequence (`!CanDraw`) answers 500 and changes nothing |
| Server.App.UpdateShopping | server/server.cjs:296-307 | sets the purchased flag only on an item the caller owns (rowCount 1), otherwise rowCount 0 and no change; an id outside the 32-bit range (`!IsInt32`) answers 500 and changes nothing |
| Server.App.DeleteShopping | server/server.cjs:309-316 | removes only an item the caller owns (rowCount 1), otherwise rowCount 0 and no change; an id outside the 32-bit range (`!IsInt32`) answers 500 and changes nothing |
| Server.App.ListUsers | server/server.cjs:319-339 | the caller's role is read from the store now; a missing user or a role other than Admin gets 403 before the listing; an admin gets every user's public fields |
| Server.App.UpdateUser | server/server.cjs:341-352 | behind the same gate, changes only `role` and `status` of the target user and reports whether it existed as rowCount; an id outside the 32-bit range (`!IsInt32`) answers 500 and changes nothing |
| Scenarios.SignUp | server/server.cjs:69-143 | after sign-up, login answers 403 until the emailed link is followed; the link then works once and is refused the second time; the next login's token identifies the new account |
| Scenarios.DuplicateSignUp | server/server.cjs:99-102 | a second sign-up with the same email answers 400 and leaves exactly one account |
| Scenarios.ResetPassword | server/server.cjs:145-207 | on a verified account, after two reset requests only the latest link works and it works once; afterwards login with the old password (whose bcrypt key differs from the new one's) answers 400 "Invalid password" and login with the new one opens a session |
| Scenarios.ResetAfterAnHour | server/server.cjs:188-194 | a reset link presented exactly 3600000 ms after it was issued is refused |
| Scenarios.VerifyTwice | server/server.cjs:110-115 | on any valid store, a verification token held by one account that succeeds once is refused next time |
| Scenarios.ResetTwice | server/server.cjs:188-201 | on any valid store, a reset token held by one account that succeeds once is refused next time, whatever the clock |
| Scenarios.Ownership | server/server.cjs:210-239 | two users sign up, verify and log in; another user's delete of an expense succeeds with rowCount 0, the owner still lists it, and the other user lists nothing |
| Scenarios.AdminGate | server/server.cjs:319-325 | a verified account that logged in and whose stored role is User is refused the user list with 403 |
| Scenarios.OutOfRangeAmount | server/server.cjs:219-230 | an expense of 10^39 answers 500 and draws no id, so the next in-range expense is stored under id 1 |
| Scenarios.DemotionTakesEffect | server/server.cjs:319-352 | on any valid store, an admin who sets their own role to something else gets rowCount 1 and then 403 from the next gated request with the same token |
| ShoppingList.OrElse | src/pages/ShoppingList.jsx:42 | `parseFloat(field) \|\| fallback`: the parsed number when it is non-zero, the fallback for NaN or 0 |
| ShoppingList.Find | src/pages/ShoppingList.jsx:53 | the first item with the id, or none exactly when no item has it |
| ShoppingList.Total | src/pages/ShoppingList.jsx:108 | the estimated total: 0 for an empty list, and never negative when no price is |
| ShoppingList.PurchasedTotal | src/pages/ShoppingList.jsx:109 | the amount already spent: with non-negative prices it lies between 0 and the total |
| ShoppingList.Purchased | src/pages/ShoppingList.jsx:109 | the purchased items and only those |
| ShoppingList.Unmarked | src/pages/ShoppingList.jsx:64 | same length; the items with the id become unpurchased and every other item is unchanged |
| ShoppingList.MarkedPurchased | src/pages/ShoppingList.jsx:89 | same length; the items with the id become purchased with the parsed price if non-zero (else their own), every other item unchanged |
| ShoppingList.Without | src/pages/ShoppingList.jsx:102 | exactly the items whose id differs |
| ShoppingList.TotalAppend | src/pages/ShoppingList.jsx:108 | the total of two lists joined is the sum of their totals |
| ShoppingList.TotalPrepend | src/pages/ShoppingList.jsx:44 | prepending the saved item raises the total by its price |
| ShoppingList.PurchasedAppend | src/pages/ShoppingList.jsx:109 | filtering purchased items distributes over joining lists, so their order is kept |
| ShoppingList.PurchasedTotalAtMostTotal | src/pages/ShoppingList.jsx:108-109 | with non-negative prices, 0 <= (the total of the purchased items) <= total |
| ShoppingList.UnmarkedTotals | src/pages/ShoppingList.jsx:63-64 | un-marking keeps the total and does not raise the purchased total |
| ShoppingList.WithoutAppend | src/pages/ShoppingList.jsx:102 | removal by id works piecewise, so the remaining items keep their order |
| ShoppingList.WithoutIdempotent | src/pages/ShoppingList.jsx:102 | removing an id a second time changes nothing |
| ShoppingList.ShoppingListPage.constructor | src/pages/ShoppingList.jsx:14-23 | empty list, empty inputs, dialog closed, nothing selected, today's date |
| ShoppingList.ShoppingListPage.LoadItems | src/pages/ShoppingList.jsx:29-36 | a fetched list replaces the items; a failed fetch changes nothing |
| ShoppingList.ShoppingListPage.AddItem | src/pages/ShoppingList.jsx:38-50 | an empty name sends nothing and changes nothing; otherwise it sends the name and the price (unparsable gives 0), and on success prepends the saved item to the unchanged list and clears both inputs |
| ShoppingList.ShoppingListPage.ToggleItem | src/pages/ShoppingList.jsx:52-69 | an unpurchased item: no call; select it, set the purchase price to its price and the date to today, open the dialog, items unchanged; a purchased item: sends the un-mark request and on success un-marks items with that id only |
| ShoppingList.ShoppingListPage.ConfirmPurchase | src/pages/ShoppingList.jsx:71-97 | nothing selected: no call, no change; otherwise mark-purchased is sent, then (only if it succeeded) the Shopping expense with the item's name, parsed price or 0 and the chosen date; only when both succeed is the item marked with its new price and the dialog closed and selection cleared; otherwise the page is unchanged |
| ShoppingList.ShoppingListPage.CancelPurchase | src/pages/ShoppingList.jsx:214 | closing the dialog changes only `isPurchaseModalOpen`; the selection stays |
| ShoppingList.ShoppingListPage.DeleteItem | src/pages/ShoppingList.jsx:99-106 | sends the delete request; on success removes exactly the items with that id, preserving the rest |

## Left out

- Email sending (nodemailer's `sendMail` and its callbacks): it is I/O, and its outcome never reaches the response.
- Logging, helmet, the rate limiter, CORS and JSON middleware, static files and the catch-all route: these are library configuration and I/O.
- Bcrypt.Hash: salt and cost factor are not modelled. A hash holds the password's bcrypt key, so comparison succeeds exactly when the keys agree.
- Bcrypt.CompareHash: bcryptjs builds the key from the password's UTF-8 bytes and the model from its characters; `Server.NewUser`'s hash clause reads the same way. The two agree for passwords whose characters all lie below U+0080, NUL included. For other passwords the model's key reads further into the password, so `Scenarios.ResetPassword`'s "old password refused" needs the keys to differ in the bytes bcrypt reads.
- Jwt.Sign: this is not the JWS compact serialisation with base64url and HMAC-SHA256. It is an injective stand-in carrying the same claims, with expiry checked in whole seconds as jsonwebtoken does and no space in the token.
- Jwt.Mac: the stand-in code is injective but not one-way. It escapes the secret itself into the token, so it does not capture that HMAC keeps the secret hidden. No proof relies on unforgeability; `ForeignSecretRejected` relies only on injectivity.
- `crypto.randomBytes`: fresh tokens are parameters. Because of that, their uniqueness is a precondition where a scenario needs it (`SoleVerificationHolder`, `SoleResetHolder`).
- The reset columns: the `users` table that server/db.cjs creates declares no `reset_password_token` or `reset_password_expires`. The model assumes the columns exist, as the routes do. On a database created only by that file, forgot-password still answers 400 "User not found" for an unknown email, because its SELECT names no reset column, and answers 500 for a registered email, because its UPDATE names them. Reset-password answers 500 on every input, because its SELECT filters on `reset_password_token`.
- Request bodies: absent JSON fields (`undefined`, stored as NULL) and a missing `password` in register are not modelled. Such a missing password makes `hashSync` throw before the `try`. Every body field is modelled as a present string or number.
- Path ids: PostgreSQL reads the path text as an `INTEGER` (it allows surrounding spaces and a leading "+", and recent versions also allow "0x10" or "1_000"), and text it cannot read (`abc`, `1.5`) answers 500. Path ids are modelled as the integer PostgreSQL reads them as, and text it cannot read is not modelled. Ids outside the 32-bit `INTEGER` range are modelled, and answer 500.
- Column types: `amount` and `price` are stored as exact reals. The model does not round them to single precision. It does model which values `REAL` refuses, at the exact rounding thresholds, applied to the exact real. `created_at` is the request time in milliseconds.
- Text parameters holding U+0000: PostgreSQL's UTF-8 `TEXT` refuses that character, so the source answers 500 for it on every route with a text parameter (a login with such an email answers 500, not 400). The model accepts every string.
- ShoppingList.Total: the page sums JavaScript doubles, whose additions round. The model sums exact reals, and the same holds for `PurchasedTotal` and the parsed prices.
- Server.OwnedEntries: `ORDER BY date` uses the database's text collation. The model compares code points, and ties come out in some order.
- Server.AllUsers: the query has no ORDER BY, so the model promises the contents only.
- Concurrency: each route is one atomic step on the store. Several statements inside one route are not interleaved with other requests. The page's handlers are also taken one at a time, with no overlapping awaits.
- server/create_admin.cjs (an interactive script), src/api.js (fetch and localStorage), rendering and the other pages are not part of this model.
- The page's input `onChange` setters: each only sets its own field.
