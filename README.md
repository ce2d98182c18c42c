# HarvestHub core, modelled in Dafny

HarvestHub is a food-donation web application: a Flask back end keeps
users, food listings and matches (claims) in SQLite, and a browser script
signs users in, keeps their session in localStorage, posts listings,
renders listing cards and claims listings.

This project models the rules of that code that can be stated and checked:

- **Back end** (`backend.dfy`, `models.dfy`, `bearer.dfy`). The three
  tables live in a `Store` class (`users`, `listings`, `matches` as
  sequences, plus a logical clock for `created_at`). The handlers
  `register`, `login`, `add_food`, `get_food` and `claim_food` are methods
  that answer with a status code and a body and update the tables in
  place. The `token_required` decorator is the pure function
  `TokenRequired`; its `Authorization: Bearer <token>` parsing, including
  Python's `str.split(' ')`, is in module `Bearer`. The store invariant
  `Models.Consistent` holds unique e-mails, row ids, owners and partners
  that exist, creation times that increase, and "an available listing has
  no match, a matched listing exactly one". Every handler keeps it.
- **Client session store** (`session.dfy`). localStorage is a
  `map<string, string>` in a `SessionStore` class. `setUserSession` and
  `clearUserSession` are methods. `getUserSession` is the pure function
  `SessionOf`.
- **Client page logic** (`client.dfy`). The login, register, food-post and
  claim handlers and the dashboard gate are functions from what they read
  to the ordered list of effects they have (notices, a stored session, a
  page opened, a listings reload, a request sent). `renderFoodCard` gives
  the card's slots after their fallbacks. `loadFoodListings` is a method
  of the listings container that fills it card by card.

Foreign code is passed in as function parameters: password hashing and
checking, JWT signing, and JWT decoding (which yields the token's user id,
or nothing when decoding or reading `user_id` raises).

Modelling choices:

- Rows are never deleted, so the primary key of the n-th row of a table is
  n.
- `created_at` is a logical clock that advances on every insertion. So
  `ORDER BY created_at DESC` is the listings table read backwards, and no
  two listings tie.
- The register and login JSON bodies are objects with string values. A
  body is "no data" when it is absent or an empty object, as with
  Python's `if not data`.
- An uploaded photo whose name `secure_filename` reduces to the empty
  string is saved to the upload folder itself, which raises (a 500
  answer). This happens before the field check, and no row is added.
- A token whose user id has no row gives `current_user = None`.
  `add_food` and `claim_food` then fail on `current_user.id` with an
  uncaught `AttributeError` (a 500 answer) and change nothing, which the
  model reproduces. `get_food` never reads `current_user` and answers
  normally.
- `claim_food` with a JSON `null` body fails on `data.get` (500).
- JSON.stringify and JSON.parse of the stored user record are modelled by
  a self-delimiting text encoding and its parser. That pair has the
  property the session code relies on: `Parse(Stringify(u)) == Some(u)`.
- `getUserSession` (app.js line 12) calls `JSON.parse` without a catch.
  So `SessionOf` requires `Readable`: whenever both entries are truthy,
  the stored user text must parse (`Parse`) to a user record. This
  leaves out stored text that JSON.parse rejects, where the script
  throws. It also leaves out well-formed JSON that is not a user record,
  such as `null`, which JavaScript accepts. The session then carries a
  null user, and `claimFood` throws at app.js line 221 when it reads the
  role.
- The client's claim action never calls the server (app.js lines
  228-229). `ClaimEffects` contains no request.

## Model

| member | source | states |
|---|---|---|
| `Models.NewListing` | frontend/backend/models.py:22 | A listing inserted without a status is 'available', with the given id, owner and time. With no match it satisfies the claim rule, and with one match it does not. |
| `Models.NewMatch` | frontend/backend/models.py:30 | A new match is 'pending' and refers to the given listing and partner. |
| `Models.Consistent` | frontend/backend/models.py:6-30 | The store rules: unique, non-empty required columns, row ids, increasing creation times, and the claim rule. Every listing's `user_id`, and every match's `food_id` and `partner_id`, names an existing row, found at index id-1. |
| `Models.UniqueEmailsAtMostOnce` | frontend/backend/models.py:9 | Under the unique-e-mail rule, any e-mail occurs in at most one row, and in exactly one row if it occurs at all. |
| `Models.AddUserKeepsEmailsUnique` | frontend/backend/app.py:55-60 | Adding a user whose e-mail is not yet taken keeps e-mails unique, and afterwards that e-mail is in exactly one row. |
| `Models.AddUserKeepsConsistent` | frontend/backend/app.py:53-60 | Registering a user keeps the whole store invariant: next row id, non-empty name, e-mail and role, fresh e-mail. |
| `Models.AddListingKeepsConsistent` | frontend/backend/app.py:126-137 | Adding a listing keeps the store invariant when the listing is available (the column default), has a description and a location, is owned by an existing user and gets the next id and the current time. |
| `Models.ClaimKeepsConsistent` | frontend/backend/app.py:171-176 | Turning an available listing into a matched one and appending one pending match by an existing partner keeps the store invariant, so a matched listing has exactly one match. |
| `Models.AtMostOneMatchPerListing` | frontend/backend/models.py:26-30 | In a consistent store, at most one match refers to any given food id. |
| `Bearer.Split` | frontend/backend/app.py:33 | Python's `str.split(sep)` always returns at least one piece, and no piece contains the separator. |
| `Bearer.JoinSplit` | frontend/backend/app.py:33 | Joining the pieces of a split with the separator gives back the original string. |
| `Bearer.ExtractToken` | frontend/backend/app.py:29-35 | A token that is extracted is never empty and contains no space. |
| `Bearer.ExtractTokenSpec` | frontend/backend/app.py:29-35 | A token is extracted exactly when the header is present, starts with "Bearer ", and the text up to the next space is non-empty. The token is that text. Otherwise the answer is "Token is missing!". |
| `Bearer.BearerHeader` | frontend/app.js:136 | The client's header `Bearer ${token}` passes the server's prefix test. The second piece of its split at spaces is the token up to its first space. |
| `Bearer.BearerRoundTrip` | frontend/app.js:174-177 | The header `Bearer ${token}` that the client builds, parsed by the server, gives back any non-empty token without spaces. |
| `Backend.FindByEmail` | frontend/backend/app.py:84 | The e-mail lookup finds the first row with that e-mail, and finds nothing exactly when no row has it. |
| `Backend.IndexOfId` | frontend/backend/app.py:38 | `query.get` by primary key either finds a row that carries the id or shows that no row carries it. |
| `Backend.UserIndex` | frontend/backend/app.py:38 | Lookup by user id finds a row with that id, or reports that no row has it. |
| `Backend.ListingIndex` | frontend/backend/app.py:170 | Lookup by listing id finds a row with that id, or reports that no row has it. |
| `Backend.RowLookup` | frontend/backend/models.py:7 | In a consistent store, the row with id n is row n-1, and ids outside 1..size find nothing. |
| `Backend.TokenRequired` | frontend/backend/app.py:26-41 | No token gives 401 "Token is missing!". A token that does not decode gives 401 "Token is invalid!". Otherwise the request goes on with the user of the decoded id, which is a row of the table, or with no user when no row has that id. |
| `Backend.NewestFirst` | frontend/backend/app.py:143 | The ordered query returns as many listings as the table holds, and its k-th entry is the k-th row from the end. |
| `Backend.NewestFirstPermutes` | frontend/backend/app.py:143 | The newest-first list holds every listing exactly as often as the table does. |
| `Backend.NewestFirstIsOrderedQuery` | frontend/backend/app.py:143 | When creation times increase row by row, the listings in newest-first order contain every listing as often as the table does and are sorted by `created_at`, newest first. |
| `Backend.Entry` | frontend/backend/app.py:146-156 | An entry copies the listing's id, photo URL, description, location, quantity and shelf life, and gives its status as text. The poster name is 'Unknown' when no user has the listing's `user_id`, and otherwise is the name of a user with that id. |
| `Backend.EntryPosterName` | frontend/backend/app.py:146-155 | In a consistent store, every GET /food entry's poster name is the name of the listing's owner. It is never the 'Unknown' fallback unless the owner is named so, and never empty. |
| `Backend.Store.constructor` | frontend/backend/app.py:184-185 | A fresh database has empty tables and is consistent. |
| `Backend.Store.Register` | frontend/backend/app.py:45-73 | No data gives 400. A missing or empty name, e-mail, password or role gives 400 "Missing required fields". A taken e-mail gives 409. In all three cases the table is unchanged. Otherwise exactly one user is appended (with the hashed password, the next id and the current time) and the answer is 201 with the user's id, name, email and role (the answer type has no password field) and the token. The new e-mail is then in exactly one row. The store stays consistent. |
| `Backend.Store.Login` | frontend/backend/app.py:76-99 | No data gives 400. A missing e-mail or password gives 400 "Missing email or password". An unknown e-mail, or a password that fails the hash check against the first row with that e-mail, gives 401 "Invalid credentials". Otherwise the answer is 200 with that row's public fields and its token. Nothing changes. |
| `Backend.Store.AddFood` | frontend/backend/app.py:113-138 | Authentication failures are passed through. A photo whose secured name is empty gives 500, because the save fails. Then a missing description or location gives 400. In these cases the listings are unchanged. With no current user the answer is 500 and nothing changes. Otherwise exactly one available listing is appended, owned by the current user, with `photo_url` `/uploads/<name>` or None when no photo was sent, and the answer is 201. |
| `Backend.Store.GetFood` | frontend/backend/app.py:142-157 | After authentication the answer is 200 with one entry per listing, in newest-first order. Each entry carries the poster's name, or 'Unknown' when the lookup fails. Nothing changes. |
| `Backend.Store.RecordClaim` | frontend/backend/app.py:173-176 | A claim's table update turns the listing to matched and appends exactly one pending match. Afterwards exactly one match refers to the listing, and the store stays consistent. |
| `Backend.Store.ClaimFood` | frontend/backend/app.py:165-177 | Authentication failures are passed through. A JSON `null` body gives 500. A missing or zero `food_id` gives 400. A nonexistent listing, or one that is not available, gives 404. An available listing with no current user gives 500. In these cases nothing changes. Otherwise the listing becomes matched and exactly one `Match(food_id, current user, pending)` is appended. The answer is 200, and afterwards exactly one match refers to that listing. |
| `Backend.ClaimTwice` | frontend/backend/app.py:171-177 | Claiming the same available listing twice gives 200 and then 404 "Food not available", and adds exactly one match. |
| `ClientSession.Stringify` | frontend/app.js:6 | The stored user text is never empty, so a stored user is always truthy. |
| `ClientSession.ParseStringify` | frontend/app.js:6-12 | Parsing the stored text of a user gives back that user. |
| `ClientSession.SessionOf` | frontend/app.js:9-13 | A session is returned exactly when both keys are present and both stored strings are non-empty. It holds the parsed user and the stored token. |
| `ClientSession.SetThenGet` | frontend/app.js:5-12 | After storing a user and a non-empty token, reading the session gives that user and token, whatever else the storage holds. |
| `ClientSession.SetEmptyTokenGivesNoSession` | frontend/app.js:12 | A session stored with an empty token reads as null, because of the `user && token` test. |
| `ClientSession.MissingEntryGivesNoSession` | frontend/app.js:10-12 | Storage that lacks either key reads as null. |
| `ClientSession.SessionStore.SetUserSession` | frontend/app.js:5-8 | Writes exactly the two session keys and leaves every other entry unchanged. It then reads back as the session when the token is non-empty, and as null otherwise. |
| `ClientSession.SessionStore.ClearUserSession` | frontend/app.js:14-17 | Removes exactly the two session keys and leaves every other entry unchanged. Afterwards no session is read, and clearing again changes nothing. |
| `ClientPages.AuthEffects` | frontend/app.js:60-112 | The login and register handlers store a session only when the reply is ok and carries a non-empty token. In that case they store it, show the success notice and open the dashboard, in that order. Otherwise they show only an error: the server's message, else "Login failed" / "Registration failed", or "Network error" when the request throws. |
| `ClientPages.LoginEffects` | frontend/app.js:60-83 | A successful login stores the session, shows "Login successful!" and opens the dashboard. A refused login shows the server's message, or "Login failed" when there is none. A thrown request shows "Network error". |
| `ClientPages.RegisterEffects` | frontend/app.js:88-113 | The same for registration, with "Registration successful!" and "Registration failed". |
| `ClientPages.StoredSessionReadsBack` | frontend/app.js:72-73 | The session that a successful login or registration stores reads back as the user and token the server sent. |
| `ClientPages.PostFoodEffects` | frontend/app.js:118-150 | Without a session, the only effect is "Please login first", and no request is sent. With a session, exactly one request is sent first, with `Bearer <token>`. Then come "Food posted!", a reload and a form reset on success, the server's message or "Failed to post food" on failure, and "Network error" when the request throws. |
| `ClientPages.PostedHeaderCarriesToken` | frontend/app.js:134-138 | The server extracts the session's token from the header of the food post, when the token has no spaces. |
| `ClientPages.ClaimEffects` | frontend/app.js:214-231 | With no session, the only effect is "Please login first", with no reload. A 'supplier' gets "Processing payment (simulated)..." and then "Payment successful! Food claimed.". Any other role gets "Food claimed!". Both role paths end with a reload using the session's token, and no claim request is ever sent. |
| `ClientPages.ClaimEndsWithReload` | frontend/app.js:220-230 | Every effect before the last is a notice, and a reload happens only as the last effect of a claim that has a session. |
| `ClientPages.DashboardEffects` | frontend/app.js:48-55 | The dashboard without a session opens the login page. With a session it loads the listings with that session's token. |
| `ClientPages.DashboardGate` | frontend/app.js:9-13 | The dashboard opens the login page exactly when the storage lacks a truthy user or token. Otherwise it reloads the listings with the stored token. |
| `ClientPages.SignInThenDashboard` | frontend/app.js:72-75 | After a successful login or registration stores its session on any storage, the dashboard reloads the listings with the server's token. |
| `ClientPages.ClearThenDashboard` | frontend/app.js:14-17 | After both session entries are removed, whatever else the storage holds, the dashboard opens the login page. |
| `ClientPages.Logout` | frontend/app.js:39-45 | Logout clears both session keys, so no session is read afterwards, and then opens the login page. A dashboard loaded afterwards opens the login page again. |
| `Wrappers.OrElse` | frontend/app.js:200 | JavaScript `v \|\| fallback` gives `v` when it is a non-empty string and the fallback otherwise, so a non-empty fallback makes the result non-empty. |
| `ClientPages.RenderFoodCard` | frontend/app.js:192-212 | A falsy `photo_url` shows the fixed Unsplash image. A falsy `quantity` or `shelf_life` shows 'N/A'. A falsy `poster_name` shows 'Unknown'. Truthy values are shown as they are. So the photo, quantity, shelf-life and poster slots are never empty. The description and location are shown as they are. |
| `ClientPages.CardNamesOwner` | frontend/app.js:207 | Cards rendered from the GET /food answer of a consistent store name each listing's owner as the poster. |
| `ClientPages.ListingsPanel.LoadFoodListings` | frontend/app.js:170-190 | When the reply is ok and `food` is an array, the container holds exactly one card per item, in array order; an empty array leaves it empty, not showing "none found". Any other reply shows "No food listings found.". A thrown request shows "Failed to load listings.". |

## Left out

- Flask routing, request and response objects, CORS, dotenv, the upload
  route (`send_from_directory`) and the `/` and `/profile` routes, which
  are not part of the modelled core.
- Concurrency. Requests are modelled one at a time, and each handler's
  table update is one step. `app.run(debug=True)` (app.py line 186) serves
  requests on threads, and no handler locks anything. Two claims of one
  available listing can both pass the status check at app.py line 171
  before either commits. Both then append a match, which breaks
  `Models.AtMostOneMatchPerListing` and `Backend.ClaimTwice`. Two
  registrations with one new e-mail can both pass the check at app.py
  line 55. The unique index then refuses the second insert with an
  uncaught error, which is a 500 answer.
- SQLAlchemy sessions and commits. Column length limits are not modelled (SQLite does not enforce
  them).
- `datetime.utcnow()`: `created_at` is a logical clock (see above). Two
  rows created in the same clock tick, and the order SQLite gives them,
  are not modelled.
- JWT encoding and decoding, token expiry and werkzeug password hashing:
  these are foreign libraries, passed in as function parameters.
- `secure_filename` itself and the file written by `photo.save`. The model
  takes the already-secured file name. A non-empty name is written before
  the field check, which leaves the tables unchanged. An empty name makes
  the save fail, and the model answers 500 (see above). Other disk errors
  are not modelled.
- `Payment` (models.py lines 35-41): no handler uses it.
- JSON bodies whose values are not strings (register, login) or not
  integers (`food_id`). Flask rejecting a request that is not JSON is
  also not modelled.
- `showMessage`'s element creation, styling and 3-second auto-hide; the
  DOM, the card HTML and the flip animation; the 800 ms and 1200 ms
  delays. Only the order of effects is modelled.
- The random quantity and shelf-life estimates that the food form posts
  (app.js lines 131-132).
- The exact JSON text of the stored user; see `Stringify` above.
- `loadFoodListings` on a page without the listings container, where it
  returns at once.
