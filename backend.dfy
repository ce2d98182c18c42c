/**
 * The request handlers of the HarvestHub back end as operations on an
 * in-memory store. Each handler takes what the request carries and answers
 * with a status code and a body; routing, JSON and the database session
 * are not modelled.
 *
 * Collaborators that are foreign code are parameters:
 *   - `hash`: werkzeug's `generate_password_hash`;
 *   - `checkPassword(hash, password)`: werkzeug's `check_password_hash`;
 *   - `sign(userId)`: `jwt.encode` of the user id with a one-day expiry;
 *   - `decode(token)`: `jwt.decode` followed by reading `user_id`, `None`
 *     whenever either raises (bad signature, expired, key missing).
 */
module Backend {
  import opened Wrappers
  import opened Models
  import Bearer

  /** The user object that register and login return: no password field. */
  datatype UserView = UserView(id: nat, name: string, email: string, role: string)

  /** One entry of the GET /food answer. */
  datatype FoodView = FoodView(
    id: nat, photoUrl: Option<string>, description: string, location: string,
    quantity: Option<string>, shelfLife: Option<string>, status: string, posterName: string)

  datatype Body =
    | Message(text: string)
    | Auth(user: UserView, token: string)
    | Food(items: seq<FoodView>)
    | ServerError   // an uncaught Python exception: Flask's 500 page

  datatype Response = Response(status: nat, body: Body)

  /** A JSON object whose values are strings. */
  type Json = map<string, string>

  /** The multipart form of POST /food. `photo` is the uploaded file's name
      after `secure_filename`, absent when no file part was sent. It is the
      empty name when `secure_filename` keeps nothing (a name such as
      "../"): `photo.save` then opens the upload folder itself, which
      raises. */
  datatype FoodForm = FoodForm(
    photo: Option<string>, description: Option<string>, location: Option<string>,
    quantity: Option<string>, shelfLife: Option<string>)

  /** The JSON body of POST /match: `null`, or an object whose `food_id` may
      be absent. */
  datatype ClaimBody = NullBody | ClaimObject(foodId: Option<int>)

  /** What `token_required` hands on: an answer that ends the request, or
      the current user (`None` when the token's user id has no row). */
  datatype Guard = Denied(resp: Response) | Granted(current: Option<User>)

  /** `data.get(key)` */
  function Field(data: Json, key: string): Option<string> {
    if key in data then Some(data[key]) else None
  }

  /** `if not data`: no JSON at all, or an empty object. */
  predicate HasData(data: Option<Json>) {
    data.Some? && |data.value| > 0
  }

  predicate RegisterFieldsPresent(d: Json) {
    Truthy(Field(d, "name")) && Truthy(Field(d, "email")) && Truthy(Field(d, "password")) && Truthy(Field(d, "role"))
  }

  predicate LoginFieldsPresent(d: Json) {
    Truthy(Field(d, "email")) && Truthy(Field(d, "password"))
  }

  function View(u: User): UserView {
    UserView(u.id, u.name, u.email, u.role)
  }

  function StatusText(s: ListingStatus): string {
    match s
    case Available => "available"
    case Matched => "matched"
    case PickedUp => "picked_up"
  }

  /** `User.query.filter_by(email=email).first()`, as a row index. */
  function FindByEmail(users: seq<User>, email: string): (r: Option<nat>)
    ensures r.Some? ==> r.value < |users| && users[r.value].email == email
    ensures r.Some? ==> forall k :: 0 <= k < r.value ==> users[k].email != email
    ensures r.None? <==> !EmailTaken(users, email)
  {
    if users == [] then None
    else if users[0].email == email then Some(0)
    else match FindByEmail(users[1..], email)
      case None => None
      case Some(k) => Some(k + 1)
  }

  /** `Model.query.get(id)` on a table whose rows carry their primary key
      `idOf(row)`, as a row index. */
  function IndexOfId<T>(rows: seq<T>, idOf: T -> int, id: int): (r: Option<nat>)
    ensures r.Some? ==> r.value < |rows| && idOf(rows[r.value]) == id
    ensures r.None? ==> forall k :: 0 <= k < |rows| ==> idOf(rows[k]) != id
  {
    if rows == [] then None
    else if idOf(rows[0]) == id then Some(0)
    else match IndexOfId(rows[1..], idOf, id)
      case None => None
      case Some(k) => Some(k + 1)
  }

  /** `User.query.get(id)`, as a row index. */
  function UserIndex(users: seq<User>, id: int): (r: Option<nat>)
    ensures r.Some? ==> r.value < |users| && users[r.value].id == id
    ensures r.None? ==> forall k :: 0 <= k < |users| ==> users[k].id != id
  {
    IndexOfId(users, (u: User) => u.id as int, id)
  }

  /** `FoodListing.query.get(id)`, as a row index. */
  function ListingIndex(listings: seq<FoodListing>, id: int): (r: Option<nat>)
    ensures r.Some? ==> r.value < |listings| && listings[r.value].id == id
    ensures r.None? ==> forall k :: 0 <= k < |listings| ==> listings[k].id != id
  {
    IndexOfId(listings, (l: FoodListing) => l.id as int, id)
  }

  /** In a consistent store the row with id `n` is row `n - 1`: lookups by
      primary key find exactly the ids 1 to the table size. */
  lemma RowLookup(users: seq<User>, listings: seq<FoodListing>, matches: seq<Match>, clock: int, id: int)
    requires Consistent(users, listings, matches, clock)
    ensures UserIndex(users, id) == if 1 <= id <= |users| then Some(id - 1) else None
    ensures ListingIndex(listings, id) == if 1 <= id <= |listings| then Some(id - 1) else None
  {
    if 1 <= id <= |users| {
      assert users[id - 1].id == id;
    }
    if 1 <= id <= |listings| {
      assert listings[id - 1].id == id;
    }
  }

  /** The `token_required` decorator. */
  function TokenRequired(users: seq<User>, header: Option<string>, decode: string -> Option<int>): (g: Guard)
    ensures Bearer.ExtractToken(header).None? ==> g == Denied(Response(401, Message("Token is missing!")))
    ensures Bearer.ExtractToken(header).Some? && decode(Bearer.ExtractToken(header).value).None? ==>
              g == Denied(Response(401, Message("Token is invalid!")))
    ensures g.Granted? <==> Bearer.ExtractToken(header).Some? && decode(Bearer.ExtractToken(header).value).Some?
    ensures g.Granted? && g.current.Some? ==>
              g.current.value in users && g.current.value.id == decode(Bearer.ExtractToken(header).value).value
    ensures g.Granted? && g.current.None? ==>
              forall k :: 0 <= k < |users| ==> users[k].id != decode(Bearer.ExtractToken(header).value).value
  {
    match Bearer.ExtractToken(header)
    case None => Denied(Response(401, Message("Token is missing!")))
    case Some(token) =>
      match decode(token)
      case None => Denied(Response(401, Message("Token is invalid!")))
      case Some(userId) =>
        match UserIndex(users, userId)
        case None => Granted(None)
        case Some(k) => Granted(Some(users[k]))
  }

  /** `ORDER BY created_at DESC` of the listings table. Because the clock
      advances on every insertion, this is the table read backwards. */
  function NewestFirst(listings: seq<FoodListing>): (r: seq<FoodListing>)
    ensures |r| == |listings|
    ensures forall k :: 0 <= k < |r| ==> r[k] == listings[|listings| - 1 - k]
  {
    if listings == [] then [] else [listings[|listings| - 1]] + NewestFirst(listings[..|listings| - 1])
  }

  /** What the query promises: listings in order of `created_at`, newest first. */
  predicate SortedNewestFirst(q: seq<FoodListing>) {
    forall i, j :: 0 <= i < j < |q| ==> q[i].createdAt >= q[j].createdAt
  }

  /** Reading the table backwards keeps every listing, as often as it occurs. */
  lemma {:induction false} NewestFirstPermutes(listings: seq<FoodListing>)
    ensures multiset(NewestFirst(listings)) == multiset(listings)
  {
    if listings != [] {
      var init := listings[..|listings| - 1];
      NewestFirstPermutes(init);
      assert listings == init + [listings[|listings| - 1]];
    }
  }

  /** On a table whose `created_at` increases row by row, NewestFirst holds
      every listing exactly as often as the table does and is sorted newest
      first, which is what the ordered query returns. */
  lemma {:induction false} NewestFirstIsOrderedQuery(listings: seq<FoodListing>)
    requires forall i, j :: 0 <= i < j < |listings| ==> listings[i].createdAt < listings[j].createdAt
    ensures multiset(NewestFirst(listings)) == multiset(listings)
    ensures SortedNewestFirst(NewestFirst(listings))
  {
    NewestFirstPermutes(listings);
    var r := NewestFirst(listings);
    var n := |listings|;
    forall i, j | 0 <= i < j < |r|
      ensures r[i].createdAt >= r[j].createdAt
    {
      assert r[i] == listings[n - 1 - i] && r[j] == listings[n - 1 - j];
    }
  }

  /** One entry of the GET /food answer, with the poster's name or 'Unknown'. */
  function Entry(food: FoodListing, users: seq<User>): (v: FoodView)
    ensures v.id == food.id && v.photoUrl == food.photoUrl && v.description == food.description
    ensures v.location == food.location && v.quantity == food.quantity && v.shelfLife == food.shelfLife
    ensures v.status == StatusText(food.status)
    ensures (forall k :: 0 <= k < |users| ==> users[k].id != food.userId) ==> v.posterName == "Unknown"
    ensures (exists k :: 0 <= k < |users| && users[k].id == food.userId) ==>
              exists k :: 0 <= k < |users| && users[k].id == food.userId && v.posterName == users[k].name
  {
    FoodView(food.id, food.photoUrl, food.description, food.location, food.quantity, food.shelfLife,
             StatusText(food.status),
             match UserIndex(users, food.userId)
             case Some(k) => users[k].name
             case None => "Unknown")
  }

  /** The poster lookup falls back to 'Unknown' exactly when no user has the
      listing's `user_id`; in a consistent store it never does, and every
      entry names the listing's owner. */
  lemma EntryPosterName(users: seq<User>, listings: seq<FoodListing>, matches: seq<Match>, clock: int, k: nat)
    requires Consistent(users, listings, matches, clock)
    requires k < |listings|
    ensures Entry(listings[k], users).posterName == users[listings[k].userId - 1].name
    ensures Entry(listings[k], users).posterName != "Unknown" || users[listings[k].userId - 1].name == "Unknown"
    ensures Entry(listings[k], users).posterName != ""
  {
    RowLookup(users, listings, matches, clock, listings[k].userId);
  }

  /** The database: the three tables and the clock that stamps `created_at`. */
  class Store {
    var users: seq<User>
    var listings: seq<FoodListing>
    var matches: seq<Match>
    var clock: int

    ghost predicate Valid()
      reads this
    {
      Consistent(users, listings, matches, clock)
    }

    /** `db.create_all()` on a fresh database file. */
    constructor ()
      ensures Valid()
      ensures users == [] && listings == [] && matches == []
    {
      users, listings, matches, clock := [], [], [], 0;
    }

    /** POST /register */
    method Register(data: Option<Json>, hash: string -> string, sign: nat -> string) returns (resp: Response)
      requires Valid()
      modifies this
      ensures Valid()
      ensures listings == old(listings) && matches == old(matches)
      ensures !HasData(data) ==>
                resp == Response(400, Message("No input data provided")) && users == old(users)
      ensures HasData(data) && !RegisterFieldsPresent(data.value) ==>
                resp == Response(400, Message("Missing required fields")) && users == old(users)
      ensures HasData(data) && RegisterFieldsPresent(data.value) && EmailTaken(old(users), data.value["email"]) ==>
                resp == Response(409, Message("Email already registered")) && users == old(users)
      ensures resp.status == 201 <==>
                HasData(data) && RegisterFieldsPresent(data.value) && !EmailTaken(old(users), data.value["email"])
      ensures resp.status == 201 ==>
                var d := data.value;
                var u := User(|old(users)| + 1, d["name"], d["email"], hash(d["password"]), d["role"], old(clock));
                && users == old(users) + [u]
                && clock == old(clock) + 1
                && resp == Response(201, Auth(View(u), sign(u.id)))
                && EmailCount(users, u.email) == 1
    {
      if !HasData(data) {
        return Response(400, Message("No input data provided"));
      }
      var d := data.value;
      var name, email, password, role := Field(d, "name"), Field(d, "email"), Field(d, "password"), Field(d, "role");
      if !(Truthy(name) && Truthy(email) && Truthy(password) && Truthy(role)) {
        return Response(400, Message("Missing required fields"));
      }
      if FindByEmail(users, email.value).Some? {
        return Response(409, Message("Email already registered"));
      }
      var user := User(|users| + 1, name.value, email.value, hash(password.value), role.value, clock);
      AddUserKeepsConsistent(users, listings, matches, clock, user);
      AddUserKeepsEmailsUnique(users, user);
      users := users + [user];
      clock := clock + 1;
      resp := Response(201, Auth(View(user), sign(user.id)));
    }

    /** POST /login. It changes nothing. */
    method Login(data: Option<Json>, checkPassword: (string, string) -> bool, sign: nat -> string) returns (resp: Response)
      ensures !HasData(data) ==> resp == Response(400, Message("No input data provided"))
      ensures HasData(data) && !LoginFieldsPresent(data.value) ==>
                resp == Response(400, Message("Missing email or password"))
      ensures HasData(data) && LoginFieldsPresent(data.value) ==>
                var email, password := data.value["email"], data.value["password"];
                match FindByEmail(users, email)
                case None => resp == Response(401, Message("Invalid credentials"))
                case Some(k) =>
                  if checkPassword(users[k].password, password)
                  then resp == Response(200, Auth(View(users[k]), sign(users[k].id)))
                  else resp == Response(401, Message("Invalid credentials"))
      ensures resp.status == 200 ==>
                resp.body.Auth? && resp.body.user in (set u | u in users :: View(u))
    {
      if !HasData(data) {
        return Response(400, Message("No input data provided"));
      }
      var d := data.value;
      var email, password := Field(d, "email"), Field(d, "password");
      if !(Truthy(email) && Truthy(password)) {
        return Response(400, Message("Missing email or password"));
      }
      var found := FindByEmail(users, email.value);
      if found.None? || !checkPassword(users[found.value].password, password.value) {
        return Response(401, Message("Invalid credentials"));
      }
      var user := users[found.value];
      resp := Response(200, Auth(View(user), sign(user.id)));
    }

    /** POST /food */
    method AddFood(header: Option<string>, decode: string -> Option<int>, form: FoodForm) returns (resp: Response)
      requires Valid()
      modifies this
      ensures Valid()
      ensures users == old(users) && matches == old(matches)
      ensures TokenRequired(old(users), header, decode).Denied? ==>
                resp == TokenRequired(old(users), header, decode).resp && listings == old(listings)
      ensures TokenRequired(old(users), header, decode).Granted? && form.photo == Some("") ==>
                resp == Response(500, ServerError) && listings == old(listings)
      ensures TokenRequired(old(users), header, decode).Granted? && form.photo != Some("")
              && !(Truthy(form.description) && Truthy(form.location)) ==>
                resp == Response(400, Message("Missing required fields")) && listings == old(listings)
      ensures TokenRequired(old(users), header, decode) == Granted(None) && form.photo != Some("")
              && Truthy(form.description) && Truthy(form.location) ==>
                resp == Response(500, ServerError) && listings == old(listings)
      ensures resp.status == 201 <==>
                TokenRequired(old(users), header, decode).Granted? && TokenRequired(old(users), header, decode).current.Some?
                && form.photo != Some("") && Truthy(form.description) && Truthy(form.location)
      ensures resp.status == 201 ==>
                var owner := TokenRequired(old(users), header, decode).current.value;
                var photoUrl := if form.photo.Some? then Some("/uploads/" + form.photo.value) else None;
                && listings == old(listings) + [NewListing(|old(listings)| + 1, owner.id, photoUrl,
                                                           form.description.value, form.location.value,
                                                           form.quantity, form.shelfLife, old(clock))]
                && listings[|listings| - 1].status == Available
                && clock == old(clock) + 1
                && resp == Response(201, Message("Food listing added!"))
    {
      var guard := TokenRequired(users, header, decode);
      if guard.Denied? {
        return guard.resp;
      }
      if form.photo == Some("") {
        // `photo.save` on the upload folder itself raises before anything is added.
        return Response(500, ServerError);
      }
      var photoUrl := if form.photo.Some? then Some("/uploads/" + form.photo.value) else None;
      if !(Truthy(form.description) && Truthy(form.location)) {
        return Response(400, Message("Missing required fields"));
      }
      if guard.current.None? {
        // `current_user.id` on None raises AttributeError before anything is added.
        return Response(500, ServerError);
      }
      var owner := guard.current.value;
      var food := NewListing(|listings| + 1, owner.id, photoUrl, form.description.value, form.location.value,
                             form.quantity, form.shelfLife, clock);
      RowLookup(users, listings, matches, clock, owner.id);
      AddListingKeepsConsistent(users, listings, matches, clock, food);
      listings := listings + [food];
      clock := clock + 1;
      resp := Response(201, Message("Food listing added!"));
    }

    /** GET /food. It changes nothing. */
    method GetFood(header: Option<string>, decode: string -> Option<int>) returns (resp: Response)
      ensures TokenRequired(users, header, decode).Denied? ==> resp == TokenRequired(users, header, decode).resp
      ensures TokenRequired(users, header, decode).Granted? ==>
                && resp.status == 200 && resp.body.Food?
                && |resp.body.items| == |listings|
                && forall k :: 0 <= k < |listings| ==> resp.body.items[k] == Entry(NewestFirst(listings)[k], users)
    {
      var guard := TokenRequired(users, header, decode);
      if guard.Denied? {
        return guard.resp;
      }
      var foodList := NewestFirst(listings);
      var result: seq<FoodView> := [];
      var i := 0;
      while i < |foodList|
        invariant 0 <= i <= |foodList|
        invariant |result| == i
        invariant forall k :: 0 <= k < i ==> result[k] == Entry(foodList[k], users)
      {
        var food := foodList[i];
        var poster := UserIndex(users, food.userId);
        result := result + [FoodView(food.id, food.photoUrl, food.description, food.location, food.quantity,
                                     food.shelfLife, StatusText(food.status),
                                     if poster.Some? then users[poster.value].name else "Unknown")];
        i := i + 1;
      }
      resp := Response(200, Food(result));
    }

    /** The table update of a successful claim: listing `k` becomes matched
        and one pending match by `partnerId` is appended. */
    method RecordClaim(k: nat, partnerId: nat)
      requires Valid()
      requires k < |listings| && listings[k].status == Available
      requires 1 <= partnerId <= |users|
      modifies this
      ensures Valid()
      ensures users == old(users)
      ensures listings == old(listings)[k := old(listings)[k].(status := Matched)]
      ensures matches == old(matches) + [NewMatch(|old(matches)| + 1, old(listings)[k].id, partnerId, old(clock))]
      ensures clock == old(clock) + 1
      ensures MatchCount(matches, old(listings)[k].id) == 1
    {
      var food := listings[k];
      var m := NewMatch(|matches| + 1, food.id, partnerId, clock);
      ClaimKeepsConsistent(users, listings, matches, clock, k, partnerId);
      assert MatchCount(matches, food.id) == 0 by {
        assert ClaimConsistent(listings[k], MatchCount(matches, listings[k].id));
      }
      MatchCountAppend(matches, m, food.id);
      matches := matches + [m];
      listings := listings[k := food.(status := Matched)];
      clock := clock + 1;
    }

    /** POST /match */
    method ClaimFood(header: Option<string>, decode: string -> Option<int>, body: ClaimBody) returns (resp: Response)
      requires Valid()
      modifies this
      ensures Valid()
      ensures users == old(users)
      ensures resp.status != 200 ==> listings == old(listings) && matches == old(matches)
      ensures TokenRequired(old(users), header, decode).Denied? ==> resp == TokenRequired(old(users), header, decode).resp
      ensures TokenRequired(old(users), header, decode).Granted? && body.NullBody? ==> resp == Response(500, ServerError)
      ensures TokenRequired(old(users), header, decode).Granted? && body.ClaimObject? && !(body.foodId.Some? && body.foodId.value != 0) ==>
                resp == Response(400, Message("Missing food_id"))
      ensures TokenRequired(old(users), header, decode).Granted? && body.ClaimObject? && body.foodId.Some? && body.foodId.value != 0 ==>
                var k := ListingIndex(old(listings), body.foodId.value);
                (k.None? || old(listings)[k.value].status != Available) ==> resp == Response(404, Message("Food not available"))
      ensures && TokenRequired(old(users), header, decode).Granted? && TokenRequired(old(users), header, decode).current.None?
              && body.ClaimObject? && body.foodId.Some? && body.foodId.value != 0
              && ListingIndex(old(listings), body.foodId.value).Some?
              && old(listings)[ListingIndex(old(listings), body.foodId.value).value].status == Available ==>
                resp == Response(500, ServerError)
      ensures resp.status == 200 <==>
                && TokenRequired(old(users), header, decode).Granted?
                && TokenRequired(old(users), header, decode).current.Some?
                && body.ClaimObject? && body.foodId.Some? && body.foodId.value != 0
                && ListingIndex(old(listings), body.foodId.value).Some?
                && old(listings)[ListingIndex(old(listings), body.foodId.value).value].status == Available
      ensures resp.status == 200 ==>
                var k := ListingIndex(old(listings), body.foodId.value).value;
                var partner := TokenRequired(old(users), header, decode).current.value;
                && listings == old(listings)[k := old(listings)[k].(status := Matched)]
                && matches == old(matches) + [NewMatch(|old(matches)| + 1, old(listings)[k].id, partner.id, old(clock))]
                && clock == old(clock) + 1
                && resp == Response(200, Message("Food claimed!"))
                && ListingIndex(listings, body.foodId.value) == Some(k)
                && listings[k].status != Available
                && MatchCount(matches, old(listings)[k].id) == 1
    {
      var guard := TokenRequired(users, header, decode);
      if guard.Denied? {
        return guard.resp;
      }
      if body.NullBody? {
        // `data.get` on None raises AttributeError.
        return Response(500, ServerError);
      }
      var foodId := body.foodId;
      if !(foodId.Some? && foodId.value != 0) {
        return Response(400, Message("Missing food_id"));
      }
      var k := ListingIndex(listings, foodId.value);
      if k.None? || listings[k.value].status != Available {
        return Response(404, Message("Food not available"));
      }
      if guard.current.None? {
        // `current_user.id` on None raises AttributeError before anything is added.
        return Response(500, ServerError);
      }
      var partner := guard.current.value;
      assert TokenRequired(old(users), header, decode).current == Some(partner);
      RowLookup(users, listings, matches, clock, partner.id);
      RecordClaim(k.value, partner.id);
      RowLookup(users, listings, matches, clock, foodId.value);
      resp := Response(200, Message("Food claimed!"));
    }
  }

  /** A listing can be claimed at most once: the second of two identical
      claims of an available listing is refused with 404 and changes nothing. */
  method ClaimTwice(store: Store, header: Option<string>, decode: string -> Option<int>, foodId: int)
    returns (first: Response, second: Response)
    requires store.Valid()
    requires TokenRequired(store.users, header, decode).Granted?
    requires TokenRequired(store.users, header, decode).current.Some?
    requires foodId != 0
    requires ListingIndex(store.listings, foodId).Some?
    requires store.listings[ListingIndex(store.listings, foodId).value].status == Available
    modifies store
    ensures store.Valid()
    ensures first == Response(200, Message("Food claimed!"))
    ensures second == Response(404, Message("Food not available"))
    ensures |store.matches| == |old(store.matches)| + 1
  {
    first := store.ClaimFood(header, decode, ClaimObject(Some(foodId)));
    second := store.ClaimFood(header, decode, ClaimObject(Some(foodId)));
  }
}
