/**
 * The decisions of the client's page script, with the page, the network
 * and the timers taken away. Each handler is a function from what it reads
 * (the session, the server's reply) to the effects it has, in the order it
 * has them: notices shown, a session stored, a page opened, the listings
 * reloaded, a request sent. The listings container is a class whose
 * content the loader rewrites.
 */
module ClientPages {
  import opened Wrappers
  import opened Backend
  import opened ClientSession
  import Bearer

  datatype Severity = Info | Success | Error

  /** A call of showMessage(text, severity). */
  datatype Notice = Notice(text: string, severity: Severity)

  /** The fields the client posts to /food besides the random quantity and
      shelf-life estimates. `photo` is the chosen file's name, if any. */
  datatype FoodPost = FoodPost(authorization: string, photo: Option<string>, description: string, location: string)

  datatype Effect =
    | Show(notice: Notice)
    | StoreSession(user: UserView, token: string)   // setUserSession(user, token)
    | Open(page: string)                             // window.location.href = page
    | Reload(token: string)                          // loadFoodListings(token)
    | Send(post: FoodPost)                           // fetch POST /food
    | ResetForm                                      // foodForm.reset()

  const DASHBOARD: string := "dashboard.html"
  const LOGIN_PAGE: string := "login.html"
  const PLEASE_LOGIN: Notice := Notice("Please login first", Error)
  const NETWORK_ERROR: Notice := Notice("Network error", Error)
  const DEFAULT_PHOTO: string :=
    "https://images.unsplash.com/photo-1504674900247-0877df9cc836?auto=format&fit=crop&w=400&q=80"

  // ---------------------------------------------------------------------------
  // Login and register

  /** The parsed body of a /login or /register reply. */
  datatype AuthBody = Credentials(user: UserView, token: string) | Failure(message: Option<string>)

  /** A reply, or `Unreachable` when fetch or res.json() throws. */
  datatype AuthReply = Unreachable | Reply(ok: bool, body: AuthBody)

  /** `res.ok && data.token` */
  predicate GrantsSession(reply: AuthReply) {
    reply.Reply? && reply.ok && reply.body.Credentials? && reply.body.token != ""
  }

  /** `data.message`, undefined when the body has none. */
  function ReplyMessage(body: AuthBody): Option<string> {
    if body.Failure? then body.message else None
  }

  /** The submit handler of the login form (texts "Login successful!" and
      "Login failed") and of the register form ("Registration successful!"
      and "Registration failed"). */
  function AuthEffects(reply: AuthReply, successText: string, failureText: string): (effects: seq<Effect>)
    requires failureText != ""
    ensures GrantsSession(reply) ==>
              effects == [StoreSession(reply.body.user, reply.body.token), Show(Notice(successText, Success)), Open(DASHBOARD)]
    ensures !GrantsSession(reply) ==> |effects| == 1 && effects[0].Show? && effects[0].notice.severity == Error
    ensures reply.Unreachable? ==> effects == [Show(NETWORK_ERROR)]
    ensures reply.Reply? && !GrantsSession(reply) ==>
              effects == [Show(Notice(OrElse(ReplyMessage(reply.body), failureText), Error))]
    ensures forall k :: 0 <= k < |effects| && effects[k].StoreSession? ==> GrantsSession(reply) && effects[k].token != ""
  {
    match reply
    case Unreachable => [Show(NETWORK_ERROR)]
    case Reply(ok, body) =>
      if ok && body.Credentials? && body.token != "" then
        [StoreSession(body.user, body.token), Show(Notice(successText, Success)), Open(DASHBOARD)]
      else
        [Show(Notice(OrElse(ReplyMessage(body), failureText), Error))]
  }

  /** The login form's submit handler. */
  function LoginEffects(reply: AuthReply): (effects: seq<Effect>)
    ensures GrantsSession(reply) ==>
              effects == [StoreSession(reply.body.user, reply.body.token), Show(Notice("Login successful!", Success)), Open(DASHBOARD)]
    ensures reply.Reply? && !GrantsSession(reply) ==>
              effects == [Show(Notice(OrElse(ReplyMessage(reply.body), "Login failed"), Error))]
    ensures reply.Reply? && !GrantsSession(reply) && ReplyMessage(reply.body) == None ==>
              effects == [Show(Notice("Login failed", Error))]
    ensures reply.Unreachable? ==> effects == [Show(NETWORK_ERROR)]
  {
    AuthEffects(reply, "Login successful!", "Login failed")
  }

  /** The register form's submit handler. */
  function RegisterEffects(reply: AuthReply): (effects: seq<Effect>)
    ensures GrantsSession(reply) ==>
              effects == [StoreSession(reply.body.user, reply.body.token), Show(Notice("Registration successful!", Success)), Open(DASHBOARD)]
    ensures reply.Reply? && !GrantsSession(reply) ==>
              effects == [Show(Notice(OrElse(ReplyMessage(reply.body), "Registration failed"), Error))]
    ensures reply.Reply? && !GrantsSession(reply) && ReplyMessage(reply.body) == None ==>
              effects == [Show(Notice("Registration failed", Error))]
    ensures reply.Unreachable? ==> effects == [Show(NETWORK_ERROR)]
  {
    AuthEffects(reply, "Registration successful!", "Registration failed")
  }

  /** After a login or registration stores a session, reading the session
      back gives the user and token the server sent. */
  lemma StoredSessionReadsBack(reply: AuthReply, successText: string, failureText: string, items: map<string, string>)
    requires failureText != ""
    requires |AuthEffects(reply, successText, failureText)| > 0
    requires AuthEffects(reply, successText, failureText)[0].StoreSession?
    ensures var e := AuthEffects(reply, successText, failureText)[0];
            var stored := items[USER_KEY := Stringify(e.user)][TOKEN_KEY := e.token];
            Readable(stored) && SessionOf(stored) == Some(Session(reply.body.user, reply.body.token))
  {
    var e := AuthEffects(reply, successText, failureText)[0];
    SetThenGet(items, e.user, e.token);
  }

  // ---------------------------------------------------------------------------
  // Posting food

  /** The reply to POST /food, or `PostUnreachable` when fetch or res.json() throws. */
  datatype PostReply = PostUnreachable | PostReply(ok: bool, message: Option<string>)

  /** The submit handler of the food form. `session` is what getUserSession
      returned; `reply` is only looked at once the request is sent. */
  function PostFoodEffects(session: Option<Session>, photo: Option<string>, description: string, location: string,
                           reply: PostReply): (effects: seq<Effect>)
    ensures session.None? ==> effects == [Show(PLEASE_LOGIN)]
    ensures session.None? ==> forall k :: 0 <= k < |effects| ==> !effects[k].Send? && !effects[k].Reload?
    ensures session.Some? ==>
              && |effects| >= 2
              && effects[0] == Send(FoodPost(Bearer.BearerHeader(session.value.token), photo, description, location))
              && forall k :: 1 <= k < |effects| ==> !effects[k].Send?
    ensures session.Some? && reply.PostReply? && reply.ok ==>
              effects[1..] == [Show(Notice("Food posted!", Success)), Reload(session.value.token), ResetForm]
    ensures session.Some? && reply.PostReply? && !reply.ok ==>
              effects[1..] == [Show(Notice(OrElse(reply.message, "Failed to post food"), Error))]
    ensures session.Some? && reply.PostUnreachable? ==> effects[1..] == [Show(NETWORK_ERROR)]
  {
    match session
    case None => [Show(PLEASE_LOGIN)]
    case Some(s) =>
      var send := Send(FoodPost(Bearer.BearerHeader(s.token), photo, description, location));
      match reply
      case PostUnreachable => [send, Show(NETWORK_ERROR)]
      case PostReply(ok, message) =>
        if ok then [send, Show(Notice("Food posted!", Success)), Reload(s.token), ResetForm]
        else [send, Show(Notice(OrElse(message, "Failed to post food"), Error))]
  }

  /** The server reads back, from the header the client sends, the very
      token of the session, when that token holds no space. */
  lemma PostedHeaderCarriesToken(session: Session, photo: Option<string>, description: string, location: string,
                                 reply: PostReply)
    requires session.token != "" && ' ' !in session.token
    ensures var e := PostFoodEffects(Some(session), photo, description, location, reply)[0];
            Bearer.ExtractToken(Some(e.post.authorization)) == Some(session.token)
  {
    Bearer.BearerRoundTrip(session.token);
  }

  // ---------------------------------------------------------------------------
  // Claiming, page load, logout

  /** claimFood: no session gives only "Please login first"; a supplier sees
      the simulated payment notices in order; every other role one notice.
      Both role paths end with a reload of the listings. The claim itself is
      never sent to the server. */
  function ClaimEffects(session: Option<Session>): (effects: seq<Effect>)
    ensures session.None? ==> effects == [Show(PLEASE_LOGIN)]
    ensures session.Some? && session.value.user.role == "supplier" ==>
              effects == [Show(Notice("Processing payment (simulated)...", Info)),
                          Show(Notice("Payment successful! Food claimed.", Success)),
                          Reload(session.value.token)]
    ensures session.Some? && session.value.user.role != "supplier" ==>
              effects == [Show(Notice("Food claimed!", Success)), Reload(session.value.token)]
    ensures forall k :: 0 <= k < |effects| ==> !effects[k].Send?
  {
    match session
    case None => [Show(PLEASE_LOGIN)]
    case Some(s) =>
      if s.user.role == "supplier" then
        [Show(Notice("Processing payment (simulated)...", Info)),
         Show(Notice("Payment successful! Food claimed.", Success)),
         Reload(s.token)]
      else
        [Show(Notice("Food claimed!", Success)), Reload(s.token)]
  }

  /** Every claim with a session ends with exactly one reload, using the
      session's token, after all its notices; without a session nothing is
      reloaded. */
  lemma ClaimEndsWithReload(session: Option<Session>)
    ensures var e := ClaimEffects(session);
            && (session.Some? ==> e[|e| - 1] == Reload(session.value.token))
            && (forall k :: 0 <= k < |e| - 1 ==> e[k].Show?)
            && (forall k :: 0 <= k < |e| && e[k].Reload? ==> session.Some? && k == |e| - 1)
  {
  }

  /** The dashboard's load: without a session, go to the login page; with
      one, load the listings with its token. */
  function DashboardEffects(session: Option<Session>): (effects: seq<Effect>)
    ensures session.None? ==> effects == [Open(LOGIN_PAGE)]
    ensures session.Some? ==> effects == [Reload(session.value.token)]
  {
    match session
    case None => [Open(LOGIN_PAGE)]
    case Some(s) => [Reload(s.token)]
  }

  /** The dashboard gate read through the storage: it opens the login page
      exactly when the storage holds no truthy user and token, and
      otherwise reloads the listings with the stored token. */
  lemma DashboardGate(items: map<string, string>)
    requires Readable(items)
    ensures DashboardEffects(SessionOf(items)) == [Open(LOGIN_PAGE)] <==>
              !(USER_KEY in items && TOKEN_KEY in items && items[USER_KEY] != "" && items[TOKEN_KEY] != "")
    ensures DashboardEffects(SessionOf(items)) != [Open(LOGIN_PAGE)] ==>
              DashboardEffects(SessionOf(items)) == [Reload(items[TOKEN_KEY])]
  {
  }

  /** Login or registration, then the dashboard: the session a successful
      reply stores, on any storage, makes the dashboard reload the listings
      with the server's token instead of sending the user to the login page. */
  lemma SignInThenDashboard(reply: AuthReply, successText: string, failureText: string, items: map<string, string>)
    requires failureText != ""
    requires GrantsSession(reply)
    ensures var e := AuthEffects(reply, successText, failureText)[0];
            var stored := items[USER_KEY := Stringify(e.user)][TOKEN_KEY := e.token];
            Readable(stored) && DashboardEffects(SessionOf(stored)) == [Reload(reply.body.token)]
  {
    StoredSessionReadsBack(reply, successText, failureText, items);
  }

  /** Logout, then the dashboard: with both entries removed, whatever else
      the storage holds, the dashboard opens the login page. */
  lemma ClearThenDashboard(items: map<string, string>)
    ensures Readable(items - {USER_KEY, TOKEN_KEY})
    ensures DashboardEffects(SessionOf(items - {USER_KEY, TOKEN_KEY})) == [Open(LOGIN_PAGE)]
  {
    MissingEntryGivesNoSession(items - {USER_KEY, TOKEN_KEY});
  }

  /** The logout button: clear the session, then open the login page. */
  method Logout(store: SessionStore) returns (effects: seq<Effect>)
    modifies store
    ensures store.items == old(store.items) - {USER_KEY, TOKEN_KEY}
    ensures Readable(store.items) && SessionOf(store.items) == None
    ensures effects == [Open(LOGIN_PAGE)]
    ensures DashboardEffects(SessionOf(store.items)) == [Open(LOGIN_PAGE)]
  {
    store.ClearUserSession();
    effects := [Open(LOGIN_PAGE)];
  }

  // ---------------------------------------------------------------------------
  // Listing cards

  /** What a card shows: the template's slots after their fallbacks. */
  datatype Card = Card(id: nat, photo: string, description: string, location: string,
                       quantity: string, shelfLife: string, poster: string)

  /** renderFoodCard: a falsy photo gives the stock image, a falsy quantity
      or shelf life 'N/A', a falsy poster name 'Unknown'. */
  function RenderFoodCard(item: FoodView): (c: Card)
    ensures c.id == item.id && c.description == item.description && c.location == item.location
    ensures c.photo == OrElse(item.photoUrl, DEFAULT_PHOTO)
    ensures c.quantity == OrElse(item.quantity, "N/A")
    ensures c.shelfLife == OrElse(item.shelfLife, "N/A")
    ensures c.poster == OrElse(if item.posterName == "" then None else Some(item.posterName), "Unknown")
    ensures c.photo != "" && c.quantity != "" && c.shelfLife != "" && c.poster != ""
  {
    Card(item.id,
         if Truthy(item.photoUrl) then item.photoUrl.value else DEFAULT_PHOTO,
         item.description, item.location,
         if Truthy(item.quantity) then item.quantity.value else "N/A",
         if Truthy(item.shelfLife) then item.shelfLife.value else "N/A",
         if item.posterName != "" then item.posterName else "Unknown")
  }

  /** Cards rendered from the back end's GET /food answer on a consistent
      store name each listing's owner as the poster. */
  lemma CardNamesOwner(users: seq<Models.User>, listings: seq<Models.FoodListing>, matches: seq<Models.Match>,
                       clock: int, k: nat)
    requires Models.Consistent(users, listings, matches, clock)
    requires k < |listings|
    ensures RenderFoodCard(Entry(listings[k], users)).poster == users[listings[k].userId - 1].name
  {
    EntryPosterName(users, listings, matches, clock, k);
  }

  /** The parsed reply to GET /food: `data.food` is an array or something else. */
  datatype FoodField = FoodArray(items: seq<FoodView>) | NotArray

  /** A reply, or `ListUnreachable` when fetch or res.json() throws. */
  datatype ListReply = ListUnreachable | ListReply(ok: bool, food: FoodField)

  /** The content of the food-listings container. */
  datatype Panel = Loading | Cards(cards: seq<Card>) | NoListings | LoadFailed

  /** The food-listings container of the dashboard. */
  class ListingsPanel {
    var content: Panel

    constructor ()
      ensures content == Cards([])
    {
      content := Cards([]);
    }

    /** loadFoodListings: "Loading..." while waiting, then one card per
        item in array order when the reply is ok and `food` is an array
        (an empty array leaves the container empty), "No food listings
        found." for any other reply and "Failed to load listings." when
        the request throws. */
    method LoadFoodListings(reply: ListReply)
      modifies this
      ensures reply.ListReply? && reply.ok && reply.food.FoodArray? ==>
                && content.Cards?
                && |content.cards| == |reply.food.items|
                && forall k :: 0 <= k < |reply.food.items| ==> content.cards[k] == RenderFoodCard(reply.food.items[k])
      ensures reply.ListReply? && !(reply.ok && reply.food.FoodArray?) ==> content == NoListings
      ensures reply.ListUnreachable? ==> content == LoadFailed
    {
      content := Loading;
      match reply {
        case ListUnreachable =>
          content := LoadFailed;
        case ListReply(ok, food) =>
          if ok && food.FoodArray? {
            content := Cards([]);
            var items := food.items;
            var i := 0;
            while i < |items|
              invariant 0 <= i <= |items|
              invariant content.Cards? && |content.cards| == i
              invariant forall k :: 0 <= k < i ==> content.cards[k] == RenderFoodCard(items[k])
            {
              content := Cards(content.cards + [RenderFoodCard(items[i])]);
              i := i + 1;
            }
          } else {
            content := NoListings;
          }
      }
    }
  }
}
