/**
 * The client's session store: the signed-in user and the bearer token kept
 * in the browser's localStorage under two keys.
 *
 * localStorage is a map from keys to strings. The user record is written
 * with JSON.stringify and read back with JSON.parse; here those are a
 * self-delimiting text encoding (`Stringify`) and its parser (`Parse`),
 * which have the one property the session code relies on: parsing what was
 * stringified gives the record back.
 */
module ClientSession {
  import opened Wrappers
  import opened Backend

  const USER_KEY: string := "harvesthub_user"
  const TOKEN_KEY: string := "harvesthub_token"

  datatype Session = Session(user: UserView, token: string)

  // ---------------------------------------------------------------------------
  // The stored form of the user record

  /** `n` as n '#' characters closed by ';'. */
  function Unary(n: nat): string {
    if n == 0 then [';'] else ['#'] + Unary(n - 1)
  }

  function ParseUnary(s: string): Option<(nat, string)> {
    if s == [] then None
    else if s[0] == ';' then Some((0, s[1..]))
    else if s[0] == '#' then
      match ParseUnary(s[1..])
      case None => None
      case Some((n, rest)) => Some((n + 1, rest))
    else None
  }

  /** A string preceded by its length. */
  function Text(s: string): string {
    Unary(|s|) + s
  }

  function ParseText(s: string): Option<(string, string)> {
    match ParseUnary(s)
    case None => None
    case Some((n, rest)) => if n <= |rest| then Some((rest[..n], rest[n..])) else None
  }

  /** JSON.stringify of the user record. */
  function Stringify(u: UserView): (s: string)
    ensures s != ""
  {
    Unary(u.id) + Text(u.name) + Text(u.email) + Text(u.role)
  }

  /** JSON.parse of a stored user record; `None` where JSON.parse throws. */
  function Parse(s: string): Option<UserView> {
    match ParseUnary(s)
    case None => None
    case Some((id, s1)) =>
      match ParseText(s1)
      case None => None
      case Some((name, s2)) =>
        match ParseText(s2)
        case None => None
        case Some((email, s3)) =>
          match ParseText(s3)
          case None => None
          case Some((role, s4)) => if s4 == [] then Some(UserView(id, name, email, role)) else None
  }

  lemma {:induction false} ParseUnaryInverts(n: nat, rest: string)
    ensures ParseUnary(Unary(n) + rest) == Some((n, rest))
  {
    if n == 0 {
      assert (Unary(0) + rest)[1..] == rest;
    } else {
      assert (Unary(n) + rest)[1..] == Unary(n - 1) + rest;
      ParseUnaryInverts(n - 1, rest);
    }
  }

  lemma ParseTextInverts(s: string, rest: string)
    ensures ParseText(Text(s) + rest) == Some((s, rest))
  {
    assert Text(s) + rest == Unary(|s|) + (s + rest);
    ParseUnaryInverts(|s|, s + rest);
    assert (s + rest)[..|s|] == s;
    assert (s + rest)[|s|..] == rest;
  }

  /** JSON.parse(JSON.stringify(u)) is u. */
  lemma ParseStringify(u: UserView)
    ensures Parse(Stringify(u)) == Some(u)
  {
    var tail3 := Text(u.role);
    var tail2 := Text(u.email) + tail3;
    var tail1 := Text(u.name) + tail2;
    assert Stringify(u) == Unary(u.id) + tail1;
    ParseUnaryInverts(u.id, tail1);
    ParseTextInverts(u.name, tail2);
    ParseTextInverts(u.email, tail3);
    ParseTextInverts(u.role, []);
    assert Text(u.role) + [] == Text(u.role);
  }

  // ---------------------------------------------------------------------------
  // getUserSession

  /** The storage holds nothing that would make JSON.parse throw when the
      session is read. */
  predicate Readable(items: map<string, string>) {
    (USER_KEY in items && TOKEN_KEY in items && items[USER_KEY] != "" && items[TOKEN_KEY] != "")
      ==> Parse(items[USER_KEY]).Some?
  }

  /** getUserSession: both entries must be truthy, otherwise null. */
  function SessionOf(items: map<string, string>): (r: Option<Session>)
    requires Readable(items)
    ensures r.Some? <==> USER_KEY in items && TOKEN_KEY in items && items[USER_KEY] != "" && items[TOKEN_KEY] != ""
    ensures r.Some? ==> Parse(items[USER_KEY]) == Some(r.value.user) && r.value.token == items[TOKEN_KEY]
  {
    var user := if USER_KEY in items then Some(items[USER_KEY]) else None;
    var token := if TOKEN_KEY in items then Some(items[TOKEN_KEY]) else None;
    if Truthy(user) && Truthy(token) then Some(Session(Parse(user.value).value, token.value)) else None
  }

  /** Writing a session with a non-empty token and reading it back gives the
      same user and token, whatever else the storage holds. */
  lemma SetThenGet(items: map<string, string>, u: UserView, token: string)
    requires token != ""
    ensures Readable(items[USER_KEY := Stringify(u)][TOKEN_KEY := token])
    ensures SessionOf(items[USER_KEY := Stringify(u)][TOKEN_KEY := token]) == Some(Session(u, token))
  {
    ParseStringify(u);
  }

  /** With an empty token the stored session reads as null. */
  lemma SetEmptyTokenGivesNoSession(items: map<string, string>, u: UserView)
    ensures Readable(items[USER_KEY := Stringify(u)][TOKEN_KEY := ""])
    ensures SessionOf(items[USER_KEY := Stringify(u)][TOKEN_KEY := ""]) == None
  {
  }

  /** Storage without both entries reads as no session. */
  lemma MissingEntryGivesNoSession(items: map<string, string>)
    requires USER_KEY !in items || TOKEN_KEY !in items
    ensures Readable(items) && SessionOf(items) == None
  {
  }

  /** localStorage, with the three session operations of the client. */
  class SessionStore {
    var items: map<string, string>

    constructor (initial: map<string, string>)
      ensures items == initial
    {
      items := initial;
    }

    /** setUserSession(user, token) */
    method SetUserSession(user: UserView, token: string)
      modifies this
      ensures items == old(items)[USER_KEY := Stringify(user)][TOKEN_KEY := token]
      ensures forall k :: k != USER_KEY && k != TOKEN_KEY ==>
                (k in items <==> k in old(items)) && (k in items ==> items[k] == old(items)[k])
      ensures Readable(items)
      ensures SessionOf(items) == if token != "" then Some(Session(user, token)) else None
    {
      items := items[USER_KEY := Stringify(user)];
      items := items[TOKEN_KEY := token];
      if token != "" {
        SetThenGet(old(items), user, token);
      }
    }

    /** clearUserSession(): removes both entries; doing it again changes nothing. */
    method ClearUserSession()
      modifies this
      ensures items == old(items) - {USER_KEY, TOKEN_KEY}
      ensures forall k :: k != USER_KEY && k != TOKEN_KEY ==>
                (k in items <==> k in old(items)) && (k in items ==> items[k] == old(items)[k])
      ensures Readable(items) && SessionOf(items) == None
      ensures items - {USER_KEY, TOKEN_KEY} == items
    {
      items := items - {USER_KEY};
      items := items - {TOKEN_KEY};
    }
  }
}
