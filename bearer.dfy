/**
 * The `Authorization: Bearer <token>` rule of the back end's
 * `token_required` decorator: the header must start with "Bearer ", and the
 * token is the second piece of the header split at every single space
 * (Python's `str.split(' ')`, which keeps empty pieces). An empty token
 * counts as no token.
 */
module Bearer {
  import opened Wrappers

  const PREFIX: string := "Bearer "

  /** Python `s.split(sep)` with an explicit separator: every occurrence of
      `sep` ends a piece, so adjacent separators give empty pieces. */
  function Split(s: string, sep: char): (parts: seq<string>)
    ensures |parts| >= 1
    ensures forall k :: 0 <= k < |parts| ==> sep !in parts[k]
    decreases |s|
  {
    if s == [] then [[]]
    else
      var rest := Split(s[1..], sep);
      if s[0] == sep then [[]] + rest
      else [[s[0]] + rest[0]] + rest[1..]
  }

  /** Python `sep.join(parts)`. */
  function Join(parts: seq<string>, sep: char): string
    requires |parts| >= 1
  {
    if |parts| == 1 then parts[0] else parts[0] + [sep] + Join(parts[1..], sep)
  }

  /** Joining the pieces of a split gives back the original string. */
  lemma {:induction false} JoinSplit(s: string, sep: char)
    ensures Join(Split(s, sep), sep) == s
    decreases |s|
  {
    if s != [] {
      var rest := Split(s[1..], sep);
      JoinSplit(s[1..], sep);
      if s[0] == sep {
        assert Split(s, sep)[1..] == rest;
        assert s == [sep] + s[1..];
      } else {
        var parts := Split(s, sep);
        assert parts[0] == [s[0]] + rest[0];
        if |rest| == 1 {
          assert s == [s[0]] + rest[0];
        } else {
          assert parts[1..] == rest[1..];
          assert s == [s[0]] + (rest[0] + [sep] + Join(rest[1..], sep));
        }
      }
    }
  }

  /** The characters of `s` before its first `sep` (all of `s` if none). */
  function TakeUntil(s: string, sep: char): (w: string)
    ensures w <= s
    ensures sep !in w
    ensures w == s || s[|w|] == sep
  {
    if s == [] || s[0] == sep then [] else [s[0]] + TakeUntil(s[1..], sep)
  }

  /** The first piece of a split is the text before the first separator. */
  lemma {:induction false} SplitHead(s: string, sep: char)
    ensures Split(s, sep)[0] == TakeUntil(s, sep)
    decreases |s|
  {
    if s != [] && s[0] != sep {
      SplitHead(s[1..], sep);
    }
  }

  /** A word without separators followed by a separator is one whole piece. */
  lemma {:induction false} SplitAfterWord(w: string, sep: char, rest: string)
    requires sep !in w
    ensures Split(w + [sep] + rest, sep) == [w] + Split(rest, sep)
    decreases |w|
  {
    if w == [] {
      assert w + [sep] + rest == [sep] + rest;
      assert ([sep] + rest)[1..] == rest;
    } else {
      assert (w + [sep] + rest)[1..] == w[1..] + [sep] + rest;
      SplitAfterWord(w[1..], sep, rest);
      assert [w[0]] + w[1..] == w;
    }
  }

  lemma SplitBearer(header: string)
    requires PREFIX <= header
    ensures |Split(header, ' ')| >= 2
    ensures Split(header, ' ')[1] == TakeUntil(header[|PREFIX|..], ' ')
  {
    var rest := header[|PREFIX|..];
    assert header == "Bearer" + [' '] + rest;
    SplitAfterWord("Bearer", ' ', rest);
    SplitHead(rest, ' ');
  }

  /** The token `token_required` takes from an optional Authorization
      header; `None` stands for the 401 "Token is missing!" answer. */
  function ExtractToken(header: Option<string>): (token: Option<string>)
    ensures token.Some? ==> token.value != "" && ' ' !in token.value
  {
    if header.Some? && PREFIX <= header.value then
      SplitBearer(header.value);
      var t := Split(header.value, ' ')[1];
      if t == "" then None else Some(t)
    else None
  }

  /** The token is exactly the text between "Bearer " and the next space;
      a missing header, another prefix or an empty such text give no token. */
  lemma ExtractTokenSpec(header: Option<string>)
    ensures ExtractToken(header).Some? <==>
              header.Some? && PREFIX <= header.value && TakeUntil(header.value[|PREFIX|..], ' ') != ""
    ensures ExtractToken(header).Some? ==>
              ExtractToken(header).value == TakeUntil(header.value[|PREFIX|..], ' ')
  {
    if header.Some? && PREFIX <= header.value {
      SplitBearer(header.value);
    }
  }

  /** The header the client builds, `Bearer ${token}`. It passes the
      server's prefix test, and the piece the server takes as the token is
      the client's token up to its first space. */
  function BearerHeader(token: string): (h: string)
    ensures PREFIX <= h
    ensures |Split(h, ' ')| >= 2 && Split(h, ' ')[1] == TakeUntil(token, ' ')
  {
    var h := PREFIX + token;
    assert h[|PREFIX|..] == token;
    SplitBearer(h);
    h
  }

  /** A non-empty token without spaces survives the trip through the
      client's header and the server's parsing unchanged. */
  lemma {:induction false} BearerRoundTrip(token: string)
    requires token != "" && ' ' !in token
    ensures ExtractToken(Some(BearerHeader(token))) == Some(token)
  {
    var header := BearerHeader(token);
    assert header[|PREFIX|..] == token;
    ExtractTokenSpec(Some(header));
    assert TakeUntil(token, ' ') == token;
  }
}
