/** The `Authorization` header parser: `Bearer` in any ASCII case, then any
    number of spaces (zero included), then one token with no space in it,
    to the end of the value. */
module Extractor {
  import opened Wrappers
  import opened Errors
  import opened Text

  const BEARER := "Bearer"
  const PATTERN := "^" + BEARER + " *([^ ]+)*$"
  const AUTHORIZATION := "Authorization"

  /** The exception message for a header value the pattern refuses. */
  function NotMatch(input: string): string
  {
    "The token is incorrect : " + input
  }

  /** Request headers in arrival order. */
  type Headers = seq<(string, string)>

  /** `HttpHeaders.getFirst`: the first value of the header, names compared without case. */
  function GetFirst(headers: Headers, name: string): (r: Option<string>)
    ensures r.None? <==> forall i :: 0 <= i < |headers| ==> !EqualsIgnoreCase(headers[i].0, name)
    ensures r.Some? ==> exists i :: FirstWith(headers, name, i) && headers[i].1 == r.value
  {
    if |headers| == 0 then None
    else if EqualsIgnoreCase(headers[0].0, name) then
      assert FirstWith(headers, name, 0);
      Some(headers[0].1)
    else
      var r := GetFirst(headers[1..], name);
      assert forall i :: 1 <= i < |headers| ==> headers[i] == headers[1..][i - 1];
      if r.Some? then
        var i :| FirstWith(headers[1..], name, i) && headers[1..][i].1 == r.value;
        assert FirstWith(headers, name, i + 1);
        r
      else r
  }

  /** Header `i` has the name, and no header before it does. */
  predicate FirstWith(headers: Headers, name: string, i: int)
  {
    && 0 <= i < |headers| && EqualsIgnoreCase(headers[i].0, name)
    && forall j :: 0 <= j < i ==> !EqualsIgnoreCase(headers[j].0, name)
  }

  predicate IsKeyword(s: string)
  {
    EqualsIgnoreCase(s, BEARER)
  }

  /** The text after the leading spaces. */
  function DropSpaces(s: string): (r: string)
    ensures |r| <= |s| && s == Spaces(|s| - |r|) + r
    ensures r == [] || r[0] != ' '
  {
    if |s| > 0 && s[0] == ' ' then DropSpaces(s[1..]) else s
  }

  /** Matching the value against the whole pattern: `None` when it does not
      match, `Some(None)` when it matches with no token (group 1 unset),
      `Some(Some(t))` when group 1 captured `t`. */
  function Match(s: string): (r: Option<Option<string>>)
    ensures r.Some? <==> |s| >= |BEARER| && IsKeyword(s[..|BEARER|]) && NoSpace(DropSpaces(s[|BEARER|..]))
    ensures r == Some(None) <==> |s| >= |BEARER| && IsKeyword(s[..|BEARER|]) && DropSpaces(s[|BEARER|..]) == []
  {
    if |s| < |BEARER| || !IsKeyword(s[..|BEARER|]) then None
    else
      var rest := DropSpaces(s[|BEARER|..]);
      if rest == [] then Some(None)
      else if NoSpace(rest) then Some(Some(rest))
      else None
  }

  /** `parse`: no header gives no credential; otherwise the token of a
      matching value, and an `IllegalArgumentException` both for a value that
      does not match and for a keyword without a token. */
  function Parse(input: Option<string>): (r: Try<Option<string>>)
    ensures input.None? <==> r == Success(None)
    ensures r.Failure? ==> input.Some? && r.error == IllegalArgument(NotMatch(input.value))
    ensures r.Success? && r.value.Some? ==>
      var s := input.value;
      var t := r.value.value;
      && t != [] && NoSpace(t)
      && |s| >= |BEARER| + |t| && IsKeyword(s[..|BEARER|])
      && s == s[..|BEARER|] + Spaces(|s| - |BEARER| - |t|) + t
    ensures input.Some? && (|input.value| < |BEARER| || !IsKeyword(input.value[..|BEARER|])) ==> r.Failure?
  {
    match input
    case None => Success(None)
    case Some(s) =>
      match Match(s)
      case Some(Some(token)) => Success(Some(token))
      case _ => Failure(IllegalArgument(NotMatch(s)))
  }

  /** `extract`: the first value of the named header, parsed. */
  function Extract(headers: Headers, name: string): (r: Try<Option<string>>)
    ensures GetFirst(headers, name).None? ==> r == Success(None)
    ensures r.Failure? ==> r.error == IllegalArgument(NotMatch(GetFirst(headers, name).value))
  {
    Parse(GetFirst(headers, name))
  }

  lemma {:induction false} DropSpacesOfSpaces(n: nat, t: string)
    requires t == [] || t[0] != ' '
    ensures DropSpaces(Spaces(n) + t) == t
    decreases n
  {
    if n > 0 {
      assert (Spaces(n) + t)[1..] == Spaces(n - 1) + t;
      DropSpacesOfSpaces(n - 1, t);
    } else {
      assert Spaces(0) + t == t;
    }
  }

  /** A keyword in any case, any number of spaces and a space-free token parse to that token. */
  lemma ParseBearer(keyword: string, n: nat, token: string)
    requires IsKeyword(keyword)
    requires token != [] && NoSpace(token)
    ensures Parse(Some(keyword + Spaces(n) + token)) == Success(Some(token))
  {
    var s := keyword + Spaces(n) + token;
    assert s[..|BEARER|] == keyword;
    assert s[|BEARER|..] == Spaces(n) + token;
    DropSpacesOfSpaces(n, token);
  }

  /** The keyword followed only by spaces matches the pattern but has no token: it is refused. */
  lemma ParseBearerWithoutToken(keyword: string, n: nat)
    requires IsKeyword(keyword)
    ensures Parse(Some(keyword + Spaces(n))) == Failure(IllegalArgument(NotMatch(keyword + Spaces(n))))
  {
    var s := keyword + Spaces(n);
    assert s[..|BEARER|] == keyword;
    assert s[|BEARER|..] == Spaces(n) + [];
    DropSpacesOfSpaces(n, []);
  }

  /** A token with a space inside is refused. */
  lemma ParseInnerSpace(keyword: string, n: nat, first: string, second: string)
    requires IsKeyword(keyword)
    requires first != [] && first[0] != ' '
    ensures Parse(Some(keyword + Spaces(n) + first + " " + second)).Failure?
  {
    var s := keyword + Spaces(n) + first + " " + second;
    var tail := first + " " + second;
    assert s[..|BEARER|] == keyword;
    assert s[|BEARER|..] == Spaces(n) + tail;
    DropSpacesOfSpaces(n, tail);
    assert tail[|first|] == ' ';
  }

  /** The keyword in mixed case, and with no separating space. */
  lemma ParseExamples()
    ensures Parse(Some("bEaReR x")) == Success(Some("x"))
    ensures Parse(Some("Bearerabc")) == Success(Some("abc"))
    ensures Parse(Some("Bearer")).Failure?
  {
    ParseMixedCase();
    ParseWithoutSpace();
    ParseKeywordAlone();
  }

  lemma ParseMixedCase()
    ensures Parse(Some("bEaReR x")) == Success(Some("x"))
  {
    ParseBearer("bEaReR", 1, "x");
    assert "bEaReR" + Spaces(1) + "x" == "bEaReR x";
  }

  lemma ParseWithoutSpace()
    ensures Parse(Some("Bearerabc")) == Success(Some("abc"))
  {
    ParseBearer("Bearer", 0, "abc");
    assert "Bearer" + Spaces(0) + "abc" == "Bearerabc";
  }

  lemma ParseKeywordAlone()
    ensures Parse(Some("Bearer")).Failure?
  {
    ParseBearerWithoutToken("Bearer", 0);
    assert "Bearer" + Spaces(0) == "Bearer";
  }

  /** Another authorization scheme is refused with the whole value in the message. */
  lemma ParseOtherScheme()
    ensures Parse(Some("Basic xyz")) == Failure(IllegalArgument("The token is incorrect : Basic xyz"))
  {
    var s := "Basic xyz";
    var prefix := s[..|BEARER|];
    assert prefix[1] == 'a' && BEARER[1] == 'e';
    assert !IsKeyword(prefix);
    assert Parse(Some(s)) == Failure(IllegalArgument(NotMatch(s)));
    assert NotMatch(s) == "The token is incorrect : Basic xyz";
  }
}
