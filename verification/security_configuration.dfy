/** The route table of the profile service's `securityWebFilterChain`:
    seven public method-and-path rules, the configured documentation
    patterns for every method, and authentication for everything else. */
module SecurityConfiguration {
  import opened Wrappers
  import opened Errors
  import opened Routes

  /** The seven public endpoints, in declaration order. */
  const PublicEndpoints: seq<Rule> := [
    Rule(MethodPath(POST, "/api/v1/auth/token"), PermitAll),
    Rule(MethodPath(POST, "/api/v1/users"), PermitAll),
    Rule(MethodPath(PUT, "/api/v1/users/password"), PermitAll),
    Rule(MethodPath(POST, "/api/v1/users/code"), PermitAll),
    Rule(MethodPath(PUT, "/api/v1/users/code"), PermitAll),
    Rule(MethodPath(GET, "/api/v1/items"), PermitAll),
    Rule(MethodPath(GET, "/api/v1/stats/profile/count"), PermitAll)
  ]

  /** The rule list built from the configured documentation paths; building
      fails when that list is empty. */
  function Rules(swaggerPaths: seq<string>): (r: Try<seq<Rule>>)
    ensures r.Failure? <==> |swaggerPaths| == 0
    ensures r.Failure? ==> r.error == IllegalArgument("matchers cannot be empty")
    ensures r.Success? ==>
      && |r.value| == 9
      && r.value[..7] == PublicEndpoints
      && r.value[7] == Rule(Patterns(swaggerPaths), PermitAll)
      && r.value[8] == Rule(AnyExchange, Authenticated)
  {
    var withSwagger :- PathMatchers(PublicEndpoints, swaggerPaths, PermitAll);
    Success(withSwagger + [Rule(AnyExchange, Authenticated)])
  }

  /** The decision for a request under a successfully built table. */
  function Authorize(swaggerPaths: seq<string>, antMatch: (string, string) -> bool, request: Request): (r: Try<Access>)
    ensures r.Failure? <==> |swaggerPaths| == 0
    ensures r.Success? ==> Decide(Rules(swaggerPaths).value, antMatch, request) == Some(r.value)
  {
    var rules :- Rules(swaggerPaths);
    match Decide(rules, antMatch, request)
    case Some(access) => Success(access)
    case None => assert false; Success(Authenticated)
  }

  /** Public exactly when a public endpoint or a documentation pattern
      matches; every other request must be authenticated, and the final
      catch-all never overrides an earlier permit. */
  lemma AuthorizeCharacterization(swaggerPaths: seq<string>, antMatch: (string, string) -> bool, request: Request)
    requires |swaggerPaths| > 0
    ensures Authorize(swaggerPaths, antMatch, request).Success?
    ensures var a := Authorize(swaggerPaths, antMatch, request).value;
      a == PermitAll <==>
        (exists j :: 0 <= j < 7 && Matches(PublicEndpoints[j].matcher, antMatch, request))
        || (exists i :: 0 <= i < |swaggerPaths| && antMatch(swaggerPaths[i], request.path))
  {
    var rules := Rules(swaggerPaths).value;
    var r := FirstMatchFrom(rules, antMatch, request, 0);
    assert r.Some?;
    if r.value < 7 {
      assert rules[r.value] == PublicEndpoints[r.value];
    } else if r.value == 7 {
      assert Matches(rules[7].matcher, antMatch, request);
    } else {
      forall j | 0 <= j < 7
        ensures !Matches(PublicEndpoints[j].matcher, antMatch, request)
      {
        assert rules[j] == PublicEndpoints[j];
      }
      assert !Matches(rules[7].matcher, antMatch, request);
    }
  }

  /** Logging in and registering need no token. */
  lemma LoginAndRegistrationArePublic(swaggerPaths: seq<string>, antMatch: (string, string) -> bool)
    requires |swaggerPaths| > 0
    ensures Authorize(swaggerPaths, antMatch, Request(POST, "/api/v1/auth/token")) == Success(PermitAll)
    ensures Authorize(swaggerPaths, antMatch, Request(POST, "/api/v1/users")) == Success(PermitAll)
    ensures Authorize(swaggerPaths, antMatch, Request(POST, "/api/v1/users/")) == Success(PermitAll)
  {
    var rules := Rules(swaggerPaths).value;
    DecideFirst(rules, antMatch, Request(POST, "/api/v1/auth/token"), 0);
    assert !Matches(rules[0].matcher, antMatch, Request(POST, "/api/v1/users"));
    DecideFirst(rules, antMatch, Request(POST, "/api/v1/users"), 1);
    assert !Matches(rules[0].matcher, antMatch, Request(POST, "/api/v1/users/"));
    DecideFirst(rules, antMatch, Request(POST, "/api/v1/users/"), 1);
  }

  /** The public rules name a method: the code endpoint is public for POST
      and PUT but, unless a documentation pattern covers it, not for GET. */
  lemma CodeEndpointIsMethodSpecific(swaggerPaths: seq<string>, antMatch: (string, string) -> bool)
    requires |swaggerPaths| > 0
    requires forall i :: 0 <= i < |swaggerPaths| ==> !antMatch(swaggerPaths[i], "/api/v1/users/code")
    ensures Authorize(swaggerPaths, antMatch, Request(POST, "/api/v1/users/code")) == Success(PermitAll)
    ensures Authorize(swaggerPaths, antMatch, Request(PUT, "/api/v1/users/code")) == Success(PermitAll)
    ensures Authorize(swaggerPaths, antMatch, Request(GET, "/api/v1/users/code")) == Success(Authenticated)
  {
    CodeEndpointPublicFor(swaggerPaths, antMatch, POST, 3);
    CodeEndpointPublicFor(swaggerPaths, antMatch, PUT, 4);
    CodeEndpointGet(swaggerPaths, antMatch);
  }

  /** A public rule naming the method and the code endpoint makes it public. */
  lemma CodeEndpointPublicFor(swaggerPaths: seq<string>, antMatch: (string, string) -> bool, m: HttpMethod, k: nat)
    requires |swaggerPaths| > 0
    requires k < |PublicEndpoints| && Matches(PublicEndpoints[k].matcher, antMatch, Request(m, "/api/v1/users/code"))
    ensures Authorize(swaggerPaths, antMatch, Request(m, "/api/v1/users/code")) == Success(PermitAll)
  {
    AuthorizeCharacterization(swaggerPaths, antMatch, Request(m, "/api/v1/users/code"));
  }

  /** No public rule names GET on the code endpoint. */
  lemma CodeEndpointGet(swaggerPaths: seq<string>, antMatch: (string, string) -> bool)
    requires |swaggerPaths| > 0
    requires forall i :: 0 <= i < |swaggerPaths| ==> !antMatch(swaggerPaths[i], "/api/v1/users/code")
    ensures Authorize(swaggerPaths, antMatch, Request(GET, "/api/v1/users/code")) == Success(Authenticated)
  {
    AuthorizeCharacterization(swaggerPaths, antMatch, Request(GET, "/api/v1/users/code"));
  }

  /** The two public reads, and the documentation paths for every method. */
  lemma PublicReadsAndDocumentation(swaggerPaths: seq<string>, antMatch: (string, string) -> bool, i: nat, m: HttpMethod, path: string)
    requires i < |swaggerPaths| && antMatch(swaggerPaths[i], path)
    ensures Authorize(swaggerPaths, antMatch, Request(GET, "/api/v1/items")) == Success(PermitAll)
    ensures Authorize(swaggerPaths, antMatch, Request(GET, "/api/v1/stats/profile/count")) == Success(PermitAll)
    ensures Authorize(swaggerPaths, antMatch, Request(m, path)) == Success(PermitAll)
  {
    AuthorizeCharacterization(swaggerPaths, antMatch, Request(GET, "/api/v1/items"));
    AuthorizeCharacterization(swaggerPaths, antMatch, Request(GET, "/api/v1/stats/profile/count"));
    AuthorizeCharacterization(swaggerPaths, antMatch, Request(m, path));
    assert Matches(PublicEndpoints[5].matcher, antMatch, Request(GET, "/api/v1/items"));
    assert Matches(PublicEndpoints[6].matcher, antMatch, Request(GET, "/api/v1/stats/profile/count"));
  }
}
