/** The `authorizeExchange()` rule list of Spring Security's WebFlux
    configuration: rules are tried in the order they were added and the
    first whose matcher accepts the request decides. Ant-style pattern
    matching is left abstract (`antMatch`); literal paths match themselves,
    with or without one trailing '/'. */
module Routes {
  import opened Wrappers
  import opened Errors

  datatype HttpMethod = GET | HEAD | POST | PUT | PATCH | DELETE | OPTIONS | TRACE

  datatype Request = Request(httpMethod: HttpMethod, path: string)

  datatype Access = PermitAll | Authenticated

  datatype Matcher =
    | MethodPath(httpMethod: HttpMethod, path: string)
    | Patterns(patterns: seq<string>)
    | AnyExchange

  datatype Rule = Rule(matcher: Matcher, access: Access)

  /** A literal path pattern accepts the path itself and the path with one trailing separator. */
  predicate LiteralMatch(pattern: string, path: string)
  {
    path == pattern || path == pattern + "/"
  }

  predicate Matches(m: Matcher, antMatch: (string, string) -> bool, request: Request)
  {
    match m
    case MethodPath(m, path) => request.httpMethod == m && LiteralMatch(path, request.path)
    case Patterns(ps) => exists i :: 0 <= i < |ps| && antMatch(ps[i], request.path)
    case AnyExchange => true
  }

  /** `pathMatchers(patterns).<access>()`: appends a method-independent rule;
      an empty pattern list is refused when the matcher is built. */
  function PathMatchers(spec: seq<Rule>, patterns: seq<string>, access: Access): (r: Try<seq<Rule>>)
    ensures r.Failure? <==> |patterns| == 0
    ensures r.Failure? ==> r.error == IllegalArgument("matchers cannot be empty")
    ensures r.Success? ==> |r.value| == |spec| + 1 && r.value[..|spec|] == spec
  {
    if |patterns| == 0 then Failure(IllegalArgument("matchers cannot be empty"))
    else Success(spec + [Rule(Patterns(patterns), access)])
  }

  /** The index of the first rule at or after `from` whose matcher accepts the request. */
  function FirstMatchFrom(rules: seq<Rule>, antMatch: (string, string) -> bool, request: Request, from: nat): (r: Option<nat>)
    requires from <= |rules|
    ensures r.Some? ==> from <= r.value < |rules| && Matches(rules[r.value].matcher, antMatch, request)
    ensures r.Some? ==> forall j :: from <= j < r.value ==> !Matches(rules[j].matcher, antMatch, request)
    ensures r.None? ==> forall j :: from <= j < |rules| ==> !Matches(rules[j].matcher, antMatch, request)
    decreases |rules| - from
  {
    if from == |rules| then None
    else if Matches(rules[from].matcher, antMatch, request) then Some(from)
    else FirstMatchFrom(rules, antMatch, request, from + 1)
  }

  /** The access the first matching rule grants; with no matching rule the
      exchange is denied, shown as `None`. */
  function Decide(rules: seq<Rule>, antMatch: (string, string) -> bool, request: Request): (r: Option<Access>)
    ensures r.None? <==> forall j :: 0 <= j < |rules| ==> !Matches(rules[j].matcher, antMatch, request)
    ensures r.Some? ==> exists j :: 0 <= j < |rules| && Matches(rules[j].matcher, antMatch, request) && rules[j].access == r.value
  {
    match FirstMatchFrom(rules, antMatch, request, 0)
    case None => None
    case Some(i) => Some(rules[i].access)
  }

  /** First match wins: the decision is rule `i`'s access whenever rule `i`
      matches and no earlier rule does. */
  lemma DecideFirst(rules: seq<Rule>, antMatch: (string, string) -> bool, request: Request, i: nat)
    requires i < |rules| && Matches(rules[i].matcher, antMatch, request)
    requires forall j :: 0 <= j < i ==> !Matches(rules[j].matcher, antMatch, request)
    ensures Decide(rules, antMatch, request) == Some(rules[i].access)
  {
    var r := FirstMatchFrom(rules, antMatch, request, 0);
  }
}
