/** `PasswordConstraintValidator.isValid`: seven rules checked in order
    (length 8 to 30, an upper-case letter, a lower-case letter, a digit, a
    special character, no whitespace, not a dictionary word); the password
    is valid when all pass, otherwise the failing rules' messages become the
    violation template. Character classes, the dictionary and the message
    texts are parameters. */
module PasswordValidator {
  import opened Wrappers
  import opened Text

  const MIN_PASSWORD_LENGTH := 8
  const MAX_PASSWORD_LENGTH := 30
  const DELIMITER := ","

  /** The character classes the rules test. */
  datatype CharClasses = CharClasses(
    upper: char -> bool,
    lower: char -> bool,
    digit: char -> bool,
    special: char -> bool,
    whitespace: char -> bool)

  datatype RuleKind = LENGTH | UPPER_CASE | LOWER_CASE | DIGIT | SPECIAL | WHITESPACE | DICTIONARY

  /** The rules in the order the validator lists them. */
  const RuleOrder: seq<RuleKind> := [LENGTH, UPPER_CASE, LOWER_CASE, DIGIT, SPECIAL, WHITESPACE, DICTIONARY]

  predicate HasSome(password: string, cls: char -> bool)
  {
    exists i :: 0 <= i < |password| && cls(password[i])
  }

  predicate Passes(kind: RuleKind, password: string, classes: CharClasses, inDictionary: string -> bool)
  {
    match kind
    case LENGTH => MIN_PASSWORD_LENGTH <= Utf16Length(password) <= MAX_PASSWORD_LENGTH
    case UPPER_CASE => HasSome(password, classes.upper)
    case LOWER_CASE => HasSome(password, classes.lower)
    case DIGIT => HasSome(password, classes.digit)
    case SPECIAL => HasSome(password, classes.special)
    case WHITESPACE => !HasSome(password, classes.whitespace)
    case DICTIONARY => !inDictionary(password)
  }

  /** `a` stands somewhere before `b` in `s`. */
  predicate Precedes(s: seq<RuleKind>, a: RuleKind, b: RuleKind)
  {
    exists p, q :: 0 <= p < q < |s| && s[p] == a && s[q] == b
  }

  /** Any two elements of `sub` stand in that order somewhere in `s`. */
  predicate InOrder(sub: seq<RuleKind>, s: seq<RuleKind>)
  {
    forall i, j :: 0 <= i < j < |sub| ==> Precedes(s, sub[i], sub[j])
  }

  predicate Distinct(s: seq<RuleKind>)
  {
    forall i, j :: 0 <= i < j < |s| ==> s[i] != s[j]
  }

  /** The rules of `rules` the password fails: exactly those, in the order
      the rules are listed, each once when the rules are. */
  function Failing(rules: seq<RuleKind>, password: string, classes: CharClasses, inDictionary: string -> bool): (r: seq<RuleKind>)
    ensures |r| <= |rules|
    ensures forall k :: k in r <==> k in rules && !Passes(k, password, classes, inDictionary)
    ensures InOrder(r, rules)
    ensures Distinct(rules) ==> Distinct(r)
  {
    if |rules| == 0 then []
    else
      var rest := Failing(rules[1..], password, classes, inDictionary);
      assert forall k :: k in rules <==> k == rules[0] || k in rules[1..];
      InOrderInTail(rest, rules);
      if Passes(rules[0], password, classes, inDictionary) then rest
      else
        InOrderAfterHead(rest, rules);
        [rules[0]] + rest
  }

  /** An order kept in the tail is kept in the whole sequence. */
  lemma InOrderInTail(sub: seq<RuleKind>, s: seq<RuleKind>)
    requires |s| > 0 && InOrder(sub, s[1..])
    ensures InOrder(sub, s)
  {
    forall i, j | 0 <= i < j < |sub|
      ensures Precedes(s, sub[i], sub[j])
    {
      var tail := s[1..];
      assert Precedes(tail, sub[i], sub[j]);
      var p, q :| 0 <= p < q < |tail| && tail[p] == sub[i] && tail[q] == sub[j];
      assert s[p + 1] == sub[i] && s[q + 1] == sub[j];
    }
  }

  /** The head followed by an ordered selection of the tail is ordered. */
  lemma InOrderAfterHead(sub: seq<RuleKind>, s: seq<RuleKind>)
    requires |s| > 0 && InOrder(sub, s[1..])
    requires forall k :: k in sub ==> k in s[1..]
    ensures InOrder([s[0]] + sub, s)
  {
    var whole := [s[0]] + sub;
    InOrderInTail(sub, s);
    forall i, j | 0 <= i < j < |whole|
      ensures Precedes(s, whole[i], whole[j])
    {
      if i == 0 {
        assert whole[j] == sub[j - 1] && sub[j - 1] in s[1..];
        var q :| 0 <= q < |s[1..]| && s[1..][q] == sub[j - 1];
        assert s[0] == whole[0] && s[q + 1] == whole[j];
      } else {
        assert whole[i] == sub[i - 1] && whole[j] == sub[j - 1];
      }
    }
  }

  /** The outcome of `isValid`: the verdict and, when invalid, the template set on the context. */
  datatype Outcome = Outcome(valid: bool, template: Option<string>)

  function Messages(failing: seq<RuleKind>, message: RuleKind -> string): (r: seq<string>)
    ensures |r| == |failing|
    ensures forall i :: 0 <= i < |failing| ==> r[i] == message(failing[i])
  {
    seq(|failing|, i requires 0 <= i < |failing| => message(failing[i]))
  }

  /** `isValid` as written: the message list is handed to `joinWith` as one
      argument, so the template is the list's own text, `[m1, m2]`. */
  function IsValidAsWritten(password: string, classes: CharClasses, inDictionary: string -> bool,
                            message: RuleKind -> string): (r: Outcome)
    ensures r.valid <==> forall k :: k in RuleOrder ==> Passes(k, password, classes, inDictionary)
    ensures r.valid <==> r.template.None?
    ensures r.template.Some? ==>
      r.template.value == ListToString(Messages(Failing(RuleOrder, password, classes, inDictionary), message))
  {
    var failing := Failing(RuleOrder, password, classes, inDictionary);
    if |failing| == 0 then Outcome(true, None)
    else
      assert failing[0] in failing;
      Outcome(false, Some(ListToString(Messages(failing, message))))
  }

  /** `isValid` as intended: the messages joined with the delimiter. */
  function IsValid(password: string, classes: CharClasses, inDictionary: string -> bool,
                   message: RuleKind -> string): (r: Outcome)
    ensures r.valid <==> forall k :: k in RuleOrder ==> Passes(k, password, classes, inDictionary)
    ensures r.valid <==> r.template.None?
    ensures r.template.Some? ==>
      r.template.value == Join(DELIMITER, Messages(Failing(RuleOrder, password, classes, inDictionary), message))
  {
    var failing := Failing(RuleOrder, password, classes, inDictionary);
    if |failing| == 0 then Outcome(true, None)
    else
      assert failing[0] in failing;
      Outcome(false, Some(Join(DELIMITER, Messages(failing, message))))
  }

  /** Each rule is necessary: failing any one of them makes the password invalid. */
  lemma EachRuleIsNecessary(password: string, classes: CharClasses, inDictionary: string -> bool, message: RuleKind -> string)
    ensures !(MIN_PASSWORD_LENGTH <= Utf16Length(password) <= MAX_PASSWORD_LENGTH) ==> !IsValid(password, classes, inDictionary, message).valid
    ensures !HasSome(password, classes.upper) ==> !IsValid(password, classes, inDictionary, message).valid
    ensures !HasSome(password, classes.lower) ==> !IsValid(password, classes, inDictionary, message).valid
    ensures !HasSome(password, classes.digit) ==> !IsValid(password, classes, inDictionary, message).valid
    ensures !HasSome(password, classes.special) ==> !IsValid(password, classes, inDictionary, message).valid
    ensures HasSome(password, classes.whitespace) ==> !IsValid(password, classes, inDictionary, message).valid
    ensures inDictionary(password) ==> !IsValid(password, classes, inDictionary, message).valid
  {
    if IsValid(password, classes, inDictionary, message).valid {
      ValidPassesEveryRule(password, classes, inDictionary, message);
    }
  }

  /** A valid password passes each of the seven rules. */
  lemma ValidPassesEveryRule(password: string, classes: CharClasses, inDictionary: string -> bool, message: RuleKind -> string)
    requires IsValid(password, classes, inDictionary, message).valid
    ensures Passes(LENGTH, password, classes, inDictionary) && Passes(UPPER_CASE, password, classes, inDictionary)
    ensures Passes(LOWER_CASE, password, classes, inDictionary) && Passes(DIGIT, password, classes, inDictionary)
    ensures Passes(SPECIAL, password, classes, inDictionary) && Passes(WHITESPACE, password, classes, inDictionary)
    ensures Passes(DICTIONARY, password, classes, inDictionary)
  {
    assert forall k :: k in RuleOrder ==> Passes(k, password, classes, inDictionary);
    assert RuleOrder[0] == LENGTH;
  }

  /** The rules come out in their listed order, each at most once. */
  lemma FailingInRuleOrder(password: string, classes: CharClasses, inDictionary: string -> bool)
    ensures var failing := Failing(RuleOrder, password, classes, inDictionary);
      && Distinct(failing) && InOrder(failing, RuleOrder)
      && forall k :: k in failing <==> k in RuleOrder && !Passes(k, password, classes, inDictionary)
  {
    RuleOrderDistinct();
  }

  lemma RuleOrderDistinct()
    ensures Distinct(RuleOrder)
  {
  }

  /** The length rule counts UTF-16 units: six ASCII characters and one
      emoji make a password of length eight. */
  lemma SupplementaryCharacterCountsTwice(classes: CharClasses, inDictionary: string -> bool)
    ensures var password := "Aa1!aa" + ['\U{1F600}'];
      |password| == 7 && Passes(LENGTH, password, classes, inDictionary)
  {
    var password := "Aa1!aa" + ['\U{1F600}'];
    Utf16LengthAppend("Aa1!aa", ['\U{1F600}']);
    assert Utf16Length(['\U{1F600}']) == 2;
    assert Utf16Length("Aa1!aa") == 6;
  }

  /** The two versions agree on the verdict and differ in the template: with
      one failing rule the written template is the message in brackets, with
      two it is `[m1, m2]` where the intended one is `m1,m2`. */
  lemma TemplateAsWritten(password: string, classes: CharClasses, inDictionary: string -> bool, message: RuleKind -> string)
    ensures IsValidAsWritten(password, classes, inDictionary, message).valid == IsValid(password, classes, inDictionary, message).valid
    ensures var failing := Failing(RuleOrder, password, classes, inDictionary);
      |failing| == 1 ==>
        && IsValidAsWritten(password, classes, inDictionary, message).template == Some("[" + message(failing[0]) + "]")
        && IsValid(password, classes, inDictionary, message).template == Some(message(failing[0]))
    ensures var failing := Failing(RuleOrder, password, classes, inDictionary);
      |failing| == 2 ==>
        && IsValidAsWritten(password, classes, inDictionary, message).template
             == Some("[" + message(failing[0]) + ", " + message(failing[1]) + "]")
        && IsValid(password, classes, inDictionary, message).template
             == Some(message(failing[0]) + "," + message(failing[1]))
  {
    var failing := Failing(RuleOrder, password, classes, inDictionary);
    var ms := Messages(failing, message);
    if |failing| == 1 {
      assert Join(", ", ms) == ms[0];
      assert Join(DELIMITER, ms) == ms[0];
    } else if |failing| == 2 {
      assert ms[1..] == [ms[1]];
      assert Join(", ", ms) == ms[0] + ", " + ms[1];
      assert Join(DELIMITER, ms) == ms[0] + "," + ms[1];
      assert ListToString(ms) == "[" + ms[0] + ", " + ms[1] + "]";
      assert ms[0] == message(failing[0]) && ms[1] == message(failing[1]);
    }
  }
}
