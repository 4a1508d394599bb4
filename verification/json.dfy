/** Claim values as they come back from the token's JSON body, and the
    `toString()` the claims decoder applies to them. */
module Json {
  import opened Text

  /** JSON values the claims use: booleans, integers, strings and arrays. */
  datatype Json = JBool(b: bool) | JNum(n: int) | JStr(s: string) | JArr(items: seq<Json>)

  /** `Object.toString()` of the Java value the JSON parser produced. */
  function JavaToString(j: Json): (s: string)
    ensures j.JArr? ==> |s| > 0 && s[0] == '['
    ensures j.JNum? ==> |s| > 0 && (IsDigitChar(s[0]) || s[0] == '-')
    decreases j
  {
    match j
    case JBool(b) => if b then "true" else "false"
    case JNum(n) => IntToString(n)
    case JStr(s) => s
    case JArr(items) => ListToString(seq(|items|, i requires 0 <= i < |items| => JavaToString(items[i])))
  }

  /** `String.valueOf` of a null reference, which Kotlin's `toString()` on a
      nullable Java value gives. */
  const NULL_TEXT := "null"

  /** Kotlin's `String.toBoolean()`: true exactly for "true" in any case. */
  predicate ToBoolean(s: string)
  {
    EqualsIgnoreCase(s, "true")
  }

  /** The weak boolean coercion `value.toString().toBoolean()`: only a JSON
      `true` or a string spelling "true" in some case gives true. */
  function CoerceBoolean(j: Json): (r: bool)
    ensures r <==> (j == JBool(true) || (j.JStr? && EqualsIgnoreCase(j.s, "true")))
  {
    ToBoolean(JavaToString(j))
  }
}
