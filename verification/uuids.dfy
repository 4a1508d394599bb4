/** `java.util.UUID` as 32 hexadecimal digits, with the canonical text form
    `UUID.toString` prints and the parser `UUID.fromString` applies to it. */
module Uuids {
  import opened Wrappers
  import opened Errors

  type Nibble = x: int | 0 <= x < 16

  /** The 128 bits of a UUID, most significant nibble first. */
  type Uuid = s: seq<Nibble> | |s| == 32 witness seq(32, _ => 0)

  function HexDigit(n: Nibble): char
  {
    "0123456789abcdef"[n]
  }

  /** The value of a hexadecimal digit of either case. */
  function HexValue(c: char): (r: Option<Nibble>)
    ensures r.Some? <==> ('0' <= c <= '9' || 'a' <= c <= 'f' || 'A' <= c <= 'F')
  {
    if '0' <= c <= '9' then Some(c as int - '0' as int)
    else if 'a' <= c <= 'f' then Some(c as int - 'a' as int + 10)
    else if 'A' <= c <= 'F' then Some(c as int - 'A' as int + 10)
    else None
  }

  function Hex(ds: seq<Nibble>): (s: string)
    ensures |s| == |ds|
    ensures forall i :: 0 <= i < |ds| ==> s[i] == HexDigit(ds[i])
  {
    seq(|ds|, i requires 0 <= i < |ds| => HexDigit(ds[i]))
  }

  function ParseHex(s: string): (r: Option<seq<Nibble>>)
    ensures r.Some? ==> |r.value| == |s|
    ensures r.Some? <==> forall i :: 0 <= i < |s| ==> HexValue(s[i]).Some?
  {
    if |s| == 0 then Some([])
    else
      match HexValue(s[0])
      case None => None
      case Some(d) =>
        match ParseHex(s[1..])
        case None => None
        case Some(rest) => Some([d] + rest)
  }

  lemma HexValueOfHexDigit(n: Nibble)
    ensures HexValue(HexDigit(n)) == Some(n)
  {
  }

  lemma {:induction false} ParseHexOfHex(ds: seq<Nibble>)
    ensures ParseHex(Hex(ds)) == Some(ds)
    decreases |ds|
  {
    if |ds| > 0 {
      var s := Hex(ds);
      assert s[1..] == Hex(ds[1..]);
      ParseHexOfHex(ds[1..]);
      HexValueOfHexDigit(ds[0]);
      assert [ds[0]] + ds[1..] == ds;
    }
  }

  /** `UUID.toString`: five lower-case groups of 8-4-4-4-12 digits joined by '-'. */
  function ToString(u: Uuid): (s: string)
    ensures |s| == 36
    ensures s[8] == '-' && s[13] == '-' && s[18] == '-' && s[23] == '-'
  {
    Hex(u[..8]) + "-" + Hex(u[8..12]) + "-" + Hex(u[12..16]) + "-" + Hex(u[16..20]) + "-" + Hex(u[20..])
  }

  function InvalidUuid(s: string): Exception
  {
    IllegalArgument("Invalid UUID string: " + s)
  }

  /** `UUID.fromString` on the canonical 8-4-4-4-12 form; anything else is rejected. */
  function FromString(s: string): (r: Try<Uuid>)
    ensures r.Failure? ==> r.error == InvalidUuid(s)
    ensures r.Success? ==> |s| == 36 && s[8] == '-' && s[13] == '-' && s[18] == '-' && s[23] == '-'
  {
    if |s| != 36 || s[8] != '-' || s[13] != '-' || s[18] != '-' || s[23] != '-' then
      Failure(InvalidUuid(s))
    else
      match (ParseHex(s[..8]), ParseHex(s[9..13]), ParseHex(s[14..18]), ParseHex(s[19..23]), ParseHex(s[24..]))
      case (Some(a), Some(b), Some(c), Some(d), Some(e)) => Success(a + b + c + d + e)
      case _ => Failure(InvalidUuid(s))
  }

  /** Where the five groups sit in a dash-joined string. */
  lemma DashJoinSlices(a: string, b: string, c: string, d: string, e: string)
    ensures var s := a + "-" + b + "-" + c + "-" + d + "-" + e;
      var i1 := |a| + 1;
      var i2 := i1 + |b| + 1;
      var i3 := i2 + |c| + 1;
      var i4 := i3 + |d| + 1;
      && s[..|a|] == a
      && s[i1..i1 + |b|] == b
      && s[i2..i2 + |c|] == c
      && s[i3..i3 + |d|] == d
      && s[i4..] == e
  {
  }

  /** Parsing the printed form gives the UUID back. */
  lemma RoundTrip(u: Uuid)
    ensures FromString(ToString(u)) == Success(u)
  {
    var s := ToString(u);
    DashJoinSlices(Hex(u[..8]), Hex(u[8..12]), Hex(u[12..16]), Hex(u[16..20]), Hex(u[20..]));
    ParseHexOfHex(u[..8]);
    ParseHexOfHex(u[8..12]);
    ParseHexOfHex(u[12..16]);
    ParseHexOfHex(u[16..20]);
    ParseHexOfHex(u[20..]);
    assert u[..8] + u[8..12] + u[12..16] + u[16..20] + u[20..] == u;
  }

  /** Distinct UUIDs print differently. */
  lemma ToStringInjective(u: Uuid, v: Uuid)
    requires ToString(u) == ToString(v)
    ensures u == v
  {
    RoundTrip(u);
    RoundTrip(v);
  }
}
