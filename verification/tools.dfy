/** The pure helpers of the utility library: the inclusive range test, the
    zodiac table, the not-found errors, the empty-tolerant path matcher, and
    small map and collection helpers. */
module Tools {
  import opened Wrappers
  import opened Errors
  import opened Text
  import opened Enums
  import opened Routes

  const DASH := "-"

  /** `isBetween`, for dates and instants alike (both as points of a total
      order): strictly inside the bounds, or equal to either bound. */
  predicate IsBetween(date: int, before: int, after: int)
  {
    (date > before && date < after) || date == before || date == after
  }

  /** Inclusive between ordered bounds; with reversed bounds only the bounds themselves pass. */
  lemma IsBetweenCharacterization(date: int, before: int, after: int)
    ensures before <= after ==> (IsBetween(date, before, after) <==> before <= date <= after)
    ensures after < before ==> (IsBetween(date, before, after) <==> date == before || date == after)
  {
  }

  /** A calendar date as `LocalDate` holds it. */
  datatype LocalDate = LocalDate(year: int, month: int, day: int)

  /** A month or day number, padded to two digits. */
  function Pad2(n: int): string
  {
    if 0 <= n < 10 then "0" + NatToString(n) else IntToString(n)
  }

  /** The ISO text of a date. */
  function DateText(d: LocalDate): string
  {
    IntToString(d.year) + "-" + Pad2(d.month) + "-" + Pad2(d.day)
  }

  /** `zodiacSign`: each month is split at a cut-off day; a day up to the
      cut-off gives the month's first sign, any other day the next sign.
      A month outside 1..12 has no sign. */
  function ZodiacOf(d: LocalDate): (r: Try<ZodiacSign>)
    ensures r.Failure? <==> !(1 <= d.month <= 12)
    ensures r.Failure? ==> r.error == Unprocessed(ZODIAC_SIGN_NOT_FOUND, "Can not found zodiac sign of date " + DateText(d))
  {
    var day := d.day;
    match d.month
    case 1 => Success(if 1 <= day <= 20 then CAPRICORN else AQUARIUS)
    case 2 => Success(if 1 <= day <= 18 then AQUARIUS else PISCES)
    case 3 => Success(if 1 <= day <= 21 then PISCES else ARIES)
    case 4 => Success(if 1 <= day <= 20 then ARIES else TAURUS)
    case 5 => Success(if 1 <= day <= 21 then TAURUS else GEMINI)
    case 6 => Success(if 1 <= day <= 21 then GEMINI else CANCER)
    case 7 => Success(if 1 <= day <= 23 then CANCER else LEO)
    case 8 => Success(if 1 <= day <= 23 then LEO else VIRGO)
    case 9 => Success(if 1 <= day <= 23 then VIRGO else LIBRA)
    case 10 => Success(if 1 <= day <= 22 then LIBRA else SCORPIO)
    case 11 => Success(if 1 <= day <= 22 then SCORPIO else SAGITTARIUS)
    case 12 => Success(if 1 <= day <= 22 then SAGITTARIUS else CAPRICORN)
    case _ => Failure(Unprocessed(ZODIAC_SIGN_NOT_FOUND, "Can not found zodiac sign of date " + DateText(d)))
  }

  /** The signs in calendar order, starting with the one January opens with. */
  const Signs: seq<ZodiacSign> := [CAPRICORN, AQUARIUS, PISCES, ARIES, TAURUS, GEMINI,
                                   CANCER, LEO, VIRGO, LIBRA, SCORPIO, SAGITTARIUS]

  /** The last day of each month that still belongs to the month's first sign. */
  const Cutoffs: seq<int> := [20, 18, 21, 20, 21, 21, 23, 23, 23, 22, 22, 22]

  /** Reference reading of the table: month `m` opens with sign `m - 1` and
      passes to sign `m` (cyclically) after its cut-off. */
  function SignIndex(month: int, day: int): (i: nat)
    requires 1 <= month <= 12
    ensures i < 12
  {
    if 1 <= day <= Cutoffs[month - 1] then month - 1 else month % 12
  }

  lemma ZodiacMatchesTable(d: LocalDate)
    requires 1 <= d.month <= 12
    ensures ZodiacOf(d) == Success(Signs[SignIndex(d.month, d.day)])
  {
  }

  /** The table is continuous: the day after a month's cut-off has the sign
      of the first day of the following month, and no two months open with
      the same sign. */
  lemma ZodiacContinuous(year: int, month: int)
    requires 1 <= month <= 12
    ensures var next := if month == 12 then LocalDate(year + 1, 1, 1) else LocalDate(year, month + 1, 1);
      ZodiacOf(LocalDate(year, month, Cutoffs[month - 1] + 1)) == ZodiacOf(next)
    ensures forall m :: 1 <= m <= 12 && m != month ==>
      ZodiacOf(LocalDate(year, m, 1)) != ZodiacOf(LocalDate(year, month, 1))
  {
  }

  /** `entityNotFoundException`: 404 with the type's simple name and the id's text. */
  function EntityNotFoundException(typeName: string, idText: string): (e: Exception)
    ensures e.EntityNotFound? && e.code == ENTITY_NOT_FOUND
    ensures HttpCode(e) == Some(404)
  {
    EntityNotFound(ENTITY_NOT_FOUND, "Can not found " + typeName + " with id : " + idText)
  }

  /** `findOrThrow`: the value the lookup found, or the not-found error. */
  function FindOrThrow<I, M>(request: I -> Option<M>, id: I, typeName: string, show: I -> string): (r: Try<M>)
    ensures request(id).Some? ==> r == Success(request(id).value)
    ensures request(id).None? ==> r == Failure(EntityNotFoundException(typeName, show(id)))
  {
    match request(id)
    case Some(m) => Success(m)
    case None => Failure(EntityNotFound(ENTITY_NOT_FOUND, "Can not found " + typeName + " with id : " + show(id)))
  }

  /** `singleOrError`, both overloads: an empty reply or a null result is the not-found error. */
  function SingleOrError<I, M>(request: I -> Option<M>, id: I, typeName: string, show: I -> string): (r: Try<M>)
    ensures r.Success? <==> request(id).Some?
    ensures r.Success? ==> r.value == request(id).value
    ensures r.Failure? ==> r.error.EntityNotFound? && r.error.code == ENTITY_NOT_FOUND
  {
    if request(id).None? then Failure(EntityNotFoundException(typeName, show(id)))
    else Success(request(id).value)
  }

  /** The lookups agree, and their error names the type and the id. */
  lemma LookupsAgree<I, M>(request: I -> Option<M>, id: I, typeName: string, show: I -> string)
    ensures SingleOrError(request, id, typeName, show) == FindOrThrow(request, id, typeName, show)
    ensures FindOrThrow(request, id, typeName, show).Failure? ==>
      FindOrThrow(request, id, typeName, show).error.message == "Can not found " + typeName + " with id : " + show(id)
  {
  }

  /** `emptyAblePathMatchers`: no patterns leave the rule list as it is,
      otherwise the patterns are added with the given access. */
  function EmptyAblePathMatchers(spec: seq<Rule>, patterns: seq<string>, access: Access): (r: seq<Rule>)
    ensures |patterns| == 0 ==> r == spec
    ensures |patterns| > 0 ==> r == spec + [Rule(Patterns(patterns), access)]
  {
    if |patterns| == 0 then spec else PathMatchers(spec, patterns, access).value
  }

  /** Unlike `pathMatchers`, the empty-tolerant form never fails, and where
      `pathMatchers` succeeds the two agree. */
  lemma EmptyAbleNeverFails(spec: seq<Rule>, patterns: seq<string>, access: Access)
    ensures PathMatchers(spec, patterns, access).Failure? <==> |patterns| == 0
    ensures PathMatchers(spec, patterns, access).Success? ==>
      PathMatchers(spec, patterns, access).value == EmptyAblePathMatchers(spec, patterns, access)
  {
  }

  /** `putIfIsAbsent`: sets the key, present or not, and returns the value. */
  function PutIfIsAbsent<K, V>(m: map<K, V>, key: K, value: V): (r: (map<K, V>, V))
    ensures key in r.0 && r.0[key] == value && r.1 == value
    ensures r.0.Keys == m.Keys + {key}
    ensures forall k :: k in m && k != key ==> r.0[k] == m[k]
  {
    (m[key := value], value)
  }

  /** What the name promises: store only when the key is absent, and return the stored value. */
  function PutIfAbsent<K, V>(m: map<K, V>, key: K, value: V): (r: (map<K, V>, V))
  {
    if key in m then (m, m[key]) else (m[key := value], value)
  }

  /** The helper agrees with a true put-if-absent exactly when the key is
      missing or already holds the value. */
  lemma PutIfIsAbsentOverwrites<K, V>(m: map<K, V>, key: K, value: V)
    ensures PutIfIsAbsent(m, key, value) == PutIfAbsent(m, key, value) <==> key !in m || m[key] == value
  {
    if key in m && m[key] != value {
      assert PutIfIsAbsent(m, key, value).0[key] != PutIfAbsent(m, key, value).0[key];
    } else if key in m {
      assert m[key := value] == m;
    }
  }

  /** `isEmptyWithDash`: nothing, or exactly one element that is a dash. */
  predicate IsEmptyWithDash(c: seq<string>)
  {
    |c| == 0 || (|c| == 1 && c[0] == DASH)
  }

  /** Empty-with-dash means at most one element, all of them the dash
      placeholder; appending a dash keeps it so only for the empty collection. */
  lemma IsEmptyWithDashCases(c: seq<string>)
    ensures IsEmptyWithDash(c) <==> |c| <= 1 && forall x :: x in c ==> x == DASH
    ensures IsEmptyWithDash(c + [DASH]) <==> c == []
  {
    if |c| == 1 {
      assert c[0] in c;
    }
  }

  /** Entry `i` has a largest value and no earlier entry ties it. */
  ghost predicate IsFirstMaxValue<K>(entries: seq<(K, int)>, i: int)
  {
    0 <= i < |entries|
    && (forall j :: 0 <= j < |entries| ==> entries[j].1 <= entries[i].1)
    && (forall j :: 0 <= j < i ==> entries[j].1 < entries[i].1)
  }

  /** Entry `i` has a largest key and no earlier entry ties it. */
  ghost predicate IsFirstMaxKey<V>(entries: seq<(int, V)>, i: int)
  {
    0 <= i < |entries|
    && (forall j :: 0 <= j < |entries| ==> entries[j].0 <= entries[i].0)
    && (forall j :: 0 <= j < i ==> entries[j].0 < entries[i].0)
  }

  /** `maxByValue` over the entries in iteration order: the largest value, none for an empty map. */
  method MaxByValue<K>(entries: seq<(K, int)>) returns (r: Option<int>)
    ensures r.None? <==> |entries| == 0
    ensures r.Some? ==> exists i :: IsFirstMaxValue(entries, i) && entries[i].1 == r.value
  {
    if |entries| == 0 {
      return None;
    }
    var best := 0;
    var i := 1;
    while i < |entries|
      invariant 1 <= i <= |entries|
      invariant 0 <= best < i
      invariant forall j :: 0 <= j < i ==> entries[j].1 <= entries[best].1
      invariant forall j :: 0 <= j < best ==> entries[j].1 < entries[best].1
    {
      if entries[best].1 < entries[i].1 {
        best := i;
      }
      i := i + 1;
    }
    assert IsFirstMaxValue(entries, best);
    return Some(entries[best].1);
  }

  /** `maxByKey` over the entries in iteration order: the value under the largest key. */
  method MaxByKey<V>(entries: seq<(int, V)>) returns (r: Option<V>)
    ensures r.None? <==> |entries| == 0
    ensures r.Some? ==> exists i :: IsFirstMaxKey(entries, i) && entries[i].1 == r.value
  {
    if |entries| == 0 {
      return None;
    }
    var best := 0;
    var i := 1;
    while i < |entries|
      invariant 1 <= i <= |entries|
      invariant 0 <= best < i
      invariant forall j :: 0 <= j < i ==> entries[j].0 <= entries[best].0
      invariant forall j :: 0 <= j < best ==> entries[j].0 < entries[best].0
    {
      if entries[best].0 < entries[i].0 {
        best := i;
      }
      i := i + 1;
    }
    assert IsFirstMaxKey(entries, best);
    return Some(entries[best].1);
  }

  /** A page of results. */
  datatype PaginationResult<T> = PaginationResult(content: seq<T>, page: int, size: int, totalElements: int)

  /** `paginationResult`: the collection as content, with the given page and
      size, and `size` repeated as the total element count. */
  function PaginationResultOf<T>(content: seq<T>, page: int, size: int): (r: PaginationResult<T>)
    ensures r.content == content && r.page == page && r.size == size
    ensures r.totalElements == r.size
  {
    PaginationResult(content, page, size, size)
  }
}
