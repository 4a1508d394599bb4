/** `PaginationResult.createSubList`: the page of a collection, computed
    with Java `long` arithmetic and the stream `skip`/`limit` checks. */
module Pagination {
  import opened Wrappers
  import opened Errors
  import opened Text
  import opened Tools
  import opened JavaLong

  function Min(a: int, b: int): int { if a <= b then a else b }

  /** Reference: the `limit` elements after the first `offset`, clipped to the collection. */
  function Slice<T>(elements: seq<T>, offset: nat, limit: nat): (r: seq<T>)
  {
    elements[Min(offset, |elements|)..Min(offset + limit, |elements|)]
  }

  /** The `skip` offset of page `pageNumber`: page number times the record's `size`. */
  function Offset<T>(result: PaginationResult<T>, pageNumber: int): int
  {
    ToLong(ToLong(pageNumber) * ToLong(result.size))
  }

  /** `createSubList`: a negative offset is refused by `skip`, then a
      negative page size by `limit`, each with the offending number as
      message; otherwise the elements from the offset on, at most `pageSize` of them. */
  method CreateSubList<T>(result: PaginationResult<T>, elements: seq<T>, pageNumber: int, pageSize: int) returns (r: Try<seq<T>>)
    ensures Offset(result, pageNumber) < 0 ==> r == Failure(IllegalArgument(IntToString(Offset(result, pageNumber))))
    ensures Offset(result, pageNumber) >= 0 && ToLong(pageSize) < 0 ==> r == Failure(IllegalArgument(IntToString(ToLong(pageSize))))
    ensures Offset(result, pageNumber) >= 0 && ToLong(pageSize) >= 0 ==>
      r == Success(Slice(elements, Offset(result, pageNumber), ToLong(pageSize)))
  {
    var offset := Offset(result, pageNumber);
    if offset < 0 {
      return Failure(IllegalArgument(IntToString(offset)));
    }
    var limit := ToLong(pageSize);
    if limit < 0 {
      return Failure(IllegalArgument(IntToString(limit)));
    }
    var page: seq<T> := [];
    var i := offset;
    while i < |elements| && |page| < limit
      invariant offset <= i
      invariant i <= |elements| || page == []
      invariant |page| == i - offset
      invariant i <= offset + limit
      invariant i <= |elements| ==> page == elements[offset..i]
    {
      page := page + [elements[i]];
      i := i + 1;
    }
    assert page == Slice(elements, offset, limit);
    return Success(page);
  }

  /** A page holds at most `pageSize` elements, in collection order, and a
      page starting at or past the end is empty. */
  lemma SliceBounds<T>(elements: seq<T>, offset: nat, limit: nat)
    ensures |Slice(elements, offset, limit)| <= limit
    ensures offset >= |elements| ==> Slice(elements, offset, limit) == []
    ensures forall k :: 0 <= k < |Slice(elements, offset, limit)| ==> Slice(elements, offset, limit)[k] == elements[offset + k]
  {
  }

  /** Two consecutive pages of the same size are adjacent: together they are
      the page of twice the size. */
  lemma ConsecutivePages<T>(elements: seq<T>, n: nat, size: nat)
    ensures Slice(elements, n * size, size) + Slice(elements, (n + 1) * size, size) == Slice(elements, n * size, 2 * size)
  {
    assert (n + 1) * size == n * size + size;
    AdjacentSlices(elements, n * size, size);
  }

  /** The slice after a slice continues it. */
  lemma AdjacentSlices<T>(elements: seq<T>, offset: nat, size: nat)
    ensures Slice(elements, offset, size) + Slice(elements, offset + size, size) == Slice(elements, offset, 2 * size)
  {
    var a := Min(offset, |elements|);
    var b := Min(offset + size, |elements|);
    var c := Min(offset + 2 * size, |elements|);
    assert elements[a..b] + elements[b..c] == elements[a..c];
  }
}
