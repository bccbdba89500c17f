/**
 * `Pagination.ApplyPagination`: `Skip(pageSize * (page - 1)).Take(pageSize)`
 * on a query handle. The C# parameters are 32-bit `int`s and the product is
 * computed unchecked, so it wraps around; `ApplyPaginationAsWritten` keeps
 * that arithmetic and `ApplyPagination` skips the mathematical product.
 */
module Pagination {
  import opened Wrappers
  import opened Values
  import opened Queries

  const TwoTo31: int := 0x8000_0000
  const TwoTo32: int := 0x1_0000_0000

  /** A C# `int`. */
  type Int32 = x: int | -TwoTo31 <= x < TwoTo31

  /** Unchecked `int` arithmetic: the one 32-bit value congruent to `x` modulo 2^32. */
  function Wrap32(x: int): (r: Int32)
    ensures (x - r) % TwoTo32 == 0
  {
    var m := x % TwoTo32;
    if m >= TwoTo31 then m - TwoTo32 else m
  }

  /** The skip count as the source computes it: `pageSize * (page - 1)` in wrapping `int` arithmetic. */
  function SkipCountAsWritten(pageSize: Int32, page: Int32): Int32 {
    Wrap32(pageSize * Wrap32(page - 1))
  }

  /** `ApplyPagination` as written, with the wrapping skip count. */
  function ApplyPaginationAsWritten(q: Query, pageSize: Int32, page: Int32): Query {
    q.Then(Skip(SkipCountAsWritten(pageSize, page))).Then(Take(pageSize))
  }

  /** `ApplyPagination` as intended: skip the whole pages before `page`, then take one page. */
  function ApplyPagination(q: Query, pageSize: Int32, page: Int32): Query {
    q.Then(Skip(pageSize * (page - 1))).Then(Take(pageSize))
  }

  /** Where the page starts in a sequence of `n` elements: the skip count clamped to `0..n`. */
  function PageStart(pageSize: int, page: int, n: nat): (lo: nat)
    ensures lo <= n
    ensures 0 < pageSize * (page - 1) <= n ==> lo == pageSize * (page - 1)
  {
    var start := pageSize * (page - 1);
    if start <= 0 then 0 else if start >= n then n else start
  }

  /**
   * A page is the contiguous slice of what the handle yields that starts
   * after `pageSize * (page - 1)` elements and holds `pageSize` of them, or
   * fewer at the end; a non-positive page size gives an empty page.
   */
  lemma PageSlice(q: Query, s: seq<Value>, pageSize: Int32, page: Int32)
    requires Run(q) == Some(s)
    ensures var lo := PageStart(pageSize, page, |s|);
      var len := if pageSize <= 0 then 0 else if pageSize <= |s| - lo then pageSize else |s| - lo;
      Run(ApplyPagination(q, pageSize, page)) == Some(s[lo..lo + len])
  {
    SkipTakeSlice(q, s, pageSize * (page - 1), pageSize);
  }

  /** `Skip(n).Take(size)` yields the slice of `size` elements, or fewer, after the first `n`. */
  lemma SkipTakeSlice(q: Query, s: seq<Value>, n: int, size: int)
    requires Run(q) == Some(s)
    ensures var lo := if n <= 0 then 0 else if n >= |s| then |s| else n;
      var len := if size <= 0 then 0 else if size <= |s| - lo then size else |s| - lo;
      Run(q.Then(Skip(n)).Then(Take(size))) == Some(s[lo..lo + len])
  {
    RunThen(q, Skip(n));
    RunThen(q.Then(Skip(n)), Take(size));
    var lo := if n <= 0 then 0 else if n >= |s| then |s| else n;
    var t := SkipItems(s, n);
    assert t == s[lo..];
    assert Run(q.Then(Skip(n)).Then(Take(size))) == Some(TakeItems(t, size));
    if size <= 0 {
      assert TakeItems(t, size) == s[lo..lo];
    } else if size < |t| {
      assert TakeItems(t, size) == s[lo..lo + size];
    } else {
      assert TakeItems(t, size) == s[lo..|s|];
    }
  }

  /** Every element of a page comes from the source, and a page never holds more than `pageSize` elements. */
  lemma PageWithin(q: Query, s: seq<Value>, pageSize: Int32, page: Int32)
    requires Run(q) == Some(s)
    ensures var r := Run(ApplyPagination(q, pageSize, page));
      && r.Some?
      && |r.value| <= (if pageSize <= 0 then 0 else pageSize)
      && forall v :: v in r.value ==> v in s
  {
    PageSlice(q, s, pageSize, page);
    var lo := PageStart(pageSize, page, |s|);
    var r := Run(ApplyPagination(q, pageSize, page)).value;
    forall v | v in r ensures v in s {
      var i :| 0 <= i < |r| && r[i] == v;
      assert s[lo + i] == v;
    }
  }

  /** Page 1 is the first `pageSize` elements, or all of them when there are fewer. */
  lemma FirstPage(q: Query, s: seq<Value>, pageSize: Int32)
    requires Run(q) == Some(s)
    requires pageSize >= 0
    ensures Run(ApplyPagination(q, pageSize, 1)) == Some(s[..if pageSize <= |s| then pageSize else |s|])
  {
    PageSlice(q, s, pageSize, 1);
  }

  /** A page that starts at or after the end is empty. */
  lemma PastTheEnd(q: Query, s: seq<Value>, pageSize: Int32, page: Int32)
    requires Run(q) == Some(s)
    requires pageSize * (page - 1) >= |s|
    ensures Run(ApplyPagination(q, pageSize, page)) == Some([])
  {
    PageSlice(q, s, pageSize, page);
  }

  /** While neither `page - 1` nor the product leaves the `int` range, the source computes the intended page. */
  lemma AsWrittenWithoutOverflow(q: Query, pageSize: Int32, page: Int32)
    requires -TwoTo31 <= pageSize * (page - 1) < TwoTo31
    requires page - 1 >= -TwoTo31
    ensures ApplyPaginationAsWritten(q, pageSize, page) == ApplyPagination(q, pageSize, page)
  {
    WrapInRange(page - 1);
    WrapInRange(pageSize * (page - 1));
  }

  /** `Wrap32` leaves a value already in the `int` range alone. */
  lemma WrapInRange(x: int)
    requires -TwoTo31 <= x < TwoTo31
    ensures Wrap32(x) == x
  {
    if x < 0 {
      assert x % TwoTo32 == x + TwoTo32;
    }
  }

  /**
   * With 65536 elements per page, page 32769 starts at element 2^31: the
   * product wraps to `int.MinValue`, `Skip` of a negative count skips
   * nothing, and the source returns page 1 instead of the empty page past
   * the end of any sequence of up to 2^31 elements.
   */
  lemma PageWrapsToFirstPage(q: Query, s: seq<Value>)
    requires Run(q) == Some(s)
    requires 0 < |s| <= TwoTo31
    ensures SkipCountAsWritten(65536, 32769) == -TwoTo31
    ensures Run(ApplyPaginationAsWritten(q, 65536, 32769)) == Run(ApplyPagination(q, 65536, 1))
    ensures Run(ApplyPaginationAsWritten(q, 65536, 32769)) != Some([])
    ensures Run(ApplyPagination(q, 65536, 32769)) == Some([])
  {
    assert Wrap32(32768) == 32768;
    assert 65536 * 32768 == TwoTo31;
    assert Wrap32(TwoTo31) == -TwoTo31;
    var n := -TwoTo31;
    assert ApplyPaginationAsWritten(q, 65536, 32769) == q.Then(Skip(n)).Then(Take(65536));
    RunThen(q, Skip(n));
    RunThen(q.Then(Skip(n)), Take(65536));
    RunThen(q, Skip(0));
    RunThen(q.Then(Skip(0)), Take(65536));
    FirstPage(q, s, 65536);
    PastTheEnd(q, s, 65536, 32769);
  }
}
