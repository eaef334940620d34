/** The `limit`/`offset` arithmetic shared by the list endpoints, with Rust's `usize`
    arithmetic and its `as i32` narrowing written out. */
module Pagination {
  import opened Wrappers
  import opened Schema

  const DefaultLimit: Usize := 10
  const FirstPage: Usize := 1

  /** 2^32 and 2^31: the width of `i32` and the first value it cannot hold. */
  const I32Modulus: nat := 0x1_0000_0000
  const I32Bound: nat := 0x8000_0000

  /** Panic messages of Rust's checked arithmetic. */
  const SubtractOverflow := "attempt to subtract with overflow"
  const MultiplyOverflow := "attempt to multiply with overflow"

  /** How the binary was built: `Debug` checks integer overflow and panics on it,
      `Release` wraps around modulo 2^64. */
  datatype Profile = Debug | Release

  /** The `usize` limit and offset of one page. */
  datatype Window = Window(limit: Usize, offset: Usize)

  function LimitOf(opts: FilterOptions): Usize { GetOr(opts.limit, DefaultLimit) }

  function PageOf(opts: FilterOptions): Usize { GetOr(opts.page, FirstPage) }

  function WrappingSub(a: Usize, b: Usize): Usize { (a - b) % UsizeModulus }

  function WrappingMul(a: Usize, b: Usize): Usize { (a * b) % UsizeModulus }

  /** `limit = page.limit.unwrap_or(10)` and `offset = (page.unwrap_or(1) - 1) * limit`,
      under the arithmetic of the given build profile. */
  function ComputeWindow(opts: FilterOptions, profile: Profile): (r: Result<Window, string>)
    ensures r.Ok? ==> r.value.limit == LimitOf(opts)
    ensures profile == Release ==> r.Ok?
    ensures profile == Debug ==>
      (r.Ok? <==> PageOf(opts) >= 1 && (PageOf(opts) - 1) * LimitOf(opts) < UsizeModulus)
    ensures profile == Debug && opts.page == Some(0) ==> r == Err(SubtractOverflow)
  {
    var limit := LimitOf(opts);
    var page := PageOf(opts);
    match profile
    case Debug =>
      if page == 0 then Err(SubtractOverflow)
      else if (page - 1) * limit >= UsizeModulus then Err(MultiplyOverflow)
      else Ok(Window(limit, (page - 1) * limit))
    case Release =>
      Ok(Window(limit, WrappingMul(WrappingSub(page, 1), limit)))
  }

  /** `x as i32`: the low 32 bits of `x`, read as a two's-complement number. */
  function AsI32(x: Usize): (r: int)
    ensures -(I32Bound as int) <= r < I32Bound
    ensures (x - r) % I32Modulus == 0
    ensures x < I32Bound ==> r == x
  {
    var low := x % I32Modulus;
    assert x - low == I32Modulus * (x / I32Modulus);
    if low < I32Bound then low else low - I32Modulus
  }

  /** The `LIMIT $1 OFFSET $2` arguments bound for a window. */
  function BoundLimit(w: Window): int { AsI32(w.limit) }

  function BoundOffset(w: Window): int { AsI32(w.offset) }

  /** Reference meaning of an offset: the rows of all pages before `page`,
      each page holding `limit` rows. */
  function SkippedRows(page: nat, limit: nat): nat
  {
    if page <= 1 then 0 else SkippedRows(page - 1, limit) + limit
  }

  lemma {:induction false} SkippedRowsIsProduct(page: nat, limit: nat)
    requires page >= 1
    ensures SkippedRows(page, limit) == (page - 1) * limit
  {
    if page > 1 {
      SkippedRowsIsProduct(page - 1, limit);
      assert (page - 1) * limit == (page - 2) * limit + limit;
    }
  }

  /** Without query parameters the first ten rows are asked for, in either profile. */
  lemma DefaultWindow(profile: Profile)
    ensures ComputeWindow(FilterOptions(None, None), profile) == Ok(Window(10, 0))
  {
  }

  /** `limit=5, page=2` skips the five rows of the first page. */
  lemma SecondPageOfFive(profile: Profile)
    ensures ComputeWindow(FilterOptions(Some(2), Some(5)), profile) == Ok(Window(5, 5))
  {
  }

  /** A window that does not panic starts after every row of the earlier pages. */
  lemma DebugOffsetSkipsEarlierPages(opts: FilterOptions)
    requires ComputeWindow(opts, Debug).Ok?
    ensures ComputeWindow(opts, Debug).value.offset == SkippedRows(PageOf(opts), LimitOf(opts))
  {
    SkippedRowsIsProduct(PageOf(opts), LimitOf(opts));
  }

  /** Consecutive pages are adjacent: page `p + 1` begins where page `p` ends, so no row
      is skipped or shown twice (page 0 is excluded: it panics). */
  lemma ConsecutivePagesAdjacent(page: Usize, limit: Usize)
    requires 1 <= page && page + 1 < UsizeModulus
    requires ComputeWindow(FilterOptions(Some(page + 1), Some(limit)), Debug).Ok?
    ensures ComputeWindow(FilterOptions(Some(page), Some(limit)), Debug).Ok?
    ensures ComputeWindow(FilterOptions(Some(page + 1), Some(limit)), Debug).value.offset
         == ComputeWindow(FilterOptions(Some(page), Some(limit)), Debug).value.offset + limit
  {
  }

  /** Wherever the checked arithmetic does not panic, the wrapping arithmetic gives
      the same window: the two profiles differ only on overflow. */
  lemma ReleaseAgreesWithDebug(opts: FilterOptions)
    requires ComputeWindow(opts, Debug).Ok?
    ensures ComputeWindow(opts, Release) == ComputeWindow(opts, Debug)
  {
  }

  /** `x * (2^64 - 1)` is `-x` modulo 2^64. */
  lemma WrappedNegation(x: Usize)
    requires x > 0
    ensures WrappingMul(UsizeModulus - 1, x) == UsizeModulus - x
  {
  }

  /** In a release build `page=0` does not fail: the offset wraps around and, for a limit
      of at most 2^31, is bound as minus one page. */
  lemma ReleasePageZeroBindsNegativeOffset(limit: Usize)
    requires limit <= I32Bound
    ensures ComputeWindow(FilterOptions(Some(0), Some(limit)), Release).Ok?
    ensures BoundOffset(ComputeWindow(FilterOptions(Some(0), Some(limit)), Release).value) == -(limit as int)
  {
    var w := ComputeWindow(FilterOptions(Some(0), Some(limit)), Release).value;
    assert WrappingSub(0, 1) == UsizeModulus - 1;
    if limit > 0 {
      WrappedNegation(limit);
      assert w.offset == UsizeModulus - limit;
      assert UsizeModulus - limit == (I32Modulus - 1) * I32Modulus + (I32Modulus - limit);
      assert w.offset % I32Modulus == I32Modulus - limit;
    }
  }

  /** Narrowing is not checked: a limit of 2^32 is bound as `LIMIT 0`, and 2^31 as a
      negative limit. */
  lemma NarrowingTruncates()
    ensures BoundLimit(Window(I32Modulus, 0)) == 0
    ensures BoundLimit(Window(I32Bound, 0)) == -(I32Bound as int)
  {
  }
}
