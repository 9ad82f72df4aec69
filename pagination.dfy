/** Pagination arithmetic of the `find` action: `createPaginationResponse`
    (packages/unstrap/src/utils.ts), over JavaScript numbers restricted to
    integers, NaN and the infinities. */
module Pagination {

  /** A JavaScript number as it arises here: an integer, `NaN` (from
      `parseInt` of a non-number) or an infinity (from a division by zero). */
  datatype Num = Int(n: int) | NaN | PosInf | NegInf

  /** The floor of `a / b`. Dafny's `/` is Euclidean, which is the floor only
      for a positive divisor. */
  function FloorDiv(a: int, b: int): (q: int)
    requires b != 0
    ensures b > 0 ==> q * b <= a < q * b + b
    ensures b < 0 ==> q * b + b < a <= q * b
  {
    if b > 0 then a / b
    else
      var d := -b;
      var q := (-a) / d;
      assert q * d <= -a < q * d + d;
      assert q * d == -(q * b);
      q
  }

  /** `Math.ceil(a / b)`: the least integer not below the quotient. */
  function CeilDiv(a: int, b: int): (q: int)
    requires b != 0
    ensures b > 0 ==> a <= q * b && (q - 1) * b < a
    ensures b < 0 ==> q * b <= a && a < (q - 1) * b
  {
    -FloorDiv(-a, b)
  }

  /** `Math.ceil(total / pageSize)`. A zero page size divides to an
      infinity (or NaN for a zero total); an infinite one to zero. */
  function PageCount(total: int, pageSize: Num): Num {
    match pageSize
    case NaN => NaN
    case PosInf => Int(0)
    case NegInf => Int(0)
    case Int(size) =>
      if size != 0 then Int(CeilDiv(total, size))
      else if total > 0 then PosInf
      else if total < 0 then NegInf
      else NaN
  }

  datatype PaginationMeta = PaginationMeta(page: Num, pageSize: Num, pageCount: Num, total: int)

  /** `createPaginationResponse(page, pageSize, total)`: echoes its inputs and
      adds the page count, which does not depend on `page`. */
  function CreatePaginationResponse(page: Num, pageSize: Num, total: int): (m: PaginationMeta)
    ensures m.page == page && m.pageSize == pageSize && m.total == total
    ensures pageSize.Int? && pageSize.n > 0 ==> m.pageCount.Int?
  {
    PaginationMeta(page, pageSize, PageCount(total, pageSize), total)
  }

  /** The page count is the least number of pages of `pageSize` that hold
      `total` records: enough pages, and none to spare. */
  lemma PageCountBounds(total: int, pageSize: int)
    requires total >= 0 && pageSize > 0
    ensures var c := PageCount(total, Int(pageSize));
      && c.Int? && c.n >= 0
      && c.n * pageSize >= total
      && (total > 0 ==> (c.n - 1) * pageSize < total)
  {
    var c := CeilDiv(total, pageSize);
    if c < 0 {
      MulMonotone(c, 0, pageSize);
    }
  }

  /** Multiplying by a positive page size keeps order; used by
      `PageCountBounds`, `PageCountZero` and `PageCountMonotone`. */
  lemma MulMonotone(x: int, y: int, p: int)
    requires x <= y && p > 0
    ensures x * p <= y * p
  {
    assert y * p - x * p == (y - x) * p;
  }

  /** No records, no pages. */
  lemma PageCountZero(pageSize: int)
    requires pageSize > 0
    ensures PageCount(0, Int(pageSize)) == Int(0)
  {
    var c := CeilDiv(0, pageSize);
    if c >= 1 {
      MulMonotone(0, c - 1, pageSize);
    } else if c <= -1 {
      MulMonotone(c, -1, pageSize);
    }
  }

  /** The page count never decreases as the total grows. */
  lemma PageCountMonotone(t1: int, t2: int, pageSize: int)
    requires t1 <= t2 && pageSize > 0
    ensures PageCount(t1, Int(pageSize)).n <= PageCount(t2, Int(pageSize)).n
  {
    var c1 := CeilDiv(t1, pageSize);
    var c2 := CeilDiv(t2, pageSize);
    if c1 > c2 {
      MulMonotone(c2, c1 - 1, pageSize);
    }
  }

  /** Example: page 2 of size 10 over 25 records; there are 3 pages. */
  lemma PaginationExample()
    ensures CreatePaginationResponse(Int(2), Int(10), 25) == PaginationMeta(Int(2), Int(10), Int(3), 25)
  {
  }
}
