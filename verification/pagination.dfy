/**
 * Paging arithmetic of a listing (routes/jobs.js:28 and 93-103): the offset
 * of a page, the page cut from the filtered rows, and the envelope sent
 * beside it.
 */
module Pagination {

  /** The `pagination` object of a listing response. */
  datatype Envelope = Envelope(
    currentPage: int,
    perPage: int,
    total: nat,
    totalPages: nat,
    hasNext: bool,
    hasPrev: bool)

  function Min(a: int, b: int): int {
    if a <= b then a else b
  }

  /** Rows skipped before page `page` of `limit` rows. */
  function Offset(page: int, limit: int): int {
    (page - 1) * limit
  }

  lemma MulMonotone(a: int, b: int, c: int)
    requires a <= b && c >= 0
    ensures a * c <= b * c
  {
  }

  /** `Math.ceil(total / limit)`: the fewest pages of `limit` rows that hold `total` rows. */
  function CeilDiv(total: nat, limit: int): (r: nat)
    requires limit >= 1
    ensures r * limit >= total
    ensures (r - 1) * limit < total
  {
    (total + limit - 1) / limit
  }

  /** The envelope for page `page` of `limit` rows out of `total` matching rows. */
  function Paginate(page: int, limit: int, total: nat): (e: Envelope)
    requires limit >= 1
    ensures e.currentPage == page && e.perPage == limit && e.total == total
    ensures e.totalPages * limit >= total && (e.totalPages - 1) * limit < total
    ensures e.totalPages == 0 <==> total == 0
    ensures e.hasNext <==> Offset(page, limit) + limit < total
    ensures e.hasPrev <==> page > 1
  {
    var pages := CeilDiv(total, limit);
    assert page < pages <==> page * limit < total by {
      if page < pages {
        MulMonotone(page, pages - 1, limit);
      } else {
        MulMonotone(pages, page, limit);
      }
    }
    Envelope(page, limit, total, pages, page < pages, page > 1)
  }

  /** `LIMIT limit OFFSET offset` applied to an ordered result. */
  function Window<T>(all: seq<T>, offset: int, limit: int): (w: seq<T>)
    requires offset >= 0 && limit >= 1
    ensures |w| == if offset >= |all| then 0 else Min(limit, |all| - offset)
    ensures forall i :: 0 <= i < |w| ==> w[i] == all[offset + i]
  {
    if offset >= |all| then [] else all[offset..Min(offset + limit, |all|)]
  }

  /**
   * Every row of an ordered result appears on exactly one page, page
   * `i / limit + 1`, and that page exists by the envelope's count.
   */
  lemma EveryRowOnOnePage<T>(all: seq<T>, limit: int, i: int)
    requires limit >= 1 && 0 <= i < |all|
    ensures var p := i / limit + 1;
      && 1 <= p <= CeilDiv(|all|, limit)
      && Offset(p, limit) <= i
      && i - Offset(p, limit) < |Window(all, Offset(p, limit), limit)|
      && Window(all, Offset(p, limit), limit)[i - Offset(p, limit)] == all[i]
    ensures forall q :: q >= 1 && Offset(q, limit) <= i < Offset(q, limit) + limit ==> q == i / limit + 1
  {
    var p := i / limit + 1;
    var pages := CeilDiv(|all|, limit);
    assert Offset(p, limit) == (i / limit) * limit;
    assert (i / limit) * limit <= i < (i / limit) * limit + limit;
    if p > pages {
      MulMonotone(pages, p - 1, limit);
    }
    forall q | q >= 1 && Offset(q, limit) <= i < Offset(q, limit) + limit
      ensures q == p
    {
      if q < p {
        MulMonotone(q, p - 1, limit);
      } else if q > p {
        MulMonotone(p, q - 1, limit);
      }
    }
  }
}
