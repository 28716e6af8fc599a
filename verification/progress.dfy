/**
 * The TruyenQQ crawler's progress reports: the listing phase reports the share
 * of listing pages done, and the detail phase fills the second half of the bar.
 */
module Progress {
  import opened Base

  /** The page limit of the listing phase: the crawler's `max_pages`, or 999 when unset or 0. */
  function ListingLimit(maxPages: Option<int>): (n: int)
    ensures maxPages.None? ==> n == 999
    ensures maxPages.Some? && maxPages.value != 0 ==> n == maxPages.value
    ensures maxPages == Some(0) ==> n == 999
  {
    if maxPages.Some? && maxPages.value != 0 then maxPages.value else 999
  }

  /**
   * The report after page `page − 1` has been read and the page number
   * advanced to `page`: `min(100, page / limit · 100)`. The loop only runs
   * while the page number is within a positive limit.
   */
  function ListingProgress(page: int, limit: int): (r: real)
    requires limit > 0
    ensures r <= 100.0
    ensures page >= 0 ==> r >= 0.0
    ensures page >= limit ==> r == 100.0
    ensures 0 <= page < limit ==> r * (limit as real) == (page as real) * 100.0
  {
    var share := (page as real) / (limit as real) * 100.0;
    assert page >= limit ==> (page as real) / (limit as real) >= 1.0;
    if share <= 100.0 then share else 100.0
  }

  /** Reading more pages never lowers the reported progress. */
  lemma ListingProgressMonotone(p: int, q: int, limit: int)
    requires limit > 0 && p <= q
    ensures ListingProgress(p, limit) <= ListingProgress(q, limit)
  {
    var l := limit as real;
    assert (p as real) / l <= (q as real) / l;
  }

  /**
   * The report after the `i`-th finished detail (from 0) out of `total`:
   * `min(100, 50 + i / total · 50)`; it stays in the second half of the bar.
   */
  function DetailProgress(i: nat, total: nat): (r: real)
    requires i < total
    ensures 50.0 <= r < 100.0
    ensures i == 0 ==> r == 50.0
  {
    var share := 50.0 + (i as real) / (total as real) * 50.0;
    if share <= 100.0 then share else 100.0
  }

  /** Each finished detail raises the report strictly. */
  lemma DetailProgressIncreases(i: nat, total: nat)
    requires i + 1 < total
    ensures DetailProgress(i, total) < DetailProgress(i + 1, total)
  {
    var t := total as real;
    assert (i as real) / t < ((i + 1) as real) / t;
  }
}
