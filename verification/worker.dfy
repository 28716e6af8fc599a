/**
 * Crawler plumbing from the driver utilities: the retrying decorator with
 * exponential backoff, the memory check, safe text lookup in a scraped page,
 * and the life cycle of one comic's worker (database connection, browser
 * driver, crawl, clean-up).
 *
 * The outside world enters as parameters: what each call of the wrapped
 * function would do, what the memory probe reports, whether opening the
 * database or the driver succeeds, and what the crawl yields.
 */
module Worker {
  import opened Base
  import opened Text

  // ---------------------------------------------------------------------------
  // retry(max_retries=3, delay=2)

  const MaxRetries: int := 3
  const RetryDelay: real := 2.0

  /** What one call of the wrapped function does: return a value or raise. */
  datatype Attempt<T> = Success(value: T) | Failure

  /** How the wrapper ends: with a value, by re-raising the last error, or with `None` when it never ran. */
  datatype Outcome<T> = Returned(value: T) | Raised | NoResult

  function Pow2(k: nat): (r: nat)
    ensures r >= 1
  {
    if k == 0 then 1 else 2 * Pow2(k - 1)
  }

  /** The pause after the failed call numbered `k`: `delay·2^k`, the backoff before retry `k + 1`. */
  function Backoff(delay: real, k: nat): real {
    delay * (Pow2(k) as real)
  }

  /**
   * The decorated call. `attempt(k)` is what the call numbered `k` (from 0)
   * would do; `sleeps` are the pauses taken between calls, in order.
   */
  method Retry<T>(maxRetries: int, delay: real, attempt: nat -> Attempt<T>)
    returns (r: Outcome<T>, calls: nat, sleeps: seq<real>)
    ensures maxRetries <= 0 <==> r.NoResult?
    ensures maxRetries <= 0 ==> calls == 0 && sleeps == []
    ensures calls <= MaxInt(0, maxRetries)
    ensures forall k | 0 <= k < calls - 1 :: attempt(k).Failure?
    ensures r.Returned? ==> calls >= 1 && attempt(calls - 1) == Success(r.value)
    ensures r.Raised? ==> calls == maxRetries && attempt(calls - 1).Failure?
    ensures calls > 0 ==> |sleeps| == calls - 1
    ensures forall k | 0 <= k < |sleeps| :: sleeps[k] == Backoff(delay, k)
  {
    calls := 0;
    sleeps := [];
    var retries := 0;
    while retries < maxRetries
      invariant retries == calls == |sleeps|
      invariant retries <= MaxInt(0, maxRetries)
      invariant retries < maxRetries || maxRetries <= 0
      invariant forall k | 0 <= k < calls :: attempt(k).Failure?
      invariant forall k | 0 <= k < |sleeps| :: sleeps[k] == Backoff(delay, k)
      decreases maxRetries - retries
    {
      var a := attempt(calls);
      calls := calls + 1;
      match a
      case Success(v) =>
        return Returned(v), calls, sleeps;
      case Failure =>
        retries := retries + 1;
        if retries >= maxRetries {
          return Raised, calls, sleeps;
        }
        sleeps := sleeps + [Backoff(delay, retries - 1)];
    }
    r := NoResult;
  }

  /** The first call that succeeds among the first `n`, if any: an independent reading of the wrapper. */
  function FirstSuccess<T>(attempt: nat -> Attempt<T>, n: nat): (r: Option<nat>)
    ensures r.Some? ==> r.value < n && attempt(r.value).Success?
    ensures r.Some? ==> forall k | 0 <= k < r.value :: attempt(k).Failure?
    ensures r.None? ==> forall k | 0 <= k < n :: attempt(k).Failure?
  {
    if n == 0 then None
    else
      match FirstSuccess(attempt, n - 1)
      case Some(k) => Some(k)
      case None => if attempt(n - 1).Success? then Some(n - 1) else None
  }

  /** The wrapper returns exactly when some allowed call succeeds, and then with that call's value. */
  method RetryAgreesWithFirstSuccess<T>(maxRetries: int, delay: real, attempt: nat -> Attempt<T>)
    returns (r: Outcome<T>)
    requires maxRetries > 0
    ensures FirstSuccess(attempt, maxRetries as nat).Some? <==> r.Returned?
    ensures r.Returned? ==> Success(r.value) == attempt(FirstSuccess(attempt, maxRetries as nat).value)
    ensures r.Raised? <==> FirstSuccess(attempt, maxRetries as nat).None?
  {
    var calls, sleeps;
    r, calls, sleeps := Retry(maxRetries, delay, attempt);
  }

  function SumReals(xs: seq<real>): real {
    if |xs| == 0 then 0.0 else SumReals(xs[..|xs| - 1]) + xs[|xs| - 1]
  }

  /** The pauses before `n + 1` calls add up to `delay·(2^n − 1)`: 2 + 4 = 6 seconds with the defaults. */
  lemma TotalBackoff(delay: real, sleeps: seq<real>)
    requires forall k | 0 <= k < |sleeps| :: sleeps[k] == Backoff(delay, k)
    ensures SumReals(sleeps) == delay * ((Pow2(|sleeps|) - 1) as real)
  {
    assert sleeps == Backoffs(delay, |sleeps|);
    SumOfBackoffs(delay, |sleeps|);
  }

  /** The first `n` pauses of the wrapper. */
  function Backoffs(delay: real, n: nat): (xs: seq<real>)
    ensures |xs| == n && forall k | 0 <= k < n :: xs[k] == Backoff(delay, k)
  {
    seq(n, k requires 0 <= k < n => Backoff(delay, k))
  }

  lemma {:induction false} SumOfBackoffs(delay: real, n: nat)
    ensures SumReals(Backoffs(delay, n)) == delay * ((Pow2(n) - 1) as real)
  {
    if n > 0 {
      var xs := Backoffs(delay, n);
      var init := Backoffs(delay, n - 1);
      assert xs[..n - 1] == init;
      SumOfBackoffs(delay, n - 1);
      BackoffStep(delay, SumReals(init), xs[n - 1], Pow2(n - 1), Pow2(n));
    }
  }

  /** Adding the pause `delay·a` to `delay·(a − 1)` gives `delay·(2a − 1)`. */
  lemma BackoffStep(delay: real, before: real, last: real, a: nat, b: nat)
    requires before == delay * ((a - 1) as real) && last == delay * (a as real) && b == 2 * a
    ensures before + last == delay * ((b - 1) as real)
  {
    var p := a as real;
    assert (a - 1) as real == p - 1.0 && (b - 1) as real == p - 1.0 + p;
    assert delay * (p - 1.0) + delay * p == delay * (p - 1.0 + p);
  }

  /** With the defaults a failing function is called three times, pausing 2 then 4 seconds. */
  method DefaultRetryOfFailure<T>() returns (r: Outcome<T>, calls: nat, sleeps: seq<real>)
    ensures r.Raised? && calls == 3 && sleeps == [2.0, 4.0]
  {
    r, calls, sleeps := Retry(MaxRetries, RetryDelay, (k: nat) => Failure);
    assert Pow2(1) == 2;
  }

  // ---------------------------------------------------------------------------
  // check_system_resources

  const MaxMemoryPercent: real := 80.0

  /**
   * Whether crawling may go on. `probe` is the memory use in percent, or `None`
   * when the probe raises, in which case crawling goes on.
   */
  function ResourcesSufficient(probe: Option<real>): (ok: bool)
    ensures !ok <==> probe.Some? && probe.value > MaxMemoryPercent
  {
    match probe
    case None => true
    case Some(percent) => !(percent > MaxMemoryPercent)
  }

  // ---------------------------------------------------------------------------
  // get_text_safe

  /** A page lookup: the texts of the matching elements in document order, or `None` if the lookup raised. */
  type Lookup = Option<seq<string>>

  /**
   * The driver utilities' version: the stripped text of the first match, or
   * `default` when nothing matches, the text is blank or the lookup raises.
   */
  function TextOrDefault(found: Lookup, default: string): (r: string)
    ensures r != default ==> found.Some? && |found.value| > 0 && r == Strip(found.value[0])
    ensures (found.None? || |found.value| == 0) ==> r == default
    ensures found.Some? && |found.value| > 0 && !IsBlank(found.value[0]) ==> r == Strip(found.value[0])
    ensures found.Some? && |found.value| > 0 && IsBlank(found.value[0]) ==> r == default
  {
    match found
    case None => default
    case Some(texts) =>
      if |texts| == 0 then default
      else
        var t := Strip(texts[0]);
        StripEmptyIffBlank(texts[0]);
        if t != "" then t else default
  }

  /** Given a non-blank default the answer is never blank. */
  lemma TextOrDefaultNeverBlank(found: Lookup, default: string)
    requires !IsBlank(default)
    ensures !IsBlank(TextOrDefault(found, default))
  {
    var r := TextOrDefault(found, default);
    if r != default {
      var s := found.value[0];
      StripEmptyIffBlank(s);
      assert r[0] == Strip(s)[0];
    }
  }

  /**
   * The two crawlers' version: the stripped text of the first match, which may
   * be empty, or "N/A" when nothing matches (`find_element` raises) or anything else raises.
   */
  function TextOrNA(found: Lookup): (r: string)
    ensures found.Some? && |found.value| > 0 ==> r == Strip(found.value[0])
    ensures !(found.Some? && |found.value| > 0) ==> r == "N/A"
  {
    if found.Some? && |found.value| > 0 then Strip(found.value[0]) else "N/A"
  }

  /** The two versions agree except on a blank match, where the crawlers give "" and the utilities their default. */
  lemma TextVersionsDiffer(found: Lookup)
    ensures (found.Some? && |found.value| > 0 && IsBlank(found.value[0])) <==>
            TextOrNA(found) != TextOrDefault(found, "N/A")
    ensures found.Some? && |found.value| > 0 && IsBlank(found.value[0]) ==> TextOrNA(found) == ""
  {
    if found.Some? && |found.value| > 0 {
      StripEmptyIffBlank(found.value[0]);
    }
  }

  // ---------------------------------------------------------------------------
  // process_comic_worker

  /** What happens to the worker's resources, in order. */
  datatype Event = OpenDb | CreateDriver | Crawl | QuitDriver | CloseDb

  /**
   * One comic's worker. `probe` is the memory reading, `dbOpens` and
   * `driverStarts` say whether the connection and the driver can be made, and
   * `crawl` is what the crawl function returns (`None` when it raises).
   * Errors while quitting or closing are swallowed, so they do not appear.
   */
  function ProcessComic<T>(probe: Option<real>, dbOpens: bool, driverStarts: bool, crawl: Option<T>)
    : (r: (Option<T>, seq<Event>))
    ensures !ResourcesSufficient(probe) ==> r == (None, [])
    ensures r.0.Some? <==> ResourcesSufficient(probe) && dbOpens && driverStarts && crawl.Some?
    ensures r.0.Some? ==> r.0 == crawl
  {
    if !ResourcesSufficient(probe) then (None, [])
    else if !dbOpens then (None, [])
    else if !driverStarts then (None, [OpenDb, CloseDb])
    else (crawl, [OpenDb, CreateDriver, Crawl, QuitDriver, CloseDb])
  }

  /**
   * Every resource the worker opens is released exactly once, after its use,
   * and the driver is quit before the connection closes.
   */
  lemma ProcessComicReleases<T>(probe: Option<real>, dbOpens: bool, driverStarts: bool, crawl: Option<T>)
    ensures var es := ProcessComic(probe, dbOpens, driverStarts, crawl).1;
            multiset(es)[CloseDb] == multiset(es)[OpenDb] <= 1 &&
            multiset(es)[QuitDriver] == multiset(es)[CreateDriver] <= 1 &&
            (|es| > 0 ==> es[0] == OpenDb && es[|es| - 1] == CloseDb) &&
            (CreateDriver in es ==> Crawl in es && QuitDriver in es)
  {
  }
}
