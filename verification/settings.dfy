/** Stored settings as the downloader reads them: the jittered wait between
    listing requests and the download order.  The settings store itself is
    outside the model: a stored value arrives as `Some(n)` when the lookup
    yields a finite number and as `None` when it falls back to the default.
    Without the script manager's store, a missing key is read from local
    storage as `Number(null)`, which is 0, so it arrives as `Some(0)`. */
module Settings {
  import opened Text

  const DefaultMinInterval: int := 1000
  const DefaultMaxInterval: int := 3000
  /** Neither bound may be smaller than this many milliseconds. */
  const IntervalFloor: int := 100
  /** The bounds must be strictly more than this many milliseconds apart. */
  const IntervalSpread: int := 3000
  /** The rate limiter sleeps in ticks of this many milliseconds. */
  const WaitStep: int := 250

  datatype Intervals = Intervals(min: int, max: int)

  datatype DownloadOrder = Ascending | Reverse

  /** Both bounds at least the floor, the maximum above the minimum, and the
      spread above 3000 ms.  The separate `max > min` test is implied by the
      spread: validity is the floor on the minimum plus a gap of 3001 ms. */
  function IsValidIntervalRange(min: int, max: int): (ok: bool)
    ensures ok <==> min >= IntervalFloor && max >= min + IntervalSpread + 1
    ensures ok ==> Min(min, max) == min && Max(min, max) == max
  {
    min >= IntervalFloor && max >= IntervalFloor && max > min && max - min > IntervalSpread
  }

  function Max(a: int, b: int): int {
    if a >= b then a else b
  }

  function Min(a: int, b: int): int {
    if a <= b then a else b
  }

  /** The two boundary examples the settings dialog's message describes. */
  lemma IntervalExamples()
    ensures !IsValidIntervalRange(100, 3050)
    ensures IsValidIntervalRange(100, 4000)
    ensures !IsValidIntervalRange(DefaultMinInterval, DefaultMaxInterval)
  {
  }

  /** Both stored bounds are raised to the floor first; the pair is used only
      when it passes validation, and otherwise the defaults replace it. */
  function GetIntervals(storedMin: Option<int>, storedMax: Option<int>): (r: Intervals)
    ensures IsValidIntervalRange(r.min, r.max) || r == Intervals(DefaultMinInterval, DefaultMaxInterval)
    ensures r.min >= IntervalFloor && r.max >= IntervalFloor && r.min < r.max
    ensures IsValidIntervalRange(r.min, r.max) ==>
              r.min == Max(IntervalFloor, storedMin.GetOr(DefaultMinInterval))
              && r.max == Max(IntervalFloor, storedMax.GetOr(DefaultMaxInterval))
  {
    var min := Max(IntervalFloor, storedMin.GetOr(DefaultMinInterval));
    var max := Max(IntervalFloor, storedMax.GetOr(DefaultMaxInterval));
    if !IsValidIntervalRange(min, max) then Intervals(DefaultMinInterval, DefaultMaxInterval)
    else Intervals(min, max)
  }

  /** The intervals in force pass validation exactly when the stored pair,
      raised to the floor, does: the defaults never pass it themselves. */
  lemma GetIntervalsValidIff(storedMin: Option<int>, storedMax: Option<int>)
    ensures var r := GetIntervals(storedMin, storedMax);
            IsValidIntervalRange(r.min, r.max)
            <==> IsValidIntervalRange(Max(IntervalFloor, storedMin.GetOr(DefaultMinInterval)),
                                      Max(IntervalFloor, storedMax.GetOr(DefaultMaxInterval)))
  {
  }

  /** Anything other than the exact text "asc" (including no stored value)
      means reverse order. */
  function GetDownloadOrder(stored: Option<string>): (o: DownloadOrder)
    ensures o == Ascending <==> stored == Some("asc")
  {
    match stored
    case Some(v) => if v == "asc" then Ascending else Reverse
    case None => Reverse
  }

  /** `randomInt(a, b)`: a uniformly drawn integer between the smaller and the
      larger bound, both included.  The random draw is the argument `draw`,
      reduced into the range. */
  function RandomInt(a: int, b: int, draw: nat): (r: int)
    ensures Min(a, b) <= r <= Max(a, b)
    ensures draw <= Max(a, b) - Min(a, b) ==> r == Min(a, b) + draw
  {
    var low := Min(a, b);
    var high := Max(a, b);
    low + draw % (high - low + 1)
  }

  /** What one tick of the rate limiter observes when it wakes up: whether it
      had to wait out a pause, whether stop was requested, whether a resume
      happened since the tick before (during that tick's sleep or the pause),
      and whether the download side is idle (empty queue and no active
      download). */
  datatype TickView = TickView(wasPaused: bool, stopped: bool, resumed: bool, idle: bool)

  datatype WaitExit = Elapsed | Stopped | Resumed | Idle

  /** The `resumedFromPause` flag once the first `n` ticks have woken up:
      raised at the start (`pending`) or by a resume during one of them. */
  predicate Pending(pending: bool, ticks: seq<TickView>, n: nat)
    requires n <= |ticks|
  {
    if n == 0 then pending else Pending(pending, ticks, n - 1) || ticks[n - 1].resumed
  }

  /** Tick k cuts the wait short: a stop, a pause it waited out, a pending
      resume, or an idle download side. */
  predicate CutsShort(pending: bool, ticks: seq<TickView>, k: nat)
    requires k < |ticks|
  {
    ticks[k].stopped || ticks[k].wasPaused || Pending(pending, ticks, k + 1) || ticks[k].idle
  }

  /** `waitBeforeNextFetch`: waits a drawn total in steps of at most one tick,
      returning early on stop, on a pause or a pending resume (and then
      clearing the `resumedFromPause` flag), or when the download side is
      idle.  `pending` is the flag when the wait begins and `ticks[k]` what the
      k-th tick observes.  After the last sleep of an elapsed wait nothing is
      read, so a resume during that sleep leaves the flag up; the tick after
      the last one records that.  Returns how long it waited, why it
      returned, how many ticks it looked at, and the flag afterwards. */
  method WaitBeforeNextFetch(iv: Intervals, draw: nat, ticks: seq<TickView>, pending: bool)
    returns (waited: int, exit: WaitExit, used: nat, pending': bool)
    requires iv.min >= IntervalFloor && iv.max >= IntervalFloor
    requires (|ticks| - 1) * WaitStep >= Max(iv.min, iv.max)
    ensures 0 <= waited <= RandomInt(iv.min, iv.max, draw)
    ensures exit == Elapsed <==> waited == RandomInt(iv.min, iv.max, draw)
    ensures exit == Elapsed ==> Min(iv.min, iv.max) <= waited <= Max(iv.min, iv.max)
    ensures exit == Elapsed ==> (used - 1) * WaitStep < waited <= used * WaitStep
    ensures used <= |ticks|
    ensures forall k :: 0 <= k < used - 1 ==> !CutsShort(pending, ticks, k)
    ensures exit == Elapsed ==> forall k :: 0 <= k < used ==> !CutsShort(pending, ticks, k)
    ensures exit != Elapsed ==> used >= 1 && CutsShort(pending, ticks, used - 1) && waited == WaitStep * (used - 1)
    ensures exit == Stopped <==> exit != Elapsed && ticks[used - 1].stopped
    ensures exit == Resumed ==>
              !ticks[used - 1].stopped && (ticks[used - 1].wasPaused || Pending(pending, ticks, used))
    ensures exit == Idle ==>
              ticks[used - 1].idle && !ticks[used - 1].stopped && !ticks[used - 1].wasPaused
    ensures exit == Resumed ==> !pending'
    ensures exit == Stopped || exit == Idle ==> pending' == Pending(pending, ticks, used)
    ensures exit == Idle ==> !pending'
    ensures exit == Elapsed ==>
              used < |ticks| && pending' == Pending(pending, ticks, used + 1) && pending' == ticks[used].resumed
  {
    var total := RandomInt(iv.min, iv.max, draw);
    waited := 0;
    used := 0;
    exit := Elapsed;
    pending' := pending;
    while waited < total
      invariant 0 <= waited <= total
      invariant waited < total ==> waited == WaitStep * used
      invariant waited == total ==> (used - 1) * WaitStep < total <= used * WaitStep
      invariant used * WaitStep <= total + WaitStep - 1
      invariant used < |ticks|
      invariant pending' == Pending(pending, ticks, used)
      invariant used >= 1 ==> !pending'
      invariant waited == total ==> used >= 1
      invariant forall k :: 0 <= k < used ==> !CutsShort(pending, ticks, k)
      decreases total - waited
    {
      var t := ticks[used];
      used := used + 1;
      pending' := pending' || t.resumed;
      if t.stopped {
        exit := Stopped;
        return;
      }
      if t.wasPaused || pending' {
        pending' := false;
        exit := Resumed;
        return;
      }
      if t.idle {
        exit := Idle;
        return;
      }
      var ms := Min(WaitStep, total - waited);
      waited := waited + ms;
    }
    pending' := pending' || ticks[used].resumed;
  }
}
