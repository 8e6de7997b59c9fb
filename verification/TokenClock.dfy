/** Token times across passes: when a pass refreshes, what the status then says, when
    the next pass is due, and how long the stored tokens really last.  Times and
    durations are in nanoseconds; a persisted time keeps whole seconds only. */
module TokenClock {
  import opened Wrappers

  const SECOND := 1_000_000_000
  const MINUTE := 60 * SECOND
  const REFRESH_WINDOW := 15 * MINUTE
  const WAKE_UP := 5 * MINUTE

  /** What a time reads as once the status has been written. */
  function Trunc(t: int): int { t - t % SECOND }

  predicate Whole(d: int) { d % SECOND == 0 }

  /** The lifetime that token requests ask for: whole seconds, rounded towards zero. */
  function Requested(d: int): int { if d >= 0 then Trunc(d) else -Trunc(-d) }

  /** The persisted token times. */
  datatype Times = Times(gen: Option<int>, exp: Option<int>)

  /** The clock readings of one pass in order, and whether its status update succeeded. */
  datatype Pass = Pass(
    start: int,
    before: int,  // read for the expiry check
    left: int,    // read for the remaining time
    gen: int,     // read for the generation time
    exp: int,     // read for the expiration time
    issued: int,  // when the datasource token is granted
    write: int,   // when the status is updated
    done: int,
    persisted: bool)

  predicate Ordered(p: Pass) {
    p.start <= p.before <= p.left <= p.gen <= p.exp <= p.issued <= p.write <= p.done
  }

  predicate NeedsRefresh(d: int, t: Times, before: int, left: int) {
    || t.exp.None? || t.gen.None?
    || t.exp.value < before
    || t.exp.value - left < REFRESH_WINDOW
    || t.exp.value - t.gen.value < d
  }

  function AfterPass(d: int, t: Times, p: Pass): Times {
    if p.persisted && NeedsRefresh(d, t, p.before, p.left) then Times(Some(Trunc(p.gen)), Some(Trunc(p.exp + d))) else t
  }

  /** How long to wait after a pass whose status was persisted. */
  function RequeueAfter(t: Times, now: int): int {
    if t.exp.None? || t.exp.value - now - WAKE_UP < 0 then 0 else t.exp.value - now - WAKE_UP
  }

  // ----- runs -----------------------------------------------------------

  /** The persisted times after the first i passes. */
  function StatusAfter(d: int, t0: Times, run: seq<Pass>, i: nat): Times
    requires i <= |run|
  {
    if i == 0 then t0 else AfterPass(d, StatusAfter(d, t0, run, i - 1), run[i - 1])
  }

  predicate Refreshes(d: int, t0: Times, run: seq<Pass>, i: nat)
    requires i < |run|
  {
    NeedsRefresh(d, StatusAfter(d, t0, run, i), run[i].before, run[i].left)
  }

  /** Passes of one resource never overlap; events may start them at any time. */
  predicate InOrder(run: seq<Pass>) {
    && (forall i :: 0 <= i < |run| ==> Ordered(run[i]))
    && (forall i :: 0 < i < |run| ==> run[i - 1].done <= run[i].start)
  }

  function Due(d: int, t0: Times, run: seq<Pass>, i: nat): int
    requires i < |run|
  {
    run[i].done + RequeueAfter(StatusAfter(d, t0, run, i + 1), run[i].done)
  }

  function Lateness(due: int, start: int): int { if start > due then start - due else 0 }

  /** Every status update succeeds, and queue delay and pass length stay under five minutes together. */
  predicate OnTime(d: int, t0: Times, run: seq<Pass>) {
    && (forall i :: 0 <= i < |run| ==> run[i].persisted && run[i].done - run[i].start < WAKE_UP)
    && (forall i :: 0 < i < |run| ==>
          run[i].done - run[i].start + Lateness(Due(d, t0, run, i - 1), run[i].start) < WAKE_UP)
  }

  // ----- gap-free coverage ----------------------------------------------

  /** From one status update until the next, the persisted expiry is in the future. */
  predicate Covered(d: int, t0: Times, run: seq<Pass>) {
    forall i :: 0 < i < |run| ==>
      var t := StatusAfter(d, t0, run, i); t.exp.Some? && t.exp.value > run[i].write
  }

  /** Ten minutes and almost a second. */
  const SHORTEST := 10 * MINUTE + SECOND - 2

  /** After a short pass the persisted expiry is at least five minutes off. */
  lemma HeadRoom(d: int, t: Times, p: Pass)
    requires d >= SHORTEST && Ordered(p) && p.persisted && p.done - p.start < WAKE_UP
    ensures var t' := AfterPass(d, t, p); t'.exp.Some? && t'.gen.Some? && t'.exp.value >= p.done + WAKE_UP
  {
  }

  lemma CoveredWhenLongEnough(d: int, t0: Times, run: seq<Pass>)
    requires d >= SHORTEST && InOrder(run) && OnTime(d, t0, run)
    ensures Covered(d, t0, run)
  {
    forall i | 0 < i < |run|
      ensures var t := StatusAfter(d, t0, run, i); t.exp.Some? && t.exp.value > run[i].write
    {
      HeadRoom(d, StatusAfter(d, t0, run, i - 1), run[i - 1]);
      assert Ordered(run[i - 1]) && Ordered(run[i]);
    }
  }

  function Instant(t: int, done: int): Pass { Pass(t, t, t, t, t, t, done, done, true) }

  /** Two passes of almost five minutes each, the first on the last nanosecond of a
      second: the second pass starts without delay and still is too late. */
  lemma GapWhenTooShort(d: int, t0: Times) returns (run: seq<Pass>)
    requires d < SHORTEST && t0.gen.None?
    ensures InOrder(run) && OnTime(d, t0, run) && !Covered(d, t0, run)
  {
    var t := SECOND - 1 - d % SECOND;
    var mid := t + WAKE_UP - 1;
    run := [Instant(t, mid), Instant(mid, mid + WAKE_UP - 1)];
    assert Trunc(t + d) == t + d - (SECOND - 1) by {
      assert t + d == d - d % SECOND + (SECOND - 1);
      LastNanosecond(d);
    }
    assert StatusAfter(d, t0, run, 0) == t0;
    assert StatusAfter(d, t0, run, 1) == Times(Some(Trunc(t)), Some(Trunc(t + d)));
    assert Due(d, t0, run, 0) == mid;
    assert Ordered(run[0]) && Ordered(run[1]);
  }

  lemma LastNanosecond(d: int)
    ensures (d - d % SECOND + (SECOND - 1)) % SECOND == SECOND - 1
  {
    var q := d / SECOND;
    assert d - d % SECOND + (SECOND - 1) == q * SECOND + (SECOND - 1);
  }

  /** Whatever the passes, extra ones included, waking up five minutes before the
      expiry leaves no gap exactly when the duration is at least SHORTEST. */
  lemma GapFreeIff(d: int)
    ensures d >= 600_999_999_998 <==>
      forall t0, run :: InOrder(run) && OnTime(d, t0, run) ==> Covered(d, t0, run)
  {
    if d >= SHORTEST {
      forall t0, run | InOrder(run) && OnTime(d, t0, run) ensures Covered(d, t0, run) {
        CoveredWhenLongEnough(d, t0, run);
      }
    } else {
      var run := GapWhenTooShort(d, Times(None, None));
    }
  }

  // ----- the lifetime check ---------------------------------------------

  lemma WholeShift(t: int, d: int)
    requires Whole(d)
    ensures Trunc(t + d) == Trunc(t) + d
  {
    var q := d / SECOND;
    assert d == q * SECOND;
    assert (t + q * SECOND) % SECOND == t % SECOND;
  }

  lemma TruncMonotone(s: int, t: int)
    requires s <= t
    ensures Trunc(s) <= Trunc(t) <= t < Trunc(t) + SECOND
  {
    assert s / SECOND <= t / SECOND;
    assert Trunc(s) == s / SECOND * SECOND && Trunc(t) == t / SECOND * SECOND;
  }

  predicate LongEnough(d: int, gen: int, exp: int) {
    gen <= exp ==> Trunc(exp + d) - Trunc(gen) >= d
  }

  /** The lifetime check stays quiet on times that a refresh wrote, whatever the
      clock readings, exactly when the duration is in whole seconds. */
  lemma LifetimeCheckQuietIff(d: int)
    ensures Whole(d) <==> forall gen, exp :: LongEnough(d, gen, exp)
  {
    if Whole(d) {
      forall gen, exp ensures LongEnough(d, gen, exp) {
        WholeShift(exp, d);
        if gen <= exp { TruncMonotone(gen, exp); }
      }
    } else {
      assert !LongEnough(d, 0, 0);
    }
  }

  /** With a fraction of a second in the duration, a refresh on a whole second makes
      the next pass refresh too, however soon it comes. */
  lemma FractionRefreshesAgain(d: int, t0: Times, run: seq<Pass>, i: nat)
    requires !Whole(d) && i + 1 < |run| && run[i].persisted && Refreshes(d, t0, run, i)
    requires run[i].gen == run[i].exp && Whole(run[i].exp)
    ensures Refreshes(d, t0, run, i + 1)
  {
    var p := run[i];
    assert StatusAfter(d, t0, run, i + 1) == Times(Some(Trunc(p.gen)), Some(Trunc(p.exp + d)));
    WholeShift(d, p.exp);
    assert Trunc(p.gen) == p.gen && Trunc(d) < d;
  }

  // ----- refresh spacing ------------------------------------------------

  /** A persisted refresh stands until the next one is persisted. */
  lemma {:induction false} RefreshStands(d: int, t0: Times, run: seq<Pass>, i: nat, j: nat)
    requires i < j <= |run| && run[i].persisted && Refreshes(d, t0, run, i)
    requires forall k :: i < k < j ==> !run[k].persisted || !Refreshes(d, t0, run, k)
    ensures StatusAfter(d, t0, run, j) == Times(Some(Trunc(run[i].gen)), Some(Trunc(run[i].exp + d)))
    decreases j
  {
    if i + 1 < j {
      RefreshStands(d, t0, run, i, j - 1);
      assert !run[j - 1].persisted || !Refreshes(d, t0, run, j - 1);
    }
  }

  /** With a duration in whole seconds, and with any status updates failing, the next
      pass to refresh after a persisted refresh does so no sooner than the duration
      less the window and a second. */
  lemma RefreshSpacing(d: int, t0: Times, run: seq<Pass>, i: nat, j: nat)
    requires Whole(d) && InOrder(run)
    requires i < j < |run| && run[i].persisted && Refreshes(d, t0, run, i)
    requires forall k :: i < k < j ==> !run[k].persisted || !Refreshes(d, t0, run, k)
    requires Refreshes(d, t0, run, j)
    ensures run[j].left - run[i].exp > d - REFRESH_WINDOW - SECOND
  {
    RefreshStands(d, t0, run, i, j);
    LifetimeCheckQuietIff(d);
    assert Ordered(run[i]) && Ordered(run[j]) && LongEnough(d, run[i].gen, run[i].exp);
    TruncMonotone(run[i].exp + d, run[i].exp + d);
  }

  // ----- the fifteen minutes and the five -------------------------------

  /** After a persisted pass at least a quarter of an hour was left when it looked. */
  predicate KeepsAQuarterHour(d: int, t: Times, p: Pass) {
    Ordered(p) && p.persisted ==>
      AfterPass(d, t, p).exp.Some? && AfterPass(d, t, p).exp.value - p.left >= 900_000_000_000
  }

  /** Whatever was persisted before and whatever the clock reads, every persisted pass
      leaves a quarter of an hour, exactly when the duration is at least that and a
      second, less a nanosecond. */
  lemma QuarterHourIff(d: int)
    ensures d >= 900_999_999_999 <==> forall t, p :: KeepsAQuarterHour(d, t, p)
  {
    if d < 900_999_999_999 {
      var now := SECOND - 1 - d % SECOND;
      assert now + d == d - d % SECOND + (SECOND - 1);
      LastNanosecond(d);
      assert !KeepsAQuarterHour(d, Times(None, None), Instant(now, now));
    }
  }

  /** With whole seconds, once a refresh is persisted, a later pass refreshes exactly
      when less than fifteen minutes are left of the expiry that it wrote. */
  lemma RefreshesIff(d: int, t0: Times, run: seq<Pass>, i: nat, j: nat)
    requires d % 1_000_000_000 == 0 && InOrder(run)
    requires i < j < |run| && run[i].persisted && Refreshes(d, t0, run, i)
    requires forall k :: i < k < j ==> !run[k].persisted || !Refreshes(d, t0, run, k)
    ensures Refreshes(d, t0, run, j) <==>
      run[i].exp - run[i].exp % 1_000_000_000 + d - run[j].left < 900_000_000_000
  {
    RefreshStands(d, t0, run, i, j);
    LifetimeCheckQuietIff(d);
    assert Ordered(run[i]) && Ordered(run[j]) && LongEnough(d, run[i].gen, run[i].exp);
    WholeShift(run[i].exp, d);
  }

  /** Without a generation or an expiration time a pass refreshes; so does one that
      finds a lifetime shorter than the duration. */
  lemma RefreshesAnyway(d: int, t: Times, before: int, left: int)
    requires t.gen.None? || t.exp.None? || t.exp.value - t.gen.value < d
    ensures NeedsRefresh(d, t, before, left)
  {
  }

  /** The next pass is due five minutes before the expiry, or at once if that has passed. */
  lemma WakesFiveMinutesBefore(t: Times, now: int)
    requires t.exp.Some?
    ensures RequeueAfter(t, now) >= 0
    ensures t.exp.value - now >= 300_000_000_000 ==> now + RequeueAfter(t, now) == t.exp.value - 300_000_000_000
    ensures t.exp.value - now <= 300_000_000_000 ==> RequeueAfter(t, now) == 0
  {
  }

  // ----- the status against the real expiry -----------------------------

  /** A token requested at `issued` lasts as long as was asked for. */
  function RealExpiry(d: int, issued: int): int { issued + Requested(d) }

  predicate Honest(d: int, exp: int, issued: int) {
    exp <= issued ==> Trunc(exp + d) <= RealExpiry(d, issued)
  }

  predicate WithinASecond(d: int, exp: int, issued: int) {
    exp <= issued ==> Trunc(exp + d) < RealExpiry(d, issued) + SECOND
  }

  lemma OverstatesBy(d: int, exp: int, issued: int)
    requires exp <= issued
    ensures Whole(d) || d < 0 ==> Honest(d, exp, issued)
    ensures WithinASecond(d, exp, issued)
  {
    TruncMonotone(exp + d, exp + d);
    TruncMonotone(-d, -d);
    TruncMonotone(d, d);
  }

  /** The persisted expiry is never later than the real expiry of a token that the
      pass requests exactly for durations in whole seconds (and negative ones);
      otherwise it is less than a second too late. */
  lemma StatusNeverOverstatesIff(d: int)
    ensures Whole(d) || d < 0 <==> forall exp, issued :: Honest(d, exp, issued)
    ensures forall exp, issued :: WithinASecond(d, exp, issued)
  {
    forall exp, issued ensures WithinASecond(d, exp, issued) {
      if exp <= issued { OverstatesBy(d, exp, issued); }
    }
    forall exp, issued | Whole(d) || d < 0 ensures Honest(d, exp, issued) {
      if exp <= issued { OverstatesBy(d, exp, issued); }
    }
    if !Whole(d) && d >= 0 {
      var exp := SECOND - d % SECOND;
      var q := d / SECOND;
      assert exp + d == (q + 1) * SECOND;
      assert Trunc(exp + d) == exp + d > RealExpiry(d, exp);
      assert !Honest(d, exp, exp);
    }
  }

  // ----- between two refreshes ------------------------------------------

  /** The refresh before a refresh left an expiry that is now within the window. */
  lemma ExpiresWithin(d: int, t0: Times, run: seq<Pass>, h: nat, i: nat)
    requires Whole(d) && InOrder(run) && h < i < |run| && run[h].persisted
    requires Refreshes(d, t0, run, h) && Refreshes(d, t0, run, i)
    requires forall k :: h < k < i ==> !Refreshes(d, t0, run, k)
    ensures run[h].exp + d < run[i].left + REFRESH_WINDOW + SECOND
  {
    RefreshStands(d, t0, run, h, i);
    LifetimeCheckQuietIff(d);
    assert Ordered(run[i]) && LongEnough(d, run[h].gen, run[h].exp);
    TruncMonotone(run[h].exp + d, run[h].exp + d);
  }

  lemma CoveredAt(d: int, t0: Times, run: seq<Pass>, i: nat)
    requires d >= SHORTEST && InOrder(run) && OnTime(d, t0, run) && 0 < i < |run|
    ensures var t := StatusAfter(d, t0, run, i); t.exp.Some? && t.exp.value > run[i].write
  {
    CoveredWhenLongEnough(d, t0, run);
  }

  lemma Short(d: int, t0: Times, run: seq<Pass>, i: nat)
    requires InOrder(run) && OnTime(d, t0, run) && i < |run|
    ensures run[i].persisted && run[i].left <= run[i].exp <= run[i].issued < run[i].exp + WAKE_UP
  {
  }

  /** The token of the last refresh outlasts what the status says, and that the next update. */
  lemma OutlastsStatus(d: int, t0: Times, run: seq<Pass>, j: nat, i: nat)
    requires Whole(d) && d >= SHORTEST && InOrder(run) && OnTime(d, t0, run)
    requires j < i < |run| && Refreshes(d, t0, run, j) && forall m :: j < m < i ==> !Refreshes(d, t0, run, m)
    ensures RealExpiry(d, run[j].issued) > run[i].write
  {
    hide *;
    Short(d, t0, run, j);
    RefreshStands(d, t0, run, j, i);
    CoveredAt(d, t0, run, i);
    RequestedWhole(d, run[j].exp, run[j].issued);
  }

  lemma RequestedWhole(d: int, exp: int, issued: int)
    requires Whole(d) && d >= SHORTEST
    ensures RealExpiry(d, issued) == issued + d && Trunc(exp + d) <= exp + d
  {
  }

  /** Of three refreshes in a row, the third comes when a token granted at the first has
      been expired for all of the duration but 36 minutes. */
  lemma LateRefresh(d: int, t0: Times, run: seq<Pass>, h: nat, i: nat, j: nat)
    requires Whole(d) && d >= SHORTEST && InOrder(run) && OnTime(d, t0, run)
    requires h < i < j < |run| && Refreshes(d, t0, run, h) && Refreshes(d, t0, run, i) && Refreshes(d, t0, run, j)
    requires forall m :: h < m < j && m != i ==> !Refreshes(d, t0, run, m)
    ensures run[j].left - RealExpiry(d, run[h].issued) > d - 36 * MINUTE
    ensures var t := StatusAfter(d, t0, run, j); t.exp.Some? && t.exp.value > run[j].write
  {
    hide StatusAfter, Refreshes, InOrder, OnTime, RealExpiry, Whole, Trunc;
    Short(d, t0, run, h);
    Short(d, t0, run, i);
    ExpiresWithin(d, t0, run, h, i);
    RefreshSpacing(d, t0, run, i, j);
    RequestedWhole(d, run[h].exp, run[h].issued);
    CoveredAt(d, t0, run, j);
  }

  /** Three passes on time that all refresh. */
  function ThreeTurns(d: int): seq<Pass> {
    var s := d - WAKE_UP;
    [Instant(0, 0), Instant(s, s), Instant(2 * s, 2 * s)]
  }

  lemma Multiple(n: int)
    ensures Whole(n * SECOND)
  {
  }

  lemma WholeTurns(d: int)
    requires Whole(d)
    ensures Whole(0) && Whole(d - WAKE_UP) && Whole(2 * (d - WAKE_UP))
  {
    var n := d / SECOND - 300;
    Multiple(n);
    Multiple(2 * n);
    assert d - WAKE_UP == n * SECOND && 2 * (d - WAKE_UP) == 2 * n * SECOND;
  }

  lemma RefreshedAt(d: int, t: Times, s: int)
    requires Whole(d) && Whole(s) && NeedsRefresh(d, t, s, s)
    ensures AfterPass(d, t, Instant(s, s)) == Times(Some(s), Some(s + d))
  {
    WholeShift(s, d);
  }

  lemma ThreeStates(d: int)
    requires Whole(d) && d >= SHORTEST
    ensures var t0, run, s := Times(None, None), ThreeTurns(d), d - WAKE_UP;
      && StatusAfter(d, t0, run, 0) == t0
      && StatusAfter(d, t0, run, 1) == Times(Some(0), Some(d))
      && StatusAfter(d, t0, run, 2) == Times(Some(s), Some(s + d))
      && StatusAfter(d, t0, run, 3) == Times(Some(2 * s), Some(2 * s + d))
  {
    hide Whole, AfterPass;
    var t0, s := Times(None, None), d - WAKE_UP;
    WholeTurns(d);
    RefreshedAt(d, t0, 0);
    RefreshedAt(d, Times(Some(0), Some(d)), s);
    RefreshedAt(d, Times(Some(s), Some(s + d)), 2 * s);
  }

  lemma ThreeRefreshes(d: int)
    requires Whole(d) && d >= SHORTEST
    ensures var t0, run := Times(None, None), ThreeTurns(d);
      && InOrder(run) && OnTime(d, t0, run)
      && Refreshes(d, t0, run, 0) && Refreshes(d, t0, run, 1) && Refreshes(d, t0, run, 2)
  {
    hide StatusAfter, Whole;
    var s := d - WAKE_UP;
    ThreeStates(d);
    assert Due(d, Times(None, None), ThreeTurns(d), 0) == s && Due(d, Times(None, None), ThreeTurns(d), 1) == 2 * s;
  }
}
