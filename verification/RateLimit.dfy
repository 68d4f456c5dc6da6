/** The sliding window of the rate limiter, and exactly when it keeps its bound. */
module RateLimit {
  import opened Basics

  /** Width in milliseconds, and how many requests a window admits. */
  datatype Window = Window(width: nat, limit: nat)

  // ---------------------------------------------------------------- one key

  function Recent(items: seq<int>, cutoff: int): seq<int> {
    if items == [] then []
    else
      var last := items[|items| - 1];
      var init := Recent(items[..|items| - 1], cutoff);
      if last > cutoff then init + [last] else init
  }

  function Decide(w: Window, items: seq<int>, now: int): (bool, seq<int>) {
    var kept := Recent(items, now - w.width);
    if |kept| >= w.limit then (false, kept) else (true, kept + [now])
  }

  /** What the limiter remembers after requests at the given times. */
  function Kept(w: Window, times: seq<int>): seq<int> {
    if times == [] then [] else Decide(w, Kept(w, times[..|times| - 1]), times[|times| - 1]).1
  }

  predicate AllowedNext(w: Window, times: seq<int>, now: int) {
    Decide(w, Kept(w, times), now).0
  }

  /** All requests ever admitted, which no limiter remembers. */
  function Admitted(w: Window, times: seq<int>): seq<int> {
    if times == [] then []
    else
      var init, now := times[..|times| - 1], times[|times| - 1];
      if AllowedNext(w, init, now) then Admitted(w, init) + [now] else Admitted(w, init)
  }

  /** How many lie after lo and not after hi. */
  function CountIn(items: seq<int>, lo: int, hi: int): nat {
    if items == [] then 0
    else CountIn(items[..|items| - 1], lo, hi) + (if lo < items[|items| - 1] <= hi then 1 else 0)
  }

  /** No request carries a time more than d before that of an earlier one; d is 0 for a clock that never falls. */
  ghost predicate Drifts(times: seq<int>, d: nat) {
    forall i, j :: 0 <= i < j < |times| ==> times[i] - d <= times[j]
  }

  lemma RecentSnoc(items: seq<int>, x: int, cutoff: int)
    ensures Recent(items + [x], cutoff) == if x > cutoff then Recent(items, cutoff) + [x] else Recent(items, cutoff)
  {
    assert (items + [x])[..|items|] == items;
  }

  lemma CountSnoc(items: seq<int>, x: int, lo: int, hi: int)
    ensures CountIn(items + [x], lo, hi) == CountIn(items, lo, hi) + (if lo < x <= hi then 1 else 0)
  {
    assert (items + [x])[..|items|] == items;
  }

  lemma {:induction false} RecentTwice(items: seq<int>, first: int, second: int)
    requires first <= second
    ensures Recent(Recent(items, first), second) == Recent(items, second)
  {
    if items != [] {
      var init, last := items[..|items| - 1], items[|items| - 1];
      RecentTwice(init, first, second);
      RecentSnoc(Recent(init, first), last, second);
    }
  }

  lemma {:induction false} RecentLength(items: seq<int>, first: int, second: int)
    requires first <= second
    ensures |Recent(items, second)| <= |Recent(items, first)|
  {
    if items != [] {
      RecentLength(items[..|items| - 1], first, second);
    }
  }

  lemma {:induction false} CountWithinRecent(items: seq<int>, lo: int, hi: int)
    ensures CountIn(items, lo, hi) <= |Recent(items, lo)|
    ensures (forall i :: 0 <= i < |items| ==> items[i] <= hi) ==> CountIn(items, lo, hi) == |Recent(items, lo)|
  {
    if items != [] {
      CountWithinRecent(items[..|items| - 1], lo, hi);
    }
  }

  lemma {:induction false} WindowStep(w: Window, times: seq<int>)
    requires times != []
    ensures var init, now := times[..|times| - 1], times[|times| - 1];
            var left := Recent(Kept(w, init), now - w.width);
            if AllowedNext(w, init, now)
            then Kept(w, times) == left + [now] && Admitted(w, times) == Admitted(w, init) + [now]
            else Kept(w, times) == left && Admitted(w, times) == Admitted(w, init)
  {
  }

  lemma {:induction false} SameRecentAfter(kept: seq<int>, all: seq<int>, first: int, cutoff: int, now: int)
    requires first <= cutoff && Recent(kept, cutoff) == Recent(all, cutoff)
    ensures Recent(Recent(kept, first), cutoff) == Recent(all, cutoff)
    ensures Recent(Recent(kept, first) + [now], cutoff) == Recent(all + [now], cutoff)
  {
    hide Recent;
    RecentTwice(kept, first, cutoff);
    RecentSnoc(Recent(kept, first), now, cutoff);
    RecentSnoc(all, now, cutoff);
  }

  /** Forgetting is harmless: everything later than every cutoff so far is still remembered. */
  lemma {:induction false} NothingRecentForgotten(w: Window, times: seq<int>, cutoff: int)
    requires forall i :: 0 <= i < |times| ==> times[i] - w.width <= cutoff
    ensures Recent(Kept(w, times), cutoff) == Recent(Admitted(w, times), cutoff)
  {
    if times != [] {
      hide Kept, Admitted, Recent;
      var init, now := times[..|times| - 1], times[|times| - 1];
      NothingRecentForgotten(w, init, cutoff);
      WindowStep(w, times);
      SameRecentAfter(Kept(w, init), Admitted(w, init), now - w.width, cutoff, now);
    }
  }

  lemma {:induction false} NoMoreRecentAfter(kept: seq<int>, all: seq<int>, first: int, cutoff: int, now: int)
    requires |Recent(kept, cutoff)| <= |Recent(all, cutoff)|
    ensures |Recent(Recent(kept, first), cutoff)| <= |Recent(all, cutoff)|
    ensures |Recent(Recent(kept, first) + [now], cutoff)| <= |Recent(all + [now], cutoff)|
  {
    hide Recent;
    RecentBoth(kept, first, cutoff);
    RecentSnoc(Recent(kept, first), now, cutoff);
    RecentSnoc(all, now, cutoff);
  }

  lemma {:induction false} OnlyAdmittedAreKept(w: Window, times: seq<int>, cutoff: int)
    ensures |Recent(Kept(w, times), cutoff)| <= |Recent(Admitted(w, times), cutoff)|
  {
    if times != [] {
      hide Kept, Admitted, Recent, AllowedNext;
      var init, now := times[..|times| - 1], times[|times| - 1];
      OnlyAdmittedAreKept(w, init, cutoff);
      WindowStep(w, times);
      NoMoreRecentAfter(Kept(w, init), Admitted(w, init), now - w.width, cutoff, now);
    }
  }

  lemma {:induction false} RecentBoth(items: seq<int>, first: int, second: int)
    ensures |Recent(Recent(items, first), second)| <= |Recent(items, second)|
  {
    if items != [] {
      var init, last := items[..|items| - 1], items[|items| - 1];
      RecentBoth(init, first, second);
      RecentSnoc(Recent(init, first), last, second);
    }
  }

  lemma DriftsLast(times: seq<int>, now: int, d: nat)
    requires Drifts(times + [now], d)
    ensures forall i :: 0 <= i < |times| ==> times[i] <= now + d
  {
    var all := times + [now];
    assert forall i :: 0 <= i < |times| ==> all[i] == times[i] && all[i] - d <= all[|times|];
  }

  /** An admitted request finds fewer than the limit in any window that starts after its own. */
  lemma {:induction false} FewerThanTheLimit(w: Window, times: seq<int>, now: int, lo: int, hi: int)
    requires AllowedNext(w, times, now) && now - w.width <= lo
    requires forall i :: 0 <= i < |times| ==> times[i] - w.width <= lo
    ensures CountIn(Admitted(w, times), lo, hi) < w.limit
  {
    hide Kept, Admitted, CountIn, Recent;
    var kept, all := Kept(w, times), Admitted(w, times);
    NothingRecentForgotten(w, times, lo);
    CountWithinRecent(all, lo, hi);
    RecentLength(kept, now - w.width, lo);
    assert Decide(w, kept, now).0;
  }

  lemma {:induction false} AtMostLimitAfter(w: Window, times: seq<int>, d: nat, lo: int, end: int)
    requires Drifts(times, d) && end + d <= lo + w.width
    ensures CountIn(Admitted(w, times), lo, end) <= w.limit
  {
    if times != [] {
      hide Kept, Admitted, CountIn, Recent;
      var init, now := times[..|times| - 1], times[|times| - 1];
      assert times == init + [now];
      AtMostLimitAfter(w, init, d, lo, end);
      WindowStep(w, times);
      if AllowedNext(w, init, now) {
        CountSnoc(Admitted(w, init), now, lo, end);
        if lo < now <= end {
          DriftsLast(init, now, d);
          FewerThanTheLimit(w, init, now, lo, end);
        }
      }
    }
  }

  /**
   * Whatever requests come, at most the limit are admitted in any window, as long as the clock never falls;
   * when it falls by up to d, the same holds for windows shorter by d.
   */
  lemma {:induction false} AtMostLimitPerWindow(w: Window, times: seq<int>, d: nat, end: int)
    requires Drifts(times, d)
    ensures CountIn(Admitted(w, times), end - (w.width - d), end) <= w.limit
  {
    hide Admitted, CountIn;
    AtMostLimitAfter(w, times, d, end - (w.width - d), end);
  }

  lemma {:induction false} AdmittedAreTimes(w: Window, times: seq<int>, hi: int)
    requires forall i :: 0 <= i < |times| ==> times[i] <= hi
    ensures forall i :: 0 <= i < |Admitted(w, times)| ==> Admitted(w, times)[i] <= hi
  {
    if times != [] {
      AdmittedAreTimes(w, times[..|times| - 1], hi);
    }
  }

  /** A request is refused only if the limit was admitted since the start of its window. */
  lemma RefusedOnlyAtTheLimit(w: Window, times: seq<int>, now: int, d: nat)
    requires Drifts(times + [now], d) && !AllowedNext(w, times, now)
    ensures CountIn(Admitted(w, times), now - w.width, now + d) >= w.limit
  {
    DriftsLast(times, now, d);
    OnlyAdmittedAreKept(w, times, now - w.width);
    AdmittedAreTimes(w, times, now + d);
    CountWithinRecent(Admitted(w, times), now - w.width, now + d);
  }

  lemma {:induction false} DecideByCount(w: Window, kept: seq<int>, all: seq<int>, now: int)
    requires Recent(kept, now - w.width) == Recent(all, now - w.width)
    requires forall i :: 0 <= i < |all| ==> all[i] <= now
    ensures Decide(w, kept, now).0 <==> CountIn(all, now - w.width, now) < w.limit
  {
    hide CountIn, Recent;
    CountWithinRecent(all, now - w.width, now);
  }

  /** With a clock that never falls, the short memory decides exactly as the whole history would. */
  lemma {:induction false} DecidesByTheWholeHistory(w: Window, times: seq<int>, now: int)
    requires Drifts(times + [now], 0)
    ensures AllowedNext(w, times, now) <==> CountIn(Admitted(w, times), now - w.width, now) < w.limit
  {
    hide Kept, Admitted, CountIn, Recent;
    DriftsLast(times, now, 0);
    NothingRecentForgotten(w, times, now - w.width);
    AdmittedAreTimes(w, times, now);
    DecideByCount(w, Kept(w, times), Admitted(w, times), now);
  }

  lemma AdmittedSnoc(w: Window, times: seq<int>, now: int)
    ensures Admitted(w, times + [now]) ==
            if AllowedNext(w, times, now) then Admitted(w, times) + [now] else Admitted(w, times)
  {
    assert (times + [now])[..|times|] == times;
  }

  lemma {:induction false} RecentNone(items: seq<int>, cutoff: int)
    requires forall i :: 0 <= i < |items| ==> items[i] <= cutoff
    ensures Recent(items, cutoff) == []
  {
    if items != [] {
      RecentNone(items[..|items| - 1], cutoff);
    }
  }

  lemma KeptSnoc(w: Window, times: seq<int>, now: int)
    ensures Kept(w, times + [now]) == Decide(w, Kept(w, times), now).1
  {
    assert (times + [now])[..|times|] == times;
  }

  // ---------------------------------------------------------------- exactly when the bound holds

  /** Requests admitted in the v milliseconds up to an instant. */
  function AdmittedWithin(w: Window, times: seq<int>, v: int, end: int): nat {
    CountIn(Admitted(w, times), end - v, end)
  }

  /** Whatever requests come, no v milliseconds admit more than the limit. */
  ghost predicate Bounds(w: Window, d: nat, v: int) {
    forall times, end :: Drifts(times, d) ==> AdmittedWithin(w, times, v, end) <= w.limit
  }

  lemma {:induction false} CountShrinks(items: seq<int>, lo: int, later: int, hi: int)
    requires lo <= later
    ensures CountIn(items, later, hi) <= CountIn(items, lo, hi)
  {
    if items != [] {
      CountShrinks(items[..|items| - 1], lo, later, hi);
    }
  }

  lemma {:induction false} CountNone(items: seq<int>, lo: int, hi: int)
    requires lo >= hi || forall i :: 0 <= i < |items| ==> items[i] <= lo
    ensures CountIn(items, lo, hi) == 0
  {
    if items != [] {
      CountNone(items[..|items| - 1], lo, hi);
    }
  }

  function Zeros(n: nat): (s: seq<int>)
    ensures |s| == n
  {
    seq(n, i => 0)
  }

  lemma ZerosSnoc(n: nat)
    requires n > 0
    ensures Zeros(n) == Zeros(n - 1) + [0]
  {
  }

  lemma {:induction false} CountZeros(n: nat, lo: int, hi: int)
    requires lo < 0 <= hi
    ensures CountIn(Zeros(n), lo, hi) == n
  {
    if n > 0 {
      ZerosSnoc(n);
      CountZeros(n - 1, lo, hi);
      CountSnoc(Zeros(n - 1), 0, lo, hi);
    }
  }

  lemma {:induction false} RecentZeros(n: nat, cutoff: int)
    ensures Recent(Zeros(n), cutoff) == if cutoff < 0 then Zeros(n) else []
  {
    if n > 0 {
      ZerosSnoc(n);
      RecentZeros(n - 1, cutoff);
      RecentSnoc(Zeros(n - 1), 0, cutoff);
    }
  }

  lemma {:induction false} OneMoreAtOnce(w: Window, n: nat)
    requires n < w.limit && w.width >= 1
    requires Kept(w, Zeros(n)) == Zeros(n) && Admitted(w, Zeros(n)) == Zeros(n)
    ensures Kept(w, Zeros(n) + [0]) == Zeros(n) + [0] && Admitted(w, Zeros(n) + [0]) == Zeros(n) + [0]
  {
    hide Kept, Admitted, Recent, Zeros;
    var before := Zeros(n);
    RecentZeros(n, 0 - w.width);
    assert Decide(w, before, 0) == (true, before + [0]);
    KeptSnoc(w, before, 0);
    AdmittedSnoc(w, before, 0);
  }

  /** Requests at one instant are admitted up to the limit. */
  lemma {:induction false} LimitAtOnce(w: Window, n: nat)
    requires n <= w.limit && w.width >= 1
    ensures Kept(w, Zeros(n)) == Zeros(n) && Admitted(w, Zeros(n)) == Zeros(n)
  {
    if n > 0 {
      LimitAtOnce(w, n - 1);
      OneMoreAtOnce(w, n - 1);
      ZerosSnoc(n);
    }
  }

  /** A window without width admits any number. */
  lemma {:induction false} NoWidthNoBound(w: Window, n: nat)
    requires w.width == 0 && w.limit >= 1
    ensures Kept(w, Zeros(n)) == Zeros(if n == 0 then 0 else 1) && Admitted(w, Zeros(n)) == Zeros(n)
  {
    if n > 0 {
      hide Kept, Admitted, Recent;
      ZerosSnoc(n);
      ZerosSnoc(1);
      NoWidthNoBound(w, n - 1);
      RecentZeros(if n == 1 then 0 else 1, 0);
      KeptSnoc(w, Zeros(n - 1), 0);
      AdmittedSnoc(w, Zeros(n - 1), 0);
    }
  }

  /** The limit at once, one request a window later, and one with a time that lies d before it. */
  function Burst(w: Window, d: nat): seq<int> {
    (Zeros(w.limit) + [w.width]) + [w.width - d]
  }

  /** The request a window later makes the limiter forget the burst. */
  lemma {:induction false} BurstForgotten(w: Window)
    requires w.limit >= 1 && w.width >= 1
    ensures var more := Zeros(w.limit) + [w.width];
            Kept(w, more) == [w.width] && Admitted(w, more) == more
  {
    hide Kept, Admitted, Recent, Zeros;
    var zeros := Zeros(w.limit);
    LimitAtOnce(w, w.limit);
    RecentZeros(w.limit, w.width - w.width);
    assert [] + [w.width] == [w.width];
    KeptSnoc(w, zeros, w.width);
    AdmittedSnoc(w, zeros, w.width);
  }

  /** The last request is then let in beside the burst. */
  lemma {:induction false} BurstIsAdmitted(w: Window, d: nat)
    requires w.limit >= 2 && w.width >= 1 && d <= w.width
    ensures Admitted(w, Burst(w, d)) == Burst(w, d)
  {
    hide Kept, Admitted, Recent, Zeros;
    var more, now := Zeros(w.limit) + [w.width], w.width - d;
    BurstForgotten(w);
    RecentOne(w.width, now - w.width);
    assert AllowedNext(w, more, now);
    AdmittedSnoc(w, more, now);
  }

  lemma BurstDrifts(w: Window, d: nat)
    requires d <= w.width
    ensures Drifts(Burst(w, d), d)
  {
  }

  lemma BurstOverfills(w: Window, d: nat, v: int)
    requires w.limit >= 2 && w.width >= 1 && d <= w.width && v > w.width - d
    ensures AdmittedWithin(w, Burst(w, d), v, w.width - d) > w.limit
  {
    var end := w.width - d;
    BurstIsAdmitted(w, d);
    CountZeros(w.limit, end - v, end);
    CountSnoc(Zeros(w.limit), w.width, end - v, end);
    CountSnoc(Zeros(w.limit) + [w.width], end, end - v, end);
  }

  // ---------------------------------------------------------------- a limit of one

  ghost predicate Spaced(items: seq<int>, gap: nat) {
    forall i, j :: 0 <= i < j < |items| ==> items[i] + gap <= items[j]
  }

  lemma {:induction false} SpacedCount(items: seq<int>, gap: nat, end: int)
    requires Spaced(items, gap)
    ensures CountIn(items, end - gap, end) <= 1
  {
    if items != [] {
      var init, last := items[..|items| - 1], items[|items| - 1];
      SpacedCount(init, gap, end);
      if end - gap < last <= end {
        assert forall i :: 0 <= i < |init| ==> init[i] == items[i] && items[i] + gap <= items[|items| - 1];
        CountNone(init, end - gap, end);
      }
    }
  }

  lemma {:induction false} RecentOne(x: int, cutoff: int)
    ensures Recent([x], cutoff) == if x > cutoff then [x] else []
  {
    assert [] + [x] == [x];
    RecentSnoc([], x, cutoff);
  }

  lemma SpacedSnoc(items: seq<int>, gap: nat, x: int)
    requires Spaced(items, gap) && (items != [] ==> items[|items| - 1] + gap <= x)
    ensures Spaced(items + [x], gap)
  {
  }

  function LastOf(items: seq<int>): seq<int> {
    if items == [] then [] else [items[|items| - 1]]
  }

  lemma {:induction false} DecideAfterOne(w: Window, all: seq<int>, now: int)
    requires w.limit == 1 && Spaced(all, w.width)
    ensures var (ok, left) := Decide(w, LastOf(all), now);
            var more := if ok then all + [now] else all;
            left == LastOf(more) && Spaced(more, w.width)
  {
    hide Recent;
    if all == [] {
      RecentNone([], now - w.width);
    } else {
      RecentOne(all[|all| - 1], now - w.width);
    }
    if Decide(w, LastOf(all), now).0 {
      SpacedSnoc(all, w.width, now);
    }
  }

  /** With a limit of one, an admitted request comes a window after the last one, whatever the clock does. */
  lemma {:induction false} OneIsSpaced(w: Window, times: seq<int>)
    requires w.limit == 1
    ensures Kept(w, times) == LastOf(Admitted(w, times)) && Spaced(Admitted(w, times), w.width)
  {
    if times != [] {
      hide Kept, Admitted, Recent;
      var init, now := times[..|times| - 1], times[|times| - 1];
      OneIsSpaced(w, init);
      WindowStep(w, times);
      DecideAfterOne(w, Admitted(w, init), now);
    }
  }

  lemma OneAWindowLater(w: Window, v: int)
    requires w.limit == 1 && v > w.width
    ensures AdmittedWithin(w, [0, w.width], v, w.width) > 1
  {
    assert [] + [0] == [0] && [0] + [w.width] == [0, w.width];
    KeptSnoc(w, [], 0);
    AdmittedSnoc(w, [], 0);
    RecentOne(0, 0);
    AdmittedSnoc(w, [0], w.width);
    CountSnoc([], 0, w.width - v, w.width);
    CountSnoc([0], w.width, w.width - v, w.width);
  }

  // ---------------------------------------------------------------- the exact condition

  /** The longest window for which the limit is certain when the clock may fall back by d. */
  function SureWidth(w: Window, d: nat): nat {
    if w.limit == 1 then w.width else Max(0, w.width - d)
  }

  lemma {:induction false} OnePerWindow(w: Window, times: seq<int>, end: int)
    requires w.limit == 1
    ensures AdmittedWithin(w, times, w.width, end) <= 1
  {
    hide Kept, Admitted, CountIn;
    OneIsSpaced(w, times);
    var all := Admitted(w, times);
    SpacedCount(all, w.width, end);
  }

  lemma {:induction false} SureWidthHolds(w: Window, d: nat, times: seq<int>, end: int)
    requires w.limit >= 1 && Drifts(times, d)
    ensures AdmittedWithin(w, times, SureWidth(w, d), end) <= w.limit
  {
    hide Admitted, CountIn;
    if w.limit == 1 {
      OnePerWindow(w, times, end);
    } else if d <= w.width {
      AtMostLimitPerWindow(w, times, d, end);
    } else {
      CountNone(Admitted(w, times), end, end);
    }
  }

  lemma {:induction false} SureWidthIsSure(w: Window, d: nat, times: seq<int>, v: int, end: int)
    requires w.limit >= 1 && Drifts(times, d) && v <= SureWidth(w, d)
    ensures AdmittedWithin(w, times, v, end) <= w.limit
  {
    hide Admitted, CountIn;
    SureWidthHolds(w, d, times, end);
    CountShrinks(Admitted(w, times), end - SureWidth(w, d), end - v, end);
  }

  ghost predicate Overfills(w: Window, d: nat, v: int, times: seq<int>, end: int) {
    Drifts(times, d) && AdmittedWithin(w, times, v, end) > w.limit
  }

  lemma {:induction false} NoWidthOverfills(w: Window, d: nat, v: int)
    requires w.limit >= 1 && w.width == 0 && v > 0
    ensures Overfills(w, d, v, Zeros(w.limit + 1), 0)
  {
    NoWidthNoBound(w, w.limit + 1);
    CountZeros(w.limit + 1, -v, 0);
  }

  lemma {:induction false} NothingLongerIsSure(w: Window, d: nat, v: int)
    requires w.limit >= 1 && v > SureWidth(w, d)
    ensures exists times, end :: Overfills(w, d, v, times, end)
  {
    if w.limit == 1 {
      OneAWindowLater(w, v);
      assert Overfills(w, d, v, [0, w.width], w.width);
    } else if w.width == 0 {
      NoWidthOverfills(w, d, v);
    } else {
      var back := Min(d, w.width);
      BurstOverfills(w, back, v);
      BurstDrifts(w, back);
      assert Overfills(w, d, v, Burst(w, back), w.width - back);
    }
  }

  /**
   * Exactly when the limit holds. The Backend reads the clock before it waits for the lock, so times may
   * arrive out of order by some d: from a limit of two on, that shortens the window by d and no less.
   */
  lemma BoundHoldsIff(w: Window, d: nat, v: int)
    requires w.limit >= 1
    ensures Bounds(w, d, v) <==> v <= SureWidth(w, d)
  {
    if v <= SureWidth(w, d) {
      forall times, end | Drifts(times, d) ensures AdmittedWithin(w, times, v, end) <= w.limit {
        SureWidthIsSure(w, d, times, v, end);
      }
    } else {
      NothingLongerIsSure(w, d, v);
      var times, end :| Overfills(w, d, v, times, end);
      assert Drifts(times, d) && AdmittedWithin(w, times, v, end) > w.limit;
    }
  }

  /** The whole window is bounded exactly for a clock that never falls, a limit of one, or no width. */
  lemma WholeWindowIff(w: Window, d: nat)
    requires w.limit >= 1
    ensures Bounds(w, d, w.width) <==> d == 0 || w.limit == 1 || w.width == 0
  {
    BoundHoldsIff(w, d, w.width);
  }
}
