/** The limiter's Redis script, and exactly when it decides like the in-process window. */
module RedisScript {
  import opened Basics
  import opened RateLimit

  /** A request as Redis sees it: the Backend's clock, and the server's own clock for expiry. */
  datatype Call = Call(now: int, server: int)

  /** The scores of the sorted set, and when the server drops the key. */
  datatype RedisKey = RedisKey(scores: seq<int>, deadline: int)

  const SECOND: nat := 1000

  /** The expiry in milliseconds: the window rounded up to seconds, and one second more. */
  function Expiry(w: Window): nat {
    ((w.width + SECOND - 1) / SECOND + 1) * SECOND
  }

  /** The key outlives the window by one second, and by less than another one to reach whole seconds. */
  lemma ExpiryInSeconds(w: Window) returns (seconds: nat)
    ensures Expiry(w) == 1000 * seconds && w.width + 1000 <= Expiry(w) < w.width + 2000
  {
    seconds := (w.width + SECOND - 1) / SECOND + 1;
    assert w.width + SECOND - 1 == SECOND * (seconds - 1) + (w.width + SECOND - 1) % SECOND;
  }

  function RunScript(w: Window, key: RedisKey, call: Call): (bool, RedisKey) {
    var live := if call.server >= key.deadline then [] else key.scores;
    var left := Recent(live, call.now - w.width);
    if |left| >= w.limit then (false, key.(scores := left))
    else (true, RedisKey(left + [call.now], call.server + Expiry(w)))
  }

  /** The key after a sequence of calls, none of which found it before the first. */
  function RedisAfter(w: Window, calls: seq<Call>): RedisKey {
    if calls == [] then RedisKey([], 0) else RunScript(w, RedisAfter(w, calls[..|calls| - 1]), calls[|calls| - 1]).1
  }

  function Times(calls: seq<Call>): seq<int> {
    seq(|calls|, i requires 0 <= i < |calls| => calls[i].now)
  }

  /** Between two calls the server's clock gains at most e on the Backend's. */
  ghost predicate Skews(calls: seq<Call>, e: nat) {
    forall i, j :: 0 <= i < j < |calls| ==>
      calls[j].server - calls[i].server <= calls[j].now - calls[i].now + e
  }

  /** How much longer than the window the key lives: at least a second, and more for a broken one. */
  function Slack(w: Window): (slack: nat)
    ensures slack >= SECOND
  {
    Expiry(w) - w.width
  }

  /** How far the last admitted time may lie behind another one in the key; alone, it lies behind none. */
  function Lag(w: Window, d: nat): nat {
    if w.limit == 1 then 0 else d
  }

  lemma {:induction false} RecentMembers(items: seq<int>, cutoff: int)
    ensures forall x :: x in Recent(items, cutoff) ==> x in items
  {
    if items != [] {
      RecentMembers(items[..|items| - 1], cutoff);
    }
  }

  /** Some call set the deadline, and nothing in the key is later than that call by more than d. */
  ghost predicate SetBy(w: Window, calls: seq<Call>, key: RedisKey, d: nat) {
    key.scores == [] ||
    exists i :: 0 <= i < |calls| && key.deadline == calls[i].server + Expiry(w) &&
                forall x :: x in key.scores ==> x <= calls[i].now + d
  }

  lemma TimesSnoc(calls: seq<Call>, call: Call)
    ensures Times(calls + [call]) == Times(calls) + [call.now]
    ensures (calls + [call])[..|calls|] == calls
  {
  }

  lemma SetByStays(w: Window, calls: seq<Call>, call: Call, key: RedisKey, scores: seq<int>, d: nat)
    requires SetBy(w, calls, key, d) && forall x :: x in scores ==> x in key.scores
    ensures SetBy(w, calls + [call], key.(scores := scores), d)
  {
    var more := calls + [call];
    if scores != [] {
      var x := scores[0];
      assert x in key.scores;
      assert |key.scores| > 0;
      var i :| 0 <= i < |calls| && key.deadline == calls[i].server + Expiry(w) &&
               forall x :: x in key.scores ==> x <= calls[i].now + d;
      assert more[i] == calls[i];
    }
  }

  /** A key that the server has dropped held nothing that the window still counts. */
  lemma DroppedIsOutdated(w: Window, calls: seq<Call>, call: Call, key: RedisKey, g: nat, e: nat)
    requires SetBy(w, calls, key, g) && Skews(calls + [call], e) && g + e <= Slack(w)
    requires call.server >= key.deadline
    ensures Recent(key.scores, call.now - w.width) == []
  {
    hide Recent;
    if key.scores == [] {
      RecentNone([], call.now - w.width);
    } else {
      var more := calls + [call];
      var i :| 0 <= i < |calls| && key.deadline == calls[i].server + Expiry(w) &&
               forall x :: x in key.scores ==> x <= calls[i].now + g;
      assert more[i] == calls[i] && more[|calls|] == call;
      forall k | 0 <= k < |key.scores| ensures key.scores[k] <= call.now - w.width {
        assert key.scores[k] in key.scores;
      }
      RecentNone(key.scores, call.now - w.width);
    }
  }

  /** The times in a key that a call has just extended lie at most the lag after it. */
  lemma ExtendedLag(w: Window, times: seq<int>, left: seq<int>, now: int, d: nat)
    requires Drifts(times + [now], d) && |left| < w.limit && forall x :: x in left ==> x in times
    ensures forall x :: x in left + [now] ==> x <= now + Lag(w, d) && x in times + [now]
  {
    DriftsLast(times, now, d);
    forall x | x in left + [now] ensures x <= now + Lag(w, d) && x in times + [now] {
      if x in left {
        assert w.limit != 1;
      } else {
        assert (times + [now])[|times|] == x;
      }
    }
  }

  lemma SetByCall(w: Window, calls: seq<Call>, call: Call, scores: seq<int>, g: nat)
    requires forall x :: x in scores ==> x <= call.now + g
    ensures SetBy(w, calls + [call], RedisKey(scores, call.server + Expiry(w)), g)
  {
    assert (calls + [call])[|calls|] == call;
  }

  /** One call of the script does what the in-process window does, and keeps the bookkeeping. */
  lemma ScriptStep(w: Window, calls: seq<Call>, call: Call, key: RedisKey, d: nat, e: nat)
    requires SetBy(w, calls, key, Lag(w, d)) && Skews(calls + [call], e) && Lag(w, d) + e <= Slack(w)
    requires Drifts(Times(calls + [call]), d)
    requires forall x :: x in key.scores ==> x in Times(calls)
    ensures RunScript(w, key, call).0 == Decide(w, key.scores, call.now).0
    ensures RunScript(w, key, call).1.scores == Decide(w, key.scores, call.now).1
    ensures SetBy(w, calls + [call], RunScript(w, key, call).1, Lag(w, d))
    ensures forall x :: x in RunScript(w, key, call).1.scores ==> x in Times(calls + [call])
  {
    hide Recent;
    var left := Recent(key.scores, call.now - w.width);
    if call.server >= key.deadline {
      DroppedIsOutdated(w, calls, call, key, Lag(w, d), e);
      RecentNone([], call.now - w.width);
    }
    RecentMembers(key.scores, call.now - w.width);
    TimesSnoc(calls, call);
    if |left| >= w.limit {
      SetByStays(w, calls, call, key, left, Lag(w, d));
    } else {
      ExtendedLag(w, Times(calls), left, call.now, d);
      SetByCall(w, calls, call, left + [call.now], Lag(w, d));
    }
  }

  lemma PrefixFacts(calls: seq<Call>, d: nat, e: nat)
    requires calls != [] && Drifts(Times(calls), d) && Skews(calls, e)
    ensures var init := calls[..|calls| - 1];
            Drifts(Times(init), d) && Skews(init, e) && Times(init) == Times(calls)[..|calls| - 1]
  {
    var init := calls[..|calls| - 1];
    assert forall i :: 0 <= i < |init| ==> Times(init)[i] == Times(calls)[i];
  }

  lemma RedisSnoc(w: Window, calls: seq<Call>, call: Call)
    ensures RedisAfter(w, calls + [call]) == RunScript(w, RedisAfter(w, calls), call).1
  {
    assert (calls + [call])[..|calls|] == calls;
  }

  lemma {:induction false} KeyHoldsTheWindow(w: Window, calls: seq<Call>, d: nat, e: nat)
    requires Drifts(Times(calls), d) && Skews(calls, e) && Lag(w, d) + e <= Slack(w)
    ensures RedisAfter(w, calls).scores == Kept(w, Times(calls))
    ensures SetBy(w, calls, RedisAfter(w, calls), Lag(w, d))
    ensures forall x :: x in RedisAfter(w, calls).scores ==> x in Times(calls)
  {
    if calls != [] {
      hide Kept, RedisAfter, Recent;
      var init, call := calls[..|calls| - 1], calls[|calls| - 1];
      assert calls == init + [call];
      PrefixFacts(calls, d, e);
      KeyHoldsTheWindow(w, init, d, e);
      ScriptStep(w, init, call, RedisAfter(w, init), d, e);
      RedisSnoc(w, init, call);
      TimesSnoc(init, call);
      KeptSnoc(w, Times(init), call.now);
    }
  }

  lemma {:induction false} ScriptDecidesLikeTheWindow(w: Window, calls: seq<Call>, call: Call, d: nat, e: nat)
    requires Drifts(Times(calls + [call]), d) && Skews(calls + [call], e) && Lag(w, d) + e <= Slack(w)
    ensures RunScript(w, RedisAfter(w, calls), call).0 == AllowedNext(w, Times(calls), call.now)
  {
    TimesSnoc(calls, call);
    PrefixFacts(calls + [call], d, e);
    KeyHoldsTheWindow(w, calls, d, e);
    ScriptStep(w, calls, call, RedisAfter(w, calls), d, e);
  }

  // ---------------------------------------------------------------- runs that part the two

  /** Some run within the drift and the skew in which script and window decide the last call differently. */
  ghost predicate Parts(w: Window, d: nat, e: nat, calls: seq<Call>, call: Call) {
    && Drifts(Times(calls + [call]), d) && Skews(calls + [call], e)
    && RunScript(w, RedisAfter(w, calls), call).0 != AllowedNext(w, Times(calls), call.now)
  }

  function AtOnce(n: nat): (calls: seq<Call>)
    ensures |calls| == n
  {
    seq(n, i => Call(0, 0))
  }

  lemma AtOnceSnoc(n: nat)
    requires n > 0
    ensures AtOnce(n) == AtOnce(n - 1) + [Call(0, 0)]
  {
  }

  lemma AtOnceTimes(n: nat)
    ensures Times(AtOnce(n)) == Zeros(n)
  {
  }

  lemma {:induction false} KeyAfterOneMore(w: Window, n: nat)
    requires n < w.limit && w.width >= 1 && (n > 0 ==> RedisAfter(w, AtOnce(n)) == RedisKey(Zeros(n), Expiry(w)))
    requires n == 0 ==> RedisAfter(w, AtOnce(n)).scores == []
    ensures RedisAfter(w, AtOnce(n) + [Call(0, 0)]) == RedisKey(Zeros(n) + [0], Expiry(w))
  {
    hide RedisAfter, Recent;
    RedisSnoc(w, AtOnce(n), Call(0, 0));
    RecentZeros(n, 0 - w.width);
  }

  lemma {:induction false} KeyAtOnce(w: Window, n: nat)
    requires n <= w.limit && w.width >= 1
    ensures n == 0 ==> RedisAfter(w, AtOnce(n)).scores == []
    ensures n > 0 ==> RedisAfter(w, AtOnce(n)) == RedisKey(Zeros(n), Expiry(w))
  {
    if n > 0 {
      KeyAtOnce(w, n - 1);
      KeyAfterOneMore(w, n - 1);
      AtOnceSnoc(n);
      ZerosSnoc(n);
    }
  }

  /** The server's clock runs ahead alone: the key is dropped while all of it still counts. */
  lemma {:induction false} SkewParts(w: Window, d: nat, e: nat)
    requires w.limit >= 1 && w.width >= 1 && e > Slack(w)
    ensures Parts(w, d, e, AtOnce(w.limit), Call(Max(0, Expiry(w) - e), Expiry(w)))
  {
    var calls, now := AtOnce(w.limit), Max(0, Expiry(w) - e);
    var call := Call(now, Expiry(w));
    KeyAtOnce(w, w.limit);
    AtOnceTimes(w.limit);
    SkewRunAllowed(w, d, e, call);
    SkewDecides(w, now);
    assert RunScript(w, RedisAfter(w, calls), call).0 by {
      hide RedisAfter;
      RecentNone([], now - w.width);
    }
  }

  lemma {:induction false} SkewDecides(w: Window, now: int)
    requires w.limit >= 1 && w.width >= 1 && 0 <= now < w.width
    ensures !AllowedNext(w, Zeros(w.limit), now)
  {
    hide Kept, Recent;
    LimitAtOnce(w, w.limit);
    RecentZeros(w.limit, now - w.width);
  }

  lemma SkewRunAllowed(w: Window, d: nat, e: nat, call: Call)
    requires call == Call(Max(0, Expiry(w) - e), Expiry(w))
    ensures Drifts(Times(AtOnce(w.limit) + [call]), d) && Skews(AtOnce(w.limit) + [call], e)
  {
  }

  /** All but one of the limit at once, one call from a clock that fell by d, and one after the expiry. */
  function Relapse(w: Window, d: nat, e: nat): seq<Call>
    requires w.limit >= 1
  {
    (AtOnce(w.limit - 1) + [Call(0 - d, 0 - d)]) + [Call(Expiry(w) - e - d, Expiry(w) - d)]
  }

  lemma {:induction false} RelapseKept(w: Window, d: nat, e: nat)
    requires w.limit >= 2 && w.width >= 1 && e <= Slack(w) < d + e
    ensures var now := Expiry(w) - e - d;
            Kept(w, (Zeros(w.limit - 1) + [0 - d]) + [now]) == Zeros(w.limit - 1) + [now]
  {
    hide Kept, Recent, Zeros;
    var zeros, now := Zeros(w.limit - 1), Expiry(w) - e - d;
    LimitAtOnce(w, w.limit - 1);
    RecentZeros(w.limit - 1, 0 - d - w.width);
    KeptSnoc(w, zeros, 0 - d);
    RecentSnoc(zeros, 0 - d, now - w.width);
    RecentZeros(w.limit - 1, now - w.width);
    KeptSnoc(w, zeros + [0 - d], now);
  }

  lemma {:induction false} RelapseRefused(w: Window, d: nat, e: nat)
    requires w.limit >= 2 && w.width >= 1 && e <= Slack(w) < d + e
    ensures var now := Expiry(w) - e - d;
            !AllowedNext(w, (Zeros(w.limit - 1) + [0 - d]) + [now], now)
  {
    hide Kept, Recent, Zeros;
    var zeros, now := Zeros(w.limit - 1), Expiry(w) - e - d;
    RelapseKept(w, d, e);
    RecentSnoc(zeros, now, now - w.width);
    RecentZeros(w.limit - 1, now - w.width);
  }

  lemma {:induction false} RelapseDropped(w: Window, d: nat, e: nat)
    requires w.limit >= 2 && w.width >= 1
    ensures RedisAfter(w, Relapse(w, d, e)) ==
            RedisKey([Expiry(w) - e - d], Expiry(w) - d + Expiry(w))
  {
    hide RedisAfter, Recent, Zeros, AtOnce;
    var n, now := w.limit - 1, Expiry(w) - e - d;
    KeyAtOnce(w, n);
    RedisSnoc(w, AtOnce(n), Call(0 - d, 0 - d));
    RecentZeros(n, 0 - d - w.width);
    RecentNone([], now - w.width);
    assert [] + [now] == [now];
    RedisSnoc(w, AtOnce(n) + [Call(0 - d, 0 - d)], Call(now, Expiry(w) - d));
  }

  lemma RelapseAllowed(w: Window, d: nat, e: nat)
    requires w.limit >= 2 && e <= Slack(w)
    ensures var calls := Relapse(w, d, e) + [Call(Expiry(w) - e - d, Expiry(w) - d)];
            && Drifts(Times(calls), d) && Skews(calls, e)
    ensures Times(Relapse(w, d, e)) == (Zeros(w.limit - 1) + [0 - d]) + [Expiry(w) - e - d]
  {
  }

  /** Drift and skew together: the dropped key held times that still count, and one call more is let in. */
  lemma {:induction false} RelapseParts(w: Window, d: nat, e: nat)
    requires w.limit >= 2 && w.width >= 1 && e <= Slack(w) < d + e
    ensures Parts(w, d, e, Relapse(w, d, e), Call(Expiry(w) - e - d, Expiry(w) - d))
  {
    hide RedisAfter, Recent, Kept;
    var now := Expiry(w) - e - d;
    RelapseDropped(w, d, e);
    RelapseRefused(w, d, e);
    RelapseAllowed(w, d, e);
    RecentOne(now, now - w.width);
  }

  // ---------------------------------------------------------------- the exact condition

  /** Clocks count from the epoch, and so the script's range from zero on covers every score. */
  ghost predicate SinceEpoch(calls: seq<Call>) {
    forall i :: 0 <= i < |calls| ==> calls[i].now >= 0 && calls[i].server >= 0
  }

  /** Whether script and window decide every call of every run alike. */
  ghost predicate Agree(w: Window, d: nat, e: nat) {
    forall calls, call :: SinceEpoch(calls + [call]) ==> !Parts(w, d, e, calls, call)
  }

  function LaterTimes(items: seq<int>, k: int): (later: seq<int>)
    ensures |later| == |items|
  {
    seq(|items|, i requires 0 <= i < |items| => items[i] + k)
  }

  function LaterCall(call: Call, k: int): Call {
    Call(call.now + k, call.server + k)
  }

  function Later(calls: seq<Call>, k: int): (later: seq<Call>)
    ensures |later| == |calls|
  {
    seq(|calls|, i requires 0 <= i < |calls| => LaterCall(calls[i], k))
  }

  lemma LaterTimesSnoc(items: seq<int>, x: int, k: int)
    ensures LaterTimes(items + [x], k) == LaterTimes(items, k) + [x + k]
  {
  }

  lemma {:induction false} RecentLater(items: seq<int>, cutoff: int, k: int)
    ensures Recent(LaterTimes(items, k), cutoff + k) == LaterTimes(Recent(items, cutoff), k)
  {
    if items != [] {
      var init, last := items[..|items| - 1], items[|items| - 1];
      assert items == init + [last];
      RecentLater(init, cutoff, k);
      LaterTimesSnoc(init, last, k);
      LaterTimesSnoc(Recent(init, cutoff), last, k);
      RecentSnoc(LaterTimes(init, k), last + k, cutoff + k);
    }
  }

  lemma {:induction false} DecideLater(w: Window, items: seq<int>, now: int, k: int)
    ensures Decide(w, LaterTimes(items, k), now + k) ==
            (Decide(w, items, now).0, LaterTimes(Decide(w, items, now).1, k))
  {
    hide Recent;
    RecentLater(items, now - w.width, k);
    LaterTimesSnoc(Recent(items, now - w.width), now, k);
    assert now + k - w.width == now - w.width + k;
  }

  lemma {:induction false} KeptLater(w: Window, times: seq<int>, k: int)
    ensures Kept(w, LaterTimes(times, k)) == LaterTimes(Kept(w, times), k)
  {
    if times != [] {
      hide Kept, Decide, LaterTimes;
      var init, last := times[..|times| - 1], times[|times| - 1];
      assert times == init + [last];
      KeptLater(w, init, k);
      LaterTimesSnoc(init, last, k);
      KeptSnoc(w, init, last);
      KeptSnoc(w, LaterTimes(init, k), last + k);
      DecideLater(w, Kept(w, init), last, k);
    }
  }

  lemma LaterSnoc(calls: seq<Call>, call: Call, k: int)
    ensures Later(calls + [call], k) == Later(calls, k) + [LaterCall(call, k)]
    ensures Times(Later(calls, k)) == LaterTimes(Times(calls), k)
  {
  }

  /** The key of the run that is later by k: an empty key has no deadline to speak of. */
  ghost predicate LaterKey(key: RedisKey, later: RedisKey, k: int) {
    later.scores == LaterTimes(key.scores, k) && (key.scores != [] ==> later.deadline == key.deadline + k)
  }

  lemma {:induction false} ScriptLater(w: Window, key: RedisKey, later: RedisKey, call: Call, k: int)
    requires w.limit >= 1 && LaterKey(key, later, k)
    ensures RunScript(w, later, LaterCall(call, k)).0 == RunScript(w, key, call).0
    ensures LaterKey(RunScript(w, key, call).1, RunScript(w, later, LaterCall(call, k)).1, k)
  {
    hide Recent;
    var live := if call.server >= key.deadline then [] else key.scores;
    RecentLater(live, call.now - w.width, k);
    RecentNone([], call.now - w.width);
    LaterTimesSnoc(Recent(live, call.now - w.width), call.now, k);
    assert call.now + k - w.width == call.now - w.width + k;
    assert LaterTimes([], k) == [];
  }

  lemma {:induction false} RedisLater(w: Window, calls: seq<Call>, k: int)
    requires w.limit >= 1
    ensures LaterKey(RedisAfter(w, calls), RedisAfter(w, Later(calls, k)), k)
  {
    if calls != [] {
      hide RedisAfter, RunScript, Later, LaterKey;
      var init, last := calls[..|calls| - 1], calls[|calls| - 1];
      assert calls == init + [last];
      RedisLater(w, init, k);
      LaterSnoc(init, last, k);
      ScriptLater(w, RedisAfter(w, init), RedisAfter(w, Later(init, k)), last, k);
      RedisSnoc(w, init, last);
      RedisSnoc(w, Later(init, k), LaterCall(last, k));
    }
  }

  lemma AllowedLater(calls: seq<Call>, d: nat, e: nat, k: int)
    requires Drifts(Times(calls), d) && Skews(calls, e)
    ensures Drifts(Times(Later(calls, k)), d) && Skews(Later(calls, k), e)
  {
    assert forall i :: 0 <= i < |calls| ==> Times(Later(calls, k))[i] == Times(calls)[i] + k;
  }

  lemma {:induction false} PartsLater(w: Window, d: nat, e: nat, calls: seq<Call>, call: Call, k: int)
    requires w.limit >= 1 && Parts(w, d, e, calls, call)
    ensures Parts(w, d, e, Later(calls, k), LaterCall(call, k))
  {
    hide RedisAfter, RunScript, Later, Kept, Decide, Drifts, Skews, Times, LaterTimes;
    LaterSnoc(calls, call, k);
    AllowedLater(calls + [call], d, e, k);
    RedisLater(w, calls, k);
    ScriptLater(w, RedisAfter(w, calls), RedisAfter(w, Later(calls, k)), call, k);
    KeptLater(w, Times(calls), k);
    DecideLater(w, Kept(w, Times(calls)), call.now, k);
  }

  /** How far before the epoch a run reaches. */
  function Depth(calls: seq<Call>): (k: nat)
    ensures forall i :: 0 <= i < |calls| ==> calls[i].now + k >= 0 && calls[i].server + k >= 0
  {
    if calls == [] then 0
    else
      var last := calls[|calls| - 1];
      Max(Depth(calls[..|calls| - 1]), Max(0 - last.now, 0 - last.server))
  }

  /** A run that parts the two can be moved behind the epoch. */
  lemma {:induction false} PartsSinceEpoch(w: Window, d: nat, e: nat, calls: seq<Call>, call: Call)
    requires w.limit >= 1 && Parts(w, d, e, calls, call)
    ensures !Agree(w, d, e)
  {
    hide Parts, Depth;
    var k := Depth(calls + [call]);
    LaterSnoc(calls, call, k);
    PartsLater(w, d, e, calls, call, k);
    assert SinceEpoch(Later(calls + [call], k));
  }

  /**
   * The script, its expiry included, admits exactly the requests that the in-process window admits if and
   * only if the clocks together are off by no more than what the key outlives the window by.
   */
  lemma ScriptAgreesIff(w: Window, d: nat, e: nat)
    requires w.limit >= 1 && w.width >= 1
    ensures Agree(w, d, e) <==> Lag(w, d) + e <= Slack(w)
  {
    if Lag(w, d) + e <= Slack(w) {
      forall calls, call ensures !Parts(w, d, e, calls, call) {
        if Drifts(Times(calls + [call]), d) && Skews(calls + [call], e) {
          ScriptDecidesLikeTheWindow(w, calls, call, d, e);
        }
      }
    } else if e > Slack(w) {
      SkewParts(w, d, e);
      PartsSinceEpoch(w, d, e, AtOnce(w.limit), Call(Max(0, Expiry(w) - e), Expiry(w)));
    } else {
      RelapseParts(w, d, e);
      PartsSinceEpoch(w, d, e, Relapse(w, d, e), Call(Expiry(w) - e - d, Expiry(w) - d));
    }
  }
}
