/**
 * Requests decided by Redis or, when it fails, by the window of a Backend process; a restart begins with an
 * empty window and so counts as another process.
 */
module Fallback {
  import opened Basics
  import opened RateLimit

  /** How a request was decided: by Redis, or in the process after the script ran or did not run. */
  datatype Route = ByRedis | ReplyLost | RedisDown

  datatype Asked = Asked(now: int, route: Route, process: nat)

  /** Who remembers requests. */
  datatype Store = Redis | Process(id: nat)

  function DecidedBy(a: Asked): Store {
    if a.route == ByRedis then Redis else Process(a.process)
  }

  /** A lost reply leaves the request counted in Redis too. */
  predicate Sees(store: Store, a: Asked) {
    match store
    case Redis => a.route != RedisDown
    case Process(id) => a.route != ByRedis && a.process == id
  }

  /** Redis remembers what it decided and what it was asked in vain; a process remembers what it decided. */
  lemma WhoRemembers(a: Asked, id: nat)
    ensures Sees(Redis, a) <==> a.route == ByRedis || a.route == ReplyLost
    ensures Sees(Process(id), a) <==> DecidedBy(a) == Process(id)
    ensures DecidedBy(a) == if a.route == ByRedis then Redis else Process(a.process)
  {
  }

  function Seen(asked: seq<Asked>, store: Store): seq<int> {
    if asked == [] then []
    else
      var init, last := Seen(asked[..|asked| - 1], store), asked[|asked| - 1];
      if Sees(store, last) then init + [last.now] else init
  }

  /** The requests that Allow let through. */
  function LetThrough(w: Window, asked: seq<Asked>): seq<int> {
    if asked == [] then []
    else
      var init, last := asked[..|asked| - 1], asked[|asked| - 1];
      if AllowedNext(w, Seen(init, DecidedBy(last)), last.now)
      then LetThrough(w, init) + [last.now] else LetThrough(w, init)
  }

  ghost predicate AskedInOrder(asked: seq<Asked>, d: nat) {
    forall i, j :: 0 <= i < j < |asked| ==> asked[i].now - d <= asked[j].now
  }

  ghost predicate Processes(asked: seq<Asked>, n: nat) {
    forall i :: 0 <= i < |asked| ==> asked[i].process < n
  }

  lemma SeenSnoc(asked: seq<Asked>, a: Asked, store: Store)
    ensures Seen(asked + [a], store) ==
            if Sees(store, a) then Seen(asked, store) + [a.now] else Seen(asked, store)
  {
    assert (asked + [a])[..|asked|] == asked;
  }

  lemma LetThroughSnoc(w: Window, asked: seq<Asked>, a: Asked)
    ensures LetThrough(w, asked + [a]) ==
            if AllowedNext(w, Seen(asked, DecidedBy(a)), a.now) then LetThrough(w, asked) + [a.now]
            else LetThrough(w, asked)
  {
    assert (asked + [a])[..|asked|] == asked;
  }

  lemma NothingAskedYet(w: Window, store: Store, lo: int, hi: int)
    ensures Seen([], store) == [] && LetThrough(w, []) == [] && CountIn([], lo, hi) == 0
  {
  }

  // ---------------------------------------------------------------- every store keeps its own bound

  function StoreAt(k: nat): Store {
    if k == 0 then Redis else Process(k - 1)
  }

  function IndexOf(a: Asked): nat {
    if a.route == ByRedis then 0 else a.process + 1
  }

  /** What the first m stores would have admitted of the requests they saw. */
  function AdmittedBy(w: Window, asked: seq<Asked>, lo: int, hi: int, m: nat): nat {
    if m == 0 then 0
    else AdmittedBy(w, asked, lo, hi, m - 1) + CountIn(Admitted(w, Seen(asked, StoreAt(m - 1))), lo, hi)
  }

  /** Whether a request adds to the count of a store that decides it. */
  predicate Adds(w: Window, asked: seq<Asked>, a: Asked, lo: int, hi: int) {
    AllowedNext(w, Seen(asked, DecidedBy(a)), a.now) && lo < a.now <= hi
  }

  lemma {:induction false} StoreCountGrows(w: Window, asked: seq<Asked>, a: Asked, store: Store, lo: int, hi: int)
    ensures CountIn(Admitted(w, Seen(asked + [a], store)), lo, hi) >=
            CountIn(Admitted(w, Seen(asked, store)), lo, hi) +
            (if store == DecidedBy(a) && Adds(w, asked, a, lo, hi) then 1 else 0)
  {
    hide Seen, Admitted, CountIn, Kept, Recent;
    SeenSnoc(asked, a, store);
    if Sees(store, a) {
      AdmittedSnoc(w, Seen(asked, store), a.now);
      CountSnoc(Admitted(w, Seen(asked, store)), a.now, lo, hi);
    }
  }

  lemma {:induction false} AdmittedByGrows(w: Window, asked: seq<Asked>, a: Asked, lo: int, hi: int, m: nat)
    ensures AdmittedBy(w, asked + [a], lo, hi, m) >=
            AdmittedBy(w, asked, lo, hi, m) + (if IndexOf(a) < m && Adds(w, asked, a, lo, hi) then 1 else 0)
  {
    if m > 0 {
      hide Seen, Admitted, CountIn, Kept, Recent;
      AdmittedByGrows(w, asked, a, lo, hi, m - 1);
      StoreCountGrows(w, asked, a, StoreAt(m - 1), lo, hi);
    }
  }

  lemma {:induction false} LetThroughGrows(w: Window, asked: seq<Asked>, a: Asked, lo: int, hi: int)
    ensures CountIn(LetThrough(w, asked + [a]), lo, hi) ==
            CountIn(LetThrough(w, asked), lo, hi) + (if Adds(w, asked, a, lo, hi) then 1 else 0)
  {
    hide Seen, CountIn, Kept, Recent, LetThrough;
    LetThroughSnoc(w, asked, a);
    CountSnoc(LetThrough(w, asked), a.now, lo, hi);
  }

  lemma {:induction false} LetThroughCount(w: Window, asked: seq<Asked>, lo: int, hi: int, n: nat)
    requires Processes(asked, n)
    ensures CountIn(LetThrough(w, asked), lo, hi) <= AdmittedBy(w, asked, lo, hi, n + 1)
  {
    hide Seen, Admitted, CountIn, Kept, Recent, AdmittedBy, LetThrough;
    if asked == [] {
      NothingAskedYet(w, Redis, lo, hi);
    } else {
      var init, last := asked[..|asked| - 1], asked[|asked| - 1];
      assert asked == init + [last];
      LetThroughCount(w, init, lo, hi, n);
      LetThroughGrows(w, init, last, lo, hi);
      AdmittedByGrows(w, init, last, lo, hi, n + 1);
      assert last.process < n;
    }
  }

  /** Every remembered time is that of some request. */
  ghost predicate FromRequests(asked: seq<Asked>, times: seq<int>) {
    forall i :: 0 <= i < |times| ==> exists k :: 0 <= k < |asked| && asked[k].now == times[i]
  }

  lemma {:induction false} SeenFromRequests(asked: seq<Asked>, store: Store)
    ensures FromRequests(asked, Seen(asked, store))
  {
    if asked != [] {
      hide Seen;
      var init, last := asked[..|asked| - 1], asked[|asked| - 1];
      assert asked == init + [last];
      SeenFromRequests(init, store);
      SeenSnoc(init, last, store);
      var before := Seen(init, store);
      forall i | 0 <= i < |before| ensures exists k :: 0 <= k < |asked| && asked[k].now == before[i] {
        var k :| 0 <= k < |init| && init[k].now == before[i];
        assert asked[k] == init[k];
      }
      assert asked[|asked| - 1].now == last.now;
    }
  }

  /** A store sees requests in the order in which they were asked. */
  lemma {:induction false} SeenInOrder(asked: seq<Asked>, store: Store, d: nat)
    requires AskedInOrder(asked, d)
    ensures Drifts(Seen(asked, store), d)
  {
    if asked != [] {
      hide Seen;
      var init, last := asked[..|asked| - 1], asked[|asked| - 1];
      assert asked == init + [last];
      SeenInOrder(init, store, d);
      SeenSnoc(init, last, store);
      SeenFromRequests(init, store);
      var before := Seen(init, store);
      forall i | 0 <= i < |before| ensures before[i] - d <= last.now {
        var k :| 0 <= k < |init| && init[k].now == before[i];
        assert asked[k] == init[k];
      }
    }
  }

  lemma OneTimeMore(m: nat, limit: nat)
    requires m > 0
    ensures m * limit == (m - 1) * limit + limit
  {
  }

  lemma {:induction false} StoresKeepTheirBounds(w: Window, asked: seq<Asked>, d: nat, end: int, m: nat)
    requires AskedInOrder(asked, d)
    ensures AdmittedBy(w, asked, end - (w.width - d), end, m) <= m * w.limit
  {
    if m > 0 {
      hide Seen, Admitted, CountIn;
      StoresKeepTheirBounds(w, asked, d, end, m - 1);
      SeenInOrder(asked, StoreAt(m - 1), d);
      AtMostLimitPerWindow(w, Seen(asked, StoreAt(m - 1)), d, end);
      OneTimeMore(m, w.limit);
    }
  }

  /** However requests fall back, n Backend processes and Redis admit at most n + 1 times the limit per window. */
  lemma FallbackBound(w: Window, asked: seq<Asked>, d: nat, n: nat, end: int)
    requires AskedInOrder(asked, d) && Processes(asked, n)
    ensures CountIn(LetThrough(w, asked), end - (w.width - d), end) <= (n + 1) * w.limit
  {
    LetThroughCount(w, asked, end - (w.width - d), end, n);
    StoresKeepTheirBounds(w, asked, d, end, n + 1);
  }

  // ---------------------------------------------------------------- the bound is reached

  function Times(n: nat, a: Asked): (asked: seq<Asked>)
    ensures |asked| == n
  {
    seq(n, i => a)
  }

  lemma TimesSnoc(n: nat, a: Asked)
    requires n > 0
    ensures Times(n, a) == Times(n - 1, a) + [a]
  {
  }

  lemma {:induction false} NextAtOnce(w: Window, n: nat)
    requires n < w.limit && w.width >= 1
    ensures AllowedNext(w, Zeros(n), 0)
  {
    hide Kept, Recent;
    LimitAtOnce(w, n);
    RecentZeros(n, 0 - w.width);
  }

  /** A store that has seen nothing yet lets a whole limit through, whatever others did before. */
  lemma {:induction false} FreshStoreLetsThrough(w: Window, asked: seq<Asked>, a: Asked, n: nat)
    requires n <= w.limit && w.width >= 1 && a.now == 0 && Seen(asked, DecidedBy(a)) == []
    ensures LetThrough(w, asked + Times(n, a)) == LetThrough(w, asked) + Zeros(n)
    ensures Seen(asked + Times(n, a), DecidedBy(a)) == Zeros(n)
  {
    if n == 0 {
      assert asked + Times(0, a) == asked && LetThrough(w, asked) + Zeros(0) == LetThrough(w, asked);
    } else {
      hide Seen, LetThrough, Kept, Recent, Times, Zeros;
      var before := asked + Times(n - 1, a);
      FreshStoreLetsThrough(w, asked, a, n - 1);
      TimesSnoc(n, a);
      ZerosSnoc(n);
      AppendAssociative(asked, Times(n - 1, a), [a]);
      AppendAssociative(LetThrough(w, asked), Zeros(n - 1), [0]);
      NextAtOnce(w, n - 1);
      LetThroughSnoc(w, before, a);
      SeenSnoc(before, a, DecidedBy(a));
    }
  }

  lemma {:induction false} OthersSeeNothing(asked: seq<Asked>, a: Asked, n: nat, store: Store)
    requires !Sees(store, a)
    ensures Seen(asked + Times(n, a), store) == Seen(asked, store)
  {
    if n == 0 {
      assert asked + Times(0, a) == asked;
    } else {
      hide Seen, Times;
      OthersSeeNothing(asked, a, n - 1, store);
      TimesSnoc(n, a);
      AppendAssociative(asked, Times(n - 1, a), [a]);
      SeenSnoc(asked + Times(n - 1, a), a, store);
    }
  }

  /** A request at time zero that the k-th store decides and no other one sees. */
  function AskAt(k: nat): Asked {
    if k == 0 then Asked(0, ByRedis, 0) else Asked(0, RedisDown, k - 1)
  }

  /** A limit of requests for each of the first m stores. */
  function FillAll(w: Window, m: nat): seq<Asked> {
    if m == 0 then [] else FillAll(w, m - 1) + Times(w.limit, AskAt(m - 1))
  }

  lemma {:induction false} LaterStoresEmpty(w: Window, m: nat, k: nat)
    requires m <= k
    ensures Seen(FillAll(w, m), StoreAt(k)) == []
  {
    if m > 0 {
      LaterStoresEmpty(w, m - 1, k);
      OthersSeeNothing(FillAll(w, m - 1), AskAt(m - 1), w.limit, StoreAt(k));
    }
  }

  lemma {:induction false} OneZeroMore(items: seq<int>, n: nat, lo: int, hi: int)
    requires lo < 0 <= hi && n > 0
    ensures CountIn(items + Zeros(n), lo, hi) == CountIn(items + Zeros(n - 1), lo, hi) + 1
  {
    hide CountIn, Zeros;
    ZerosSnoc(n);
    AppendAssociative(items, Zeros(n - 1), [0]);
    CountSnoc(items + Zeros(n - 1), 0, lo, hi);
  }

  lemma {:induction false} CountZerosAppended(items: seq<int>, n: nat, lo: int, hi: int)
    requires lo < 0 <= hi
    ensures CountIn(items + Zeros(n), lo, hi) == CountIn(items, lo, hi) + n
  {
    hide CountIn;
    if n == 0 {
      assert items + Zeros(0) == items;
    } else {
      CountZerosAppended(items, n - 1, lo, hi);
      OneZeroMore(items, n, lo, hi);
    }
  }

  lemma {:induction false} OneStoreFilled(w: Window, m: nat)
    requires w.width >= 1 && m > 0
    ensures CountIn(LetThrough(w, FillAll(w, m)), 0 - w.width, 0) ==
            CountIn(LetThrough(w, FillAll(w, m - 1)), 0 - w.width, 0) + w.limit
  {
    hide LetThrough, Seen, CountIn, Zeros, Times;
    var before := FillAll(w, m - 1);
    LaterStoresEmpty(w, m - 1, m - 1);
    FreshStoreLetsThrough(w, before, AskAt(m - 1), w.limit);
    CountZerosAppended(LetThrough(w, before), w.limit, 0 - w.width, 0);
  }

  lemma {:induction false} EveryStoreFilled(w: Window, m: nat)
    requires w.width >= 1
    ensures CountIn(LetThrough(w, FillAll(w, m)), 0 - w.width, 0) == m * w.limit
  {
    if m == 0 {
      assert LetThrough(w, []) == [];
    } else {
      EveryStoreFilled(w, m - 1);
      OneStoreFilled(w, m);
      OneTimeMore(m, w.limit);
    }
  }

  lemma {:induction false} FillAllIsPlain(w: Window, n: nat, m: nat)
    requires m <= n + 1 && n >= 1
    ensures Processes(FillAll(w, m), n) && forall i :: 0 <= i < |FillAll(w, m)| ==> FillAll(w, m)[i].now == 0
  {
    if m > 0 {
      FillAllIsPlain(w, n, m - 1);
    }
  }

  /** For every window and every number of processes some run in order reaches that bound. */
  lemma FallbackBoundIsReached(w: Window, n: nat)
    requires w.width >= 1 && n >= 1
    ensures var asked := FillAll(w, n + 1);
            && AskedInOrder(asked, 0) && Processes(asked, n)
            && CountIn(LetThrough(w, asked), 0 - w.width, 0) == (n + 1) * w.limit
  {
    FillAllIsPlain(w, n, n + 1);
    EveryStoreFilled(w, n + 1);
  }

  // ---------------------------------------------------------------- exactly when one limit is enough

  function PassedWithin(w: Window, asked: seq<Asked>, end: int): nat {
    CountIn(LetThrough(w, asked), end - w.width, end)
  }

  ghost predicate Permitted(asked: seq<Asked>, routes: set<Route>, n: nat) {
    forall i :: 0 <= i < |asked| ==> asked[i].route in routes && asked[i].process < n
  }

  /** Whether runs in order that use only these routes and n processes never admit more than the limit. */
  ghost predicate OneLimit(w: Window, routes: set<Route>, n: nat) {
    forall asked, end :: Permitted(asked, routes, n) && AskedInOrder(asked, 0) ==>
      PassedWithin(w, asked, end) <= w.limit
  }

  lemma {:induction false} OneStoreDecides(w: Window, asked: seq<Asked>, store: Store)
    requires forall i :: 0 <= i < |asked| ==> DecidedBy(asked[i]) == store
    ensures LetThrough(w, asked) == Admitted(w, Seen(asked, store))
  {
    if asked != [] {
      hide Kept, Recent, Seen, LetThrough, Admitted;
      var init, last := asked[..|asked| - 1], asked[|asked| - 1];
      assert asked == init + [last];
      OneStoreDecides(w, init, store);
      SeenSnoc(init, last, store);
      LetThroughSnoc(w, init, last);
      AdmittedSnoc(w, Seen(init, store), last.now);
    }
  }

  lemma {:induction false} OneStoreOneLimit(w: Window, asked: seq<Asked>, store: Store, end: int)
    requires forall i :: 0 <= i < |asked| ==> DecidedBy(asked[i]) == store
    requires AskedInOrder(asked, 0)
    ensures PassedWithin(w, asked, end) <= w.limit
  {
    hide LetThrough, Seen, Admitted, CountIn;
    OneStoreDecides(w, asked, store);
    SeenInOrder(asked, store, 0);
    AtMostLimitPerWindow(w, Seen(asked, store), 0, end);
  }

  /** A store lets a limit through, and another one that saw nothing of it does so again. */
  lemma {:induction false} TwoStoresTwoLimits(w: Window, a: Asked, b: Asked)
    requires w.limit >= 1 && w.width >= 1 && a.now == b.now == 0 && !Sees(DecidedBy(b), a)
    ensures PassedWithin(w, Times(w.limit, a) + Times(w.limit, b), 0) == 2 * w.limit
  {
    hide LetThrough, Seen, CountIn, Zeros, Times;
    var first := Times(w.limit, a);
    assert [] + first == first;
    NothingAskedYet(w, DecidedBy(a), 0 - w.width, 0);
    NothingAskedYet(w, DecidedBy(b), 0 - w.width, 0);
    FreshStoreLetsThrough(w, [], a, w.limit);
    OthersSeeNothing([], a, w.limit, DecidedBy(b));
    FreshStoreLetsThrough(w, first, b, w.limit);
    CountZerosAppended([], w.limit, 0 - w.width, 0);
    CountZerosAppended(LetThrough(w, first), w.limit, 0 - w.width, 0);
  }

  /**
   * Exactly when the single limit holds: every request is decided by Redis, or every one by the same process
   * (or nothing is ever admitted, or the window has no width).
   */
  lemma OneLimitIff(w: Window, routes: set<Route>, n: nat)
    requires n >= 1
    ensures OneLimit(w, routes, n) <==>
            w.limit == 0 || w.width == 0 || routes <= {ByRedis} || (ByRedis !in routes && n == 1)
  {
    if w.limit == 0 || w.width == 0 || routes <= {ByRedis} || (ByRedis !in routes && n == 1) {
      forall asked, end | Permitted(asked, routes, n) && AskedInOrder(asked, 0)
        ensures PassedWithin(w, asked, end) <= w.limit
      {
        if w.limit == 0 {
          FallbackBound(w, asked, 0, n, end);
        } else if w.width == 0 {
          CountNone(LetThrough(w, asked), end, end);
        } else {
          OneStoreOneLimit(w, asked, if ByRedis in routes then Redis else if routes == {} then Redis else Process(0), end);
        }
      }
    } else {
      var r :| r in routes && r != ByRedis;
      var a, b := if ByRedis in routes then Asked(0, ByRedis, 0) else Asked(0, r, 1), Asked(0, r, 0);
      TwoStoresTwoLimits(w, a, b);
      var asked := Times(w.limit, a) + Times(w.limit, b);
      assert Permitted(asked, routes, n) && AskedInOrder(asked, 0);
      assert PassedWithin(w, asked, 0) > w.limit;
    }
  }
}
