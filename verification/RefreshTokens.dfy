/**
 * Refresh-token families: one-time tokens, rotation, and replay that ends the family. Hashes and family
 * names are drawn fresh; each database transaction is one step.
 */
module RefreshTokens {
  import opened Options

  datatype Token = Token(family: nat, user: nat, expires: int,
                         used: Option<int>, revoked: Option<int>, replacedBy: Option<nat>)

  type Rows = map<nat, Token>

  datatype Outcome = NotFound | Replayed | Rotated

  const LIFETIME: int := 7 * 24 * 3600

  function Fresh(family: nat, user: nat, now: int): Token {
    Token(family, user, now + LIFETIME, None, None, None)
  }

  predicate Usable(t: Token, now: int) {
    t.used.None? && t.revoked.None? && now < t.expires
  }

  // ---------------------------------------------------------------- the transactions

  function RevokedRow(t: Token, family: nat, now: int): Token {
    if t.family == family && t.revoked.None? then t.(revoked := Some(now)) else t
  }

  function RevokeFamily(rows: Rows, family: nat, now: int): Rows {
    map h | h in rows :: RevokedRow(rows[h], family, now)
  }

  function Rotate(rows: Rows, hash: nat, now: int, next: nat, replacement: Token): (Rows, Outcome) {
    if hash !in rows then (rows, NotFound)
    else
      var row := rows[hash];
      if row.used.Some? then (RevokeFamily(rows, row.family, now), Replayed)
      else if row.revoked.Some? || row.expires <= now then (rows, NotFound)
      else (rows[hash := row.(used := Some(now), replacedBy := Some(next))][next := replacement], Rotated)
  }

  // ---------------------------------------------------------------- what the transactions touch

  /** Every token of the family is revoked, at this time unless it was before, and nothing else is touched. */
  ghost predicate RevokedIn(rows: Rows, after: Rows, family: nat, now: int) {
    && (forall h :: h in after <==> h in rows)
    && forall h :: h in rows ==>
         var t, u := rows[h], after[h];
         if t.family == family
         then
           && u.revoked == (if t.revoked == None then Some(now) else t.revoked)
           && u.family == t.family && u.user == t.user && u.expires == t.expires
           && u.used == t.used && u.replacedBy == t.replacedBy
         else u == t
  }

  /** The token is used and points to its successor, which is new; nothing else is touched. */
  ghost predicate RotatedIn(rows: Rows, after: Rows, hash: nat, now: int, next: nat, replacement: Token)
    requires hash in rows
  {
    && (forall h :: h in after <==> h in rows || h == next)
    && (forall h :: h in rows && h != hash && h != next ==> after[h] == rows[h])
    && after[next] == replacement
    && var t, u := rows[hash], after[hash];
       && u.used == Some(now) && u.replacedBy == Some(next) && u.revoked == t.revoked
       && u.family == t.family && u.user == t.user && u.expires == t.expires
  }

  lemma RevocationTouchesOneFamily(rows: Rows, family: nat, now: int)
    ensures RevokedIn(rows, RevokeFamily(rows, family, now), family, now)
  {
  }

  /** A rotation: unknown, revoked and expired tokens change nothing, a used one ends its family. */
  lemma RotationOutcomes(rows: Rows, hash: nat, now: int, next: nat, replacement: Token)
    requires next != hash
    ensures var (after, outcome) := Rotate(rows, hash, now, next, replacement);
            && (outcome == Replayed <==> hash in rows && rows[hash].used != None)
            && (outcome == Rotated <==>
                  hash in rows && rows[hash].used == None && rows[hash].revoked == None && now < rows[hash].expires)
            && (outcome == NotFound ==> after == rows)
            && (outcome == Replayed ==> RevokedIn(rows, after, rows[hash].family, now))
            && (outcome == Rotated ==> RotatedIn(rows, after, hash, now, next, replacement))
  {
  }

  /** A new token can be used from then on, for seven days, by the user and in the family it is made for. */
  lemma TokensLastSevenDays(family: nat, user: nat, now: int, at: int)
    ensures var t := Fresh(family, user, now);
            t.family == family && t.user == user && (Usable(t, at) <==> at < now + 7 * 24 * 60 * 60)
  {
  }

  // ---------------------------------------------------------------- interleaved requests

  /** A refresh or a logout between its look-up and its transaction. */
  datatype Request =
    | Refreshing(hash: nat, now: int, next: nat, replacement: Token)
    | Revoking(family: nat)

  /**
   * The table with the requests under way. The last two fields are history: the tokens of each family in the
   * order in which they were issued, and every rotation that took place.
   */
  datatype System = System(
    rows: Rows, nextHash: nat, nextFamily: nat, requests: map<nat, Request>, nextRequest: nat,
    chains: map<nat, seq<nat>>, rotations: seq<nat>)

  datatype Action =
    | Login(user: nat, now: int)
    | StartRefresh(hash: nat, now: int)
    | FinishRefresh(request: nat)
    | StartRevoke(hash: nat)
    | FinishRevoke(request: nat, now: int)
    | Abandon(request: nat)

  function StartRefreshStep(s: System, hash: nat, now: int): System {
    if hash !in s.rows then s
    else
      var replacement := Fresh(s.rows[hash].family, s.rows[hash].user, now);
      s.(requests := s.requests[s.nextRequest := Refreshing(hash, now, s.nextHash, replacement)],
         nextRequest := s.nextRequest + 1, nextHash := s.nextHash + 1)
  }

  function FinishRefreshStep(s: System, r: nat): System {
    if r !in s.requests || !s.requests[r].Refreshing? then s
    else
      var q := s.requests[r];
      var (rows, outcome) := Rotate(s.rows, q.hash, q.now, q.next, q.replacement);
      var t := s.(rows := rows, requests := s.requests - {r});
      if outcome == Rotated && q.replacement.family in s.chains
      then t.(chains := s.chains[q.replacement.family := s.chains[q.replacement.family] + [q.next]],
              rotations := s.rotations + [q.hash])
      else t
  }

  function Apply(s: System, action: Action): System {
    match action
    case Login(user, now) =>
      s.(rows := s.rows[s.nextHash := Fresh(s.nextFamily, user, now)], nextHash := s.nextHash + 1,
         nextFamily := s.nextFamily + 1, chains := s.chains[s.nextFamily := [s.nextHash]])
    case StartRefresh(hash, now) => StartRefreshStep(s, hash, now)
    case FinishRefresh(r) => FinishRefreshStep(s, r)
    case StartRevoke(hash) =>
      if hash !in s.rows then s
      else s.(requests := s.requests[s.nextRequest := Revoking(s.rows[hash].family)], nextRequest := s.nextRequest + 1)
    case FinishRevoke(r, now) =>
      if r !in s.requests || !s.requests[r].Revoking? then s
      else s.(rows := RevokeFamily(s.rows, s.requests[r].family, now), requests := s.requests - {r})
    case Abandon(r) => s.(requests := s.requests - {r})
  }

  function Run(s: System, actions: seq<Action>): System {
    if actions == [] then s else Apply(Run(s, actions[..|actions| - 1]), actions[|actions| - 1])
  }

  const EMPTY: System := System(map[], 0, 0, map[], 0, map[], [])

  // ---------------------------------------------------------------- the invariant

  /** A token and its place in the chain: used and linked to the next one, or the unused end. */
  ghost predicate Linked(rows: Rows, chain: seq<nat>, i: nat)
    requires i < |chain| && chain[i] in rows
  {
    var t := rows[chain[i]];
    if i + 1 < |chain| then t.used.Some? && t.replacedBy == Some(chain[i + 1]) && chain[i] < chain[i + 1]
    else t.used.None? && t.replacedBy.None?
  }

  /** The chain of a family; either all of it is revoked or none. */
  ghost predicate IsChain(rows: Rows, family: nat, chain: seq<nat>) {
    && chain != []
    && (forall i :: 0 <= i < |chain| ==>
          chain[i] in rows && rows[chain[i]].family == family && Linked(rows, chain, i))
    && (forall i :: 0 <= i < |chain| ==> (rows[chain[i]].revoked.Some? <==> rows[chain[0]].revoked.Some?))
  }

  ghost predicate RowsSound(s: System) {
    forall h :: h in s.rows ==>
      h < s.nextHash && s.rows[h].family in s.chains && h in s.chains[s.rows[h].family]
  }

  ghost predicate ChainsSound(s: System) {
    forall f :: f in s.chains ==> f < s.nextFamily && IsChain(s.rows, f, s.chains[f])
  }

  ghost predicate RequestSound(s: System, q: Request) {
    match q
    case Refreshing(hash, now, next, replacement) =>
      && hash in s.rows && hash < next < s.nextHash && next !in s.rows
      && replacement == Fresh(s.rows[hash].family, s.rows[hash].user, now)
    case Revoking(family) => family in s.chains
  }

  ghost predicate RequestsSound(s: System) {
    && (forall r :: r in s.requests ==> r < s.nextRequest && RequestSound(s, s.requests[r]))
    && (forall q, r :: q in s.requests && r in s.requests && q != r &&
                       s.requests[q].Refreshing? && s.requests[r].Refreshing? ==>
          s.requests[q].next != s.requests[r].next)
  }

  ghost predicate RotationsSound(s: System) {
    && (forall i :: 0 <= i < |s.rotations| ==>
          s.rotations[i] in s.rows && s.rows[s.rotations[i]].used.Some?)
    && (forall i, j :: 0 <= i < j < |s.rotations| ==> s.rotations[i] != s.rotations[j])
  }

  ghost predicate Inv(s: System) {
    RowsSound(s) && ChainsSound(s) && RequestsSound(s) && RotationsSound(s)
  }

  // ---------------------------------------------------------------- chains under the transactions

  lemma RevokeKeepsChain(rows: Rows, family: nat, chain: seq<nat>, revoked: nat, now: int)
    requires IsChain(rows, family, chain)
    ensures IsChain(RevokeFamily(rows, revoked, now), family, chain)
    ensures revoked == family ==> RevokeFamily(rows, revoked, now)[chain[0]].revoked.Some?
  {
    var after := RevokeFamily(rows, revoked, now);
    forall i | 0 <= i < |chain| ensures chain[i] in after && Linked(after, chain, i) {
      assert Linked(rows, chain, i);
    }
  }

  /** Rows of other families do not matter to a chain. */
  lemma SameRowsSameChain(rows: Rows, after: Rows, family: nat, chain: seq<nat>)
    requires IsChain(rows, family, chain)
    requires forall i :: 0 <= i < |chain| ==> chain[i] in after && after[chain[i]] == rows[chain[i]]
    ensures IsChain(after, family, chain)
  {
    forall i | 0 <= i < |chain| ensures Linked(after, chain, i) {
      assert Linked(rows, chain, i);
    }
  }

  /** An unused token is the end of its chain. */
  lemma UnusedIsLast(rows: Rows, family: nat, chain: seq<nat>, hash: nat)
    requires IsChain(rows, family, chain) && hash in chain && rows[hash].used.None?
    ensures hash == chain[|chain| - 1]
  {
    var i :| 0 <= i < |chain| && chain[i] == hash;
    assert Linked(rows, chain, i);
  }

  /** Rotation puts the replacement at the end of the chain. */
  lemma RotateExtendsChain(rows: Rows, family: nat, chain: seq<nat>, hash: nat, now: int, next: nat, replacement: Token)
    requires IsChain(rows, family, chain) && hash in chain && hash < next && next !in rows
    requires Rotate(rows, hash, now, next, replacement).1 == Rotated
    requires replacement.family == family && replacement.used.None? && replacement.revoked.None?
    requires replacement.replacedBy.None?
    ensures IsChain(Rotate(rows, hash, now, next, replacement).0, family, chain + [next])
  {
    var after, more := Rotate(rows, hash, now, next, replacement).0, chain + [next];
    UnusedIsLast(rows, family, chain, hash);
    assert rows[chain[|chain| - 1]].revoked.None?;
    IncreasingChain(rows, family, chain);
    forall i | 0 <= i < |more|
      ensures more[i] in after && after[more[i]].family == family && Linked(after, more, i)
      ensures after[more[i]].revoked.None?
    {
      if i < |chain| {
        assert Linked(rows, chain, i);
        assert chain[i] != next;
      }
    }
  }

  /** Hashes grow along a chain, so that it has no cycle and no token twice. */
  lemma IncreasingChain(rows: Rows, family: nat, chain: seq<nat>)
    requires IsChain(rows, family, chain)
    ensures forall i, j :: 0 <= i < j < |chain| ==> chain[i] < chain[j]
  {
    forall i, j | 0 <= i < j < |chain| ensures chain[i] < chain[j] {
      ChainGrows(rows, family, chain, i, j);
    }
  }

  lemma {:induction false} ChainGrows(rows: Rows, family: nat, chain: seq<nat>, i: nat, j: nat)
    requires IsChain(rows, family, chain) && i < j < |chain|
    ensures chain[i] < chain[j]
    decreases j
  {
    assert Linked(rows, chain, j - 1);
    if i < j - 1 {
      ChainGrows(rows, family, chain, i, j - 1);
    }
  }

  // ---------------------------------------------------------------- every step keeps the invariant

  lemma LoginKeepsChains(s: System, user: nat, now: int)
    requires Inv(s)
    ensures ChainsSound(Apply(s, Login(user, now))) && RowsSound(Apply(s, Login(user, now)))
  {
    var t := Apply(s, Login(user, now));
    assert s.nextHash !in s.rows && s.nextFamily !in s.chains;
    forall f | f in t.chains ensures f < t.nextFamily && IsChain(t.rows, f, t.chains[f]) {
      if f != s.nextFamily {
        SameRowsSameChain(s.rows, t.rows, f, s.chains[f]);
      }
    }
  }

  lemma LoginKeeps(s: System, user: nat, now: int)
    requires Inv(s)
    ensures Inv(Apply(s, Login(user, now)))
  {
    var t := Apply(s, Login(user, now));
    LoginKeepsChains(s, user, now);
    forall r | r in t.requests ensures RequestSound(t, t.requests[r]) {
      assert RequestSound(s, s.requests[r]);
    }
  }

  lemma StartRefreshKeeps(s: System, hash: nat, now: int)
    requires Inv(s)
    ensures Inv(StartRefreshStep(s, hash, now))
  {
  }

  /** Revoking a family leaves the other fields of every row alone. */
  lemma RevokeKeeps(s: System, family: nat, now: int)
    requires Inv(s)
    ensures Inv(s.(rows := RevokeFamily(s.rows, family, now)))
  {
    hide IsChain;
    var t := s.(rows := RevokeFamily(s.rows, family, now));
    forall f | f in t.chains ensures IsChain(t.rows, f, t.chains[f]) {
      RevokeKeepsChain(s.rows, f, s.chains[f], family, now);
    }
    forall r | r in t.requests ensures RequestSound(t, t.requests[r]) {
      assert RequestSound(s, s.requests[r]);
    }
  }

  lemma DropRequestKeeps(s: System, r: nat)
    requires Inv(s)
    ensures Inv(s.(requests := s.requests - {r}))
  {
    var t := s.(requests := s.requests - {r});
    forall q | q in t.requests ensures RequestSound(t, t.requests[q]) {
      assert RequestSound(s, s.requests[q]);
    }
  }

  /** The state after a rotation, before its request is dropped. */
  function RotatedState(s: System, q: Request): System
    requires q.Refreshing? && q.replacement.family in s.chains
  {
    var family := q.replacement.family;
    s.(rows := Rotate(s.rows, q.hash, q.now, q.next, q.replacement).0,
       chains := s.chains[family := s.chains[family] + [q.next]], rotations := s.rotations + [q.hash])
  }

  lemma RotateKeepsChains(s: System, q: Request)
    requires Inv(s) && q.Refreshing? && RequestSound(s, q)
    requires Rotate(s.rows, q.hash, q.now, q.next, q.replacement).1 == Rotated
    ensures q.replacement.family in s.chains && ChainsSound(RotatedState(s, q))
  {
    var family := q.replacement.family;
    assert family in s.chains && q.hash in s.chains[family];
    var t := RotatedState(s, q);
    forall f | f in t.chains ensures f < t.nextFamily && IsChain(t.rows, f, t.chains[f]) {
      assert IsChain(s.rows, f, s.chains[f]);
      if f == family {
        RotateExtendsChain(s.rows, f, s.chains[f], q.hash, q.now, q.next, q.replacement);
      } else {
        forall i | 0 <= i < |s.chains[f]| ensures s.chains[f][i] != q.hash && s.chains[f][i] != q.next {
          assert s.rows[s.chains[f][i]].family == f;
        }
        SameRowsSameChain(s.rows, t.rows, f, s.chains[f]);
      }
    }
  }

  lemma {:induction false} RotateKeepsRows(s: System, q: Request)
    requires Inv(s) && q.Refreshing? && RequestSound(s, q) && q.replacement.family in s.chains
    requires Rotate(s.rows, q.hash, q.now, q.next, q.replacement).1 == Rotated
    ensures RowsSound(RotatedState(s, q)) && RotationsSound(RotatedState(s, q))
  {
    hide IsChain, RequestsSound;
    var t := RotatedState(s, q);
    var chain := t.chains[q.replacement.family];
    assert chain[|chain| - 1] == q.next;
    forall h | h in t.rows ensures h < t.nextHash && t.rows[h].family in t.chains && h in t.chains[t.rows[h].family] {
      if h != q.next {
        assert h in s.rows;
      }
    }
  }

  /** The other requests stay sound: their look-ups and replacements are not this one's. */
  lemma RotateKeepsRequests(s: System, r: nat)
    requires Inv(s) && r in s.requests && s.requests[r].Refreshing?
    requires s.requests[r].replacement.family in s.chains
    requires var q := s.requests[r]; Rotate(s.rows, q.hash, q.now, q.next, q.replacement).1 == Rotated
    ensures RequestsSound(RotatedState(s, s.requests[r]).(requests := s.requests - {r}))
  {
    var q := s.requests[r];
    var t := RotatedState(s, q).(requests := s.requests - {r});
    forall p | p in t.requests ensures p < t.nextRequest && RequestSound(t, t.requests[p]) {
      assert RequestSound(s, s.requests[p]);
    }
  }

  lemma FinishRefreshKeeps(s: System, r: nat)
    requires Inv(s)
    ensures Inv(FinishRefreshStep(s, r))
  {
    hide IsChain;
    if r in s.requests && s.requests[r].Refreshing? {
      var q := s.requests[r];
      assert RequestSound(s, q);
      match Rotate(s.rows, q.hash, q.now, q.next, q.replacement).1
      case NotFound => DropRequestKeeps(s, r);
      case Replayed =>
        RevokeKeeps(s, s.rows[q.hash].family, q.now);
        DropRequestKeeps(s.(rows := RevokeFamily(s.rows, s.rows[q.hash].family, q.now)), r);
      case Rotated =>
        RotateKeepsChains(s, q);
        RotateKeepsRows(s, q);
        RotateKeepsRequests(s, r);
    }
  }

  lemma FinishRevokeKeeps(s: System, r: nat, now: int)
    requires Inv(s)
    ensures Inv(Apply(s, FinishRevoke(r, now)))
  {
    if r in s.requests && s.requests[r].Revoking? {
      RevokeKeeps(s, s.requests[r].family, now);
      DropRequestKeeps(s.(rows := RevokeFamily(s.rows, s.requests[r].family, now)), r);
    }
  }

  lemma StartRevokeKeeps(s: System, hash: nat)
    requires Inv(s)
    ensures Inv(Apply(s, StartRevoke(hash)))
  {
    hide IsChain;
  }

  lemma StepKeeps(s: System, action: Action)
    requires Inv(s)
    ensures Inv(Apply(s, action))
  {
    match action
    case Login(user, now) => LoginKeeps(s, user, now);
    case StartRefresh(hash, now) => StartRefreshKeeps(s, hash, now);
    case FinishRefresh(r) => FinishRefreshKeeps(s, r);
    case StartRevoke(hash) => StartRevokeKeeps(s, hash);
    case FinishRevoke(r, now) => FinishRevokeKeeps(s, r, now);
    case Abandon(r) => DropRequestKeeps(s, r);
  }

  lemma {:induction false} RunKeeps(s: System, actions: seq<Action>)
    requires Inv(s)
    ensures Inv(Run(s, actions))
    decreases |actions|
  {
    if actions != [] {
      RunKeeps(s, actions[..|actions| - 1]);
      StepKeeps(Run(s, actions[..|actions| - 1]), actions[|actions| - 1]);
    }
  }

  // ---------------------------------------------------------------- what holds in every run

  /**
   * In every run, the tokens of a family are exactly one chain through replacedBy, without a cycle; all but
   * the last are used, and the last is the only unused one.
   */
  lemma {:induction false} FamiliesAreChains(actions: seq<Action>, family: nat)
    requires family in Run(EMPTY, actions).chains
    ensures var s := Run(EMPTY, actions);
            var chain := s.chains[family];
            && IsChain(s.rows, family, chain)
            && (forall h :: h in s.rows && s.rows[h].family == family <==> h in chain)
            && (forall i, j :: 0 <= i < j < |chain| ==> chain[i] < chain[j])
            && (forall h :: h in chain && s.rows[h].used.None? <==> h == chain[|chain| - 1])
  {
    var s := Run(EMPTY, actions);
    RunKeeps(EMPTY, actions);
    var chain := s.chains[family];
    IncreasingChain(s.rows, family, chain);
    forall h | h in chain && s.rows[h].used.None? ensures h == chain[|chain| - 1] {
      UnusedIsLast(s.rows, family, chain, h);
    }
    assert Linked(s.rows, chain, |chain| - 1);
  }

  /** No token is rotated twice, however refreshes of it interleave. */
  lemma RotatedAtMostOnce(actions: seq<Action>)
    ensures var rotations := Run(EMPTY, actions).rotations;
            forall i, j :: 0 <= i < j < |rotations| ==> rotations[i] != rotations[j]
  {
    RunKeeps(EMPTY, actions);
  }

  ghost predicate Dead(s: System, family: nat) {
    family in s.chains && forall h :: h in s.rows && s.rows[h].family == family ==> s.rows[h].revoked.Some?
  }

  lemma RevokedMeansDead(s: System, family: nat, h: nat)
    requires Inv(s) && h in s.rows && s.rows[h].family == family && s.rows[h].revoked.Some?
    ensures Dead(s, family)
  {
    var chain := s.chains[family];
    forall g | g in s.rows && s.rows[g].family == family ensures s.rows[g].revoked.Some? {
      var i :| 0 <= i < |chain| && chain[i] == h;
      var j :| 0 <= j < |chain| && chain[j] == g;
      assert IsChain(s.rows, family, chain);
    }
  }

  lemma DeadStaysOnRefresh(s: System, r: nat, family: nat)
    requires Inv(s) && Dead(s, family)
    ensures Dead(FinishRefreshStep(s, r), family) && FinishRefreshStep(s, r).chains[family] == s.chains[family]
  {
    hide IsChain, RotationsSound;
    if r in s.requests && s.requests[r].Refreshing? {
      assert RequestSound(s, s.requests[r]);
    }
  }

  lemma DeadStays(s: System, action: Action, family: nat)
    requires Inv(s) && Dead(s, family)
    ensures Dead(Apply(s, action), family) && Apply(s, action).chains[family] == s.chains[family]
  {
    match action
    case FinishRefresh(r) => DeadStaysOnRefresh(s, r, family);
    case Login(_, _) => assert s.nextFamily !in s.chains && s.nextHash !in s.rows;
    case _ =>
  }

  /** Once a family is revoked it stays so: it never gets another token, and none of its tokens is usable. */
  lemma {:induction false} DeadForever(s: System, actions: seq<Action>, family: nat, h: nat, now: int)
    requires Inv(s) && Dead(s, family)
    ensures Dead(Run(s, actions), family) && Run(s, actions).chains[family] == s.chains[family]
    ensures h in Run(s, actions).rows && Run(s, actions).rows[h].family == family ==>
              !Usable(Run(s, actions).rows[h], now)
    decreases |actions|
  {
    if actions != [] {
      var init := actions[..|actions| - 1];
      DeadForever(s, init, family, h, now);
      RunKeeps(s, init);
      DeadStays(Run(s, init), actions[|actions| - 1], family);
    }
  }

  lemma {:induction false} RunAppend(s: System, first: seq<Action>, second: seq<Action>)
    ensures Run(s, first + second) == Run(Run(s, first), second)
    decreases |second|
  {
    if second == [] {
      assert first + second == first;
    } else {
      RunAppend(s, first, second[..|second| - 1]);
      assert (first + second)[..|first + second| - 1] == first + second[..|second| - 1];
    }
  }

  /**
   * In every run: once any token of a family is revoked, no token of that family is usable at any later
   * moment, and the family never gets another one.
   */
  lemma RevokedFamiliesStayDead(actions: seq<Action>, more: seq<Action>, revoked: nat, h: nat, now: int)
    requires revoked in Run(EMPTY, actions).rows && Run(EMPTY, actions).rows[revoked].revoked.Some?
    ensures var family := Run(EMPTY, actions).rows[revoked].family;
            var s := Run(EMPTY, actions + more);
            && family in s.chains && family in Run(EMPTY, actions).chains
            && s.chains[family] == Run(EMPTY, actions).chains[family]
            && (h in s.rows && s.rows[h].family == family ==> !Usable(s.rows[h], now))
  {
    var s := Run(EMPTY, actions);
    RunKeeps(EMPTY, actions);
    RevokedMeansDead(s, s.rows[revoked].family, revoked);
    DeadForever(s, more, s.rows[revoked].family, h, now);
    RunAppend(EMPTY, actions, more);
  }

  /** A replay ends the family: finishing a refresh of a token that is used by then revokes all of it. */
  lemma ReplayKills(s: System, r: nat)
    requires Inv(s) && r in s.requests && s.requests[r].Refreshing?
    requires s.rows[s.requests[r].hash].used.Some?
    ensures Dead(FinishRefreshStep(s, r), s.rows[s.requests[r].hash].family)
  {
    assert RequestSound(s, s.requests[r]);
  }

  /** A logout ends the family, whatever happened to it between the look-up and the update. */
  lemma LogoutKills(s: System, r: nat, now: int)
    requires Inv(s) && r in s.requests && s.requests[r].Revoking?
    ensures Dead(Apply(s, FinishRevoke(r, now)), s.requests[r].family)
  {
    assert RequestSound(s, s.requests[r]);
  }

  lemma RotationUses(s: System, q: nat)
    requires Inv(s) && q in s.requests && s.requests[q].Refreshing?
    requires |FinishRefreshStep(s, q).rotations| > |s.rotations|
    ensures var t, hash := FinishRefreshStep(s, q), s.requests[q].hash;
            && hash in s.rows && hash in t.rows
            && t.rows[hash].used.Some? && t.rows[hash].family == s.rows[hash].family
  {
    assert RequestSound(s, s.requests[q]);
  }

  /** Of two refreshes of one token that are under way together, the second to finish kills the family. */
  lemma SecondRefreshKills(s: System, q: nat, r: nat)
    requires Inv(s) && q in s.requests && r in s.requests && q != r
    requires s.requests[q].Refreshing? && s.requests[r].Refreshing? && s.requests[q].hash == s.requests[r].hash
    requires |FinishRefreshStep(s, q).rotations| > |s.rotations|
    ensures Dead(FinishRefreshStep(FinishRefreshStep(s, q), r), s.rows[s.requests[r].hash].family)
  {
    RotationUses(s, q);
    FinishRefreshKeeps(s, q);
    hide Inv, Dead;
    ReplayKills(FinishRefreshStep(s, q), r);
  }

  /** A refresh succeeds exactly when its token is usable at the time it carries. */
  lemma RefreshSucceedsIffUsable(s: System, r: nat)
    requires Inv(s) && r in s.requests && s.requests[r].Refreshing?
    ensures var q := s.requests[r];
            |FinishRefreshStep(s, r).rotations| > |s.rotations| <==> Usable(s.rows[q.hash], q.now)
    ensures var q := s.requests[r];
            Usable(s.rows[q.hash], q.now) && q.now < q.replacement.expires ==>
              Usable(FinishRefreshStep(s, r).rows[q.next], q.now)
  {
    assert RequestSound(s, s.requests[r]);
  }

  // ---------------------------------------------------------------- nobody else loses a token

  /** The action rotated this token, or finished a replay or a logout of this token's own family. */
  ghost predicate EndsItsUse(s: System, action: Action, h: nat)
    requires h in s.rows
  {
    match action
    case FinishRefresh(r) =>
      && r in s.requests && s.requests[r].Refreshing? && s.requests[r].hash in s.rows
      && (s.requests[r].hash == h ||
          (s.rows[s.requests[r].hash].used.Some? && s.rows[s.requests[r].hash].family == s.rows[h].family))
    case FinishRevoke(r, _) =>
      r in s.requests && s.requests[r].Revoking? && s.requests[r].family == s.rows[h].family
    case _ => false
  }

  /** The token is kept, and is only touched or spent by an action that may end its use. */
  ghost predicate KeptUnlessEnded(s: System, action: Action, h: nat, at: int)
    requires h in s.rows
  {
    var t := Apply(s, action);
    && h in t.rows && (t.rows[h] != s.rows[h] ==> EndsItsUse(s, action, h))
    && (Usable(s.rows[h], at) && !Usable(t.rows[h], at) ==> EndsItsUse(s, action, h))
  }

  lemma {:induction false} KeptByRefresh(s: System, r: nat, h: nat, at: int)
    requires Inv(s) && h in s.rows
    ensures KeptUnlessEnded(s, FinishRefresh(r), h, at)
  {
    hide IsChain, RotationsSound, Rotate;
    if r in s.requests && s.requests[r].Refreshing? {
      var q := s.requests[r];
      assert RequestSound(s, q);
      RotationOutcomes(s.rows, q.hash, q.now, q.next, q.replacement);
    }
  }

  lemma {:induction false} KeptByLogin(s: System, user: nat, now: int, h: nat, at: int)
    requires Inv(s) && h in s.rows
    ensures KeptUnlessEnded(s, Login(user, now), h, at)
  {
    hide IsChain, RotationsSound;
    assert s.nextHash !in s.rows;
  }

  lemma {:induction false} KeptByStep(s: System, action: Action, h: nat, at: int)
    requires Inv(s) && h in s.rows
    ensures KeptUnlessEnded(s, action, h, at)
  {
    hide Inv;
    match action
    case FinishRefresh(r) => KeptByRefresh(s, r, h, at);
    case Login(user, now) => KeptByLogin(s, user, now, h, at);
    case _ =>
  }

  /**
   * In every run a token stays as it is, and as usable as it is, unless an action rotates it or ends its own
   * family by a replay or a logout: what others do takes no token away.
   */
  lemma {:induction false} TokensAreLostToTheirOwnFamily(actions: seq<Action>, action: Action, h: nat, at: int)
    requires h in Run(EMPTY, actions).rows
    ensures var s := Run(EMPTY, actions);
            var t := Apply(s, action);
            && h in t.rows && (t.rows[h] != s.rows[h] ==> EndsItsUse(s, action, h))
            && (Usable(s.rows[h], at) && !Usable(t.rows[h], at) ==> EndsItsUse(s, action, h))
  {
    hide Run, Apply, Inv, EndsItsUse;
    assert Inv(Run(EMPTY, actions)) by {
      RunKeepsFromEmpty(actions);
    }
    KeptByStep(Run(EMPTY, actions), action, h, at);
  }

  lemma RunKeepsFromEmpty(actions: seq<Action>)
    ensures Inv(Run(EMPTY, actions))
  {
    RunKeeps(EMPTY, actions);
  }

  /** A logout asks for the family of its own token, ends it, and leaves every other family as it is. */
  lemma LogoutEndsItsFamily(s: System, hash: nat, now: int)
    requires hash in s.rows
    ensures var started := Apply(s, StartRevoke(hash));
            var t := Apply(started, FinishRevoke(s.nextRequest, now));
            && RevokedIn(s.rows, t.rows, s.rows[hash].family, now)
            && t.requests == s.requests - {s.nextRequest}
  {
  }

  /** A refresh without interference rotates its usable token for the same user, for seven days more. */
  lemma RefreshKeepsTheUser(s: System, hash: nat, now: int)
    requires hash in s.rows && s.nextHash !in s.rows && Usable(s.rows[hash], now)
    ensures var started := Apply(s, StartRefresh(hash, now));
            var t := Apply(started, FinishRefresh(s.nextRequest));
            && s.nextHash in t.rows
            && RotatedIn(s.rows, t.rows, hash, now, s.nextHash, t.rows[s.nextHash])
            && var u := t.rows[s.nextHash];
               && u.user == s.rows[hash].user && u.family == s.rows[hash].family
               && u.expires == now + 7 * 24 * 60 * 60 && Usable(u, now)
  {
  }

  /** A login starts a family of its own, with one token for the user. */
  lemma LoginStartsAFamily(s: System, user: nat, now: int)
    requires Inv(s)
    ensures var t := Apply(s, Login(user, now));
            && (forall h :: h in t.rows <==> h in s.rows || h == s.nextHash)
            && (forall h :: h in s.rows ==> t.rows[h] == s.rows[h])
            && t.rows[s.nextHash].user == user && t.rows[s.nextHash].expires == now + 7 * 24 * 60 * 60
            && Usable(t.rows[s.nextHash], now)
            && forall h :: h in s.rows ==> s.rows[h].family != t.rows[s.nextHash].family
  {
    forall h | h in s.rows ensures s.rows[h].family != s.nextFamily {
      assert s.rows[h].family in s.chains;
    }
  }

  /** The tokens of a family belong to one user, and so do those that requests under way will add to it. */
  ghost predicate OneUserEach(s: System) {
    && (forall g, h :: g in s.rows && h in s.rows && s.rows[g].family == s.rows[h].family ==>
          s.rows[g].user == s.rows[h].user)
    && forall r :: r in s.requests && s.requests[r].Refreshing? ==>
         s.requests[r].hash in s.rows && s.requests[r].replacement.family == s.rows[s.requests[r].hash].family &&
         s.requests[r].replacement.user == s.rows[s.requests[r].hash].user
  }

  /** Later rows have the users and families they had. */
  ghost predicate SameOwners(rows: Rows, after: Rows) {
    forall h :: h in rows ==> h in after && after[h].user == rows[h].user && after[h].family == rows[h].family
  }

  lemma {:induction false} RefreshKeepsOwners(s: System, r: nat)
    requires Inv(s) && OneUserEach(s)
    ensures OneUserEach(FinishRefreshStep(s, r))
  {
    hide ChainsSound, RotationsSound;
    if r in s.requests && s.requests[r].Refreshing? {
      var q := s.requests[r];
      assert RequestSound(s, q);
      var t := FinishRefreshStep(s, r);
      assert SameOwners(s.rows, t.rows);
      forall h | h in t.rows ensures h in s.rows || (h == q.next && t.rows[h] == q.replacement) {
      }
    }
  }

  lemma {:induction false} LoginKeepsOwners(s: System, user: nat, now: int)
    requires Inv(s) && OneUserEach(s)
    ensures OneUserEach(Apply(s, Login(user, now)))
  {
    LoginStartsAFamily(s, user, now);
    hide Inv;
    assert s.nextHash !in s.rows ==> SameOwners(s.rows, Apply(s, Login(user, now)).rows);
  }

  lemma {:induction false} RevokeKeepsOwners(s: System, r: nat, now: int)
    requires OneUserEach(s)
    ensures OneUserEach(Apply(s, FinishRevoke(r, now)))
  {
    if r in s.requests && s.requests[r].Revoking? {
      RevocationTouchesOneFamily(s.rows, s.requests[r].family, now);
      assert SameOwners(s.rows, Apply(s, FinishRevoke(r, now)).rows);
      hide RevokeFamily;
    }
  }

  lemma {:induction false} StepKeepsOwners(s: System, action: Action)
    requires Inv(s) && OneUserEach(s)
    ensures OneUserEach(Apply(s, action))
  {
    hide Inv;
    match action
    case Login(user, now) => LoginKeepsOwners(s, user, now);
    case FinishRefresh(r) => RefreshKeepsOwners(s, r);
    case FinishRevoke(r, now) => RevokeKeepsOwners(s, r, now);
    case _ =>
  }

  lemma {:induction false} RunKeepsOwners(actions: seq<Action>)
    ensures OneUserEach(Run(EMPTY, actions))
  {
    if actions != [] {
      var init, last := actions[..|actions| - 1], actions[|actions| - 1];
      RunKeepsOwners(init);
      RunKeeps(EMPTY, init);
      StepKeepsOwners(Run(EMPTY, init), last);
    }
  }

  /** In every run all tokens of a family belong to the user who logged in. */
  lemma FamiliesHaveOneUser(actions: seq<Action>, g: nat, h: nat)
    requires g in Run(EMPTY, actions).rows && h in Run(EMPTY, actions).rows
    requires Run(EMPTY, actions).rows[g].family == Run(EMPTY, actions).rows[h].family
    ensures Run(EMPTY, actions).rows[g].user == Run(EMPTY, actions).rows[h].user
  {
    RunKeepsOwners(actions);
  }

  // ---------------------------------------------------------------- the table in place

  class TokenStore {
    var rows: Rows

    constructor ()
      ensures rows == map[]
    {
      rows := map[];
    }

    method CreateRefreshToken(hash: nat, token: Token)
      requires hash !in rows
      modifies this
      ensures rows == old(rows)[hash := token]
    {
      rows := rows[hash := token];
    }

    method FindRefreshToken(hash: nat) returns (token: Option<Token>)
      ensures token == if hash in rows then Some(rows[hash]) else None
    {
      token := if hash in rows then Some(rows[hash]) else None;
    }

    method RevokeRefreshFamily(family: nat, now: int)
      modifies this
      ensures rows == RevokeFamily(old(rows), family, now) && RevokedIn(old(rows), rows, family, now)
    {
      var todo := rows.Keys;
      ghost var before := rows;
      while todo != {}
        invariant rows.Keys == before.Keys && todo <= before.Keys
        invariant forall h :: h in before ==>
                    rows[h] == if h in todo then before[h] else RevokedRow(before[h], family, now)
        decreases |todo|
      {
        var h :| h in todo;
        if rows[h].family == family && rows[h].revoked.None? {
          rows := rows[h := rows[h].(revoked := Some(now))];
        }
        todo := todo - {h};
      }
    }

    method RotateRefreshToken(hash: nat, now: int, next: nat, replacement: Token) returns (outcome: Outcome)
      requires next !in rows && next != hash
      modifies this
      ensures (rows, outcome) == Rotate(old(rows), hash, now, next, replacement)
      ensures outcome == Replayed ==> hash in old(rows) && RevokedIn(old(rows), rows, old(rows)[hash].family, now)
      ensures outcome == Rotated ==> hash in old(rows) && RotatedIn(old(rows), rows, hash, now, next, replacement)
      ensures outcome == NotFound ==> rows == old(rows)
    {
      if hash !in rows {
        return NotFound;
      }
      var token := rows[hash];
      if token.used.Some? {
        RevokeRefreshFamily(token.family, now);
        return Replayed;
      }
      if token.revoked.Some? || !(now < token.expires) {
        return NotFound;
      }
      rows := rows[hash := token.(used := Some(now), replacedBy := Some(next))];
      CreateRefreshToken(next, replacement);
      outcome := Rotated;
    }

    /**
     * A refresh without interference: look up, generate, rotate, then look up the user and sign. When that
     * last part fails, the old token is used up and nobody holds the new one.
     */
    method Refresh(hash: nat, now: int, next: nat, signed: bool) returns (outcome: Outcome, issued: Option<nat>)
      requires next !in rows && next != hash
      modifies this
      ensures outcome == Rotated <==> hash in old(rows) && Usable(old(rows)[hash], now)
      ensures issued == if outcome == Rotated && signed then Some(next) else None
      ensures outcome == Rotated ==> hash in rows && next in rows &&
                                     Usable(rows[next], now) && !Usable(rows[hash], now) &&
                                     rows[hash].replacedBy == Some(next) && rows[next].family == rows[hash].family
      ensures outcome == NotFound ==> rows == old(rows)
      ensures outcome == Rotated ==>
                && RotatedIn(old(rows), rows, hash, now, next, rows[next])
                && rows[next].user == old(rows)[hash].user && rows[next].expires == now + 7 * 24 * 60 * 60
      ensures outcome == Replayed ==> hash in old(rows) && RevokedIn(old(rows), rows, old(rows)[hash].family, now)
      ensures outcome == Replayed ==>
                hash in old(rows) && old(rows)[hash].used.Some? &&
                forall h :: h in rows && rows[h].family == old(rows)[hash].family ==> !Usable(rows[h], now)
    {
      var found := FindRefreshToken(hash);
      if found.None? {
        return NotFound, None;
      }
      outcome := RotateRefreshToken(hash, now, next, Fresh(found.value.family, found.value.user, now));
      issued := if outcome == Rotated && signed then Some(next) else None;
    }

    /** A logout without interference; an unknown token changes nothing. */
    method RevokeRefresh(hash: nat, now: int)
      modifies this
      ensures hash in old(rows) ==> RevokedIn(old(rows), rows, old(rows)[hash].family, now)
      ensures hash !in old(rows) ==> rows == old(rows)
    {
      var found := FindRefreshToken(hash);
      if found.None? {
        return;
      }
      RevokeRefreshFamily(found.value.family, now);
    }
  }
}
