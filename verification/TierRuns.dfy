/** How a desired tier moves: colder by the idle sweep, by request or by a node
    making room; warmer by a touch, by request or by traffic at its gateway. */
module TierRuns {
  import opened Wrappers
  import opened Tiers
  import opened Tables
  import opened Protocol
  import opened State
  import opened Reconcile
  import Egresses

  // ---- pauses -----------------------------------------------------------------------

  /** Seconds during which traffic does not undo a pause. */
  const EXPLICIT_TIER_HOLD := 15

  type Holds = map<string, int>

  predicate OnHold(held: Holds, id: string, now: int) {
    id in held && now - held[id] < EXPLICIT_TIER_HOLD
  }

  class Pauses {
    var held: Holds

    constructor ()
      ensures held == map[]
    {
      held := map[];
    }

    /** Late traffic is not to undo this pause; holds that ran out are dropped. */
    method Hold(id: string, now: int)
      modifies this
      ensures held == Unexpired(old(held), now)[id := now]
      ensures forall t :: OnHold(held, id, t) <==> t < now + 15
      ensures forall i, t :: i != id && now <= t ==> (OnHold(held, i, t) <==> OnHold(old(held), i, t))
      ensures forall i :: i in held ==> OnHold(held, i, now)
    {
      held := Unexpired(held, now)[id := now];
    }

    method Release(id: string)
      modifies this
      ensures held == old(held) - {id}
    {
      held := held - {id};
    }
  }

  function Unexpired(held: Holds, now: int): Holds {
    map i | i in held && OnHold(held, i, now) :: held[i]
  }

  // ---- the idle sweep ----------------------------------------------------------------

  /** Idle long enough to be looked at, and with a colder tier to go to. */
  predicate Candidate(row: SandboxRow, policy: IdlePolicy, now: int) {
    row.lastActiveAt <= now - policy.toFrozen && row.tier != Detached
  }

  /** The tier a sandbox's idleness has earned by `now`. */
  function Earned(row: SandboxRow, policy: IdlePolicy, now: int): Tier {
    policy.TierForIdle(if now > row.lastActiveAt then now - row.lastActiveAt else 0)
  }

  /** One step colder when its idleness earned it; rows are listed at `now` and idle
      times taken at `later`. */
  function Demoted(row: SandboxRow, policy: IdlePolicy, now: int, later: int): SandboxRow {
    if !Candidate(row, policy, now) then row
    else
      var want := Earned(row, policy, later);
      match row.tier.Colder()
      case None => row
      case Some(next) =>
        if next.Rank() <= want.Rank() && row.tier != want then row.(tier := next) else row
  }

  function Swept(sandboxes: Sandboxes, policy: IdlePolicy, now: int, later: int): Sandboxes {
    map s | s in sandboxes :: Demoted(sandboxes[s], policy, now, later)
  }

  predicate Candidates(sandboxes: Sandboxes, policy: IdlePolicy, now: int, ids: seq<string>) {
    && (forall i :: 0 <= i < |ids| ==> ids[i] in sandboxes && Candidate(sandboxes[ids[i]], policy, now))
    && (forall s :: s in sandboxes && Candidate(sandboxes[s], policy, now) ==> s in ids)
    && (forall i, j :: 0 <= i < j < |ids| ==> ids[i] != ids[j])
  }

  /** Sweeps the candidates in the order they are listed, and says which nodes to wake:
      those with a sandbox that moved. */
  method Sweep(store: Store, policy: IdlePolicy, ids: seq<string>, now: int, later: int) returns (woken: set<string>)
    requires Candidates(store.sandboxes, policy, now, ids)
    modifies store`sandboxes
    ensures store.sandboxes == Swept(old(store.sandboxes), policy, now, later)
    ensures forall n :: n in woken <==>
              exists s :: s in store.sandboxes && store.sandboxes[s].nodeId == n
                          && store.sandboxes[s].tier != old(store.sandboxes)[s].tier
  {
    hide Candidate, Earned, Demoted, SweptSome;
    ghost var before := store.sandboxes;
    woken := {};
    NoneSwept(before, policy, now, later);
    for i := 0 to |ids|
      invariant store.sandboxes == SweptSome(before, policy, now, later, ids[..i])
      invariant forall n :: n in woken <==> exists j :: 0 <= j < i && before[ids[j]].nodeId == n
                                                        && Moves(before[ids[j]], policy, now, later)
    {
      var id := ids[i];
      OneSwept(before, policy, now, later, ids[..i], id);
      assert ids[..i + 1] == ids[..i] + [id];
      var row := store.sandboxes[id];
      var want := Earned(row, policy, later);
      var colder := row.tier.Colder();
      if colder.Some? && colder.value.Rank() <= want.Rank() && row.tier != want {
        store.SetTier(id, colder.value);
        woken := woken + {row.nodeId};
      }
    }
    assert ids[..|ids|] == ids;
    AllSwept(before, policy, now, later, ids);
    WokenAre(before, policy, now, later, ids, woken);
  }

  lemma NoneSwept(sandboxes: Sandboxes, policy: IdlePolicy, now: int, later: int)
    ensures SweptSome(sandboxes, policy, now, later, []) == sandboxes
  {}

  lemma OneSwept(sandboxes: Sandboxes, policy: IdlePolicy, now: int, later: int, done: seq<string>, id: string)
    requires id in sandboxes && id !in done && Candidate(sandboxes[id], policy, now)
    ensures var some, row := SweptSome(sandboxes, policy, now, later, done), sandboxes[id];
            var want, colder := Earned(row, policy, later), row.tier.Colder();
            var moves := colder.Some? && colder.value.Rank() <= want.Rank() && row.tier != want;
            && id in some && some[id] == row
            && SweptSome(sandboxes, policy, now, later, done + [id])
               == (if moves then some[id := row.(tier := colder.value)] else some)
            && (moves <==> Moves(row, policy, now, later))
  {
    hide Candidate, Earned;
  }

  lemma WokenAre(sandboxes: Sandboxes, policy: IdlePolicy, now: int, later: int, ids: seq<string>, woken: set<string>)
    requires Candidates(sandboxes, policy, now, ids)
    requires forall n :: n in woken <==> exists j :: 0 <= j < |ids| && sandboxes[ids[j]].nodeId == n
                                                     && Moves(sandboxes[ids[j]], policy, now, later)
    ensures var after := Swept(sandboxes, policy, now, later);
            forall n :: n in woken <==>
              exists s :: s in after && after[s].nodeId == n && after[s].tier != sandboxes[s].tier
  {
    hide Demoted, Candidate, Swept, Candidates;
    var after := Swept(sandboxes, policy, now, later);
    assert after.Keys == sandboxes.Keys by { SweptRows(sandboxes, policy, now, later); }
    forall n
      ensures n in woken <==> exists s :: s in after && after[s].nodeId == n && after[s].tier != sandboxes[s].tier
    {
      WokenIs(sandboxes, policy, now, later, ids, n);
    }
  }

  lemma SweptRows(sandboxes: Sandboxes, policy: IdlePolicy, now: int, later: int)
    ensures Swept(sandboxes, policy, now, later).Keys == sandboxes.Keys
    ensures forall s :: s in sandboxes ==>
              && Swept(sandboxes, policy, now, later)[s].nodeId == sandboxes[s].nodeId
              && (Swept(sandboxes, policy, now, later)[s].tier != sandboxes[s].tier
                  <==> Moves(sandboxes[s], policy, now, later))
              && (Moves(sandboxes[s], policy, now, later) ==> Candidate(sandboxes[s], policy, now))
  {
    hide Earned;
  }

  lemma WokenIs(sandboxes: Sandboxes, policy: IdlePolicy, now: int, later: int, ids: seq<string>, n: string)
    requires Candidates(sandboxes, policy, now, ids)
    ensures var after := Swept(sandboxes, policy, now, later);
            && after.Keys == sandboxes.Keys
            && ((exists j :: 0 <= j < |ids| && sandboxes[ids[j]].nodeId == n
                             && Moves(sandboxes[ids[j]], policy, now, later))
                <==> exists s :: s in after && after[s].nodeId == n && after[s].tier != sandboxes[s].tier)
  {
    hide Moves, Swept, Candidate;
    var after := Swept(sandboxes, policy, now, later);
    SweptRows(sandboxes, policy, now, later);
    if exists s :: s in after && after[s].nodeId == n && after[s].tier != sandboxes[s].tier {
      var s :| s in after && after[s].nodeId == n && after[s].tier != sandboxes[s].tier;
      var j :| 0 <= j < |ids| && ids[j] == s;
      assert Moves(sandboxes[ids[j]], policy, now, later);
    }
    if exists j :: 0 <= j < |ids| && sandboxes[ids[j]].nodeId == n && Moves(sandboxes[ids[j]], policy, now, later) {
      var j :| 0 <= j < |ids| && sandboxes[ids[j]].nodeId == n && Moves(sandboxes[ids[j]], policy, now, later);
      assert after[ids[j]].nodeId == n;
    }
  }

  predicate Moves(row: SandboxRow, policy: IdlePolicy, now: int, later: int) {
    Demoted(row, policy, now, later).tier != row.tier
  }

  ghost function SweptSome(sandboxes: Sandboxes, policy: IdlePolicy, now: int, later: int, ids: seq<string>)
    : Sandboxes
  {
    map s | s in sandboxes :: if s in ids then Demoted(sandboxes[s], policy, now, later) else sandboxes[s]
  }

  lemma AllSwept(sandboxes: Sandboxes, policy: IdlePolicy, now: int, later: int, ids: seq<string>)
    requires Candidates(sandboxes, policy, now, ids)
    ensures SweptSome(sandboxes, policy, now, later, ids) == Swept(sandboxes, policy, now, later)
  {
    hide Earned;
  }

  // ---- what sweeps come to ---------------------------------------------------------------

  /** A sweep moves a sandbox at most one step, only colder, and never past the tier
      its idleness has earned. */
  lemma SweepIsOneStep(row: SandboxRow, policy: IdlePolicy, now: int, later: int)
    ensures var after := Demoted(row, policy, now, later);
            && after == row.(tier := after.tier)
            && row.tier.Rank() <= after.tier.Rank() <= row.tier.Rank() + 1
            && (after.tier != row.tier ==> after.tier.Rank() <= Earned(row, policy, later).Rank())
  {}

  /** Longer idle never earns a warmer tier, whatever order the thresholds are in. */
  lemma EarnedGrows(row: SandboxRow, policy: IdlePolicy, now: int, later: int)
    requires now <= later
    ensures Earned(row, policy, now).Rank() <= Earned(row, policy, later).Rank()
  {}

  /** Nothing is looked at before it could be frozen, so no other tier may be earned
      before that. */
  predicate Ordered(policy: IdlePolicy) {
    policy.toFrozen <= policy.toSnapshot && policy.toFrozen <= policy.toDetached
  }

  /** Three sweeps in turn: when each lists its rows, and when it takes idle times. */
  datatype Sweeps = Sweeps(listed1: int, timed1: int, listed2: int, timed2: int, listed3: int, timed3: int) {
    predicate InOrder() {
      listed1 <= timed1 <= listed2 <= timed2 <= listed3 <= timed3
    }
  }

  function ThriceDemoted(row: SandboxRow, policy: IdlePolicy, t: Sweeps): SandboxRow {
    Demoted(Demoted(Demoted(row, policy, t.listed1, t.timed1), policy, t.listed2, t.timed2),
            policy, t.listed3, t.timed3)
  }

  function ThriceSwept(sandboxes: Sandboxes, policy: IdlePolicy, t: Sweeps): Sandboxes {
    Swept(Swept(Swept(sandboxes, policy, t.listed1, t.timed1), policy, t.listed2, t.timed2),
          policy, t.listed3, t.timed3)
  }

  /** At least as cold as its idleness had earned when the first sweep began, and no
      colder than it had by the end of the last, unless it was so before. */
  predicate Reached(row: SandboxRow, after: SandboxRow, policy: IdlePolicy, t: Sweeps) {
    && after == row.(tier := after.tier)
    && Earned(row, policy, t.listed1).Rank() <= after.tier.Rank()
    && (after.tier.Rank() <= row.tier.Rank() || after.tier.Rank() <= Earned(row, policy, t.timed3).Rank())
  }

  ghost predicate AllReached(sandboxes: Sandboxes, policy: IdlePolicy, t: Sweeps) {
    var after := ThriceSwept(sandboxes, policy, t);
    && after.Keys == sandboxes.Keys
    && forall s :: s in sandboxes && sandboxes[s].lastActiveAt <= t.listed1 ==>
         Reached(sandboxes[s], after[s], policy, t)
  }

  /** Of every store, and whenever the three sweeps come. */
  ghost predicate ThreeSuffice(policy: IdlePolicy) {
    forall sandboxes: Sandboxes, t: Sweeps :: t.InOrder() ==> AllReached(sandboxes, policy, t)
  }

  /** One sweep in order: a step colder when less than was earned by then, and else
      nothing. */
  lemma SweepStep(row: SandboxRow, policy: IdlePolicy, now: int, later: int)
    requires row.lastActiveAt <= now - policy.toFrozen && now <= later
    ensures var after, want := Demoted(row, policy, now, later), Earned(row, policy, later);
            && after == row.(tier := after.tier)
            && (forall t :: Earned(after, policy, t) == Earned(row, policy, t))
            && after.tier.Rank() == (if row.tier.Rank() < want.Rank() then row.tier.Rank() + 1 else row.tier.Rank())
  {}

  lemma NotYetFrozen(row: SandboxRow, policy: IdlePolicy, now: int)
    requires Ordered(policy) && row.lastActiveAt <= now && row.lastActiveAt > now - policy.toFrozen
    ensures Earned(row, policy, now) == Hot
  {}

  lemma ThreeSweepsReach(row: SandboxRow, policy: IdlePolicy, t: Sweeps)
    requires Ordered(policy) && t.InOrder() && row.lastActiveAt <= t.listed1
    ensures Reached(row, ThriceDemoted(row, policy, t), policy, t)
  {
    var one := Demoted(row, policy, t.listed1, t.timed1);
    var two := Demoted(one, policy, t.listed2, t.timed2);
    EarnedGrows(row, policy, t.listed1, t.timed1);
    EarnedGrows(row, policy, t.timed1, t.timed2);
    EarnedGrows(row, policy, t.timed2, t.timed3);
    if row.lastActiveAt <= t.listed1 - policy.toFrozen {
      SweepStep(row, policy, t.listed1, t.timed1);
      SweepStep(one, policy, t.listed2, t.timed2);
      SweepStep(two, policy, t.listed3, t.timed3);
      hide Earned, Demoted;
    } else {
      NotYetFrozen(row, policy, t.listed1);
      SweepIsOneStep(row, policy, t.listed1, t.timed1);
      SweepIsOneStep(one, policy, t.listed2, t.timed2);
      SweepIsOneStep(two, policy, t.listed3, t.timed3);
      hide Demoted;
    }
  }

  lemma ThriceRows(sandboxes: Sandboxes, policy: IdlePolicy, t: Sweeps)
    ensures ThriceSwept(sandboxes, policy, t).Keys == sandboxes.Keys
    ensures forall s :: s in sandboxes ==>
              ThriceSwept(sandboxes, policy, t)[s] == ThriceDemoted(sandboxes[s], policy, t)
  {
    hide Demoted;
  }

  /** Three sweeps, however far apart, bring every sandbox left alone to the tier its
      idleness earned -- or leave it colder -- exactly when nothing is earned sooner
      than freezing. */
  lemma ThreeSufficeIffOrdered(policy: IdlePolicy)
    ensures ThreeSuffice(policy) <==> Ordered(policy)
  {
    hide Reached, ThriceDemoted, ThriceSwept;
    if Ordered(policy) {
      forall sandboxes: Sandboxes, t: Sweeps | t.InOrder()
        ensures AllReached(sandboxes, policy, t)
      {
        ThriceRows(sandboxes, policy, t);
        forall s | s in sandboxes && sandboxes[s].lastActiveAt <= t.listed1
          ensures Reached(sandboxes[s], ThriceSwept(sandboxes, policy, t)[s], policy, t)
        {
          ThreeSweepsReach(sandboxes[s], policy, t);
        }
      }
    }
    if ThreeSuffice(policy) {
      var early := if policy.toSnapshot < policy.toFrozen then policy.toSnapshot else policy.toDetached;
      var t := Sweeps(early, early, early, early, early, early);
      var row := SandboxRow("", "", "", Hot, "", None, None, 0, 0, None, 0, None, None, None, None, None,
                            Egresses.CLOSED);
      var store: Sandboxes := map["" := row];
      ThriceRows(store, policy, t);
      assert t.InOrder() && AllReached(store, policy, t);
      assert store[""].lastActiveAt <= t.listed1;
      assert Reached(row, ThriceDemoted(row, policy, t), policy, t);
      NeverLooked(row, policy, t, early);
    }
  }

  /** A tier earned before freezing is not reached: the sweep does not look. */
  lemma NeverLooked(row: SandboxRow, policy: IdlePolicy, t: Sweeps, early: nat)
    requires row.tier == Hot && row.lastActiveAt == 0 && t == Sweeps(early, early, early, early, early, early)
    requires early == policy.toSnapshot || early == policy.toDetached
    ensures early < policy.toFrozen ==> !Reached(row, ThriceDemoted(row, policy, t), policy, t)
  {}

  /** The idleness has reached this tier's threshold or a colder one's. */
  predicate LongEnough(policy: IdlePolicy, to: Tier, idle: int) {
    match to
    case Hot => true
    case Frozen => idle >= policy.toFrozen || idle >= policy.toSnapshot || idle >= policy.toDetached
    case Snapshot => idle >= policy.toSnapshot || idle >= policy.toDetached
    case Detached => idle >= policy.toDetached
  }

  /** One step colder: from memory to frozen, to disk, to detached. */
  predicate NextColder(from: Tier, to: Tier) {
    || (from == Hot && to == Frozen)
    || (from == Frozen && to == Snapshot)
    || (from == Snapshot && to == Detached)
  }

  /** Whatever order the thresholds are in, a sweep moves a sandbox exactly when it has been
      idle long enough to be looked at, and to the next colder tier exactly when it has
      been idle long enough for that one or a colder one. */
  lemma SweepMoves(row: SandboxRow, policy: IdlePolicy, now: int, later: int, to: Tier)
    requires now <= later && to != row.tier
    ensures Demoted(row, policy, now, later).tier == to <==>
              && now - row.lastActiveAt >= policy.toFrozen
              && NextColder(row.tier, to) && LongEnough(policy, to, later - row.lastActiveAt)
  {}

  /** What three sweeps at one moment make of a sandbox that was running, when the
      thresholds are in order: the tier whose threshold its idleness is the last to have
      reached. */
  lemma SweepsSettle(row: SandboxRow, policy: IdlePolicy, now: int)
    requires policy.toFrozen <= policy.toSnapshot <= policy.toDetached && row.tier == Hot
    ensures var idle, tier := now - row.lastActiveAt,
                              ThriceDemoted(row, policy, Sweeps(now, now, now, now, now, now)).tier;
            && (tier == Detached <==> policy.toDetached <= idle)
            && (tier == Snapshot <==> policy.toSnapshot <= idle < policy.toDetached)
            && (tier == Frozen <==> policy.toFrozen <= idle < policy.toSnapshot)
            && (tier == Hot <==> idle < policy.toFrozen)
  {
    var one := Demoted(row, policy, now, now);
    var two := Demoted(one, policy, now, now);
    forall r: SandboxRow, to: Tier | to != r.tier
      ensures Demoted(r, policy, now, now).tier == to <==>
                && now - r.lastActiveAt >= policy.toFrozen
                && NextColder(r.tier, to) && LongEnough(policy, to, now - r.lastActiveAt)
    {
      SweepMoves(r, policy, now, now, to);
    }
    SweepIsOneStep(row, policy, now, now);
    SweepIsOneStep(one, policy, now, now);
    SweepIsOneStep(two, policy, now, now);
    hide Demoted;
  }

  // ---- traffic and evictions ----------------------------------------------------------------

  /** The report shows the sandbox running. */
  predicate Serving(observed: seq<Observed>, id: string) {
    exists i :: 0 <= i < |observed| && observed[i].id == id && observed[i].tier == Hot
  }

  /** Its holder forwarded a request to it: it was used, and unless it is just paused,
      one the same report shows running is wanted so. */
  function Used(sandboxes: Sandboxes, held: Holds, req: PollRequest, id: string, now: int): Sandboxes {
    if id !in sandboxes || sandboxes[id].nodeId != req.nodeId then sandboxes
    else
      var row := sandboxes[id].(lastActiveAt := now);
      sandboxes[id := if Serving(req.observed, id) && row.tier != Hot && !OnHold(held, id, now)
                      then row.(tier := Hot) else row]
  }

  function AllUsed(sandboxes: Sandboxes, held: Holds, req: PollRequest, ids: seq<string>, now: int): Sandboxes {
    if ids == [] then sandboxes
    else Used(AllUsed(sandboxes, held, req, ids[..|ids| - 1], now), held, req, ids[|ids| - 1], now)
  }

  method ApplyTraffic(store: Store, pauses: Pauses, req: PollRequest, now: int)
    modifies store`sandboxes
    ensures store.sandboxes == AllUsed(old(store.sandboxes), pauses.held, req, req.traffic, now)
  {
    ghost var before := store.sandboxes;
    for k := 0 to |req.traffic|
      invariant store.sandboxes == AllUsed(before, pauses.held, req, req.traffic[..k], now)
    {
      assert req.traffic[..k + 1][..k] == req.traffic[..k];
      var id := req.traffic[k];
      if id in store.sandboxes && store.sandboxes[id].nodeId == req.nodeId {
        var was := store.sandboxes[id].tier;
        store.Touch(id, now);
        if Serving(req.observed, id) && was != Hot && !OnHold(pauses.held, id, now) {
          store.SetTier(id, Hot);
        }
      }
    }
    assert req.traffic[..|req.traffic|] == req.traffic;
  }

  /** Its holder put it to disk to make room: the colder tier observed is wanted. */
  function Evicted(sandboxes: Sandboxes, req: PollRequest, id: string): Sandboxes {
    if id !in sandboxes || sandboxes[id].nodeId != req.nodeId then sandboxes
    else
      match Seen(req.observed, id)
      case None => sandboxes
      case Some(got) =>
        if Warmer(sandboxes[id].tier, got.tier) then sandboxes[id := sandboxes[id].(tier := got.tier)] else sandboxes
  }

  function AllEvicted(sandboxes: Sandboxes, req: PollRequest, ids: seq<string>): Sandboxes {
    if ids == [] then sandboxes
    else Evicted(AllEvicted(sandboxes, req, ids[..|ids| - 1]), req, ids[|ids| - 1])
  }

  method ApplyEvictions(store: Store, req: PollRequest)
    modifies store`sandboxes
    ensures store.sandboxes == AllEvicted(old(store.sandboxes), req, req.evicted)
  {
    ghost var before := store.sandboxes;
    for k := 0 to |req.evicted|
      invariant store.sandboxes == AllEvicted(before, req, req.evicted[..k])
    {
      assert req.evicted[..k + 1][..k] == req.evicted[..k];
      var id := req.evicted[k];
      if id in store.sandboxes && store.sandboxes[id].nodeId == req.nodeId {
        var seen := Seen(req.observed, id);
        if seen.Some? && Warmer(store.sandboxes[id].tier, seen.value.tier) {
          store.SetTier(id, seen.value.tier);
        }
      }
    }
    assert req.evicted[..|req.evicted|] == req.evicted;
  }

  // ---- one row at a time -----------------------------------------------------------------------

  /** What traffic leaves of a row. */
  function UsedRow(row: SandboxRow, held: Holds, req: PollRequest, id: string, now: int): SandboxRow {
    if id !in req.traffic || row.nodeId != req.nodeId then row
    else
      row.(lastActiveAt := now,
           tier := if Serving(req.observed, id) && !OnHold(held, id, now) then Hot else row.tier)
  }

  function EvictedRow(row: SandboxRow, req: PollRequest, id: string): SandboxRow {
    if id !in req.evicted || row.nodeId != req.nodeId then row
    else
      match Seen(req.observed, id)
      case None => row
      case Some(got) => if Warmer(row.tier, got.tier) then row.(tier := got.tier) else row
  }

  lemma {:induction false} AllUsedAt(sandboxes: Sandboxes, held: Holds, req: PollRequest, ids: seq<string>, now: int,
                                     id: string)
    requires id in sandboxes
    ensures var after := AllUsed(sandboxes, held, req, ids, now);
            && after.Keys == sandboxes.Keys
            && after[id] == UsedRow(sandboxes[id], held, req.(traffic := ids), id, now)
    decreases |ids|
  {
    hide Serving, OnHold;
    if ids != [] {
      var k := |ids| - 1;
      AllUsedAt(sandboxes, held, req, ids[..k], now, id);
      assert ids == ids[..k] + [ids[k]];
    }
  }

  lemma {:induction false} AllEvictedAt(sandboxes: Sandboxes, req: PollRequest, ids: seq<string>, id: string)
    requires id in sandboxes
    ensures var after := AllEvicted(sandboxes, req, ids);
            && after.Keys == sandboxes.Keys
            && after[id] == EvictedRow(sandboxes[id], req.(evicted := ids), id)
    decreases |ids|
  {
    hide Seen;
    if ids != [] {
      var k := |ids| - 1;
      AllEvictedAt(sandboxes, req, ids[..k], id);
      assert ids == ids[..k] + [ids[k]];
    }
  }

  /** The store after the traffic and then the evictions of a report. */
  function Reported(sandboxes: Sandboxes, held: Holds, req: PollRequest, now: int): (r: Sandboxes)
    ensures r.Keys == sandboxes.Keys
  {
    KeysKept(sandboxes, held, req, now);
    AllEvicted(AllUsed(sandboxes, held, req, req.traffic, now), req, req.evicted)
  }

  function ReportedRow(row: SandboxRow, held: Holds, req: PollRequest, id: string, now: int): SandboxRow {
    EvictedRow(UsedRow(row, held, req, id, now), req, id)
  }

  lemma ReportedAt(sandboxes: Sandboxes, held: Holds, req: PollRequest, now: int, id: string)
    requires id in sandboxes
    ensures Reported(sandboxes, held, req, now).Keys == sandboxes.Keys
    ensures Reported(sandboxes, held, req, now)[id] == ReportedRow(sandboxes[id], held, req, id, now)
  {
    hide UsedRow, EvictedRow;
    AllUsedAt(sandboxes, held, req, req.traffic, now, id);
    AllEvictedAt(AllUsed(sandboxes, held, req, req.traffic, now), req, req.evicted, id);
    assert req.(traffic := req.traffic) == req && req.(evicted := req.evicted) == req;
  }

  lemma ServingIsSeen(observed: seq<Observed>, id: string)
    requires UniqueIds(observed)
    ensures Serving(observed, id) <==> Seen(observed, id).Some? && Seen(observed, id).value.tier == Hot
  {
    hide Seen;
    SeenIs(observed, id);
    if Serving(observed, id) {
      var i :| 0 <= i < |observed| && observed[i].id == id && observed[i].tier == Hot;
      SeenUnique(observed, i);
    }
    if Seen(observed, id).Some? {
      var i :| 0 <= i < |observed| && observed[i] == Seen(observed, id).value;
    }
  }

  /** The traffic and the evictions of one report can be taken in either order. */
  lemma TrafficAndEvictionsCommute(sandboxes: Sandboxes, held: Holds, req: PollRequest, now: int)
    requires UniqueIds(req.observed)
    ensures AllEvicted(AllUsed(sandboxes, held, req, req.traffic, now), req, req.evicted)
         == AllUsed(AllEvicted(sandboxes, req, req.evicted), held, req, req.traffic, now)
  {
    hide UsedRow, EvictedRow, AllUsed, AllEvicted, UniqueIds;
    var a := AllEvicted(AllUsed(sandboxes, held, req, req.traffic, now), req, req.evicted);
    var evicted := AllEvicted(sandboxes, req, req.evicted);
    var b := AllUsed(evicted, held, req, req.traffic, now);
    KeysKept(sandboxes, held, req, now);
    forall id | id in sandboxes
      ensures a[id] == b[id]
    {
      ReportedAt(sandboxes, held, req, now, id);
      AllEvictedAt(sandboxes, req, req.evicted, id);
      AllUsedAt(evicted, held, req, req.traffic, now, id);
      assert req.(traffic := req.traffic) == req && req.(evicted := req.evicted) == req;
      RowCommutes(sandboxes[id], held, req, id, now);
    }
  }

  lemma KeysKept(sandboxes: Sandboxes, held: Holds, req: PollRequest, now: int)
    ensures AllEvicted(AllUsed(sandboxes, held, req, req.traffic, now), req, req.evicted).Keys == sandboxes.Keys
    ensures AllUsed(AllEvicted(sandboxes, req, req.evicted), held, req, req.traffic, now).Keys == sandboxes.Keys
  {
    UsedKeys(sandboxes, held, req, req.traffic, now);
    UsedKeys(AllEvicted(sandboxes, req, req.evicted), held, req, req.traffic, now);
    EvictedKeys(sandboxes, req, req.evicted);
    EvictedKeys(AllUsed(sandboxes, held, req, req.traffic, now), req, req.evicted);
  }

  lemma {:induction false} UsedKeys(sandboxes: Sandboxes, held: Holds, req: PollRequest, ids: seq<string>, now: int)
    ensures AllUsed(sandboxes, held, req, ids, now).Keys == sandboxes.Keys
    decreases |ids|
  {
    if ids != [] {
      UsedKeys(sandboxes, held, req, ids[..|ids| - 1], now);
    }
  }

  lemma {:induction false} EvictedKeys(sandboxes: Sandboxes, req: PollRequest, ids: seq<string>)
    ensures AllEvicted(sandboxes, req, ids).Keys == sandboxes.Keys
    decreases |ids|
  {
    if ids != [] {
      EvictedKeys(sandboxes, req, ids[..|ids| - 1]);
    }
  }

  lemma RowCommutes(row: SandboxRow, held: Holds, req: PollRequest, id: string, now: int)
    requires UniqueIds(req.observed)
    ensures EvictedRow(UsedRow(row, held, req, id, now), req, id)
         == UsedRow(EvictedRow(row, req, id), held, req, id, now)
  {
    hide Seen, Serving, UniqueIds, OnHold;
    ServingIsSeen(req.observed, id);
  }

  /** A tier a report moved is the tier it observed, so the diff that follows asks for
      no change of it: what was just woken or just evicted is not sent straight back. */
  lemma DiffNeverBounces(src: Source, before: Sandboxes, held: Holds, req: PollRequest, ids: seq<string>, id: string,
                         now: int, later: int, c: Command)
    requires UniqueIds(req.observed) && id in before
    requires src.sandboxes.Keys == before.Keys && SameWish(src.sandboxes[id], Reported(before, held, req, now)[id])
    requires src.sandboxes[id].tier != before[id].tier
    requires c in Asks(src, req.observed, id, req.nodeId, later)
    ensures !c.SetTier?
  {
    hide Seen, Serving, UniqueIds, OnHold, FetchOf, Reported;
    ReportedAt(before, held, req, now, id);
    ServingIsSeen(req.observed, id);
  }

  /** What a report makes of a row: one its holder names as used is used now, and one it
      also shows running and nobody just paused is wanted so; one it names as evicted and
      shows colder than wanted is wanted there. Nothing else of it moves. */
  lemma ReportMoves(sandboxes: Sandboxes, held: Holds, req: PollRequest, now: int, id: string)
    requires UniqueIds(req.observed) && id in sandboxes
    ensures id in Reported(sandboxes, held, req, now)
    ensures var was, row := sandboxes[id], Reported(sandboxes, held, req, now)[id];
            var used := was.nodeId == req.nodeId && id in req.traffic;
            var evicted := was.nodeId == req.nodeId && id in req.evicted;
            && row == was.(tier := row.tier, lastActiveAt := if used then now else was.lastActiveAt)
            && (used && Shows(req, id, Hot) && !(id in held && now < held[id] + 15) ==> row.tier == Hot)
            && (evicted && was.tier == Hot ==>
                  forall t :: Shows(req, id, t) ==> row.tier == t)
            && (evicted && was.tier == Frozen ==>
                  forall t :: Shows(req, id, t) && (t == Snapshot || t == Detached) ==> row.tier == t)
            && (evicted && was.tier == Snapshot && Shows(req, id, Detached) ==> row.tier == Detached)
            && (row.tier != was.tier ==>
                  || (row.tier == Hot && used && Shows(req, id, Hot) && !(id in held && now < held[id] + 15))
                  || (evicted && Shows(req, id, row.tier) && Warmer(was.tier, row.tier)))
  {
    hide Seen, Serving, UniqueIds, OnHold, Reported;
    ReportedAt(sandboxes, held, req, now, id);
    ServingIsSeen(req.observed, id);
    HoldIsFifteen(held, id, now);
    forall t
      ensures Shows(req, id, t) <==> Seen(req.observed, id).Some? && Seen(req.observed, id).value.tier == t
    {
      ShowsIsSeen(req, id, t);
    }
  }

  predicate Shows(req: PollRequest, id: string, t: Tier) {
    exists i :: 0 <= i < |req.observed| && req.observed[i].id == id && req.observed[i].tier == t
  }

  lemma ShowsIsSeen(req: PollRequest, id: string, t: Tier)
    requires UniqueIds(req.observed)
    ensures Shows(req, id, t) <==> Seen(req.observed, id).Some? && Seen(req.observed, id).value.tier == t
  {
    hide Seen;
    SeenIs(req.observed, id);
    if Shows(req, id, t) {
      var i :| 0 <= i < |req.observed| && req.observed[i].id == id && req.observed[i].tier == t;
      SeenUnique(req.observed, i);
    }
    if Seen(req.observed, id).Some? {
      var i :| 0 <= i < |req.observed| && req.observed[i] == Seen(req.observed, id).value;
    }
  }

  lemma HoldIsFifteen(held: Holds, id: string, now: int)
    ensures OnHold(held, id, now) <==> id in held && now < held[id] + 15
  {}

  // ---- whole runs ------------------------------------------------------------------------------------

  datatype Event =
    | Touch(id: string)
    | Ask(id: string, tier: Tier)
    | Pause(id: string)
    | BringBack(id: string)
    | Report(req: PollRequest)
    | Idle(policy: IdlePolicy)

  datatype Timed = Timed(event: Event, at: int)

  datatype House = House(sandboxes: Sandboxes, held: Holds)

  function WithTier(sandboxes: Sandboxes, id: string, tier: Tier, now: int): Sandboxes {
    if id !in sandboxes then sandboxes
    else if tier == Hot then sandboxes[id := sandboxes[id].(tier := Hot, lastActiveAt := now)]
    else sandboxes[id := sandboxes[id].(tier := tier)]
  }

  /** Paused is a tier with nothing running. */
  predicate IsPaused(t: Tier) {
    t == Snapshot || t == Detached
  }

  function Step(h: House, e: Timed): House {
    match e.event
    case Touch(id) => h.(sandboxes := WithTier(h.sandboxes, id, Hot, e.at))
    case Ask(id, tier) => h.(sandboxes := WithTier(h.sandboxes, id, tier, e.at))
    case Pause(id) =>
      if id !in h.sandboxes || IsPaused(h.sandboxes[id].tier) then h
      else House(WithTier(h.sandboxes, id, Snapshot, e.at), Unexpired(h.held, e.at)[id := e.at])
    case BringBack(id) => House(WithTier(h.sandboxes, id, Hot, e.at), h.held - {id})
    case Report(req) => h.(sandboxes := Reported(h.sandboxes, h.held, req, e.at))
    case Idle(policy) => h.(sandboxes := Swept(h.sandboxes, policy, e.at, e.at))
  }

  // ---- the handlers --------------------------------------------------------------------------------

  function HouseOf(store: Store, pauses: Pauses): House
    reads store`sandboxes, pauses
  {
    House(store.sandboxes, pauses.held)
  }

  /** Of these rows only `id`'s changed, if it is there: it is wanted at this tier, and was
      used at this time if one is given. */
  predicate OnlyRow(before: Sandboxes, after: Sandboxes, id: string, tier: Tier, used: Option<int>) {
    && after.Keys == before.Keys
    && (forall s :: s in before && s != id ==> after[s] == before[s])
    && (id in before ==>
          after[id] == before[id].(tier := tier,
                                   lastActiveAt := if used.Some? then used.value else before[id].lastActiveAt))
  }

  /** Marks a sandbox used and wanted running; its node is woken when it was not. */
  method TouchSandbox(store: Store, pauses: Pauses, id: string, now: int) returns (wake: Option<string>)
    modifies store`sandboxes
    ensures HouseOf(store, pauses) == Step(old(HouseOf(store, pauses)), Timed(Touch(id), now))
    ensures OnlyRow(old(store.sandboxes), store.sandboxes, id, Hot, Some(now))
    ensures wake.Some? <==> id in old(store.sandboxes) && old(store.sandboxes)[id].tier != Hot
    ensures wake.Some? ==> wake.value == old(store.sandboxes)[id].nodeId
  {
    wake := None;
    if id in store.sandboxes {
      var row := store.sandboxes[id];
      store.Touch(id, now);
      if row.tier != Hot {
        store.SetTier(id, Hot);
        wake := Some(row.nodeId);
      }
    }
  }

  /** Asks for a tier directly. */
  method RequestTier(store: Store, pauses: Pauses, id: string, tier: Tier, now: int) returns (wake: Option<string>)
    modifies store`sandboxes
    ensures HouseOf(store, pauses) == Step(old(HouseOf(store, pauses)), Timed(Ask(id, tier), now))
    ensures OnlyRow(old(store.sandboxes), store.sandboxes, id, tier, if tier == Hot then Some(now) else None)
    ensures wake == if id in old(store.sandboxes) then Some(old(store.sandboxes)[id].nodeId) else None
  {
    if id !in store.sandboxes {
      return None;
    }
    store.SetTier(id, tier);
    if tier == Hot {
      store.Touch(id, now);
    }
    wake := Some(store.sandboxes[id].nodeId);
  }

  /** Pauses a sandbox: on hold first, then asked to disk. One already paused is refused. */
  method PauseSandbox(store: Store, pauses: Pauses, id: string, now: int) returns (ok: bool)
    modifies store`sandboxes, pauses
    ensures HouseOf(store, pauses) == Step(old(HouseOf(store, pauses)), Timed(Pause(id), now))
    ensures ok <==> id in old(store.sandboxes) && old(store.sandboxes)[id].tier != Snapshot
                    && old(store.sandboxes)[id].tier != Detached
    ensures ok ==> OnlyRow(old(store.sandboxes), store.sandboxes, id, Snapshot, None)
    ensures ok ==> forall t :: OnHold(pauses.held, id, t) <==> t < now + 15
    ensures !ok ==> store.sandboxes == old(store.sandboxes) && pauses.held == old(pauses.held)
  {
    ok := id in store.sandboxes && !IsPaused(store.sandboxes[id].tier);
    if ok {
      pauses.Hold(id, now);
      var wake := RequestTier(store, pauses, id, Snapshot, now);
    }
  }

  /** The pause undone: its hold is dropped and the sandbox wanted running. */
  method BringBackSandbox(store: Store, pauses: Pauses, id: string, now: int)
    modifies store`sandboxes, pauses
    ensures HouseOf(store, pauses) == Step(old(HouseOf(store, pauses)), Timed(BringBack(id), now))
    ensures OnlyRow(old(store.sandboxes), store.sandboxes, id, Hot, Some(now))
    ensures id !in pauses.held && forall i :: i != id ==> (i in pauses.held <==> i in old(pauses.held))
  {
    pauses.Release(id);
    var wake := TouchSandbox(store, pauses, id, now);
  }

  /** A report's traffic, then its evictions. */
  method ReportTiers(store: Store, pauses: Pauses, req: PollRequest, now: int)
    modifies store`sandboxes
    ensures HouseOf(store, pauses) == Step(old(HouseOf(store, pauses)), Timed(Report(req), now))
  {
    ApplyTraffic(store, pauses, req, now);
    ApplyEvictions(store, req);
  }

  /** Who may ask for a warmer tier: a touch or a request for it, or a report from its
      holder that shows it running, unless it was just paused. */
  predicate MayWarm(h: House, e: Timed, id: string)
    requires id in h.sandboxes
  {
    match e.event
    case Touch(i) => i == id
    case Ask(i, tier) => i == id
    case BringBack(i) => i == id
    case Report(req) =>
      && req.nodeId == h.sandboxes[id].nodeId && id in req.traffic && Serving(req.observed, id)
      && !OnHold(h.held, id, e.at)
    case _ => false
  }

  /** Who may ask for a colder one: a request, a pause, its holder that evicted it and
      holds it there, or the sweep, by one step and not past what its idleness earned. */
  predicate MayCool(h: House, e: Timed, id: string, to: Tier)
    requires id in h.sandboxes
  {
    match e.event
    case Ask(i, tier) => i == id && tier == to
    case Pause(i) => i == id && to == Snapshot
    case Report(req) =>
      && req.nodeId == h.sandboxes[id].nodeId && id in req.evicted
      && Seen(req.observed, id).Some? && Seen(req.observed, id).value.tier == to
    case Idle(policy) =>
      && h.sandboxes[id].tier.Colder() == Some(to)
      && to.Rank() <= Earned(h.sandboxes[id], policy, e.at).Rank()
    case _ => false
  }

  /** Every way a desired tier moves. */
  lemma EveryMove(h: House, e: Timed, id: string)
    requires id in h.sandboxes && (e.event.Report? ==> UniqueIds(e.event.req.observed))
    ensures id in Step(h, e).sandboxes
    ensures var from, to := h.sandboxes[id].tier, Step(h, e).sandboxes[id].tier;
            && (Warmer(to, from) ==> MayWarm(h, e, id))
            && (Warmer(from, to) ==> MayCool(h, e, id, to))
  {
    hide Seen, Serving, UniqueIds, OnHold, Reported, Earned, Unexpired, Candidate;
    if e.event.Report? {
      ReportedAt(h.sandboxes, h.held, e.event.req, e.at, id);
      ServingIsSeen(e.event.req.observed, id);
    }
  }

  function Run(h: House, es: seq<Timed>): House
    decreases |es|
  {
    if es == [] then h else Run(Step(h, es[0]), es[1..])
  }

  /** Nobody asked for this sandbox by name. */
  predicate LeftAlone(es: seq<Timed>, id: string) {
    forall i :: 0 <= i < |es| ==>
      match es[i].event
      case Touch(j) => j != id
      case Ask(j, _) => j != id
      case BringBack(j) => j != id
      case Report(req) => true
      case _ => true
  }

  ghost predicate Within(es: seq<Timed>, from: int) {
    && (forall i :: 0 <= i < |es| ==> from <= es[i].at < from + EXPLICIT_TIER_HOLD)
    && (forall i :: 0 <= i < |es| && es[i].event.Report? ==> UniqueIds(es[i].event.req.observed))
  }

  /** A sandbox on hold since `since`, and paused. */
  predicate Paused(h: House, id: string, since: int) {
    id in h.sandboxes && IsPaused(h.sandboxes[id].tier) && id in h.held && h.held[id] >= since
  }

  /** While the hold lasts, no traffic wakes a sandbox that was paused: only a request
      that names it does. */
  lemma {:induction false} PausedStays(h: House, es: seq<Timed>, id: string, since: int)
    requires Paused(h, id, since) && Within(es, since) && LeftAlone(es, id)
    ensures Paused(Run(h, es), id, since)
    decreases |es|
  {
    hide Step, IsPaused;
    if es != [] {
      PausedStep(h, es[0], id, since);
      PausedStays(Step(h, es[0]), es[1..], id, since);
    }
  }

  lemma PausedStep(h: House, e: Timed, id: string, since: int)
    requires Paused(h, id, since) && Within([e], since) && LeftAlone([e], id)
    ensures Paused(Step(h, e), id, since)
  {
    assert [e][0] == e;
    EveryMove(h, e, id);
    HoldStays(h, e, id, since);
    hide Step, MayCool;
    var from, to := h.sandboxes[id].tier, Step(h, e).sandboxes[id].tier;
    assert !MayWarm(h, e, id);
  }

  lemma HoldStays(h: House, e: Timed, id: string, since: int)
    requires Paused(h, id, since) && since <= e.at < since + EXPLICIT_TIER_HOLD && LeftAlone([e], id)
    ensures id in Step(h, e).held && Step(h, e).held[id] >= since
  {
    hide Reported, Swept, WithTier, IsPaused;
    assert [e][0] == e;
  }

  /** A pause itself: the sandbox is paused, and on hold from then. */
  lemma PauseHolds(h: House, id: string, at: int)
    requires id in h.sandboxes && !IsPaused(h.sandboxes[id].tier)
    ensures Paused(Step(h, Timed(Pause(id), at)), id, at)
  {}
}
