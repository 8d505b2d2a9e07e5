/** No change is lost between a node's look at its work and its settling down to
    wait: writing, notifying, looking and parking interleave in any order, on a
    notifier that keeps one permit a node. */
module Wakeup {
  import opened Wrappers
  import opened Tiers
  import opened Egresses
  import opened Tables
  import opened Protocol
  import opened Failures
  import opened Reconcile
  import opened Slots
  import opened TierRuns

  // ---- what a diff reads ------------------------------------------------------------

  /** A row as a diff's commands depend on it: not its pool, its idle clock, its error
      text or its address. */
  function Wish(row: SandboxRow): SandboxRow {
    row.(pool := "", lastActiveAt := 0, lastError := None, ip := None)
  }

  /** What a node is wanted to hold. */
  function Wishes(sandboxes: Sandboxes, node: string): Sandboxes {
    map s | s in sandboxes && sandboxes[s].nodeId == node :: Wish(sandboxes[s])
  }

  /** Every node whose wishes changed is among those to be woken. */
  ghost predicate WakesAll(before: Sandboxes, after: Sandboxes, woken: set<string>) {
    forall n :: n !in woken ==> Wishes(after, n) == Wishes(before, n)
  }

  /** While its wishes are what they were, a diff asks a node for what it did. */
  lemma SameWishesSameAsks(a: Source, b: Source, req: PollRequest, ids: seq<string>, now: int)
    requires b == a.(sandboxes := b.sandboxes) && Wishes(a.sandboxes, req.nodeId) == Wishes(b.sandboxes, req.nodeId)
    requires IdsOn(a.sandboxes, req.nodeId, ids)
    ensures IdsOn(b.sandboxes, req.nodeId, ids)
    ensures SandboxCommands(a, req, ids, now) == SandboxCommands(b, req, ids, now)
  {
    forall s
      ensures s in Wishes(a.sandboxes, req.nodeId) <==> s in a.sandboxes && a.sandboxes[s].nodeId == req.nodeId
      ensures s in Wishes(b.sandboxes, req.nodeId) <==> s in b.sandboxes && b.sandboxes[s].nodeId == req.nodeId
    {}
    hide Wishes;
    SameWishesAsk(a, b, req, ids, now);
    SameOrphans(a.sandboxes, b.sandboxes, req.observed, req.nodeId);
  }

  lemma {:induction false} SameWishesAsk(a: Source, b: Source, req: PollRequest, ids: seq<string>, now: int)
    requires b == a.(sandboxes := b.sandboxes) && Wishes(a.sandboxes, req.nodeId) == Wishes(b.sandboxes, req.nodeId)
    requires forall i :: 0 <= i < |ids| ==> ids[i] in a.sandboxes && a.sandboxes[ids[i]].nodeId == req.nodeId
    requires forall i :: 0 <= i < |ids| ==> ids[i] in b.sandboxes && b.sandboxes[ids[i]].nodeId == req.nodeId
    ensures AllAsks(a, req.observed, ids, req.nodeId, now) == AllAsks(b, req.observed, ids, req.nodeId, now)
    decreases |ids|
  {
    hide Seen, FetchOf;
    if ids != [] {
      var id := ids[|ids| - 1];
      assert Wishes(a.sandboxes, req.nodeId)[id] == Wishes(b.sandboxes, req.nodeId)[id];
      hide Wishes;
      assert Wish(a.sandboxes[id]) == Wish(b.sandboxes[id]);
      SameWishesAsk(a, b, req, ids[..|ids| - 1], now);
    }
  }

  lemma {:induction false} SameOrphans(a: Sandboxes, b: Sandboxes, observed: seq<Observed>, node: string)
    requires forall s :: (s in a && a[s].nodeId == node) <==> (s in b && b[s].nodeId == node)
    ensures Orphans(a, observed, node) == Orphans(b, observed, node)
    decreases |observed|
  {
    if observed != [] {
      SameOrphans(a, b, observed[..|observed| - 1], node);
    }
  }

  // ---- every handler wakes whom it changes -----------------------------------------------

  lemma RowsElsewhere(before: Sandboxes, after: Sandboxes, woken: set<string>)
    requires forall s :: s in before && before[s].nodeId !in woken ==>
               s in after && after[s].nodeId == before[s].nodeId && Wish(after[s]) == Wish(before[s])
    requires forall s :: s in after && after[s].nodeId !in woken ==> s in before && before[s].nodeId == after[s].nodeId
    ensures WakesAll(before, after, woken)
  {
    hide Wish;
  }

  /** A batch wakes the nodes its children were placed on. */
  lemma CreateWakesAll(sandboxes: Sandboxes, cs: seq<Child>, asked: SandboxRow, plan: Plan)
    requires Batch(sandboxes, cs, asked, plan).Ok?
    ensures WakesAll(sandboxes, Batch(sandboxes, cs, asked, plan).value, set c | c in cs :: c.nodeId)
  {
    hide Batch;
    BatchAdds(sandboxes, cs, asked, plan);
    var after := Batch(sandboxes, cs, asked, plan).value;
    var woken := set c | c in cs :: c.nodeId;
    assert forall i :: 0 <= i < |cs| ==> cs[i] in cs && after[cs[i].id].nodeId in woken;
    forall s | s in after && s !in sandboxes
      ensures after[s].nodeId in woken
    {
      var i :| 0 <= i < |cs| && cs[i].id == s;
    }
    RowsElsewhere(sandboxes, after, woken);
  }

  lemma DeleteWakesAll(sandboxes: Sandboxes, id: string)
    ensures WakesAll(sandboxes, sandboxes - {id}, if id in sandboxes then {sandboxes[id].nodeId} else {})
  {
    RowsElsewhere(sandboxes, sandboxes - {id}, if id in sandboxes then {sandboxes[id].nodeId} else {});
  }

  lemma TierWakesAll(sandboxes: Sandboxes, id: string, tier: Tier, now: int)
    ensures WakesAll(sandboxes, WithTier(sandboxes, id, tier, now),
                     if id in sandboxes then {sandboxes[id].nodeId} else {})
  {
    RowsElsewhere(sandboxes, WithTier(sandboxes, id, tier, now),
                  if id in sandboxes then {sandboxes[id].nodeId} else {});
  }

  /** A touch of a sandbox already wanted running wakes no one, and need not. */
  lemma TouchWakesAll(sandboxes: Sandboxes, id: string, now: int)
    ensures WakesAll(sandboxes, WithTier(sandboxes, id, Hot, now),
                     if id in sandboxes && sandboxes[id].tier != Hot then {sandboxes[id].nodeId} else {})
  {
    RowsElsewhere(sandboxes, WithTier(sandboxes, id, Hot, now),
                  if id in sandboxes && sandboxes[id].tier != Hot then {sandboxes[id].nodeId} else {});
  }

  lemma RetryWakesAll(sandboxes: Sandboxes, id: string)
    requires id in sandboxes
    ensures WakesAll(sandboxes, sandboxes[id := sandboxes[id].(lastError := None, errorAttempts := 0)],
                     {sandboxes[id].nodeId})
  {
    RowsElsewhere(sandboxes, sandboxes[id := sandboxes[id].(lastError := None, errorAttempts := 0)],
                  {sandboxes[id].nodeId});
  }

  lemma EgressWakesAll(sandboxes: Sandboxes, id: string, e: Egress)
    requires id in sandboxes
    ensures WakesAll(sandboxes, sandboxes[id := sandboxes[id].(egress := e)], {sandboxes[id].nodeId})
  {
    RowsElsewhere(sandboxes, sandboxes[id := sandboxes[id].(egress := e)], {sandboxes[id].nodeId});
  }

  /** The sweep wakes the nodes of the sandboxes it moved. */
  lemma SweepWakesAll(sandboxes: Sandboxes, policy: IdlePolicy, now: int, later: int, woken: set<string>)
    requires forall s :: s in sandboxes && Swept(sandboxes, policy, now, later)[s].tier != sandboxes[s].tier ==>
               sandboxes[s].nodeId in woken
    ensures WakesAll(sandboxes, Swept(sandboxes, policy, now, later), woken)
  {
    hide Demoted, Wish;
    var after := Swept(sandboxes, policy, now, later);
    forall s | s in sandboxes
      ensures after[s] == sandboxes[s].(tier := after[s].tier)
    {
      SweepIsOneStep(sandboxes[s], policy, now, later);
    }
    RowsElsewhere(sandboxes, after, woken);
  }

  /** A report out of turn moves tiers of the reporting node's sandboxes alone. */
  lemma TrafficWakesAll(sandboxes: Sandboxes, held: Holds, req: PollRequest, now: int)
    ensures WakesAll(sandboxes, Reported(sandboxes, held, req, now), {req.nodeId})
  {
    hide Reported, Wish, Serving, Seen, OnHold;
    var after := Reported(sandboxes, held, req, now);
    forall s | s in sandboxes
      ensures after[s].nodeId == sandboxes[s].nodeId
      ensures sandboxes[s].nodeId != req.nodeId ==> after[s] == sandboxes[s]
    {
      ReportedAt(sandboxes, held, req, now, s);
    }
    RowsElsewhere(sandboxes, after, {req.nodeId});
  }

  /** What a node's failures leave of the store, its own sandboxes' errors that are over
      included. */
  function Failed(sandboxes: Sandboxes, req: PollRequest): Sandboxes {
    AllNoted(Cleared(sandboxes, req), req.failures)
  }

  /** The report names no other node's sandbox whose attempts it changes. */
  ghost predicate OwnFailures(sandboxes: Sandboxes, req: PollRequest) {
    forall s :: s in sandboxes && sandboxes[s].nodeId != req.nodeId ==> SameAttempts(sandboxes[s], req, s)
  }

  predicate SameAttempts(row: SandboxRow, req: PollRequest, id: string) {
    match LastFailure(req.failures, id)
    case None => true
    case Some(f) => row.errorAttempts == if f.heldBack then 0 else f.attempts
  }

  lemma FailedAt(sandboxes: Sandboxes, req: PollRequest, s: string)
    requires s in sandboxes
    ensures Failed(sandboxes, req).Keys == sandboxes.Keys
    ensures Failed(sandboxes, req)[s].nodeId == sandboxes[s].nodeId
    ensures sandboxes[s].nodeId != req.nodeId ==>
              (Wish(Failed(sandboxes, req)[s]) == Wish(sandboxes[s]) <==> SameAttempts(sandboxes[s], req, s))
  {
    hide AllNoted, LastFailure, Failures.Names, IsObserved;
    AllNotedAt(Cleared(sandboxes, req), req.failures, s);
  }

  /** The failures a report carries are taken for any sandbox it names, and wake no one.
      They leave every other node's wishes alone exactly when the report names no other
      node's sandbox whose attempts it changes. */
  lemma FailuresWakeAll(sandboxes: Sandboxes, req: PollRequest)
    ensures WakesAll(sandboxes, Failed(sandboxes, req), {req.nodeId}) <==> OwnFailures(sandboxes, req)
  {
    hide Failed, Wish, SameAttempts;
    var after := Failed(sandboxes, req);
    forall s | s in sandboxes
      ensures after.Keys == sandboxes.Keys && after[s].nodeId == sandboxes[s].nodeId
      ensures sandboxes[s].nodeId != req.nodeId ==>
                (Wish(after[s]) == Wish(sandboxes[s]) <==> SameAttempts(sandboxes[s], req, s))
    {
      FailedAt(sandboxes, req, s);
    }
    if OwnFailures(sandboxes, req) {
      FailedKeys(sandboxes, req);
      RowsElsewhere(sandboxes, after, {req.nodeId});
    }
    if WakesAll(sandboxes, after, {req.nodeId}) {
      forall s | s in sandboxes && sandboxes[s].nodeId != req.nodeId
        ensures SameAttempts(sandboxes[s], req, s)
      {
        var n := sandboxes[s].nodeId;
        assert Wishes(after, n) == Wishes(sandboxes, n);
        assert Wishes(after, n)[s] == Wishes(sandboxes, n)[s];
      }
    }
  }

  lemma FailedKeys(sandboxes: Sandboxes, req: PollRequest)
    ensures Failed(sandboxes, req).Keys == sandboxes.Keys
  {
    NotedKeys(Cleared(sandboxes, req), req.failures);
  }

  // ---- the interleaving ----------------------------------------------------------------------

  /** Where the one waiter of a node is: out, after its diff, after it also took what
      was queued, parked, or woken and about to look again. `seen` is what the diff
      read. */
  datatype Waiter = Out | Diffed(seen: Sandboxes) | Took(seen: Sandboxes) | Parked(seen: Sandboxes) | Woken

  /** `owed` counts, for each node, the writers between a write and its notify. */
  datatype Machine = Machine(sandboxes: Sandboxes, queues: map<string, seq<Command>>, permits: set<string>,
                             waiters: map<string, Waiter>, owed: multiset<string>)

  function WaiterOf(m: Machine, n: string): Waiter {
    if n in m.waiters then m.waiters[n] else Out
  }

  datatype Move =
    | Writes(after: Sandboxes, woken: set<string>)
    | Queues(node: string, c: Command)
    | Notifies(node: string)
    | Fails(req: PollRequest)
    | Hears(req: PollRequest, held: Holds, now: int)
    | Diffs(node: string)
    | Takes(node: string)
    | Answers(node: string)
    | Parks(node: string)
    | TimesOut(node: string)
    | LooksAgain(node: string)

  ghost predicate Enabled(m: Machine, mv: Move) {
    match mv
    case Writes(after, woken) => WakesAll(m.sandboxes, after, woken)
    case Queues(_, _) => true
    case Notifies(n) => m.owed[n] > 0
    case Fails(req) => WaiterOf(m, req.nodeId).Out?
    case Hears(req, _, _) => WaiterOf(m, req.nodeId).Out?
    case Diffs(n) => WaiterOf(m, n).Out?
    case Takes(n) => WaiterOf(m, n).Diffed?
    case Answers(n) => WaiterOf(m, n).Took?
    case Parks(n) => WaiterOf(m, n).Took?
    case TimesOut(n) => WaiterOf(m, n).Parked?
    case LooksAgain(n) => WaiterOf(m, n).Woken?
  }

  /** A node's report is taken in before its diff, its failures and then its traffic and
      evictions, and neither wakes anyone: the one who would wait for that node is still
      on the way in. Parking takes a permit that is there, and a notify wakes a parked
      waiter or leaves the one permit. */
  function After(m: Machine, mv: Move): Machine
    requires Enabled(m, mv)
  {
    match mv
    case Writes(after, woken) => m.(sandboxes := after, owed := m.owed + multiset(woken))
    case Queues(n, c) => m.(queues := m.queues[n := QueueOf(m.queues, n) + [c]], owed := m.owed + multiset{n})
    case Notifies(n) =>
      var paid := m.(owed := m.owed - multiset{n});
      if WaiterOf(m, n).Parked? then paid.(waiters := m.waiters[n := Woken])
      else paid.(permits := m.permits + {n})
    case Fails(req) => m.(sandboxes := Failed(m.sandboxes, req))
    case Hears(req, held, now) => m.(sandboxes := Reported(m.sandboxes, held, req, now))
    case Diffs(n) => m.(waiters := m.waiters[n := Diffed(Wishes(m.sandboxes, n))])
    case Takes(n) => m.(queues := m.queues[n := []], waiters := m.waiters[n := Took(m.waiters[n].seen)])
    case Answers(n) => m.(waiters := m.waiters[n := Out])
    case Parks(n) =>
      if n in m.permits then m.(permits := m.permits - {n}, waiters := m.waiters[n := Woken])
      else m.(waiters := m.waiters[n := Parked(m.waiters[n].seen)])
    case TimesOut(n) => m.(waiters := m.waiters[n := Woken])
    case LooksAgain(n) => m.(queues := m.queues[n := []], waiters := m.waiters[n := Out])
  }

  /** With no permit left for it and no writer about to notify it, what a node looked
      at is what is wanted of it now, and nothing is queued that it did not take. A
      parked node has no permit. */
  ghost predicate Current(m: Machine, n: string) {
    var w := WaiterOf(m, n);
    && (w.Parked? ==> n !in m.permits)
    && (n !in m.permits && m.owed[n] == 0 ==>
          && (w.Diffed? || w.Took? || w.Parked? ==> w.seen == Wishes(m.sandboxes, n))
          && (w.Took? || w.Parked? ==> QueueOf(m.queues, n) == []))
  }

  /** A write in the store or the queue, or a notify. */
  predicate ByWriter(mv: Move) {
    mv.Writes? || mv.Queues? || mv.Notifies?
  }

  lemma WriterStep(m: Machine, mv: Move, n: string)
    requires Current(m, n) && Enabled(m, mv) && ByWriter(mv)
    ensures Current(After(m, mv), n)
  {
    hide Wishes;
    var v := After(m, mv);
    if mv.Writes? {
      hide Enabled;
      if n !in mv.woken {
        assert Wishes(mv.after, n) == Wishes(m.sandboxes, n) && v.owed[n] == m.owed[n];
      } else {
        assert v.owed[n] > 0;
      }
    }
  }

  lemma WaiterStep(m: Machine, mv: Move, n: string)
    requires Current(m, n) && Enabled(m, mv) && !ByWriter(mv) && !mv.Fails? && !mv.Hears?
    ensures Current(After(m, mv), n)
  {
    hide Wishes;
  }

  /** A change of the store that wakes no one. */
  lemma QuietStep(m: Machine, v: Machine, node: string, n: string)
    requires Current(m, n) && v == m.(sandboxes := v.sandboxes) && WaiterOf(m, node).Out?
    ensures Wishes(v.sandboxes, n) == Wishes(m.sandboxes, n) || n == node ==> Current(v, n)
  {
    hide Wishes;
  }

  lemma StepCurrent(m: Machine, mv: Move, n: string)
    requires Current(m, n) && Enabled(m, mv) && (mv.Fails? ==> OwnFailures(m.sandboxes, mv.req))
    ensures Current(After(m, mv), n)
  {
    hide Current, Wishes, Reported, Failed, OwnFailures;
    if ByWriter(mv) {
      WriterStep(m, mv, n);
    } else if mv.Fails? {
      FailuresWakeAll(m.sandboxes, mv.req);
      QuietStep(m, After(m, mv), mv.req.nodeId, n);
    } else if mv.Hears? {
      TrafficWakesAll(m.sandboxes, mv.held, mv.req, mv.now);
      QuietStep(m, After(m, mv), mv.req.nodeId, n);
    } else {
      WaiterStep(m, mv, n);
    }
  }

  /** Some waiter has looked, and nothing is on its way to make it look again. */
  predicate Settled(m: Machine, n: string) {
    var w := WaiterOf(m, n);
    (w.Diffed? || w.Took? || w.Parked?) && n !in m.permits && m.owed[n] == 0
  }

  /** What one report's failures cost: the law survives them exactly when every settled
      node's wishes do. */
  lemma FailsCurrentIff(m: Machine, req: PollRequest)
    requires AllCurrent(m) && Enabled(m, Fails(req))
    ensures AllCurrent(After(m, Fails(req))) <==>
              forall n :: Settled(m, n) ==> Wishes(Failed(m.sandboxes, req), n) == Wishes(m.sandboxes, n)
  {
    hide Wishes, Failed;
    var v := After(m, Fails(req));
    forall n
      ensures Current(v, n) <==> (Settled(m, n) ==> Wishes(v.sandboxes, n) == Wishes(m.sandboxes, n))
    {
      assert Current(m, n);
    }
  }

  /** The failing input: node `a` reports as held back a command for a sandbox that is
      quarantined on `b`, whose waiter is parked. The quarantine is lifted and the
      sandbox is to be created, but `b` stays parked on what it saw before. */
  lemma FailureLosesAWakeup(m: Machine, a: string, b: string, s: string, error: string, req: PollRequest, src: Source,
                            observed: seq<Observed>, now: int)
    requires a != b && req.nodeId == a && req.failures == [CommandFailure(s, error, 0, true)]
    requires WaiterOf(m, a).Out? && WaiterOf(m, b) == Parked(Wishes(m.sandboxes, b))
    requires b !in m.permits && m.owed[b] == 0
    requires s in m.sandboxes && m.sandboxes[s].nodeId == b && Quarantined(m.sandboxes[s])
    requires m.sandboxes[s].tier != Detached && m.sandboxes[s].template in src.templates
    requires Seen(observed, s).None?
    ensures Asks(src.(sandboxes := m.sandboxes), observed, s, b, now) == []
    ensures var v := After(m, Fails(req));
            && s in v.sandboxes
            && Asks(src.(sandboxes := v.sandboxes), observed, s, b, now) != []
            && WaiterOf(v, b) == Parked(Wishes(m.sandboxes, b)) && b !in v.permits && v.owed[b] == 0
            && Wishes(v.sandboxes, b) != Wishes(m.sandboxes, b)
  {
    hide Seen, AllNoted, FetchOf, IsObserved, Failures.Names;
    var v := After(m, Fails(req));
    AllNotedAt(Cleared(m.sandboxes, req), req.failures, s);
    assert LastFailure(req.failures, s) == Some(req.failures[0]);
    assert Wishes(v.sandboxes, b)[s] != Wishes(m.sandboxes, b)[s];
  }

  ghost predicate AllCurrent(m: Machine) {
    forall n :: Current(m, n)
  }

  ghost predicate Possible(m: Machine, mvs: seq<Move>)
    decreases |mvs|
  {
    mvs != [] ==> Enabled(m, mvs[0]) && Possible(After(m, mvs[0]), mvs[1..])
  }

  ghost function Run(m: Machine, mvs: seq<Move>): Machine
    requires Possible(m, mvs)
    decreases |mvs|
  {
    if mvs == [] then m else Run(After(m, mvs[0]), mvs[1..])
  }

  /** Every report's failures, as they come, are of its own node's sandboxes or change
      no attempts. */
  ghost predicate OnlyOwnFailures(m: Machine, mvs: seq<Move>)
    requires Possible(m, mvs)
    decreases |mvs|
  {
    mvs != [] ==>
      && (mvs[0].Fails? ==> OwnFailures(m.sandboxes, mvs[0].req))
      && OnlyOwnFailures(After(m, mvs[0]), mvs[1..])
  }

  lemma NobodyWaits(m: Machine)
    requires m.waiters == map[]
    ensures AllCurrent(m)
  {}

  /** No lost wakeup, over every run in which no report changes the attempts of another
      node's sandbox: a parked node that no writer is about to notify last looked at
      exactly what is wanted of it now, with nothing queued for it. */
  lemma {:induction false} NoLostWakeup(m: Machine, mvs: seq<Move>)
    requires AllCurrent(m) && Possible(m, mvs) && OnlyOwnFailures(m, mvs)
    ensures AllCurrent(Run(m, mvs))
    ensures forall n :: WaiterOf(Run(m, mvs), n).Parked? && Run(m, mvs).owed[n] == 0 ==>
              && WaiterOf(Run(m, mvs), n).seen == Wishes(Run(m, mvs).sandboxes, n)
              && QueueOf(Run(m, mvs).queues, n) == []
    decreases |mvs|
  {
    if mvs == [] {
      hide Wishes;
      forall n | WaiterOf(m, n).Parked? && m.owed[n] == 0
        ensures WaiterOf(m, n).seen == Wishes(m.sandboxes, n) && QueueOf(m.queues, n) == []
      {
        assert Current(m, n);
      }
    } else {
      hide Current, After, Enabled, Wishes, OwnFailures;
      forall n ensures Current(After(m, mvs[0]), n) {
        StepCurrent(m, mvs[0], n);
      }
      NoLostWakeup(After(m, mvs[0]), mvs[1..]);
    }
  }

  /** So a change reaches a parked node: once it is written and every notify owed is
      paid, the node is no longer parked on what it saw before. */
  lemma ChangeWakes(m: Machine, mvs: seq<Move>, n: string, seen: Sandboxes)
    requires AllCurrent(m) && Possible(m, mvs) && OnlyOwnFailures(m, mvs)
    requires Run(m, mvs).owed[n] == 0
    requires Wishes(Run(m, mvs).sandboxes, n) != seen || QueueOf(Run(m, mvs).queues, n) != []
    ensures WaiterOf(Run(m, mvs), n) != Parked(seen)
  {
    NoLostWakeup(m, mvs);
  }

  /** A parked node that a write wakes looks again and sees what was written. */
  lemma ParkedSeesWrite(m: Machine, after: Sandboxes, woken: set<string>, n: string)
    requires Enabled(m, Writes(after, woken)) && n in woken && WaiterOf(m, n).Parked?
    ensures var mvs := [Writes(after, woken), Notifies(n), LooksAgain(n), Diffs(n)];
            && Possible(m, mvs) && Run(m, mvs).sandboxes == after
            && WaiterOf(Run(m, mvs), n) == Diffed(Wishes(after, n)) && QueueOf(Run(m, mvs).queues, n) == []
  {
    hide Wishes, WakesAll;
    var a, b, c, d := Writes(after, woken), Notifies(n), LooksAgain(n), Diffs(n);
    assert Enabled(m, a);
    var m1 := After(m, a);
    assert m1.owed[n] > 0 && WaiterOf(m1, n).Parked?;
    var m2 := After(m1, b);
    var m3 := After(m2, c);
    FourMoves(m, a, b, c, d);
  }

  /** One that had looked but was not yet parked is woken as it parks, by the permit the
      notify left, which it takes; it too sees what was written. */
  lemma LateParkSeesWrite(m: Machine, after: Sandboxes, woken: set<string>, n: string)
    requires Enabled(m, Writes(after, woken)) && n in woken && WaiterOf(m, n).Took?
    ensures var mvs := [Writes(after, woken), Notifies(n), Parks(n), LooksAgain(n)];
            && Possible(m, mvs) && Run(m, mvs).sandboxes == after && n !in Run(m, mvs).permits
            && WaiterOf(Run(m, mvs), n) == Out && QueueOf(Run(m, mvs).queues, n) == []
  {
    hide Wishes, WakesAll;
    var a, b, c, d := Writes(after, woken), Notifies(n), Parks(n), LooksAgain(n);
    assert Enabled(m, a);
    var m1 := After(m, a);
    assert m1.owed[n] > 0 && WaiterOf(m1, n).Took?;
    var m2 := After(m1, b);
    var m3 := After(m2, c);
    FourMoves(m, a, b, c, d);
  }

  lemma FourMoves(m: Machine, a: Move, b: Move, c: Move, d: Move)
    requires Enabled(m, a) && Enabled(After(m, a), b) && Enabled(After(After(m, a), b), c)
    requires Enabled(After(After(After(m, a), b), c), d)
    ensures Possible(m, [a, b, c, d])
    ensures Run(m, [a, b, c, d]) == After(After(After(After(m, a), b), c), d)
  {
    hide After, Enabled;
    assert [a, b, c, d][1..] == [b, c, d] && [b, c, d][1..] == [c, d] && [c, d][1..] == [d] && [d][1..] == [];
    var m3 := After(After(After(m, a), b), c);
    assert Possible(m3, [d]) && Run(m3, [d]) == After(m3, d);
    assert Possible(After(After(m, a), b), [c, d]) && Run(After(After(m, a), b), [c, d]) == After(m3, d);
    assert Possible(After(m, a), [b, c, d]) && Run(After(m, a), [b, c, d]) == After(m3, d);
  }
}
