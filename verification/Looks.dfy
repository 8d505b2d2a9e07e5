/** What a report does on its way in and what goes back: failures, traffic and
    evictions taken, then the diff, what the node puts off left out, and what was
    queued for it. */
module Looks {
  import opened Wrappers
  import opened Tables
  import opened Protocol
  import opened State
  import opened Failures
  import opened TierRuns
  import Wakeup
  import Reconcile
  import Convergence
  import DiffTwice
  import Dispatch

  /** The sandboxes after a report's failures, traffic and evictions. */
  function Heard(sandboxes: Sandboxes, held: Holds, req: PollRequest, now: int): (r: Sandboxes)
    ensures r.Keys == sandboxes.Keys
  {
    NotedKeys(Cleared(sandboxes, req), req.failures);
    Reported(AllNoted(Cleared(sandboxes, req), req.failures), held, req, now)
  }

  function HeardDesk(d: Reconcile.Desk, held: Holds, req: PollRequest, now: int): Reconcile.Desk {
    d.(world := d.world.(sandboxes := Heard(d.world.sandboxes, held, req, now)))
  }

  lemma HeardRow(sandboxes: Sandboxes, held: Holds, req: PollRequest, now: int, s: string)
    requires s in sandboxes
    ensures Heard(sandboxes, held, req, now)[s].nodeId == sandboxes[s].nodeId
    ensures Heard(sandboxes, held, req, now)[s].tier
         == ReportedRow(sandboxes[s], held, req, s, now).tier
  {
    hide Reported, AllNoted, LastFailure, IsObserved, Names, Seen, Serving, OnHold;
    var noted := AllNoted(Cleared(sandboxes, req), req.failures);
    AllNotedAt(Cleared(sandboxes, req), req.failures, s);
    ReportedAt(noted, held, req, now, s);
  }

  /** The two halves of hearing a report do not interfere: every row has the error its
      failures leave, and the tier and idle clock its traffic and evictions do. */
  lemma HalvesApart(sandboxes: Sandboxes, held: Holds, req: PollRequest, now: int, s: string)
    requires s in sandboxes
    ensures s in Wakeup.Failed(sandboxes, req) && s in Reported(sandboxes, held, req, now)
    ensures Heard(sandboxes, held, req, now)[s]
         == Wakeup.Failed(sandboxes, req)[s].(tier := Reported(sandboxes, held, req, now)[s].tier,
                                       lastActiveAt := Reported(sandboxes, held, req, now)[s].lastActiveAt)
  {
    hide Reported, AllNoted, LastFailure, IsObserved, Names, Seen, Serving, OnHold;
    AllNotedAt(Cleared(sandboxes, req), req.failures, s);
    ReportedAt(Wakeup.Failed(sandboxes, req), held, req, now, s);
    ReportedAt(sandboxes, held, req, now, s);
  }

  lemma StillOn(sandboxes: Sandboxes, held: Holds, req: PollRequest, now: int, ids: seq<string>)
    requires Reconcile.IdsOn(sandboxes, req.nodeId, ids)
    ensures Reconcile.IdsOn(Heard(sandboxes, held, req, now), req.nodeId, ids)
  {
    hide Heard;
    forall s | s in sandboxes
      ensures Heard(sandboxes, held, req, now)[s].nodeId == sandboxes[s].nodeId
    {
      HeardRow(sandboxes, held, req, now, s);
    }
  }

  /** The first look of a poll, and of the driver when nothing is put off. */
  method FirstLook(rec: Reconcile.Reconciler, pauses: Pauses, d: Dispatch.Dispatcher, req: PollRequest,
                   names: seq<string>, ids: seq<string>, now: int)
    returns (commands: seq<Command>)
    requires Reconcile.ImageNames(rec.store.templates, names)
    requires Reconcile.IdsOn(rec.store.sandboxes, req.nodeId, ids)
    modifies rec, rec.store, rec.board, d
    ensures var desk := HeardDesk(old(rec.View()), pauses.held, req, now);
            && Reconcile.IdsOn(desk.world.sandboxes, req.nodeId, ids)
            && rec.View() == Reconcile.Diffed(desk, req, now)
            && commands == Dispatch.LeftIn(Reconcile.Commands(desk, req, names, ids, now),
                                           Dispatch.PutOff(req.deferred), 0)
                           + QueueOf(old(d.queues), req.nodeId)
            && Dispatch.Answers(commands, Reconcile.Commands(desk, req, names, ids, now), req.deferred, 0,
                                QueueOf(old(d.queues), req.nodeId))
    ensures QueueOf(d.queues, req.nodeId) == []
  {
    hide Heard, Reconcile.Diffed, Reconcile.Commands, Dispatch.LeftIn, Dispatch.PutOff, Dispatch.Answers,
         Reconcile.IdsOn, Reconcile.ImageNames;
    ghost var before := rec.View();
    StillOn(before.world.sandboxes, pauses.held, req, now, ids);
    HearReport(rec.store, pauses, req, now);
    assert rec.View() == HeardDesk(before, pauses.held, req, now);
    var asked := rec.Diff(req, names, ids, now);
    var looked := Dispatch.Look(d, req.nodeId, Ok(asked), req.deferred, 0);
    commands := looked.value;
  }

  method HearReport(store: Store, pauses: Pauses, req: PollRequest, now: int)
    modifies store`sandboxes
    ensures store.sandboxes == Heard(old(store.sandboxes), pauses.held, req, now)
  {
    hide Reported, AllNoted, Cleared;
    RecordFailures(store, req);
    ApplyTraffic(store, pauses, req, now);
    ApplyEvictions(store, req);
    ReportedIs(old(store.sandboxes), pauses.held, req, now);
  }

  lemma ReportedIs(sandboxes: Sandboxes, held: Holds, req: PollRequest, now: int)
    ensures var noted := AllNoted(Cleared(sandboxes, req), req.failures);
            var used := AllUsed(noted, held, req, req.traffic, now);
            Heard(sandboxes, held, req, now) == AllEvicted(used, req, req.evicted)
  {}

  /** End to end: the answer to a report never asks for another tier of a sandbox whose
      tier that report just moved. */
  lemma AnswerNeverBounces(d: Reconcile.Desk, held: Holds, req: PollRequest, names: seq<string>, ids: seq<string>,
                           holding: Convergence.Holding, now: int, c: Command)
    requires Convergence.Reports(req, holding)
    requires Reconcile.ImageNames(d.templates, names) && Reconcile.IdsOn(d.world.sandboxes, req.nodeId, ids)
    requires Reconcile.IdsOn(HeardDesk(d, held, req, now).world.sandboxes, req.nodeId, ids)
    requires c in Reconcile.Commands(HeardDesk(d, held, req, now), req, names, ids, now) && c.SetTier?
    ensures c.id in d.world.sandboxes
    ensures Heard(d.world.sandboxes, held, req, now)[c.id].tier == d.world.sandboxes[c.id].tier
  {
    var desk := HeardDesk(d, held, req, now);
    var src := Reconcile.Diffed(desk, req, now).View();
    hide Heard, Reconcile.Diffed, Reconcile.Commands, Reconcile.IdsOn, Reconcile.ImageNames, Reconcile.Asks, Seen,
         Serving, OnHold, Reconcile.SandboxCommands;
    Convergence.AnswerIsAbout(desk, req, names, ids, now);
    Convergence.InSandboxCommands(src, req, holding, ids, now, c);
    Reconcile.DiffedKeepsIds(desk, req, now);
    HeardRow(d.world.sandboxes, held, req, now, c.id);
    TierAsked(src, d.world.sandboxes, held, req, holding, now, c);
  }

  lemma TierAsked(src: Reconcile.Source, before: Sandboxes, held: Holds, req: PollRequest,
                  holding: Convergence.Holding, now: int, c: Command)
    requires Convergence.Reports(req, holding)
    requires c.SetTier? && c.id in before && c.id in src.sandboxes
    requires src.sandboxes[c.id].tier == ReportedRow(before[c.id], held, req, c.id, now).tier
    requires c in Reconcile.Asks(src, req.observed, c.id, req.nodeId, now)
    ensures src.sandboxes[c.id].tier == before[c.id].tier
  {
    hide Seen, Serving, OnHold, Reconcile.FetchOf;
    ServingIsSeen(req.observed, c.id);
  }
}
