/** Handing commands to nodes. What a diff asks for can be asked again; a command
    someone waits on is queued once and handed over once, by the answer to a
    node's poll or by the driver that calls the node. */
module Dispatch {
  import opened Wrappers
  import opened Protocol
  import opened Reconcile
  import opened DiffTwice
  import opened Convergence

  type Outcome = Result<seq<Command>, string>

  // ---- the queue ----------------------------------------------------------------

  /** Run-once commands waiting for their node, and the callers waiting on results. */
  class Dispatcher {
    var queues: map<string, seq<Command>>
    var pending: set<string>

    constructor ()
      ensures queues == map[] && pending == {}
    {
      queues, pending := map[], {};
    }

    method Enqueue(node: string, c: Command)
      requires RunOnce(c)
      modifies this
      ensures queues == old(queues)[node := QueueOf(old(queues), node) + [c]]
      ensures pending == old(pending) + {ResultId(c)}
    {
      pending := pending + {ResultId(c)};
      queues := queues[node := QueueOf(queues, node) + [c]];
    }

    /** What others queue meanwhile. */
    method EnqueueAll(node: string, arrivals: seq<Command>)
      requires forall i :: 0 <= i < |arrivals| ==> RunOnce(arrivals[i])
      modifies this
      ensures QueueOf(queues, node) == QueueOf(old(queues), node) + arrivals
    {
      ghost var before := QueueOf(queues, node);
      for i := 0 to |arrivals|
        invariant QueueOf(queues, node) == before + arrivals[..i]
      {
        Enqueue(node, arrivals[i]);
      }
      assert arrivals[..|arrivals|] == arrivals;
    }

    /** Drains a node's queue. */
    method TakeExecs(node: string) returns (commands: seq<Command>)
      modifies this`queues
      ensures commands == QueueOf(old(queues), node) && QueueOf(queues, node) == []
      ensures forall n :: n != node ==> QueueOf(queues, n) == QueueOf(old(queues), n)
    {
      commands := QueueOf(queues, node);
      if node in queues {
        queues := queues[node := []];
      }
    }

    /** A result goes to the caller waiting on it, and to no one a second time. */
    method Deliver(resultId: string) returns (ok: bool)
      modifies this`pending
      ensures ok <==> resultId in old(pending)
      ensures pending == old(pending) - {resultId}
    {
      ok := resultId in pending;
      pending := pending - {resultId};
    }
  }

  // ---- a poll ----------------------------------------------------------------------

  /** How long each id is put off: the last word on it. */
  function PutOff(deferred: seq<Deferred>): map<string, nat> {
    if deferred == [] then map[]
    else PutOff(deferred[..|deferred| - 1])[deferred[|deferred| - 1].id := deferred[|deferred| - 1].retryInMs]
  }

  /** Without what the node is still putting off, `waited` after it said so. */
  function LeftIn(commands: seq<Command>, putOff: map<string, nat>, waited: nat): seq<Command> {
    if commands == [] then []
    else
      LeftIn(commands[..|commands| - 1], putOff, waited)
      + (var c := commands[|commands| - 1];
         if CommandId(c) !in putOff || putOff[CommandId(c)] <= waited then [c] else [])
  }

  /** Nothing is left out but what the node put off and is not yet due. */
  lemma {:induction false} LeftInMeans(commands: seq<Command>, putOff: map<string, nat>, waited: nat, c: Command)
    ensures c in LeftIn(commands, putOff, waited)
       <==> c in commands && (CommandId(c) !in putOff || putOff[CommandId(c)] <= waited)
    decreases |commands|
  {
    if commands != [] {
      var k := |commands| - 1;
      LeftInMeans(commands[..k], putOff, waited, c);
      assert commands == commands[..k] + [commands[k]];
    }
  }

  /** The last word of the report on this id, if it says any, is no longer than the node
      has had. */
  predicate Due(deferred: seq<Deferred>, id: string, waited: nat) {
    forall i :: 0 <= i < |deferred| && deferred[i].id == id && (forall j :: i < j < |deferred| ==> deferred[j].id != id)
      ==> deferred[i].retryInMs <= waited
  }

  lemma {:induction false} PutOffMeans(deferred: seq<Deferred>, id: string, waited: nat)
    ensures id !in PutOff(deferred) || PutOff(deferred)[id] <= waited <==> Due(deferred, id, waited)
    decreases |deferred|
  {
    if deferred != [] {
      hide Due;
      PutOffMeans(deferred[..|deferred| - 1], id, waited);
      LastWord(deferred, id, waited);
    }
  }

  lemma LastWord(deferred: seq<Deferred>, id: string, waited: nat)
    requires deferred != []
    ensures var k := |deferred| - 1;
            Due(deferred, id, waited) <==>
              if deferred[k].id == id then deferred[k].retryInMs <= waited else Due(deferred[..k], id, waited)
  {
    var k := |deferred| - 1;
    var rest := deferred[..k];
    assert forall i :: 0 <= i < k ==> rest[i] == deferred[i];
    if deferred[k].id != id {
      if Due(deferred, id, waited) {
        forall i | 0 <= i < k && rest[i].id == id && (forall j :: i < j < k ==> rest[j].id != id)
          ensures rest[i].retryInMs <= waited
        {
          assert forall j :: i < j < |deferred| ==> deferred[j].id != id;
        }
      }
      if Due(rest, id, waited) {
        forall i | 0 <= i < k && deferred[i].id == id && (forall j :: i < j < |deferred| ==> deferred[j].id != id)
          ensures deferred[i].retryInMs <= waited
        {
          assert rest[i].id == id;
        }
      }
    }
  }

  /** What a report's deferrals leave in, kind by kind: what it names by sandbox, by
      template or by tag, only once the last wait it gave for that name is over. */
  lemma LeftInIsDue(commands: seq<Command>, deferred: seq<Deferred>, waited: nat, c: Command)
    ensures var left := c in LeftIn(commands, PutOff(deferred), waited);
            match c
            case PullTemplate(name, _, _) => left <==> c in commands && Due(deferred, name, waited)
            case DropTag(tag) => left <==> c in commands && Due(deferred, tag, waited)
            case Create(id, _, _, _, _, _, _, _, _, _, _) => left <==> c in commands && Due(deferred, id, waited)
            case SetTier(id, _) => left <==> c in commands && Due(deferred, id, waited)
            case SetEgress(id, _) => left <==> c in commands && Due(deferred, id, waited)
            case Destroy(id, _) => left <==> c in commands && Due(deferred, id, waited)
            case Branch(id, _, _) => left <==> c in commands && Due(deferred, id, waited)
            case Exec(_, id, _, _) => left <==> c in commands && Due(deferred, id, waited)
            case SetBackend(_, resultId) => left <==> c in commands && Due(deferred, resultId, waited)
  {
    hide Due, PutOff, LeftIn;
    LeftInMeans(commands, PutOff(deferred), waited, c);
    PutOffMeans(deferred, CommandId(c), waited);
  }

  /** ... and in the order asked. */
  lemma {:induction false} LeftInConcat(a: seq<Command>, b: seq<Command>, putOff: map<string, nat>, waited: nat)
    ensures LeftIn(a + b, putOff, waited) == LeftIn(a, putOff, waited) + LeftIn(b, putOff, waited)
    decreases |b|
  {
    if b == [] {
      assert a + b == a;
    } else {
      assert (a + b)[..|a + b| - 1] == a + b[..|b| - 1];
      LeftInConcat(a, b[..|b| - 1], putOff, waited);
    }
  }

  /** These are what a diff asked for and is due, and what was queued. */
  ghost predicate Answers(cs: seq<Command>, diff: seq<Command>, deferred: seq<Deferred>, waited: nat,
                          queued: seq<Command>)
  {
    && |queued| <= |cs| && cs[|cs| - |queued|..] == queued
    && forall c :: c in cs <==> (c in diff && Due(deferred, CommandId(c), waited)) || c in queued
  }

  lemma LookAnswers(diff: seq<Command>, deferred: seq<Deferred>, waited: nat, queued: seq<Command>)
    ensures Answers(LeftIn(diff, PutOff(deferred), waited) + queued, diff, deferred, waited, queued)
  {
    hide Due, PutOff, LeftIn;
    var left := LeftIn(diff, PutOff(deferred), waited);
    var cs := left + queued;
    forall c
      ensures c in cs <==> (c in diff && Due(deferred, CommandId(c), waited)) || c in queued
    {
      LeftInMeans(diff, PutOff(deferred), waited, c);
      PutOffMeans(deferred, CommandId(c), waited);
    }
    assert cs[|cs| - |queued|..] == queued;
  }

  method LeaveOutDeferred(commands: seq<Command>, deferred: seq<Deferred>, waited: nat) returns (kept: seq<Command>)
    ensures kept == LeftIn(commands, PutOff(deferred), waited)
    ensures forall c :: c in kept <==> c in commands && Due(deferred, CommandId(c), waited)
  {
    LookAnswers(commands, deferred, waited, []);
    assert LeftIn(commands, PutOff(deferred), waited) + [] == LeftIn(commands, PutOff(deferred), waited);
    hide Due;
    var putOff: map<string, nat> := map[];
    for i := 0 to |deferred|
      invariant putOff == PutOff(deferred[..i])
    {
      assert deferred[..i + 1][..i] == deferred[..i];
      putOff := putOff[deferred[i].id := deferred[i].retryInMs];
    }
    assert deferred[..|deferred|] == deferred;
    kept := [];
    for i := 0 to |commands|
      invariant kept == LeftIn(commands[..i], PutOff(deferred), waited)
    {
      assert commands[..i + 1][..i] == commands[..i];
      var c := commands[i];
      if CommandId(c) !in putOff || putOff[CommandId(c)] <= waited {
        kept := kept + [c];
      }
    }
    assert commands[..|commands|] == commands;
  }

  /** One look at the work there is: a diff that fails takes nothing from the queue. */
  method Look(d: Dispatcher, node: string, diff: Outcome, deferred: seq<Deferred>, waited: nat)
    returns (r: Outcome)
    modifies d`queues
    ensures diff.Err? ==> r == diff && d.queues == old(d.queues)
    ensures diff.Ok? ==>
              && r == Ok(LeftIn(diff.value, PutOff(deferred), waited) + QueueOf(old(d.queues), node))
              && Answers(r.value, diff.value, deferred, waited, QueueOf(old(d.queues), node))
              && QueueOf(d.queues, node) == []
              && forall n :: n != node ==> QueueOf(d.queues, n) == QueueOf(old(d.queues), n)
  {
    hide Due, Answers;
    if diff.Err? {
      return diff;
    }
    LookAnswers(diff.value, deferred, waited, QueueOf(d.queues, node));
    var commands := LeaveOutDeferred(diff.value, deferred, waited);
    var execs := d.TakeExecs(node);
    r := Ok(commands + execs);
  }

  datatype Polled = Polled(answer: Outcome, queue: seq<Command>)

  /** What a poll answers and leaves queued: work at once, or what there is after a
      park during which `arrivals` were queued. */
  function PollOf(queued: seq<Command>, putOff: map<string, nat>, first: Outcome, arrivals: seq<Command>,
                  second: Outcome, waited: nat): Polled
  {
    if first.Err? then Polled(first, queued)
    else
      var now := LeftIn(first.value, putOff, 0) + queued;
      if now != [] then Polled(Ok(now), [])
      else if second.Err? then Polled(second, arrivals)
      else Polled(Ok(LeftIn(second.value, putOff, waited) + arrivals), [])
  }

  /** Something asked for is not put off, or something is queued. */
  ghost predicate WorkNow(diff: seq<Command>, deferred: seq<Deferred>, queued: seq<Command>) {
    queued != [] || exists c :: c in diff && Due(deferred, CommandId(c), 0)
  }

  lemma WorkIsAnswered(diff: seq<Command>, deferred: seq<Deferred>, queued: seq<Command>)
    ensures LeftIn(diff, PutOff(deferred), 0) + queued != [] <==> WorkNow(diff, deferred, queued)
  {
    hide Due, PutOff, LeftIn;
    var left := LeftIn(diff, PutOff(deferred), 0);
    assert left + queued != [] <==> left != [] || queued != [];
    if left != [] {
      LeftInMeans(diff, PutOff(deferred), 0, left[0]);
      PutOffMeans(deferred, CommandId(left[0]), 0);
    }
    if WorkNow(diff, deferred, queued) && queued == [] {
      var c :| c in diff && Due(deferred, CommandId(c), 0);
      LeftInMeans(diff, PutOff(deferred), 0, c);
      PutOffMeans(deferred, CommandId(c), 0);
    }
  }

  /** A poll: answered at once when there is work, else parked and answered with what
      a second look finds. */
  method Poll(d: Dispatcher, req: PollRequest, first: Outcome, arrivals: seq<Command>, second: Outcome, waited: nat)
    returns (answer: Outcome)
    requires forall i :: 0 <= i < |arrivals| ==> RunOnce(arrivals[i])
    modifies d
    ensures Polled(answer, QueueOf(d.queues, req.nodeId))
         == PollOf(QueueOf(old(d.queues), req.nodeId), PutOff(req.deferred), first, arrivals, second, waited)
    ensures var queued := QueueOf(old(d.queues), req.nodeId);
            if first.Err? then answer == first
            else if WorkNow(first.value, req.deferred, queued) then
              answer.Ok? && Answers(answer.value, first.value, req.deferred, 0, queued)
            else if second.Err? then answer == second
            else answer.Ok? && Answers(answer.value, second.value, req.deferred, waited, arrivals)
    ensures var queued := QueueOf(old(d.queues), req.nodeId);
            QueueOf(d.queues, req.nodeId) ==
              if first.Err? then queued
              else if WorkNow(first.value, req.deferred, queued) then []
              else if second.Err? then arrivals else []
  {
    hide Due, Answers, PutOff, LeftIn;
    if first.Ok? {
      WorkIsAnswered(first.value, req.deferred, QueueOf(d.queues, req.nodeId));
    }
    answer := Look(d, req.nodeId, first, req.deferred, 0);
    if answer.Err? || answer.value != [] {
      return;
    }
    d.EnqueueAll(req.nodeId, arrivals);
    assert QueueOf(d.queues, req.nodeId) == arrivals;
    answer := Look(d, req.nodeId, second, req.deferred, waited);
  }

  // ---- the driver ------------------------------------------------------------------

  /** Nothing to do, or only what was just sent. Serialised commands are equal when
      the commands are. */
  predicate NothingNew(sent: Option<seq<Command>>, next: seq<Command>) {
    next == [] || sent == Some(next)
  }

  /** A batch, or none to send. */
  function NonEmpty(next: seq<Command>): Option<seq<Command>> {
    if next == [] then None else Some(next)
  }

  class Driver {
    var batch: Option<seq<Command>>

    constructor ()
      ensures batch == None
    {
      batch := None;
    }

    method NextBatch(d: Dispatcher, node: string, diff: Outcome) returns (next: seq<Command>)
      modifies d`queues
      ensures next == if diff.Ok? then diff.value + QueueOf(old(d.queues), node) else []
      ensures QueueOf(d.queues, node) == if diff.Ok? then [] else QueueOf(old(d.queues), node)
    {
      if diff.Err? {
        return [];
      }
      var execs := d.TakeExecs(node);
      next := diff.value + execs;
    }

    /** One turn of the loop once the node was called: a batch that did not arrive is
        forgotten; else the next is what there is to do, looked at again after a wait
        when that is nothing new. A batch is never sent again without a wait. */
    method Turn(d: Dispatcher, node: string, arrived: bool, first: Outcome, arrivals: seq<Command>, second: Outcome)
      returns (waited: bool)
      requires forall i :: 0 <= i < |arrivals| ==> RunOnce(arrivals[i])
      modifies this, d
      ensures !arrived ==> batch == None && d.queues == old(d.queues) && !waited
      ensures var turned := TurnOf(old(batch), QueueOf(old(d.queues), node), first, arrivals, second);
              arrived ==> turned == Turned(batch, QueueOf(d.queues, node), waited)
      ensures !waited && batch.Some? ==> batch != old(batch)
      ensures arrived && !waited ==> batch.Some?
      ensures arrived && first.Ok? ==>
                var next := first.value + QueueOf(old(d.queues), node);
                && (waited <==> next == [] || old(batch) == Some(next))
                && (!waited ==> batch == Some(next))
      ensures arrived && first.Err? ==> waited
      ensures arrived && !waited ==> QueueOf(d.queues, node) == []
      ensures waited ==>
                var left := (if first.Err? then QueueOf(old(d.queues), node) else []) + arrivals;
                if second.Err? then batch == None && QueueOf(d.queues, node) == left
                else
                  && QueueOf(d.queues, node) == []
                  && (batch.None? <==> second.value + left == [])
                  && (batch.Some? ==> batch.value == second.value + left)
    {
      waited := false;
      if !arrived {
        batch := None;
        return;
      }
      var sent := batch;
      batch := None;
      var next := NextBatch(d, node, first);
      if NothingNew(sent, next) {
        waited := true;
        d.EnqueueAll(node, arrivals);
        next := NextBatch(d, node, second);
      }
      batch := NonEmpty(next);
    }
  }

  datatype Turned = Turned(batch: Option<seq<Command>>, queue: seq<Command>, waited: bool)

  /** The batch after one turn, what is still queued, and whether the driver waited. */
  function TurnOf(sent: Option<seq<Command>>, queued: seq<Command>, first: Outcome, arrivals: seq<Command>,
                  second: Outcome): Turned
  {
    var next := if first.Ok? then first.value + queued else [];
    var left := if first.Ok? then [] else queued;
    if !NothingNew(sent, next) then Turned(NonEmpty(next), left, false)
    else if second.Err? then Turned(None, left + arrivals, true)
    else Turned(NonEmpty(second.value + (left + arrivals)), [], true)
  }

  /** A diff never asks for a run-once command. */
  lemma DiffIsDeclarative(d: Desk, req: PollRequest, names: seq<string>, ids: seq<string>, now: int, c: Command)
    requires ImageNames(d.templates, names) && IdsOn(d.world.sandboxes, req.nodeId, ids)
    requires c in Commands(d, req, names, ids, now)
    ensures !RunOnce(c)
  {
    hide PullCommands, AllAsks, DroppedTags, Orphans, Diffed, Asks;
    StillListed(d, req, names, ids, now);
    var src := Diffed(d, req, now).View();
    if c in PullCommands(d.templates, d.pulls, req, names) {
      PullsOnly(d.templates, d.pulls, req, names, c);
    } else if c in DroppedTags(d.snapshots, req.tags) {
      DropsOnly(d.snapshots, req.tags, c);
    } else {
      InAllAsks(src, req.observed, ids, req.nodeId, now, c);
      InOrphans(src.sandboxes, req.observed, req.nodeId, c);
      if c in AllAsks(src, req.observed, ids, req.nodeId, now) {
        var i :| 0 <= i < |ids| && c in Asks(src, req.observed, ids[i], req.nodeId, now);
        AskIsAbout(src, req.observed, ids[i], req.nodeId, now, c);
      }
    }
  }

  /** A node that reports the same again within an expiry bucket, with nothing queued
      and nothing else changed, is not sent the same batch again until the driver has
      waited: what there is to do is what it was sent. */
  lemma DriverSettles(d: Desk, req: PollRequest, names: seq<string>, ids: seq<string>, now: int, later: int)
    requires ImageNames(d.templates, names) && IdsOn(d.world.sandboxes, req.nodeId, ids)
    requires FetchExpiry(now) == FetchExpiry(later)
    ensures var once := Diffed(d, req, now);
            && ImageNames(once.templates, names) && IdsOn(once.world.sandboxes, req.nodeId, ids)
            && NothingNew(Some(Commands(d, req, names, ids, now)), Commands(once, req, names, ids, later))
  {
    hide Commands, Diffed, ImageNames, IdsOn, FetchExpiry;
    DiffAsksTheSame(d, req, names, ids, now, later);
  }

  // ---- conservation over every run ---------------------------------------------------

  function Once(cs: seq<Command>): seq<Command> {
    if cs == [] then []
    else Once(cs[..|cs| - 1]) + (if RunOnce(cs[|cs| - 1]) then [cs[|cs| - 1]] else [])
  }

  predicate AllOnce(cs: seq<Command>) {
    forall i :: 0 <= i < |cs| ==> RunOnce(cs[i])
  }

  predicate Declarative(diff: Outcome) {
    diff.Ok? ==> forall i :: 0 <= i < |diff.value| ==> !RunOnce(diff.value[i])
  }

  lemma {:induction false} OnceOfBatch(asked: seq<Command>, execs: seq<Command>)
    requires forall i :: 0 <= i < |asked| ==> !RunOnce(asked[i])
    requires AllOnce(execs)
    ensures Once(asked + execs) == execs
    decreases |execs|, |asked|
  {
    var all := asked + execs;
    if execs != [] {
      assert all[..|all| - 1] == asked + execs[..|execs| - 1];
      OnceOfBatch(asked, execs[..|execs| - 1]);
      assert execs == execs[..|execs| - 1] + [execs[|execs| - 1]];
    } else if asked != [] {
      assert all[..|all| - 1] == asked[..|asked| - 1] + [];
      OnceOfBatch(asked[..|asked| - 1], []);
    }
  }

  lemma {:induction false} OnceAppends(a: seq<Command>, b: seq<Command>)
    ensures Once(a + b) == Once(a) + Once(b)
    decreases |b|
  {
    if b == [] {
      assert a + b == a;
    } else {
      assert (a + b)[..|a + b| - 1] == a + b[..|b| - 1];
      OnceAppends(a, b[..|b| - 1]);
    }
  }

  /** Where the driver is between two batches. */
  datatype Phase = Idle | Looking(sent: Option<seq<Command>>) | Waiting

  /** One node: its queue, the batch its driver holds, everything handed over so far
      -- answers to polls and batches, in order -- and every run-once command ever
      queued. */
  datatype Ledger = Ledger(queue: seq<Command>, batch: Option<seq<Command>>, phase: Phase,
                           handed: seq<seq<Command>>, ever: seq<Command>)

  datatype Event =
    | Queues(c: Command)
    | PollLooks(diff: Outcome, putOff: map<string, nat>, waited: nat)
    | SyncFails
    | Syncs
    | DriverLooks(diff: Outcome)
    | DriverLooksAgain(diff: Outcome)

  /** Ids are never used twice, and the driver looks in turn. */
  predicate May(l: Ledger, e: Event) {
    match e
    case Queues(c) =>
      && RunOnce(c)
      && forall i :: 0 <= i < |l.ever| && RunOnce(l.ever[i]) ==> ResultId(l.ever[i]) != ResultId(c)
    case PollLooks(diff, _, _) => Declarative(diff)
    case SyncFails => l.phase.Idle?
    case Syncs => l.phase.Idle?
    case DriverLooks(diff) => l.phase.Looking? && Declarative(diff)
    case DriverLooksAgain(diff) => l.phase.Waiting? && Declarative(diff)
  }

  /** A look that went well empties the queue into the answer or the batch. */
  function Batched(l: Ledger, next: seq<Command>): Ledger {
    l.(queue := [], batch := NonEmpty(next), phase := Idle, handed := l.handed + [next])
  }

  function After(l: Ledger, e: Event): Ledger {
    match e
    case Queues(c) => l.(queue := l.queue + [c], ever := l.ever + [c])
    case PollLooks(diff, putOff, waited) =>
      if diff.Err? then l
      else l.(queue := [], handed := l.handed + [LeftIn(diff.value, putOff, waited) + l.queue])
    case SyncFails => l.(batch := None)
    case Syncs => l.(batch := None, phase := Looking(l.batch))
    case DriverLooks(diff) =>
      var next := if diff.Ok? then diff.value + l.queue else [];
      var sent := if l.phase.Looking? then l.phase.sent else None;
      if NothingNew(sent, next) then l.(queue := if diff.Ok? then [] else l.queue, phase := Waiting)
      else Batched(l, next)
    case DriverLooksAgain(diff) =>
      if diff.Err? then l.(phase := Idle) else Batched(l, diff.value + l.queue)
  }

  function Flat(handed: seq<seq<Command>>): seq<Command> {
    if handed == [] then [] else Flat(handed[..|handed| - 1]) + handed[|handed| - 1]
  }

  ghost predicate DistinctIds(cs: seq<Command>) {
    forall i, j :: 0 <= i < j < |cs| && RunOnce(cs[i]) && RunOnce(cs[j]) ==> ResultId(cs[i]) != ResultId(cs[j])
  }

  /** The batch the driver holds or has just sent was handed over. */
  ghost predicate WasHanded(l: Ledger, b: Option<seq<Command>>) {
    b.Some? ==> b.value in l.handed
  }

  /** Every run-once command ever queued is still queued or was handed over exactly
      once, in the order it was queued. */
  ghost predicate Conserved(l: Ledger) {
    && l.ever == Once(Flat(l.handed)) + l.queue
    && AllOnce(l.ever) && DistinctIds(l.ever)
    && WasHanded(l, l.batch)
    && (l.phase.Looking? ==> WasHanded(l, l.phase.sent))
  }

  lemma FlatOnce(handed: seq<seq<Command>>, b: seq<Command>)
    ensures Once(Flat(handed + [b])) == Once(Flat(handed)) + Once(b)
  {
    assert (handed + [b])[..|handed + [b]| - 1] == handed;
    OnceAppends(Flat(handed), b);
  }

  lemma {:induction false} LeftInDeclarative(cs: seq<Command>, putOff: map<string, nat>, waited: nat)
    requires forall i :: 0 <= i < |cs| ==> !RunOnce(cs[i])
    ensures forall i :: 0 <= i < |LeftIn(cs, putOff, waited)| ==> !RunOnce(LeftIn(cs, putOff, waited)[i])
  {
    var left := LeftIn(cs, putOff, waited);
    forall i | 0 <= i < |left|
      ensures !RunOnce(left[i])
    {
      LeftInMeans(cs, putOff, waited, left[i]);
    }
  }

  lemma {:induction false} OnceMember(cs: seq<Command>, c: Command)
    ensures c in Once(cs) <==> c in cs && RunOnce(c)
    decreases |cs|
  {
    if cs != [] {
      OnceMember(cs[..|cs| - 1], c);
      assert cs == cs[..|cs| - 1] + [cs[|cs| - 1]];
    }
  }

  lemma {:induction false} FlatMember(handed: seq<seq<Command>>, b: seq<Command>, c: Command)
    ensures b in handed && c in b ==> c in Flat(handed)
    decreases |handed|
  {
    if handed != [] {
      FlatMember(handed[..|handed| - 1], b, c);
      assert handed == handed[..|handed| - 1] + [handed[|handed| - 1]];
    }
  }

  lemma QueuedIsNotHanded(l: Ledger, c: Command)
    requires Conserved(l) && c in l.queue
    ensures c !in Once(Flat(l.handed)) && RunOnce(c)
  {
    hide Once, Flat;
    var handed := Once(Flat(l.handed));
    var k :| 0 <= k < |l.queue| && l.queue[k] == c;
    assert l.ever[|handed| + k] == c;
    forall i | 0 <= i < |handed|
      ensures handed[i] != c
    {
      assert l.ever[i] == handed[i];
    }
  }

  /** What is still queued was never sent, so a look that finds only what was just
      sent, or nothing, found an empty queue: each id is queued once. */
  lemma NothingDropped(l: Ledger, sent: Option<seq<Command>>, asked: seq<Command>)
    requires Conserved(l) && WasHanded(l, sent)
    ensures NothingNew(sent, asked + l.queue) ==> l.queue == []
  {
    hide Once, Flat;
    if l.queue != [] {
      var c := l.queue[0];
      var next := asked + l.queue;
      assert next[|asked|] == c;
      QueuedIsNotHanded(l, c);
      OnceMember(Flat(l.handed), c);
      FlatMember(l.handed, next, c);
    }
  }

  lemma HandedOver(l: Ledger, asked: seq<Command>, v: Ledger)
    requires Conserved(l) && forall i :: 0 <= i < |asked| ==> !RunOnce(asked[i])
    requires v.queue == [] && v.ever == l.ever && v.handed == l.handed + [asked + l.queue]
    requires v.batch == l.batch || v.batch == None || v.batch == Some(asked + l.queue)
    requires v.phase == l.phase || v.phase.Idle?
    ensures Conserved(v)
  {
    hide Once, Flat, DistinctIds;
    QueueIsOnce(l);
    hide AllOnce;
    OnceOfBatch(asked, l.queue);
    FlatOnce(l.handed, asked + l.queue);
    assert v.ever == Once(Flat(v.handed)) + v.queue;
  }

  lemma QueueIsOnce(l: Ledger)
    requires Conserved(l)
    ensures AllOnce(l.queue)
  {
    hide Once, Flat, DistinctIds, AllOnce;
    OnceSuffix(Once(Flat(l.handed)), l.queue);
  }

  lemma OnceSuffix(a: seq<Command>, b: seq<Command>)
    requires AllOnce(a + b)
    ensures AllOnce(b)
  {
    assert forall i :: 0 <= i < |b| ==> b[i] == (a + b)[|a| + i];
  }

  lemma StepConserves(l: Ledger, e: Event)
    requires Conserved(l) && May(l, e)
    ensures Conserved(After(l, e))
  {
    hide Once, Flat;
    match e {
      case Queues(c) =>
        var v := After(l, e);
        assert v.ever == Once(Flat(v.handed)) + v.queue;
      case PollLooks(diff, putOff, waited) =>
        if diff.Ok? {
          LeftInDeclarative(diff.value, putOff, waited);
          HandedOver(l, LeftIn(diff.value, putOff, waited), After(l, e));
        }
      case SyncFails =>
      case Syncs =>
      case DriverLooks(diff) =>
        if diff.Ok? {
          if NothingNew(l.phase.sent, diff.value + l.queue) {
            NothingDropped(l, l.phase.sent, diff.value);
          } else {
            HandedOver(l, diff.value, After(l, e));
          }
        }
      case DriverLooksAgain(diff) =>
        if diff.Ok? {
          HandedOver(l, diff.value, After(l, e));
        }
    }
  }

  function Run(l: Ledger, es: seq<Event>): Ledger
    decreases |es|
  {
    if es == [] then l else Run(After(l, es[0]), es[1..])
  }

  predicate MayRun(l: Ledger, es: seq<Event>)
    decreases |es|
  {
    es != [] ==> May(l, es[0]) && MayRun(After(l, es[0]), es[1..])
  }

  const START := Ledger([], None, Idle, [], [])

  lemma StartConserves()
    ensures Conserved(START)
  {
    assert START.ever == Once(Flat(START.handed)) + START.queue;
  }

  /** Over every run of the two delivery paths at once. */
  lemma {:induction false} ConservedThroughout(l: Ledger, es: seq<Event>)
    requires Conserved(l) && MayRun(l, es)
    ensures Conserved(Run(l, es))
    decreases |es|
  {
    hide Conserved, After, May;
    if es != [] {
      StepConserves(l, es[0]);
      ConservedThroughout(After(l, es[0]), es[1..]);
    }
  }

  /** So a command is handed over in exactly one answer or batch, once, or still queued. */
  lemma HandedOnce(l: Ledger, c: Command)
    requires Conserved(l) && c in l.ever
    ensures multiset(Once(Flat(l.handed)))[c] + multiset(l.queue)[c] == 1
  {
    hide Once, Flat;
    var handed := Once(Flat(l.handed));
    assert multiset(l.ever) == multiset(handed) + multiset(l.queue);
    CountsOne(l.ever, c);
  }

  lemma {:induction false} CountsOne(cs: seq<Command>, c: Command)
    requires AllOnce(cs) && DistinctIds(cs) && c in cs
    ensures multiset(cs)[c] == 1
    decreases |cs|
  {
    var rest := cs[..|cs| - 1];
    assert cs == rest + [cs[|cs| - 1]];
    if c in rest {
      CountsOne(rest, c);
      var i :| 0 <= i < |rest| && rest[i] == c;
      assert cs[i] == c;
    }
  }

  // ---- the handlers are such runs ---------------------------------------------------

  function Arrive(arrivals: seq<Command>): (es: seq<Event>)
    ensures |es| == |arrivals|
  {
    seq(|arrivals|, i requires 0 <= i < |arrivals| => Queues(arrivals[i]))
  }

  lemma {:induction false} Arrived(l: Ledger, arrivals: seq<Command>)
    ensures var v := Run(l, Arrive(arrivals));
            v == l.(queue := l.queue + arrivals, ever := l.ever + arrivals)
    decreases |arrivals|
  {
    if arrivals == [] {
      assert l.queue + arrivals == l.queue && l.ever + arrivals == l.ever;
    } else {
      assert Arrive(arrivals)[1..] == Arrive(arrivals[1..]);
      Arrived(After(l, Queues(arrivals[0])), arrivals[1..]);
      assert arrivals == [arrivals[0]] + arrivals[1..];
    }
  }

  lemma {:induction false} RunOn(l: Ledger, a: seq<Event>, b: seq<Event>)
    ensures Run(l, a + b) == Run(Run(l, a), b)
    decreases |a|
  {
    if a == [] {
      assert a + b == b;
    } else {
      assert (a + b)[1..] == a[1..] + b;
      RunOn(After(l, a[0]), a[1..], b);
    }
  }

  function TurnEvents(sent: Option<seq<Command>>, queued: seq<Command>, first: Outcome, arrivals: seq<Command>,
                      second: Outcome): seq<Event>
  {
    [Syncs, DriverLooks(first)]
    + if NothingNew(sent, if first.Ok? then first.value + queued else [])
      then Arrive(arrivals) + [DriverLooksAgain(second)] else []
  }

  /** A turn of the driver is a run of the ledger: same batch, same queue. */
  lemma TurnIsRun(l: Ledger, first: Outcome, arrivals: seq<Command>, second: Outcome)
    requires l.phase.Idle?
    ensures var v := Run(l, TurnEvents(l.batch, l.queue, first, arrivals, second));
            var t := TurnOf(l.batch, l.queue, first, arrivals, second);
            v.batch == t.batch && v.queue == t.queue && v.phase.Idle?
  {
    var looked := After(After(l, Syncs), DriverLooks(first));
    var next := if first.Ok? then first.value + l.queue else [];
    var rest := if NothingNew(l.batch, next) then Arrive(arrivals) + [DriverLooksAgain(second)] else [];
    RunOn(l, [Syncs, DriverLooks(first)], rest);
    TwoSteps(l, Syncs, DriverLooks(first));
    if NothingNew(l.batch, next) {
      RunOn(looked, Arrive(arrivals), [DriverLooksAgain(second)]);
      Arrived(looked, arrivals);
      var waiting := Run(looked, Arrive(arrivals));
      OneStep(waiting, DriverLooksAgain(second));
    }
  }

  lemma OneStep(l: Ledger, e: Event)
    ensures Run(l, [e]) == After(l, e)
  {
    assert Run(After(l, e), [e][1..]) == After(l, e);
  }

  lemma TwoSteps(l: Ledger, e: Event, f: Event)
    ensures Run(l, [e, f]) == After(After(l, e), f)
  {
    assert [e, f] == [e] + [f];
    RunOn(l, [e], [f]);
    OneStep(l, e);
    OneStep(After(l, e), f);
  }

  function PollEvents(queued: seq<Command>, putOff: map<string, nat>, first: Outcome, arrivals: seq<Command>,
                      second: Outcome, waited: nat): seq<Event>
  {
    if first.Ok? && LeftIn(first.value, putOff, 0) + queued == []
    then [PollLooks(first, putOff, 0)] + (Arrive(arrivals) + [PollLooks(second, putOff, waited)])
    else [PollLooks(first, putOff, 0)]
  }

  /** So is a poll, and its answer is the last thing handed over. */
  lemma PollIsRun(l: Ledger, putOff: map<string, nat>, first: Outcome, arrivals: seq<Command>, second: Outcome,
                  waited: nat)
    ensures var v := Run(l, PollEvents(l.queue, putOff, first, arrivals, second, waited));
            var p := PollOf(l.queue, putOff, first, arrivals, second, waited);
            && v.queue == p.queue
            && (p.answer.Ok? ==> v.handed != [] && v.handed[|v.handed| - 1] == p.answer.value)
  {
    hide LeftIn;
    OneStep(l, PollLooks(first, putOff, 0));
    if first.Ok? && LeftIn(first.value, putOff, 0) + l.queue == [] {
      var parked := After(l, PollLooks(first, putOff, 0));
      RunOn(l, [PollLooks(first, putOff, 0)], Arrive(arrivals) + [PollLooks(second, putOff, waited)]);
      RunOn(parked, Arrive(arrivals), [PollLooks(second, putOff, waited)]);
      Arrived(parked, arrivals);
      OneStep(Run(parked, Arrive(arrivals)), PollLooks(second, putOff, waited));
      assert parked.queue + arrivals == arrivals;
    }
  }

  // ---- so conservation holds of the handlers --------------------------------------------

  /** Commands no id of which was ever used. */
  ghost predicate Fresh(l: Ledger, arrivals: seq<Command>) {
    AllOnce(arrivals) && DistinctIds(l.ever + arrivals)
  }

  lemma {:induction false} MayRunOn(l: Ledger, a: seq<Event>, b: seq<Event>)
    ensures MayRun(l, a + b) <==> MayRun(l, a) && MayRun(Run(l, a), b)
    decreases |a|
  {
    hide May, After;
    if a == [] {
      assert a + b == b;
    } else {
      assert (a + b)[1..] == a[1..] + b;
      MayRunOn(After(l, a[0]), a[1..], b);
    }
  }

  lemma {:induction false} MayArrive(l: Ledger, arrivals: seq<Command>)
    requires Fresh(l, arrivals)
    ensures MayRun(l, Arrive(arrivals))
    decreases |arrivals|
  {
    if arrivals != [] {
      var c := arrivals[0];
      var all := l.ever + arrivals;
      assert Arrive(arrivals)[1..] == Arrive(arrivals[1..]);
      assert all[|l.ever|] == c;
      forall i | 0 <= i < |l.ever| && RunOnce(l.ever[i])
        ensures ResultId(l.ever[i]) != ResultId(c)
      {
        assert all[i] == l.ever[i];
      }
      assert l.ever + [c] + arrivals[1..] == all;
      MayArrive(After(l, Queues(c)), arrivals[1..]);
    }
  }

  lemma MayOne(l: Ledger, e: Event)
    requires May(l, e)
    ensures MayRun(l, [e])
  {
    assert [e][1..] == [];
  }

  lemma MayTwo(l: Ledger, e: Event, f: Event)
    requires May(l, e) && May(After(l, e), f)
    ensures MayRun(l, [e, f])
  {
    hide May, After;
    MayOne(l, e);
    OneStep(l, e);
    MayOne(After(l, e), f);
    MayRunOn(l, [e], [f]);
    assert [e] + [f] == [e, f];
  }

  lemma DiffOutcome(d: Desk, req: PollRequest, names: seq<string>, ids: seq<string>, now: int)
    requires ImageNames(d.templates, names) && IdsOn(d.world.sandboxes, req.nodeId, ids)
    ensures Declarative(Ok(Commands(d, req, names, ids, now)))
  {
    hide Commands, ImageNames, IdsOn;
    var cs := Commands(d, req, names, ids, now);
    forall i | 0 <= i < |cs|
      ensures !RunOnce(cs[i])
    {
      DiffIsDeclarative(d, req, names, ids, now, cs[i]);
    }
  }

  /** A turn of the driver, whatever is queued during its wait, is a run that may be, so
      it loses and repeats nothing. */
  lemma TurnConserves(l: Ledger, first: Outcome, arrivals: seq<Command>, second: Outcome)
    requires Conserved(l) && l.phase.Idle? && Fresh(l, arrivals) && Declarative(first) && Declarative(second)
    ensures var es := TurnEvents(l.batch, l.queue, first, arrivals, second);
            MayRun(l, es) && Conserved(Run(l, es))
  {
    hide Conserved, Declarative, Fresh;
    var es := TurnEvents(l.batch, l.queue, first, arrivals, second);
    var looked := After(After(l, Syncs), DriverLooks(first));
    var rest := es[2..];
    assert es == [Syncs, DriverLooks(first)] + rest;
    MayTwo(l, Syncs, DriverLooks(first));
    TwoSteps(l, Syncs, DriverLooks(first));
    if rest != [] {
      assert rest == Arrive(arrivals) + [DriverLooksAgain(second)];
      SameFresh(l, looked, arrivals);
      MayArrive(looked, arrivals);
      Arrived(looked, arrivals);
      MayOne(Run(looked, Arrive(arrivals)), DriverLooksAgain(second));
      MayRunOn(looked, Arrive(arrivals), [DriverLooksAgain(second)]);
    }
    MayRunOn(l, [Syncs, DriverLooks(first)], rest);
    ConservedThroughout(l, es);
  }

  lemma SameFresh(l: Ledger, v: Ledger, arrivals: seq<Command>)
    requires Fresh(l, arrivals) && v.ever == l.ever
    ensures Fresh(v, arrivals)
  {}

  /** So is a poll. */
  lemma PollConserves(l: Ledger, putOff: map<string, nat>, first: Outcome, arrivals: seq<Command>, second: Outcome,
                      waited: nat)
    requires Conserved(l) && Fresh(l, arrivals) && Declarative(first) && Declarative(second)
    ensures var es := PollEvents(l.queue, putOff, first, arrivals, second, waited);
            MayRun(l, es) && Conserved(Run(l, es))
  {
    hide Conserved, Declarative, Fresh, LeftIn;
    var es := PollEvents(l.queue, putOff, first, arrivals, second, waited);
    var look, again := PollLooks(first, putOff, 0), PollLooks(second, putOff, waited);
    MayOne(l, look);
    OneStep(l, look);
    if es != [look] {
      var parked := After(l, look);
      SameFresh(l, parked, arrivals);
      MayArrive(parked, arrivals);
      Arrived(parked, arrivals);
      MayOne(Run(parked, Arrive(arrivals)), again);
      MayRunOn(parked, Arrive(arrivals), [again]);
      MayRunOn(l, [look], Arrive(arrivals) + [again]);
    }
    ConservedThroughout(l, es);
  }
}
