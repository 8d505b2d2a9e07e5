/** The handlers of a switch and of a create as moves of the interleaving, so that what
    holds of every interleaving holds of them. */
module SwitchRuns {
  import opened Wrappers
  import opened Tables
  import opened Protocol
  import Slots
  import opened Placement
  import opened State
  import opened Creates
  import opened Switching
  import Dispatch
  import Reconcile
  import Text

  // ---- a switch, to its answer ------------------------------------------------------

  /** What came of the command: the node said it restarts, said why not, or said
      nothing in time. */
  datatype Answer = Accepted | Declined | Silent

  datatype Reply = NotAsked(why: Outcome) | Restarting | RefusedByNode | TimedOut

  function NameOf(kind: Backend): string {
    match kind
    case Runsc => "runsc"
    case Firecracker => "firecracker"
  }

  /** The whole handler: the node is asked only when it may be, through its queue of
      run-once commands. A node that declines is placeable again; one that accepts, or
      says nothing, stays out of placement, for it may have switched. */
  method SwitchBackend(store: Store, board: Switchboard, d: Dispatch.Dispatcher, node: string, want: Backend,
                       switchable: bool, resultId: string, answer: Answer, now: int)
    returns (r: Reply)
    requires resultId !in d.pending
    modifies board, d
    ensures !r.NotAsked? <==>
              && !Live(old(board.entries), node, now)
              && node in store.nodes && store.nodes[node].connected && switchable
              && OnNode(store.sandboxes, node) == {} && Baked(store.snapshots, node) == {}
              && (node in store.hosts ==> BackendOfEngine(store.hosts[node].engine) != Some(want))
    ensures r.NotAsked? ==> d.queues == old(d.queues)
    ensures !r.NotAsked? ==>
              var name := if want == Runsc then "runsc" else "firecracker";
              d.queues == old(d.queues)[node := QueueOf(old(d.queues), node) + [SetBackend(name, resultId)]]
    ensures d.pending == old(d.pending)
    ensures r.Restarting? || r.TimedOut? ==> Live(board.entries, node, now)
    ensures r.RefusedByNode? ==> !Live(board.entries, node, now)
    ensures !r.NotAsked? ==> (r.Restarting? <==> answer.Accepted?) && (r.RefusedByNode? <==> answer.Declined?)
  {
    hide BackendOfEngine, Run, Possible;
    var outcome := SetNodeBackend(store, board, node, want, switchable, now);
    if !outcome.Queued? {
      return NotAsked(outcome);
    }
    d.Enqueue(node, SetBackend(NameOf(want), resultId));
    var known := d.Deliver(resultId);
    match answer {
      case Accepted => return Reply.Restarting;
      case Declined =>
        board.Release(node);
        return RefusedByNode;
      case Silent => return TimedOut;
    }
  }

  /** A node that comes back saying the name it was sent, with any version after it, is read
      as being on that backend. */
  lemma NameReadsBack(want: Backend, version: string)
    ensures BackendOfEngine(NameOf(want) + version) == Some(want)
  {
    hide BackendOfEngine;
    EngineTells(NameOf(want) + version);
    Text.TrimKeepsStart(NameOf(want), version);
  }

  /** Its report then ends the switch, and a report of the other backend does not. */
  lemma ReportEndsSwitch(d: Reconcile.Desk, req: PollRequest, now: int, node: string, kind: Backend, version: string)
    requires node in d.entries && req.nodeId == node
    requires req.host.Some? && req.host.value.engine == NameOf(kind) + version
    ensures node in Reconcile.Diffed(d, req, now).entries <==> d.entries[node].kind != kind
    ensures forall n :: n != node ==>
              (n in Reconcile.Diffed(d, req, now).entries <==> n in d.entries)
              && (n in d.entries ==> Reconcile.Diffed(d, req, now).entries[n] == d.entries[n])
  {
    hide BackendOfEngine, NameOf, Reconcile.Told, Reconcile.PulledAll, Reconcile.RecordedAll;
    NameReadsBack(kind, version);
  }

  // ---- a create -----------------------------------------------------------------------

  /** Which of the listed nodes placement passes by, each looked up in turn. */
  method FindSwitching(board: Switchboard, listing: seq<string>, now: int) returns (found: set<string>)
    modifies board
    ensures forall n :: n in found <==> n in listing && n in LiveNodes(old(board.entries), now)
    ensures forall n, t :: now <= t ==> (Live(board.entries, n, t) <==> Live(old(board.entries), n, t))
  {
    found := {};
    for i := 0 to |listing|
      invariant forall n :: n in found <==> n in listing[..i] && Live(old(board.entries), n, now)
      invariant forall n, t :: now <= t ==> (Live(board.entries, n, t) <==> Live(old(board.entries), n, t))
    {
      var to := board.SwitchingTo(listing[i], now);
      if to.Some? {
        found := found + {listing[i]};
      }
      assert listing[..i + 1] == listing[..i] + [listing[i]];
    }
    assert listing[..|listing|] == listing;
  }

  function ChooseAll(nodes: seq<string>): (mvs: seq<Move>)
    ensures |mvs| == |nodes|
  {
    seq(|nodes|, i requires 0 <= i < |nodes| => Chooses(nodes[i]))
  }

  /** The rows a create added. */
  function Added(before: Sandboxes, after: Sandboxes): Sandboxes {
    map s | s in after && s !in before :: after[s]
  }

  /** A create takes the store, chooses its nodes and writes its rows. */
  function CreateMoves(before: Sandboxes, after: Sandboxes, nodes: seq<string>): seq<Move> {
    [Opens] + (ChooseAll(nodes) + [Writes(Added(before, after))])
  }

  lemma {:induction false} RunOn(m: Machine, a: seq<Move>, b: seq<Move>)
    ensures Run(m, a + b) == Run(Run(m, a), b)
    ensures Possible(m, a + b) <==> Possible(m, a) && Possible(Run(m, a), b)
    decreases |a|
  {
    hide After, Enabled;
    if a == [] {
      assert a + b == b;
    } else {
      assert (a + b)[1..] == a[1..] + b;
      RunOn(After(m, a[0]), a[1..], b);
    }
  }

  lemma {:induction false} ChoosesRun(m: Machine, nodes: seq<string>)
    requires m.lock.Some? && forall i :: 0 <= i < |nodes| ==> nodes[i] !in LiveNodes(m.entries, m.now)
    ensures Possible(m, ChooseAll(nodes))
    ensures var v := Run(m, ChooseAll(nodes));
            && v.lock.Some? && v.lock.value == m.lock.value + (set n | n in nodes)
            && v == m.(entries := v.entries, lock := v.lock)
            && forall n :: Live(v.entries, n, m.now) <==> Live(m.entries, n, m.now)
    decreases |nodes|
  {
    if nodes != [] {
      var next := After(m, Chooses(nodes[0]));
      assert ChooseAll(nodes)[1..] == ChooseAll(nodes[1..]);
      ChoosesRun(next, nodes[1..]);
      assert nodes == [nodes[0]] + nodes[1..];
    }
  }

  /** Any create that adds rows only on nodes it found not being switched is such moves,
      one for each node it chose. */
  lemma CreateIsRun(m: Machine, after: Sandboxes, nodes: seq<string>)
    requires m.lock.None? && Untouched(m.sandboxes, after)
    requires forall i :: 0 <= i < |nodes| ==> nodes[i] !in LiveNodes(m.entries, m.now)
    requires forall s :: s in after && s !in m.sandboxes ==> after[s].nodeId in nodes
    ensures var mvs := CreateMoves(m.sandboxes, after, nodes);
            && ByScheduler(mvs) && Possible(m, mvs)
            && Run(m, mvs) == m.(sandboxes := after, entries := Run(m, mvs).entries)
            && forall n :: Live(Run(m, mvs).entries, n, m.now) <==> Live(m.entries, n, m.now)
  {
    var begun := After(m, Opens);
    var mvs := CreateMoves(m.sandboxes, after, nodes);
    var rows := Added(m.sandboxes, after);
    ChoosesRun(begun, nodes);
    var chosen := Run(begun, ChooseAll(nodes));
    hide After, Run, Possible, Live;
    OneMove(m, Opens);
    OneMove(chosen, Writes(rows));
    RunOn(m, [Opens], ChooseAll(nodes) + [Writes(rows)]);
    RunOn(begun, ChooseAll(nodes), [Writes(rows)]);
    WritesAfter(chosen, after);
  }

  lemma WritesAfter(m: Machine, after: Sandboxes)
    requires Untouched(m.sandboxes, after)
    ensures After(m, Writes(Added(m.sandboxes, after))) == m.(sandboxes := after, lock := None)
  {}

  /** A fork whose picks each look the switches up is such moves: it keeps every node
      that was counted empty and is still being switched without a sandbox. */
  method ForkBeside(store: Store, board: Switchboard, listing: seq<string>, admit: Admission, fingerprint: string,
                    ids: seq<string>, tokens: seq<string>, asked: SandboxRow, plan: Slots.Plan, now: int,
                    ghost counted: set<string>)
    returns (r: Result<nat, CreateError>)
    requires Listed(FleetOf(store, listing, {}, admit)) && |ids| == |tokens|
    requires plan.portHi <= Slots.U32_MAX && plan.maxNetIndex <= Slots.U32_MAX
    requires AllClear(Machine(now, store.sandboxes, board.entries, counted, None))
    modifies store`sandboxes, board
    ensures r.Err? ==> store.sandboxes == old(store.sandboxes)
    ensures AllClear(Machine(now, store.sandboxes, board.entries, counted, None))
    ensures r.Ok? ==> exists nodes: seq<string> ::
              Possible(old(Machine(now, store.sandboxes, board.entries, counted, None)),
                       CreateMoves(old(store.sandboxes), store.sandboxes, nodes))
  {
    hide Holds, Ever, Always, CapsHold, EvenOn, Matching, OnMatching, Run, Possible, CreateMoves, ByScheduler, OnNode;
    ghost var m := Machine(now, store.sandboxes, board.entries, counted, None);
    var switching: seq<set<string>> := [];
    for i := 0 to |ids|
      invariant |switching| == i && store.sandboxes == m.sandboxes
      invariant forall k, n :: 0 <= k < i ==> (n in switching[k] <==> n in listing && Live(m.entries, n, now))
      invariant forall n, t :: now <= t ==> (Live(board.entries, n, t) <==> Live(m.entries, n, t))
    {
      var found := FindSwitching(board, listing, now);
      switching := switching + [found];
    }
    r := CreateFork(store, listing, switching, admit, fingerprint, ids, tokens, asked, plan);
    if r.Ok? {
      ghost var after := store.sandboxes;
      ghost var nodes := NodesOf(after, ids);
      NewOnNodes(m.sandboxes, after, ids);
      forall i | 0 <= i < |nodes|
        ensures nodes[i] !in LiveNodes(m.entries, now)
      {
        MatchingListed(store.nodes, listing, after[ids[i]], fingerprint);
        assert nodes[i] !in switching[i];
      }
      CreateIsRun(m, after, nodes);
      ClearThroughout(m, CreateMoves(m.sandboxes, after, nodes));
      SameLive(Run(m, CreateMoves(m.sandboxes, after, nodes)), Machine(now, after, board.entries, counted, None));
    } else {
      SameLive(m, Machine(now, store.sandboxes, board.entries, counted, None));
    }
  }

  ghost function NodesOf(sandboxes: Sandboxes, ids: seq<string>): (nodes: seq<string>)
    requires forall i :: 0 <= i < |ids| ==> ids[i] in sandboxes
    ensures |nodes| == |ids| && forall i :: 0 <= i < |ids| ==> nodes[i] == sandboxes[ids[i]].nodeId
  {
    seq(|ids|, i requires 0 <= i < |ids| => sandboxes[ids[i]].nodeId)
  }

  lemma NewOnNodes(before: Sandboxes, after: Sandboxes, ids: seq<string>)
    requires OnlyAdds(before, after, ids) && forall i :: 0 <= i < |ids| ==> ids[i] in after
    ensures forall s :: s in after && s !in before ==> after[s].nodeId in NodesOf(after, ids)
  {
    forall s | s in after && s !in before
      ensures after[s].nodeId in NodesOf(after, ids)
    {
      var i :| 0 <= i < |ids| && ids[i] == s;
      assert NodesOf(after, ids)[i] == after[s].nodeId;
    }
  }

  lemma MatchingListed(nodes: Nodes, listing: seq<string>, row: SandboxRow, fingerprint: string)
    requires OnMatching(nodes, row, fingerprint) && forall n :: n in nodes ==> n in listing
    ensures row.nodeId in listing
  {}

  /** The law reads no more of the entries than which are live. */
  lemma SameLive(m: Machine, v: Machine)
    requires AllClear(m) && v == m.(entries := v.entries)
    requires forall n :: Live(v.entries, n, m.now) <==> Live(m.entries, n, m.now)
    ensures AllClear(v)
  {
    forall n ensures Clear(v, n) {
      assert Clear(m, n);
    }
  }
}
