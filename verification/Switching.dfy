/** Changing a node's backend while creates go on: the node is taken out
    of placement before its sandboxes are counted, and a create holds the store
    from the moment it chooses a node until its rows are written. */
module Switching {
  import opened Wrappers
  import opened Tables
  import opened Placement
  import opened State
  import Text

  /** How long a node stays out of placement if nothing puts it back, in seconds. */
  const SWITCH_HOLD := 120

  datatype Backend = Runsc | Firecracker

  datatype Entry = Entry(kind: Backend, at: int)

  type Entries = map<string, Entry>

  predicate Fresh(e: Entry, now: int) {
    now - e.at < SWITCH_HOLD
  }

  predicate Live(entries: Entries, node: string, now: int) {
    node in entries && Fresh(entries[node], now)
  }

  function Retained(entries: Entries, now: int): Entries {
    map n | n in entries && Fresh(entries[n], now) :: entries[n]
  }

  /** Which nodes placement passes by. */
  function LiveNodes(entries: Entries, now: int): (s: set<string>)
    ensures forall n :: n in s <==> Live(entries, n, now)
  {
    set n | n in entries && Fresh(entries[n], now)
  }

  class Switchboard {
    var entries: Entries

    constructor ()
      ensures entries == map[]
    {
      entries := map[];
    }

    /** The backend of a live switch. */
    method SwitchingTo(node: string, now: int) returns (to: Option<Backend>)
      modifies this
      ensures entries == Retained(old(entries), now)
      ensures to.Some? <==> Live(old(entries), node, now)
      ensures to.Some? ==> to.value == old(entries)[node].kind
    {
      entries := Retained(entries, now);
      to := if node in entries then Some(entries[node].kind) else None;
    }

    /** Takes a node out of placement, unless a switch of it is already under way. */
    method Begin(node: string, kind: Backend, now: int) returns (ok: bool)
      modifies this
      ensures ok <==> !Live(old(entries), node, now)
      ensures var kept := Retained(old(entries), now);
              entries == if ok then kept[node := Entry(kind, now)] else kept
      ensures ok ==> forall t :: Live(entries, node, t) <==> t < now + 120
      ensures forall n, t :: n != node && now <= t ==> (Live(entries, n, t) <==> Live(old(entries), n, t))
    {
      entries := Retained(entries, now);
      ok := node !in entries;
      if ok {
        entries := entries[node := Entry(kind, now)];
      }
    }

    method Release(node: string)
      modifies this
      ensures entries == old(entries) - {node}
    {
      entries := entries - {node};
    }

    /** A report that names the backend a switch was for ends it. */
    method Reported(node: string, kind: Option<Backend>)
      modifies this
      ensures entries == BackOn(old(entries), node, kind)
    {
      if (if node in entries then Some(entries[node].kind) else None) == kind {
        entries := entries - {node};
      }
    }
  }

  function BackOn(entries: Entries, node: string, kind: Option<Backend>): Entries {
    if node in entries && Some(entries[node].kind) == kind then entries - {node} else entries
  }

  /** The backend behind an engine's version text. */
  function BackendOfEngine(engine: string): Option<Backend> {
    var e := Lower(Text.Trim(engine));
    if "runsc" <= e then Some(Runsc)
    else if "firecracker" <= e then Some(Firecracker)
    else None
  }

  function Lower(s: string): (t: string)
    ensures |t| == |s|
  {
    seq(|s|, i requires 0 <= i < |s| => if 'A' <= s[i] <= 'Z' then (s[i] as int + 32) as char else s[i])
  }

  /** The text begins with this name, in letters of either case. */
  predicate Spells(s: string, name: string) {
    |s| >= |name| && forall i :: 0 <= i < |name| ==> s[i] == name[i] || s[i] as int + 32 == name[i] as int
  }

  lemma LowerSpells(s: string, name: string)
    requires forall i :: 0 <= i < |name| ==> 'a' <= name[i] <= 'z'
    ensures name <= Lower(s) <==> Spells(s, name)
  {
    if Spells(s, name) {
      assert forall i :: 0 <= i < |name| ==> Lower(s)[i] == name[i];
    }
    if name <= Lower(s) {
      forall i | 0 <= i < |name|
        ensures s[i] == name[i] || s[i] as int + 32 == name[i] as int
      {
        assert Lower(s)[i] == name[i];
      }
    }
  }

  /** Which backend an engine's text tells of: the one whose name it begins with, whatever
      version follows, and none for any other. */
  lemma EngineTells(engine: string)
    ensures BackendOfEngine(engine) == Some(Runsc) <==> Spells(Text.Trim(engine), "runsc")
    ensures BackendOfEngine(engine) == Some(Firecracker) <==> Spells(Text.Trim(engine), "firecracker")
  {
    hide Lower, Spells;
    var e := Text.Trim(engine);
    LowerSpells(e, "runsc");
    LowerSpells(e, "firecracker");
    if "firecracker" <= Lower(e) {
      OneNameOnly(Lower(e));
    }
  }

  lemma OneNameOnly(t: string)
    requires "firecracker" <= t
    ensures !("runsc" <= t)
  {
    assert t[0] == 'f';
  }

  datatype Outcome =
    | AlreadySwitching | Unknown | NotConnected | Holding(sandboxes: nat, snapshots: nat) | AlreadyOn
    | Fixed | Queued

  function Baked(snapshots: Snapshots, node: string): set<string> {
    set t | t in snapshots && snapshots[t].nodeId == node
  }

  function RunsOn(hosts: Hosts, node: string): Option<Backend> {
    if node in hosts then BackendOfEngine(hosts[node].engine) else None
  }

  /** What asking for a switch comes to, from the node's own state. */
  function Verdict(nodes: Nodes, sandboxes: Sandboxes, snapshots: Snapshots, hosts: Hosts, switchable: bool,
                   node: string, want: Backend): Outcome
  {
    if node !in nodes then Unknown
    else if !nodes[node].connected then NotConnected
    else if OnNode(sandboxes, node) != {} || Baked(snapshots, node) != {} then
      Holding(|OnNode(sandboxes, node)|, |Baked(snapshots, node)|)
    else if RunsOn(hosts, node) == Some(want) then AlreadyOn
    else if !switchable then Fixed
    else Queued
  }

  /** A node is asked exactly when it is known and connected, holds neither sandbox nor
      snapshot, is not on that backend already and can switch. */
  lemma AskedWhenEmpty(nodes: Nodes, sandboxes: Sandboxes, snapshots: Snapshots, hosts: Hosts, switchable: bool,
                       node: string, want: Backend)
    ensures Verdict(nodes, sandboxes, snapshots, hosts, switchable, node, want).Queued? <==>
              && node in nodes && nodes[node].connected && switchable
              && (forall s :: s in sandboxes ==> sandboxes[s].nodeId != node)
              && (forall t :: t in snapshots ==> snapshots[t].nodeId != node)
              && (node in hosts ==> BackendOfEngine(hosts[node].engine) != Some(want))
  {
    hide BackendOfEngine;
    forall s | s in sandboxes && sandboxes[s].nodeId == node
      ensures s in OnNode(sandboxes, node)
    {}
    forall t | t in snapshots && snapshots[t].nodeId == node
      ensures t in Baked(snapshots, node)
    {}
  }

  /** A connected node that holds anything is refused with how much; one that holds nothing
      and is on that backend already is told so, whether it can switch or not. */
  lemma RefusedForWhat(nodes: Nodes, sandboxes: Sandboxes, snapshots: Snapshots, hosts: Hosts, switchable: bool,
                       node: string, want: Backend)
    requires node in nodes && nodes[node].connected
    ensures var held, baked := |OnNode(sandboxes, node)|, |Baked(snapshots, node)|;
            var r := Verdict(nodes, sandboxes, snapshots, hosts, switchable, node, want);
            if held + baked > 0 then r == Holding(held, baked)
            else r.AlreadyOn? <==> node in hosts && BackendOfEngine(hosts[node].engine) == Some(want)
  {
    hide BackendOfEngine;
  }

  /** Asks a node to restart on another backend. Only an empty, connected node that
      can and is not on it already is asked, and only that one stays out of
      placement; every refusal puts the node back. */
  method SetNodeBackend(store: Store, board: Switchboard, node: string, want: Backend, switchable: bool, now: int)
    returns (r: Outcome)
    modifies board
    ensures r.AlreadySwitching? <==> Live(old(board.entries), node, now)
    ensures !r.AlreadySwitching? ==>
              r == Verdict(store.nodes, store.sandboxes, store.snapshots, store.hosts, switchable, node, want)
    ensures r.Queued? ==> Live(board.entries, node, now) && board.entries[node].kind == want
    ensures !r.Queued? && !r.AlreadySwitching? ==> !Live(board.entries, node, now)
    ensures forall n :: n != node ==> (Live(board.entries, n, now) <==> Live(old(board.entries), n, now))
    ensures var m := Machine(now, store.sandboxes, old(board.entries), {}, None);
            && Possible(m, SwitchMoves(r, node, want))
            && Run(m, SwitchMoves(r, node, want)) ==
               m.(entries := board.entries, counted := if r.Queued? then {node} else {})
  {
    hide BackendOfEngine;
    ghost var m := Machine(now, store.sandboxes, board.entries, {}, None);
    ThreeMoves(m, Begins(node, want), Counts(node), Releases(node));
    ThreeMoves(m, Begins(node, want), Releases(node), Releases(node));
    var ok := board.Begin(node, want, now);
    if !ok {
      return AlreadySwitching;
    }
    r := Verdict(store.nodes, store.sandboxes, store.snapshots, store.hosts, switchable, node, want);
    if !r.Queued? {
      board.Release(node);
    }
  }

  /** The moves a switch makes, by what it comes to. */
  function SwitchMoves(r: Outcome, node: string, want: Backend): seq<Move> {
    match r
    case AlreadySwitching => [Begins(node, want)]
    case Queued => [Begins(node, want), Counts(node)]
    case Unknown => [Begins(node, want), Releases(node)]
    case NotConnected => [Begins(node, want), Releases(node)]
    case _ => [Begins(node, want), Counts(node), Releases(node)]
  }

  lemma ThreeMoves(m: Machine, a: Move, b: Move, c: Move)
    ensures Run(m, [a]) == After(m, a) && Run(m, [a, b]) == After(After(m, a), b)
    ensures Run(m, [a, b, c]) == After(After(After(m, a), b), c)
    ensures Possible(m, [a]) <==> Enabled(m, a)
    ensures Possible(m, [a, b]) <==> Enabled(m, a) && Enabled(After(m, a), b)
    ensures Possible(m, [a, b, c]) <==> Possible(m, [a, b]) && Enabled(After(After(m, a), b), c)
  {
    hide After, Enabled, Run, Possible;
    OneMove(m, a);
    FirstMove(m, a, [b]);
    OneMove(After(m, a), b);
    FirstMove(m, a, [b, c]);
    FirstMove(After(m, a), b, [c]);
    OneMove(After(After(m, a), b), c);
    assert [a] + [b] == [a, b] && [a] + [b, c] == [a, b, c] && [b] + [c] == [b, c];
  }

  lemma OneMove(m: Machine, mv: Move)
    ensures Run(m, [mv]) == After(m, mv) && (Possible(m, [mv]) <==> Enabled(m, mv))
  {
    assert [mv][1..] == [];
  }

  lemma FirstMove(m: Machine, mv: Move, rest: seq<Move>)
    ensures Run(m, [mv] + rest) == Run(After(m, mv), rest)
    ensures Possible(m, [mv] + rest) <==> Enabled(m, mv) && Possible(After(m, mv), rest)
  {
    assert ([mv] + rest)[1..] == rest;
  }

  // ---- the interleaving -----------------------------------------------------------

  /** `counted` are the nodes whose switch found them empty; `lock` is what the
      create now holding the store has chosen so far. */
  datatype Machine = Machine(now: int, sandboxes: Sandboxes, entries: Entries, counted: set<string>,
                             lock: Option<set<string>>)

  datatype Move =
    | Tick(seconds: nat)
    | Begins(node: string, kind: Backend)
    | Counts(node: string)
    | Releases(node: string)
    | Reports(node: string, runs: Option<Backend>)
    | Opens
    | Chooses(node: string)
    | Writes(rows: Sandboxes)
    | GivesUp
    | Deletes(id: string)
    | Named(id: string, row: SandboxRow)

  /** The count, the deletes and the creates each need the store; a create keeps it
      while it chooses its nodes, one at a time, and until it has written. Switches
      begin and end without it, between any two of those. */
  predicate Enabled(m: Machine, mv: Move) {
    match mv
    case Counts(_) => m.lock.None?
    case Opens => m.lock.None?
    case Chooses(node) => m.lock.Some? && !Live(m.entries, node, m.now)
    case Writes(rows) =>
      && m.lock.Some?
      && forall s :: s in rows ==> s !in m.sandboxes && rows[s].nodeId in m.lock.value
    case GivesUp => m.lock.Some?
    case Deletes(_) => m.lock.None?
    case Named(id, _) => m.lock.None? && id !in m.sandboxes
    case _ => true
  }

  function After(m: Machine, mv: Move): Machine {
    match mv
    case Tick(seconds) => m.(now := m.now + seconds)
    case Begins(node, kind) =>
      if Live(m.entries, node, m.now) then m.(entries := Retained(m.entries, m.now))
      else m.(entries := Retained(m.entries, m.now)[node := Entry(kind, m.now)], counted := m.counted - {node})
    case Counts(node) =>
      if OnNode(m.sandboxes, node) != {} then m.(entries := m.entries - {node}, counted := m.counted - {node})
      else if node in m.entries then m.(counted := m.counted + {node})
      else m
    case Releases(node) => m.(entries := m.entries - {node}, counted := m.counted - {node})
    case Reports(node, runs) => m.(entries := BackOn(m.entries, node, runs))
    case Opens => m.(lock := Some({}))
    case Chooses(node) =>
      if m.lock.None? then m
      else m.(entries := Retained(m.entries, m.now), lock := Some(m.lock.value + {node}))
    case Writes(rows) => m.(sandboxes := m.sandboxes + rows, lock := None)
    case GivesUp => m.(lock := None)
    case Deletes(id) => m.(sandboxes := m.sandboxes - {id})
    case Named(id, row) => m.(sandboxes := m.sandboxes[id := row])
  }

  /** A node found empty and still out of placement holds no sandbox, and none is
      on its way. */
  ghost predicate Clear(m: Machine, n: string) {
    n in m.counted && Live(m.entries, n, m.now) ==>
      OnNode(m.sandboxes, n) == {} && (m.lock.Some? ==> n !in m.lock.value)
  }

  ghost predicate AllClear(m: Machine) {
    forall n :: Clear(m, n)
  }

  lemma StepClear(m: Machine, mv: Move, n: string)
    requires Clear(m, n) && Enabled(m, mv) && !mv.Named?
    ensures Clear(After(m, mv), n)
  {
    var v := After(m, mv);
    if n in v.counted && Live(v.entries, n, v.now) {
      assert OnNode(v.sandboxes, n) <= OnNode(m.sandboxes, n);
    }
  }

  /** A create sent to a node by name asks nothing of the switch; it keeps the law
      exactly when the node is not one found empty and still out of placement. */
  lemma NamedClear(m: Machine, id: string, row: SandboxRow)
    requires AllClear(m) && Enabled(m, Named(id, row))
    ensures AllClear(After(m, Named(id, row)))
       <==> !(row.nodeId in m.counted && Live(m.entries, row.nodeId, m.now))
  {
    var v := After(m, Named(id, row));
    assert id in OnNode(v.sandboxes, row.nodeId);
    assert Clear(v, row.nodeId) <==> !(row.nodeId in m.counted && Live(m.entries, row.nodeId, m.now));
    forall n | n != row.nodeId
      ensures Clear(v, n)
    {
      assert Clear(m, n);
      assert OnNode(v.sandboxes, n) == OnNode(m.sandboxes, n);
    }
  }

  function Run(m: Machine, mvs: seq<Move>): Machine
    decreases |mvs|
  {
    if mvs == [] then m else Run(After(m, mvs[0]), mvs[1..])
  }

  predicate Possible(m: Machine, mvs: seq<Move>)
    decreases |mvs|
  {
    mvs != [] ==> Enabled(m, mvs[0]) && Possible(After(m, mvs[0]), mvs[1..])
  }

  predicate ByScheduler(mvs: seq<Move>) {
    forall i :: 0 <= i < |mvs| ==> !mvs[i].Named?
  }

  /** However switches, creates, deletes, reports and the clock interleave, a node
      whose switch passed its count and is still live holds no sandbox. */
  lemma {:induction false} ClearThroughout(m: Machine, mvs: seq<Move>)
    requires AllClear(m) && Possible(m, mvs) && ByScheduler(mvs)
    ensures AllClear(Run(m, mvs))
    decreases |mvs|
  {
    hide Clear, After, Enabled;
    if mvs != [] {
      forall n ensures Clear(After(m, mvs[0]), n) {
        StepClear(m, mvs[0], n);
      }
      ClearThroughout(After(m, mvs[0]), mvs[1..]);
    }
  }

  lemma NothingCounted(m: Machine)
    requires m.counted == {}
    ensures AllClear(m)
  {}

  predicate KeepsAll(mvs: seq<Move>) {
    forall i :: 0 <= i < |mvs| ==> !mvs[i].Deletes?
  }

  /** A create that was first makes the switch refuse: while its sandboxes are
      there, no count of that node passes. */
  lemma {:induction false} FirstCreateRefusesSwitch(m: Machine, mvs: seq<Move>, n: string)
    requires OnNode(m.sandboxes, n) != {} && n !in m.counted
    requires Possible(m, mvs) && KeepsAll(mvs)
    ensures OnNode(Run(m, mvs).sandboxes, n) != {} && n !in Run(m, mvs).counted
    decreases |mvs|
  {
    hide OnNode;
    if mvs != [] {
      StillHeld(m, mvs[0], n);
      FirstCreateRefusesSwitch(After(m, mvs[0]), mvs[1..], n);
    }
  }

  lemma StillHeld(m: Machine, mv: Move, n: string)
    requires OnNode(m.sandboxes, n) != {} && Enabled(m, mv) && !mv.Deletes?
    ensures OnNode(After(m, mv).sandboxes, n) != {}
  {
    var s :| s in OnNode(m.sandboxes, n);
    assert s in OnNode(After(m, mv).sandboxes, n);
  }
}
