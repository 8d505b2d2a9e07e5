/** Where a create's sandboxes go: admission, the least loaded node, and the
    child-by-child spread of a fork. */
module Placement {
  import opened Wrappers
  import opened Tables
  import Pools

  // ---- admission ---------------------------------------------------------------

  datatype Admission = Admission(minFreeMib: nat, maxPsi: real) {
    /** The first reason against one more on this node. A cap of nought
        is no cap, and a node that reports nothing free has not reported. */
    function Refuse(n: NodeRow, load: nat): Option<Reason> {
      if n.maxSandboxes > 0 && load >= n.maxSandboxes then Some(AtCap)
      else if n.freeMib > 0 && n.freeMib < minFreeMib then Some(LowMemory)
      else if n.psi > maxPsi then Some(Pressure)
      else None
    }
  }

  datatype Reason = AtCap | LowMemory | Pressure | Restarting | BatchTooLarge

  datatype PlaceError = TooLoaded(refused: seq<(string, Reason)>) | NoneConnected | NoTemplate

  /** What the scheduler reads: the tables and the nodes in the order they are listed,
      under the store's lock, and the nodes it found being moved to another backend. */
  datatype Fleet = Fleet(nodes: Nodes, sandboxes: Sandboxes, listing: seq<string>, switching: set<string>,
                         admit: Admission)

  predicate Listed(f: Fleet) {
    && (forall i :: 0 <= i < |f.listing| ==> f.listing[i] in f.nodes)
    && (forall n :: n in f.nodes ==> n in f.listing)
    && (forall i, j :: 0 <= i < j < |f.listing| ==> f.listing[i] != f.listing[j])
  }

  function OnNode(sandboxes: Sandboxes, node: string): set<string> {
    set s | s in sandboxes && sandboxes[s].nodeId == node
  }

  /** What a node carries, with what this request has already given it. */
  function Load(f: Fleet, extra: map<string, nat>, n: string): nat {
    |OnNode(f.sandboxes, n)| + (if n in extra then extra[n] else 0)
  }

  type Fits = (string, NodeRow) -> bool

  /** Connected, wanted, not restarting, and neither short of memory nor under
      pressure: everything asked of a node but its cap. */
  predicate Open(f: Fleet, fits: Fits, n: string) {
    && n in f.nodes && f.nodes[n].connected && fits(n, f.nodes[n])
    && n !in f.switching
    && !(f.nodes[n].freeMib > 0 && f.nodes[n].freeMib < f.admit.minFreeMib)
    && f.nodes[n].psi <= f.admit.maxPsi
  }

  predicate UnderCap(n: NodeRow, load: nat, batch: nat) {
    n.maxSandboxes == 0 || load + batch <= n.maxSandboxes
  }

  /** May be given `batch` more. */
  predicate Eligible(f: Fleet, fits: Fits, extra: map<string, nat>, batch: nat, n: string) {
    Open(f, fits, n) && UnderCap(f.nodes[n], Load(f, extra, n), batch)
  }

  /** Where in the listing the least loaded eligible node is, the first of those
      that tie; -1 when there is none among the first `k`. */
  function Best(f: Fleet, fits: Fits, extra: map<string, nat>, batch: nat, k: nat): (b: int)
    requires k <= |f.listing|
    ensures -1 <= b < k
    ensures b < 0 ==> forall j :: 0 <= j < k ==> !Eligible(f, fits, extra, batch, f.listing[j])
    ensures b >= 0 ==> Eligible(f, fits, extra, batch, f.listing[b])
    ensures b >= 0 ==> forall j :: 0 <= j < k && Eligible(f, fits, extra, batch, f.listing[j]) ==>
              Load(f, extra, f.listing[b]) <= Load(f, extra, f.listing[j])
              && (j < b ==> Load(f, extra, f.listing[b]) < Load(f, extra, f.listing[j]))
  {
    if k == 0 then -1
    else
      var b := Best(f, fits, extra, batch, k - 1);
      if Eligible(f, fits, extra, batch, f.listing[k - 1])
         && (b < 0 || Load(f, extra, f.listing[k - 1]) < Load(f, extra, f.listing[b]))
      then k - 1 else b
  }

  /** Connected and wanted, whatever else is said of it. */
  predicate Up(f: Fleet, fits: Fits, n: string) {
    n in f.nodes && f.nodes[n].connected && fits(n, f.nodes[n])
  }

  /** Why an up node is passed by. */
  function WhyNot(f: Fleet, extra: map<string, nat>, batch: nat, n: string): Option<Reason>
    requires n in f.nodes
  {
    if n in f.switching then Some(Restarting)
    else if f.admit.Refuse(f.nodes[n], Load(f, extra, n)).Some? then f.admit.Refuse(f.nodes[n], Load(f, extra, n))
    else if f.nodes[n].maxSandboxes > 0 && Load(f, extra, n) + batch > f.nodes[n].maxSandboxes then Some(BatchTooLarge)
    else None
  }

  /** A reason given is true of the node. */
  lemma ReasonIsTrue(f: Fleet, extra: map<string, nat>, batch: nat, n: string)
    requires n in f.nodes && WhyNot(f, extra, batch, n).Some?
    ensures var row, load := f.nodes[n], Load(f, extra, n);
            match WhyNot(f, extra, batch, n).value
            case AtCap => 0 < row.maxSandboxes <= load
            case LowMemory => 0 < row.freeMib < f.admit.minFreeMib
            case Pressure => row.psi > f.admit.maxPsi
            case Restarting => n in f.switching
            case BatchTooLarge => load < row.maxSandboxes < load + batch
  {
    hide Load;
  }

  lemma EligibleIsNoReason(f: Fleet, fits: Fits, extra: map<string, nat>, batch: nat, n: string)
    requires n in f.nodes && batch > 0
    ensures Eligible(f, fits, extra, batch, n) <==> Up(f, fits, n) && WhyNot(f, extra, batch, n).None?
  {
    hide OnNode, Load;
  }

  /** The least loaded eligible node seen so far, with its load. */
  function Leader(f: Fleet, fits: Fits, extra: map<string, nat>, batch: nat, k: nat): Option<(string, nat)>
    requires k <= |f.listing|
  {
    var b := Best(f, fits, extra, batch, k);
    if b < 0 then None else Some((f.listing[b], Load(f, extra, f.listing[b])))
  }

  /** A node takes the lead when it is up, nothing speaks against it, and it is less
      loaded than whoever leads. */
  lemma LeaderStep(f: Fleet, fits: Fits, extra: map<string, nat>, batch: nat, k: nat)
    requires k < |f.listing| && f.listing[k] in f.nodes && batch > 0
    ensures var id, was := f.listing[k], Leader(f, fits, extra, batch, k);
            Leader(f, fits, extra, batch, k + 1) ==
              if Up(f, fits, id) && WhyNot(f, extra, batch, id).None?
                 && (was.None? || Load(f, extra, id) < was.value.1)
              then Some((id, Load(f, extra, id))) else was
  {
    EligibleIsNoReason(f, fits, extra, batch, f.listing[k]);
    hide Eligible, Load, Up, WhyNot;
  }

  /** Some node among the first `k` is up. */
  predicate AnyUp(f: Fleet, fits: Fits, k: nat)
    requires k <= |f.listing|
  {
    k > 0 && (AnyUp(f, fits, k - 1) || Up(f, fits, f.listing[k - 1]))
  }

  lemma {:induction false} AnyUpMeans(f: Fleet, fits: Fits, k: nat)
    requires k <= |f.listing|
    ensures AnyUp(f, fits, k) <==> exists j :: 0 <= j < k && Up(f, fits, f.listing[j])
  {
    hide Up;
    if k > 0 {
      AnyUpMeans(f, fits, k - 1);
    }
  }

  lemma NoneUp(f: Fleet, fits: Fits)
    requires Listed(f)
    ensures !AnyUp(f, fits, |f.listing|) <==> forall n :: n in f.nodes ==> !Up(f, fits, n)
  {
    hide Up;
    AnyUpMeans(f, fits, |f.listing|);
    if !AnyUp(f, fits, |f.listing|) {
      forall n | n in f.nodes ensures !Up(f, fits, n) {
        var j :| 0 <= j < |f.listing| && f.listing[j] == n;
      }
    }
  }

  method PickNodeWhere(f: Fleet, fits: Fits, extra: map<string, nat>, batch: nat)
    returns (r: Result<string, PlaceError>)
    requires Listed(f) && batch > 0
    ensures var b := Best(f, fits, extra, batch, |f.listing|);
            && (r.Ok? <==> b >= 0)
            && (r.Ok? ==> r.value == f.listing[b])
    ensures r.Err? ==> !r.error.NoTemplate?
    ensures r.Err? ==> (r.error.NoneConnected? <==> forall n :: n in f.nodes ==> !Up(f, fits, n))
    ensures r.Err? && r.error.TooLoaded? ==>
              forall p :: p in r.error.refused <==>
                p.0 in f.nodes && Up(f, fits, p.0) && WhyNot(f, extra, batch, p.0) == Some(p.1)
  {
    NoneUp(f, fits);
    ListedNodes(f);
    hide Best, Leader, Load, OnNode, Up, WhyNot, AnyUp, Listed;
    var best: Option<(string, nat)> := None;
    var refused: seq<(string, Reason)> := [];
    NothingSeen(f, fits, extra, batch);
    for i := 0 to |f.listing|
      invariant best == Leader(f, fits, extra, batch, i)
      invariant best.Some? || refused != [] <==> AnyUp(f, fits, i)
      invariant forall p :: p in refused <==>
                  p.0 in f.listing[..i] && Up(f, fits, p.0) && WhyNot(f, extra, batch, p.0) == Some(p.1)
    {
      var id := f.listing[i];
      assert f.listing[..i + 1] == f.listing[..i] + [id];
      LeaderStep(f, fits, extra, batch, i);
      AnyUpStep(f, fits, i);
      if Up(f, fits, id) {
        var why := WhyNot(f, extra, batch, id);
        if why.Some? {
          refused := refused + [(id, why.value)];
        } else if best.None? || Load(f, extra, id) < best.value.1 {
          best := Some((id, Load(f, extra, id)));
        }
      }
    }
    LeaderIsBest(f, fits, extra, batch);
    assert f.listing[..|f.listing|] == f.listing;
    match best {
      case Some(b) => return Ok(b.0);
      case None => return if refused != [] then Err(TooLoaded(refused)) else Err(NoneConnected);
    }
  }

  lemma LeaderIsBest(f: Fleet, fits: Fits, extra: map<string, nat>, batch: nat)
    ensures var b, l := Best(f, fits, extra, batch, |f.listing|), Leader(f, fits, extra, batch, |f.listing|);
            && (l.Some? <==> b >= 0)
            && (b >= 0 ==> l.value.0 == f.listing[b])
  {}

  lemma ListedNodes(f: Fleet)
    requires Listed(f)
    ensures forall i :: 0 <= i < |f.listing| ==> f.listing[i] in f.nodes
    ensures forall n :: n in f.listing <==> n in f.nodes
  {}

  lemma NothingSeen(f: Fleet, fits: Fits, extra: map<string, nat>, batch: nat)
    ensures Leader(f, fits, extra, batch, 0) == None && !AnyUp(f, fits, 0)
  {}

  lemma AnyUpStep(f: Fleet, fits: Fits, k: nat)
    requires k < |f.listing|
    ensures AnyUp(f, fits, k + 1) <==> AnyUp(f, fits, k) || Up(f, fits, f.listing[k])
  {
    hide Up;
  }

  /** What a pick means: an eligible node as lightly loaded as any other. */
  lemma PickIsLeast(f: Fleet, fits: Fits, extra: map<string, nat>, batch: nat, n: string)
    requires Listed(f)
    ensures var b := Best(f, fits, extra, batch, |f.listing|);
            && (b < 0 ==> !Eligible(f, fits, extra, batch, n))
            && (b >= 0 ==> Eligible(f, fits, extra, batch, f.listing[b]))
            && (b >= 0 && Eligible(f, fits, extra, batch, n) ==> Load(f, extra, f.listing[b]) <= Load(f, extra, n))
  {
    hide OnNode, Best, Load;
    if Eligible(f, fits, extra, batch, n) {
      var i :| 0 <= i < |f.listing| && f.listing[i] == n;
    }
  }

  // ---- a template's children ------------------------------------------------------

  /** In the pool or in one of its host groups. */
  predicate InPool(pool: string, n: NodeRow) {
    n.pool == pool || pool + "#" <= n.pool
  }

  /** Under a plain name, that is every node with that base name. */
  lemma InPoolIsBase(pool: string, n: NodeRow)
    requires '#' !in pool
    ensures InPool(pool, n) <==> Pools.BaseOf(n.pool) == pool
  {
    BaseByPrefix(pool, n.pool);
  }

  lemma {:induction false} BaseByPrefix(pool: string, name: string)
    requires '#' !in pool
    ensures (name == pool || pool + "#" <= name) <==> Pools.BaseOf(name) == pool
    decreases |pool|
  {
    if pool == "" {
      assert pool + "#" <= name <==> name != "" && name[0] == '#';
    } else if name != "" && name[0] == pool[0] {
      BaseByPrefix(pool[1..], name[1..]);
      assert name == [name[0]] + name[1..] && pool == [pool[0]] + pool[1..];
      assert pool + "#" == [pool[0]] + (pool[1..] + "#");
      assert pool + "#" <= name <==> pool[1..] + "#" <= name[1..];
    } else {
      assert (pool + "#")[0] == pool[0];
    }
  }

  /** In the pool, on the asked backend if one was asked for. */
  predicate InReach(f: Fleet, pool: string, onBackend: string -> bool, n: string) {
    n in f.nodes && f.nodes[n].connected && InPool(pool, f.nodes[n]) && onBackend(n)
  }

  function StartableIn(pool: string, onBackend: string -> bool, canStart: string -> bool): Fits {
    (id: string, n: NodeRow) => InPool(pool, n) && onBackend(id) && canStart(id)
  }

  /** One node for all of a template's children: the pool's least loaded that can
      start it and has room for every one. */
  method PickNode(f: Fleet, pool: string, onBackend: string -> bool, canStart: string -> bool, count: nat)
    returns (r: Result<string, PlaceError>)
    requires Listed(f) && count > 0
    ensures var b := Best(f, StartableIn(pool, onBackend, canStart), map[], count, |f.listing|);
            && (r.Ok? <==> b >= 0)
            && (r.Ok? ==> r.value == f.listing[b])
    ensures r == Err(NoTemplate) <==>
              && (exists n :: InReach(f, pool, onBackend, n))
              && (forall n :: InReach(f, pool, onBackend, n) ==> !canStart(n))
  {
    hide InPool, Load, OnNode;
    var fits := StartableIn(pool, onBackend, canStart);
    var up, can := false, false;
    for i := 0 to |f.listing|
      invariant up <==> exists j :: 0 <= j < i && InReach(f, pool, onBackend, f.listing[j])
      invariant can <==> exists j :: 0 <= j < i && InReach(f, pool, onBackend, f.listing[j]) && canStart(f.listing[j])
    {
      var id := f.listing[i];
      if InReach(f, pool, onBackend, id) {
        up := true;
        can := can || canStart(id);
      }
    }
    forall n | InReach(f, pool, onBackend, n)
      ensures n in f.listing
    {}
    if up && !can {
      assert forall j :: 0 <= j < |f.listing| ==> !Eligible(f, fits, map[], count, f.listing[j]);
      return Err(NoTemplate);
    }
    r := PickNodeWhere(f, fits, map[], count);
  }

  // ---- a fork's children -----------------------------------------------------------

  /** How many more a capped node can take. */
  function RoomOf(f: Fleet, fits: Fits, extra: map<string, nat>, n: string): nat {
    if Open(f, fits, n) && f.nodes[n].maxSandboxes > Load(f, extra, n)
    then f.nodes[n].maxSandboxes - Load(f, extra, n) else 0
  }

  function RoomIn(f: Fleet, fits: Fits, extra: map<string, nat>, listing: seq<string>): nat {
    if listing == [] then 0 else RoomOf(f, fits, extra, listing[0]) + RoomIn(f, fits, extra, listing[1..])
  }

  /** Some open node has no cap. */
  ghost predicate Boundless(f: Fleet, fits: Fits) {
    exists n :: n in f.nodes && Open(f, fits, n) && f.nodes[n].maxSandboxes == 0
  }

  function Given(extra: map<string, nat>, n: string): nat {
    if n in extra then extra[n] else 0
  }

  function OneMore(extra: map<string, nat>, n: string): map<string, nat> {
    extra[n := Given(extra, n) + 1]
  }

  function CountOf(out: seq<string>, n: string): nat {
    if out == [] then 0 else CountOf(out[..|out| - 1], n) + (if out[|out| - 1] == n then 1 else 0)
  }

  lemma {:induction false} RoomUnchanged(f: Fleet, fits: Fits, extra: map<string, nat>, n: string, listing: seq<string>)
    requires n !in listing
    ensures RoomIn(f, fits, OneMore(extra, n), listing) == RoomIn(f, fits, extra, listing)
    decreases |listing|
  {
    if listing != [] {
      RoomUnchanged(f, fits, extra, n, listing[1..]);
    }
  }

  /** One child given to a capped node takes one from the room there is. */
  lemma {:induction false} RoomTaken(f: Fleet, fits: Fits, extra: map<string, nat>, n: string, listing: seq<string>)
    requires forall i, j :: 0 <= i < j < |listing| ==> listing[i] != listing[j]
    requires n in listing && Eligible(f, fits, extra, 1, n) && f.nodes[n].maxSandboxes > 0
    ensures RoomIn(f, fits, OneMore(extra, n), listing) == RoomIn(f, fits, extra, listing) - 1
    decreases |listing|
  {
    hide OnNode;
    if listing[0] == n {
      RoomUnchanged(f, fits, extra, n, listing[1..]);
    } else {
      RoomTaken(f, fits, extra, n, listing[1..]);
    }
  }

  lemma {:induction false} NoRoomLeft(f: Fleet, fits: Fits, extra: map<string, nat>, listing: seq<string>)
    requires forall n :: n in listing ==> !Eligible(f, fits, extra, 1, n)
    ensures RoomIn(f, fits, extra, listing) == 0
    decreases |listing|
  {
    hide OnNode;
    if listing != [] {
      assert !Eligible(f, fits, extra, 1, listing[0]);
      NoRoomLeft(f, fits, extra, listing[1..]);
    }
  }

  /** No recipient is more than one above a node that could still take a child. */
  ghost predicate Balanced(f: Fleet, fits: Fits, extra: map<string, nat>) {
    forall a, b :: Given(extra, a) > 0 && Eligible(f, fits, extra, 1, b) ==>
      Load(f, extra, a) <= Load(f, extra, b) + 1
  }

  /** Every recipient is open and within its cap. */
  ghost predicate WithinCaps(f: Fleet, fits: Fits, extra: map<string, nat>) {
    forall a :: Given(extra, a) > 0 ==>
      Open(f, fits, a) && (f.nodes[a].maxSandboxes == 0 || Load(f, extra, a) <= f.nodes[a].maxSandboxes)
  }

  lemma GivenOneMore(f: Fleet, extra: map<string, nat>, n: string, a: string)
    ensures Given(OneMore(extra, n), a) == Given(extra, a) + (if a == n then 1 else 0)
    ensures Load(f, OneMore(extra, n), a) == Load(f, extra, a) + (if a == n then 1 else 0)
  {
    hide OnNode;
  }

  /** The same fleet but for more nodes being switched. */
  predicate MoreSwitching(e: Fleet, g: Fleet) {
    e == g.(switching := e.switching) && g.switching <= e.switching
  }

  lemma EligibleStill(e: Fleet, g: Fleet, fits: Fits, extra: map<string, nat>, n: string)
    requires MoreSwitching(e, g)
    ensures Eligible(e, fits, extra, 1, n) ==> Eligible(g, fits, extra, 1, n)
    ensures Load(e, extra, n) == Load(g, extra, n)
  {
    hide OnNode;
  }

  /** A pick in `g` keeps the spread even among the nodes that are open in `e` too. */
  lemma PickKeepsEven(e: Fleet, g: Fleet, fits: Fits, extra: map<string, nat>)
    requires Listed(g) && MoreSwitching(e, g) && Balanced(e, fits, extra)
    requires Best(g, fits, extra, 1, |g.listing|) >= 0
    ensures Balanced(e, fits, OneMore(extra, g.listing[Best(g, fits, extra, 1, |g.listing|)]))
  {
    hide OnNode, Best, Load, Given, OneMore, Listed, MoreSwitching;
    var n := g.listing[Best(g, fits, extra, 1, |g.listing|)];
    var next := OneMore(extra, n);
    forall a, b | Given(next, a) > 0 && Eligible(e, fits, next, 1, b)
      ensures Load(e, next, a) <= Load(e, next, b) + 1
    {
      GivenOneMore(e, extra, n, a);
      GivenOneMore(e, extra, n, b);
      assert Eligible(e, fits, extra, 1, b);
      EligibleStill(e, g, fits, extra, b);
      EligibleStill(e, g, fits, extra, n);
      PickIsLeast(g, fits, extra, 1, b);
    }
  }

  /** and within the caps of the nodes that are open in `a`, whatever else was not. */
  lemma PickKeepsCaps(g: Fleet, a: Fleet, fits: Fits, extra: map<string, nat>)
    requires Listed(g) && MoreSwitching(g, a) && WithinCaps(a, fits, extra)
    requires Best(g, fits, extra, 1, |g.listing|) >= 0
    ensures var n := g.listing[Best(g, fits, extra, 1, |g.listing|)];
            WithinCaps(a, fits, OneMore(extra, n)) && Eligible(a, fits, extra, 1, n) && n !in g.switching
  {
    hide OnNode, Best, Load, Given, OneMore, Listed;
    var n := g.listing[Best(g, fits, extra, 1, |g.listing|)];
    var next := OneMore(extra, n);
    PickIsLeast(g, fits, extra, 1, n);
    EligibleStill(g, a, fits, extra, n);
    forall m | Given(next, m) > 0
      ensures Open(a, fits, m) && (a.nodes[m].maxSandboxes == 0 || Load(a, next, m) <= a.nodes[m].maxSandboxes)
    {
      GivenOneMore(a, extra, n, m);
    }
  }

  /** Giving a child to an eligible node takes one from the room of a fleet all of whose
      nodes are capped. */
  lemma PickTakesRoom(f: Fleet, fits: Fits, extra: map<string, nat>, n: string)
    requires Listed(f) && !Boundless(f, fits) && Eligible(f, fits, extra, 1, n)
    ensures RoomIn(f, fits, extra, f.listing) == RoomIn(f, fits, OneMore(extra, n), f.listing) + 1
  {
    hide OnNode, Load, Best, RoomIn;
    assert f.nodes[n].maxSandboxes > 0 && n in f.listing;
    RoomTaken(f, fits, extra, n, f.listing);
  }

  /** Giving a child to any node takes no more than one from the room there is. */
  lemma {:induction false} RoomTakenAtMost(f: Fleet, fits: Fits, extra: map<string, nat>, n: string,
                                           listing: seq<string>)
    requires forall i, j :: 0 <= i < j < |listing| ==> listing[i] != listing[j]
    ensures RoomIn(f, fits, OneMore(extra, n), listing) + 1 >= RoomIn(f, fits, extra, listing)
    decreases |listing|
  {
    hide OnNode, Open;
    if listing != [] {
      if listing[0] == n {
        RoomUnchanged(f, fits, extra, n, listing[1..]);
      } else {
        RoomTakenAtMost(f, fits, extra, n, listing[1..]);
      }
    }
  }

  lemma CountOneMore(out: seq<string>, n: string, a: string)
    ensures CountOf(out + [n], a) == CountOf(out, a) + (if a == n then 1 else 0)
  {
    assert (out + [n])[..|out + [n]| - 1] == out;
  }

  /** The nodes found switching at some pick, and those found so at every pick. */
  function Ever(switching: seq<set<string>>): (s: set<string>)
    ensures forall n :: n in s <==> exists k :: 0 <= k < |switching| && n in switching[k]
  {
    if switching == [] then {} else Ever(switching[..|switching| - 1]) + switching[|switching| - 1]
  }

  function Always(switching: seq<set<string>>): (s: set<string>)
    ensures forall n :: n in s ==> forall k :: 0 <= k < |switching| ==> n in switching[k]
    ensures |switching| > 0 ==> forall n :: (forall k :: 0 <= k < |switching| ==> n in switching[k]) ==> n in s
  {
    if switching == [] then {}
    else if |switching| == 1 then switching[0]
    else Always(switching[..|switching| - 1]) * switching[|switching| - 1]
  }

  /** While no switch begins or ends the two are one. */
  lemma SteadySwitching(s: set<string>, switching: seq<set<string>>)
    requires |switching| > 0 && forall k :: 0 <= k < |switching| ==> switching[k] == s
    ensures Ever(switching) == s == Always(switching)
  {
    hide Ever, Always;
    forall n
      ensures n in Ever(switching) <==> n in s
      ensures n in Always(switching) <==> n in s
    {
      assert switching[0] == s;
      if n in s {
        assert forall k :: 0 <= k < |switching| ==> n in switching[k];
      }
    }
  }

  /** The fleet with these nodes left out for being switched. */
  function Less(f: Fleet, switching: set<string>): Fleet {
    f.(switching := switching)
  }

  /** Room for `count` more on the nodes left. */
  ghost predicate Holds(f: Fleet, fits: Fits, count: nat) {
    Boundless(f, fits) || RoomIn(f, fits, map[], f.listing) >= count
  }

  /** Spreads a fork's children, each to the least loaded matching node, counting
      those already placed; `switching` is what each pick found being switched. It
      succeeds when the matching nodes no pick found so have room for all of them, and
      only when those some pick did not find so do: while no switch begins or ends, if
      and only if. No cap is passed, and the spread is even over the nodes always open.
      Nothing is written either way. */
  method PlaceFork(f: Fleet, fits: Fits, switching: seq<set<string>>)
    returns (r: Result<seq<string>, PlaceError>, ghost extra: map<string, nat>)
    requires Listed(f)
    ensures Holds(Less(f, Ever(switching)), fits, |switching|) ==> r.Ok?
    ensures r.Ok? ==> Holds(Less(f, Always(switching)), fits, |switching|)
    ensures r.Ok? ==> |r.value| == |switching|
    ensures r.Ok? ==> forall n :: Given(extra, n) == CountOf(r.value, n)
    ensures r.Ok? ==> forall k :: 0 <= k < |switching| ==> r.value[k] !in switching[k]
    ensures r.Ok? ==> Balanced(Less(f, Ever(switching)), fits, extra)
    ensures r.Ok? ==> WithinCaps(Less(f, Always(switching)), fits, extra)
  {
    hide OnNode, Load, Best, RoomIn, RoomOf, Boundless, Open, Eligible, Balanced, WithinCaps, Given, OneMore, CountOf,
         Ever, Always;
    ghost var ever, always := Less(f, Ever(switching)), Less(f, Always(switching));
    var given: map<string, nat> := map[];
    var out := [];
    NothingGiven(ever, fits);
    NothingGiven(always, fits);
    for i := 0 to |switching|
      invariant |out| == i
      invariant forall n :: Given(given, n) == CountOf(out, n)
      invariant forall k :: 0 <= k < i ==> out[k] !in switching[k]
      invariant Balanced(ever, fits, given) && WithinCaps(always, fits, given)
      invariant RoomIn(ever, fits, given, f.listing) + i >= RoomIn(ever, fits, map[], f.listing)
      invariant !Boundless(always, fits) ==>
                  RoomIn(always, fits, given, f.listing) + i == RoomIn(always, fits, map[], f.listing)
    {
      var g := Less(f, switching[i]);
      var picked := PickNodeWhere(g, fits, given, 1);
      assert MoreSwitching(ever, g) && MoreSwitching(g, always);
      if picked.Err? {
        StuckBelow(ever, g, fits, given);
        extra := given;
        return Err(picked.error), extra;
      }
      var n := picked.value;
      PickKeepsEven(ever, g, fits, given);
      PickKeepsCaps(g, always, fits, given);
      RoomTakenAtMost(ever, fits, given, n, f.listing);
      if !Boundless(always, fits) {
        PickTakesRoom(always, fits, given, n);
      }
      forall a
        ensures Given(OneMore(given, n), a) == CountOf(out + [n], a)
      {
        GivenOneMore(f, given, n, a);
        CountOneMore(out, n, a);
      }
      given := OneMore(given, n);
      out := out + [n];
    }
    extra := given;
    r := Ok(out);
  }

  /** Nowhere left to place one: every open node has a cap and is at it. */
  lemma StuckBelow(e: Fleet, g: Fleet, fits: Fits, extra: map<string, nat>)
    requires Listed(e) && MoreSwitching(e, g) && Best(g, fits, extra, 1, |g.listing|) < 0
    ensures !Boundless(e, fits) && RoomIn(e, fits, extra, e.listing) == 0
  {
    hide OnNode, Load, Best, Open;
    forall n ensures !Eligible(e, fits, extra, 1, n) {
      PickIsLeast(g, fits, extra, 1, n);
      EligibleStill(e, g, fits, extra, n);
    }
    NoRoomLeft(e, fits, extra, e.listing);
  }

  lemma NothingGiven(f: Fleet, fits: Fits)
    ensures Balanced(f, fits, map[]) && WithinCaps(f, fits, map[])
    ensures forall n :: Given(map[], n) == CountOf([], n)
  {}
}
