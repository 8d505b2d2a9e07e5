/** Creating sandboxes: all children are placed before the first row goes in, and
    all of them are written or none. */
module Creates {
  import opened Wrappers
  import opened Tables
  import opened Slots
  import opened Placement
  import opened State
  import opened PoolRuns
  import Pools

  // ---- the batch ------------------------------------------------------------------

  /** Writes the children one by one inside a transaction: a slot or an id that
      fails partway undoes the ones before it. */
  method CreateBatch(store: Store, cs: seq<Child>, asked: SandboxRow, plan: Plan) returns (r: Result<nat, Refusal>)
    requires plan.portHi <= U32_MAX && plan.maxNetIndex <= U32_MAX
    modifies store`sandboxes
    ensures r.Ok? ==> Batch(old(store.sandboxes), cs, asked, plan) == Ok(store.sandboxes)
    ensures r.Err? ==> Batch(old(store.sandboxes), cs, asked, plan) == Err(r.error)
    ensures r.Err? ==> store.sandboxes == old(store.sandboxes)
  {
    hide Taken, Lowest;
    var before := store.sandboxes;
    for i := 0 to |cs|
      invariant Batch(before, cs, asked, plan) == Batch(store.sandboxes, cs[i..], asked, plan)
    {
      var c := cs[i];
      assert cs[i..][1..] == cs[i + 1..];
      var gateway := store.AllocateSlot(GatewayPort, c.nodeId, plan.portLo, plan.portHi);
      var net := store.AllocateSlot(NetIndex, c.nodeId, 0, plan.maxNetIndex);
      if net.None? {
        store.sandboxes := before;
        return Err(NoSlot(c.nodeId));
      }
      var row := asked.(nodeId := c.nodeId, pool := c.pool, token := c.token, netIndex := net,
                        gatewayPort := gateway);
      var ok := store.InsertSandbox(c.id, row);
      if !ok {
        store.sandboxes := before;
        return Err(Conflict(c.id));
      }
    }
    r := Ok(|cs|);
  }

  /** A batch adds to each node as many sandboxes as it placed there. */
  lemma {:induction false} BatchCounts(sandboxes: Sandboxes, cs: seq<Child>, asked: SandboxRow, plan: Plan, n: string)
    requires Batch(sandboxes, cs, asked, plan).Ok?
    ensures |OnNode(Batch(sandboxes, cs, asked, plan).value, n)| == |OnNode(sandboxes, n)| + CountOn(cs, n)
    decreases |cs|
  {
    hide Taken, Lowest;
    if cs != [] {
      var row := Made(sandboxes, cs[0], asked, plan).value;
      var next := sandboxes[cs[0].id := row];
      BatchCounts(next, cs[1..], asked, plan, n);
      OneMoreOn(sandboxes, cs[0].id, row, n);
    }
  }

  lemma OneMoreOn(sandboxes: Sandboxes, id: string, row: SandboxRow, n: string)
    requires id !in sandboxes
    ensures |OnNode(sandboxes[id := row], n)| == |OnNode(sandboxes, n)| + (if row.nodeId == n then 1 else 0)
  {
    var after := sandboxes[id := row];
    if row.nodeId == n {
      assert OnNode(after, n) == OnNode(sandboxes, n) + {id};
    } else {
      assert OnNode(after, n) == OnNode(sandboxes, n);
    }
  }

  // ---- a batch among everything else that happens to the pools ------------------------

  /** The rows of a batch that goes through, as creates one after another. */
  function AsCreates(sandboxes: Sandboxes, cs: seq<Child>, asked: SandboxRow, plan: Plan, named: Option<string>,
                     at: int): seq<Timed>
    decreases |cs|
  {
    if cs == [] || Made(sandboxes, cs[0], asked, plan).Err? then []
    else
      var row := Made(sandboxes, cs[0], asked, plan).value;
      [Timed(Event.Create(cs[0].id, row, named), at)]
      + AsCreates(sandboxes[cs[0].id := row], cs[1..], asked, plan, named, at)
  }

  /** A batch placed under its nodes' pools is such a run of the master, so what holds of
      every run of registrations, reports, creates and deletes holds of it. */
  lemma {:induction false} BatchIsRun(w: Pools.World, cs: seq<Child>, asked: SandboxRow, plan: Plan,
                                      named: Option<string>, at: int)
    requires Batch(w.sandboxes, cs, asked, plan).Ok?
    requires forall i :: 0 <= i < |cs| ==> cs[i].pool == PoolOnNode(w, cs[i].nodeId, named)
    ensures Run(w, AsCreates(w.sandboxes, cs, asked, plan, named, at))
         == w.(sandboxes := Batch(w.sandboxes, cs, asked, plan).value)
    decreases |cs|
  {
    hide Taken, Lowest;
    var es := AsCreates(w.sandboxes, cs, asked, plan, named, at);
    if cs != [] {
      var row := Made(w.sandboxes, cs[0], asked, plan).value;
      var next := w.(sandboxes := w.sandboxes[cs[0].id := row]);
      BatchIsRun(next, cs[1..], asked, plan, named, at);
      assert row.(pool := PoolOnNode(w, row.nodeId, named)) == row;
      assert Step(w, es[0]) == next;
      assert es[1..] == AsCreates(next.sandboxes, cs[1..], asked, plan, named, at);
    }
  }

  // ---- placed, then written ----------------------------------------------------------

  /** The children of a request, in the order of their nodes. */
  function Children(ids: seq<string>, tokens: seq<string>, placed: seq<string>, pools: seq<string>): (cs: seq<Child>)
    requires |ids| == |tokens| == |placed| == |pools|
    ensures |cs| == |ids|
    ensures forall i :: 0 <= i < |cs| ==> cs[i] == Child(ids[i], tokens[i], placed[i], pools[i])
  {
    seq(|ids|, i requires 0 <= i < |ids| => Child(ids[i], tokens[i], placed[i], pools[i]))
  }

  function PoolsOf(nodes: Nodes, placed: seq<string>): (pools: seq<string>)
    requires forall i :: 0 <= i < |placed| ==> placed[i] in nodes
    ensures |pools| == |placed|
    ensures forall i :: 0 <= i < |placed| ==> pools[i] == nodes[placed[i]].pool
  {
    seq(|placed|, i requires 0 <= i < |placed| => nodes[placed[i]].pool)
  }

  lemma {:induction false} CountsAgree(cs: seq<Child>, placed: seq<string>, n: string)
    requires |cs| == |placed| && forall i :: 0 <= i < |cs| ==> cs[i].nodeId == placed[i]
    ensures CountOn(cs, n) == CountOf(placed, n)
    decreases |cs|
  {
    if cs == [] {
    } else {
      var k := |cs| - 1;
      CountsAgree(cs[..k], placed[..k], n);
      assert cs == cs[..k] + [cs[k]];
      CountOnEnd(cs[..k], cs[k], n);
    }
  }

  lemma {:induction false} CountOnEnd(cs: seq<Child>, c: Child, n: string)
    ensures CountOn(cs + [c], n) == CountOn(cs, n) + (if c.nodeId == n then 1 else 0)
    decreases |cs|
  {
    if cs == [] {
      assert (cs + [c])[1..] == [];
    } else {
      assert (cs + [c])[1..] == cs[1..] + [c];
      CountOnEnd(cs[1..], c, n);
    }
  }

  datatype CreateError = Unplaced(place: PlaceError) | Refused(refusal: Refusal)

  function FleetOf(store: Store, listing: seq<string>, switching: set<string>, admit: Admission): Fleet
    reads store`nodes, store`sandboxes
  {
    Fleet(store.nodes, store.sandboxes, listing, switching, admit)
  }

  /** No capped node that took a child is past its cap. */
  ghost predicate CapsHold(nodes: Nodes, before: Sandboxes, after: Sandboxes) {
    forall n :: |OnNode(after, n)| > |OnNode(before, n)| ==>
      n in nodes && (nodes[n].maxSandboxes == 0 || |OnNode(after, n)| <= nodes[n].maxSandboxes)
  }

  /** The nodes a tag of this fingerprint restores on. */
  function Matching(fingerprint: string): Fits {
    (id: string, n: NodeRow) => n.fingerprint == fingerprint
  }

  /** No node that took a child since `before` is more than one above one that could
      take another. */
  ghost predicate EvenOn(f: Fleet, fits: Fits, before: Sandboxes) {
    forall a, b :: |OnNode(f.sandboxes, a)| > |OnNode(before, a)| && Eligible(f, fits, map[], 1, b) ==>
      |OnNode(f.sandboxes, a)| <= |OnNode(f.sandboxes, b)| + 1
  }

  /** A fork: its children are spread over the nodes whose fingerprint is its
      tag's; `switching` is what the pick of each child found being switched. It finds
      no place only when the nodes always open cannot hold it, and a place only when
      those open at some pick can. Refused, it changes nothing; else every child is on
      a matching node under that node's pool, what is then stored passes no cap, and no
      node that took a child is more than one above one that was open throughout and
      could take another. */
  method CreateFork(store: Store, listing: seq<string>, switching: seq<set<string>>, admit: Admission,
                    fingerprint: string, ids: seq<string>, tokens: seq<string>, asked: SandboxRow, plan: Plan)
    returns (r: Result<nat, CreateError>)
    requires Listed(FleetOf(store, listing, {}, admit)) && |ids| == |tokens| == |switching|
    requires plan.portHi <= U32_MAX && plan.maxNetIndex <= U32_MAX
    modifies store`sandboxes
    ensures r.Err? ==> store.sandboxes == old(store.sandboxes)
    ensures r.Err? && r.error.Unplaced? ==>
              !Holds(old(FleetOf(store, listing, Ever(switching), admit)), Matching(fingerprint), |ids|)
    ensures r.Ok? || r.error.Refused? ==>
              Holds(old(FleetOf(store, listing, Always(switching), admit)), Matching(fingerprint), |ids|)
    ensures r.Ok? ==> CapsHold(store.nodes, old(store.sandboxes), store.sandboxes)
    ensures r.Ok? ==>
              EvenOn(FleetOf(store, listing, Ever(switching), admit), Matching(fingerprint), old(store.sandboxes))
    ensures r.Ok? ==> Untouched(old(store.sandboxes), store.sandboxes)
    ensures r.Ok? ==> OnlyAdds(old(store.sandboxes), store.sandboxes, ids)
    ensures r.Ok? ==> forall i :: 0 <= i < |ids| ==>
              && IsNew(old(store.sandboxes), store.sandboxes, ids[i])
              && OnMatching(store.nodes, store.sandboxes[ids[i]], fingerprint)
              && store.sandboxes[ids[i]].nodeId !in switching[i]
    ensures r.Ok? ==> AllWritten(old(store.sandboxes), store.sandboxes, ids, tokens, asked, plan)
  {
    hide Batch, Lowest, AllWritten, Balanced, CountOf, CountOn, FreshIds, EnoughRoom, OnNode, CapsHold, EvenOn,
         Made, Given, Holds, WithinCaps, Ever, Always, OnMatching, Untouched, OnlyAdds;
    var f := FleetOf(store, listing, {}, admit);
    var fits := Matching(fingerprint);
    var placed, extra := PlaceFork(f, fits, switching);
    if placed.Err? {
      return Err(Unplaced(placed.error));
    }
    PlacedOpen(Less(f, Always(switching)), fits, placed.value, extra);
    var cs := Children(ids, tokens, placed.value, PoolsOf(store.nodes, placed.value));
    var made := CreateBatch(store, cs, asked, plan);
    if made.Err? {
      return Err(Refused(made.error));
    }
    ForkDone(f, switching, fingerprint, placed.value, extra, ids, cs, asked, plan);
    BatchWrites(f.sandboxes, ids, tokens, cs, asked, plan);
    r := Ok(made.value);
  }

  /** What a fork that went through has written. */
  lemma ForkDone(f: Fleet, switching: seq<set<string>>, fingerprint: string, placed: seq<string>,
                 extra: map<string, nat>, ids: seq<string>, cs: seq<Child>, asked: SandboxRow, plan: Plan)
    requires |cs| == |placed| == |ids| == |switching| && forall n :: Given(extra, n) == CountOf(placed, n)
    requires forall k :: 0 <= k < |switching| ==> placed[k] !in switching[k]
    requires Balanced(Less(f, Ever(switching)), Matching(fingerprint), extra)
    requires WithinCaps(Less(f, Always(switching)), Matching(fingerprint), extra)
    requires forall i :: 0 <= i < |cs| ==>
               && cs[i].id == ids[i] && cs[i].nodeId == placed[i]
               && placed[i] in f.nodes && cs[i].pool == f.nodes[placed[i]].pool
    requires Batch(f.sandboxes, cs, asked, plan).Ok?
    ensures var after := Batch(f.sandboxes, cs, asked, plan).value;
            && CapsHold(f.nodes, f.sandboxes, after)
            && EvenOn(Less(f, Ever(switching)).(sandboxes := after), Matching(fingerprint), f.sandboxes)
            && Untouched(f.sandboxes, after) && OnlyAdds(f.sandboxes, after, ids)
            && forall i :: 0 <= i < |ids| ==>
                 && IsNew(f.sandboxes, after, ids[i]) && OnMatching(f.nodes, after[ids[i]], fingerprint)
                 && after[ids[i]].nodeId !in switching[i]
  {
    hide Batch, Balanced, CountOf, OnNode, CapsHold, EvenOn, Given, WithinCaps, Ever, Always, OnMatching,
         Untouched, OnlyAdds;
    var ever, always := Less(f, Ever(switching)), Less(f, Always(switching));
    var fits := Matching(fingerprint);
    PlacedOpen(always, fits, placed, extra);
    ForkCaps(always, fits, placed, extra, cs, asked, plan);
    ForkEven(ever, fits, placed, extra, cs, asked, plan);
    ForkWritten(always, fingerprint, cs, asked, plan);
    AddsOnly(f.sandboxes, ids, cs, asked, plan);
  }

  /** Every child's whole row is as its request, its token and the slots of its node say. */
  ghost predicate AllWritten(before: Sandboxes, after: Sandboxes, ids: seq<string>, tokens: seq<string>,
                             asked: SandboxRow, plan: Plan)
  {
    && |tokens| == |ids| && (forall i :: 0 <= i < |ids| ==> ids[i] in after)
    && (forall i :: 0 <= i < |ids| ==> Written(before, after, ids, i, tokens[i], asked, plan))
  }

  lemma BatchWrites(sandboxes: Sandboxes, ids: seq<string>, tokens: seq<string>, cs: seq<Child>, asked: SandboxRow,
                    plan: Plan)
    requires |cs| == |ids| == |tokens|
    requires forall i :: 0 <= i < |cs| ==> cs[i].id == ids[i] && cs[i].token == tokens[i]
    requires Batch(sandboxes, cs, asked, plan).Ok?
    ensures AllWritten(sandboxes, Batch(sandboxes, cs, asked, plan).value, ids, tokens, asked, plan)
  {
    hide Batch, Written;
    BatchRows(sandboxes, cs, asked, plan);
    assert Ids(cs) == ids;
    var after := Batch(sandboxes, cs, asked, plan).value;
    assert forall i :: 0 <= i < |ids| ==> cs[i].id in after && ids[i] in after;
  }

  lemma AddsOnly(sandboxes: Sandboxes, ids: seq<string>, cs: seq<Child>, asked: SandboxRow, plan: Plan)
    requires |cs| == |ids| && forall i :: 0 <= i < |cs| ==> cs[i].id == ids[i]
    requires Batch(sandboxes, cs, asked, plan).Ok?
    ensures OnlyAdds(sandboxes, Batch(sandboxes, cs, asked, plan).value, ids)
  {
    hide Batch;
    BatchAdds(sandboxes, cs, asked, plan);
    var after := Batch(sandboxes, cs, asked, plan).value;
    forall s | s in after && s !in sandboxes
      ensures s in ids
    {
      var i :| 0 <= i < |cs| && cs[i].id == s;
      assert ids[i] == s;
    }
  }

  predicate IsNew(before: Sandboxes, after: Sandboxes, id: string) {
    id !in before && id in after
  }

  /** Every earlier row is as it was. */
  predicate Untouched(before: Sandboxes, after: Sandboxes) {
    forall s :: s in before ==> s in after && after[s] == before[s]
  }

  /** Every new row is one of these. */
  predicate OnlyAdds(before: Sandboxes, after: Sandboxes, ids: seq<string>) {
    forall s :: s in after ==> s in before || s in ids
  }

  predicate OnMatching(nodes: Nodes, row: SandboxRow, fingerprint: string) {
    && row.nodeId in nodes && row.pool == nodes[row.nodeId].pool
    && nodes[row.nodeId].fingerprint == fingerprint
  }

  lemma ForkWritten(f: Fleet, fingerprint: string, cs: seq<Child>, asked: SandboxRow, plan: Plan)
    requires Batch(f.sandboxes, cs, asked, plan).Ok?
    requires forall i :: 0 <= i < |cs| ==>
               Open(f, Matching(fingerprint), cs[i].nodeId) && cs[i].pool == f.nodes[cs[i].nodeId].pool
    ensures var after := Batch(f.sandboxes, cs, asked, plan).value;
            && Untouched(f.sandboxes, after)
            && forall i :: 0 <= i < |cs| ==>
                 && IsNew(f.sandboxes, after, cs[i].id) && after[cs[i].id].nodeId == cs[i].nodeId
                 && OnMatching(f.nodes, after[cs[i].id], fingerprint)
  {
    hide Batch, FreshIds, EnoughRoom, Made, Lowest;
    BatchAdds(f.sandboxes, cs, asked, plan);
    BatchFits(f.sandboxes, cs, asked, plan);
    FreshOnes(f.sandboxes, cs);
  }

  lemma FreshOnes(sandboxes: Sandboxes, cs: seq<Child>)
    requires FreshIds(sandboxes, cs)
    ensures forall i :: 0 <= i < |cs| ==> cs[i].id !in sandboxes
  {}

  lemma PlacedOpen(f: Fleet, fits: Fits, placed: seq<string>, extra: map<string, nat>)
    requires WithinCaps(f, fits, extra) && forall n :: Given(extra, n) == CountOf(placed, n)
    ensures forall i :: 0 <= i < |placed| ==> Open(f, fits, placed[i])
  {
    hide Open, OnNode, Given;
    forall i | 0 <= i < |placed|
      ensures Open(f, fits, placed[i])
    {
      CountOfPlaced(placed, i);
      assert Given(extra, placed[i]) > 0;
    }
  }

  lemma {:induction false} CountOfPlaced(placed: seq<string>, i: nat)
    requires i < |placed|
    ensures CountOf(placed, placed[i]) > 0
    decreases |placed|
  {
    if i < |placed| - 1 {
      CountOfPlaced(placed[..|placed| - 1], i);
    }
  }

  lemma ForkCaps(f: Fleet, fits: Fits, placed: seq<string>, extra: map<string, nat>, cs: seq<Child>,
                 asked: SandboxRow, plan: Plan)
    requires WithinCaps(f, fits, extra) && forall n :: Given(extra, n) == CountOf(placed, n)
    requires |cs| == |placed| && forall i :: 0 <= i < |cs| ==> cs[i].nodeId == placed[i]
    requires Batch(f.sandboxes, cs, asked, plan).Ok?
    ensures CapsHold(f.nodes, f.sandboxes, Batch(f.sandboxes, cs, asked, plan).value)
  {
    hide Batch, OnNode, CountOf, CountOn;
    var after := Batch(f.sandboxes, cs, asked, plan).value;
    forall n | |OnNode(after, n)| > |OnNode(f.sandboxes, n)|
      ensures n in f.nodes && (f.nodes[n].maxSandboxes == 0 || |OnNode(after, n)| <= f.nodes[n].maxSandboxes)
    {
      BatchCounts(f.sandboxes, cs, asked, plan, n);
      CountsAgree(cs, placed, n);
      assert Given(extra, n) > 0;
    }
  }

  lemma ForkEven(f: Fleet, fits: Fits, placed: seq<string>, extra: map<string, nat>, cs: seq<Child>,
                 asked: SandboxRow, plan: Plan)
    requires Balanced(f, fits, extra) && forall n :: Given(extra, n) == CountOf(placed, n)
    requires |cs| == |placed| && forall i :: 0 <= i < |cs| ==> cs[i].nodeId == placed[i]
    requires Batch(f.sandboxes, cs, asked, plan).Ok?
    ensures EvenOn(f.(sandboxes := Batch(f.sandboxes, cs, asked, plan).value), fits, f.sandboxes)
  {
    hide Batch, OnNode, CountOf, CountOn;
    var g := f.(sandboxes := Batch(f.sandboxes, cs, asked, plan).value);
    forall a, b | |OnNode(g.sandboxes, a)| > |OnNode(f.sandboxes, a)| && Eligible(g, fits, map[], 1, b)
      ensures |OnNode(g.sandboxes, a)| <= |OnNode(g.sandboxes, b)| + 1
    {
      BatchCounts(f.sandboxes, cs, asked, plan, a);
      BatchCounts(f.sandboxes, cs, asked, plan, b);
      CountsAgree(cs, placed, a);
      CountsAgree(cs, placed, b);
      assert Load(f, extra, a) == |OnNode(g.sandboxes, a)|;
      assert Load(f, extra, b) == |OnNode(g.sandboxes, b)|;
      assert Given(extra, a) > 0 && Eligible(f, fits, extra, 1, b);
    }
  }

  /** Has room for `count`, and no node that has is less loaded. */
  ghost predicate IsLeast(f: Fleet, fits: Fits, count: nat, n: string) {
    && Eligible(f, fits, map[], count, n)
    && forall m :: Eligible(f, fits, map[], count, m) ==> Load(f, map[], n) <= Load(f, map[], m)
  }

  lemma PickedIsLeast(f: Fleet, fits: Fits, count: nat)
    requires Listed(f)
    ensures var b := Best(f, fits, map[], count, |f.listing|);
            && (b >= 0 ==> IsLeast(f, fits, count, f.listing[b]))
            && (b < 0 <==> forall n :: n in f.nodes ==> !Eligible(f, fits, map[], count, n))
  {
    hide OnNode, Load, Best, Eligible;
    var b := Best(f, fits, map[], count, |f.listing|);
    if b >= 0 {
      PickIsLeast(f, fits, map[], count, f.listing[b]);
      forall m | Eligible(f, fits, map[], count, m)
        ensures Load(f, map[], f.listing[b]) <= Load(f, map[], m)
      {
        PickIsLeast(f, fits, map[], count, m);
      }
    } else {
      forall n ensures !Eligible(f, fits, map[], count, n) {
        PickIsLeast(f, fits, map[], count, n);
      }
    }
  }

  /** A template's children: all on the pool's least loaded node that can start
      it, has room for every one and is not being moved to another backend. */
  method CreateInPool(store: Store, listing: seq<string>, switching: set<string>, admit: Admission,
                      pool: string, onBackend: string -> bool, canStart: string -> bool,
                      ids: seq<string>, tokens: seq<string>, asked: SandboxRow, plan: Plan)
    returns (r: Result<nat, CreateError>)
    requires Listed(FleetOf(store, listing, switching, admit)) && |ids| == |tokens| > 0
    requires plan.portHi <= U32_MAX && plan.maxNetIndex <= U32_MAX
    modifies store`sandboxes
    ensures r.Err? ==> store.sandboxes == old(store.sandboxes)
    ensures var f, fits := old(FleetOf(store, listing, switching, admit)), StartableIn(pool, onBackend, canStart);
            && (r.Err? && r.error.Unplaced? <==> forall n :: n in f.nodes ==> !Eligible(f, fits, map[], |ids|, n))
            && (r.Ok? ==> ids[0] in store.sandboxes && IsLeast(f, fits, |ids|, store.sandboxes[ids[0]].nodeId))
    ensures r.Ok? ==> CapsHold(store.nodes, old(store.sandboxes), store.sandboxes)
    ensures r.Ok? ==> forall i :: 0 <= i < |ids| ==>
              && IsNew(old(store.sandboxes), store.sandboxes, ids[i])
              && store.sandboxes[ids[i]].nodeId == store.sandboxes[ids[0]].nodeId
              && store.sandboxes[ids[i]].nodeId in store.nodes
              && store.sandboxes[ids[i]].pool == store.nodes[store.sandboxes[ids[i]].nodeId].pool
    ensures r.Ok? ==> Untouched(old(store.sandboxes), store.sandboxes)
    ensures r.Ok? ==> OnlyAdds(old(store.sandboxes), store.sandboxes, ids)
    ensures r.Ok? ==> AllWritten(old(store.sandboxes), store.sandboxes, ids, tokens, asked, plan)
  {
    hide Batch, Best, Eligible, IsLeast, StartableIn, OnNode, Load, CapsHold, Untouched, OnlyAdds, AllWritten, Listed;
    var f := FleetOf(store, listing, switching, admit);
    ghost var fits := StartableIn(pool, onBackend, canStart);
    PickedIsLeast(f, fits, |ids|);
    var picked := PickNode(f, pool, onBackend, canStart, |ids|);
    if picked.Err? {
      return Err(Unplaced(picked.error));
    }
    var n := picked.value;
    LeastIsNode(f, fits, |ids|, n);
    var placed := seq(|ids|, i => n);
    var cs := Children(ids, tokens, placed, PoolsOf(store.nodes, placed));
    var made := CreateBatch(store, cs, asked, plan);
    if made.Err? {
      return Err(Refused(made.error));
    }
    AllOneNode(f.sandboxes, ids, tokens, cs, n, f.nodes[n].pool, asked, plan);
    PoolCaps(f, fits, n, cs, asked, plan);
    r := Ok(made.value);
  }

  lemma LeastIsNode(f: Fleet, fits: Fits, count: nat, n: string)
    requires IsLeast(f, fits, count, n)
    ensures n in f.nodes && Eligible(f, fits, map[], count, n)
  {}

  /** What a batch all on one node has written. */
  lemma AllOneNode(sandboxes: Sandboxes, ids: seq<string>, tokens: seq<string>, cs: seq<Child>, node: string,
                   pool: string, asked: SandboxRow, plan: Plan)
    requires |cs| == |ids| == |tokens| && Batch(sandboxes, cs, asked, plan).Ok?
    requires forall i :: 0 <= i < |cs| ==> cs[i] == Child(ids[i], tokens[i], node, pool)
    ensures var after := Batch(sandboxes, cs, asked, plan).value;
            && (forall i :: 0 <= i < |ids| ==>
                  && IsNew(sandboxes, after, ids[i])
                  && after[ids[i]].nodeId == node && after[ids[i]].pool == pool)
            && Untouched(sandboxes, after) && OnlyAdds(sandboxes, after, ids)
            && AllWritten(sandboxes, after, ids, tokens, asked, plan)
  {
    hide Batch, OnlyAdds, AllWritten, Written, FreshIds, EnoughRoom;
    BatchAdds(sandboxes, cs, asked, plan);
    BatchFits(sandboxes, cs, asked, plan);
    FreshOnes(sandboxes, cs);
    AddsOnly(sandboxes, ids, cs, asked, plan);
    BatchWrites(sandboxes, ids, tokens, cs, asked, plan);
    assert forall i :: 0 <= i < |ids| ==> cs[i].id == ids[i];
  }

  lemma {:induction false} AllOn(cs: seq<Child>, n: string, m: string)
    requires forall i :: 0 <= i < |cs| ==> cs[i].nodeId == n
    ensures CountOn(cs, m) == if m == n then |cs| else 0
    decreases |cs|
  {
    if cs != [] {
      AllOn(cs[1..], n, m);
    }
  }

  lemma PoolCaps(f: Fleet, fits: Fits, n: string, cs: seq<Child>, asked: SandboxRow, plan: Plan)
    requires Eligible(f, fits, map[], |cs|, n) && forall i :: 0 <= i < |cs| ==> cs[i].nodeId == n
    requires Batch(f.sandboxes, cs, asked, plan).Ok?
    ensures CapsHold(f.nodes, f.sandboxes, Batch(f.sandboxes, cs, asked, plan).value)
  {
    hide Batch, OnNode, CountOn;
    var after := Batch(f.sandboxes, cs, asked, plan).value;
    forall m | |OnNode(after, m)| > |OnNode(f.sandboxes, m)|
      ensures m in f.nodes && (f.nodes[m].maxSandboxes == 0 || |OnNode(after, m)| <= f.nodes[m].maxSandboxes)
    {
      BatchCounts(f.sandboxes, cs, asked, plan, m);
      AllOn(cs, n, m);
    }
  }

  /** Children sent to a node by name: neither admission nor a switch is asked. */
  method CreateOnNode(store: Store, node: string, named: Option<string>, ids: seq<string>, tokens: seq<string>,
                      asked: SandboxRow, plan: Plan)
    returns (r: Result<nat, CreateError>)
    requires |ids| == |tokens|
    requires plan.portHi <= U32_MAX && plan.maxNetIndex <= U32_MAX
    modifies store`sandboxes
    ensures r.Err? ==> store.sandboxes == old(store.sandboxes)
    ensures r.Ok? ==> forall i :: 0 <= i < |ids| ==>
              && IsNew(old(store.sandboxes), store.sandboxes, ids[i])
              && store.sandboxes[ids[i]].nodeId == node
              && store.sandboxes[ids[i]].pool == (if node in store.nodes then store.nodes[node].pool
                                                  else if named.Some? then named.value else "default")
    ensures r.Ok? <==>
              && FreshIds(old(store.sandboxes), OnOneNode(ids, tokens, node))
              && |ids| <= Room(old(store.sandboxes), node, plan.maxNetIndex)
    ensures r.Ok? ==> Untouched(old(store.sandboxes), store.sandboxes)
    ensures r.Ok? ==> OnlyAdds(old(store.sandboxes), store.sandboxes, ids)
    ensures r.Ok? ==> AllWritten(old(store.sandboxes), store.sandboxes, ids, tokens, asked, plan)
  {
    hide Batch, Untouched, OnlyAdds, AllWritten, FreshIds, EnoughRoom, Room, OnOneNode;
    var pool := PoolOnNode(store.World(), node, named);
    var cs := Children(ids, tokens, seq(|ids|, i => node), seq(|ids|, i => pool));
    ghost var before := store.sandboxes;
    var made := CreateBatch(store, cs, asked, plan);
    BatchFits(before, cs, asked, plan);
    OneNodeFits(before, ids, tokens, cs, node, plan.maxNetIndex);
    if made.Err? {
      return Err(Refused(made.error));
    }
    AllOneNode(before, ids, tokens, cs, node, pool, asked, plan);
    r := Ok(made.value);
  }

  ghost function OnOneNode(ids: seq<string>, tokens: seq<string>, node: string): seq<Child>
    requires |ids| == |tokens|
  {
    Children(ids, tokens, seq(|ids|, i => node), seq(|ids|, i => ""))
  }

  lemma OneNodeFits(sandboxes: Sandboxes, ids: seq<string>, tokens: seq<string>, cs: seq<Child>, node: string, max: nat)
    requires |ids| == |tokens| == |cs|
    requires forall i :: 0 <= i < |cs| ==> cs[i].id == ids[i] && cs[i].nodeId == node
    ensures FreshIds(sandboxes, cs) <==> FreshIds(sandboxes, OnOneNode(ids, tokens, node))
    ensures EnoughRoom(sandboxes, cs, max) <==> |cs| <= Room(sandboxes, node, max)
  {
    hide Room;
    AllOn(cs, node, node);
    var ds := OnOneNode(ids, tokens, node);
    assert forall i :: 0 <= i < |cs| ==> cs[i].id == ds[i].id;
    if cs != [] {
      assert cs[0].nodeId == node;
    }
  }
}
