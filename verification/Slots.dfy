/** The node-local resources a create is given -- a network slot and a gateway
    port -- and the batch that gives them to all its children or to none. */
module Slots {
  import opened Wrappers
  import opened Tables

  // ---- one slot ---------------------------------------------------------------

  datatype Column = NetIndex | GatewayPort

  function SlotOf(row: SandboxRow, col: Column): Option<nat> {
    match col
    case NetIndex => row.netIndex
    case GatewayPort => row.gatewayPort
  }

  /** The values of a column in use on one node. */
  function Taken(sandboxes: Sandboxes, node: string, col: Column): set<nat> {
    set s | s in sandboxes && sandboxes[s].nodeId == node && SlotOf(sandboxes[s], col).Some?
      :: SlotOf(sandboxes[s], col).value
  }

  /** The least value of `[lo, hi]` not in use: None exactly when all are. */
  function Lowest(taken: set<nat>, lo: nat, hi: nat): (r: Option<nat>)
    ensures r.Some? ==> lo <= r.value <= hi && r.value !in taken
    ensures r.Some? ==> forall v :: lo <= v < r.value ==> v in taken
    ensures r.None? <==> forall v :: lo <= v <= hi ==> v in taken
    decreases hi + 1 - lo
  {
    if lo > hi then None
    else if lo in taken then Lowest(taken, lo + 1, hi)
    else Some(lo)
  }

  const U32_MAX: nat := 0xffff_ffff

  predicate Ascending(s: seq<nat>) {
    forall i, j :: 0 <= i < j < |s| ==> s[i] <= s[j]
  }

  function Members(s: seq<nat>): set<nat> {
    set v | v in s
  }

  /** Walks the sorted values in use for the first gap. */
  method FirstGap(used: seq<nat>, lo: nat, hi: nat) returns (r: Option<nat>)
    requires Ascending(used) && hi <= U32_MAX
    requires forall i :: 0 <= i < |used| ==> lo <= used[i] <= hi
    ensures r == Lowest(Members(used), lo, hi)
  {
    ghost var taken := Members(used);
    var want := lo;
    var i := 0;
    while i < |used|
      invariant 0 <= i <= |used| && lo <= want
      invariant forall j :: 0 <= j < i ==> used[j] < want
      invariant i > 0 ==> want == used[i - 1] + 1
      invariant forall v :: lo <= v < want ==> v in taken
    {
      var u := used[i];
      if u > want {
        break;
      }
      assert u in taken;
      if u == U32_MAX {
        assert forall v :: lo <= v <= hi ==> v in taken;
        return None;
      }
      want := u + 1;
      i := i + 1;
    }
    forall j | 0 <= j < |used|
      ensures used[j] != want
    {
      if j > i {
        assert used[i] <= used[j];
      }
    }
    assert want !in taken;
    assert want > hi ==> forall v :: lo <= v <= hi ==> v in taken;
    return if want <= hi then Some(want) else None;
  }

  // ---- what holds of every node's slots -----------------------------------------

  /** The node-local ranges the master hands out from. */
  datatype Plan = Plan(portLo: nat, portHi: nat, maxNetIndex: nat)

  predicate SlotInRange(row: SandboxRow, plan: Plan) {
    && row.netIndex.Some? && row.netIndex.value <= plan.maxNetIndex
    && (row.gatewayPort.Some? ==> plan.portLo <= row.gatewayPort.value <= plan.portHi)
  }

  predicate Apart(a: SandboxRow, b: SandboxRow) {
    a.nodeId == b.nodeId ==>
      && a.netIndex != b.netIndex
      && (a.gatewayPort.Some? ==> a.gatewayPort != b.gatewayPort)
  }

  /** Per node, network slots are distinct and within the plan, and gateway ports
      are absent or distinct and within the range. */
  ghost predicate SlotsOk(sandboxes: Sandboxes, plan: Plan) {
    && (forall s :: s in sandboxes ==> SlotInRange(sandboxes[s], plan))
    && (forall s, t :: s in sandboxes && t in sandboxes && s != t ==> Apart(sandboxes[s], sandboxes[t]))
  }

  // ---- a batch --------------------------------------------------------------------

  /** One sandbox of a request, placed. */
  datatype Child = Child(id: string, token: string, nodeId: string, pool: string)

  datatype Refusal = NoSlot(node: string) | Conflict(id: string)

  /** What a child is written as: the request's row with its own id, token, place
      and slots. Without a port it is reachable only from its node; without a
      network slot it is refused. */
  function Made(sandboxes: Sandboxes, c: Child, asked: SandboxRow, plan: Plan): Result<SandboxRow, Refusal> {
    var gateway := Lowest(Taken(sandboxes, c.nodeId, GatewayPort), plan.portLo, plan.portHi);
    var net := Lowest(Taken(sandboxes, c.nodeId, NetIndex), 0, plan.maxNetIndex);
    if net.None? then Err(NoSlot(c.nodeId))
    else if c.id in sandboxes then Err(Conflict(c.id))
    else Ok(asked.(nodeId := c.nodeId, pool := c.pool, token := c.token, netIndex := net, gatewayPort := gateway))
  }

  /** All the children written, or the first refusal. */
  function Batch(sandboxes: Sandboxes, cs: seq<Child>, asked: SandboxRow, plan: Plan)
    : Result<Sandboxes, Refusal>
    decreases |cs|
  {
    if cs == [] then Ok(sandboxes)
    else
      match Made(sandboxes, cs[0], asked, plan)
      case Err(e) => Err(e)
      case Ok(row) => Batch(sandboxes[cs[0].id := row], cs[1..], asked, plan)
  }

  lemma MadeIsApart(sandboxes: Sandboxes, c: Child, asked: SandboxRow, plan: Plan, s: string)
    requires Made(sandboxes, c, asked, plan).Ok? && s in sandboxes
    ensures Apart(Made(sandboxes, c, asked, plan).value, sandboxes[s])
    ensures Apart(sandboxes[s], Made(sandboxes, c, asked, plan).value)
  {
    var row := sandboxes[s];
    if row.nodeId == c.nodeId {
      if row.netIndex.Some? {
        assert SlotOf(row, NetIndex).value in Taken(sandboxes, c.nodeId, NetIndex);
      }
      if row.gatewayPort.Some? {
        assert SlotOf(row, GatewayPort).value in Taken(sandboxes, c.nodeId, GatewayPort);
      }
    }
  }

  lemma MadeKeepsSlots(sandboxes: Sandboxes, c: Child, asked: SandboxRow, plan: Plan)
    requires SlotsOk(sandboxes, plan) && Made(sandboxes, c, asked, plan).Ok?
    ensures SlotsOk(sandboxes[c.id := Made(sandboxes, c, asked, plan).value], plan)
  {
    forall s | s in sandboxes
      ensures Apart(Made(sandboxes, c, asked, plan).value, sandboxes[s])
      ensures Apart(sandboxes[s], Made(sandboxes, c, asked, plan).value)
    {
      MadeIsApart(sandboxes, c, asked, plan, s);
    }
    hide Apart;
  }

  lemma {:induction false} BatchKeepsSlots(sandboxes: Sandboxes, cs: seq<Child>, asked: SandboxRow, plan: Plan)
    requires SlotsOk(sandboxes, plan) && Batch(sandboxes, cs, asked, plan).Ok?
    ensures SlotsOk(Batch(sandboxes, cs, asked, plan).value, plan)
    decreases |cs|
  {
    hide SlotsOk, Made;
    if cs != [] {
      MadeKeepsSlots(sandboxes, cs[0], asked, plan);
      BatchKeepsSlots(sandboxes[cs[0].id := Made(sandboxes, cs[0], asked, plan).value], cs[1..], asked, plan);
    }
  }

  /** On the node of the `i`-th of these, an earlier sandbox or an earlier one of them has
      this value. */
  ghost predicate HadBefore(before: Sandboxes, after: Sandboxes, ids: seq<string>, i: nat, col: Column, v: nat)
    requires i < |ids| && forall j :: 0 <= j < |ids| ==> ids[j] in after
  {
    || (exists s :: s in before && before[s].nodeId == after[ids[i]].nodeId && SlotOf(before[s], col) == Some(v))
    || (exists j :: 0 <= j < i && after[ids[j]].nodeId == after[ids[i]].nodeId
                    && SlotOf(after[ids[j]], col) == Some(v))
  }

  /** It has the least value of the range that none of those had, and none only when they
      had them all. */
  ghost predicate LeastFree(before: Sandboxes, after: Sandboxes, ids: seq<string>, i: nat, col: Column, lo: nat,
                            hi: nat)
    requires i < |ids| && forall j :: 0 <= j < |ids| ==> ids[j] in after
  {
    match SlotOf(after[ids[i]], col)
    case Some(v) =>
      && lo <= v <= hi && !HadBefore(before, after, ids, i, col, v)
      && forall u :: lo <= u < v ==> HadBefore(before, after, ids, i, col, u)
    case None => forall u :: lo <= u <= hi ==> HadBefore(before, after, ids, i, col, u)
  }

  /** The row a child is written as: the request's, with its own token, the least free
      network slot of its node and the least free port, or none when they are all used. */
  ghost predicate Written(before: Sandboxes, after: Sandboxes, ids: seq<string>, i: nat, token: string,
                          asked: SandboxRow, plan: Plan)
    requires i < |ids| && forall j :: 0 <= j < |ids| ==> ids[j] in after
  {
    var row := after[ids[i]];
    && row == asked.(nodeId := row.nodeId, pool := row.pool, token := token,
                     netIndex := row.netIndex, gatewayPort := row.gatewayPort)
    && row.netIndex.Some?
    && LeastFree(before, after, ids, i, NetIndex, 0, plan.maxNetIndex)
    && LeastFree(before, after, ids, i, GatewayPort, plan.portLo, plan.portHi)
  }

  function Ids(cs: seq<Child>): (ids: seq<string>)
    ensures |ids| == |cs| && forall i :: 0 <= i < |cs| ==> ids[i] == cs[i].id
  {
    seq(|cs|, i requires 0 <= i < |cs| => cs[i].id)
  }

  /** A batch writes its children where they were placed and touches nothing else. */
  lemma {:induction false} BatchAdds(sandboxes: Sandboxes, cs: seq<Child>, asked: SandboxRow, plan: Plan)
    requires Batch(sandboxes, cs, asked, plan).Ok?
    ensures var after := Batch(sandboxes, cs, asked, plan).value;
            && (forall s :: s in sandboxes ==> s in after && after[s] == sandboxes[s])
            && (forall i :: 0 <= i < |cs| ==>
                  cs[i].id in after && after[cs[i].id].nodeId == cs[i].nodeId && after[cs[i].id].pool == cs[i].pool)
            && (forall s :: s in after ==> s in sandboxes || exists i :: 0 <= i < |cs| && cs[i].id == s)
    decreases |cs|
  {
    hide Lowest, Taken;
    if cs != [] {
      var next := sandboxes[cs[0].id := Made(sandboxes, cs[0], asked, plan).value];
      BatchAdds(next, cs[1..], asked, plan);
      var after := Batch(sandboxes, cs, asked, plan).value;
      forall s | s in after
        ensures s in sandboxes || exists i :: 0 <= i < |cs| && cs[i].id == s
      {
        if s !in sandboxes && s != cs[0].id {
          var i :| 0 <= i < |cs[1..]| && cs[1..][i].id == s;
          assert cs[i + 1].id == s;
        }
      }
      forall i | 0 <= i < |cs|
        ensures cs[i].id in after && after[cs[i].id].nodeId == cs[i].nodeId && after[cs[i].id].pool == cs[i].pool
      {
        if i > 0 {
          assert cs[i] == cs[1..][i - 1];
        }
      }
    }
  }

  /** Every row of a batch, whole: the request's, with the child's own place and token, and
      for its slots the least of their ranges that nobody on its node had before it. */
  lemma {:induction false} BatchRows(sandboxes: Sandboxes, cs: seq<Child>, asked: SandboxRow, plan: Plan)
    requires Batch(sandboxes, cs, asked, plan).Ok?
    ensures var after := Batch(sandboxes, cs, asked, plan).value;
            && (forall i :: 0 <= i < |cs| ==> cs[i].id in after)
            && (forall i :: 0 <= i < |cs| ==>
                  && after[cs[i].id].nodeId == cs[i].nodeId && after[cs[i].id].pool == cs[i].pool
                  && Written(sandboxes, after, Ids(cs), i, cs[i].token, asked, plan))
    decreases |cs|
  {
    hide Written, Lowest, Taken, Made;
    BatchAdds(sandboxes, cs, asked, plan);
    if cs != [] {
      var next := sandboxes[cs[0].id := Made(sandboxes, cs[0], asked, plan).value];
      var after := Batch(sandboxes, cs, asked, plan).value;
      BatchAdds(next, cs[1..], asked, plan);
      BatchRows(next, cs[1..], asked, plan);
      MadeIsNew(sandboxes, cs[0], asked, plan);
      assert after[cs[0].id] == next[cs[0].id];
      forall i | 0 <= i < |cs|
        ensures Written(sandboxes, after, Ids(cs), i, cs[i].token, asked, plan)
      {
        if i == 0 {
          MadeIsWritten(sandboxes, after, cs, asked, plan);
        } else {
          RestIsWritten(sandboxes, next, after, cs, i, asked, plan);
        }
      }
    }
  }

  lemma MadeIsNew(sandboxes: Sandboxes, c: Child, asked: SandboxRow, plan: Plan)
    requires Made(sandboxes, c, asked, plan).Ok?
    ensures c.id !in sandboxes
  {}

  lemma RestIsWritten(sandboxes: Sandboxes, next: Sandboxes, after: Sandboxes, cs: seq<Child>, i: nat,
                      asked: SandboxRow, plan: Plan)
    requires 0 < i < |cs| && forall j :: 0 <= j < |cs| ==> cs[j].id in after
    requires cs[0].id !in sandboxes && next == sandboxes[cs[0].id := after[cs[0].id]]
    requires Written(next, after, Ids(cs[1..]), i - 1, cs[1..][i - 1].token, asked, plan)
    ensures Written(sandboxes, after, Ids(cs), i, cs[i].token, asked, plan)
  {
    hide Written;
    assert Ids(cs)[1..] == Ids(cs[1..]);
    WrittenLater(sandboxes, next, after, Ids(cs), i, cs[i].token, asked, plan);
  }

  lemma MadeIsWritten(sandboxes: Sandboxes, after: Sandboxes, cs: seq<Child>, asked: SandboxRow, plan: Plan)
    requires cs != [] && Made(sandboxes, cs[0], asked, plan).Ok? && forall j :: 0 <= j < |cs| ==> cs[j].id in after
    requires after[cs[0].id] == Made(sandboxes, cs[0], asked, plan).value
    ensures Written(sandboxes, after, Ids(cs), 0, cs[0].token, asked, plan)
  {
    hide Lowest, Taken;
    forall col, v: nat
      ensures HadBefore(sandboxes, after, Ids(cs), 0, col, v) <==> v in Taken(sandboxes, cs[0].nodeId, col)
    {
      HadIsTaken(sandboxes, cs[0].nodeId, col, v);
    }
    hide HadBefore;
  }

  lemma HadIsTaken(sandboxes: Sandboxes, node: string, col: Column, v: nat)
    ensures v in Taken(sandboxes, node, col)
       <==> exists s :: s in sandboxes && sandboxes[s].nodeId == node && SlotOf(sandboxes[s], col) == Some(v)
  {}

  /** What was had before the rest of a batch was had before all of it, or by its first. */
  lemma WrittenLater(before: Sandboxes, next: Sandboxes, after: Sandboxes, ids: seq<string>, i: nat, token: string,
                     asked: SandboxRow, plan: Plan)
    requires 0 < i < |ids| && forall j :: 0 <= j < |ids| ==> ids[j] in after
    requires ids[0] !in before && next == before[ids[0] := after[ids[0]]]
    requires Written(next, after, ids[1..], i - 1, token, asked, plan)
    ensures Written(before, after, ids, i, token, asked, plan)
  {
    forall col, v: nat
      ensures HadBefore(before, after, ids, i, col, v) <==> HadBefore(next, after, ids[1..], i - 1, col, v)
    {
      HadLater(before, next, after, ids, i, col, v);
    }
    hide HadBefore;
  }

  lemma HadLater(before: Sandboxes, next: Sandboxes, after: Sandboxes, ids: seq<string>, i: nat, col: Column, v: nat)
    requires 0 < i < |ids| && forall j :: 0 <= j < |ids| ==> ids[j] in after
    requires ids[0] !in before && next == before[ids[0] := after[ids[0]]]
    ensures HadBefore(before, after, ids, i, col, v) <==> HadBefore(next, after, ids[1..], i - 1, col, v)
  {
    hide SlotOf;
    var rest, node := ids[1..], after[ids[i]].nodeId;
    assert rest[i - 1] == ids[i];
    if HadBefore(before, after, ids, i, col, v) {
      if s :| s in before && before[s].nodeId == node && SlotOf(before[s], col) == Some(v) {
        assert next[s] == before[s];
      } else {
        var j :| 0 <= j < i && after[ids[j]].nodeId == node && SlotOf(after[ids[j]], col) == Some(v);
        if j == 0 {
          assert next[ids[0]].nodeId == node;
        } else {
          assert after[rest[j - 1]].nodeId == node;
        }
      }
    }
    if HadBefore(next, after, rest, i - 1, col, v) {
      if s :| s in next && next[s].nodeId == node && SlotOf(next[s], col) == Some(v) {
        if s == ids[0] {
          assert after[ids[0]].nodeId == node;
        } else {
          assert before[s].nodeId == node;
        }
      } else {
        var j :| 0 <= j < i - 1 && after[rest[j]].nodeId == node && SlotOf(after[rest[j]], col) == Some(v);
        assert after[ids[j + 1]].nodeId == node;
      }
    }
  }

  // ---- when a batch fits -------------------------------------------------------------

  function Range(max: nat): (r: set<nat>)
    ensures forall v: nat :: v in r <==> v <= max
  {
    {max} + (if max == 0 then {} else Range(max - 1))
  }

  /** How many network slots are left on a node. */
  function Room(sandboxes: Sandboxes, node: string, max: nat): nat {
    |Range(max) - Taken(sandboxes, node, NetIndex)|
  }

  function CountOn(cs: seq<Child>, node: string): nat {
    if cs == [] then 0 else (if cs[0].nodeId == node then 1 else 0) + CountOn(cs[1..], node)
  }

  ghost predicate FreshIds(sandboxes: Sandboxes, cs: seq<Child>) {
    && (forall i :: 0 <= i < |cs| ==> cs[i].id !in sandboxes)
    && (forall i, j :: 0 <= i < j < |cs| ==> cs[i].id != cs[j].id)
  }

  ghost predicate EnoughRoom(sandboxes: Sandboxes, cs: seq<Child>, max: nat) {
    forall i :: 0 <= i < |cs| ==> CountOn(cs, cs[i].nodeId) <= Room(sandboxes, cs[i].nodeId, max)
  }

  lemma RoomIsSlot(sandboxes: Sandboxes, node: string, max: nat)
    ensures Lowest(Taken(sandboxes, node, NetIndex), 0, max).Some? <==> Room(sandboxes, node, max) > 0
  {
    var free := Range(max) - Taken(sandboxes, node, NetIndex);
    var r := Lowest(Taken(sandboxes, node, NetIndex), 0, max);
    if r.Some? {
      assert r.value in free;
    } else {
      assert free == {};
    }
  }

  lemma TakenStep(sandboxes: Sandboxes, id: string, row: SandboxRow, node: string)
    requires id !in sandboxes && row.netIndex.Some?
    ensures Taken(sandboxes[id := row], node, NetIndex)
         == Taken(sandboxes, node, NetIndex) + (if node == row.nodeId then {row.netIndex.value} else {})
  {
    var after := sandboxes[id := row];
    var before, now := Taken(sandboxes, node, NetIndex), Taken(after, node, NetIndex);
    forall v | v in before ensures v in now {
      var s :| s in sandboxes && sandboxes[s].nodeId == node && SlotOf(sandboxes[s], NetIndex) == Some(v);
      assert after[s] == sandboxes[s];
    }
    if node == row.nodeId {
      assert after[id] == row && SlotOf(row, NetIndex).value in now;
    }
  }

  lemma OneFewer(range: set<nat>, taken: set<nat>, v: nat)
    requires v in range && v !in taken
    ensures |range - (taken + {v})| == |range - taken| - 1
  {
    assert range - (taken + {v}) == (range - taken) - {v};
  }

  /** One more sandbox takes one slot of its own node. */
  lemma RoomStep(sandboxes: Sandboxes, c: Child, asked: SandboxRow, plan: Plan, node: string)
    requires Made(sandboxes, c, asked, plan).Ok?
    ensures Room(sandboxes[c.id := Made(sandboxes, c, asked, plan).value], node, plan.maxNetIndex)
         == Room(sandboxes, node, plan.maxNetIndex) - (if node == c.nodeId then 1 else 0)
  {
    hide Taken, Range;
    var row := Made(sandboxes, c, asked, plan).value;
    TakenStep(sandboxes, c.id, row, node);
    var taken := Taken(sandboxes, node, NetIndex);
    if node == c.nodeId {
      OneFewer(Range(plan.maxNetIndex), taken, row.netIndex.value);
    } else {
      assert taken + {} == taken;
    }
  }

  lemma {:induction false} CountPositive(cs: seq<Child>, i: nat)
    requires i < |cs|
    ensures CountOn(cs, cs[i].nodeId) > 0
    decreases |cs|
  {
    if i > 0 {
      CountPositive(cs[1..], i - 1);
    }
  }

  lemma {:induction false} CountZero(cs: seq<Child>, node: string)
    requires CountOn(cs, node) > 0
    ensures exists i :: 0 <= i < |cs| && cs[i].nodeId == node
    decreases |cs|
  {
    if cs[0].nodeId != node {
      CountZero(cs[1..], node);
      var i :| 0 <= i < |cs[1..]| && cs[1..][i].nodeId == node;
      assert cs[i + 1].nodeId == node;
    }
  }

  /** Room for the batch, asked of every node there is. */
  lemma RoomEverywhere(sandboxes: Sandboxes, cs: seq<Child>, max: nat, node: string)
    requires EnoughRoom(sandboxes, cs, max)
    ensures CountOn(cs, node) <= Room(sandboxes, node, max)
  {
    hide Room;
    if CountOn(cs, node) > 0 {
      CountZero(cs, node);
    }
  }

  lemma EnoughRoomStep(sandboxes: Sandboxes, cs: seq<Child>, asked: SandboxRow, plan: Plan)
    requires cs != [] && Made(sandboxes, cs[0], asked, plan).Ok?
    ensures EnoughRoom(sandboxes, cs, plan.maxNetIndex)
       <==> EnoughRoom(sandboxes[cs[0].id := Made(sandboxes, cs[0], asked, plan).value], cs[1..], plan.maxNetIndex)
  {
    hide Room, Made;
    var max := plan.maxNetIndex;
    var next := sandboxes[cs[0].id := Made(sandboxes, cs[0], asked, plan).value];
    if EnoughRoom(sandboxes, cs, max) {
      forall i | 0 <= i < |cs[1..]|
        ensures CountOn(cs[1..], cs[1..][i].nodeId) <= Room(next, cs[1..][i].nodeId, max)
      {
        RoomEverywhere(sandboxes, cs, max, cs[1..][i].nodeId);
        RoomStep(sandboxes, cs[0], asked, plan, cs[1..][i].nodeId);
      }
    }
    if EnoughRoom(next, cs[1..], max) {
      forall i | 0 <= i < |cs|
        ensures CountOn(cs, cs[i].nodeId) <= Room(sandboxes, cs[i].nodeId, max)
      {
        RoomEverywhere(next, cs[1..], max, cs[i].nodeId);
        RoomStep(sandboxes, cs[0], asked, plan, cs[i].nodeId);
      }
    }
  }

  lemma FreshStep(sandboxes: Sandboxes, cs: seq<Child>, row: SandboxRow)
    requires cs != [] && cs[0].id !in sandboxes
    ensures FreshIds(sandboxes, cs) <==> FreshIds(sandboxes[cs[0].id := row], cs[1..])
  {
    var next := sandboxes[cs[0].id := row];
    if FreshIds(next, cs[1..]) {
      forall i | 0 < i < |cs|
        ensures cs[i].id !in sandboxes && cs[i].id != cs[0].id
      {
        assert cs[i] == cs[1..][i - 1];
      }
      forall i, j | 0 <= i < j < |cs|
        ensures cs[i].id != cs[j].id
      {
        if i > 0 {
          assert cs[1..][i - 1].id != cs[1..][j - 1].id;
        }
      }
    }
  }

  /** A batch succeeds if and only if its ids are new and every node it was
      placed on has a network slot for each of its children. */
  lemma {:induction false} BatchFits(sandboxes: Sandboxes, cs: seq<Child>, asked: SandboxRow, plan: Plan)
    ensures Batch(sandboxes, cs, asked, plan).Ok?
       <==> FreshIds(sandboxes, cs) && EnoughRoom(sandboxes, cs, plan.maxNetIndex)
    decreases |cs|
  {
    hide Room, Lowest;
    if cs != [] {
      RoomIsSlot(sandboxes, cs[0].nodeId, plan.maxNetIndex);
      CountPositive(cs, 0);
      var made := Made(sandboxes, cs[0], asked, plan);
      if made.Ok? {
        hide EnoughRoom, FreshIds, CountOn;
        BatchFits(sandboxes[cs[0].id := made.value], cs[1..], asked, plan);
        EnoughRoomStep(sandboxes, cs, asked, plan);
        FreshStep(sandboxes, cs, made.value);
      }
    }
  }

  /** A refused batch is refused for the first child that does not go in once those before
      it have: for want of a slot on its node, or else for an id that is taken. */
  lemma {:induction false} FirstRefusal(sandboxes: Sandboxes, cs: seq<Child>, asked: SandboxRow, plan: Plan)
      returns (i: nat)
    requires Batch(sandboxes, cs, asked, plan).Err?
    ensures i < |cs| && Batch(sandboxes, cs[..i], asked, plan).Ok?
    ensures var so := Batch(sandboxes, cs[..i], asked, plan).value;
            if Room(so, cs[i].nodeId, plan.maxNetIndex) == 0
            then Batch(sandboxes, cs, asked, plan).error == NoSlot(cs[i].nodeId)
            else cs[i].id in so && Batch(sandboxes, cs, asked, plan).error == Conflict(cs[i].id)
    decreases |cs|
  {
    hide Room, Lowest, Taken;
    RoomIsSlot(sandboxes, cs[0].nodeId, plan.maxNetIndex);
    var made := Made(sandboxes, cs[0], asked, plan);
    if made.Err? {
      i := 0;
    } else {
      var k := FirstRefusal(sandboxes[cs[0].id := made.value], cs[1..], asked, plan);
      i := k + 1;
      assert cs[..i][1..] == cs[1..][..k] && cs[..i][0] == cs[0] && cs[i] == cs[1..][k];
    }
  }

  // ---- every run -----------------------------------------------------------------------

  datatype SlotEvent =
    | Creates(cs: seq<Child>, asked: SandboxRow)
    | Deletes(id: string)

  /** A refused batch leaves everything as it was. */
  function After(sandboxes: Sandboxes, e: SlotEvent, plan: Plan): Sandboxes {
    match e
    case Creates(cs, asked) =>
      var r := Batch(sandboxes, cs, asked, plan);
      if r.Ok? then r.value else sandboxes
    case Deletes(id) => sandboxes - {id}
  }

  function AfterAll(sandboxes: Sandboxes, es: seq<SlotEvent>, plan: Plan): Sandboxes
    decreases |es|
  {
    if es == [] then sandboxes else AfterAll(After(sandboxes, es[0], plan), es[1..], plan)
  }

  /** Over every run of batches and deletes the slots stay distinct and in range. */
  lemma {:induction false} SlotsThroughout(sandboxes: Sandboxes, es: seq<SlotEvent>, plan: Plan)
    requires SlotsOk(sandboxes, plan)
    ensures SlotsOk(AfterAll(sandboxes, es, plan), plan)
    decreases |es|
  {
    if es != [] {
      if es[0].Creates? && Batch(sandboxes, es[0].cs, es[0].asked, plan).Ok? {
        BatchKeepsSlots(sandboxes, es[0].cs, es[0].asked, plan);
      }
      SlotsThroughout(After(sandboxes, es[0], plan), es[1..], plan);
    }
  }
}
