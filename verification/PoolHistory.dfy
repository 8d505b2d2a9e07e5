/** Where each node was, and when: the `node_pools` table, and the console's
    per-pool lines that read it. */
module PoolHistory {
  import opened Wrappers

  /** A stay in one pool; an open one, without `until`, is the present. */
  datatype Stretch = Stretch(pool: string, since: int, until: Option<int>)

  /** Each node's rows in the order they were written. */
  type History = map<string, seq<Stretch>>

  function RowsOf(h: History, node: string): seq<Stretch> {
    if node in h then h[node] else []
  }

  /** The pool of the first row that is still open. */
  function OpenPool(rows: seq<Stretch>): Option<string> {
    if rows == [] then None
    else if rows[0].until.None? then Some(rows[0].pool)
    else OpenPool(rows[1..])
  }

  function Closed(rows: seq<Stretch>, t: int): seq<Stretch> {
    seq(|rows|, i requires 0 <= i < |rows| =>
      if rows[i].until.None? then rows[i].(until := Some(t)) else rows[i])
  }

  /** The rows once the node is known in `pool` at `t`: its open row ended and another
      begun, unless the open one names that pool. */
  function Noted(rows: seq<Stretch>, pool: string, t: int): seq<Stretch> {
    if OpenPool(rows) == Some(pool) then rows
    else Closed(rows, t) + [Stretch(pool, t, None)]
  }

  /** The console's half-open test. */
  predicate Holds(s: Stretch, t: int) {
    s.since <= t && (s.until.None? || t < s.until.value)
  }

  /** The rows run on from one another: each ends where the next begins, none
      is from after `now`, and only the last is open. */
  ghost predicate Chain(rows: seq<Stretch>, now: int) {
    && rows != []
    && (forall i, j :: 0 <= i && j == i + 1 && j < |rows| ==>
          rows[i].until == Some(rows[j].since) && rows[i].since <= rows[j].since)
    && rows[|rows| - 1].until.None?
    && rows[|rows| - 1].since <= now
  }

  lemma {:induction false} SinceGrows(rows: seq<Stretch>, now: int, i: nat, j: nat)
    requires Chain(rows, now)
    requires i <= j < |rows|
    ensures rows[i].since <= rows[j].since
    decreases j
  {
    if i < j {
      SinceGrows(rows, now, i, j - 1);
    }
  }

  lemma {:induction false} OpenIsLast(rows: seq<Stretch>, now: int)
    requires Chain(rows, now)
    ensures OpenPool(rows) == Some(rows[|rows| - 1].pool)
    decreases |rows|
  {
    if |rows| > 1 {
      assert rows[0].until == Some(rows[1].since);
      OpenIsLast(rows[1..], now);
    }
  }

  /** A move, or none, leaves a node's rows one chain that ends in `pool`. */
  lemma NotedKeepsChain(rows: seq<Stretch>, pool: string, before: int, t: int)
    requires rows == [] || Chain(rows, before)
    requires before <= t
    ensures Chain(Noted(rows, pool, t), t)
    ensures OpenPool(Noted(rows, pool, t)) == Some(pool)
    ensures rows != [] ==> Noted(rows, pool, t)[0].since == rows[0].since
  {
    if rows != [] {
      OpenIsLast(rows, before);
    }
    OpenIsLast(Noted(rows, pool, t), t);
  }

  /** Whether a node was in the chosen pool at `t`; no choice means any. */
  ghost predicate InPoolRows(rows: seq<Stretch>, sel: string, t: int) {
    exists i :: 0 <= i < |rows| && (sel == "" || sel == rows[i].pool) && Holds(rows[i], t)
  }

  /** What was recorded about a moment stays recorded: a later move changes
      nothing about the time before it. */
  lemma NotedKeepsThePast(rows: seq<Stretch>, pool: string, before: int, t: int, sel: string, u: int)
    requires rows == [] || Chain(rows, before)
    requires u < t
    ensures InPoolRows(Noted(rows, pool, t), sel, u) == InPoolRows(rows, sel, u)
  {
    var after := Noted(rows, pool, t);
    forall i | 0 <= i < |rows|
      ensures after[i].pool == rows[i].pool && Holds(after[i], u) == Holds(rows[i], u)
    {}
    if InPoolRows(rows, sel, u) {
      var i :| 0 <= i < |rows| && (sel == "" || sel == rows[i].pool) && Holds(rows[i], u);
      assert Holds(after[i], u);
    }
  }

  /** The one row a moment lies in. */
  function RowAt(rows: seq<Stretch>, t: int): nat
    requires rows != []
    ensures RowAt(rows, t) < |rows|
  {
    if |rows| == 1 || t < rows[1].since then 0 else 1 + RowAt(rows[1..], t)
  }

  lemma ChainTail(rows: seq<Stretch>, now: int)
    requires Chain(rows, now) && |rows| > 1
    ensures Chain(rows[1..], now)
  {}

  /** Every moment from the first row on lies in exactly one row, and no
      earlier moment lies in any. */
  lemma {:induction false} Partition(rows: seq<Stretch>, now: int, t: int, i: nat)
    requires Chain(rows, now) && i < |rows|
    ensures Holds(rows[i], t) <==> (rows[0].since <= t && i == RowAt(rows, t))
    decreases |rows|
  {
    if |rows| > 1 {
      ChainTail(rows, now);
      assert rows[0].until == Some(rows[1].since);
      if i > 0 {
        Partition(rows[1..], now, t, i - 1);
        SinceGrows(rows, now, 1, i);
      }
    }
  }

  /** In at most one pool at a time, and in some pool from the first row on. */
  lemma InOnePool(rows: seq<Stretch>, now: int, t: int, sel: string)
    requires Chain(rows, now)
    ensures InPoolRows(rows, sel, t) <==>
              rows[0].since <= t && (sel == "" || sel == rows[RowAt(rows, t)].pool)
  {
    if InPoolRows(rows, sel, t) {
      var i :| 0 <= i < |rows| && (sel == "" || sel == rows[i].pool) && Holds(rows[i], t);
      Partition(rows, now, t, i);
    }
    Partition(rows, now, t, RowAt(rows, t));
  }

  // ---- the console's lines -------------------------------------------------

  datatype Point = Point(t: int, v: real)

  /** One polled line: a metric, the node it is of, and its points. */
  datatype Line = Line(metric: string, key: string, points: seq<Point>)

  /** What one point adds to the pool's line at `t`. */
  ghost function Share(h: History, sel: string, node: string, p: Point, f: real -> real, t: int): real {
    if p.t == t && InPoolRows(RowsOf(h, node), sel, t) then f(p.v) else 0.0
  }

  ghost function PointsAt(h: History, sel: string, node: string, ps: seq<Point>, f: real -> real, t: int): real {
    if ps == [] then 0.0
    else PointsAt(h, sel, node, ps[..|ps| - 1], f, t) + Share(h, sel, node, ps[|ps| - 1], f, t)
  }

  ghost function LineAt(h: History, sel: string, metric: string, l: Line, f: real -> real, t: int): real {
    if l.metric != metric then 0.0 else PointsAt(h, sel, l.key, l.points, f, t)
  }

  /** The pool's line at `t`: everything its nodes reported then. */
  ghost function PoolAt(h: History, sel: string, metric: string, ls: seq<Line>, f: real -> real, t: int): real {
    if ls == [] then 0.0
    else PoolAt(h, sel, metric, ls[..|ls| - 1], f, t) + LineAt(h, sel, metric, ls[|ls| - 1], f, t)
  }

  /** `sum.get(t) || 0`. */
  function Get(sum: map<int, real>, t: int): real {
    if t in sum then sum[t] else 0.0
  }

  predicate InPool(h: History, sel: string, node: string, t: int)
    ensures InPool(h, sel, node, t) == InPoolRows(RowsOf(h, node), sel, t)
  {
    exists i :: 0 <= i < |RowsOf(h, node)|
                && (sel == "" || sel == RowsOf(h, node)[i].pool) && Holds(RowsOf(h, node)[i], t)
  }

  /** Adds one node's points to the sums. */
  method AddPoints(h: History, sel: string, node: string, ps: seq<Point>, f: real -> real, before: map<int, real>)
    returns (sum: map<int, real>)
    ensures forall t :: Get(sum, t) == Get(before, t) + PointsAt(h, sel, node, ps, f, t)
    ensures forall t :: t in sum <==>
              t in before || exists i :: 0 <= i < |ps| && ps[i].t == t && InPool(h, sel, node, t)
  {
    sum := before;
    for i := 0 to |ps|
      invariant forall t :: Get(sum, t) == Get(before, t) + PointsAt(h, sel, node, ps[..i], f, t)
      invariant forall t :: t in sum <==>
                  t in before || exists j :: 0 <= j < i && ps[j].t == t && InPool(h, sel, node, t)
    {
      assert ps[..i + 1][..i] == ps[..i];
      var p := ps[i];
      if InPool(h, sel, node, p.t) {
        sum := sum[p.t := Get(sum, p.t) + f(p.v)];
      }
    }
    assert ps[..|ps|] == ps;
  }

  /** The base line whose times the pool's line has even where no node of the
      pool reported. */
  function BaseTimes(ls: seq<Line>): seq<Point> {
    if ls == [] then []
    else if ls[0].metric == "fleet.sandboxes" && ls[0].key == "hot" then ls[0].points
    else BaseTimes(ls[1..])
  }

  /** The first line of the fleet's hot sandboxes. */
  predicate FirstHot(ls: seq<Line>, i: nat) {
    && i < |ls| && ls[i].metric == "fleet.sandboxes" && ls[i].key == "hot"
    && forall k :: 0 <= k < i ==> ls[k].metric != "fleet.sandboxes" || ls[k].key != "hot"
  }

  ghost predicate HasTime(ps: seq<Point>, t: int) {
    exists j :: 0 <= j < |ps| && ps[j].t == t
  }

  lemma {:induction false} BaseIsFirstHot(ls: seq<Line>)
    ensures forall i: nat :: FirstHot(ls, i) ==> BaseTimes(ls) == ls[i].points
    ensures (forall i: nat :: !FirstHot(ls, i)) ==> BaseTimes(ls) == []
    decreases |ls|
  {
    if ls != [] {
      var rest := ls[1..];
      BaseIsFirstHot(rest);
      if ls[0].metric == "fleet.sandboxes" && ls[0].key == "hot" {
        assert FirstHot(ls, 0);
      } else {
        forall i: nat
          ensures FirstHot(rest, i) <==> FirstHot(ls, i + 1)
        {
          assert forall k :: 0 < k < |ls| ==> ls[k] == rest[k - 1];
        }
        forall i: nat | FirstHot(ls, i)
          ensures i > 0 && BaseTimes(ls) == ls[i].points
        {
          assert FirstHot(rest, i - 1);
        }
      }
    }
  }

  ghost predicate Reported(h: History, sel: string, metric: string, ls: seq<Line>, t: int) {
    exists i, j :: 0 <= i < |ls| && ls[i].metric == metric && 0 <= j < |ls[i].points|
                   && ls[i].points[j].t == t && InPool(h, sel, ls[i].key, t)
  }

  /** One pool's line made of its nodes' lines: at each moment the sum over
      those then in the pool, with a point wherever the base line has one
      or a node of the pool reported. */
  method PoolLine(h: History, sel: string, metric: string, ls: seq<Line>, f: real -> real)
    returns (sum: map<int, real>)
    ensures forall t :: Get(sum, t) == PoolAt(h, sel, metric, ls, f, t)
    ensures forall i: nat :: FirstHot(ls, i) ==>
              forall t :: t in sum <==> HasTime(ls[i].points, t) || Reported(h, sel, metric, ls, t)
    ensures (forall i: nat :: !FirstHot(ls, i)) ==>
              forall t :: t in sum <==> Reported(h, sel, metric, ls, t)
  {
    BaseIsFirstHot(ls);
    hide FirstHot;
    var base := BaseTimes(ls);
    sum := map[];
    for i := 0 to |base|
      invariant forall t :: t in sum ==> sum[t] == 0.0
      invariant forall t :: t in sum <==> exists j :: 0 <= j < i && base[j].t == t
    {
      sum := sum[base[i].t := 0.0];
    }
    for i := 0 to |ls|
      invariant forall t :: Get(sum, t) == PoolAt(h, sel, metric, ls[..i], f, t)
      invariant forall t :: t in sum <==>
                  (exists j :: 0 <= j < |base| && base[j].t == t)
                  || Reported(h, sel, metric, ls[..i], t)
    {
      assert ls[..i + 1][..i] == ls[..i];
      ghost var was := sum;
      if ls[i].metric == metric {
        sum := AddPoints(h, sel, ls[i].key, ls[i].points, f, sum);
      }
      forall t
        ensures t in sum <==> (exists j :: 0 <= j < |base| && base[j].t == t)
                              || Reported(h, sel, metric, ls[..i + 1], t)
      {
        ReportedStep(h, sel, metric, ls, i, t);
      }
    }
    assert ls[..|ls|] == ls;
    assert base == BaseTimes(ls);
  }

  lemma ReportedStep(h: History, sel: string, metric: string, ls: seq<Line>, i: nat, t: int)
    requires i < |ls|
    ensures Reported(h, sel, metric, ls[..i + 1], t) <==>
              Reported(h, sel, metric, ls[..i], t)
              || (ls[i].metric == metric
                  && exists j :: 0 <= j < |ls[i].points| && ls[i].points[j].t == t && InPool(h, sel, ls[i].key, t))
  {
    var now, before := ls[..i + 1], ls[..i];
    assert forall k :: 0 <= k < i ==> now[k] == before[k];
    assert now[i] == ls[i];
    if Reported(h, sel, metric, before, t) {
      var k, j :| 0 <= k < |before| && before[k].metric == metric && 0 <= j < |before[k].points|
                  && before[k].points[j].t == t && InPool(h, sel, before[k].key, t);
      assert now[k].points[j].t == t;
    }
    if ls[i].metric == metric && exists j :: 0 <= j < |ls[i].points| && ls[i].points[j].t == t
                                             && InPool(h, sel, ls[i].key, t) {
      var j :| 0 <= j < |ls[i].points| && ls[i].points[j].t == t && InPool(h, sel, ls[i].key, t);
      assert now[i].points[j].t == t;
    }
  }

  // ---- adding up over the pools ---------------------------------------------

  ghost predicate Distinct(s: seq<string>) {
    forall i, j :: 0 <= i < j < |s| ==> s[i] != s[j]
  }

  /** `pools` names every pool any node was ever in, each once. */
  ghost predicate Covers(h: History, pools: seq<string>) {
    && Distinct(pools)
    && "" !in pools
    && forall n, i :: n in h && 0 <= i < |h[n]| ==> h[n][i].pool in pools
  }

  ghost predicate Chains(h: History, now: int) {
    forall n :: n in h ==> Chain(h[n], now)
  }

  /** The pools' lines at `t`, added up. */
  ghost function AcrossPools(h: History, pools: seq<string>, metric: string, ls: seq<Line>, f: real -> real, t: int)
    : real
  {
    if pools == [] then 0.0
    else PoolAt(h, pools[0], metric, ls, f, t) + AcrossPools(h, pools[1..], metric, ls, f, t)
  }

  ghost function AcrossPoints(h: History, pools: seq<string>, node: string, ps: seq<Point>, f: real -> real, t: int)
    : real
  {
    if pools == [] then 0.0
    else PointsAt(h, pools[0], node, ps, f, t) + AcrossPoints(h, pools[1..], node, ps, f, t)
  }

  ghost function AcrossShare(h: History, pools: seq<string>, node: string, p: Point, f: real -> real, t: int): real {
    if pools == [] then 0.0
    else Share(h, pools[0], node, p, f, t) + AcrossShare(h, pools[1..], node, p, f, t)
  }

  lemma {:induction false} NoShare(h: History, pools: seq<string>, now: int, node: string, p: Point,
                                   f: real -> real, t: int)
    requires Chains(h, now) && "" !in pools
    requires forall pool :: pool in pools ==> !InPoolRows(RowsOf(h, node), pool, t)
    ensures AcrossShare(h, pools, node, p, f, t) == 0.0
    decreases |pools|
  {
    if pools != [] {
      assert pools[0] in pools;
      NoShare(h, pools[1..], now, node, p, f, t);
    }
  }

  /** One point counts toward exactly one of the pools, the one its node was in. */
  lemma {:induction false} ShareOnce(h: History, pools: seq<string>, now: int, node: string, p: Point,
                                     f: real -> real, t: int)
    requires Chains(h, now) && Distinct(pools) && "" !in pools
    requires InPoolRows(RowsOf(h, node), "", t) ==>
               exists pool :: pool in pools && InPoolRows(RowsOf(h, node), pool, t)
    ensures AcrossShare(h, pools, node, p, f, t) == Share(h, "", node, p, f, t)
    decreases |pools|
  {
    var rows := RowsOf(h, node);
    if node !in h {
      NoShare(h, pools, now, node, p, f, t);
    } else if pools != [] {
      InOnePool(rows, now, t, "");
      forall pool
        ensures InPoolRows(rows, pool, t) <==>
                  rows[0].since <= t && (pool == "" || pool == rows[RowAt(rows, t)].pool)
      {
        InOnePool(rows, now, t, pool);
      }
      if InPoolRows(rows, pools[0], t) {
        forall pool | pool in pools[1..]
          ensures !InPoolRows(rows, pool, t)
        {
          assert pool != pools[0];
          assert pool in pools;
        }
        NoShare(h, pools[1..], now, node, p, f, t);
      } else {
        if InPoolRows(rows, "", t) {
          var pool :| pool in pools && InPoolRows(rows, pool, t);
          assert pool in pools[1..];
        }
        ShareOnce(h, pools[1..], now, node, p, f, t);
      }
    }
  }

  lemma SomePool(h: History, pools: seq<string>, now: int, node: string, t: int)
    requires Chains(h, now) && Covers(h, pools)
    requires InPoolRows(RowsOf(h, node), "", t)
    ensures exists pool :: pool in pools && InPoolRows(RowsOf(h, node), pool, t)
  {
    var rows := RowsOf(h, node);
    assert node in h;
    InOnePool(rows, now, t, "");
    var pool := rows[RowAt(rows, t)].pool;
    InOnePool(rows, now, t, pool);
    assert pool in pools;
  }

  lemma {:induction false} AcrossPointsStep(h: History, pools: seq<string>, node: string, ps: seq<Point>,
                                            f: real -> real, t: int)
    requires ps != []
    ensures AcrossPoints(h, pools, node, ps, f, t)
         == AcrossPoints(h, pools, node, ps[..|ps| - 1], f, t) + AcrossShare(h, pools, node, ps[|ps| - 1], f, t)
    decreases |pools|
  {
    if pools != [] {
      AcrossPointsStep(h, pools[1..], node, ps, f, t);
    }
  }

  lemma {:induction false} AcrossNone(h: History, pools: seq<string>, node: string, f: real -> real, t: int)
    ensures AcrossPoints(h, pools, node, [], f, t) == 0.0
    decreases |pools|
  {
    if pools != [] {
      AcrossNone(h, pools[1..], node, f, t);
    }
  }

  lemma {:induction false} PointsAddUp(h: History, pools: seq<string>, now: int, node: string, ps: seq<Point>,
                                       f: real -> real, t: int)
    requires Chains(h, now) && Covers(h, pools)
    ensures AcrossPoints(h, pools, node, ps, f, t) == PointsAt(h, "", node, ps, f, t)
    decreases |ps|
  {
    if ps == [] {
      AcrossNone(h, pools, node, f, t);
    } else {
      AcrossPointsStep(h, pools, node, ps, f, t);
      PointsAddUp(h, pools, now, node, ps[..|ps| - 1], f, t);
      if InPoolRows(RowsOf(h, node), "", t) {
        SomePool(h, pools, now, node, t);
      }
      ShareOnce(h, pools, now, node, ps[|ps| - 1], f, t);
    }
  }

  lemma {:induction false} AcrossPoolsStep(h: History, pools: seq<string>, metric: string, ls: seq<Line>,
                                           f: real -> real, t: int)
    requires ls != []
    ensures AcrossPools(h, pools, metric, ls, f, t)
         == AcrossPools(h, pools, metric, ls[..|ls| - 1], f, t)
            + (if ls[|ls| - 1].metric != metric then 0.0
               else AcrossPoints(h, pools, ls[|ls| - 1].key, ls[|ls| - 1].points, f, t))
    decreases |pools|
  {
    if pools != [] {
      AcrossPoolsStep(h, pools[1..], metric, ls, f, t);
    }
  }

  lemma {:induction false} AcrossNoLines(h: History, pools: seq<string>, metric: string, f: real -> real, t: int)
    ensures AcrossPools(h, pools, metric, [], f, t) == 0.0
    decreases |pools|
  {
    if pools != [] {
      AcrossNoLines(h, pools[1..], metric, f, t);
    }
  }

  /** The per-pool lines add up to the line of every node in any pool. */
  lemma {:induction false} PoolsAddUp(h: History, pools: seq<string>, now: int, metric: string, ls: seq<Line>,
                                      f: real -> real, t: int)
    requires Chains(h, now) && Covers(h, pools)
    ensures AcrossPools(h, pools, metric, ls, f, t) == PoolAt(h, "", metric, ls, f, t)
    decreases |ls|
  {
    if ls == [] {
      AcrossNoLines(h, pools, metric, f, t);
    } else {
      var l := ls[|ls| - 1];
      AcrossPoolsStep(h, pools, metric, ls, f, t);
      PoolsAddUp(h, pools, now, metric, ls[..|ls| - 1], f, t);
      PointsAddUp(h, pools, now, l.key, l.points, f, t);
    }
  }

  /** Everything reported at `t`, whichever pool it was in. */
  function ReportedAt(ps: seq<Point>, f: real -> real, t: int): real {
    if ps == [] then 0.0
    else ReportedAt(ps[..|ps| - 1], f, t) + (if ps[|ps| - 1].t == t then f(ps[|ps| - 1].v) else 0.0)
  }

  function FleetAt(metric: string, ls: seq<Line>, f: real -> real, t: int): real {
    if ls == [] then 0.0
    else FleetAt(metric, ls[..|ls| - 1], f, t)
         + (if ls[|ls| - 1].metric != metric then 0.0 else ReportedAt(ls[|ls| - 1].points, f, t))
  }

  lemma {:induction false} KnownPoints(h: History, node: string, ps: seq<Point>, f: real -> real, t: int)
    requires InPoolRows(RowsOf(h, node), "", t)
    ensures PointsAt(h, "", node, ps, f, t) == ReportedAt(ps, f, t)
    decreases |ps|
  {
    if ps != [] {
      KnownPoints(h, node, ps[..|ps| - 1], f, t);
    }
  }

  /** From the moment every reporting node has a first stretch, the per-pool
      lines added up are the fleet's per-node total. */
  lemma {:induction false} PoolsAreTheFleet(h: History, pools: seq<string>, now: int, metric: string, ls: seq<Line>,
                                            f: real -> real, t: int)
    requires Chains(h, now) && Covers(h, pools)
    requires forall i :: 0 <= i < |ls| && ls[i].metric == metric ==>
               ls[i].key in h && h[ls[i].key][0].since <= t
    ensures AcrossPools(h, pools, metric, ls, f, t) == FleetAt(metric, ls, f, t)
    decreases |ls|
  {
    PoolsAddUp(h, pools, now, metric, ls, f, t);
    if ls != [] {
      var l := ls[|ls| - 1];
      PoolsAddUp(h, pools, now, metric, ls[..|ls| - 1], f, t);
      PoolsAreTheFleet(h, pools, now, metric, ls[..|ls| - 1], f, t);
      if l.metric == metric {
        InOnePool(h[l.key], now, t, "");
        KnownPoints(h, l.key, l.points, f, t);
      }
    }
  }
}
