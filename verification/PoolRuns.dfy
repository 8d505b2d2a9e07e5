/** Whole runs of registrations, fingerprint reports, creates and deletes: what
    stays true of the pools, the sandboxes in them and the history. */
module PoolRuns {
  import opened Wrappers
  import opened Tables
  import opened PoolHistory
  import opened Pools

  // ---- what every run keeps ---------------------------------------------------

  /** A node's history is one chain whose open stretch names its pool. */
  ghost predicate HistoryFollows(w: World, now: int) {
    && w.history.Keys == w.nodes.Keys
    && forall n :: n in w.nodes ==>
         Chain(w.history[n], now) && OpenPool(w.history[n]) == Some(w.nodes[n].pool)
  }

  ghost predicate SandboxesFollow(w: World) {
    forall s :: s in w.sandboxes && w.sandboxes[s].nodeId in w.nodes ==>
      w.sandboxes[s].pool == w.nodes[w.sandboxes[s].nodeId].pool
  }

  ghost predicate PlainTokens(w: World) {
    forall k :: k in w.tokens ==> '#' !in w.tokens[k].pool
  }

  ghost predicate Ok(w: World, now: int) {
    && Grouped(w.nodes) && NoneRevoked(w.nodes)
    && HistoryFollows(w, now) && SandboxesFollow(w) && PlainTokens(w)
  }

  lemma Later(rows: seq<Stretch>, before: int, now: int)
    requires Chain(rows, before) && before <= now
    ensures Chain(rows, now)
  {}

  // ---- steps --------------------------------------------------------------------

  datatype Event =
    | Mint(token: string, mintPool: string, expiresAt: int)
    | Register(spent: string, newNode: string, fingerprint: string, max: nat)
    | Add(asked: string, newNode: string, fingerprint: string, max: nat)
    | Report(node: string, reported: string)
    | Create(id: string, row: SandboxRow, named: Option<string>)
    | Delete(id: string)

  datatype Timed = Timed(event: Event, at: int)

  /** The pool a created sandbox is written in: its node's, or for a node named
      by the caller that has not registered, the one the caller named. */
  function PoolOnNode(w: World, node: string, named: Option<string>): string {
    if node in w.nodes then w.nodes[node].pool
    else if named.Some? then named.value else "default"
  }

  function Step(w: World, e: Timed): World {
    match e.event
    case Mint(token, pool, expiresAt) => if token in w.tokens then w else Minted(w, token, pool, expiresAt)
    case Register(token, node, fp, max) =>
      var granted := Grants(w.tokens, token, e.at);
      if granted.None? then w
      else Joined(Redeemed(w, token, node, e.at), node, granted.value, fp, max, true, e.at)
    case Add(pool, node, fp, max) => Joined(w, node, pool, fp, max, false, e.at)
    case Report(node, fp) => if fp == "" then w else Refingerprinted(w, node, fp, e.at)
    case Create(id, row, named) =>
      if id in w.sandboxes then w
      else w.(sandboxes := w.sandboxes[id := row.(pool := PoolOnNode(w, row.nodeId, named))])
    case Delete(id) => w.(sandboxes := w.sandboxes - {id})
  }

  /** A registration, first or not, under a plain pool name: by a node that may leave
      where it was and come in there, with no sandbox placed on it under another pool. */
  ghost predicate MayJoin(w: World, node: string, asked: string, fp: string) {
    && '#' !in asked
    && MayLeave(w.nodes, node, asked) && MayLand(w.nodes, node, asked, fp)
    && SandboxesAwait(w, node, PoolFor(w.nodes, asked, fp))
  }

  /** Every sandbox already placed on the node carries this pool. */
  ghost predicate SandboxesAwait(w: World, node: string, pool: string) {
    forall s :: s in w.sandboxes && w.sandboxes[s].nodeId == node ==> w.sandboxes[s].pool == pool
  }

  ghost predicate May(w: World, e: Timed) {
    match e.event
    case Mint(token, pool, expiresAt) => '#' !in pool
    case Register(token, node, fp, max) =>
      Grants(w.tokens, token, e.at).Some? ==> MayJoin(w, node, Grants(w.tokens, token, e.at).value, fp)
    case Add(pool, node, fp, max) => MayJoin(w, node, pool, fp)
    case Report(node, fp) =>
      node in w.nodes && w.nodes[node].fingerprint != fp ==>
        NoClash(w.nodes, node, BaseOf(w.nodes[node].pool), fp)
    case Create(id, row, named) => true
    case Delete(id) => true
  }

  // ---- registration ----------------------------------------------------------------

  /** Registration brings a node's earlier sandboxes with it exactly when they
      were placed under the pool it joins. */
  lemma JoinSandboxes(w: World, node: string, asked: string, fp: string, max: nat, up: bool, t: int)
    requires SandboxesFollow(w)
    ensures SandboxesFollow(Joined(w, node, asked, fp, max, up, t))
       <==> SandboxesAwait(w, node, PoolFor(w.nodes, asked, fp))
  {
    hide Derived, NoMismatch;
    var after := Joined(w, node, asked, fp, max, up, t);
    if SandboxesFollow(after) {
      forall s | s in w.sandboxes && w.sandboxes[s].nodeId == node
        ensures w.sandboxes[s].pool == PoolFor(w.nodes, asked, fp)
      {
        assert s in after.sandboxes;
      }
    }
  }

  lemma JoinHistory(w: World, node: string, asked: string, fp: string, max: nat, up: bool, before: int, t: int)
    requires HistoryFollows(w, before) && before <= t
    ensures HistoryFollows(Joined(w, node, asked, fp, max, up, t), t)
  {
    hide Derived, NoMismatch, Chain, Noted, OpenPool;
    forall n | n in w.nodes
      ensures Chain(w.history[n], t)
    {
      Later(w.history[n], before, t);
    }
    NotedKeepsChain(RowsOf(w.history, node), PoolFor(w.nodes, asked, fp), before, t);
  }

  lemma JoinKeeps(w: World, node: string, asked: string, fp: string, max: nat, up: bool, before: int, t: int)
    requires Ok(w, before) && before <= t && MayJoin(w, node, asked, fp)
    ensures Ok(Joined(w, node, asked, fp, max, up, t), t)
  {
    JoinKeepsGroups(w, node, asked, fp, max, up, t);
    JoinSandboxes(w, node, asked, fp, max, up, t);
    JoinHistory(w, node, asked, fp, max, up, before, t);
    hide Grouped, NoneRevoked, HistoryFollows, SandboxesFollow, PoolFor, Upserted, Vouched, MayLeave, MayLand;
  }

  // ---- a changed fingerprint ---------------------------------------------------------

  lemma MoveHistory(w: World, id: string, fp: string, pool: string, before: int, t: int)
    requires HistoryFollows(w, before) && before <= t && id in w.nodes
    ensures HistoryFollows(Moved(w, id, fp, pool, t), t)
  {
    hide Chain, Noted, OpenPool;
    forall n | n in w.nodes
      ensures Chain(w.history[n], t)
    {
      Later(w.history[n], before, t);
    }
    NotedKeepsChain(w.history[id], pool, before, t);
  }

  lemma MergeHistory(w: World, from: string, to: string, before: int, t: int)
    requires HistoryFollows(w, before) && before <= t
    ensures HistoryFollows(Merged(w, from, to, t), t)
  {
    hide Chain, Noted, OpenPool;
    var after := Merged(w, from, to, t);
    assert after.history.Keys == w.history.Keys;
    forall n | n in after.nodes
      ensures Chain(after.history[n], t) && OpenPool(after.history[n]) == Some(after.nodes[n].pool)
    {
      Later(w.history[n], before, t);
      NotedKeepsChain(w.history[n], to, before, t);
    }
  }

  lemma MoveSandboxes(w: World, id: string, fp: string, pool: string, t: int)
    requires SandboxesFollow(w) && id in w.nodes
    ensures SandboxesFollow(Moved(w, id, fp, pool, t))
  {
    hide Noted;
  }

  lemma MergeSandboxes(w: World, from: string, to: string, t: int)
    requires SandboxesFollow(w)
    ensures SandboxesFollow(Merged(w, from, to, t))
  {
    hide Noted;
  }

  lemma MergeTokens(w: World, base: string, fp: string, t: int)
    requires PlainTokens(w)
    ensures Merged(w, Derived(base, fp), base, t).tokens == w.tokens
  {
    assert '#' in Derived(base, fp) by {
      assert Derived(base, fp)[|base|] == '#';
    }
  }

  lemma RefingerprintKeeps(w: World, id: string, fp: string, before: int, t: int)
    requires Ok(w, before) && before <= t
    requires id in w.nodes && w.nodes[id].fingerprint != fp ==> NoClash(w.nodes, id, BaseOf(w.nodes[id].pool), fp)
    ensures Ok(Refingerprinted(w, id, fp, t), t)
  {
    hide Grouped, NoneRevoked, HistoryFollows, SandboxesFollow, PlainTokens, NoClash, Moved, Merged, Target, BaseOf,
         Derived;
    if id !in w.nodes || w.nodes[id].fingerprint == fp {
      IdleKeeps(w, before, t);
    } else {
      var base := BaseOf(w.nodes[id].pool);
      var target := Target(w.nodes, id, fp);
      var moved := Moved(w, id, fp, target, t);
      RefingerprintKeepsGroups(w, id, fp, t);
      MoveHistory(w, id, fp, target, before, t);
      MoveSandboxes(w, id, fp, target, t);
      MovedTokens(w, id, fp, target, t);
      if target == base {
        MergeHistory(moved, Derived(base, fp), base, t, t);
        MergeSandboxes(moved, Derived(base, fp), base, t);
        MergeTokens(moved, base, fp, t);
        SameTokens(moved, Merged(moved, Derived(base, fp), base, t));
      }
    }
  }

  lemma MovedTokens(w: World, id: string, fp: string, pool: string, t: int)
    requires PlainTokens(w) && id in w.nodes
    ensures PlainTokens(Moved(w, id, fp, pool, t))
  {
    hide Noted, Repooled;
  }

  lemma SameTokens(w: World, v: World)
    requires PlainTokens(w) && v.tokens == w.tokens
    ensures PlainTokens(v)
  {}

  lemma IdleKeeps(w: World, before: int, t: int)
    requires Ok(w, before) && before <= t
    ensures Ok(w, t)
  {
    hide Grouped, NoneRevoked, SandboxesFollow, PlainTokens, Chain, OpenPool;
    forall n | n in w.nodes
      ensures Chain(w.history[n], t)
    {
      Later(w.history[n], before, t);
    }
  }

  // ---- every step, every run ------------------------------------------------------------

  lemma RedeemKeeps(w: World, token: string, node: string, before: int, t: int)
    requires Ok(w, before)
    ensures Ok(Redeemed(w, token, node, t), before)
  {
    hide Grouped, NoneRevoked, Chain, OpenPool;
  }

  lemma SandboxKeeps(w: World, v: World, now: int)
    requires Ok(w, now) && SandboxesFollow(v)
    requires v.nodes == w.nodes && v.history == w.history && v.tokens == w.tokens
    ensures Ok(v, now)
  {
    hide Grouped, NoneRevoked, Chain, OpenPool, SandboxesFollow;
  }

  lemma MintKeeps(w: World, token: string, pool: string, expiresAt: int, now: int)
    requires Ok(w, now) && '#' !in pool
    ensures Ok(Minted(w, token, pool, expiresAt), now)
  {
    hide Grouped, NoneRevoked, Chain, OpenPool, SandboxesFollow;
    var v := Minted(w, token, pool, expiresAt);
    assert SandboxesFollow(v) by {
      FollowFromTables(w, v);
    }
  }

  lemma FollowFromTables(w: World, v: World)
    requires SandboxesFollow(w) && v.nodes == w.nodes && v.sandboxes == w.sandboxes
    ensures SandboxesFollow(v)
  {}

  /** One event keeps all of it. */
  lemma StepKeeps(w: World, e: Timed, before: int)
    requires Ok(w, before) && before <= e.at && May(w, e)
    ensures Ok(Step(w, e), e.at)
  {
    hide Ok, Joined, Redeemed, Refingerprinted, Minted, BaseOf, NoClash, MayLeave, MayLand;
    IdleKeeps(w, before, e.at);
    match e.event {
      case Mint(token, pool, expiresAt) =>
        MintKeeps(w, token, pool, expiresAt, e.at);
      case Register(token, node, fp, max) =>
        RegisterKeeps(w, e, before);
      case Add(pool, node, fp, max) =>
        JoinKeeps(w, node, pool, fp, max, false, before, e.at);
      case Report(node, fp) =>
        RefingerprintKeeps(w, node, fp, before, e.at);
      case Create(id, row, named) =>
        CreateFollows(w, e, before);
        SandboxKeeps(w, Step(w, e), e.at);
      case Delete(id) =>
        CreateFollows(w, e, before);
        SandboxKeeps(w, Step(w, e), e.at);
    }
  }

  lemma CreateFollows(w: World, e: Timed, before: int)
    requires Ok(w, before) && (e.event.Create? || e.event.Delete?)
    ensures SandboxesFollow(Step(w, e))
  {
    hide Grouped, NoneRevoked, HistoryFollows, PlainTokens;
  }

  lemma RegisterKeeps(w: World, e: Timed, before: int)
    requires Ok(w, before) && before <= e.at && e.event.Register? && May(w, e)
    ensures Ok(Step(w, e), e.at)
  {
    hide Ok, Joined, BaseOf, NoClash, NoMismatch, PoolFor, MayLeave, MayLand;
    var Timed(Register(token, node, fp, max), t) := e;
    if Grants(w.tokens, token, t).None? {
      IdleKeeps(w, before, t);
    } else {
      RedeemKeeps(w, token, node, before, t);
      JoinKeeps(Redeemed(w, token, node, t), node, Grants(w.tokens, token, t).value, fp, max, true, before, t);
    }
  }

  function Run(w: World, es: seq<Timed>): World
    decreases |es|
  {
    if es == [] then w else Run(Step(w, es[0]), es[1..])
  }

  function End(es: seq<Timed>, now: int): int {
    if es == [] then now else es[|es| - 1].at
  }

  /** The clock does not go back, and each event may happen when it does. */
  ghost predicate MayRun(w: World, es: seq<Timed>, now: int)
    decreases |es|
  {
    es != [] ==> now <= es[0].at && May(w, es[0]) && MayRun(Step(w, es[0]), es[1..], es[0].at)
  }

  /** Over every run: two nodes with one base name are in one pool if and only if
      their fingerprints agree, a base name is never left empty, a sandbox is in
      its node's pool, and every node's history is a chain ending in its pool. */
  lemma {:induction false} RunKeeps(w: World, es: seq<Timed>, now: int)
    requires Ok(w, now) && MayRun(w, es, now)
    ensures Ok(Run(w, es), End(es, now))
    decreases |es|
  {
    hide Ok, Step, May;
    if es != [] {
      StepKeeps(w, es[0], now);
      RunKeeps(Step(w, es[0]), es[1..], es[0].at);
    }
  }

  // ---- the history of any run -------------------------------------------------------------

  /** The clock does not go back; that is all. */
  predicate Clocked(es: seq<Timed>, now: int)
    decreases |es|
  {
    es != [] ==> now <= es[0].at && Clocked(es[1..], es[0].at)
  }

  lemma RefingerprintHistory(w: World, id: string, fp: string, before: int, t: int)
    requires HistoryFollows(w, before) && before <= t
    ensures HistoryFollows(Refingerprinted(w, id, fp, t), t)
  {
    hide HistoryFollows, Moved, Merged, Target, BaseOf, Derived;
    HistoryLater(w, before, t);
    if id in w.nodes && w.nodes[id].fingerprint != fp {
      var base, target := BaseOf(w.nodes[id].pool), Target(w.nodes, id, fp);
      var moved := Moved(w, id, fp, target, t);
      MoveHistory(w, id, fp, target, before, t);
      if target == base {
        MergeHistory(moved, Derived(base, fp), base, t, t);
      }
    }
  }

  lemma HistoryLater(w: World, before: int, t: int)
    requires HistoryFollows(w, before) && before <= t
    ensures HistoryFollows(w, t)
  {
    hide Chain, OpenPool;
    forall n | n in w.nodes
      ensures Chain(w.history[n], t)
    {
      Later(w.history[n], before, t);
    }
  }

  lemma SameHistory(w: World, v: World, now: int)
    requires HistoryFollows(w, now) && v.nodes == w.nodes && v.history == w.history
    ensures HistoryFollows(v, now)
  {
    hide Chain, OpenPool;
  }

  lemma StepHistory(w: World, e: Timed, before: int)
    requires HistoryFollows(w, before) && before <= e.at
    ensures HistoryFollows(Step(w, e), e.at)
  {
    hide HistoryFollows, Joined, Refingerprinted;
    HistoryLater(w, before, e.at);
    match e.event {
      case Register(token, node, fp, max) =>
        var granted := Grants(w.tokens, token, e.at);
        if granted.Some? {
          var redeemed := Redeemed(w, token, node, e.at);
          SameHistory(w, redeemed, before);
          JoinHistory(redeemed, node, granted.value, fp, max, true, before, e.at);
        }
      case Add(pool, node, fp, max) =>
        JoinHistory(w, node, pool, fp, max, false, before, e.at);
      case Report(node, fp) =>
        if fp != "" {
          RefingerprintHistory(w, node, fp, before, e.at);
        }
      case _ =>
        SameHistory(w, Step(w, e), e.at);
    }
  }

  /** Over every run whatever -- second registrations, clashing fingerprints and odd
      pool names included -- each node's history is one chain with one open stretch,
      which names the pool it is in. */
  lemma {:induction false} HistoryRuns(w: World, es: seq<Timed>, now: int)
    requires HistoryFollows(w, now) && Clocked(es, now)
    ensures HistoryFollows(Run(w, es), End(es, now))
    decreases |es|
  {
    hide HistoryFollows, Step;
    if es != [] {
      StepHistory(w, es[0], now);
      HistoryRuns(Step(w, es[0]), es[1..], es[0].at);
    }
  }

  /** The node's first stretch had begun. */
  predicate KnownSince(h: History, node: string, t: int) {
    node in h && h[node] != [] && h[node][0].since <= t
  }

  /** So after any run from an empty store the console's per-pool lines, summed over the
      pools there ever were, are the fleet's per-node total at every moment from the
      first stretch of every node that reported. */
  lemma ConsoleAddsUp(es: seq<Timed>, start: int, pools: seq<string>, metric: string, ls: seq<Line>, f: real -> real,
                      t: int)
    requires Clocked(es, start)
    requires Covers(Run(EMPTY, es).history, pools)
    requires forall i :: 0 <= i < |ls| && ls[i].metric == metric ==>
               KnownSince(Run(EMPTY, es).history, ls[i].key, t)
    ensures AcrossPools(Run(EMPTY, es).history, pools, metric, ls, f, t) == FleetAt(metric, ls, f, t)
  {
    hide Run;
    HistoryRuns(EMPTY, es, start);
    assert Chains(Run(EMPTY, es).history, End(es, start));
    PoolsAreTheFleet(Run(EMPTY, es).history, pools, End(es, start), metric, ls, f, t);
  }

  const EMPTY := World(map[], map[], map[], map[])

  lemma EmptyIsOk(now: int)
    ensures Ok(EMPTY, now)
  {}

  // ---- what follows ---------------------------------------------------------------------

  /** Once every node of a base name has one fingerprint, all of them are in the
      pool of that name. */
  lemma OneFingerprintIsHome(nodes: Nodes, n: string, fp: string)
    requires Grouped(nodes) && n in nodes
    requires forall m :: m in nodes && BaseOf(nodes[m].pool) == BaseOf(nodes[n].pool) ==> nodes[m].fingerprint == fp
    ensures nodes[n].pool == BaseOf(nodes[n].pool)
  {
    hide BaseOf, AllNamed, AllBased;
    var m := BaseMember(nodes, n);
    BaseOfBase(nodes[n].pool);
    assert SameGroup(nodes[m], nodes[n]);
  }

  /** No other fingerprint in use begins as `fp` does. */
  ghost predicate Tells(nodes: Nodes, fp: string) {
    forall n :: n in nodes && Head(nodes[n].fingerprint) == Head(fp) ==> nodes[n].fingerprint == fp
  }

  lemma TellsApart(nodes: Nodes, id: string, base: string, fp: string)
    requires Grouped(nodes) && '#' !in base && Tells(nodes, fp)
    ensures NoClash(nodes, id, base, fp)
  {
    hide BaseOf, AllSame, AllBased, Derived, Head;
    BaseOfDerived(base, fp);
    DerivedNames(base, fp, fp);
    forall n | n in nodes && n != id && nodes[n].pool == Derived(base, fp)
      ensures nodes[n].fingerprint == fp
    {
      assert NamedForItself(nodes[n]);
      DerivedNames(base, fp, nodes[n].fingerprint);
    }
  }

  function Reports(ids: seq<string>, fp: string, t: int): seq<Timed> {
    seq(|ids|, i requires 0 <= i < |ids| => Timed(Report(ids[i], fp), t))
  }

  /** What a report does to any one node: its base name stays, and so does every
      other node's fingerprint. */
  lemma ReportEffect(w: World, id: string, fp: string, t: int, n: string)
    requires Grouped(w.nodes) && id in w.nodes && n in w.nodes
    ensures Refingerprinted(w, id, fp, t).nodes.Keys == w.nodes.Keys
    ensures var after := Refingerprinted(w, id, fp, t).nodes[n];
            && BaseOf(after.pool) == BaseOf(w.nodes[n].pool)
            && after.fingerprint == (if n == id then fp else w.nodes[n].fingerprint)
  {
    hide BaseOf, Derived, Grouped, OnlyFingerprint, Noted, Head;
    var base := BaseOf(w.nodes[id].pool);
    BaseIsPlain(w.nodes[id].pool);
    BaseOfPlain(base);
    BaseOfDerived(base, fp);
  }

  /** Nodes of `base` still to report are all in `ids`. */
  ghost predicate Pending(nodes: Nodes, base: string, ids: seq<string>, fp: string) {
    && (forall i :: 0 <= i < |ids| ==> ids[i] in nodes && BaseOf(nodes[ids[i]].pool) == base)
    && (forall n :: n in nodes && BaseOf(nodes[n].pool) == base ==> n in ids || nodes[n].fingerprint == fp)
  }

  lemma PendingStep(nodes: Nodes, next: Nodes, base: string, ids: seq<string>, fp: string)
    requires ids != [] && Pending(nodes, base, ids, fp) && next.Keys == nodes.Keys
    requires forall n :: n in nodes ==>
               BaseOf(next[n].pool) == BaseOf(nodes[n].pool)
               && next[n].fingerprint == (if n == ids[0] then fp else nodes[n].fingerprint)
    ensures Pending(next, base, ids[1..], fp)
  {
    hide BaseOf;
    assert forall n :: n in ids ==> n == ids[0] || n in ids[1..];
  }

  lemma UpgradeStep(w: World, id: string, base: string, fp: string, now: int)
    requires Ok(w, now) && fp != "" && Tells(w.nodes, fp)
    requires id in w.nodes && BaseOf(w.nodes[id].pool) == base
    ensures Ok(Refingerprinted(w, id, fp, now), now) && Tells(Refingerprinted(w, id, fp, now).nodes, fp)
    ensures Refingerprinted(w, id, fp, now).nodes.Keys == w.nodes.Keys
    ensures forall n :: n in w.nodes ==>
              var after := Refingerprinted(w, id, fp, now).nodes[n];
              BaseOf(after.pool) == BaseOf(w.nodes[n].pool)
              && after.fingerprint == (if n == id then fp else w.nodes[n].fingerprint)
  {
    hide Grouped, NoneRevoked, HistoryFollows, SandboxesFollow, PlainTokens, BaseOf, Tells, Refingerprinted, NoClash;
    var next := Refingerprinted(w, id, fp, now);
    BaseIsPlain(w.nodes[id].pool);
    TellsApart(w.nodes, id, base, fp);
    RefingerprintKeeps(w, id, fp, now, now);
    ReportEffect(w, id, fp, now, id);
    forall n | n in w.nodes
      ensures BaseOf(next.nodes[n].pool) == BaseOf(w.nodes[n].pool)
      ensures next.nodes[n].fingerprint == (if n == id then fp else w.nodes[n].fingerprint)
    {
      ReportEffect(w, id, fp, now, n);
    }
    StillTells(w.nodes, next.nodes, id, fp);
  }

  /** A rolling upgrade: when the nodes of a base name report a new fingerprint
      one after another, in any order, all of them end under the pool's own name. */
  lemma {:induction false} UpgradeComesHome(w: World, base: string, ids: seq<string>, fp: string, now: int, n: string)
    requires Ok(w, now) && fp != "" && Tells(w.nodes, fp) && Pending(w.nodes, base, ids, fp)
    requires n in w.nodes && BaseOf(w.nodes[n].pool) == base
    ensures n in Run(w, Reports(ids, fp, now)).nodes
    ensures Run(w, Reports(ids, fp, now)).nodes[n].pool == base
    decreases |ids|
  {
    hide Grouped, NoneRevoked, HistoryFollows, SandboxesFollow, PlainTokens, BaseOf, Tells, Refingerprinted;
    var es := Reports(ids, fp, now);
    if ids == [] {
      OneFingerprintIsHome(w.nodes, n, fp);
    } else {
      hide Ok, Pending;
      PendingFirst(w.nodes, base, ids, fp);
      UpgradeStep(w, ids[0], base, fp, now);
      var next := Step(w, es[0]);
      assert es[1..] == Reports(ids[1..], fp, now);
      PendingStep(w.nodes, next.nodes, base, ids, fp);
      UpgradeComesHome(next, base, ids[1..], fp, now, n);
    }
  }

  lemma PendingFirst(nodes: Nodes, base: string, ids: seq<string>, fp: string)
    requires ids != [] && Pending(nodes, base, ids, fp)
    ensures ids[0] in nodes && BaseOf(nodes[ids[0]].pool) == base
  {
    hide BaseOf;
  }

  lemma StillTells(nodes: Nodes, next: Nodes, id: string, fp: string)
    requires Tells(nodes, fp) && next.Keys == nodes.Keys
    requires forall n :: n in nodes ==> next[n].fingerprint == (if n == id then fp else nodes[n].fingerprint)
    ensures Tells(next, fp)
  {
    hide Head;
  }

  /** One way a second registration fails: it takes the last node away from a base
      name, and leaves the groups derived from it without it. */
  lemma SecondRegistrationCanEmptyABase(w: World, id: string, ahead: string, asked: string, fp: string, max: nat,
                                        up: bool, t: int)
    requires id in w.nodes && ahead in w.nodes && id != ahead && '#' !in asked && !NoMismatch(w.nodes, asked, fp)
    requires BaseOf(w.nodes[ahead].pool) == BaseOf(w.nodes[id].pool) != asked
    requires forall n :: n in w.nodes && n != id ==> w.nodes[n].pool != BaseOf(w.nodes[id].pool)
    ensures !Grouped(Joined(w, id, asked, fp, max, up, t).nodes)
  {
    hide BaseOf, Derived, AllNamed, AllSame, Noted;
    var after := Joined(w, id, asked, fp, max, up, t).nodes;
    BaseOfDerived(asked, fp);
    BaseOfBase(w.nodes[id].pool);
    assert forall m :: m in after ==> after[m].pool != BaseOf(w.nodes[ahead].pool);
    assert !HasBase(after, BaseOf(after[ahead].pool));
  }

  /** The runs that show the guards are needed are these three, from an empty store. */
  function Joins(asked: string, names: seq<(string, string)>): seq<Timed> {
    seq(|names|, i requires 0 <= i < |names| => Timed(Add(asked, names[i].0, names[i].1, 0), 0))
  }

  lemma JoinsStep(w: World, asked: string, names: seq<(string, string)>)
    requires names != []
    ensures var next := Joined(w, names[0].0, asked, names[0].1, 0, false, 0);
            Run(w, Joins(asked, names)) == Run(next, Joins(asked, names[1..]))
  {
    hide Joined;
    assert Joins(asked, names)[1..] == Joins(asked, names[1..]);
  }

  /** A node alone under a name that registers again under it with a new fingerprint
      still finds its own earlier row there, joins the derived pool, and leaves the name
      empty. */
  lemma LoneNodeEmptiesItsName(asked: string, id: string, was: string, fp: string)
    requires '#' !in asked && was != fp
    ensures var once, again := Run(EMPTY, Joins(asked, [(id, was)])), Run(EMPTY, Joins(asked, [(id, was), (id, fp)]));
            && Grouped(once.nodes) && id in once.nodes && once.nodes[id].pool == asked
            && id in again.nodes && again.nodes[id].pool == Derived(asked, fp)
            && !Grouped(again.nodes)
  {
    hide BaseOf, Derived, AllBased, AllNamed, AllSame, Noted;
    var one := Joined(EMPTY, id, asked, was, 0, false, 0);
    var two := Joined(one, id, asked, fp, 0, false, 0);
    EmptyIsOk(0);
    JoinsStep(EMPTY, asked, [(id, was)]);
    JoinsStep(EMPTY, asked, [(id, was), (id, fp)]);
    assert [(id, was), (id, fp)][1..] == [(id, fp)] && [(id, was)][1..] == [] && [(id, fp)][1..] == [];
    JoinsStep(one, asked, [(id, fp)]);
    JoinKeepsGroups(EMPTY, id, asked, was, 0, false, 0);
    JoinKeepsGroups(one, id, asked, fp, 0, false, 0);
    assert OnlyFingerprint(one.nodes, asked, id, fp) && one.nodes[id].pool == asked;
  }

  /** Two fingerprints that agree in eight characters are put in one derived pool. */
  lemma EightCharactersClash(asked: string, a: string, b: string, c: string, was: string, f: string, g: string)
    requires '#' !in asked && a != b && b != c && a != c
    requires Head(f) == Head(g) && f != g && was != f && was != g
    ensures var two, three := Run(EMPTY, Joins(asked, [(a, was), (b, f)])),
                              Run(EMPTY, Joins(asked, [(a, was), (b, f), (c, g)]));
            && Grouped(two.nodes) && b in three.nodes && c in three.nodes
            && three.nodes[b].pool == three.nodes[c].pool && three.nodes[b].fingerprint != three.nodes[c].fingerprint
            && !Grouped(three.nodes)
  {
    hide BaseOf, Head, AllBased, AllNamed, AllSame, Noted, AgreeInEight;
    var one := Joined(EMPTY, a, asked, was, 0, false, 0);
    var two := Joined(one, b, asked, f, 0, false, 0);
    var three := Joined(two, c, asked, g, 0, false, 0);
    EmptyIsOk(0);
    JoinsStep(EMPTY, asked, [(a, was), (b, f)]);
    JoinsStep(EMPTY, asked, [(a, was), (b, f), (c, g)]);
    assert [(a, was), (b, f), (c, g)][1..] == [(b, f), (c, g)] && [(b, f), (c, g)][1..] == [(c, g)];
    assert [(a, was), (b, f)][1..] == [(b, f)] && [(b, f)][1..] == [] && [(c, g)][1..] == [];
    JoinsStep(one, asked, [(b, f)]);
    JoinsStep(one, asked, [(b, f), (c, g)]);
    JoinsStep(two, asked, [(c, g)]);
    DerivedNames(asked, f, g);
    FirstJoinKeepsGroups(EMPTY, a, asked, was, 0, false, 0);
    FirstJoinKeepsGroups(one, b, asked, f, 0, false, 0);
    FirstJoinKeepsGroups(two, c, asked, g, 0, false, 0);
    assert one.nodes[a].pool == asked && two.nodes[a] == one.nodes[a];
    assert three.nodes[b].pool == Derived(asked, f) && three.nodes[c].pool == Derived(asked, g);
  }

  /** Such as these. */
  lemma ClashingPair()
    ensures Head("new11111a") == Head("new11111b") && "new11111a" != "new11111b"
  {
    assert "new11111a"[..8] == "new11111b"[..8];
    assert "new11111a"[8] != "new11111b"[8];
  }

  /** A spent token grants nothing again, whatever happens next. */
  lemma {:induction false} SpentStaysSpent(w: World, es: seq<Timed>, token: string)
    requires token in w.tokens && w.tokens[token].consumedAt.Some?
    ensures token in Run(w, es).tokens && Run(w, es).tokens[token].consumedAt == w.tokens[token].consumedAt
    ensures Run(w, es).tokens[token].nodeId == w.tokens[token].nodeId
    decreases |es|
  {
    if es != [] {
      SpentStep(w, es[0], token);
      SpentStaysSpent(Step(w, es[0]), es[1..], token);
    }
  }

  lemma SpentStep(w: World, e: Timed, token: string)
    requires token in w.tokens && w.tokens[token].consumedAt.Some?
    ensures token in Step(w, e).tokens && Step(w, e).tokens[token].consumedAt == w.tokens[token].consumedAt
    ensures Step(w, e).tokens[token].nodeId == w.tokens[token].nodeId
  {
    hide BaseOf, Derived, Noted, PoolFor, Target, Upserted, Repooled;
  }

  // ---- tokens --------------------------------------------------------------------------

  /** A token that was minted, not yet spent and not yet run out. */
  predicate Good(w: World, token: string, at: int) {
    token in w.tokens && w.tokens[token].consumedAt.None? && at < w.tokens[token].expiresAt
  }

  /** A node that registers with a good token joins under the pool the token is for, and
      the token is spent by it then; with any other nothing changes at all. */
  lemma RegisterNeedsToken(w: World, token: string, node: string, fp: string, max: nat, at: int)
    ensures var after := Step(w, Timed(Register(token, node, fp, max), at));
            if Good(w, token, at) then
              && node in after.nodes && after.nodes[node].pool == PoolFor(w.nodes, w.tokens[token].pool, fp)
              && after.nodes[node].fingerprint == fp && after.nodes[node].connected
              && after.tokens == w.tokens[token := w.tokens[token].(consumedAt := Some(at), nodeId := Some(node))]
              && after.sandboxes == w.sandboxes
            else after == w
  {
    hide PoolFor, Noted;
  }

  /** So a token newly minted lets a node in, under the pool it was minted for, exactly
      until it runs out. */
  lemma MintedLetsIn(w: World, token: string, pool: string, expiresAt: int, minted: int, node: string, fp: string,
                     max: nat, at: int)
    requires token !in w.tokens && node !in w.nodes
    ensures var after := Run(w, [Timed(Mint(token, pool, expiresAt), minted),
                                 Timed(Register(token, node, fp, max), at)]);
            && (node in after.nodes <==> at < expiresAt)
            && (at < expiresAt ==> after.nodes[node].pool == PoolFor(w.nodes, pool, fp))
  {
    hide PoolFor;
    var mint, register := Timed(Mint(token, pool, expiresAt), minted), Timed(Register(token, node, fp, max), at);
    var once := Step(w, mint);
    RegisterNeedsToken(once, token, node, fp, max, at);
    assert once.nodes == w.nodes && token in once.tokens && once.tokens[token] == TokenRow(pool, expiresAt, None, None);
    hide Step;
    assert [mint, register][1..] == [register] && [register][1..] == [];
    assert Run(w, [mint, register]) == Run(once, [register]) == Step(once, register);
  }

  /** Every spent token was spent by someone, before it ran out. */
  ghost predicate SpentInTime(w: World) {
    forall k :: k in w.tokens && w.tokens[k].consumedAt.Some? ==>
      w.tokens[k].consumedAt.value < w.tokens[k].expiresAt && w.tokens[k].nodeId.Some?
  }

  lemma InTimeStep(w: World, e: Timed)
    requires SpentInTime(w)
    ensures SpentInTime(Step(w, e))
  {
    hide BaseOf, Derived, Noted, PoolFor, Target, Upserted, Repooled;
  }

  /** Over every run. */
  lemma {:induction false} TokensSpentInTime(w: World, es: seq<Timed>)
    requires SpentInTime(w)
    ensures SpentInTime(Run(w, es))
    decreases |es|
  {
    hide SpentInTime, Step;
    if es != [] {
      InTimeStep(w, es[0]);
      TokensSpentInTime(Step(w, es[0]), es[1..]);
    }
  }

  /** A token that ran out unspent stays so. */
  lemma {:induction false} ExpiredStaysUnspent(w: World, es: seq<Timed>, token: string, now: int)
    requires token in w.tokens && w.tokens[token].consumedAt.None? && w.tokens[token].expiresAt <= now
    requires Clocked(es, now)
    ensures token in Run(w, es).tokens && Run(w, es).tokens[token].consumedAt.None?
    decreases |es|
  {
    if es != [] {
      ExpiredStep(w, es[0], token);
      ExpiredStaysUnspent(Step(w, es[0]), es[1..], token, es[0].at);
    }
  }

  lemma ExpiredStep(w: World, e: Timed, token: string)
    requires token in w.tokens && w.tokens[token].consumedAt.None? && w.tokens[token].expiresAt <= e.at
    ensures token in Step(w, e).tokens
    ensures Step(w, e).tokens[token].consumedAt.None?
    ensures Step(w, e).tokens[token].expiresAt == w.tokens[token].expiresAt
  {
    hide BaseOf, Derived, Noted, PoolFor, Target, Upserted, Repooled;
  }
}
