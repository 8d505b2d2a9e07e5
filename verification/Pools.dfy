/** Which pool a node is in: registration, a changed fingerprint, and the merge
    that brings a derived group back under the pool's name. */
module Pools {
  import opened Wrappers
  import opened Tables
  import opened PoolHistory

  // ---- names ----------------------------------------------------------------

  /** The name up to the first `#`. */
  function BaseOf(pool: string): string {
    if pool == "" || pool[0] == '#' then "" else [pool[0]] + BaseOf(pool[1..])
  }

  function Head(fp: string): string {
    if |fp| < 8 then fp else fp[..8]
  }

  function Derived(base: string, fp: string): string {
    base + "#" + Head(fp)
  }

  lemma {:induction false} BaseOfPlain(base: string)
    requires '#' !in base
    ensures BaseOf(base) == base
  {
    if base != "" {
      BaseOfPlain(base[1..]);
    }
  }

  lemma {:induction false} BaseIsPlain(pool: string)
    ensures '#' !in BaseOf(pool)
  {
    if pool != "" && pool[0] != '#' {
      BaseIsPlain(pool[1..]);
    }
  }

  lemma BaseOfBase(pool: string)
    ensures BaseOf(BaseOf(pool)) == BaseOf(pool)
  {
    BaseIsPlain(pool);
    BaseOfPlain(BaseOf(pool));
  }

  lemma {:induction false} BaseOfDerived(base: string, fp: string)
    requires '#' !in base
    ensures BaseOf(Derived(base, fp)) == base
  {
    if base == "" {
      assert Derived(base, fp)[0] == '#';
    } else {
      assert Derived(base, fp)[1..] == Derived(base[1..], fp);
      BaseOfDerived(base[1..], fp);
    }
  }

  /** The same text, or the same as far as the eighth character. */
  predicate AgreeInEight(a: string, b: string) {
    if |a| < 8 || |b| < 8 then a == b else forall i :: 0 <= i < 8 ==> a[i] == b[i]
  }

  lemma HeadsAgree(a: string, b: string)
    ensures Head(a) == Head(b) <==> AgreeInEight(a, b)
  {
    if |a| >= 8 && |b| >= 8 {
      forall i | 0 <= i < 8
        ensures Head(a)[i] == a[i] && Head(b)[i] == b[i]
      {}
    }
  }

  lemma DerivedNames(base: string, fp: string, other: string)
    requires '#' !in base
    ensures Derived(base, fp) != base
    ensures Derived(base, fp) == Derived(base, other) <==> Head(fp) == Head(other)
    ensures Derived(base, fp) == Derived(base, other) <==> AgreeInEight(fp, other)
  {
    HeadsAgree(fp, other);
    hide AgreeInEight;
    assert |Derived(base, fp)| > |base|;
    assert Derived(base, fp)[|base| + 1..] == Head(fp);
    assert Derived(base, other)[|base| + 1..] == Head(other);
  }

  // ---- the operations -------------------------------------------------------

  datatype World = World(nodes: Nodes, sandboxes: Sandboxes, history: History, tokens: Tokens)

  /** Every live node in `pool`, `but` apart, has this fingerprint. */
  predicate OnlyFingerprint(nodes: Nodes, pool: string, but: string, fp: string) {
    forall n :: n in nodes && n != but && nodes[n].pool == pool && !nodes[n].revoked ==> nodes[n].fingerprint == fp
  }

  predicate NoMismatch(nodes: Nodes, pool: string, fp: string) {
    forall n :: n in nodes && nodes[n].pool == pool && !nodes[n].revoked ==> nodes[n].fingerprint == fp
  }

  /** The pool a registering node joins. */
  function PoolFor(nodes: Nodes, asked: string, fp: string): string {
    if NoMismatch(nodes, asked, fp) then asked else Derived(asked, fp)
  }

  /** An inserted node has reported nothing; an updated one keeps what it did. */
  function Upserted(nodes: Nodes, id: string, row: NodeRow): Nodes {
    nodes[id := if id in nodes
                then row.(freeMib := nodes[id].freeMib, psi := nodes[id].psi, revoked := nodes[id].revoked)
                else row.(freeMib := 0, psi := 0.0, revoked := false)]
  }

  /** A node vouched for, by a new certificate or its pairing code, is no longer
      revoked. */
  function Vouched(nodes: Nodes, id: string): Nodes {
    if id in nodes then nodes[id := nodes[id].(revoked := false)] else nodes
  }

  /** Registration: the pool is chosen and the node written in one step. */
  function Joined(w: World, id: string, asked: string, fp: string, max: nat, connected: bool, t: int): World {
    var pool := PoolFor(w.nodes, asked, fp);
    w.(nodes := Vouched(Upserted(w.nodes, id, NodeRow(pool, fp, max, t, connected, 0, 0.0, false)), id),
       history := w.history[id := Noted(RowsOf(w.history, id), pool, t)])
  }

  /** Where a node goes when it reports another fingerprint. */
  function Target(nodes: Nodes, id: string, fp: string): string
    requires id in nodes
  {
    var base := BaseOf(nodes[id].pool);
    if OnlyFingerprint(nodes, base, id, fp) then base else Derived(base, fp)
  }

  function Repooled(sandboxes: Sandboxes, node: string, pool: string): Sandboxes {
    map s | s in sandboxes :: if sandboxes[s].nodeId == node then sandboxes[s].(pool := pool) else sandboxes[s]
  }

  function Moved(w: World, id: string, fp: string, pool: string, t: int): World
    requires id in w.nodes
  {
    w.(nodes := w.nodes[id := w.nodes[id].(fingerprint := fp, pool := pool)],
       sandboxes := Repooled(w.sandboxes, id, pool),
       history := w.history[id := Noted(RowsOf(w.history, id), pool, t)])
  }

  function Renamed(nodes: Nodes, from: string, to: string): Nodes {
    map n | n in nodes :: if nodes[n].pool == from then nodes[n].(pool := to) else nodes[n]
  }

  function InPoolNow(nodes: Nodes, pool: string): set<string> {
    set n | n in nodes && nodes[n].pool == pool
  }

  /** A derived group renamed to the base it was derived from. */
  function Merged(w: World, from: string, to: string, t: int): World {
    World(
      Renamed(w.nodes, from, to),
      map s | s in w.sandboxes ::
        if w.sandboxes[s].pool == from then w.sandboxes[s].(pool := to) else w.sandboxes[s],
      map n | n in w.history.Keys + InPoolNow(w.nodes, from) ::
        if n in InPoolNow(w.nodes, from) then Noted(RowsOf(w.history, n), to, t) else w.history[n],
      map k | k in w.tokens :: if w.tokens[k].pool == from then w.tokens[k].(pool := to) else w.tokens[k])
  }

  /** A node reports its fingerprint. */
  function Refingerprinted(w: World, id: string, fp: string, t: int): World {
    if id !in w.nodes || w.nodes[id].fingerprint == fp then w
    else
      var base := BaseOf(w.nodes[id].pool);
      var target := Target(w.nodes, id, fp);
      var moved := Moved(w, id, fp, target, t);
      if target == base then Merged(moved, Derived(base, fp), base, t) else moved
  }

  function Minted(w: World, token: string, pool: string, expiresAt: int): World {
    w.(tokens := w.tokens[token := TokenRow(pool, expiresAt, None, None)])
  }

  /** The pool an unspent token grants. */
  function Grants(tokens: Tokens, token: string, now: int): Option<string> {
    if token in tokens && tokens[token].consumedAt.None? && tokens[token].expiresAt > now
    then Some(tokens[token].pool) else None
  }

  function Redeemed(w: World, token: string, node: string, now: int): World {
    if Grants(w.tokens, token, now).None? then w
    else w.(tokens := w.tokens[token := w.tokens[token].(consumedAt := Some(now), nodeId := Some(node))])
  }

  // ---- the invariant --------------------------------------------------------

  predicate NamedForItself(n: NodeRow) {
    n.pool == BaseOf(n.pool) || n.pool == Derived(BaseOf(n.pool), n.fingerprint)
  }

  predicate SameGroup(a: NodeRow, b: NodeRow) {
    BaseOf(a.pool) == BaseOf(b.pool) ==> (a.pool == b.pool <==> a.fingerprint == b.fingerprint)
  }

  ghost predicate HasBase(nodes: Nodes, base: string) {
    exists m :: m in nodes && nodes[m].pool == base
  }

  ghost predicate AllNamed(nodes: Nodes) {
    forall n :: n in nodes ==> NamedForItself(nodes[n])
  }

  ghost predicate AllSame(nodes: Nodes) {
    forall m, n :: m in nodes && n in nodes ==> SameGroup(nodes[m], nodes[n])
  }

  ghost predicate AllBased(nodes: Nodes) {
    forall n :: n in nodes ==> HasBase(nodes, BaseOf(nodes[n].pool))
  }

  /** Two nodes of one base name share a pool exactly when their fingerprints
      agree, and the base name itself is never left empty. */
  ghost predicate Grouped(nodes: Nodes) {
    AllNamed(nodes) && AllSame(nodes) && AllBased(nodes)
  }

  ghost predicate NoneRevoked(nodes: Nodes) {
    forall n :: n in nodes ==> !nodes[n].revoked
  }

  /** No node but `id` sits in the pool this fingerprint derives with another
      fingerprint, which two that agree in their first eight characters could. */
  ghost predicate NoClash(nodes: Nodes, id: string, base: string, fp: string) {
    forall n :: n in nodes && n != id && nodes[n].pool == Derived(base, fp) ==> nodes[n].fingerprint == fp
  }

  /** How one more node, or one node's new row, fits in with the others. */
  ghost predicate Fits(nodes: Nodes, id: string, row: NodeRow) {
    && NamedForItself(row)
    && forall n :: n in nodes && n != id ==> SameGroup(nodes[n], row)
  }

  /** Some node other than `id` is in the pool named `base`. */
  ghost predicate HasOther(nodes: Nodes, id: string, base: string) {
    exists m :: m in nodes && m != id && nodes[m].pool == base
  }

  /** A node may leave the base name it is in for `to`: it stays under it, or another
      node holds the name it leaves, or nobody else is in that family. */
  ghost predicate MayLeave(nodes: Nodes, id: string, to: string) {
    id in nodes && BaseOf(nodes[id].pool) != to ==>
      || HasOther(nodes, id, BaseOf(nodes[id].pool))
      || forall n :: n in nodes && n != id ==> BaseOf(nodes[n].pool) != BaseOf(nodes[id].pool)
  }

  /** A node may come in under `asked`: it joins the pool of that name, or another node
      holds the name with another fingerprint and the pool this one derives is free of
      any that only looks like it. */
  ghost predicate MayLand(nodes: Nodes, id: string, asked: string, fp: string) {
    NoMismatch(nodes, asked, fp) || (!OnlyFingerprint(nodes, asked, id, fp) && NoClash(nodes, id, asked, fp))
  }

  lemma PlacedKeepsGroups(nodes: Nodes, id: string, row: NodeRow)
    requires Grouped(nodes) && Fits(nodes, id, row)
    requires row.pool == BaseOf(row.pool) || HasOther(nodes, id, BaseOf(row.pool))
    requires MayLeave(nodes, id, BaseOf(row.pool))
    ensures Grouped(nodes[id := row])
  {
    hide *;
    GroupedParts(nodes);
    PlacedKeepsBases(nodes, id, row);
    PlacedKeepsNames(nodes, id, row);
    PlacedKeepsSame(nodes, id, row);
    GroupedWhole(nodes[id := row]);
  }

  lemma GroupedParts(nodes: Nodes)
    requires Grouped(nodes)
    ensures AllNamed(nodes) && AllSame(nodes) && AllBased(nodes)
  {
    hide AllNamed, AllSame, AllBased;
  }

  lemma GroupedWhole(nodes: Nodes)
    requires AllNamed(nodes) && AllSame(nodes) && AllBased(nodes)
    ensures Grouped(nodes)
  {
    hide AllNamed, AllSame, AllBased;
  }

  lemma PlacedKeepsNames(nodes: Nodes, id: string, row: NodeRow)
    requires AllNamed(nodes) && Fits(nodes, id, row)
    ensures AllNamed(nodes[id := row])
  {
    hide NamedForItself;
  }

  lemma PlacedKeepsSame(nodes: Nodes, id: string, row: NodeRow)
    requires AllSame(nodes) && Fits(nodes, id, row)
    ensures AllSame(nodes[id := row])
  {
    hide NamedForItself, SameGroup;
    var after := nodes[id := row];
    forall m, n | m in after && n in after
      ensures SameGroup(after[m], after[n])
    {
      if m == id {
        SameGroupSwaps(after[n], after[m]);
      }
    }
  }

  lemma SameGroupSwaps(a: NodeRow, b: NodeRow)
    ensures SameGroup(a, b) == SameGroup(b, a)
    ensures SameGroup(a, a)
  {
    hide BaseOf;
  }

  lemma PlacedKeepsBases(nodes: Nodes, id: string, row: NodeRow)
    requires AllBased(nodes)
    requires row.pool == BaseOf(row.pool) || HasOther(nodes, id, BaseOf(row.pool))
    requires MayLeave(nodes, id, BaseOf(row.pool))
    ensures AllBased(nodes[id := row])
  {
    hide BaseOf, HasBase;
    var after := nodes[id := row];
    forall n | n in after
      ensures HasBase(after, BaseOf(after[n].pool))
    {
      if BaseOf(after[n].pool) == BaseOf(row.pool) {
        BaseSurvives(nodes, id, row);
      } else {
        BaseOfBase(nodes[n].pool);
        BaseElsewhere(nodes, id, row, BaseOf(nodes[n].pool));
      }
    }
  }

  lemma BaseSurvives(nodes: Nodes, id: string, row: NodeRow)
    requires row.pool == BaseOf(row.pool) || HasOther(nodes, id, BaseOf(row.pool))
    ensures HasBase(nodes[id := row], BaseOf(row.pool))
  {
    hide BaseOf;
    var after := nodes[id := row];
    if row.pool == BaseOf(row.pool) {
      assert after[id].pool == BaseOf(row.pool);
    } else {
      var m :| m in nodes && m != id && nodes[m].pool == BaseOf(row.pool);
      assert after[m].pool == BaseOf(row.pool);
    }
  }

  lemma BaseElsewhere(nodes: Nodes, id: string, row: NodeRow, base: string)
    requires HasBase(nodes, base) && base == BaseOf(base) && base != BaseOf(row.pool)
    requires MayLeave(nodes, id, BaseOf(row.pool))
    requires exists n :: n in nodes && n != id && BaseOf(nodes[n].pool) == base
    ensures HasBase(nodes[id := row], base)
  {
    hide BaseOf;
    var m :| m in nodes && nodes[m].pool == base;
    if m == id {
      var o :| o in nodes && o != id && nodes[o].pool == base;
      assert nodes[id := row][o].pool == base;
    } else {
      assert nodes[id := row][m].pool == base;
    }
  }

  lemma LeavingShows(nodes: Nodes, id: string, row: NodeRow)
    requires Grouped(nodes[id := row])
    ensures MayLeave(nodes, id, BaseOf(row.pool))
  {
    hide BaseOf, AllNamed, AllSame, AllBased;
    var after := nodes[id := row];
    forall n | && id in nodes && n in nodes && n != id
               && BaseOf(nodes[n].pool) == BaseOf(nodes[id].pool) != BaseOf(row.pool)
      ensures HasOther(nodes, id, BaseOf(nodes[id].pool))
    {
      var m := BaseMember(after, n);
      BaseOfBase(nodes[n].pool);
    }
  }

  // ---- a registration ---------------------------------------------------------

  lemma BaseMember(nodes: Nodes, n: string) returns (m: string)
    requires AllBased(nodes) && n in nodes
    ensures m in nodes && nodes[m].pool == BaseOf(nodes[n].pool)
  {
    hide BaseOf;
    assert HasBase(nodes, BaseOf(nodes[n].pool));
    m :| m in nodes && nodes[m].pool == BaseOf(nodes[n].pool);
  }

  lemma JoinsBase(nodes: Nodes, id: string, row: NodeRow, n: string)
    requires Grouped(nodes) && NoneRevoked(nodes) && n in nodes
    requires '#' !in row.pool && NoMismatch(nodes, row.pool, row.fingerprint)
    ensures SameGroup(nodes[n], row)
  {
    hide BaseOf, AllNamed, AllBased, Derived;
    BaseOfPlain(row.pool);
    if BaseOf(nodes[n].pool) == row.pool {
      var m := BaseMember(nodes, n);
      assert SameGroup(nodes[m], nodes[n]);
    }
  }

  lemma JoinsDerived(nodes: Nodes, id: string, base: string, row: NodeRow, n: string)
    requires Grouped(nodes) && NoneRevoked(nodes) && n in nodes && n != id
    requires '#' !in base && row.pool == Derived(base, row.fingerprint)
    requires !OnlyFingerprint(nodes, base, id, row.fingerprint)
    requires NoClash(nodes, id, base, row.fingerprint)
    ensures SameGroup(nodes[n], row)
  {
    hide BaseOf, Derived, HasBase;
    BaseOfPlain(base);
    BaseOfDerived(base, row.fingerprint);
    var o :| o in nodes && o != id && nodes[o].pool == base && nodes[o].fingerprint != row.fingerprint;
    assert SameGroup(nodes[n], nodes[o]);
    assert NamedForItself(nodes[n]);
  }

  lemma ClashShows(nodes: Nodes, id: string, base: string, row: NodeRow)
    requires '#' !in base && row.pool == Derived(base, row.fingerprint)
    requires Grouped(nodes[id := row])
    ensures NoClash(nodes, id, base, row.fingerprint)
  {
    hide BaseOf, Derived, HasBase, NamedForItself;
    var after := nodes[id := row];
    forall n | n in nodes && n != id && nodes[n].pool == Derived(base, row.fingerprint)
      ensures nodes[n].fingerprint == row.fingerprint
    {
      assert SameGroup(after[n], after[id]);
    }
  }

  /** A node placed in the pool its fingerprint derives, because some other node
      holds the name with another: the grouping is kept exactly when it may leave
      where it was and no node already there has a different fingerprint. */
  lemma DerivedKeepsGroups(nodes: Nodes, id: string, base: string, row: NodeRow)
    requires Grouped(nodes) && NoneRevoked(nodes) && '#' !in base
    requires row.pool == Derived(base, row.fingerprint) && !OnlyFingerprint(nodes, base, id, row.fingerprint)
    ensures Grouped(nodes[id := row]) <==>
              MayLeave(nodes, id, base) && NoClash(nodes, id, base, row.fingerprint)
  {
    hide BaseOf, Derived, Grouped, MayLeave;
    BaseOfPlain(base);
    BaseOfDerived(base, row.fingerprint);
    if MayLeave(nodes, id, base) && NoClash(nodes, id, base, row.fingerprint) {
      forall n | n in nodes && n != id
        ensures SameGroup(nodes[n], row)
      {
        JoinsDerived(nodes, id, base, row, n);
      }
      PlacedKeepsGroups(nodes, id, row);
    }
    if Grouped(nodes[id := row]) {
      ClashShows(nodes, id, base, row);
      LeavingShows(nodes, id, row);
    }
  }

  /** A node put in a derived pool leaves somebody else holding the name, with another
      fingerprint, if the grouping is kept. */
  lemma NameStillHeld(nodes: Nodes, id: string, base: string, row: NodeRow)
    requires '#' !in base && row.pool == Derived(base, row.fingerprint)
    requires NoneRevoked(nodes) && Grouped(nodes[id := row])
    ensures !OnlyFingerprint(nodes, base, id, row.fingerprint)
  {
    hide BaseOf, Derived, AllNamed, AllBased;
    BaseOfPlain(base);
    BaseOfDerived(base, row.fingerprint);
    DerivedNames(base, row.fingerprint, row.fingerprint);
    var after := nodes[id := row];
    var m := BaseMember(after, id);
    assert SameGroup(after[m], after[id]);
  }

  lemma JoinBaseKeepsGroups(nodes: Nodes, id: string, row: NodeRow)
    requires Grouped(nodes) && NoneRevoked(nodes) && '#' !in row.pool
    requires NoMismatch(nodes, row.pool, row.fingerprint)
    ensures Grouped(nodes[id := row]) <==> MayLeave(nodes, id, row.pool)
  {
    hide BaseOf, Derived, Grouped, MayLeave;
    BaseOfPlain(row.pool);
    if MayLeave(nodes, id, row.pool) {
      forall n | n in nodes && n != id
        ensures SameGroup(nodes[n], row)
      {
        JoinsBase(nodes, id, row, n);
      }
      PlacedKeepsGroups(nodes, id, row);
    }
    if Grouped(nodes[id := row]) {
      LeavingShows(nodes, id, row);
    }
  }

  /** A registration, first or not, keeps the grouping exactly when the node may leave
      where it was and may come in where it asks. */
  lemma JoinKeepsGroups(w: World, id: string, asked: string, fp: string, max: nat, connected: bool, t: int)
    requires Grouped(w.nodes) && NoneRevoked(w.nodes) && '#' !in asked
    ensures Grouped(Joined(w, id, asked, fp, max, connected, t).nodes)
       <==> MayLeave(w.nodes, id, asked) && MayLand(w.nodes, id, asked, fp)
    ensures NoneRevoked(Joined(w, id, asked, fp, max, connected, t).nodes)
  {
    hide BaseOf, Derived, Grouped, NoClash, MayLeave;
    var after := Joined(w, id, asked, fp, max, connected, t).nodes;
    var row := after[id];
    assert after == w.nodes[id := row];
    if NoMismatch(w.nodes, asked, fp) {
      JoinBaseKeepsGroups(w.nodes, id, row);
    } else if !OnlyFingerprint(w.nodes, asked, id, fp) {
      DerivedKeepsGroups(w.nodes, id, asked, row);
    } else if Grouped(after) {
      NameStillHeld(w.nodes, id, asked, row);
    }
  }

  /** For a first registration that is: no node in the pool it derives has a different
      fingerprint, or none needs to be derived. */
  lemma FirstJoinKeepsGroups(w: World, id: string, asked: string, fp: string, max: nat, connected: bool, t: int)
    requires Grouped(w.nodes) && NoneRevoked(w.nodes) && '#' !in asked && id !in w.nodes
    ensures Grouped(Joined(w, id, asked, fp, max, connected, t).nodes)
       <==> (NoMismatch(w.nodes, asked, fp) || NoClash(w.nodes, id, asked, fp))
  {
    hide BaseOf, Derived, Grouped, NoClash, Joined;
    JoinKeepsGroups(w, id, asked, fp, max, connected, t);
  }

  /** A registration writes what it was asked to, under the pool chosen, keeps the readings
      of a node already known and lifts a revocation; it touches no other row. */
  lemma JoinedRow(w: World, id: string, asked: string, fp: string, max: nat, connected: bool, t: int)
    ensures var after, known := Joined(w, id, asked, fp, max, connected, t), id in w.nodes;
            && after == w.(nodes := after.nodes, history := after.history)
            && after.nodes == w.nodes[id := NodeRow(PoolFor(w.nodes, asked, fp), fp, max, t, connected,
                                                    if known then w.nodes[id].freeMib else 0,
                                                    if known then w.nodes[id].psi else 0.0, false)]
            && after.history.Keys == w.history.Keys + {id}
            && forall n :: n in w.history && n != id ==> after.history[n] == w.history[n]
  {
    hide PoolFor, Noted;
  }

  // ---- a changed fingerprint ----------------------------------------------------

  /** Where a node ends up when the name has only `fp` left in it. */
  function Home(nodes: Nodes, id: string, base: string, fp: string): Nodes
    requires id in nodes
  {
    Renamed(nodes[id := nodes[id].(fingerprint := fp, pool := base)], Derived(base, fp), base)
  }

  /** In the family of `base`, the name holds `fp` and nothing else does. */
  predicate HoldsName(n: NodeRow, base: string, fp: string) {
    BaseOf(n.pool) == base ==> (n.pool == base <==> n.fingerprint == fp)
  }

  /** What a row of `Home` is, field by field. */
  lemma HomeRow(nodes: Nodes, id: string, base: string, fp: string, n: string)
    requires Grouped(nodes) && id in nodes && n in nodes && '#' !in base && BaseOf(nodes[id].pool) == base
    ensures Home(nodes, id, base, fp).Keys == nodes.Keys
    ensures var r := Home(nodes, id, base, fp)[n];
            && BaseOf(r.pool) == BaseOf(nodes[n].pool)
            && r.revoked == nodes[n].revoked
            && r.fingerprint == (if n == id then fp else nodes[n].fingerprint)
            && r.pool == (if n == id || nodes[n].pool == Derived(base, fp) then base else nodes[n].pool)
  {
    hide BaseOf, Derived, Grouped;
    BaseOfPlain(base);
    BaseOfDerived(base, fp);
    DerivedNames(base, fp, fp);
  }

  lemma HomeHolds(nodes: Nodes, id: string, base: string, fp: string, n: string)
    requires Grouped(nodes) && NoneRevoked(nodes) && id in nodes && n in nodes
    requires '#' !in base && BaseOf(nodes[id].pool) == base
    requires OnlyFingerprint(nodes, base, id, fp) && NoClash(nodes, id, base, fp)
    ensures n in Home(nodes, id, base, fp) && HoldsName(Home(nodes, id, base, fp)[n], base, fp)
    ensures NamedForItself(Home(nodes, id, base, fp)[n])
  {
    hide BaseOf, Derived, Home, AllSame, AllBased;
    HomeRow(nodes, id, base, fp, n);
    BaseOfPlain(base);
    assert NamedForItself(nodes[n]);
  }

  lemma HomeSame(nodes: Nodes, id: string, base: string, fp: string, m: string, n: string)
    requires Grouped(nodes) && NoneRevoked(nodes) && id in nodes && n in nodes && m in nodes
    requires '#' !in base && BaseOf(nodes[id].pool) == base
    requires OnlyFingerprint(nodes, base, id, fp) && NoClash(nodes, id, base, fp)
    ensures Home(nodes, id, base, fp).Keys == nodes.Keys
    ensures SameGroup(Home(nodes, id, base, fp)[m], Home(nodes, id, base, fp)[n])
  {
    hide BaseOf, Derived, Home, AllNamed, AllBased, NoClash, OnlyFingerprint, NamedForItself, NoneRevoked;
    BaseOfPlain(base);
    HomeRow(nodes, id, base, fp, m);
    HomeRow(nodes, id, base, fp, n);
    HomeHolds(nodes, id, base, fp, m);
    HomeHolds(nodes, id, base, fp, n);
    assert SameGroup(nodes[m], nodes[n]);
  }

  lemma HomeBased(nodes: Nodes, id: string, base: string, fp: string, n: string)
    requires Grouped(nodes) && id in nodes && n in nodes && '#' !in base && BaseOf(nodes[id].pool) == base
    ensures Home(nodes, id, base, fp).Keys == nodes.Keys
    ensures HasBase(Home(nodes, id, base, fp), BaseOf(Home(nodes, id, base, fp)[n].pool))
  {
    hide BaseOf, Derived, Home, AllNamed, AllSame, AllBased;
    var after := Home(nodes, id, base, fp);
    HomeRow(nodes, id, base, fp, n);
    HomeRow(nodes, id, base, fp, id);
    var b := BaseOf(nodes[n].pool);
    BaseOfBase(nodes[n].pool);
    if b == base {
      assert after[id].pool == base;
    } else {
      var m := BaseMember(nodes, n);
      HomeRow(nodes, id, base, fp, m);
      BaseOfDerived(base, fp);
      assert after[m].pool == b;
    }
  }

  lemma HomeClashShows(nodes: Nodes, id: string, base: string, fp: string)
    requires Grouped(nodes) && id in nodes && '#' !in base && BaseOf(nodes[id].pool) == base
    requires Grouped(Home(nodes, id, base, fp))
    ensures NoClash(nodes, id, base, fp)
  {
    hide BaseOf, Derived, Home, AllNamed, AllBased;
    var after := Home(nodes, id, base, fp);
    forall n | n in nodes && n != id && nodes[n].pool == Derived(base, fp)
      ensures nodes[n].fingerprint == fp
    {
      HomeRow(nodes, id, base, fp, n);
      HomeRow(nodes, id, base, fp, id);
      assert SameGroup(after[n], after[id]);
    }
  }

  lemma HomeKeepsGroups(nodes: Nodes, id: string, base: string, fp: string)
    requires Grouped(nodes) && NoneRevoked(nodes) && id in nodes
    requires '#' !in base && BaseOf(nodes[id].pool) == base && OnlyFingerprint(nodes, base, id, fp)
    ensures Grouped(Home(nodes, id, base, fp)) <==> NoClash(nodes, id, base, fp)
  {
    hide *;
    var after := Home(nodes, id, base, fp);
    HomeRow(nodes, id, base, fp, id);
    if NoClash(nodes, id, base, fp) {
      AllHome(nodes, id, base, fp);
    }
    if Grouped(after) {
      HomeClashShows(nodes, id, base, fp);
    }
  }

  lemma AllHome(nodes: Nodes, id: string, base: string, fp: string)
    requires Grouped(nodes) && NoneRevoked(nodes) && id in nodes
    requires '#' !in base && BaseOf(nodes[id].pool) == base
    requires OnlyFingerprint(nodes, base, id, fp) && NoClash(nodes, id, base, fp)
    ensures Grouped(Home(nodes, id, base, fp))
  {
    hide BaseOf, Derived, Home, NamedForItself, SameGroup, HasBase, NoClash, OnlyFingerprint, NoneRevoked;
    var after := Home(nodes, id, base, fp);
    HomeRow(nodes, id, base, fp, id);
    forall n | n in after ensures NamedForItself(after[n]) {
      HomeHolds(nodes, id, base, fp, n);
    }
    forall m, n | m in after && n in after ensures SameGroup(after[m], after[n]) {
      HomeSame(nodes, id, base, fp, m, n);
    }
    forall n | n in after ensures HasBase(after, BaseOf(after[n].pool)) {
      HomeBased(nodes, id, base, fp, n);
    }
  }

  /** A changed fingerprint keeps the grouping, through the merge too, exactly
      when no node already in the pool it derives has a different one. */
  lemma RefingerprintKeepsGroups(w: World, id: string, fp: string, t: int)
    requires Grouped(w.nodes) && NoneRevoked(w.nodes) && id in w.nodes && w.nodes[id].fingerprint != fp
    ensures Grouped(Refingerprinted(w, id, fp, t).nodes) <==> NoClash(w.nodes, id, BaseOf(w.nodes[id].pool), fp)
    ensures NoneRevoked(Refingerprinted(w, id, fp, t).nodes)
  {
    hide BaseOf, Derived, Grouped, NoClash, OnlyFingerprint;
    var base := BaseOf(w.nodes[id].pool);
    BaseIsPlain(w.nodes[id].pool);
    DerivedNames(base, fp, fp);
    var target := Target(w.nodes, id, fp);
    if target == base {
      assert Refingerprinted(w, id, fp, t).nodes == Home(w.nodes, id, base, fp);
      HomeKeepsGroups(w.nodes, id, base, fp);
    } else {
      DerivedKeepsGroups(w.nodes, id, base, w.nodes[id].(fingerprint := fp, pool := target));
    }
  }

  /** A node whose fingerprint leaves its name's other nodes all alike comes back under the
      name and brings everyone in the pool it derives: nothing is left under that one,
      neither nodes, nor sandboxes, nor tokens, and all else stays where it was. */
  lemma NothingLeftBehind(w: World, id: string, fp: string, t: int)
    requires id in w.nodes && w.nodes[id].fingerprint != fp
    requires OnlyFingerprint(w.nodes, BaseOf(w.nodes[id].pool), id, fp)
    ensures var after, base := Refingerprinted(w, id, fp, t), BaseOf(w.nodes[id].pool);
            && after.nodes.Keys == w.nodes.Keys && after.sandboxes.Keys == w.sandboxes.Keys
            && after.tokens.Keys == w.tokens.Keys
            && (forall n :: n in w.nodes ==>
                  after.nodes[n].pool == if n == id || w.nodes[n].pool == Derived(base, fp) then base
                                         else w.nodes[n].pool)
            && (forall s :: s in w.sandboxes ==>
                  after.sandboxes[s] == w.sandboxes[s].(
                    pool := if w.sandboxes[s].nodeId == id || w.sandboxes[s].pool == Derived(base, fp) then base
                            else w.sandboxes[s].pool))
            && (forall k :: k in w.tokens ==>
                  after.tokens[k] == w.tokens[k].(
                    pool := if w.tokens[k].pool == Derived(base, fp) then base else w.tokens[k].pool))
  {
    hide BaseOf, Derived, Noted, OnlyFingerprint;
    BaseIsPlain(w.nodes[id].pool);
    DerivedNames(BaseOf(w.nodes[id].pool), fp, fp);
  }

  /** Else it goes to the pool its fingerprint derives, and takes its sandboxes along. */
  lemma GoesAhead(w: World, id: string, fp: string, t: int)
    requires id in w.nodes && w.nodes[id].fingerprint != fp
    requires !OnlyFingerprint(w.nodes, BaseOf(w.nodes[id].pool), id, fp)
    ensures var after, to := Refingerprinted(w, id, fp, t), Derived(BaseOf(w.nodes[id].pool), fp);
            && after.nodes == w.nodes[id := w.nodes[id].(pool := to, fingerprint := fp)]
            && after.tokens == w.tokens && after.sandboxes.Keys == w.sandboxes.Keys
            && forall s :: s in w.sandboxes ==>
                 after.sandboxes[s] == w.sandboxes[s].(
                   pool := if w.sandboxes[s].nodeId == id then to else w.sandboxes[s].pool)
  {
    hide BaseOf, Derived, Noted, OnlyFingerprint;
    BaseIsPlain(w.nodes[id].pool);
    DerivedNames(BaseOf(w.nodes[id].pool), fp, fp);
  }
}
