/** The master's store: desired state, one table a field, changed by the
    handlers that hold its lock. */
module State {
  import opened Wrappers
  import opened Tiers
  import opened Tables
  import opened PoolHistory
  import opened Pools
  import opened PoolRuns
  import opened Slots

  class Store {
    var nodes: Nodes
    var sandboxes: Sandboxes
    var history: History
    var tokens: Tokens
    var hosts: Hosts
    var agents: Agents
    var templates: Templates
    var pulls: Pulls
    var snapshots: Snapshots

    constructor ()
      ensures World() == EMPTY
      ensures hosts == map[] && agents == map[] && templates == map[] && pulls == map[] && snapshots == map[]
    {
      nodes, sandboxes, history, tokens := map[], map[], map[], map[];
      hosts, agents, templates, pulls, snapshots := map[], map[], map[], map[], map[];
    }

    /** The tables that pools are kept in. */
    function World(): World
      reads this`nodes, this`sandboxes, this`history, this`tokens
    {
      Pools.World(nodes, sandboxes, history, tokens)
    }

    // ---- nodes ---------------------------------------------------------------

    /** Brings a node's history up to the pool it is now in. */
    method NotePool(node: string, pool: string, now: int)
      modifies this`history
      ensures history == old(history)[node := Noted(RowsOf(old(history), node), pool, now)]
    {
      var rows := RowsOf(history, node);
      if OpenPool(rows) == Some(pool) {
        assert history == history[node := rows];
        return;
      }
      history := history[node := Closed(rows, now)];
      history := history[node := history[node] + [Stretch(pool, now, None)]];
    }

    method UpsertNode(id: string, row: NodeRow)
      modifies this`nodes, this`history
      ensures nodes == Upserted(old(nodes), id, row)
      ensures var known, now := id in old(nodes), nodes[id];
              && now.freeMib == (if known then old(nodes)[id].freeMib else 0)
              && now.psi == (if known then old(nodes)[id].psi else 0.0)
              && now.revoked == (known && old(nodes)[id].revoked)
              && nodes == old(nodes)[id := row.(freeMib := now.freeMib, psi := now.psi, revoked := now.revoked)]
      ensures history == old(history)[id := Noted(RowsOf(old(history), id), row.pool, row.lastSeenAt)]
    {
      if id in nodes {
        var was := nodes[id];
        nodes := nodes[id := was.(pool := row.pool, fingerprint := row.fingerprint, maxSandboxes := row.maxSandboxes,
                                  lastSeenAt := row.lastSeenAt, connected := row.connected)];
      } else {
        nodes := nodes[id := row.(freeMib := 0, psi := 0.0, revoked := false)];
      }
      NotePool(id, row.pool, row.lastSeenAt);
    }

    /** The reporting node is up, with these readings. */
    method SetNodeHealth(id: string, freeMib: nat, psi: real, now: int)
      modifies this`nodes
      ensures nodes == Healthy(old(nodes), id, freeMib, psi, now)
    {
      if id in nodes {
        nodes := nodes[id := nodes[id].(connected := true, lastSeenAt := now, freeMib := freeMib, psi := psi)];
      }
    }

    method SetNodeHost(id: string, host: HostInfo)
      modifies this`hosts
      ensures hosts == if id in nodes then old(hosts)[id := host] else old(hosts)
    {
      if id in nodes {
        hosts := hosts[id := host];
      }
    }

    /** Ties a node to the certificate it was just issued, which lifts a revocation. */
    method SetNodeCert(id: string)
      modifies this`nodes
      ensures nodes == Vouched(old(nodes), id)
    {
      if id in nodes {
        nodes := nodes[id := nodes[id].(revoked := false)];
      }
    }

    /** The address and secret of a driven node; giving them lifts a revocation too. */
    method SetNodeAgent(id: string, agent: AgentRow)
      modifies this`nodes, this`agents
      ensures nodes == Vouched(old(nodes), id)
      ensures agents == if id in old(nodes) then old(agents)[id := agent] else old(agents)
    {
      if id in nodes {
        nodes := nodes[id := nodes[id].(revoked := false)];
        agents := agents[id := agent];
      }
    }

    /** Moves a node whose fingerprint changed, and brings the group that went
        ahead of it back when the pool's name holds only the new one. Answers
        where it moved from and to, if it did. */
    method RefingerprintNode(id: string, fp: string, now: int) returns (moved: Option<(string, string)>)
      modifies this`nodes, this`sandboxes, this`history, this`tokens
      ensures World() == Refingerprinted(old(World()), id, fp, now)
      ensures moved.Some? <==> id in nodes && nodes[id].pool != old(nodes)[id].pool
      ensures moved.Some? ==> moved.value == (old(nodes)[id].pool, nodes[id].pool)
    {
      hide Noted, BaseOf, Head;
      if id !in nodes || nodes[id].fingerprint == fp {
        return None;
      }
      var pool := nodes[id].pool;
      var base := BaseOf(pool);
      var derived := Derived(base, fp);
      BaseIsPlain(pool);
      DerivedNames(base, fp, fp);
      var target := if OnlyFingerprint(nodes, base, id, fp) then base else derived;
      nodes := nodes[id := nodes[id].(fingerprint := fp, pool := target)];
      sandboxes := Repooled(sandboxes, id, target);
      NotePool(id, target, now);
      assert World() == Moved(old(World()), id, fp, target, now);
      if target == base {
        BringBack(derived, base, now);
      }
      moved := if pool != target then Some((pool, target)) else None;
    }

    /** The group in `derived` comes back under `base`. */
    method BringBack(derived: string, base: string, now: int)
      requires derived != base
      modifies this`nodes, this`sandboxes, this`history, this`tokens
      ensures World() == Merged(old(World()), derived, base, now)
    {
      hide Noted, RenamedBut, NotedBut;
      var ahead := InPoolNow(nodes, derived);
      ghost var w := World();
      NothingRenamed(w, derived, base, now);
      while ahead != {}
        invariant ahead <= InPoolNow(w.nodes, derived)
        invariant nodes == RenamedBut(w.nodes, derived, base, ahead)
        invariant history == NotedBut(w, derived, base, now, ahead)
        invariant sandboxes == old(sandboxes) && tokens == old(tokens)
        decreases ahead
      {
        var n :| n in ahead;
        OneRenamed(w, derived, base, now, ahead, n);
        nodes := nodes[n := nodes[n].(pool := base)];
        NotePool(n, base, now);
        ahead := ahead - {n};
      }
      AllRenamed(w, derived, base, now);
      sandboxes := map s | s in sandboxes ::
        if sandboxes[s].pool == derived then sandboxes[s].(pool := base) else sandboxes[s];
      tokens := map k | k in tokens ::
        if tokens[k].pool == derived then tokens[k].(pool := base) else tokens[k];
    }

    // ---- registration ----------------------------------------------------------

    method CreateNodeToken(token: string, pool: string, expiresAt: int)
      modifies this`tokens
      ensures World() == Step(old(World()), Timed(Mint(token, pool, expiresAt), 0))
    {
      if token !in tokens {
        tokens := tokens[token := TokenRow(pool, expiresAt, None, None)];
      }
    }

    /** Trades an unspent token for the pool it grants. */
    method RedeemNodeToken(token: string, node: string, now: int) returns (pool: Option<string>)
      modifies this`tokens
      ensures pool == Grants(old(tokens), token, now)
      ensures World() == Redeemed(old(World()), token, node, now)
    {
      pool := Grants(tokens, token, now);
      if pool.Some? {
        tokens := tokens[token := tokens[token].(consumedAt := Some(now), nodeId := Some(node))];
      }
    }

    /** A node registers with a token: it joins the pool granted, or one derived
        from it when its fingerprint is not that pool's. */
    method Register(token: string, node: string, fp: string, max: nat, now: int) returns (joined: Option<string>)
      modifies this`nodes, this`history, this`tokens
      ensures World() == Step(old(World()), Timed(PoolRuns.Register(token, node, fp, max), now))
      ensures joined.Some? <==> Grants(old(tokens), token, now).Some?
      ensures joined.Some? ==> node in nodes && nodes[node].pool == joined.value
    {
      hide Noted, Derived, NoMismatch;
      var asked := RedeemNodeToken(token, node, now);
      if asked.None? {
        return None;
      }
      var pool := PoolFor(nodes, asked.value, fp);
      UpsertNode(node, NodeRow(pool, fp, max, now, true, 0, 0.0, false));
      SetNodeCert(node);
      return Some(pool);
    }

    /** An operator adds a node the master will drive: it joins as by registration, is
        reached as `agent` says, and is not connected yet. */
    method AddNode(asked: string, node: string, fp: string, max: nat, agent: AgentRow, now: int)
      returns (pool: string)
      modifies this`nodes, this`history, this`agents
      ensures World() == Step(old(World()), Timed(Add(asked, node, fp, max), now))
      ensures node in nodes && nodes[node].pool == pool && !nodes[node].revoked && !nodes[node].connected
      ensures agents == old(agents)[node := agent]
    {
      hide Noted, Derived, NoMismatch;
      pool := PoolFor(nodes, asked, fp);
      UpsertNode(node, NodeRow(pool, fp, max, now, false, 0, 0.0, false));
      SetNodeAgent(node, agent);
    }

    // ---- sandboxes ---------------------------------------------------------------

    /** False, and nothing written, when the id is taken. */
    method InsertSandbox(id: string, row: SandboxRow) returns (ok: bool)
      modifies this`sandboxes
      ensures ok <==> id !in old(sandboxes)
      ensures sandboxes == if ok then old(sandboxes)[id := row] else old(sandboxes)
    {
      ok := id !in sandboxes;
      if ok {
        sandboxes := sandboxes[id := row];
      }
    }

    method DeleteSandbox(id: string)
      modifies this`sandboxes
      ensures sandboxes == old(sandboxes) - {id}
    {
      sandboxes := sandboxes - {id};
    }

    method SetTier(id: string, tier: Tier)
      modifies this`sandboxes
      ensures sandboxes == if id in old(sandboxes) then old(sandboxes)[id := old(sandboxes)[id].(tier := tier)]
                           else old(sandboxes)
    {
      if id in sandboxes {
        sandboxes := sandboxes[id := sandboxes[id].(tier := tier)];
      }
    }

    method Touch(id: string, now: int)
      modifies this`sandboxes
      ensures sandboxes == if id in old(sandboxes) then old(sandboxes)[id := old(sandboxes)[id].(lastActiveAt := now)]
                           else old(sandboxes)
    {
      if id in sandboxes {
        sandboxes := sandboxes[id := sandboxes[id].(lastActiveAt := now)];
      }
    }

    method SetSandboxIp(id: string, ip: string)
      modifies this`sandboxes
      ensures sandboxes == if id in old(sandboxes) then old(sandboxes)[id := old(sandboxes)[id].(ip := Some(ip))]
                           else old(sandboxes)
    {
      if id in sandboxes && (sandboxes[id].ip.None? || sandboxes[id].ip.value != ip) {
        sandboxes := sandboxes[id := sandboxes[id].(ip := Some(ip))];
      } else if id in sandboxes {
        assert sandboxes[id := sandboxes[id].(ip := Some(ip))] == sandboxes;
      }
    }

    // ---- templates ------------------------------------------------------------------

    /** Adds a template made from `image`, or begins a new attempt at it with the earlier
        outcomes forgotten. False for the name of any other template. */
    method PutImageTemplate(name: string, image: string, spec: Spec) returns (ok: bool)
      modifies this`templates, this`pulls
      ensures ok <==> name !in old(templates) || old(templates)[name].image == Some(image)
      ensures !ok ==> templates == old(templates) && pulls == old(pulls)
      ensures ok && name in old(templates) ==>
                && templates == old(templates)[
                     name := old(templates)[name].(attempt := old(templates)[name].attempt + 1)]
                && pulls == map k | k in old(pulls) && k.template != name :: old(pulls)[k]
      ensures ok && name !in old(templates) ==>
                templates == old(templates)[name := TemplateRow(spec, Some(image), 1)] && pulls == old(pulls)
    {
      if name in templates {
        if templates[name].image != Some(image) {
          return false;
        }
        templates := templates[name := templates[name].(attempt := templates[name].attempt + 1)];
        pulls := map k | k in pulls && k.template != name :: pulls[k];
      } else {
        templates := templates[name := TemplateRow(spec, Some(image), 1)];
      }
      ok := true;
    }

    method SetTemplateSpec(name: string, spec: Spec)
      modifies this`templates
      ensures templates == if name in old(templates) then old(templates)[name := old(templates)[name].(spec := spec)]
                           else old(templates)
    {
      if name in templates {
        templates := templates[name := templates[name].(spec := spec)];
      }
    }

    method RecordPull(template: string, node: string, attempt: nat, done: bool, error: Option<string>)
      modifies this`pulls
      ensures pulls == old(pulls)[PullKey(template, node) := PullRow(attempt, done, error)]
    {
      pulls := pulls[PullKey(template, node) := PullRow(attempt, done, error)];
    }

    // ---- slots ----------------------------------------------------------------------

    /** The values of a column in use on a node within the range, in order. */
    method SelectSlots(col: Column, node: string, lo: nat, hi: nat) returns (used: seq<nat>)
      ensures Ascending(used)
      ensures forall v :: v in used <==> v in Taken(sandboxes, node, col) && lo <= v <= hi
    {
      used := [];
      var left := set s | s in sandboxes && sandboxes[s].nodeId == node && SlotOf(sandboxes[s], col).Some?;
      while left != {}
        invariant forall s :: s in left ==>
                    s in sandboxes && sandboxes[s].nodeId == node && SlotOf(sandboxes[s], col).Some?
        invariant Ascending(used)
        invariant forall v :: v in used ==> v in Taken(sandboxes, node, col) && lo <= v <= hi
        invariant forall s :: s in sandboxes && sandboxes[s].nodeId == node && SlotOf(sandboxes[s], col).Some? ==>
                    || s in left
                    || !(lo <= SlotOf(sandboxes[s], col).value <= hi)
                    || SlotOf(sandboxes[s], col).value in used
        decreases left
      {
        var s :| s in left;
        var v := SlotOf(sandboxes[s], col).value;
        if lo <= v <= hi {
          SortedInKeeps(used, v);
          used := SortedIn(used, v);
        }
        left := left - {s};
      }
    }

    /** The lowest free value of a column on one node. */
    method AllocateSlot(col: Column, node: string, lo: nat, hi: nat) returns (r: Option<nat>)
      requires hi <= U32_MAX
      ensures r == Lowest(Taken(sandboxes, node, col), lo, hi)
    {
      var used := SelectSlots(col, node, lo, hi);
      assert forall i :: 0 <= i < |used| ==> used[i] in used;
      r := FirstGap(used, lo, hi);
      LowestWithin(Members(used), Taken(sandboxes, node, col), lo, hi);
    }
  }

  function Healthy(nodes: Nodes, id: string, freeMib: nat, psi: real, now: int): Nodes {
    if id !in nodes then nodes
    else nodes[id := nodes[id].(connected := true, lastSeenAt := now, freeMib := freeMib, psi := psi)]
  }

  /** The merge of every node but those still to come. */
  ghost function RenamedBut(nodes: Nodes, from: string, to: string, left: set<string>): Nodes {
    map n | n in nodes :: if nodes[n].pool == from && n !in left then nodes[n].(pool := to) else nodes[n]
  }

  ghost function NotedBut(w: World, from: string, to: string, t: int, left: set<string>): History {
    map n | n in w.history.Keys + (InPoolNow(w.nodes, from) - left) ::
      if n in InPoolNow(w.nodes, from) - left then Noted(RowsOf(w.history, n), to, t) else w.history[n]
  }

  lemma NothingRenamed(w: World, from: string, to: string, t: int)
    ensures RenamedBut(w.nodes, from, to, InPoolNow(w.nodes, from)) == w.nodes
    ensures NotedBut(w, from, to, t, InPoolNow(w.nodes, from)) == w.history
  {
    hide Noted;
    assert InPoolNow(w.nodes, from) - InPoolNow(w.nodes, from) == {};
  }

  lemma OneRenamed(w: World, from: string, to: string, t: int, left: set<string>, n: string)
    requires left <= InPoolNow(w.nodes, from) && n in left
    ensures var nodes, history := RenamedBut(w.nodes, from, to, left), NotedBut(w, from, to, t, left);
            && n in nodes
            && nodes[n := nodes[n].(pool := to)] == RenamedBut(w.nodes, from, to, left - {n})
            && history[n := Noted(RowsOf(history, n), to, t)] == NotedBut(w, from, to, t, left - {n})
  {
    hide Noted;
    var ahead := InPoolNow(w.nodes, from);
    assert ahead - (left - {n}) == (ahead - left) + {n};
  }

  lemma AllRenamed(w: World, from: string, to: string, t: int)
    ensures RenamedBut(w.nodes, from, to, {}) == Merged(w, from, to, t).nodes
    ensures NotedBut(w, from, to, t, {}) == Merged(w, from, to, t).history
  {
    hide Noted;
    assert InPoolNow(w.nodes, from) - {} == InPoolNow(w.nodes, from);
  }

  function SortedIn(s: seq<nat>, v: nat): seq<nat> {
    if s == [] || v <= s[0] then [v] + s else [s[0]] + SortedIn(s[1..], v)
  }

  lemma {:induction false} SortedInKeeps(s: seq<nat>, v: nat)
    requires Ascending(s)
    ensures Ascending(SortedIn(s, v))
    ensures forall u :: u in SortedIn(s, v) <==> u in s || u == v
    decreases |s|
  {
    if s != [] && v > s[0] {
      SortedInKeeps(s[1..], v);
      var rest := SortedIn(s[1..], v);
      assert s == [s[0]] + s[1..];
      forall j | 0 <= j < |rest|
        ensures s[0] <= rest[j]
      {
        assert rest[j] in rest;
      }
    }
  }

  lemma LowestWithin(a: set<nat>, b: set<nat>, lo: nat, hi: nat)
    requires forall v :: v in a <==> v in b && lo <= v <= hi
    ensures Lowest(a, lo, hi) == Lowest(b, lo, hi)
  {}
}
