/** The reconciler: desired state minus what a node reports holding. */
module Reconcile {
  import opened Wrappers
  import opened Tiers
  import opened Tables
  import opened PoolHistory
  import opened Pools
  import opened Protocol
  import opened State
  import opened Switching

  /** After this many failures in a row the master stops asking. */
  const MAX_FAILURES: nat := 5

  const DEFAULT_SANDBOX_PORT: nat := 8080

  // ---- the lifetime of fetch tokens ---------------------------------------

  const FETCH_TTL := 600
  const FETCH_BUCKET := 300

  /** Division towards nought. */
  function Truncated(a: int, b: int): int
    requires b > 0
  {
    if a >= 0 then a / b else -((-a) / b)
  }

  /** The deadline of a fetch token: the end of the bucket that lies past its least
      lifetime. */
  function FetchExpiry(now: int): int {
    Truncated(now + FETCH_TTL, FETCH_BUCKET) * FETCH_BUCKET + FETCH_BUCKET
  }

  /** Whole seconds since the epoch, and nought on a clock set before it. */
  function NowSecs(clock: int): nat {
    if clock < 0 then 0 else clock
  }

  /** Whatever the clock reads, a token minted then has more than ten minutes left and
      at most fifteen. */
  lemma FetchExpiryBounds(clock: int)
    ensures 600 < FetchExpiry(NowSecs(clock)) - NowSecs(clock) <= 900
  {
    FetchExpiryArithmetic(NowSecs(clock));
  }

  /** The arithmetic alone, over all numbers: the division rounds towards nought, so the
      bounds hold from ten minutes before nought on, and below that on a bucket's edge. */
  lemma FetchExpiryArithmetic(now: int)
    ensures 600 < FetchExpiry(now) - now <= 900 <==> (now + FETCH_TTL >= 0 || (now + FETCH_TTL) % FETCH_BUCKET == 0)
    ensures 600 < FetchExpiry(now) - now < 1200
  {
    var n := now + FETCH_TTL;
    if n >= 0 {
      assert n == n / 300 * 300 + n % 300;
    } else {
      assert -n == (-n) / 300 * 300 + (-n) % 300;
      assert n % 300 == 0 <==> (-n) % 300 == 0;
    }
  }

  /** A token's expiry only moves on: the same within a bucket, later in the next. */
  lemma FetchExpiryGrows(now: int, later: int)
    requires 0 <= now + FETCH_TTL && now <= later
    ensures FetchExpiry(now) <= FetchExpiry(later)
    ensures FetchExpiry(now) == FetchExpiry(later)
       <==> (now + FETCH_TTL) / FETCH_BUCKET == (later + FETCH_TTL) / FETCH_BUCKET
  {}

  // ---- image pulls -----------------------------------------------------------------

  /** A template's spec from what the caller asked and what the image says. */
  function FinishedSpec(asked: Spec, c: ImageConfig): Spec {
    Spec(false, if asked.args != [] then asked.args else c.args, c.env + asked.env, c.cwd, asked.memoryMaxMib,
         if asked.port.Some? then asked.port else c.port)
  }

  /** The first pull reported of this attempt at this template. */
  function PullOf(pulls: seq<TemplatePull>, name: string, attempt: nat): Option<TemplatePull> {
    if pulls == [] then None
    else if pulls[0].name == name && pulls[0].attempt == attempt then Some(pulls[0])
    else PullOf(pulls[1..], name, attempt)
  }

  const NO_PROGRAM := "the image names no program; give args"

  function PullError(p: TemplatePull, spec: Spec): Option<string> {
    if p.error.Some? then p.error
    else if p.config.Some? && p.done && p.config.value.args == [] && spec.args == [] then Some(NO_PROGRAM)
    else None
  }

  /** What a report says of one template pulled from an image. */
  function ReportedPull(req: PollRequest, name: string, t: TemplateRow): Option<TemplatePull> {
    if req.templates.None? || t.image.None? then None else PullOf(req.pulls, name, t.attempt)
  }

  /** A template's row once a report of it is recorded: its spec is finished when it
      was pending and the pull says how to run it. */
  function Pulled(t: TemplateRow, p: Option<TemplatePull>): TemplateRow {
    if p.Some? && p.value.config.Some? && PullError(p.value, t.spec).None? && t.spec.pending
    then t.(spec := FinishedSpec(t.spec, p.value.config.value)) else t
  }

  function PulledAll(templates: Templates, req: PollRequest): Templates {
    map n | n in templates :: Pulled(templates[n], ReportedPull(req, n, templates[n]))
  }

  function PullRowOf(p: TemplatePull, spec: Spec): PullRow {
    PullRow(p.attempt, p.done, PullError(p, spec))
  }

  /** Whether a report says how this pull stands. */
  predicate Names(templates: Templates, req: PollRequest, k: PullKey) {
    k.nodeId == req.nodeId && k.template in templates && ReportedPull(req, k.template, templates[k.template]).Some?
  }

  function NamedKeys(templates: Templates, req: PollRequest): (ks: set<PullKey>)
    ensures forall k :: k in ks <==> Names(templates, req, k)
  {
    hide ReportedPull;
    var ks := set n | n in templates && ReportedPull(req, n, templates[n]).Some? :: PullKey(n, req.nodeId);
    assert forall k :: Names(templates, req, k) ==> k == PullKey(k.template, req.nodeId);
    ks
  }

  /** The outcomes recorded, one row for each template the report names. */
  function RecordedAll(pulls: Pulls, templates: Templates, req: PollRequest): Pulls {
    map k | k in pulls.Keys + NamedKeys(templates, req) ::
      if Names(templates, req, k)
      then PullRowOf(ReportedPull(req, k.template, templates[k.template]).value, templates[k.template].spec)
      else pulls[k]
  }

  /** Whether the node has already failed at this template. */
  predicate Failed(pulls: Pulls, name: string, node: string) {
    PullKey(name, node) in pulls && pulls[PullKey(name, node)].error.Some?
  }

  /** The pull to start, if one is due: not while one is reported, nor once it failed. */
  function PullCommand(templates: Templates, pulls: Pulls, req: PollRequest, name: string): seq<Command>
    requires name in templates && templates[name].image.Some? && req.templates.Some?
  {
    var t := templates[name];
    if ReportedPull(req, name, t).None? && !Failed(pulls, name, req.nodeId)
       && (name !in req.templates.value || t.spec.pending)
    then [PullTemplate(name, t.image.value, t.attempt)] else []
  }

  predicate ImageNames(templates: Templates, names: seq<string>) {
    && (forall i :: 0 <= i < |names| ==> names[i] in templates && templates[names[i]].image.Some?)
    && (forall n :: n in templates && templates[n].image.Some? ==> n in names)
    && (forall i, j :: 0 <= i < j < |names| ==> names[i] != names[j])
  }

  function PullCommands(templates: Templates, pulls: Pulls, req: PollRequest, names: seq<string>): seq<Command>
    requires forall i :: 0 <= i < |names| ==> names[i] in templates && templates[names[i]].image.Some?
  {
    if req.templates.None? || names == [] then []
    else PullCommands(templates, pulls, req, names[..|names| - 1])
         + PullCommand(templates, pulls, req, names[|names| - 1])
  }

  // ---- what each desired sandbox needs ----------------------------------------------

  /** The source of a tag's image for this node: another node, and one the master can
      reach. */
  function FetchOf(nodes: Nodes, agents: Agents, snapshots: Snapshots, tag: string, node: string, now: int)
    : Option<FetchFrom>
  {
    if tag !in snapshots || snapshots[tag].nodeId == node then None
    else
      var src := snapshots[tag].nodeId;
      if src !in agents || (src in nodes && nodes[src].revoked) then None
      else
        var a := agents[src];
        var expires := FetchExpiry(now);
        Some(FetchFrom(src, a.address, a.certSha256, node, expires, FetchToken(a.secret, tag, node, expires)))
  }

  /** The source node's test of a token presented to it. */
  predicate FetchTokenValid(secret: string, tag: string, forNode: string, expires: int, token: FetchToken, now: int) {
    expires >= now && token == FetchToken(secret, tag, forNode, expires)
  }

  /** The token a create carries is good on the node it came from, for the fetching
      node and this tag alone, for at least ten minutes and until it expires. */
  lemma FetchIsGood(nodes: Nodes, agents: Agents, snapshots: Snapshots, tag: string, node: string, now: int,
                    other: string, forNode: string, t: int)
    requires FetchOf(nodes, agents, snapshots, tag, node, now).Some? && now + FETCH_TTL >= 0
    ensures var f := FetchOf(nodes, agents, snapshots, tag, node, now).value;
            && f.nodeId != node && f.nodeId in agents
            && (FetchTokenValid(agents[f.nodeId].secret, other, forNode, f.expires, f.token, t)
                <==> other == tag && forNode == node && t <= f.expires)
            && now + FETCH_TTL < f.expires
  {
    hide FetchExpiry;
    FetchExpiryArithmetic(now);
  }

  /** The tables a diff's commands are read from. */
  datatype Source = Source(nodes: Nodes, sandboxes: Sandboxes, agents: Agents, templates: Templates,
                           snapshots: Snapshots)

  function CreateOf(src: Source, id: string, node: string, now: int): Command
    requires id in src.sandboxes && src.sandboxes[id].template in src.templates
  {
    var want := src.sandboxes[id];
    var spec := src.templates[want.template].spec;
    Create(id, want.template,
           if want.memoryLimitMib.Some? then spec.(memoryMaxMib := want.memoryLimitMib) else spec,
           if want.port.Some? then want.port.value else DEFAULT_SANDBOX_PORT,
           want.volume, want.netIndex, want.fromTag, want.gatewayPort, want.token,
           if want.fromTag.Some? then FetchOf(src.nodes, src.agents, src.snapshots, want.fromTag.value, node, now)
           else None,
           want.egress)
  }

  /** What to ask for one sandbox: nothing once it is quarantined; a create when the
      node does not hold it, unless it is detached or its template is gone; else the
      tier and the rules where they differ. */
  function Asks(src: Source, observed: seq<Observed>, id: string, node: string, now: int): seq<Command>
    requires id in src.sandboxes
  {
    var want := src.sandboxes[id];
    if want.errorAttempts >= MAX_FAILURES then []
    else
      match Seen(observed, id)
      case None =>
        if want.tier == Detached || want.template !in src.templates then []
        else [CreateOf(src, id, node, now)]
      case Some(got) =>
        (if got.tier != want.tier then [SetTier(id, want.tier)] else [])
        + (if got.egress.Some? && got.egress.value != want.egress then [SetEgress(id, want.egress)] else [])
  }

  function AllAsks(src: Source, observed: seq<Observed>, ids: seq<string>, node: string, now: int): seq<Command>
    requires forall i :: 0 <= i < |ids| ==> ids[i] in src.sandboxes
  {
    if ids == [] then []
    else AllAsks(src, observed, ids[..|ids| - 1], node, now) + Asks(src, observed, ids[|ids| - 1], node, now)
  }

  /** Held but not wanted on this node. */
  function Orphans(sandboxes: Sandboxes, observed: seq<Observed>, node: string): seq<Command> {
    if observed == [] then []
    else
      var got := observed[|observed| - 1];
      Orphans(sandboxes, observed[..|observed| - 1], node)
      + (if got.id in sandboxes && sandboxes[got.id].nodeId == node then [] else [Destroy(got.id, got.netIndex)])
  }

  function DroppedTags(snapshots: Snapshots, tags: seq<string>): seq<Command> {
    if tags == [] then []
    else DroppedTags(snapshots, tags[..|tags| - 1])
         + (if tags[|tags| - 1] in snapshots then [] else [DropTag(tags[|tags| - 1])])
  }

  /** Everything about sandboxes in an answer. */
  function SandboxCommands(src: Source, req: PollRequest, ids: seq<string>, now: int): seq<Command>
    requires forall i :: 0 <= i < |ids| ==> ids[i] in src.sandboxes
  {
    AllAsks(src, req.observed, ids, req.nodeId, now) + Orphans(src.sandboxes, req.observed, req.nodeId)
  }

  /** `ids` lists the sandboxes of one node, each once. */
  predicate IdsOn(sandboxes: Sandboxes, node: string, ids: seq<string>) {
    && (forall i :: 0 <= i < |ids| ==> ids[i] in sandboxes && sandboxes[ids[i]].nodeId == node)
    && (forall s :: s in sandboxes && sandboxes[s].nodeId == node ==> s in ids)
    && (forall i, j :: 0 <= i < j < |ids| ==> ids[i] != ids[j])
  }

  // ---- the whole diff ------------------------------------------------------------------

  /** Everything a diff reads or writes. */
  datatype Desk = Desk(
    world: World, hosts: Hosts, agents: Agents, templates: Templates, pulls: Pulls, snapshots: Snapshots,
    features: map<string, seq<string>>, installed: map<string, seq<string>>, seenHosts: Hosts, entries: Entries)
  {
    function View(): Source {
      Source(world.nodes, world.sandboxes, agents, templates, snapshots)
    }
  }

  /** The addresses a report gives; for an id named twice the last one stands. */
  function WithIps(sandboxes: Sandboxes, observed: seq<Observed>): Sandboxes {
    if observed == [] then sandboxes
    else
      var o := observed[|observed| - 1];
      var before := WithIps(sandboxes, observed[..|observed| - 1]);
      if o.ip.Some? && o.id in before then before[o.id := before[o.id].(ip := o.ip)] else before
  }

  /** The fingerprint a report moves the node by: one it gives, and not empty. */
  function Refigured(w: World, req: PollRequest, now: int): World {
    if req.fingerprint.Some? && req.fingerprint.value != ""
    then Refingerprinted(w, req.nodeId, req.fingerprint.value, now) else w
  }

  function Measured(w: World, req: PollRequest, now: int): World {
    w.(nodes := Healthy(w.nodes, req.nodeId, req.freeMib, req.pressure, now))
  }

  function Addressed(w: World, req: PollRequest): World {
    w.(sandboxes := WithIps(w.sandboxes, req.observed))
  }

  /** What a report says of the node's features, templates, host and backend. */
  function Kept(d: Desk, req: PollRequest): Desk {
    var known := req.host.Some? && req.nodeId in d.seenHosts && d.seenHosts[req.nodeId] == req.host.value;
    d.(hosts := if req.host.Some? && !known && req.nodeId in d.world.nodes then d.hosts[req.nodeId := req.host.value]
                else d.hosts,
       features := if req.features != [] then d.features[req.nodeId := req.features] else d.features,
       installed := if req.templates.Some? then d.installed[req.nodeId := req.templates.value] else d.installed,
       seenHosts := if req.host.Some? then d.seenHosts[req.nodeId := req.host.value] else d.seenHosts,
       entries := if req.host.Some? then BackOn(d.entries, req.nodeId, BackendOfEngine(req.host.value.engine))
                  else d.entries)
  }

  /** The world after a report. */
  function Told(w: World, req: PollRequest, now: int): World {
    Addressed(Refigured(Measured(w, req, now), req, now), req)
  }

  /** The desk after a report. */
  function Diffed(d: Desk, req: PollRequest, now: int): Desk {
    Kept(d.(world := Measured(d.world, req, now)), req).(
      world := Told(d.world, req, now),
      templates := PulledAll(d.templates, req),
      pulls := RecordedAll(d.pulls, d.templates, req))
  }

  /** The commands of a diff: pulls, then what each desired sandbox needs, then what
      is held and not wanted, then tags without a record. */
  function Commands(d: Desk, req: PollRequest, names: seq<string>, ids: seq<string>, now: int): seq<Command>
    requires ImageNames(d.templates, names) && IdsOn(d.world.sandboxes, req.nodeId, ids)
  {
    DiffedKeepsIds(d, req, now);
    PullCommands(d.templates, d.pulls, req, names)
    + SandboxCommands(Diffed(d, req, now).View(), req, ids, now)
    + DroppedTags(d.snapshots, req.tags)
  }

  /** What the diff needs of a desired sandbox. */
  predicate SameWish(a: SandboxRow, b: SandboxRow) {
    a == b.(pool := a.pool, ip := a.ip)
  }

  predicate SameWishes(a: Sandboxes, b: Sandboxes) {
    a.Keys == b.Keys && forall s :: s in a ==> SameWish(a[s], b[s])
  }

  lemma {:induction false} WithIpsKeeps(sandboxes: Sandboxes, observed: seq<Observed>)
    ensures SameWishes(WithIps(sandboxes, observed), sandboxes)
    decreases |observed|
  {
    if observed != [] {
      WithIpsKeeps(sandboxes, observed[..|observed| - 1]);
    }
  }

  lemma RefingerprintedKeeps(w: World, id: string, fp: string, t: int)
    ensures SameWishes(Refingerprinted(w, id, fp, t).sandboxes, w.sandboxes)
  {
    hide BaseOf, Derived, Noted, OnlyFingerprint;
  }

  /** A diff changes nothing of what is wanted: only pools and addresses. */
  lemma DiffedKeepsIds(d: Desk, req: PollRequest, now: int)
    ensures SameWishes(Diffed(d, req, now).world.sandboxes, d.world.sandboxes)
  {
    hide Refingerprinted, PulledAll, RecordedAll, WithIps, BackendOfEngine, SameWish;
    var w := Refigured(Measured(d.world, req, now), req, now);
    WithIpsKeeps(w.sandboxes, req.observed);
    if req.fingerprint.Some? {
      RefingerprintedKeeps(Measured(d.world, req, now), req.nodeId, req.fingerprint.value, now);
    }
    SameWishesChain(WithIps(w.sandboxes, req.observed), w.sandboxes, d.world.sandboxes);
  }

  lemma SameWishesChain(a: Sandboxes, b: Sandboxes, c: Sandboxes)
    requires SameWishes(a, b) && (SameWishes(b, c) || b == c)
    ensures SameWishes(a, c)
  {}

  // ---- the handler ---------------------------------------------------------------------

  /** What the master keeps from reports beside the store. */
  class Reconciler {
    const store: Store
    const board: Switchboard
    var features: map<string, seq<string>>
    var installed: map<string, seq<string>>
    var seenHosts: Hosts

    constructor (store: Store, board: Switchboard)
      ensures this.store == store && this.board == board
      ensures features == map[] && installed == map[] && seenHosts == map[]
    {
      this.store, this.board := store, board;
      features, installed, seenHosts := map[], map[], map[];
    }

    function View(): Desk
      reads this, store, board
    {
      Desk(store.World(), store.hosts, store.agents, store.templates, store.pulls, store.snapshots,
           features, installed, seenHosts, board.entries)
    }

    /** Stores a node's host unless it is the one stored last. */
    method RecordHost(node: string, host: HostInfo)
      modifies this`seenHosts, store`hosts
      ensures seenHosts == old(seenHosts)[node := host]
      ensures store.hosts == if (node in old(seenHosts) && old(seenHosts)[node] == host) || node !in store.nodes
                             then old(store.hosts) else old(store.hosts)[node := host]
    {
      if node in seenHosts && seenHosts[node] == host {
        assert seenHosts == seenHosts[node := host];
        return;
      }
      store.SetNodeHost(node, host);
      seenHosts := seenHosts[node := host];
    }

    /** Takes in the node's image pulls and lists the ones due. */
    method PullsFor(req: PollRequest, names: seq<string>) returns (commands: seq<Command>)
      requires ImageNames(store.templates, names)
      modifies store`templates, store`pulls
      ensures store.templates == PulledAll(old(store.templates), req)
      ensures store.pulls == RecordedAll(old(store.pulls), old(store.templates), req)
      ensures commands == PullCommands(old(store.templates), old(store.pulls), req, names)
    {
      hide PullCommand, PulledSome, RecordedSome, PullOf, FinishedSpec;
      var templates, pulls := store.templates, store.pulls;
      commands := [];
      NothingPulled(templates, pulls, req);
      if req.templates.None? {
        return;
      }
      for i := 0 to |names|
        invariant store.templates == PulledSome(templates, req, names[..i])
        invariant store.pulls == RecordedSome(pulls, templates, req, names[..i])
        invariant commands == PullCommands(templates, pulls, req, names[..i])
      {
        var name := names[i];
        var t := templates[name];
        assert names[..i + 1][..i] == names[..i];
        OnePulled(templates, pulls, req, names[..i], name);
        assert names[..i + 1] == names[..i] + [name];
        var reported := PullOf(req.pulls, name, t.attempt);
        if reported.Some? {
          var p := reported.value;
          var error := PullError(p, t.spec);
          store.RecordPull(name, req.nodeId, p.attempt, p.done, error);
          if p.config.Some? && error.None? && t.spec.pending {
            store.SetTemplateSpec(name, FinishedSpec(t.spec, p.config.value));
          }
          ReportedIsNoCommand(templates, pulls, req, name);
        } else {
          if !Failed(pulls, name, req.nodeId) && (name !in req.templates.value || t.spec.pending) {
            commands := commands + [PullTemplate(name, t.image.value, t.attempt)];
          }
          UnreportedCommand(templates, pulls, req, name);
        }
      }
      assert names[..|names|] == names;
      EveryPulled(templates, pulls, req, names);
    }

    /** The handler: the report recorded, then every command that desired state less the
        report comes to. */
    method Diff(req: PollRequest, names: seq<string>, ids: seq<string>, now: int) returns (commands: seq<Command>)
      requires ImageNames(store.templates, names) && IdsOn(store.sandboxes, req.nodeId, ids)
      modifies this, store, board
      ensures View() == Diffed(old(View()), req, now)
      ensures commands == Commands(old(View()), req, names, ids, now)
    {
      hide Told, PulledAll, RecordedAll, PullCommands, SandboxCommands, DroppedTags, SameWishes, Measured, BackOn;
      ghost var before := View();
      Record(req, now);
      DiffedKeepsIds(before, req, now);
      StillOn(before.world.sandboxes, store.sandboxes, req.nodeId, ids);
      commands := PullsFor(req, names);
      assert View() == Diffed(before, req, now);
      var rest := Wants(req, ids, now);
      var gone := Tags(req.tags);
      commands := commands + rest + gone;
    }

    /** What a report says of its node and of the sandboxes' addresses. */
    method Record(req: PollRequest, now: int)
      modifies this, store, board
      ensures View() == Diffed(old(View()), req, now).(templates := old(store.templates), pulls := old(store.pulls))
    {
      hide Refingerprinted, WithIps, PulledAll, RecordedAll, Healthy, Kept;
      ghost var before := View();
      store.SetNodeHealth(req.nodeId, req.freeMib, req.pressure, now);
      assert View() == before.(world := Measured(before.world, req, now));
      KeepReport(req);
      label L: assert store.World() == Measured(before.world, req, now);
      if req.fingerprint.Some? && req.fingerprint.value != "" {
        var moved := store.RefingerprintNode(req.nodeId, req.fingerprint.value, now);
      }
      SetIps(req.observed);
      assert View() == old@L(View()).(world := Told(before.world, req, now));
    }

    /** The features, templates, host and backend a report names. */
    method KeepReport(req: PollRequest)
      modifies this, store`hosts, board
      ensures View() == Kept(old(View()), req)
    {
      hide BackendOfEngine, BackOn;
      if req.features != [] {
        features := features[req.nodeId := req.features];
      }
      if req.templates.Some? {
        installed := installed[req.nodeId := req.templates.value];
      }
      if req.host.Some? {
        RecordHost(req.nodeId, req.host.value);
        board.Reported(req.nodeId, BackendOfEngine(req.host.value.engine));
      }
    }

    method SetIps(observed: seq<Observed>)
      modifies store`sandboxes
      ensures store.sandboxes == WithIps(old(store.sandboxes), observed)
    {
      ghost var before := store.sandboxes;
      for i := 0 to |observed|
        invariant store.sandboxes == WithIps(before, observed[..i])
      {
        assert observed[..i + 1][..i] == observed[..i];
        if observed[i].ip.Some? {
          store.SetSandboxIp(observed[i].id, observed[i].ip.value);
        }
      }
      assert observed[..|observed|] == observed;
    }

    /** What to ask for each desired sandbox, then what to destroy. The source
        of a tag is worked out once for all its forks. */
    method Wants(req: PollRequest, ids: seq<string>, now: int) returns (commands: seq<Command>)
      requires IdsOn(store.sandboxes, req.nodeId, ids)
      ensures commands == SandboxCommands(View().View(), req, ids, now)
    {
      hide FetchOf, Seen;
      ghost var src := View().View();
      var sources: map<string, Option<FetchFrom>> := map[];
      commands := [];
      for i := 0 to |ids|
        invariant commands == AllAsks(src, req.observed, ids[..i], req.nodeId, now)
        invariant forall t :: t in sources ==>
                    sources[t] == FetchOf(src.nodes, src.agents, src.snapshots, t, req.nodeId, now)
      {
        assert ids[..i + 1][..i] == ids[..i];
        var asks;
        asks, sources := AskFor(ids[i], req, sources, now);
        commands := commands + asks;
      }
      assert ids[..|ids|] == ids;
      var destroys := DestroyOrphans(req);
      commands := commands + destroys;
    }

    method AskFor(id: string, req: PollRequest, sources: map<string, Option<FetchFrom>>, now: int)
      returns (commands: seq<Command>, known: map<string, Option<FetchFrom>>)
      requires id in store.sandboxes
      requires forall t :: t in sources ==>
                 sources[t] == FetchOf(store.nodes, store.agents, store.snapshots, t, req.nodeId, now)
      ensures commands == Asks(View().View(), req.observed, id, req.nodeId, now)
      ensures forall t :: t in known ==>
                known[t] == FetchOf(store.nodes, store.agents, store.snapshots, t, req.nodeId, now)
    {
      hide FetchOf, Seen;
      var want := store.sandboxes[id];
      commands, known := [], sources;
      if want.errorAttempts >= MAX_FAILURES {
        return;
      }
      var seen := Seen(req.observed, id);
      match seen {
        case None =>
          if want.tier == Detached || want.template !in store.templates {
            return;
          }
          var spec := store.templates[want.template].spec;
          if want.memoryLimitMib.Some? {
            spec := spec.(memoryMaxMib := want.memoryLimitMib);
          }
          var fetch := None;
          if want.fromTag.Some? {
            var tag := want.fromTag.value;
            if tag !in known {
              known := known[tag := FetchOf(store.nodes, store.agents, store.snapshots, tag, req.nodeId, now)];
            }
            fetch := known[tag];
          }
          var port := if want.port.Some? then want.port.value else DEFAULT_SANDBOX_PORT;
          commands := [Command.Create(id, want.template, spec, port, want.volume, want.netIndex, want.fromTag,
                                      want.gatewayPort, want.token, fetch, want.egress)];
        case Some(got) =>
          if got.tier != want.tier {
            commands := commands + [Command.SetTier(id, want.tier)];
          }
          if got.egress.Some? && got.egress.value != want.egress {
            commands := commands + [Command.SetEgress(id, want.egress)];
          }
      }
    }

    method DestroyOrphans(req: PollRequest) returns (commands: seq<Command>)
      ensures commands == Orphans(store.sandboxes, req.observed, req.nodeId)
    {
      commands := [];
      for i := 0 to |req.observed|
        invariant commands == Orphans(store.sandboxes, req.observed[..i], req.nodeId)
      {
        assert req.observed[..i + 1][..i] == req.observed[..i];
        var got := req.observed[i];
        if !(got.id in store.sandboxes && store.sandboxes[got.id].nodeId == req.nodeId) {
          commands := commands + [Command.Destroy(got.id, got.netIndex)];
        }
      }
      assert req.observed[..|req.observed|] == req.observed;
    }

    method Tags(tags: seq<string>) returns (commands: seq<Command>)
      ensures commands == DroppedTags(store.snapshots, tags)
    {
      commands := [];
      for i := 0 to |tags|
        invariant commands == DroppedTags(store.snapshots, tags[..i])
      {
        assert tags[..i + 1][..i] == tags[..i];
        if tags[i] !in store.snapshots {
          commands := commands + [DropTag(tags[i])];
        }
      }
      assert tags[..|tags|] == tags;
    }
  }

  lemma StillOn(before: Sandboxes, after: Sandboxes, node: string, ids: seq<string>)
    requires IdsOn(before, node, ids) && SameWishes(after, before)
    ensures IdsOn(after, node, ids)
  {}

  /** The templates with only the reports of `done` taken in. */
  ghost function PulledSome(templates: Templates, req: PollRequest, done: seq<string>): Templates {
    map n | n in templates ::
      if n in done then Pulled(templates[n], ReportedPull(req, n, templates[n])) else templates[n]
  }

  ghost function RecordedSome(pulls: Pulls, templates: Templates, req: PollRequest, done: seq<string>): Pulls {
    map k | k in pulls.Keys + (set k | k in NamedKeys(templates, req) && k.template in done) ::
      if Names(templates, req, k) && k.template in done
      then PullRowOf(ReportedPull(req, k.template, templates[k.template]).value, templates[k.template].spec)
      else pulls[k]
  }

  lemma NothingPulled(templates: Templates, pulls: Pulls, req: PollRequest)
    ensures PulledSome(templates, req, []) == templates && RecordedSome(pulls, templates, req, []) == pulls
    ensures req.templates.None? ==>
              PulledAll(templates, req) == templates && RecordedAll(pulls, templates, req) == pulls
  {}

  lemma OnePulled(templates: Templates, pulls: Pulls, req: PollRequest, done: seq<string>, name: string)
    requires name in templates && name !in done
    ensures var p := ReportedPull(req, name, templates[name]);
            && PulledSome(templates, req, done + [name])
               == PulledSome(templates, req, done)[name := Pulled(templates[name], p)]
            && RecordedSome(pulls, templates, req, done + [name])
               == (if p.Some?
                   then RecordedSome(pulls, templates, req, done)[
                          PullKey(name, req.nodeId) := PullRowOf(p.value, templates[name].spec)]
                   else RecordedSome(pulls, templates, req, done))
            && name in PulledSome(templates, req, done) && PulledSome(templates, req, done)[name] == templates[name]
  {
    hide ReportedPull, Pulled, PullRowOf;
    assert forall k: PullKey :: k.template == name && k.nodeId == req.nodeId ==> k == PullKey(name, req.nodeId);
  }

  lemma EveryPulled(templates: Templates, pulls: Pulls, req: PollRequest, names: seq<string>)
    requires ImageNames(templates, names)
    ensures PulledSome(templates, req, names) == PulledAll(templates, req)
    ensures RecordedSome(pulls, templates, req, names) == RecordedAll(pulls, templates, req)
  {
    hide PullOf, PullRowOf;
  }

  lemma ReportedIsNoCommand(templates: Templates, pulls: Pulls, req: PollRequest, name: string)
    requires name in templates && templates[name].image.Some? && req.templates.Some?
    requires PullOf(req.pulls, name, templates[name].attempt).Some?
    ensures PullCommand(templates, pulls, req, name) == []
  {}

  lemma UnreportedCommand(templates: Templates, pulls: Pulls, req: PollRequest, name: string)
    requires name in templates && templates[name].image.Some? && req.templates.Some?
    requires PullOf(req.pulls, name, templates[name].attempt).None?
    ensures PullCommand(templates, pulls, req, name)
         == if !Failed(pulls, name, req.nodeId) && (name !in req.templates.value || templates[name].spec.pending)
            then [PullTemplate(name, templates[name].image.value, templates[name].attempt)] else []
  {}
}
