/** What a diff asks of a node and what a report leaves behind, command by command and
    row by row, said of the tables and the report alone. */
module Asking {
  import opened Wrappers
  import opened Tiers
  import opened Egresses
  import opened Tables
  import opened PoolHistory
  import opened Pools
  import opened Protocol
  import opened State
  import opened Reconcile
  import opened DiffTwice
  import opened Convergence

  // ---- which commands ------------------------------------------------------------------

  predicate Shown(req: PollRequest, id: string) {
    exists i :: 0 <= i < |req.observed| && req.observed[i].id == id
  }

  /** Wanted on this node and not given up on: fewer than five failures in a row. */
  predicate Pursued(d: Desk, node: string, id: string) {
    id in d.world.sandboxes && d.world.sandboxes[id].nodeId == node && d.world.sandboxes[id].errorAttempts < 5
  }

  /** Where a command of each kind comes from. */
  lemma ByKind(d: Desk, req: PollRequest, names: seq<string>, ids: seq<string>, now: int, c: Command)
    requires ImageNames(d.templates, names) && IdsOn(d.world.sandboxes, req.nodeId, ids)
    ensures var asked, src := c in Commands(d, req, names, ids, now), Diffed(d, req, now).View();
            match c
            case DropTag(_) => asked <==> c in DroppedTags(d.snapshots, req.tags)
            case PullTemplate(_, _, _) => asked <==> c in PullCommands(d.templates, d.pulls, req, names)
            case Destroy(_, _) => asked <==> c in Orphans(src.sandboxes, req.observed, req.nodeId)
            case SetTier(id, _) =>
              asked <==> WantedOn(src, req.nodeId, id) && c in Asks(src, req.observed, id, req.nodeId, now)
            case SetEgress(id, _) =>
              asked <==> WantedOn(src, req.nodeId, id) && c in Asks(src, req.observed, id, req.nodeId, now)
            case Create(id, _, _, _, _, _, _, _, _, _, _) =>
              asked <==> WantedOn(src, req.nodeId, id) && c in Asks(src, req.observed, id, req.nodeId, now)
            case _ => !asked
  {
    hide PullCommands, AllAsks, DroppedTags, Orphans, Diffed, Asks;
    StillListed(d, req, names, ids, now);
    var src := Diffed(d, req, now).View();
    if c in PullCommands(d.templates, d.pulls, req, names) {
      PullsOnly(d.templates, d.pulls, req, names, c);
    }
    if c in DroppedTags(d.snapshots, req.tags) {
      DropsOnly(d.snapshots, req.tags, c);
    }
    InAllAsks(src, req.observed, ids, req.nodeId, now, c);
    InOrphans(src.sandboxes, req.observed, req.nodeId, c);
    forall i | 0 <= i < |ids| && c in Asks(src, req.observed, ids[i], req.nodeId, now)
      ensures (c.Create? || c.SetTier? || c.SetEgress?) && CommandId(c) == ids[i]
    {
      AskIsAbout(src, req.observed, ids[i], req.nodeId, now, c);
    }
    if WantedOn(src, req.nodeId, CommandId(c)) {
      var i :| 0 <= i < |ids| && ids[i] == CommandId(c);
    }
  }

  lemma {:induction false} InDropped(snapshots: Snapshots, tags: seq<string>, tag: string)
    ensures DropTag(tag) in DroppedTags(snapshots, tags) <==> tag in tags && tag !in snapshots
    decreases |tags|
  {
    if tags != [] {
      InDropped(snapshots, tags[..|tags| - 1], tag);
      assert tags == tags[..|tags| - 1] + [tags[|tags| - 1]];
    }
  }

  /** A node is told to drop exactly the tags it holds that have no record. */
  lemma TagsDropped(d: Desk, req: PollRequest, names: seq<string>, ids: seq<string>, now: int, tag: string)
    requires ImageNames(d.templates, names) && IdsOn(d.world.sandboxes, req.nodeId, ids)
    ensures DropTag(tag) in Commands(d, req, names, ids, now) <==> tag in req.tags && tag !in d.snapshots
  {
    hide Commands, ImageNames, IdsOn;
    ByKind(d, req, names, ids, now, DropTag(tag));
    InDropped(d.snapshots, req.tags, tag);
  }

  lemma {:induction false} PullOfNone(pulls: seq<TemplatePull>, name: string, attempt: nat)
    ensures PullOf(pulls, name, attempt).None?
       <==> forall i :: 0 <= i < |pulls| ==> !(pulls[i].name == name && pulls[i].attempt == attempt)
    decreases |pulls|
  {
    if pulls != [] && !(pulls[0].name == name && pulls[0].attempt == attempt) {
      PullOfNone(pulls[1..], name, attempt);
      assert pulls == [pulls[0]] + pulls[1..];
      assert forall i :: 0 < i < |pulls| ==> pulls[i] == pulls[1..][i - 1];
    }
  }

  lemma {:induction false} InPulls(templates: Templates, pulls: Pulls, req: PollRequest, names: seq<string>, c: Command)
    requires req.templates.Some?
    requires forall i :: 0 <= i < |names| ==> names[i] in templates && templates[names[i]].image.Some?
    ensures c in PullCommands(templates, pulls, req, names)
       <==> exists i :: 0 <= i < |names| && c in PullCommand(templates, pulls, req, names[i])
    decreases |names|
  {
    hide PullCommand;
    if names != [] {
      var k := |names| - 1;
      InPulls(templates, pulls, req, names[..k], c);
      if exists i :: 0 <= i < |names| && c in PullCommand(templates, pulls, req, names[i]) {
        var i :| 0 <= i < |names| && c in PullCommand(templates, pulls, req, names[i]);
        if i < k {
          assert c in PullCommand(templates, pulls, req, names[..k][i]);
        }
      }
    }
  }

  /** A node that reports templates is told to pull exactly the images of this attempt it
      has no pull of, has not failed at, and has not installed or has not finished. */
  lemma PullsAsked(d: Desk, req: PollRequest, names: seq<string>, ids: seq<string>, now: int, name: string,
                   image: string, attempt: nat)
    requires ImageNames(d.templates, names) && IdsOn(d.world.sandboxes, req.nodeId, ids)
    ensures PullTemplate(name, image, attempt) in Commands(d, req, names, ids, now) <==>
              && req.templates.Some? && name in d.templates
              && d.templates[name].image == Some(image) && d.templates[name].attempt == attempt
              && (forall i :: 0 <= i < |req.pulls| ==> req.pulls[i].name != name || req.pulls[i].attempt != attempt)
              && (PullKey(name, req.nodeId) in d.pulls ==> d.pulls[PullKey(name, req.nodeId)].error.None?)
              && (name !in req.templates.value || d.templates[name].spec.pending)
  {
    var c := PullTemplate(name, image, attempt);
    assert c in Commands(d, req, names, ids, now) <==> c in PullCommands(d.templates, d.pulls, req, names) by {
      hide Commands, ImageNames, IdsOn;
      ByKind(d, req, names, ids, now, c);
    }
    hide Commands, PullCommands, PullOf;
    if req.templates.None? {
      NoTemplatesNoPulls(d.templates, d.pulls, req, names);
    } else {
      InPulls(d.templates, d.pulls, req, names, c);
      if name in d.templates && d.templates[name].image.Some? {
        PullOfNone(req.pulls, name, d.templates[name].attempt);
        var i :| 0 <= i < |names| && names[i] == name;
      }
    }
  }

  lemma NoTemplatesNoPulls(templates: Templates, pulls: Pulls, req: PollRequest, names: seq<string>)
    requires forall i :: 0 <= i < |names| ==> names[i] in templates && templates[names[i]].image.Some?
    requires req.templates.None?
    ensures PullCommands(templates, pulls, req, names) == []
  {}

  /** What the diff reads of a sandbox is what was stored. */
  lemma WantedStill(d: Desk, req: PollRequest, now: int, id: string)
    ensures var src := Diffed(d, req, now).View();
            && (id in src.sandboxes <==> id in d.world.sandboxes)
            && (id in d.world.sandboxes ==> SameWish(src.sandboxes[id], d.world.sandboxes[id]))
            && src.agents == d.agents && src.snapshots == d.snapshots && src.templates.Keys == d.templates.Keys
  {
    DiffedKeepsIds(d, req, now);
    hide Told, RecordedAll, Pulled, SameWish;
  }

  lemma SeenIsShown(req: PollRequest, id: string)
    requires UniqueIds(req.observed)
    ensures Seen(req.observed, id).Some? <==> Shown(req, id)
    ensures forall i :: 0 <= i < |req.observed| && req.observed[i].id == id ==>
              Seen(req.observed, id) == Some(req.observed[i])
  {
    hide Seen;
    SeenIs(req.observed, id);
    forall i | 0 <= i < |req.observed| && req.observed[i].id == id
      ensures Seen(req.observed, id) == Some(req.observed[i])
    {
      SeenUnique(req.observed, i);
    }
    if Seen(req.observed, id).Some? {
      var i :| 0 <= i < |req.observed| && req.observed[i] == Seen(req.observed, id).value;
    }
  }

  /** A tier is asked for exactly of what is shown at another than is wanted. */
  lemma TiersAsked(d: Desk, req: PollRequest, names: seq<string>, ids: seq<string>, now: int, id: string, tier: Tier)
    requires ImageNames(d.templates, names) && IdsOn(d.world.sandboxes, req.nodeId, ids) && UniqueIds(req.observed)
    ensures Command.SetTier(id, tier) in Commands(d, req, names, ids, now) <==>
              && Pursued(d, req.nodeId, id) && d.world.sandboxes[id].tier == tier
              && exists i :: 0 <= i < |req.observed| && req.observed[i].id == id && req.observed[i].tier != tier
  {
    hide Commands, ImageNames, IdsOn, Diffed, Seen, FetchOf, UniqueIds;
    ByKind(d, req, names, ids, now, Command.SetTier(id, tier));
    WantedStill(d, req, now, id);
    SeenIsShown(req, id);
  }

  /** ... and its rules of what is shown under others; a node too old to say is not asked. */
  lemma RulesAsked(d: Desk, req: PollRequest, names: seq<string>, ids: seq<string>, now: int, id: string, e: Egress)
    requires ImageNames(d.templates, names) && IdsOn(d.world.sandboxes, req.nodeId, ids) && UniqueIds(req.observed)
    ensures Command.SetEgress(id, e) in Commands(d, req, names, ids, now) <==>
              && Pursued(d, req.nodeId, id) && d.world.sandboxes[id].egress == e
              && exists i :: 0 <= i < |req.observed| && req.observed[i].id == id
                             && req.observed[i].egress.Some? && req.observed[i].egress.value != e
  {
    hide Commands, ImageNames, IdsOn, Diffed, Seen, FetchOf, UniqueIds;
    ByKind(d, req, names, ids, now, Command.SetEgress(id, e));
    WantedStill(d, req, now, id);
    SeenIsShown(req, id);
  }

  /** Destroyed is exactly what is shown and not wanted on this node. */
  lemma DestroysAsked(d: Desk, req: PollRequest, names: seq<string>, ids: seq<string>, now: int, id: string,
                      netIndex: Option<nat>)
    requires ImageNames(d.templates, names) && IdsOn(d.world.sandboxes, req.nodeId, ids)
    ensures Command.Destroy(id, netIndex) in Commands(d, req, names, ids, now) <==>
              && !(id in d.world.sandboxes && d.world.sandboxes[id].nodeId == req.nodeId)
              && exists i :: 0 <= i < |req.observed| && req.observed[i].id == id && req.observed[i].netIndex == netIndex
  {
    hide Commands, ImageNames, IdsOn, Diffed, Orphans;
    var c := Command.Destroy(id, netIndex);
    ByKind(d, req, names, ids, now, c);
    WantedStill(d, req, now, id);
    var src := Diffed(d, req, now).View();
    InOrphans(src.sandboxes, req.observed, req.nodeId, c);
  }

  /** Where a tag's image is to be fetched from: the node its record names, when that is
      another one, not revoked, and one whose address the master knows. */
  predicate IsFetch(d: Desk, nodes: Nodes, fromTag: Option<string>, node: string, fetch: Option<FetchFrom>) {
    var elsewhere := fromTag.Some? && fromTag.value in d.snapshots && d.snapshots[fromTag.value].nodeId != node;
    && (fetch.Some? <==>
          && elsewhere && d.snapshots[fromTag.value].nodeId in d.agents
          && !(d.snapshots[fromTag.value].nodeId in nodes && nodes[d.snapshots[fromTag.value].nodeId].revoked))
    && (fetch.Some? ==>
          var from := d.snapshots[fromTag.value].nodeId;
          && fetch.value.nodeId == from && fetch.value.forNode == node
          && fetch.value.address == d.agents[from].address && fetch.value.certSha256 == d.agents[from].certSha256
          && fetch.value.token.secret == d.agents[from].secret)
  }

  /** Created is exactly what is wanted, not shown, not detached and of a known template,
      as its row says. */
  lemma CreatesAsked(d: Desk, req: PollRequest, names: seq<string>, ids: seq<string>, now: int, id: string)
    requires ImageNames(d.templates, names) && IdsOn(d.world.sandboxes, req.nodeId, ids) && UniqueIds(req.observed)
    ensures (exists c :: c in Commands(d, req, names, ids, now) && c.Create? && c.id == id) <==>
              && Pursued(d, req.nodeId, id) && !Shown(req, id)
              && d.world.sandboxes[id].tier != Detached && d.world.sandboxes[id].template in d.templates
  {
    hide Commands, ImageNames, IdsOn, Diffed, Seen, FetchOf, UniqueIds;
    var src := Diffed(d, req, now).View();
    WantedStill(d, req, now, id);
    SeenIsShown(req, id);
    forall c: Command | c.Create? && c.id == id
      ensures c in Commands(d, req, names, ids, now)
         <==> WantedOn(src, req.nodeId, id) && c in Asks(src, req.observed, id, req.nodeId, now)
    {
      ByKind(d, req, names, ids, now, c);
    }
    if Pursued(d, req.nodeId, id) && !Shown(req, id) && d.world.sandboxes[id].tier != Detached
       && d.world.sandboxes[id].template in d.templates {
      var c := CreateOf(src, id, req.nodeId, now);
      assert c in Asks(src, req.observed, id, req.nodeId, now);
      assert c in Commands(d, req, names, ids, now) && c.Create? && c.id == id;
    }
  }

  /** Every field of a create. */
  lemma CreateIsRow(d: Desk, req: PollRequest, names: seq<string>, ids: seq<string>, now: int, c: Command)
    requires ImageNames(d.templates, names) && IdsOn(d.world.sandboxes, req.nodeId, ids)
    requires c in Commands(d, req, names, ids, now) && c.Create?
    ensures c.id in d.world.sandboxes && c.template in Diffed(d, req, now).templates
    ensures var want, spec := d.world.sandboxes[c.id], Diffed(d, req, now).templates[c.template].spec;
            && c.template == want.template && c.volume == want.volume && c.netIndex == want.netIndex
            && c.fromTag == want.fromTag && c.gatewayPort == want.gatewayPort && c.token == want.token
            && c.egress == want.egress
            && c.port == (if want.port.Some? then want.port.value else 8080)
            && c.spec == spec.(memoryMaxMib := if want.memoryLimitMib.Some? then want.memoryLimitMib
                                               else spec.memoryMaxMib)
            && IsFetch(d, Diffed(d, req, now).world.nodes, want.fromTag, req.nodeId, c.fetch)
  {
    hide Commands, ImageNames, IdsOn, Diffed, Seen, FetchExpiry;
    ByKind(d, req, names, ids, now, c);
    WantedStill(d, req, now, c.id);
  }

  // ---- in what order, and once ----------------------------------------------------------

  /** Pulls come first, then what each wanted sandbox needs, then destructions, then tags. */
  function Turn(c: Command): nat {
    match c
    case PullTemplate(_, _, _) => 0
    case Destroy(_, _) => 2
    case DropTag(_) => 3
    case _ => 1
  }

  ghost predicate Distinct(cs: seq<Command>) {
    forall i, j :: 0 <= i < j < |cs| ==> cs[i] != cs[j]
  }

  ghost predicate InTurn(cs: seq<Command>) {
    forall i, j :: 0 <= i < j < |cs| ==> Turn(cs[i]) <= Turn(cs[j])
  }

  lemma Appended(a: seq<Command>, b: seq<Command>)
    requires Distinct(a) && Distinct(b) && forall x, y :: x in a && y in b ==> x != y
    ensures Distinct(a + b)
  {
    var all := a + b;
    forall i, j | 0 <= i < j < |all|
      ensures all[i] != all[j]
    {
      if i < |a| <= j {
        assert all[i] in a && all[j] in b;
      }
    }
  }

  lemma AppendedInTurn(a: seq<Command>, b: seq<Command>)
    requires InTurn(a) && InTurn(b) && forall x, y :: x in a && y in b ==> Turn(x) <= Turn(y)
    ensures InTurn(a + b)
  {
    hide Turn;
    var all := a + b;
    forall i, j | 0 <= i < j < |all|
      ensures Turn(all[i]) <= Turn(all[j])
    {
      if i < |a| <= j {
        assert all[i] in a && all[j] in b;
      }
    }
  }

  lemma {:induction false} PullsDistinct(templates: Templates, pulls: Pulls, req: PollRequest, names: seq<string>)
    requires forall i :: 0 <= i < |names| ==> names[i] in templates && templates[names[i]].image.Some?
    requires forall i, j :: 0 <= i < j < |names| ==> names[i] != names[j]
    ensures Distinct(PullCommands(templates, pulls, req, names))
    ensures forall c :: c in PullCommands(templates, pulls, req, names) ==> c.PullTemplate? && c.name in names
    decreases |names|
  {
    if names != [] {
      PullsDistinct(templates, pulls, req, names[..|names| - 1]);
    }
  }

  lemma {:induction false} AsksDistinct(src: Source, observed: seq<Observed>, ids: seq<string>, node: string, now: int)
    requires forall i :: 0 <= i < |ids| ==> ids[i] in src.sandboxes
    requires forall i, j :: 0 <= i < j < |ids| ==> ids[i] != ids[j]
    ensures Distinct(AllAsks(src, observed, ids, node, now))
    ensures forall c :: c in AllAsks(src, observed, ids, node, now) ==> Turn(c) == 1 && CommandId(c) in ids
    decreases |ids|
  {
    if ids != [] {
      var k := |ids| - 1;
      AsksDistinct(src, observed, ids[..k], node, now);
      OneAskDistinct(src, observed, ids[k], node, now);
      hide Asks;
      forall c | c in Asks(src, observed, ids[k], node, now)
        ensures Turn(c) == 1 && CommandId(c) == ids[k]
      {
        AskIsAbout(src, observed, ids[k], node, now, c);
      }
      Appended(AllAsks(src, observed, ids[..k], node, now), Asks(src, observed, ids[k], node, now));
    }
  }

  lemma OneAskDistinct(src: Source, observed: seq<Observed>, id: string, node: string, now: int)
    requires id in src.sandboxes
    ensures Distinct(Asks(src, observed, id, node, now))
  {
    hide Seen, CreateOf;
  }

  lemma {:induction false} OrphansDistinct(sandboxes: Sandboxes, observed: seq<Observed>, node: string)
    requires UniqueIds(observed)
    ensures Distinct(Orphans(sandboxes, observed, node))
    ensures forall c :: c in Orphans(sandboxes, observed, node) ==>
              c.Destroy? && exists i :: 0 <= i < |observed| && observed[i].id == c.id
    decreases |observed|
  {
    if observed != [] {
      var k := |observed| - 1;
      OrphansDistinct(sandboxes, observed[..k], node);
      forall c | c in Orphans(sandboxes, observed[..k], node)
        ensures c.Destroy? && (exists i :: 0 <= i < k && observed[i].id == c.id)
      {
        var i :| 0 <= i < k && observed[..k][i].id == c.id;
        assert observed[i].id == c.id;
      }
    }
  }

  lemma {:induction false} DropsDistinct(snapshots: Snapshots, tags: seq<string>)
    requires forall i, j :: 0 <= i < j < |tags| ==> tags[i] != tags[j]
    ensures Distinct(DroppedTags(snapshots, tags))
    ensures forall c :: c in DroppedTags(snapshots, tags) ==> c.DropTag? && c.tag in tags
    decreases |tags|
  {
    if tags != [] {
      DropsDistinct(snapshots, tags[..|tags| - 1]);
    }
  }

  lemma SameTurn(cs: seq<Command>, turn: nat)
    requires forall c :: c in cs ==> Turn(c) == turn
    ensures InTurn(cs)
  {}

  /** A report that names each of its sandboxes and tags once is answered with each command
      once: pulls first, then what the wanted sandboxes need, then what to destroy, then
      the tags to drop. */
  lemma AskedOnceInTurn(d: Desk, req: PollRequest, names: seq<string>, ids: seq<string>, now: int)
    requires ImageNames(d.templates, names) && IdsOn(d.world.sandboxes, req.nodeId, ids) && UniqueIds(req.observed)
    requires forall i, j :: 0 <= i < j < |req.tags| ==> req.tags[i] != req.tags[j]
    ensures Distinct(Commands(d, req, names, ids, now)) && InTurn(Commands(d, req, names, ids, now))
  {
    hide PullCommands, AllAsks, DroppedTags, Orphans, Diffed, Distinct, InTurn;
    StillListed(d, req, names, ids, now);
    var src := Diffed(d, req, now).View();
    var a, b := PullCommands(d.templates, d.pulls, req, names), AllAsks(src, req.observed, ids, req.nodeId, now);
    var c, e := Orphans(src.sandboxes, req.observed, req.nodeId), DroppedTags(d.snapshots, req.tags);
    PullsDistinct(d.templates, d.pulls, req, names);
    AsksDistinct(src, req.observed, ids, req.nodeId, now);
    OrphansDistinct(src.sandboxes, req.observed, req.nodeId);
    DropsDistinct(d.snapshots, req.tags);
    SameTurn(a, 0);
    SameTurn(b, 1);
    SameTurn(c, 2);
    SameTurn(e, 3);
    FourParts(a, b, c, e);
    assert Commands(d, req, names, ids, now) == a + (b + c) + e;
  }

  lemma FourParts(a: seq<Command>, b: seq<Command>, c: seq<Command>, e: seq<Command>)
    requires Distinct(a) && Distinct(b) && Distinct(c) && Distinct(e)
    requires InTurn(a) && InTurn(b) && InTurn(c) && InTurn(e)
    requires forall x :: x in a ==> Turn(x) == 0
    requires forall x :: x in b ==> Turn(x) == 1
    requires forall x :: x in c ==> Turn(x) == 2
    requires forall x :: x in e ==> Turn(x) == 3
    ensures Distinct(a + (b + c) + e) && InTurn(a + (b + c) + e)
  {
    hide Distinct, InTurn, Turn;
    Appended(b, c);
    AppendedInTurn(b, c);
    Appended(a, b + c);
    AppendedInTurn(a, b + c);
    Appended(a + (b + c), e);
    AppendedInTurn(a + (b + c), e);
  }

  // ---- what a report leaves ---------------------------------------------------------------

  /** A report's fingerprint moves pools; nothing else of any node. */
  lemma RefingerprintTouches(w: World, id: string, fp: string, t: int, n: string)
    requires n in w.nodes
    ensures n in Refingerprinted(w, id, fp, t).nodes
    ensures var was, row := w.nodes[n], Refingerprinted(w, id, fp, t).nodes[n];
            && row == was.(pool := row.pool, fingerprint := row.fingerprint)
            && row.fingerprint == (if n == id then fp else was.fingerprint)
  {
    hide BaseOf, Derived, Noted, OnlyFingerprint;
  }

  /** The readings of a report are the reporting node's, which is up from then; every
      other node keeps its own, and no row comes or goes. */
  lemma NodeIsMeasured(d: Desk, req: PollRequest, now: int, n: string)
    requires n in d.world.nodes
    ensures n in Diffed(d, req, now).world.nodes
    ensures var was, row := d.world.nodes[n], Diffed(d, req, now).world.nodes[n];
            && row.maxSandboxes == was.maxSandboxes && row.revoked == was.revoked
            && (n == req.nodeId ==>
                  row.connected && row.lastSeenAt == now && row.freeMib == req.freeMib && row.psi == req.pressure)
            && (n != req.nodeId ==>
                  && row.connected == was.connected && row.lastSeenAt == was.lastSeenAt
                  && row.freeMib == was.freeMib && row.psi == was.psi && row.fingerprint == was.fingerprint)
            && (n == req.nodeId ==>
                  row.fingerprint == (if req.fingerprint.Some? && req.fingerprint.value != "" then req.fingerprint.value
                                     else was.fingerprint))
  {
    hide Refingerprinted, WithIps, PulledAll, RecordedAll, Kept;
    if req.fingerprint.Some? {
      RefingerprintTouches(Measured(d.world, req, now), req.nodeId, req.fingerprint.value, now, n);
    }
  }

  /** What a report says of a node's features, templates and host is kept for that node
      alone, and only when it says something. */
  lemma ReportIsKept(d: Desk, req: PollRequest, now: int, n: string)
    ensures var after := Diffed(d, req, now);
            && (n != req.nodeId || req.features == [] ==> SameAt(after.features, d.features, n))
            && (n == req.nodeId && req.features != [] ==> n in after.features && after.features[n] == req.features)
            && (n != req.nodeId || req.templates.None? ==> SameAt(after.installed, d.installed, n))
            && (n == req.nodeId && req.templates.Some? ==>
                  n in after.installed && after.installed[n] == req.templates.value)
            && (n != req.nodeId || req.host.None? || n !in d.world.nodes ==> SameAt(after.hosts, d.hosts, n))
            && after.agents == d.agents && after.snapshots == d.snapshots
  {}

  /** A host is stored unless it is what was stored last. */
  lemma HostIsKept(d: Desk, req: PollRequest, now: int)
    requires req.host.Some? && req.nodeId in d.world.nodes
    requires req.nodeId in d.seenHosts ==> req.nodeId in d.hosts && d.hosts[req.nodeId] == d.seenHosts[req.nodeId]
    ensures var after := Diffed(d, req, now);
            && req.nodeId in after.hosts && after.hosts[req.nodeId] == req.host.value
            && req.nodeId in after.seenHosts && after.seenHosts[req.nodeId] == req.host.value
  {
    hide Told, PulledAll, RecordedAll;
  }

  predicate SameAt<T(==)>(a: map<string, T>, b: map<string, T>, n: string) {
    (n in a <==> n in b) && (n in a ==> a[n] == b[n])
  }

  /** A sandbox has the address the report gives it, and else the one it had. */
  lemma AddressIsTaken(d: Desk, req: PollRequest, now: int, id: string)
    requires id in d.world.sandboxes && UniqueIds(req.observed)
    ensures id in Diffed(d, req, now).world.sandboxes
    ensures var row := Diffed(d, req, now).world.sandboxes[id];
            && (forall i :: 0 <= i < |req.observed| && req.observed[i].id == id && req.observed[i].ip.Some? ==>
                  row.ip == req.observed[i].ip)
            && ((forall i :: 0 <= i < |req.observed| && req.observed[i].id == id ==> req.observed[i].ip.None?) ==>
                  row.ip == d.world.sandboxes[id].ip)
  {
    hide Refingerprinted, PulledAll, RecordedAll, Kept, WithIps;
    var w := Refigured(Measured(d.world, req, now), req, now);
    DiffedKeepsIds(d, req, now);
    IpsUntouched(d, req, now, id);
    IpAt(w.sandboxes, req.observed, id);
  }

  lemma IpsUntouched(d: Desk, req: PollRequest, now: int, id: string)
    requires id in d.world.sandboxes
    ensures var w := Refigured(Measured(d.world, req, now), req, now);
            id in w.sandboxes && w.sandboxes[id].ip == d.world.sandboxes[id].ip
  {
    hide BaseOf, Derived, Noted, OnlyFingerprint;
  }

  lemma {:induction false} IpAt(sandboxes: Sandboxes, observed: seq<Observed>, id: string)
    requires id in sandboxes && UniqueIds(observed)
    ensures id in WithIps(sandboxes, observed)
    ensures forall i :: 0 <= i < |observed| && observed[i].id == id && observed[i].ip.Some? ==>
              WithIps(sandboxes, observed)[id].ip == observed[i].ip
    ensures (forall i :: 0 <= i < |observed| && observed[i].id == id ==> observed[i].ip.None?) ==>
              WithIps(sandboxes, observed)[id].ip == sandboxes[id].ip
    decreases |observed|
  {
    if observed != [] {
      var k := |observed| - 1;
      assert forall i :: 0 <= i < k ==> observed[..k][i] == observed[i];
      IpAt(sandboxes, observed[..k], id);
    }
  }

  // ---- image pulls ----------------------------------------------------------------------------

  /** A pull reported of the template's latest attempt, the first if there are several. */
  predicate IsPull(d: Desk, req: PollRequest, name: string, i: nat)
    requires name in d.templates
  {
    && i < |req.pulls| && req.pulls[i].name == name && req.pulls[i].attempt == d.templates[name].attempt
    && forall j :: 0 <= j < i ==> req.pulls[j].name != name || req.pulls[j].attempt != d.templates[name].attempt
  }

  /** It ended with an image that names no program, for a caller who gave none. */
  predicate NamesNoProgram(p: TemplatePull, asked: Spec) {
    p.done && p.config.Some? && p.config.value.args == [] && asked.args == []
  }

  lemma {:induction false} PullOfIs(pulls: seq<TemplatePull>, name: string, attempt: nat, i: nat)
    requires i < |pulls| && pulls[i].name == name && pulls[i].attempt == attempt
    requires forall j :: 0 <= j < i ==> pulls[j].name != name || pulls[j].attempt != attempt
    ensures PullOf(pulls, name, attempt) == Some(pulls[i])
    decreases |pulls|
  {
    if i > 0 {
      PullOfIs(pulls[1..], name, attempt, i - 1);
    }
  }

  /** What a report's pull leaves: its outcome, counted a failure when it names no program
      to run, and a spec that was pending finished -- the caller's program and port over
      the image's, the caller's environment after it -- unless it failed. */
  lemma PullIsTaken(d: Desk, req: PollRequest, now: int, name: string, i: nat)
    requires name in d.templates && d.templates[name].image.Some? && req.templates.Some? && IsPull(d, req, name, i)
    ensures var after, p, asked := Diffed(d, req, now), req.pulls[i], d.templates[name].spec;
            var failed := p.error.Some? || NamesNoProgram(p, asked);
            && PullKey(name, req.nodeId) in after.pulls && name in after.templates
            && after.pulls[PullKey(name, req.nodeId)].attempt == p.attempt
            && after.pulls[PullKey(name, req.nodeId)].done == p.done
            && (after.pulls[PullKey(name, req.nodeId)].error.Some? <==> failed)
            && (p.error.Some? ==> after.pulls[PullKey(name, req.nodeId)].error == p.error)
            && after.templates[name].image == d.templates[name].image
            && after.templates[name].attempt == d.templates[name].attempt
            && (if asked.pending && p.config.Some? && !failed
                then FinishedBy(after.templates[name].spec, asked, p.config.value)
                else after.templates[name].spec == asked)
  {
    hide PullOf, Told, Kept;
    PullOfIs(req.pulls, name, d.templates[name].attempt, i);
  }

  /** `done` is what was asked for, with the image's own account where nothing was. */
  predicate FinishedBy(done: Spec, asked: Spec, c: ImageConfig) {
    && !done.pending && done.memoryMaxMib == asked.memoryMaxMib && done.cwd == c.cwd
    && (asked.args != [] ==> done.args == asked.args) && (asked.args == [] ==> done.args == c.args)
    && (asked.port.Some? ==> done.port == asked.port) && (asked.port.None? ==> done.port == c.port)
    && |done.env| == |c.env| + |asked.env| && c.env <= done.env && done.env[|c.env|..] == asked.env
  }

  /** Without one, nothing is recorded of the template on this node, and nothing ever of
      it on another. */
  lemma NoPullNoChange(d: Desk, req: PollRequest, now: int, k: PullKey)
    requires || k.nodeId != req.nodeId || req.templates.None? || k.template !in d.templates
             || d.templates[k.template].image.None?
             || forall i :: 0 <= i < |req.pulls| ==>
                  req.pulls[i].name != k.template || req.pulls[i].attempt != d.templates[k.template].attempt
    ensures var after := Diffed(d, req, now);
            && (k in after.pulls <==> k in d.pulls) && (k in d.pulls ==> after.pulls[k] == d.pulls[k])
            && (k.nodeId == req.nodeId && k.template in d.templates ==>
                  k.template in after.templates && after.templates[k.template] == d.templates[k.template])
  {
    hide PullOf, Told, Kept;
    if k.template in d.templates {
      PullOfNone(req.pulls, k.template, d.templates[k.template].attempt);
    }
  }

  /** A template is never finished by a completed pull that leaves it no program to run. */
  lemma FinishedHasProgram(d: Desk, req: PollRequest, now: int, name: string)
    requires name in d.templates && d.templates[name].spec.pending
    requires forall i :: 0 <= i < |req.pulls| ==> (req.pulls[i].config.Some? ==> req.pulls[i].done)
    ensures name in Diffed(d, req, now).templates
    ensures var spec := Diffed(d, req, now).templates[name].spec;
            !spec.pending ==> spec.args != []
  {
    hide Told, Kept;
    PullOfListed(req.pulls, name, d.templates[name].attempt);
  }

  lemma {:induction false} PullOfListed(pulls: seq<TemplatePull>, name: string, attempt: nat)
    ensures PullOf(pulls, name, attempt).Some? ==> PullOf(pulls, name, attempt).value in pulls
    decreases |pulls|
  {
    if pulls != [] {
      PullOfListed(pulls[1..], name, attempt);
    }
  }
}
