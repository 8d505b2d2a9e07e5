/** Running a diff again on the same report changes nothing more and asks for the
    same things, so a driver that compares its batches can settle. */
module DiffTwice {
  import opened Wrappers
  import opened Tables
  import opened PoolHistory
  import opened Pools
  import opened Protocol
  import opened Switching
  import opened Reconcile

  // ---- image pulls ------------------------------------------------------------------

  /** A pull finishes a pending spec at most once. */
  lemma PulledTwice(req: PollRequest, name: string, t: TemplateRow)
    ensures var u := Pulled(t, ReportedPull(req, name, t));
            && ReportedPull(req, name, u) == ReportedPull(req, name, t)
            && Pulled(u, ReportedPull(req, name, u)) == u
            && (ReportedPull(req, name, t).Some? ==>
                  PullError(ReportedPull(req, name, t).value, u.spec)
                  == PullError(ReportedPull(req, name, t).value, t.spec))
  {
    hide PullOf;
  }

  lemma PulledAllTwice(templates: Templates, req: PollRequest)
    ensures PulledAll(PulledAll(templates, req), req) == PulledAll(templates, req)
  {
    hide Pulled, ReportedPull;
    forall n | n in templates
      ensures PulledAll(PulledAll(templates, req), req)[n] == PulledAll(templates, req)[n]
    {
      PulledTwice(req, n, templates[n]);
    }
  }

  lemma RecordedAllTwice(pulls: Pulls, templates: Templates, req: PollRequest)
    ensures RecordedAll(RecordedAll(pulls, templates, req), PulledAll(templates, req), req)
         == RecordedAll(pulls, templates, req)
  {
    hide Names, PullRowOf;
    forall k
      ensures Names(PulledAll(templates, req), req, k) == Names(templates, req, k)
      ensures Names(templates, req, k) ==> SameRow(templates, req, k)
    {
      NamesTwice(templates, req, k);
    }
  }

  /** Recording a pull again writes the row it wrote. */
  predicate SameRow(templates: Templates, req: PollRequest, k: PullKey) {
    && k.template in templates && ReportedPull(req, k.template, templates[k.template]).Some?
    && ReportedPull(req, k.template, PulledAll(templates, req)[k.template])
       == ReportedPull(req, k.template, templates[k.template])
    && PullRowOf(ReportedPull(req, k.template, templates[k.template]).value, PulledAll(templates, req)[k.template].spec)
       == PullRowOf(ReportedPull(req, k.template, templates[k.template]).value, templates[k.template].spec)
  }

  lemma NamesTwice(templates: Templates, req: PollRequest, k: PullKey)
    ensures Names(PulledAll(templates, req), req, k) == Names(templates, req, k)
    ensures Names(templates, req, k) ==> SameRow(templates, req, k)
  {
    hide Pulled, ReportedPull, PullError;
    if k.template in templates {
      PulledTwice(req, k.template, templates[k.template]);
    }
  }

  lemma PullCommandTwice(templates: Templates, pulls: Pulls, req: PollRequest, name: string)
    requires name in templates && templates[name].image.Some? && req.templates.Some?
    ensures var once := PulledAll(templates, req);
            && once[name].image.Some?
            && PullCommand(once, RecordedAll(pulls, templates, req), req, name)
               == PullCommand(templates, pulls, req, name)
  {
    hide PullError, PullOf, PullRowOf;
    PulledTwice(req, name, templates[name]);
  }

  lemma {:induction false} PullCommandsTwice(templates: Templates, pulls: Pulls, req: PollRequest, names: seq<string>)
    requires forall i :: 0 <= i < |names| ==> names[i] in templates && templates[names[i]].image.Some?
    ensures var once := PulledAll(templates, req);
            && (forall i :: 0 <= i < |names| ==> names[i] in once && once[names[i]].image.Some?)
            && PullCommands(once, RecordedAll(pulls, templates, req), req, names)
               == PullCommands(templates, pulls, req, names)
    decreases |names|
  {
    hide RecordedAll, PullCommand, ReportedPull;
    if req.templates.Some? && names != [] {
      PullCommandsTwice(templates, pulls, req, names[..|names| - 1]);
      PullCommandTwice(templates, pulls, req, names[|names| - 1]);
    }
  }

  // ---- addresses ----------------------------------------------------------------------

  function LastIp(observed: seq<Observed>, id: string): Option<string> {
    if observed == [] then None
    else if observed[|observed| - 1].id == id && observed[|observed| - 1].ip.Some? then observed[|observed| - 1].ip
    else LastIp(observed[..|observed| - 1], id)
  }

  lemma {:induction false} WithIpsAt(sandboxes: Sandboxes, observed: seq<Observed>, id: string)
    requires id in sandboxes
    ensures WithIps(sandboxes, observed).Keys == sandboxes.Keys
    ensures WithIps(sandboxes, observed)[id]
         == if LastIp(observed, id).Some? then sandboxes[id].(ip := LastIp(observed, id)) else sandboxes[id]
    decreases |observed|
  {
    if observed != [] {
      WithIpsAt(sandboxes, observed[..|observed| - 1], id);
    }
  }

  lemma WithIpsTwice(sandboxes: Sandboxes, observed: seq<Observed>)
    ensures WithIps(WithIps(sandboxes, observed), observed) == WithIps(sandboxes, observed)
  {
    hide WithIps, LastIp;
    var once := WithIps(sandboxes, observed);
    WithIpsKeeps(sandboxes, observed);
    WithIpsKeeps(once, observed);
    forall id | id in sandboxes
      ensures WithIps(once, observed)[id] == once[id]
    {
      WithIpsAt(sandboxes, observed, id);
      WithIpsAt(once, observed, id);
    }
  }

  // ---- the node's own row -----------------------------------------------------------------

  /** A world but for when one node was last seen. */
  function Stamped(w: World, id: string, t: int): World {
    if id !in w.nodes then w else w.(nodes := w.nodes[id := w.nodes[id].(lastSeenAt := t)])
  }

  lemma RefingerprintedNodes(w: World, id: string, fp: string, t: int)
    requires id in w.nodes && w.nodes[id].fingerprint != fp
    ensures var base, target := BaseOf(w.nodes[id].pool), Target(w.nodes, id, fp);
            var moved := w.nodes[id := w.nodes[id].(fingerprint := fp, pool := target)];
            Refingerprinted(w, id, fp, t).nodes
            == if target == base then Renamed(moved, Derived(base, fp), base) else moved
  {
    hide BaseOf, Derived, Noted, Target, Renamed, Repooled;
  }

  lemma RefingerprintedRow(w: World, id: string, fp: string, t: int)
    ensures Refingerprinted(w, id, fp, t).nodes.Keys == w.nodes.Keys
    ensures forall n :: n in w.nodes ==>
              var after := Refingerprinted(w, id, fp, t).nodes[n];
              after == w.nodes[n].(pool := after.pool, fingerprint := after.fingerprint)
    ensures id in w.nodes ==> Refingerprinted(w, id, fp, t).nodes[id].fingerprint == fp
  {
    hide BaseOf, Derived, Target, Moved, Merged;
    if id in w.nodes && w.nodes[id].fingerprint != fp {
      RefingerprintedNodes(w, id, fp, t);
    }
  }

  lemma RefiguredRow(w: World, req: PollRequest, now: int)
    ensures Refigured(w, req, now).nodes.Keys == w.nodes.Keys
    ensures forall n :: n in w.nodes ==>
              var after := Refigured(w, req, now).nodes[n];
              after == w.nodes[n].(pool := after.pool, fingerprint := after.fingerprint)
    ensures req.nodeId in w.nodes && req.fingerprint.Some? && req.fingerprint.value != "" ==>
              Refigured(w, req, now).nodes[req.nodeId].fingerprint == req.fingerprint.value
  {
    hide Refingerprinted;
    if req.fingerprint.Some? {
      RefingerprintedRow(w, req.nodeId, req.fingerprint.value, now);
    }
  }

  /** A world that already shows what the report says of its node. */
  predicate Settled(w: World, req: PollRequest) {
    req.nodeId in w.nodes ==>
      var n := w.nodes[req.nodeId];
      && n.connected && n.freeMib == req.freeMib && n.psi == req.pressure
      && (req.fingerprint.Some? && req.fingerprint.value != "" ==> n.fingerprint == req.fingerprint.value)
  }

  lemma SettledStays(w: World, req: PollRequest, later: int)
    requires Settled(w, req)
    ensures Refigured(Measured(w, req, later), req, later) == Stamped(w, req.nodeId, later)
  {
    hide Moved, Merged, Target, BaseOf, Derived;
  }

  lemma WorldTwice(w: World, req: PollRequest, now: int, later: int)
    ensures var once := Told(w, req, now);
            && once.nodes.Keys == w.nodes.Keys
            && Told(once, req, later) == Stamped(once, req.nodeId, later)
  {
    hide Refigured, WithIps;
    var moved := Refigured(Measured(w, req, now), req, now);
    var once := Addressed(moved, req);
    RefiguredRow(Measured(w, req, now), req, now);
    assert Settled(once, req);
    SettledStays(once, req, later);
    WithIpsTwice(moved.sandboxes, req.observed);
  }

  // ---- the whole desk ------------------------------------------------------------------------

  /** Running a diff again on one report changes nothing more in the store, but for
      when its node was last seen. */
  lemma DiffIsIdempotent(d: Desk, req: PollRequest, now: int, later: int)
    ensures var once := Diffed(d, req, now);
            Diffed(once, req, later) == once.(world := Stamped(once.world, req.nodeId, later))
  {
    hide Told, Kept, PulledAll, RecordedAll;
    var once := Diffed(d, req, now);
    WorldTwice(d.world, req, now, later);
    PulledAllTwice(d.templates, req);
    RecordedAllTwice(d.pulls, d.templates, req);
    var measured := d.(world := Measured(d.world, req, now));
    var again := once.(world := Measured(once.world, req, later));
    KeptRest(measured, req);
    KeptTwice(measured, again, req);
  }

  lemma KeptRest(d: Desk, req: PollRequest)
    ensures var k := Kept(d, req);
            k.world == d.world && k.templates == d.templates && k.pulls == d.pulls
  {
    hide BackendOfEngine;
  }

  /** What a report says of its node is the same said twice, whatever became of the
      other tables meanwhile. */
  lemma KeptTwice(d: Desk, e: Desk, req: PollRequest)
    requires e.world.nodes.Keys == d.world.nodes.Keys
    requires Kept(d, req) == e.(world := d.world, templates := d.templates, pulls := d.pulls)
    ensures Kept(e, req) == e
  {
    hide BackendOfEngine;
  }

  /** What a diff reads from two views that differ only in when a node was last seen. */
  predicate SameSource(a: Source, b: Source) {
    && a.sandboxes == b.sandboxes && a.agents == b.agents && a.templates == b.templates
    && a.snapshots == b.snapshots && a.nodes.Keys == b.nodes.Keys
    && forall n :: n in a.nodes ==> a.nodes[n].revoked == b.nodes[n].revoked
  }

  lemma SameAsks(a: Source, b: Source, observed: seq<Observed>, id: string, node: string, now: int, later: int)
    requires SameSource(a, b) && FetchExpiry(now) == FetchExpiry(later) && id in a.sandboxes
    ensures Asks(a, observed, id, node, now) == Asks(b, observed, id, node, later)
  {
    hide FetchExpiry;
  }

  lemma {:induction false} SameAllAsks(a: Source, b: Source, observed: seq<Observed>, ids: seq<string>, node: string,
                                       now: int, later: int)
    requires SameSource(a, b) && FetchExpiry(now) == FetchExpiry(later)
    requires forall i :: 0 <= i < |ids| ==> ids[i] in a.sandboxes
    ensures AllAsks(a, observed, ids, node, now) == AllAsks(b, observed, ids, node, later)
    decreases |ids|
  {
    hide Asks, FetchExpiry, SameSource;
    SameRows(a, b);
    if ids != [] {
      SameAllAsks(a, b, observed, ids[..|ids| - 1], node, now, later);
      SameAsks(a, b, observed, ids[|ids| - 1], node, now, later);
    }
  }

  lemma SameRows(a: Source, b: Source)
    requires SameSource(a, b)
    ensures a.sandboxes == b.sandboxes
  {}

  lemma StampedIsSame(d: Desk, id: string, t: int)
    ensures SameSource(d.View(), d.(world := Stamped(d.world, id, t)).View())
  {}

  /** Within one expiry bucket the second diff of a report asks for exactly what the
      first did. */
  lemma DiffAsksTheSame(d: Desk, req: PollRequest, names: seq<string>, ids: seq<string>, now: int, later: int)
    requires ImageNames(d.templates, names) && IdsOn(d.world.sandboxes, req.nodeId, ids)
    requires FetchExpiry(now) == FetchExpiry(later)
    ensures var once := Diffed(d, req, now);
            && ImageNames(once.templates, names) && IdsOn(once.world.sandboxes, req.nodeId, ids)
            && Commands(once, req, names, ids, later) == Commands(d, req, names, ids, now)
  {
    var once := Diffed(d, req, now);
    StillListed(d, req, names, ids, now);
    DiffIsIdempotent(d, req, now, later);
    DiffedKeepsIds(d, req, now);
    DiffedKeepsIds(once, req, later);
    PullCommandsTwice(d.templates, d.pulls, req, names);
    StampedIsSame(once, req.nodeId, later);
    hide FetchExpiry, Asks, SameSource, Stamped, ImageNames, IdsOn, PullCommands, PulledAll, RecordedAll, Told, Kept,
         AllAsks, Orphans, DroppedTags;
    ListedIds(d.world.sandboxes, req.nodeId, ids);
    SameRows(once.View(), Diffed(once, req, later).View());
    SameAllAsks(once.View(), Diffed(once, req, later).View(), req.observed, ids, req.nodeId, now, later);
  }

  lemma ListedIds(sandboxes: Sandboxes, node: string, ids: seq<string>)
    requires IdsOn(sandboxes, node, ids)
    ensures forall i :: 0 <= i < |ids| ==> ids[i] in sandboxes
  {}

  lemma StillListed(d: Desk, req: PollRequest, names: seq<string>, ids: seq<string>, now: int)
    requires ImageNames(d.templates, names) && IdsOn(d.world.sandboxes, req.nodeId, ids)
    ensures ImageNames(Diffed(d, req, now).templates, names)
    ensures IdsOn(Diffed(d, req, now).world.sandboxes, req.nodeId, ids)
  {
    hide Told, Kept, RecordedAll, ReportedPull, PullError;
    DiffedKeepsIds(d, req, now);
  }
}
