/** Report, diff, carry out, again: with desired state fixed a node comes to hold
    what is wanted of it in three rounds, and is then asked for nothing. */
module Convergence {
  import opened Wrappers
  import opened Tiers
  import opened Egresses
  import opened Tables
  import opened Protocol
  import opened Reconcile
  import opened DiffTwice
  import opened Slots

  // ---- the node ----------------------------------------------------------------------

  /** A sandbox on the node: its tier and, from a node that keeps them, its rules. */
  datatype Held = Held(tier: Tier, egress: Option<Egress>)

  type Holding = map<string, Held>

  /** A full report of what the node holds. */
  ghost predicate Reports(req: PollRequest, held: Holding) {
    && UniqueIds(req.observed)
    && (forall i :: 0 <= i < |req.observed| ==>
          && req.observed[i].id in held
          && Held(req.observed[i].tier, req.observed[i].egress) == held[req.observed[i].id])
    && (forall id :: id in held ==> exists i :: 0 <= i < |req.observed| && req.observed[i].id == id)
  }

  lemma SeenHeld(req: PollRequest, held: Holding, id: string)
    requires Reports(req, held)
    ensures Seen(req.observed, id).Some? <==> id in held
    ensures id in held ==>
              && Seen(req.observed, id).value in req.observed && Seen(req.observed, id).value.id == id
              && Held(Seen(req.observed, id).value.tier, Seen(req.observed, id).value.egress) == held[id]
  {
    hide Seen;
    SeenIs(req.observed, id);
    if id in held {
      var i :| 0 <= i < |req.observed| && req.observed[i].id == id;
      SeenUnique(req.observed, i);
    }
  }

  /** Some way towards the tier asked for: colder by at least a step and not past it,
      or warm -- promotion goes to Hot -- and no colder than asked. */
  predicate Towards(have: Tier, want: Tier, got: Tier) {
    if Warmer(have, want) then Warmer(have, got) && got.Rank() <= want.Rank()
    else if Warmer(want, have) then got.Rank() <= want.Rank()
    else got == have
  }

  /** What carrying out the commands about one sandbox comes to. Nothing is held at
      Detached: that tier is nothing on any node. */
  ghost predicate CarriedOut(held: Holding, cs: seq<Command>, after: Holding, id: string) {
    if exists c :: c in cs && c.Destroy? && c.id == id then id !in after
    else if exists c :: c in cs && c.Create? && c.id == id then
      exists c :: c in cs && c.Create? && c.id == id
                  && id in after && after[id].tier == Hot
                  && (after[id].egress.None? || after[id].egress.value == c.egress)
    else if id in held then Changed(held[id], cs, id, if id in after then Some(after[id]) else None)
    else id !in after
  }

  ghost predicate Changed(have: Held, cs: seq<Command>, id: string, now: Option<Held>) {
    exists got: Tier :: ChangedTo(have, cs, id, now, got)
  }

  ghost predicate ChangedTo(have: Held, cs: seq<Command>, id: string, now: Option<Held>, got: Tier) {
    && (if exists c :: c in cs && c.SetTier? && c.id == id
        then exists c :: c in cs && c.SetTier? && c.id == id && Towards(have.tier, c.tier, got)
        else got == have.tier)
    && (if got == Detached && have.tier != Detached then now.None?
        else
          && now.Some? && now.value.tier == got
          && (if exists c :: c in cs && c.SetEgress? && c.id == id
              then exists c :: c in cs && c.SetEgress? && c.id == id && now.value.egress == Some(c.egress)
              else now.value.egress == have.egress))
  }

  /** One round on the node: the sandboxes it got to are as told, the rest as before. */
  ghost predicate Executes(held: Holding, cs: seq<Command>, did: set<string>, after: Holding) {
    forall id ::
      if id in did then CarriedOut(held, cs, after, id)
      else (id in after <==> id in held) && (id in held ==> after[id] == held[id])
  }

  // ---- what is asked about one sandbox ----------------------------------------------------

  predicate AboutSandbox(c: Command) {
    c.Create? || c.SetTier? || c.SetEgress? || c.Destroy?
  }

  lemma {:induction false} InAllAsks(src: Source, observed: seq<Observed>, ids: seq<string>, node: string, now: int,
                                     c: Command)
    requires forall i :: 0 <= i < |ids| ==> ids[i] in src.sandboxes
    ensures c in AllAsks(src, observed, ids, node, now)
       <==> exists i :: 0 <= i < |ids| && c in Asks(src, observed, ids[i], node, now)
    decreases |ids|
  {
    hide Asks;
    if ids != [] {
      var k := |ids| - 1;
      InAllAsks(src, observed, ids[..k], node, now, c);
      if exists i :: 0 <= i < |ids| && c in Asks(src, observed, ids[i], node, now) {
        var i :| 0 <= i < |ids| && c in Asks(src, observed, ids[i], node, now);
        if i < k {
          assert c in Asks(src, observed, ids[..k][i], node, now);
        }
      }
    }
  }

  lemma {:induction false} InOrphans(sandboxes: Sandboxes, observed: seq<Observed>, node: string, c: Command)
    ensures c in Orphans(sandboxes, observed, node)
       <==> exists o :: o in observed && c == Destroy(o.id, o.netIndex)
                        && !(o.id in sandboxes && sandboxes[o.id].nodeId == node)
    decreases |observed|
  {
    if observed != [] {
      var k := |observed| - 1;
      InOrphans(sandboxes, observed[..k], node, c);
      assert observed == observed[..k] + [observed[k]];
    }
  }

  lemma {:induction false} PullsOnly(templates: Templates, pulls: Pulls, req: PollRequest, names: seq<string>,
                                     c: Command)
    requires forall i :: 0 <= i < |names| ==> names[i] in templates && templates[names[i]].image.Some?
    requires c in PullCommands(templates, pulls, req, names)
    ensures c.PullTemplate?
    decreases |names|
  {
    if c in PullCommands(templates, pulls, req, names[..|names| - 1]) {
      PullsOnly(templates, pulls, req, names[..|names| - 1], c);
    }
  }

  lemma {:induction false} DropsOnly(snapshots: Snapshots, tags: seq<string>, c: Command)
    requires c in DroppedTags(snapshots, tags)
    ensures c.DropTag?
    decreases |tags|
  {
    if c in DroppedTags(snapshots, tags[..|tags| - 1]) {
      DropsOnly(snapshots, tags[..|tags| - 1], c);
    }
  }

  predicate WantedOn(src: Source, node: string, id: string) {
    id in src.sandboxes && src.sandboxes[id].nodeId == node
  }

  /** The commands about a sandbox are what is asked for it, or its destruction when
      it is held and not wanted. */
  lemma InSandboxCommands(src: Source, req: PollRequest, held: Holding, ids: seq<string>, now: int, c: Command)
    requires IdsOn(src.sandboxes, req.nodeId, ids) && Reports(req, held)
    ensures c in SandboxCommands(src, req, ids, now) ==> AboutSandbox(c)
    ensures AboutSandbox(c) && WantedOn(src, req.nodeId, CommandId(c)) ==>
              (c in SandboxCommands(src, req, ids, now)
               <==> c in Asks(src, req.observed, CommandId(c), req.nodeId, now))
    ensures AboutSandbox(c) && !WantedOn(src, req.nodeId, CommandId(c)) && c in SandboxCommands(src, req, ids, now) ==>
              c.Destroy? && c.id in held
  {
    hide Asks, Seen;
    InAllAsks(src, req.observed, ids, req.nodeId, now, c);
    InOrphans(src.sandboxes, req.observed, req.nodeId, c);
    forall i | 0 <= i < |ids| && c in Asks(src, req.observed, ids[i], req.nodeId, now)
      ensures AboutSandbox(c) && CommandId(c) == ids[i] && !c.Destroy?
    {
      AskIsAbout(src, req.observed, ids[i], req.nodeId, now, c);
    }
    if AboutSandbox(c) && WantedOn(src, req.nodeId, CommandId(c)) {
      var i :| 0 <= i < |ids| && ids[i] == CommandId(c);
    }
  }

  lemma AskIsAbout(src: Source, observed: seq<Observed>, id: string, node: string, now: int, c: Command)
    requires id in src.sandboxes && c in Asks(src, observed, id, node, now)
    ensures (c.Create? || c.SetTier? || c.SetEgress?) && CommandId(c) == id
  {
    hide Seen, FetchOf;
  }

  /** No two creates of one answer are given one network slot or one gateway port,
      and every one has a slot of the node's plan. */
  lemma CreatesApart(src: Source, req: PollRequest, held: Holding, ids: seq<string>, now: int, plan: Plan,
                     a: Command, b: Command)
    requires IdsOn(src.sandboxes, req.nodeId, ids) && Reports(req, held) && SlotsOk(src.sandboxes, plan)
    requires a in SandboxCommands(src, req, ids, now) && b in SandboxCommands(src, req, ids, now)
    requires a.Create? && b.Create? && a.id != b.id
    ensures a.netIndex.Some? && a.netIndex.value <= plan.maxNetIndex && a.netIndex != b.netIndex
    ensures a.gatewayPort.Some? ==>
              plan.portLo <= a.gatewayPort.value <= plan.portHi && a.gatewayPort != b.gatewayPort
  {
    hide Seen, FetchOf, SandboxCommands, Reports, IdsOn;
    InSandboxCommands(src, req, held, ids, now, a);
    InSandboxCommands(src, req, held, ids, now, b);
    assert Apart(src.sandboxes[a.id], src.sandboxes[b.id]) && SlotInRange(src.sandboxes[a.id], plan);
  }

  /** A create asks for what is wanted and not held: this sandbox's own template, slots,
      token, rules and tag, and the caller's memory ceiling over its template's. */
  lemma CreateIsWanted(src: Source, req: PollRequest, held: Holding, ids: seq<string>, now: int, c: Command)
    requires IdsOn(src.sandboxes, req.nodeId, ids) && Reports(req, held)
    requires c in SandboxCommands(src, req, ids, now) && c.Create?
    ensures WantedOn(src, req.nodeId, c.id) && c.id !in held
    ensures var want := src.sandboxes[c.id];
            && want.tier != Detached && want.errorAttempts < MAX_FAILURES
            && c.template == want.template && want.template in src.templates
            && c.netIndex == want.netIndex && c.gatewayPort == want.gatewayPort && c.token == want.token
            && c.egress == want.egress && c.fromTag == want.fromTag && c.volume == want.volume
            && (want.port.Some? ==> c.port == want.port.value) && (want.port.None? ==> c.port == 8080)
            && c.spec.memoryMaxMib == (if want.memoryLimitMib.Some? then want.memoryLimitMib
                                       else src.templates[want.template].spec.memoryMaxMib)
            && (c.fetch.Some? ==> want.fromTag.Some? && c.fetch.value.forNode == req.nodeId != c.fetch.value.nodeId)
  {
    hide Seen, SandboxCommands, Reports, IdsOn, FetchExpiry;
    InSandboxCommands(src, req, held, ids, now, c);
    SeenHeld(req, held, c.id);
  }

  // ---- how far a sandbox is from what is wanted ------------------------------------------------

  /** Steps between tiers: down one at a time, or up to Hot and down from there. */
  function Dist(have: Tier, want: Tier): nat {
    if have.Rank() <= want.Rank() then want.Rank() - have.Rank() else 1 + want.Rank()
  }

  function RulesOff(have: Option<Egress>, want: Egress): nat {
    if have.Some? && have.value != want then 1 else 0
  }

  function Max(a: nat, b: nat): nat {
    if a < b then b else a
  }

  /** Rounds still needed for one sandbox. */
  function Off(src: Source, held: Holding, node: string, id: string): (n: nat)
    ensures n <= 3
  {
    if !WantedOn(src, node, id) then (if id in held then 1 else 0)
    else
      var want := src.sandboxes[id];
      if want.errorAttempts >= MAX_FAILURES then 0
      else if id in held then Max(Dist(held[id].tier, want.tier), RulesOff(held[id].egress, want.egress))
      else if want.tier == Detached || want.template !in src.templates then 0
      else 1 + want.tier.Rank()
  }

  /** Everything not quarantined agrees with the report, and nothing else is held. */
  ghost predicate Agrees(src: Source, held: Holding, node: string) {
    && (forall id :: WantedOn(src, node, id) && src.sandboxes[id].errorAttempts < MAX_FAILURES ==>
          if id in held
          then held[id].tier == src.sandboxes[id].tier
               && (held[id].egress.Some? ==> held[id].egress.value == src.sandboxes[id].egress)
          else src.sandboxes[id].tier == Detached || src.sandboxes[id].template !in src.templates)
    && (forall id :: id in held ==> WantedOn(src, node, id))
  }

  lemma AskedIsOff(src: Source, req: PollRequest, held: Holding, id: string, now: int)
    requires Reports(req, held) && WantedOn(src, req.nodeId, id)
    ensures Asks(src, req.observed, id, req.nodeId, now) == [] <==> Off(src, held, req.nodeId, id) == 0
  {
    hide Seen, Reports, CreateOf;
    SeenHeld(req, held, id);
    TierRanks();
  }

  lemma TierRanks()
    ensures forall a: Tier, b: Tier :: a.Rank() == b.Rank() <==> a == b
    ensures forall a: Tier :: a.Rank() == 3 <==> a == Detached
  {}

  /** The diff asks for nothing about sandboxes exactly when every sandbox that is not
      quarantined agrees in tier and reported rules -- a detached one is not held, and
      one whose template is gone is let be -- and nothing undesired is held. */
  lemma QuietIffAgrees(src: Source, req: PollRequest, held: Holding, ids: seq<string>, now: int)
    requires IdsOn(src.sandboxes, req.nodeId, ids) && Reports(req, held)
    ensures SandboxCommands(src, req, ids, now) == [] <==> Agrees(src, held, req.nodeId)
    ensures SandboxCommands(src, req, ids, now) == [] <==> forall id :: Off(src, held, req.nodeId, id) == 0
  {
    OffIsAgreement(src, held, req.nodeId);
    hide Asks, Seen, SandboxCommands, Off, Agrees;
    if SandboxCommands(src, req, ids, now) == [] {
      forall id
        ensures Off(src, held, req.nodeId, id) == 0
      {
        QuietAt(src, req, held, ids, now, id);
      }
    }
    if forall id :: Off(src, held, req.nodeId, id) == 0 {
      var cs := SandboxCommands(src, req, ids, now);
      if cs != [] {
        NoneAsked(src, req, held, ids, now, cs[0]);
      }
    }
  }

  lemma OffIsAgreement(src: Source, held: Holding, node: string)
    ensures Agrees(src, held, node) <==> forall id :: Off(src, held, node, id) == 0
  {
    TierRanks();
    if forall id :: Off(src, held, node, id) == 0 {
      forall id
        ensures id in held ==> WantedOn(src, node, id)
        ensures WantedOn(src, node, id) && src.sandboxes[id].errorAttempts < MAX_FAILURES ==>
                  if id in held
                  then held[id].tier == src.sandboxes[id].tier
                       && (held[id].egress.Some? ==> held[id].egress.value == src.sandboxes[id].egress)
                  else src.sandboxes[id].tier == Detached || src.sandboxes[id].template !in src.templates
      {
        assert Off(src, held, node, id) == 0;
      }
    }
  }

  lemma QuietAt(src: Source, req: PollRequest, held: Holding, ids: seq<string>, now: int, id: string)
    requires IdsOn(src.sandboxes, req.nodeId, ids) && Reports(req, held)
    requires SandboxCommands(src, req, ids, now) == []
    ensures Off(src, held, req.nodeId, id) == 0
  {
    hide Asks, Seen, SandboxCommands;
    if WantedOn(src, req.nodeId, id) {
      var asks := Asks(src, req.observed, id, req.nodeId, now);
      if asks != [] {
        AskIsAbout(src, req.observed, id, req.nodeId, now, asks[0]);
        InSandboxCommands(src, req, held, ids, now, asks[0]);
      }
      AskedIsOff(src, req, held, id, now);
    } else if id in held {
      HeldIsDestroyed(src, req, held, ids, now, id);
    }
  }

  lemma HeldIsDestroyed(src: Source, req: PollRequest, held: Holding, ids: seq<string>, now: int, id: string)
    requires IdsOn(src.sandboxes, req.nodeId, ids) && Reports(req, held)
    requires id in held && !WantedOn(src, req.nodeId, id)
    ensures exists c :: c in SandboxCommands(src, req, ids, now) && c.Destroy? && c.id == id
  {
    hide Asks, Seen;
    SeenHeld(req, held, id);
    var o := Seen(req.observed, id).value;
    InOrphans(src.sandboxes, req.observed, req.nodeId, Destroy(id, o.netIndex));
    assert Destroy(id, o.netIndex) in SandboxCommands(src, req, ids, now);
  }

  lemma NoneAsked(src: Source, req: PollRequest, held: Holding, ids: seq<string>, now: int, c: Command)
    requires IdsOn(src.sandboxes, req.nodeId, ids) && Reports(req, held)
    requires c in SandboxCommands(src, req, ids, now)
    ensures AboutSandbox(c) && Off(src, held, req.nodeId, CommandId(c)) > 0
  {
    hide Asks, Seen, SandboxCommands;
    InSandboxCommands(src, req, held, ids, now, c);
    if WantedOn(src, req.nodeId, CommandId(c)) {
      AskedIsOff(src, req, held, CommandId(c), now);
    }
  }

  // ---- a round brings it nearer -------------------------------------------------------------------

  /** The commands about one sandbox, in whatever answer they came. */
  ghost predicate SameAbout(cs: seq<Command>, ds: seq<Command>) {
    forall c :: AboutSandbox(c) ==> (c in cs <==> c in ds)
  }

  lemma AnswerIsAbout(d: Desk, req: PollRequest, names: seq<string>, ids: seq<string>, now: int)
    requires ImageNames(d.templates, names) && IdsOn(d.world.sandboxes, req.nodeId, ids)
    ensures IdsOn(Diffed(d, req, now).world.sandboxes, req.nodeId, ids)
    ensures SameAbout(Commands(d, req, names, ids, now), SandboxCommands(Diffed(d, req, now).View(), req, ids, now))
  {
    hide SandboxCommands, Diffed, PullCommands, DroppedTags;
    StillListed(d, req, names, ids, now);
    forall c | AboutSandbox(c)
      ensures c in Commands(d, req, names, ids, now)
         <==> c in SandboxCommands(Diffed(d, req, now).View(), req, ids, now)
    {
      if c in PullCommands(d.templates, d.pulls, req, names) {
        PullsOnly(d.templates, d.pulls, req, names, c);
      }
      if c in DroppedTags(d.snapshots, req.tags) {
        DropsOnly(d.snapshots, req.tags, c);
      }
    }
  }

  /** A sandbox that is wanted: one round brings it one nearer, or it was there. */
  lemma WantedNearer(src: Source, req: PollRequest, held: Holding, cs: seq<Command>, after: Holding, id: string,
                     now: int)
    requires Reports(req, held) && WantedOn(src, req.nodeId, id) && CarriedOut(held, cs, after, id)
    requires forall c :: AboutSandbox(c) && CommandId(c) == id ==>
               (c in cs <==> c in Asks(src, req.observed, id, req.nodeId, now))
    ensures Off(src, after, req.nodeId, id) == 0 || Off(src, after, req.nodeId, id) < Off(src, held, req.nodeId, id)
  {
    hide Seen, Reports, UniqueIds, Changed;
    SeenHeld(req, held, id);
    var asks := Asks(src, req.observed, id, req.nodeId, now);
    assert forall c :: c in asks ==> !c.Destroy?;
    if id !in held {
      NotHeldNearer(src, req, held, cs, after, id, now);
    } else {
      assert forall c :: c in asks ==> !c.Create?;
      HeldNearer(src, req, held, cs, after, id, now);
    }
  }

  lemma NotHeldNearer(src: Source, req: PollRequest, held: Holding, cs: seq<Command>, after: Holding, id: string,
                      now: int)
    requires WantedOn(src, req.nodeId, id) && CarriedOut(held, cs, after, id)
    requires Seen(req.observed, id).None? && id !in held
    requires forall c :: AboutSandbox(c) && CommandId(c) == id ==>
               (c in cs <==> c in Asks(src, req.observed, id, req.nodeId, now))
    ensures Off(src, after, req.nodeId, id) == 0 || Off(src, after, req.nodeId, id) < Off(src, held, req.nodeId, id)
  {
    hide Seen, FetchOf;
    var asks := Asks(src, req.observed, id, req.nodeId, now);
    assert forall c :: c in asks ==> c.Create? && c.id == id && c.egress == src.sandboxes[id].egress;
    assert asks != [] ==> asks[0] in cs;
  }

  lemma HeldNearer(src: Source, req: PollRequest, held: Holding, cs: seq<Command>, after: Holding, id: string, now: int)
    requires WantedOn(src, req.nodeId, id) && id in held
    requires Changed(held[id], cs, id, if id in after then Some(after[id]) else None)
    requires Seen(req.observed, id).Some?
    requires Held(Seen(req.observed, id).value.tier, Seen(req.observed, id).value.egress) == held[id]
    requires forall c :: AboutSandbox(c) && CommandId(c) == id ==>
               (c in cs <==> c in Asks(src, req.observed, id, req.nodeId, now))
    ensures Off(src, after, req.nodeId, id) == 0 || Off(src, after, req.nodeId, id) < Off(src, held, req.nodeId, id)
  {
    hide Seen;
    var want := src.sandboxes[id];
    if want.errorAttempts < MAX_FAILURES {
      var have := held[id];
      var asks := Asks(src, req.observed, id, req.nodeId, now);
      assert have.tier != want.tier ==> SetTier(id, want.tier) in asks;
      assert forall c :: c in asks && c.SetTier? ==> c.tier == want.tier && have.tier != want.tier;
      assert RulesOff(have.egress, want.egress) == 1 ==> SetEgress(id, want.egress) in asks;
      assert forall c :: c in asks && c.SetEgress? ==>
               c.egress == want.egress && RulesOff(have.egress, want.egress) == 1;
      ChangedNearer(have, cs, id, if id in after then Some(after[id]) else None, want.tier, want.egress);
    }
  }

  lemma ChangedNearer(have: Held, cs: seq<Command>, id: string, now: Option<Held>, tier: Tier, egress: Egress)
    requires Changed(have, cs, id, now)
    requires (exists c :: c in cs && c.SetTier? && c.id == id) <==> have.tier != tier
    requires forall c :: c in cs && c.SetTier? && c.id == id ==> c.tier == tier
    requires (exists c :: c in cs && c.SetEgress? && c.id == id) <==> RulesOff(have.egress, egress) == 1
    requires forall c :: c in cs && c.SetEgress? && c.id == id ==> c.egress == egress
    ensures now.None? ==> tier == Detached
    ensures now.Some? ==>
              var off, was := Max(Dist(now.value.tier, tier), RulesOff(now.value.egress, egress)),
                              Max(Dist(have.tier, tier), RulesOff(have.egress, egress));
              off == 0 || off < was
  {
    TierRanks();
  }

  /** Any sandbox: one round carried out brings it one nearer, or it was there. */
  lemma Nearer(d: Desk, req: PollRequest, held: Holding, names: seq<string>, ids: seq<string>, now: int,
               did: set<string>, after: Holding, id: string)
    requires ImageNames(d.templates, names) && IdsOn(d.world.sandboxes, req.nodeId, ids) && Reports(req, held)
    requires Executes(held, Commands(d, req, names, ids, now), did, after)
    ensures var src := Diffed(d, req, now).View();
            && (id !in did ==> Off(src, after, req.nodeId, id) == Off(src, held, req.nodeId, id))
            && (id in did ==> Off(src, after, req.nodeId, id) == 0
                              || Off(src, after, req.nodeId, id) < Off(src, held, req.nodeId, id))
  {
    hide Seen, Diffed, Commands, SandboxCommands, Asks, Reports;
    var src := Diffed(d, req, now).View();
    var cs := Commands(d, req, names, ids, now);
    AnswerIsAbout(d, req, names, ids, now);
    if id in did {
      assert CarriedOut(held, cs, after, id);
      hide CarriedOut, Executes, Off, IdsOn;
      if WantedOn(src, req.nodeId, id) {
        forall c | AboutSandbox(c) && CommandId(c) == id
          ensures c in cs <==> c in Asks(src, req.observed, id, req.nodeId, now)
        {
          InSandboxCommands(src, req, held, ids, now, c);
        }
        WantedNearer(src, req, held, cs, after, id, now);
      } else {
        UnwantedNearer(src, req, held, cs, after, ids, id, now);
      }
    }
  }

  lemma UnwantedNearer(src: Source, req: PollRequest, held: Holding, cs: seq<Command>, after: Holding,
                       ids: seq<string>, id: string, now: int)
    requires IdsOn(src.sandboxes, req.nodeId, ids) && Reports(req, held)
    requires SameAbout(cs, SandboxCommands(src, req, ids, now))
    requires !WantedOn(src, req.nodeId, id) && CarriedOut(held, cs, after, id)
    ensures Off(src, after, req.nodeId, id) == 0
  {
    hide Seen, SandboxCommands, Reports, IdsOn, Changed;
    if id in held {
      HeldIsDestroyed(src, req, held, ids, now, id);
    } else {
      forall c | c in cs && AboutSandbox(c) && CommandId(c) == id
        ensures c.Destroy?
      {
        InSandboxCommands(src, req, held, ids, now, c);
      }
    }
  }

  // ---- whole runs ------------------------------------------------------------------------------------

  /** A diff moves nothing of what is wanted, so nothing of how far off the node is. */
  lemma OffStable(d: Desk, req: PollRequest, now: int, held: Holding, node: string, id: string)
    ensures Off(Diffed(d, req, now).View(), held, node, id) == Off(d.View(), held, node, id)
  {
    hide Told, Kept, RecordedAll, Pulled, Dist, RulesOff;
    DiffedKeepsIds(d, req, now);
  }

  /** One round: the report, the rows in the order they are listed, the time, which
      sandboxes the node got to, and what it holds then. */
  datatype Round = Round(req: PollRequest, names: seq<string>, ids: seq<string>, now: int, did: set<string>,
                         after: Holding)

  ghost predicate MayRound(d: Desk, held: Holding, node: string, r: Round) {
    && r.req.nodeId == node && Reports(r.req, held)
    && ImageNames(d.templates, r.names) && IdsOn(d.world.sandboxes, node, r.ids)
    && Executes(held, Commands(d, r.req, r.names, r.ids, r.now), r.did, r.after)
  }

  ghost predicate MayRounds(d: Desk, held: Holding, node: string, rs: seq<Round>)
    decreases |rs|
  {
    rs != [] ==> MayRound(d, held, node, rs[0])
                 && MayRounds(Diffed(d, rs[0].req, rs[0].now), rs[0].after, node, rs[1..])
  }

  function DeskAfter(d: Desk, rs: seq<Round>): Desk
    decreases |rs|
  {
    if rs == [] then d else DeskAfter(Diffed(d, rs[0].req, rs[0].now), rs[1..])
  }

  function HeldAfter(held: Holding, rs: seq<Round>): Holding {
    if rs == [] then held else rs[|rs| - 1].after
  }

  /** The node got to everything it was told about this sandbox. */
  ghost predicate GotTo(d: Desk, r: Round, id: string)
    requires ImageNames(d.templates, r.names) && IdsOn(d.world.sandboxes, r.req.nodeId, r.ids)
  {
    (exists c :: c in Commands(d, r.req, r.names, r.ids, r.now) && AboutSandbox(c) && CommandId(c) == id) ==>
      id in r.did
  }

  ghost predicate GetsToAll(d: Desk, held: Holding, node: string, rs: seq<Round>)
    requires MayRounds(d, held, node, rs)
    decreases |rs|
  {
    rs != [] ==> (forall id :: GotTo(d, rs[0], id))
                 && GetsToAll(Diffed(d, rs[0].req, rs[0].now), rs[0].after, node, rs[1..])
  }

  /** Something is asked about every sandbox that is off. */
  lemma OffIsAsked(d: Desk, held: Holding, node: string, r: Round, id: string)
    requires MayRound(d, held, node, r) && Off(d.View(), held, node, id) > 0
    ensures exists c :: c in Commands(d, r.req, r.names, r.ids, r.now) && AboutSandbox(c) && CommandId(c) == id
  {
    hide Seen, Diffed, SandboxCommands, Asks, Reports, Executes, Off, Commands;
    var src := Diffed(d, r.req, r.now).View();
    AnswerIsAbout(d, r.req, r.names, r.ids, r.now);
    OffStable(d, r.req, r.now, held, node, id);
    hide IdsOn;
    if WantedOn(src, node, id) {
      AskedIsOff(src, r.req, held, id, r.now);
      var c := Asks(src, r.req.observed, id, node, r.now)[0];
      AskIsAbout(src, r.req.observed, id, node, r.now, c);
      InSandboxCommands(src, r.req, held, r.ids, r.now, c);
    } else {
      OffIsHeld(src, held, node, id);
      HeldIsDestroyed(src, r.req, held, r.ids, r.now, id);
    }
  }

  lemma OffIsHeld(src: Source, held: Holding, node: string, id: string)
    requires !WantedOn(src, node, id) && Off(src, held, node, id) > 0
    ensures id in held
  {}

  lemma RoundNearer(d: Desk, held: Holding, node: string, r: Round, id: string)
    requires MayRound(d, held, node, r)
    ensures var next := Diffed(d, r.req, r.now);
            && Off(next.View(), r.after, node, id) <= Off(d.View(), held, node, id)
            && (id in r.did && Off(d.View(), held, node, id) > 0 ==>
                  Off(next.View(), r.after, node, id) < Off(d.View(), held, node, id))
  {
    hide Seen, Diffed, Reports, Executes, Off, Commands, IdsOn;
    Nearer(d, r.req, held, r.names, r.ids, r.now, r.did, r.after, id);
    OffStable(d, r.req, r.now, held, node, id);
  }

  /** Each round the node carries out in full takes one from how far off it is. */
  lemma {:induction false} RoundsNearer(d: Desk, held: Holding, node: string, rs: seq<Round>, id: string)
    requires MayRounds(d, held, node, rs) && GetsToAll(d, held, node, rs)
    ensures var off := Off(DeskAfter(d, rs).View(), HeldAfter(held, rs), node, id);
            off == 0 || off + |rs| <= Off(d.View(), held, node, id)
    decreases |rs|
  {
    hide Diffed, Reports, Executes, Off, Commands, IdsOn;
    if rs != [] {
      var next := Diffed(d, rs[0].req, rs[0].now);
      RoundNearer(d, held, node, rs[0], id);
      RoundsNearer(next, rs[0].after, node, rs[1..], id);
      if Off(d.View(), held, node, id) > 0 {
        OffIsAsked(d, held, node, rs[0], id);
        assert GotTo(d, rs[0], id);
      }
    }
  }

  /** Reconciliation converges: with desired state left alone, after any three rounds
      carried out in full the next diff asks for nothing about any sandbox. */
  lemma ThreeRoundsSettle(d: Desk, held: Holding, node: string, rs: seq<Round>, req: PollRequest, ids: seq<string>,
                          now: int)
    requires MayRounds(d, held, node, rs) && GetsToAll(d, held, node, rs) && |rs| >= 3
    requires req.nodeId == node && Reports(req, HeldAfter(held, rs))
    requires IdsOn(Diffed(DeskAfter(d, rs), req, now).world.sandboxes, node, ids)
    ensures SandboxCommands(Diffed(DeskAfter(d, rs), req, now).View(), req, ids, now) == []
    ensures Agrees(DeskAfter(d, rs).View(), HeldAfter(held, rs), node)
  {
    hide Diffed, Reports, Off, IdsOn, SandboxCommands, DeskAfter, HeldAfter, MayRounds, GetsToAll, Agrees;
    var last, holds := DeskAfter(d, rs), HeldAfter(held, rs);
    var src := Diffed(last, req, now).View();
    forall id
      ensures Off(src, holds, node, id) == 0 && Off(last.View(), holds, node, id) == 0
    {
      RoundsNearer(d, held, node, rs, id);
      OffStable(last, req, now, holds, node, id);
    }
    QuietIffAgrees(src, req, holds, ids, now);
    OffIsAgreement(last.View(), holds, node);
  }

  /** What a round leaves alone: a sandbox that was as wanted. */
  lemma SettledUntouched(d: Desk, held: Holding, node: string, r: Round, id: string)
    requires MayRound(d, held, node, r) && Off(d.View(), held, node, id) == 0
    ensures id in r.after <==> id in held
    ensures id in held ==> r.after[id] == held[id]
  {
    hide Seen, Diffed, SandboxCommands, Asks, Reports, Off, Commands;
    var src := Diffed(d, r.req, r.now).View();
    var cs := Commands(d, r.req, r.names, r.ids, r.now);
    AnswerIsAbout(d, r.req, r.names, r.ids, r.now);
    OffStable(d, r.req, r.now, held, node, id);
    forall c | AboutSandbox(c) && CommandId(c) == id
      ensures c !in cs
    {
      if c in cs {
        NoneAsked(src, r.req, held, r.ids, r.now, c);
      }
    }
  }

  /** A detached sandbox the node does not hold is never made again. */
  lemma {:induction false} DetachedStaysGone(d: Desk, held: Holding, node: string, rs: seq<Round>, id: string)
    requires MayRounds(d, held, node, rs) && id !in held
    requires WantedOn(d.View(), node, id) && d.world.sandboxes[id].tier == Detached
    ensures id !in HeldAfter(held, rs)
    decreases |rs|
  {
    hide Diffed, MayRound;
    if rs != [] {
      SettledUntouched(d, held, node, rs[0], id);
      DiffedKeepsIds(d, rs[0].req, rs[0].now);
      DetachedStaysGone(Diffed(d, rs[0].req, rs[0].now), rs[0].after, node, rs[1..], id);
    }
  }

  /** How far off the node is over all of `ids`. */
  function Total(src: Source, held: Holding, node: string, ids: seq<string>): nat {
    if ids == [] then 0 else Off(src, held, node, ids[0]) + Total(src, held, node, ids[1..])
  }

  /** A round never takes the node further off, and brings it strictly nearer when it
      got to any sandbox it was asked about, however few the others it got to. */
  lemma {:induction false} MeasureFalls(d: Desk, held: Holding, node: string, r: Round, ids: seq<string>, id: string)
    requires MayRound(d, held, node, r)
    ensures Total(Diffed(d, r.req, r.now).View(), r.after, node, ids) <= Total(d.View(), held, node, ids)
    ensures id in ids && id in r.did && Off(d.View(), held, node, id) > 0 ==>
              Total(Diffed(d, r.req, r.now).View(), r.after, node, ids) < Total(d.View(), held, node, ids)
    decreases |ids|
  {
    hide Diffed, MayRound, Off;
    if ids != [] {
      RoundNearer(d, held, node, r, ids[0]);
      MeasureFalls(d, held, node, r, ids[1..], id);
    }
  }
}
