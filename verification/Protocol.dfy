/** What a node reports and what it is told. */
module Protocol {
  import opened Wrappers
  import opened Tiers
  import opened Egresses
  import opened Tables

  /** What running an image takes, by its own account. */
  datatype ImageConfig = ImageConfig(args: seq<string>, env: seq<string>, cwd: Option<string>, port: Option<nat>)

  /** How far a node is with one attempt at pulling a template, or how that ended. */
  datatype TemplatePull = TemplatePull(name: string, attempt: nat, done: bool, error: Option<string>,
                                       config: Option<ImageConfig>)

  /** A sandbox on the reporting node; old nodes report no `egress`. */
  datatype Observed = Observed(id: string, tier: Tier, ip: Option<string>, netIndex: Option<nat>,
                               egress: Option<Egress>)

  /** A command delayed on the node, and the milliseconds left. */
  datatype Deferred = Deferred(id: string, retryInMs: nat)

  /** A failed command with its run of failures; one merely held back, the node being
      short of memory, is no failure. */
  datatype CommandFailure = CommandFailure(id: string, error: string, attempts: nat, heldBack: bool)

  datatype PollRequest = PollRequest(
    nodeId: string, observed: seq<Observed>, freeMib: nat, pressure: real,
    failures: seq<CommandFailure>, deferred: seq<Deferred>,
    traffic: seq<string>, evicted: seq<string>, features: seq<string>, tags: seq<string>,
    host: Option<HostInfo>, fingerprint: Option<string>, templates: Option<seq<string>>,
    pulls: seq<TemplatePull>)

  /** The signature over these four fields, which no other four share. */
  datatype FetchToken = FetchToken(secret: string, tag: string, forNode: string, expires: int)

  /** The node to copy a tag's image from, and the leave to do so. */
  datatype FetchFrom = FetchFrom(nodeId: string, address: string, certSha256: string, forNode: string,
                                 expires: int, token: FetchToken)

  datatype Command =
    | Create(id: string, template: string, spec: Spec, port: nat, volume: Option<string>, netIndex: Option<nat>,
             fromTag: Option<string>, gatewayPort: Option<nat>, token: string, fetch: Option<FetchFrom>,
             egress: Egress)
    | PullTemplate(name: string, image: string, attempt: nat)
    | SetEgress(id: string, egress: Egress)
    | SetTier(id: string, tier: Tier)
    | Destroy(id: string, netIndex: Option<nat>)
    | Branch(id: string, tag: string, resultId: string)
    | DropTag(tag: string)
    | Exec(execId: string, id: string, args: seq<string>, timeoutSecs: nat)
    | SetBackend(backend: string, resultId: string)

  /** What a command is about, as a node's deferrals name it. */
  function CommandId(c: Command): string {
    match c
    case Create(id, _, _, _, _, _, _, _, _, _, _) => id
    case PullTemplate(name, _, _) => name
    case SetEgress(id, _) => id
    case SetTier(id, _) => id
    case Destroy(id, _) => id
    case Branch(id, _, _) => id
    case DropTag(tag) => tag
    case Exec(_, id, _, _) => id
    case SetBackend(_, resultId) => resultId
  }

  /** A command to be carried out once, answered under its own id; any other says
      what should be, and may be said again. */
  predicate RunOnce(c: Command) {
    c.Branch? || c.Exec? || c.SetBackend?
  }

  function ResultId(c: Command): string
    requires RunOnce(c)
  {
    match c
    case Branch(_, _, resultId) => resultId
    case Exec(execId, _, _, _) => execId
    case SetBackend(_, resultId) => resultId
  }

  /** The run-once commands waiting for one node. */
  function QueueOf(queues: map<string, seq<Command>>, node: string): seq<Command> {
    if node in queues then queues[node] else []
  }

  /** What a report says of one sandbox. */
  function Seen(observed: seq<Observed>, id: string): Option<Observed> {
    if observed == [] then None
    else if observed[0].id == id then Some(observed[0])
    else Seen(observed[1..], id)
  }

  lemma {:induction false} SeenIs(observed: seq<Observed>, id: string)
    ensures Seen(observed, id).Some? ==> Seen(observed, id).value in observed && Seen(observed, id).value.id == id
    ensures Seen(observed, id).None? <==> forall o :: o in observed ==> o.id != id
    decreases |observed|
  {
    if observed != [] && observed[0].id != id {
      SeenIs(observed[1..], id);
      assert observed == [observed[0]] + observed[1..];
    }
  }

  ghost predicate UniqueIds(observed: seq<Observed>) {
    forall i, j :: 0 <= i < j < |observed| ==> observed[i].id != observed[j].id
  }

  lemma {:induction false} SeenUnique(observed: seq<Observed>, i: nat)
    requires UniqueIds(observed) && i < |observed|
    ensures Seen(observed, observed[i].id) == Some(observed[i])
    decreases |observed|
  {
    if i > 0 {
      SeenUnique(observed[1..], i - 1);
    }
  }
}
