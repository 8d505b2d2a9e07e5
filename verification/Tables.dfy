/** The rows of the master's store, one map per table keyed as the table is. */
module Tables {
  import opened Wrappers
  import opened Tiers
  import opened Egresses

  /** A registered node, and its latest readings. */
  datatype NodeRow = NodeRow(
    pool: string, fingerprint: string, maxSandboxes: nat, lastSeenAt: int, connected: bool,
    freeMib: nat, psi: real, revoked: bool)

  /** Desired state for one sandbox. */
  datatype SandboxRow = SandboxRow(
    nodeId: string, pool: string, template: string, tier: Tier, token: string, volume: Option<string>,
    port: Option<nat>, createdAt: int, lastActiveAt: int, lastError: Option<string>, errorAttempts: nat,
    netIndex: Option<nat>, ip: Option<string>, fromTag: Option<string>, memoryLimitMib: Option<nat>,
    gatewayPort: Option<nat>, egress: Egress)

  /** A short-lived token a new node redeems once. */
  datatype TokenRow = TokenRow(pool: string, expiresAt: int, consumedAt: Option<int>, nodeId: Option<string>)

  /** The parts of a node's host that the master reads. */
  datatype HostInfo = HostInfo(engine: string, kernel: string)

  /** A driven node's address, certificate and pairing secret. */
  datatype AgentRow = AgentRow(address: string, certSha256: string, secret: string)

  /** A tag's record: whose disk the image is on, and the fingerprint it restores under
      if it was noted. */
  datatype SnapshotRow = SnapshotRow(nodeId: string, template: string, fingerprint: Option<string>, port: Option<nat>)

  /** How to run a template. `pending` until a pull has said what the image is. */
  datatype Spec = Spec(
    pending: bool, args: seq<string>, env: seq<string>, cwd: Option<string>, memoryMaxMib: Option<nat>,
    port: Option<nat>)

  /** A template, with its image and the number of the latest pull if it has one. */
  datatype TemplateRow = TemplateRow(spec: Spec, image: Option<string>, attempt: nat)

  /** The outcome of a pull on one node. */
  datatype PullRow = PullRow(attempt: nat, done: bool, error: Option<string>)

  datatype PullKey = PullKey(template: string, nodeId: string)

  type Hosts = map<string, HostInfo>
  type Agents = map<string, AgentRow>
  type Snapshots = map<string, SnapshotRow>
  type Templates = map<string, TemplateRow>
  type Pulls = map<PullKey, PullRow>
  type Nodes = map<string, NodeRow>
  type Sandboxes = map<string, SandboxRow>
  type Tokens = map<string, TokenRow>
}
