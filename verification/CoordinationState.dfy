/**
 The coordination state of one node agent: mutation leases with their fences,
 VNI claims, deployment generations and the open transaction of each lab, in
 memory and in the journal file.
 */
module CoordinationState {
  import opened Common

  type Generation = string
  type VNI = nat

  const DEFAULT_LEASE_SECONDS := 90
  const MAX_LEASE_SECONDS := 600

  // ---------- fences and claims ----------

  /** An issued mutation fence: the token proves ownership, the generation orders. */
  datatype Fence = Fence(token: string, generation: nat)

  /** A lease lives in memory only; a restart forgets every one of them. */
  datatype Lease = Lease(fence: Fence, until: nat)

  /** A pending reservation (with a deadline) or a live overlay (until == 0). */
  datatype Claim = Claim(lab: Lab, generation: nat, until: nat, live: bool)

  type Claims = map<VNI, Claim>

  /** The journalled part that leases and claims work on. */
  datatype Table = Table(highWater: map<Lab, nat>, claims: Claims)

  /** What a lease or claim step can see. */
  datatype Front = Front(now: nat, leases: map<Lab, Lease>, table: Table, collecting: set<VNI>)

  // ---------- generations and transactions ----------

  datatype GenerationState =
    GenerationState(committed: Generation, prepared: Generation, ancestors: seq<Generation>)

  datatype Inventory = Inventory(generation: Generation, vnis: seq<VNI>)

  datatype Phase =
    | Prepared | Applying | Applied | RollbackNeeded | Recovering | RollbackFailed | Committed

  datatype Mode = Platform | Solve

  /** What a node preserved before the apply phase writes the reference solution. */
  datatype SolveRecord = SolveRecord(
    lab: Lab, node: string, generation: Generation, fence: nat, topologyHash: string,
    mode: Mode, ungraded: nat, prune: bool, preserved: seq<string>)

  /** The topology file of a lab: what it runs, how it was built and which overlays it uses. */
  datatype TopologyFile = TopologyFile(generation: Generation, mode: Mode, ungraded: nat, vnis: seq<VNI>)

  /**
   What a transaction is to do: `stored` is the topology file its prepare read,
   the rest is the controller's request. A scoped plan changes only a part of
   the lab and so does not say how the lab was built.
   */
  datatype Plan = Plan(
    stored: Option<TopologyFile>, mode: Mode, ungraded: nat, prune: bool, scoped: bool,
    vnis: seq<VNI>, prestate: Inventory)

  datatype Transaction = Transaction(
    generation: Generation, fence: nat, previous: Generation, plan: Plan,
    solve: Option<SolveRecord>, touched: seq<VNI>, touchedKnown: bool,
    phase: Phase, applied: bool, committed: bool)

  /** The journalled part that transactions work on. */
  datatype Records = Records(
    generations: map<Lab, GenerationState>,
    transactions: map<Lab, Transaction>,
    inventories: map<Lab, Inventory>,
    lineage: map<Lab, map<VNI, Generation>>)

  // ---------- requests in progress ----------

  /** How far a request that holds the operation lease has got with its own writes. */
  datatype Stage = Begun | Written | Done

  /**
   The request that holds the operation lease of a lab. `read` is the
   transaction as that request read it, which for a commit was before it took
   the lease. `safe` is history: see `SafeToApply`.
   */
  datatype Operation =
    | ApplyOp(fence: Fence, read: Transaction, safe: bool)
    | CommitOp(fence: Fence, read: Transaction, stage: Stage)
    | RollbackOp(fence: Fence, read: Transaction, stage: Stage)
    | ForwardOp(fence: Fence, read: Transaction, stage: Stage)
    | DestroyOp(fence: Fence, reap: bool, stage: Stage)

  /** A prepare request that has read the topology file of its lab. */
  datatype FileRead = FileRead(lab: Lab, file: Option<TopologyFile>)

  /**
   A prepare request that has read back the transaction it will preserve for.
   `stale` is history: the lab was prepared again since.
   */
  datatype PreparedRead = PreparedRead(
    lab: Lab, fence: Fence, generation: Generation, mode: Mode, tx: Transaction, stale: bool)

  /** A commit request that has read its transaction and waits for the lease. */
  datatype CommitRead = CommitRead(lab: Lab, fence: Fence, tx: Transaction)

  /** A recovery request that found its transaction uncommitted and waits for the lease. */
  datatype RecoveryRead = RecoveryRead(lab: Lab, fence: Fence, generation: Generation, forward: bool)

  /** What the requests in progress hold; a restart ends all of them. */
  datatype Requests = Requests(
    ops: map<Lab, Operation>, files: map<nat, FileRead>, prepares: map<nat, PreparedRead>,
    commits: map<nat, CommitRead>, recoveries: map<nat, RecoveryRead>)

  const NO_REQUESTS := Requests(map[], map[], map[], map[], map[])

  // ---------- the whole state ----------

  /** Everything that is written to the journal by one save. */
  datatype Journal = Journal(table: Table, records: Records)

  /**
   `mem` is what the process holds, `disk` is what the last successful save
   wrote, `topology` maps a lab to its topology file.
   */
  datatype State = State(
    now: nat,
    leases: map<Lab, Lease>,
    collecting: set<VNI>,
    mem: Journal,
    disk: Journal,
    topology: map<Lab, TopologyFile>,
    requests: Requests)

  const EMPTY_JOURNAL := Journal(Table(map[], map[]), Records(map[], map[], map[], map[]))

  ghost predicate Init(s: State) {
    && s.leases == map[]
    && s.collecting == {}
    && s.mem == EMPTY_JOURNAL
    && s.disk == EMPTY_JOURNAL
    && s.topology == map[]
    && s.requests == NO_REQUESTS
  }

  function FrontOf(s: State): Front {
    Front(s.now, s.leases, s.mem.table, s.collecting)
  }

  function HighWater(t: Table, lab: Lab): nat {
    if lab in t.highWater then t.highWater[lab] else 0
  }

  const NO_GENERATION := GenerationState("", "", [])

  function GenerationOf(r: Records, lab: Lab): GenerationState {
    if lab in r.generations then r.generations[lab] else NO_GENERATION
  }

  function LineageOf(r: Records, lab: Lab): map<VNI, Generation> {
    if lab in r.lineage then r.lineage[lab] else map[]
  }

  function LeaseTTL(seconds: int): (ttl: nat)
    ensures SECOND <= ttl <= MAX_LEASE_SECONDS * SECOND
    ensures 0 < seconds <= MAX_LEASE_SECONDS ==> ttl == seconds * SECOND
    ensures seconds > MAX_LEASE_SECONDS ==> ttl == MAX_LEASE_SECONDS * SECOND
    ensures seconds <= 0 ==> ttl == DEFAULT_LEASE_SECONDS * SECOND
  {
    if seconds <= 0 then DEFAULT_LEASE_SECONDS * SECOND
    else if seconds > MAX_LEASE_SECONDS then MAX_LEASE_SECONDS * SECOND
    else seconds * SECOND
  }

  /** The fence check every mutation makes. */
  predicate Accepts(v: Front, lab: Lab, f: Fence) {
    && lab != "" && f.token != "" && f.generation != 0
    && lab in v.leases
    && v.now < v.leases[lab].until
    && v.leases[lab].fence == f
  }
}
