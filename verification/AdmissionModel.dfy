/** The admission kernel: what its transactional store holds and what each operation does to it.

    Every operation is a step of the whole store: it either commits a new store with an
    answer or refuses and changes nothing (the source runs each one inside one transaction).
    A record's fingerprint is the digest of its specification; digests are injective here, so
    comparing fingerprints is comparing specifications. */
module AdmissionModel {
  import opened Sums

  type Id = string
  type Hash = string

  datatype ResourceKey =
    | RepoLocal(hash: Hash)
    | RepoRemote(hash: Hash)
    | Runner(hash: Hash)

  datatype Counters = Counters(input: int, cachedInput: int, output: int, reasoningOutput: int)

  const MAX_INTEGER := 1_000_000_000_000
  const MAX_TOKENS := 1_000_000_000

  predicate ValidCounters(c: Counters) {
    && 0 <= c.cachedInput <= c.input <= MAX_INTEGER
    && 0 <= c.reasoningOutput <= c.output <= MAX_INTEGER
  }

  /** Cached input and reasoning are parts of their parents, never added again. */
  function TokensOf(c: Counters): int {
    c.input + c.output
  }

  datatype Policy = Policy(maxParallelTasks: int, maxObservationAge: int, minRemainingPercent: int)

  predicate ValidPolicy(p: Policy) {
    1 <= p.maxParallelTasks <= 64 && 1 <= p.maxObservationAge <= 300 && 1 <= p.minRemainingPercent <= 99
  }

  datatype Window = Window(usedPercent: real, resetsAt: real)
  datatype Account = Account(observedAt: real, evidence: Hash, short: Window, long: Window)

  datatype Limits = Limits(maxParallelTasks: int, maxTasks: int, tokenBudget: int, checkpointReserve: int)

  predicate ValidLimits(l: Limits) {
    && 1 <= l.maxParallelTasks <= 16
    && 1 <= l.maxTasks <= 1000
    && 1 <= l.tokenBudget <= MAX_TOKENS
    && 1 <= l.checkpointReserve <= l.tokenBudget - 1
    && l.maxParallelTasks <= l.maxTasks
  }

  datatype Area = Brain | Workers | Reviews | Other(name: string)
  const COVERAGE := {Brain, Workers, Reviews}

  datatype Usage = Usage(observedAt: real, evidence: Hash, counters: Counters, coverage: seq<Area>, settledClaimIds: seq<Id>)

  datatype AllocationSpec = AllocationSpec(workspaceId: Id, bindingHash: Hash, limits: Limits,
                                           repositories: map<Id, set<ResourceKey>>, runners: set<ResourceKey>)
  datatype Closing = Closing(at: real, evidence: Hash)
  datatype Allocation = Allocation(id: Id, spec: AllocationSpec, createdAt: real, closed: Option<Closing>, usage: Option<Usage>)

  datatype Role = Worker | Reviewer | Nested
  datatype Estimates = Estimates(work: int, review: int, handoff: int)
  datatype ClaimSpec = ClaimSpec(allocationId: Id, repositories: set<Id>, estimates: Estimates, role: Role, bindingHash: Option<Hash>)
  datatype Status = Reserved | Starting | Running | Uncertain | Blocked | Settled
  datatype Native = Native(hostId: Id, threadId: Id)
  datatype Finish = NotCreated | Terminal
  datatype Proof = Proof(actual: Counters, evidence: Hash, observedAt: real, outcome: Finish)
  datatype Claim = Claim(id: Id, spec: ClaimSpec, status: Status, createdAt: real, startedAt: Option<real>, native: Option<Native>,
                         actual: Option<Counters>, settledAt: Option<real>, settlement: Option<Proof>)

  predicate Held(c: Claim) {
    c.status != Settled
  }

  function Estimated(c: Claim): int {
    c.spec.estimates.work + c.spec.estimates.review + c.spec.estimates.handoff
  }

  function ActualTokens(c: Claim): int {
    if c.actual.Some? then TokensOf(c.actual.value) else 0
  }

  /** The start an observation about a claim may not predate. */
  function AttemptAt(c: Claim): real {
    if c.startedAt.Some? then c.startedAt.value else c.createdAt
  }

  datatype Holder = Holder(claim: Id, since: real)

  /** Ownership retained from before the kernel existed, as the enrolled workspaces report it. */
  datatype Owner =
    | WorkerOwner(workspaceId: Id, workerId: Id, binding: Option<Hash>, native: Option<Native>, clientThread: Option<Id>)
    | RunnerOwner(workspaceId: Id, workerId: Id, record: Hash)

  datatype LegacyIssue = RepositoryMappingUnknown | NativeUnresolved | RunnerMappingUnknown | RunnerWithoutWorker | ConflictingNatives

  /** One quarantined claim groups every retained version of one worker's ownership. */
  datatype LegacyClaim = LegacyClaim(id: (Id, Id, Id), versions: seq<Owner>, resourceKeys: set<ResourceKey>, natives: set<Native>,
                                     pending: set<Id>, evidence: set<Hash>, issues: set<LegacyIssue>)
  datatype Bundle = Bundle(id: Id, enrollmentId: Id, registryIdentity: Hash, membershipHash: Hash, sourceHash: Hash,
                           policy: Policy, claims: seq<LegacyClaim>)

  /** The reviewed bundle names each retained owner once, with at least one version. */
  predicate ValidBundle(b: Bundle) {
    && ValidPolicy(b.policy) && |b.claims| <= 2000
    && (forall i, j | 0 <= i < j < |b.claims| :: b.claims[i].id != b.claims[j].id)
    && (forall i | 0 <= i < |b.claims| :: b.claims[i].id.0 == b.enrollmentId && b.claims[i].versions != [])
  }

  datatype Event =
    | AllocationOpened(id: Id)
    | AccountObserved(evidence: Hash)
    | UsageObserved(id: Id, evidence: Hash)
    | CapacityReserved(id: Id)
    | CreationBoundary(id: Id)
    | NativeBound(id: Id, native: Native)
    | OwnershipRetained(id: Id, evidence: Hash)
    | RunnerAcquired(id: Id, key: ResourceKey)
    | RunnerReleased(id: Id, key: ResourceKey)
    | ClaimSettled(id: Id, evidence: Hash)
    | AllocationClosed(id: Id)
    | LegacyAdopted(bundle: Bundle)

  datatype Kernel = Kernel(policy: Policy, account: Option<Account>,
                           legacy: Option<Bundle>, legacyClaims: Option<map<(Id, Id, Id), LegacyClaim>>,
                           allocations: map<Id, Allocation>, claims: map<Id, Claim>,
                           resources: map<ResourceKey, Holder>, events: seq<Event>)

  function Empty(policy: Policy): Kernel {
    Kernel(policy, None, None, None, map[], map[], map[], [])
  }

  /** What one transaction reads from outside the store: the clock, whether a fence file stands
      beside the database, and the answers of the native-limit and phase-usage journals
      (whether each exists, and whether each lets new work pass). */
  datatype Env = Env(now: real, sidecar: bool, nativeJournal: bool, nativePass: bool, phaseJournal: bool, phasePass: bool)

  predicate Fenced(k: Kernel, env: Env) {
    k.legacy.Some? || env.sidecar
  }

  predicate Fresh(at: real, k: Kernel, env: Env) {
    at > 0.0 && 0.0 <= env.now - at <= k.policy.maxObservationAge as real
  }

  function Elements<T>(s: seq<T>): set<T> {
    set x | x in s
  }

  // ---------- sums over the claims ----------

  function HeldTokens(aid: Id): (Id, Claim) -> int {
    (id: Id, c: Claim) => if c.spec.allocationId == aid && Held(c) then Estimated(c) else 0
  }

  function SettledTokens(aid: Id): (Id, Claim) -> int {
    (id: Id, c: Claim) => if c.spec.allocationId == aid && !Held(c) then ActualTokens(c) else 0
  }

  function OpenSettledTokens(aid: Id, included: set<Id>): (Id, Claim) -> int {
    (id: Id, c: Claim) => if c.spec.allocationId == aid && !Held(c) && id !in included then ActualTokens(c) else 0
  }

  function IncludedTokens(aid: Id, included: set<Id>): (Id, Claim) -> int {
    (id: Id, c: Claim) => if c.spec.allocationId == aid && !Held(c) && id in included then ActualTokens(c) else 0
  }

  function HeldOne(): (Id, Claim) -> int {
    (id: Id, c: Claim) => if Held(c) then 1 else 0
  }

  function HeldOneIn(aid: Id): (Id, Claim) -> int {
    (id: Id, c: Claim) => if c.spec.allocationId == aid && Held(c) then 1 else 0
  }

  function AttemptIn(aid: Id): (Id, Claim) -> int {
    (id: Id, c: Claim) => if c.spec.allocationId == aid then 1 else 0
  }

  function Included(a: Allocation): set<Id> {
    if a.usage.Some? then Elements(a.usage.value.settledClaimIds) else {}
  }

  function Observed(a: Allocation): int {
    if a.usage.Some? then TokensOf(a.usage.value.counters) else 0
  }

  predicate UsageKnown(a: Allocation) {
    a.usage.Some? && Elements(a.usage.value.coverage) == COVERAGE
  }

  ghost function HeldSum(k: Kernel, aid: Id): int {
    MapSum(k.claims, HeldTokens(aid))
  }

  ghost function Unincorporated(k: Kernel, a: Allocation): int {
    MapSum(k.claims, OpenSettledTokens(a.id, Included(a)))
  }

  /** The headroom for new work: what the budget leaves after every known charge. */
  ghost function Remaining(k: Kernel, a: Allocation): int {
    a.spec.limits.tokenBudget - Observed(a) - HeldSum(k, a.id) - Unincorporated(k, a) - a.spec.limits.checkpointReserve
  }

  // ---------- guards shared by reserve and begin ----------

  predicate WindowOpen(w: Window, k: Kernel, env: Env) {
    w.resetsAt > env.now && 100.0 - w.usedPercent >= k.policy.minRemainingPercent as real
  }

  predicate AccountOpen(k: Kernel, env: Env) {
    && k.account.Some?
    && Fresh(k.account.value.observedAt, k, env)
    && WindowOpen(k.account.value.short, k, env)
    && WindowOpen(k.account.value.long, k, env)
  }

  ghost predicate BudgetAllows(k: Kernel, env: Env, a: Allocation, extra: int) {
    && !Fenced(k, env)
    && a.closed.None?
    && env.nativePass && env.phasePass
    && AccountOpen(k, env)
    && UsageKnown(a)
    && Fresh(a.usage.value.observedAt, k, env)
    && Remaining(k, a) >= extra
  }

  /** The canonical keys a set of repository names stands for in an allocation. */
  function RepoKeys(a: Allocation, repos: set<Id>): set<ResourceKey> {
    set r, key | r in repos && r in a.spec.repositories && key in a.spec.repositories[r] :: key
  }

  ghost predicate CapacityAllows(k: Kernel, a: Allocation, repos: set<Id>) {
    && MapSum(k.claims, HeldOne()) < k.policy.maxParallelTasks
    && MapSum(k.claims, HeldOneIn(a.id)) < a.spec.limits.maxParallelTasks
    && MapSum(k.claims, AttemptIn(a.id)) < a.spec.limits.maxTasks
    && repos <= a.spec.repositories.Keys
    && RepoKeys(a, repos) !! k.resources.Keys
  }

  // ---------- the operations ----------

  predicate ValidRepositories(repos: map<Id, seq<ResourceKey>>) {
    && 1 <= |repos| <= 20
    && forall r | r in repos :: 1 <= |repos[r]| <= 4 && forall key | key in repos[r] :: !key.Runner?
  }

  predicate ValidRunners(runners: seq<ResourceKey>) {
    |runners| <= 10 && forall key | key in runners :: key.Runner?
  }

  function CleanRepositories(repos: map<Id, seq<ResourceKey>>): map<Id, set<ResourceKey>> {
    map r | r in repos :: Elements(repos[r])
  }

  predicate WorkspaceOpen(k: Kernel, workspaceId: Id) {
    exists aid | aid in k.allocations :: k.allocations[aid].spec.workspaceId == workspaceId && k.allocations[aid].closed.None?
  }

  function OpenAllocation(k: Kernel, env: Env, aid: Id, workspaceId: Id, bindingHash: Hash, limits: Limits,
                          repositories: map<Id, seq<ResourceKey>>, runners: seq<ResourceKey>): Step<Kernel, Allocation>
  {
    var spec := AllocationSpec(workspaceId, bindingHash, limits, CleanRepositories(repositories), Elements(runners));
    if !ValidLimits(limits) || !ValidRepositories(repositories) || !ValidRunners(runners) || Fenced(k, env) then Refused
    else if aid in k.allocations then
      if k.allocations[aid].spec == spec then Done(k, k.allocations[aid]) else Refused
    else if WorkspaceOpen(k, workspaceId) then Refused
    else
      var a := Allocation(aid, spec, env.now, None, None);
      Done(k.(allocations := k.allocations[aid := a], events := k.events + [AllocationOpened(aid)]), a)
  }

  predicate ValidWindow(w: Window, observedAt: real) {
    0.0 <= w.usedPercent <= 100.0 && w.resetsAt > 0.0 && w.resetsAt > observedAt
  }

  function ObserveAccount(k: Kernel, env: Env, o: Account): Step<Kernel, ()> {
    if !ValidWindow(o.short, o.observedAt) || !ValidWindow(o.long, o.observedAt) || env.nativeJournal then Refused
    else if k.account == Some(o) then Done(k, ())
    else if !Fresh(o.observedAt, k, env) then Refused
    else if k.account.Some? && o.observedAt <= k.account.value.observedAt then Refused
    else Done(k.(account := Some(o), events := k.events + [AccountObserved(o.evidence)]), ())
  }

  predicate ValidUsage(o: Usage) {
    && ValidCounters(o.counters)
    && Distinct(o.coverage) && Elements(o.coverage) <= COVERAGE
    && |o.settledClaimIds| <= 1000 && Distinct(o.settledClaimIds)
  }

  predicate CountersGrow(before: Counters, after: Counters) {
    && before.input <= after.input && before.cachedInput <= after.cachedInput
    && before.output <= after.output && before.reasoningOutput <= after.reasoningOutput
  }

  /** Every listed claim is a settled claim of this allocation, settled by the observation's time. */
  predicate CoversOnlySettled(k: Kernel, aid: Id, o: Usage) {
    forall id | id in o.settledClaimIds ::
      && id in k.claims
      && k.claims[id].spec.allocationId == aid
      && k.claims[id].status == Settled
      && k.claims[id].settledAt.Some? && k.claims[id].settledAt.value <= o.observedAt
  }

  /** The total over the listed claims, visited in the order of the list. */
  function ListedTokens(k: Kernel, ids: seq<Id>): int {
    if ids == [] then 0
    else ListedTokens(k, ids[..|ids| - 1]) + (if ids[|ids| - 1] in k.claims then ActualTokens(k.claims[ids[|ids| - 1]]) else 0)
  }

  function ObserveUsage(k: Kernel, env: Env, aid: Id, o: Usage): Step<Kernel, ()> {
    if !ValidUsage(o) || aid !in k.allocations || env.phaseJournal then Refused
    else
      var a := k.allocations[aid];
      if a.usage == Some(o) then Done(k, ())
      else if !Fresh(o.observedAt, k, env) || o.observedAt < a.createdAt then Refused
      else if a.usage.Some? && !(o.observedAt > a.usage.value.observedAt && CountersGrow(a.usage.value.counters, o.counters)
                                 && Included(a) <= Elements(o.settledClaimIds)) then Refused
      else if !CoversOnlySettled(k, aid, o) || ListedTokens(k, o.settledClaimIds) > TokensOf(o.counters) then Refused
      else Done(k.(allocations := k.allocations[aid := a.(usage := Some(o))],
                   events := k.events + [UsageObserved(aid, o.evidence)]), ())
  }

  predicate ValidEstimates(e: Estimates) {
    1 <= e.work <= MAX_TOKENS && 1 <= e.review <= MAX_TOKENS && 1 <= e.handoff <= MAX_TOKENS
  }

  function WithHolders(resources: map<ResourceKey, Holder>, keys: set<ResourceKey>, h: Holder): map<ResourceKey, Holder> {
    resources + map key | key in keys :: h
  }

  ghost function Reserve(k: Kernel, env: Env, cid: Id, aid: Id, repos: seq<Id>, estimates: Estimates, role: Role,
                         bindingHash: Option<Hash>): Step<Kernel, Claim>
  {
    var spec := ClaimSpec(aid, Elements(repos), estimates, role, bindingHash);
    if !(1 <= |repos| <= 20) || !Distinct(repos) || !ValidEstimates(estimates) || Fenced(k, env) then Refused
    else if cid in k.claims then
      if k.claims[cid].spec == spec then Done(k, k.claims[cid]) else Refused
    else if aid !in k.allocations then Refused
    else
      var a := k.allocations[aid];
      var c := Claim(cid, spec, Status.Reserved, env.now, None, None, None, None, None);
      if !BudgetAllows(k, env, a, Estimated(c)) || !CapacityAllows(k, a, spec.repositories) then Refused
      else Done(k.(claims := k.claims[cid := c],
                   resources := WithHolders(k.resources, RepoKeys(a, spec.repositories), Holder(cid, env.now)),
                   events := k.events + [CapacityReserved(cid)]), c)
  }

  function PutClaim(k: Kernel, c: Claim, e: Event): Kernel {
    k.(claims := k.claims[c.id := c], events := k.events + [e])
  }

  ghost function Begin(k: Kernel, env: Env, cid: Id): Step<Kernel, Claim> {
    if cid !in k.claims || k.claims[cid].status != Status.Reserved then Refused
    else
      var c := k.claims[cid];
      if c.spec.allocationId !in k.allocations then Refused
      else if !BudgetAllows(k, env, k.allocations[c.spec.allocationId], 0) then Refused
      else
        var c' := c.(status := Starting, startedAt := Some(env.now));
        Done(PutClaim(k, c', CreationBoundary(cid)), c')
  }

  predicate NativeTaken(k: Kernel, native: Native) {
    exists id | id in k.claims :: k.claims[id].native == Some(native)
  }

  function Bind(k: Kernel, cid: Id, native: Native): Step<Kernel, Claim> {
    if cid !in k.claims || k.claims[cid].spec.bindingHash.Some? then Refused
    else
      var c := k.claims[cid];
      if c.status !in {Starting, Uncertain, Blocked, Running} then Refused
      else if c.native.Some? then
        if c.native.value == native then Done(k, c) else Refused
      else if NativeTaken(k, native) then Refused
      else
        var c' := c.(status := Running, native := Some(native));
        Done(PutClaim(k, c', NativeBound(cid, native)), c')
  }

  function Block(k: Kernel, cid: Id, evidence: Hash): Step<Kernel, ()> {
    if cid !in k.claims || k.claims[cid].spec.bindingHash.Some? then Refused
    else
      var c := k.claims[cid];
      if c.status !in {Starting, Running, Uncertain, Blocked} then Refused
      else Done(PutClaim(k, c.(status := if c.native.Some? then Blocked else Uncertain), OwnershipRetained(cid, evidence)), ())
  }

  datatype RunnerOperation = Acquire | Release

  function UseRunner(k: Kernel, env: Env, cid: Id, key: ResourceKey, operation: RunnerOperation, observedAt: real): Step<Kernel, ()> {
    if !key.Runner? || cid !in k.claims || k.claims[cid].spec.bindingHash.Some? then Refused
    else
      var c := k.claims[cid];
      if !Fresh(observedAt, k, env) || observedAt < AttemptAt(c) || c.spec.allocationId !in k.allocations then Refused
      else if key !in k.allocations[c.spec.allocationId].spec.runners then Refused
      else if operation.Acquire? then
        if Fenced(k, env) || c.status != Running || key in k.resources then Refused
        else Done(k.(resources := k.resources[key := Holder(cid, env.now)], events := k.events + [RunnerAcquired(cid, key)]), ())
      else
        if key !in k.resources || k.resources[key].claim != cid || observedAt < k.resources[key].since then Refused
        else Done(k.(resources := k.resources - {key}, events := k.events + [RunnerReleased(cid, key)]), ())
  }

  predicate HoldsRunner(k: Kernel, cid: Id) {
    exists key | key in k.resources :: key.Runner? && k.resources[key].claim == cid
  }

  function Settle(k: Kernel, env: Env, cid: Id, proof: Proof): Step<Kernel, Claim> {
    if !ValidCounters(proof.actual) || cid !in k.claims || k.claims[cid].spec.bindingHash.Some? then Refused
    else
      var c := k.claims[cid];
      if c.status == Settled then
        if c.settlement == Some(proof) then Done(k, c) else Refused
      else if !Fresh(proof.observedAt, k, env) || proof.observedAt < AttemptAt(c) then Refused
      else if !((proof.outcome.Terminal? && c.native.Some?)
                || (proof.outcome.NotCreated? && c.native.None? && TokensOf(proof.actual) == 0)) then Refused
      else if HoldsRunner(k, cid) then Refused
      else
        var c' := c.(status := Settled, actual := Some(proof.actual), settledAt := Some(env.now), settlement := Some(proof));
        Done(PutClaim(k, c', ClaimSettled(cid, proof.evidence)).(
               resources := map key | key in k.resources && k.resources[key].claim != cid :: k.resources[key]), c')
  }

  predicate AnyHeldIn(k: Kernel, aid: Id) {
    exists id | id in k.claims :: k.claims[id].spec.allocationId == aid && Held(k.claims[id])
  }

  function CloseAllocation(k: Kernel, env: Env, aid: Id, evidence: Hash): Step<Kernel, ()> {
    if aid !in k.allocations || AnyHeldIn(k, aid) then Refused
    else if k.allocations[aid].closed.Some? then Done(k, ())
    else Done(k.(allocations := k.allocations[aid := k.allocations[aid].(closed := Some(Closing(env.now, evidence)))],
                 events := k.events + [AllocationClosed(aid)]), ())
  }

  // ---------- runs ----------

  datatype Op =
    | OpOpen(aid: Id, workspaceId: Id, bindingHash: Hash, limits: Limits, repositories: map<Id, seq<ResourceKey>>, runners: seq<ResourceKey>)
    | OpAccount(account: Account)
    | OpUsage(aid: Id, usage: Usage)
    | OpReserve(cid: Id, aid: Id, repos: seq<Id>, estimates: Estimates, role: Role, binding: Option<Hash>)
    | OpBegin(cid: Id)
    | OpBind(cid: Id, native: Native)
    | OpBlock(cid: Id, evidence: Hash)
    | OpRunner(cid: Id, key: ResourceKey, operation: RunnerOperation, observedAt: real)
    | OpSettle(cid: Id, proof: Proof)
    | OpClose(aid: Id, evidence: Hash)

  function Next<T>(k: Kernel, s: Step<Kernel, T>): Kernel {
    if s.Done? then s.state else k
  }

  ghost function Apply(k: Kernel, env: Env, op: Op): Kernel {
    match op
    case OpOpen(aid, w, b, l, repos, runners) => Next(k, OpenAllocation(k, env, aid, w, b, l, repos, runners))
    case OpAccount(o) => Next(k, ObserveAccount(k, env, o))
    case OpUsage(aid, o) => Next(k, ObserveUsage(k, env, aid, o))
    case OpReserve(cid, aid, repos, e, role, b) => Next(k, Reserve(k, env, cid, aid, repos, e, role, b))
    case OpBegin(cid) => Next(k, Begin(k, env, cid))
    case OpBind(cid, n) => Next(k, Bind(k, cid, n))
    case OpBlock(cid, e) => Next(k, Block(k, cid, e))
    case OpRunner(cid, key, o, at) => Next(k, UseRunner(k, env, cid, key, o, at))
    case OpSettle(cid, proof) => Next(k, Settle(k, env, cid, proof))
    case OpClose(aid, e) => Next(k, CloseAllocation(k, env, aid, e))
  }

  /** Any finite history of operations, each in any environment; refused ones change nothing. */
  ghost function Run(k: Kernel, trace: seq<(Env, Op)>): Kernel
    decreases |trace|
  {
    if trace == [] then k
    else Apply(Run(k, trace[..|trace| - 1]), trace[|trace| - 1].0, trace[|trace| - 1].1)
  }
}
