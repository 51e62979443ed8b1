/** When each operation of a sound store is admitted and what it leaves, said once more in the fields of the rows:
    counts as sizes of sets, charges as one sum over the claims. */
module AdmissionLaws {
  import opened Sums
  import opened AdmissionModel
  import opened AdmissionInvariant
  import opened AdmissionTheorems

  // ---------- what new work needs ----------

  /** What a claim costs an allocation: its three estimates until it is settled, then its actual input and output,
      until an observation of the allocation lists it. */
  function Charge(a: Allocation): (Id, Claim) -> int {
    (id: Id, c: Claim) =>
      if c.spec.allocationId != a.id then 0
      else if c.status != Settled then c.spec.estimates.work + c.spec.estimates.review + c.spec.estimates.handoff
      else if c.actual.None? || (a.usage.Some? && id in a.usage.value.settledClaimIds) then 0
      else c.actual.value.input + c.actual.value.output
  }

  predicate Recent(at: real, k: Kernel, env: Env) {
    0.0 < at <= env.now <= at + k.policy.maxObservationAge as real
  }

  /** Neither window of the account has run out, and each leaves the share the policy keeps. */
  predicate AccountHasRoom(k: Kernel, env: Env) {
    k.account.Some? && var o := k.account.value;
    && Recent(o.observedAt, k, env)
    && env.now < o.short.resetsAt && o.short.usedPercent + k.policy.minRemainingPercent as real <= 100.0
    && env.now < o.long.resetsAt && o.long.usedPercent + k.policy.minRemainingPercent as real <= 100.0
  }

  /** The observation names the brain, the workers and the reviews, and what it says and every charge beyond it leave the
      checkpoint reserve and `tokens` more in the budget. */
  ghost predicate BudgetHasRoom(k: Kernel, env: Env, a: Allocation, tokens: int) {
    a.usage.Some? && var u := a.usage.value;
    && Recent(u.observedAt, k, env)
    && Brain in u.coverage && Workers in u.coverage && Reviews in u.coverage
    && u.counters.input + u.counters.output + MapSum(k.claims, Charge(a)) + a.spec.limits.checkpointReserve + tokens <= a.spec.limits.tokenBudget
  }

  /** All that must hold before new work may be admitted, or before admitted work may cross the creation boundary. */
  ghost predicate MayStart(k: Kernel, env: Env, aid: Id, tokens: int) {
    && k.legacy.None? && !env.sidecar
    && aid in k.allocations && k.allocations[aid].closed.None?
    && env.nativePass && env.phasePass
    && AccountHasRoom(k, env) && BudgetHasRoom(k, env, k.allocations[aid], tokens)
  }

  /** A slot and an attempt are left, and nobody owns a key of the requested repositories. */
  ghost predicate HasSlot(k: Kernel, aid: Id, repos: seq<Id>)
    requires aid in k.allocations
  {
    var a := k.allocations[aid];
    && |set id | id in k.claims && k.claims[id].status != Settled| < k.policy.maxParallelTasks
    && |set id | id in k.claims && k.claims[id].status != Settled && k.claims[id].spec.allocationId == aid| < a.spec.limits.maxParallelTasks
    && |set id | id in k.claims && k.claims[id].spec.allocationId == aid| < a.spec.limits.maxTasks
    && forall r | r in repos :: r in a.spec.repositories && forall key | key in a.spec.repositories[r] :: key !in k.resources
  }

  lemma ChargesAdd(k: Kernel, a: Allocation)
    ensures MapSum(k.claims, Charge(a)) == HeldSum(k, a.id) + Unincorporated(k, a)
  {
    MapSumAdd(k.claims, HeldTokens(a.id), OpenSettledTokens(a.id, Included(a)), Charge(a));
  }

  /** The headroom of an allocation is what its budget leaves after the observed total, every charge beyond it and the
      reserve; nothing is observed before the first observation. */
  lemma HeadroomExactly(k: Kernel, a: Allocation)
    ensures Remaining(k, a) + (if a.usage.Some? then a.usage.value.counters.input + a.usage.value.counters.output else 0)
            + MapSum(k.claims, Charge(a)) + a.spec.limits.checkpointReserve == a.spec.limits.tokenBudget
  {
    ChargesAdd(k, a);
  }

  lemma CoverageNames(k: Kernel, a: Allocation)
    requires UsageSound(k, a) && a.usage.Some?
    ensures UsageKnown(a) <==> Brain in a.usage.value.coverage && Workers in a.usage.value.coverage && Reviews in a.usage.value.coverage
  {
    var s := Elements(a.usage.value.coverage);
    if Brain in s && Workers in s && Reviews in s { assert s == COVERAGE; }
  }

  lemma BudgetReads(k: Kernel, env: Env, aid: Id, tokens: int)
    requires Linked(k) && Accounting(k) && aid in k.allocations
    ensures BudgetAllows(k, env, k.allocations[aid], tokens) <==> MayStart(k, env, aid, tokens)
  {
    var a := k.allocations[aid];
    assert AllocationShape(a, aid) && UsageSound(k, a);
    ChargesAdd(k, a);
    if a.usage.Some? { CoverageNames(k, a); }
  }

  lemma SlotsCount(k: Kernel, aid: Id)
    ensures MapSum(k.claims, HeldOne()) == |set id | id in k.claims && k.claims[id].status != Settled|
    ensures MapSum(k.claims, HeldOneIn(aid))
            == |set id | id in k.claims && k.claims[id].status != Settled && k.claims[id].spec.allocationId == aid|
    ensures MapSum(k.claims, AttemptIn(aid)) == |set id | id in k.claims && k.claims[id].spec.allocationId == aid|
  {
    MapSumCounts(k.claims, HeldOne(), set id | id in k.claims && k.claims[id].status != Settled);
    MapSumCounts(k.claims, HeldOneIn(aid), set id | id in k.claims && k.claims[id].status != Settled && k.claims[id].spec.allocationId == aid);
    MapSumCounts(k.claims, AttemptIn(aid), set id | id in k.claims && k.claims[id].spec.allocationId == aid);
  }

  lemma KeysFree(k: Kernel, a: Allocation, repos: seq<Id>)
    ensures (Elements(repos) <= a.spec.repositories.Keys && RepoKeys(a, Elements(repos)) !! k.resources.Keys)
            <==> forall r | r in repos :: r in a.spec.repositories && forall key | key in a.spec.repositories[r] :: key !in k.resources
  {
    if Elements(repos) <= a.spec.repositories.Keys && RepoKeys(a, Elements(repos)) !! k.resources.Keys {
      forall r, key | r in repos && key in a.spec.repositories[r] ensures key !in k.resources {
        assert key in RepoKeys(a, Elements(repos));
      }
    }
  }

  lemma CapacityReads(k: Kernel, aid: Id, repos: seq<Id>)
    requires Linked(k) && aid in k.allocations
    ensures CapacityAllows(k, k.allocations[aid], Elements(repos)) <==> HasSlot(k, aid, repos)
  {
    assert AllocationShape(k.allocations[aid], aid);
    SlotsCount(k, aid);
    KeysFree(k, k.allocations[aid], repos);
  }

  /** A new identifier is reserved if and only if the request is well formed, new work of its size may start in the
      allocation, and it has a slot. */
  lemma ReserveExactly(k: Kernel, env: Env, cid: Id, aid: Id, repos: seq<Id>, e: Estimates, role: Role, binding: Option<Hash>)
    requires Linked(k) && Accounting(k) && cid !in k.claims
    ensures Reserve(k, env, cid, aid, repos, e, role, binding).Done?
            <==> && 1 <= |repos| <= 20 && (forall i, j | 0 <= i < j < |repos| :: repos[i] != repos[j])
                 && 1 <= e.work <= 1_000_000_000 && 1 <= e.review <= 1_000_000_000 && 1 <= e.handoff <= 1_000_000_000
                 && MayStart(k, env, aid, e.work + e.review + e.handoff) && HasSlot(k, aid, repos)
  {
    if aid in k.allocations {
      BudgetReads(k, env, aid, e.work + e.review + e.handoff);
      CapacityReads(k, aid, repos);
    }
  }

  /** The claim is then a reserved one with exactly this specification, and owns exactly the keys of its repositories. */
  lemma ReserveLeaves(k: Kernel, env: Env, cid: Id, aid: Id, repos: seq<Id>, e: Estimates, role: Role, binding: Option<Hash>)
    requires cid !in k.claims && Reserve(k, env, cid, aid, repos, e, role, binding).Done?
    ensures var s := Reserve(k, env, cid, aid, repos, e, role, binding);
            && s.value == Claim(cid, ClaimSpec(aid, (set r | r in repos), e, role, binding), Status.Reserved, env.now, None, None, None, None, None)
            && s.state == k.(claims := k.claims[cid := s.value], resources := s.state.resources,
                             events := k.events + [CapacityReserved(cid)])
            && forall key ::
                 && (key in s.state.resources
                     <==> key in k.resources || exists r | r in repos ::
                            r in k.allocations[aid].spec.repositories && key in k.allocations[aid].spec.repositories[r])
                 && (key in s.state.resources ==>
                       s.state.resources[key] == if key in k.resources then k.resources[key] else Holder(cid, env.now))
  {
  }

  /** A reserved claim crosses the creation boundary if and only if its allocation still has room for what it already
      counts; from then on it is starting, and only that. */
  lemma BeginExactly(k: Kernel, env: Env, cid: Id)
    requires Linked(k) && Accounting(k)
    ensures var s := Begin(k, env, cid);
            && (s.Done? <==> cid in k.claims && k.claims[cid].status == Status.Reserved && MayStart(k, env, k.claims[cid].spec.allocationId, 0))
            && (s.Done? ==>
                  && s.value == k.claims[cid].(status := Starting, startedAt := Some(env.now))
                  && s.state == k.(claims := k.claims[cid := s.value], events := k.events + [CreationBoundary(cid)]))
  {
    if cid in k.claims {
      assert ClaimLinked(k, cid);
      BudgetReads(k, env, k.claims[cid].spec.allocationId, 0);
    }
  }

  // ---------- the other operations ----------

  /** An allocation is opened if and only if no fence stands, the envelope is well formed, and every earlier allocation of
      the workspace is closed. */
  lemma OpenExactly(k: Kernel, env: Env, aid: Id, w: Id, h: Hash, l: Limits, repos: map<Id, seq<ResourceKey>>, runners: seq<ResourceKey>)
    requires aid !in k.allocations
    ensures var s := OpenAllocation(k, env, aid, w, h, l, repos, runners);
            && (s.Done? <==>
                  && k.legacy.None? && !env.sidecar
                  && 1 <= l.maxParallelTasks <= 16 && l.maxParallelTasks <= l.maxTasks <= 1000
                  && 1 <= l.checkpointReserve < l.tokenBudget <= 1_000_000_000
                  && 1 <= |repos| <= 20 && |runners| <= 10 && (forall key | key in runners :: key.Runner?)
                  && (forall r | r in repos :: 1 <= |repos[r]| <= 4 && forall key | key in repos[r] :: key.RepoLocal? || key.RepoRemote?)
                  && forall x | x in k.allocations && k.allocations[x].spec.workspaceId == w :: k.allocations[x].closed.Some?)
            && (s.Done? ==>
                  && s.value == Allocation(aid, AllocationSpec(w, h, l, map r | r in repos :: set key | key in repos[r], set key | key in runners),
                                           env.now, None, None)
                  && s.state == k.(allocations := k.allocations[aid := s.value], events := k.events + [AllocationOpened(aid)]))
  {
  }

  /** Opened or reserved again under its identifier, an allocation or claim answers as it is if it was asked for in exactly
      these terms and no fence stands, and refuses anything else. */
  lemma RepeatsExactly(k: Kernel, env: Env, aid: Id, w: Id, h: Hash, l: Limits, repos: map<Id, seq<ResourceKey>>, runners: seq<ResourceKey>,
                       cid: Id, names: seq<Id>, e: Estimates, role: Role, binding: Option<Hash>)
    requires ValidLimits(l) && ValidRepositories(repos) && ValidRunners(runners)
    requires 1 <= |names| <= 20 && Distinct(names) && ValidEstimates(e)
    ensures aid in k.allocations ==>
              OpenAllocation(k, env, aid, w, h, l, repos, runners)
              == if k.legacy.None? && !env.sidecar
                    && k.allocations[aid].spec == AllocationSpec(w, h, l, map r | r in repos :: set key | key in repos[r], set key | key in runners)
                 then Done(k, k.allocations[aid]) else Refused
    ensures cid in k.claims ==>
              Reserve(k, env, cid, aid, names, e, role, binding)
              == if k.legacy.None? && !env.sidecar && k.claims[cid].spec == ClaimSpec(aid, (set r | r in names), e, role, binding)
                 then Done(k, k.claims[cid]) else Refused
  {
  }

  /** The account is observed only where no native journal has taken over, with windows that are still running at the
      observation, and only forward in time; the last observation may be repeated. */
  lemma AccountExactly(k: Kernel, env: Env, o: Account)
    ensures var s := ObserveAccount(k, env, o);
            && (s.Done? <==>
                  && !env.nativeJournal
                  && 0.0 <= o.short.usedPercent <= 100.0 && 0.0 <= o.long.usedPercent <= 100.0
                  && o.observedAt < o.short.resetsAt && o.observedAt < o.long.resetsAt
                  && (if k.account == Some(o) then o.short.resetsAt > 0.0 && o.long.resetsAt > 0.0
                      else Recent(o.observedAt, k, env) && (k.account.Some? ==> k.account.value.observedAt < o.observedAt)))
            && (s.Done? ==> s.state == if k.account == Some(o) then k else k.(account := Some(o), events := k.events + [AccountObserved(o.evidence)]))
  {
  }

  function ListedActual(ids: seq<Id>): (Id, Claim) -> int {
    (id: Id, c: Claim) => if id in ids && c.actual.Some? then c.actual.value.input + c.actual.value.output else 0
  }

  lemma ListedReads(k: Kernel, aid: Id, ids: seq<Id>)
    requires Linked(k) && Distinct(ids)
    requires forall id | id in ids :: id in k.claims && k.claims[id].spec.allocationId == aid && k.claims[id].status == Settled
    ensures ListedTokens(k, ids) == MapSum(k.claims, ListedActual(ids))
  {
    ListedIsIncluded(k, aid, ids);
    MapSumAgree(k.claims, IncludedTokens(aid, Elements(ids)), ListedActual(ids));
  }

  predicate UsageShape(o: Usage) {
    && 0 <= o.counters.cachedInput <= o.counters.input <= 1_000_000_000_000
    && 0 <= o.counters.reasoningOutput <= o.counters.output <= 1_000_000_000_000
    && (forall i, j | 0 <= i < j < |o.coverage| :: o.coverage[i] != o.coverage[j])
    && (forall x | x in o.coverage :: x == Brain || x == Workers || x == Reviews)
    && |o.settledClaimIds| <= 1000
    && (forall i, j | 0 <= i < j < |o.settledClaimIds| :: o.settledClaimIds[i] != o.settledClaimIds[j])
  }

  /** Usage is observed only where no phase journal has taken over, only forward in time, in every counter and in the
      settlements it lists; these are settled claims of the allocation whose actuals it covers. */
  lemma UsageExactly(k: Kernel, env: Env, aid: Id, o: Usage)
    requires Linked(k)
    ensures var s := ObserveUsage(k, env, aid, o);
            && (s.Done? <==>
                  && UsageShape(o) && !env.phaseJournal && aid in k.allocations
                  && var prior := k.allocations[aid].usage;
                  prior == Some(o)
                  || (&& Recent(o.observedAt, k, env) && k.allocations[aid].createdAt <= o.observedAt
                      && (prior.Some? ==>
                            && prior.value.observedAt < o.observedAt
                            && prior.value.counters.input <= o.counters.input && prior.value.counters.cachedInput <= o.counters.cachedInput
                            && prior.value.counters.output <= o.counters.output
                            && prior.value.counters.reasoningOutput <= o.counters.reasoningOutput
                            && forall id | id in prior.value.settledClaimIds :: id in o.settledClaimIds)
                      && (forall id | id in o.settledClaimIds ::
                            && id in k.claims && k.claims[id].spec.allocationId == aid && k.claims[id].status == Settled
                            && k.claims[id].settledAt.value <= o.observedAt)
                      && MapSum(k.claims, ListedActual(o.settledClaimIds)) <= o.counters.input + o.counters.output))
            && (s.Done? ==>
                  s.state == if k.allocations[aid].usage == Some(o) then k
                             else k.(allocations := k.allocations[aid := k.allocations[aid].(usage := Some(o))],
                                     events := k.events + [UsageObserved(aid, o.evidence)]))
  {
    UsageShapeReads(o);
    if aid in k.allocations {
      CoveredReads(k, aid, o);
      if k.allocations[aid].usage.Some? { IncludedReads(k.allocations[aid], o); }
      if UsageShape(o) && CoversOnlySettled(k, aid, o) { ListedReads(k, aid, o.settledClaimIds); }
    }
  }

  lemma UsageShapeReads(o: Usage)
    ensures ValidUsage(o) <==> UsageShape(o)
  {
    assert forall x :: x in o.coverage <==> x in Elements(o.coverage);
  }

  lemma IncludedReads(a: Allocation, o: Usage)
    requires a.usage.Some?
    ensures Included(a) <= Elements(o.settledClaimIds) <==> forall id | id in a.usage.value.settledClaimIds :: id in o.settledClaimIds
  {
    assert forall id :: id in a.usage.value.settledClaimIds <==> id in Included(a);
  }

  lemma CoveredReads(k: Kernel, aid: Id, o: Usage)
    requires Linked(k)
    ensures CoversOnlySettled(k, aid, o)
            <==> forall id | id in o.settledClaimIds ::
                   && id in k.claims && k.claims[id].spec.allocationId == aid && k.claims[id].status == Settled
                   && k.claims[id].settledAt.value <= o.observedAt
  {
    forall id | id in k.claims && k.claims[id].status == Settled ensures k.claims[id].settledAt.Some? { assert ClaimLinked(k, id); }
  }

  /** A started claim that no coordinator has taken over is bound to any native task that no other claim has, once: bound
      again to the same task it answers as it stands. */
  lemma BindExactly(k: Kernel, cid: Id, n: Native)
    requires Linked(k) && NativesInjective(k)
    ensures var s := Bind(k, cid, n);
            && (s.Done? <==>
                  && cid in k.claims && k.claims[cid].spec.bindingHash.None?
                  && k.claims[cid].status != Status.Reserved && k.claims[cid].status != Settled
                  && (k.claims[cid].native.Some? ==> k.claims[cid].native.value == n)
                  && forall id | id in k.claims && id != cid :: k.claims[id].native != Some(n))
            && (s.Done? ==>
                  && s.value == (if k.claims[cid].native.Some? then k.claims[cid] else k.claims[cid].(status := Running, native := Some(n)))
                  && s.state == if k.claims[cid].native.Some? then k
                                else k.(claims := k.claims[cid := s.value], events := k.events + [NativeBound(cid, n)]))
  {
    if cid in k.claims { assert ClaimLinked(k, cid); }
  }

  /** Blocking keeps a started claim, as blocked if a native task is known and as uncertain if none is. */
  lemma BlockExactly(k: Kernel, cid: Id, e: Hash)
    requires Linked(k)
    ensures var s := Block(k, cid, e);
            && (s.Done? <==>
                  && cid in k.claims && k.claims[cid].spec.bindingHash.None?
                  && k.claims[cid].status != Status.Reserved && k.claims[cid].status != Settled)
            && (s.Done? ==>
                  s.state == k.(claims := k.claims[cid := k.claims[cid].(status := if k.claims[cid].native.Some? then Blocked else Uncertain)],
                                events := k.events + [OwnershipRetained(cid, e)]))
  {
    if cid in k.claims { assert ClaimLinked(k, cid); }
  }

  /** A runner of the allocation is taken by a running claim while nobody has it and no fence stands, and given back by
      whoever has it, on a recent observation that predates neither the claim's start nor the taking. */
  lemma RunnerExactly(k: Kernel, env: Env, cid: Id, key: ResourceKey, operation: RunnerOperation, at: real)
    requires Linked(k)
    ensures var s := UseRunner(k, env, cid, key, operation, at);
            && (s.Done? <==>
                  && cid in k.claims && k.claims[cid].spec.bindingHash.None?
                  && key in k.allocations[k.claims[cid].spec.allocationId].spec.runners
                  && Recent(at, k, env)
                  && (if k.claims[cid].startedAt.Some? then k.claims[cid].startedAt.value <= at else k.claims[cid].createdAt <= at)
                  && match operation
                     case Acquire => k.legacy.None? && !env.sidecar && k.claims[cid].status == Running && key !in k.resources
                     case Release => key in k.resources && k.resources[key].claim == cid && k.resources[key].since <= at)
            && (s.Done? ==>
                  s.state == match operation
                             case Acquire => k.(resources := k.resources[key := Holder(cid, env.now)], events := k.events + [RunnerAcquired(cid, key)])
                             case Release => k.(resources := k.resources - {key}, events := k.events + [RunnerReleased(cid, key)]))
  {
    if cid in k.claims {
      assert ClaimLinked(k, cid);
      assert AllocationShape(k.allocations[k.claims[cid].spec.allocationId], k.claims[cid].spec.allocationId);
    }
  }

  /** A held claim is settled on a recent observation that does not predate it, as terminal if a native task is known and
      as never created, at no cost, if none is, once its runners are given back. It then records that proof and the time,
      and every key it owned is free. */
  lemma SettleExactly(k: Kernel, env: Env, cid: Id, proof: Proof)
    requires Linked(k) && cid in k.claims && Held(k.claims[cid])
    ensures var s := Settle(k, env, cid, proof);
            && (s.Done? <==>
                  && k.claims[cid].spec.bindingHash.None?
                  && 0 <= proof.actual.cachedInput <= proof.actual.input <= 1_000_000_000_000
                  && 0 <= proof.actual.reasoningOutput <= proof.actual.output <= 1_000_000_000_000
                  && Recent(proof.observedAt, k, env)
                  && (if k.claims[cid].startedAt.Some? then k.claims[cid].startedAt.value <= proof.observedAt
                      else k.claims[cid].createdAt <= proof.observedAt)
                  && (proof.outcome == Terminal <==> k.claims[cid].status == Running || k.claims[cid].status == Blocked)
                  && (proof.outcome == NotCreated ==> proof.actual.input == 0 && proof.actual.output == 0)
                  && forall key | key in k.resources && k.resources[key].claim == cid :: key.RepoLocal? || key.RepoRemote?)
            && (s.Done? ==>
                  && s.value == k.claims[cid].(status := Settled, actual := Some(proof.actual), settledAt := Some(env.now), settlement := Some(proof))
                  && s.state == k.(claims := k.claims[cid := s.value], resources := s.state.resources,
                                   events := k.events + [ClaimSettled(cid, proof.evidence)])
                  && forall key ::
                       && (key in s.state.resources <==> key in k.resources && k.resources[key].claim != cid)
                       && (key in s.state.resources ==> s.state.resources[key] == k.resources[key]))
  {
    assert ClaimLinked(k, cid);
  }

  /** Settling a settled claim again answers the claim for the same proof and refuses any other. */
  lemma SettleReplays(k: Kernel, env: Env, cid: Id, proof: Proof)
    requires Linked(k) && cid in k.claims && !Held(k.claims[cid])
    ensures Settle(k, env, cid, proof)
            == if k.claims[cid].spec.bindingHash.None? && k.claims[cid].settlement == Some(proof) then Done(k, k.claims[cid]) else Refused
  {
    assert ClaimLinked(k, cid);
  }

  /** An allocation is closed if and only if all its claims are settled; its first closing stands. */
  lemma CloseExactly(k: Kernel, env: Env, aid: Id, e: Hash)
    ensures var s := CloseAllocation(k, env, aid, e);
            && (s.Done? <==> aid in k.allocations && forall id | id in k.claims && k.claims[id].spec.allocationId == aid :: k.claims[id].status == Settled)
            && (s.Done? ==>
                  s.state == if k.allocations[aid].closed.Some? then k
                             else k.(allocations := k.allocations[aid := k.allocations[aid].(closed := Some(Closing(env.now, e)))],
                                     events := k.events + [AllocationClosed(aid)]))
  {
  }

  // ---------- and over whole histories ----------

  /** The claim entered the store at step `j`, when work of its size could start and a slot was left. */
  ghost predicate AdmittedAt(policy: Policy, trace: seq<(Env, Op)>, cid: Id, j: nat)
    requires j < |trace|
  {
    var k, op := Reached(policy, trace[..j]), trace[j].1;
    && op.OpReserve? && op.cid == cid && cid !in k.claims
    && MayStart(k, trace[j].0, op.aid, op.estimates.work + op.estimates.review + op.estimates.handoff)
    && HasSlot(k, op.aid, op.repos)
  }

  /** The claim crossed the creation boundary at step `j`, when its allocation had room for all that was charged. */
  ghost predicate BegunAt(policy: Policy, trace: seq<(Env, Op)>, cid: Id, j: nat)
    requires j < |trace|
  {
    var k, op := Reached(policy, trace[..j]), trace[j].1;
    op == OpBegin(cid) && cid in k.claims && MayStart(k, trace[j].0, k.claims[cid].spec.allocationId, 0)
  }

  /** No claim enters and none starts. */
  ghost predicate StartsNothing(k: Kernel, b: Kernel) {
    b.claims.Keys == k.claims.Keys && forall cid | cid in k.claims :: b.claims[cid].startedAt == k.claims[cid].startedAt
  }

  lemma BindStartsNothing(k: Kernel, cid: Id, n: Native)
    requires Linked(k)
    ensures StartsNothing(k, Next(k, Bind(k, cid, n)))
  {
    if cid in k.claims { assert ClaimLinked(k, cid); }
  }

  lemma BlockStartsNothing(k: Kernel, cid: Id, e: Hash)
    requires Linked(k)
    ensures StartsNothing(k, Next(k, Block(k, cid, e)))
  {
    if cid in k.claims { assert ClaimLinked(k, cid); }
  }

  lemma SettleStartsNothing(k: Kernel, env: Env, cid: Id, proof: Proof)
    requires Linked(k)
    ensures StartsNothing(k, Next(k, Settle(k, env, cid, proof)))
  {
    if cid in k.claims { assert ClaimLinked(k, cid); }
  }

  lemma RowsStartNothing(k: Kernel, env: Env, op: Op)
    requires op.OpOpen? || op.OpAccount? || op.OpUsage? || op.OpRunner? || op.OpClose?
    ensures Apply(k, env, op).claims == k.claims
  {
  }

  lemma OthersStartNothing(k: Kernel, env: Env, op: Op)
    requires Linked(k) && !op.OpReserve? && !op.OpBegin?
    ensures StartsNothing(k, Apply(k, env, op))
  {
    match op
    case OpBind(cid, n) => BindStartsNothing(k, cid, n);
    case OpBlock(cid, e) => BlockStartsNothing(k, cid, e);
    case OpSettle(cid, proof) => SettleStartsNothing(k, env, cid, proof);
    case _ => RowsStartNothing(k, env, op);
  }

  lemma ReserveAdmits(k: Kernel, env: Env, op: Op, cid: Id)
    requires Linked(k) && Accounting(k) && op.OpReserve?
    ensures cid in k.claims ==> cid in Apply(k, env, op).claims && Apply(k, env, op).claims[cid] == k.claims[cid]
    ensures cid in Apply(k, env, op).claims && cid !in k.claims ==>
              && op.cid == cid && HasSlot(k, op.aid, op.repos)
              && MayStart(k, env, op.aid, op.estimates.work + op.estimates.review + op.estimates.handoff)
              && Apply(k, env, op).claims[cid].startedAt.None?
  {
    if op.cid !in k.claims {
      ReserveExactly(k, env, op.cid, op.aid, op.repos, op.estimates, op.role, op.binding);
    }
  }

  lemma StepAdmits(k: Kernel, env: Env, op: Op, cid: Id)
    requires Linked(k) && Accounting(k) && cid in Apply(k, env, op).claims
    ensures cid !in k.claims ==>
              && op.OpReserve? && op.cid == cid && HasSlot(k, op.aid, op.repos)
              && MayStart(k, env, op.aid, op.estimates.work + op.estimates.review + op.estimates.handoff)
              && Apply(k, env, op).claims[cid].startedAt.None?
    ensures cid in k.claims && k.claims[cid].startedAt.None? && Apply(k, env, op).claims[cid].startedAt.Some? ==>
              op == OpBegin(cid) && MayStart(k, env, k.claims[cid].spec.allocationId, 0)
  {
    if op.OpReserve? {
      ReserveAdmits(k, env, op, cid);
    } else if op.OpBegin? {
      BeginExactly(k, env, op.cid);
    } else {
      OthersStartNothing(k, env, op);
    }
  }

  lemma AdmittedStays(policy: Policy, trace: seq<(Env, Op)>, cid: Id, n: nat, j: nat)
    requires j < n <= |trace|
    ensures AdmittedAt(policy, trace[..n], cid, j) <==> AdmittedAt(policy, trace, cid, j)
    ensures BegunAt(policy, trace[..n], cid, j) <==> BegunAt(policy, trace, cid, j)
  {
    assert trace[..n][..j] == trace[..j];
  }

  /** No claim is in any reachable store that was not admitted on those terms. */
  lemma {:induction false} EveryClaimWasAdmitted(policy: Policy, trace: seq<(Env, Op)>, cid: Id) returns (j: nat)
    requires ValidPolicy(policy) && cid in Reached(policy, trace).claims
    ensures j < |trace| && AdmittedAt(policy, trace, cid, j)
    decreases |trace|
  {
    var n := |trace| - 1;
    var k := Reached(policy, trace[..n]);
    if cid in k.claims {
      j := EveryClaimWasAdmitted(policy, trace[..n], cid);
      AdmittedStays(policy, trace, cid, n, j);
    } else {
      assert Linked(k) && Accounting(k) by { ReachedHolds(policy, trace[..n]); }
      StepAdmits(k, trace[n].0, trace[n].1, cid);
      j := n;
    }
  }

  /** And none has started that did not cross the creation boundary on them. */
  lemma {:induction false} EveryStartHadRoom(policy: Policy, trace: seq<(Env, Op)>, cid: Id) returns (j: nat)
    requires ValidPolicy(policy) && cid in Reached(policy, trace).claims && Reached(policy, trace).claims[cid].startedAt.Some?
    ensures j < |trace| && BegunAt(policy, trace, cid, j)
    decreases |trace|
  {
    var n := |trace| - 1;
    var k := Reached(policy, trace[..n]);
    if cid in k.claims && k.claims[cid].startedAt.Some? {
      j := EveryStartHadRoom(policy, trace[..n], cid);
      AdmittedStays(policy, trace, cid, n, j);
    } else {
      assert Linked(k) && Accounting(k) by { ReachedHolds(policy, trace[..n]); }
      StepAdmits(k, trace[n].0, trace[n].1, cid);
      j := n;
    }
  }
}
