/** The store itself, whose methods rewrite its tables row by row. Each method is proved to take the
    step that AdmissionModel names, so every theorem about runs of steps is about these methods. */
module AdmissionStores {
  import opened Sums
  import opened AdmissionModel
  import opened AdmissionInvariant

  datatype Budget = Budget(observed: int, held: int, unincorporated: int, remaining: int, usageKnown: bool)

  /** One pass over the claims computes both sums of the budget. */
  method BudgetProjection(claims: map<Id, Claim>, a: Allocation) returns (b: Budget)
    ensures b.held == MapSum(claims, HeldTokens(a.id))
    ensures b.unincorporated == MapSum(claims, OpenSettledTokens(a.id, Included(a)))
    ensures b.observed == Observed(a) && b.usageKnown == UsageKnown(a)
    ensures b.remaining + b.observed + b.held + b.unincorporated + a.spec.limits.checkpointReserve == a.spec.limits.tokenBudget
  {
    var included := Included(a);
    var held, unsettled := 0, 0;
    var rest := claims;
    while rest != map[]
      invariant rest.Keys <= claims.Keys && forall id | id in rest :: rest[id] == claims[id]
      invariant held + MapSum(rest, HeldTokens(a.id)) == MapSum(claims, HeldTokens(a.id))
      invariant unsettled + MapSum(rest, OpenSettledTokens(a.id, included)) == MapSum(claims, OpenSettledTokens(a.id, included))
      decreases |rest|
    {
      var id :| id in rest;
      var c := rest[id];
      MapSumTake(rest, HeldTokens(a.id), id);
      MapSumTake(rest, OpenSettledTokens(a.id, included), id);
      if c.spec.allocationId == a.id {
        if Held(c) {
          held := held + Estimated(c);
        } else if id !in included {
          unsettled := unsettled + ActualTokens(c);
        }
      }
      rest := rest - {id};
    }
    var spent := Observed(a);
    b := Budget(spent, held, unsettled,
                a.spec.limits.tokenBudget - spent - held - unsettled - a.spec.limits.checkpointReserve, UsageKnown(a));
  }

  class AdmissionStore {
    var policy: Policy
    var account: Option<Account>
    var legacy: Option<Bundle>
    var legacyClaims: Option<map<(Id, Id, Id), LegacyClaim>>
    var allocations: map<Id, Allocation>
    var claims: map<Id, Claim>
    var resources: map<ResourceKey, Holder>
    var events: seq<Event>

    function State(): Kernel
      reads this
    {
      Kernel(policy, account, legacy, legacyClaims, allocations, claims, resources, events)
    }

    constructor (policy: Policy)
      requires ValidPolicy(policy)
      ensures State() == Empty(policy) && Invariant(State())
    {
      this.policy := policy;
      account, legacy, legacyClaims := None, None, None;
      allocations, claims, resources, events := map[], map[], map[], [];
      new;
      EmptyHolds(policy);
    }

    method CheckBudget(env: Env, a: Allocation, extra: int) returns (ok: bool)
      ensures ok == BudgetAllows(State(), env, a, extra)
    {
      if Fenced(State(), env) || a.closed.Some? || !env.nativePass || !env.phasePass { return false; }
      if !AccountOpen(State(), env) { return false; }
      var budget := BudgetProjection(claims, a);
      if !budget.usageKnown { return false; }
      if !Fresh(a.usage.value.observedAt, State(), env) { return false; }
      ok := budget.remaining >= extra;
    }

    /** Slots and attempts are counted over all claims. */
    method CountSlots(aid: Id) returns (held: int, heldHere: int, attempts: int)
      ensures held == MapSum(claims, HeldOne()) && heldHere == MapSum(claims, HeldOneIn(aid)) && attempts == MapSum(claims, AttemptIn(aid))
    {
      held, heldHere, attempts := 0, 0, 0;
      var rest := claims;
      while rest != map[]
        invariant rest.Keys <= claims.Keys && forall id | id in rest :: rest[id] == claims[id]
        invariant held + MapSum(rest, HeldOne()) == MapSum(claims, HeldOne())
        invariant heldHere + MapSum(rest, HeldOneIn(aid)) == MapSum(claims, HeldOneIn(aid))
        invariant attempts + MapSum(rest, AttemptIn(aid)) == MapSum(claims, AttemptIn(aid))
        decreases |rest|
      {
        var id :| id in rest;
        var c := rest[id];
        MapSumTake(rest, HeldOne(), id);
        MapSumTake(rest, HeldOneIn(aid), id);
        MapSumTake(rest, AttemptIn(aid), id);
        if Held(c) { held := held + 1; }
        if c.spec.allocationId == aid {
          attempts := attempts + 1;
          if Held(c) { heldHere := heldHere + 1; }
        }
        rest := rest - {id};
      }
    }

    /** Slots first, then every requested name is resolved to its canonical keys. */
    method CheckCapacity(a: Allocation, repos: set<Id>) returns (ok: bool, keys: set<ResourceKey>)
      ensures ok == CapacityAllows(State(), a, repos)
      ensures ok ==> keys == RepoKeys(a, repos)
    {
      keys := {};
      var held, heldHere, attempts := CountSlots(a.id);
      if held >= policy.maxParallelTasks || heldHere >= a.spec.limits.maxParallelTasks || attempts >= a.spec.limits.maxTasks {
        return false, {};
      }
      var names := repos;
      while names != {}
        invariant names <= repos && repos - names <= a.spec.repositories.Keys
        invariant keys == RepoKeys(a, repos - names)
        decreases |names|
      {
        var r :| r in names;
        if r !in a.spec.repositories { return false, {}; }
        keys := keys + a.spec.repositories[r];
        assert repos - (names - {r}) == (repos - names) + {r};
        names := names - {r};
      }
      assert repos - names == repos;
      ok := keys !! resources.Keys;
    }

    method OpenAllocation(env: Env, aid: Id, workspaceId: Id, bindingHash: Hash, limits: Limits,
                          repositories: map<Id, seq<ResourceKey>>, runners: seq<ResourceKey>)
      returns (answer: Option<Allocation>)
      modifies this
      ensures var s := AdmissionModel.OpenAllocation(old(State()), env, aid, workspaceId, bindingHash, limits, repositories, runners);
              State() == Next(old(State()), s) && answer == (if s.Done? then Some(s.value) else None)
    {
      if !ValidLimits(limits) || !ValidRepositories(repositories) || !ValidRunners(runners) { return None; }
      var spec := AllocationSpec(workspaceId, bindingHash, limits, CleanRepositories(repositories), Elements(runners));
      if Fenced(State(), env) { return None; }
      if aid in allocations {
        if allocations[aid].spec != spec { return None; }
        return Some(allocations[aid]);
      }
      if WorkspaceOpen(State(), workspaceId) { return None; }
      var a := Allocation(aid, spec, env.now, None, None);
      allocations := allocations[aid := a];
      events := events + [AllocationOpened(aid)];
      answer := Some(a);
    }

    method ObserveAccount(env: Env, o: Account) returns (ok: bool)
      modifies this
      ensures var s := AdmissionModel.ObserveAccount(old(State()), env, o); State() == Next(old(State()), s) && ok == s.Done?
    {
      if !ValidWindow(o.short, o.observedAt) || !ValidWindow(o.long, o.observedAt) || env.nativeJournal { return false; }
      if account == Some(o) { return true; }
      if !Fresh(o.observedAt, State(), env) { return false; }
      if account.Some? && o.observedAt <= account.value.observedAt { return false; }
      account := Some(o);
      events := events + [AccountObserved(o.evidence)];
      ok := true;
    }

    method ObserveUsage(env: Env, aid: Id, o: Usage) returns (ok: bool)
      modifies this
      ensures var s := AdmissionModel.ObserveUsage(old(State()), env, aid, o); State() == Next(old(State()), s) && ok == s.Done?
    {
      if !ValidUsage(o) || aid !in allocations || env.phaseJournal { return false; }
      var a := allocations[aid];
      if a.usage == Some(o) { return true; }
      if !Fresh(o.observedAt, State(), env) || o.observedAt < a.createdAt { return false; }
      if a.usage.Some? {
        var prior := a.usage.value;
        if !(o.observedAt > prior.observedAt && CountersGrow(prior.counters, o.counters)
             && Elements(prior.settledClaimIds) <= Elements(o.settledClaimIds)) { return false; }
      }
      var total := 0;
      for i := 0 to |o.settledClaimIds|
        invariant forall j | 0 <= j < i :: CoversOnlySettled(State(), aid, o.(settledClaimIds := [o.settledClaimIds[j]]))
        invariant total == ListedTokens(State(), o.settledClaimIds[..i])
        invariant State() == old(State())
      {
        var id := o.settledClaimIds[i];
        assert id in o.(settledClaimIds := [id]).settledClaimIds;
        if id !in claims { return false; }
        var c := claims[id];
        if c.spec.allocationId != aid || c.status != Settled || c.settledAt.None? || c.settledAt.value > o.observedAt { return false; }
        assert o.settledClaimIds[..i + 1][..i] == o.settledClaimIds[..i];
        total := total + ActualTokens(c);
      }
      assert o.settledClaimIds[..|o.settledClaimIds|] == o.settledClaimIds;
      assert CoversOnlySettled(State(), aid, o) by {
        forall id | id in o.settledClaimIds ensures CoversOnlySettled(State(), aid, o.(settledClaimIds := [id])) {}
        forall id | id in o.settledClaimIds ensures id in o.(settledClaimIds := [id]).settledClaimIds {}
      }
      if total > TokensOf(o.counters) { return false; }
      allocations := allocations[aid := a.(usage := Some(o))];
      events := events + [UsageObserved(aid, o.evidence)];
      ok := true;
    }

    /** One row per key, in any order. */
    method InsertHolders(keys: set<ResourceKey>, h: Holder)
      modifies this`resources
      ensures resources == WithHolders(old(resources), keys, h)
    {
      var rest := keys;
      while rest != {}
        invariant rest <= keys
        invariant resources == WithHolders(old(resources), keys - rest, h)
        decreases |rest|
      {
        var key :| key in rest;
        resources := resources[key := h];
        assert keys - (rest - {key}) == (keys - rest) + {key};
        rest := rest - {key};
      }
      assert keys - rest == keys;
    }

    method Reserve(env: Env, cid: Id, aid: Id, repos: seq<Id>, estimates: Estimates, role: Role, bindingHash: Option<Hash>)
      returns (answer: Option<Claim>)
      modifies this
      ensures var s := AdmissionModel.Reserve(old(State()), env, cid, aid, repos, estimates, role, bindingHash);
              State() == Next(old(State()), s) && answer == (if s.Done? then Some(s.value) else None)
    {
      if |repos| < 1 || |repos| > 20 || !Distinct(repos) || !ValidEstimates(estimates) { return None; }
      var spec := ClaimSpec(aid, Elements(repos), estimates, role, bindingHash);
      if Fenced(State(), env) { return None; }
      if cid in claims {
        if claims[cid].spec != spec { return None; }
        return Some(claims[cid]);
      }
      if aid !in allocations { return None; }
      var a := allocations[aid];
      var c := Claim(cid, spec, Status.Reserved, env.now, None, None, None, None, None);
      var affordable := CheckBudget(env, a, Estimated(c));
      if !affordable { return None; }
      var free, keys := CheckCapacity(a, spec.repositories);
      if !free { return None; }
      claims := claims[cid := c];
      InsertHolders(keys, Holder(cid, env.now));
      events := events + [CapacityReserved(cid)];
      answer := Some(c);
    }

    method PutRow(c: Claim, e: Event)
      modifies this
      ensures State() == PutClaim(old(State()), c, e)
    {
      claims := claims[c.id := c];
      events := events + [e];
    }

    method Begin(env: Env, cid: Id) returns (answer: Option<Claim>)
      modifies this
      ensures var s := AdmissionModel.Begin(old(State()), env, cid);
              State() == Next(old(State()), s) && answer == (if s.Done? then Some(s.value) else None)
    {
      if cid !in claims || claims[cid].status != Status.Reserved { return None; }
      var c := claims[cid];
      if c.spec.allocationId !in allocations { return None; }
      var affordable := CheckBudget(env, allocations[c.spec.allocationId], 0);
      if !affordable { return None; }
      c := c.(status := Starting, startedAt := Some(env.now));
      PutRow(c, CreationBoundary(cid));
      answer := Some(c);
    }

    method Bind(cid: Id, native: Native) returns (answer: Option<Claim>)
      modifies this
      ensures var s := AdmissionModel.Bind(old(State()), cid, native);
              State() == Next(old(State()), s) && answer == (if s.Done? then Some(s.value) else None)
    {
      if cid !in claims { return None; }
      var c := claims[cid];
      if c.spec.bindingHash.Some? || c.status !in {Starting, Uncertain, Blocked, Running} { return None; }
      if c.native.Some? {
        if c.native.value != native { return None; }
        return Some(c);
      }
      if NativeTaken(State(), native) { return None; }
      c := c.(status := Running, native := Some(native));
      PutRow(c, NativeBound(cid, native));
      answer := Some(c);
    }

    method Block(cid: Id, evidence: Hash) returns (ok: bool)
      modifies this
      ensures var s := AdmissionModel.Block(old(State()), cid, evidence); State() == Next(old(State()), s) && ok == s.Done?
    {
      if cid !in claims { return false; }
      var c := claims[cid];
      if c.spec.bindingHash.Some? || c.status !in {Starting, Running, Uncertain, Blocked} { return false; }
      c := c.(status := if c.native.Some? then Blocked else Uncertain);
      PutRow(c, OwnershipRetained(cid, evidence));
      ok := true;
    }

    method UseRunner(env: Env, cid: Id, key: ResourceKey, operation: RunnerOperation, observedAt: real) returns (ok: bool)
      modifies this
      ensures var s := AdmissionModel.UseRunner(old(State()), env, cid, key, operation, observedAt);
              State() == Next(old(State()), s) && ok == s.Done?
    {
      if !key.Runner? || cid !in claims { return false; }
      var c := claims[cid];
      if c.spec.bindingHash.Some? || !Fresh(observedAt, State(), env) || observedAt < AttemptAt(c) { return false; }
      if c.spec.allocationId !in allocations || key !in allocations[c.spec.allocationId].spec.runners { return false; }
      if operation.Acquire? {
        if Fenced(State(), env) || c.status != Running || key in resources { return false; }
        resources := resources[key := Holder(cid, env.now)];
        events := events + [RunnerAcquired(cid, key)];
      } else {
        if key !in resources || resources[key].claim != cid || observedAt < resources[key].since { return false; }
        resources := resources - {key};
        events := events + [RunnerReleased(cid, key)];
      }
      ok := true;
    }

    method Settle(env: Env, cid: Id, proof: Proof) returns (answer: Option<Claim>)
      modifies this
      ensures var s := AdmissionModel.Settle(old(State()), env, cid, proof);
              State() == Next(old(State()), s) && answer == (if s.Done? then Some(s.value) else None)
    {
      if !ValidCounters(proof.actual) || cid !in claims { return None; }
      var c := claims[cid];
      if c.spec.bindingHash.Some? { return None; }
      if c.status == Settled {
        if c.settlement != Some(proof) { return None; }
        return Some(c);
      }
      if !Fresh(proof.observedAt, State(), env) || proof.observedAt < AttemptAt(c) { return None; }
      if !((proof.outcome.Terminal? && c.native.Some?)
           || (proof.outcome.NotCreated? && c.native.None? && TokensOf(proof.actual) == 0)) { return None; }
      if HoldsRunner(State(), cid) { return None; }
      c := c.(status := Settled, actual := Some(proof.actual), settledAt := Some(env.now), settlement := Some(proof));
      PutRow(c, ClaimSettled(cid, proof.evidence));
      resources := map key | key in resources && resources[key].claim != cid :: resources[key];
      answer := Some(c);
    }

    method CloseAllocation(env: Env, aid: Id, evidence: Hash) returns (ok: bool)
      modifies this
      ensures var s := AdmissionModel.CloseAllocation(old(State()), env, aid, evidence); State() == Next(old(State()), s) && ok == s.Done?
    {
      if aid !in allocations || AnyHeldIn(State(), aid) { return false; }
      if allocations[aid].closed.None? {
        allocations := allocations[aid := allocations[aid].(closed := Some(Closing(env.now, evidence)))];
        events := events + [AllocationClosed(aid)];
      }
      ok := true;
    }
  }
}
