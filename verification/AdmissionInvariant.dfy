/** What every reachable store satisfies: the parts of the invariant, each kept by every operation. */
module AdmissionInvariant {
  import opened Sums
  import opened AdmissionModel

  // ---------- the parts ----------

  predicate ClaimShape(c: Claim) {
    && ValidEstimates(c.spec.estimates)
    && (c.status == Settled <==> c.actual.Some?)
    && (c.status == Settled <==> c.settlement.Some?)
    && (c.status == Settled <==> c.settledAt.Some?)
    && (c.status == Settled ==> c.settlement.value.actual == c.actual.value && ValidCounters(c.actual.value))
    && (c.status == Settled ==> (c.native.Some? <==> c.settlement.value.outcome == Terminal))
    && (c.status != Settled ==> (c.native.Some? <==> c.status in {Running, Blocked}))
    && (c.status == Status.Reserved ==> c.startedAt.None?)
    && (c.status in {Starting, Running, Uncertain, Blocked} ==> c.startedAt.Some?)
    && (c.spec.bindingHash.Some? ==> c.status in {Status.Reserved, Starting})
  }

  /** Rows name each other consistently. */
  ghost predicate Linked(k: Kernel) {
    && (forall aid | aid in k.allocations :: AllocationShape(k.allocations[aid], aid))
    && (forall cid | cid in k.claims :: ClaimLinked(k, cid))
  }

  ghost predicate AllocationShape(a: Allocation, aid: Id) {
    && a.id == aid && ValidLimits(a.spec.limits)
    && (forall r, key | r in a.spec.repositories && key in a.spec.repositories[r] :: !key.Runner?)
    && (forall key | key in a.spec.runners :: key.Runner?)
  }

  ghost predicate ClaimLinked(k: Kernel, cid: Id)
    requires cid in k.claims
  {
    var c := k.claims[cid];
    && c.id == cid && ClaimShape(c)
    && c.spec.allocationId in k.allocations
    && c.spec.repositories <= k.allocations[c.spec.allocationId].spec.repositories.Keys
  }

  ghost predicate NativesInjective(k: Kernel) {
    forall c, d | c in k.claims && d in k.claims && k.claims[c].native.Some? && k.claims[c].native == k.claims[d].native :: c == d
  }

  /** The keys of a claim's repositories, as its allocation pins them. */
  function ScopeOf(k: Kernel, cid: Id): set<ResourceKey> {
    if cid in k.claims && k.claims[cid].spec.allocationId in k.allocations
    then RepoKeys(k.allocations[k.claims[cid].spec.allocationId], k.claims[cid].spec.repositories)
    else {}
  }

  function RunnersOf(k: Kernel, cid: Id): set<ResourceKey> {
    if cid in k.claims && k.claims[cid].spec.allocationId in k.allocations && k.claims[cid].status in {Running, Blocked}
    then k.allocations[k.claims[cid].spec.allocationId].spec.runners
    else {}
  }

  ghost predicate RowsJustified(k: Kernel) {
    forall key | key in k.resources :: Justified(k, key)
  }

  ghost predicate ScopesHeld(k: Kernel) {
    forall cid, key | cid in k.claims && Held(k.claims[cid]) && key in ScopeOf(k, cid) ::
      key in k.resources && k.resources[key].claim == cid
  }

  ghost predicate Ownership(k: Kernel) {
    RowsJustified(k) && ScopesHeld(k)
  }

  ghost predicate Justified(k: Kernel, key: ResourceKey)
    requires key in k.resources
  {
    var cid := k.resources[key].claim;
    cid in k.claims && Held(k.claims[cid]) && (key in ScopeOf(k, cid) || key in RunnersOf(k, cid))
  }

  ghost predicate UsageSound(k: Kernel, a: Allocation) {
    a.usage.Some? ==>
      && ValidUsage(a.usage.value)
      && a.usage.value.observedAt > 0.0
      && (forall id | id in a.usage.value.settledClaimIds ::
            id in k.claims && k.claims[id].spec.allocationId == a.id && k.claims[id].status == Settled)
      && MapSum(k.claims, IncludedTokens(a.id, Included(a))) <= Observed(a)
  }

  ghost predicate Accounting(k: Kernel) {
    forall aid | aid in k.allocations :: UsageSound(k, k.allocations[aid])
  }

  ghost predicate WithinLimits(k: Kernel) {
    && MapSum(k.claims, HeldOne()) <= k.policy.maxParallelTasks
    && forall aid | aid in k.allocations ::
         && MapSum(k.claims, HeldOneIn(aid)) <= k.allocations[aid].spec.limits.maxParallelTasks
         && MapSum(k.claims, AttemptIn(aid)) <= k.allocations[aid].spec.limits.maxTasks
  }

  ghost predicate Closure(k: Kernel) {
    && (forall aid | aid in k.allocations && k.allocations[aid].closed.Some? :: !AnyHeldIn(k, aid))
    && (forall a, b | a in k.allocations && b in k.allocations && k.allocations[a].closed.None? && k.allocations[b].closed.None?
                      && k.allocations[a].spec.workspaceId == k.allocations[b].spec.workspaceId :: a == b)
  }

  function Occurrences(events: seq<Event>, e: Event): nat {
    if events == [] then 0
    else Occurrences(events[..|events| - 1], e) + (if events[|events| - 1] == e then 1 else 0)
  }

  ghost predicate Journal(k: Kernel) {
    forall cid :: Occurrences(k.events, CreationBoundary(cid)) == if cid in k.claims && k.claims[cid].startedAt.Some? then 1 else 0
  }

  ghost predicate Invariant(k: Kernel) {
    && ValidPolicy(k.policy)
    && Linked(k) && NativesInjective(k) && Ownership(k) && Accounting(k) && WithinLimits(k) && Closure(k) && Journal(k)
  }

  // ---------- one claim moves on ----------

  /** `b` is `k` with the held claim `c.id` replaced by `c`; rows of other tables may differ. */
  ghost predicate MovesClaim(k: Kernel, b: Kernel, c: Claim) {
    && b.policy == k.policy && b.allocations == k.allocations
    && c.id in k.claims && Held(k.claims[c.id]) && c.spec == k.claims[c.id].spec
    && ClaimShape(c)
    && b.claims == k.claims[c.id := c]
  }

  lemma MovesLinked(k: Kernel, b: Kernel, c: Claim)
    requires Linked(k) && MovesClaim(k, b, c)
    ensures Linked(b)
  {
    forall cid | cid in b.claims ensures ClaimLinked(b, cid) {
      if cid != c.id { assert ClaimLinked(k, cid); } else { assert ClaimLinked(k, c.id); }
    }
  }

  lemma MovesLimits(k: Kernel, b: Kernel, c: Claim)
    requires Linked(k) && WithinLimits(k) && MovesClaim(k, b, c)
    ensures WithinLimits(b)
  {
    MapSumPut(k.claims, HeldOne(), c.id, c);
    forall aid | aid in b.allocations
      ensures MapSum(b.claims, HeldOneIn(aid)) <= b.allocations[aid].spec.limits.maxParallelTasks
      ensures MapSum(b.claims, AttemptIn(aid)) <= b.allocations[aid].spec.limits.maxTasks
    {
      MapSumPut(k.claims, HeldOneIn(aid), c.id, c);
      MapSumPut(k.claims, AttemptIn(aid), c.id, c);
    }
  }

  lemma MovesAccounting(k: Kernel, b: Kernel, c: Claim)
    requires Linked(k) && Accounting(k) && MovesClaim(k, b, c)
    ensures Accounting(b)
  {
    forall aid | aid in b.allocations ensures UsageSound(b, b.allocations[aid]) {
      var a := k.allocations[aid];
      assert UsageSound(k, a);
      if a.usage.Some? {
        assert c.id !in Included(a);
        MapSumPut(k.claims, IncludedTokens(a.id, Included(a)), c.id, c);
      }
    }
  }

  lemma MovesClosure(k: Kernel, b: Kernel, c: Claim)
    requires Closure(k) && MovesClaim(k, b, c)
    ensures Closure(b)
  {
    forall aid | aid in b.allocations && b.allocations[aid].closed.Some? ensures !AnyHeldIn(b, aid) {
      assert !AnyHeldIn(k, aid);
      assert k.claims[c.id].spec.allocationId != aid;
    }
  }

  /** Ownership survives when no resource row changes and the claim keeps the right to its runners. */
  lemma MovesOwnership(k: Kernel, b: Kernel, c: Claim)
    requires Ownership(k) && MovesClaim(k, b, c) && b.resources == k.resources
    requires Held(c) && RunnersOf(k, c.id) <= RunnersOf(b, c.id)
    ensures Ownership(b)
  {
    MovesRows(k, b, c);
    MovesScopes(k, b, c);
  }

  lemma MovesRows(k: Kernel, b: Kernel, c: Claim)
    requires RowsJustified(k) && MovesClaim(k, b, c) && b.resources == k.resources
    requires Held(c) && RunnersOf(k, c.id) <= RunnersOf(b, c.id)
    ensures RowsJustified(b)
  {
    forall key | key in b.resources ensures Justified(b, key) {
      assert Justified(k, key);
      SameScope(k, b, c, b.resources[key].claim);
    }
  }

  lemma MovesScopes(k: Kernel, b: Kernel, c: Claim)
    requires ScopesHeld(k) && MovesClaim(k, b, c) && b.resources == k.resources && Held(c)
    ensures ScopesHeld(b)
  {
    forall cid | cid in b.claims ensures ScopeOf(b, cid) == ScopeOf(k, cid) {
      SameScope(k, b, c, cid);
    }
  }

  lemma SameScope(k: Kernel, b: Kernel, c: Claim, cid: Id)
    requires MovesClaim(k, b, c) && cid in k.claims
    ensures ScopeOf(b, cid) == ScopeOf(k, cid)
    ensures cid != c.id ==> RunnersOf(b, cid) == RunnersOf(k, cid)
  {
  }

  lemma OccurrencesPush(events: seq<Event>, e: Event, x: Event)
    ensures Occurrences(events + [e], x) == Occurrences(events, x) + if e == x then 1 else 0
  {
    assert (events + [e])[..|events|] == events;
  }

  lemma JournalPush(k: Kernel, b: Kernel, e: Event)
    requires Journal(k) && b.events == k.events + [e]
    requires forall cid :: (cid in b.claims && b.claims[cid].startedAt.Some?)
                           <==> (cid in k.claims && k.claims[cid].startedAt.Some?) || e == CreationBoundary(cid)
    requires e.CreationBoundary? ==> !(e.id in k.claims && k.claims[e.id].startedAt.Some?)
    ensures Journal(b)
  {
    forall cid
      ensures Occurrences(b.events, CreationBoundary(cid)) == if cid in b.claims && b.claims[cid].startedAt.Some? then 1 else 0
    {
      OccurrencesPush(k.events, e, CreationBoundary(cid));
    }
  }

  // ---------- operations on one claim ----------

  /** The answer `c` is put in place of the old row, with one event. */
  ghost predicate MovesWith(k: Kernel, b: Kernel, c: Claim, e: Event) {
    && MovesClaim(k, b, c)
    && b.events == k.events + [e]
    && (c.native == k.claims[c.id].native || (c.native.Some? && !NativeTaken(k, c.native.value)))
    && (if e == CreationBoundary(c.id) then k.claims[c.id].startedAt.None? && c.startedAt.Some?
        else !e.CreationBoundary? && c.startedAt.Some? == k.claims[c.id].startedAt.Some?)
  }

  lemma MovesNatives(k: Kernel, b: Kernel, c: Claim, e: Event)
    requires NativesInjective(k) && MovesWith(k, b, c, e)
    ensures NativesInjective(b)
  {
  }

  lemma MovesJournal(k: Kernel, b: Kernel, c: Claim, e: Event)
    requires Journal(k) && MovesWith(k, b, c, e)
    ensures Journal(b)
  {
    JournalPush(k, b, e);
  }

  lemma MovesKeeps(k: Kernel, b: Kernel, c: Claim, e: Event)
    requires Invariant(k) && MovesWith(k, b, c, e) && Ownership(b)
    ensures Invariant(b)
  {
    MovesLinked(k, b, c);
    MovesLimits(k, b, c);
    MovesAccounting(k, b, c);
    MovesClosure(k, b, c);
    MovesNatives(k, b, c, e);
    MovesJournal(k, b, c, e);
  }

  lemma BeginMoves(k: Kernel, env: Env, cid: Id)
    requires cid in k.claims && ClaimLinked(k, cid) && Begin(k, env, cid).Done?
    ensures MovesWith(k, Begin(k, env, cid).state, Begin(k, env, cid).value, CreationBoundary(cid))
  {
  }

  lemma BindMoves(k: Kernel, cid: Id, native: Native)
    requires cid in k.claims && ClaimLinked(k, cid) && Bind(k, cid, native).Done? && k.claims[cid].native.None?
    ensures MovesWith(k, Bind(k, cid, native).state, Bind(k, cid, native).value, NativeBound(cid, native))
  {
  }

  lemma BlockMoves(k: Kernel, cid: Id, evidence: Hash)
    requires cid in k.claims && ClaimLinked(k, cid) && Block(k, cid, evidence).Done?
    ensures MovesWith(k, Block(k, cid, evidence).state, Block(k, cid, evidence).state.claims[cid], OwnershipRetained(cid, evidence))
  {
  }

  lemma SettleMoves(k: Kernel, env: Env, cid: Id, proof: Proof)
    requires cid in k.claims && ClaimLinked(k, cid) && Settle(k, env, cid, proof).Done? && Held(k.claims[cid])
    ensures MovesWith(k, Settle(k, env, cid, proof).state, Settle(k, env, cid, proof).value, ClaimSettled(cid, proof.evidence))
  {
  }

  lemma BeginKeeps(k: Kernel, env: Env, cid: Id)
    requires Invariant(k) && Begin(k, env, cid).Done?
    ensures Invariant(Begin(k, env, cid).state)
  {
    var b, c := Begin(k, env, cid).state, Begin(k, env, cid).value;
    BeginMoves(k, env, cid);
    MovesOwnership(k, b, c);
    MovesKeeps(k, b, c, CreationBoundary(cid));
  }

  lemma BindKeeps(k: Kernel, cid: Id, native: Native)
    requires Invariant(k) && Bind(k, cid, native).Done?
    ensures Invariant(Bind(k, cid, native).state)
  {
    var b, c := Bind(k, cid, native).state, Bind(k, cid, native).value;
    if k.claims[cid].native.None? {
      BindMoves(k, cid, native);
      MovesOwnership(k, b, c);
      MovesKeeps(k, b, c, NativeBound(cid, native));
    }
  }

  lemma BlockKeeps(k: Kernel, cid: Id, evidence: Hash)
    requires Invariant(k) && Block(k, cid, evidence).Done?
    ensures Invariant(Block(k, cid, evidence).state)
  {
    var b := Block(k, cid, evidence).state;
    BlockMoves(k, cid, evidence);
    MovesOwnership(k, b, b.claims[cid]);
    MovesKeeps(k, b, b.claims[cid], OwnershipRetained(cid, evidence));
  }

  lemma SettleKeeps(k: Kernel, env: Env, cid: Id, proof: Proof)
    requires Invariant(k) && Settle(k, env, cid, proof).Done?
    ensures Invariant(Settle(k, env, cid, proof).state)
  {
    var b, c := Settle(k, env, cid, proof).state, Settle(k, env, cid, proof).value;
    if Held(k.claims[cid]) {
      SettleMoves(k, env, cid, proof);
      SettleOwnership(k, b, c);
      MovesKeeps(k, b, c, ClaimSettled(cid, proof.evidence));
    }
  }

  lemma SettleOwnership(k: Kernel, b: Kernel, c: Claim)
    requires Ownership(k) && MovesClaim(k, b, c) && !Held(c)
    requires b.resources == map key | key in k.resources && k.resources[key].claim != c.id :: k.resources[key]
    ensures Ownership(b)
  {
    forall key | key in b.resources ensures Justified(b, key) {
      assert Justified(k, key);
      SameScope(k, b, c, b.resources[key].claim);
    }
    forall cid, key | cid in b.claims && Held(b.claims[cid]) && key in ScopeOf(b, cid)
      ensures key in b.resources && b.resources[key].claim == cid
    {
      SameScope(k, b, c, cid);
    }
  }

  // ---------- a new claim ----------

  ghost predicate AddsClaim(k: Kernel, b: Kernel, c: Claim) {
    && b.policy == k.policy && b.allocations == k.allocations
    && c.id !in k.claims && b.claims == k.claims[c.id := c]
    && c.spec.allocationId in k.allocations
    && c.status == Status.Reserved && ClaimShape(c) && c.native.None?
    && CapacityAllows(k, k.allocations[c.spec.allocationId], c.spec.repositories)
  }

  lemma AddsClaimLinked(k: Kernel, b: Kernel, c: Claim)
    requires Linked(k) && AddsClaim(k, b, c)
    ensures Linked(b)
  {
    forall cid | cid in b.claims ensures ClaimLinked(b, cid) {
      if cid != c.id { assert ClaimLinked(k, cid); }
    }
  }

  lemma AddsScope(k: Kernel, b: Kernel, c: Claim, cid: Id)
    requires AddsClaim(k, b, c) && cid in k.claims
    ensures ScopeOf(b, cid) == ScopeOf(k, cid) && RunnersOf(b, cid) == RunnersOf(k, cid)
  {
  }

  lemma AddsClaimRows(k: Kernel, b: Kernel, c: Claim, now: real)
    requires Linked(k) && Ownership(k) && AddsClaim(k, b, c)
    requires b.resources == WithHolders(k.resources, RepoKeys(k.allocations[c.spec.allocationId], c.spec.repositories), Holder(c.id, now))
    ensures RowsJustified(b)
  {
    var requested := RepoKeys(k.allocations[c.spec.allocationId], c.spec.repositories);
    assert ScopeOf(b, c.id) == requested;
    forall key | key in b.resources ensures Justified(b, key) {
      if key !in requested {
        assert Justified(k, key);
        AddsScope(k, b, c, k.resources[key].claim);
      }
    }
  }

  lemma AddsClaimScopes(k: Kernel, b: Kernel, c: Claim, now: real)
    requires Linked(k) && Ownership(k) && AddsClaim(k, b, c)
    requires b.resources == WithHolders(k.resources, RepoKeys(k.allocations[c.spec.allocationId], c.spec.repositories), Holder(c.id, now))
    ensures ScopesHeld(b)
  {
    assert ScopeOf(b, c.id) == RepoKeys(k.allocations[c.spec.allocationId], c.spec.repositories);
    forall cid, key | cid in b.claims && Held(b.claims[cid]) && key in ScopeOf(b, cid)
      ensures key in b.resources && b.resources[key].claim == cid
    {
      if cid != c.id { AddsScope(k, b, c, cid); }
    }
  }

  lemma AddsClaimOwnership(k: Kernel, b: Kernel, c: Claim, now: real)
    requires Linked(k) && Ownership(k) && AddsClaim(k, b, c)
    requires b.resources == WithHolders(k.resources, RepoKeys(k.allocations[c.spec.allocationId], c.spec.repositories), Holder(c.id, now))
    ensures Ownership(b)
  {
    AddsClaimRows(k, b, c, now);
    AddsClaimScopes(k, b, c, now);
  }

  lemma AddsClaimSums(k: Kernel, b: Kernel, c: Claim)
    requires Linked(k) && Accounting(k) && WithinLimits(k) && AddsClaim(k, b, c)
    ensures Accounting(b) && WithinLimits(b)
  {
    MapSumPut(k.claims, HeldOne(), c.id, c);
    forall aid | aid in b.allocations
      ensures UsageSound(b, b.allocations[aid])
      ensures MapSum(b.claims, HeldOneIn(aid)) <= b.allocations[aid].spec.limits.maxParallelTasks
      ensures MapSum(b.claims, AttemptIn(aid)) <= b.allocations[aid].spec.limits.maxTasks
    {
      MapSumPut(k.claims, HeldOneIn(aid), c.id, c);
      MapSumPut(k.claims, AttemptIn(aid), c.id, c);
      var a := k.allocations[aid];
      assert UsageSound(k, a);
      MapSumPut(k.claims, IncludedTokens(a.id, Included(a)), c.id, c);
    }
  }

  lemma AddsClosure(k: Kernel, b: Kernel, c: Claim)
    requires Closure(k) && AddsClaim(k, b, c) && k.allocations[c.spec.allocationId].closed.None?
    ensures Closure(b)
  {
    forall x | x in b.allocations && b.allocations[x].closed.Some? ensures !AnyHeldIn(b, x) {
      assert !AnyHeldIn(k, x);
    }
  }

  lemma AddsNatives(k: Kernel, b: Kernel, c: Claim)
    requires NativesInjective(k) && AddsClaim(k, b, c)
    ensures NativesInjective(b)
  {
  }

  lemma AddsJournal(k: Kernel, b: Kernel, c: Claim)
    requires Journal(k) && AddsClaim(k, b, c) && b.events == k.events + [CapacityReserved(c.id)]
    ensures Journal(b)
  {
    JournalPush(k, b, CapacityReserved(c.id));
  }

  lemma ReserveAdds(k: Kernel, env: Env, cid: Id, aid: Id, repos: seq<Id>, e: Estimates, role: Role, binding: Option<Hash>)
    requires cid !in k.claims && Reserve(k, env, cid, aid, repos, e, role, binding).Done?
    requires aid in k.allocations && k.allocations[aid].id == aid
    ensures AddsClaim(k, Reserve(k, env, cid, aid, repos, e, role, binding).state, Reserve(k, env, cid, aid, repos, e, role, binding).value)
  {
  }

  lemma ReserveKeeps(k: Kernel, env: Env, cid: Id, aid: Id, repos: seq<Id>, e: Estimates, role: Role, binding: Option<Hash>)
    requires Invariant(k) && Reserve(k, env, cid, aid, repos, e, role, binding).Done?
    ensures Invariant(Reserve(k, env, cid, aid, repos, e, role, binding).state)
  {
    if cid !in k.claims {
      var b, c := Reserve(k, env, cid, aid, repos, e, role, binding).state, Reserve(k, env, cid, aid, repos, e, role, binding).value;
      assert AllocationShape(k.allocations[aid], aid);
      ReserveAdds(k, env, cid, aid, repos, e, role, binding);
      AddsClaimLinked(k, b, c);
      AddsClaimOwnership(k, b, c, env.now);
      AddsClaimSums(k, b, c);
      AddsClosure(k, b, c);
      AddsNatives(k, b, c);
      AddsJournal(k, b, c);
    }
  }

  // ---------- operations on allocations, the account and runners ----------

  /** Allocations change in their usage or closing only, or one is added. */
  ghost predicate SameSpecs(k: Kernel, b: Kernel) {
    && b.policy == k.policy && b.claims == k.claims && b.resources == k.resources
    && k.allocations.Keys <= b.allocations.Keys
    && (forall aid | aid in k.allocations :: b.allocations[aid].spec == k.allocations[aid].spec)
    && (forall aid | aid in b.allocations :: AllocationShape(b.allocations[aid], aid))
  }

  lemma SameSpecsKeep(k: Kernel, b: Kernel)
    requires Linked(k) && Ownership(k) && SameSpecs(k, b)
    ensures Linked(b) && Ownership(b)
  {
    forall cid | cid in b.claims ensures ClaimLinked(b, cid) {
      assert ClaimLinked(k, cid);
    }
    forall cid | cid in k.claims ensures ScopeOf(b, cid) == ScopeOf(k, cid) && RunnersOf(b, cid) == RunnersOf(k, cid) {
      assert ClaimLinked(k, cid);
    }
    forall key | key in b.resources ensures Justified(b, key) {
      assert Justified(k, key);
    }
  }

  lemma {:induction false} NoClaims(claims: map<Id, Claim>, w: (Id, Claim) -> int)
    requires forall id | id in claims :: w(id, claims[id]) == 0
    ensures MapSum(claims, w) == 0
    decreases |claims|
  {
    if claims != map[] {
      var id :| id in claims;
      MapSumTake(claims, w, id);
      NoClaims(claims - {id}, w);
    }
  }

  /** Claims and resources are untouched and the journal gets one event of another kind. */
  ghost predicate Annotates(k: Kernel, b: Kernel, e: Event) {
    SameSpecs(k, b) && b.events == k.events + [e] && !e.CreationBoundary?
  }

  lemma AnnotatesKeeps(k: Kernel, b: Kernel, e: Event)
    requires Invariant(k) && Annotates(k, b, e) && Accounting(b) && WithinLimits(b) && Closure(b)
    ensures Invariant(b)
  {
    SameSpecsKeep(k, b);
    AnnotatesJournal(k, b, e);
  }

  lemma AnnotatesJournal(k: Kernel, b: Kernel, e: Event)
    requires Journal(k) && Annotates(k, b, e)
    ensures Journal(b) && (NativesInjective(k) ==> NativesInjective(b))
  {
    JournalPush(k, b, e);
  }

  lemma OpenAnnotates(k: Kernel, env: Env, aid: Id, w: Id, bh: Hash, l: Limits, repos: map<Id, seq<ResourceKey>>, runners: seq<ResourceKey>)
    requires Linked(k) && aid !in k.allocations && OpenAllocation(k, env, aid, w, bh, l, repos, runners).Done?
    ensures Annotates(k, OpenAllocation(k, env, aid, w, bh, l, repos, runners).state, AllocationOpened(aid))
  {
  }

  /** A store with one allocation more, that no claim names yet. */
  lemma OpenSums(k: Kernel, b: Kernel, a: Allocation)
    requires Linked(k) && Accounting(k) && WithinLimits(k) && Closure(k)
    requires a.id !in k.allocations && b.allocations == k.allocations[a.id := a] && a.usage.None? && a.closed.None? && ValidLimits(a.spec.limits)
    requires b.claims == k.claims && b.policy == k.policy && !WorkspaceOpen(k, a.spec.workspaceId)
    ensures Accounting(b) && WithinLimits(b) && Closure(b)
  {
    forall cid | cid in k.claims ensures k.claims[cid].spec.allocationId != a.id {
      assert ClaimLinked(k, cid);
    }
    NoClaims(k.claims, HeldOneIn(a.id));
    NoClaims(k.claims, AttemptIn(a.id));
    AnnotateAccounting(k, b, a);
    OpenClosure(k, b, a);
  }

  lemma OpenClosure(k: Kernel, b: Kernel, a: Allocation)
    requires Closure(k) && a.id !in k.allocations && b.allocations == k.allocations[a.id := a] && a.closed.None?
    requires b.claims == k.claims && b.policy == k.policy && !WorkspaceOpen(k, a.spec.workspaceId)
    ensures Closure(b)
  {
    forall x | x in b.allocations && b.allocations[x].closed.Some? ensures !AnyHeldIn(b, x) {
      assert !AnyHeldIn(k, x);
    }
  }

  lemma OpenKeeps(k: Kernel, env: Env, aid: Id, w: Id, bh: Hash, l: Limits, repos: map<Id, seq<ResourceKey>>, runners: seq<ResourceKey>)
    requires Invariant(k) && OpenAllocation(k, env, aid, w, bh, l, repos, runners).Done?
    ensures Invariant(OpenAllocation(k, env, aid, w, bh, l, repos, runners).state)
  {
    var s := OpenAllocation(k, env, aid, w, bh, l, repos, runners);
    if aid !in k.allocations {
      OpenAnnotates(k, env, aid, w, bh, l, repos, runners);
      OpenSums(k, s.state, s.value);
      AnnotatesKeeps(k, s.state, AllocationOpened(aid));
    }
  }

  /** One allocation's usage or closing changes. */
  lemma AnnotateSums(k: Kernel, b: Kernel, a: Allocation)
    requires Linked(k) && Accounting(k) && WithinLimits(k) && Closure(k)
    requires a.id in k.allocations && b.allocations == k.allocations[a.id := a] && a.spec == k.allocations[a.id].spec
    requires b.claims == k.claims && b.policy == k.policy
    requires UsageSound(k, a) && (a.closed != k.allocations[a.id].closed ==> a.closed.Some? && !AnyHeldIn(k, a.id))
    ensures Accounting(b) && WithinLimits(b) && Closure(b)
  {
    AnnotateAccounting(k, b, a);
    AnnotateClosure(k, b, a);
  }

  lemma AnnotateAccounting(k: Kernel, b: Kernel, a: Allocation)
    requires Accounting(k) && UsageSound(k, a)
    requires b.allocations == k.allocations[a.id := a] && b.claims == k.claims && b.policy == k.policy
    ensures Accounting(b)
  {
    forall x | x in b.allocations ensures UsageSound(b, b.allocations[x]) {
      if x != a.id { assert UsageSound(k, k.allocations[x]); }
    }
  }

  lemma AnnotateClosure(k: Kernel, b: Kernel, a: Allocation)
    requires Closure(k) && a.id in k.allocations && a.spec == k.allocations[a.id].spec
    requires b.allocations == k.allocations[a.id := a] && b.claims == k.claims && b.policy == k.policy
    requires a.closed != k.allocations[a.id].closed ==> a.closed.Some? && !AnyHeldIn(k, a.id)
    ensures Closure(b)
  {
    forall x | x in b.allocations && b.allocations[x].closed.Some? ensures !AnyHeldIn(b, x) {
      assert (x == a.id && a.closed != k.allocations[a.id].closed) || !AnyHeldIn(k, x);
    }
  }

  lemma AccountKeeps(k: Kernel, env: Env, o: Account)
    requires Invariant(k) && ObserveAccount(k, env, o).Done?
    ensures Invariant(ObserveAccount(k, env, o).state)
  {
    var b := ObserveAccount(k, env, o).state;
    if b != k {
      AccountSums(k, b);
      AnnotatesKeeps(k, b, AccountObserved(o.evidence));
    }
  }

  lemma AccountSums(k: Kernel, b: Kernel)
    requires Accounting(k) && WithinLimits(k) && Closure(k)
    requires b.allocations == k.allocations && b.claims == k.claims && b.policy == k.policy
    ensures Accounting(b) && WithinLimits(b) && Closure(b)
  {
    forall x | x in b.allocations ensures UsageSound(b, b.allocations[x]) {
      assert UsageSound(k, k.allocations[x]);
    }
    forall x | x in b.allocations && b.allocations[x].closed.Some? ensures !AnyHeldIn(b, x) {
      assert !AnyHeldIn(k, x);
    }
  }

  /** A total taken down a list of distinct identifiers is the sum over the rows it names. */
  lemma {:induction false} ListedIsIncluded(k: Kernel, aid: Id, ids: seq<Id>)
    requires Distinct(ids)
    requires forall id | id in ids :: id in k.claims && k.claims[id].spec.allocationId == aid && !Held(k.claims[id])
    ensures ListedTokens(k, ids) == MapSum(k.claims, IncludedTokens(aid, Elements(ids)))
  {
    if ids == [] {
      NoClaims(k.claims, IncludedTokens(aid, Elements(ids)));
    } else {
      var front, last := ids[..|ids| - 1], ids[|ids| - 1];
      ListedIsIncluded(k, aid, front);
      assert last !in Elements(front);
      assert Elements(ids) == Elements(front) + {last};
      var w, u := IncludedTokens(aid, Elements(ids)), IncludedTokens(aid, Elements(front));
      MapSumTake(k.claims, w, last);
      MapSumTake(k.claims, u, last);
      MapSumAgree(k.claims - {last}, w, u);
    }
  }

  lemma UsageAnnotates(k: Kernel, env: Env, aid: Id, o: Usage)
    requires Linked(k) && ObserveUsage(k, env, aid, o).Done? && k.allocations[aid].usage != Some(o)
    ensures Annotates(k, ObserveUsage(k, env, aid, o).state, UsageObserved(aid, o.evidence))
    ensures UsageSound(k, k.allocations[aid].(usage := Some(o)))
  {
    assert AllocationShape(k.allocations[aid], aid);
    ListedIsIncluded(k, aid, o.settledClaimIds);
  }

  lemma UsageKeeps(k: Kernel, env: Env, aid: Id, o: Usage)
    requires Invariant(k) && ObserveUsage(k, env, aid, o).Done?
    ensures Invariant(ObserveUsage(k, env, aid, o).state)
  {
    if k.allocations[aid].usage != Some(o) {
      var b := ObserveUsage(k, env, aid, o).state;
      UsageAnnotates(k, env, aid, o);
      assert AllocationShape(k.allocations[aid], aid);
      AnnotateSums(k, b, k.allocations[aid].(usage := Some(o)));
      AnnotatesKeeps(k, b, UsageObserved(aid, o.evidence));
    }
  }

  lemma CloseAnnotates(k: Kernel, env: Env, aid: Id, evidence: Hash)
    requires Linked(k) && CloseAllocation(k, env, aid, evidence).Done? && k.allocations[aid].closed.None?
    ensures Annotates(k, CloseAllocation(k, env, aid, evidence).state, AllocationClosed(aid))
  {
    assert AllocationShape(k.allocations[aid], aid);
  }

  lemma CloseKeeps(k: Kernel, env: Env, aid: Id, evidence: Hash)
    requires Invariant(k) && CloseAllocation(k, env, aid, evidence).Done?
    ensures Invariant(CloseAllocation(k, env, aid, evidence).state)
  {
    if k.allocations[aid].closed.None? {
      CloseAnnotates(k, env, aid, evidence);
      CloseSums(k, env, aid, evidence);
      AnnotatesKeeps(k, CloseAllocation(k, env, aid, evidence).state, AllocationClosed(aid));
    }
  }

  lemma CloseSums(k: Kernel, env: Env, aid: Id, evidence: Hash)
    requires Linked(k) && Accounting(k) && WithinLimits(k) && Closure(k)
    requires CloseAllocation(k, env, aid, evidence).Done? && k.allocations[aid].closed.None?
    ensures var b := CloseAllocation(k, env, aid, evidence).state; Accounting(b) && WithinLimits(b) && Closure(b)
  {
    var b := CloseAllocation(k, env, aid, evidence).state;
    assert AllocationShape(k.allocations[aid], aid) && UsageSound(k, k.allocations[aid]);
    AnnotateSums(k, b, b.allocations[aid]);
  }

  /** Only rows of `resources` for a runner key change. */
  ghost predicate MovesRunner(k: Kernel, b: Kernel, key: ResourceKey, e: Event) {
    && key.Runner? && !e.CreationBoundary?
    && b == k.(resources := b.resources, events := k.events + [e])
    && (b.resources == k.resources - {key}
        || (key !in k.resources && key in b.resources && b.resources == k.resources[key := b.resources[key]]
            && b.resources[key].claim in k.claims && Held(k.claims[b.resources[key].claim]) && key in RunnersOf(k, b.resources[key].claim)))
  }

  lemma RunnerMoves(k: Kernel, env: Env, cid: Id, key: ResourceKey, operation: RunnerOperation, at: real)
    requires UseRunner(k, env, cid, key, operation, at).Done?
    ensures MovesRunner(k, UseRunner(k, env, cid, key, operation, at).state, key,
                        if operation.Acquire? then RunnerAcquired(cid, key) else RunnerReleased(cid, key))
  {
  }

  lemma RunnerScopes(k: Kernel, b: Kernel, key: ResourceKey, e: Event, cid: Id)
    requires Linked(k) && MovesRunner(k, b, key, e) && cid in k.claims
    ensures ScopeOf(b, cid) == ScopeOf(k, cid) && RunnersOf(b, cid) == RunnersOf(k, cid) && key !in ScopeOf(k, cid)
  {
    assert ClaimLinked(k, cid);
    assert AllocationShape(k.allocations[k.claims[cid].spec.allocationId], k.claims[cid].spec.allocationId);
  }

  lemma RunnerOwnership(k: Kernel, b: Kernel, key: ResourceKey, e: Event)
    requires Linked(k) && Ownership(k) && MovesRunner(k, b, key, e)
    ensures Ownership(b) && Linked(b)
  {
    forall y | y in b.resources ensures Justified(b, y) {
      RunnerScopes(k, b, key, e, b.resources[y].claim);
      if y in k.resources { assert Justified(k, y); }
    }
    forall cid, y | cid in b.claims && Held(b.claims[cid]) && y in ScopeOf(b, cid)
      ensures y in b.resources && b.resources[y].claim == cid
    {
      RunnerScopes(k, b, key, e, cid);
    }
    forall x | x in b.claims ensures ClaimLinked(b, x) { assert ClaimLinked(k, x); }
  }

  lemma RunnerJournal(k: Kernel, b: Kernel, key: ResourceKey, e: Event)
    requires Journal(k) && NativesInjective(k) && MovesRunner(k, b, key, e)
    ensures Journal(b) && NativesInjective(b)
  {
    JournalPush(k, b, e);
  }

  lemma RunnerKeeps(k: Kernel, env: Env, cid: Id, key: ResourceKey, operation: RunnerOperation, at: real)
    requires Invariant(k) && UseRunner(k, env, cid, key, operation, at).Done?
    ensures Invariant(UseRunner(k, env, cid, key, operation, at).state)
  {
    var b := UseRunner(k, env, cid, key, operation, at).state;
    var e := if operation.Acquire? then RunnerAcquired(cid, key) else RunnerReleased(cid, key);
    RunnerMoves(k, env, cid, key, operation, at);
    RunnerOwnership(k, b, key, e);
    RunnerJournal(k, b, key, e);
    AccountSums(k, b);
  }

  // ---------- every run ----------

  lemma EmptyHolds(policy: Policy)
    requires ValidPolicy(policy)
    ensures Invariant(Empty(policy))
  {
  }

  lemma ApplyKeeps(k: Kernel, env: Env, op: Op)
    requires Invariant(k)
    ensures Invariant(Apply(k, env, op))
  {
    if Apply(k, env, op) != k {
      match op
      case OpOpen(aid, w, b, l, repos, runners) => OpenKeeps(k, env, aid, w, b, l, repos, runners);
      case OpAccount(o) => AccountKeeps(k, env, o);
      case OpUsage(aid, o) => UsageKeeps(k, env, aid, o);
      case OpReserve(cid, aid, repos, e, role, b) => ReserveKeeps(k, env, cid, aid, repos, e, role, b);
      case OpBegin(cid) => BeginKeeps(k, env, cid);
      case OpBind(cid, n) => BindKeeps(k, cid, n);
      case OpBlock(cid, e) => BlockKeeps(k, cid, e);
      case OpRunner(cid, key, o, at) => RunnerKeeps(k, env, cid, key, o, at);
      case OpSettle(cid, proof) => SettleKeeps(k, env, cid, proof);
      case OpClose(aid, e) => CloseKeeps(k, env, aid, e);
    }
  }

  lemma {:induction false} RunKeeps(k: Kernel, trace: seq<(Env, Op)>)
    requires Invariant(k)
    ensures Invariant(Run(k, trace))
    decreases |trace|
  {
    if trace != [] {
      RunKeeps(k, trace[..|trace| - 1]);
      ApplyKeeps(Run(k, trace[..|trace| - 1]), trace[|trace| - 1].0, trace[|trace| - 1].1);
    }
  }
}
