/** What the invariant means for callers: exclusive ownership, token conservation, the protected
    checkpoint reserve, and the life of a claim over whole runs. */
module AdmissionTheorems {
  import opened Sums
  import opened AdmissionModel
  import opened AdmissionInvariant

  // ---------- ownership ----------

  function OwnedBy(k: Kernel, cid: Id): set<ResourceKey> {
    set key | key in k.resources && k.resources[key].claim == cid
  }

  /** The store after a history that starts from the empty store. */
  ghost function Reached(policy: Policy, trace: seq<(Env, Op)>): Kernel {
    Run(Empty(policy), trace)
  }

  lemma ReachedHolds(policy: Policy, trace: seq<(Env, Op)>)
    requires ValidPolicy(policy)
    ensures Invariant(Reached(policy, trace))
  {
    EmptyHolds(policy);
    RunKeeps(Empty(policy), trace);
  }

  lemma HeldOwns(k: Kernel, cid: Id)
    requires Linked(k) && Ownership(k) && cid in k.claims && Held(k.claims[cid])
    ensures (set key | key in OwnedBy(k, cid) && !key.Runner?) == ScopeOf(k, cid)
    ensures (set key | key in OwnedBy(k, cid) && key.Runner?) <= RunnersOf(k, cid)
  {
    assert ClaimLinked(k, cid);
    assert AllocationShape(k.allocations[k.claims[cid].spec.allocationId], k.claims[cid].spec.allocationId);
    forall key | key in OwnedBy(k, cid) ensures Justified(k, key) {}
  }

  lemma SettledOwnsNothing(k: Kernel, cid: Id)
    requires Ownership(k) && cid in k.claims && !Held(k.claims[cid])
    ensures OwnedBy(k, cid) == {}
  {
    forall key | key in k.resources ensures k.resources[key].claim != cid {
      assert Justified(k, key);
    }
  }

  /** In every reachable store a held claim owns exactly its repositories' keys and, only while
      running or blocked, runners of its own allocation; a settled claim owns nothing. */
  lemma OwnedExactly(policy: Policy, trace: seq<(Env, Op)>, cid: Id)
    requires ValidPolicy(policy) && cid in Reached(policy, trace).claims
    ensures var k := Reached(policy, trace);
            && (Held(k.claims[cid]) ==>
                  && (set key | key in OwnedBy(k, cid) && !key.Runner?) == ScopeOf(k, cid)
                  && (set key | key in OwnedBy(k, cid) && key.Runner?) <= RunnersOf(k, cid))
            && (!Held(k.claims[cid]) ==> OwnedBy(k, cid) == {})
  {
    var k := Reached(policy, trace);
    assert Linked(k) && Ownership(k) by { ReachedHolds(policy, trace); }
    if Held(k.claims[cid]) { HeldOwns(k, cid); } else { SettledOwnsNothing(k, cid); }
  }

  lemma HoldersDisjoint(k: Kernel, c: Id, d: Id)
    requires Ownership(k) && c in k.claims && d in k.claims && c != d && Held(k.claims[c]) && Held(k.claims[d])
    ensures ScopeOf(k, c) !! ScopeOf(k, d) && OwnedBy(k, c) !! OwnedBy(k, d)
    ensures forall key | key in k.resources :: k.resources[key].claim in k.claims && Held(k.claims[k.resources[key].claim])
  {
    forall key | key in k.resources ensures k.resources[key].claim in k.claims && Held(k.claims[k.resources[key].claim]) {
      assert Justified(k, key);
    }
    forall key | key in ScopeOf(k, c) ensures key !in ScopeOf(k, d) {
      assert k.resources[key].claim == c;
    }
  }

  /** No two held claims overlap, whatever their allocations and however they name the repositories;
      and every resource row belongs to a held claim. */
  lemma NoOverlap(policy: Policy, trace: seq<(Env, Op)>, c: Id, d: Id)
    requires ValidPolicy(policy)
    requires var k := Reached(policy, trace);
             c in k.claims && d in k.claims && c != d && Held(k.claims[c]) && Held(k.claims[d])
    ensures var k := Reached(policy, trace);
            && ScopeOf(k, c) !! ScopeOf(k, d)
            && OwnedBy(k, c) !! OwnedBy(k, d)
            && forall key | key in k.resources :: k.resources[key].claim in k.claims && Held(k.claims[k.resources[key].claim])
  {
    var k := Reached(policy, trace);
    assert Ownership(k) by { ReachedHolds(policy, trace); }
    HoldersDisjoint(k, c, d);
  }

  // ---------- token conservation ----------

  ghost function SettledSum(k: Kernel, aid: Id): int {
    MapSum(k.claims, SettledTokens(aid))
  }

  ghost function IncludedSum(k: Kernel, a: Allocation): int {
    MapSum(k.claims, IncludedTokens(a.id, Included(a)))
  }

  lemma SettledSplits(k: Kernel, a: Allocation)
    ensures SettledSum(k, a.id) == IncludedSum(k, a) + Unincorporated(k, a)
  {
    MapSumAdd(k.claims, IncludedTokens(a.id, Included(a)), OpenSettledTokens(a.id, Included(a)), SettledTokens(a.id));
  }

  lemma SettledCovered(k: Kernel, a: Allocation)
    requires UsageSound(k, a)
    ensures forall id | id in Included(a) :: id in k.claims && k.claims[id].status == Settled && k.claims[id].spec.allocationId == a.id
    ensures IncludedSum(k, a) <= Observed(a)
    ensures Observed(a) + Unincorporated(k, a) >= SettledSum(k, a.id)
  {
    SettledSplits(k, a);
    if a.usage.None? {
      NoClaims(k.claims, IncludedTokens(a.id, Included(a)));
    }
  }

  /** Every settled token is charged: either the observation covers it or it stands unincorporated. */
  lemma TokensConserved(policy: Policy, trace: seq<(Env, Op)>, aid: Id)
    requires ValidPolicy(policy) && aid in Reached(policy, trace).allocations
    ensures var k := Reached(policy, trace);
            var a := k.allocations[aid];
            && (forall id | id in Included(a) :: id in k.claims && k.claims[id].status == Settled && k.claims[id].spec.allocationId == aid)
            && IncludedSum(k, a) <= Observed(a)
            && Observed(a) + Unincorporated(k, a) >= SettledSum(k, aid)
  {
    var k := Reached(policy, trace);
    assert Linked(k) && Accounting(k) by { ReachedHolds(policy, trace); }
    assert AllocationShape(k.allocations[aid], aid);
    SettledCovered(k, k.allocations[aid]);
  }

  /** Incorporating settlements moves exactly their tokens out of the unincorporated term:
      nothing is charged twice and nothing is forgotten. */
  lemma IncorporationMoves(k: Kernel, env: Env, aid: Id, o: Usage)
    requires Linked(k) && ObserveUsage(k, env, aid, o).Done?
    ensures var b := ObserveUsage(k, env, aid, o).state;
            && Included(k.allocations[aid]) <= Included(b.allocations[aid])
            && IncludedSum(b, b.allocations[aid]) - IncludedSum(k, k.allocations[aid])
               == Unincorporated(k, k.allocations[aid]) - Unincorporated(b, b.allocations[aid])
            && IncludedSum(b, b.allocations[aid]) >= IncludedSum(k, k.allocations[aid])
  {
    var b := ObserveUsage(k, env, aid, o).state;
    var a, a' := k.allocations[aid], b.allocations[aid];
    assert AllocationShape(a, aid);
    SettledSplits(k, a);
    SettledSplits(b, a');
    assert Included(a) <= Included(a');
    forall id | id in k.claims ensures IncludedTokens(aid, Included(a))(id, k.claims[id]) <= IncludedTokens(aid, Included(a'))(id, k.claims[id]) {
      assert ClaimLinked(k, id);
    }
    MapSumAtMost(k.claims, IncludedTokens(aid, Included(a)), IncludedTokens(aid, Included(a')));
  }

  // ---------- the protected reserve ----------

  ghost predicate Protected(k: Kernel, aid: Id) {
    aid in k.allocations ==> Remaining(k, k.allocations[aid]) >= 0
  }

  /** Right after a new reservation all charges and the checkpoint reserve fit in the budget. */
  lemma ReserveProtects(k: Kernel, env: Env, cid: Id, aid: Id, repos: seq<Id>, e: Estimates, role: Role, binding: Option<Hash>)
    requires Linked(k) && cid !in k.claims
    requires Reserve(k, env, cid, aid, repos, e, role, binding).Done?
    ensures var b := Reserve(k, env, cid, aid, repos, e, role, binding).state;
            && aid in b.allocations
            && Observed(b.allocations[aid]) + HeldSum(b, aid) + Unincorporated(b, b.allocations[aid])
               + b.allocations[aid].spec.limits.checkpointReserve <= b.allocations[aid].spec.limits.tokenBudget
            && Remaining(b, b.allocations[aid]) == Remaining(k, k.allocations[aid]) - (e.work + e.review + e.handoff)
  {
    var s := Reserve(k, env, cid, aid, repos, e, role, binding);
    var a := k.allocations[aid];
    assert AllocationShape(a, aid);
    MapSumPut(k.claims, HeldTokens(aid), cid, s.value);
    MapSumPut(k.claims, OpenSettledTokens(aid, Included(a)), cid, s.value);
  }

  /** A claim crosses the creation boundary only while its allocation is within budget, and stays so. */
  lemma BeginProtects(k: Kernel, env: Env, cid: Id)
    requires Linked(k) && Begin(k, env, cid).Done?
    ensures Protected(k, k.claims[cid].spec.allocationId) && Protected(Begin(k, env, cid).state, k.claims[cid].spec.allocationId)
  {
    var s := Begin(k, env, cid);
    assert ClaimLinked(k, cid);
    forall aid { MoveShifts(k, s.state, s.value, aid); }
  }

  /** Replacing the row of a held claim shifts an allocation's headroom by the difference of its charges. */
  lemma MoveShifts(k: Kernel, b: Kernel, c: Claim, aid: Id)
    requires Linked(k) && MovesClaim(k, b, c)
    ensures aid in k.allocations && Included(k.allocations[aid]) <= k.claims.Keys - {c.id} ==>
      Remaining(b, b.allocations[aid]) == Remaining(k, k.allocations[aid])
        + if c.spec.allocationId == aid && !Held(c) then Estimated(c) - ActualTokens(c) else 0
    ensures aid in k.allocations && c.spec.allocationId != aid ==> Remaining(b, b.allocations[aid]) == Remaining(k, k.allocations[aid])
    ensures aid in k.allocations && Held(c) ==> Remaining(b, b.allocations[aid]) == Remaining(k, k.allocations[aid])
  {
    if aid in k.allocations {
      assert AllocationShape(k.allocations[aid], aid);
      MapSumPut(k.claims, HeldTokens(aid), c.id, c);
      MapSumPut(k.claims, OpenSettledTokens(aid, Included(k.allocations[aid])), c.id, c);
    }
  }

  /** Settling frees the estimate and charges the actual; an overrun is charged in full. */
  lemma SettleShifts(k: Kernel, env: Env, cid: Id, proof: Proof)
    requires Linked(k) && Accounting(k) && Settle(k, env, cid, proof).Done? && Held(k.claims[cid])
    ensures var b := Settle(k, env, cid, proof).state;
            forall aid | aid in k.allocations ::
              Remaining(b, b.allocations[aid]) == Remaining(k, k.allocations[aid])
                + if k.claims[cid].spec.allocationId == aid then Estimated(k.claims[cid]) - TokensOf(proof.actual) else 0
  {
    var s := Settle(k, env, cid, proof);
    assert ClaimLinked(k, cid);
    SettleMoves(k, env, cid, proof);
    forall aid | aid in k.allocations
      ensures Remaining(s.state, s.state.allocations[aid]) == Remaining(k, k.allocations[aid])
                + if k.claims[cid].spec.allocationId == aid then Estimated(k.claims[cid]) - TokensOf(proof.actual) else 0
    {
      assert UsageSound(k, k.allocations[aid]) && AllocationShape(k.allocations[aid], aid);
      MoveShifts(k, s.state, s.value, aid);
    }
  }

  /** What keeps a budget protected: settlements stay within their estimates, and an observed total
      grows by no more than the settlements it newly incorporates. */
  ghost predicate Disciplined(k: Kernel, env: Env, op: Op) {
    match op
    case OpSettle(cid, proof) =>
      Settle(k, env, cid, proof).Done? ==> TokensOf(proof.actual) <= Estimated(k.claims[cid])
    case OpUsage(aid, o) =>
      ObserveUsage(k, env, aid, o).Done? ==>
        var a, a' := k.allocations[aid], ObserveUsage(k, env, aid, o).state.allocations[aid];
        Observed(a') - Observed(a) <= IncludedSum(k, a') - IncludedSum(k, a)
    case _ => true
  }

  ghost predicate DisciplinedRun(k: Kernel, trace: seq<(Env, Op)>)
    decreases |trace|
  {
    trace != [] ==>
      && DisciplinedRun(k, trace[..|trace| - 1])
      && Disciplined(Run(k, trace[..|trace| - 1]), trace[|trace| - 1].0, trace[|trace| - 1].1)
  }

  lemma OpenedIsProtected(k: Kernel, env: Env, aid: Id, w: Id, bh: Hash, l: Limits, repos: map<Id, seq<ResourceKey>>, runners: seq<ResourceKey>)
    requires Linked(k) && aid !in k.allocations && OpenAllocation(k, env, aid, w, bh, l, repos, runners).Done?
    ensures Protected(OpenAllocation(k, env, aid, w, bh, l, repos, runners).state, aid)
  {
    forall cid | cid in k.claims ensures k.claims[cid].spec.allocationId != aid { assert ClaimLinked(k, cid); }
    NoClaims(k.claims, HeldTokens(aid));
    NoClaims(k.claims, OpenSettledTokens(aid, {}));
  }

  lemma ReserveElsewhere(k: Kernel, b: Kernel, c: Claim, aid: Id)
    requires Linked(k) && AddsClaim(k, b, c) && aid in k.allocations && c.spec.allocationId != aid
    ensures Remaining(b, b.allocations[aid]) == Remaining(k, k.allocations[aid])
  {
    assert AllocationShape(k.allocations[aid], aid);
    MapSumPut(k.claims, HeldTokens(aid), c.id, c);
    MapSumPut(k.claims, OpenSettledTokens(aid, Included(k.allocations[aid])), c.id, c);
  }

  lemma ReserveStepProtects(k: Kernel, env: Env, cid: Id, x: Id, repos: seq<Id>, e: Estimates, role: Role, b: Option<Hash>, aid: Id)
    requires Linked(k) && Protected(k, aid)
    ensures Protected(Next(k, Reserve(k, env, cid, x, repos, e, role, b)), aid)
  {
    if Reserve(k, env, cid, x, repos, e, role, b).Done? {
      if cid !in k.claims {
        assert AllocationShape(k.allocations[x], x);
        ReserveAdds(k, env, cid, x, repos, e, role, b);
        if x == aid { ReserveProtects(k, env, cid, x, repos, e, role, b); }
        else if aid in k.allocations {
          ReserveElsewhere(k, Reserve(k, env, cid, x, repos, e, role, b).state, Reserve(k, env, cid, x, repos, e, role, b).value, aid);
        }
      }
    }
  }

  lemma MoveStepProtects(k: Kernel, b: Kernel, c: Claim, aid: Id)
    requires Linked(k) && Protected(k, aid) && MovesClaim(k, b, c) && Held(c)
    ensures Protected(b, aid)
  {
    MoveShifts(k, b, c, aid);
  }

  lemma BeginStepProtects(k: Kernel, env: Env, cid: Id, aid: Id)
    requires Linked(k) && Protected(k, aid)
    ensures Protected(Next(k, Begin(k, env, cid)), aid)
  {
    if Begin(k, env, cid).Done? {
      assert ClaimLinked(k, cid);
      BeginMoves(k, env, cid);
      MoveStepProtects(k, Begin(k, env, cid).state, Begin(k, env, cid).value, aid);
    }
  }

  lemma BindStepProtects(k: Kernel, cid: Id, n: Native, aid: Id)
    requires Linked(k) && Protected(k, aid)
    ensures Protected(Next(k, Bind(k, cid, n)), aid)
  {
    if Bind(k, cid, n).Done? {
      if k.claims[cid].native.None? {
        assert ClaimLinked(k, cid);
        BindMoves(k, cid, n);
        MoveStepProtects(k, Bind(k, cid, n).state, Bind(k, cid, n).value, aid);
      }
    }
  }

  lemma BlockStepProtects(k: Kernel, cid: Id, e: Hash, aid: Id)
    requires Linked(k) && Protected(k, aid)
    ensures Protected(Next(k, Block(k, cid, e)), aid)
  {
    if Block(k, cid, e).Done? {
      assert ClaimLinked(k, cid);
      BlockMoves(k, cid, e);
      MoveStepProtects(k, Block(k, cid, e).state, Block(k, cid, e).state.claims[cid], aid);
    }
  }

  lemma SettleStepProtects(k: Kernel, env: Env, cid: Id, proof: Proof, aid: Id)
    requires Linked(k) && Accounting(k) && Protected(k, aid) && Disciplined(k, env, OpSettle(cid, proof))
    ensures Protected(Next(k, Settle(k, env, cid, proof)), aid)
  {
    if Settle(k, env, cid, proof).Done? && Held(k.claims[cid]) { SettleShifts(k, env, cid, proof); }
  }

  lemma OpenStepProtects(k: Kernel, env: Env, x: Id, w: Id, bh: Hash, l: Limits, repos: map<Id, seq<ResourceKey>>, runners: seq<ResourceKey>, aid: Id)
    requires Linked(k) && Protected(k, aid)
    ensures Protected(Next(k, OpenAllocation(k, env, x, w, bh, l, repos, runners)), aid)
  {
    if OpenAllocation(k, env, x, w, bh, l, repos, runners).Done? {
      if x == aid && aid !in k.allocations { OpenedIsProtected(k, env, x, w, bh, l, repos, runners); }
    }
  }

  lemma UsageStepProtects(k: Kernel, env: Env, x: Id, o: Usage, aid: Id)
    requires Linked(k) && Protected(k, aid) && Disciplined(k, env, OpUsage(x, o))
    ensures Protected(Next(k, ObserveUsage(k, env, x, o)), aid)
  {
    if x == aid && ObserveUsage(k, env, x, o).Done? { UsageProtects(k, env, x, o); }
  }

  lemma OtherStepProtects(k: Kernel, b: Kernel, aid: Id)
    requires Linked(k) && Protected(k, aid) && b.claims == k.claims && b.allocations.Keys == k.allocations.Keys
    requires aid in k.allocations ==> b.allocations[aid].spec == k.allocations[aid].spec && b.allocations[aid].usage == k.allocations[aid].usage
                                      && b.allocations[aid].id == k.allocations[aid].id
    ensures Protected(b, aid)
  {
  }

  lemma AccountStepProtects(k: Kernel, env: Env, o: Account, aid: Id)
    requires Linked(k) && Protected(k, aid)
    ensures Protected(Next(k, ObserveAccount(k, env, o)), aid)
  {
    OtherStepProtects(k, Next(k, ObserveAccount(k, env, o)), aid);
  }

  lemma RunnerStepProtects(k: Kernel, env: Env, cid: Id, key: ResourceKey, o: RunnerOperation, at: real, aid: Id)
    requires Linked(k) && Protected(k, aid)
    ensures Protected(Next(k, UseRunner(k, env, cid, key, o, at)), aid)
  {
    OtherStepProtects(k, Next(k, UseRunner(k, env, cid, key, o, at)), aid);
  }

  lemma CloseStepProtects(k: Kernel, env: Env, x: Id, e: Hash, aid: Id)
    requires Linked(k) && Protected(k, aid)
    ensures Protected(Next(k, CloseAllocation(k, env, x, e)), aid)
  {
    OtherStepProtects(k, Next(k, CloseAllocation(k, env, x, e)), aid);
  }

  /** One disciplined step keeps a protected allocation protected. */
  lemma StepProtects(k: Kernel, env: Env, op: Op, aid: Id)
    requires Linked(k) && Accounting(k) && Protected(k, aid) && Disciplined(k, env, op)
    ensures Protected(Apply(k, env, op), aid)
  {
    match op
    case OpOpen(x, w, b, l, repos, runners) => OpenStepProtects(k, env, x, w, b, l, repos, runners, aid);
    case OpAccount(o) => AccountStepProtects(k, env, o, aid);
    case OpUsage(x, o) => UsageStepProtects(k, env, x, o, aid);
    case OpReserve(cid, x, repos, e, role, b) => ReserveStepProtects(k, env, cid, x, repos, e, role, b, aid);
    case OpBegin(cid) => BeginStepProtects(k, env, cid, aid);
    case OpBind(cid, n) => BindStepProtects(k, cid, n, aid);
    case OpBlock(cid, e) => BlockStepProtects(k, cid, e, aid);
    case OpRunner(cid, key, o, at) => RunnerStepProtects(k, env, cid, key, o, at, aid);
    case OpSettle(cid, proof) => SettleStepProtects(k, env, cid, proof, aid);
    case OpClose(x, e) => CloseStepProtects(k, env, x, e, aid);
  }

  lemma UsageProtects(k: Kernel, env: Env, aid: Id, o: Usage)
    requires Linked(k) && Protected(k, aid) && ObserveUsage(k, env, aid, o).Done? && Disciplined(k, env, OpUsage(aid, o))
    ensures Protected(ObserveUsage(k, env, aid, o).state, aid)
  {
    assert AllocationShape(k.allocations[aid], aid);
    IncorporationMoves(k, env, aid, o);
  }

  /** From any reachable store in which an allocation is within budget, every disciplined run keeps it there,
      whatever else happens to other allocations. */
  lemma {:induction false} RunProtects(k: Kernel, trace: seq<(Env, Op)>, aid: Id)
    requires Invariant(k) && Protected(k, aid) && DisciplinedRun(k, trace)
    ensures Protected(Run(k, trace), aid)
    decreases |trace|
  {
    if trace != [] {
      var front := trace[..|trace| - 1];
      RunProtects(k, front, aid);
      RunKeeps(k, front);
      StepProtects(Run(k, front), trace[|trace| - 1].0, trace[|trace| - 1].1, aid);
    }
  }

  // ---------- the life of a claim ----------

  function Rank(s: Status): nat {
    match s
    case Reserved => 0
    case Starting => 1
    case Running => 2
    case Uncertain => 2
    case Blocked => 2
    case Settled => 3
  }

  /** How a row may differ from its own past. */
  ghost predicate ClaimAdvances(c: Claim, d: Claim) {
    && d.id == c.id && d.spec == c.spec && d.createdAt == c.createdAt
    && Rank(c.status) <= Rank(d.status)
    && (c.status == Settled ==> d == c)
    && (c.native.Some? ==> d.native == c.native)
    && (c.startedAt.Some? ==> d.startedAt == c.startedAt)
  }

  ghost predicate Advances(k: Kernel, b: Kernel) {
    && b.policy == k.policy && k.events <= b.events
    && (forall cid | cid in k.claims :: cid in b.claims && ClaimAdvances(k.claims[cid], b.claims[cid]))
    && (forall aid | aid in k.allocations :: aid in b.allocations && b.allocations[aid].spec == k.allocations[aid].spec
                       && (k.allocations[aid].closed.Some? ==> b.allocations[aid].closed == k.allocations[aid].closed))
  }

  lemma MoveAdvances(k: Kernel, b: Kernel, c: Claim, e: Event)
    requires MovesWith(k, b, c, e) && ClaimAdvances(k.claims[c.id], c)
    ensures Advances(k, b)
  {
  }

  lemma BeginAdvances(k: Kernel, env: Env, cid: Id)
    requires Linked(k) && Begin(k, env, cid).Done?
    ensures Advances(k, Begin(k, env, cid).state)
  {
    assert ClaimLinked(k, cid);
    BeginMoves(k, env, cid);
    MoveAdvances(k, Begin(k, env, cid).state, Begin(k, env, cid).value, CreationBoundary(cid));
  }

  lemma BindAdvances(k: Kernel, cid: Id, n: Native)
    requires Linked(k) && Bind(k, cid, n).Done?
    ensures Advances(k, Bind(k, cid, n).state)
  {
    if k.claims[cid].native.None? {
      assert ClaimLinked(k, cid);
      BindMoves(k, cid, n);
      MoveAdvances(k, Bind(k, cid, n).state, Bind(k, cid, n).value, NativeBound(cid, n));
    }
  }

  lemma BlockAdvances(k: Kernel, cid: Id, e: Hash)
    requires Linked(k) && Block(k, cid, e).Done?
    ensures Advances(k, Block(k, cid, e).state)
  {
    assert ClaimLinked(k, cid);
    BlockMoves(k, cid, e);
    MoveAdvances(k, Block(k, cid, e).state, Block(k, cid, e).state.claims[cid], OwnershipRetained(cid, e));
  }

  lemma SettleAdvances(k: Kernel, env: Env, cid: Id, proof: Proof)
    requires Linked(k) && Settle(k, env, cid, proof).Done?
    ensures Advances(k, Settle(k, env, cid, proof).state)
  {
    if Held(k.claims[cid]) {
      assert ClaimLinked(k, cid);
      SettleMoves(k, env, cid, proof);
      MoveAdvances(k, Settle(k, env, cid, proof).state, Settle(k, env, cid, proof).value, ClaimSettled(cid, proof.evidence));
    }
  }

  lemma ReserveAdvances(k: Kernel, env: Env, cid: Id, x: Id, repos: seq<Id>, e: Estimates, role: Role, b: Option<Hash>)
    requires Reserve(k, env, cid, x, repos, e, role, b).Done?
    ensures Advances(k, Reserve(k, env, cid, x, repos, e, role, b).state)
  {
  }

  /** Operations that leave every claim as it is. */
  lemma RowsAdvance(k: Kernel, b: Kernel)
    requires b.policy == k.policy && b.claims == k.claims && k.events <= b.events
    requires forall aid | aid in k.allocations :: aid in b.allocations && b.allocations[aid].spec == k.allocations[aid].spec
                            && (k.allocations[aid].closed.Some? ==> b.allocations[aid].closed == k.allocations[aid].closed)
    ensures Advances(k, b)
  {
  }

  lemma OpenAdvances(k: Kernel, env: Env, x: Id, w: Id, h: Hash, l: Limits, repos: map<Id, seq<ResourceKey>>, runners: seq<ResourceKey>)
    ensures Advances(k, Next(k, OpenAllocation(k, env, x, w, h, l, repos, runners)))
  {
    RowsAdvance(k, Next(k, OpenAllocation(k, env, x, w, h, l, repos, runners)));
  }

  lemma AccountAdvances(k: Kernel, env: Env, o: Account)
    ensures Advances(k, Next(k, ObserveAccount(k, env, o)))
  {
    RowsAdvance(k, Next(k, ObserveAccount(k, env, o)));
  }

  lemma UsageAdvances(k: Kernel, env: Env, x: Id, o: Usage)
    ensures Advances(k, Next(k, ObserveUsage(k, env, x, o)))
  {
    RowsAdvance(k, Next(k, ObserveUsage(k, env, x, o)));
  }

  lemma RunnerAdvances(k: Kernel, env: Env, cid: Id, key: ResourceKey, o: RunnerOperation, at: real)
    ensures Advances(k, Next(k, UseRunner(k, env, cid, key, o, at)))
  {
    RowsAdvance(k, Next(k, UseRunner(k, env, cid, key, o, at)));
  }

  lemma CloseAdvances(k: Kernel, env: Env, x: Id, e: Hash)
    ensures Advances(k, Next(k, CloseAllocation(k, env, x, e)))
  {
    RowsAdvance(k, Next(k, CloseAllocation(k, env, x, e)));
  }

  lemma ApplyAdvances(k: Kernel, env: Env, op: Op)
    requires Linked(k)
    ensures Advances(k, Apply(k, env, op))
  {
    if Apply(k, env, op) == k {
      RowsAdvance(k, k);
    } else {
      match op
      case OpOpen(x, w, h, l, repos, runners) => OpenAdvances(k, env, x, w, h, l, repos, runners);
      case OpAccount(o) => AccountAdvances(k, env, o);
      case OpUsage(x, o) => UsageAdvances(k, env, x, o);
      case OpBegin(cid) => BeginAdvances(k, env, cid);
      case OpBind(cid, n) => BindAdvances(k, cid, n);
      case OpBlock(cid, e) => BlockAdvances(k, cid, e);
      case OpRunner(cid, key, o, at) => RunnerAdvances(k, env, cid, key, o, at);
      case OpSettle(cid, proof) => SettleAdvances(k, env, cid, proof);
      case OpReserve(cid, x, repos, e, role, b) => ReserveAdvances(k, env, cid, x, repos, e, role, b);
      case OpClose(x, e) => CloseAdvances(k, env, x, e);
    }
  }

  lemma AdvancesTransitive(k: Kernel, b: Kernel, d: Kernel)
    requires Advances(k, b) && Advances(b, d)
    ensures Advances(k, d)
  {
    forall cid | cid in k.claims ensures cid in d.claims && ClaimAdvances(k.claims[cid], d.claims[cid]) {
      assert ClaimAdvances(k.claims[cid], b.claims[cid]);
      assert ClaimAdvances(b.claims[cid], d.claims[cid]);
    }
  }

  lemma {:induction false} RunAdvances(k: Kernel, trace: seq<(Env, Op)>)
    requires Invariant(k)
    ensures Advances(k, Run(k, trace))
    decreases |trace|
  {
    if trace != [] {
      var front := trace[..|trace| - 1];
      var mid := Run(k, front);
      RunAdvances(k, front);
      assert Linked(mid) by { RunKeeps(k, front); }
      ApplyAdvances(mid, trace[|trace| - 1].0, trace[|trace| - 1].1);
      AdvancesTransitive(k, mid, Run(k, trace));
    }
  }

  /** A settled claim is never touched again, by any run. */
  lemma SettledIsFinal(k: Kernel, trace: seq<(Env, Op)>, cid: Id)
    requires Invariant(k) && cid in k.claims && k.claims[cid].status == Settled
    ensures cid in Run(k, trace).claims && Run(k, trace).claims[cid] == k.claims[cid]
  {
    RunAdvances(k, trace);
  }

  /** The creation boundary is crossed once: after it, no later attempt in any run commits,
      and the journal never shows two crossings. */
  lemma BoundaryOnce(k: Kernel, env: Env, cid: Id, trace: seq<(Env, Op)>, later: Env)
    requires Invariant(k) && Begin(k, env, cid).Done?
    ensures var b := Run(Begin(k, env, cid).state, trace);
            && Begin(b, later, cid).Refused?
            && Occurrences(b.events, CreationBoundary(cid)) == 1
  {
    var first := Begin(k, env, cid).state;
    BeginStarts(k, env, cid);
    BeginKeeps(k, env, cid);
    StartedOnce(first, cid, trace);
  }

  lemma BeginStarts(k: Kernel, env: Env, cid: Id)
    requires Linked(k) && Begin(k, env, cid).Done?
    ensures cid in Begin(k, env, cid).state.claims && Begin(k, env, cid).state.claims[cid].startedAt.Some?
    ensures Begin(k, env, cid).state.claims[cid].status == Starting
  {
    assert ClaimLinked(k, cid);
  }

  lemma StartedOnce(k: Kernel, cid: Id, trace: seq<(Env, Op)>)
    requires Invariant(k) && cid in k.claims && k.claims[cid].startedAt.Some? && k.claims[cid].status == Starting
    ensures var b := Run(k, trace);
            cid in b.claims && b.claims[cid].status != Status.Reserved && Occurrences(b.events, CreationBoundary(cid)) == 1
  {
    var b := Run(k, trace);
    assert cid in b.claims && ClaimAdvances(k.claims[cid], b.claims[cid]) by { RunAdvances(k, trace); }
    assert Journal(b) by { RunKeeps(k, trace); }
  }

  /** Repeating a committed reservation later, after any run, either refuses behind the fence or answers with
      the claim as it now is; in both cases it changes nothing. */
  lemma ReplayChangesNothing(k: Kernel, env: Env, cid: Id, aid: Id, repos: seq<Id>, e: Estimates, role: Role, binding: Option<Hash>,
                             trace: seq<(Env, Op)>, later: Env)
    requires Invariant(k) && Reserve(k, env, cid, aid, repos, e, role, binding).Done?
    ensures var b := Run(Reserve(k, env, cid, aid, repos, e, role, binding).state, trace);
            var again := Reserve(b, later, cid, aid, repos, e, role, binding);
            && cid in b.claims
            && again == (if Fenced(b, later) then Refused else Done(b, b.claims[cid]))
  {
    ReserveKeeps(k, env, cid, aid, repos, e, role, binding);
    var b := Reserve(k, env, cid, aid, repos, e, role, binding).state;
    RunAdvances(b, trace);
  }

  /** In every reachable store: native identity and status agree, identities are not shared,
      and the three limits hold. */
  lemma LifecycleAndLimits(policy: Policy, trace: seq<(Env, Op)>)
    requires ValidPolicy(policy)
    ensures var k := Run(Empty(policy), trace);
            && (forall cid | cid in k.claims && Held(k.claims[cid]) ::
                  k.claims[cid].native.Some? <==> k.claims[cid].status in {Running, Blocked})
            && (forall c, d | c in k.claims && d in k.claims && k.claims[c].native.Some? && k.claims[c].native == k.claims[d].native :: c == d)
            && MapSum(k.claims, HeldOne()) <= policy.maxParallelTasks
            && (forall aid | aid in k.allocations ::
                  && MapSum(k.claims, HeldOneIn(aid)) <= k.allocations[aid].spec.limits.maxParallelTasks
                  && MapSum(k.claims, AttemptIn(aid)) <= k.allocations[aid].spec.limits.maxTasks)
  {
    EmptyHolds(policy);
    RunKeeps(Empty(policy), trace);
    RunAdvances(Empty(policy), trace);
    var k := Run(Empty(policy), trace);
    forall cid | cid in k.claims ensures ClaimLinked(k, cid) {}
  }

  // ---------- behind the fence ----------

  ghost predicate AlwaysFenced(k: Kernel, trace: seq<(Env, Op)>) {
    k.legacy.Some? || forall i | 0 <= i < |trace| :: trace[i].0.sidecar
  }

  ghost predicate NothingEntered(k: Kernel, b: Kernel) {
    && b.allocations.Keys == k.allocations.Keys
    && b.claims.Keys == k.claims.Keys
    && b.resources.Keys <= k.resources.Keys
    && b.legacy == k.legacy && b.legacyClaims == k.legacyClaims
    && (forall cid | cid in k.claims && k.claims[cid].startedAt.None? :: b.claims[cid].startedAt.None?)
  }

  /** The operations on one claim, behind a fence. */
  lemma FencedMove(k: Kernel, b: Kernel, c: Claim, e: Event)
    requires MovesWith(k, b, c, e) && !e.CreationBoundary? && b.resources.Keys <= k.resources.Keys
    requires b.legacy == k.legacy && b.legacyClaims == k.legacyClaims
    ensures NothingEntered(k, b)
  {
  }

  lemma FencedStep(k: Kernel, env: Env, op: Op)
    requires Fenced(k, env) && Linked(k)
    ensures NothingEntered(k, Apply(k, env, op))
  {
    var next := Apply(k, env, op);
    if next != k {
      match op
      case OpBind(cid, n) => FencedBind(k, cid, n);
      case OpBlock(cid, e) => FencedBlock(k, cid, e);
      case OpSettle(cid, proof) => FencedSettle(k, env, cid, proof);
      case _ =>
    }
  }

  lemma FencedBind(k: Kernel, cid: Id, n: Native)
    requires Linked(k) && Bind(k, cid, n).Done?
    ensures NothingEntered(k, Bind(k, cid, n).state)
  {
    if k.claims[cid].native.None? {
      assert ClaimLinked(k, cid);
      BindMoves(k, cid, n);
      FencedMove(k, Bind(k, cid, n).state, Bind(k, cid, n).value, NativeBound(cid, n));
    }
  }

  lemma FencedBlock(k: Kernel, cid: Id, e: Hash)
    requires Linked(k) && Block(k, cid, e).Done?
    ensures NothingEntered(k, Block(k, cid, e).state)
  {
    assert ClaimLinked(k, cid);
    BlockMoves(k, cid, e);
    FencedMove(k, Block(k, cid, e).state, Block(k, cid, e).state.claims[cid], OwnershipRetained(cid, e));
  }

  lemma FencedSettle(k: Kernel, env: Env, cid: Id, proof: Proof)
    requires Linked(k) && Settle(k, env, cid, proof).Done?
    ensures NothingEntered(k, Settle(k, env, cid, proof).state)
  {
    if Held(k.claims[cid]) {
      assert ClaimLinked(k, cid);
      SettleMoves(k, env, cid, proof);
      FencedMove(k, Settle(k, env, cid, proof).state, Settle(k, env, cid, proof).value, ClaimSettled(cid, proof.evidence));
    }
  }

  lemma NothingEnteredTransitive(k: Kernel, b: Kernel, d: Kernel)
    requires NothingEntered(k, b) && NothingEntered(b, d)
    ensures NothingEntered(k, d)
  {
  }

  /** While a fence stands, no run opens an allocation, reserves or begins a claim, or takes a resource. */
  lemma {:induction false} FencedRun(k: Kernel, trace: seq<(Env, Op)>)
    requires Invariant(k) && AlwaysFenced(k, trace)
    ensures NothingEntered(k, Run(k, trace))
    decreases |trace|
  {
    if trace != [] {
      var front := trace[..|trace| - 1];
      var mid := Run(k, front);
      FencedRun(k, front);
      assert Linked(mid) by { RunKeeps(k, front); }
      FencedStep(mid, trace[|trace| - 1].0, trace[|trace| - 1].1);
      NothingEnteredTransitive(k, mid, Run(k, trace));
    }
  }
}
