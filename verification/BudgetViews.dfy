/** The read-only accounting report over one allocation. It re-checks the settlement coverage it is shown
    and gives no report at all when the check fails. */
module BudgetViews {
  import opened Sums
  import opened AdmissionModel
  import opened AdmissionInvariant
  import opened AdmissionTheorems
  import opened AdmissionStores
  import opened AdmissionLaws

  datatype Issue =
    | PhaseBindingUnavailable | UsageEvidenceIncomplete | MembershipChanged | UsageAccountChanged
    | PhaseJournalNotObserved | UsageCoverageIncomplete | UsageNotObserved | UsageStaleOrFuture

  /** What the phase journal says, when there is one. */
  datatype PhaseDoc = PhaseDoc(hasIssues: bool, membershipCurrent: bool, accountCurrent: bool, projection: Usage)

  datatype View = View(issues: set<Issue>, observed: Option<int>, held: int, unincorporated: int, reserve: int,
                       balance: Option<int>, recordedClaims: int, heldClaims: int, settledClaims: int)

  predicate InRange(x: int) {
    0 <= x <= MAX_INTEGER
  }

  predicate ReadableLimits(l: Limits) {
    InRange(l.maxParallelTasks) && InRange(l.maxTasks) && InRange(l.tokenBudget) && InRange(l.checkpointReserve)
  }

  predicate ReadableClaim(c: Claim) {
    InRange(Estimated(c)) && (c.status == Settled ==> c.actual.Some? && ValidCounters(c.actual.value))
  }

  predicate CoverageIntact(k: Kernel, a: Allocation, u: Usage) {
    && ValidCounters(u.counters) && u.observedAt > 0.0
    && Elements(u.coverage) <= COVERAGE
    && Distinct(u.settledClaimIds)
    && (forall id | id in u.settledClaimIds :: id in k.claims && k.claims[id].spec.allocationId == a.id && k.claims[id].status == Settled)
    && ListedTokens(k, u.settledClaimIds) <= TokensOf(u.counters)
  }

  /** Exactly when the reader reports instead of refusing. */
  predicate Reportable(k: Kernel, a: Allocation, doc: Option<PhaseDoc>) {
    && ReadableLimits(a.spec.limits)
    && (forall id | id in k.claims && k.claims[id].spec.allocationId == a.id :: ReadableClaim(k.claims[id]))
    && (a.usage.Some? ==> CoverageIntact(k, a, a.usage.value))
    && (doc.Some? ==> a.usage == Some(doc.value.projection))
  }

  function Issues(k: Kernel, now: real, a: Allocation, phaseKnown: bool, doc: Option<PhaseDoc>): set<Issue> {
    (if phaseKnown then {} else {PhaseBindingUnavailable})
    + (if doc.None? then {PhaseJournalNotObserved}
       else (if doc.value.hasIssues then {UsageEvidenceIncomplete} else {})
            + (if doc.value.membershipCurrent then {} else {MembershipChanged})
            + (if doc.value.accountCurrent then {} else {UsageAccountChanged}))
    + (if UsageKnown(a) then {} else {UsageCoverageIncomplete})
    + (if a.usage.None? then {UsageNotObserved}
       else if 0.0 <= now - a.usage.value.observedAt <= k.policy.maxObservationAge as real then {}
       else {UsageStaleOrFuture})
  }

  function SettledOneIn(aid: Id): (Id, Claim) -> int {
    (id: Id, c: Claim) => if c.spec.allocationId == aid && !Held(c) then 1 else 0
  }

  method CountRows(claims: map<Id, Claim>, aid: Id) returns (readable: bool, recorded: int, held: int, settled: int)
    ensures readable <==> forall id | id in claims && claims[id].spec.allocationId == aid :: ReadableClaim(claims[id])
    ensures readable ==> recorded == MapSum(claims, AttemptIn(aid))
    ensures readable ==> held == MapSum(claims, HeldOneIn(aid))
    ensures readable ==> settled == MapSum(claims, SettledOneIn(aid))
  {
    recorded, held, settled := 0, 0, 0;
    var rest := claims;
    while rest != map[]
      invariant rest.Keys <= claims.Keys && forall id | id in rest :: rest[id] == claims[id]
      invariant forall id | id in claims && id !in rest && claims[id].spec.allocationId == aid :: ReadableClaim(claims[id])
      invariant recorded + MapSum(rest, AttemptIn(aid)) == MapSum(claims, AttemptIn(aid))
      invariant held + MapSum(rest, HeldOneIn(aid)) == MapSum(claims, HeldOneIn(aid))
      invariant settled + MapSum(rest, SettledOneIn(aid)) == MapSum(claims, SettledOneIn(aid))
      decreases |rest|
    {
      var id :| id in rest;
      var c := rest[id];
      MapSumTake(rest, AttemptIn(aid), id);
      MapSumTake(rest, HeldOneIn(aid), id);
      MapSumTake(rest, SettledOneIn(aid), id);
      if c.spec.allocationId == aid {
        if !ReadableClaim(c) { return false, 0, 0, 0; }
        recorded := recorded + 1;
        if Held(c) { held := held + 1; } else { settled := settled + 1; }
      }
      rest := rest - {id};
    }
    readable := true;
  }

  method AllocationView(k: Kernel, now: real, a: Allocation, phaseKnown: bool, doc: Option<PhaseDoc>) returns (v: Option<View>)
    ensures v.Some? <==> Reportable(k, a, doc)
    ensures v.Some? ==>
              && v.value.issues == Issues(k, now, a, phaseKnown, doc)
              && v.value.observed == (if a.usage.Some? then Some(Observed(a)) else None)
              && v.value.held == HeldSum(k, a.id)
              && v.value.unincorporated == Unincorporated(k, a)
              && v.value.reserve == a.spec.limits.checkpointReserve
              && v.value.balance == (if v.value.issues == {} then Some(Remaining(k, a)) else None)
              && v.value.recordedClaims == MapSum(k.claims, AttemptIn(a.id))
              && v.value.heldClaims == MapSum(k.claims, HeldOneIn(a.id))
              && v.value.settledClaims == MapSum(k.claims, SettledOneIn(a.id))
  {
    if !ReadableLimits(a.spec.limits) { return None; }
    var readable, recorded, heldClaims, settledClaims := CountRows(k.claims, a.id);
    if !readable { return None; }
    if a.usage.Some? && !CoverageIntact(k, a, a.usage.value) { return None; }
    if doc.Some? && a.usage != Some(doc.value.projection) { return None; }
    var issues := Issues(k, now, a, phaseKnown, doc);
    var budget := BudgetProjection(k.claims, a);
    v := Some(View(issues, if a.usage.Some? then Some(budget.observed) else None, budget.held, budget.unincorporated,
                   a.spec.limits.checkpointReserve, if issues == {} then Some(budget.remaining) else None,
                   recorded, heldClaims, settledClaims));
  }

  lemma SoundIsIntact(k: Kernel, a: Allocation)
    requires a.usage.Some? && UsageSound(k, a)
    ensures CoverageIntact(k, a, a.usage.value)
  {
    ListedIsIncluded(k, a.id, a.usage.value.settledClaimIds);
  }

  lemma RowsReadable(k: Kernel, a: Allocation, id: Id)
    requires Linked(k) && id in k.claims
    ensures ReadableClaim(k.claims[id])
  {
    assert ClaimLinked(k, id);
  }

  /** The reader never refuses a store the writer produced, and never refuses or takes a phase document for any other
      reason than what that document says of the usage. */
  lemma WriterIsReportable(policy: Policy, trace: seq<(Env, Op)>, aid: Id, doc: Option<PhaseDoc>)
    requires ValidPolicy(policy) && aid in Reached(policy, trace).allocations
    ensures var k := Reached(policy, trace);
            Reportable(k, k.allocations[aid], doc) <==> doc.None? || k.allocations[aid].usage == Some(doc.value.projection)
  {
    var k := Reached(policy, trace);
    assert Linked(k) && Accounting(k) by { ReachedHolds(policy, trace); }
    var a := k.allocations[aid];
    assert AllocationShape(a, aid) && UsageSound(k, a);
    if a.usage.Some? { SoundIsIntact(k, a); }
    forall id | id in k.claims ensures ReadableClaim(k.claims[id]) { RowsReadable(k, a, id); }
  }

  /** What it makes of rows that something else wrote: it reports if and only if limits, estimates and actuals are readable
      numbers, and a usage observation is well formed, lists settled claims of the allocation once each, and covers them. */
  lemma ReportsExactly(k: Kernel, a: Allocation)
    ensures Reportable(k, a, None)
            <==> && 0 <= a.spec.limits.maxParallelTasks <= 1_000_000_000_000 && 0 <= a.spec.limits.maxTasks <= 1_000_000_000_000
                 && 0 <= a.spec.limits.tokenBudget <= 1_000_000_000_000 && 0 <= a.spec.limits.checkpointReserve <= 1_000_000_000_000
                 && (forall id | id in k.claims && k.claims[id].spec.allocationId == a.id ::
                       var c := k.claims[id];
                       && 0 <= c.spec.estimates.work + c.spec.estimates.review + c.spec.estimates.handoff <= 1_000_000_000_000
                       && (c.status == Settled ==>
                             && c.actual.Some? && 0 <= c.actual.value.cachedInput <= c.actual.value.input <= 1_000_000_000_000
                             && 0 <= c.actual.value.reasoningOutput <= c.actual.value.output <= 1_000_000_000_000))
                 && (a.usage.Some? ==>
                       var u := a.usage.value;
                       && 0 <= u.counters.cachedInput <= u.counters.input <= 1_000_000_000_000
                       && 0 <= u.counters.reasoningOutput <= u.counters.output <= 1_000_000_000_000
                       && u.observedAt > 0.0 && (forall x | x in u.coverage :: x == Brain || x == Workers || x == Reviews)
                       && (forall i, j | 0 <= i < j < |u.settledClaimIds| :: u.settledClaimIds[i] != u.settledClaimIds[j])
                       && (forall id | id in u.settledClaimIds ::
                             id in k.claims && k.claims[id].spec.allocationId == a.id && k.claims[id].status == Settled)
                       && MapSum(k.claims, ListedActual(u.settledClaimIds)) <= u.counters.input + u.counters.output)
  {
    if a.usage.Some? { IntactReads(k, a, a.usage.value); }
  }

  lemma IntactReads(k: Kernel, a: Allocation, u: Usage)
    ensures (Elements(u.coverage) <= COVERAGE) <==> forall x | x in u.coverage :: x == Brain || x == Workers || x == Reviews
    ensures Distinct(u.settledClaimIds)
            && (forall id | id in u.settledClaimIds :: id in k.claims && k.claims[id].spec.allocationId == a.id && k.claims[id].status == Settled)
            ==> ListedTokens(k, u.settledClaimIds) == MapSum(k.claims, ListedActual(u.settledClaimIds))
  {
    assert forall x :: x in u.coverage <==> x in Elements(u.coverage);
    if Distinct(u.settledClaimIds)
       && (forall id | id in u.settledClaimIds :: id in k.claims && k.claims[id].spec.allocationId == a.id && k.claims[id].status == Settled) {
      ListedIsIncluded(k, a.id, u.settledClaimIds);
      MapSumAgree(k.claims, IncludedTokens(a.id, Elements(u.settledClaimIds)), ListedActual(u.settledClaimIds));
    }
  }

  /** Each issue of a report is named exactly when it applies. */
  lemma IssuesExactly(k: Kernel, now: real, a: Allocation, phaseKnown: bool, doc: Option<PhaseDoc>)
    ensures var issues := Issues(k, now, a, phaseKnown, doc);
            && (PhaseBindingUnavailable in issues <==> !phaseKnown)
            && (PhaseJournalNotObserved in issues <==> doc.None?)
            && (UsageEvidenceIncomplete in issues <==> doc.Some? && doc.value.hasIssues)
            && (MembershipChanged in issues <==> doc.Some? && !doc.value.membershipCurrent)
            && (UsageAccountChanged in issues <==> doc.Some? && !doc.value.accountCurrent)
            && (UsageCoverageIncomplete in issues <==> a.usage.None? || (set x | x in a.usage.value.coverage) != {Brain, Workers, Reviews})
            && (UsageNotObserved in issues <==> a.usage.None?)
            && (UsageStaleOrFuture in issues
                <==> a.usage.Some? && (now < a.usage.value.observedAt || now > a.usage.value.observedAt + k.policy.maxObservationAge as real))
  {
  }

  /** A report that passes the coverage check charges every settled token, and its claim counts add up. */
  lemma ReportCharges(k: Kernel, a: Allocation, doc: Option<PhaseDoc>)
    requires Reportable(k, a, doc)
    ensures Observed(a) + Unincorporated(k, a) >= SettledSum(k, a.id)
    ensures MapSum(k.claims, AttemptIn(a.id)) == MapSum(k.claims, HeldOneIn(a.id)) + MapSum(k.claims, SettledOneIn(a.id))
  {
    SettledSplits(k, a);
    MapSumAdd(k.claims, HeldOneIn(a.id), SettledOneIn(a.id), AttemptIn(a.id));
    if a.usage.Some? {
      ListedIsIncluded(k, a.id, a.usage.value.settledClaimIds);
    } else {
      NoClaims(k.claims, IncludedTokens(a.id, {}));
    }
  }
}
