/** When a proposal is published and what it records, and which rows the projection shows, in the fields of the rows. */
module ContinuationLaws {
  import opened Sums
  import opened Decisions
  import opened DecisionLaws
  import opened Continuations

  /** At most eight questions and eight packets, each once; some of them, or else something external to wait for. */
  predicate Linked(plan: Plan) {
    && |plan.decisions| <= 8 && (forall i, j | 0 <= i < j < |plan.decisions| :: plan.decisions[i] != plan.decisions[j])
    && |plan.packets| <= 8 && (forall i, j | 0 <= i < j < |plan.packets| :: plan.packets[i] != plan.packets[j])
    && (plan.blocker.Some? <==> plan.decisions == [] && plan.packets == [])
  }

  /** What a plan links is all of the repository, all newer than the outcome, and none of it taken up yet. */
  predicate Anew(b: Board, plan: Plan, repository: Id, key: Id, at: real) {
    && (exists k | 0 <= k < |plan.artifacts| ::
          plan.artifacts[k] in b.ledger.artifacts && at <= b.ledger.artifacts[plan.artifacts[k]].observedAt)
    && (forall doc | doc in plan.decisions ::
          && doc.spec.repository == repository && doc.spec.key != key
          && exists j | 0 <= j < |b.ledger.decisions| ::
               b.ledger.decisions[j].doc == doc && b.ledger.decisions[j].status == Open && at < b.ledger.decisions[j].createdAt)
    && forall p | p in plan.packets ::
         p in b.queue && b.queue[p].repository == repository && at < b.queue[p].createdAt && b.queue[p].proposed
  }

  lemma AnewReads(b: Board, plan: Plan, source: Spec, at: real)
    requires Numbered(b.ledger.decisions) && Retained(b.ledger, plan.artifacts, source.repository)
    ensures Anew(b, plan, source.repository, source.key, at)
            <==> Evidenced(b.ledger, plan, source.repository, at)
                 && (forall d | d in plan.decisions :: Follows(b.ledger.decisions, source, at, d))
                 && (forall p | p in plan.packets :: Prepared(b.queue, source.repository, at, p))
  {
    forall doc | doc in plan.decisions
      ensures Follows(b.ledger.decisions, source, at, doc)
              <==> && doc.spec.repository == source.repository && doc.spec.key != source.key
                   && exists j | 0 <= j < |b.ledger.decisions| ::
                        b.ledger.decisions[j].doc == doc && b.ledger.decisions[j].status == Open && at < b.ledger.decisions[j].createdAt
    {
      forall j | 0 <= j < |b.ledger.decisions| && b.ledger.decisions[j].doc == doc ensures Row(b.ledger.decisions, doc) == j {
        RowFinds(b.ledger.decisions, j);
      }
    }
    assert (exists k | 0 <= k < |plan.artifacts| ::
              plan.artifacts[k] in b.ledger.artifacts && at <= b.ledger.artifacts[plan.artifacts[k]].observedAt)
           <==> exists a | a in plan.artifacts :: a in b.ledger.artifacts && b.ledger.artifacts[a].observedAt >= at;
  }

  lemma {:induction false} CountIsSize(records: seq<Record>, source: Document)
    ensures CountFor(records, source) == |set k | 0 <= k < |records| && records[k].source == source|
  {
    var all := set k | 0 <= k < |records| && records[k].source == source;
    if records != [] {
      var n := |records| - 1;
      CountIsSize(records[..n], source);
      var before := set k | 0 <= k < |records[..n]| && records[..n][k].source == source;
      assert all == before + if records[n].source == source then {n} else {};
    }
  }

  /** The plan is the one last proposed for this source. */
  predicate LastPlan(records: seq<Record>, source: Document, plan: Plan) {
    exists k | 0 <= k < |records| ::
      records[k].source == source && records[k].plan == plan && forall m | k < m < |records| :: records[m].source != source
  }

  lemma {:induction false} NewestIsLastRecord(records: seq<Record>, source: Document)
    requires Versioned(records)
    ensures var n := Newest(records, source);
            && (n.None? <==> forall k | 0 <= k < |records| :: records[k].source != source)
            && (n.Some? ==> exists k | 0 <= k < |records| ::
                  records[k] == n.value && records[k].source == source && forall m | k < m < |records| :: records[m].source != source)
  {
    if records != [] {
      var front := records[..|records| - 1];
      NewestIsLastRecord(front, source);
      NewestIsLast(front, source);
      var n := Newest(front, source);
      if n.Some? && records[|records| - 1].source != source {
        var k :| 0 <= k < |front| && front[k] == n.value && front[k].source == source && forall m | k < m < |front| :: front[m].source != source;
        assert records[k] == n.value && forall m | k < m < |records| :: records[m].source != source;
      }
      assert forall k | 0 <= k < |front| :: records[k] == front[k];
    }
  }

  /** A proposal for a blocked question is published if and only if it links something new or else waits for something
      external, and is the last plan already or was written knowing how many there are. It is then recorded under the next
      number, with the question's resolution, and with each packet as it is in the queue at that moment. */
  lemma ProposeExactly(b: Board, i: nat, plan: Plan, allowed: bool)
    requires Continuations.Invariant(b) && i < |b.ledger.decisions|
    ensures var d := b.ledger.decisions[i];
            var s := Continuations.Publish(b, d.doc, plan, allowed);
            var n := |set k | 0 <= k < |b.records| && b.records[k].source == d.doc|;
            && (s.Done? <==>
                  && allowed && Linked(plan) && d.status == Blocked && d.resolution.Some?
                  && (LastPlan(b.records, d.doc, plan)
                      || (plan.expected == n && Cites(b.ledger, plan.artifacts, d.doc.spec.repository)
                          && Anew(b, plan, d.doc.spec.repository, d.doc.spec.key, d.resolution.value.at))))
            && (s.Done? && LastPlan(b.records, d.doc, plan) ==> s.state == b)
            && (s.Done? && !LastPlan(b.records, d.doc, plan) ==>
                  && s.state == b.(records := b.records + [s.value])
                  && s.value == Record(d.doc, d.resolution.value, n + 1, plan, s.value.packets, b.ledger.clock)
                  && |s.value.packets| == |plan.packets|
                  && forall k | 0 <= k < |plan.packets| ::
                       plan.packets[k] in b.queue
                       && s.value.packets[k] == PacketLink(plan.packets[k], b.queue[plan.packets[k]].seed, b.queue[plan.packets[k]].digest))
  {
    var d := b.ledger.decisions[i];
    RowFinds(b.ledger.decisions, i);
    assert InStep(d, b.ledger.commands, b.ledger.clock);
    CountIsSize(b.records, d.doc);
    NewestIsLast(b.records, d.doc);
    LastPlanReads(b.records, d.doc, plan);
    CitesReads(b.ledger, plan.artifacts, d.doc.spec.repository);
    assert Shaped(plan) <==> Linked(plan);
    if d.status == Blocked && Retained(b.ledger, plan.artifacts, d.doc.spec.repository) {
      AnewReads(b, plan, d.doc.spec, d.resolution.value.at);
    }
  }

  lemma LastPlanReads(records: seq<Record>, source: Document, plan: Plan)
    requires Versioned(records)
    ensures LastPlan(records, source, plan) <==> Newest(records, source).Some? && Newest(records, source).value.plan == plan
  {
    NewestIsLastRecord(records, source);
  }

  /** Of several records of a source both readers take the highest version; of equals the writer takes the last and the
      projection the first. */
  lemma {:induction false} NewestExactly(records: seq<Record>, source: Document)
    ensures var n, p := Newest(records, source), LatestRecord(records, source);
            && (n.None? <==> p.None?) && (n.None? <==> forall k | 0 <= k < |records| :: records[k].source != source)
            && (n.Some? ==> n.value.version == p.value.version && forall k | 0 <= k < |records| && records[k].source == source ::
                  records[k].version <= n.value.version)
            && (n.Some? ==> exists k | 0 <= k < |records| ::
                  records[k] == n.value && n.value.source == source
                  && forall m | k < m < |records| && records[m].source == source :: records[m].version < n.value.version)
            && (p.Some? ==> exists k | 0 <= k < |records| ::
                  records[k] == p.value && p.value.source == source
                  && forall m | 0 <= m < k && records[m].source == source :: records[m].version < p.value.version)
  {
    if records != [] {
      var front := records[..|records| - 1];
      NewestExactly(front, source);
      assert forall k | 0 <= k < |front| :: records[k] == front[k];
    }
  }

  /** On rows that something else wrote: a record for another resolution than the question has needs a revision. */
  lemma OtherResolutionIsStale(b: Board, d: Decision)
    requires LatestRecord(b.records, d.doc).Some? && d.resolution != Some(LatestRecord(b.records, d.doc).value.resolution)
    ensures Standing(b, d) == NeedsRevision
  {
  }

  /** The projection shows the blocked questions, each with its standing, and nothing else. */
  lemma {:induction false} RowsExactly(b: Board, ds: seq<Decision>, doc: Document, standing: FollowUp)
    ensures (doc, standing) in Rows(b, ds)
            <==> exists i | 0 <= i < |ds| ::
                   ds[i].status == Blocked && ds[i].resolution.Some? && ds[i].doc == doc && Standing(b, ds[i]) == standing
  {
    if ds != [] {
      RowsExactly(b, ds[..|ds| - 1], doc, standing);
      assert forall i | 0 <= i < |ds| - 1 :: ds[..|ds| - 1][i] == ds[i];
    }
  }
}
