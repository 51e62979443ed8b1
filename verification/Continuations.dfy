/** What comes after a blocked decision: versioned proposals that link it to later questions and to prepared packets,
    and the projection that tells whether a proposal still stands. */
module Continuations {
  import opened Sums
  import opened Decisions

  datatype Packet = Packet(repository: Id, createdAt: real, proposed: bool, seed: Id, digest: Id)
  datatype PacketLink = PacketLink(id: Id, seed: Id, digest: Id)

  datatype Plan = Plan(expected: nat, summary: string, artifacts: seq<Id>, decisions: seq<Document>, packets: seq<Id>, blocker: Option<string>)
  datatype Record = Record(source: Document, resolution: Resolution, version: nat, plan: Plan, packets: seq<PacketLink>, createdAt: real)

  datatype Board = Board(ledger: Ledger, queue: map<Id, Packet>, records: seq<Record>)

  // ---------- publishing ----------

  function CountFor(records: seq<Record>, source: Document): nat {
    if records == [] then 0 else CountFor(records[..|records| - 1], source) + if records[|records| - 1].source == source then 1 else 0
  }

  /** The record of the highest version as `publish` finds it: by sorting, so the last of equals. */
  function Newest(records: seq<Record>, source: Document): Option<Record> {
    if records == [] then None
    else
      var r, n := records[|records| - 1], Newest(records[..|records| - 1], source);
      if r.source == source && (n.None? || n.value.version <= r.version) then Some(r) else n
  }

  predicate Shaped(plan: Plan) {
    && |plan.decisions| <= 8 && |plan.packets| <= 8 && Distinct(plan.decisions) && Distinct(plan.packets)
    && (plan.decisions != [] || plan.packets != []) != plan.blocker.Some?
  }

  predicate Evidenced(l: Ledger, plan: Plan, repository: Id, at: real) {
    Retained(l, plan.artifacts, repository) && exists a | a in plan.artifacts :: l.artifacts[a].observedAt >= at
  }

  /** A question that may follow: new, open, in the same repository, and another question. */
  predicate Follows(ds: seq<Decision>, source: Spec, at: real, doc: Document) {
    var j := Row(ds, doc);
    j >= 0 && doc.spec.repository == source.repository && ds[j].createdAt > at && ds[j].status == Open && doc.spec.key != source.key
  }

  predicate Prepared(queue: map<Id, Packet>, repository: Id, at: real, id: Id) {
    id in queue && queue[id].repository == repository && queue[id].createdAt > at && queue[id].proposed
  }

  function Publish(b: Board, source: Document, plan: Plan, allowed: bool): Step<Board, Record> {
    var ds := b.ledger.decisions;
    var i := Row(ds, source);
    if !allowed || !Shaped(plan) || i < 0 || ds[i].status != Blocked || ds[i].resolution.None? then Refused
    else
      var newest, at := Newest(b.records, source), ds[i].resolution.value.at;
      if newest.Some? && newest.value.plan == plan then Done(b, newest.value)
      else if plan.expected != (if newest.Some? then newest.value.version else 0) then Refused
      else if !Evidenced(b.ledger, plan, source.spec.repository, at) then Refused
      else if exists d | d in plan.decisions :: !Follows(ds, source.spec, at, d) then Refused
      else if exists p | p in plan.packets :: !Prepared(b.queue, source.spec.repository, at, p) then Refused
      else
        assert forall p | p in plan.packets :: Prepared(b.queue, source.spec.repository, at, p);
        assert forall k | 0 <= k < |plan.packets| :: plan.packets[k] in plan.packets;
        var links := seq(|plan.packets|, k requires 0 <= k < |plan.packets| && plan.packets[k] in b.queue =>
                           PacketLink(plan.packets[k], b.queue[plan.packets[k]].seed, b.queue[plan.packets[k]].digest));
        var r := Record(source, ds[i].resolution.value, plan.expected + 1, plan, links, b.ledger.clock);
        Done(b.(records := b.records + [r]), r)
  }

  datatype Move = Decide(op: Op) | Propose(source: Document, plan: Plan, allowed: bool) | Surround(queue: map<Id, Packet>)

  function Moved(b: Board, m: Move): Board {
    match m
    case Decide(op) => b.(ledger := Apply(b.ledger, op))
    case Propose(source, plan, allowed) => var s := Publish(b, source, plan, allowed); if s.Done? then s.state else b
    case Surround(queue) => b.(queue := queue)
  }

  function MovedAll(b: Board, ms: seq<Move>): Board {
    if ms == [] then b else Moved(MovedAll(b, ms[..|ms| - 1]), ms[|ms| - 1])
  }

  // ---------- what every reachable board keeps ----------

  predicate Versioned(records: seq<Record>) {
    records == []
    || (Versioned(records[..|records| - 1])
        && records[|records| - 1].version == CountFor(records[..|records| - 1], records[|records| - 1].source) + 1)
  }

  /** A linked question was asked after its source was resolved, in the same repository, and is another question. */
  predicate Later(ds: seq<Decision>, r: Record, doc: Document) {
    var j := Row(ds, doc);
    && j >= 0 && ds[j].createdAt > r.resolution.at
    && doc.spec.repository == r.source.spec.repository && doc.spec.key != r.source.spec.key
  }

  /** The source of a record is blocked, with the resolution the record was written for; it links each packet of its plan. */
  predicate Grounded(ds: seq<Decision>, r: Record) {
    var i := Row(ds, r.source);
    && i >= 0 && ds[i].status == Blocked && ds[i].resolution == Some(r.resolution)
    && (forall d | d in r.plan.decisions :: Later(ds, r, d))
    && ((r.plan.decisions != [] || r.plan.packets != []) <==> r.plan.blocker.None?)
    && |r.packets| == |r.plan.packets| && forall k | 0 <= k < |r.packets| :: r.packets[k].id == r.plan.packets[k]
  }

  ghost predicate Invariant(b: Board) {
    && Decisions.Invariant(b.ledger)
    && Versioned(b.records)
    && forall k {:trigger Grounded(b.ledger.decisions, b.records[k])} | 0 <= k < |b.records| :: Grounded(b.ledger.decisions, b.records[k])
  }

  lemma {:induction false} NewestIsLast(records: seq<Record>, source: Document)
    requires Versioned(records)
    ensures var n := Newest(records, source);
            && (n.None? <==> CountFor(records, source) == 0)
            && (n.Some? ==> n.value.version == CountFor(records, source) && n.value.source == source && n.value in records)
  {
    if records != [] {
      NewestIsLast(records[..|records| - 1], source);
    }
  }

  lemma RowStays(ds: seq<Decision>, es: seq<Decision>, doc: Document)
    requires Numbered(ds) && Numbered(es) && AllAdvance(ds, es) && Row(ds, doc) >= 0
    ensures Row(es, doc) == Row(ds, doc)
  {
    var i := Row(ds, doc);
    assert Advances(ds[i], es[i]);
    RowFinds(es, i);
  }

  lemma GroundedStays(ds: seq<Decision>, es: seq<Decision>, r: Record)
    requires Numbered(ds) && Numbered(es) && AllAdvance(ds, es) && Grounded(ds, r)
    ensures Grounded(es, r)
  {
    RowStays(ds, es, r.source);
    assert Advances(ds[Row(ds, r.source)], es[Row(ds, r.source)]);
    forall d | d in r.plan.decisions ensures Later(es, r, d)
    {
      RowStays(ds, es, d);
      assert Advances(ds[Row(ds, d)], es[Row(ds, d)]);
    }
  }

  lemma DecideKeeps(b: Board, op: Op)
    requires Invariant(b)
    ensures Invariant(Moved(b, Decide(op)))
  {
    Decisions.ApplyKeeps(b.ledger, op);
    Decisions.ApplyAdvances(b.ledger, op);
    var v := Moved(b, Decide(op));
    forall k | 0 <= k < |v.records| ensures Grounded(v.ledger.decisions, v.records[k])
    {
      assert Grounded(b.ledger.decisions, b.records[k]);
      GroundedStays(b.ledger.decisions, v.ledger.decisions, b.records[k]);
    }
  }

  lemma ProposeKeeps(b: Board, source: Document, plan: Plan, allowed: bool)
    requires Invariant(b) && Publish(b, source, plan, allowed).Done?
    ensures Invariant(Publish(b, source, plan, allowed).state)
  {
    var v, r := Publish(b, source, plan, allowed).state, Publish(b, source, plan, allowed).value;
    if v != b {
      var n := |b.records|;
      assert v.records[..n] == b.records && v.records[n] == r;
      NewestIsLast(b.records, source);
      forall k | 0 <= k < |v.records| ensures Grounded(v.ledger.decisions, v.records[k])
      {
        if k < n {
          assert Grounded(b.ledger.decisions, b.records[k]);
        } else {
          assert forall d | d in plan.decisions :: Follows(b.ledger.decisions, source.spec, r.resolution.at, d);
        }
      }
    }
  }

  lemma StepKeeps(b: Board, m: Move)
    requires Invariant(b)
    ensures Invariant(Moved(b, m))
  {
    match m {
      case Decide(op) => DecideKeeps(b, op);
      case Propose(source, plan, allowed) => if Publish(b, source, plan, allowed).Done? { ProposeKeeps(b, source, plan, allowed); }
      case Surround(_) =>
        forall k | 0 <= k < |b.records| ensures Grounded(b.ledger.decisions, b.records[k]) {}
    }
  }

  /** Over any run of decisions, proposals and changes to the queue: a source's records are versions 1 to n, and every
      record stays grounded in the resolution it was written for. */
  lemma {:induction false} RunKeeps(b: Board, ms: seq<Move>)
    requires (Fresh(b.ledger) && b.records == []) || Invariant(b)
    ensures Invariant(MovedAll(b, ms))
  {
    if ms != [] {
      RunKeeps(b, ms[..|ms| - 1]);
      StepKeeps(MovedAll(b, ms[..|ms| - 1]), ms[|ms| - 1]);
    }
  }

  /** The versions of a source's records are exactly 1 to n. */
  lemma {:induction false} RecordVersionsExactly(records: seq<Record>, source: Document, v: nat)
    requires Versioned(records)
    ensures 1 <= v <= CountFor(records, source) <==> exists k | 0 <= k < |records| :: records[k].source == source && records[k].version == v
  {
    if records != [] {
      var n := |records| - 1;
      RecordVersionsExactly(records[..n], source, v);
      if 1 <= v <= CountFor(records[..n], source) {
        var k :| 0 <= k < n && records[..n][k].source == source && records[..n][k].version == v;
        assert records[k].source == source;
      }
      assert forall k | 0 <= k < n :: records[..n][k] == records[k];
    }
  }

  // ---------- the follow-up graph ----------

  predicate Edge(b: Board, from: Document, to: Document) {
    exists r | r in b.records :: r.source == from && to in r.plan.decisions
  }

  function CreatedAt(b: Board, doc: Document): real {
    var i := Row(b.ledger.decisions, doc);
    if i >= 0 then b.ledger.decisions[i].createdAt else 0.0
  }

  lemma EdgeRises(b: Board, from: Document, to: Document)
    requires Invariant(b) && Edge(b, from, to)
    ensures CreatedAt(b, from) < CreatedAt(b, to)
  {
    var r :| r in b.records && r.source == from && to in r.plan.decisions;
    var k :| 0 <= k < |b.records| && b.records[k] == r;
    var ds := b.ledger.decisions;
    assert Grounded(ds, b.records[k]) && Later(ds, r, to);
    assert InStep(ds[Row(ds, from)], b.ledger.commands, b.ledger.clock);
  }

  ghost predicate Path(b: Board, path: seq<Document>) {
    forall k {:trigger path[k]} | 0 < k < |path| :: Edge(b, path[k - 1], path[k])
  }

  /** No chain of follow-ups ever returns to a question it has passed: each is asked after the one before was resolved. */
  lemma {:induction false} NoCycles(b: Board, path: seq<Document>, i: nat, j: nat)
    requires Invariant(b) && Path(b, path) && i < j < |path|
    ensures CreatedAt(b, path[i]) < CreatedAt(b, path[j]) && path[i] != path[j]
    decreases j
  {
    var before := j - 1;
    assert Edge(b, path[before], path[j]);
    EdgeRises(b, path[before], path[j]);
    if i < before {
      NoCycles(b, path, i, before);
    }
  }

  // ---------- the projection ----------

  datatype FollowUp = NeedsProposal | NeedsRevision | WaitingExternal | ProposalPublished

  /** The record of the highest version as `project` finds it: a later one must be strictly higher. */
  function LatestRecord(records: seq<Record>, source: Document): Option<Record> {
    if records == [] then None
    else
      var r, n := records[|records| - 1], LatestRecord(records[..|records| - 1], source);
      if r.source == source && (n.None? || n.value.version < r.version) then Some(r) else n
  }

  predicate StaleDecision(ds: seq<Decision>, doc: Document) {
    var j := Row(ds, doc);
    j < 0 || ds[j].status == Superseded
  }

  predicate StalePacket(queue: map<Id, Packet>, p: PacketLink) {
    p.id !in queue || queue[p.id].seed != p.seed || queue[p.id].digest != p.digest
  }

  predicate Stale(ds: seq<Decision>, queue: map<Id, Packet>, d: Decision, r: Record) {
    || Some(r.resolution) != d.resolution
    || (exists doc | doc in r.plan.decisions :: StaleDecision(ds, doc))
    || (exists p | p in r.packets :: StalePacket(queue, p))
  }

  function Standing(b: Board, d: Decision): FollowUp {
    var r := LatestRecord(b.records, d.doc);
    if r.None? then NeedsProposal
    else if Stale(b.ledger.decisions, b.queue, d, r.value) then NeedsRevision
    else if r.value.plan.blocker.Some? then WaitingExternal
    else ProposalPublished
  }

  function Rows(b: Board, ds: seq<Decision>): seq<(Document, FollowUp)> {
    if ds == [] then []
    else
      var d := ds[|ds| - 1];
      Rows(b, ds[..|ds| - 1]) + if d.status == Blocked && d.resolution.Some? then [(d.doc, Standing(b, d))] else []
  }

  lemma {:induction false} LatestIsNewest(records: seq<Record>, source: Document)
    requires Versioned(records)
    ensures LatestRecord(records, source) == Newest(records, source)
  {
    if records != [] {
      LatestIsNewest(records[..|records| - 1], source);
      NewestIsLast(records[..|records| - 1], source);
    }
  }

  /** A question that the record links was superseded. */
  predicate Overtaken(ds: seq<Decision>, r: Record) {
    exists doc, j | doc in r.plan.decisions && 0 <= j < |ds| :: ds[j].doc == doc && ds[j].status == Superseded
  }

  /** A packet that the record links is gone, or is not the one it was. */
  predicate Replaced(queue: map<Id, Packet>, r: Record) {
    exists p | p in r.packets :: p.id in queue ==> queue[p.id].seed != p.seed || queue[p.id].digest != p.digest
  }

  /** On every reachable board a blocked decision needs a proposal exactly when it has no record, and a revision exactly
      when a question its latest record links was superseded or a packet it links is gone or has changed; it waits on
      something external exactly when that record links nothing at all, and otherwise its proposal stands. */
  lemma StandingExactly(b: Board, i: nat)
    requires Invariant(b) && i < |b.ledger.decisions| && b.ledger.decisions[i].status == Blocked
    ensures var d := b.ledger.decisions[i];
            var r := Newest(b.records, d.doc);
            && (Standing(b, d) == NeedsProposal <==> r.None?)
            && (Standing(b, d) == NeedsRevision <==> r.Some? && (Overtaken(b.ledger.decisions, r.value) || Replaced(b.queue, r.value)))
            && (Standing(b, d) == WaitingExternal <==> r.Some? && r.value.plan.decisions == [] && r.value.plan.packets == [])
            && (Standing(b, d) == ProposalPublished
                <==> r.Some? && (r.value.plan.decisions != [] || r.value.plan.packets != [])
                     && !Overtaken(b.ledger.decisions, r.value) && !Replaced(b.queue, r.value))
  {
    var d := b.ledger.decisions[i];
    LatestIsNewest(b.records, d.doc);
    NewestIsLast(b.records, d.doc);
    RowFinds(b.ledger.decisions, i);
    var n := Newest(b.records, d.doc);
    if n.Some? {
      var k :| 0 <= k < |b.records| && b.records[k] == n.value;
      assert Grounded(b.ledger.decisions, b.records[k]);
      forall doc | doc in n.value.plan.decisions
        ensures StaleDecision(b.ledger.decisions, doc)
                <==> exists j | 0 <= j < |b.ledger.decisions| :: b.ledger.decisions[j].doc == doc && b.ledger.decisions[j].status == Superseded
      {
        assert Later(b.ledger.decisions, n.value, doc);
        SupersededRow(b.ledger.decisions, doc);
      }
    }
  }

  lemma SupersededRow(ds: seq<Decision>, doc: Document)
    requires Numbered(ds) && Row(ds, doc) >= 0
    ensures ds[Row(ds, doc)].status == Superseded <==> exists j | 0 <= j < |ds| :: ds[j].doc == doc && ds[j].status == Superseded
  {
    forall j | 0 <= j < |ds| && ds[j].doc == doc ensures j == Row(ds, doc)
    {
      RowFinds(ds, j);
    }
  }

  /** A source of a record in a reachable board is still blocked with its resolution, whatever happened since. */
  lemma StillPublished(b: Board, r: Record)
    requires Invariant(b) && r in b.records && Newest(b.records, r.source) == Some(r) && Shaped(r.plan)
    ensures Publish(b, r.source, r.plan, true) == Done(b, r)
  {
    var k :| 0 <= k < |b.records| && b.records[k] == r;
    assert Grounded(b.ledger.decisions, b.records[k]);
  }

  lemma {:induction false} RecordsStay(b: Board, ms: seq<Move>)
    ensures b.records <= MovedAll(b, ms).records
  {
    if ms != [] {
      RecordsStay(b, ms[..|ms| - 1]);
    }
  }

  /** Proposing a plan again after any further run returns its record and changes nothing, as long as no later proposal for
      the same source came between. */
  lemma ProposalReplays(b: Board, source: Document, plan: Plan, ms: seq<Move>)
    requires Invariant(b) && Publish(b, source, plan, true).Done?
    requires var s := Publish(b, source, plan, true);
             CountFor(MovedAll(s.state, ms).records, source) == CountFor(s.state.records, source)
    ensures var s := Publish(b, source, plan, true);
            Publish(MovedAll(s.state, ms), source, plan, true) == Done(MovedAll(s.state, ms), s.value)
  {
    var s := Publish(b, source, plan, true);
    var v := MovedAll(s.state, ms);
    ProposeKeeps(b, source, plan, true);
    RunKeeps(s.state, ms);
    RecordsStay(s.state, ms);
    PublishedIsNewest(b, source, plan);
    NewestStays(s.state.records, v.records, source);
    NewestIsLast(v.records, source);
    StillPublished(v, s.value);
  }

  lemma PublishedIsNewest(b: Board, source: Document, plan: Plan)
    requires Versioned(b.records) && Publish(b, source, plan, true).Done?
    ensures var s := Publish(b, source, plan, true);
            Newest(s.state.records, source) == Some(s.value) && s.value.source == source && s.value.plan == plan
  {
    var s := Publish(b, source, plan, true);
    NewestIsLast(b.records, source);
    if s.state != b {
      assert s.state.records[..|b.records|] == b.records;
    }
  }

  lemma {:induction false} NewestStays(a: seq<Record>, b: seq<Record>, source: Document)
    requires a <= b && CountFor(a, source) == CountFor(b, source)
    ensures Newest(b, source) == Newest(a, source)
    decreases |b|
  {
    if a == b {
    } else {
      var front := b[..|b| - 1];
      assert a <= front;
      CountGrows(a, front, source);
      NewestStays(a, front, source);
    }
  }

  lemma {:induction false} CountGrows(a: seq<Record>, b: seq<Record>, source: Document)
    requires a <= b
    ensures CountFor(a, source) <= CountFor(b, source)
    decreases |b|
  {
    if a != b { CountGrows(a, b[..|b| - 1], source); }
  }

  /** The projection's loops: the latest record of each source, then a row for each blocked decision. */
  method Project(b: Board) returns (rows: seq<(Document, FollowUp)>)
    ensures rows == Rows(b, b.ledger.decisions)
  {
    var latest: map<Document, Record> := map[];
    for k := 0 to |b.records|
      invariant forall source :: (source in latest) == LatestRecord(b.records[..k], source).Some?
      invariant forall source | source in latest :: LatestRecord(b.records[..k], source) == Some(latest[source])
    {
      var r := b.records[k];
      assert b.records[..k + 1][..k] == b.records[..k];
      if r.source !in latest || r.version > latest[r.source].version {
        latest := latest[r.source := r];
      }
    }
    assert b.records[..|b.records|] == b.records;
    rows := [];
    for i := 0 to |b.ledger.decisions|
      invariant rows == Rows(b, b.ledger.decisions[..i])
    {
      var d := b.ledger.decisions[i];
      assert b.ledger.decisions[..i + 1][..i] == b.ledger.decisions[..i];
      if d.status == Blocked && d.resolution.Some? {
        var status := NeedsProposal;
        if d.doc in latest {
          var r := latest[d.doc];
          var stale := IsStale(b, d, r);
          status := if stale then NeedsRevision else if r.plan.blocker.Some? then WaitingExternal else ProposalPublished;
        }
        rows := rows + [(d.doc, status)];
      }
    }
    assert b.ledger.decisions[..|b.ledger.decisions|] == b.ledger.decisions;
  }

  method IsStale(b: Board, d: Decision, r: Record) returns (stale: bool)
    ensures stale == Stale(b.ledger.decisions, b.queue, d, r)
  {
    stale := Some(r.resolution) != d.resolution;
    for k := 0 to |r.plan.decisions|
      invariant stale == (Some(r.resolution) != d.resolution || exists m | 0 <= m < k :: StaleDecision(b.ledger.decisions, r.plan.decisions[m]))
    {
      stale := stale || StaleDecision(b.ledger.decisions, r.plan.decisions[k]);
    }
    ghost var linked := stale;
    for k := 0 to |r.packets|
      invariant stale == (linked || exists m | 0 <= m < k :: StalePacket(b.queue, r.packets[m]))
    {
      stale := stale || StalePacket(b.queue, r.packets[k]);
    }
  }
}
