/** Archiving a finished worker's native task: one handoff, at most one permission to send, and a chain of
    observations of what came of it. Every document is retained by its digest; digests are injective, so a
    document stands for its hash and a chain of documents cannot loop. */
module ArchiveHandoffs {
  import opened Sums

  type Id = string

  datatype Outcome = Unknown | Archived | Unsent
  datatype Doc = Doc(worker: Id, intent: Id, review: Id, host: Id, thread: Id, command: Id, createdAt: real, receivedAt: real, at: real)
  datatype Boundary = Boundary(worker: Id, handoff: Doc, at: real)
  datatype Request = Request(id: Id, handoff: Doc, expected: Option<Observation>, host: Id, thread: Id, outcome: Outcome,
                             observedAt: real, evidence: Id)
  datatype Observation = Observation(worker: Id, request: Request, at: real)

  datatype Status = Queued | Processing | Completed | Rejected
  datatype Command = Command(status: Status, createdAt: real, receivedAt: Option<real>)
  datatype Event = HandoffPrepared(doc: Doc) | BoundaryConsumed(check: Boundary) | ArchiveObserved(observation: Observation)

  /** One worker's rows: its archive fields, its retained slot and receipts, its archive commands, and the event log. */
  datatype Archive = Archive(worker: Id, host: Id, thread: Id, intent: Id, review: Id,
                             slot: Option<Doc>, handoff: Option<Doc>, check: Option<Boundary>, latest: Option<Observation>,
                             archived: bool, receipts: map<Id, Observation>, commands: map<Id, Command>,
                             events: seq<Event>, clock: real)

  datatype Answer = Requested | Held(doc: Doc) | Permitted(check: Boundary) | Recorded(observation: Observation)

  const LONGEST := 16

  // ---------- the projection that every reader checks ----------

  function StatusFor(latest: Option<Observation>): Status {
    if latest.None? then Processing
    else match latest.value.request.outcome
      case Archived => Completed
      case Unsent => Rejected
      case Unknown => Processing
  }

  predicate Names(doc: Doc, a: Archive) {
    doc.worker == a.worker && doc.intent == a.intent && doc.review == a.review && doc.host == a.host && doc.thread == a.thread
  }

  /** One retained observation fits its handoff, its send boundary and its receipt. */
  predicate Fits(doc: Doc, check: Option<Boundary>, receipts: map<Id, Observation>, o: Observation) {
    && o.worker == doc.worker && o.request.handoff == doc && o.request.host == doc.host && o.request.thread == doc.thread
    && doc.at <= o.request.observedAt <= o.at
    && (if check.None? then o.request.outcome == Unsent else o.request.outcome != Unsent && o.request.observedAt >= check.value.at)
    && o.request.id in receipts && receipts[o.request.id] == o
  }

  predicate Succeeds(o: Observation) {
    o.request.expected.Some? ==> o.request.expected.value.request.outcome == Unknown
                                 && o.request.expected.value.request.observedAt <= o.request.observedAt
  }

  /** The chain from the latest observation back to the first, however long. */
  predicate Story(doc: Doc, check: Option<Boundary>, receipts: map<Id, Observation>, cursor: Option<Observation>)
    decreases cursor
  {
    cursor.None? || (Fits(doc, check, receipts, cursor.value) && Succeeds(cursor.value)
                     && Story(doc, check, receipts, cursor.value.request.expected))
  }

  function Depth(cursor: Option<Observation>): nat
    decreases cursor
  {
    if cursor.None? then 0 else 1 + Depth(cursor.value.request.expected)
  }

  /** The walk of the chain as the code takes it: it gives up at the 17th document. */
  predicate Walk(doc: Doc, check: Option<Boundary>, receipts: map<Id, Observation>, cursor: Option<Observation>, count: nat)
    decreases cursor
  {
    if cursor.None? then true
    else
      && count + 1 <= LONGEST
      && Fits(doc, check, receipts, cursor.value) && Succeeds(cursor.value)
      && Walk(doc, check, receipts, cursor.value.request.expected, count + 1)
  }

  /** `validate_projection` accepts these rows. */
  predicate Valid(a: Archive) {
    if a.handoff.None? && a.slot.None? then !a.archived && a.check.None? && a.latest.None?
    else
      && a.handoff.Some? && a.slot == a.handoff
      && var doc := a.handoff.value;
      && Names(doc, a)
      && doc.command in a.commands
      && a.commands[doc.command].createdAt == doc.createdAt && a.commands[doc.command].receivedAt == Some(doc.receivedAt)
      && (a.check.Some? ==> a.check.value.handoff == doc && a.check.value.worker == a.worker && a.check.value.at >= doc.at)
      && Walk(doc, a.check, a.receipts, a.latest, 0)
      && a.archived == (a.latest.Some? && a.latest.value.request.outcome == Archived)
      && a.commands[doc.command].status == StatusFor(a.latest)
  }

  // ---------- the steps ----------

  predicate Outstanding(a: Archive, except: Option<Id>) {
    exists id | id in a.commands :: Some(id) != except && a.commands[id].status in {Queued, Processing}
  }

  function Submit(a: Archive, id: Id): Step<Archive, Answer> {
    if id in a.commands || a.archived || a.handoff.Some? || a.slot.Some? || Outstanding(a, None) then Refused
    else Done(a.(commands := a.commands[id := Command(Queued, a.clock, None)]), Requested)
  }

  /** The brain takes the request up, or the checks behind it fail and it is rejected. */
  function Receive(a: Archive, id: Id, authorized: bool): Step<Archive, Answer> {
    if id !in a.commands || a.commands[id].status != Queued then Refused
    else
      var c := a.commands[id];
      Done(a.(commands := a.commands[id := if authorized then c.(receivedAt := Some(a.clock)) else c.(status := Rejected)]), Requested)
  }

  function Prepare(a: Archive, id: Id, safe: bool): Step<Archive, Answer> {
    if !safe || !Valid(a) || a.handoff.Some? || id !in a.commands then Refused
    else
      var c := a.commands[id];
      if c.status != Queued || c.receivedAt.None? || a.archived || Outstanding(a, Some(id)) then Refused
      else
        var doc := Doc(a.worker, a.intent, a.review, a.host, a.thread, id, c.createdAt, c.receivedAt.value, a.clock);
        Done(a.(slot := Some(doc), handoff := Some(doc), commands := a.commands[id := c.(status := Processing)],
                events := a.events + [HandoffPrepared(doc)]), Held(doc))
  }

  function Check(a: Archive, doc: Doc, safe: bool): Step<Archive, Answer> {
    if !safe || !Valid(a) || a.handoff != Some(doc) || a.check.Some? || a.latest.Some? then Refused
    else if doc.command !in a.commands || a.commands[doc.command].status != Processing || a.commands[doc.command].receivedAt.None?
            || a.archived || Outstanding(a, Some(doc.command)) then Refused
    else
      var check := Boundary(a.worker, doc, a.clock);
      Done(a.(check := Some(check), events := a.events + [BoundaryConsumed(check)]), Permitted(check))
  }

  function Earliest(a: Archive, doc: Doc): real {
    var first := if a.check.Some? && a.check.value.at > doc.at then a.check.value.at else doc.at;
    if a.latest.Some? && a.latest.value.request.observedAt > first then a.latest.value.request.observedAt else first
  }

  function Observed(a: Archive, request: Request): Archive
    requires a.handoff.Some? && a.handoff.value.command in a.commands
  {
    var o := Observation(a.worker, request, a.clock);
    var id := a.handoff.value.command;
    a.(latest := Some(o), archived := request.outcome == Archived, receipts := a.receipts[request.id := o],
       commands := a.commands[id := a.commands[id].(status := StatusFor(Some(o)))],
       events := a.events + [ArchiveObserved(o)])
  }

  function Record(a: Archive, request: Request, recent: bool): Step<Archive, Answer> {
    if !Valid(a) || a.handoff != Some(request.handoff) || request.host != a.host || request.thread != a.thread then Refused
    else if request.id in a.receipts then
      var prior := a.receipts[request.id];
      if prior.worker == a.worker && prior.request == request then Done(a, Recorded(prior)) else Refused
    else if request.expected != a.latest || (a.latest.Some? && a.latest.value.request.outcome != Unknown) then Refused
    else if (a.check.None?) != (request.outcome == Unsent) then Refused
    else if !recent || request.observedAt > a.clock || request.observedAt < Earliest(a, request.handoff) then Refused
    else
      var b := Observed(a, request);
      if Valid(b) then Done(b, Recorded(b.latest.value)) else Refused
  }

  datatype Op =
    | OpTick(to: real)
    | OpSubmit(id: Id)
    | OpReceive(id: Id, authorized: bool)
    | OpPrepare(id: Id, safe: bool)
    | OpCheck(doc: Doc, safe: bool)
    | OpRecord(request: Request, recent: bool)

  function Try(a: Archive, op: Op): Step<Archive, Answer> {
    match op
    case OpTick(to) => if to >= a.clock then Done(a.(clock := to), Requested) else Refused
    case OpSubmit(id) => Submit(a, id)
    case OpReceive(id, authorized) => Receive(a, id, authorized)
    case OpPrepare(id, safe) => Prepare(a, id, safe)
    case OpCheck(doc, safe) => Check(a, doc, safe)
    case OpRecord(request, recent) => Record(a, request, recent)
  }

  function Apply(a: Archive, op: Op): Archive {
    var t := Try(a, op);
    if t.Done? then t.state else a
  }

  function ApplyAll(a: Archive, ops: seq<Op>): Archive {
    if ops == [] then a else Apply(ApplyAll(a, ops[..|ops| - 1]), ops[|ops| - 1])
  }

  // ---------- what every reachable state keeps, said without the reader ----------

  /** The log a chain leaves. */
  function Told(cursor: Option<Observation>): seq<Event>
    decreases cursor
  {
    if cursor.None? then [] else Told(cursor.value.request.expected) + [ArchiveObserved(cursor.value)]
  }

  predicate OnChain(cursor: Option<Observation>, o: Observation)
    decreases cursor
  {
    cursor.Some? && (cursor.value == o || OnChain(cursor.value.request.expected, o))
  }

  predicate Unprepared(a: Archive) {
    a.slot.None? && a.handoff.None? && a.check.None? && a.latest.None? && !a.archived && a.receipts == map[] && a.events == []
  }

  predicate Underway(a: Archive) {
    && a.handoff.Some? && a.slot == a.handoff
    && var doc := a.handoff.value;
    && Names(doc, a) && doc.at <= a.clock
    && doc.command in a.commands
    && a.commands[doc.command] == Command(StatusFor(a.latest), doc.createdAt, Some(doc.receivedAt))
    && (a.check.Some? ==> a.check.value.handoff == doc && a.check.value.worker == a.worker && doc.at <= a.check.value.at <= a.clock)
    && a.archived == (a.latest.Some? && a.latest.value.request.outcome == Archived)
    && a.events == [HandoffPrepared(doc)] + (if a.check.Some? then [BoundaryConsumed(a.check.value)] else []) + Told(a.latest)
  }

  ghost predicate Receipted(a: Archive) {
    forall id | id in a.receipts :: a.receipts[id].request.id == id && OnChain(a.latest, a.receipts[id])
  }

  ghost predicate Invariant(a: Archive) {
    || Unprepared(a)
    || (Underway(a) && Story(a.handoff.value, a.check, a.receipts, a.latest) && Depth(a.latest) <= LONGEST && Receipted(a))
  }

  // ---------- the walk, and the story it reads ----------

  lemma {:induction false} WalkReads(doc: Doc, check: Option<Boundary>, receipts: map<Id, Observation>, cursor: Option<Observation>, count: nat)
    requires count <= LONGEST
    ensures Walk(doc, check, receipts, cursor, count) <==> Story(doc, check, receipts, cursor) && count + Depth(cursor) <= LONGEST
    decreases cursor
  {
    if cursor.Some? && count + 1 <= LONGEST {
      WalkReads(doc, check, receipts, cursor.value.request.expected, count + 1);
    }
  }

  /** A later receipt under a new identifier does not disturb the chain. */
  lemma {:induction false} StoryGrows(doc: Doc, check: Option<Boundary>, receipts: map<Id, Observation>, cursor: Option<Observation>, id: Id, o: Observation)
    requires Story(doc, check, receipts, cursor) && id !in receipts
    ensures Story(doc, check, receipts[id := o], cursor)
    decreases cursor
  {
    if cursor.Some? {
      StoryGrows(doc, check, receipts, cursor.value.request.expected, id, o);
    }
  }

  /** The reader accepts every reachable state: its 16-document walk and its comparison of the rows. */
  lemma ReachableIsValid(a: Archive)
    requires Invariant(a)
    ensures Valid(a)
  {
    if Underway(a) {
      WalkReads(a.handoff.value, a.check, a.receipts, a.latest, 0);
    }
  }

  // ---------- each step keeps it ----------

  lemma RecordKeeps(a: Archive, request: Request, recent: bool)
    requires Invariant(a) && Record(a, request, recent).Done?
    ensures Invariant(Record(a, request, recent).state)
  {
    if request.id !in a.receipts {
      var b := Observed(a, request);
      var doc := a.handoff.value;
      StoryGrows(doc, a.check, a.receipts, a.latest, request.id, b.latest.value);
      WalkReads(doc, b.check, b.receipts, b.latest, 0);
      ReceiptsGrow(a, request);
      assert b.events == [HandoffPrepared(doc)] + (if a.check.Some? then [BoundaryConsumed(a.check.value)] else []) + Told(b.latest);
    }
  }

  lemma ReceiptsGrow(a: Archive, request: Request)
    requires Underway(a) && Receipted(a) && request.id !in a.receipts && request.expected == a.latest
    ensures Receipted(Observed(a, request))
  {
    var b := Observed(a, request);
    forall id | id in b.receipts ensures b.receipts[id].request.id == id && OnChain(b.latest, b.receipts[id])
    {
      if id != request.id {
        assert OnChain(a.latest, b.receipts[id]);
      }
    }
  }

  lemma CheckKeeps(a: Archive, doc: Doc, safe: bool)
    requires Invariant(a) && Check(a, doc, safe).Done?
    ensures Invariant(Check(a, doc, safe).state)
  {
    var b := Check(a, doc, safe).state;
    assert forall id | id in a.receipts :: OnChain(a.latest, a.receipts[id]);
    assert b.events == [HandoffPrepared(doc)] + [BoundaryConsumed(b.check.value)] + Told(b.latest);
  }

  lemma ApplyKeeps(a: Archive, op: Op)
    requires Invariant(a)
    ensures Invariant(Apply(a, op))
  {
    if Try(a, op).Done? {
      match op {
        case OpRecord(request, recent) => RecordKeeps(a, request, recent);
        case OpCheck(doc, safe) => CheckKeeps(a, doc, safe);
        case _ =>
      }
    }
  }

  lemma {:induction false} RunKeeps(a: Archive, ops: seq<Op>)
    requires Unprepared(a)
    ensures Invariant(ApplyAll(a, ops)) && Valid(ApplyAll(a, ops))
  {
    if ops != [] {
      RunKeeps(a, ops[..|ops| - 1]);
      ApplyKeeps(ApplyAll(a, ops[..|ops| - 1]), ops[|ops| - 1]);
    }
    ReachableIsValid(ApplyAll(a, ops));
  }

  /** In a reachable state an observation under a new identifier is recorded exactly when it names this handoff and task,
      continues an unsettled latest one, tells sent from unsent rightly, is not backdated, and is at most the 16th. */
  lemma RecordsExactly(a: Archive, request: Request, recent: bool)
    requires Invariant(a) && request.id !in a.receipts
    ensures Record(a, request, recent).Done?
            <==> a.handoff == Some(request.handoff) && request.host == a.host && request.thread == a.thread
                 && request.expected == a.latest && (a.latest.Some? ==> a.latest.value.request.outcome == Unknown)
                 && (request.outcome == Unsent <==> a.check.None?)
                 && recent && request.handoff.at <= request.observedAt <= a.clock
                 && (a.check.Some? ==> a.check.value.at <= request.observedAt)
                 && (a.latest.Some? ==> a.latest.value.request.observedAt <= request.observedAt)
                 && Depth(a.latest) < LONGEST
  {
    ReachableIsValid(a);
    if a.handoff.Some? {
      var b := Observed(a, request);
      var doc := a.handoff.value;
      StoryGrows(doc, a.check, a.receipts, a.latest, request.id, b.latest.value);
      WalkReads(doc, b.check, b.receipts, b.latest, 0);
    }
  }

  // ---------- safety over whole runs ----------

  predicate Terminal(a: Archive) {
    a.latest.Some? && a.latest.value.request.outcome != Unknown
  }

  /** What a later state may not undo. */
  predicate Extends(a: Archive, b: Archive) {
    && a.events <= b.events
    && (a.handoff.Some? ==> b.handoff == a.handoff && b.slot == a.slot)
    && (a.check.Some? ==> b.check == a.check)
    && (a.latest.Some? ==> OnChain(b.latest, a.latest.value))
    && (Terminal(a) ==> b.latest == a.latest && b.check == a.check && b.archived == a.archived && b.receipts == a.receipts
                        && a.handoff.Some? && a.handoff.value.command in a.commands && a.handoff.value.command in b.commands
                        && b.commands[a.handoff.value.command] == a.commands[a.handoff.value.command])
  }

  lemma ApplyExtends(a: Archive, op: Op)
    requires Invariant(a)
    ensures Extends(a, Apply(a, op))
  {
    if a.latest.Some? { assert OnChain(a.latest, a.latest.value); }
  }

  lemma {:induction false} OnChainTrans(cursor: Option<Observation>, p: Observation, o: Observation)
    requires OnChain(cursor, p) && OnChain(Some(p), o)
    ensures OnChain(cursor, o)
    decreases cursor
  {
    if cursor.value != p {
      OnChainTrans(cursor.value.request.expected, p, o);
    }
  }

  lemma ExtendsTrans(a: Archive, b: Archive, c: Archive)
    requires Extends(a, b) && Extends(b, c)
    ensures Extends(a, c)
  {
    if a.latest.Some? {
      OnChainTrans(c.latest, b.latest.value, a.latest.value);
    }
  }

  /** The handoff, the send boundary and every observation stay; a settled outcome is never replaced. */
  lemma {:induction false} RunExtends(a: Archive, ops: seq<Op>)
    requires Invariant(a)
    ensures Invariant(ApplyAll(a, ops)) && Extends(a, ApplyAll(a, ops))
  {
    if ops == [] {
      if a.latest.Some? { assert OnChain(a.latest, a.latest.value); }
    } else {
      RunExtends(a, ops[..|ops| - 1]);
      var b := ApplyAll(a, ops[..|ops| - 1]);
      ApplyKeeps(b, ops[|ops| - 1]);
      ApplyExtends(b, ops[|ops| - 1]);
      ExtendsTrans(a, b, ApplyAll(a, ops));
    }
  }

  predicate IsPermit(t: Step<Archive, Answer>) {
    t.Done? && t.value.Permitted?
  }

  predicate IsHandoff(t: Step<Archive, Answer>) {
    t.Done? && t.value.Held?
  }

  /** Over any run at most one step prepares a handoff and at most one answers with a permit to send. */
  lemma OneHandoffOnePermit(a: Archive, op: Op, ops: seq<Op>, again: Op)
    requires Invariant(a)
    ensures IsHandoff(Try(a, op)) ==> !IsHandoff(Try(ApplyAll(Apply(a, op), ops), again))
    ensures IsPermit(Try(a, op)) ==> !IsPermit(Try(ApplyAll(Apply(a, op), ops), again))
  {
    ApplyKeeps(a, op);
    RunExtends(Apply(a, op), ops);
  }

  /** An outcome is settled as unsent only with no permit before or after it, and as archived only after one. */
  lemma SettledSides(a: Archive, ops: seq<Op>)
    requires Invariant(a) && Terminal(a)
    ensures a.latest.value.request.outcome == Unsent
            ==> ApplyAll(a, ops).check.None? && forall e | e in ApplyAll(a, ops).events :: !e.BoundaryConsumed?
    ensures a.latest.value.request.outcome == Archived
            ==> a.check.Some? && a.latest.value.request.observedAt >= a.check.value.at
                && BoundaryConsumed(a.check.value) in a.events
    ensures ApplyAll(a, ops).latest == a.latest && ApplyAll(a, ops).archived == a.archived
  {
    RunExtends(a, ops);
    var b := ApplyAll(a, ops);
    ToldObserves(b.latest);
    if a.check.Some? {
      assert a.events[1] == BoundaryConsumed(a.check.value);
    }
  }

  lemma {:induction false} ToldObserves(cursor: Option<Observation>)
    ensures forall e | e in Told(cursor) :: e.ArchiveObserved?
    ensures |Told(cursor)| == Depth(cursor)
    decreases cursor
  {
    if cursor.Some? {
      ToldObserves(cursor.value.request.expected);
    }
  }

  /** Along the chain observation times never go back, and every observation but the latest is unsettled. */
  lemma {:induction false} NeverBackdated(doc: Doc, check: Option<Boundary>, receipts: map<Id, Observation>, cursor: Option<Observation>, o: Observation)
    requires Story(doc, check, receipts, cursor) && OnChain(cursor, o)
    ensures doc.at <= o.request.observedAt <= cursor.value.request.observedAt
    ensures o != cursor.value ==> o.request.outcome == Unknown
    decreases cursor
  {
    if o != cursor.value {
      NeverBackdated(doc, check, receipts, cursor.value.request.expected, o);
    }
  }

  /** Sending an observation again, at any later time, returns the first receipt and changes nothing; the same
      identifier with other content is refused. */
  lemma RecordReplays(a: Archive, request: Request, recent: bool, ops: seq<Op>, again: Request, recentAgain: bool)
    requires Invariant(a) && Record(a, request, recent).Done? && again.id == request.id
    ensures var b := ApplyAll(Record(a, request, recent).state, ops);
            Record(b, again, recentAgain) == if again == request then Done(b, Record(a, request, recent).value) else Refused
  {
    var s := Record(a, request, recent).state;
    var o := Record(a, request, recent).value.observation;
    RecordKeeps(a, request, recent);
    RunExtends(s, ops);
    var b := ApplyAll(s, ops);
    ReachableIsValid(b);
    ReceiptStays(s, ops, request.id);
    assert o.worker == a.worker && o.request == request;
    IdentityStays(s, ops);
  }

  lemma {:induction false} IdentityStays(a: Archive, ops: seq<Op>)
    ensures ApplyAll(a, ops).worker == a.worker && ApplyAll(a, ops).host == a.host && ApplyAll(a, ops).thread == a.thread
  {
    if ops != [] {
      IdentityStays(a, ops[..|ops| - 1]);
    }
  }

  lemma {:induction false} ReceiptStays(a: Archive, ops: seq<Op>, id: Id)
    requires id in a.receipts
    ensures id in ApplyAll(a, ops).receipts && ApplyAll(a, ops).receipts[id] == a.receipts[id]
  {
    if ops != [] {
      ReceiptStays(a, ops[..|ops| - 1], id);
    }
  }

  // ---------- the reader's loop and the rows it reads ----------

  method ValidateProjection(a: Archive) returns (ok: bool)
    ensures ok <==> Valid(a)
  {
    if a.handoff.None? && a.slot.None? {
      return !a.archived && a.check.None? && a.latest.None?;
    }
    if a.handoff.None? || a.slot != a.handoff { return false; }
    var doc := a.handoff.value;
    if !Names(doc, a) || doc.command !in a.commands { return false; }
    var command := a.commands[doc.command];
    if command.createdAt != doc.createdAt || command.receivedAt != Some(doc.receivedAt) { return false; }
    if a.check.Some? && (a.check.value.handoff != doc || a.check.value.worker != a.worker || a.check.value.at < doc.at) { return false; }
    var cursor, count := a.latest, 0;
    while cursor.Some?
      invariant count <= LONGEST
      invariant Walk(doc, a.check, a.receipts, a.latest, 0) <==> Walk(doc, a.check, a.receipts, cursor, count)
      decreases cursor
    {
      count := count + 1;
      if count > LONGEST { return false; }
      var o := cursor.value;
      if o.worker != a.worker || o.request.handoff != doc || o.request.host != a.host || o.request.thread != a.thread { return false; }
      if o.request.observedAt < doc.at || o.at < o.request.observedAt { return false; }
      if a.check.None? && o.request.outcome != Unsent { return false; }
      if a.check.Some? && (o.request.outcome == Unsent || o.request.observedAt < a.check.value.at) { return false; }
      if o.request.id !in a.receipts || a.receipts[o.request.id] != o { return false; }
      var prev := o.request.expected;
      if prev.Some? && (prev.value.request.outcome != Unknown || prev.value.request.observedAt > o.request.observedAt) { return false; }
      cursor := prev;
    }
    var archived := a.latest.Some? && a.latest.value.request.outcome == Archived;
    ok := a.archived == archived && command.status == StatusFor(a.latest);
  }

  class Rows {
    var archive: Archive

    constructor (archive: Archive)
      ensures this.archive == archive
    {
      this.archive := archive;
    }

    method PrepareHandoff(id: Id, safe: bool) returns (answer: Option<Answer>)
      modifies this
      ensures var t := Prepare(old(archive), id, safe);
              archive == (if t.Done? then t.state else old(archive)) && answer == if t.Done? then Some(t.value) else None
    {
      var valid := ValidateProjection(archive);
      if !safe || !valid || archive.handoff.Some? || id !in archive.commands { return None; }
      var c := archive.commands[id];
      if c.status != Queued || c.receivedAt.None? || archive.archived || Outstanding(archive, Some(id)) { return None; }
      var doc := Doc(archive.worker, archive.intent, archive.review, archive.host, archive.thread, id, c.createdAt, c.receivedAt.value, archive.clock);
      archive := archive.(slot := Some(doc));
      archive := archive.(handoff := Some(doc));
      archive := archive.(commands := archive.commands[id := c.(status := Processing)]);
      archive := archive.(events := archive.events + [HandoffPrepared(doc)]);
      answer := Some(Held(doc));
    }

    method CheckSend(doc: Doc, safe: bool) returns (answer: Option<Answer>)
      modifies this
      ensures var t := Check(old(archive), doc, safe);
              archive == (if t.Done? then t.state else old(archive)) && answer == if t.Done? then Some(t.value) else None
    {
      var valid := ValidateProjection(archive);
      if !safe || !valid || archive.handoff != Some(doc) || archive.check.Some? || archive.latest.Some? { return None; }
      var c := archive.commands[doc.command];
      if c.status != Processing || c.receivedAt.None? || archive.archived || Outstanding(archive, Some(doc.command)) { return None; }
      var check := Boundary(archive.worker, doc, archive.clock);
      archive := archive.(check := Some(check));
      archive := archive.(events := archive.events + [BoundaryConsumed(check)]);
      answer := Some(Permitted(check));
    }

    /** The rows are written first and checked last; a failed check rolls them back. */
    method RecordObservation(request: Request, recent: bool) returns (answer: Option<Answer>)
      modifies this
      ensures var t := Record(old(archive), request, recent);
              archive == (if t.Done? then t.state else old(archive)) && answer == if t.Done? then Some(t.value) else None
    {
      var before := archive;
      var valid := ValidateProjection(archive);
      if !valid || archive.handoff != Some(request.handoff) { return None; }
      if request.host != archive.host || request.thread != archive.thread { return None; }
      if request.id in archive.receipts {
        var prior := archive.receipts[request.id];
        return if prior.worker == archive.worker && prior.request == request then Some(Recorded(prior)) else None;
      }
      if request.expected != archive.latest { return None; }
      if archive.latest.Some? && archive.latest.value.request.outcome != Unknown { return None; }
      if archive.check.None? && request.outcome != Unsent { return None; }
      if archive.check.Some? && request.outcome == Unsent { return None; }
      var lower := request.handoff.at;
      if archive.check.Some? && archive.check.value.at > lower { lower := archive.check.value.at; }
      if archive.latest.Some? && archive.latest.value.request.observedAt > lower { lower := archive.latest.value.request.observedAt; }
      if !recent || request.observedAt > archive.clock || request.observedAt < lower { return None; }
      var o := Observation(archive.worker, request, archive.clock);
      archive := archive.(receipts := archive.receipts[request.id := o]);
      archive := archive.(latest := Some(o), archived := request.outcome == Archived);
      var id := request.handoff.command;
      var status := if archive.archived then Completed else if request.outcome == Unsent then Rejected else Processing;
      archive := archive.(commands := archive.commands[id := archive.commands[id].(status := status)]);
      archive := archive.(events := archive.events + [ArchiveObserved(o)]);
      assert archive == Observed(before, request);
      valid := ValidateProjection(archive);
      if !valid {
        archive := before;
        return None;
      }
      answer := Some(Recorded(o));
    }
  }
}
