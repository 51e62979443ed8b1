/** When each step of an archival is taken and what it leaves, in the fields of the rows, in every state a run can reach;
    and what the reader accepts, in the fields of the observations on the chain. */
module ArchiveLaws {
  import opened Sums
  import opened ArchiveHandoffs

  // ---------- what the reader accepts ----------

  /** An observation of this handoff and task, made after it was prepared and before it was recorded, on the right side of
      the send boundary, and found again under its own identifier. */
  predicate Belongs(doc: Doc, check: Option<Boundary>, receipts: map<Id, Observation>, o: Observation) {
    && o.worker == doc.worker && o.request.handoff == doc && o.request.host == doc.host && o.request.thread == doc.thread
    && doc.at <= o.request.observedAt && o.request.observedAt <= o.at
    && (o.request.outcome == Unsent <==> check.None?)
    && (check.Some? ==> check.value.at <= o.request.observedAt)
    && o.request.id in receipts && receipts[o.request.id] == o
  }

  /** What came before was still unknown, and not observed later. */
  predicate Follows(o: Observation) {
    match o.request.expected
    case None => true
    case Some(p) => p.request.outcome == Unknown && p.request.observedAt <= o.request.observedAt
  }

  lemma {:induction false} StoryExactly(doc: Doc, check: Option<Boundary>, receipts: map<Id, Observation>, cursor: Option<Observation>)
    ensures Story(doc, check, receipts, cursor) <==> forall o | OnChain(cursor, o) :: Belongs(doc, check, receipts, o) && Follows(o)
    decreases cursor
  {
    if cursor.Some? {
      var before := cursor.value.request.expected;
      StoryExactly(doc, check, receipts, before);
      assert Fits(doc, check, receipts, cursor.value) && Succeeds(cursor.value)
             <==> Belongs(doc, check, receipts, cursor.value) && Follows(cursor.value);
      assert OnChain(cursor, cursor.value);
      assert forall o | OnChain(before, o) :: OnChain(cursor, o);
      assert forall o | OnChain(cursor, o) :: o == cursor.value || OnChain(before, o);
    }
  }

  /** The status of the owner's command, by what was last observed. */
  predicate Tells(status: Status, latest: Option<Observation>) {
    && (status == Completed <==> latest.Some? && latest.value.request.outcome == Archived)
    && (status == Rejected <==> latest.Some? && latest.value.request.outcome == Unsent)
    && (status == Processing <==> latest.Some? ==> latest.value.request.outcome == Unknown)
  }

  /** The reader accepts a worker without any trace of an archival, and one whose slot, handoff, command, boundary and whole
      chain of at most sixteen observations fit each other. */
  lemma ValidExactly(a: Archive)
    ensures Valid(a)
            <==> if a.handoff.None? && a.slot.None? then !a.archived && a.check.None? && a.latest.None?
                 else
                   && a.handoff.Some? && a.slot == a.handoff && var doc := a.handoff.value;
                   && doc.worker == a.worker && doc.intent == a.intent && doc.review == a.review && doc.host == a.host && doc.thread == a.thread
                   && doc.command in a.commands && var c := a.commands[doc.command];
                   && c.createdAt == doc.createdAt && c.receivedAt == Some(doc.receivedAt) && Tells(c.status, a.latest)
                   && (a.check.Some? ==> a.check.value.handoff == doc && a.check.value.worker == a.worker && doc.at <= a.check.value.at)
                   && (forall o | OnChain(a.latest, o) :: Belongs(doc, a.check, a.receipts, o) && Follows(o))
                   && Depth(a.latest) <= 16
                   && (a.archived <==> c.status == Completed)
  {
    if a.handoff.Some? {
      WalkReads(a.handoff.value, a.check, a.receipts, a.latest, 0);
      StoryExactly(a.handoff.value, a.check, a.receipts, a.latest);
      StatusTells(a.latest);
    }
  }

  lemma StatusTells(latest: Option<Observation>)
    ensures forall status :: status == StatusFor(latest) <==> status != Queued && Tells(status, latest)
  {
  }

  /** In every state a run can reach, command, worker and last observation tell the same. */
  lemma CommandTells(a: Archive, ops: seq<Op>)
    requires Unprepared(a)
    ensures var v := ApplyAll(a, ops);
            v.handoff.Some? ==> v.handoff.value.command in v.commands
                                && Tells(v.commands[v.handoff.value.command].status, v.latest)
                                && (v.archived <==> v.latest.Some? && v.latest.value.request.outcome == Archived)
  {
    RunKeeps(a, ops);
    StatusTells(ApplyAll(a, ops).latest);
  }

  // ---------- the steps ----------

  predicate Waits(a: Archive, id: Id)
    requires id in a.commands
  {
    a.commands[id].status == Queued || a.commands[id].status == Processing
  }

  /** A request is taken while no handoff was ever prepared and no other request waits. */
  lemma SubmitExactly(a: Archive, id: Id)
    requires Invariant(a)
    ensures var t := Submit(a, id);
            && (t.Done? <==> id !in a.commands && a.handoff.None? && forall c | c in a.commands :: !Waits(a, c))
            && (t.Done? ==> t.state == a.(commands := a.commands[id := Command(Queued, a.clock, None)]))
  {
  }

  lemma ReceiveExactly(a: Archive, id: Id, authorized: bool)
    ensures var t := Receive(a, id, authorized);
            && (t.Done? <==> id in a.commands && a.commands[id].status == Queued)
            && (t.Done? ==>
                  t.state == a.(commands := a.commands[id := if authorized then a.commands[id].(receivedAt := Some(a.clock))
                                                             else a.commands[id].(status := Rejected)]))
  {
  }

  /** A handoff is prepared, once, for a received request that alone waits; slot and pointer then hold the same document. */
  lemma PrepareExactly(a: Archive, id: Id, safe: bool)
    requires Invariant(a)
    ensures var t := Prepare(a, id, safe);
            && (t.Done? <==>
                  && safe && a.handoff.None? && id in a.commands && a.commands[id].status == Queued && a.commands[id].receivedAt.Some?
                  && forall c | c in a.commands && c != id :: !Waits(a, c))
            && (t.Done? ==>
                  var c := a.commands[id];
                  var doc := Doc(a.worker, a.intent, a.review, a.host, a.thread, id, c.createdAt, c.receivedAt.value, a.clock);
                  && t.value == Held(doc)
                  && t.state == a.(slot := Some(doc), handoff := Some(doc), commands := a.commands[id := c.(status := Processing)],
                                   events := a.events + [HandoffPrepared(doc)]))
  {
    ReachableIsValid(a);
  }

  /** The permit to send is given, once, for the prepared handoff before anything was observed of it, while its request
      alone waits. */
  lemma CheckExactly(a: Archive, doc: Doc, safe: bool)
    requires Invariant(a)
    ensures var t := Check(a, doc, safe);
            && (t.Done? <==>
                  && safe && a.handoff == Some(doc) && a.check.None? && a.latest.None?
                  && forall c | c in a.commands && c != doc.command :: !Waits(a, c))
            && (t.Done? ==>
                  && t.value == Permitted(Boundary(a.worker, doc, a.clock))
                  && t.state == a.(check := Some(Boundary(a.worker, doc, a.clock)), events := a.events + [BoundaryConsumed(Boundary(a.worker, doc, a.clock))]))
  {
    ReachableIsValid(a);
  }

  /** A recorded observation becomes the latest, is found under its identifier, and decides worker and command. */
  lemma RecordLeaves(a: Archive, request: Request, recent: bool)
    requires Invariant(a) && request.id !in a.receipts && Record(a, request, recent).Done?
    ensures var b, o := Record(a, request, recent).state, Observation(a.worker, request, a.clock);
            var id := request.handoff.command;
            && Record(a, request, recent).value == Recorded(o)
            && b == a.(latest := Some(o), archived := b.archived, receipts := a.receipts[request.id := o], commands := b.commands,
                       events := a.events + [ArchiveObserved(o)])
            && (b.archived <==> request.outcome == Archived)
            && id in a.commands && id in b.commands && Tells(b.commands[id].status, Some(o))
            && b.commands == a.commands[id := a.commands[id].(status := b.commands[id].status)]
  {
    StatusTells(Some(Observation(a.worker, request, a.clock)));
  }
}
