/** When each step of a brain handoff is taken and what it leaves, in the fields of both databases, in every state a run
    of workspaces and handoffs can reach. */
module HandoffLaws {
  import opened Sums
  import opened BrainHandoffs
  import BrainRuns

  /** Both databases hold the workspace and name the same brain. */
  predicate InOrder(w: World, ws: Id) {
    ws in w.rows && ws in w.ledgers && w.ledgers[ws].brainId == w.rows[ws].brain
  }

  /** The catalog, the binding and the row of the workspace agree on this project. */
  predicate BoundTo(w: World, ws: Id, p: Project) {
    && w.catalog.Some? && w.catalog.value.hash == p.catalog
    && p.key in w.catalog.value.projects && w.catalog.value.projects[p.key] == Entry(p.projectId, p.hostId, p.location)
    && ws in w.rows && ws in w.bindings && w.bindings[ws] == Binding(p.key, w.rows[ws].brain, p.location)
  }

  lemma InOrderReads(w: World, ws: Id)
    requires Invariant(w)
    ensures Reachable(w, ws) <==> InOrder(w, ws)
    ensures InOrder(w, ws) ==> w.ledgers[ws].run.brainId == w.ledgers[ws].brainId && BrainRuns.Contiguous(w.ledgers[ws].run)
                               && (w.ledgers[ws].handoff.Some? ==> SoundHandoff(w.ledgers[ws].handoff.value, w.ledgers[ws].brainId))
  {
    if ws in w.rows { assert SoundWorkspace(w, ws); }
  }

  lemma BoundReads(w: World, ws: Id, p: Project)
    ensures ProjectOf(w, ws) == Some(p) <==> BoundTo(w, ws, p)
  {
  }

  /** A handoff is under way from its preparation until it is complete, or was cancelled elsewhere. */
  lemma PendingExactly(h: Handoff)
    ensures !Pending(None)
    ensures Pending(Some(h)) <==> h.phase == Prepared || h.phase == Nominated || h.phase == Received
  {
  }

  /** The owner's preview starts a handoff if and only if it still describes brain, run, revision and project, and no other
      handoff is under way. */
  lemma ConfirmExactly(w: World, ws: Id, doc: Preview, safe: bool)
    requires Invariant(w)
    ensures var t := OnLedger(w, ws, Confirm(doc), safe);
            && (t.Some? <==>
                  && safe && InOrder(w, ws) && BoundTo(w, ws, doc.project) && var l := w.ledgers[ws];
                  && l.brainId == doc.oldBrain && l.run.id == doc.runId && l.run.revision == doc.runRevision
                  && (l.handoff.Some? ==> l.handoff.value.phase == Complete))
            && (t.Some? ==>
                  t.value == w.(ledgers := w.ledgers[ws := w.ledgers[ws].(handoff := Some(
                    Handoff(doc.id, Prepared, doc.oldBrain, doc.packageHash, doc.project, doc.runId, w.clock, None, None, None)))]))
  {
    InOrderReads(w, ws);
    BoundReads(w, ws, doc.project);
  }

  /** A replacement task is nominated if and only if the handoff is prepared and the task is another one of its project and
      host; the same nomination again answers the same. */
  lemma NominateExactly(w: World, ws: Id, id: Id, value: Candidate, safe: bool)
    requires Invariant(w)
    ensures var t := OnLedger(w, ws, Nominate(id, value), safe);
            && (t.Some? <==>
                  && safe && InOrder(w, ws) && w.ledgers[ws].handoff.Some? && var h := w.ledgers[ws].handoff.value;
                  && h.id == id && value.taskId != w.ledgers[ws].brainId && value.projectId == h.project.projectId && value.hostId == h.project.hostId
                  && (h.phase == Prepared || (h.phase == Nominated && h.candidate == Some(value))))
            && (t.Some? ==>
                  var l := w.ledgers[ws];
                  t.value == w.(ledgers := w.ledgers[ws := l.(handoff := Some(l.handoff.value.(candidate := Some(value), phase := Nominated)))]))
  {
    InOrderReads(w, ws);
  }

  /** Its reply is recorded if and only if it comes from the nominated task, repeats the package, and was seen natively; the
      same reply again answers the same, seen or not. */
  lemma AcknowledgeExactly(w: World, ws: Id, id: Id, reply: Receipt, observed: bool, safe: bool)
    requires Invariant(w)
    ensures var t := OnLedger(w, ws, Acknowledge(id, reply, observed), safe);
            && (t.Some? <==>
                  && safe && InOrder(w, ws) && w.ledgers[ws].handoff.Some? && var h := w.ledgers[ws].handoff.value;
                  && h.id == id && h.candidate.Some? && h.candidate.value.taskId == reply.taskId && h.packageHash == reply.packageHash
                  && ((h.phase == Nominated && h.receipt.None? && observed) || (h.phase == Received && h.receipt == Some(reply))))
            && (t.Some? ==>
                  var l := w.ledgers[ws];
                  t.value == w.(ledgers := w.ledgers[ws := l.(handoff := Some(l.handoff.value.(receipt := Some(reply), phase := Received)))]))
  {
    InOrderReads(w, ws);
  }

  /** The owner's review finishes the handoff if and only if it describes the received handoff, run and revision as they
      are, names its candidate, the project is still bound, and no workspace has that brain. */
  lemma FinalizeExactly(w: World, ws: Id, doc: Review, safe: bool, dies: bool)
    requires Invariant(w)
    ensures Finalize(w, ws, doc, safe, dies).Some?
            <==> && safe && InOrder(w, ws) && var l := w.ledgers[ws];
                 && l.handoff == Some(doc.handoff) && doc.handoff.phase == Received && doc.handoff.candidate.Some?
                 && doc.handoff.candidate.value.taskId == doc.newBrain
                 && l.brainId == doc.oldBrain && l.run.id == doc.runId && l.run.revision == doc.runRevision
                 && BoundTo(w, ws, doc.handoff.project)
                 && forall x | x in w.rows :: w.rows[x].brain != doc.newBrain
  {
    InOrderReads(w, ws);
    BoundReads(w, ws, doc.handoff.project);
  }

  /** What it leaves: the ledger names the new brain, its run has the old segment closed and the new one open at the same
      moment and needs a new measurement, the handoff is complete; and, unless the process died between, the row and the
      binding name the new brain too and the row remembers the old one. */
  lemma FinalizeLeaves(w: World, ws: Id, doc: Review, dies: bool)
    requires Invariant(w) && Finalize(w, ws, doc, true, dies).Some?
    ensures var v, l := Finalize(w, ws, doc, true, dies).value, w.ledgers[ws];
            var s, run := BrainRuns.Opened(l.run), v.ledgers[ws].run;
            && v.ledgers == w.ledgers[ws := Ledger(doc.newBrain, run, Some(doc.handoff.(phase := Complete, completedAt := Some(w.clock))))]
            && run == l.run.(segments := run.segments, brainId := doc.newBrain, report := None, revision := l.run.revision + 1)
            && s != [] && run.segments == Some(s[..|s| - 1] + [s[|s| - 1].(end := Some(w.clock)), BrainRuns.Segment(doc.newBrain, w.clock, None)])
            && v.rows == (if dies then w.rows
                          else w.rows[ws := Row(doc.newBrain, doc.newBrain, w.rows[ws].history + [Former(doc.oldBrain, w.clock, doc.handoff.id)])])
            && ws in w.bindings
            && v.bindings == (if dies then w.bindings else w.bindings[ws := w.bindings[ws].(brain := doc.newBrain)])
            && v.catalog == w.catalog && v.clock == w.clock
  {
    FinalizeExactly(w, ws, doc, true, dies);
    InOrderReads(w, ws);
    var l := w.ledgers[ws];
    var s := BrainRuns.Opened(l.run);
    assert s[..|s| - 1] + [s[|s| - 1].(end := Some(w.clock))] + [BrainRuns.Segment(doc.newBrain, w.clock, None)]
           == s[..|s| - 1] + [s[|s| - 1].(end := Some(w.clock)), BrainRuns.Segment(doc.newBrain, w.clock, None)];
  }

  /** Recovery is answered if and only if the ledger's last handoff is this one, complete and to its present brain, the
      project is bound as it was, and either the registry already agrees or nobody has the brain. */
  lemma RecoverExactly(w: World, ws: Id, id: Id, safe: bool)
    requires Invariant(w)
    ensures var t := Recover(w, ws, id, safe);
            && (t.Some? <==>
                  && safe && ws in w.rows && w.ledgers[ws].handoff.Some? && var l, h := w.ledgers[ws], w.ledgers[ws].handoff.value;
                  && h.id == id && h.phase == Complete && h.candidate.Some? && h.candidate.value.taskId == l.brainId
                  && ws in w.bindings && w.bindings[ws].key == h.project.key && w.bindings[ws].location == h.project.location
                  && (w.rows[ws].brain == l.brainId || forall x | x in w.rows :: w.rows[x].brain != l.brainId))
            && (t.Some? ==>
                  && w.ledgers[ws].handoff.value.completedAt.Some? && var l, h := w.ledgers[ws], w.ledgers[ws].handoff.value;
                  t.value == if w.rows[ws].brain == l.brainId then w
                             else w.(rows := w.rows[ws := Row(l.brainId, l.brainId, w.rows[ws].history + [Former(h.oldBrain, h.completedAt.value, id)])],
                                     bindings := w.bindings[ws := w.bindings[ws].(brain := l.brainId)]))
  {
    if ws in w.rows { assert SoundWorkspace(w, ws); }
  }

  /** A workspace is registered once, open, with a run that was never handed over, under a brain nobody has. */
  lemma RegisterExactly(w: World, ws: Id, run: BrainRuns.Run, open: bool)
    requires Invariant(w)
    ensures var t := Register(w, ws, run, open);
            && (t.Some? <==>
                  && open && ws !in w.rows && run.segments.None? && run.startedAt <= w.clock
                  && forall x | x in w.rows :: w.rows[x].brain != run.brainId)
            && (t.Some? ==> t.value == w.(ledgers := w.ledgers[ws := Ledger(run.brainId, run, None)],
                                          rows := w.rows[ws := Row(run.brainId, run.brainId, [])]))
  {
  }

  /** A workspace is bound, once, to a catalogued project nobody else is bound to, under the brain of its row. */
  lemma BindExactly(w: World, ws: Id, key: Id)
    requires Invariant(w)
    ensures var t := Bind(w, ws, key);
            && (t.Some? <==>
                  && w.catalog.Some? && key in w.catalog.value.projects && ws in w.rows
                  && if ws in w.bindings then w.bindings[ws] == Binding(key, w.rows[ws].brain, w.catalog.value.projects[key].location)
                     else forall x | x in w.bindings :: w.bindings[x].key != key)
            && (t.Some? ==>
                  t.value == w.(bindings := w.bindings[ws := Binding(key, w.rows[ws].brain, w.catalog.value.projects[key].location)]))
  {
    if ws in w.rows { assert SoundWorkspace(w, ws); }
  }

  /** A measurement reaches the ledger of a workspace in order, if and only if the run is as captured and every worker it
      measured belongs to a task; it does to the run what measuring does, and nothing else. */
  lemma MeasureExactly(w: World, ws: Id, captured: BrainRuns.Run, report: BrainRuns.Report, safe: bool)
    requires Invariant(w)
    ensures var t := OnLedger(w, ws, Measure(captured, report), safe);
            && (t.Some? <==>
                  && safe && InOrder(w, ws) && w.ledgers[ws].run == captured
                  && forall r | r in report.records && r.role == BrainRuns.WorkerSession ::
                       exists i | 0 <= i < |captured.tasks| :: captured.tasks[i].threadId == Some(r.session))
            && (t.Some? ==>
                  t.value == w.(ledgers := w.ledgers[ws := w.ledgers[ws].(run := BrainRuns.Apply(captured, BrainRuns.Measure(captured, report, None)))]))
  {
    InOrderReads(w, ws);
    if ws in w.ledgers { BrainRuns.SavesExactly(w.ledgers[ws].run, BrainRuns.Measure(captured, report, None)); }
  }

  /** On rows that something else wrote: a run that names another brain than its ledger takes no step of a handoff; a
      recovery also refuses an unfinished handoff, and a row, its document and a binding that do not name one brain. */
  lemma InconsistentRefuses(w: World, ws: Id, id: Id, step: LedgerStep, review: Review, safe: bool, dies: bool)
    requires ws in w.ledgers && ws in w.rows
    ensures w.ledgers[ws].run.brainId != w.ledgers[ws].brainId ==>
              && Finalize(w, ws, review, safe, dies).None? && Recover(w, ws, id, safe).None?
              && (!step.Measure? ==> OnLedger(w, ws, step, safe).None?)
    ensures w.ledgers[ws].handoff.Some? && w.ledgers[ws].handoff.value.phase != Complete ==> Recover(w, ws, id, safe).None?
    ensures ws in w.bindings && !(w.rows[ws].brain == w.rows[ws].dataBrain == w.bindings[ws].brain) ==> Recover(w, ws, id, safe).None?
  {
  }

  /** Whatever is left of a workspace in any table keeps it from being registered again. */
  lemma LeftoversRefuse(w: World, ws: Id, run: BrainRuns.Run, open: bool)
    requires ws in w.rows || ws in w.ledgers || ws in w.bindings
    ensures Register(w, ws, run, open).None?
  {
  }
}
