/** When each step on a question is taken and what it leaves, in the fields of the rows, on every ledger a run can reach;
    and what every question, answer and resolution of such a ledger looks like. */
module DecisionLaws {
  import opened Sums
  import opened Decisions

  // ---------- what a question, an answer and a resolution look like ----------

  predicate Asks(spec: Spec) {
    && 2 <= |spec.options| <= 5
    && (forall i, j | 0 <= i < j < |spec.options| :: spec.options[i].id != spec.options[j].id)
    && (spec.recommended.Some? ==> exists k | 0 <= k < |spec.options| :: spec.options[k].id == spec.recommended.value)
  }

  predicate Cites(l: Ledger, ids: seq<Id>, repository: Id) {
    && 1 <= |ids| <= 8
    && (forall i, j | 0 <= i < j < |ids| :: ids[i] != ids[j])
    && forall k | 0 <= k < |ids| :: ids[k] in l.artifacts && l.artifacts[ids[k]].repository == repository
  }

  /** Without an option there is text; with one, it is the question's, and there is text if that option asks for it. */
  predicate Answers(spec: Spec, option: Option<Id>, note: string) {
    if option.None? then exists c | c in note :: !Space(c)
    else
      && (exists k | 0 <= k < |spec.options| :: spec.options[k].id == option.value)
      && forall k | 0 <= k < |spec.options| && spec.options[k].id == option.value ::
           (exists c | c in note :: !Space(c)) || !spec.options[k].requiresNote || exists j | 0 <= j < k :: spec.options[j].id == option.value
  }

  lemma AsksReads(spec: Spec)
    ensures WellFormed(spec) <==> Asks(spec)
  {
  }

  lemma CitesReads(l: Ledger, ids: seq<Id>, repository: Id)
    ensures Retained(l, ids, repository) <==> Cites(l, ids, repository)
  {
  }

  lemma {:induction false} FirstChoice(options: seq<Choice>, id: Id)
    ensures (exists k | 0 <= k < |options| :: options[k].id == id)
            ==> exists k | 0 <= k < |options| :: options[k].id == id && forall j | 0 <= j < k :: options[j].id != id
    decreases |options|
  {
    if k :| 0 <= k < |options| && options[k].id == id {
      if j :| 0 <= j < k && options[j].id == id {
        FirstChoice(options[..k], id);
        assert options[..k][j].id == id;
        var f :| 0 <= f < k && options[..k][f].id == id && forall j | 0 <= j < f :: options[..k][j].id != id;
        assert options[f].id == id && forall j | 0 <= j < f :: options[..k][j] == options[j];
      }
    }
  }

  lemma AnswersReads(spec: Spec, option: Option<Id>, note: string)
    ensures Acceptable(spec, option, note) <==> Answers(spec, option, note)
  {
    assert Blank(note) <==> !exists c | c in note :: !Space(c);
    if option.Some? {
      FirstChoice(spec.options, option.value);
    }
  }

  // ---------- the steps ----------

  /** This wording is the last one published of its question. */
  predicate LastWording(ds: seq<Decision>, i: nat, spec: Spec) {
    i < |ds| && ds[i].doc.spec == spec && forall j | i < j < |ds| :: !Sibling(ds[j], spec)
  }

  /** A question is published if and only if it is well formed, cites retained artifacts, and either is the last wording
      already or has no answer that the brain is working on. */
  lemma PublishExactly(l: Ledger, spec: Spec, allowed: bool)
    requires Invariant(l)
    ensures Publish(l, spec, allowed).Done?
            <==> allowed && Asks(spec) && Cites(l, spec.artifacts, spec.repository)
                 && ((exists i: nat :: LastWording(l.decisions, i, spec))
                     || forall i | 0 <= i < |l.decisions| :: l.decisions[i].status == Received ==>
                          l.decisions[i].doc.spec.repository != spec.repository || l.decisions[i].doc.spec.key != spec.key)
  {
    AsksReads(spec);
    CitesReads(l, spec.artifacts, spec.repository);
    LatestIsLast(l.decisions, spec);
    OthersAtRest(l.decisions, spec);
    var i := Latest(l.decisions, spec);
    if i >= 0 {
      assert InStep(l.decisions[i], l.commands, l.clock);
      assert LastWording(l.decisions, i, spec) <==> l.decisions[i].doc.spec == spec;
    }
    forall k: nat | LastWording(l.decisions, k, spec) ensures k == i {
      assert Sibling(l.decisions[k], spec);
    }
  }

  /** The same on rows that anything wrote: only what the highest version says counts, and one in flight whose answer has
      lost its command is not superseded. */
  lemma PublishesExactly(l: Ledger, spec: Spec, allowed: bool)
    ensures var i := Latest(l.decisions, spec);
            Publish(l, spec, allowed).Done?
            <==> && allowed && Asks(spec) && Cites(l, spec.artifacts, spec.repository)
                 && (i >= 0 && l.decisions[i].doc.spec != spec ==>
                       && l.decisions[i].status != Received
                       && ((l.decisions[i].status == Open || l.decisions[i].status == Answered) && l.decisions[i].response.Some? ==>
                             l.decisions[i].response.value.command in l.commands))
  {
    AsksReads(spec);
    CitesReads(l, spec.artifacts, spec.repository);
  }

  /** A decision and a command that do not tell the same are not moved on, whoever wrote them so. */
  lemma MismatchRefuses(l: Ledger, command: Id, doc: Document, result: Result, allowed: bool)
    ensures command in l.commands && l.commands[command].progress != Queued ==> Receive(l, command, allowed).None?
    ensures var i := Row(l.decisions, doc);
            i >= 0 && l.decisions[i].resolution.None? && (l.decisions[i].status != Received || result.command !in l.commands
                                                          || l.commands[result.command].progress != Processing)
            ==> Resolve(l, doc, result, allowed).None?
  {
  }

  lemma {:induction false} CountIsSize(ds: seq<Decision>, spec: Spec)
    ensures Count(ds, spec) == |set i | 0 <= i < |ds| && Sibling(ds[i], spec)|
  {
    var all := set i | 0 <= i < |ds| && Sibling(ds[i], spec);
    if ds != [] {
      var n := |ds| - 1;
      CountIsSize(ds[..n], spec);
      var before := set i | 0 <= i < |ds[..n]| && Sibling(ds[..n][i], spec);
      assert all == before + if Sibling(ds[n], spec) then {n} else {};
    }
  }

  /** A new wording is open, stamped with the brain and the clock, and numbered after all earlier ones. An earlier one that
      was open or answered is superseded, and no other row changes. */
  lemma PublishLeaves(l: Ledger, spec: Spec)
    requires Invariant(l) && Publish(l, spec, true).Done? && forall i: nat :: !LastWording(l.decisions, i, spec)
    ensures var b, d, n := Publish(l, spec, true).state, Publish(l, spec, true).value, |l.decisions|;
            && d.doc.version == 1 + |set i | 0 <= i < n && l.decisions[i].doc.spec.repository == spec.repository && l.decisions[i].doc.spec.key == spec.key|
            && d == Decision(Document(d.doc.version, l.brain, spec), Open, l.clock, None, None)
            && b == l.(decisions := b.decisions, commands := b.commands)
            && |b.decisions| == n + 1 && b.decisions[n] == d
            && (forall i | 0 <= i < n ::
                  b.decisions[i] == if Sibling(l.decisions[i], spec) && (l.decisions[i].status == Open || l.decisions[i].status == Answered)
                                    then l.decisions[i].(status := Superseded) else l.decisions[i])
  {
    var i := Latest(l.decisions, spec);
    LatestIsLast(l.decisions, spec);
    OthersAtRest(l.decisions, spec);
    CountIsSize(l.decisions, spec);
    var siblings := set i | 0 <= i < |l.decisions| && l.decisions[i].doc.spec.repository == spec.repository && l.decisions[i].doc.spec.key == spec.key;
    assert siblings == set i | 0 <= i < |l.decisions| && Sibling(l.decisions[i], spec);
    if i >= 0 {
      assert InStep(l.decisions[i], l.commands, l.clock);
      assert !LastWording(l.decisions, i, spec);
    }
  }

  /** With it, the queued answer to an earlier wording of the question is rejected, and no other command changes. */
  lemma PublishRejects(l: Ledger, spec: Spec, c: Id)
    requires Invariant(l) && Publish(l, spec, true).Done? && forall i: nat :: !LastWording(l.decisions, i, spec)
    ensures var b := Publish(l, spec, true).state;
            && (c in b.commands <==> c in l.commands)
            && (c in l.commands ==>
                  b.commands[c] == if l.commands[c].progress == Queued && l.commands[c].decision.spec.repository == spec.repository
                                      && l.commands[c].decision.spec.key == spec.key
                                   then l.commands[c].(progress := Rejected) else l.commands[c])
  {
    var i := Latest(l.decisions, spec);
    if i >= 0 {
      assert InStep(l.decisions[i], l.commands, l.clock);
      assert !LastWording(l.decisions, i, spec) by { LatestIsLast(l.decisions, spec); }
    }
    if c in l.commands {
      CommandTells(l, c);
      assert Claimed(l, c);
      if l.commands[c].progress == Queued && l.commands[c].decision.spec.repository == spec.repository && l.commands[c].decision.spec.key == spec.key {
        RejectedIsLatest(l, spec, c);
      }
    }
  }

  lemma RejectedIsLatest(l: Ledger, spec: Spec, c: Id)
    requires Invariant(l) && c in l.commands && l.commands[c].progress == Queued
    requires l.commands[c].decision.spec.repository == spec.repository && l.commands[c].decision.spec.key == spec.key
    ensures Latest(l.decisions, spec) == Row(l.decisions, l.commands[c].decision)
  {
    CommandTells(l, c);
    OthersAtRest(l.decisions, spec);
    assert Sibling(l.decisions[Row(l.decisions, l.commands[c].decision)], spec);
  }

  /** An open question is answered by a new command with an answer it asks for; the answer is recorded as given, and the
      command is queued. */
  lemma AnswerExactly(l: Ledger, command: Id, i: nat, option: Option<Id>, note: string)
    requires Invariant(l) && i < |l.decisions|
    ensures var d := l.decisions[i];
            var t := Answer(l, command, d.doc, option, note);
            && (t.Some? <==> command !in l.commands && d.status == Open && Answers(d.doc.spec, option, note))
            && (t.Some? ==>
                  t.value == l.(decisions := l.decisions[i := d.(status := Answered, response := Some(Response(command, option, note, l.clock)))],
                                commands := l.commands[command := Command(d.doc, Queued)]))
  {
    RowFinds(l.decisions, i);
    AnswersReads(l.decisions[i].doc.spec, option, note);
  }

  /** A queued answer is received, and nothing else is; decision and command move on together. */
  lemma ReceiveExactly(l: Ledger, command: Id, allowed: bool)
    requires Invariant(l)
    ensures var t := Receive(l, command, allowed);
            && (t.Some? <==> allowed && command in l.commands && l.commands[command].progress == Queued)
            && (t.Some? ==>
                  exists i | 0 <= i < |l.decisions| ::
                    && l.decisions[i].response.Some? && l.decisions[i].response.value.command == command
                    && t.value == l.(decisions := l.decisions[i := l.decisions[i].(status := Received)],
                                     commands := l.commands[command := l.commands[command].(progress := Processing)]))
  {
    if command in l.commands {
      CommandTells(l, command);
      assert Claimed(l, command);
      var i := Row(l.decisions, l.commands[command].decision);
      assert InStep(l.decisions[i], l.commands, l.clock);
    }
  }

  /** A received answer is resolved by the result that names its command, with artifacts of its repository; the result is
      recorded as given, and the command is completed. The same result again answers the ledger as it stands. */
  lemma ResolveExactly(l: Ledger, i: nat, result: Result, allowed: bool)
    requires Invariant(l) && i < |l.decisions|
    ensures var d := l.decisions[i];
            var t := Resolve(l, d.doc, result, allowed);
            && (t.Some? <==>
                  && allowed
                  && if d.resolution.Some? then d.resolution.value.result == result
                     else d.status == Received && d.response.Some? && d.response.value.command == result.command && Cites(l, result.artifacts, d.doc.spec.repository))
            && (t.Some? ==>
                  t.value == if d.resolution.Some? then l
                             else l.(decisions := l.decisions[i := d.(status := if result.applied then Applied else Blocked,
                                                                      resolution := Some(Resolution(result, l.clock)))],
                                     commands := l.commands[result.command := Command(d.doc, Completed)]))
  {
    RowFinds(l.decisions, i);
    assert InStep(l.decisions[i], l.commands, l.clock);
    CitesReads(l, result.artifacts, l.decisions[i].doc.spec.repository);
  }

  // ---------- over whole histories ----------

  predicate Genuine(d: Decision) {
    && Asks(d.doc.spec)
    && (d.response.Some? ==> Answers(d.doc.spec, d.response.value.option, d.response.value.note))
    && (d.resolution.Some? ==> 1 <= |d.resolution.value.result.artifacts| <= 8)
  }

  lemma StepGenuine(l: Ledger, op: Op)
    requires Invariant(l) && forall i | 0 <= i < |l.decisions| :: Genuine(l.decisions[i])
    ensures forall i | 0 <= i < |Apply(l, op).decisions| :: Genuine(Apply(l, op).decisions[i])
  {
    match op {
      case OpPublish(spec, allowed) => AsksReads(spec);
      case OpAnswer(_, doc, option, note) => AnswersReads(doc.spec, option, note);
      case _ =>
    }
  }

  /** Every question a run leaves was well formed, every answer recorded is one its question asks for, and every resolution
      cites one to eight artifacts. */
  lemma {:induction false} RunGenuine(l: Ledger, ops: seq<Op>)
    requires Fresh(l)
    ensures forall i | 0 <= i < |ApplyAll(l, ops).decisions| :: Genuine(ApplyAll(l, ops).decisions[i])
  {
    if ops != [] {
      RunGenuine(l, ops[..|ops| - 1]);
      RunKeeps(l, ops[..|ops| - 1]);
      StepGenuine(ApplyAll(l, ops[..|ops| - 1]), ops[|ops| - 1]);
    }
  }

  /** Of several rows of a question the reader takes the highest version, and the last of equals. */
  lemma {:induction false} LatestExactly(ds: seq<Decision>, spec: Spec)
    ensures var i := Latest(ds, spec);
            && (i == -1 <==> forall j | 0 <= j < |ds| :: !Sibling(ds[j], spec))
            && (i >= 0 ==> forall j | 0 <= j < |ds| && Sibling(ds[j], spec) ::
                  ds[j].doc.version < ds[i].doc.version || (ds[j].doc.version == ds[i].doc.version && j <= i))
  {
    if ds != [] {
      LatestExactly(ds[..|ds| - 1], spec);
      assert forall j | 0 <= j < |ds| - 1 :: ds[..|ds| - 1][j] == ds[j];
    }
  }
}
