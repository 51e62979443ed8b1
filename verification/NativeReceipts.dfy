/** When the receipt of an answered permission request is closed, and when it is left open: the exact condition over
    every interleaving, and the same seen from the owner's click. */
module NativeReceipts {
  import opened Sums
  import opened NativeApprovals

  // ---------- what the notes make of a receipt ----------

  /** The status a receipt has after the notes, if it had `s` before them. */
  function After(s: Status, notes: seq<Attempt>): Status {
    if notes == [] then s
    else
      var t, n := After(s, notes[..|notes| - 1]), notes[|notes| - 1];
      if n.kept && t in Before(n.status) then n.status else t
  }

  predicate Unkept(notes: seq<Attempt>) {
    forall n | n in notes :: !n.kept
  }

  lemma {:induction false} UnkeptLeave(s: Status, notes: seq<Attempt>)
    requires Unkept(notes)
    ensures After(s, notes) == s
  {
    if notes != [] { UnkeptLeave(s, notes[..|notes| - 1]); }
  }

  /** Notes treat a claimed and a queued receipt alike. */
  lemma {:induction false} ClaimedLikeQueued(notes: seq<Attempt>)
    ensures After(Claimed, notes) == if After(Queued, notes) == Queued then Claimed else After(Queued, notes)
    ensures After(Queued, notes) != Claimed
  {
    if notes != [] { ClaimedLikeQueued(notes[..|notes| - 1]); }
  }

  // ---------- which notes there are ----------

  /** Before the end the only note attempted is that of a delivered response. */
  predicate Opening(o: Observer, notes: seq<Attempt>) {
    if o.sent then |notes| == 1 && notes[0].status == Written else notes == []
  }

  /** The note that may close this wait. */
  predicate Closes(ask: Ask, o: Observer, status: Status) {
    if o.sent then status == if OwnEnd(ask, o) then ResolvedSent else Uncertain
    else status in {ResolvedUnsent, Blocked, Uncertain} && (o.taken.None? ==> status == ResolvedUnsent && OwnEnd(ask, o))
  }

  /** A wait ends without a closing note exactly if it was raised, or took no decision and saw no resolution of its own. */
  predicate Finished(ask: Ask, o: Observer, answer: Answer) {
    || (Opening(o, o.notes) && (answer == Raised || (o.taken.None? && !OwnEnd(ask, o))))
    || (o.notes != [] && Opening(o, o.notes[..|o.notes| - 1]) && answer != Raised && Closes(ask, o, o.notes[|o.notes| - 1].status))
  }

  predicate Logged(ask: Ask, o: Observer) {
    match o.pc
    case Noting(_, None) => o.notes == []
    case Noting(status, Some(answer)) => Opening(o, o.notes) && answer != Raised && Closes(ask, o, status)
    case Closing(answer) => Finished(ask, o, answer)
    case Ended(answer) => Finished(ask, o, answer)
    case _ => Opening(o, o.notes)
  }

  /** The receipt is what the notes made of the owner's claim. */
  predicate Receipted(ours: seq<Entry>, owner: Owner, decision: Option<Decision>, notes: seq<Attempt>) {
    && (ours == [] ==> Unkept(notes))
    && (ours != [] ==>
          if owner != Settled then ours[0].status == After(Claimed, notes)
          else if decision.Some? then ours[0].status == After(Queued, notes)
          else Final(ours[0].status))
  }

  predicate Complete(ask: Ask, w: Wait) {
    && Invariant(ask, w) && Logged(ask, w.obs)
    && Receipted(OurEntries(ask, w.entries), w.owner, w.decision, w.obs.notes)
  }

  // ---------- each actor keeps it ----------

  lemma JudgeLogs(ask: Ask, o: Observer, loss: bool, decision: Option<Decision>)
    requires Observing(ask, o, decision) && Logged(ask, o) && o.pc.Judging?
    ensures Logged(ask, JudgeBatch(ask, o, loss)) && JudgeBatch(ask, o, loss).notes == o.notes
  {
    var v := JudgeBatch(ask, o, loss);
    if o.pc.error {
      assert !OwnEnd(ask, o) by { if o.judged != [] { assert o.judged[|o.judged| - 1] in o.judged; } }
    } else {
      var rows := o.pc.rows;
      JudgeReads(ask, rows, o.taken, o.sent);
      if Judge(ask, rows, o.taken, o.sent).End? {
        assert v.judged[|v.judged| - 1] == rows[Reach(rows) - 1];
      }
    }
  }

  lemma DecideLogs(ask: Ask, o: Observer, late: bool, authority: Authority, entries: seq<Entry>, delivery: Delivery, decision: Option<Decision>)
    requires Observing(ask, o, decision) && Logged(ask, o) && o.pc.Deciding?
    ensures Logged(ask, Decide(ask, o, late, authority, entries, delivery))
    ensures Decide(ask, o, late, authority, entries, delivery).notes == o.notes
  {
  }

  lemma ElapseLogs(ask: Ask, o: Observer, decision: Option<Decision>)
    requires Observing(ask, o, decision) && Logged(ask, o) && o.pc.Waiting?
    ensures Logged(ask, Elapse(o)) && Elapse(o).notes == o.notes
  {
    if o.judged != [] { assert o.judged[|o.judged| - 1] in o.judged; }
  }

  lemma NoteLogs(ask: Ask, o: Observer, kept: bool, decision: Option<Decision>)
    requires Observing(ask, o, decision) && Logged(ask, o) && o.pc.Noting?
    ensures Logged(ask, AfterNote(o, kept))
  {
    var v := AfterNote(o, kept);
    assert v.notes[..|v.notes| - 1] == o.notes;
  }

  /** A kept note moves the receipt as it moves the owner's claim; a note nobody kept moves nothing. */
  lemma NoteReceipts(ours: seq<Entry>, owner: Owner, decision: Option<Decision>, notes: seq<Attempt>, n: Attempt)
    requires Receipted(ours, owner, decision, notes) && |ours| <= 1 && (n.kept ==> ours != [])
    ensures Receipted(if n.kept && ours[0].status in Before(n.status) then [ours[0].(status := n.status)] else ours, owner, decision, notes + [n])
  {
    assert (notes + [n])[..|notes|] == notes;
  }

  lemma NoteCompletes(ask: Ask, w: Wait, persists: bool)
    requires Complete(ask, w) && w.obs.pc.Noting?
    ensures Complete(ask, Note(ask, w, persists))
  {
    var ours, kept := OurEntries(ask, w.entries), Kept(ask, w, persists);
    NoteKeeps(ask, w, persists);
    NoteLeaves(ask, w, persists);
    NoteLogs(ask, w.obs, kept, w.decision);
    NoteReceipts(ours, w.owner, w.decision, w.obs.notes, Attempt(w.obs.pc.status, kept));
  }

  /** Settling closes the receipt of a refused click, and says queued of a queued one. */
  lemma SettleReceipts(ask: Ask, w: Wait)
    requires Complete(ask, w) && w.owner.Clicked?
    ensures Complete(ask, Apply(ask, w, OwnerSettle))
  {
    OwnerKeeps(ask, w, OwnerSettle);
    OursSettled(ask, w.entries, if w.owner.queued then Queued else Uncertain);
    ClaimedLikeQueued(w.obs.notes);
  }

  lemma ClaimReceipts(ask: Ask, w: Wait, d: Decision)
    requires Complete(ask, w) && Claim(ask, w, d).Some?
    ensures Complete(ask, Apply(ask, w, OwnerClaim(d)))
  {
    OwnerKeeps(ask, w, OwnerClaim(d));
    OursAppend(ask, w.entries, Entry(ask.hash, ask.turn, d, Claimed));
    UnkeptLeave(Claimed, w.obs.notes);
  }

  lemma ObserverCompletes(ask: Ask, w: Wait, act: Act)
    requires Complete(ask, w) && (act.ObserverEnter? || act.ObserverTake? || act.ObserverJudge? || act.ObserverDecide? || act.ObserverElapse?)
    requires Try(ask, w, act).Some?
    ensures Complete(ask, Apply(ask, w, act))
  {
    ObserverKeeps(ask, w, act);
    match act {
      case ObserverJudge => JudgeLogs(ask, w.obs, w.loss, w.decision);
      case ObserverDecide(delivery) => DecideLogs(ask, w.obs, w.clock >= ask.expires, w.authority, w.entries, delivery, w.decision);
      case ObserverElapse => ElapseLogs(ask, w.obs, w.decision);
      case ObserverEnter => assert Logged(ask, Apply(ask, w, act).obs);
      case ObserverTake => assert Logged(ask, Apply(ask, w, act).obs);
    }
  }

  lemma CloseCompletes(ask: Ask, w: Wait)
    requires Complete(ask, w) && w.obs.pc.Closing?
    ensures Complete(ask, Close(w))
  {
    CloseKeeps(ask, w);
    assert Logged(ask, Close(w).obs);
  }

  lemma ClickCompletes(ask: Ask, w: Wait)
    requires Complete(ask, w) && Click(ask, w).Some?
    ensures Complete(ask, Click(ask, w).value)
  {
    OwnerKeeps(ask, w, OwnerClick);
  }

  /** Everyone else leaves the observer, the owner and the entries as they are. */
  lemma OthersComplete(ask: Ask, w: Wait, act: Act)
    requires Complete(ask, w) && (act.Shift? || act.Tick? || act.ReaderRow? || act.ReaderFails? || act.Shutdown?)
    ensures Complete(ask, Apply(ask, w, act))
  {
    var v := Apply(ask, w, act);
    assert v.obs == w.obs && v.owner == w.owner && v.decision == w.decision && v.entries == w.entries;
  }

  lemma ApplyCompletes(ask: Ask, w: Wait, act: Act)
    requires Complete(ask, w)
    ensures Complete(ask, Apply(ask, w, act))
  {
    if Try(ask, w, act).Some? {
      match act {
        case OwnerClaim(d) => ClaimReceipts(ask, w, d);
        case OwnerSettle => SettleReceipts(ask, w);
        case ObserverNote(persists) => NoteCompletes(ask, w, persists);
        case ObserverEnter => ObserverCompletes(ask, w, act);
        case ObserverTake => ObserverCompletes(ask, w, act);
        case ObserverJudge => ObserverCompletes(ask, w, act);
        case ObserverDecide(_) => ObserverCompletes(ask, w, act);
        case ObserverElapse => ObserverCompletes(ask, w, act);
        case OwnerClick => ClickCompletes(ask, w);
        case ObserverClose => CloseCompletes(ask, w);
        case _ => OthersComplete(ask, w, act);
      }
    }
  }

  lemma {:induction false} RunCompletes(ask: Ask, w: Wait, acts: seq<Act>)
    requires Offered(ask, w) || Complete(ask, w)
    ensures Complete(ask, ApplyAll(ask, w, acts))
  {
    if acts == [] {
      OursDecided(ask, w.entries);
    } else {
      RunCompletes(ask, w, acts[..|acts| - 1]);
      ApplyCompletes(ask, ApplyAll(ask, w, acts[..|acts| - 1]), acts[|acts| - 1]);
    }
  }

  // ---------- when a receipt is left open ----------

  predicate Unanswered(s: Status) {
    s in {Claimed, Queued}
  }

  predicate LastKept(o: Observer) {
    o.notes != [] && o.notes[|o.notes| - 1].kept
  }

  predicate WrittenKept(o: Observer) {
    o.sent && o.notes != [] && o.notes[0].kept
  }

  /** What leaves a queued click without an answer: the observer never took it and saw no resolution of the request
      whose note was kept; or it took it, and neither the note of a delivered response was kept, nor a closing note
      that can follow an unanswered receipt: there was none, it was lost, or it was one that only follows a written one. */
  predicate LeftOpen(ask: Ask, o: Observer) {
    if o.taken.None? then !(OwnEnd(ask, o) && LastKept(o))
    else !WrittenKept(o) && (o.pc == Ended(Raised) || (o.sent && OwnEnd(ask, o)) || !LastKept(o))
  }

  lemma ClosedExactly(ask: Ask, o: Observer, s: Status)
    requires Logged(ask, o) && WroteOnce(ask, o) && o.pc.Ended? && s in {Claimed, Queued}
    ensures Unanswered(After(s, o.notes)) <==> LeftOpen(ask, o)
    ensures Unanswered(After(s, o.notes)) ==> After(s, o.notes) == s
    ensures After(s, o.notes) == Written <==> WrittenKept(o) && (o.pc == Ended(Raised) || !LastKept(o))
  {
    var ns := o.notes;
    if |ns| == 1 {
      AfterOne(s, ns[0]);
      assert ns == [ns[0]];
    } else if |ns| == 2 {
      AfterTwo(s, ns[0], ns[1]);
      assert ns == [ns[0], ns[1]];
    }
  }

  lemma AfterOne(s: Status, n: Attempt)
    ensures After(s, [n]) == if n.kept && s in Before(n.status) then n.status else s
  {
    assert [n][..0] == [];
  }

  lemma AfterTwo(s: Status, n: Attempt, m: Attempt)
    ensures After(s, [n, m]) == var t := After(s, [n]); if m.kept && t in Before(m.status) then m.status else t
  {
    assert [n, m][..1] == [n];
  }

  /** Under every interleaving, when the wait is over a receipt still says claimed or queued if and only if it was left
      open, and the owner's side did not itself close it after a refused click; it stops at written if and only if that
      note was kept and no closing one was. */
  lemma OpenExactly(ask: Ask, w: Wait, acts: seq<Act>, e: Entry)
    requires Offered(ask, w) && ApplyAll(ask, w, acts).obs.pc.Ended?
    requires e in ApplyAll(ask, w, acts).entries && e.hash == ask.hash
    ensures var v := ApplyAll(ask, w, acts);
            && (Unanswered(e.status) <==> LeftOpen(ask, v.obs) && !(v.owner == Settled && v.decision.None?))
            && (v.owner == Settled && v.decision.Some? ==> (e.status == Queued <==> LeftOpen(ask, v.obs)))
            && (v.owner == Settled && v.decision.None? ==> Final(e.status))
            && (e.status == Written <==> WrittenKept(v.obs) && (v.obs.pc == Ended(Raised) || !LastKept(v.obs)))
  {
    RunCompletes(ask, w, acts);
    var v := ApplyAll(ask, w, acts);
    OursDecided(ask, v.entries);
    assert e in OurEntries(ask, v.entries);
    ClosedExactly(ask, v.obs, Claimed);
    ClosedExactly(ask, v.obs, Queued);
  }

  // ---------- the same, from the click ----------

  /** Some step of the run lets the observer past its deadline check, to look again. */
  predicate Enters(ask: Ask, w: Wait, acts: seq<Act>) {
    exists k | 0 <= k < |acts| :: acts[k].ObserverEnter? && Try(ask, ApplyAll(ask, w, acts[..k]), acts[k]).Some?
  }

  lemma EntersBefore(ask: Ask, w: Wait, acts: seq<Act>)
    requires acts != []
    ensures var front, last := acts[..|acts| - 1], acts[|acts| - 1];
            Enters(ask, w, acts) <==> Enters(ask, w, front) || (last.ObserverEnter? && Try(ask, ApplyAll(ask, w, front), last).Some?)
  {
    var n := |acts| - 1;
    var front := acts[..n];
    if Enters(ask, w, front) {
      var k :| 0 <= k < n && front[k].ObserverEnter? && Try(ask, ApplyAll(ask, w, front[..k]), front[k]).Some?;
      assert front[..k] == acts[..k] && front[k] == acts[k];
    }
    if Enters(ask, w, acts) {
      var k :| 0 <= k < |acts| && acts[k].ObserverEnter? && Try(ask, ApplyAll(ask, w, acts[..k]), acts[k]).Some?;
      if k < n { assert front[..k] == acts[..k] && front[k] == acts[k]; }
    }
  }

  predicate Looking(o: Observer) {
    o.pc.Polling? || o.taken.Some?
  }

  lemma LookStep(ask: Ask, w: Wait, act: Act)
    requires w.decision.Some?
    ensures Apply(ask, w, act).decision == w.decision
    ensures Looking(Apply(ask, w, act).obs) <==> Looking(w.obs) || (act.ObserverEnter? && Try(ask, w, act).Some?)
  {
    if act.ObserverJudge? && w.obs.pc.Judging? {
      JudgeTakesNothing(ask, w.obs, w.loss);
    } else if act.ObserverDecide? && w.obs.pc.Deciding? {
      DecideTakesNothing(ask, w.obs, w.clock >= ask.expires, w.authority, w.entries, act.delivery);
    }
  }

  lemma JudgeTakesNothing(ask: Ask, o: Observer, loss: bool)
    requires o.pc.Judging?
    ensures JudgeBatch(ask, o, loss).taken == o.taken && !JudgeBatch(ask, o, loss).pc.Polling?
  {
  }

  lemma DecideTakesNothing(ask: Ask, o: Observer, late: bool, authority: Authority, entries: seq<Entry>, delivery: Delivery)
    ensures var v := Decide(ask, o, late, authority, entries, delivery); v.taken == o.taken && !v.pc.Polling?
  {
  }

  /** Once a decision is queued, the observer is looking or has looked at it exactly if it was looking already or
      came past its deadline check again. */
  lemma {:induction false} LooksExactly(ask: Ask, w: Wait, acts: seq<Act>)
    requires w.decision.Some?
    ensures ApplyAll(ask, w, acts).decision == w.decision
    ensures Looking(ApplyAll(ask, w, acts).obs) <==> Looking(w.obs) || Enters(ask, w, acts)
  {
    if acts != [] {
      LooksExactly(ask, w, acts[..|acts| - 1]);
      LookStep(ask, ApplyAll(ask, w, acts[..|acts| - 1]), acts[|acts| - 1]);
      EntersBefore(ask, w, acts);
    }
  }

  /** A click is queued somewhere in a run, the owner's side settles, every note is kept and no row was malformed. Then its
      receipt is final when the wait is over if and only if the observer was looking at the time of the click, or
      looked again, or the request was natively resolved; otherwise it stays queued. */
  lemma ClickAnsweredExactly(ask: Ask, start: Wait, before: seq<Act>, after: seq<Act>, e: Entry)
    requires Offered(ask, start)
    requires var w := ApplyAll(ask, start, before); w.owner.Holding? && Apply(ask, w, OwnerClick).owner == Clicked(true)
    requires var clicked := Apply(ask, ApplyAll(ask, start, before), OwnerClick);
             var v := ApplyAll(ask, clicked, after);
             && v.obs.pc.Ended? && v.obs.pc != Ended(Raised) && v.owner == Settled
             && (forall n | n in v.obs.notes :: n.kept)
             && e in v.entries && e.hash == ask.hash
    ensures var w := ApplyAll(ask, start, before);
            var clicked := Apply(ask, w, OwnerClick);
            var answered := w.obs.pc.Polling? || Enters(ask, clicked, after) || OwnEnd(ask, ApplyAll(ask, clicked, after).obs);
            && (answered <==> Final(e.status))
            && (!answered <==> e.status == Queued)
  {
    var w := ApplyAll(ask, start, before);
    var clicked := Apply(ask, w, OwnerClick);
    var v := ApplyAll(ask, clicked, after);
    RunCompletes(ask, start, before);
    assert clicked.obs == w.obs && clicked.decision.Some? && w.obs.taken.None?;
    ApplyCompletes(ask, w, OwnerClick);
    RunCompletes(ask, clicked, after);
    LooksExactly(ask, clicked, after);
    OursDecided(ask, v.entries);
    SettledExactly(ask, v, e);
  }

  lemma SettledExactly(ask: Ask, v: Wait, e: Entry)
    requires Complete(ask, v) && v.obs.pc.Ended? && v.obs.pc != Ended(Raised) && v.owner == Settled && v.decision.Some?
    requires (forall n | n in v.obs.notes :: n.kept) && e in OurEntries(ask, v.entries)
    ensures Final(e.status) <==> Looking(v.obs) || OwnEnd(ask, v.obs)
    ensures e.status == Queued <==> !Final(e.status)
  {
    KeptExactly(ask, v.obs);
  }

  /** With every note kept and nothing malformed. */
  lemma KeptExactly(ask: Ask, o: Observer)
    requires Logged(ask, o) && WroteOnce(ask, o) && o.pc.Ended? && o.pc != Ended(Raised) && forall n | n in o.notes :: n.kept
    ensures LeftOpen(ask, o) <==> o.taken.None? && !OwnEnd(ask, o)
    ensures After(Queued, o.notes) == Queued <==> LeftOpen(ask, o)
    ensures Final(After(Queued, o.notes)) <==> !LeftOpen(ask, o)
  {
    ClosedExactly(ask, o, Queued);
    if o.notes != [] {
      assert o.notes[|o.notes| - 1] in o.notes && o.notes[0] in o.notes;
    }
    ClaimedLikeQueued(o.notes);
  }

  /** Where the observer can no longer come back to look: a batch that ends the wait is taken, or the end is under way. */
  predicate PastLooking(o: Observer) {
    match o.pc
    case Judging(rows, error) => error || !AllQuiet(rows)
    case Noting(_, next) => next.Some?
    case Closing(_) => true
    case Ended(_) => true
    case _ => false
  }

  lemma PastLookingStep(ask: Ask, w: Wait, act: Act)
    requires PastLooking(w.obs)
    ensures PastLooking(Apply(ask, w, act).obs) && Apply(ask, w, act).obs.taken == w.obs.taken
    ensures act.ObserverEnter? ==> Try(ask, w, act).None?
  {
    if act.ObserverJudge? && w.obs.pc.Judging? {
      JudgeReads(ask, w.obs.pc.rows, w.obs.taken, w.obs.sent);
    }
  }

  /** A click that lands there is never looked at, whatever happens: whether the turn ended, another request came,
      the connection failed or the dashboard shut down. */
  lemma {:induction false} TooLate(ask: Ask, w: Wait, acts: seq<Act>)
    requires PastLooking(w.obs)
    ensures PastLooking(ApplyAll(ask, w, acts).obs) && ApplyAll(ask, w, acts).obs.taken == w.obs.taken && !Enters(ask, w, acts)
  {
    if acts != [] {
      TooLate(ask, w, acts[..|acts| - 1]);
      PastLookingStep(ask, ApplyAll(ask, w, acts[..|acts| - 1]), acts[|acts| - 1]);
      EntersBefore(ask, w, acts);
    }
  }
}
