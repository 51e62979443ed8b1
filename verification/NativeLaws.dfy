/** What each actor on a native request may do and what it leaves, in the fields of the wait; and what an ended wait says
    of the turn. */
module NativeLaws {
  import opened Sums
  import opened NativeApprovals

  // ---------- the owner and the ledger ----------

  /** The request itself allows this decision: it was offered, and an acceptance of it was checked. */
  predicate Allows(ask: Ask, d: Decision) {
    match d
    case Accept => Accept in ask.allowed && ask.canAccept
    case Decline => Decline in ask.allowed
    case Cancel => Cancel in ask.allowed
  }

  /** A decision is claimed if and only if the request allows it, the message was accepted for this turn of this brain, the
      phase is running and not stopped where it is an acceptance, and the ledger has room and no claim for this request. */
  lemma ClaimExactly(ask: Ask, w: Wait, d: Decision)
    ensures var t := Try(ask, w, OwnerClaim(d));
            && (t.Some? <==>
                  && w.owner == Idle && Allows(ask, d)
                  && w.authority.brain && w.authority.accepted && w.authority.sameTurn
                  && (d == Accept ==> w.authority.running && !w.authority.stopped)
                  && |w.entries| < 16 && forall e | e in w.entries :: e.hash != ask.hash)
            && (t.Some? ==> t.value == w.(owner := Holding(d), entries := w.entries + [Entry(ask.hash, ask.turn, d, Claimed)]))
  {
  }

  /** A click with the claimed decision queues it if and only if the request is still pending, undecided and in time. */
  lemma ClickExactly(ask: Ask, w: Wait, d: Decision)
    requires w.owner == Holding(d)
    ensures Try(ask, w, OwnerClick)
            == Some(if !w.cancelled && w.decision.None? && w.clock < ask.expires && Allows(ask, d)
                    then w.(owner := Clicked(true), decision := Some(d), event := true) else w.(owner := Clicked(false)))
  {
  }

  /** What came of the click is settled in the ledger, in every claim of this request that is still only claimed. */
  lemma {:induction false} SettleExactly(ask: Ask, entries: seq<Entry>, outcome: Status, i: nat)
    requires i < |entries|
    ensures |Settle(ask, entries, outcome)| == |entries|
    ensures Settle(ask, entries, outcome)[i]
            == if entries[i].hash == ask.hash && entries[i].status == Claimed then entries[i].(status := outcome) else entries[i]
  {
    if i > 0 {
      SettleExactly(ask, entries[1..], outcome, i - 1);
    } else if |entries| > 1 {
      SettleExactly(ask, entries[1..], outcome, 0);
    } else {
      assert Settle(ask, entries[1..], outcome) == [];
    }
  }

  lemma SettlesExactly(ask: Ask, w: Wait)
    ensures var t := Try(ask, w, OwnerSettle);
            && (t.Some? <==> w.owner == Clicked(true) || w.owner == Clicked(false))
            && (t.Some? ==>
                  && t.value == w.(owner := Settled, entries := t.value.entries) && |t.value.entries| == |w.entries|
                  && forall i | 0 <= i < |w.entries| ::
                       t.value.entries[i]
                       == if w.entries[i].hash == ask.hash && w.entries[i].status == Claimed
                          then w.entries[i].(status := if w.owner == Clicked(true) then Queued else Uncertain) else w.entries[i])
  {
    if w.owner.Clicked? {
      var outcome := if w.owner.queued then Queued else Uncertain;
      if w.entries == [] {
        assert Settle(ask, w.entries, outcome) == [];
      } else {
        forall i: nat | i < |w.entries| { SettleExactly(ask, w.entries, outcome, i); }
        SettleExactly(ask, w.entries, outcome, 0);
      }
    }
  }

  // ---------- the reader ----------

  /** The reader keeps the first 64 rows it is not taken from, wakes the observer, and stops at a row that ends the wait,
      at a row too many, and once the wait is cancelled. */
  lemma ReadExactly(ask: Ask, w: Wait, row: Row)
    ensures var t := Try(ask, w, ReaderRow(row));
            && (t.Some? <==> w.reading)
            && (t.Some? ==>
                  t.value == if w.cancelled then w.(reading := false)
                             else if |w.rows| >= 64 then w.(readerError := true, reading := false, event := true)
                             else match row
                                  case Notice => w.(rows := w.rows + [row], event := true)
                                  case Malformed => w.(rows := w.rows + [row], event := true)
                                  case _ => w.(rows := w.rows + [row], event := true, reading := false))
  {
  }

  lemma ReaderFailsExactly(ask: Ask, w: Wait, connection: bool)
    ensures Try(ask, w, ReaderFails(connection))
            == if w.reading then Some(w.(readerError := true, loss := w.loss || connection, reading := false, event := true)) else None
    ensures Try(ask, w, Shutdown) == Some(w.(cancelled := true, event := true))
  {
  }

  // ---------- the observer ----------

  /** It looks again only before the deadline, and takes what there is once it is woken or the deadline passes. */
  lemma TakeExactly(ask: Ask, w: Wait)
    ensures Try(ask, w, ObserverEnter)
            == if w.obs.pc == Waiting && w.clock < ask.expires then Some(w.(obs := w.obs.(pc := Polling))) else None
    ensures Try(ask, w, ObserverTake)
            == if w.obs.pc == Polling && (w.event || ask.expires <= w.clock)
               then Some(w.(obs := w.obs.(pc := Judging(w.rows, w.readerError || w.cancelled), taken := w.decision), rows := [], event := false))
               else None
  {
  }

  /** What the first row that is no notice makes of the wait: the note it leaves, if any, and the answer. */
  predicate Ruled(ask: Ask, row: Row, taken: bool, sent: bool, note: Option<Status>, answer: Answer) {
    match row
    case Notice => false
    case Malformed => note == None && answer == Raised
    case Resolved(thread, request) =>
      if thread == ask.brain && request == ask.request
      then (if sent then note == Some(ResolvedSent) && answer == AnswerResolved else note == Some(ResolvedUnsent) && answer == Attention)
      else note == (if taken then Some(Uncertain) else None) && answer == Attention
    case TurnEnd(thread, turn, status) =>
      if thread == ask.brain && turn == ask.turn
      then note == (if !taken then None else if sent then Some(Uncertain) else Some(ResolvedUnsent)) && answer == TurnOver(status)
      else note == (if taken then Some(Uncertain) else None) && answer == Attention
    case ServerRequest => note == (if taken then Some(Uncertain) else None) && answer == Attention
  }

  /** The observer goes on to its note, or without one to its end. */
  predicate GoesOn(pc: Pc, note: Option<Status>, answer: Answer) {
    match note
    case Some(status) => pc == Noting(status, Some(answer))
    case None => pc == Closing(answer)
  }

  /** An error ends the wait whatever the rows say. */
  lemma ErrorExactly(ask: Ask, o: Observer, loss: bool)
    requires o.pc.Judging? && o.pc.error
    ensures var v := JudgeBatch(ask, o, loss);
            && v == o.(pc := v.pc)
            && GoesOn(v.pc, if o.taken.Some? then Some(Uncertain) else None, if loss then Lost else if o.sent then ResponseUncertain else Attention)
  {
  }

  /** Otherwise the first row that is no notice, here the `k`-th, rules it, and the rows after that one are never judged; a
      batch of notices lets the observer decide. */
  lemma JudgeExactly(ask: Ask, o: Observer, loss: bool, k: nat)
    requires o.pc.Judging? && !o.pc.error && k <= |o.pc.rows|
    requires (forall j | 0 <= j < k :: o.pc.rows[j] == Notice) && (k < |o.pc.rows| ==> o.pc.rows[k] != Notice)
    ensures var v, rows := JudgeBatch(ask, o, loss), o.pc.rows;
            && v == o.(pc := v.pc, judged := if k < |rows| then o.judged + rows[..k + 1] else o.judged + rows)
            && (k == |rows| ==> v.pc == Deciding)
            && (k < |rows| ==> exists note, answer :: Ruled(ask, rows[k], o.taken.Some?, o.sent, note, answer) && GoesOn(v.pc, note, answer))
  {
    var rows := o.pc.rows;
    ReachIs(rows, k);
    JudgeReads(ask, rows, o.taken, o.sent);
    if k < |rows| {
      var verdict := JudgeRow(ask, rows[k], o.taken, o.sent);
      assert Ruled(ask, rows[k], o.taken.Some?, o.sent, verdict.note, verdict.answer);
      assert GoesOn(JudgeBatch(ask, o, loss).pc, verdict.note, verdict.answer);
    } else {
      assert rows[..k] == rows;
    }
  }

  lemma {:induction false} ReachIs(rows: seq<Row>, k: nat)
    requires k <= |rows| && (forall j | 0 <= j < k :: rows[j] == Notice) && (k < |rows| ==> rows[k] != Notice)
    ensures Reach(rows) == if k < |rows| then k + 1 else k
    ensures AllQuiet(rows) <==> k == |rows|
  {
    if k > 0 { ReachIs(rows[1..], k - 1); }
    if k < |rows| { assert rows[k] in rows; }
  }

  /** The statuses a note may replace. */
  predicate Replaces(status: Status, note: Status) {
    match note
    case Claimed => false
    case Queued => false
    case Written => status == Claimed || status == Queued
    case ResolvedSent => status == Written
    case ResolvedUnsent => status == Claimed || status == Queued
    case Blocked => status == Claimed || status == Queued
    case Uncertain => status == Claimed || status == Queued || status == Written
  }

  /** A note that goes through on this turn moves the first claim of this request and turn that it may replace, and no
      other; then the observer waits on after a response, and comes to its end after any other note. */
  lemma NoteExactly(ask: Ask, w: Wait, persists: bool, k: nat)
    requires w.obs.pc.Noting? && k <= |w.entries|
    requires var note := w.obs.pc.status;
             && (forall i | 0 <= i < k :: !(w.entries[i].hash == ask.hash && w.entries[i].turn == ask.turn && Replaces(w.entries[i].status, note)))
             && (k < |w.entries| ==> w.entries[k].hash == ask.hash && w.entries[k].turn == ask.turn && Replaces(w.entries[k].status, note))
    ensures var t := Try(ask, w, ObserverNote(persists));
            && t.Some?
            && t.value == w.(entries := if persists && w.authority.sameTurn && k < |w.entries|
                                        then w.entries[k := w.entries[k].(status := w.obs.pc.status)] else w.entries,
                             obs := t.value.obs)
            && t.value.obs == w.obs.(pc := if w.obs.pc.next.Some? then Closing(w.obs.pc.next.value) else Waiting, notes := t.value.obs.notes)
            && t.value.obs.notes
               == w.obs.notes + [Attempt(w.obs.pc.status, persists && w.authority.sameTurn && exists e | e in w.entries :: e.hash == ask.hash)]
  {
    assert forall s, note :: s in Before(note) <==> Replaces(s, note);
    NotedFirst(ask, w.entries, w.obs.pc.status, k);
  }

  /** When the deadline has passed the observer gives up: what it took is blocked, or uncertain once it was sent. The end
      withdraws the request. */
  lemma EndsExactly(ask: Ask, w: Wait)
    ensures Try(ask, w, ObserverElapse).Some? <==> w.obs.pc == Waiting && ask.expires <= w.clock
    ensures Try(ask, w, ObserverElapse).Some? ==>
              var v := Try(ask, w, ObserverElapse).value;
              && v == w.(obs := w.obs.(pc := v.obs.pc))
              && GoesOn(v.obs.pc, if w.obs.taken.None? then None else if w.obs.sent then Some(Uncertain) else Some(Blocked),
                        if w.obs.sent then ResponseUncertain else Attention)
    ensures Try(ask, w, ObserverClose)
            == if w.obs.pc.Closing? then Some(w.(obs := w.obs.(pc := Ended(w.obs.pc.answer)), cancelled := true)) else None
  {
  }

  // ---------- what an ended wait says of the turn ----------

  /** The answer the observer is going to give, once it has one. */
  function AnswerOf(pc: Pc): Option<Answer> {
    match pc
    case Noting(_, next) => next
    case Closing(answer) => Some(answer)
    case Ended(answer) => Some(answer)
    case _ => None
  }

  /** It answers with a turn's status exactly when the last row it judged ended this turn so. */
  predicate TellsTurn(ask: Ask, o: Observer) {
    forall status ::
      AnswerOf(o.pc) == Some(TurnOver(status)) <==> o.judged != [] && o.judged[|o.judged| - 1] == TurnEnd(ask.brain, ask.turn, status)
  }

  lemma JudgeTells(ask: Ask, o: Observer, loss: bool)
    requires TellsTurn(ask, o) && AllQuiet(o.judged) && o.pc.Judging?
    ensures TellsTurn(ask, JudgeBatch(ask, o, loss))
  {
    var v, rows := JudgeBatch(ask, o, loss), o.pc.rows;
    assert o.judged != [] ==> o.judged[|o.judged| - 1].Notice?;
    if !o.pc.error {
      JudgeReads(ask, rows, o.taken, o.sent);
      if AllQuiet(rows) {
        assert rows[..Reach(rows)] == rows;
        assert v.judged != [] ==> v.judged[|v.judged| - 1].Notice?;
      } else {
        assert v.judged[|v.judged| - 1] == rows[Reach(rows) - 1];
      }
    }
  }

  lemma DecideTells(ask: Ask, o: Observer, late: bool, authority: Authority, entries: seq<Entry>, delivery: Delivery)
    requires TellsTurn(ask, o) && AllQuiet(o.judged) && o.pc.Deciding?
    ensures TellsTurn(ask, Decide(ask, o, late, authority, entries, delivery))
  {
    assert o.judged != [] ==> o.judged[|o.judged| - 1].Notice?;
    assert Decide(ask, o, late, authority, entries, delivery).judged == o.judged;
  }

  predicate ByObserver(act: Act) {
    act.ObserverEnter? || act.ObserverTake? || act.ObserverJudge? || act.ObserverDecide? || act.ObserverNote? || act.ObserverElapse? || act.ObserverClose?
  }

  lemma OwnerLeavesObserver(ask: Ask, w: Wait, act: Act)
    requires act.OwnerClaim? || act.OwnerClick? || act.OwnerSettle?
    ensures Apply(ask, w, act).obs == w.obs
  {
  }

  lemma RestLeavesObserver(ask: Ask, w: Wait, act: Act)
    requires !ByObserver(act)
    ensures Apply(ask, w, act).obs == w.obs
  {
    if act.OwnerClaim? || act.OwnerClick? || act.OwnerSettle? { OwnerLeavesObserver(ask, w, act); }
  }

  lemma PlaceTells(ask: Ask, w: Wait, act: Act)
    requires Placed(ask, w.obs) && TellsTurn(ask, w.obs) && (act.ObserverEnter? || act.ObserverTake? || act.ObserverClose?)
    ensures TellsTurn(ask, Apply(ask, w, act).obs)
  {
    assert w.obs.judged != [] && AllQuiet(w.obs.judged) ==> w.obs.judged[|w.obs.judged| - 1].Notice?;
    assert Apply(ask, w, act).obs.judged == w.obs.judged;
  }

  lemma StepTells(ask: Ask, w: Wait, act: Act)
    requires Placed(ask, w.obs) && TellsTurn(ask, w.obs)
    ensures TellsTurn(ask, Apply(ask, w, act).obs)
  {
    match act {
      case ObserverJudge => if w.obs.pc.Judging? { JudgeTells(ask, w.obs, w.loss); }
      case ObserverDecide(delivery) =>
        if w.obs.pc.Deciding? { DecideTells(ask, w.obs, w.clock >= ask.expires, w.authority, w.entries, delivery); }
      case ObserverNote(persists) => if w.obs.pc.Noting? { NoteTells(ask, w.obs, Kept(ask, w, persists)); }
      case ObserverElapse => ElapseTells(ask, w.obs);
      case _ => if ByObserver(act) { PlaceTells(ask, w, act); } else { RestLeavesObserver(ask, w, act); }
    }
  }

  lemma NoteTells(ask: Ask, o: Observer, kept: bool)
    requires TellsTurn(ask, o) && o.pc.Noting? && Placed(ask, o)
    ensures TellsTurn(ask, AfterNote(o, kept))
  {
    assert o.judged != [] && AllQuiet(o.judged) ==> o.judged[|o.judged| - 1].Notice?;
    assert AfterNote(o, kept).judged == o.judged;
  }

  lemma ElapseTells(ask: Ask, o: Observer)
    requires TellsTurn(ask, o) && Placed(ask, o)
    ensures o.pc.Waiting? ==> TellsTurn(ask, Elapse(o))
  {
    assert o.judged != [] && AllQuiet(o.judged) ==> o.judged[|o.judged| - 1].Notice?;
  }

  /** In every interleaving the wait ends with the status of the turn if and only if the last row judged is the end of this
      very turn with that status; a turn of another thread, or another turn, never answers for it. */
  lemma {:induction false} TurnToldExactly(ask: Ask, w: Wait, acts: seq<Act>)
    requires Offered(ask, w)
    ensures TellsTurn(ask, ApplyAll(ask, w, acts).obs)
  {
    if acts != [] {
      TurnToldExactly(ask, w, acts[..|acts| - 1]);
      EveryInterleavingKeeps(ask, w, acts[..|acts| - 1]);
      StepTells(ask, ApplyAll(ask, w, acts[..|acts| - 1]), acts[|acts| - 1]);
    }
  }
}
