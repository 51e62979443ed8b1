/** One native permission request, answered at most once. Three actors share it: the owner, whose click is first
    claimed in the ledger and then queued; the reader thread, which appends native rows; and the observer, which
    takes both under a lock, judges the rows first, and alone writes the response. The ledger keeps a receipt. */
module NativeApprovals {
  import opened Sums

  type Id = string

  datatype Decision = Accept | Decline | Cancel

  /** The request as it was projected for the owner. */
  datatype Ask = Ask(brain: Id, turn: Id, request: Id, hash: Id, canAccept: bool, allowed: set<Decision>, expires: real)

  datatype TurnStatus = TurnCompleted | TurnFailed | TurnInterrupted | TurnUnconfirmed
  datatype Row =
    | Resolved(thread: Id, request: Id)
    | TurnEnd(thread: Id, turn: Id, status: TurnStatus)
    | ServerRequest
    | Notice
    | Malformed

  datatype Status = Claimed | Queued | Written | ResolvedSent | ResolvedUnsent | Blocked | Uncertain
  datatype Entry = Entry(hash: Id, turn: Id, decision: Decision, status: Status)

  /** What the ledger says about the run and the delivered message, apart from the entries. */
  datatype Authority = Authority(brain: bool, stopped: bool, running: bool, blocked: bool, accepted: bool, sameTurn: bool)

  datatype Answer = AnswerResolved | Attention | ResponseUncertain | TurnOver(status: TurnStatus) | Lost | Raised

  datatype Pc =
    | Waiting
    | Polling
    | Judging(rows: seq<Row>, error: bool)
    | Deciding
    | Noting(status: Status, next: Option<Answer>)
    | Closing(answer: Answer)
    | Ended(answer: Answer)

  datatype Owner = Idle | Holding(decision: Decision) | Clicked(queued: bool) | Settled

  /** A response handed to the socket: what the ledger said at that moment, and the rows judged before it. */
  datatype Write = Write(decision: Decision, authority: Authority, entries: seq<Entry>, before: seq<Row>)

  /** An attempt to keep a status in the ledger; `kept` if its transaction went through, on the same turn, and found our claim. */
  datatype Attempt = Attempt(status: Status, kept: bool)

  /** The observer loop's variables, the rows it has judged, the responses and the notes it has attempted. */
  datatype Observer = Observer(pc: Pc, taken: Option<Decision>, sent: bool, judged: seq<Row>, writes: seq<Write>, notes: seq<Attempt>)

  datatype Wait = Wait(decision: Option<Decision>, cancelled: bool, rows: seq<Row>, readerError: bool, loss: bool, reading: bool, event: bool,
                       obs: Observer, owner: Owner, entries: seq<Entry>, authority: Authority, clock: real)

  const MOST_ROWS := 64
  const MOST_ENTRIES := 16

  // ---------- receipts in the ledger ----------

  function Before(status: Status): set<Status> {
    match status
    case Written => {Claimed, Queued}
    case ResolvedSent => {Written}
    case ResolvedUnsent => {Claimed, Queued}
    case Blocked => {Claimed, Queued}
    case Uncertain => {Claimed, Queued, Written}
    case _ => {}
  }

  predicate Moves(ask: Ask, e: Entry, status: Status) {
    e.hash == ask.hash && e.turn == ask.turn && e.status in Before(status)
  }

  /** The first entry of this request and turn that may move to the status, if any. */
  function Noted(ask: Ask, entries: seq<Entry>, status: Status): seq<Entry> {
    if entries == [] then []
    else if Moves(ask, entries[0], status) then [entries[0].(status := status)] + entries[1..]
    else [entries[0]] + Noted(ask, entries[1..], status)
  }

  predicate Decided(ask: Ask, entries: seq<Entry>) {
    exists e | e in entries :: e.hash == ask.hash
  }

  /** The final gate of an acceptance: a running, unblocked phase, this exact turn, and a live claim to accept. */
  predicate Authorized(ask: Ask, authority: Authority, entries: seq<Entry>) {
    && authority.brain && !authority.stopped && authority.running && authority.accepted && authority.sameTurn && !authority.blocked
    && exists e | e in entries :: e.hash == ask.hash && e.decision == Accept && e.turn == ask.turn && e.status in {Claimed, Queued}
  }

  // ---------- judging a batch ----------

  datatype Verdict = Quiet | End(note: Option<Status>, answer: Answer)

  function IfDecided(taken: Option<Decision>, status: Status): Option<Status> {
    if taken.Some? then Some(status) else None
  }

  function JudgeRow(ask: Ask, row: Row, taken: Option<Decision>, sent: bool): Verdict {
    match row
    case Malformed => End(None, Raised)
    case Resolved(thread, request) =>
      if thread == ask.brain && request == ask.request
      then End(Some(if sent then ResolvedSent else ResolvedUnsent), if sent then AnswerResolved else Attention)
      else End(IfDecided(taken, Uncertain), Attention)
    case TurnEnd(thread, turn, status) =>
      if thread == ask.brain && turn == ask.turn
      then End(IfDecided(taken, if sent then Uncertain else ResolvedUnsent), TurnOver(status))
      else End(IfDecided(taken, Uncertain), Attention)
    case ServerRequest => End(IfDecided(taken, Uncertain), Attention)
    case Notice => Quiet
  }

  /** The rows up to and with the first that ends the wait. */
  function Reach(rows: seq<Row>): nat
    ensures Reach(rows) <= |rows|
  {
    if rows == [] then 0 else if rows[0].Notice? then 1 + Reach(rows[1..]) else 1
  }

  function Judge(ask: Ask, rows: seq<Row>, taken: Option<Decision>, sent: bool): Verdict {
    if rows == [] then Quiet
    else if rows[0].Notice? then Judge(ask, rows[1..], taken, sent)
    else JudgeRow(ask, rows[0], taken, sent)
  }

  predicate AllQuiet(rows: seq<Row>) {
    forall r | r in rows :: r.Notice?
  }

  // ---------- the actors ----------

  datatype Delivery = TxFails | Delivers | WriteLost | CommitLost

  datatype Act =
    | Shift(authority: Authority)
    | Tick(to: real)
    | OwnerClaim(d: Decision)
    | OwnerClick
    | OwnerSettle
    | ReaderRow(row: Row)
    | ReaderFails(connection: bool)
    | Shutdown
    | ObserverEnter
    | ObserverTake
    | ObserverJudge
    | ObserverDecide(delivery: Delivery)
    | ObserverNote(persists: bool)
    | ObserverElapse
    | ObserverClose

  function Claim(ask: Ask, w: Wait, d: Decision): Option<Wait> {
    if w.owner != Idle || d !in ask.allowed || (d == Accept && !ask.canAccept) then None
    else if !w.authority.brain || (d == Accept && (w.authority.stopped || !w.authority.running)) then None
    else if !w.authority.accepted || !w.authority.sameTurn || |w.entries| >= MOST_ENTRIES || Decided(ask, w.entries) then None
    else Some(w.(owner := Holding(d), entries := w.entries + [Entry(ask.hash, ask.turn, d, Claimed)]))
  }

  /** `confirm_approval`: one decision, on the request that is still pending. */
  function Click(ask: Ask, w: Wait): Option<Wait> {
    if !w.owner.Holding? then None
    else
      var d := w.owner.decision;
      if w.cancelled || w.decision.Some? || w.clock >= ask.expires || d !in ask.allowed || (d == Accept && !ask.canAccept)
      then Some(w.(owner := Clicked(false)))
      else Some(w.(owner := Clicked(true), decision := Some(d), event := true))
  }

  function Settle(ask: Ask, entries: seq<Entry>, outcome: Status): seq<Entry> {
    if entries == [] then []
    else [if entries[0].hash == ask.hash && entries[0].status == Claimed then entries[0].(status := outcome) else entries[0]]
         + Settle(ask, entries[1..], outcome)
  }

  function Read(w: Wait, row: Row): Option<Wait> {
    if !w.reading then None
    else if w.cancelled then Some(w.(reading := false))
    else if |w.rows| >= MOST_ROWS then Some(w.(readerError := true, reading := false, event := true))
    else Some(w.(rows := w.rows + [row], event := true, reading := !(row.Resolved? || row.TurnEnd? || row.ServerRequest?)))
  }

  /** Under the lock: the rows and the decision so far; waiting ends on an event or at the deadline. */
  function Take(w: Wait): Wait {
    w.(obs := w.obs.(pc := Judging(w.rows, w.readerError || w.cancelled), taken := w.decision), rows := [], event := false)
  }

  function Finish(o: Observer, note: Option<Status>, answer: Answer): Observer {
    if note.Some? then o.(pc := Noting(note.value, Some(answer))) else o.(pc := Closing(answer))
  }

  function JudgeBatch(ask: Ask, o: Observer, loss: bool): Observer
    requires o.pc.Judging?
  {
    if o.pc.error then
      Finish(o, IfDecided(o.taken, Uncertain), if loss then Lost else if o.sent then ResponseUncertain else Attention)
    else
      var v := o.(judged := o.judged + o.pc.rows[..Reach(o.pc.rows)]);
      match Judge(ask, o.pc.rows, o.taken, o.sent)
      case Quiet => v.(pc := Deciding)
      case End(note, answer) => Finish(v, note, answer)
  }

  function Respond(o: Observer, write: Write, delivered: bool): Observer {
    var v := o.(writes := o.writes + [write]);
    if delivered then v.(sent := true, pc := Noting(Written, None)) else v.(pc := Noting(Uncertain, Some(ResponseUncertain)))
  }

  function Decide(ask: Ask, o: Observer, late: bool, authority: Authority, entries: seq<Entry>, delivery: Delivery): Observer {
    if o.taken.None? || o.sent then o.(pc := Waiting)
    else if late then Finish(o, Some(Blocked), Attention)
    else
      var write := Write(o.taken.value, authority, entries, o.judged);
      if o.taken != Some(Accept) then Respond(o, write, delivery == Delivers)
      else if delivery == TxFails then Finish(o, Some(Uncertain), ResponseUncertain)
      else if !Authorized(ask, authority, entries) then Finish(o, Some(Blocked), Attention)
      else Respond(o, write, delivery == Delivers)
  }

  function AfterNote(o: Observer, kept: bool): Observer
    requires o.pc.Noting?
  {
    o.(pc := if o.pc.next.Some? then Closing(o.pc.next.value) else Waiting, notes := o.notes + [Attempt(o.pc.status, kept)])
  }

  function Elapse(o: Observer): Observer {
    Finish(o, IfDecided(o.taken, if o.sent then Uncertain else Blocked), if o.sent then ResponseUncertain else Attention)
  }

  predicate Kept(ask: Ask, w: Wait, persists: bool) {
    persists && w.authority.sameTurn && Decided(ask, w.entries)
  }

  function Note(ask: Ask, w: Wait, persists: bool): Wait
    requires w.obs.pc.Noting?
  {
    w.(entries := if persists && w.authority.sameTurn then Noted(ask, w.entries, w.obs.pc.status) else w.entries,
       obs := AfterNote(w.obs, Kept(ask, w, persists)))
  }

  /** The last thing the observer does, under the lock: the request leaves the table of pending ones. */
  function Close(w: Wait): Wait
    requires w.obs.pc.Closing?
  {
    w.(obs := w.obs.(pc := Ended(w.obs.pc.answer)), cancelled := true)
  }

  function Try(ask: Ask, w: Wait, act: Act): Option<Wait> {
    match act
    case Shift(authority) => Some(w.(authority := authority))
    case Tick(to) => if to >= w.clock then Some(w.(clock := to)) else None
    case OwnerClaim(d) => Claim(ask, w, d)
    case OwnerClick => Click(ask, w)
    case OwnerSettle => if w.owner.Clicked?
                        then Some(w.(owner := Settled, entries := Settle(ask, w.entries, if w.owner.queued then Queued else Uncertain)))
                        else None
    case ReaderRow(row) => Read(w, row)
    case ReaderFails(connection) => if w.reading then Some(w.(readerError := true, loss := w.loss || connection, reading := false, event := true)) else None
    case Shutdown => Some(w.(cancelled := true, event := true))
    case ObserverEnter => if w.obs.pc.Waiting? && w.clock < ask.expires then Some(w.(obs := w.obs.(pc := Polling))) else None
    case ObserverTake => if w.obs.pc.Polling? && (w.event || w.clock >= ask.expires) then Some(Take(w)) else None
    case ObserverJudge => if w.obs.pc.Judging? then Some(w.(obs := JudgeBatch(ask, w.obs, w.loss))) else None
    case ObserverDecide(delivery) => if w.obs.pc.Deciding?
                                     then Some(w.(obs := Decide(ask, w.obs, w.clock >= ask.expires, w.authority, w.entries, delivery)))
                                     else None
    case ObserverNote(persists) => if w.obs.pc.Noting? then Some(Note(ask, w, persists)) else None
    case ObserverElapse => if w.obs.pc.Waiting? && w.clock >= ask.expires then Some(w.(obs := Elapse(w.obs))) else None
    case ObserverClose => if w.obs.pc.Closing? then Some(Close(w)) else None
  }

  function Apply(ask: Ask, w: Wait, act: Act): Wait {
    var t := Try(ask, w, act);
    if t.Some? then t.value else w
  }

  function ApplyAll(ask: Ask, w: Wait, acts: seq<Act>): Wait {
    if acts == [] then w else Apply(ask, ApplyAll(ask, w, acts[..|acts| - 1]), acts[|acts| - 1])
  }

  /** The wait as `_offer_approval` begins it: nothing read, nothing decided, and a fresh request hash. */
  predicate Offered(ask: Ask, w: Wait) {
    && w.decision.None? && !w.cancelled && w.rows == [] && !w.readerError && !w.loss && w.reading && !w.event
    && w.obs == Observer(Waiting, None, false, [], [], [])
    && w.owner == Idle && !Decided(ask, w.entries)
  }

  // ---------- what every interleaving keeps ----------

  /** The last row judged is the native resolution of this request. */
  predicate OwnEnd(ask: Ask, o: Observer) {
    o.judged != [] && o.judged[|o.judged| - 1] == Resolved(ask.brain, ask.request)
  }

  /** The response went out, and the request was natively resolved. */
  predicate Confirmed(ask: Ask, o: Observer) {
    o.sent && OwnEnd(ask, o)
  }

  predicate Over(pc: Pc) {
    pc.Closing? || pc.Ended?
  }

  /** At most one write, carrying the decision the observer took, before anything ended the wait. */
  predicate WroteOnce(ask: Ask, o: Observer) {
    && |o.writes| <= 1
    && (o.sent ==> o.writes != [])
    && (o.writes != [] ==>
          && o.taken == Some(o.writes[0].decision) && AllQuiet(o.writes[0].before) && o.writes[0].before <= o.judged
          && (o.writes[0].decision == Accept ==> Authorized(ask, o.writes[0].authority, o.writes[0].entries)))
  }

  /** Where the observer stands and what it may still do. */
  predicate Placed(ask: Ask, o: Observer) {
    match o.pc
    case Ended(answer) => answer == AnswerResolved ==> Confirmed(ask, o)
    case Closing(answer) => answer == AnswerResolved ==> Confirmed(ask, o)
    case Noting(status, None) => status == Written && o.sent && AllQuiet(o.judged)
    case Noting(status, Some(answer)) =>
      && status in {ResolvedSent, ResolvedUnsent, Blocked, Uncertain}
      && (status in {Blocked, ResolvedUnsent} ==> o.writes == [])
      && (status == ResolvedSent || answer == AnswerResolved ==> Confirmed(ask, o))
    case _ => AllQuiet(o.judged) && (o.writes == [] || o.sent)
  }

  predicate Observing(ask: Ask, o: Observer, decision: Option<Decision>) {
    WroteOnce(ask, o) && Placed(ask, o) && (o.taken.Some? ==> o.taken == decision)
  }

  function OurEntries(ask: Ask, entries: seq<Entry>): seq<Entry> {
    if entries == [] then []
    else (if entries[0].hash == ask.hash then [entries[0]] else []) + OurEntries(ask, entries[1..])
  }

  /** The owner's side: one claim for this request at most, and a queued decision is the claimed one. */
  predicate Owning(ask: Ask, ours: seq<Entry>, owner: Owner, decision: Option<Decision>) {
    && |ours| <= 1
    && (owner == Idle ==> ours == [] && decision.None?)
    && (owner != Idle ==> |ours| == 1 && ours[0].turn == ask.turn)
    && (owner.Holding? ==> decision.None? && ours[0].decision == owner.decision)
    && (owner.Clicked? ==> (owner.queued <==> decision.Some?))
    && (decision.Some? ==> ours != [] && ours[0].decision == decision.value)
  }

  /** What the receipt of this request may say. */
  predicate Truthful(ask: Ask, ours: seq<Entry>, o: Observer) {
    ours != [] ==>
      && (ours[0].status in {Written, ResolvedSent} ==> o.sent)
      && (ours[0].status == ResolvedSent ==> Confirmed(ask, o) && Over(o.pc))
      && (ours[0].status in {Blocked, ResolvedUnsent} ==> o.writes == [] && Over(o.pc))
  }

  predicate Invariant(ask: Ask, w: Wait) {
    var ours := OurEntries(ask, w.entries);
    Observing(ask, w.obs, w.decision) && Owning(ask, ours, w.owner, w.decision) && Truthful(ask, ours, w.obs)
  }

  // ---------- lemmas about entries ----------

  lemma {:induction false} OursAppend(ask: Ask, entries: seq<Entry>, e: Entry)
    ensures OurEntries(ask, entries + [e]) == OurEntries(ask, entries) + if e.hash == ask.hash then [e] else []
  {
    if entries == [] {
      assert entries + [e] == [e];
      assert [e][1..] == [];
    } else {
      assert (entries + [e])[1..] == entries[1..] + [e];
      OursAppend(ask, entries[1..], e);
    }
  }

  lemma {:induction false} OursDecided(ask: Ask, entries: seq<Entry>)
    ensures Decided(ask, entries) <==> OurEntries(ask, entries) != []
    ensures forall e | e in OurEntries(ask, entries) :: e in entries && e.hash == ask.hash
    ensures forall e | e in entries && e.hash == ask.hash :: e in OurEntries(ask, entries)
  {
    if entries != [] {
      OursDecided(ask, entries[1..]);
      assert entries == [entries[0]] + entries[1..];
    }
  }

  /** Noting a receipt moves at most the one entry of this request. */
  lemma {:induction false} OursNoted(ask: Ask, entries: seq<Entry>, status: Status)
    requires |OurEntries(ask, entries)| <= 1
    requires OurEntries(ask, entries) != [] ==> OurEntries(ask, entries)[0].turn == ask.turn
    ensures var ours := OurEntries(ask, entries);
            OurEntries(ask, Noted(ask, entries, status))
            == if ours != [] && ours[0].status in Before(status) then [ours[0].(status := status)] else ours
  {
    if entries != [] {
      var n := Noted(ask, entries, status);
      if entries[0].hash == ask.hash {
        assert OurEntries(ask, entries[1..]) == [];
        OursNoted(ask, entries[1..], status);
      } else {
        OursNoted(ask, entries[1..], status);
      }
      assert n[1..] == entries[1..] || n[1..] == Noted(ask, entries[1..], status);
    }
  }

  lemma {:induction false} OursSettled(ask: Ask, entries: seq<Entry>, outcome: Status)
    requires |OurEntries(ask, entries)| <= 1
    ensures var ours := OurEntries(ask, entries);
            OurEntries(ask, Settle(ask, entries, outcome))
            == if ours != [] && ours[0].status == Claimed then [ours[0].(status := outcome)] else ours
  {
    if entries != [] {
      var n := Settle(ask, entries, outcome);
      assert n[1..] == Settle(ask, entries[1..], outcome);
      OursSettled(ask, entries[1..], outcome);
    }
  }

  // ---------- lemmas about judging ----------

  lemma {:induction false} JudgeReads(ask: Ask, rows: seq<Row>, taken: Option<Decision>, sent: bool)
    ensures Judge(ask, rows, taken, sent).Quiet? <==> AllQuiet(rows)
    ensures Judge(ask, rows, taken, sent).Quiet? ==> Reach(rows) == |rows|
    ensures Judge(ask, rows, taken, sent).End?
            ==> (&& Reach(rows) > 0 && !rows[Reach(rows) - 1].Notice?
                 && Judge(ask, rows, taken, sent) == JudgeRow(ask, rows[Reach(rows) - 1], taken, sent))
  {
    if rows != [] {
      assert rows == [rows[0]] + rows[1..];
      if rows[0].Notice? {
        JudgeReads(ask, rows[1..], taken, sent);
      }
    }
  }

  // ---------- each actor keeps it ----------

  lemma JudgeEndKeeps(ask: Ask, o: Observer, loss: bool, decision: Option<Decision>)
    requires Observing(ask, o, decision) && o.pc.Judging? && !o.pc.error && Judge(ask, o.pc.rows, o.taken, o.sent).End?
    ensures Observing(ask, JudgeBatch(ask, o, loss), decision) && JudgeBatch(ask, o, loss).sent == o.sent
  {
    var rows, v := o.pc.rows, JudgeBatch(ask, o, loss);
    JudgeReads(ask, rows, o.taken, o.sent);
    assert o.judged <= v.judged;
    assert v.judged[|v.judged| - 1] == rows[Reach(rows) - 1];
  }

  lemma JudgeKeeps(ask: Ask, o: Observer, loss: bool, decision: Option<Decision>)
    requires Observing(ask, o, decision) && o.pc.Judging?
    ensures Observing(ask, JudgeBatch(ask, o, loss), decision) && JudgeBatch(ask, o, loss).sent == o.sent
  {
    if !o.pc.error {
      if Judge(ask, o.pc.rows, o.taken, o.sent).End? {
        JudgeEndKeeps(ask, o, loss, decision);
      } else {
        JudgeReads(ask, o.pc.rows, o.taken, o.sent);
        assert o.pc.rows[..Reach(o.pc.rows)] == o.pc.rows;
        assert o.judged <= JudgeBatch(ask, o, loss).judged;
      }
    }
  }

  lemma DecideKeeps(ask: Ask, o: Observer, late: bool, authority: Authority, entries: seq<Entry>, delivery: Delivery, decision: Option<Decision>)
    requires Observing(ask, o, decision) && o.pc.Deciding?
    ensures var v := Decide(ask, o, late, authority, entries, delivery);
            Observing(ask, v, decision) && (o.sent ==> v.sent)
  {
  }

  lemma ElapseKeeps(ask: Ask, o: Observer, decision: Option<Decision>)
    requires Observing(ask, o, decision) && o.pc.Waiting?
    ensures Observing(ask, Elapse(o), decision) && Elapse(o).sent == o.sent
  {
  }

  /** What a final receipt says stays so while the observer goes on. */
  lemma StaysTruthful(ask: Ask, ours: seq<Entry>, o: Observer, v: Observer)
    requires Truthful(ask, ours, o) && !Over(o.pc) && (o.sent ==> v.sent)
    ensures Truthful(ask, ours, v)
  {
  }

  lemma AfterNoteObserves(ask: Ask, o: Observer, kept: bool, decision: Option<Decision>)
    requires Observing(ask, o, decision) && o.pc.Noting?
    ensures Observing(ask, AfterNote(o, kept), decision)
  {
  }

  lemma NoteIsTruthful(ask: Ask, e: Entry, o: Observer, kept: bool)
    requires Placed(ask, o) && o.pc.Noting? && e.status in Before(o.pc.status)
    ensures Truthful(ask, [e.(status := o.pc.status)], AfterNote(o, kept))
  {
  }

  /** What a note leaves: the receipt moved if it may, and the observer one place further. */
  lemma NoteLeaves(ask: Ask, w: Wait, persists: bool)
    requires |OurEntries(ask, w.entries)| <= 1 && w.obs.pc.Noting?
    requires OurEntries(ask, w.entries) != [] ==> OurEntries(ask, w.entries)[0].turn == ask.turn
    ensures var ours, v, kept := OurEntries(ask, w.entries), Note(ask, w, persists), Kept(ask, w, persists);
            && v == w.(entries := v.entries, obs := AfterNote(w.obs, kept))
            && (kept ==> ours != [])
            && OurEntries(ask, v.entries)
               == if kept && ours[0].status in Before(w.obs.pc.status) then [ours[0].(status := w.obs.pc.status)] else ours
  {
    OursNoted(ask, w.entries, w.obs.pc.status);
    OursDecided(ask, w.entries);
  }

  lemma NoteKeeps(ask: Ask, w: Wait, persists: bool)
    requires Invariant(ask, w) && w.obs.pc.Noting?
    ensures Invariant(ask, Note(ask, w, persists))
  {
    var ours, kept := OurEntries(ask, w.entries), Kept(ask, w, persists);
    NoteLeaves(ask, w, persists);
    NoteKeepsParts(ask, ours, w.obs, kept, w.owner, w.decision);
  }

  lemma NoteKeepsParts(ask: Ask, ours: seq<Entry>, o: Observer, kept: bool, owner: Owner, decision: Option<Decision>)
    requires Observing(ask, o, decision) && Owning(ask, ours, owner, decision) && Truthful(ask, ours, o) && o.pc.Noting?
    requires kept ==> ours != []
    ensures var after := if kept && ours[0].status in Before(o.pc.status) then [ours[0].(status := o.pc.status)] else ours;
            && Observing(ask, AfterNote(o, kept), decision) && Owning(ask, after, owner, decision)
            && Truthful(ask, after, AfterNote(o, kept))
  {
    AfterNoteObserves(ask, o, kept, decision);
    StaysTruthful(ask, ours, o, AfterNote(o, kept));
    if kept && ours[0].status in Before(o.pc.status) {
      NoteIsTruthful(ask, ours[0], o, kept);
    }
  }

  lemma ClaimKeeps(ask: Ask, w: Wait, d: Decision)
    requires Invariant(ask, w) && Claim(ask, w, d).Some?
    ensures Invariant(ask, Claim(ask, w, d).value)
  {
    OursAppend(ask, w.entries, Entry(ask.hash, ask.turn, d, Claimed));
    OursDecided(ask, w.entries);
  }

  lemma ClickKeeps(ask: Ask, w: Wait)
    requires Invariant(ask, w) && Click(ask, w).Some?
    ensures Invariant(ask, Click(ask, w).value)
  {
  }

  lemma OwnerKeeps(ask: Ask, w: Wait, act: Act)
    requires Invariant(ask, w) && (act.OwnerClaim? || act.OwnerSettle? || act.OwnerClick?) && Try(ask, w, act).Some?
    ensures Invariant(ask, Apply(ask, w, act))
  {
    match act {
      case OwnerClaim(d) => ClaimKeeps(ask, w, d);
      case OwnerClick => ClickKeeps(ask, w);
      case OwnerSettle => OursSettled(ask, w.entries, if w.owner.queued then Queued else Uncertain);
    }
  }

  lemma ObserverKeeps(ask: Ask, w: Wait, act: Act)
    requires Invariant(ask, w) && (act.ObserverEnter? || act.ObserverTake? || act.ObserverJudge? || act.ObserverDecide? || act.ObserverElapse?)
    requires Try(ask, w, act).Some?
    ensures Invariant(ask, Apply(ask, w, act))
  {
    match act {
      case ObserverJudge => JudgeKeeps(ask, w.obs, w.loss, w.decision);
      case ObserverDecide(delivery) =>
        DecideKeeps(ask, w.obs, w.clock >= ask.expires, w.authority, w.entries, delivery, w.decision);
      case ObserverElapse => ElapseKeeps(ask, w.obs, w.decision);
      case ObserverTake => assert Observing(ask, Apply(ask, w, act).obs, w.decision);
      case ObserverEnter => assert Observing(ask, Apply(ask, w, act).obs, w.decision);
    }
    StaysTruthful(ask, OurEntries(ask, w.entries), w.obs, Apply(ask, w, act).obs);
  }

  lemma CloseKeeps(ask: Ask, w: Wait)
    requires Invariant(ask, w) && w.obs.pc.Closing?
    ensures Invariant(ask, Close(w))
  {
    assert Observing(ask, Close(w).obs, w.decision);
  }

  lemma ApplyKeeps(ask: Ask, w: Wait, act: Act)
    requires Invariant(ask, w)
    ensures Invariant(ask, Apply(ask, w, act))
  {
    if Try(ask, w, act).Some? {
      if act.OwnerClaim? || act.OwnerSettle? || act.OwnerClick? {
        OwnerKeeps(ask, w, act);
      } else if act.ObserverEnter? || act.ObserverTake? || act.ObserverJudge? || act.ObserverDecide? || act.ObserverElapse? {
        ObserverKeeps(ask, w, act);
      } else if act.ObserverNote? {
        NoteKeeps(ask, w, act.persists);
      } else if act.ObserverClose? {
        CloseKeeps(ask, w);
      }
    }
  }

  lemma {:induction false} EveryInterleavingKeeps(ask: Ask, w: Wait, acts: seq<Act>)
    requires Offered(ask, w) || Invariant(ask, w)
    ensures Invariant(ask, ApplyAll(ask, w, acts))
  {
    if acts == [] {
      OursDecided(ask, w.entries);
    } else {
      EveryInterleavingKeeps(ask, w, acts[..|acts| - 1]);
      ApplyKeeps(ask, ApplyAll(ask, w, acts[..|acts| - 1]), acts[|acts| - 1]);
    }
  }

  // ---------- the protocol's promises ----------

  lemma AcceptsLive(ask: Ask, o: Observer, x: Write)
    requires WroteOnce(ask, o) && x in o.writes && x.decision == Accept
    ensures x.authority == Authority(brain := true, stopped := false, running := true, blocked := false, accepted := true, sameTurn := true)
    ensures exists e | e in x.entries ::
              e.hash == ask.hash && e.turn == ask.turn && e.decision == Accept && e.status in {Claimed, Queued}
  {
  }

  /** Under every interleaving: at most one response is attempted, it carries the one decision the owner claimed, no row
      judged before it ended the request, and an acceptance went out only while the ledger said all of this: the phase is
      this brain's, running, neither stopped nor blocked, the message was accepted for this very turn, and a live claim
      accepts this very request. */
  lemma OneResponse(ask: Ask, w: Wait, acts: seq<Act>)
    requires Offered(ask, w)
    ensures var v := ApplyAll(ask, w, acts);
            && |v.obs.writes| <= 1
            && (v.obs.writes != [] ==>
                  && v.decision == Some(v.obs.writes[0].decision)
                  && (exists e | e in v.entries :: e.hash == ask.hash && e.turn == ask.turn && e.decision == v.obs.writes[0].decision)
                  && AllQuiet(v.obs.writes[0].before)
                  && (v.obs.writes[0].decision == Accept ==>
                        && v.obs.writes[0].authority
                           == Authority(brain := true, stopped := false, running := true, blocked := false, accepted := true, sameTurn := true)
                        && exists e | e in v.obs.writes[0].entries ::
                             e.hash == ask.hash && e.turn == ask.turn && e.decision == Accept && e.status in {Claimed, Queued}))
  {
    EveryInterleavingKeeps(ask, w, acts);
    var v := ApplyAll(ask, w, acts);
    if v.obs.writes != [] && v.obs.writes[0].decision == Accept { AcceptsLive(ask, v.obs, v.obs.writes[0]); }
    OursDecided(ask, v.entries);
    if v.obs.writes != [] {
      var e := OurEntries(ask, v.entries)[0];
      assert e in OurEntries(ask, v.entries);
    }
  }

  /** The converse, at the moment of decision: an acceptance that was taken is attempted if and only if it is timely, the
      ledger's transaction goes through, and the ledger says all of that right then; what is attempted is this acceptance,
      recorded with what the ledger said. Otherwise nothing is written, and the wait closes as blocked, or as uncertain
      where the transaction failed. A refusal needs only to be timely. */
  lemma ResponseExactly(ask: Ask, w: Wait, acts: seq<Act>, delivery: Delivery)
    requires Offered(ask, w)
    requires var v := ApplyAll(ask, w, acts); v.obs.pc == Deciding && v.obs.taken.Some? && !v.obs.sent
    ensures var v := ApplyAll(ask, w, acts);
            var b, d := Apply(ask, v, ObserverDecide(delivery)), v.obs.taken.value;
            var timely := v.clock < ask.expires;
            var live := && v.authority == Authority(brain := true, stopped := false, running := true, blocked := false, accepted := true, sameTurn := true)
                        && exists e | e in v.entries ::
                             e.hash == ask.hash && e.turn == ask.turn && e.decision == Accept && e.status in {Claimed, Queued};
            && v.obs.writes == []
            && b == v.(obs := b.obs)
            && (b.obs.writes != [] <==> timely && (d == Accept ==> delivery != TxFails && live))
            && (b.obs.writes != [] ==>
                  && b.obs.writes == [Write(d, v.authority, v.entries, v.obs.judged)]
                  && b.obs.sent == (delivery == Delivers)
                  && b.obs.pc == if delivery == Delivers then Noting(Written, None) else Noting(Uncertain, Some(ResponseUncertain)))
            && (b.obs.writes == [] ==>
                  && !b.obs.sent
                  && b.obs.pc == if timely && delivery == TxFails then Noting(Uncertain, Some(ResponseUncertain))
                                 else Noting(Blocked, Some(Attention)))
  {
    EveryInterleavingKeeps(ask, w, acts);
  }

  /** Once a judged batch holds a resolution, an end of turn or another request, no response is ever attempted again. */
  lemma NothingAfterTheEnd(ask: Ask, w: Wait, acts: seq<Act>, more: seq<Act>)
    requires Offered(ask, w) && !AllQuiet(ApplyAll(ask, w, acts).obs.judged)
    ensures ApplyAll(ask, ApplyAll(ask, w, acts), more).obs.writes == ApplyAll(ask, w, acts).obs.writes
  {
    EveryInterleavingKeeps(ask, w, acts);
    NoMoreWrites(ask, ApplyAll(ask, w, acts), more);
  }

  lemma {:induction false} NoMoreWrites(ask: Ask, w: Wait, acts: seq<Act>)
    requires Invariant(ask, w) && !AllQuiet(w.obs.judged)
    ensures ApplyAll(ask, w, acts).obs.writes == w.obs.writes && !AllQuiet(ApplyAll(ask, w, acts).obs.judged)
  {
    if acts != [] {
      NoMoreWrites(ask, w, acts[..|acts| - 1]);
      EveryInterleavingKeeps(ask, w, acts[..|acts| - 1]);
      EndStays(ask, ApplyAll(ask, w, acts[..|acts| - 1]), acts[|acts| - 1]);
    }
  }

  lemma EndStays(ask: Ask, w: Wait, act: Act)
    requires Invariant(ask, w) && !AllQuiet(w.obs.judged)
    ensures Apply(ask, w, act).obs.writes == w.obs.writes && Apply(ask, w, act).obs.judged == w.obs.judged
  {
    Returning(ask, w.obs);
    if act.ObserverNote? {
      if w.obs.pc.Noting? { assert Note(ask, w, act.persists).obs == AfterNote(w.obs, Kept(ask, w, act.persists)); }
    } else if !act.ObserverClose? {
      OthersLeaveObserver(ask, w, act);
    }
  }

  lemma Returning(ask: Ask, o: Observer)
    requires Placed(ask, o) && !AllQuiet(o.judged)
    ensures o.pc.Noting? || Over(o.pc)
  {
  }

  lemma OthersLeaveObserver(ask: Ask, w: Wait, act: Act)
    requires (w.obs.pc.Noting? || Over(w.obs.pc)) && !act.ObserverNote? && !act.ObserverClose?
    ensures Apply(ask, w, act).obs == w.obs
  {
  }

  /** "Resolved" is answered, and its receipt kept, only after a delivered response and a native resolution of exactly
      this request; a receipt that says blocked or resolved without a response means nothing was ever written. */
  lemma AnswersAreTrue(ask: Ask, w: Wait, acts: seq<Act>, e: Entry)
    requires Offered(ask, w)
    ensures var v := ApplyAll(ask, w, acts);
            && (v.obs.pc == Ended(AnswerResolved) ==> Confirmed(ask, v.obs) && |v.obs.writes| == 1)
            && (e in v.entries && e.hash == ask.hash ==>
                  && (e.status in {Written, ResolvedSent} ==> v.obs.sent && |v.obs.writes| == 1)
                  && (e.status == ResolvedSent ==> Confirmed(ask, v.obs))
                  && (e.status in {Blocked, ResolvedUnsent} ==> v.obs.writes == []))
  {
    EveryInterleavingKeeps(ask, w, acts);
    if e in ApplyAll(ask, w, acts).entries && e.hash == ask.hash {
      OursDecided(ask, ApplyAll(ask, w, acts).entries);
      ReceiptIsTrue(ask, ApplyAll(ask, w, acts), e);
    }
  }

  lemma ReceiptIsTrue(ask: Ask, w: Wait, e: Entry)
    requires Invariant(ask, w) && e in OurEntries(ask, w.entries)
    ensures e.status in {Written, ResolvedSent} ==> w.obs.sent && |w.obs.writes| == 1
    ensures e.status == ResolvedSent ==> Confirmed(ask, w.obs)
    ensures e.status in {Blocked, ResolvedUnsent} ==> w.obs.writes == []
  {
  }

  // ---------- receipts only move forward ----------

  predicate Final(status: Status) {
    status in {ResolvedSent, ResolvedUnsent, Blocked, Uncertain}
  }

  predicate Forward(a: Status, b: Status) {
    a == b || (a == Claimed && b != Claimed) || (a == Queued && b !in {Claimed, Queued}) || (a == Written && b in {ResolvedSent, Uncertain})
  }

  predicate EntriesForward(a: seq<Entry>, b: seq<Entry>) {
    && |a| <= |b|
    && forall i | 0 <= i < |a| :: b[i] == a[i].(status := b[i].status) && Forward(a[i].status, b[i].status)
  }

  lemma {:induction false} NotedForward(ask: Ask, entries: seq<Entry>, status: Status)
    ensures EntriesForward(entries, Noted(ask, entries, status)) && |Noted(ask, entries, status)| == |entries|
  {
    if entries != [] {
      NotedForward(ask, entries[1..], status);
      assert entries == [entries[0]] + entries[1..];
    }
  }

  lemma {:induction false} SettleForward(ask: Ask, entries: seq<Entry>, outcome: Status)
    requires outcome in {Queued, Uncertain}
    ensures EntriesForward(entries, Settle(ask, entries, outcome)) && |Settle(ask, entries, outcome)| == |entries|
  {
    if entries != [] {
      SettleForward(ask, entries[1..], outcome);
      assert entries == [entries[0]] + entries[1..];
    }
  }

  /** No step rewrites a claim or takes a receipt back, and the four final receipts never change. */
  lemma {:induction false} ReceiptsMoveForward(ask: Ask, w: Wait, acts: seq<Act>)
    ensures EntriesForward(w.entries, ApplyAll(ask, w, acts).entries)
    ensures forall i | 0 <= i < |w.entries| && Final(w.entries[i].status) :: ApplyAll(ask, w, acts).entries[i] == w.entries[i]
  {
    if acts != [] {
      ReceiptsMoveForward(ask, w, acts[..|acts| - 1]);
      var v := ApplyAll(ask, w, acts[..|acts| - 1]);
      StepForward(ask, v, acts[|acts| - 1]);
    }
  }

  lemma StepForward(ask: Ask, w: Wait, act: Act)
    ensures EntriesForward(w.entries, Apply(ask, w, act).entries)
  {
    if act.ObserverNote? && w.obs.pc.Noting? {
      NotedForward(ask, w.entries, w.obs.pc.status);
    } else if act.OwnerSettle? && w.owner.Clicked? {
      SettleForward(ask, w.entries, if w.owner.queued then Queued else Uncertain);
    } else if !act.OwnerClaim? {
      EntriesStay(ask, w, act);
    }
  }

  lemma ObserverLeavesEntries(ask: Ask, w: Wait, act: Act)
    requires act.ObserverEnter? || act.ObserverTake? || act.ObserverJudge? || act.ObserverDecide? || act.ObserverElapse? || act.ObserverClose?
    ensures Apply(ask, w, act).entries == w.entries
  {
  }

  lemma EntriesStay(ask: Ask, w: Wait, act: Act)
    requires !act.OwnerClaim? && !(act.ObserverNote? && w.obs.pc.Noting?) && !(act.OwnerSettle? && w.owner.Clicked?)
    ensures Apply(ask, w, act).entries == w.entries
  {
    if act.ObserverEnter? || act.ObserverTake? || act.ObserverJudge? || act.ObserverDecide? || act.ObserverElapse? || act.ObserverClose? {
      ObserverLeavesEntries(ask, w, act);
    }
  }

  /** One look that finds a notice and no decision brings the observer back to its deadline check. */
  lemma OneLook(ask: Ask, w: Wait)
    requires Offered(ask, w) && w.clock < ask.expires
    ensures var looked := Apply(ask, Apply(ask, Apply(ask, w, ReaderRow(Notice)), ObserverEnter), ObserverTake);
            Apply(ask, Apply(ask, looked, ObserverJudge), ObserverDecide(Delivers)) == w.(obs := w.obs.(judged := [Notice]))
  {
    LookTaken(ask, w);
    var taken := w.(event := false, obs := w.obs.(pc := Judging([Notice], false)));
    NoticeJudged(ask, taken.obs, w.loss);
    var judged := taken.(obs := w.obs.(pc := Deciding, judged := [Notice]));
    assert Apply(ask, taken, ObserverJudge) == judged;
    assert Decide(ask, judged.obs, false, w.authority, w.entries, Delivers) == w.obs.(judged := [Notice]);
  }

  lemma LookTaken(ask: Ask, w: Wait)
    requires Offered(ask, w) && w.clock < ask.expires
    ensures Apply(ask, Apply(ask, Apply(ask, w, ReaderRow(Notice)), ObserverEnter), ObserverTake)
            == w.(event := false, obs := w.obs.(pc := Judging([Notice], false)))
  {
    var read := w.(rows := [Notice], event := true);
    assert Apply(ask, w, ReaderRow(Notice)) == read by { assert [] + [Notice] == [Notice]; }
    assert Apply(ask, read, ObserverEnter) == read.(obs := w.obs.(pc := Polling));
  }

  lemma NoticeJudged(ask: Ask, o: Observer, loss: bool)
    requires o == Observer(Judging([Notice], false), None, false, [], [], [])
    ensures JudgeBatch(ask, o, loss) == Observer(Deciding, None, false, [Notice], [], [])
  {
    JudgeReads(ask, [Notice], None, false);
    assert AllQuiet([Notice]);
    assert [Notice][..1] == [Notice] && [] + [Notice] == [Notice];
  }

  /** Not every queued click gets a receipt: one that lands after the observer's last look and before its next deadline
      check stays queued for good, with nothing written. */
  lemma LateClickStaysQueued(ask: Ask, w: Wait)
    requires Offered(ask, w) && Decline in ask.allowed && w.clock < ask.expires && |w.entries| < MOST_ENTRIES
    requires w.authority == Authority(true, false, true, false, true, true)
    ensures var looked := Apply(ask, Apply(ask, Apply(ask, w, ReaderRow(Notice)), ObserverEnter), ObserverTake);
            var judged := Apply(ask, Apply(ask, looked, ObserverJudge), ObserverDecide(Delivers));
            var clicked := Apply(ask, Apply(ask, Apply(ask, judged, OwnerClaim(Decline)), OwnerClick), OwnerSettle);
            var v := Apply(ask, Apply(ask, Apply(ask, clicked, Tick(ask.expires)), ObserverElapse), ObserverClose);
            && v.obs.pc == Ended(Attention) && v.obs.writes == [] && v.decision == Some(Decline)
            && OurEntries(ask, v.entries) == [Entry(ask.hash, ask.turn, Decline, Queued)]
  {
    OneLook(ask, w);
    ClickAfterLook(ask, w.(obs := w.obs.(judged := [Notice])));
  }

  lemma ClickAfterLook(ask: Ask, w: Wait)
    requires w.obs == Observer(Waiting, None, false, [Notice], [], []) && w.owner == Idle && w.decision.None? && !w.cancelled
    requires Decline in ask.allowed && w.clock < ask.expires && |w.entries| < MOST_ENTRIES && !Decided(ask, w.entries)
    requires w.authority == Authority(true, false, true, false, true, true)
    ensures var clicked := Apply(ask, Apply(ask, Apply(ask, w, OwnerClaim(Decline)), OwnerClick), OwnerSettle);
            var v := Apply(ask, Apply(ask, Apply(ask, clicked, Tick(ask.expires)), ObserverElapse), ObserverClose);
            && v.obs.pc == Ended(Attention) && v.obs.writes == [] && v.decision == Some(Decline)
            && OurEntries(ask, v.entries) == [Entry(ask.hash, ask.turn, Decline, Queued)]
  {
    ClickSettles(ask, w);
    var settled := Apply(ask, Apply(ask, Apply(ask, w, OwnerClaim(Decline)), OwnerClick), OwnerSettle);
    var late := settled.(clock := ask.expires);
    assert Apply(ask, settled, Tick(ask.expires)) == late;
    assert Apply(ask, late, ObserverElapse) == late.(obs := late.obs.(pc := Closing(Attention)));
  }

  lemma ClickSettles(ask: Ask, w: Wait)
    requires w.owner == Idle && w.decision.None? && !w.cancelled
    requires Decline in ask.allowed && w.clock < ask.expires && |w.entries| < MOST_ENTRIES && !Decided(ask, w.entries)
    requires w.authority == Authority(true, false, true, false, true, true)
    ensures var v := Apply(ask, Apply(ask, Apply(ask, w, OwnerClaim(Decline)), OwnerClick), OwnerSettle);
            && v == w.(owner := Settled, decision := Some(Decline), event := true, entries := v.entries)
            && OurEntries(ask, v.entries) == [Entry(ask.hash, ask.turn, Decline, Queued)]
  {
    var e := Entry(ask.hash, ask.turn, Decline, Claimed);
    assert OurEntries(ask, Settle(ask, w.entries + [e], Queued)) == [e.(status := Queued)] by {
      OursDecided(ask, w.entries);
      OursAppend(ask, w.entries, e);
      OursSettled(ask, w.entries + [e], Queued);
    }
    var claimed := w.(owner := Holding(Decline), entries := w.entries + [e]);
    assert Apply(ask, w, OwnerClaim(Decline)) == claimed;
    var clicked := claimed.(owner := Clicked(true), decision := Some(Decline), event := true);
    assert Apply(ask, claimed, OwnerClick) == clicked;
  }

  // ---------- the shared request as it is kept ----------

  class PendingApproval {
    const ask: Ask
    var wait: Wait

    constructor (ask: Ask, wait: Wait)
      ensures this.ask == ask && this.wait == wait
    {
      this.ask, this.wait := ask, wait;
    }

    method ConfirmApproval(d: Decision) returns (queued: bool)
      requires wait.owner == Holding(d)
      modifies this`wait
      ensures Click(ask, old(wait)) == Some(wait) && queued == (wait.owner == Clicked(true))
    {
      if wait.cancelled || wait.decision.Some? || wait.clock >= ask.expires || d !in ask.allowed || (d == Accept && !ask.canAccept) {
        wait := wait.(owner := Clicked(false));
        return false;
      }
      wait := wait.(decision := Some(d));
      wait := wait.(event := true);
      wait := wait.(owner := Clicked(true));
      queued := true;
    }

    method ReadLine(row: Row)
      requires wait.reading
      modifies this`wait
      ensures Read(old(wait), row) == Some(wait)
    {
      if wait.cancelled {
        wait := wait.(reading := false);
      } else if |wait.rows| >= MOST_ROWS {
        wait := wait.(readerError := true);
        wait := wait.(event := true);
        wait := wait.(reading := false);
      } else {
        wait := wait.(rows := wait.rows + [row]);
        wait := wait.(event := true);
        if row.Resolved? || row.TurnEnd? || row.ServerRequest? {
          wait := wait.(reading := false);
        }
      }
    }

    /** One pass over the batch, in order, before any response is considered. */
    method JudgeRows() returns (ended: bool)
      requires wait.obs.pc.Judging? && !wait.obs.pc.error
      modifies this`wait
      ensures wait == old(wait).(obs := JudgeBatch(ask, old(wait).obs, old(wait).loss)) && ended == !wait.obs.pc.Deciding?
    {
      var o := wait.obs;
      var rows, k := o.pc.rows, 0;
      while k < |rows| && rows[k].Notice?
        invariant 0 <= k <= |rows|
        invariant Judge(ask, rows, o.taken, o.sent) == Judge(ask, rows[k..], o.taken, o.sent)
        invariant Reach(rows) == k + Reach(rows[k..])
      {
        assert rows[k..][1..] == rows[k + 1..];
        k := k + 1;
      }
      if k < |rows| {
        var verdict := JudgeRow(ask, rows[k], o.taken, o.sent);
        o := Finish(o.(judged := o.judged + rows[..k + 1]), verdict.note, verdict.answer);
      } else {
        assert rows[k..] == [] && rows[..k] == rows;
        o := o.(judged := o.judged + rows, pc := Deciding);
      }
      wait := wait.(obs := o);
      ended := !o.pc.Deciding?;
    }

    method RecordStatus(persists: bool)
      requires wait.obs.pc.Noting?
      modifies this`wait
      ensures wait == Note(ask, old(wait), persists)
    {
      var status := wait.obs.pc.status;
      var kept := Kept(ask, wait, persists);
      if persists && wait.authority.sameTurn {
        var entries := NoteEntry(ask, wait.entries, status);
        wait := wait.(entries := entries);
      }
      wait := wait.(obs := AfterNote(wait.obs, kept));
    }
  }

  lemma {:induction false} NotedFirst(ask: Ask, entries: seq<Entry>, status: Status, k: nat)
    requires k <= |entries| && forall i | 0 <= i < k :: !Moves(ask, entries[i], status)
    requires k < |entries| ==> Moves(ask, entries[k], status)
    ensures Noted(ask, entries, status) == if k < |entries| then entries[k := entries[k].(status := status)] else entries
  {
    if k > 0 {
      NotedFirst(ask, entries[1..], status, k - 1);
    }
  }

  /** The loop over the entries: the first that may move is rewritten, and the loop returns. */
  method NoteEntry(ask: Ask, entries: seq<Entry>, status: Status) returns (noted: seq<Entry>)
    ensures noted == Noted(ask, entries, status)
  {
    var k := 0;
    while k < |entries|
      invariant 0 <= k <= |entries|
      invariant forall i | 0 <= i < k :: !Moves(ask, entries[i], status)
    {
      if Moves(ask, entries[k], status) {
        NotedFirst(ask, entries, status, k);
        return entries[k := entries[k].(status := status)];
      }
      k := k + 1;
    }
    NotedFirst(ask, entries, status, k);
    noted := entries;
  }
}
