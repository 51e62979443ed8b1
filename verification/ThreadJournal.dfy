/** The journal of native threads seen while one message is delivered: a bounded tree of identifiers rooted at the
    brain, which is opened before the native effect, grows by notification, and is closed once. */
module ThreadJournals {
  import opened Sums

  datatype Relation = Parent | Fork
  datatype Event = Event(thread: string, parent: string, relation: Relation, ephemeral: Option<bool>, at: real)
  datatype Stream = Open | Closed | Unconfirmed
  datatype Gap = NotExhaustive | Conflict | LimitReached | EndedUnconfirmed | PersistFailed
  datatype Observation = Observation(root: string, stream: Stream, complete: bool, gaps: seq<Gap>, events: seq<Event>, turn: Option<string>)

  datatype Delivery = Sending | Accepted | Other
  /** The notification fields of one command. */
  datatype Note = Note(brain: string, delivery: Delivery, observation: Option<Observation>)

  /** A `thread/started` row: each identifier may be absent or malformed. */
  datatype Started = Started(thread: Option<string>, parent: Option<string>, fork: Option<string>, ephemeral: Option<bool>)

  const MOST_EVENTS := 128

  // ---------- identifiers ----------

  predicate Hex(c: char) {
    '0' <= c <= '9' || 'a' <= c <= 'f'
  }

  predicate IsUuid(s: string) {
    && |s| == 36
    && forall i | 0 <= i < 36 :: if i == 8 || i == 13 || i == 18 || i == 23 then s[i] == '-' else Hex(s[i])
  }

  predicate Named(id: Option<string>) {
    id.Some? && IsUuid(id.value)
  }

  /** The thread a new one hangs from: its parent, or what it was forked from when no parent is given. */
  function Source(row: Started): Option<string> {
    if Named(row.parent) then row.parent else if Named(row.fork) then row.fork else None
  }

  function EventOf(row: Started, source: string, at: real): Event
    requires row.thread.Some?
  {
    Event(row.thread.value, source, if row.parent == Some(source) then Parent else Fork, row.ephemeral, at)
  }

  // ---------- the steps ----------

  function Index(events: seq<Event>, thread: string): (i: nat)
    ensures i <= |events|
    ensures i < |events| ==> events[i].thread == thread
    ensures forall j | 0 <= j < i :: events[j].thread != thread
  {
    if events == [] then 0 else if events[0].thread == thread then 0 else 1 + Index(events[1..], thread)
  }

  predicate Recorded(events: seq<Event>, thread: string) {
    Index(events, thread) < |events|
  }

  predicate Agrees(e: Event, f: Event) {
    e.parent == f.parent && e.relation == f.relation && e.ephemeral == f.ephemeral
  }

  function Missing(o: Observation, gap: Gap): Observation {
    if gap in o.gaps then o else o.(gaps := o.gaps + [gap])
  }

  predicate Listening(n: Note, brain: string) {
    && n.brain == brain && n.delivery in {Sending, Accepted}
    && n.observation.Some? && n.observation.value.root == brain && n.observation.value.stream == Open
  }

  function Begin(n: Note, brain: string): Option<Note> {
    if n.brain != brain || n.delivery != Sending || n.observation.Some? then None
    else Some(n.(observation := Some(Observation(brain, Open, false, [NotExhaustive], [], None))))
  }

  /** None: the row is refused with an error; an ignored row leaves the note as it was. */
  function Start(n: Note, brain: string, row: Started, at: real): Option<Note> {
    if row.thread == Some(brain) || !Named(row.thread) || Source(row).None? then Some(n)
    else if !Listening(n, brain) then None
    else
      var o := n.observation.value;
      var source := Source(row).value;
      if source != brain && !Recorded(o.events, source) then Some(n)
      else
        var e := EventOf(row, source, at);
        var i := Index(o.events, e.thread);
        if i < |o.events| then (if Agrees(o.events[i], e) then Some(n) else Some(n.(observation := Some(Missing(o, Conflict)))))
        else if |o.events| >= MOST_EVENTS then Some(n.(observation := Some(Missing(o, LimitReached))))
        else Some(n.(observation := Some(o.(events := o.events + [e]))))
  }

  function Finish(n: Note, brain: string, turn: string, confirmed: bool, eventError: bool): Note {
    if n.brain != brain || n.observation.None? || n.observation.value.root != brain || n.observation.value.stream != Open then n
    else
      var o := n.observation.value;
      n.(observation := Some(o.(stream := if confirmed then Closed else Unconfirmed, turn := Some(turn),
                                gaps := o.gaps + (if confirmed then [] else [EndedUnconfirmed]) + if eventError then [PersistFailed] else [])))
  }

  datatype Op = OpBegin | OpStart(row: Started, at: real) | OpFinish(turn: string, confirmed: bool, eventError: bool) | OpDeliver(delivery: Delivery)

  function Apply(n: Note, brain: string, op: Op): Note {
    match op
    case OpBegin => var t := Begin(n, brain); if t.Some? then t.value else n
    case OpStart(row, at) => var t := Start(n, brain, row, at); if t.Some? then t.value else n
    case OpFinish(turn, confirmed, eventError) => Finish(n, brain, turn, confirmed, eventError)
    case OpDeliver(delivery) => n.(delivery := delivery)
  }

  function ApplyAll(n: Note, brain: string, ops: seq<Op>): Note {
    if ops == [] then n else Apply(ApplyAll(n, brain, ops[..|ops| - 1]), brain, ops[|ops| - 1])
  }

  // ---------- a rooted tree ----------

  predicate Hangs(events: seq<Event>, brain: string, i: nat)
    requires i < |events|
  {
    && events[i].thread != brain && IsUuid(events[i].thread)
    && Index(events, events[i].thread) == i
    && (events[i].parent == brain || Index(events, events[i].parent) < i)
  }

  /** No thread is recorded twice or is the brain, and each hangs from the brain or from an earlier entry. */
  predicate Rooted(events: seq<Event>, brain: string) {
    |events| <= MOST_EVENTS && forall i | 0 <= i < |events| :: Hangs(events, brain, i)
  }

  predicate Sound(n: Note, brain: string) {
    n.observation.Some? ==>
      && n.observation.value.root == brain && !n.observation.value.complete
      && n.observation.value.gaps != [] && n.observation.value.gaps[0] == NotExhaustive
      && Rooted(n.observation.value.events, brain)
  }

  lemma {:induction false} IndexAppend(events: seq<Event>, e: Event, thread: string)
    ensures Index(events + [e], thread)
            == if Recorded(events, thread) then Index(events, thread) else if e.thread == thread then |events| else |events| + 1
  {
    if events == [] {
      assert [e][1..] == [];
      assert [] + [e] == [e];
    } else {
      assert (events + [e])[1..] == events[1..] + [e];
      IndexAppend(events[1..], e, thread);
    }
  }

  lemma AppendRooted(events: seq<Event>, brain: string, e: Event)
    requires Rooted(events, brain) && |events| < MOST_EVENTS
    requires e.thread != brain && IsUuid(e.thread) && !Recorded(events, e.thread)
    requires e.parent == brain || Recorded(events, e.parent)
    ensures Rooted(events + [e], brain)
  {
    var all := events + [e];
    forall i | 0 <= i < |all| ensures Hangs(all, brain, i)
    {
      IndexAppend(events, e, all[i].thread);
      IndexAppend(events, e, all[i].parent);
      assert i < |events| ==> Hangs(events, brain, i);
    }
  }

  lemma ApplyKeeps(n: Note, brain: string, op: Op)
    requires Sound(n, brain)
    ensures Sound(Apply(n, brain, op), brain)
  {
    if op.OpStart? {
      var v := Apply(n, brain, op);
      if v.observation.Some? && n.observation.Some? && v.observation.value.events != n.observation.value.events {
        AppendRooted(n.observation.value.events, brain, EventOf(op.row, Source(op.row).value, op.at));
      }
    }
  }

  /** Whatever is notified, in whatever order: the journal stays a rooted tree of at most 128 threads, never complete. */
  lemma {:induction false} RunKeeps(n: Note, brain: string, ops: seq<Op>)
    requires Sound(n, brain)
    ensures Sound(ApplyAll(n, brain, ops), brain)
  {
    if ops != [] {
      RunKeeps(n, brain, ops[..|ops| - 1]);
      ApplyKeeps(ApplyAll(n, brain, ops[..|ops| - 1]), brain, ops[|ops| - 1]);
    }
  }

  /** From every entry, following parents reaches the brain. */
  lemma {:induction false} ReachesBrain(events: seq<Event>, brain: string, i: nat) returns (path: seq<nat>)
    requires Rooted(events, brain) && i < |events|
    ensures path != [] && path[0] == i && forall k | 0 <= k < |path| :: path[k] < |events|
    ensures forall k | 0 <= k < |path| - 1 :: events[path[k]].parent == events[path[k + 1]].thread
    ensures events[path[|path| - 1]].parent == brain
    decreases i
  {
    assert Hangs(events, brain, i);
    if events[i].parent == brain {
      path := [i];
    } else {
      var rest := ReachesBrain(events, brain, Index(events, events[i].parent));
      path := [i] + rest;
    }
  }

  /** No two entries name one thread. */
  lemma ThreadsAreUnique(events: seq<Event>, brain: string, i: nat, j: nat)
    requires Rooted(events, brain) && i < j < |events|
    ensures events[i].thread != events[j].thread && events[i].thread != brain
  {
    assert Hangs(events, brain, i) && Hangs(events, brain, j);
  }

  // ---------- entries and gaps are never taken back ----------

  predicate Grows(a: Note, b: Note) {
    a.observation.Some? ==>
      && b.observation.Some?
      && a.observation.value.events <= b.observation.value.events
      && a.observation.value.gaps <= b.observation.value.gaps
      && (a.observation.value.stream != Open ==> b.observation == a.observation)
  }

  /** Entries are never altered or dropped, gaps only grow, and a closed stream accepts nothing. */
  lemma {:induction false} RunGrows(n: Note, brain: string, ops: seq<Op>)
    ensures Grows(n, ApplyAll(n, brain, ops))
  {
    if ops != [] {
      RunGrows(n, brain, ops[..|ops| - 1]);
      assert Grows(ApplyAll(n, brain, ops[..|ops| - 1]), ApplyAll(n, brain, ops));
    }
  }

  /** A row adds an entry exactly when it names a new thread hanging from the brain or a recorded one, while the journal
      is open and not full; no other row touches an entry. */
  lemma AddsExactly(n: Note, brain: string, row: Started, at: real)
    requires Sound(n, brain) && Listening(n, brain)
    ensures var o, v := n.observation.value, Start(n, brain, row, at);
            && v.Some? && v.value.observation.Some?
            && (v.value.observation.value.events
                == if Named(row.thread) && row.thread != Some(brain) && Source(row).Some?
                      && (Source(row) == Some(brain) || exists e | e in o.events :: Some(e.thread) == Source(row))
                      && (forall e | e in o.events :: Some(e.thread) != row.thread)
                      && |o.events| < MOST_EVENTS
                   then o.events + [EventOf(row, Source(row).value, at)] else o.events)
  {
    var o := n.observation.value;
    if Named(row.thread) && Source(row).Some? {
      SearchFinds(o.events, Source(row).value);
      SearchFinds(o.events, row.thread.value);
    }
  }

  lemma SearchFinds(events: seq<Event>, thread: string)
    ensures Recorded(events, thread) <==> exists e | e in events :: e.thread == thread
  {
    var i := Index(events, thread);
    if i < |events| { assert events[i] in events; }
  }

  predicate Owned(o: Observation, brain: string, row: Started) {
    Named(row.thread) && row.thread != Some(brain) && Source(row).Some?
    && (Source(row) == Some(brain) || Recorded(o.events, Source(row).value))
  }

  predicate Heard(o: Observation, row: Started, at: real)
    requires row.thread.Some? && Source(row).Some?
  {
    || Conflict in o.gaps || LimitReached in o.gaps
    || exists e | e in o.events :: e.thread == row.thread.value && Agrees(e, EventOf(row, Source(row).value, at))
  }

  /** A heard row is recorded as it said, or a gap is. */
  lemma HeardNow(n: Note, brain: string, row: Started, at: real)
    requires Listening(n, brain) && Owned(n.observation.value, brain, row)
    ensures var v := Apply(n, brain, OpStart(row, at)).observation; v.Some? && Heard(v.value, row, at)
  {
    var o, v := n.observation.value, Apply(n, brain, OpStart(row, at)).observation.value;
    var e := EventOf(row, Source(row).value, at);
    var i := Index(o.events, e.thread);
    if i < |o.events| {
      assert o.events[i] in o.events;
    } else if |o.events| < MOST_EVENTS {
      assert e in v.events;
    }
  }

  /** Nothing owned is lost silently: after a heard row, and for ever after, either its thread is recorded as the row said,
      or a conflict or the limit is recorded as a gap. */
  lemma HeardOrGap(n: Note, brain: string, row: Started, at: real, ops: seq<Op>)
    requires Sound(n, brain) && Listening(n, brain) && Owned(n.observation.value, brain, row)
    ensures var v := ApplyAll(Apply(n, brain, OpStart(row, at)), brain, ops);
            v.observation.Some? && Heard(v.observation.value, row, at)
  {
    var heard := Apply(n, brain, OpStart(row, at));
    HeardNow(n, brain, row, at);
    RunGrows(heard, brain, ops);
    var p, v := heard.observation.value, ApplyAll(heard, brain, ops).observation.value;
    assert forall g | g in p.gaps :: g in v.gaps;
    assert forall e | e in p.events :: e in v.events;
  }

  /** And nothing is invented: every entry beyond those there were is the word of a row heard while the stream was open,
      about a thread hanging from the brain or from one recorded before. */
  lemma {:induction false} EveryEntryWasHeard(n: Note, brain: string, ops: seq<Op>, e: Event)
    requires Sound(n, brain) && ApplyAll(n, brain, ops).observation.Some? && e in ApplyAll(n, brain, ops).observation.value.events
    requires n.observation.Some? ==> e !in n.observation.value.events
    ensures exists k | 0 <= k < |ops| ::
              var heard := ApplyAll(n, brain, ops[..k]);
              && ops[k].OpStart? && Listening(heard, brain) && Owned(heard.observation.value, brain, ops[k].row)
              && e == EventOf(ops[k].row, Source(ops[k].row).value, ops[k].at)
  {
    var m := |ops| - 1;
    var before := ApplyAll(n, brain, ops[..m]);
    if before.observation.Some? && e in before.observation.value.events {
      EveryEntryWasHeard(n, brain, ops[..m], e);
      assert forall k | 0 <= k < m :: ops[..m][..k] == ops[..k] && ops[..m][k] == ops[k];
    } else {
      RunKeeps(n, brain, ops[..m]);
      AddedByHearing(before, brain, ops[m], e);
    }
  }

  lemma AddedByHearing(n: Note, brain: string, op: Op, e: Event)
    requires Sound(n, brain) && Apply(n, brain, op).observation.Some? && e in Apply(n, brain, op).observation.value.events
    requires n.observation.Some? ==> e !in n.observation.value.events
    ensures op.OpStart? && Listening(n, brain) && Owned(n.observation.value, brain, op.row)
    ensures e == EventOf(op.row, Source(op.row).value, op.at)
  {
    if op.OpStart? && Listening(n, brain) {
      AddsExactly(n, brain, op.row, op.at);
    }
  }

  // ---------- the steps in the fields of the note ----------

  /** Thirty-two lower-case hexadecimal digits in groups of eight, four, four, four and twelve. */
  lemma UuidExactly(s: string)
    ensures IsUuid(s) <==> && |s| == 36 && s[8] == '-' && s[13] == '-' && s[18] == '-' && s[23] == '-'
                           && forall i | 0 <= i < 36 && i != 8 && i != 13 && i != 18 && i != 23 :: s[i] in "0123456789abcdef"
  {
    assert forall c: char :: Hex(c) <==> c in "0123456789abcdef";
  }

  /** The journal is opened for the brain's own message while it is being sent, once, and never as complete. */
  lemma BeginExactly(n: Note, brain: string)
    ensures Begin(n, brain)
            == if n.brain == brain && n.delivery == Sending && n.observation.None?
               then Some(n.(observation := Some(Observation(brain, Open, false, [NotExhaustive], [], None)))) else None
  {
  }

  predicate InScope(n: Note, brain: string) {
    && n.brain == brain && (n.delivery == Sending || n.delivery == Accepted)
    && n.observation.Some? && n.observation.value.root == brain && n.observation.value.stream == Open
  }

  /** The row names another thread than the brain and, as its parent or else as what it was forked from, its source. */
  predicate Names(row: Started, brain: string, source: string, relation: Relation) {
    && row.thread.Some? && IsUuid(row.thread.value) && row.thread.value != brain && IsUuid(source)
    && if row.parent.Some? && IsUuid(row.parent.value) then row.parent.value == source && relation == Parent
       else row.fork == Some(source) && relation == Fork
  }

  /** The first entry of the thread says something else of it. */
  predicate Contradicts(events: seq<Event>, e: Event) {
    exists i | 0 <= i < |events| ::
      && events[i].thread == e.thread && (forall j | 0 <= j < i :: events[j].thread != e.thread)
      && (events[i].parent != e.parent || events[i].relation != e.relation || events[i].ephemeral != e.ephemeral)
  }

  /** A row that names no thread of anyone's is ignored, and one that does is refused out of scope. */
  lemma StartRefuses(n: Note, brain: string, row: Started, at: real)
    ensures (forall source, relation :: !Names(row, brain, source, relation)) ==> Start(n, brain, row, at) == Some(n)
    ensures forall source, relation | Names(row, brain, source, relation) && !InScope(n, brain) :: Start(n, brain, row, at) == None
  {
    if row.thread.Some? && Source(row).Some? {
      var source := Source(row).value;
      assert Named(row.thread) && row.thread.value != brain ==> Names(row, brain, source, if row.parent == Some(source) then Parent else Fork);
    }
  }

  lemma NamesReads(row: Started, brain: string, source: string, relation: Relation, at: real)
    requires Names(row, brain, source, relation)
    ensures Source(row) == Some(source) && EventOf(row, source, at) == Event(row.thread.value, source, relation, row.ephemeral, at)
    ensures Named(row.thread) && row.thread != Some(brain)
  {
  }

  lemma ContradictsReads(events: seq<Event>, e: Event)
    requires Recorded(events, e.thread)
    ensures Contradicts(events, e) <==> !Agrees(events[Index(events, e.thread)], e)
  {
  }

  /** In scope, from an owned source: a new thread is recorded as the row said while there is room, and a gap is once there
      is none; a recorded one is left alone, with a gap if the row said anything else of it. Anything else changes nothing. */
  lemma StartExactly(n: Note, brain: string, row: Started, source: string, relation: Relation, at: real)
    requires Names(row, brain, source, relation) && InScope(n, brain)
    ensures var o := n.observation.value;
            var e := Event(row.thread.value, source, relation, row.ephemeral, at);
            var owned := source == brain || exists x | x in o.events :: x.thread == source;
            var known := exists x | x in o.events :: x.thread == e.thread;
            var v := Start(n, brain, row, at);
            && v.Some? && v.value.observation.Some?
            && v.value == n.(observation := Some(o.(events := v.value.observation.value.events, gaps := v.value.observation.value.gaps)))
            && v.value.observation.value.events == (if owned && !known && |o.events| < 128 then o.events + [e] else o.events)
            && v.value.observation.value.gaps
               == (if owned && known && Conflict !in o.gaps && Contradicts(o.events, e) then o.gaps + [Conflict]
                   else if owned && !known && |o.events| >= 128 && LimitReached !in o.gaps then o.gaps + [LimitReached]
                   else o.gaps)
  {
    var o := n.observation.value;
    NamesReads(row, brain, source, relation, at);
    SearchFinds(o.events, source);
    SearchFinds(o.events, row.thread.value);
    if Recorded(o.events, row.thread.value) { ContradictsReads(o.events, EventOf(row, source, at)); }
  }

  /** An open journal of the brain is closed, with the gaps its end leaves; nothing else about it changes. */
  lemma FinishExactly(n: Note, brain: string, turn: string, confirmed: bool, eventError: bool)
    ensures var v := Finish(n, brain, turn, confirmed, eventError);
            if n.brain == brain && n.observation.Some? && n.observation.value.root == brain && n.observation.value.stream == Open then
              && v.observation.Some? && var o, p := n.observation.value, v.observation.value;
              && v == n.(observation := Some(o.(stream := p.stream, turn := Some(turn), gaps := p.gaps)))
              && p.stream == (if confirmed then Closed else Unconfirmed)
              && p.gaps == match (confirmed, eventError)
                           case (true, false) => o.gaps
                           case (true, true) => o.gaps + [PersistFailed]
                           case (false, false) => o.gaps + [EndedUnconfirmed]
                           case (false, true) => o.gaps + [EndedUnconfirmed, PersistFailed]
            else v == n
  {
    if n.observation.Some? {
      assert n.observation.value.gaps + [EndedUnconfirmed] + [PersistFailed] == n.observation.value.gaps + [EndedUnconfirmed, PersistFailed];
    }
  }

  // ---------- the journal of one command ----------

  class CommandNote {
    var note: Note

    constructor (note: Note)
      ensures this.note == note
    {
      this.note := note;
    }

    method RecordThreadStarted(brain: string, row: Started, at: real) returns (ok: bool)
      modifies this
      ensures var t := Start(old(note), brain, row, at);
              ok == t.Some? && note == if t.Some? then t.value else old(note)
    {
      if row.thread == Some(brain) || !Named(row.thread) { return true; }
      var relation := if Named(row.parent) then row.parent else row.fork;
      if !Named(relation) { return true; }
      if note.brain != brain || note.delivery !in {Sending, Accepted} || note.observation.None? { return false; }
      var o := note.observation.value;
      if o.root != brain || o.stream != Open { return false; }
      if relation != Some(brain) {
        var found := Find(o.events, relation.value);
        if found == |o.events| { return true; }
      }
      var event := Event(row.thread.value, relation.value, if relation == row.parent then Parent else Fork, row.ephemeral, at);
      var prior := Find(o.events, event.thread);
      if prior < |o.events| {
        if Agrees(o.events[prior], event) { return true; }
        if Conflict !in o.gaps { o := o.(gaps := o.gaps + [Conflict]); }
      } else if |o.events| >= MOST_EVENTS {
        if LimitReached !in o.gaps { o := o.(gaps := o.gaps + [LimitReached]); }
      } else {
        o := o.(events := o.events + [event]);
      }
      note := note.(observation := Some(o));
      ok := true;
    }

    method FinishObservation(brain: string, turn: string, confirmed: bool, eventError: bool)
      modifies this
      ensures note == Finish(old(note), brain, turn, confirmed, eventError)
    {
      if note.brain != brain || note.observation.None? { return; }
      var o := note.observation.value;
      if o.root != brain || o.stream != Open { return; }
      ghost var before := o.gaps;
      o := o.(stream := if confirmed then Closed else Unconfirmed);
      o := o.(turn := Some(turn));
      if o.stream == Unconfirmed { o := o.(gaps := o.gaps + [EndedUnconfirmed]); }
      if eventError { o := o.(gaps := o.gaps + [PersistFailed]); }
      assert o.gaps == before + (if confirmed then [] else [EndedUnconfirmed]) + if eventError then [PersistFailed] else [];
      note := note.(observation := Some(o));
    }
  }

  /** The first entry that names the thread, by a scan of the entries in order. */
  method Find(events: seq<Event>, thread: string) returns (i: nat)
    ensures i == Index(events, thread)
  {
    i := 0;
    while i < |events| && events[i].thread != thread
      invariant i <= |events|
      invariant forall j | 0 <= j < i :: events[j].thread != thread
    {
      i := i + 1;
    }
  }
}
