/** Does the order in which the log files are read matter? The rows of a session come in the order of its files, and two
    rows may share a time and a total. This module says exactly when every order of the same rows gives the same
    baseline, and when it gives the same charge. */
module UsageOrder {
  import opened Sums
  import opened SessionUsage

  ghost predicate SameRows(a: seq<Row>, b: seq<Row>) {
    forall r :: r in a <==> r in b
  }

  function BaselineOf(rows: seq<Row>, start: real, brain: bool, sessionStarts: seq<real>): Option<Tokens> {
    Baseline(Sorted(Events(rows)), start, brain, sessionStarts)
  }

  // ---------- the condition on the rows ----------

  predicate Counted(r: Row) {
    r.at.Some? && r.total.Some?
  }

  function SampleOf(r: Row): Sample
    requires Counted(r)
  {
    Sample(r.at.value, r.total.value, r.last)
  }

  predicate SameKey(r: Row, q: Row) {
    Counted(r) && Counted(q) && r.at == q.at && r.total == q.total
  }

  predicate Prior(r: Row, start: real) {
    Counted(r) && r.at.value < start
  }

  /** A row that may be the last before the interval. */
  predicate Top(rows: seq<Row>, start: real, r: Row) {
    r in rows && Prior(r, start) && forall q | q in rows && Prior(q, start) :: Before(SampleOf(q), SampleOf(r))
  }

  /** A row that may come first of all. */
  predicate First(rows: seq<Row>, r: Row) {
    r in rows && Counted(r) && forall q | q in rows && Counted(q) :: Before(SampleOf(r), SampleOf(q))
  }

  predicate Clean(r: Row) {
    r.last == r.total
  }

  predicate HasPrior(rows: seq<Row>, start: real) {
    exists r | r in rows :: Prior(r, start)
  }

  predicate SessionsInside(sessionStarts: seq<real>, start: real) {
    sessionStarts != [] && forall t | t in sessionStarts :: t >= start
  }

  predicate FirstsAgree(rows: seq<Row>) {
    forall r, q | r in rows && q in rows && First(rows, r) && First(rows, q) :: Clean(r) == Clean(q)
  }

  /** The rows tied for the last place before the interval have one total. If there is none, the rows tied for the first
      place agree on being a clean prefix, unless the sessions rule a baseline out anyway. */
  predicate Agreed(rows: seq<Row>, start: real, brain: bool, sessionStarts: seq<real>) {
    if brain && HasPrior(rows, start)
      then forall r, q | r in rows && q in rows && Top(rows, start, r) && Top(rows, start, q) :: r.total == q.total
    else (brain && !SessionsInside(sessionStarts, start)) || FirstsAgree(rows)
  }

  // ---------- from rows to samples ----------

  lemma {:induction false} PutHolds(events: seq<Sample>, x: Sample, s: Sample)
    requires s in Put(events, x)
    ensures s == x || s in events
  {
    if events != [] && !(events[0].at == x.at && events[0].total == x.total) && s != events[0] {
      PutHolds(events[1..], x, s);
    }
  }

  /** Every sample is a row, breakdown and all. */
  lemma {:induction false} EventsAreRows(rows: seq<Row>, s: Sample)
    requires s in Events(rows)
    ensures exists r | r in rows :: Counted(r) && SampleOf(r) == s
  {
    var front, row := rows[..|rows| - 1], rows[|rows| - 1];
    if s in Events(front) {
      EventsAreRows(front, s);
    } else {
      PutHolds(Events(front), SampleOf(row), s);
    }
  }

  /** Every counted row leaves a sample of its time and total. */
  lemma RowIsSampled(rows: seq<Row>, r: Row) returns (s: Sample)
    requires r in rows && Counted(r)
    ensures s in Sorted(Events(rows)) && s.at == r.at.value && s.total == r.total.value
  {
    EventsSee(rows, r.at.value, r.total.value);
    assert Seen(Events(rows), r.at.value, r.total.value);
    s :| s in Events(rows) && s.at == r.at.value && s.total == r.total.value;
    SortedHolds(Events(rows), s);
  }

  lemma SampleIsRow(rows: seq<Row>, s: Sample) returns (r: Row)
    requires s in Sorted(Events(rows))
    ensures r in rows && Counted(r) && SampleOf(r) == s
  {
    SortedHolds(Events(rows), s);
    EventsAreRows(rows, s);
    r :| r in rows && Counted(r) && SampleOf(r) == s;
  }

  lemma {:induction false} InsideIs(ordered: seq<Sample>, start: real, brain: bool, s: Sample)
    ensures s in Inside(ordered, start, brain) <==> s in ordered && (brain ==> s.at >= start)
  {
    if brain && ordered != [] {
      InsideIs(ordered[..|ordered| - 1], start, brain, s);
      assert ordered == ordered[..|ordered| - 1] + [ordered[|ordered| - 1]];
    }
  }

  lemma {:induction false} LastBeforeIsLatest(ordered: seq<Sample>, start: real, s: Sample)
    requires IsSorted(ordered) && s in ordered && s.at < start
    ensures LastBefore(ordered, start).Some? && Before(s, LastBefore(ordered, start).value)
  {
    var n := |ordered| - 1;
    var i :| 0 <= i < |ordered| && ordered[i] == s;
    if ordered[n].at < start {
      assert i == n || Before(ordered[i], ordered[n]);
    } else {
      assert ordered[..n][i] == s;
      LastBeforeIsLatest(ordered[..n], start, s);
    }
  }

  lemma {:induction false} LastBeforeIsBefore(ordered: seq<Sample>, start: real)
    requires LastBefore(ordered, start).Some?
    ensures LastBefore(ordered, start).value in ordered && LastBefore(ordered, start).value.at < start
  {
    var n := |ordered| - 1;
    if ordered[n].at >= start { LastBeforeIsBefore(ordered[..n], start); }
  }

  /** The last sample before the interval is one of the rows tied for that place. */
  lemma LastIsTop(rows: seq<Row>, start: real)
    ensures var last := LastBefore(Sorted(Events(rows)), start);
            && (last.Some? <==> HasPrior(rows, start))
            && (last.Some? ==> exists r | r in rows :: Top(rows, start, r) && SampleOf(r) == last.value)
  {
    var ordered := Sorted(Events(rows));
    SortedIsSorted(Events(rows));
    forall q | q in rows && Prior(q, start)
      ensures LastBefore(ordered, start).Some? && Before(SampleOf(q), LastBefore(ordered, start).value)
    {
      var s := RowIsSampled(rows, q);
      LastBeforeIsLatest(ordered, start, s);
    }
    if LastBefore(ordered, start).Some? {
      LastBeforeIsBefore(ordered, start);
      var r := SampleIsRow(rows, LastBefore(ordered, start).value);
      assert Top(rows, start, r);
    }
  }

  /** The first sample is one of the rows tied for that place. */
  lemma HeadIsFirst(rows: seq<Row>)
    ensures var ordered := Sorted(Events(rows));
            && (ordered != [] <==> exists r | r in rows :: Counted(r))
            && (ordered != [] ==> exists r | r in rows :: First(rows, r) && SampleOf(r) == ordered[0])
  {
    var ordered := Sorted(Events(rows));
    SortedIsSorted(Events(rows));
    forall q | q in rows && Counted(q) ensures ordered != [] && Before(ordered[0], SampleOf(q))
    {
      var s := RowIsSampled(rows, q);
      var i :| 0 <= i < |ordered| && ordered[i] == s;
      assert i == 0 || Before(ordered[0], ordered[i]);
    }
    if ordered != [] {
      var r := SampleIsRow(rows, ordered[0]);
      assert First(rows, r);
    }
  }

  // ---------- agreed rows give one baseline ----------

  lemma AgreedBaseline(a: seq<Row>, b: seq<Row>, start: real, brain: bool, sessionStarts: seq<real>)
    requires SameRows(a, b) && Agreed(a, start, brain, sessionStarts)
    ensures BaselineOf(a, start, brain, sessionStarts) == BaselineOf(b, start, brain, sessionStarts)
  {
    LastIsTop(a, start);
    LastIsTop(b, start);
    assert HasPrior(a, start) <==> HasPrior(b, start);
    if brain && HasPrior(a, start) {
      var r :| r in a && Top(a, start, r) && SampleOf(r) == LastBefore(Sorted(Events(a)), start).value;
      var q :| q in b && Top(b, start, q) && SampleOf(q) == LastBefore(Sorted(Events(b)), start).value;
      assert Top(a, start, q);
    } else if !brain || SessionsInside(sessionStarts, start) {
      AgreedPrefix(a, b);
    }
  }

  lemma HeadRow(rows: seq<Row>) returns (r: Row)
    requires Sorted(Events(rows)) != []
    ensures First(rows, r) && SampleOf(r) == Sorted(Events(rows))[0]
  {
    HeadIsFirst(rows);
    r :| r in rows && First(rows, r) && SampleOf(r) == Sorted(Events(rows))[0];
  }

  lemma FirstElsewhere(a: seq<Row>, b: seq<Row>, r: Row)
    requires SameRows(a, b) && First(a, r)
    ensures First(b, r)
  {
  }

  lemma AgreedPrefix(a: seq<Row>, b: seq<Row>)
    requires SameRows(a, b) && FirstsAgree(a)
    ensures CleanPrefix(Sorted(Events(a))) == CleanPrefix(Sorted(Events(b)))
  {
    SampledAlike(a, b);
    if Sorted(Events(a)) != [] {
      var r := HeadRow(a);
      var q := HeadRow(b);
      FirstElsewhere(b, a, q);
      assert Clean(r) == Clean(q);
    }
  }

  lemma SampledAlike(a: seq<Row>, b: seq<Row>)
    requires SameRows(a, b)
    ensures Sorted(Events(a)) == [] <==> Sorted(Events(b)) == []
  {
    HeadIsFirst(a);
    HeadIsFirst(b);
  }

  // ---------- an order for every candidate ----------

  function Alike(rows: seq<Row>, x: Row): seq<Row> {
    if rows == [] then [] else Alike(rows[..|rows| - 1], x) + if SameKey(rows[|rows| - 1], x) then [rows[|rows| - 1]] else []
  }

  function Others(rows: seq<Row>, x: Row): seq<Row> {
    if rows == [] then [] else Others(rows[..|rows| - 1], x) + if SameKey(rows[|rows| - 1], x) then [] else [rows[|rows| - 1]]
  }

  lemma {:induction false} Parted(rows: seq<Row>, x: Row)
    ensures multiset(Alike(rows, x)) + multiset(Others(rows, x)) == multiset(rows)
    ensures forall r | r in Alike(rows, x) :: SameKey(r, x)
    ensures forall r | r in Others(rows, x) :: r in rows && !SameKey(r, x)
  {
    if rows != [] {
      Parted(rows[..|rows| - 1], x);
      assert rows == rows[..|rows| - 1] + [rows[|rows| - 1]];
    }
  }

  predicate NoKey(events: seq<Sample>, x: Sample) {
    forall s | s in events :: !(s.at == x.at && s.total == x.total)
  }

  lemma {:induction false} PutNew(events: seq<Sample>, x: Sample)
    requires NoKey(events, x)
    ensures Put(events, x) == events + [x]
  {
    if events != [] {
      PutNew(events[1..], x);
      assert events + [x] == [events[0]] + (events[1..] + [x]);
    }
  }

  lemma {:induction false} PutAgain(events: seq<Sample>, s: Sample, x: Sample)
    requires NoKey(events, x) && s.at == x.at && s.total == x.total
    ensures Put(events + [s], x) == events + [x]
  {
    if events != [] {
      assert (events + [s])[1..] == events[1..] + [s];
      PutAgain(events[1..], s, x);
      assert events + [x] == [events[0]] + (events[1..] + [x]);
    } else {
      assert [] + [s] == [s] && [s][1..] == [];
    }
  }

  lemma NoKeyIn(rows: seq<Row>, x: Row)
    requires Counted(x) && forall r | r in rows :: !SameKey(r, x)
    ensures NoKey(Events(rows), SampleOf(x))
  {
    forall s | s in Events(rows) ensures !(s.at == x.at.value && s.total == x.total.value)
    {
      EventsAreRows(rows, s);
    }
  }

  /** Rows of one key read after all others leave one sample at the end, with the breakdown of the last of them. */
  lemma {:induction false} EventsTail(rows: seq<Row>, same: seq<Row>, x: Row)
    requires Counted(x) && same != [] && SameKey(same[|same| - 1], x)
    requires (forall r | r in rows :: !SameKey(r, x)) && forall r | r in same :: SameKey(r, x)
    ensures Events(rows + same) == Events(rows) + [SampleOf(same[|same| - 1])]
  {
    var front, last := same[..|same| - 1], same[|same| - 1];
    assert (rows + same)[..|rows + same| - 1] == rows + front && (rows + same)[|rows + same| - 1] == last;
    assert last in same;
    NoKeyIn(rows, x);
    if front == [] {
      assert rows + front == rows;
      PutNew(Events(rows), SampleOf(last));
    } else {
      EventsTail(rows, front, x);
      assert front[|front| - 1] in same;
      PutAgain(Events(rows), SampleOf(front[|front| - 1]), SampleOf(last));
    }
  }

  /** Rows of other keys read after never move the first sample or rewrite it. */
  lemma {:induction false} EventsHead(head: seq<Row>, rest: seq<Row>, x: Row)
    requires Counted(x) && Events(head) == [SampleOf(x)] && forall r | r in rest :: !SameKey(r, x)
    ensures Events(head + rest) != [] && Events(head + rest)[0] == SampleOf(x)
  {
    if rest == [] {
      assert head + rest == head;
    } else {
      var front, last := rest[..|rest| - 1], rest[|rest| - 1];
      assert (head + rest)[..|head + rest| - 1] == head + front && (head + rest)[|head + rest| - 1] == last;
      EventsHead(head, front, x);
      assert last in rest;
    }
  }

  lemma {:induction false} InsertLast(ordered: seq<Sample>, x: Sample, start: real)
    requires x.at < start && forall s | s in ordered && s.at < start :: Before(s, x)
    ensures LastBefore(Insert(ordered, x), start) == Some(x)
  {
    if ordered != [] {
      var front, last := ordered[..|ordered| - 1], ordered[|ordered| - 1];
      if Before(last, x) {
        assert (ordered + [x])[|ordered|] == x;
      } else {
        InsertLast(front, x, start);
        assert last in ordered;
        var all := Insert(front, x) + [last];
        assert all[..|all| - 1] == Insert(front, x);
      }
    }
  }

  lemma {:induction false} InsertKeepsHead(ordered: seq<Sample>, x: Sample)
    requires ordered != [] && Before(ordered[0], x)
    ensures Insert(ordered, x) != [] && Insert(ordered, x)[0] == ordered[0]
  {
    if !Before(ordered[|ordered| - 1], x) {
      InsertKeepsHead(ordered[..|ordered| - 1], x);
    }
  }

  lemma {:induction false} SortedKeepsHead(events: seq<Sample>)
    requires events != [] && forall s | s in events :: Before(events[0], s)
    ensures Sorted(events) != [] && Sorted(events)[0] == events[0]
  {
    var front, last := events[..|events| - 1], events[|events| - 1];
    assert last in events;
    if front != [] {
      SortedKeepsHead(front);
      InsertKeepsHead(Sorted(front), last);
    } else {
      assert Sorted(front) == [];
    }
  }

  /** The order that reads the rows of one key last. */
  lemma TailOrder(rows: seq<Row>, x: Row) returns (b: seq<Row>, others: seq<Row>, y: Row)
    requires x in rows && Counted(x)
    ensures multiset(b) == multiset(rows) && (forall r | r in others :: r in rows) && SameKey(y, x)
    ensures Events(b) == Events(others) + [SampleOf(y)]
  {
    others := Others(rows, x);
    var alike := Alike(rows, x);
    Parted(rows, x);
    assert x in multiset(rows);
    assert x in alike;
    b, y := others + alike, alike[|alike| - 1];
    assert y in alike;
    EventsTail(others, alike, x);
  }

  /** The order that reads the rows of one key first, a given one of them last. */
  lemma HeadOrder(rows: seq<Row>, x: Row) returns (b: seq<Row>)
    requires x in rows && Counted(x)
    ensures multiset(b) == multiset(rows)
    ensures Events(b) != [] && Events(b)[0] == SampleOf(x)
  {
    var rest := Without(rows, x);
    var others, alike := Others(rest, x), Alike(rest, x) + [x];
    Parted(rest, x);
    b := alike + others;
    assert multiset(b) == multiset(Alike(rest, x)) + multiset{x} + multiset(Others(rest, x));
    HeadOfOrder(alike, others, x);
  }

  lemma HeadOfOrder(alike: seq<Row>, others: seq<Row>, x: Row)
    requires Counted(x) && alike != [] && alike[|alike| - 1] == x
    requires (forall r | r in alike :: SameKey(r, x)) && forall r | r in others :: !SameKey(r, x)
    ensures Events(alike + others) != [] && Events(alike + others)[0] == SampleOf(x)
  {
    assert [] + alike == alike;
    EventsTail([], alike, x);
    EventsHead(alike, others, x);
  }

  /** The rows less one of them. */
  lemma Without(rows: seq<Row>, x: Row) returns (rest: seq<Row>)
    requires x in rows
    ensures multiset(rest) + multiset{x} == multiset(rows)
  {
    var i :| 0 <= i < |rows| && rows[i] == x;
    rest := rows[..i] + rows[i + 1..];
    assert rows == rows[..i] + [x] + rows[i + 1..];
  }

  /** Any row tied for the last place before the interval is the baseline of some order of the rows. */
  lemma TopIsReached(rows: seq<Row>, start: real, x: Row) returns (b: seq<Row>)
    requires Top(rows, start, x)
    ensures multiset(b) == multiset(rows)
    ensures LastBefore(Sorted(Events(b)), start).Some? && LastBefore(Sorted(Events(b)), start).value.total == x.total.value
  {
    var others, y;
    b, others, y := TailOrder(rows, x);
    LastOfTail(rows, others, start, x, SampleOf(y));
    assert Events(b)[..|Events(b)| - 1] == Events(others);
  }

  lemma LastOfTail(rows: seq<Row>, others: seq<Row>, start: real, x: Row, s: Sample)
    requires Top(rows, start, x) && (forall r | r in others :: r in rows) && s.at == x.at.value && s.total == x.total.value
    ensures LastBefore(Insert(Sorted(Events(others)), s), start) == Some(s)
  {
    forall e | e in Sorted(Events(others)) && e.at < start ensures Before(e, s)
    {
      var r := SampleIsRow(others, e);
      assert r in rows && Prior(r, start);
    }
    InsertLast(Sorted(Events(others)), s, start);
  }

  /** Any row tied for the first place is the first sample of some order of the rows. */
  lemma FirstIsReached(rows: seq<Row>, x: Row) returns (b: seq<Row>)
    requires First(rows, x)
    ensures multiset(b) == multiset(rows)
    ensures Sorted(Events(b)) != [] && Sorted(Events(b))[0] == SampleOf(x)
  {
    b := HeadOrder(rows, x);
    PermutedRows(rows, b);
    forall s | s in Events(b) ensures Before(Events(b)[0], s)
    {
      EventsAreRows(b, s);
    }
    SortedKeepsHead(Events(b));
  }

  // ---------- exactly ----------

  lemma PermutedRows(a: seq<Row>, b: seq<Row>)
    requires multiset(a) == multiset(b)
    ensures SameRows(a, b)
  {
    forall r ensures r in a <==> r in b
    {
      assert r in a <==> r in multiset(a);
      assert r in b <==> r in multiset(b);
    }
  }

  /** Rows that do not agree have an order with another baseline. */
  lemma DisagreedBaseline(a: seq<Row>, start: real, brain: bool, sessionStarts: seq<real>) returns (b: seq<Row>)
    requires !Agreed(a, start, brain, sessionStarts)
    ensures multiset(b) == multiset(a)
    ensures BaselineOf(b, start, brain, sessionStarts) != BaselineOf(a, start, brain, sessionStarts)
  {
    if brain && HasPrior(a, start) {
      var r, q :| r in a && q in a && Top(a, start, r) && Top(a, start, q) && r.total != q.total;
      var x := TopIsReached(a, start, r);
      var y := TopIsReached(a, start, q);
      b := if BaselineOf(x, start, brain, sessionStarts) != BaselineOf(a, start, brain, sessionStarts) then x else y;
    } else {
      var r, q :| r in a && q in a && First(a, r) && First(a, q) && Clean(r) != Clean(q);
      var x := FirstIsReached(a, r);
      var y := FirstIsReached(a, q);
      PermutedRows(a, x);
      PermutedRows(a, y);
      LastIsTop(x, start);
      LastIsTop(y, start);
      assert HasPrior(x, start) <==> HasPrior(a, start);
      assert HasPrior(y, start) <==> HasPrior(a, start);
      b := if BaselineOf(x, start, brain, sessionStarts) != BaselineOf(a, start, brain, sessionStarts) then x else y;
    }
  }

  /** Every order of the rows gives the same baseline, or refuses alike, if and only if the rows agree. */
  lemma BaselineOrderExactly(a: seq<Row>, start: real, brain: bool, sessionStarts: seq<real>)
    ensures Agreed(a, start, brain, sessionStarts)
            <==> forall b | multiset(b) == multiset(a) :: BaselineOf(b, start, brain, sessionStarts) == BaselineOf(a, start, brain, sessionStarts)
  {
    if Agreed(a, start, brain, sessionStarts) {
      forall b | multiset(b) == multiset(a)
        ensures BaselineOf(b, start, brain, sessionStarts) == BaselineOf(a, start, brain, sessionStarts)
      {
        PermutedRows(a, b);
        AgreedBaseline(a, b, start, brain, sessionStarts);
      }
    } else {
      var b := DisagreedBaseline(a, start, brain, sessionStarts);
    }
  }

  // ---------- the charge ----------

  lemma InsideMatches(a: seq<Row>, b: seq<Row>, start: real, brain: bool)
    requires SameRows(a, b)
    ensures forall s | s in Inside(Sorted(Events(a)), start, brain) :: exists t | t in Inside(Sorted(Events(b)), start, brain) :: t.total == s.total
    ensures Inside(Sorted(Events(b)), start, brain) == [] ==> Inside(Sorted(Events(a)), start, brain) == []
  {
    forall s | s in Inside(Sorted(Events(a)), start, brain)
      ensures exists t | t in Inside(Sorted(Events(b)), start, brain) :: t.total == s.total
    {
      InsideIs(Sorted(Events(a)), start, brain, s);
      var r := SampleIsRow(a, s);
      var t := RowIsSampled(b, r);
      InsideIs(Sorted(Events(b)), start, brain, t);
    }
    if Inside(Sorted(Events(a)), start, brain) != [] {
      assert Inside(Sorted(Events(a)), start, brain)[0] in Inside(Sorted(Events(a)), start, brain);
    }
  }

  /** From one baseline every order of the rows charges the same. */
  lemma SameCharge(a: seq<Row>, b: seq<Row>, start: real, brain: bool, base: Tokens)
    requires SameRows(a, b)
    ensures Charge(HighWater(base, Inside(Sorted(Events(a)), start, brain)), base)
            == Charge(HighWater(base, Inside(Sorted(Events(b)), start, brain)), base)
    ensures Inside(Sorted(Events(a)), start, brain) == [] <==> Inside(Sorted(Events(b)), start, brain) == []
  {
    InsideMatches(a, b, start, brain);
    InsideMatches(b, a, start, brain);
    MoreSamplesNeverLower(base, Inside(Sorted(Events(a)), start, brain), Inside(Sorted(Events(b)), start, brain));
    MoreSamplesNeverLower(base, Inside(Sorted(Events(b)), start, brain), Inside(Sorted(Events(a)), start, brain));
  }

  /** Two readings of the same agreed rows, in any order and with any repetition, charge the same or both refuse. */
  lemma OrderDoesNotMatter(a: seq<Row>, b: seq<Row>, start: real, brain: bool, sessionStarts: seq<real>)
    requires SameRows(a, b) && Agreed(a, start, brain, sessionStarts)
    ensures ChargeOf(a, start, brain, sessionStarts) == ChargeOf(b, start, brain, sessionStarts)
  {
    AgreedBaseline(a, b, start, brain, sessionStarts);
    var base := BaselineOf(a, start, brain, sessionStarts);
    if base.Some? { SameCharge(a, b, start, brain, base.value); }
  }

  /** What the rows would be charged from one of the rows tied for the baseline. */
  function ChargeFrom(rows: seq<Row>, start: real, r: Row): Tokens
    requires Counted(r)
  {
    Charge(HighWater(r.total.value, Inside(Sorted(Events(rows)), start, true)), r.total.value)
  }

  predicate HasInside(rows: seq<Row>, start: real, brain: bool) {
    exists r | r in rows :: Counted(r) && (brain ==> r.at.value >= start)
  }

  /** The charge needs less than the baseline: tied rows may differ where the difference is not charged. */
  predicate ChargeAgreed(rows: seq<Row>, start: real, brain: bool, sessionStarts: seq<real>) {
    || !HasInside(rows, start, brain)
    || if brain && HasPrior(rows, start)
         then forall r, q | r in rows && q in rows && Top(rows, start, r) && Top(rows, start, q) :: ChargeFrom(rows, start, r) == ChargeFrom(rows, start, q)
       else (brain && !SessionsInside(sessionStarts, start)) || FirstsAgree(rows)
  }

  lemma InsideHeld(rows: seq<Row>, start: real, brain: bool)
    ensures Inside(Sorted(Events(rows)), start, brain) != [] <==> HasInside(rows, start, brain)
  {
    var inside := Inside(Sorted(Events(rows)), start, brain);
    if inside != [] {
      assert inside[0] in inside;
      InsideIs(Sorted(Events(rows)), start, brain, inside[0]);
      var r := SampleIsRow(rows, inside[0]);
    }
    if HasInside(rows, start, brain) {
      var r :| r in rows && Counted(r) && (brain ==> r.at.value >= start);
      var s := RowIsSampled(rows, r);
      InsideIs(Sorted(Events(rows)), start, brain, s);
    }
  }

  /** With a prior row, the charge is that from one of the tied rows; each of them is charged from in some order. */
  lemma ChargedFromTop(a: seq<Row>, b: seq<Row>, start: real, sessionStarts: seq<real>) returns (r: Row)
    requires SameRows(a, b) && HasPrior(a, start) && HasInside(a, start, true)
    ensures Top(a, start, r) && ChargeOf(b, start, true, sessionStarts) == Some(ChargeFrom(a, start, r))
    ensures LastBefore(Sorted(Events(b)), start).Some? && LastBefore(Sorted(Events(b)), start).value.total == r.total.value
  {
    LastIsTop(b, start);
    assert HasPrior(b, start);
    r :| r in b && Top(b, start, r) && SampleOf(r) == LastBefore(Sorted(Events(b)), start).value;
    assert Top(a, start, r);
    SameCharge(a, b, start, true, r.total.value);
    InsideHeld(a, start, true);
  }

  lemma DisagreedCharge(a: seq<Row>, start: real, brain: bool, sessionStarts: seq<real>) returns (b: seq<Row>)
    requires !ChargeAgreed(a, start, brain, sessionStarts)
    ensures multiset(b) == multiset(a) && ChargeOf(b, start, brain, sessionStarts) != ChargeOf(a, start, brain, sessionStarts)
  {
    InsideHeld(a, start, brain);
    if brain && HasPrior(a, start) {
      var r, q :| r in a && q in a && Top(a, start, r) && Top(a, start, q) && ChargeFrom(a, start, r) != ChargeFrom(a, start, q);
      var x := TopIsReached(a, start, r);
      var y := TopIsReached(a, start, q);
      PermutedRows(a, x);
      PermutedRows(a, y);
      var u := ChargedFromTop(a, x, start, sessionStarts);
      var v := ChargedFromTop(a, y, start, sessionStarts);
      b := if ChargeOf(x, start, brain, sessionStarts) != ChargeOf(a, start, brain, sessionStarts) then x else y;
    } else {
      assert !Agreed(a, start, brain, sessionStarts);
      b := DisagreedBaseline(a, start, brain, sessionStarts);
      PermutedRows(a, b);
      SameCharge(a, b, start, brain, ZERO);
      LastIsTop(a, start);
      LastIsTop(b, start);
      assert HasPrior(a, start) <==> HasPrior(b, start);
    }
  }

  /** Every order of the rows charges the same, or refuses alike, if and only if there is nothing to charge, or the rows
      tied for the baseline are all charged from alike. */
  lemma ChargeOrderExactly(a: seq<Row>, start: real, brain: bool, sessionStarts: seq<real>)
    ensures ChargeAgreed(a, start, brain, sessionStarts)
            <==> forall b | multiset(b) == multiset(a) :: ChargeOf(b, start, brain, sessionStarts) == ChargeOf(a, start, brain, sessionStarts)
  {
    if ChargeAgreed(a, start, brain, sessionStarts) {
      forall b | multiset(b) == multiset(a)
        ensures ChargeOf(b, start, brain, sessionStarts) == ChargeOf(a, start, brain, sessionStarts)
      {
        PermutedRows(a, b);
        PermutedRows(a, a);
        AgreedCharge(a, b, start, brain, sessionStarts);
      }
    } else {
      var b := DisagreedCharge(a, start, brain, sessionStarts);
    }
  }

  lemma AgreedCharge(a: seq<Row>, b: seq<Row>, start: real, brain: bool, sessionStarts: seq<real>)
    requires SameRows(a, b) && ChargeAgreed(a, start, brain, sessionStarts)
    ensures ChargeOf(b, start, brain, sessionStarts) == ChargeOf(a, start, brain, sessionStarts)
  {
    InsideHeld(a, start, brain);
    InsideHeld(b, start, brain);
    SameCharge(a, b, start, brain, ZERO);
    if HasInside(a, start, brain) {
      if brain && HasPrior(a, start) {
        var r := ChargedFromTop(a, a, start, sessionStarts);
        var q := ChargedFromTop(a, b, start, sessionStarts);
      } else {
        OrderDoesNotMatter(a, b, start, brain, sessionStarts);
      }
    }
  }

  // ---------- both disagreements are real ----------

  /** Two brain rows with one time and one total but different parts, before the interval: the order decides the baseline. */
  lemma TiedBaselineDependsOnOrder()
    ensures var r, q := Row(Some(1.0), Some(Tokens(6, 0, 4, 0, 10)), None), Row(Some(1.0), Some(Tokens(4, 0, 6, 0, 10)), None);
            BaselineOf([r, q], 2.0, true, []) != BaselineOf([q, r], 2.0, true, [])
  {
    var r, q := Row(Some(1.0), Some(Tokens(6, 0, 4, 0, 10)), None), Row(Some(1.0), Some(Tokens(4, 0, 6, 0, 10)), None);
    TwoEvents(r, q);
    TwoEvents(q, r);
    assert [SampleOf(r), SampleOf(q)][1].at < 2.0 && [SampleOf(q), SampleOf(r)][1].at < 2.0;
  }

  lemma TwoEvents(r: Row, q: Row)
    requires Counted(r) && Counted(q) && r.at == q.at && r.total.value.total == q.total.value.total && r.total != q.total
    ensures Sorted(Events([r, q])) == [SampleOf(r), SampleOf(q)]
  {
    var s, t := SampleOf(r), SampleOf(q);
    assert [r, q][..1] == [r] && [r][..0] == [];
    assert Events([r]) == [s];
    assert Events([r, q]) == Put([s], t) == [s] + Put([], t) == [s, t];
    assert [s, t][..1] == [s] && [s][..0] == [];
    assert Sorted([s]) == [s];
  }

  /** Two rows of a worker with one time and one total, of which one lost its breakdown: the order decides whether the
      session is charged at all. */
  lemma LostBreakdownDependsOnOrder(t: Tokens)
    ensures var r, q := Row(Some(1.0), Some(t), None), Row(Some(1.0), Some(t), Some(t));
            ChargeOf([r, q], 0.0, false, []).Some? && ChargeOf([q, r], 0.0, false, []).None?
  {
    var r, q := Row(Some(1.0), Some(t), None), Row(Some(1.0), Some(t), Some(t));
    OneKey(r, q);
    OneKey(q, r);
  }

  lemma OneKey(r: Row, q: Row)
    requires SameKey(r, q)
    ensures Sorted(Events([r, q])) == [SampleOf(q)]
  {
    assert [] + [r, q] == [r, q];
    EventsTail([], [r, q], q);
    assert Events([r, q]) == [SampleOf(q)];
    assert [SampleOf(q)][..0] == [];
  }
}
