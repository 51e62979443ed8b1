/** What a measurement of a session says, in the fields of its log rows: which rows count, from where, and what is charged,
    found faulty, and reported of them. */
module SessionLaws {
  import opened Sums
  import opened SessionUsage
  import opened UsageOrder

  /** A row with a time and valid totals, from the start on for a brain, from anywhere for a worker. */
  predicate Charged(r: Row, start: real, brain: bool) {
    r.at.Some? && r.total.Some? && (brain ==> start <= r.at.value)
  }

  lemma SelectedAreCharged(rows: seq<Row>, start: real, brain: bool)
    ensures var selected := Inside(Sorted(Events(rows)), start, brain);
            && (forall s | s in selected :: exists r | r in rows :: Charged(r, start, brain) && s == SampleOf(r))
            && (forall r | r in rows && Charged(r, start, brain) :: exists s | s in selected :: s.at == r.at.value && s.total == r.total.value)
  {
    var ordered := Sorted(Events(rows));
    forall s | s in Inside(ordered, start, brain) ensures exists r | r in rows :: Charged(r, start, brain) && s == SampleOf(r) {
      InsideIs(ordered, start, brain, s);
      var r := SampleIsRow(rows, s);
      assert Charged(r, start, brain);
    }
    forall r | r in rows && Charged(r, start, brain)
      ensures exists s | s in Inside(ordered, start, brain) :: s.at == r.at.value && s.total == r.total.value
    {
      var s := RowIsSampled(rows, r);
      InsideIs(ordered, start, brain, s);
    }
  }

  /** The least number above `base` that no charged row exceeds in this counter. */
  predicate IsReached(rows: seq<Row>, start: real, brain: bool, base: nat, c: Counter, reached: nat) {
    && base <= reached
    && (forall r | r in rows && Charged(r, start, brain) :: Get(r.total.value, c) <= reached)
    && (reached == base || exists r | r in rows :: Charged(r, start, brain) && Get(r.total.value, c) == reached)
  }

  lemma ReachedIs(rows: seq<Row>, start: real, brain: bool, base: Tokens, c: Counter)
    ensures IsReached(rows, start, brain, Get(base, c), c, Get(HighWater(base, Inside(Sorted(Events(rows)), start, brain)), c))
  {
    var selected := Inside(Sorted(Events(rows)), start, brain);
    SelectedAreCharged(rows, start, brain);
    HighWaterIsPeak(base, selected);
    HighWaterIsAttained(base, selected, c);
    forall r | r in rows && Charged(r, start, brain) ensures Get(r.total.value, c) <= Get(HighWater(base, selected), c) {
      var s :| s in selected && s.at == r.at.value && s.total == r.total.value;
      assert Leq(s.total, HighWater(base, selected));
    }
    if Get(HighWater(base, selected), c) != Get(base, c) {
      var i :| 0 <= i < |selected| && Get(HighWater(base, selected), c) == Get(selected[i].total, c);
      assert selected[i] in selected;
    }
  }

  lemma SomethingSelected(rows: seq<Row>, start: real, brain: bool)
    ensures Inside(Sorted(Events(rows)), start, brain) != [] <==> exists r | r in rows :: Charged(r, start, brain)
  {
    var selected := Inside(Sorted(Events(rows)), start, brain);
    SelectedAreCharged(rows, start, brain);
    if selected != [] { assert selected[0] in selected; }
  }

  lemma ChargeGets(high: Tokens, base: Tokens, c: Counter)
    requires Get(base, c) <= Get(high, c)
    ensures Get(Charge(high, base), c) == Get(high, c) - Get(base, c)
  {
  }

  /** A session is charged if and only if it has a baseline and a row to charge; every counter is then charged from the
      baseline to the highest value of any such row, and never less than nothing. */
  lemma ChargeExactly(rows: seq<Row>, start: real, brain: bool, sessionStarts: seq<real>, c: Counter)
    ensures var charge, base := ChargeOf(rows, start, brain, sessionStarts), BaselineOf(rows, start, brain, sessionStarts);
            && (charge.Some? <==> base.Some? && exists r | r in rows :: Charged(r, start, brain))
            && (charge.Some? ==> IsReached(rows, start, brain, Get(base.value, c), c, Get(base.value, c) + Get(charge.value, c)))
  {
    SomethingSelected(rows, start, brain);
    var base := BaselineOf(rows, start, brain, sessionStarts);
    if base.Some? {
      ReachedIs(rows, start, brain, base.value, c);
      ChargeGets(HighWater(base.value, Inside(Sorted(Events(rows)), start, brain)), base.value, c);
    }
  }

  /** The baseline of a brain is the total of a row tied for the last place before the start. If there is none, it is zero
      when all its sessions began inside and a row tied for the first place is clean; a worker's is zero when one is. */
  lemma BaselineExactly(rows: seq<Row>, start: real, brain: bool, sessionStarts: seq<real>)
    ensures var base := BaselineOf(rows, start, brain, sessionStarts);
            && (brain && HasPrior(rows, start) ==> base.Some? && exists r | r in rows :: Top(rows, start, r) && base == r.total)
            && (!(brain && HasPrior(rows, start)) ==>
                  && (base.Some? ==>
                        && base.value == Tokens(0, 0, 0, 0, 0) && (brain ==> |sessionStarts| > 0 && forall t | t in sessionStarts :: start <= t)
                        && exists r | r in rows :: First(rows, r) && Clean(r))
                  && (base.None? ==>
                        || (brain && (|sessionStarts| == 0 || exists t | t in sessionStarts :: t < start))
                        || (forall r | r in rows :: !Counted(r))
                        || exists r | r in rows :: First(rows, r) && !Clean(r)))
  {
    LastIsTop(rows, start);
    HeadIsFirst(rows);
    var ordered := Sorted(Events(rows));
    if ordered != [] {
      var r :| r in rows && First(rows, r) && SampleOf(r) == ordered[0];
      assert Clean(r) <==> CleanPrefix(ordered);
    }
  }

  lemma {:induction false} FaultyExactly(rows: seq<Row>, start: real, brain: bool)
    ensures AnyFaulty(rows, start, brain)
            <==> exists r | r in rows :: r.at.None? || ((brain ==> start <= r.at.value) && (r.total.None? || r.last.None?))
  {
    if rows != [] {
      FaultyExactly(rows[..|rows| - 1], start, brain);
      assert rows == rows[..|rows| - 1] + [rows[|rows| - 1]];
    }
  }

  /** The baseline of a brain is in doubt when a row without valid totals lies between it and the start. */
  lemma DoubtExactly(rows: seq<Row>, start: real, brain: bool)
    ensures BaselineFaulty(rows, Sorted(Events(rows)), start, brain)
            <==> brain && exists r, q | r in rows && q in rows ::
                   && r.at.Some? && r.total.None? && r.at.value < start
                   && Top(rows, start, q) && q.at.value <= r.at.value
  {
    LastIsTop(rows, start);
    var last := LastBefore(Sorted(Events(rows)), start);
    if last.Some? {
      var q :| q in rows && Top(rows, start, q) && SampleOf(q) == last.value;
      forall p | p in rows && Top(rows, start, p) ensures p.at == q.at {
        assert Before(SampleOf(p), SampleOf(q)) && Before(SampleOf(q), SampleOf(p));
      }
    }
  }

  lemma {:induction false} InsideIsSorted(ordered: seq<Sample>, start: real, brain: bool)
    requires IsSorted(ordered)
    ensures IsSorted(Inside(ordered, start, brain))
  {
    if brain && ordered != [] {
      var front, last := ordered[..|ordered| - 1], ordered[|ordered| - 1];
      InsideIsSorted(front, start, brain);
      forall s | s in Inside(front, start, brain) ensures Before(s, last) {
        InsideIs(front, start, brain, s);
        var k :| 0 <= k < |front| && front[k] == s;
        assert Before(ordered[k], ordered[|ordered| - 1]);
      }
    }
  }

  lemma LatestLast(selected: seq<Sample>, r: Row)
    requires IsSorted(selected) && Counted(r) && exists s | s in selected :: s.at == r.at.value && s.total == r.total.value
    ensures var last := selected[|selected| - 1];
            r.at.value < last.at || (r.at.value == last.at && r.total.value.total <= last.total.total)
  {
    var s :| s in selected && s.at == r.at.value && s.total == r.total.value;
    var i :| 0 <= i < |selected| && selected[i] == s;
    assert i == |selected| - 1 || Before(selected[i], selected[|selected| - 1]);
  }

  /** It is dated by a charged row. */
  lemma DatedByARow(rows: seq<Row>, start: real, brain: bool)
    requires exists r | r in rows :: Charged(r, start, brain)
    ensures var selected := Inside(Sorted(Events(rows)), start, brain);
            selected != [] && exists r | r in rows :: Charged(r, start, brain) && selected[|selected| - 1] == SampleOf(r)
  {
    SomethingSelected(rows, start, brain);
    var selected := Inside(Sorted(Events(rows)), start, brain);
    assert selected[|selected| - 1] in selected;
    SelectedAreCharged(rows, start, brain);
  }

  /** And no charged row is later. */
  lemma DatedByTheLast(rows: seq<Row>, start: real, brain: bool, r: Row)
    requires r in rows && Charged(r, start, brain)
    ensures var selected := Inside(Sorted(Events(rows)), start, brain);
            && selected != [] && var last := selected[|selected| - 1];
            r.at.value < last.at || (r.at.value == last.at && r.total.value.total <= last.total.total)
  {
    var s := RowIsSampled(rows, r);
    InsideIs(Sorted(Events(rows)), start, brain, s);
    SortedIsSorted(Events(rows));
    InsideIsSorted(Sorted(Events(rows)), start, brain);
    LatestLast(Inside(Sorted(Events(rows)), start, brain), r);
  }

  /** And it counts the different totals among the charged rows. */
  lemma CallsExactly(rows: seq<Row>, start: real, brain: bool)
    ensures Totals(Inside(Sorted(Events(rows)), start, brain)) == set r | r in rows && Charged(r, start, brain) :: r.total.value
  {
    SelectedAreCharged(rows, start, brain);
  }
}
