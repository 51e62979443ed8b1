/** Token usage of one session, read from cumulative log samples: the highest value of every counter inside the
    interval, less the baseline. A later regression is reported and never refunds. */
module SessionUsage {
  import opened Sums

  datatype Tokens = Tokens(input: nat, cached: nat, output: nat, reasoning: nat, total: nat)

  const ZERO := Tokens(0, 0, 0, 0, 0)

  /** A log row, with each counter vector already validated (`None` when it was not a valid vector). */
  datatype Row = Row(at: Option<real>, total: Option<Tokens>, last: Option<Tokens>)

  datatype Sample = Sample(at: real, total: Tokens, last: Option<Tokens>)

  datatype Gap = InvalidRecord | Regression | Malformed

  datatype Usage = Usage(tokens: Tokens, sampleAt: real, calls: nat, lastInput: Option<nat>, gaps: set<Gap>)

  // ---------- vectors of counters ----------

  function Join(a: Tokens, b: Tokens): Tokens {
    Tokens(Max(a.input, b.input), Max(a.cached, b.cached), Max(a.output, b.output), Max(a.reasoning, b.reasoning), Max(a.total, b.total))
  }

  predicate Leq(a: Tokens, b: Tokens) {
    a.input <= b.input && a.cached <= b.cached && a.output <= b.output && a.reasoning <= b.reasoning && a.total <= b.total
  }

  function Minus(x: nat, y: nat): nat {
    if x > y then x - y else 0
  }

  function Charge(high: Tokens, base: Tokens): Tokens {
    Tokens(Minus(high.input, base.input), Minus(high.cached, base.cached), Minus(high.output, base.output),
           Minus(high.reasoning, base.reasoning), Minus(high.total, base.total))
  }

  function HighWater(base: Tokens, samples: seq<Sample>): Tokens {
    if samples == [] then base else Join(HighWater(base, samples[..|samples| - 1]), samples[|samples| - 1].total)
  }

  /** Some sample falls below what was reached before it. */
  predicate Regresses(base: Tokens, samples: seq<Sample>) {
    samples != [] &&
    (Regresses(base, samples[..|samples| - 1]) || !Leq(HighWater(base, samples[..|samples| - 1]), samples[|samples| - 1].total))
  }

  lemma {:induction false} FallIsRegression(base: Tokens, samples: seq<Sample>, i: nat)
    requires i < |samples| && !Leq(HighWater(base, samples[..i]), samples[i].total)
    ensures Regresses(base, samples)
  {
    var n := |samples| - 1;
    if i < n {
      assert samples[..n][..i] == samples[..i];
      FallIsRegression(base, samples[..n], i);
    }
  }

  lemma {:induction false} RegressionIsFall(base: Tokens, samples: seq<Sample>) returns (i: nat)
    requires Regresses(base, samples)
    ensures i < |samples| && !Leq(HighWater(base, samples[..i]), samples[i].total)
  {
    var n := |samples| - 1;
    if Regresses(base, samples[..n]) {
      i := RegressionIsFall(base, samples[..n]);
      assert samples[..n][..i] == samples[..i];
    } else {
      i := n;
    }
  }

  /** The least vector above the baseline and every sample: this pins the high water without any order. */
  ghost predicate IsPeak(base: Tokens, samples: seq<Sample>, high: Tokens) {
    && Leq(base, high)
    && (forall s | s in samples :: Leq(s.total, high))
    && (forall u: Tokens | Leq(base, u) && forall s | s in samples :: Leq(s.total, u) :: Leq(high, u))
  }

  lemma {:induction false} HighWaterIsPeak(base: Tokens, samples: seq<Sample>)
    ensures IsPeak(base, samples, HighWater(base, samples))
  {
    if samples != [] {
      var front, last := samples[..|samples| - 1], samples[|samples| - 1];
      HighWaterIsPeak(base, front);
      assert samples == front + [last];
    }
  }

  datatype Counter = Input | Cached | Output | Reasoning | Total

  function Get(t: Tokens, c: Counter): nat {
    match c
    case Input => t.input
    case Cached => t.cached
    case Output => t.output
    case Reasoning => t.reasoning
    case Total => t.total
  }

  /** Each counter of the high water is a value that was really seen: together with the bound, their maximum. */
  lemma {:induction false} HighWaterIsAttained(base: Tokens, samples: seq<Sample>, c: Counter)
    ensures Get(HighWater(base, samples), c) == Get(base, c)
            || exists i | 0 <= i < |samples| :: Get(HighWater(base, samples), c) == Get(samples[i].total, c)
  {
    if samples != [] {
      var front, last := samples[..|samples| - 1], samples[|samples| - 1];
      HighWaterIsAttained(base, front, c);
      if Get(HighWater(base, samples), c) != Get(last.total, c) {
        assert Get(HighWater(base, samples), c) == Get(HighWater(base, front), c);
        assert forall i | 0 <= i < |front| :: front[i] == samples[i];
      }
    }
  }

  /** The charge depends only on which totals were seen, not on their order, and more samples never lower it. */
  lemma MoreSamplesNeverLower(base: Tokens, a: seq<Sample>, b: seq<Sample>)
    requires forall s | s in a :: exists t | t in b :: t.total == s.total
    ensures Leq(HighWater(base, a), HighWater(base, b))
    ensures Leq(Charge(HighWater(base, a), base), Charge(HighWater(base, b), base))
  {
    HighWaterIsPeak(base, a);
    HighWaterIsPeak(base, b);
    forall s | s in a ensures Leq(s.total, HighWater(base, b)) {
      var t :| t in b && t.total == s.total;
    }
  }

  /** Without a regression the session is charged from the baseline to its last sample. */
  lemma {:induction false} NoRegressionIsLast(base: Tokens, samples: seq<Sample>)
    requires samples != [] && !Regresses(base, samples)
    ensures HighWater(base, samples) == samples[|samples| - 1].total
    ensures Leq(base, samples[|samples| - 1].total)
  {
    HighWaterIsPeak(base, samples[..|samples| - 1]);
  }

  // ---------- rows to ordered samples ----------

  /** A repeated total at the same time replaces the breakdown of the earlier one and keeps its place. */
  function Put(events: seq<Sample>, x: Sample): seq<Sample> {
    if events == [] then [x]
    else if events[0].at == x.at && events[0].total == x.total then [x] + events[1..]
    else [events[0]] + Put(events[1..], x)
  }

  function Events(rows: seq<Row>): seq<Sample> {
    if rows == [] then []
    else
      var before, row := Events(rows[..|rows| - 1]), rows[|rows| - 1];
      if row.at.Some? && row.total.Some? then Put(before, Sample(row.at.value, row.total.value, row.last)) else before
  }

  predicate Before(a: Sample, b: Sample) {
    a.at < b.at || (a.at == b.at && a.total.total <= b.total.total)
  }

  /** Stable insertion by time and total. */
  function Insert(ordered: seq<Sample>, x: Sample): seq<Sample> {
    if ordered == [] then [x]
    else if Before(ordered[|ordered| - 1], x) then ordered + [x]
    else Insert(ordered[..|ordered| - 1], x) + [ordered[|ordered| - 1]]
  }

  function Sorted(events: seq<Sample>): seq<Sample> {
    if events == [] then [] else Insert(Sorted(events[..|events| - 1]), events[|events| - 1])
  }

  predicate IsSorted(s: seq<Sample>) {
    forall i, j | 0 <= i < j < |s| :: Before(s[i], s[j])
  }

  lemma {:induction false} InsertHolds(ordered: seq<Sample>, x: Sample, s: Sample)
    ensures s in Insert(ordered, x) <==> s in ordered || s == x
  {
    if ordered != [] {
      InsertHolds(ordered[..|ordered| - 1], x, s);
      assert ordered == ordered[..|ordered| - 1] + [ordered[|ordered| - 1]];
    }
  }

  lemma {:induction false} InsertSorts(ordered: seq<Sample>, x: Sample)
    requires IsSorted(ordered)
    ensures IsSorted(Insert(ordered, x))
  {
    if ordered != [] {
      var front, last := ordered[..|ordered| - 1], ordered[|ordered| - 1];
      if Before(last, x) {
        forall i | 0 <= i < |ordered| ensures Before(ordered[i], x) {
          assert i == |ordered| - 1 || Before(ordered[i], last);
        }
      } else {
        InsertSorts(front, x);
        var inner := Insert(front, x);
        forall i | 0 <= i < |inner| ensures Before(inner[i], last) {
          InsertHolds(front, x, inner[i]);
          if inner[i] != x {
            var k :| 0 <= k < |front| && front[k] == inner[i];
            assert Before(ordered[k], ordered[|ordered| - 1]);
          }
        }
      }
    }
  }

  lemma {:induction false} SortedIsSorted(events: seq<Sample>)
    ensures IsSorted(Sorted(events))
  {
    if events != [] {
      SortedIsSorted(events[..|events| - 1]);
      InsertSorts(Sorted(events[..|events| - 1]), events[|events| - 1]);
    }
  }

  lemma {:induction false} SortedHolds(events: seq<Sample>, s: Sample)
    ensures s in Sorted(events) <==> s in events
  {
    if events != [] {
      var front, last := events[..|events| - 1], events[|events| - 1];
      SortedHolds(front, s);
      InsertHolds(Sorted(front), last, s);
      assert events == front + [last];
    }
  }

  predicate Seen(events: seq<Sample>, at: real, total: Tokens) {
    exists s | s in events :: s.at == at && s.total == total
  }

  lemma {:induction false} PutSees(events: seq<Sample>, x: Sample, at: real, total: Tokens)
    ensures Seen(Put(events, x), at, total) <==> Seen(events, at, total) || (x.at == at && x.total == total)
  {
    if events == [] {
      assert x in [x];
    } else {
      PutSees(events[1..], x, at, total);
      assert events == [events[0]] + events[1..];
      if events[0].at == x.at && events[0].total == x.total {
        assert Put(events, x) == [x] + events[1..];
      } else {
        assert Put(events, x) == [events[0]] + Put(events[1..], x);
      }
    }
  }

  lemma {:induction false} EventsSee(rows: seq<Row>, at: real, total: Tokens)
    ensures Seen(Events(rows), at, total) <==> exists r | r in rows :: r.at == Some(at) && r.total == Some(total)
  {
    if rows != [] {
      var front, row := rows[..|rows| - 1], rows[|rows| - 1];
      EventsSee(front, at, total);
      assert rows == front + [row];
      if row.at.Some? && row.total.Some? {
        PutSees(Events(front), Sample(row.at.value, row.total.value, row.last), at, total);
      }
      if row.at == Some(at) && row.total == Some(total) { assert row in rows; }
    }
  }

  // ---------- the interval and its baseline ----------

  /** The last sample before the interval. */
  function LastBefore(ordered: seq<Sample>, start: real): Option<Sample> {
    if ordered == [] then None
    else if ordered[|ordered| - 1].at < start then Some(ordered[|ordered| - 1])
    else LastBefore(ordered[..|ordered| - 1], start)
  }

  function Inside(ordered: seq<Sample>, start: real, brain: bool): seq<Sample> {
    if !brain then ordered
    else if ordered == [] then []
    else Inside(ordered[..|ordered| - 1], start, brain) + if ordered[|ordered| - 1].at >= start then [ordered[|ordered| - 1]] else []
  }

  predicate CleanPrefix(ordered: seq<Sample>) {
    ordered != [] && ordered[0].last == Some(ordered[0].total)
  }

  /** The baseline, or `None` when the log cannot establish one. */
  function Baseline(ordered: seq<Sample>, start: real, brain: bool, sessionStarts: seq<real>): Option<Tokens> {
    var before := LastBefore(ordered, start);
    if !brain then if CleanPrefix(ordered) then Some(ZERO) else None
    else if before.Some? then Some(before.value.total)
    else if sessionStarts != [] && (forall t | t in sessionStarts :: t >= start) && CleanPrefix(ordered) then Some(ZERO)
    else None
  }

  /** What is charged for the rows, `None` when nothing can be charged safely. */
  function ChargeOf(rows: seq<Row>, start: real, brain: bool, sessionStarts: seq<real>): Option<Tokens> {
    var ordered := Sorted(Events(rows));
    var base, selected := Baseline(ordered, start, brain, sessionStarts), Inside(ordered, start, brain);
    if base.None? || selected == [] then None else Some(Charge(HighWater(base.value, selected), base.value))
  }

  predicate RowFaulty(row: Row, start: real, brain: bool) {
    row.at.None? || ((row.total.None? || row.last.None?) && (!brain || row.at.value >= start))
  }

  predicate Covers(row: Row, from: real, start: real) {
    row.at.Some? && row.total.None? && from <= row.at.value < start
  }

  /** A bad cumulative record between the baseline sample and the start leaves the baseline in doubt. */
  predicate BaselineFaulty(rows: seq<Row>, ordered: seq<Sample>, start: real, brain: bool) {
    var before := LastBefore(ordered, start);
    brain && before.Some? && exists r | r in rows :: Covers(r, before.value.at, start)
  }

  function Totals(samples: seq<Sample>): set<Tokens> {
    set s | s in samples :: s.total
  }

  predicate AnyFaulty(rows: seq<Row>, start: real, brain: bool) {
    rows != [] && (AnyFaulty(rows[..|rows| - 1], start, brain) || RowFaulty(rows[|rows| - 1], start, brain))
  }

  method Read(rows: seq<Row>, start: real, brain: bool) returns (events: seq<Sample>, faulty: bool)
    ensures events == Events(rows) && (faulty <==> AnyFaulty(rows, start, brain))
  {
    events, faulty := [], false;
    for i := 0 to |rows|
      invariant events == Events(rows[..i])
      invariant faulty <==> AnyFaulty(rows[..i], start, brain)
    {
      var row := rows[i];
      assert rows[..i + 1][..i] == rows[..i];
      if RowFaulty(row, start, brain) { faulty := true; }
      if row.at.Some? && row.total.Some? {
        events := Put(events, Sample(row.at.value, row.total.value, row.last));
      }
    }
    assert rows[..|rows|] == rows;
  }

  /** Every in-interval sample is compared with what was reached before it. */
  method Climb(base: Tokens, selected: seq<Sample>) returns (high: Tokens, regressed: bool)
    ensures high == HighWater(base, selected)
    ensures regressed <==> Regresses(base, selected)
  {
    high, regressed := base, false;
    for i := 0 to |selected|
      invariant high == HighWater(base, selected[..i])
      invariant regressed <==> Regresses(base, selected[..i])
    {
      assert selected[..i + 1][..i] == selected[..i];
      if !Leq(high, selected[i].total) { regressed := true; }
      high := Join(high, selected[i].total);
    }
    assert selected[..|selected|] == selected;
  }

  /** `found` are gaps of the reading itself (malformed lines). The answer is `None` when nothing can be charged safely. */
  method Measure(rows: seq<Row>, start: real, brain: bool, sessionStarts: seq<real>, found: set<Gap>) returns (usage: Option<Usage>)
    requires found <= {Malformed}
    ensures var ordered := Sorted(Events(rows));
            var selected := Inside(ordered, start, brain);
            && (usage.Some? <==> ordered != [] && Baseline(ordered, start, brain, sessionStarts).Some? && selected != [])
            && ChargeOf(rows, start, brain, sessionStarts) == (if usage.Some? then Some(usage.value.tokens) else None)
            && (usage.Some? ==>
                  var base := Baseline(ordered, start, brain, sessionStarts).value;
                  && usage.value.tokens == Charge(HighWater(base, selected), base)
                  && (Regression in usage.value.gaps <==> Regresses(base, selected))
                  && (InvalidRecord in usage.value.gaps <==> AnyFaulty(rows, start, brain) || BaselineFaulty(rows, ordered, start, brain))
                  && (Malformed in usage.value.gaps <==> Malformed in found)
                  && usage.value.sampleAt == selected[|selected| - 1].at
                  && usage.value.calls == |Totals(selected)|
                  && usage.value.lastInput == (if selected[|selected| - 1].last.Some? then Some(selected[|selected| - 1].last.value.input) else None))
  {
    var events, faulty := Read(rows, start, brain);
    var ordered := Sorted(events);
    if ordered == [] { return None; }
    var baseline := Baseline(ordered, start, brain, sessionStarts);
    if baseline.None? { return None; }
    var selected := Inside(ordered, start, brain);
    if selected == [] { return None; }
    var doubtful := BaselineFaulty(rows, ordered, start, brain);
    var high, regressed := Climb(baseline.value, selected);
    var gaps := found;
    if faulty || doubtful { gaps := gaps + {InvalidRecord}; }
    if regressed { gaps := gaps + {Regression}; }
    var last := selected[|selected| - 1];
    usage := Some(Usage(Charge(high, baseline.value), last.at, |Totals(selected)|,
                        if last.last.Some? then Some(last.last.value.input) else None, gaps));
  }
}
