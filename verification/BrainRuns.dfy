/** What usage measurement and a brain handoff write into a run: high-water counters that only grow, brain
    segments that follow each other, and the budget check that reads them. */
module BrainRuns {
  import opened Sums

  type Id = string

  datatype Segment = Segment(id: Id, start: real, end: Option<real>)
  datatype Task = Task(id: Id, threadId: Option<Id>, effectIssued: bool, status: string, observed: Option<nat>)
  datatype Role = BrainSession | WorkerSession
  datatype Record = Record(session: Id, role: Role, total: nat)

  /** What a measurement was taken of; digests of it are injective. */
  datatype Scope = Scope(run: Id, brain: Id, startedAt: real, segments: Option<seq<Segment>>,
                         tasks: seq<(Id, Option<Id>, bool, string)>, status: string, checkpoint: Option<real>)
  datatype Report = Report(scope: Scope, collectedAt: real, records: seq<Record>, total: nat, hasGaps: bool)
  datatype Closeout = Closeout(total: nat)
  datatype Budget = Budget(tokenBudget: nat, checkpointReserve: nat)

  datatype Run = Run(id: Id, brainId: Id, startedAt: real, segments: Option<seq<Segment>>, tasks: seq<Task>, status: string,
                     checkpoint: Option<real>, limits: Budget, guarded: bool, revision: nat, report: Option<Report>,
                     highWater: nat, brainObserved: nat, closeoutHigh: nat)

  function ScopeOf(run: Run): Scope {
    Scope(run.id, run.brainId, run.startedAt, run.segments,
          seq(|run.tasks|, i requires 0 <= i < |run.tasks| =>
            (run.tasks[i].id, run.tasks[i].threadId, run.tasks[i].effectIssued, run.tasks[i].status)),
          run.status, run.checkpoint)
  }

  // ---------- measurement ----------

  function TaskOf(tasks: seq<Task>, session: Id): (i: int)
    ensures i == -1 || (0 <= i < |tasks| && tasks[i].threadId == Some(session))
  {
    if tasks == [] then -1
    else if tasks[0].threadId == Some(session) then 0
    else var i := TaskOf(tasks[1..], session); if i == -1 then -1 else i + 1
  }

  function Credit(tasks: seq<Task>, r: Record): Option<seq<Task>> {
    if r.role == BrainSession then Some(tasks)
    else
      var i := TaskOf(tasks, r.session);
      if i == -1 then None
      else Some(tasks[i := tasks[i].(observed := Some(Max(if tasks[i].observed.Some? then tasks[i].observed.value else 0, r.total)))])
  }

  function CreditAll(tasks: seq<Task>, records: seq<Record>): Option<seq<Task>> {
    if records == [] then Some(tasks)
    else
      var before := CreditAll(tasks, records[..|records| - 1]);
      if before.None? then None else Credit(before.value, records[|records| - 1])
  }

  function BrainTotal(records: seq<Record>): nat {
    if records == [] then 0
    else BrainTotal(records[..|records| - 1]) + if records[|records| - 1].role == BrainSession then records[|records| - 1].total else 0
  }

  predicate MeasuresBrain(records: seq<Record>) {
    exists r | r in records :: r.role == BrainSession
  }

  /** The report was collected from `captured`; it is saved only if the run has not changed since. */
  function Refresh(run: Run, captured: Run, report: Report, closeout: Option<Closeout>): Step<Run, ()> {
    var tasks := CreditAll(run.tasks, report.records);
    if run != captured || tasks.None? then Refused
    else Done(run.(report := Some(report),
                   highWater := Max(run.highWater, report.total),
                   brainObserved := if MeasuresBrain(report.records) then Max(run.brainObserved, BrainTotal(report.records)) else run.brainObserved,
                   closeoutHigh := if closeout.Some? then Max(run.closeoutHigh, closeout.value.total) else run.closeoutHigh,
                   tasks := tasks.value, revision := run.revision + 1), ())
  }

  // ---------- handing the run to another brain ----------

  /** The segments before a handoff: a run that never recorded any had one, from its start. */
  function Opened(run: Run): seq<Segment> {
    if run.segments.Some? then run.segments.value else [Segment(run.brainId, run.startedAt, None)]
  }

  function HandOver(run: Run, oldBrain: Id, newBrain: Id, at: real): Run {
    var segments := if run.segments.Some? then run.segments.value else [Segment(oldBrain, run.startedAt, Some(at))];
    var closed := if segments != [] && segments[|segments| - 1].id == oldBrain
                  then segments[..|segments| - 1] + [segments[|segments| - 1].(end := Some(at))] else segments;
    run.(segments := Some(closed + [Segment(newBrain, at, None)]), brainId := newBrain, report := None, revision := run.revision + 1)
  }

  /** Each segment ends when the next one starts, and none runs backwards. */
  predicate Joined(s: seq<Segment>) {
    |s| <= 1
    || (&& Joined(s[..|s| - 1])
        && s[|s| - 2].end == Some(s[|s| - 1].start)
        && s[|s| - 2].start <= s[|s| - 1].start)
  }

  /** Segments follow each other without a gap, only the last is open, and it is the current brain's. */
  predicate Contiguous(run: Run) {
    var s := Opened(run);
    && s != [] && Joined(s)
    && s[|s| - 1].end.None? && s[|s| - 1].id == run.brainId
    && s[0].start == run.startedAt
  }

  lemma HandOverContiguous(run: Run, newBrain: Id, at: real)
    requires Contiguous(run) && at >= Opened(run)[|Opened(run)| - 1].start
    ensures Contiguous(HandOver(run, run.brainId, newBrain, at))
    ensures |Opened(HandOver(run, run.brainId, newBrain, at))| == |Opened(run)| + 1
  {
    var s, t := Opened(run), Opened(HandOver(run, run.brainId, newBrain, at));
    var closed := s[..|s| - 1] + [s[|s| - 1].(end := Some(at))];
    assert t == closed + [Segment(newBrain, at, None)];
    assert t[..|t| - 1] == closed && closed[..|s| - 1] == s[..|s| - 1];
  }

  /** Over the whole history: every segment but the last is closed, at the start of the one after it. */
  lemma {:induction false} SegmentsFollow(s: seq<Segment>, i: nat)
    requires Joined(s) && i + 1 < |s|
    ensures s[i].end == Some(s[i + 1].start) && s[i].start <= s[i + 1].start
  {
    if i + 2 < |s| {
      SegmentsFollow(s[..|s| - 1], i);
    }
  }

  // ---------- the budget check ----------

  datatype Blocker = MeasureFirst | MeasurementExpired | CoverageGaps | BudgetReached

  const FRESH_SECONDS := 120.0

  function Blockers(run: Run, now: real): seq<Blocker> {
    if !run.guarded then []
    else if run.report.None? || run.report.value.scope != ScopeOf(run) then [MeasureFirst]
    else if now - run.report.value.collectedAt > FRESH_SECONDS then [MeasurementExpired]
    else
      (if run.report.value.hasGaps then [CoverageGaps] else [])
      + (if Max(run.report.value.total, run.highWater) + run.limits.checkpointReserve >= run.limits.tokenBudget then [BudgetReached] else [])
  }

  /** What other coordination does to a run between measurements: a task moves on or gets its thread, the run moves on. */
  function Progressed(run: Run, i: nat, thread: Option<Id>, effectIssued: bool, taskStatus: string, status: string, checkpoint: Option<real>): Option<Run> {
    if i >= |run.tasks| || (run.tasks[i].threadId.Some? && run.tasks[i].threadId != thread) then None
    else Some(run.(tasks := run.tasks[i := run.tasks[i].(threadId := thread, effectIssued := effectIssued, status := taskStatus)],
                   status := status, checkpoint := checkpoint, revision := run.revision + 1))
  }

  datatype Op =
    | Measure(captured: Run, report: Report, closeout: Option<Closeout>)
    | Handoff(newBrain: Id, at: real)
    | Progress(i: nat, thread: Option<Id>, effectIssued: bool, taskStatus: string, status: string, checkpoint: Option<real>)

  function Apply(run: Run, op: Op): Run {
    match op
    case Measure(captured, report, closeout) => var s := Refresh(run, captured, report, closeout); if s.Done? then s.state else run
    case Handoff(newBrain, at) => HandOver(run, run.brainId, newBrain, at)
    case Progress(i, thread, effectIssued, taskStatus, status, checkpoint) =>
      var p := Progressed(run, i, thread, effectIssued, taskStatus, status, checkpoint); if p.Some? then p.value else run
  }

  function ApplyAll(run: Run, ops: seq<Op>): Run {
    if ops == [] then run else Apply(ApplyAll(run, ops[..|ops| - 1]), ops[|ops| - 1])
  }

  function ObservedOf(t: Task): nat {
    if t.observed.Some? then t.observed.value else 0
  }

  predicate TasksNeverLess(a: seq<Task>, b: seq<Task>) {
    && |a| == |b|
    && forall i | 0 <= i < |a| :: a[i].id == b[i].id && (a[i].threadId.Some? ==> b[i].threadId == a[i].threadId)
                                  && ObservedOf(a[i]) <= ObservedOf(b[i])
  }

  /** No counter of the run or of any task went down; nothing else that the budget reads changed. */
  predicate NeverLess(a: Run, b: Run) {
    && a.highWater <= b.highWater && a.brainObserved <= b.brainObserved && a.closeoutHigh <= b.closeoutHigh
    && TasksNeverLess(a.tasks, b.tasks)
    && a.limits == b.limits && a.guarded == b.guarded
  }

  /** Progress elsewhere gives a task a thread it did not have, or leaves its thread, and rewrites what the scope reads. */
  lemma ProgressExactly(run: Run, i: nat, thread: Option<Id>, effectIssued: bool, taskStatus: string, status: string, checkpoint: Option<real>)
    ensures var p := Progressed(run, i, thread, effectIssued, taskStatus, status, checkpoint);
            && (p.Some? <==> i < |run.tasks| && (run.tasks[i].threadId == None || run.tasks[i].threadId == thread))
            && (p.Some? ==>
                  && p.value.tasks == run.tasks[i := Task(run.tasks[i].id, thread, effectIssued, taskStatus, run.tasks[i].observed)]
                  && p.value == run.(tasks := p.value.tasks, status := status, checkpoint := checkpoint, revision := run.revision + 1))
  {
  }

  lemma {:induction false} CreditNeverLess(tasks: seq<Task>, records: seq<Record>)
    requires CreditAll(tasks, records).Some?
    ensures TasksNeverLess(tasks, CreditAll(tasks, records).value)
  {
    if records != [] {
      CreditNeverLess(tasks, records[..|records| - 1]);
    }
  }

  /** Each measured task is credited with at least what the measurement found. */
  lemma {:induction false} CreditReaches(tasks: seq<Task>, records: seq<Record>, i: nat)
    requires i < |records| && records[i].role == WorkerSession && CreditAll(tasks, records).Some?
    ensures exists k | 0 <= k < |CreditAll(tasks, records).value| ::
              CreditAll(tasks, records).value[k].threadId == Some(records[i].session)
              && ObservedOf(CreditAll(tasks, records).value[k]) >= records[i].total
  {
    var n := |records| - 1;
    var before, after := CreditAll(tasks, records[..n]).value, CreditAll(tasks, records).value;
    if i < n {
      CreditReaches(tasks, records[..n], i);
      var k :| 0 <= k < |before| && before[k].threadId == Some(records[i].session) && ObservedOf(before[k]) >= records[i].total;
      assert after[k].threadId == before[k].threadId;
    } else {
      var k := TaskOf(before, records[n].session);
      assert after[k].threadId == Some(records[n].session);
    }
  }

  lemma ApplyNeverLess(run: Run, op: Op)
    ensures NeverLess(run, Apply(run, op))
  {
    if op.Measure? && Refresh(run, op.captured, op.report, op.closeout).Done? {
      CreditNeverLess(run.tasks, op.report.records);
    }
  }

  /** Measurements and handoffs, in any number and order, never refund a token. */
  lemma {:induction false} UsageNeverRefunded(run: Run, ops: seq<Op>)
    ensures NeverLess(run, ApplyAll(run, ops))
  {
    if ops != [] {
      UsageNeverRefunded(run, ops[..|ops| - 1]);
      ApplyNeverLess(ApplyAll(run, ops[..|ops| - 1]), ops[|ops| - 1]);
    }
  }

  /** The revision counts the changes, one by one: a run with the revision it had is the run it was. */
  lemma {:induction false} RevisionExactly(run: Run, ops: seq<Op>, op: Op)
    ensures var v := ApplyAll(run, ops);
            && run.revision <= v.revision <= run.revision + |ops|
            && (v.revision == run.revision ==> v == run)
            && Apply(v, op).revision == if Apply(v, op) == v then v.revision else v.revision + 1
  {
    if ops != [] {
      RevisionExactly(run, ops[..|ops| - 1], ops[|ops| - 1]);
    }
  }

  /** Once the high water and the reserve reach the budget, a guarded run is blocked in every later state, at any time. */
  lemma ExhaustedStaysBlocked(run: Run, ops: seq<Op>, now: real)
    requires run.guarded && run.highWater + run.limits.checkpointReserve >= run.limits.tokenBudget
    ensures Blockers(ApplyAll(run, ops), now) != []
  {
    UsageNeverRefunded(run, ops);
  }

  // ---------- the counters are the peaks of what was measured ----------

  /** The operation saves a measurement in the run it meets. */
  predicate Saves(run: Run, op: Op) {
    op.Measure? && Refresh(run, op.captured, op.report, op.closeout).Done?
  }

  /** The first task of this thread: the one a measurement of the thread is credited to. */
  predicate Takes(tasks: seq<Task>, i: nat, session: Id) {
    i < |tasks| && tasks[i].threadId == Some(session) && forall k | 0 <= k < i :: tasks[k].threadId != Some(session)
  }

  lemma {:induction false} TaskOfTakes(tasks: seq<Task>, session: Id)
    ensures var k := TaskOf(tasks, session);
            if k == -1 then forall i | 0 <= i < |tasks| :: tasks[i].threadId != Some(session) else Takes(tasks, k, session)
  {
    if tasks != [] { TaskOfTakes(tasks[1..], session); }
  }

  predicate SameButObserved(a: seq<Task>, b: seq<Task>) {
    |a| == |b| && forall i | 0 <= i < |a| :: b[i] == a[i].(observed := b[i].observed)
  }

  /** The count of task `i` is the greatest of what it was and of the records of its thread. */
  predicate TaskPeak(a: seq<Task>, b: seq<Task>, records: seq<Record>, i: nat)
    requires i < |a| == |b|
  {
    && ObservedOf(a[i]) <= ObservedOf(b[i])
    && (forall r | r in records && r.role == WorkerSession && Takes(a, i, r.session) :: r.total <= ObservedOf(b[i]))
    && (ObservedOf(b[i]) == ObservedOf(a[i])
        || exists r | r in records :: r.role == WorkerSession && Takes(a, i, r.session) && r.total == ObservedOf(b[i]))
  }

  /** Records are credited if and only if every worker's session is some task's thread; then each task's count becomes
      the peak over its own records, whatever their order, and nothing else of any task changes. */
  lemma {:induction false} CreditExactly(tasks: seq<Task>, records: seq<Record>)
    ensures CreditAll(tasks, records).Some?
            <==> forall r | r in records && r.role == WorkerSession :: exists i | 0 <= i < |tasks| :: tasks[i].threadId == Some(r.session)
    ensures CreditAll(tasks, records).Some? ==>
              var b := CreditAll(tasks, records).value;
              SameButObserved(tasks, b) && forall i: nat | i < |tasks| :: TaskPeak(tasks, b, records, i)
  {
    if records != [] {
      var front, r := records[..|records| - 1], records[|records| - 1];
      CreditExactly(tasks, front);
      assert forall x :: x in records <==> x in front || x == r;
      if CreditAll(tasks, front).Some? {
        var m := CreditAll(tasks, front).value;
        TaskOfTakes(m, r.session);
        assert forall i | 0 <= i < |tasks| :: m[i].threadId == tasks[i].threadId;
        if CreditAll(tasks, records).Some? {
          CreditOnePeak(tasks, m, front, r);
          assert records == front + [r];
        }
      }
    }
  }

  lemma CreditOnePeak(tasks: seq<Task>, m: seq<Task>, front: seq<Record>, r: Record)
    requires SameButObserved(tasks, m) && Credit(m, r).Some?
    requires forall i: nat | i < |tasks| :: TaskPeak(tasks, m, front, i)
    ensures var b := Credit(m, r).value;
            SameButObserved(tasks, b) && forall i: nat | i < |tasks| :: TaskPeak(tasks, b, front + [r], i)
  {
    var b := Credit(m, r).value;
    TaskOfTakes(m, r.session);
    forall i: nat | i < |tasks| ensures TaskPeak(tasks, b, front + [r], i) {
      assert TaskPeak(tasks, m, front, i);
      assert Takes(tasks, i, r.session) <==> Takes(m, i, r.session);
      assert r in front + [r] && forall x | x in front :: x in front + [r];
    }
  }

  /** The brain's total is the sum over its own sessions, in any order and however the records are divided. */
  lemma {:induction false} BrainTotalAdds(a: seq<Record>, b: seq<Record>, r: Record)
    ensures BrainTotal(a + b) == BrainTotal(a) + BrainTotal(b)
    ensures BrainTotal([r]) == if r.role == BrainSession then r.total else 0
  {
    if b == [] {
      assert a + b == a;
    } else {
      assert (a + b)[..|a + b| - 1] == a + b[..|b| - 1];
      BrainTotalAdds(a, b[..|b| - 1], r);
    }
    assert [r][..0] == [];
  }

  /** A measurement that was saved, with the tasks it met. */
  datatype Saving = Saving(tasks: seq<Task>, report: Report, closeout: Option<Closeout>)

  function Savings(run: Run, ops: seq<Op>): seq<Saving> {
    if ops == [] then []
    else
      var front, last := ops[..|ops| - 1], ops[|ops| - 1];
      Savings(run, front)
      + if Saves(ApplyAll(run, front), last) then [Saving(ApplyAll(run, front).tasks, last.report, last.closeout)] else []
  }

  /** A measurement is saved if and only if the run is as captured and every worker it measured belongs to a task. */
  lemma SavesExactly(run: Run, op: Op)
    requires op.Measure?
    ensures Saves(run, op)
            <==> run == op.captured
                 && forall r | r in op.report.records && r.role == WorkerSession ::
                      exists i | 0 <= i < |run.tasks| :: run.tasks[i].threadId == Some(r.session)
  {
    CreditExactly(run.tasks, op.report.records);
  }

  /** `peak` is the least number that is at least `floor` and at least every value. */
  predicate IsPeak(peak: nat, floor: nat, values: seq<nat>) {
    floor <= peak && (forall x | x in values :: x <= peak) && (peak == floor || peak in values)
  }

  function ReportTotals(savings: seq<Saving>): seq<nat> {
    if savings == [] then [] else ReportTotals(savings[..|savings| - 1]) + [savings[|savings| - 1].report.total]
  }

  function BrainTotals(savings: seq<Saving>): seq<nat> {
    if savings == [] then []
    else
      var last := savings[|savings| - 1];
      BrainTotals(savings[..|savings| - 1])
      + if exists r | r in last.report.records :: r.role == BrainSession then [BrainTotal(last.report.records)] else []
  }

  function CloseoutTotals(savings: seq<Saving>): seq<nat> {
    if savings == [] then []
    else
      var last := savings[|savings| - 1];
      CloseoutTotals(savings[..|savings| - 1]) + if last.closeout.Some? then [last.closeout.value.total] else []
  }

  /** What the saved measurements found of task `i`, each matched against the tasks as it met them. */
  predicate Found(savings: seq<Saving>, i: nat, total: nat) {
    exists s, r | s in savings && r in s.report.records :: r.role == WorkerSession && Takes(s.tasks, i, r.session) && r.total == total
  }

  predicate IsTaskPeak(peak: nat, floor: nat, savings: seq<Saving>, i: nat) {
    && floor <= peak
    && (forall s, r | s in savings && r in s.report.records :: r.role == WorkerSession && Takes(s.tasks, i, r.session) ==> r.total <= peak)
    && (peak == floor || Found(savings, i, peak))
  }

  lemma PeakGrows(peak: nat, floor: nat, values: seq<nat>, x: nat)
    requires IsPeak(peak, floor, values)
    ensures IsPeak(Max(peak, x), floor, values + [x])
  {
    assert x in values + [x] && forall y | y in values :: y in values + [x];
  }

  lemma TaskPeakGrows(a: Run, run: Run, op: Op, savings: seq<Saving>, i: nat)
    requires Saves(run, op) && |a.tasks| == |run.tasks| && i < |a.tasks|
    requires IsTaskPeak(ObservedOf(run.tasks[i]), ObservedOf(a.tasks[i]), savings, i)
    ensures |Apply(run, op).tasks| == |a.tasks|
    ensures IsTaskPeak(ObservedOf(Apply(run, op).tasks[i]), ObservedOf(a.tasks[i]),
                       savings + [Saving(run.tasks, op.report, op.closeout)], i)
  {
    var last := Saving(run.tasks, op.report, op.closeout);
    CreditExactly(run.tasks, op.report.records);
    var b := Apply(run, op).tasks;
    assert TaskPeak(run.tasks, b, op.report.records, i);
    assert forall s :: s in savings + [last] <==> s in savings || s == last;
    if ObservedOf(b[i]) != ObservedOf(run.tasks[i]) {
      var r :| r in op.report.records && r.role == WorkerSession && Takes(run.tasks, i, r.session) && r.total == ObservedOf(b[i]);
      assert last in savings + [last];
      assert Found(savings + [last], i, ObservedOf(b[i]));
    } else if ObservedOf(run.tasks[i]) != ObservedOf(a.tasks[i]) {
      assert Found(savings, i, ObservedOf(run.tasks[i]));
      assert Found(savings + [last], i, ObservedOf(b[i]));
    }
  }

  /** Over any run the counters are exact: the high water is the least number above the one it started with and every saved
      total, and so are the brain's count over the saved sums of its sessions, and the closeout's over the saved closeouts.
      No measurement is ever charged twice. */
  lemma {:induction false} CountersExactly(run: Run, ops: seq<Op>)
    ensures var v, savings := ApplyAll(run, ops), Savings(run, ops);
            && IsPeak(v.highWater, run.highWater, ReportTotals(savings))
            && IsPeak(v.brainObserved, run.brainObserved, BrainTotals(savings))
            && IsPeak(v.closeoutHigh, run.closeoutHigh, CloseoutTotals(savings))
  {
    if ops != [] {
      var front, op := ops[..|ops| - 1], ops[|ops| - 1];
      CountersExactly(run, front);
      var before, v, savings := ApplyAll(run, front), ApplyAll(run, ops), Savings(run, front);
      if Saves(before, op) {
        var last := Saving(before.tasks, op.report, op.closeout);
        assert Savings(run, ops) == savings + [last] && (savings + [last])[..|savings|] == savings;
        PeakGrows(before.highWater, run.highWater, ReportTotals(savings), op.report.total);
        PeakGrows(before.brainObserved, run.brainObserved, BrainTotals(savings), BrainTotal(op.report.records));
        if op.closeout.Some? { PeakGrows(before.closeoutHigh, run.closeoutHigh, CloseoutTotals(savings), op.closeout.value.total); }
        assert ReportTotals(savings + [last]) == ReportTotals(savings) + [op.report.total];
      } else {
        assert Savings(run, ops) == savings;
      }
    }
  }

  /** And each task's count is the least number above its own and every saved record of its thread. */
  lemma {:induction false} TaskCountsExactly(run: Run, ops: seq<Op>)
    ensures var v := ApplyAll(run, ops);
            |v.tasks| == |run.tasks|
            && forall i: nat | i < |v.tasks| :: IsTaskPeak(ObservedOf(v.tasks[i]), ObservedOf(run.tasks[i]), Savings(run, ops), i)
  {
    if ops != [] {
      var front, op := ops[..|ops| - 1], ops[|ops| - 1];
      TaskCountsExactly(run, front);
      var before, v := ApplyAll(run, front), ApplyAll(run, ops);
      forall i: nat | i < |before.tasks|
        ensures |v.tasks| == |run.tasks| && IsTaskPeak(ObservedOf(v.tasks[i]), ObservedOf(run.tasks[i]), Savings(run, ops), i)
      {
        if Saves(before, op) { TaskPeakGrows(run, before, op, Savings(run, front), i); }
      }
      ApplyNeverLess(before, op);
    }
  }

  // ---------- what an unblocked run has behind it ----------

  /** The operation that saved the last measurement since the last handoff; -1 if there is none. */
  function LastSave(run: Run, ops: seq<Op>): (k: int)
    ensures -1 <= k < |ops| && (k >= 0 ==> ops[k].Measure?)
  {
    if ops == [] then -1
    else
      var front, last := ops[..|ops| - 1], ops[|ops| - 1];
      if last.Handoff? then -1 else if Saves(ApplyAll(run, front), last) then |ops| - 1 else LastSave(run, front)
  }

  lemma ApplyReports(run: Run, op: Op)
    ensures Apply(run, op).report == if op.Handoff? then None else if Saves(run, op) then Some(op.report) else run.report
    ensures Saves(run, op) ==> op.report.total <= Apply(run, op).highWater
  {
  }

  /** The run's report is the last one saved, if no handoff came since, and the high water covers it. */
  lemma {:induction false} ReportIsLastSaved(run: Run, ops: seq<Op>)
    requires run.report.None?
    ensures var v, k := ApplyAll(run, ops), LastSave(run, ops);
            v.report == (if k >= 0 then Some(ops[k].report) else None) && (k >= 0 ==> ops[k].report.total <= v.highWater)
  {
    if ops != [] {
      var front := ops[..|ops| - 1];
      ReportIsLastSaved(run, front);
      ApplyReports(ApplyAll(run, front), ops[|ops| - 1]);
      ApplyNeverLess(ApplyAll(run, front), ops[|ops| - 1]);
    }
  }

  /** Over any run from one without a measurement, with `k` the last measurement saved since the last handoff: each blocker
      is named exactly when it applies. So a guarded run is unblocked if and only if that measurement was of the scope the
      run has now, without gaps and at most two minutes ago, and there is room left; an unguarded one always is. */
  lemma UnblockedExactly(run: Run, ops: seq<Op>, now: real)
    requires run.report.None?
    ensures var v, k := ApplyAll(run, ops), LastSave(run, ops);
            var blockers := Blockers(v, now);
            var known := k >= 0 && ops[k].report.scope == ScopeOf(v);
            var recent := known && now - ops[k].report.collectedAt <= 120.0;
            var spent := v.highWater + v.limits.checkpointReserve >= v.limits.tokenBudget;
            && (MeasureFirst in blockers <==> run.guarded && !known)
            && (MeasurementExpired in blockers <==> run.guarded && known && !recent)
            && (CoverageGaps in blockers <==> run.guarded && recent && ops[k].report.hasGaps)
            && (BudgetReached in blockers <==> run.guarded && recent && spent)
            && (blockers == [] <==> run.guarded ==> recent && !ops[k].report.hasGaps && !spent)
  {
    ReportIsLastSaved(run, ops);
    UsageNeverRefunded(run, ops);
  }

  lemma {:induction false} NothingSaved(run: Run, ops: seq<Op>)
    requires forall j | 0 <= j < |ops| :: !Saves(ApplyAll(run, ops[..j]), ops[j])
    ensures LastSave(run, ops) == -1
  {
    if ops != [] {
      var n := |ops| - 1;
      assert forall j | 0 <= j < n :: ops[..n][..j] == ops[..j];
      NothingSaved(run, ops[..n]);
    }
  }

  /** After a handoff the run stays blocked, whatever else moves on, until a measurement is saved. */
  lemma HandoffNeedsMeasure(run: Run, newBrain: Id, at: real, ops: seq<Op>, now: real)
    requires run.guarded
    requires forall j | 0 <= j < |ops| :: !Saves(ApplyAll(HandOver(run, run.brainId, newBrain, at), ops[..j]), ops[j])
    ensures Blockers(ApplyAll(HandOver(run, run.brainId, newBrain, at), ops), now) == [MeasureFirst]
  {
    var handed := HandOver(run, run.brainId, newBrain, at);
    ReportIsLastSaved(handed, ops);
    NothingSaved(handed, ops);
    UsageNeverRefunded(handed, ops);
  }

  // ---------- the stored run ----------

  class RunStore {
    var run: Run

    constructor (run: Run)
      ensures this.run == run
    {
      this.run := run;
    }

    method Save(captured: Run, report: Report, closeout: Option<Closeout>) returns (ok: bool)
      modifies this
      ensures var s := Refresh(old(run), captured, report, closeout);
              ok == s.Done? && run == if s.Done? then s.state else old(run)
    {
      if run != captured { return false; }
      var current := run;
      if closeout.Some? { current := current.(closeoutHigh := Max(current.closeoutHigh, closeout.value.total)); }
      current := current.(report := Some(report), highWater := Max(current.highWater, report.total));
      var tasks, brain, any := CreditTasks(current.tasks, report.records);
      if tasks.None? { return false; }
      if any { current := current.(brainObserved := Max(current.brainObserved, brain)); }
      run := current.(tasks := tasks.value, revision := current.revision + 1);
      ok := true;
    }
  }

  /** The loop over the measured sessions: workers are credited, the brain's own sessions are added up. */
  method CreditTasks(tasks: seq<Task>, records: seq<Record>) returns (credited: Option<seq<Task>>, brain: nat, any: bool)
    ensures credited == CreditAll(tasks, records)
    ensures credited.Some? ==> brain == BrainTotal(records) && any == MeasuresBrain(records)
  {
    brain, any := 0, false;
    var current := tasks;
    for i := 0 to |records|
      invariant CreditAll(tasks, records[..i]) == Some(current)
      invariant brain == BrainTotal(records[..i])
      invariant any <==> exists j | 0 <= j < i :: records[j].role == BrainSession
    {
      var r := records[i];
      assert records[..i + 1][..i] == records[..i];
      if r.role == BrainSession {
        brain, any := brain + r.total, true;
      } else {
        var k := TaskOf(current, r.session);
        if k == -1 {
          Uncredited(tasks, records, i);
          return None, 0, false;
        }
        var seen := if current[k].observed.Some? then current[k].observed.value else 0;
        current := current[k := current[k].(observed := Some(Max(seen, r.total)))];
      }
    }
    assert records[..|records|] == records;
    credited := Some(current);
  }

  /** One record without a task refuses the whole measurement. */
  lemma {:induction false} Uncredited(tasks: seq<Task>, records: seq<Record>, i: nat)
    requires i < |records| && CreditAll(tasks, records[..i + 1]).None?
    ensures CreditAll(tasks, records).None?
  {
    if i + 1 < |records| {
      assert records[..|records| - 1][..i + 1] == records[..i + 1];
      Uncredited(tasks, records[..|records| - 1], i);
    } else {
      assert records[..i + 1] == records;
    }
  }
}
