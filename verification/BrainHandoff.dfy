/** Handing a workspace from one brain to another. The ledger of the workspace and the registry of all
    workspaces are two databases: the last step commits the ledger first and the registry second, and an
    interruption between the two leaves a registry row one step behind, to be repaired by its owner. */
module BrainHandoffs {
  import opened Sums
  import BrainRuns

  type Id = string

  datatype Project = Project(key: Id, projectId: Id, hostId: Id, location: Id, catalog: Id)
  datatype Phase = Prepared | Nominated | Received | Complete | Cancelled
  datatype Candidate = Candidate(taskId: Id, projectId: Id, hostId: Id, observation: string)
  datatype Receipt = Receipt(taskId: Id, packageHash: Id, summary: string)
  datatype Handoff = Handoff(id: Id, phase: Phase, oldBrain: Id, packageHash: Id, project: Project, runId: Id,
                             createdAt: real, candidate: Option<Candidate>, receipt: Option<Receipt>, completedAt: Option<real>)

  /** One workspace's own database. */
  datatype Ledger = Ledger(brainId: Id, run: BrainRuns.Run, handoff: Option<Handoff>)

  datatype Former = Former(brain: Id, endedAt: real, handoffId: Id)
  /** A registered workspace: the brain column, the brain in the row's document, and the brains before it. */
  datatype Row = Row(brain: Id, dataBrain: Id, history: seq<Former>)
  /** The project column and the workspace column of a binding are both unique. */
  datatype Binding = Binding(key: Id, brain: Id, location: Id)
  datatype Entry = Entry(projectId: Id, hostId: Id, location: Id)
  datatype Catalog = Catalog(hash: Id, projects: map<Id, Entry>)

  datatype World = World(ledgers: map<Id, Ledger>, rows: map<Id, Row>, bindings: map<Id, Binding>,
                         catalog: Option<Catalog>, clock: real)

  // What the owner signed: digests of whole documents are injective, so the documents stand for them.
  datatype Preview = Preview(id: Id, oldBrain: Id, packageHash: Id, project: Project, runId: Id, runRevision: nat)
  datatype Review = Review(handoff: Handoff, runId: Id, runRevision: nat, oldBrain: Id, newBrain: Id)

  // ---------- guards ----------

  /** Every control of a workspace is reached through this comparison of the two databases. */
  predicate Reachable(w: World, ws: Id) {
    ws in w.rows && ws in w.ledgers && w.ledgers[ws].brainId == w.rows[ws].dataBrain
  }

  predicate Taken(w: World, brain: Id) {
    exists ws | ws in w.rows :: w.rows[ws].brain == brain
  }

  function ProjectOf(w: World, ws: Id): Option<Project> {
    if w.catalog.None? || ws !in w.bindings || ws !in w.rows then None
    else
      var b := w.bindings[ws];
      if b.brain != w.rows[ws].brain || b.key !in w.catalog.value.projects || w.catalog.value.projects[b.key].location != b.location then None
      else Some(Project(b.key, w.catalog.value.projects[b.key].projectId, w.catalog.value.projects[b.key].hostId, b.location, w.catalog.value.hash))
  }

  predicate Pending(h: Option<Handoff>) {
    h.Some? && h.value.phase != Complete && h.value.phase != Cancelled
  }

  // ---------- the steps of one ledger ----------

  datatype LedgerStep =
    | Confirm(doc: Preview)
    | Nominate(id: Id, value: Candidate)
    | Acknowledge(id: Id, reply: Receipt, observed: bool)
    | Measure(captured: BrainRuns.Run, report: BrainRuns.Report)

  function Confirmed(l: Ledger, doc: Preview, project: Option<Project>, now: real): Option<Ledger> {
    if project != Some(doc.project) || l.run.brainId != l.brainId || l.brainId != doc.oldBrain
       || l.run.id != doc.runId || l.run.revision != doc.runRevision || Pending(l.handoff) then None
    else Some(l.(handoff := Some(Handoff(doc.id, Prepared, doc.oldBrain, doc.packageHash, doc.project, doc.runId, now, None, None, None))))
  }

  function Proposed(l: Ledger, id: Id, value: Candidate): Option<Ledger> {
    if l.run.brainId != l.brainId || l.handoff.None? then None
    else
      var h := l.handoff.value;
      if h.id != id || h.phase !in {Prepared, Nominated} || value.taskId == l.brainId
         || value.projectId != h.project.projectId || value.hostId != h.project.hostId then None
      else if h.candidate.Some? then (if h.candidate == Some(value) then Some(l) else None)
      else Some(l.(handoff := Some(h.(candidate := Some(value), phase := Nominated))))
  }

  function Acknowledged(l: Ledger, id: Id, reply: Receipt, observed: bool): Option<Ledger> {
    if l.run.brainId != l.brainId || l.handoff.None? then None
    else
      var h := l.handoff.value;
      if h.id != id || h.phase !in {Nominated, Received} || h.candidate.None? || h.candidate.value.taskId != reply.taskId
         || h.packageHash != reply.packageHash then None
      else if h.receipt.Some? then (if h.receipt == Some(reply) then Some(l) else None)
      else if !observed then None
      else Some(l.(handoff := Some(h.(receipt := Some(reply), phase := Received))))
  }

  function Measured(l: Ledger, captured: BrainRuns.Run, report: BrainRuns.Report): Option<Ledger> {
    var s := BrainRuns.Refresh(l.run, captured, report, None);
    if s.Done? then Some(l.(run := s.state)) else None
  }

  function InLedger(l: Ledger, step: LedgerStep, project: Option<Project>, now: real): Option<Ledger> {
    match step
    case Confirm(doc) => Confirmed(l, doc, project, now)
    case Nominate(id, value) => Proposed(l, id, value)
    case Acknowledge(id, reply, observed) => Acknowledged(l, id, reply, observed)
    case Measure(captured, report) => Measured(l, captured, report)
  }

  // ---------- the steps of both databases; `safe` is the outcome of the checks on state kept elsewhere ----------

  function OnLedger(w: World, ws: Id, step: LedgerStep, safe: bool): Option<World> {
    if !safe || !Reachable(w, ws) then None
    else
      var t := InLedger(w.ledgers[ws], step, ProjectOf(w, ws), w.clock);
      if t.Some? then Some(w.(ledgers := w.ledgers[ws := t.value])) else None
  }

  /** The first commit of the last step. */
  function Rehanded(l: Ledger, newBrain: Id, at: real): Ledger
    requires l.handoff.Some?
  {
    Ledger(newBrain, BrainRuns.HandOver(l.run, l.brainId, newBrain, at),
           Some(l.handoff.value.(phase := Complete, completedAt := Some(at))))
  }

  /** The second commit: the brain column, the row's document with one more former brain, and the binding. */
  function Rebound(w: World, ws: Id, oldBrain: Id, newBrain: Id, at: real, id: Id): World
    requires ws in w.rows
  {
    w.(rows := w.rows[ws := Row(newBrain, newBrain, w.rows[ws].history + [Former(oldBrain, at, id)])],
       bindings := if ws in w.bindings then w.bindings[ws := w.bindings[ws].(brain := newBrain)] else w.bindings)
  }

  predicate Finalizes(w: World, ws: Id, doc: Review, safe: bool) {
    && safe && Reachable(w, ws)
    && var l := w.ledgers[ws];
    && l.run.brainId == l.brainId && l.handoff == Some(doc.handoff) && doc.handoff.phase == Received
    && l.run.revision == doc.runRevision && l.run.id == doc.runId && l.brainId == doc.oldBrain
    && doc.handoff.candidate.Some? && doc.handoff.candidate.value.taskId == doc.newBrain
    && ProjectOf(w, ws) == Some(doc.handoff.project)
    && !Taken(w, doc.newBrain)
  }

  /** `dies`: the process stops after the ledger's commit and before the registry's. */
  function Finalize(w: World, ws: Id, doc: Review, safe: bool, dies: bool): Option<World> {
    if !Finalizes(w, ws, doc, safe) then None
    else
      var committed := w.(ledgers := w.ledgers[ws := Rehanded(w.ledgers[ws], doc.newBrain, w.clock)]);
      Some(if dies then committed else Rebound(committed, ws, w.ledgers[ws].brainId, doc.newBrain, w.clock, doc.handoff.id))
  }

  function Recover(w: World, ws: Id, id: Id, safe: bool): Option<World> {
    if !safe || ws !in w.rows || ws !in w.ledgers then None
    else
      var l := w.ledgers[ws];
      if l.handoff.None? || l.handoff.value.id != id || l.handoff.value.phase != Complete || l.run.brainId != l.brainId
         || l.handoff.value.candidate.None? || l.handoff.value.candidate.value.taskId != l.brainId
         || l.handoff.value.completedAt.None? || ws !in w.bindings then None
      else
        var h, row, b := l.handoff.value, w.rows[ws], w.bindings[ws];
        if b.key != h.project.key || b.location != h.project.location then None
        else if row.brain == l.brainId then (if b.brain == l.brainId && row.dataBrain == l.brainId then Some(w) else None)
        else if row.brain != h.oldBrain || row.dataBrain != h.oldBrain || b.brain != h.oldBrain || Taken(w, l.brainId) then None
        else Some(Rebound(w, ws, h.oldBrain, l.brainId, h.completedAt.value, id))
  }

  function Register(w: World, ws: Id, run: BrainRuns.Run, open: bool): Option<World> {
    if !open || ws in w.rows || ws in w.ledgers || ws in w.bindings || Taken(w, run.brainId)
       || run.segments.Some? || run.startedAt > w.clock then None
    else Some(w.(ledgers := w.ledgers[ws := Ledger(run.brainId, run, None)],
                 rows := w.rows[ws := Row(run.brainId, run.brainId, [])]))
  }

  function Bind(w: World, ws: Id, key: Id): Option<World> {
    if w.catalog.None? || key !in w.catalog.value.projects || ws !in w.rows then None
    else
      var value := Binding(key, w.rows[ws].dataBrain, w.catalog.value.projects[key].location);
      if ws in w.bindings then (if w.bindings[ws] == value then Some(w) else None)
      else if exists other | other in w.bindings :: w.bindings[other].key == key then None
      else Some(w.(bindings := w.bindings[ws := value]))
  }

  datatype Op =
    | OpRegister(ws: Id, run: BrainRuns.Run, open: bool)
    | OpSync(catalog: Catalog)
    | OpBind(ws: Id, key: Id)
    | OpTick(to: real)
    | OpLedger(ws: Id, step: LedgerStep, safe: bool)
    | OpFinalize(ws: Id, review: Review, safe: bool, dies: bool)
    | OpRecover(ws: Id, id: Id, safe: bool)

  function Try(w: World, op: Op): Option<World> {
    match op
    case OpRegister(ws, run, open) => Register(w, ws, run, open)
    case OpSync(catalog) => Some(w.(catalog := Some(catalog)))
    case OpBind(ws, key) => Bind(w, ws, key)
    case OpTick(to) => if to >= w.clock then Some(w.(clock := to)) else None
    case OpLedger(ws, step, safe) => OnLedger(w, ws, step, safe)
    case OpFinalize(ws, review, safe, dies) => Finalize(w, ws, review, safe, dies)
    case OpRecover(ws, id, safe) => Recover(w, ws, id, safe)
  }

  /** A refused step changes nothing. */
  function Apply(w: World, op: Op): World {
    var t := Try(w, op);
    if t.Some? then t.value else w
  }

  function ApplyAll(w: World, ops: seq<Op>): World {
    if ops == [] then w else Apply(ApplyAll(w, ops[..|ops| - 1]), ops[|ops| - 1])
  }

  // ---------- what every reachable state keeps ----------

  /** The brains a row remembers are the closed segments of the workspace's run, in order. */
  predicate Remembers(history: seq<Former>, run: BrainRuns.Run) {
    var s := BrainRuns.Opened(run);
    && |history| == |s| - 1
    && forall i | 0 <= i < |history| :: history[i].brain == s[i].id && Some(history[i].endedAt) == s[i].end
  }

  predicate SoundHandoff(h: Handoff, brain: Id) {
    && (h.phase == Prepared ==> h.candidate.None?)
    && (h.phase in {Nominated, Received, Complete} ==> h.candidate.Some? && h.candidate.value.taskId != h.oldBrain)
    && (h.phase in {Received, Complete} <==> h.receipt.Some?)
    && (h.phase == Complete <==> h.completedAt.Some?)
    && (h.phase in {Prepared, Nominated, Received} ==> h.oldBrain == brain)
    && h.phase != Cancelled
  }

  predicate SoundLedger(l: Ledger, clock: real) {
    && l.run.brainId == l.brainId
    && BrainRuns.Contiguous(l.run)
    && BrainRuns.Opened(l.run)[|BrainRuns.Opened(l.run)| - 1].start <= clock
    && (l.handoff.Some? ==> SoundHandoff(l.handoff.value, l.brainId))
  }

  /** Both databases name the same brain and tell the same story. */
  predicate Agrees(l: Ledger, row: Row, b: Option<Binding>) {
    && row.brain == row.dataBrain == l.brainId
    && (b.Some? ==> b.value.brain == row.brain)
    && Remembers(row.history, l.run)
  }

  /** The registry is behind the ledger by exactly one completed handoff, which the ledger records. */
  predicate Behind(l: Ledger, row: Row, b: Option<Binding>) {
    && l.handoff.Some? && l.handoff.value.phase == Complete && l.handoff.value.candidate.Some? && l.handoff.value.completedAt.Some?
    && var h := l.handoff.value;
    && h.candidate.value.taskId == l.brainId != h.oldBrain
    && row.brain == row.dataBrain == h.oldBrain
    && b.Some? && b.value.brain == h.oldBrain && b.value.key == h.project.key && b.value.location == h.project.location
    && Remembers(row.history + [Former(h.oldBrain, h.completedAt.value, h.id)], l.run)
  }

  function BindingOf(w: World, ws: Id): Option<Binding> {
    if ws in w.bindings then Some(w.bindings[ws]) else None
  }

  predicate OneBrainEach(w: World) {
    forall a, b | a in w.rows && b in w.rows && a != b :: w.rows[a].brain != w.rows[b].brain
  }

  predicate Sound(l: Ledger, row: Row, b: Option<Binding>, clock: real) {
    SoundLedger(l, clock) && (Agrees(l, row, b) || Behind(l, row, b))
  }

  predicate SoundWorkspace(w: World, ws: Id)
    requires ws in w.rows && ws in w.ledgers
  {
    Sound(w.ledgers[ws], w.rows[ws], BindingOf(w, ws), w.clock)
  }

  predicate Registered(w: World) {
    w.ledgers.Keys == w.rows.Keys && w.bindings.Keys <= w.rows.Keys && OneBrainEach(w)
  }

  predicate Invariant(w: World) {
    && Registered(w)
    && forall ws {:trigger SoundWorkspace(w, ws)} | ws in w.rows :: SoundWorkspace(w, ws)
  }

  predicate Empty(w: World) {
    w.ledgers == map[] && w.rows == map[] && w.bindings == map[]
  }

  /** A step writes at most one workspace, and leaves every other as it was. */
  ghost predicate TouchesOnly(w: World, v: World, ws: Id) {
    && v.clock == w.clock
    && forall k: Id | k != ws ::
         && (k in v.ledgers <==> k in w.ledgers) && (k in v.rows <==> k in w.rows) && (k in v.bindings <==> k in w.bindings)
         && (k in w.ledgers ==> v.ledgers[k] == w.ledgers[k])
         && (k in w.rows ==> v.rows[k] == w.rows[k])
         && (k in w.bindings ==> v.bindings[k] == w.bindings[k])
  }

  lemma StaysRegistered(w: World, v: World, ws: Id)
    requires Registered(w) && TouchesOnly(w, v, ws) && ws in v.rows && ws in v.ledgers
    requires forall k | k in w.rows && k != ws :: v.rows[ws].brain != w.rows[k].brain
    ensures Registered(v)
  {
    assert forall k | k in v.rows :: k in v.ledgers;
    assert forall k | k in v.ledgers :: k in v.rows;
    assert forall k | k in v.bindings :: k in v.rows;
  }

  lemma OthersStaySound(w: World, v: World, ws: Id)
    requires Invariant(w) && TouchesOnly(w, v, ws) && ws in v.rows && ws in v.ledgers && SoundWorkspace(v, ws)
    requires forall k | k in w.rows && k != ws :: v.rows[ws].brain != w.rows[k].brain
    ensures Invariant(v)
  {
    StaysRegistered(w, v, ws);
    forall k | k in v.rows && k != ws ensures SoundWorkspace(v, k)
    {
      OneStaysSound(w, v, ws, k);
    }
  }

  lemma OneStaysSound(w: World, v: World, ws: Id, k: Id)
    requires Invariant(w) && TouchesOnly(w, v, ws) && k in w.rows && k != ws
    ensures k in v.rows && k in v.ledgers && SoundWorkspace(v, k)
  {
    assert SoundWorkspace(w, k);
    assert BindingOf(v, k) == BindingOf(w, k);
  }

  /** The ledger's commit leaves it sound, with one more closed segment for the registry to remember. */
  lemma RehandedSound(l: Ledger, newBrain: Id, at: real, history: seq<Former>)
    requires SoundLedger(l, at) && Remembers(history, l.run) && l.handoff.Some?
    requires l.handoff.value.phase == Received && l.handoff.value.candidate.Some? && l.handoff.value.candidate.value.taskId == newBrain
    ensures SoundLedger(Rehanded(l, newBrain, at), at)
    ensures Remembers(history + [Former(l.brainId, at, l.handoff.value.id)], Rehanded(l, newBrain, at).run)
  {
    BrainRuns.HandOverContiguous(l.run, newBrain, at);
    var s, t := BrainRuns.Opened(l.run), BrainRuns.Opened(BrainRuns.HandOver(l.run, l.brainId, newBrain, at));
    assert t == s[..|s| - 1] + [s[|s| - 1].(end := Some(at)), BrainRuns.Segment(newBrain, at, None)];
  }

  lemma FinalizeKeeps(w: World, ws: Id, doc: Review, safe: bool, dies: bool)
    requires Invariant(w) && Finalizes(w, ws, doc, safe)
    ensures Invariant(Finalize(w, ws, doc, safe, dies).value)
  {
    var l, v := w.ledgers[ws], Finalize(w, ws, doc, safe, dies).value;
    assert SoundWorkspace(w, ws);
    RehandedSound(l, doc.newBrain, w.clock, w.rows[ws].history);
    assert if dies then Behind(v.ledgers[ws], v.rows[ws], BindingOf(v, ws)) else Agrees(v.ledgers[ws], v.rows[ws], BindingOf(v, ws));
    OthersStaySound(w, v, ws);
  }

  lemma RecoverKeeps(w: World, ws: Id, id: Id, safe: bool)
    requires Invariant(w) && Recover(w, ws, id, safe).Some?
    ensures Invariant(Recover(w, ws, id, safe).value)
  {
    var v := Recover(w, ws, id, safe).value;
    assert SoundWorkspace(w, ws);
    if w.rows[ws].brain != w.ledgers[ws].brainId {
      assert Agrees(v.ledgers[ws], v.rows[ws], BindingOf(v, ws));
      OthersStaySound(w, v, ws);
    }
  }

  /** Steps of one ledger keep it sound and keep its brain and segments. */
  lemma InLedgerKeeps(l: Ledger, step: LedgerStep, project: Option<Project>, now: real)
    requires SoundLedger(l, now) && InLedger(l, step, project, now).Some?
    ensures var k := InLedger(l, step, project, now).value;
            SoundLedger(k, now) && k.brainId == l.brainId && k.run.segments == l.run.segments && k.run.startedAt == l.run.startedAt
    ensures !Pending(l.handoff) ==> InLedger(l, step, project, now).value.handoff == l.handoff || step.Confirm?
  {
  }

  lemma LedgerStepKeeps(w: World, ws: Id, step: LedgerStep, safe: bool)
    requires Invariant(w) && OnLedger(w, ws, step, safe).Some?
    ensures Invariant(OnLedger(w, ws, step, safe).value)
  {
    var v := OnLedger(w, ws, step, safe).value;
    assert SoundWorkspace(w, ws);
    InLedgerKeeps(w.ledgers[ws], step, ProjectOf(w, ws), w.clock);
    assert BindingOf(v, ws) == BindingOf(w, ws);
    assert Agrees(w.ledgers[ws], w.rows[ws], BindingOf(w, ws));
    assert BrainRuns.Opened(v.ledgers[ws].run) == BrainRuns.Opened(w.ledgers[ws].run);
    OthersStaySound(w, v, ws);
  }

  lemma RegisterKeeps(w: World, ws: Id, run: BrainRuns.Run, open: bool)
    requires Invariant(w) && Register(w, ws, run, open).Some?
    ensures Invariant(Register(w, ws, run, open).value)
  {
    OthersStaySound(w, Register(w, ws, run, open).value, ws);
  }

  lemma BindKeeps(w: World, ws: Id, key: Id)
    requires Invariant(w) && Bind(w, ws, key).Some?
    ensures Invariant(Bind(w, ws, key).value)
  {
    assert SoundWorkspace(w, ws);
    OthersStaySound(w, Bind(w, ws, key).value, ws);
  }

  lemma SurroundingsKeep(w: World, catalog: Option<Catalog>, to: real)
    requires Invariant(w) && to >= w.clock
    ensures Invariant(w.(catalog := catalog, clock := to))
  {
    var v := w.(catalog := catalog, clock := to);
    forall ws | ws in v.rows ensures SoundWorkspace(v, ws)
    {
      assert SoundWorkspace(w, ws);
      assert BindingOf(v, ws) == BindingOf(w, ws);
    }
  }

  lemma ApplyKeeps(w: World, op: Op)
    requires Invariant(w)
    ensures Invariant(Apply(w, op))
  {
    var t := Try(w, op);
    if t.Some? {
      match op {
        case OpRegister(ws, run, open) => RegisterKeeps(w, ws, run, open);
        case OpBind(ws, key) => BindKeeps(w, ws, key);
        case OpSync(catalog) => SurroundingsKeep(w, Some(catalog), w.clock);
        case OpTick(to) => SurroundingsKeep(w, w.catalog, to);
        case OpLedger(ws, step, safe) => LedgerStepKeeps(w, ws, step, safe);
        case OpFinalize(ws, review, safe, dies) => FinalizeKeeps(w, ws, review, safe, dies);
        case OpRecover(ws, id, safe) => RecoverKeeps(w, ws, id, safe);
      }
    }
  }

  /** Over any run of any number of workspaces and handoffs, interrupted or not: segments stay contiguous with only
      the last open and it the run's brain, rows never share a brain, a row is at most one handoff behind its ledger,
      and the brains a row remembers are the closed segments of its run. */
  lemma {:induction false} RunKeeps(w: World, ops: seq<Op>)
    requires Empty(w) || Invariant(w)
    ensures Invariant(ApplyAll(w, ops))
  {
    if ops != [] {
      RunKeeps(w, ops[..|ops| - 1]);
      ApplyKeeps(ApplyAll(w, ops[..|ops| - 1]), ops[|ops| - 1]);
    }
  }

  // ---------- repair ----------

  predicate Stranded(w: World, ws: Id) {
    ws in w.rows && ws in w.ledgers && w.rows[ws].dataBrain != w.ledgers[ws].brainId
  }

  predicate Same(w: World, v: World, ws: Id) {
    && ws in w.rows && ws in v.rows && w.rows[ws] == v.rows[ws]
    && ws in w.ledgers && ws in v.ledgers && w.ledgers[ws] == v.ledgers[ws]
    && BindingOf(w, ws) == BindingOf(v, ws)
  }

  /** Only its own steps and its own last step write a ledger. */
  lemma LedgerKept(w: World, op: Op, ws: Id)
    requires ws in w.ledgers && !((op.OpLedger? || op.OpFinalize?) && op.ws == ws)
    ensures ws in Apply(w, op).ledgers && Apply(w, op).ledgers[ws] == w.ledgers[ws]
  {
  }

  lemma RegistryKept(w: World, op: Op, ws: Id)
    requires ws in w.rows && ws in w.bindings && !((op.OpFinalize? || op.OpRecover?) && op.ws == ws)
    ensures ws in Apply(w, op).rows && Apply(w, op).rows[ws] == w.rows[ws] && BindingOf(Apply(w, op), ws) == BindingOf(w, ws)
  {
  }

  /** While a row is behind, nothing but its own recovery can touch the workspace. */
  lemma StrandedIsFenced(w: World, ws: Id, op: Op)
    requires Invariant(w) && Stranded(w, ws) && !(op.OpRecover? && op.ws == ws)
    ensures Same(w, Apply(w, op), ws)
  {
    assert SoundWorkspace(w, ws);
    assert !Reachable(w, ws);
    if (op.OpLedger? || op.OpFinalize?) && op.ws == ws {
      assert Try(w, op).None?;
    } else {
      LedgerKept(w, op, ws);
      RegistryKept(w, op, ws);
    }
  }

  lemma {:induction false} StrandedWaits(w: World, ws: Id, ops: seq<Op>)
    requires Invariant(w) && Stranded(w, ws) && forall i | 0 <= i < |ops| :: !(ops[i].OpRecover? && ops[i].ws == ws)
    ensures Same(w, ApplyAll(w, ops), ws)
  {
    if ops != [] {
      var before := ops[..|ops| - 1];
      StrandedWaits(w, ws, before);
      RunKeeps(w, before);
      StrandedIsFenced(ApplyAll(w, before), ws, ops[|ops| - 1]);
    }
  }

  /** Recovery of a stranded workspace succeeds exactly when no other workspace took the new brain meanwhile. */
  lemma RecoversExactly(w: World, ws: Id)
    requires Invariant(w) && Stranded(w, ws)
    ensures w.ledgers[ws].handoff.Some?
    ensures Recover(w, ws, w.ledgers[ws].handoff.value.id, true).Some? <==> !Taken(w, w.ledgers[ws].brainId)
  {
    assert SoundWorkspace(w, ws);
  }

  /** The process dies between the two commits; anything may happen to the other workspaces and to this one short of
      its recovery; then recovery gives the ledger, registry row, history entry and binding of an uninterrupted
      `finalize`, and repeating it changes nothing. */
  lemma CrashIsRepaired(w: World, ws: Id, doc: Review, ops: seq<Op>)
    requires Invariant(w) && Finalizes(w, ws, doc, true)
    requires forall i | 0 <= i < |ops| :: !(ops[i].OpRecover? && ops[i].ws == ws)
    ensures var crashed := ApplyAll(Finalize(w, ws, doc, true, true).value, ops);
            var whole := Finalize(w, ws, doc, true, false).value;
            var repaired := Recover(crashed, ws, doc.handoff.id, true);
            && (repaired.Some? <==> !Taken(crashed, doc.newBrain))
            && (repaired.Some? ==> Same(whole, repaired.value, ws) && Reachable(repaired.value, ws)
                                   && Recover(repaired.value, ws, doc.handoff.id, true) == repaired)
            && (ops == [] ==> repaired == Some(whole))
  {
    var cut := Finalize(w, ws, doc, true, true).value;
    FinalizeKeeps(w, ws, doc, true, true);
    assert SoundWorkspace(w, ws);
    assert Stranded(cut, ws);
    StrandedWaits(cut, ws, ops);
    RunKeeps(cut, ops);
    RecoversExactly(ApplyAll(cut, ops), ws);
  }

  /** An example of the refused repair: a second workspace registers a ledger that already names the new brain. */
  lemma TakenBrainStrands(w: World, ws: Id, doc: Review, other: Id, run: BrainRuns.Run)
    requires Invariant(w) && Finalizes(w, ws, doc, true)
    requires other !in w.rows && run.brainId == doc.newBrain && run.segments.None? && run.startedAt <= w.clock
    ensures Recover(Apply(Finalize(w, ws, doc, true, true).value, OpRegister(other, run, true)), ws, doc.handoff.id, true).None?
  {
    var cut := Finalize(w, ws, doc, true, true).value;
    var v := Apply(cut, OpRegister(other, run, true));
    assert SoundWorkspace(w, ws);
    assert other in v.rows && v.rows[other].brain == doc.newBrain;
  }

  // ---------- one shot ----------

  function Rank(p: Phase): nat {
    match p case Prepared => 0 case Nominated => 1 case Received => 2 case Complete => 3 case Cancelled => 3
  }

  predicate Advances(h: Handoff, g: Handoff) {
    && g.id == h.id && g.oldBrain == h.oldBrain && g.packageHash == h.packageHash && g.project == h.project
    && g.runId == h.runId && g.createdAt == h.createdAt
    && Rank(h.phase) <= Rank(g.phase)
    && (h.candidate.Some? ==> g.candidate == h.candidate)
    && (h.receipt.Some? ==> g.receipt == h.receipt)
    && (h.completedAt.Some? ==> g.completedAt == h.completedAt)
  }

  lemma InLedgerAdvances(l: Ledger, step: LedgerStep, project: Option<Project>, now: real)
    requires l.handoff.Some? && SoundHandoff(l.handoff.value, l.brainId) && InLedger(l, step, project, now).Some?
    ensures var g := InLedger(l, step, project, now).value.handoff;
            g.Some? && (Advances(l.handoff.value, g.value) || (l.handoff.value.phase == Complete && g.value.phase == Prepared && step.Confirm?))
  {
  }

  /** A step never takes a handoff back: the replacement task and its receipt are recorded once and never replaced,
      and only a finished handoff gives way to another. */
  lemma HandoffAdvances(w: World, op: Op, ws: Id)
    requires Invariant(w) && ws in w.ledgers && w.ledgers[ws].handoff.Some?
    ensures ws in Apply(w, op).ledgers && Apply(w, op).ledgers[ws].handoff.Some?
    ensures var h, g := w.ledgers[ws].handoff.value, Apply(w, op).ledgers[ws].handoff.value;
            Advances(h, g) || (h.phase == Complete && g.phase == Prepared && op.OpLedger? && op.step.Confirm? && op.ws == ws)
  {
    assert SoundWorkspace(w, ws);
    if op.OpLedger? && op.ws == ws {
      if Try(w, op).Some? {
        InLedgerAdvances(w.ledgers[ws], op.step, ProjectOf(w, ws), w.clock);
      }
    } else if !(op.OpFinalize? && op.ws == ws) {
      LedgerKept(w, op, ws);
    }
  }

  /** The brain of a workspace changes only by the one step that names a received candidate. */
  lemma BrainChangesOnlyByFinalize(w: World, op: Op, ws: Id)
    requires Invariant(w) && ws in w.ledgers && Apply(w, op).ledgers[ws].brainId != w.ledgers[ws].brainId
    ensures op.OpFinalize? && op.ws == ws
    ensures var h := w.ledgers[ws].handoff;
            h.Some? && h.value.phase == Received && h.value.receipt.Some? && h.value.candidate.Some?
            && Apply(w, op).ledgers[ws].brainId == h.value.candidate.value.taskId
  {
    assert SoundWorkspace(w, ws);
    if op.OpLedger? && op.ws == ws {
      if Try(w, op).Some? {
        InLedgerKeeps(w.ledgers[ws], op.step, ProjectOf(w, ws), w.clock);
      }
    } else if !(op.OpFinalize? && op.ws == ws) {
      LedgerKept(w, op, ws);
    }
  }

  // ---------- the two databases ----------

  class Databases {
    var ledgers: map<Id, Ledger>
    var rows: map<Id, Row>
    var bindings: map<Id, Binding>
    var catalog: Option<Catalog>
    var clock: real

    ghost function View(): World
      reads this
    {
      World(ledgers, rows, bindings, catalog, clock)
    }

    constructor (clock: real)
      ensures View() == World(map[], map[], map[], None, clock)
    {
      ledgers, rows, bindings, catalog, this.clock := map[], map[], map[], None, clock;
    }

    method RecordCandidate(ws: Id, id: Id, value: Candidate, safe: bool) returns (ok: bool)
      modifies this
      ensures var t := OnLedger(old(View()), ws, Nominate(id, value), safe);
              ok == t.Some? && View() == if t.Some? then t.value else old(View())
    {
      if !safe || ws !in rows || ws !in ledgers || ledgers[ws].brainId != rows[ws].dataBrain { return false; }
      var l := ledgers[ws];
      if l.run.brainId != l.brainId || l.handoff.None? { return false; }
      var h := l.handoff.value;
      if h.id != id || h.phase !in {Prepared, Nominated} { return false; }
      if value.taskId == l.brainId || value.projectId != h.project.projectId || value.hostId != h.project.hostId { return false; }
      if h.candidate.Some? {
        assert ledgers[ws := l] == ledgers;
        return h.candidate == Some(value);
      }
      h := h.(candidate := Some(value), phase := Nominated);
      ledgers := ledgers[ws := l.(handoff := Some(h))];
      ok := true;
    }

    method RecordReceipt(ws: Id, id: Id, value: Receipt, observed: bool, safe: bool) returns (ok: bool)
      modifies this
      ensures var t := OnLedger(old(View()), ws, Acknowledge(id, value, observed), safe);
              ok == t.Some? && View() == if t.Some? then t.value else old(View())
    {
      if !safe || ws !in rows || ws !in ledgers || ledgers[ws].brainId != rows[ws].dataBrain { return false; }
      var l := ledgers[ws];
      if l.run.brainId != l.brainId || l.handoff.None? { return false; }
      var h := l.handoff.value;
      if h.id != id || h.phase !in {Nominated, Received} || h.candidate.None? { return false; }
      if h.candidate.value.taskId != value.taskId || h.packageHash != value.packageHash { return false; }
      if h.receipt.Some? {
        assert ledgers[ws := l] == ledgers;
        return h.receipt == Some(value);
      }
      if !observed { return false; }
      h := h.(receipt := Some(value), phase := Received);
      ledgers := ledgers[ws := l.(handoff := Some(h))];
      ok := true;
    }

    method FinalizeBoth(ws: Id, doc: Review, safe: bool, dies: bool) returns (ok: bool)
      modifies this
      ensures var t := Finalize(old(View()), ws, doc, safe, dies);
              ok == t.Some? && View() == if t.Some? then t.value else old(View())
    {
      if !safe || ws !in rows || ws !in ledgers || ledgers[ws].brainId != rows[ws].dataBrain { return false; }
      var l := ledgers[ws];
      if l.run.brainId != l.brainId || l.handoff != Some(doc.handoff) || doc.handoff.phase != Received { return false; }
      if l.run.revision != doc.runRevision || l.run.id != doc.runId || l.brainId != doc.oldBrain { return false; }
      if doc.handoff.candidate.None? || doc.handoff.candidate.value.taskId != doc.newBrain { return false; }
      if ProjectOf(World(ledgers, rows, bindings, catalog, clock), ws) != Some(doc.handoff.project) { return false; }
      if exists k | k in rows :: rows[k].brain == doc.newBrain { return false; }
      var oldBrain, at := l.brainId, clock;
      var run := HandRun(l.run, oldBrain, doc.newBrain, at);
      var h := doc.handoff.(phase := Complete, completedAt := Some(at));
      ledgers := ledgers[ws := Ledger(doc.newBrain, run, Some(h))];
      if dies { return true; }
      rows := rows[ws := Row(doc.newBrain, doc.newBrain, rows[ws].history + [Former(oldBrain, at, h.id)])];
      if ws in bindings {
        bindings := bindings[ws := bindings[ws].(brain := doc.newBrain)];
      }
      ok := true;
    }

    method RecoverRegistry(ws: Id, id: Id, safe: bool) returns (ok: bool)
      modifies this
      ensures var t := Recover(old(View()), ws, id, safe);
              ok == t.Some? && View() == if t.Some? then t.value else old(View())
    {
      if !safe || ws !in rows || ws !in ledgers { return false; }
      var row, l := rows[ws], ledgers[ws];
      if l.handoff.None? || l.handoff.value.id != id || l.handoff.value.phase != Complete || l.run.brainId != l.brainId { return false; }
      var h := l.handoff.value;
      if h.candidate.None? || h.candidate.value.taskId != l.brainId || h.completedAt.None? { return false; }
      var oldBrain, newBrain := h.oldBrain, l.brainId;
      if ws !in bindings { return false; }
      var binding := bindings[ws];
      if binding.key != h.project.key || binding.location != h.project.location { return false; }
      if row.brain == newBrain { return binding.brain == newBrain && row.dataBrain == newBrain; }
      if row.brain != oldBrain || row.dataBrain != oldBrain || binding.brain != oldBrain { return false; }
      if exists k | k in rows :: rows[k].brain == newBrain { return false; }
      rows := rows[ws := Row(newBrain, newBrain, row.history + [Former(oldBrain, h.completedAt.value, id)])];
      bindings := bindings[ws := binding.(brain := newBrain)];
      ok := true;
    }
  }

  /** The run's fields one at a time: its first segment if it has none yet, the last one closed, the new one opened. */
  method HandRun(before: BrainRuns.Run, oldBrain: Id, newBrain: Id, at: real) returns (run: BrainRuns.Run)
    ensures run == BrainRuns.HandOver(before, oldBrain, newBrain, at)
  {
    run := before;
    if run.segments.None? {
      run := run.(segments := Some([BrainRuns.Segment(oldBrain, run.startedAt, Some(at))]));
    }
    var last := |run.segments.value| - 1;
    if last >= 0 && run.segments.value[last].id == oldBrain {
      run := run.(segments := Some(run.segments.value[last := run.segments.value[last].(end := Some(at))]));
    }
    run := run.(segments := Some(run.segments.value + [BrainRuns.Segment(newBrain, at, None)]));
    run := run.(brainId := newBrain);
    run := run.(report := None);
    run := run.(revision := run.revision + 1);
    SegmentsByStep(before, oldBrain, newBrain, at, run);
  }

  /** Closing the last segment in place and appending the new one is the run's handover. */
  lemma SegmentsByStep(run: BrainRuns.Run, oldBrain: Id, newBrain: Id, at: real, built: BrainRuns.Run)
    requires var start := if run.segments.Some? then run.segments.value else [BrainRuns.Segment(oldBrain, run.startedAt, Some(at))];
             var last := |start| - 1;
             var closed := if last >= 0 && start[last].id == oldBrain then start[last := start[last].(end := Some(at))] else start;
             built == run.(segments := Some(closed + [BrainRuns.Segment(newBrain, at, None)]), brainId := newBrain, report := None, revision := run.revision + 1)
    ensures built == BrainRuns.HandOver(run, oldBrain, newBrain, at)
  {
    var start := if run.segments.Some? then run.segments.value else [BrainRuns.Segment(oldBrain, run.startedAt, Some(at))];
    var last := |start| - 1;
    if last >= 0 && start[last].id == oldBrain {
      assert start[last := start[last].(end := Some(at))] == start[..last] + [start[last].(end := Some(at))];
    }
  }
}
