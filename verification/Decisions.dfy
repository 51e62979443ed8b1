/** Questions a brain puts to the owner. Each question of a repository is versioned; a decision and the command that
    carries its answer are two rows that must always tell the same story. */
module Decisions {
  import opened Sums

  type Id = string

  datatype Choice = Choice(id: Id, requiresNote: bool)
  datatype Spec = Spec(repository: Id, key: Id, question: string, options: seq<Choice>, recommended: Option<Id>, artifacts: seq<Id>)

  /** The identity of a decision is the digest of its document; digests are injective. */
  datatype Document = Document(version: nat, brain: Id, spec: Spec)

  datatype Status = Open | Answered | Received | Applied | Blocked | Superseded
  datatype Response = Response(command: Id, option: Option<Id>, note: string, at: real)
  datatype Result = Result(command: Id, applied: bool, summary: string, artifacts: seq<Id>)
  datatype Resolution = Resolution(result: Result, at: real)
  datatype Decision = Decision(doc: Document, status: Status, createdAt: real, response: Option<Response>, resolution: Option<Resolution>)

  datatype Progress = Queued | Processing | Completed | Rejected
  datatype Command = Command(decision: Document, progress: Progress)

  datatype Artifact = Artifact(repository: Id, observedAt: real)

  /** Decisions in the order they were published, the commands that answer them, and the retained artifacts. */
  datatype Ledger = Ledger(decisions: seq<Decision>, commands: map<Id, Command>, artifacts: map<Id, Artifact>, brain: Id, clock: real)

  // ---------- a question's versions ----------

  predicate Sibling(d: Decision, spec: Spec) {
    d.doc.spec.repository == spec.repository && d.doc.spec.key == spec.key
  }

  function Count(ds: seq<Decision>, spec: Spec): nat {
    if ds == [] then 0 else Count(ds[..|ds| - 1], spec) + if Sibling(ds[|ds| - 1], spec) then 1 else 0
  }

  /** The sibling of the highest version, the last of them if several had it; -1 when there is none. */
  function Latest(ds: seq<Decision>, spec: Spec): (i: int)
    ensures -1 <= i < |ds| && (i >= 0 ==> Sibling(ds[i], spec))
  {
    if ds == [] then -1
    else
      var i, last := Latest(ds[..|ds| - 1], spec), ds[|ds| - 1];
      if Sibling(last, spec) && (i == -1 || ds[i].doc.version <= last.doc.version) then |ds| - 1 else i
  }

  /** The row of a document; -1 when there is none. */
  function Row(ds: seq<Decision>, doc: Document): (i: int)
    ensures -1 <= i < |ds| && (i >= 0 ==> ds[i].doc == doc)
  {
    if ds == [] then -1 else if ds[|ds| - 1].doc == doc then |ds| - 1 else Row(ds[..|ds| - 1], doc)
  }

  // ---------- the steps ----------

  predicate WellFormed(spec: Spec) {
    && 2 <= |spec.options| <= 5
    && (forall i, j | 0 <= i < |spec.options| && i < j < |spec.options| :: spec.options[i].id != spec.options[j].id)
    && (spec.recommended.None? || exists o | o in spec.options :: o.id == spec.recommended.value)
  }

  /** One to eight retained artifacts, each named once and of this repository. */
  predicate Retained(l: Ledger, ids: seq<Id>, repository: Id) {
    1 <= |ids| <= 8 && Distinct(ids) && forall a | a in ids :: a in l.artifacts && l.artifacts[a].repository == repository
  }

  function Retired(l: Ledger, i: int): Ledger
    requires 0 <= i < |l.decisions|
  {
    var d := l.decisions[i];
    l.(decisions := l.decisions[i := d.(status := Superseded)],
       commands := if d.response.Some? && d.response.value.command in l.commands
                   then l.commands[d.response.value.command := l.commands[d.response.value.command].(progress := Rejected)] else l.commands)
  }

  /** The question before its new version is added: whatever was in flight of it is retired. */
  function Cleared(l: Ledger, i: int): Ledger
    requires -1 <= i < |l.decisions|
  {
    if i >= 0 && l.decisions[i].status in {Open, Answered} then Retired(l, i) else l
  }

  /** `allowed`: the caller is the designated brain and the repository is known. */
  function Publish(l: Ledger, spec: Spec, allowed: bool): Step<Ledger, Decision> {
    if !allowed || !WellFormed(spec) || !Retained(l, spec.artifacts, spec.repository) then Refused
    else
      var i := Latest(l.decisions, spec);
      if i >= 0 && l.decisions[i].doc.spec == spec then Done(l, l.decisions[i])
      else if i >= 0 && l.decisions[i].status == Received then Refused
      else if i >= 0 && l.decisions[i].status in {Open, Answered} && l.decisions[i].response.Some?
              && l.decisions[i].response.value.command !in l.commands then Refused
      else
        var base := Cleared(l, i);
        var d := Decision(Document(Count(l.decisions, spec) + 1, l.brain, spec), Open, l.clock, None, None);
        Done(base.(decisions := base.decisions + [d]), d)
  }

  /** The characters that `str.strip` removes. */
  predicate Space(c: char) {
    || '\t' <= c <= '\r' || '\U{1C}' <= c <= ' ' || c in {'\U{85}', '\U{A0}', '\U{1680}', '\U{2028}', '\U{2029}', '\U{202F}', '\U{205F}', '\U{3000}'}
    || '\U{2000}' <= c <= '\U{200A}'
  }

  predicate Blank(note: string) {
    forall c | c in note :: Space(c)
  }

  /** Either free text, or one of the options with the note it asks for. */
  predicate Acceptable(spec: Spec, option: Option<Id>, note: string) {
    if option.None? then !Blank(note)
    else exists k | 0 <= k < |spec.options| ::
           && spec.options[k].id == option.value && (spec.options[k].requiresNote ==> !Blank(note))
           && forall j | 0 <= j < k :: spec.options[j].id != option.value
  }

  /** The owner's command is recorded, and with it the answer. */
  function Answer(l: Ledger, command: Id, doc: Document, option: Option<Id>, note: string): Option<Ledger> {
    var i := Row(l.decisions, doc);
    if command in l.commands || i < 0 || l.decisions[i].status != Open || !Acceptable(doc.spec, option, note) then None
    else Some(l.(decisions := l.decisions[i := l.decisions[i].(status := Answered, response := Some(Response(command, option, note, l.clock)))],
                 commands := l.commands[command := Command(doc, Queued)]))
  }

  function Receive(l: Ledger, command: Id, allowed: bool): Option<Ledger> {
    if !allowed || command !in l.commands || l.commands[command].progress != Queued then None
    else
      var i := Row(l.decisions, l.commands[command].decision);
      if i < 0 || l.decisions[i].status != Answered || l.decisions[i].response.None? || l.decisions[i].response.value.command != command then None
      else Some(l.(decisions := l.decisions[i := l.decisions[i].(status := Received)],
                   commands := l.commands[command := l.commands[command].(progress := Processing)]))
  }

  function Resolve(l: Ledger, doc: Document, result: Result, allowed: bool): Option<Ledger> {
    var i := Row(l.decisions, doc);
    if !allowed || i < 0 then None
    else
      var d := l.decisions[i];
      if d.resolution.Some? then (if d.resolution.value.result == result then Some(l) else None)
      else if d.status != Received || d.response.None? || d.response.value.command != result.command then None
      else if !Retained(l, result.artifacts, d.doc.spec.repository) then None
      else if result.command !in l.commands || l.commands[result.command].progress != Processing then None
      else Some(l.(decisions := l.decisions[i := d.(status := if result.applied then Applied else Blocked, resolution := Some(Resolution(result, l.clock)))],
                   commands := l.commands[result.command := l.commands[result.command].(progress := Completed)]))
  }

  datatype Op =
    | OpPublish(spec: Spec, allowed: bool)
    | OpAnswer(command: Id, doc: Document, option: Option<Id>, note: string)
    | OpReceive(command: Id, allowed: bool)
    | OpResolve(doc: Document, result: Result, allowed: bool)
    | OpSurround(brain: Id, to: real, artifacts: map<Id, Artifact>)

  function Try(l: Ledger, op: Op): Option<Ledger> {
    match op
    case OpPublish(spec, allowed) => var s := Publish(l, spec, allowed); if s.Done? then Some(s.state) else None
    case OpAnswer(command, doc, option, note) => Answer(l, command, doc, option, note)
    case OpReceive(command, allowed) => Receive(l, command, allowed)
    case OpResolve(doc, result, allowed) => Resolve(l, doc, result, allowed)
    case OpSurround(brain, to, artifacts) => if to >= l.clock then Some(l.(brain := brain, clock := to, artifacts := artifacts)) else None
  }

  function Apply(l: Ledger, op: Op): Ledger {
    var t := Try(l, op);
    if t.Some? then t.value else l
  }

  function ApplyAll(l: Ledger, ops: seq<Op>): Ledger {
    if ops == [] then l else Apply(ApplyAll(l, ops[..|ops| - 1]), ops[|ops| - 1])
  }

  // ---------- what every reachable state keeps ----------

  /** The i-th decision of a question has version i. */
  predicate Numbered(ds: seq<Decision>) {
    ds == [] || (Numbered(ds[..|ds| - 1]) && ds[|ds| - 1].doc.version == Count(ds[..|ds| - 1], ds[|ds| - 1].doc.spec) + 1)
  }

  predicate InFlight(s: Status) {
    s in {Open, Answered, Received}
  }

  /** Only the latest version of a question may be open, answered or received. */
  predicate OneInFlight(ds: seq<Decision>) {
    forall i, j | 0 <= i < |ds| && i < j < |ds| :: InFlight(ds[i].status) ==> !Sibling(ds[j], ds[i].doc.spec)
  }

  function ProgressFor(s: Status): Progress {
    match s
    case Answered => Queued
    case Received => Processing
    case Applied => Completed
    case Blocked => Completed
    case _ => Rejected
  }

  /** One decision, its answer and its command say the same, in order of time. */
  predicate InStep(d: Decision, commands: map<Id, Command>, clock: real) {
    && d.createdAt <= clock
    && (d.status == Open ==> d.response.None?)
    && (d.status in {Answered, Received, Applied, Blocked} ==> d.response.Some?)
    && (d.response.Some? ==> d.createdAt <= d.response.value.at && d.response.value.command in commands
                             && commands[d.response.value.command] == Command(d.doc, ProgressFor(d.status)))
    && (d.resolution.Some? <==> d.status in {Applied, Blocked})
    && (d.resolution.Some? ==> d.createdAt <= d.resolution.value.at <= clock
                               && d.resolution.value.result.command == d.response.value.command
                               && d.resolution.value.result.applied == (d.status == Applied))
  }

  predicate Lockstep(l: Ledger) {
    forall i {:trigger InStep(l.decisions[i], l.commands, l.clock)} | 0 <= i < |l.decisions| :: InStep(l.decisions[i], l.commands, l.clock)
  }

  /** Every command is the answer its decision records. */
  predicate Claimed(l: Ledger, c: Id)
    requires c in l.commands
  {
    var i := Row(l.decisions, l.commands[c].decision);
    i >= 0 && l.decisions[i].response.Some? && l.decisions[i].response.value.command == c
  }

  ghost predicate AllClaimed(l: Ledger) {
    forall c {:trigger Claimed(l, c)} | c in l.commands :: Claimed(l, c)
  }

  ghost predicate Invariant(l: Ledger) {
    Numbered(l.decisions) && OneInFlight(l.decisions) && Lockstep(l) && AllClaimed(l)
  }

  // ---------- versions ----------

  lemma {:induction false} CountPrefix(ds: seq<Decision>, spec: Spec, i: nat)
    requires i <= |ds|
    ensures Count(ds[..i], spec) <= Count(ds, spec)
    ensures i < |ds| && Sibling(ds[i], spec) ==> Count(ds[..i], spec) < Count(ds, spec)
  {
    if i < |ds| {
      assert ds[..|ds| - 1][..i] == ds[..i];
      CountPrefix(ds[..|ds| - 1], spec, i);
    } else {
      assert ds[..i] == ds;
    }
  }

  lemma {:induction false} CountFamily(ds: seq<Decision>, a: Spec, b: Spec)
    requires a.repository == b.repository && a.key == b.key
    ensures Count(ds, a) == Count(ds, b)
  {
    if ds != [] { CountFamily(ds[..|ds| - 1], a, b); }
  }

  lemma {:induction false} VersionAt(ds: seq<Decision>, i: nat)
    requires Numbered(ds) && i < |ds|
    ensures ds[i].doc.version == Count(ds[..i], ds[i].doc.spec) + 1
  {
    if i < |ds| - 1 {
      assert ds[..|ds| - 1][..i] == ds[..i];
      VersionAt(ds[..|ds| - 1], i);
    }
  }

  /** Later siblings have higher versions, so no two rows are one document. */
  lemma VersionsRise(ds: seq<Decision>, i: nat, j: nat)
    requires Numbered(ds) && i < j < |ds| && Sibling(ds[j], ds[i].doc.spec)
    ensures ds[i].doc.version < ds[j].doc.version
  {
    VersionAt(ds, i);
    VersionAt(ds, j);
    assert ds[..j][..i] == ds[..i] && ds[..j][i] == ds[i];
    CountPrefix(ds[..j], ds[i].doc.spec, i);
    CountFamily(ds[..j], ds[i].doc.spec, ds[j].doc.spec);
  }

  /** The versions of a question are exactly 1 to n, each held by one decision. */
  lemma {:induction false} VersionsExactly(ds: seq<Decision>, spec: Spec, v: nat)
    requires Numbered(ds)
    ensures 1 <= v <= Count(ds, spec) <==> exists i | 0 <= i < |ds| :: Sibling(ds[i], spec) && ds[i].doc.version == v
    ensures forall i, j | 0 <= i < |ds| && i < j < |ds| && Sibling(ds[i], spec) && Sibling(ds[j], spec) :: ds[i].doc.version != ds[j].doc.version
  {
    if ds != [] {
      var n := |ds| - 1;
      VersionsExactly(ds[..n], spec, v);
      if Sibling(ds[n], spec) { CountFamily(ds[..n], spec, ds[n].doc.spec); }
      if 1 <= v <= Count(ds[..n], spec) {
        var i :| 0 <= i < n && Sibling(ds[..n][i], spec) && ds[..n][i].doc.version == v;
        assert Sibling(ds[i], spec) && ds[i].doc.version == v;
      }
      forall i | 0 <= i < n && Sibling(ds[i], spec) && Sibling(ds[n], spec) ensures ds[i].doc.version != ds[n].doc.version
      {
        VersionsRise(ds, i, n);
      }
      assert forall i | 0 <= i < n :: ds[..n][i] == ds[i];
    }
  }

  /** The latest by version is the last published. */
  lemma {:induction false} LatestIsLast(ds: seq<Decision>, spec: Spec)
    requires Numbered(ds)
    ensures var i := Latest(ds, spec);
            && (i == -1 <==> Count(ds, spec) == 0)
            && (i >= 0 ==> ds[i].doc.version == Count(ds, spec))
            && (forall j | i < j < |ds| :: !Sibling(ds[j], spec))
  {
    if ds != [] {
      LatestIsLast(ds[..|ds| - 1], spec);
      if Sibling(ds[|ds| - 1], spec) { CountFamily(ds[..|ds| - 1], spec, ds[|ds| - 1].doc.spec); }
    }
  }

  lemma {:induction false} RowFinds(ds: seq<Decision>, i: nat)
    requires Numbered(ds) && i < |ds|
    ensures Row(ds, ds[i].doc) == i
  {
    if i < |ds| - 1 {
      if ds[|ds| - 1].doc == ds[i].doc { VersionsRise(ds, i, |ds| - 1); }
      RowFinds(ds[..|ds| - 1], i);
    }
  }

  /** Rewriting a row's status, answer or resolution moves no row. */
  lemma {:induction false} RewriteKeepsPlaces(ds: seq<Decision>, i: nat, d: Decision, spec: Spec, doc: Document)
    requires i < |ds| && d.doc == ds[i].doc
    ensures Count(ds[i := d], spec) == Count(ds, spec) && Row(ds[i := d], doc) == Row(ds, doc)
    ensures Numbered(ds) ==> Numbered(ds[i := d])
  {
    var n := |ds| - 1;
    if i < n {
      assert ds[i := d][..n] == ds[..n][i := d];
      RewriteKeepsPlaces(ds[..n], i, d, spec, doc);
      RewriteKeepsPlaces(ds[..n], i, d, ds[n].doc.spec, doc);
    } else {
      assert ds[i := d][..n] == ds[..n];
    }
  }

  // ---------- one row and its command move together ----------

  /** The row and command of one decision are rewritten; everyone else's stay. */
  lemma PairKeeps(l: Ledger, v: Ledger, i: nat, c: Id)
    requires Invariant(l) && i < |l.decisions| && v.clock == l.clock
    requires |v.decisions| == |l.decisions| && v.decisions == l.decisions[i := v.decisions[i]] && v.decisions[i].doc == l.decisions[i].doc
    requires c in v.commands && v.commands == l.commands[c := v.commands[c]] && v.commands[c].decision == l.decisions[i].doc
    requires v.decisions[i].response.Some? && v.decisions[i].response.value.command == c
    requires if c in l.commands then l.decisions[i].response == v.decisions[i].response else l.decisions[i].response.None?
    requires InFlight(v.decisions[i].status) ==> InFlight(l.decisions[i].status)
    requires InStep(v.decisions[i], v.commands, v.clock)
    ensures Invariant(v)
  {
    RewriteKeepsPlaces(l.decisions, i, v.decisions[i], v.decisions[i].doc.spec, v.decisions[i].doc);
    forall k | 0 <= k < |v.decisions| ensures InStep(v.decisions[k], v.commands, v.clock)
    {
      if k != i { OthersInStep(l, v, i, c, k); }
    }
    forall b | b in v.commands ensures Claimed(v, b)
    {
      RewriteKeepsPlaces(l.decisions, i, v.decisions[i], v.decisions[i].doc.spec, v.commands[b].decision);
      if b == c {
        RowFinds(l.decisions, i);
      } else {
        assert Claimed(l, b);
      }
    }
  }

  lemma OthersInStep(l: Ledger, v: Ledger, i: nat, c: Id, k: nat)
    requires Invariant(l) && i < |l.decisions| && k < |l.decisions| && k != i && v.clock == l.clock
    requires |v.decisions| == |l.decisions| && v.decisions == l.decisions[i := v.decisions[i]]
    requires c in v.commands && v.commands == l.commands[c := v.commands[c]]
    requires c in l.commands ==> l.decisions[i].response.Some? && l.decisions[i].response.value.command == c
    ensures InStep(v.decisions[k], v.commands, v.clock)
  {
    var d := l.decisions[k];
    assert v.decisions[k] == d;
    assert InStep(d, l.commands, l.clock);
    if d.response.Some? && d.response.value.command == c {
      assert InStep(l.decisions[i], l.commands, l.clock);
      RowFinds(l.decisions, i);
      RowFinds(l.decisions, k);
    }
  }

  lemma AnswerKeeps(l: Ledger, command: Id, doc: Document, option: Option<Id>, note: string)
    requires Invariant(l) && Answer(l, command, doc, option, note).Some?
    ensures Invariant(Answer(l, command, doc, option, note).value)
  {
    var i := Row(l.decisions, doc);
    assert InStep(l.decisions[i], l.commands, l.clock);
    PairKeeps(l, Answer(l, command, doc, option, note).value, i, command);
  }

  lemma ReceiveKeeps(l: Ledger, command: Id, allowed: bool)
    requires Invariant(l) && Receive(l, command, allowed).Some?
    ensures Invariant(Receive(l, command, allowed).value)
  {
    var i := Row(l.decisions, l.commands[command].decision);
    assert InStep(l.decisions[i], l.commands, l.clock);
    PairKeeps(l, Receive(l, command, allowed).value, i, command);
  }

  lemma ResolveKeeps(l: Ledger, doc: Document, result: Result, allowed: bool)
    requires Invariant(l) && Resolve(l, doc, result, allowed).Some?
    ensures Invariant(Resolve(l, doc, result, allowed).value)
  {
    var i := Row(l.decisions, doc);
    assert InStep(l.decisions[i], l.commands, l.clock);
    if l.decisions[i].resolution.None? {
      PairKeeps(l, Resolve(l, doc, result, allowed).value, i, result.command);
    }
  }

  lemma RetiredKeeps(l: Ledger, i: nat)
    requires Invariant(l) && i < |l.decisions| && l.decisions[i].status in {Open, Answered}
    ensures Invariant(Retired(l, i))
  {
    var d, v := l.decisions[i], Retired(l, i);
    assert InStep(d, l.commands, l.clock);
    if d.response.Some? {
      PairKeeps(l, v, i, d.response.value.command);
    } else {
      RewriteKeepsPlaces(l.decisions, i, v.decisions[i], d.doc.spec, d.doc);
      forall k | 0 <= k < |v.decisions| ensures InStep(v.decisions[k], v.commands, v.clock)
      {
        assert k != i ==> InStep(l.decisions[k], l.commands, l.clock);
      }
      forall b | b in v.commands ensures Claimed(v, b)
      {
        RewriteKeepsPlaces(l.decisions, i, v.decisions[i], d.doc.spec, v.commands[b].decision);
        assert Claimed(l, b);
      }
    }
  }

  /** A new version joins a question of which nothing is in flight. */
  lemma AppendKeeps(l: Ledger, d: Decision)
    requires Invariant(l) && d == Decision(Document(Count(l.decisions, d.doc.spec) + 1, d.doc.brain, d.doc.spec), Open, l.clock, None, None)
    requires forall i | 0 <= i < |l.decisions| && InFlight(l.decisions[i].status) :: !Sibling(d, l.decisions[i].doc.spec)
    ensures Invariant(l.(decisions := l.decisions + [d]))
  {
    var v := l.(decisions := l.decisions + [d]);
    var n := |l.decisions|;
    assert v.decisions[..n] == l.decisions;
    forall k | 0 <= k < |v.decisions| ensures InStep(v.decisions[k], v.commands, v.clock)
    {
      assert k < n ==> InStep(l.decisions[k], l.commands, l.clock);
    }
    forall b | b in v.commands ensures Claimed(v, b)
    {
      assert Claimed(l, b);
      var i := Row(l.decisions, l.commands[b].decision);
      if d.doc == l.commands[b].decision { VersionsRise(v.decisions, i, n); }
    }
  }

  lemma OthersAtRest(ds: seq<Decision>, spec: Spec)
    requires Numbered(ds) && OneInFlight(ds)
    ensures forall k | 0 <= k < |ds| && k != Latest(ds, spec) && Sibling(ds[k], spec) :: !InFlight(ds[k].status)
  {
    LatestIsLast(ds, spec);
    var i := Latest(ds, spec);
    forall k | 0 <= k < |ds| && k != i && Sibling(ds[k], spec) ensures !InFlight(ds[k].status)
    {
      assert i > k ==> Sibling(ds[i], ds[k].doc.spec);
    }
  }

  lemma ClearedKeeps(l: Ledger, spec: Spec)
    requires Invariant(l) && (Latest(l.decisions, spec) >= 0 ==> l.decisions[Latest(l.decisions, spec)].status != Received)
    ensures var b := Cleared(l, Latest(l.decisions, spec));
            && Invariant(b) && b.clock == l.clock && b.brain == l.brain && Count(b.decisions, spec) == Count(l.decisions, spec)
            && forall k | 0 <= k < |b.decisions| && Sibling(b.decisions[k], spec) :: !InFlight(b.decisions[k].status)
  {
    var i := Latest(l.decisions, spec);
    OthersAtRest(l.decisions, spec);
    if i >= 0 && l.decisions[i].status in {Open, Answered} {
      RetiredKeeps(l, i);
      RewriteKeepsPlaces(l.decisions, i, Retired(l, i).decisions[i], spec, l.decisions[i].doc);
    }
  }

  lemma PublishKeeps(l: Ledger, spec: Spec, allowed: bool)
    requires Invariant(l) && Publish(l, spec, allowed).Done?
    ensures Invariant(Publish(l, spec, allowed).state)
  {
    var i := Latest(l.decisions, spec);
    if !(i >= 0 && l.decisions[i].doc.spec == spec) {
      ClearedKeeps(l, spec);
      AppendKeeps(Cleared(l, i), Publish(l, spec, allowed).value);
    }
  }

  lemma SurroundKeeps(l: Ledger, brain: Id, to: real, artifacts: map<Id, Artifact>)
    requires Invariant(l) && to >= l.clock
    ensures Invariant(l.(brain := brain, clock := to, artifacts := artifacts))
  {
    var v := l.(brain := brain, clock := to, artifacts := artifacts);
    forall k | 0 <= k < |v.decisions| ensures InStep(v.decisions[k], v.commands, v.clock)
    {
      assert InStep(l.decisions[k], l.commands, l.clock);
    }
    forall b | b in v.commands ensures Claimed(v, b)
    {
      assert Claimed(l, b);
    }
  }

  lemma ApplyKeeps(l: Ledger, op: Op)
    requires Invariant(l)
    ensures Invariant(Apply(l, op))
  {
    if Try(l, op).Some? {
      match op {
        case OpPublish(spec, allowed) => PublishKeeps(l, spec, allowed);
        case OpAnswer(command, doc, option, note) => AnswerKeeps(l, command, doc, option, note);
        case OpReceive(command, allowed) => ReceiveKeeps(l, command, allowed);
        case OpResolve(doc, result, allowed) => ResolveKeeps(l, doc, result, allowed);
        case OpSurround(brain, to, artifacts) => SurroundKeeps(l, brain, to, artifacts);
      }
    }
  }

  predicate Fresh(l: Ledger) {
    l.decisions == [] && l.commands == map[]
  }

  /** Over any run: versions are 1 to n, only the latest is in flight, and every decision is in step with its command. */
  lemma {:induction false} RunKeeps(l: Ledger, ops: seq<Op>)
    requires Fresh(l) || Invariant(l)
    ensures Invariant(ApplyAll(l, ops))
  {
    if ops != [] {
      RunKeeps(l, ops[..|ops| - 1]);
      ApplyKeeps(ApplyAll(l, ops[..|ops| - 1]), ops[|ops| - 1]);
    }
  }

  // ---------- consequences ----------

  /** A command and the decision it answers move in lockstep, read from the command's side. */
  lemma CommandTells(l: Ledger, c: Id)
    requires Invariant(l) && c in l.commands
    ensures var i := Row(l.decisions, l.commands[c].decision);
            && i >= 0
            && (l.commands[c].progress == Queued <==> l.decisions[i].status == Answered)
            && (l.commands[c].progress == Processing <==> l.decisions[i].status == Received)
            && (l.commands[c].progress == Completed <==> l.decisions[i].status in {Applied, Blocked})
            && (l.commands[c].progress == Rejected <==> l.decisions[i].status == Superseded)
  {
    assert Claimed(l, c);
    var i := Row(l.decisions, l.commands[c].decision);
    assert InStep(l.decisions[i], l.commands, l.clock);
  }

  /** A queued answer can always be received, and a received one resolved either way with any one to eight retained
      artifacts of its repository, and with no others: neither row ever blocks the other. */
  lemma NeverStuck(l: Ledger, c: Id, applied: bool, summary: string, artifacts: seq<Id>)
    requires Invariant(l) && c in l.commands
    ensures l.commands[c].progress == Queued ==> Receive(l, c, true).Some?
    ensures l.commands[c].progress == Processing ==>
              var doc := l.commands[c].decision;
              (Resolve(l, doc, Result(c, applied, summary, artifacts), true).Some? <==> Retained(l, artifacts, doc.spec.repository))
  {
    CommandTells(l, c);
    assert Claimed(l, c);
    assert InStep(l.decisions[Row(l.decisions, l.commands[c].decision)], l.commands, l.clock);
  }

  /** Publishing the latest wording again returns it as it stands, whatever its status, and changes nothing. */
  lemma RepublishNeverReopens(l: Ledger, spec: Spec, i: nat)
    requires Invariant(l) && i < |l.decisions| && l.decisions[i].doc.spec == spec
    requires WellFormed(spec) && Retained(l, spec.artifacts, spec.repository)
    requires forall j | i < j < |l.decisions| :: !Sibling(l.decisions[j], spec)
    ensures Publish(l, spec, true) == Done(l, l.decisions[i])
  {
    LatestIsLast(l.decisions, spec);
    assert Sibling(l.decisions[i], spec);
  }

  function Rank(s: Status): nat {
    match s case Open => 0 case Answered => 1 case Received => 2 case _ => 3
  }

  /** What later steps may do to a decision. */
  predicate Advances(d: Decision, e: Decision) {
    && e.doc == d.doc && e.createdAt == d.createdAt
    && Rank(d.status) <= Rank(e.status) && (Rank(d.status) == Rank(e.status) ==> e == d)
    && (d.response.Some? ==> e.response == d.response)
    && (d.resolution.Some? ==> e.resolution == d.resolution)
  }

  predicate AllAdvance(ds: seq<Decision>, es: seq<Decision>) {
    |ds| <= |es| && forall i | 0 <= i < |ds| :: Advances(ds[i], es[i])
  }

  lemma ApplyAdvances(l: Ledger, op: Op)
    requires Invariant(l)
    ensures AllAdvance(l.decisions, Apply(l, op).decisions)
  {
    match op {
      case OpAnswer(_, doc, _, _) => if Row(l.decisions, doc) >= 0 { assert InStep(l.decisions[Row(l.decisions, doc)], l.commands, l.clock); }
      case OpResolve(doc, _, _) => if Row(l.decisions, doc) >= 0 { assert InStep(l.decisions[Row(l.decisions, doc)], l.commands, l.clock); }
      case OpReceive(_, _) =>
      case OpSurround(_, _, _) =>
      case OpPublish(spec, allowed) => if Publish(l, spec, allowed).Done? { PublishAdvances(l, spec, allowed); }
    }
  }

  lemma PublishAdvances(l: Ledger, spec: Spec, allowed: bool)
    requires Publish(l, spec, allowed).Done?
    ensures AllAdvance(l.decisions, Publish(l, spec, allowed).state.decisions)
  {
  }

  /** Decisions only move forward: a final one never changes, and an answer or resolution is never rewritten. */
  lemma {:induction false} RunAdvances(l: Ledger, ops: seq<Op>)
    requires Invariant(l)
    ensures AllAdvance(l.decisions, ApplyAll(l, ops).decisions)
  {
    if ops != [] {
      var before := ops[..|ops| - 1];
      RunAdvances(l, before);
      RunKeeps(l, before);
      ApplyAdvances(ApplyAll(l, before), ops[|ops| - 1]);
      AdvanceTrans(l.decisions, ApplyAll(l, before).decisions, ApplyAll(l, ops).decisions);
    }
  }

  lemma AdvanceTrans(a: seq<Decision>, b: seq<Decision>, c: seq<Decision>)
    requires AllAdvance(a, b) && AllAdvance(b, c)
    ensures AllAdvance(a, c)
  {
    forall i | 0 <= i < |a| ensures Advances(a[i], c[i])
    {
      assert Advances(a[i], b[i]) && Advances(b[i], c[i]);
    }
  }

  // ---------- the rows ----------

  /** One pass over the rows: how many siblings there are, and which has the highest version. */
  method Survey(ds: seq<Decision>, spec: Spec) returns (latest: int, count: nat)
    ensures latest == Latest(ds, spec) && count == Count(ds, spec)
  {
    latest, count := -1, 0;
    for i := 0 to |ds|
      invariant latest == Latest(ds[..i], spec) && count == Count(ds[..i], spec)
    {
      assert ds[..i + 1][..i] == ds[..i];
      if Sibling(ds[i], spec) {
        count := count + 1;
        if latest == -1 || ds[latest].doc.version <= ds[i].doc.version { latest := i; }
      }
    }
    assert ds[..|ds|] == ds;
  }

  class DecisionRows {
    var ledger: Ledger

    constructor (ledger: Ledger)
      ensures this.ledger == ledger
    {
      this.ledger := ledger;
    }

    method PublishDecision(spec: Spec, allowed: bool) returns (published: Option<Decision>)
      modifies this
      ensures var s := Publish(old(ledger), spec, allowed);
              ledger == (if s.Done? then s.state else old(ledger)) && published == if s.Done? then Some(s.value) else None
    {
      if !allowed || !WellFormed(spec) || !Retained(ledger, spec.artifacts, spec.repository) { return None; }
      var latest, count := Survey(ledger.decisions, spec);
      if latest >= 0 {
        var previous := ledger.decisions[latest];
        if previous.doc.spec == spec { return Some(previous); }
        if previous.status == Received { return None; }
        if previous.status in {Open, Answered} {
          if previous.response.Some? && previous.response.value.command !in ledger.commands { return None; }
          ledger := ledger.(decisions := ledger.decisions[latest := previous.(status := Superseded)]);
          if previous.response.Some? {
            var c := previous.response.value.command;
            ledger := ledger.(commands := ledger.commands[c := ledger.commands[c].(progress := Rejected)]);
          }
        }
      }
      var d := Decision(Document(count + 1, ledger.brain, spec), Open, ledger.clock, None, None);
      ledger := ledger.(decisions := ledger.decisions + [d]);
      published := Some(d);
    }

    method ResolveDecision(doc: Document, result: Result, allowed: bool) returns (ok: bool)
      modifies this
      ensures var t := Resolve(old(ledger), doc, result, allowed);
              ok == t.Some? && ledger == if t.Some? then t.value else old(ledger)
    {
      var i := Row(ledger.decisions, doc);
      if !allowed || i < 0 { return false; }
      var d := ledger.decisions[i];
      if d.resolution.Some? { return d.resolution.value.result == result; }
      if d.status != Received || d.response.None? || d.response.value.command != result.command { return false; }
      if !Retained(ledger, result.artifacts, d.doc.spec.repository) { return false; }
      if result.command !in ledger.commands { return false; }
      var command := ledger.commands[result.command];
      if command.progress != Processing { return false; }
      d := d.(status := if result.applied then Applied else Blocked, resolution := Some(Resolution(result, ledger.clock)));
      ledger := ledger.(decisions := ledger.decisions[i := d]);
      ledger := ledger.(commands := ledger.commands[result.command := command.(progress := Completed)]);
      ok := true;
    }
  }
}
