/** Importing retained ownership into the kernel. The import writes five stores in a fixed order with no
    common transaction: the registry journal, a fence file, the kernel file, a pin file, the kernel's own
    tables, and the journal again. A call may die between any two writes and be recovered later. */
module Adoption {
  import opened Sums
  import opened AdmissionModel
  import opened AdmissionInvariant
  import opened AdmissionTheorems

  /** The kernel database file: its inode, and its tables unless it is still an empty file. */
  datatype KernelFile = KernelFile(identity: nat, content: Option<Kernel>)
  datatype Pin = Pin(bundle: Bundle, identity: nat)
  datatype Phase = Prepared | Quarantined
  datatype Record = Record(id: Id, phase: Phase, bundle: Bundle, request: Hash, kernelBefore: Option<KernelFile>, kernelIdentity: Option<nat>)
  datatype LogEntry = AdoptionPrepared(request: Hash) | OwnershipQuarantined(bundle: Bundle, identity: nat)

  /** Everything durable that the import touches. */
  datatype Stores = Stores(journal: Option<Record>, log: seq<LogEntry>, fence: Option<Bundle>, pin: Option<Pin>, kernel: Option<KernelFile>)

  /** The next durable write of a running call. */
  datatype Pc = NeedFence | NeedPin | NeedImport(identity: nat) | NeedComplete(identity: nat) | Finished

  // ---------- the kernel's side ----------

  predicate Vacant(k: Kernel) {
    k.allocations == map[] && k.claims == map[] && k.resources == map[]
  }

  predicate Importable(f: Option<KernelFile>, policy: Policy) {
    f.Some? && f.value.content.Some? ==>
      var k := f.value.content.value;
      k.legacy.None? && k.legacyClaims.None? && Vacant(k) && k.policy == policy
  }

  function ClaimTable(claims: seq<LegacyClaim>): map<(Id, Id, Id), LegacyClaim> {
    if claims == [] then map[]
    else ClaimTable(claims[..|claims| - 1])[claims[|claims| - 1].id := claims[|claims| - 1]]
  }

  /** The table has one row for each claim of the bundle, that claim under its own identifier, and no other row. */
  predicate HoldsClaims(rows: map<(Id, Id, Id), LegacyClaim>, claims: seq<LegacyClaim>) {
    && |rows| == |claims|
    && (forall c | c in claims :: c.id in rows && rows[c.id] == c)
    && forall id | id in rows :: rows[id].id == id && rows[id] in claims
  }

  lemma RowHolds(rows: map<(Id, Id, Id), LegacyClaim>, front: seq<LegacyClaim>, last: LegacyClaim)
    requires HoldsClaims(rows, front) && forall c | c in front :: c.id != last.id
    ensures HoldsClaims(rows[last.id := last], front + [last])
  {
    assert last.id !in rows;
    assert rows[last.id := last].Keys == rows.Keys + {last.id};
    assert forall c :: c in front + [last] <==> c in front || c == last;
  }

  lemma LastIsNew(claims: seq<LegacyClaim>, c: LegacyClaim)
    requires claims != [] && c in claims[..|claims| - 1]
    requires forall i, j | 0 <= i < j < |claims| :: claims[i].id != claims[j].id
    ensures c.id != claims[|claims| - 1].id
  {
    var i :| 0 <= i < |claims| - 1 && claims[i] == c;
  }

  lemma {:induction false} TableHolds(claims: seq<LegacyClaim>)
    requires forall i, j | 0 <= i < j < |claims| :: claims[i].id != claims[j].id
    ensures HoldsClaims(ClaimTable(claims), claims)
  {
    if claims != [] {
      var front, last := claims[..|claims| - 1], claims[|claims| - 1];
      TableHolds(front);
      forall c | c in front ensures c.id != last.id { LastIsNew(claims, c); }
      RowHolds(ClaimTable(front), front, last);
      assert front + [last] == claims;
    }
  }

  /** One transaction: repeated with the same bundle it changes nothing, on a vacant store it installs the rows. */
  function Install(k: Kernel, bundle: Bundle): Step<Kernel, ()> {
    if k.policy != bundle.policy then Refused
    else if k.legacy.Some? then
      if k.legacy.value == bundle && k.legacyClaims == Some(ClaimTable(bundle.claims)) then Done(k, ()) else Refused
    else if !Vacant(k) || k.legacyClaims.Some? then Refused
    else Done(k.(legacy := Some(bundle), legacyClaims := Some(ClaimTable(bundle.claims)), events := k.events + [LegacyAdopted(bundle)]), ())
  }

  // ---------- the calls ----------

  /** Starting an import journals the exact reviewed bundle; a request already journaled answers without a new call. */
  function StartApply(d: Stores, record: Record, source: Hash, previewFresh: bool): Step<Stores, Pc> {
    if d.journal.Some? || !previewFresh || source != record.bundle.sourceHash || d.kernel != record.kernelBefore
       || !Importable(d.kernel, record.bundle.policy) || record.phase != Prepared || record.kernelIdentity.Some?
       || record.bundle.id != record.id || !ValidBundle(record.bundle) then Refused
    else Done(d.(journal := Some(record), log := d.log + [AdoptionPrepared(record.request)]), NeedFence)
  }

  function StartRecover(d: Stores, id: Id, source: Hash): Step<Stores, Pc> {
    if d.journal.None? || d.journal.value.id != id || source != d.journal.value.bundle.sourceHash then Refused
    else
      var record := d.journal.value;
      if record.kernelIdentity.Some? && !(d.kernel.Some? && d.kernel.value.identity == record.kernelIdentity.value) then Refused
      else if record.kernelIdentity.None? && record.kernelBefore.Some?
              && !(d.kernel.Some? && d.kernel.value.identity == record.kernelBefore.value.identity) then Refused
      else Done(d, NeedFence)
  }

  function NextWrite(d: Stores, record: Record, pc: Pc, inode: nat): Step<Stores, Pc> {
    match pc
    case NeedFence =>
      if d.fence.None? then Done(d.(fence := Some(record.bundle)), NeedPin)
      else if d.fence.value == record.bundle then Done(d, NeedPin) else Refused
    case NeedPin =>
      if d.pin.Some? then
        if d.pin.value.bundle == record.bundle && d.kernel.Some? && d.kernel.value.identity == d.pin.value.identity
        then Done(d, NeedImport(d.pin.value.identity)) else Refused
      else if record.kernelBefore.Some? then
        if d.kernel == record.kernelBefore
        then Done(d.(pin := Some(Pin(record.bundle, d.kernel.value.identity))), NeedImport(d.kernel.value.identity)) else Refused
      else if d.kernel.None? then Done(d.(kernel := Some(KernelFile(inode, None))), NeedPin)
      else if d.kernel.value.content.None?
        then Done(d.(pin := Some(Pin(record.bundle, d.kernel.value.identity))), NeedImport(d.kernel.value.identity))
      else Refused
    case NeedImport(identity) =>
      if d.fence != Some(record.bundle) || d.pin != Some(Pin(record.bundle, identity))
         || d.kernel.None? || d.kernel.value.identity != identity then Refused
      else
        var k := if d.kernel.value.content.Some? then d.kernel.value.content.value else Empty(record.bundle.policy);
        var s := Install(k, record.bundle);
        if s.Refused? then Refused
        else Done(d.(kernel := Some(KernelFile(identity, Some(s.state)))), NeedComplete(identity))
    case NeedComplete(identity) =>
      if d.journal.None? || d.journal.value.request != record.request then Refused
      else if d.journal.value.phase == Quarantined then Done(d, Finished)
      else Done(d.(journal := Some(record.(phase := Quarantined, kernelIdentity := Some(identity))),
                   log := d.log + [OwnershipQuarantined(record.bundle, identity)]), Finished)
    case Finished => Done(d, Finished)
  }

  // ---------- safety under concurrency, crashes and other kernel users ----------

  /** Any number of calls run at once; each is known by its next write. */
  datatype World = World(d: Stores, calls: map<nat, Pc>)

  datatype Action =
    | Apply(call: nat, record: Record, source: Hash, previewFresh: bool)
    | Recover(call: nat, id: Id, source: Hash)
    | Write(call: nat, inode: nat)
    | Crash(call: nat)
    | Use(env: Env, op: Op)
    | Initialize(policy: Policy, inode: nat, died: bool)

  /** Opening the kernel with a policy is not fenced: it creates a missing file, where the process may die, and writes the
      empty tables into an empty one; tables that are there are left alone. */
  function Initialized(f: Option<KernelFile>, policy: Policy, inode: nat, died: bool): Option<KernelFile> {
    if !ValidPolicy(policy) then f
    else if f.None? then Some(KernelFile(inode, if died then None else Some(Empty(policy))))
    else if f.value.content.None? && !died then Some(f.value.(content := Some(Empty(policy))))
    else f
  }

  ghost function Act(w: World, a: Action): World {
    match a
    case Apply(c, record, source, previewFresh) =>
      var s := StartApply(w.d, record, source, previewFresh);
      if c in w.calls || s.Refused? then w else World(s.state, w.calls[c := s.value])
    case Recover(c, id, source) =>
      var s := StartRecover(w.d, id, source);
      if c in w.calls || s.Refused? then w else World(s.state, w.calls[c := s.value])
    case Write(c, inode) =>
      if c !in w.calls || w.d.journal.None? then w
      else
        var s := NextWrite(w.d, w.d.journal.value, w.calls[c], inode);
        if s.Refused? then World(w.d, w.calls - {c}) else World(s.state, w.calls[c := s.value])
    case Crash(c) => World(w.d, w.calls - {c})
    case Use(env, op) =>
      if w.d.kernel.Some? && w.d.kernel.value.content.Some?
      then World(w.d.(kernel := Some(KernelFile(w.d.kernel.value.identity, Some(
             AdmissionModel.Apply(w.d.kernel.value.content.value, env.(sidecar := w.d.fence.Some? || w.d.pin.Some?), op))))), w.calls)
      else w
    case Initialize(policy, inode, died) => World(w.d.(kernel := Initialized(w.d.kernel, policy, inode, died)), w.calls)
  }

  ghost function Acts(w: World, actions: seq<Action>): World
    decreases |actions|
  {
    if actions == [] then w else Act(Acts(w, actions[..|actions| - 1]), actions[|actions| - 1])
  }

  predicate Imported(d: Stores) {
    d.kernel.Some? && d.kernel.value.content.Some? && d.kernel.value.content.value.legacy.Some?
  }

  ghost function Adoptions(events: seq<Event>): nat {
    if events == [] then 0 else Adoptions(events[..|events| - 1]) + if events[|events| - 1].LegacyAdopted? then 1 else 0
  }

  function Quarantines(log: seq<LogEntry>): nat {
    if log == [] then 0 else Quarantines(log[..|log| - 1]) + if log[|log| - 1].OwnershipQuarantined? then 1 else 0
  }

  ghost predicate KernelSound(k: Kernel) {
    && Invariant(k)
    && Adoptions(k.events) == (if k.legacy.Some? then 1 else 0)
    && (k.legacy.Some? ==> Vacant(k) && k.legacyClaims == Some(ClaimTable(k.legacy.value.claims)) && k.policy == k.legacy.value.policy)
    && (k.legacy.None? ==> k.legacyClaims.None?)
  }

  predicate CallSound(d: Stores, pc: Pc) {
    match pc
    case NeedFence => true
    case NeedPin => d.fence.Some?
    case NeedImport(identity) => d.pin.Some? && d.pin.value.identity == identity
    case NeedComplete(identity) => d.pin.Some? && d.pin.value.identity == identity && Imported(d)
    case Finished => Imported(d) && d.journal.Some? && d.journal.value.phase == Quarantined
  }

  /** Imported implies pinned implies fenced, and a quarantined journal implies imported. */
  ghost predicate Ordered(d: Stores) {
    && (d.journal.None? ==> d.fence.None? && d.pin.None? && !Imported(d))
    && (d.journal.Some? ==> ValidBundle(d.journal.value.bundle) && (d.journal.value.phase == Quarantined ==> Imported(d)))
    && (d.fence.Some? ==> d.fence == Some(d.journal.value.bundle))
    && (d.pin.Some? ==> d.fence.Some? && d.pin.value.bundle == d.journal.value.bundle
                        && d.kernel.Some? && d.kernel.value.identity == d.pin.value.identity)
    && (Imported(d) ==> d.pin.Some? && d.kernel.value.content.value.legacy == Some(d.journal.value.bundle))
    && (d.journal.Some? && d.journal.value.kernelBefore.Some? ==>
          && Importable(d.journal.value.kernelBefore, d.journal.value.bundle.policy)
          && d.kernel.Some? && d.kernel.value.identity == d.journal.value.kernelBefore.value.identity)
    && (d.journal.Some? ==> (d.journal.value.phase == Quarantined <==> d.journal.value.kernelIdentity.Some?))
    && (d.journal.Some? && d.journal.value.kernelIdentity.Some? ==> d.pin.Some? && d.pin.value.identity == d.journal.value.kernelIdentity.value)
  }

  ghost predicate PinnedVacant(d: Stores) {
    && (d.kernel.Some? && d.kernel.value.content.Some? ==> KernelSound(d.kernel.value.content.value))
    && (d.pin.Some? && d.kernel.Some? && d.kernel.value.content.Some? ==> Vacant(d.kernel.value.content.value))
  }

  ghost predicate LoggedOnce(d: Stores) {
    && Quarantines(d.log) == if d.journal.Some? && d.journal.value.phase == Quarantined then 1 else 0
  }

  ghost predicate Safe(w: World) {
    && Ordered(w.d) && PinnedVacant(w.d) && LoggedOnce(w.d)
    && (forall c | c in w.calls :: CallSound(w.d, w.calls[c]))
    && (w.d.journal.None? ==> w.calls == map[])
  }

  /** Before any import: no journal, no sidecar, and whatever kernel earlier use has left. */
  ghost predicate Untouched(w: World) {
    && w.d.journal.None? && w.d.fence.None? && w.d.pin.None? && w.calls == map[] && w.d.log == []
    && (w.d.kernel.Some? && w.d.kernel.value.content.Some? ==>
          KernelSound(w.d.kernel.value.content.value) && w.d.kernel.value.content.value.legacy.None?)
  }

  lemma AdoptionsPush(events: seq<Event>, e: Event)
    ensures Adoptions(events + [e]) == Adoptions(events) + if e.LegacyAdopted? then 1 else 0
  {
    assert (events + [e])[..|events|] == events;
  }

  lemma QuarantinesPush(log: seq<LogEntry>, e: LogEntry)
    ensures Quarantines(log + [e]) == Quarantines(log) + if e.OwnershipQuarantined? then 1 else 0
  {
    assert (log + [e])[..|log|] == log;
  }

  // ---------- the invariant is kept ----------

  lemma OpAddsNoAdoption(k: Kernel, env: Env, op: Op)
    ensures Adoptions(AdmissionModel.Apply(k, env, op).events) == Adoptions(k.events)
  {
    var b := AdmissionModel.Apply(k, env, op);
    if b != k {
      assert |b.events| == |k.events| + 1 && b.events[..|k.events|] == k.events && !b.events[|k.events|].LegacyAdopted?;
      AdoptionsPush(k.events, b.events[|k.events|]);
      assert b.events == k.events + [b.events[|k.events|]];
    }
  }

  /** What other users of the kernel can do to it: everything before the fence, nothing that matters after. */
  lemma UseSound(k: Kernel, env: Env, op: Op)
    requires KernelSound(k)
    ensures var b := AdmissionModel.Apply(k, env, op);
            && KernelSound(b) && b.legacy == k.legacy && b.policy == k.policy
            && (Fenced(k, env) && Vacant(k) ==> Vacant(b))
  {
    var b := AdmissionModel.Apply(k, env, op);
    assert Linked(k);
    ApplyKeeps(k, env, op);
    OpAddsNoAdoption(k, env, op);
    ApplyAdvances(k, env, op);
    UseLegacy(k, env, op);
    if Fenced(k, env) {
      FencedStep(k, env, op);
    }
  }

  lemma UseLegacy(k: Kernel, env: Env, op: Op)
    ensures var b := AdmissionModel.Apply(k, env, op); b.legacy == k.legacy && b.legacyClaims == k.legacyClaims
  {
  }

  lemma InstallSound(k: Kernel, bundle: Bundle)
    requires KernelSound(k) && Install(k, bundle).Done?
    ensures KernelSound(Install(k, bundle).state)
    ensures Install(k, bundle).state.legacy == Some(bundle) && Vacant(Install(k, bundle).state)
    ensures Install(k, bundle).state.policy == bundle.policy
  {
    var b := Install(k, bundle).state;
    if b != k {
      AdoptionsPush(k.events, LegacyAdopted(bundle));
      SameSpecsKeep(k, b);
      JournalPush(k, b, LegacyAdopted(bundle));
      AccountSums(k, b);
    }
  }

  lemma ApplySafe(w: World, c: nat, record: Record, source: Hash, previewFresh: bool)
    requires Safe(w)
    ensures Safe(Act(w, Apply(c, record, source, previewFresh)))
  {
    QuarantinesPush(w.d.log, AdoptionPrepared(record.request));
  }

  lemma RecoverSafe(w: World, c: nat, id: Id, source: Hash)
    requires Safe(w)
    ensures Safe(Act(w, Recover(c, id, source)))
  {
  }

  lemma WriteSafe(w: World, c: nat, inode: nat)
    requires Safe(w)
    ensures Safe(Act(w, Write(c, inode)))
  {
    if c in w.calls && w.d.journal.Some? && NextWrite(w.d, w.d.journal.value, w.calls[c], inode).Done? {
      WriteOrdered(w.d, w.calls[c], inode);
      WriteKernel(w.d, w.calls[c], inode);
      WriteCalls(w, c, inode);
    }
  }

  lemma WriteOrdered(d: Stores, pc: Pc, inode: nat)
    requires Ordered(d) && PinnedVacant(d) && LoggedOnce(d) && d.journal.Some? && CallSound(d, pc) && NextWrite(d, d.journal.value, pc, inode).Done?
    ensures Ordered(NextWrite(d, d.journal.value, pc, inode).state) && LoggedOnce(NextWrite(d, d.journal.value, pc, inode).state)
  {
    if pc.NeedComplete? { QuarantinesPush(d.log, OwnershipQuarantined(d.journal.value.bundle, pc.identity)); }
  }

  lemma WriteKernel(d: Stores, pc: Pc, inode: nat)
    requires Ordered(d) && PinnedVacant(d) && d.journal.Some? && CallSound(d, pc) && NextWrite(d, d.journal.value, pc, inode).Done?
    ensures PinnedVacant(NextWrite(d, d.journal.value, pc, inode).state)
  {
    if pc.NeedImport? {
      var policy := d.journal.value.bundle.policy;
      EmptyHolds(policy);
      InstallSound(if d.kernel.value.content.Some? then d.kernel.value.content.value else Empty(policy), d.journal.value.bundle);
    }
  }

  lemma WriteCalls(w: World, c: nat, inode: nat)
    requires Safe(w) && c in w.calls && w.d.journal.Some? && NextWrite(w.d, w.d.journal.value, w.calls[c], inode).Done?
    ensures forall x | x in w.calls :: CallSound(NextWrite(w.d, w.d.journal.value, w.calls[c], inode).state,
              if x == c then NextWrite(w.d, w.d.journal.value, w.calls[c], inode).value else w.calls[x])
  {
  }

  /** The kernel's rows change under its own rules while the sidecars stand as they are. */
  lemma UseStoresSafe(w: World, b: Kernel)
    requires Safe(w) && w.d.kernel.Some? && w.d.kernel.value.content.Some?
    requires var k := w.d.kernel.value.content.value;
             && KernelSound(b) && b.legacy == k.legacy && b.policy == k.policy
             && (k.legacy.Some? || w.d.fence.Some? || w.d.pin.Some? ==> Vacant(k) ==> Vacant(b))
    ensures Safe(World(w.d.(kernel := Some(KernelFile(w.d.kernel.value.identity, Some(b)))), w.calls))
  {
  }

  lemma UseSafe(w: World, env: Env, op: Op)
    requires Safe(w)
    ensures Safe(Act(w, Use(env, op)))
  {
    if w.d.kernel.Some? && w.d.kernel.value.content.Some? {
      var k := w.d.kernel.value.content.value;
      var seen := env.(sidecar := w.d.fence.Some? || w.d.pin.Some?);
      UseSound(k, seen, op);
      UseStoresSafe(w, AdmissionModel.Apply(k, seen, op));
    }
  }

  lemma InitializeSafe(w: World, policy: Policy, inode: nat, died: bool)
    requires Safe(w)
    ensures Safe(Act(w, Initialize(policy, inode, died)))
  {
    var f := Initialized(w.d.kernel, policy, inode, died);
    if f != w.d.kernel {
      EmptyHolds(policy);
      InitializedSafe(w, f);
    }
  }

  /** A missing or empty kernel file gets empty tables, or becomes an empty file. */
  lemma InitializedSafe(w: World, f: Option<KernelFile>)
    requires Safe(w) && f.Some? && (w.d.kernel.Some? ==> w.d.kernel.value.content.None? && f.value.identity == w.d.kernel.value.identity)
    requires f.value.content.Some? ==> KernelSound(f.value.content.value) && Vacant(f.value.content.value) && f.value.content.value.legacy.None?
    ensures Safe(World(w.d.(kernel := f), w.calls))
  {
    assert !Imported(w.d) && !Imported(w.d.(kernel := f));
  }

  lemma ActSafe(w: World, a: Action)
    requires Safe(w)
    ensures Safe(Act(w, a))
  {
    match a
    case Apply(c, record, source, previewFresh) => ApplySafe(w, c, record, source, previewFresh);
    case Recover(c, id, source) => RecoverSafe(w, c, id, source);
    case Write(c, inode) => WriteSafe(w, c, inode);
    case Crash(c) =>
    case Use(env, op) => UseSafe(w, env, op);
    case Initialize(policy, inode, died) => InitializeSafe(w, policy, inode, died);
  }

  lemma {:induction false} ActsSafe(w: World, actions: seq<Action>)
    requires Safe(w)
    ensures Safe(Acts(w, actions))
    decreases |actions|
  {
    if actions != [] {
      ActsSafe(w, actions[..|actions| - 1]);
      ActSafe(Acts(w, actions[..|actions| - 1]), actions[|actions| - 1]);
    }
  }

  lemma FreshIsSafe(w: World)
    requires Untouched(w)
    ensures Safe(w)
  {
  }

  /** At every durable point of every interleaving: imported implies pinned implies fenced, a quarantined journal
      implies imported, the rows were installed once and are exactly the journaled bundle's claims, and the quarantine was
      logged at most once. */
  lemma ImportedPinnedFenced(w: World, actions: seq<Action>)
    requires Untouched(w)
    ensures var d := Acts(w, actions).d;
            && (Imported(d) ==> d.pin.Some? && d.kernel.value.identity == d.pin.value.identity && Adoptions(d.kernel.value.content.value.events) == 1)
            && (Imported(d) ==> d.journal.Some? && d.kernel.value.content.value.legacyClaims.Some?
                                && HoldsClaims(d.kernel.value.content.value.legacyClaims.value, d.journal.value.bundle.claims))
            && (d.pin.Some? ==> d.fence == Some(d.pin.value.bundle))
            && (d.fence.Some? ==> d.journal.Some? && d.journal.value.bundle == d.fence.value)
            && (d.journal.Some? && d.journal.value.phase == Quarantined ==> Imported(d))
            && Quarantines(d.log) <= 1
  {
    FreshIsSafe(w);
    ActsSafe(w, actions);
    var d := Acts(w, actions).d;
    if Imported(d) { TableHolds(d.journal.value.bundle.claims); }
  }

  lemma PinStays(w: World, a: Action)
    requires Safe(w) && w.d.pin.Some?
    ensures Act(w, a).d.pin == w.d.pin && Act(w, a).d.kernel.Some?
    ensures Imported(w.d) ==> Imported(Act(w, a).d)
  {
    if a.Use? && w.d.kernel.Some? && w.d.kernel.value.content.Some? {
      UseLegacy(w.d.kernel.value.content.value, a.env.(sidecar := true), a.op);
    }
  }

  /** From the moment the pin is durable, whatever calls run, die or return and whatever else uses the kernel,
      no allocation, claim or runner is ever in it, and an import is never undone. */
  lemma {:induction false} NothingEverEnters(w: World, actions: seq<Action>)
    requires Safe(w) && w.d.pin.Some?
    ensures var d := Acts(w, actions).d;
            && d.pin == w.d.pin && d.kernel.Some?
            && (d.kernel.value.content.Some? ==> Vacant(d.kernel.value.content.value))
            && (Imported(w.d) ==> Imported(d))
    decreases |actions|
  {
    if actions != [] {
      var front := actions[..|actions| - 1];
      NothingEverEnters(w, front);
      ActsSafe(w, front);
      PinStays(Acts(w, front), actions[|actions| - 1]);
    }
    ActsSafe(w, actions);
  }

  // ---------- convergence of crashed and recovered calls ----------

  function Rank(pc: Pc): nat {
    match pc
    case NeedFence => 4
    case NeedPin => 3
    case NeedImport(_) => 2
    case NeedComplete(_) => 1
    case Finished => 0
  }

  /** A call left alone until it returns or refuses. `inode` is the inode the kernel file gets if it is created;
      it is created at most once, so one value serves every attempt. */
  function Drive(d: Stores, record: Record, pc: Pc, inode: nat): Option<Stores>
    decreases Rank(pc), if d.kernel.None? then 1 else 0
  {
    if pc.Finished? then Some(d)
    else
      var s := NextWrite(d, record, pc, inode);
      if s.Refused? then None else Drive(s.state, record, s.value, inode)
  }

  /** The stores after a call made `n` durable writes and died. */
  function Writes(d: Stores, record: Record, pc: Pc, inode: nat, n: nat): Stores
    decreases n
  {
    if n == 0 then d
    else
      var s := NextWrite(d, record, pc, inode);
      if s.Refused? then d else Writes(s.state, record, s.value, inode, n - 1)
  }

  function ApplyAll(d: Stores, record: Record, source: Hash, previewFresh: bool, inode: nat): Option<Stores> {
    var s := StartApply(d, record, source, previewFresh);
    if s.Refused? then None else Drive(s.state, record, s.value, inode)
  }

  function RecoverAll(d: Stores, id: Id, source: Hash, inode: nat): Option<Stores> {
    var s := StartRecover(d, id, source);
    if s.Refused? then None else Drive(d, d.journal.value, s.value, inode)
  }

  /** No other user has changed the kernel since the review, as far as the next steps look: before the pin it is as
      reviewed, after it any tables it has are for the reviewed policy. */
  predicate Undisturbed(d: Stores) {
    d.journal.Some? ==>
      if d.pin.Some? then d.kernel.Some? && d.kernel.value.content.Some? ==> d.kernel.value.content.value.policy == d.journal.value.bundle.policy
      else if d.journal.value.kernelBefore.Some? then d.kernel == d.journal.value.kernelBefore
      else d.kernel.Some? ==> d.kernel.value.content.None?
  }

  ghost predicate Sound(d: Stores) {
    d.journal.Some? && Ordered(d) && PinnedVacant(d) && LoggedOnce(d)
  }

  lemma WriteSound(d: Stores, pc: Pc, inode: nat)
    requires Sound(d) && CallSound(d, pc) && NextWrite(d, d.journal.value, pc, inode).Done?
    ensures var s := NextWrite(d, d.journal.value, pc, inode);
            && Sound(s.state) && CallSound(s.state, s.value)
            && (Undisturbed(d) ==> Undisturbed(s.state))
            && (!pc.NeedComplete? ==> s.state.journal == d.journal)
            && s.state.journal.value.bundle == d.journal.value.bundle && s.state.journal.value.id == d.journal.value.id
  {
    WriteOrdered(d, pc, inode);
    WriteKernel(d, pc, inode);
    WriteCalls(World(d, map[0 := pc]), 0, inode);
  }

  /** Undisturbed, a call never refuses. */
  lemma WriteSucceeds(d: Stores, pc: Pc, inode: nat)
    requires Sound(d) && CallSound(d, pc) && Undisturbed(d)
    ensures NextWrite(d, d.journal.value, pc, inode).Done?
  {
  }

  lemma {:induction false} DriveSucceeds(d: Stores, pc: Pc, inode: nat)
    requires Sound(d) && CallSound(d, pc) && Undisturbed(d)
    ensures Drive(d, d.journal.value, pc, inode).Some?
    decreases Rank(pc), if d.kernel.None? then 1 else 0
  {
    if !pc.Finished? {
      WriteSucceeds(d, pc, inode);
      WriteSound(d, pc, inode);
      var s := NextWrite(d, d.journal.value, pc, inode);
      if !pc.NeedComplete? { DriveSucceeds(s.state, s.value, inode); }
    }
  }

  /** Starting over from the first step re-does nothing: it walks to where the call was. */
  lemma StartOver(d: Stores, pc: Pc, inode: nat)
    requires Sound(d) && CallSound(d, pc)
    ensures Drive(d, d.journal.value, NeedFence, inode) == Drive(d, d.journal.value, pc, inode)
  {
    var record := d.journal.value;
    if !pc.NeedFence? {
      assert NextWrite(d, record, NeedFence, inode) == Done(d, NeedPin);
      assert Drive(d, record, NeedFence, inode) == Drive(d, record, NeedPin, inode);
      if !pc.NeedPin? {
        var identity := d.pin.value.identity;
        assert NextWrite(d, record, NeedPin, inode) == Done(d, NeedImport(identity));
        assert Drive(d, record, NeedPin, inode) == Drive(d, record, NeedImport(identity), inode);
        if !pc.NeedImport? {
          StartOverImported(d, inode);
          assert Drive(d, record, NeedImport(identity), inode) == Drive(d, record, NeedComplete(identity), inode);
        }
      }
    }
  }

  lemma StartOverImported(d: Stores, inode: nat)
    requires Sound(d) && Imported(d) && d.pin.Some?
    ensures NextWrite(d, d.journal.value, NeedImport(d.pin.value.identity), inode) == Done(d, NeedComplete(d.pin.value.identity))
    ensures d.journal.value.phase == Quarantined ==>
              NextWrite(d, d.journal.value, NeedComplete(d.pin.value.identity), inode) == Done(d, Finished)
  {
    assert KernelSound(d.kernel.value.content.value);
  }

  /** Dying after any number of writes and starting over reaches exactly what going on would have reached. */
  lemma {:induction false} CrashIsInvisible(d: Stores, pc: Pc, inode: nat, n: nat)
    requires Sound(d) && CallSound(d, pc) && Undisturbed(d)
    ensures var b := Writes(d, d.journal.value, pc, inode, n);
            && Sound(b) && Undisturbed(b)
            && b.journal.value.id == d.journal.value.id && b.journal.value.bundle == d.journal.value.bundle
            && Drive(b, b.journal.value, NeedFence, inode) == Drive(d, d.journal.value, pc, inode)
    decreases n
  {
    if n == 0 {
      StartOver(d, pc, inode);
    } else {
      WriteSucceeds(d, pc, inode);
      WriteSound(d, pc, inode);
      var s := NextWrite(d, d.journal.value, pc, inode);
      if pc.NeedComplete? || pc.Finished? {
        CrashAtTheEnd(d, pc, inode, n);
      } else {
        CrashIsInvisible(s.state, s.value, inode, n - 1);
      }
    }
  }

  lemma CrashAtTheEnd(d: Stores, pc: Pc, inode: nat, n: nat)
    requires Sound(d) && CallSound(d, pc) && Undisturbed(d) && n > 0 && (pc.NeedComplete? || pc.Finished?)
    ensures var b := Writes(d, d.journal.value, pc, inode, n);
            && Sound(b) && Undisturbed(b)
            && b.journal.value.id == d.journal.value.id && b.journal.value.bundle == d.journal.value.bundle
            && Drive(b, b.journal.value, NeedFence, inode) == Drive(d, d.journal.value, pc, inode)
  {
    WriteSucceeds(d, pc, inode);
    WriteSound(d, pc, inode);
    var s := NextWrite(d, d.journal.value, pc, inode);
    FinishedWrites(s.state, d.journal.value, inode, n - 1);
    StartOver(s.state, Finished, inode);
  }

  lemma {:induction false} FinishedWrites(d: Stores, record: Record, inode: nat, n: nat)
    ensures Writes(d, record, Finished, inode, n) == d
    decreases n
  {
    if n > 0 { FinishedWrites(d, record, inode, n - 1); }
  }

  /** A recovery of undisturbed stores always gets through. */
  lemma RecoverStarts(d: Stores, inode: nat)
    requires Sound(d)
    ensures RecoverAll(d, d.journal.value.id, d.journal.value.bundle.sourceHash, inode) == Drive(d, d.journal.value, NeedFence, inode)
  {
  }

  /** The exact condition for a recovery: the journaled identifier, an unchanged source, and an undisturbed kernel, down
      to the policy of tables that someone else may have put into the pinned file. */
  lemma RecoverExactly(d: Stores, id: Id, source: Hash, inode: nat)
    requires Sound(d)
    ensures RecoverAll(d, id, source, inode).Some?
            <==> id == d.journal.value.id && source == d.journal.value.bundle.sourceHash && Undisturbed(d)
  {
    if id == d.journal.value.id && source == d.journal.value.bundle.sourceHash {
      RecoverStarts(d, inode);
      if Undisturbed(d) {
        DriveSucceeds(d, NeedFence, inode);
      } else {
        DisturbedRefuses(d, inode);
      }
    }
  }

  lemma DisturbedRefuses(d: Stores, inode: nat)
    requires Sound(d) && !Undisturbed(d)
    ensures Drive(d, d.journal.value, NeedFence, inode).None?
  {
    var record := d.journal.value;
    var s := NextWrite(d, record, NeedFence, inode);
    if d.pin.None? {
      assert NextWrite(s.state, record, NeedPin, inode).Refused?;
    } else {
      var identity := d.pin.value.identity;
      assert s == Done(d, NeedPin);
      assert NextWrite(d, record, NeedPin, inode) == Done(d, NeedImport(identity));
      assert NextWrite(d, record, NeedImport(identity), inode).Refused?;
      assert Drive(d, record, NeedPin, inode) == Drive(d, record, NeedImport(identity), inode);
    }
  }

  /** Recovery attempts that die after `ns[0]`, `ns[1]`, … writes, one after the other. */
  function Attempts(d: Stores, inode: nat, ns: seq<nat>): Stores
    requires d.journal.Some?
    decreases |ns|
  {
    if ns == [] then d
    else
      var b := Attempts(d, inode, ns[..|ns| - 1]);
      if b.journal.Some? then Writes(b, b.journal.value, NeedFence, inode, ns[|ns| - 1]) else b
  }

  lemma {:induction false} AttemptsConverge(d: Stores, inode: nat, ns: seq<nat>)
    requires Sound(d) && Undisturbed(d)
    ensures var b := Attempts(d, inode, ns);
            && Sound(b) && Undisturbed(b)
            && b.journal.value.id == d.journal.value.id && b.journal.value.bundle == d.journal.value.bundle
            && Drive(b, b.journal.value, NeedFence, inode) == Drive(d, d.journal.value, NeedFence, inode)
    decreases |ns|
  {
    if ns != [] {
      AttemptsConverge(d, inode, ns[..|ns| - 1]);
      CrashIsInvisible(Attempts(d, inode, ns[..|ns| - 1]), NeedFence, inode, ns[|ns| - 1]);
    }
  }

  /** The import converges: let an accepted import die after any number of writes, let any number of recoveries die
      anywhere as well, then let one recovery finish. The stores are exactly those of an import that was never
      interrupted: quarantined, logged once, installed once, and the kernel's rows are exactly the reviewed bundle's
      claims. Recovering again changes nothing. */
  lemma AdoptionConverges(d: Stores, record: Record, source: Hash, inode: nat, n: nat, ns: seq<nat>)
    requires Untouched(World(d, map[])) && StartApply(d, record, source, true).Done?
    ensures var started := StartApply(d, record, source, true);
            var crashed := Writes(started.state, record, started.value, inode, n);
            && crashed.journal.Some?
            && var recovered := RecoverAll(Attempts(crashed, inode, ns), record.id, source, inode);
            && recovered.Some?
            && recovered == ApplyAll(d, record, source, true, inode)
            && Imported(recovered.value) && recovered.value.journal.Some? && recovered.value.journal.value.phase == Quarantined
            && recovered.value.journal.value.bundle == record.bundle
            && var imported := recovered.value.kernel.value.content.value;
            && imported.legacy == Some(record.bundle) && imported.legacyClaims.Some?
            && HoldsClaims(imported.legacyClaims.value, record.bundle.claims)
            && Quarantines(recovered.value.log) == 1 && Adoptions(imported.events) == 1
            && RecoverAll(recovered.value, record.id, source, inode) == recovered
  {
    var started := StartApply(d, record, source, true).state;
    FreshIsSafe(World(d, map[]));
    ApplySafe(World(d, map[]), 0, record, source, true);
    assert Sound(started) && Undisturbed(started);
    CrashIsInvisible(started, NeedFence, inode, n);
    var crashed := Writes(started, record, NeedFence, inode, n);
    AttemptsConverge(crashed, inode, ns);
    var last := Attempts(crashed, inode, ns);
    RecoverStarts(last, inode);
    DriveSucceeds(last, NeedFence, inode);
    DriveFinishes(last, NeedFence, inode);
    var final := Drive(last, last.journal.value, NeedFence, inode).value;
    assert RecoverAll(last, record.id, source, inode) == Some(final);
    RecoverStarts(final, inode);
    StartOver(final, Finished, inode);
    assert RecoverAll(final, record.id, source, inode) == Some(final);
    assert KernelSound(final.kernel.value.content.value);
    TableHolds(record.bundle.claims);
  }

  lemma {:induction false} DriveFinishes(d: Stores, pc: Pc, inode: nat)
    requires Sound(d) && CallSound(d, pc) && Drive(d, d.journal.value, pc, inode).Some?
    ensures var b := Drive(d, d.journal.value, pc, inode).value;
            && Sound(b) && CallSound(b, Finished)
            && b.journal.value.id == d.journal.value.id && b.journal.value.bundle == d.journal.value.bundle
    decreases Rank(pc), if d.kernel.None? then 1 else 0
  {
    if !pc.Finished? {
      WriteSound(d, pc, inode);
      var s := NextWrite(d, d.journal.value, pc, inode);
      if !pc.NeedComplete? { DriveFinishes(s.state, s.value, inode); }
    }
  }

  /** Another: an empty kernel file, created and pinned by an import, can be initialized by anyone with another policy
      before the import does; then no recovery can finish either. */
  lemma OtherPolicyStrands(w: World, policy: Policy, inode: nat)
    requires Safe(w) && w.d.pin.Some? && w.d.kernel.value.content.None? && ValidPolicy(policy) && policy != w.d.journal.value.bundle.policy
    ensures var b := Act(w, Initialize(policy, inode, false)).d;
            && b.journal == w.d.journal
            && RecoverAll(b, w.d.journal.value.id, w.d.journal.value.bundle.sourceHash, inode).None?
  {
    InitializeSafe(w, policy, inode, false);
    var b := Act(w, Initialize(policy, inode, false)).d;
    RecoverExactly(b, w.d.journal.value.id, w.d.journal.value.bundle.sourceHash, inode);
  }

  /** A limit of the protocol: recording account usage is not fenced, so if it happens after the fence and before the
      pin of an import into an existing kernel, no recovery can finish any more. */
  lemma AccountObservationStrands(d: Stores, env: Env, o: Account, inode: nat)
    requires Sound(d) && d.pin.None? && Undisturbed(d)
    requires d.journal.value.kernelBefore.Some? && d.kernel.value.content.Some?
    requires var k := d.kernel.value.content.value; ObserveAccount(k, env, o).Done? && k.account != Some(o)
    ensures var k := d.kernel.value.content.value;
            var b := d.(kernel := Some(KernelFile(d.kernel.value.identity, Some(ObserveAccount(k, env, o).state))));
            RecoverAll(b, d.journal.value.id, d.journal.value.bundle.sourceHash, inode).None?
  {
    var k := d.kernel.value.content.value;
    var b := d.(kernel := Some(KernelFile(d.kernel.value.identity, Some(ObserveAccount(k, env, o).state))));
    var s := NextWrite(b, d.journal.value, NeedFence, inode);
    assert b.kernel.value.content.value.account != k.account;
    assert d.kernel == d.journal.value.kernelBefore;
    if s.Done? {
      assert NextWrite(s.state, d.journal.value, NeedPin, inode).Refused?;
      assert Drive(s.state, d.journal.value, NeedPin, inode).None?;
    }
  }
}
