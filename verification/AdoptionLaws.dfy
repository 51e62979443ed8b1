/** When an import starts, when a call left alone gets through from whatever stores it meets, and what it leaves, in the
    fields of the five stores. */
module AdoptionLaws {
  import opened Sums
  import opened AdmissionModel
  import opened Adoption

  /** A reviewed bundle: a policy within its bounds, and at most 2000 claims of this enrollment, each retained in at least
      one version and named once. */
  predicate Reviewable(b: Bundle) {
    && 1 <= b.policy.maxParallelTasks <= 64 && 1 <= b.policy.maxObservationAge <= 300 && 1 <= b.policy.minRemainingPercent <= 99
    && |b.claims| <= 2000
    && (forall c | c in b.claims :: c.id.0 == b.enrollmentId && |c.versions| > 0)
    && forall i, j | 0 <= i < j < |b.claims| :: b.claims[i].id != b.claims[j].id
  }

  /** Tables of this policy into which nothing has come yet: no allocation, claim, resource or retained ownership. */
  predicate Pristine(k: Kernel, policy: Policy) {
    && k.policy == policy && |k.allocations| == 0 && |k.claims| == 0 && |k.resources| == 0
    && k.legacy.None? && k.legacyClaims.None?
  }

  lemma BundleReads(b: Bundle)
    ensures ValidBundle(b) <==> Reviewable(b)
  {
    assert forall i | 0 <= i < |b.claims| :: b.claims[i] in b.claims;
  }

  /** The first import of a registry starts if and only if the review is fresh and its bundle well formed, ownership and
      kernel are as they were reviewed, and the kernel is absent, empty or pristine. It journals the reviewed record,
      which is a prepared one of its own bundle. */
  lemma StartsExactly(d: Stores, record: Record, source: Hash, previewFresh: bool)
    ensures var s := StartApply(d, record, source, previewFresh);
            && (s.Done? <==>
                  && record.phase == Prepared && record.kernelIdentity.None? && record.bundle.id == record.id
                  && d.journal.None? && previewFresh && Reviewable(record.bundle) && source == record.bundle.sourceHash
                  && d.kernel == record.kernelBefore
                  && (d.kernel.Some? && d.kernel.value.content.Some? ==> Pristine(d.kernel.value.content.value, record.bundle.policy)))
            && (s.Done? ==> s == Done(d.(journal := Some(record), log := d.log + [AdoptionPrepared(record.request)]), NeedFence))
  {
    BundleReads(record.bundle);
  }

  /** The tables a call can finish with: none yet, pristine ones, or this very import done before. */
  predicate Installable(content: Option<Kernel>, b: Bundle) {
    content.Some? ==>
      || Pristine(content.value, b.policy)
      || (&& content.value.policy == b.policy && content.value.legacy == Some(b)
          && content.value.legacyClaims.Some? && HoldsClaims(content.value.legacyClaims.value, b.claims))
  }

  /** What lets a call through, whatever stores it meets: no other fence, no other pin, the kernel file that was pinned or
      reviewed or else none with tables, tables it can finish with, and its own journal. */
  predicate Passable(d: Stores, record: Record) {
    && (d.fence.Some? ==> d.fence.value == record.bundle)
    && (if d.pin.Some? then d.pin.value.bundle == record.bundle && d.kernel.Some? && d.kernel.value.identity == d.pin.value.identity
        else if record.kernelBefore.Some? then d.kernel == record.kernelBefore
        else d.kernel.Some? ==> d.kernel.value.content.None?)
    && (d.kernel.Some? ==> Installable(d.kernel.value.content, record.bundle))
    && d.journal.Some? && d.journal.value.request == record.request
  }

  /** The tables after an import into these. */
  predicate InstalledIn(content: Option<Kernel>, b: Bundle, k: Kernel) {
    if content.Some? && content.value.legacy.Some? then k == content.value
    else
      && k.legacyClaims.Some? && HoldsClaims(k.legacyClaims.value, b.claims)
      && k == (if content.Some? then content.value else Kernel(b.policy, None, None, None, map[], map[], map[], []))
              .(legacy := Some(b), legacyClaims := k.legacyClaims, events := k.events)
      && k.events == (if content.Some? then content.value.events else []) + [LegacyAdopted(b)]
  }

  lemma OneTable(a: map<(Id, Id, Id), LegacyClaim>, b: map<(Id, Id, Id), LegacyClaim>, claims: seq<LegacyClaim>)
    requires HoldsClaims(a, claims) && HoldsClaims(b, claims)
    ensures a == b
  {
    forall id | id in a ensures id in b && a[id] == b[id] { assert a[id] in claims; }
    forall id | id in b ensures id in a { assert b[id] in claims; }
  }

  lemma InstallExactly(content: Option<Kernel>, b: Bundle)
    requires Reviewable(b)
    ensures var k := if content.Some? then content.value else Empty(b.policy);
            && (Install(k, b).Done? <==> Installable(content, b))
            && (Install(k, b).Done? ==> InstalledIn(content, b, Install(k, b).state))
  {
    BundleReads(b);
    TableHolds(b.claims);
    var k := if content.Some? then content.value else Empty(b.policy);
    if k.legacyClaims.Some? && HoldsClaims(k.legacyClaims.value, b.claims) {
      OneTable(k.legacyClaims.value, ClaimTable(b.claims), b.claims);
    }
  }

  /** A call left alone gets through from exactly these stores. */
  lemma DriveExactly(d: Stores, record: Record, inode: nat)
    requires Reviewable(record.bundle)
    ensures Drive(d, record, NeedFence, inode).Some? <==> Passable(d, record)
  {
    if NextWrite(d, record, NeedFence, inode).Done? {
      var fenced := NextWrite(d, record, NeedFence, inode).state;
      assert Drive(d, record, NeedFence, inode) == Drive(fenced, record, NeedPin, inode);
      PinExactly(fenced, record, inode);
    }
  }

  lemma PinExactly(d: Stores, record: Record, inode: nat)
    requires Reviewable(record.bundle) && d.fence == Some(record.bundle)
    ensures Drive(d, record, NeedPin, inode).Some? <==> Passable(d, record)
  {
    if d.pin.None? && record.kernelBefore.None? && d.kernel.None? {
      var made := d.(kernel := Some(KernelFile(inode, None)));
      assert NextWrite(d, record, NeedPin, inode) == Done(made, NeedPin);
      assert Drive(d, record, NeedPin, inode) == Drive(made, record, NeedPin, inode);
      PinStepExactly(made, record, inode);
    } else {
      PinStepExactly(d, record, inode);
    }
  }

  lemma PinStepExactly(d: Stores, record: Record, inode: nat)
    requires Reviewable(record.bundle) && d.fence == Some(record.bundle)
    requires d.pin.Some? || record.kernelBefore.Some? || d.kernel.Some?
    ensures Drive(d, record, NeedPin, inode).Some? <==> Passable(d, record)
  {
    var s := NextWrite(d, record, NeedPin, inode);
    if s.Done? && s.value.NeedImport? {
      assert Drive(d, record, NeedPin, inode) == Drive(s.state, record, s.value, inode);
      if s.state.kernel.Some? { ImportExactly(s.state, record, s.value.identity, inode); }
    }
  }

  lemma ImportExactly(d: Stores, record: Record, identity: nat, inode: nat)
    requires Reviewable(record.bundle) && d.fence == Some(record.bundle) && d.pin == Some(Pin(record.bundle, identity))
    requires d.kernel.Some? && d.kernel.value.identity == identity
    ensures Drive(d, record, NeedImport(identity), inode).Some?
            <==> Installable(d.kernel.value.content, record.bundle) && d.journal.Some? && d.journal.value.request == record.request
  {
    InstallExactly(d.kernel.value.content, record.bundle);
    var s := NextWrite(d, record, NeedImport(identity), inode);
    if s.Done? {
      assert Drive(d, record, NeedImport(identity), inode) == Drive(s.state, record, NeedComplete(identity), inode);
      var t := NextWrite(s.state, record, NeedComplete(identity), inode);
      if t.Done? { assert Drive(s.state, record, NeedComplete(identity), inode) == Drive(t.state, record, Finished, inode); }
    }
  }

  /** The kernel transaction looks once more at fence, pin and file, whoever may have changed them since. */
  lemma ImportStepExactly(d: Stores, record: Record, identity: nat, inode: nat)
    requires Reviewable(record.bundle)
    ensures NextWrite(d, record, NeedImport(identity), inode).Done?
            <==> && d.fence == Some(record.bundle) && d.pin == Some(Pin(record.bundle, identity))
                 && d.kernel.Some? && d.kernel.value.identity == identity && Installable(d.kernel.value.content, record.bundle)
  {
    if d.kernel.Some? { InstallExactly(d.kernel.value.content, record.bundle); }
  }

  /** A recovery gets through whatever stores it meets if and only if it names the journaled import, ownership is as it was,
      the kernel file is the one that was adopted, or else the one that was reviewed, and the call gets through. */
  lemma RecoversExactly(d: Stores, id: Id, source: Hash, inode: nat)
    requires d.journal.Some? && Reviewable(d.journal.value.bundle)
    ensures var record := d.journal.value;
            RecoverAll(d, id, source, inode).Some?
            <==> && id == record.id && source == record.bundle.sourceHash
                 && (record.kernelIdentity.Some? ==> d.kernel.Some? && d.kernel.value.identity == record.kernelIdentity.value)
                 && (record.kernelIdentity.None? && record.kernelBefore.Some? ==>
                       d.kernel.Some? && d.kernel.value.identity == record.kernelBefore.value.identity)
                 && Passable(d, record)
  {
    DriveExactly(d, d.journal.value, inode);
  }

  /** Opening the kernel with a policy makes what is missing, and stops after the empty file if the process dies there. */
  lemma OpeningExactly(f: Option<KernelFile>, policy: Policy, inode: nat, died: bool)
    ensures Initialized(f, policy, inode, died)
            == if !(1 <= policy.maxParallelTasks <= 64 && 1 <= policy.maxObservationAge <= 300 && 1 <= policy.minRemainingPercent <= 99) then f
               else match f
                    case None => Some(KernelFile(inode, if died then None else Some(Kernel(policy, None, None, None, map[], map[], map[], []))))
                    case Some(KernelFile(identity, None)) =>
                      if died then f else Some(KernelFile(identity, Some(Kernel(policy, None, None, None, map[], map[], map[], []))))
                    case Some(KernelFile(_, Some(_))) => f
  {
  }

  /** And it leaves exactly this: the bundle's fence, a pin on one kernel file, the bundle's claims in that file, and a
      journal that says so, written once. */
  lemma ImportLeaves(d: Stores, record: Record, source: Hash, inode: nat)
    requires Reviewable(record.bundle) && d.journal.None? && d.fence.None? && d.pin.None?
    requires ApplyAll(d, record, source, true, inode).Some?
    ensures var v := ApplyAll(d, record, source, true, inode).value;
            var identity := if d.kernel.Some? then d.kernel.value.identity else inode;
            && v.journal == Some(record.(phase := Quarantined, kernelIdentity := Some(identity)))
            && v.log == d.log + [AdoptionPrepared(record.request), OwnershipQuarantined(record.bundle, identity)]
            && v.fence == Some(record.bundle) && v.pin == Some(Pin(record.bundle, identity))
            && v.kernel.Some? && v.kernel.value.identity == identity && v.kernel.value.content.Some?
            && InstalledIn(if d.kernel.Some? then d.kernel.value.content else None, record.bundle, v.kernel.value.content.value)
  {
    var started := StartApply(d, record, source, true).state;
    var fenced := started.(fence := Some(record.bundle));
    assert NextWrite(started, record, NeedFence, inode) == Done(fenced, NeedPin);
    assert Drive(started, record, NeedFence, inode) == Drive(fenced, record, NeedPin, inode);
    var identity := if d.kernel.Some? then d.kernel.value.identity else inode;
    var filed := if d.kernel.Some? then fenced else fenced.(kernel := Some(KernelFile(inode, None)));
    assert Drive(fenced, record, NeedPin, inode) == Drive(filed, record, NeedPin, inode);
    var pinned := filed.(pin := Some(Pin(record.bundle, identity)));
    assert NextWrite(filed, record, NeedPin, inode) == Done(pinned, NeedImport(identity));
    assert Drive(filed, record, NeedPin, inode) == Drive(pinned, record, NeedImport(identity), inode);
    ImportStepLeaves(pinned, record, identity, inode);
  }

  lemma ImportStepLeaves(d: Stores, record: Record, identity: nat, inode: nat)
    requires Reviewable(record.bundle) && d.kernel.Some? && d.journal == Some(record) && record.phase == Prepared
    requires Drive(d, record, NeedImport(identity), inode).Some?
    ensures var v := Drive(d, record, NeedImport(identity), inode).value;
            && v == d.(journal := Some(record.(phase := Quarantined, kernelIdentity := Some(identity))),
                       log := d.log + [OwnershipQuarantined(record.bundle, identity)], kernel := v.kernel)
            && v.kernel.Some? && v.kernel.value.identity == identity && v.kernel.value.content.Some?
            && InstalledIn(d.kernel.value.content, record.bundle, v.kernel.value.content.value)
  {
    InstallExactly(d.kernel.value.content, record.bundle);
    var s := NextWrite(d, record, NeedImport(identity), inode);
    assert Drive(d, record, NeedImport(identity), inode) == Drive(s.state, record, NeedComplete(identity), inode);
    var t := NextWrite(s.state, record, NeedComplete(identity), inode);
    assert Drive(s.state, record, NeedComplete(identity), inode) == Drive(t.state, record, Finished, inode);
  }
}
