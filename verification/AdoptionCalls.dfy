/** The calls of an import, writing one store after the other. What a call leaves behind, whether it returns or
    refuses half-way, is the sequence of writes that Adoption reasons about. */
module AdoptionCalls {
  import opened Sums
  import opened AdmissionModel
  import opened Adoption

  class Platform {
    var journal: Option<Record>
    var log: seq<LogEntry>
    var fence: Option<Bundle>
    var pin: Option<Pin>
    var kernel: Option<KernelFile>

    function Files(): Stores
      reads this
    {
      Stores(journal, log, fence, pin, kernel)
    }

    constructor (kernel: Option<KernelFile>)
      ensures Files() == Stores(None, [], None, None, kernel)
    {
      journal, log, fence, pin := None, [], None, None;
      this.kernel := kernel;
    }

    /** Published without overwriting: absent it is written, identical it stands, different it refuses. */
    method DurableFence(bundle: Bundle) returns (ok: bool)
      modifies this`fence
      ensures ok <==> old(fence).None? || old(fence) == Some(bundle)
      ensures fence == if old(fence).None? then Some(bundle) else old(fence)
    {
      if fence.None? { fence := Some(bundle); }
      ok := fence == Some(bundle);
    }

    /** Uses the pinned kernel, or pins the reviewed one, or creates an empty file and pins that. */
    method PinKernel(record: Record, inode: nat) returns (identity: Option<nat>)
      modifies this`pin, this`kernel
      ensures Files() == Writes(old(Files()), record, NeedPin, inode, PinWrites(old(Files()), record))
      ensures PcAfter(old(Files()), record, NeedPin, inode, PinWrites(old(Files()), record))
              == if identity.Some? then Some(NeedImport(identity.value)) else None
      ensures Drive(old(Files()), record, NeedPin, inode)
              == if identity.Some? then Drive(Files(), record, NeedImport(identity.value), inode) else None
    {
      ghost var mid := Files();
      if pin.Some? {
        if pin.value.bundle != record.bundle || kernel.None? || kernel.value.identity != pin.value.identity { return None; }
        return Some(pin.value.identity);
      }
      if record.kernelBefore.Some? {
        if kernel != record.kernelBefore { return None; }
      } else if kernel.Some? {
        if kernel.value.content.Some? { return None; }
      } else {
        kernel := Some(KernelFile(inode, None));
        assert NextWrite(mid, record, NeedPin, inode) == Done(Files(), NeedPin);
        mid := Files();
      }
      pin := Some(Pin(record.bundle, kernel.value.identity));
      assert NextWrite(mid, record, NeedPin, inode) == Done(Files(), NeedImport(kernel.value.identity));
      assert Writes(mid, record, NeedPin, inode, 1) == Files();
      assert PcAfter(mid, record, NeedPin, inode, 1) == Some(NeedImport(kernel.value.identity));
      identity := Some(kernel.value.identity);
    }

    /** Fence, pin, then one kernel transaction that installs the rows or finds them installed. */
    method Finish(record: Record, inode: nat) returns (identity: Option<nat>)
      modifies this`fence, this`pin, this`kernel
      ensures Drive(old(Files()), record, NeedFence, inode)
              == if identity.Some? then Drive(Files(), record, NeedComplete(identity.value), inode) else None
      ensures Files() == Writes(old(Files()), record, NeedFence, inode, 2 + PinWrites(old(Files()), record))
    {
      var placed := DurableFence(record.bundle);
      if !placed { return None; }
      label fenced:
      var pinned := PinKernel(record, inode);
      assert PinWrites(old@fenced(Files()), record) == PinWrites(old(Files()), record);
      WritesCompose(old@fenced(Files()), record, NeedPin, inode, PinWrites(old@fenced(Files()), record), 1);
      if pinned.None? { return None; }
      if fence != Some(record.bundle) || pin != Some(Pin(record.bundle, pinned.value)) || kernel.None? || kernel.value.identity != pinned.value { return None; }
      var store := if kernel.value.content.Some? then kernel.value.content.value else Empty(record.bundle.policy);
      var installed := Install(store, record.bundle);
      if installed.Refused? { return None; }
      kernel := Some(KernelFile(pinned.value, Some(installed.state)));
      identity := pinned;
    }

    /** The receipt: only the first completion writes it and logs it. */
    method Complete(record: Record, identity: nat) returns (ok: bool)
      modifies this`journal, this`log
      ensures var s := NextWrite(old(Files()), record, NeedComplete(identity), 0);
              ok == s.Done? && Files() == if s.Done? then s.state else old(Files())
    {
      if journal.None? || journal.value.request != record.request { return false; }
      if journal.value.phase != Quarantined {
        journal := Some(record.(phase := Quarantined, kernelIdentity := Some(identity)));
        log := log + [OwnershipQuarantined(record.bundle, identity)];
      }
      ok := true;
    }

    method Adopt(record: Record, source: Hash, previewFresh: bool, inode: nat) returns (ok: bool)
      modifies this
      ensures ok == ApplyAll(old(Files()), record, source, previewFresh, inode).Some?
      ensures ok ==> Some(Files()) == ApplyAll(old(Files()), record, source, previewFresh, inode)
    {
      if StartApply(Files(), record, source, previewFresh).Refused? { return false; }
      journal, log := Some(record), log + [AdoptionPrepared(record.request)];
      ok := Carry(record, inode);
    }

    method Recover(id: Id, source: Hash, inode: nat) returns (ok: bool)
      modifies this
      ensures ok == RecoverAll(old(Files()), id, source, inode).Some?
      ensures ok ==> Some(Files()) == RecoverAll(old(Files()), id, source, inode)
    {
      if StartRecover(Files(), id, source).Refused? { return false; }
      ok := Carry(journal.value, inode);
    }

    method Carry(record: Record, inode: nat) returns (ok: bool)
      modifies this
      ensures ok == Drive(old(Files()), record, NeedFence, inode).Some?
      ensures ok ==> Some(Files()) == Drive(old(Files()), record, NeedFence, inode)
    {
      var identity := Finish(record, inode);
      if identity.None? { return false; }
      ok := Complete(record, identity.value);
    }
  }

  /** How many writes the pin step takes: a missing kernel file is created first. */
  function PinWrites(d: Stores, record: Record): nat {
    if d.pin.None? && record.kernelBefore.None? && d.kernel.None? then 2 else 1
  }

  /** The next write after `n` others, if the call is still running. */
  function PcAfter(d: Stores, record: Record, pc: Pc, inode: nat, n: nat): Option<Pc>
    decreases n
  {
    if n == 0 then Some(pc)
    else
      var s := NextWrite(d, record, pc, inode);
      if s.Refused? then None else PcAfter(s.state, record, s.value, inode, n - 1)
  }

  lemma {:induction false} WritesCompose(d: Stores, record: Record, pc: Pc, inode: nat, n: nat, m: nat)
    ensures var b := Writes(d, record, pc, inode, n);
            var next := PcAfter(d, record, pc, inode, n);
            Writes(d, record, pc, inode, n + m) == if next.Some? then Writes(b, record, next.value, inode, m) else b
    decreases n
  {
    if n > 0 {
      var s := NextWrite(d, record, pc, inode);
      if s.Done? { WritesCompose(s.state, record, s.value, inode, n - 1, m); }
    }
  }
}
