/** Retiring an abandoned controller credential: link it under its archive name, make that durable, unlink the
    old name, make that durable. A process may die anywhere, and after a power loss a directory operation that
    was not yet synchronized may or may not have reached the disk, independently of the others. */
module CredentialRetirement {
  import opened Sums

  type Bytes = string

  datatype Dir = Dir(source: Option<nat>, archive: Option<nat>)

  /** The names as a running process sees them, the directories a power loss could leave, the files by inode,
      and the hard links each inode has under other names. */
  datatype Fs = Fs(view: Dir, disk: set<Dir>, files: map<nat, Bytes>, elsewhere: map<nat, nat>)

  datatype Pin = Pin(inode: nat, bytes: Bytes)
  datatype Reading = Missing | Unreadable | Found(pin: Pin, links: nat)

  function Links(fs: Fs, inode: nat): nat {
    (if fs.view.source == Some(inode) then 1 else 0) + (if fs.view.archive == Some(inode) then 1 else 0)
    + if inode in fs.elsewhere then fs.elsewhere[inode] else 0
  }

  /** A name is read only if its file holds the controller's credential and has one or two links. */
  function Read(fs: Fs, name: Option<nat>, controller: Bytes): Reading {
    if name.None? then Missing
    else if name.value !in fs.files || fs.files[name.value] != controller || !(1 <= Links(fs, name.value) <= 2) then Unreadable
    else Found(Pin(name.value, fs.files[name.value]), Links(fs, name.value))
  }

  function Link(fs: Fs, inode: nat): Fs {
    fs.(view := fs.view.(archive := Some(inode)), disk := fs.disk + set d | d in fs.disk :: d.(archive := Some(inode)))
  }

  function Unlink(fs: Fs): Fs {
    fs.(view := fs.view.(source := None), disk := fs.disk + set d | d in fs.disk :: d.(source := None))
  }

  function Sync(fs: Fs): Fs {
    fs.(disk := {fs.view})
  }

  datatype Pc = Start | NeedVerify | NeedUnlink | NeedSync | Retired | NotPresent | Refusal

  predicate Ended(pc: Pc) {
    pc in {Retired, NotPresent, Refusal}
  }

  /** One step of a call: it reads what it likes and performs at most one directory operation. */
  function Next(fs: Fs, controller: Bytes, expected: Option<Pin>, pc: Pc): (Fs, Pc) {
    match pc
    case Start =>
      if expected.None? then (fs, if fs.view.source.None? then NotPresent else Refusal)
      else
        var current, retained := Read(fs, fs.view.source, controller), Read(fs, fs.view.archive, controller);
        if current.Unreadable? || retained.Unreadable? then (fs, Refusal)
        else if (current.Found? && current.pin != expected.value) || (retained.Found? && retained.pin != expected.value) then (fs, Refusal)
        else if current.Missing? then (fs, if retained.Found? && retained.links == 1 then Retired else Refusal)
        else if retained.Found? then (fs, NeedVerify)
        else if current.links != 1 then (fs, Refusal)
        else (Link(fs, current.pin.inode), NeedVerify)
    case NeedVerify =>
      var current, retained := Read(fs, fs.view.source, controller), Read(fs, fs.view.archive, controller);
      if expected.Some? && current == Found(expected.value, 2) && retained == Found(expected.value, 2) then (Sync(fs), NeedUnlink) else (fs, Refusal)
    case NeedUnlink => (Unlink(fs), NeedSync)
    case NeedSync => (Sync(fs), Retired)
    case _ => (fs, pc)
  }

  function Rank(pc: Pc): nat {
    match pc
    case Start => 4
    case NeedVerify => 3
    case NeedUnlink => 2
    case NeedSync => 1
    case _ => 0
  }

  function Finish(fs: Fs, controller: Bytes, expected: Option<Pin>, pc: Pc): (Fs, Pc)
    decreases Rank(pc)
  {
    if Ended(pc) then (fs, pc)
    else
      var s := Next(fs, controller, expected, pc);
      Finish(s.0, controller, expected, s.1)
  }

  // ---------- every run with crashes ----------

  datatype Event = Step | Restart | PowerLoss(left: Dir)

  datatype World = World(fs: Fs, pc: Pc)

  /** A restart forgets the call; a power loss also leaves one of the directories the disk may hold. */
  function Act(w: World, controller: Bytes, expected: Pin, e: Event): World {
    match e
    case Step => var s := Next(w.fs, controller, Some(expected), w.pc); World(s.0, s.1)
    case Restart => World(w.fs, Start)
    case PowerLoss(left) => if left in w.fs.disk then World(w.fs.(view := left, disk := {left}), Start) else w
  }

  function Acts(w: World, controller: Bytes, expected: Pin, events: seq<Event>): World
    decreases |events|
  {
    if events == [] then w else Act(Acts(w, controller, expected, events[..|events| - 1]), controller, expected, events[|events| - 1])
  }

  /** The reviewed credential under its old name only, durably. */
  predicate Reviewed(fs: Fs, controller: Bytes, expected: Pin) {
    && fs.view == Dir(Some(expected.inode), None) && fs.disk == {fs.view}
    && expected.bytes == controller
    && expected.inode in fs.files && fs.files[expected.inode] == controller
    && (expected.inode in fs.elsewhere ==> fs.elsewhere[expected.inode] == 0)
  }

  /** A directory in which the credential is never lost, never replaced and never doubled by another file. */
  predicate Kept(d: Dir, inode: nat) {
    && (d.source.None? || d.source == Some(inode))
    && (d.archive.None? || d.archive == Some(inode))
    && (d.source.Some? || d.archive.Some?)
  }

  predicate Safe(w: World, controller: Bytes, expected: Pin) {
    && expected.bytes == controller && expected.inode in w.fs.files && w.fs.files[expected.inode] == controller
    && (expected.inode in w.fs.elsewhere ==> w.fs.elsewhere[expected.inode] == 0)
    && Kept(w.fs.view, expected.inode) && w.fs.view in w.fs.disk
    && (forall d | d in w.fs.disk :: Kept(d, expected.inode))
    && (w.fs.view.source.None? ==> forall d | d in w.fs.disk :: d.archive.Some?)
    && (w.pc in {NeedVerify, NeedUnlink} ==> w.fs.view == Dir(Some(expected.inode), Some(expected.inode)))
    && (w.pc == NeedUnlink ==> w.fs.disk == {w.fs.view})
    && (w.pc in {NeedSync, Retired} ==> w.fs.view == Dir(None, Some(expected.inode)))
    && w.pc != Refusal && w.pc != NotPresent
  }

  lemma ActSafe(w: World, controller: Bytes, expected: Pin, e: Event)
    requires Safe(w, controller, expected)
    ensures Safe(Act(w, controller, expected, e), controller, expected)
  {
  }

  lemma {:induction false} ActsSafe(w: World, controller: Bytes, expected: Pin, events: seq<Event>)
    requires Safe(w, controller, expected)
    ensures Safe(Acts(w, controller, expected, events), controller, expected)
    decreases |events|
  {
    if events != [] {
      ActsSafe(w, controller, expected, events[..|events| - 1]);
      ActSafe(Acts(w, controller, expected, events[..|events| - 1]), controller, expected, events[|events| - 1]);
    }
  }

  /** After any history of steps, restarts and power losses: whatever directory the next power loss could leave,
      at least one of the two names still holds the reviewed file, and neither name ever holds another file. */
  lemma NeverLost(fs: Fs, controller: Bytes, expected: Pin, events: seq<Event>)
    requires Reviewed(fs, controller, expected)
    ensures var w := Acts(World(fs, Start), controller, expected, events);
            forall d | d in w.fs.disk + {w.fs.view} :: Kept(d, expected.inode)
  {
    ActsSafe(World(fs, Start), controller, expected, events);
  }

  /** From any crash point, one call left alone retires the credential: only the archive name remains, with one link. */
  lemma RerunRetires(fs: Fs, controller: Bytes, expected: Pin, events: seq<Event>)
    requires Reviewed(fs, controller, expected)
    ensures var w := Acts(World(fs, Start), controller, expected, events);
            var end := Finish(w.fs, controller, Some(expected), Start);
            && end.1 == Retired
            && end.0.view == Dir(None, Some(expected.inode))
            && Links(end.0, expected.inode) == 1
            && Finish(end.0, controller, Some(expected), Start) == end
  {
    ActsSafe(World(fs, Start), controller, expected, events);
    var w := Acts(World(fs, Start), controller, expected, events);
    FinishRetires(w.fs, controller, expected, Start);
    FinishRetires(Finish(w.fs, controller, Some(expected), Start).0, controller, expected, Start);
  }

  lemma {:induction false} FinishRetires(fs: Fs, controller: Bytes, expected: Pin, pc: Pc)
    requires Safe(World(fs, pc), controller, expected)
    ensures var end := Finish(fs, controller, Some(expected), pc);
            && Safe(World(end.0, end.1), controller, expected)
            && end.1 == Retired && Links(end.0, expected.inode) == 1
            && (pc == Start && fs.view.source.None? ==> end.0 == fs)
            && (pc == Start && fs.view.source.Some? ==> end.0.disk == {end.0.view})
            && (pc == NeedVerify || pc == NeedUnlink || pc == NeedSync ==> end.0.disk == {end.0.view})
    decreases Rank(pc)
  {
    if !Ended(pc) {
      var s := Next(fs, controller, Some(expected), pc);
      ActSafe(World(fs, pc), controller, expected, Step);
      FinishRetires(s.0, controller, expected, s.1);
    }
  }

  /** When the answer is durable: exactly if the call saw the old name, or its removal was durable already. */
  lemma DurableExactly(fs: Fs, controller: Bytes, expected: Pin, events: seq<Event>)
    requires Reviewed(fs, controller, expected)
    ensures var w := Acts(World(fs, Start), controller, expected, events);
            var end := Finish(w.fs, controller, Some(expected), Start);
            (forall d | d in end.0.disk :: d.source.None?)
            <==> w.fs.view.source.Some? || forall d | d in w.fs.disk :: d.source.None?
  {
    ActsSafe(World(fs, Start), controller, expected, events);
    var w := Acts(World(fs, Start), controller, expected, events);
    FinishRetires(w.fs, controller, expected, Start);
  }

  /** The other case exists: a call that dies between its unlink and its last synchronization, and is repeated, answers
      that the credential is retired while a power loss can still bring the old name back. */
  lemma AnswerNotYetDurable(fs: Fs, controller: Bytes, expected: Pin)
    requires Reviewed(fs, controller, expected)
    ensures var w := Acts(World(fs, Start), controller, expected, [Step, Step, Step, Restart]);
            var end := Finish(w.fs, controller, Some(expected), Start);
            end.1 == Retired && exists d | d in end.0.disk ::
              Act(World(end.0, end.1), controller, expected, PowerLoss(d)).fs.view.source == Some(expected.inode)
  {
    var both := Dir(Some(expected.inode), Some(expected.inode));
    var w1 := Acts(World(fs, Start), controller, expected, [Step]);
    assert [Step][..0] == [];
    assert w1 == World(Link(fs, expected.inode), NeedVerify);
    var w2 := Acts(World(fs, Start), controller, expected, [Step, Step]);
    assert [Step, Step][..1] == [Step];
    assert w2 == World(Sync(w1.fs), NeedUnlink);
    var w3 := Acts(World(fs, Start), controller, expected, [Step, Step, Step]);
    assert [Step, Step, Step][..2] == [Step, Step];
    assert w3 == World(Unlink(w2.fs), NeedSync);
    assert [Step, Step, Step, Restart][..3] == [Step, Step, Step];
    assert both in w3.fs.disk;
  }

  /** Every directory there is or could be has another file under the archive name. */
  predicate Foreign(fs: Fs, expected: Pin) {
    fs.view in fs.disk && forall d | d in fs.disk :: d.archive.Some? && d.archive != Some(expected.inode)
  }

  /** An archive that is not the reviewed file stops every call, however often it is repeated and wherever it dies: no
      directory operation is ever performed, and no call answers that the credential is retired. */
  lemma {:induction false} ForeignArchiveUntouched(fs: Fs, controller: Bytes, expected: Pin, events: seq<Event>)
    requires Foreign(fs, expected)
    ensures var w := Acts(World(fs, Start), controller, expected, events);
            && Foreign(w.fs, expected) && w.fs.disk <= fs.disk && w.pc in {Start, Refusal}
            && Finish(w.fs, controller, Some(expected), Start) == (w.fs, Refusal)
    decreases |events|
  {
    if events != [] {
      ForeignArchiveUntouched(fs, controller, expected, events[..|events| - 1]);
    }
  }

  /** The file is the reviewed one, one of the two names or both hold it, neither holds another, and it has no other name. */
  predicate Retirable(fs: Fs, controller: Bytes, expected: Pin) {
    && expected.bytes == controller && expected.inode in fs.files && fs.files[expected.inode] == controller
    && (expected.inode in fs.elsewhere ==> fs.elsewhere[expected.inode] == 0)
    && fs.view != Dir(None, None)
    && (fs.view.source.Some? ==> fs.view.source.value == expected.inode)
    && (fs.view.archive.Some? ==> fs.view.archive.value == expected.inode)
  }

  /** From any directory whatever a call left alone retires exactly what is retirable; it refuses everything else without
      touching it, and without a reviewed file it only says whether the old name is free. */
  lemma RetiresExactly(fs: Fs, controller: Bytes, expected: Pin)
    ensures var end := Finish(fs, controller, Some(expected), Start);
            && (end.1 == Retired <==> Retirable(fs, controller, expected))
            && (end.1 == Retired ==> end.0 == fs.(view := Dir(None, Some(expected.inode)), disk := end.0.disk))
            && (end.1 == Retired && fs.view.source.Some? ==> end.0.disk == {end.0.view})
            && (end.1 != Retired ==> end == (fs, Refusal))
    ensures Finish(fs, controller, None, Start) == (fs, if fs.view.source.None? then NotPresent else Refusal)
  {
    var s := Next(fs, controller, Some(expected), Start);
    if s.1 == NeedVerify {
      var t := Next(s.0, controller, Some(expected), NeedVerify);
      if t.1 == NeedUnlink {
        var u := Next(t.0, controller, Some(expected), NeedUnlink);
        assert Finish(u.0, controller, Some(expected), NeedSync) == (Sync(u.0), Retired);
        assert Finish(t.0, controller, Some(expected), NeedUnlink) == (Sync(u.0), Retired);
      }
      assert Finish(s.0, controller, Some(expected), NeedVerify) == Finish(t.0, controller, Some(expected), t.1);
    }
    assert Finish(fs, controller, Some(expected), Start) == Finish(s.0, controller, Some(expected), s.1);
  }

  /** The old name is only given up while both names hold the reviewed file and nothing else does, whatever happened to
      the directory since the link was made. */
  lemma VerifiesExactly(fs: Fs, controller: Bytes, expected: Pin)
    ensures var s := Next(fs, controller, Some(expected), NeedVerify);
            && (s.1 == NeedUnlink <==> Retirable(fs, controller, expected) && fs.view.source.Some? && fs.view.archive.Some?)
            && (s.1 == NeedUnlink ==> s.0 == fs.(disk := {fs.view}))
            && (s.1 != NeedUnlink ==> s == (fs, Refusal))
  {
  }

  // ---------- the call itself ----------

  class Directory {
    var view: Dir
    ghost var disk: set<Dir>
    const files: map<nat, Bytes>
    const elsewhere: map<nat, nat>

    ghost function State(): Fs
      reads this
    {
      Fs(view, disk, files, elsewhere)
    }

    constructor (view: Dir, files: map<nat, Bytes>, elsewhere: map<nat, nat>)
      ensures State() == Fs(view, {view}, files, elsewhere)
    {
      this.view, this.disk, this.files, this.elsewhere := view, {view}, files, elsewhere;
    }

    method LinkArchive(inode: nat)
      modifies this
      ensures State() == Link(old(State()), inode)
    {
      disk := disk + set d | d in disk :: d.(archive := Some(inode));
      view := view.(archive := Some(inode));
    }

    method UnlinkSource()
      modifies this
      ensures State() == Unlink(old(State()))
    {
      disk := disk + set d | d in disk :: d.(source := None);
      view := view.(source := None);
    }

    method SyncDirectory()
      modifies this
      ensures State() == Sync(old(State()))
    {
      disk := {view};
    }

    method ReadName(name: Option<nat>, controller: Bytes) returns (r: Reading)
      ensures r == Read(State(), name, controller)
      ensures r.Found? <==> name.Some? && name.value in files && files[name.value] == controller && 1 <= Links(State(), name.value) <= 2
      ensures r.Found? ==> r == Found(Pin(name.value, controller), Links(State(), name.value))
    {
      if name.None? { return Missing; }
      var inode := name.value;
      if inode !in files || files[inode] != controller { return Unreadable; }
      var links := if inode in elsewhere then elsewhere[inode] else 0;
      if view.source == Some(inode) { links := links + 1; }
      if view.archive == Some(inode) { links := links + 1; }
      if links < 1 || links > 2 { return Unreadable; }
      r := Found(Pin(inode, files[inode]), links);
    }

    method Retire(controller: Bytes, expected: Option<Pin>) returns (status: Pc)
      modifies this
      ensures (State(), status) == Finish(old(State()), controller, expected, Start)
    {
      if expected.None? {
        return if view.source.None? then NotPresent else Refusal;
      }
      var current := ReadName(view.source, controller);
      var retained := ReadName(view.archive, controller);
      if current.Unreadable? || retained.Unreadable? { return Refusal; }
      if (current.Found? && current.pin != expected.value) || (retained.Found? && retained.pin != expected.value) { return Refusal; }
      if current.Missing? {
        return if retained.Found? && retained.links == 1 then Retired else Refusal;
      }
      if retained.Missing? {
        if current.links != 1 { return Refusal; }
        LinkArchive(current.pin.inode);
      }
      assert Finish(old(State()), controller, expected, Start) == Finish(State(), controller, expected, NeedVerify);
      current := ReadName(view.source, controller);
      retained := ReadName(view.archive, controller);
      if current != Found(expected.value, 2) || retained != Found(expected.value, 2) { return Refusal; }
      SyncDirectory();
      assert Finish(old(State()), controller, expected, Start) == Finish(State(), controller, expected, NeedUnlink);
      UnlinkSource();
      assert Finish(old(State()), controller, expected, Start) == Finish(State(), controller, expected, NeedSync);
      SyncDirectory();
      status := Retired;
    }
  }
}
