/**
 The entities of the update agent (internal/ota/model.go, internal/ota/backend.go).

 Digests and fingerprints are collision-free by construction: a digest is represented by what it
 digests. Times are integers (seconds). Boot identifiers are numbers, so that "a boot ID never seen
 before" is "a larger number"; 0 stands for "no boot recorded".
 */
module Model {

  datatype Option<+T> = None | Some(value: T)

  type Byte = x: int | 0 <= x < 256

  /** SHA-256 as an injective constructor. */
  datatype Digest = DigestOf(content: seq<Byte>)

  datatype Artifact = Artifact(url: string, digest: Digest, size: nat)

  datatype Kind = OsRauc | ContainerOci | ConfigBundle | ModelOci

  datatype Target = Target(id: string, kind: Kind, artifact: Artifact, dependsOn: seq<string>)

  datatype Release = Release(schema: int, id: string, sequence: nat, version: string, expires: int,
                             targets: seq<Target>)
  {
    /** The release writes an operating-system image. */
    predicate HasOS() {
      (exists i | 0 <= i < |targets| :: targets[i].kind == OsRauc) || schema == 1
    }
  }

  datatype Envelope = Envelope(keyID: string, payload: seq<Byte>, signature: seq<Byte>)

  datatype Assignment = Assignment(jobID: string, deviceID: string, release: Envelope,
                                   notBefore: int, deadline: int, autoReboot: bool)

  datatype Fingerprint = FingerprintOf(assignment: Assignment)

  datatype JobState =
    | Accepted | Downloading | Verified
    | Installing | AwaitingReboot | CheckingHealth | Committing | RollbackPending | NeedsRecovery
    | Committed | RolledBack | Failed

  predicate Terminal(s: JobState) {
    s == Committed || s == RolledBack || s == Failed
  }

  /** States in which the device has not been written for this job. */
  predicate BeforeInstall(s: JobState) {
    s == Accepted || s == Downloading || s == Verified
  }

  datatype Job = Job(assignment: Assignment, release: Release, fingerprint: Fingerprint, state: JobState,
                     oldSlot: string, oldVersion: string, targetSlot: string, bootID: nat,
                     healthStarted: Option<int>, rebootRequested: bool, deferred: bool,
                     payloadsApplied: bool, updated: int)

  datatype Event = Event(sequence: nat, jobID: string, state: JobState, time: int)

  datatype BootCheck = BootCheck(bootID: nat, started: int, confirmed: bool)

  datatype Database = Database(schema: int, highSequence: nat, eventSequence: nat, jobs: map<string, Job>,
                               active: string, events: seq<Event>, bootCheck: BootCheck)

  function EmptyDatabase(): Database {
    Database(1, 0, 0, map[], "", [], BootCheck(0, 0, false))
  }

  function ActiveJob(d: Database): Option<Job> {
    if d.active in d.jobs then Some(d.jobs[d.active]) else None
  }

  /** `^[a-zA-Z0-9][a-zA-Z0-9._-]{0,95}$` */
  predicate IsIdentifier(s: string) {
    1 <= |s| <= 96 && IsAlphanumeric(s[0])
    && forall i | 0 <= i < |s| :: IsAlphanumeric(s[i]) || s[i] in "._-"
  }

  predicate IsAlphanumeric(c: char) {
    'a' <= c <= 'z' || 'A' <= c <= 'Z' || '0' <= c <= '9'
  }

  // ---------------------------------------------------------------- the A/B device

  datatype Slot = Slot(name: string, version: string, good: bool)

  datatype Operation = Quiet | Busy

  datatype Device = Device(bootID: nat, booted: string, primary: string, operation: Operation,
                           compatible: string, slots: seq<Slot>)

  function FindSlot(slots: seq<Slot>, name: string): (r: Option<Slot>)
    ensures r.Some? ==> r.value.name == name
  {
    if slots == [] then None
    else if slots[0].name == name then Some(slots[0])
    else FindSlot(slots[1..], name)
  }

  function SlotOf(d: Device, name: string): Option<Slot> {
    FindSlot(d.slots, name)
  }

  function VersionOf(d: Device, name: string): string {
    match SlotOf(d, name) case Some(s) => s.version case None => ""
  }

  predicate GoodOf(d: Device, name: string) {
    match SlotOf(d, name) case Some(s) => s.good case None => false
  }

  /** The slot that is not booted; an error unless there are exactly two slots, one of them booted. */
  function Other(d: Device): (r: Option<string>)
    ensures r.Some? ==> r.value != d.booted && r.value != ""
                        && SlotOf(d, r.value).Some? && SlotOf(d, d.booted).Some?
  {
    if |d.slots| != 2 then None
    else
      var a, b := d.slots[0].name, d.slots[1].name;
      var found := a == d.booted || b == d.booted;
      var other := if b != d.booted then b else if a != d.booted then a else "";
      assert d.slots[1..] == [d.slots[1]] && FindSlot([d.slots[1]], b).Some?;
      assert FindSlot(d.slots, a).Some? && FindSlot(d.slots, b).Some?;
      if !found || other == "" then None else Some(other)
  }

  /** Of two slots with the booted one among them, the other one is found, if it has a name of its own. */
  lemma OtherExactly(d: Device, name: string)
    ensures Other(d) == Some(name) <==>
              && |d.slots| == 2 && name != "" && name != d.booted
              && (|| (d.slots[0].name == d.booted && d.slots[1].name == name)
                  || (d.slots[1].name == d.booted && d.slots[0].name == name))
  {
    hide FindSlot;
  }

  datatype MarkKind = Good | Bad | Active

  /** The effect of marking a slot; no effect on a slot that does not exist. */
  function Marked(d: Device, kind: MarkKind, slot: string): Device {
    match kind
    case Good => d.(slots := SetGood(d.slots, slot, true))
    case Bad => d.(slots := SetGood(d.slots, slot, false))
    case Active => if SlotOf(d, slot).Some? then d.(primary := slot) else d
  }

  function SetGood(slots: seq<Slot>, name: string, good: bool): seq<Slot> {
    if slots == [] then []
    else [if slots[0].name == name then slots[0].(good := good) else slots[0]] + SetGood(slots[1..], name, good)
  }

  lemma {:induction false} SetGoodSlots(slots: seq<Slot>, name: string, good: bool, other: string)
    ensures FindSlot(SetGood(slots, name, good), other)
            == if other == name && FindSlot(slots, name).Some?
               then Some(FindSlot(slots, name).value.(good := good)) else FindSlot(slots, other)
  {
    if slots != [] {
      SetGoodSlots(slots[1..], name, good, other);
      assert SetGood(slots, name, good)[1..] == SetGood(slots[1..], name, good);
    }
  }

  /** Marking changes only the named slot's flag or the primary slot. */
  lemma MarkedSlots(d: Device, kind: MarkKind, slot: string, other: string)
    ensures VersionOf(Marked(d, kind, slot), other) == VersionOf(d, other)
    ensures SlotOf(Marked(d, kind, slot), other).Some? == SlotOf(d, other).Some?
    ensures other != slot ==> SlotOf(Marked(d, kind, slot), other) == SlotOf(d, other)
    ensures kind == Active ==> SlotOf(Marked(d, kind, slot), other) == SlotOf(d, other)
    ensures kind == Good && SlotOf(d, slot).Some? ==> GoodOf(Marked(d, kind, slot), slot)
    ensures kind == Bad ==> !GoodOf(Marked(d, kind, slot), slot)
  {
    SetGoodSlots(d.slots, slot, true, other);
    SetGoodSlots(d.slots, slot, false, other);
    SetGoodSlots(d.slots, slot, true, slot);
    SetGoodSlots(d.slots, slot, false, slot);
  }

  /**
   What an installation, complete or not, may do to the device: rewrite slots that are not booted,
   the primary slot and the operation, and nothing else.
   */
  predicate InstallMayYield(d: Device, e: Device) {
    && e.bootID == d.bootID && e.booted == d.booted && e.compatible == d.compatible
    && |e.slots| == |d.slots|
    && forall i | 0 <= i < |d.slots| ::
         e.slots[i].name == d.slots[i].name && (d.slots[i].name == d.booted ==> e.slots[i] == d.slots[i])
  }

  lemma {:induction false} InstallKeepsNames(s: seq<Slot>, t: seq<Slot>, booted: string, name: string)
    requires |s| == |t|
    requires forall i | 0 <= i < |s| :: t[i].name == s[i].name && (s[i].name == booted ==> t[i] == s[i])
    ensures FindSlot(s, name).Some? == FindSlot(t, name).Some?
    ensures FindSlot(t, booted) == FindSlot(s, booted)
  {
    if s != [] {
      InstallKeepsNames(s[1..], t[1..], booted, name);
    }
  }
}
