/**
 The simulated A/B device (internal/ota/backend.go), and that it is one of the devices the engine is proved against:
 an installation touches only the slot that is not booted, a mark is exactly a mark, and a reboot follows the primary
 slot or, with a failing boot, falls back.
 */
module Simulator {
  import opened Model
  import opened Engine

  lemma {:induction false} SetGoodAt(slots: seq<Slot>, name: string, good: bool, k: nat)
    ensures |SetGood(slots, name, good)| == |slots|
    ensures k < |slots| ==>
              SetGood(slots, name, good)[k] == if slots[k].name == name then slots[k].(good := good) else slots[k]
  {
    if slots != [] {
      SetGoodAt(slots[1..], name, good, if k > 0 then k - 1 else 0);
    }
  }

  lemma {:induction false} FindsNamed(slots: seq<Slot>, name: string)
    ensures FindSlot(slots, name).Some? <==> exists i | 0 <= i < |slots| :: slots[i].name == name
  {
    if slots != [] {
      FindsNamed(slots[1..], name);
      if FindSlot(slots[1..], name).Some? {
        var i :| 0 <= i < |slots[1..]| && slots[1..][i].name == name;
        assert slots[i + 1].name == name;
      }
      if i :| 0 <= i < |slots| && slots[i].name == name && i > 0 {
        assert slots[1..][i - 1].name == name;
      }
    }
  }

  /** Every slot of the name holds the version, not yet good. */
  lemma {:induction false} FindsWritten(slots: seq<Slot>, name: string, version: string)
    requires FindSlot(slots, name).Some?
    requires forall i | 0 <= i < |slots| && slots[i].name == name :: slots[i].version == version && !slots[i].good
    ensures FindSlot(slots, name) == Some(Slot(name, version, false))
  {
    if slots[0].name != name {
      FindsWritten(slots[1..], name, version);
    }
  }

  /** Where the next boot leads. */
  function NextBoot(d: Device, failBoot: bool): Boot {
    if failBoot then Boot(d.booted, d.booted, d.bootID + 1) else Boot(d.primary, d.primary, d.bootID + 1)
  }

  class Simulator {
    var dev: Device
    var failInstall: bool
    var failBoot: bool

    /** Two factory slots, the first one booted. */
    constructor (compatible: string)
      ensures dev.bootID > 0 && dev.compatible == compatible && dev.booted == dev.primary && dev.operation.Quiet?
      ensures Other(dev).Some? && GoodOf(dev, dev.booted) && GoodOf(dev, Other(dev).value)
      ensures !failInstall && !failBoot
    {
      var a, b := Slot("rootfs.0", "factory", true), Slot("rootfs.1", "factory", true);
      assert a.name != b.name by {
        assert a.name[7] != b.name[7];
      }
      assert [a, b][1..] == [b] && FindSlot([b], b.name) == Some(b);
      assert FindSlot([a, b], a.name) == Some(a) && FindSlot([a, b], b.name) == Some(b);
      dev := Device(1, a.name, a.name, Quiet, compatible, [a, b]);
      failInstall, failBoot := false, false;
    }

    /** Writes the version to the other slot and makes it primary, or fails and changes nothing. */
    method Install(version: string, artifactOk: bool) returns (ok: bool)
      modifies this`dev
      ensures ok <==> !failInstall && artifactOk && Other(old(dev)).Some?
      ensures InstallMayYield(old(dev), dev) && dev.operation == old(dev).operation
      ensures !ok ==> dev == old(dev)
      ensures ok ==> dev.primary == Other(old(dev)).value
      ensures ok ==> SlotOf(dev, dev.primary) == Some(Slot(dev.primary, version, false))
    {
      var other := Other(dev);
      if failInstall || !artifactOk || other.None? {
        return false;
      }
      var target := other.value;
      ghost var before := dev;
      for i := 0 to |dev.slots|
        invariant dev == before.(slots := dev.slots) && |dev.slots| == |before.slots|
        invariant forall k | i <= k < |dev.slots| :: dev.slots[k] == before.slots[k]
        invariant forall k | 0 <= k < i ::
          dev.slots[k] == if before.slots[k].name == target then Slot(target, version, false) else before.slots[k]
      {
        if dev.slots[i].name == target {
          dev := dev.(slots := dev.slots[i := dev.slots[i].(version := version, good := false)]);
        }
      }
      dev := dev.(primary := target);
      InstallKeepsNames(before.slots, dev.slots, before.booted, target);
      FindsWritten(dev.slots, target, version);
      ok := true;
    }

    method Mark(kind: MarkKind, slot: string) returns (ok: bool)
      modifies this`dev
      ensures ok <==> SlotOf(old(dev), slot).Some?
      ensures dev == if ok then Marked(old(dev), kind, slot) else old(dev)
    {
      ghost var before := dev;
      var v, found := dev, false;
      for i := 0 to |v.slots|
        invariant |v.slots| == |before.slots| && v == before.(slots := v.slots, primary := v.primary)
        invariant v.primary == if found && kind == Active then slot else before.primary
        invariant found <==> exists k | 0 <= k < i :: before.slots[k].name == slot
        invariant forall k | i <= k < |v.slots| :: v.slots[k] == before.slots[k]
        invariant forall k | 0 <= k < i ::
          v.slots[k] == if before.slots[k].name == slot && kind != Active then before.slots[k].(good := kind == Good)
                        else before.slots[k]
      {
        if v.slots[i].name == slot {
          found := true;
          match kind {
            case Good => v := v.(slots := v.slots[i := v.slots[i].(good := true)]);
            case Bad => v := v.(slots := v.slots[i := v.slots[i].(good := false)]);
            case Active => v := v.(primary := slot);
          }
        }
      }
      FindsNamed(before.slots, slot);
      ok := found;
      if ok {
        dev := v;
        forall k | 0 <= k < |v.slots|
          ensures |SetGood(before.slots, slot, kind == Good)| == |v.slots|
          ensures kind != Active ==> v.slots[k] == SetGood(before.slots, slot, kind == Good)[k]
        {
          SetGoodAt(before.slots, slot, kind == Good, k);
        }
        assert kind != Active ==> v.slots == SetGood(before.slots, slot, kind == Good);
        assert kind == Active ==> v.slots == before.slots;
      }
    }

    method Reboot()
      modifies this`dev
      ensures dev == Booted(old(dev), NextBoot(old(dev), failBoot))
    {
      dev := dev.(bootID := dev.bootID + 1);
      if failBoot {
        dev := dev.(primary := dev.booted);
      } else {
        dev := dev.(booted := dev.primary);
      }
    }
  }
}
