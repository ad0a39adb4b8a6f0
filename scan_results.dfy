/**
 * The pure part of a scan: converting the scan duration to a discovery timeout,
 * and copying the service's indexed result collection into an ordered sequence
 * of caller-owned devices (ESP32BluetoothScanner.cpp, scanClassicDevices).
 */
module ScanResults {
  import opened Wrappers
  import opened BluetoothTypes

  /** The discovery timeout for a scan of `sec` seconds, computed in the target's `int`. */
  function TimeoutMillis(sec: uint8): (ms: int32)
    ensures 0 <= ms <= 255000
    ensures ms as int % 1000 == 0 && ms as int / 1000 == sec as int
  {
    sec as int32 * 1000
  }

  /**
   * The text an Arduino String keeps when built from `s` through its C-string
   * view: everything before the first NUL character.
   */
  function CString(s: string): (r: string)
    ensures |r| <= |s| && r == s[..|r|]
    ensures '\0' !in r
    ensures |r| < |s| ==> s[|r|] == '\0'
  {
    if s == [] || s[0] == '\0' then []
    else
      var t := CString(s[1..]);
      assert s[..|t| + 1] == [s[0]] + s[1..][..|t|];
      [s[0]] + t
  }

  /** The name recorded for a device whose reported name is `raw`. */
  function DeviceName(raw: string): (n: string)
    ensures raw == [] ==> n == UnknownName
    ensures raw != [] && '\0' !in raw ==> n == raw
    ensures raw != [] && '\0' in raw ==> |n| < |raw| && n == raw[..|n|] && raw[|n|] == '\0' && '\0' !in n
  {
    if raw == [] then UnknownName
    else
      var n := CString(raw);
      assert |n| < |raw| ==> raw[|n|] in raw;
      n
  }

  /** A reported name gives an empty device name exactly when it starts with NUL. */
  lemma DeviceNameEmpty(raw: string)
    ensures DeviceName(raw) == [] <==> (raw != [] && raw[0] == '\0')
  {
  }

  /** The caller-owned copy of one descriptor. */
  function ToDevice(d: Descriptor): BTDevice
  {
    BTDevice(DeviceName(d.name), d.address)
  }

  /** What one slot of the result collection contributes: its copy, or nothing when empty. */
  function CopySlot(slot: Option<Descriptor>): seq<BTDevice>
  {
    match slot
    case None => []
    case Some(d) => [ToDevice(d)]
  }

  /** The devices the copy loop has collected after visiting every slot of `slots`, in order. */
  function Collected(slots: Results): (r: seq<BTDevice>)
    ensures |r| <= |slots|
  {
    if slots == [] then [] else Collected(slots[..|slots| - 1]) + CopySlot(slots[|slots| - 1])
  }

  /** What a scan returns once discovery has answered. */
  function ScanOutcome(discovery: DiscoverResult): (r: seq<BTDevice>)
    ensures discovery.None? ==> r == []
    ensures discovery.Some? ==> |r| <= |discovery.value|
  {
    match discovery
    case None => []
    case Some(slots) => Collected(slots)
  }

  /** The indices of the slots that hold a descriptor, in increasing order. */
  function PresentIndices(slots: Results): (idx: seq<nat>)
    ensures |idx| <= |slots|
    ensures forall k :: 0 <= k < |idx| ==> idx[k] < |slots| && slots[idx[k]].Some?
    ensures forall k, l :: 0 <= k < l < |idx| ==> idx[k] < idx[l]
    ensures forall j :: 0 <= j < |slots| && slots[j].Some? ==> j in idx
  {
    if slots == [] then []
    else
      var init := slots[..|slots| - 1];
      var p := PresentIndices(init);
      assert forall k :: 0 <= k < |p| ==> slots[p[k]] == init[p[k]];
      if slots[|slots| - 1].Some? then p + [|slots| - 1] else p
  }

  /**
   * The copy keeps exactly the occupied slots, in index order: its k-th device
   * is the copy of the k-th occupied slot, with the address unchanged and the
   * name passed through DeviceName.
   */
  lemma {:induction false} CollectedSelects(slots: Results)
    ensures |Collected(slots)| == |PresentIndices(slots)|
    ensures forall k :: 0 <= k < |Collected(slots)| ==>
      var d := slots[PresentIndices(slots)[k]].value;
      Collected(slots)[k].address == d.address && Collected(slots)[k].name == DeviceName(d.name)
  {
    if slots != [] {
      var init := slots[..|slots| - 1];
      CollectedSelects(init);
      var c, p := Collected(init), PresentIndices(init);
      var out, idx := Collected(slots), PresentIndices(slots);
      assert out == c + CopySlot(slots[|slots| - 1]);
      assert |out| == |idx|;
      forall k | 0 <= k < |out|
        ensures out[k].address == slots[idx[k]].value.address
        ensures out[k].name == DeviceName(slots[idx[k]].value.name)
      {
        if k < |c| {
          assert out[k] == c[k] && idx[k] == p[k];
          assert slots[p[k]] == init[p[k]];
        }
      }
    }
  }

  /** When every slot is occupied, the k-th device is the copy of the k-th slot. */
  lemma {:induction false} CollectedAllPresent(slots: Results)
    requires forall j :: 0 <= j < |slots| ==> slots[j].Some?
    ensures |Collected(slots)| == |slots|
    ensures forall k :: 0 <= k < |slots| ==>
      Collected(slots)[k].address == slots[k].value.address &&
      Collected(slots)[k].name == DeviceName(slots[k].value.name)
  {
    if slots != [] {
      var init := slots[..|slots| - 1];
      CollectedAllPresent(init);
      var c, out := Collected(init), Collected(slots);
      assert out == c + [ToDevice(slots[|slots| - 1].value)];
      forall k | 0 <= k < |slots|
        ensures out[k].address == slots[k].value.address
        ensures out[k].name == DeviceName(slots[k].value.name)
      {
        if k < |init| {
          assert out[k] == c[k] && slots[k] == init[k];
        }
      }
    }
  }

  /** Copying is compositional: results reported in two runs of slots copy to the two copies, joined. */
  lemma {:induction false} CollectedAppend(a: Results, b: Results)
    ensures Collected(a + b) == Collected(a) + Collected(b)
  {
    if b == [] {
      assert a + b == a;
    } else {
      var b' := b[..|b| - 1];
      assert (a + b)[..|a + b| - 1] == a + b';
      CollectedAppend(a, b');
    }
  }

  /** Three reported devices, the second without a name, give three devices, the second "Unknown". */
  lemma ThreeDevicesExample(n1: string, a1: string, a2: string, n3: string, a3: string)
    requires n1 != [] && n3 != [] && '\0' !in n1 && '\0' !in n3
    ensures Collected([Some(Descriptor(n1, a1)), Some(Descriptor("", a2)), Some(Descriptor(n3, a3))])
         == [BTDevice(n1, a1), BTDevice(UnknownName, a2), BTDevice(n3, a3)]
  {
    var s := [Some(Descriptor(n1, a1)), Some(Descriptor("", a2)), Some(Descriptor(n3, a3))];
    assert s[..2][..1] == [s[0]];
    assert Collected(s[..2][..1]) == [BTDevice(n1, a1)];
  }
}
