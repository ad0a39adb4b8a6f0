/**
 * The ESP32BluetoothScanner class (ESP32BluetoothScanner.h / .cpp): one
 * `initialized` flag guarding a Bluetooth Classic service. The service is not
 * modelled as code: the outcome of its start request and the answer of its
 * discovery are inputs of the methods that consult them, and the ghost field
 * `calls` records every request the scanner makes of it.
 */
module Scanner {
  import opened Wrappers
  import opened BluetoothTypes
  import opened ScanResults

  /**
   * Whether the service is running after the calls in `calls`, as the scanner
   * sees it: the last start or stop decides, and a start that reported failure
   * counts as leaving the service off.
   */
  ghost function RadioOn(calls: seq<ServiceCall>): bool
  {
    if calls == [] then false
    else
      match calls[|calls| - 1]
      case Start(_, ok) => ok
      case Stop => false
      case Discover(_) => RadioOn(calls[..|calls| - 1])
  }

  /** Discovery does not change whether the service runs; a start sets it to its answer; a stop clears it. */
  lemma RadioOnAfter(calls: seq<ServiceCall>, c: ServiceCall)
    ensures RadioOn(calls + [c]) == match c
      case Start(_, ok) => ok
      case Stop => false
      case Discover(_) => RadioOn(calls)
  {
    assert (calls + [c])[..|calls|] == calls;
  }

  class ESP32BluetoothScanner {
    var initialized: bool
    ghost var calls: seq<ServiceCall>

    /** The flag tells the truth about the service. */
    ghost predicate Valid()
      reads this
    {
      initialized == RadioOn(calls)
    }

    /** A new scanner is not initialised and has not touched the service. */
    constructor ()
      ensures Valid()
      ensures !initialized && calls == []
    {
      initialized := false;
      calls := [];
    }

    /**
     * Starts the service under `deviceName` unless already initialised; `startOk`
     * is the service's answer to that start request. Returns whether the
     * scanner is initialised afterwards.
     */
    method Begin(startOk: bool, deviceName: string := DefaultDeviceName) returns (ok: bool)
      requires Valid()
      modifies this
      ensures Valid()
      ensures ok == initialized
      ensures old(initialized) ==> ok && calls == old(calls)
      ensures !old(initialized) ==> ok == startOk && calls == old(calls) + [Start(deviceName, startOk)]
    {
      if initialized {
        return true;
      }
      calls := calls + [Start(deviceName, startOk)];
      RadioOnAfter(old(calls), Start(deviceName, startOk));
      if !startOk {
        initialized := false;
        return false;
      }
      initialized := true;
      return true;
    }

    /**
     * Runs one discovery of `scanTimeSec` seconds when initialised; `discovery`
     * is what the service answers. Returns the devices found, in the order the
     * service reports them, or nothing when not initialised or when discovery
     * gave no results.
     */
    method ScanClassicDevices(discovery: DiscoverResult, scanTimeSec: uint8 := DefaultScanTimeSec)
      returns (devices: seq<BTDevice>)
      requires Valid()
      modifies this`calls
      ensures Valid()
      ensures !initialized ==> devices == [] && calls == old(calls)
      ensures initialized ==>
        calls == old(calls) + [Discover(TimeoutMillis(scanTimeSec))] && devices == ScanOutcome(discovery)
    {
      devices := [];
      if !initialized {
        return;
      }
      var timeout := TimeoutMillis(scanTimeSec);
      calls := calls + [Discover(timeout)];
      RadioOnAfter(old(calls), Discover(timeout));
      if discovery.Some? {
        var slots := discovery.value;
        for i := 0 to |slots|
          invariant devices == Collected(slots[..i])
        {
          assert slots[..i + 1][..i] == slots[..i];
          var d := slots[i];
          assert Collected(slots[..i + 1]) == devices + CopySlot(d);
          if d.Some? {
            devices := devices + [ToDevice(d.value)];
          }
        }
        assert slots[..|slots|] == slots;
      }
    }

    /** Stops the service if the scanner is initialised; otherwise does nothing. */
    method End()
      requires Valid()
      modifies this
      ensures Valid()
      ensures !initialized
      ensures calls == if old(initialized) then old(calls) + [Stop] else old(calls)
    {
      if initialized {
        calls := calls + [Stop];
        RadioOnAfter(old(calls), Stop);
        initialized := false;
      }
    }

    /** Teardown: makes a stop request exactly when the scanner was initialised. */
    method Destroy()
      requires Valid()
      modifies this
      ensures Valid()
      ensures !initialized && !RadioOn(calls)
      ensures calls == if old(RadioOn(calls)) then old(calls) + [Stop] else old(calls)
    {
      End();
    }
  }

  /**
   * A whole session on a fresh scanner: begin, one scan, teardown. It scans
   * exactly when the start succeeded, and stops the service exactly then; `trace`
   * is the requests the scanner made of the service, in order.
   */
  method ScanSession(startOk: bool, discovery: DiscoverResult, deviceName: string, scanTimeSec: uint8)
    returns (ok: bool, devices: seq<BTDevice>, ghost trace: seq<ServiceCall>)
    ensures ok == startOk
    ensures devices == if ok then ScanOutcome(discovery) else []
    ensures trace == [Start(deviceName, startOk)] + if ok then [Discover(TimeoutMillis(scanTimeSec)), Stop] else []
    ensures !RadioOn(trace)
  {
    var scanner := new ESP32BluetoothScanner();
    ok := scanner.Begin(startOk, deviceName);
    devices := scanner.ScanClassicDevices(discovery, scanTimeSec);
    scanner.Destroy();
    trace := scanner.calls;
  }
}
