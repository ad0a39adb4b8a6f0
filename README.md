# ESP32 Bluetooth Classic scanner — Dafny model

This project models `ESP32BluetoothScanner`, a small wrapper around the ESP32
`BluetoothSerial` library. The model covers two things:

- **The lifecycle.** A single `initialized` flag moves through `begin`,
  `scanClassicDevices`, `end` and the destructor.
- **The result copy.** A scan turns the library's indexed result collection
  into an ordered sequence of `BTDevice { name, address }` values.

The Bluetooth service itself is not modelled as code. Each method takes the
service's answers as inputs:

- `startOk` is the answer to the start request.
- `discovery` is what `discover` returns: `None` for a null handle, or
  `Some(slots)` with one slot per index, each slot `None` or `Some(Descriptor(name, address))`.

The ghost field `calls` records every request the scanner makes of the
service (`Start`, `Discover(ms)`, `Stop`). `RadioOn(calls)` says whether the
service is running after those requests, as the scanner sees it: a start that
reported failure counts as leaving it off. The class invariant `Valid()` says
that `initialized` always equals `RadioOn(calls)`.

Files:

- `wrappers.dfy`: `Option`.
- `bt_types.dfy`: what `ESP32BluetoothScanner.h` declares: `BTDevice`, the 8-bit
  duration type, the defaults `"ESP32_Scanner"` and `10`, and the service's view.
- `scan_results.dfy`: the pure part of a scan: the timeout conversion, the name
  substitution and the slot-by-slot copy, with lemmas about them.
- `scanner.dfy`: the class and its lifecycle.

## Model

| member | source | states |
|---|---|---|
| `ScanResults.TimeoutMillis` | ESP32BluetoothScanner.cpp:54 | The discovery timeout is the duration times 1000, computed in a 32-bit `int` without overflow. It is a whole number of milliseconds, between 0 and 255000, and dividing it by 1000 gives back the duration in seconds. |
| `ScanResults.CString` | ESP32BluetoothScanner.cpp:72 | Building a String from `c_str()` keeps a prefix of the name. The prefix holds no NUL, and it stops only at a NUL or at the end of the name. |
| `ScanResults.DeviceName` | ESP32BluetoothScanner.cpp:68-73 | An empty reported name becomes `"Unknown"`. A non-empty name without NUL passes through unchanged. A name containing NUL is cut just before its first NUL: the kept part is a NUL-free prefix followed in the name by a NUL. |
| `ScanResults.DeviceNameEmpty` | ESP32BluetoothScanner.cpp:68-73 | A device gets an empty name exactly when its reported name starts with NUL. |
| `ScanResults.PresentIndices` | ESP32BluetoothScanner.cpp:62-64 | Lists the indices of the non-null slots, strictly increasing, each in range. Every non-null slot is listed. |
| `ScanResults.CollectedSelects` | ESP32BluetoothScanner.cpp:62-86 | The copy holds one device per non-null slot, in index order. The k-th device has the k-th non-null descriptor's address unchanged and its name passed through `DeviceName`. |
| `ScanResults.Collected` | ESP32BluetoothScanner.cpp:62-86 | The devices the copy loop collects from the slots. Their number never exceeds the `count` the service reports. |
| `ScanResults.ScanOutcome` | ESP32BluetoothScanner.cpp:56-101 | A null results handle gives an empty result. Otherwise the result is the copy of the slots, so it never exceeds the reported `count`. |
| `ScanResults.CollectedAllPresent` | ESP32BluetoothScanner.cpp:62-86 | When no slot is null, the result has exactly `count` entries. Entry k is slot k's copy. |
| `ScanResults.CollectedAppend` | ESP32BluetoothScanner.cpp:62-86 | Copying keeps discovery order: the copy of two runs of slots joined is the two copies joined. |
| `ScanResults.ThreeDevicesExample` | ESP32BluetoothScanner.cpp:62-86 | Three descriptors whose second name is empty copy to three devices. The second is named `"Unknown"`, and the addresses are kept. |
| `Scanner.ESP32BluetoothScanner.constructor` | ESP32BluetoothScanner.cpp:4 | A new scanner is not initialised and has made no service request. |
| `Scanner.ESP32BluetoothScanner.Begin` | ESP32BluetoothScanner.cpp:14-34 | When already initialised, returns true and makes no start request, so it is idempotent. Otherwise it makes one start request and returns its answer, and `initialized` becomes that answer. The result always equals `initialized` afterwards. The default name is `"ESP32_Scanner"`. |
| `Scanner.ESP32BluetoothScanner.ScanClassicDevices` | ESP32BluetoothScanner.cpp:37-102 | When not initialised, returns nothing and makes no request. Otherwise it makes exactly one discovery request with timeout `TimeoutMillis(scanTimeSec)`. It returns nothing for a null handle, or else the copy of the slots. `initialized` never changes. The default duration is 10 s. |
| `Scanner.ESP32BluetoothScanner.End` | ESP32BluetoothScanner.cpp:105-111 | When initialised, makes one stop request and clears the flag. Otherwise it does nothing. |
| `Scanner.ESP32BluetoothScanner.Destroy` | ESP32BluetoothScanner.cpp:9-11 | Teardown makes a stop request exactly when the scanner was initialised, and leaves it uninitialised. |
| `Scanner.ScanSession` | ESP32BluetoothScanner.h:23-33 | Begin, one scan, then teardown. Scanning happens only if `begin` succeeded. The requests are a start, then a discovery and a stop only if the start succeeded. |

## Left out

- Console logging through `Serial`. It has no effect on state or results.
- How the Bluetooth service works inside: controller and stack start-up, the
  inquiry procedure, and how long `discover` blocks. Its answers are inputs.
- How `getAddress().toString()` formats an address. The address is an opaque
  string that is copied unchanged.
- Ownership and lifetime of the library-owned result buffer. In the model the
  results are an immutable input.
- The RSSI field, which is commented out in the source.
- Concurrency and several scanner instances sharing the one radio. The source
  does not address them.
- Device-name announcing: the name passed to `begin` is only recorded in the
  `Start` request.
- What a failed start leaves running. The error path of `begin` allows the
  controller to have come up before the stack failed; the flag then stays
  false, so neither `end` nor teardown ever requests a stop. The model takes a
  failed start to leave the service off, so its "stopped" means "stopped as far
  as the scanner knows", not that the radio is released.
- Names are byte strings in the source and `seq<char>` in the model. Only the
  empty test and the cut at the first NUL look at the characters, and in UTF-8
  a zero byte stands only for U+0000, so neither changes.
- `count` is taken to be the number of slots in the result collection. A
  collection larger than a 32-bit `int` can index is not modelled.
