/**
 * The value types and constants declared in ESP32BluetoothScanner.h, together
 * with the abstract view of the BluetoothSerial service the scanner calls into.
 */
module BluetoothTypes {
  import opened Wrappers

  /** An 8-bit unsigned integer, the type of the scan duration. */
  newtype uint8 = x: int | 0 <= x < 0x100

  /** The target's `int`: 32-bit two's complement. */
  newtype int32 = x: int | -0x8000_0000 <= x < 0x8000_0000

  /** One discovered device as handed to the caller: a name and a MAC address, nothing else. */
  datatype BTDevice = BTDevice(name: string, address: string)

  /** What the service reports for one device: its raw name and its address in textual form. */
  datatype Descriptor = Descriptor(name: string, address: string)

  /** The service's result collection: `count` slots, each possibly holding no descriptor. */
  type Results = seq<Option<Descriptor>>

  /** What a discovery call returns: a results handle, or none when discovery failed. */
  type DiscoverResult = Option<Results>

  /** The calls the scanner makes into the Bluetooth service, with the answer to a start request. */
  datatype ServiceCall =
    | Start(deviceName: string, ok: bool)
    | Discover(timeoutMillis: int32)
    | Stop

  /** Default name the ESP32 announces itself under when `begin` is given none. */
  const DefaultDeviceName: string := "ESP32_Scanner"

  /** Default scan duration, in seconds. */
  const DefaultScanTimeSec: uint8 := 10

  /** Placeholder name for a device that reports an empty name. */
  const UnknownName: string := "Unknown"
}
