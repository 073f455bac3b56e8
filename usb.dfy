/** The values the host's USB stack hands to the daemon. The stack itself
    (enumeration, open, claim, transfers) is foreign I/O; what it returns is
    modelled here as plain data so the daemon's decisions can be stated over it. */
module Usb {
  import opened Base

  /** The failures a USB call can report. The daemon distinguishes only
      `Timeout` from the rest. */
  datatype UsbError =
    | Io | InvalidParam | Access | NoDevice | NotFound | Busy
    | Timeout | Overflow | Pipe | Interrupted | NoMem | NotSupported
    | BadDescriptor | Other

  datatype Direction = In | Out

  datatype TransferType = Control | Isochronous | Bulk | Interrupt

  datatype EndpointDescriptor =
    EndpointDescriptor(address: u8, direction: Direction, transferType: TransferType)

  /** One alternate setting of an interface and its endpoints. */
  datatype InterfaceDescriptor = InterfaceDescriptor(endpoints: seq<EndpointDescriptor>)

  datatype Interface = Interface(descriptors: seq<InterfaceDescriptor>)

  /** The active configuration descriptor of a device. */
  datatype ConfigDescriptor = ConfigDescriptor(interfaces: seq<Interface>)

  datatype DeviceDescriptor = DeviceDescriptor(vendorId: u16, productId: u16)

  /** What reading the two ASCII string descriptors of an opened device returns. */
  datatype DeviceStrings =
    DeviceStrings(manufacturer: Result<string, UsbError>, product: Result<string, UsbError>)

  /** One enumerated device: its descriptor read, and the outcome of opening it
      (with the string reads that follow a successful open). */
  datatype Device =
    Device(descriptor: Result<DeviceDescriptor, UsbError>, strings: Result<DeviceStrings, UsbError>)

  /** The outcome of one bulk or interrupt read into the 64-byte report
      buffer: `Ok(data)` means the transfer wrote `data` into the front of the
      buffer and returned `|data|`. */
  type ReadResult = Result<seq<u8>, UsbError>

  const REPORT_BUFFER_SIZE: nat := 64

  /** The transfer primitive never reports more bytes than the buffer holds. */
  predicate ReadsFit(results: seq<ReadResult>) {
    forall i :: 0 <= i < |results| && results[i].Ok? ==> |results[i].value| <= REPORT_BUFFER_SIZE
  }
}
