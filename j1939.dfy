/**
 * Protocol constants and value types shared by the C and the Python SDK:
 * the well-known parameter group numbers (PGNs) and source addresses, the
 * fields of a parsed 29-bit identifier, and the C status codes.
 */
module J1939 {

  // Well-known PGNs (both SDKs use the same values).
  const PgnRequest: nat := 0xEA00
  const PgnAddressClaimed: nat := 0xEE00
  const PgnEec1: nat := 0xF004
  const PgnEtc1: nat := 0xF003
  const PgnPropTransStatus: nat := 0xF000
  const PgnEt1: nat := 0xFEEE
  const PgnFe: nat := 0xFEF2
  const PgnDm1: nat := 0xFECA
  const PgnDm2: nat := 0xFECB
  const PgnEngineControlCmd: nat := 0xEF00

  // Well-known source addresses.
  const SaEngine1: nat := 0x00
  const SaEngine2: nat := 0x01
  const SaTransmission1: nat := 0x03
  const SaBrakes: nat := 0x0B
  const SaBody: nat := 0x21
  const SaInstrumentCluster: nat := 0x17
  const SaDiagTool1: nat := 0xF9
  const SaDiagTool2: nat := 0xFA
  /** Destination 0xFF addresses every node (broadcast). */
  const SaGlobal: nat := 0xFF

  /** Highest source address a node may claim for itself; 0xFE and 0xFF are reserved. */
  const MaxOwnAddress: nat := 0xFD

  /** Largest payload of a classic CAN frame. */
  const CanMaxDataLen: nat := 8

  /** PDU format values from this threshold up are PDU2 (broadcast-only) groups. */
  const Pdu2Threshold: nat := 240

  /** The fields of a 29-bit identifier. */
  datatype ParsedId = ParsedId(
    priority: int,
    pgn: int,
    sourceAddress: int,
    destinationAddress: int,
    pdu1: bool)

  /** The C SDK's status codes (`e32_error_t`). */
  datatype Status =
    | Ok
    | InvalidParam
    | NotConnected
    | AlreadyConnected
    | TransportError
    | NoMemory
    | Timeout
    | NotSupported
  {
    /** The integer each status has in the C enumeration. */
    function Code(): (c: int)
      ensures c <= 0
      ensures c == 0 <==> this == Ok
    {
      match this
      case Ok => 0
      case InvalidParam => -1
      case NotConnected => -2
      case AlreadyConnected => -3
      case TransportError => -4
      case NoMemory => -5
      case Timeout => -6
      case NotSupported => -7
    }
  }
}
