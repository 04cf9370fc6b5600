/** The records of include/types.h that decisions depend on. */
module Types {
  import opened Bytes

  datatype L4Protocol = UNKNOWN | TCP | UDP {
    function Number(): u16 {
      match this
      case UNKNOWN => 0
      case TCP => 6
      case UDP => 17
    }
  }

  datatype FiveTuple = FiveTuple(srcIp: u32, dstIp: u32, srcPort: u16, dstPort: u16, protocol: L4Protocol)

  /** Fields filled in by the packet parser; the payload is the slice of the frame the source points into. */
  datatype ParsedPacket = ParsedPacket(
    ethertype: u16, hasIp: bool, ipHeaderLen: nat, protocol: L4Protocol, srcIp: u32, dstIp: u32,
    hasL4: bool, srcPort: u16, dstPort: u16, tcpHeaderLen: nat, tcpSeq: u32, payload: bytes)
  {
    function Tuple(): FiveTuple {
      FiveTuple(srcIp, dstIp, srcPort, dstPort, protocol)
    }
  }

  const BLANK: ParsedPacket := ParsedPacket(0, false, 0, UNKNOWN, 0, 0, false, 0, 0, 0, 0, [])
}
