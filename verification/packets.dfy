/** Constants, packets and arrivals shared by both ends of the transfer. */
module Packets {

  datatype Option<+T> = None | Some(value: T)

  type byte = x: int | 0 <= x < 256

  const HEADER_LENGTH := 11
  const MAX_PACKET_LENGTH := 1400

  // The flags of networks.h that travel in this phase. RESEND (2) is set in the struct of a retransmission
  // only: send_packet2 sends the raw bytes built when the packet was first sent.
  const DATA: byte := 1
  const RR: byte := 3
  const SREJ: byte := 4
  const FNAME_OK: byte := 6
  const END_OF_FILE: byte := 8

  /** What a datagram says: its number, its flag and its payload (the size field is derived). */
  datatype Packet = Packet(seqNum: nat, flag: byte, payload: seq<byte>)

  /** What a state function gets from select_call followed by recv_packet. */
  datatype Arrival = Silence | CrcError | Got(packet: Packet)

  function Rr(n: nat): Packet { Packet(n, RR, []) }

  function Srej(n: nat): Packet { Packet(n, SREJ, []) }

  function Eof(n: nat): Packet { Packet(n, END_OF_FILE, []) }

  const FNAME_OK_ANSWER: Packet := Packet(0, FNAME_OK, [])

  function Zeros(n: nat): (z: seq<byte>)
    ensures |z| == n && forall k :: 0 <= k < n ==> z[k] == 0
  {
    seq(n, _ => 0)
  }
}
