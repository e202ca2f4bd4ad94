/** One message on the wire: a command and its opaque payload. */
module Packets {
  import opened Bytes
  import opened Commands

  datatype Packet = Packet(command: Command, payload: seq<byte>)

  /** The one-argument constructor: a packet with an empty payload. */
  function NoPayload(c: Command): (p: Packet)
    ensures p.command == c && |p.payload| == 0
  {
    Packet(c, [])
  }
}
