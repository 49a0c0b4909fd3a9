/** The control messages as the handlers see them, with flag bits decoded. */
module Messages {
  import opened Base

  datatype Rreq = Rreq(
    gratuitous: bool, destinationOnly: bool, unknownSeqNo: bool,
    hopCount: U8, id: U32, dst: Addr, dstSeqNo: U32, origin: Addr, originSeqNo: U32)

  /** `lifeTime` is in milliseconds, as on the wire. */
  datatype Rrep = Rrep(
    ackRequired: bool, hopCount: U8, dst: Addr, dstSeqNo: U32, origin: Addr, lifeTime: U32)

  /** The unreachable destinations with their sequence numbers. */
  datatype Rerr = Rerr(flag: U8, reserved: U8, unreachable: map<Addr, U32>)

  datatype Message =
    | RREQ(rreq: Rreq)
    | RREP(rrep: Rrep)
    | RERR(rerr: Rerr)
    | RREP_ACK

  /** `RrepHeader`'s constructor: whole milliseconds, cut to 32 bits. */
  function ToMilliseconds(t: Time): U32 {
    // GetMilliSeconds truncates toward zero.
    Wrap32(if t >= 0 then t / MILLISECOND else -(-t / MILLISECOND))
  }

  function FromMilliseconds(ms: U32): Time { ms * MILLISECOND }
}
