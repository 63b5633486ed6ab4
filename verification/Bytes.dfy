/** Bytes, the message types of the wire format and the ends of a byte stream. */
module Bytes {
  type byte = x: int | 0 <= x < 256

  /** What one call of WebSocket.send carries. */
  type frame = seq<byte>

  const TWO_32 := 0x1_0000_0000

  // Message types (protocol.go:16-27)
  const SINGLE_REQ: byte := 0x72 // 'r'
  const STREAM_REQ: byte := 0x73 // 's'
  const STREAM_REQ_PART: byte := 0x70 // 'p'
  const SINGLE_RES: byte := 0x52 // 'R'
  const STREAM_RES: byte := 0x53 // 'S'
  const ERROR_RES: byte := 0x45 // 'E'
  const RETRY_RES: byte := 0x65 // 'e'
  const NOTIFICATION: byte := 0x6E // 'n'
  const HEARTBEAT: byte := 0x68 // 'h'
  const PROTOCOL_ERROR: byte := 0x66 // 'f'

  /** Types whose header carries a text3 name. */
  predicate IsNamed(t: byte) {
    t == SINGLE_REQ || t == STREAM_REQ || t == NOTIFICATION
  }

  /** Types whose header carries a four-byte request id. */
  predicate HasId(t: byte) {
    t != HEARTBEAT && t != NOTIFICATION && t != PROTOCOL_ERROR
  }

  /** Types whose last field is the size of a payload that follows the header. */
  predicate HasPayload(t: byte) {
    t != HEARTBEAT && t != PROTOCOL_ERROR
  }

  datatype Option<+T> = None | Some(value: T)

  function Repeat(b: byte, n: nat): (s: seq<byte>)
    ensures |s| == n && forall i :: 0 <= i < n ==> s[i] == b
  {
    seq(n, i => b)
  }
}
