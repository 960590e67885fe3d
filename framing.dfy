/**
 * Length-prefixed framing (`read_message` / `write_message`), byte-identical on the server
 * (server/src/tcp.rs) and on the agent (client/src/tcp.rs).  A frame is the four
 * little-endian bytes of the payload length followed by the payload.  A connection's
 * incoming side is the sequence of bytes the peer sends before it closes.
 */
module Framing {
  import opened Wrappers

  /** An octet on the wire. */
  type byte = x: int | 0 <= x < 256

  const FrameLimit: int := 0x1_0000_0000

  /** The four little-endian bytes of a `u32`. */
  function U32ToLe(n: nat): (b: seq<byte>)
    requires n < FrameLimit
    ensures |b| == 4
  {
    var q1 := n / 256;
    var q2 := q1 / 256;
    [n % 256, q1 % 256, q2 % 256, q2 / 256]
  }

  /** `u32::from_le_bytes`. */
  function LeToU32(b: seq<byte>): (n: nat)
    requires |b| == 4
    ensures n < FrameLimit
  {
    var b0: int, b1: int, b2: int, b3: int := b[0], b[1], b[2], b[3];
    b0 + 256 * (b1 + 256 * (b2 + 256 * b3))
  }

  lemma LeOfU32(n: nat)
    requires n < FrameLimit
    ensures LeToU32(U32ToLe(n)) == n
  {
    var q1 := n / 256;
    var q2 := q1 / 256;
    assert n == n % 256 + 256 * q1;
    assert q1 == q1 % 256 + 256 * q2;
    assert q2 == q2 % 256 + 256 * (q2 / 256);
  }

  lemma U32OfLe(b: seq<byte>)
    requires |b| == 4
    ensures U32ToLe(LeToU32(b)) == b
  {
    var b0: int, b1: int, b2: int, b3: int := b[0], b[1], b[2], b[3];
    var q2 := b2 + 256 * b3;
    var q1 := b1 + 256 * q2;
    var n := b0 + 256 * q1;
    assert n / 256 == q1 && n % 256 == b[0];
    assert q1 / 256 == q2 && q1 % 256 == b[1];
    assert q2 / 256 == b[3] && q2 % 256 == b[2];
  }

  /** `write_message`: the length is cast with `as u32`, so it is taken modulo 2^32. */
  function WriteMessage(data: seq<byte>): (frame: seq<byte>)
    ensures |frame| == 4 + |data|
    ensures LeToU32(frame[..4]) == |data| % FrameLimit
    ensures frame[4..] == data
  {
    var header := U32ToLe(|data| % FrameLimit);
    LeOfU32(|data| % FrameLimit);
    assert (header + data)[..4] == header;
    header + data
  }

  datatype FrameError = ConnectionClosed

  /** `read_message`: the payload and the bytes left after it on the connection. */
  function ReadMessage(input: seq<byte>): (r: Result<(seq<byte>, seq<byte>), FrameError>)
    ensures r.Failure? <==> |input| < 4 || |input| - 4 < LeToU32(input[..4])
    ensures r.Success? ==>
      var n := LeToU32(input[..4]);
      r.value.0 == input[4..4 + n] && r.value.1 == input[4 + n..]
  {
    if |input| < 4 then Failure(ConnectionClosed)
    else
      var n := LeToU32(input[..4]);
      if |input| - 4 < n then Failure(ConnectionClosed)
      else Success((input[4..4 + n], input[4 + n..]))
  }

  /** Reading back a written frame yields the payload and consumes exactly `4 + |data|` bytes. */
  lemma ReadAfterWrite(data: seq<byte>, rest: seq<byte>)
    requires |data| < FrameLimit
    ensures ReadMessage(WriteMessage(data) + rest) == Success((data, rest))
  {
    var input := WriteMessage(data) + rest;
    assert input[..4] == WriteMessage(data)[..4];
    assert input[4..4 + |data|] == data;
    assert input[4 + |data|..] == rest;
  }

  /** A frame cut short anywhere, in the header or in the payload, is a framing error. */
  lemma TruncatedFrameFails(data: seq<byte>, k: nat)
    requires |data| < FrameLimit
    requires k < 4 + |data|
    ensures ReadMessage(WriteMessage(data)[..k]).Failure?
  {
    var frame := WriteMessage(data);
    if k >= 4 {
      assert frame[..k][..4] == frame[..4];
    }
  }

  /** A payload of 2^32 bytes or more is announced with a wrapped length, so what is read
      back is a strict prefix of it. */
  lemma OversizedPayloadIsCut(data: seq<byte>)
    requires |data| >= FrameLimit
    ensures ReadMessage(WriteMessage(data)).Success?
    ensures var r := ReadMessage(WriteMessage(data)).value.0;
      |r| < |data| && r == data[..|r|]
  {
    var frame := WriteMessage(data);
    var n := LeToU32(frame[..4]);
    assert n == |data| % FrameLimit;
    assert frame[4..4 + n] == data[..n];
  }
}
