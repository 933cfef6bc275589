/** Length-prefixed framing of a connection (src/stream.rs).

    On the wire every message is a frame: its length as a little-endian
    `u16`, then that many bytes holding the encoded header and body. The
    receive side keeps a byte buffer and takes a frame off its front only
    once the whole frame is there and decodes. The codec of a whole message
    belongs to the serialisation library: it is a pair of functions passed
    in, and the framing is proved for any pair that round-trips. */
module Stream {
  import opened Wrappers
  import opened Packets

  /** Why a frame could not be read or written. */
  datatype StreamError =
    | DecodeFailed   // the payload did not decode
    | NoId           // `Unknown` has no id to write
    | EncodeFailed   // the codec refused the message
    | TooLong        // the encoded message does not fit a `u16` length

  /** Encoding and decoding an entire message. */
  type Encoder = EntirePacket -> Result<seq<byte>, ()>
  type Decoder = seq<byte> -> Result<EntirePacket, ()>

  /** The largest payload a `u16` length can announce. */
  const MaxPayload: nat := 0xFFFF

  /** The first two bytes as a little-endian `u16`. */
  function FrameLength(buf: seq<byte>): (n: nat)
    requires |buf| >= 2
    ensures n <= MaxPayload
  {
    buf[0] as nat + 256 * buf[1] as nat
  }

  /** A length as two little-endian bytes. */
  function LengthBytes(n: nat): (bs: seq<byte>)
    requires n <= MaxPayload
    ensures |bs| == 2
  {
    [n % 256, n / 256]
  }

  /** The two length bytes read back as the length they were written from,
      whatever follows them. */
  lemma LengthRoundTrip(n: nat, rest: seq<byte>)
    requires n <= MaxPayload
    ensures FrameLength(LengthBytes(n) + rest) == n
  {
    var bs := LengthBytes(n) + rest;
    assert bs[0] == n % 256 && bs[1] == n / 256;
  }

  /** A frame: the length, then the payload. */
  function Frame(payload: seq<byte>): (f: seq<byte>)
    requires |payload| <= MaxPayload
    ensures |f| == 2 + |payload| && f[2..] == payload
  {
    LengthBytes(|payload|) + payload
  }

  /** What parsing the receive buffer gives, and the buffer it leaves:
      nothing while fewer than two bytes or less than a whole frame are
      buffered, an error when the payload does not decode, and otherwise
      the message, with exactly that frame removed from the front. */
  function Parsed(buf: seq<byte>, decode: Decoder): (r: (Result<Option<EntirePacket>, StreamError>, seq<byte>))
    ensures |buf| < 2 ==> r == (Ok(None), buf)
    ensures |buf| >= 2 && |buf| < 2 + FrameLength(buf) ==> r == (Ok(None), buf)
    ensures r.0.Err? || r.0 == Ok(None) ==> r.1 == buf
    ensures r.0.Err? ==> r.0.error == DecodeFailed
    ensures r.0.Ok? && r.0.value.Some? ==>
      |buf| >= 2 && var n := FrameLength(buf);
      2 + n <= |buf| && buf == Frame(buf[2..2 + n]) + r.1 && decode(buf[2..2 + n]) == Ok(r.0.value.value)
  {
    if |buf| < 2 then (Ok(None), buf)
    else
      var n := FrameLength(buf);
      if |buf| < 2 + n then (Ok(None), buf)
      else
        var payload := buf[2..2 + n];
        assert buf == LengthBytes(n) + payload + buf[2 + n..] by {
          assert buf[0] == n % 256 && buf[1] == n / 256;
        }
        match decode(payload)
        case Ok(p) => (Ok(Some(p)), buf[2 + n..])
        case Err(_) => (Err(DecodeFailed), buf)
  }

  /** Whatever follows a frame is kept, in order, after that frame is
      taken: parsing a frame that decodes takes it and nothing else. */
  lemma ParseFrame(payload: seq<byte>, rest: seq<byte>, decode: Decoder, e: EntirePacket)
    requires |payload| <= MaxPayload && decode(payload) == Ok(e)
    ensures Parsed(Frame(payload) + rest, decode) == (Ok(Some(e)), rest)
  {
    var buf := Frame(payload) + rest;
    LengthRoundTrip(|payload|, payload + rest);
    assert buf == LengthBytes(|payload|) + (payload + rest);
    assert buf[2..2 + |payload|] == payload;
    assert buf[2 + |payload|..] == rest;
  }

  /** A buffer that holds only part of a frame parses to nothing. */
  lemma PartialFrame(payload: seq<byte>, k: nat, decode: Decoder)
    requires |payload| <= MaxPayload && k < |payload| + 2
    ensures Parsed(Frame(payload)[..k], decode) == (Ok(None), Frame(payload)[..k])
  {
    var f := Frame(payload);
    if k >= 2 {
      LengthRoundTrip(|payload|, payload);
      assert FrameLength(f[..k]) == FrameLength(f);
    }
  }

  /** The pid after `p`; an `i16` wraps from 32767 to -32768. */
  function NextPid(p: i16): (q: i16)
    ensures p < 0x7FFF ==> q == p + 1
    ensures p == 0x7FFF ==> q == -0x8000
  {
    if p == 0x7FFF then -0x8000 else p + 1
  }

  /** The bytes a write puts on the stream for `packet` under `pid`, or why
      it writes nothing. */
  function Written(packet: Packet, pid: i16, encode: Encoder): (r: Result<seq<byte>, StreamError>)
    ensures packet.Unknown? ==> r == Err(NoId)
    ensures r.Ok? ==>
      exists data :: |data| <= MaxPayload && r.value == Frame(data) && encode(EntirePacket(PacketHeader(IdOf(packet).value, pid), packet)) == Ok(data)
  {
    match IdOf(packet)
    case None => Err(NoId)
    case Some(id) =>
      match encode(EntirePacket(PacketHeader(id, pid), packet))
      case Err(_) => Err(EncodeFailed)
      case Ok(data) => if |data| > MaxPayload then Err(TooLong) else Ok(Frame(data))
  }

  /** Reading back a written frame, with anything after it, gives the same
      header id, pid and body when the codec round-trips. */
  lemma WriteThenParse(packet: Packet, pid: i16, encode: Encoder, decode: Decoder, rest: seq<byte>)
    requires Written(packet, pid, encode).Ok?
    requires forall e: EntirePacket :: encode(e).Ok? ==> decode(encode(e).value) == Ok(e)
    ensures Parsed(Written(packet, pid, encode).value + rest, decode)
         == (Ok(Some(EntirePacket(PacketHeader(IdOf(packet).value, pid), packet))), rest)
  {
    var e := EntirePacket(PacketHeader(IdOf(packet).value, pid), packet);
    var data := encode(e).value;
    ParseFrame(data, rest, decode, e);
  }

  /** The bytes of several chunks, one after another. */
  function Concat(chunks: seq<seq<byte>>): (bs: seq<byte>) {
    if chunks == [] then [] else Concat(chunks[..|chunks| - 1]) + chunks[|chunks| - 1]
  }

  /** A connection: what has been received and not yet parsed, the pid the
      next unsolicited message uses, and what has been written. */
  class Connection {
    var buffer: seq<byte>
    var nextPid: i16
    var sent: seq<byte>

    /** `Connection::new`: nothing buffered, pids from 1. */
    constructor ()
      ensures buffer == [] && nextPid == 1 && sent == []
    {
      buffer := [];
      nextPid := 1;
      sent := [];
    }

    /** `parse_packet`: take one frame off the front of the buffer. */
    method ParsePacket(decode: Decoder) returns (r: Result<Option<EntirePacket>, StreamError>)
      modifies this`buffer
      ensures (r, buffer) == Parsed(old(buffer), decode)
    {
      if |buffer| < 2 {
        return Ok(None);
      }
      var n: nat := buffer[0] as nat + 256 * buffer[1] as nat;
      if |buffer| < n + 2 {
        return Ok(None);
      }
      var payload := buffer[2..2 + n];
      match decode(payload)
      case Err(_) =>
        r := Err(DecodeFailed);
      case Ok(p) =>
        buffer := buffer[2 + n..];
        r := Ok(Some(p));
    }

    /** `read_packet`: parse, and while no whole frame is buffered, append
        the next chunk the stream delivers; an empty chunk, or the end of
        `incoming`, is the end of the stream. `used` is the number of chunks
        appended. */
    method ReadPacket(decode: Decoder, incoming: seq<seq<byte>>) returns (r: Result<Option<EntirePacket>, StreamError>, used: nat)
      modifies this`buffer
      ensures used <= |incoming|
      ensures (r, buffer) == Parsed(old(buffer) + Concat(incoming[..used]), decode)
      ensures forall j :: 0 <= j < used ==> Parsed(old(buffer) + Concat(incoming[..j]), decode).0 == Ok(None)
      ensures r == Ok(None) ==> used == |incoming| || incoming[used] == []
    {
      used := 0;
      while true
        invariant used <= |incoming|
        invariant buffer == old(buffer) + Concat(incoming[..used])
        invariant forall j :: 0 <= j < used ==> Parsed(old(buffer) + Concat(incoming[..j]), decode).0 == Ok(None)
        decreases |incoming| - used
      {
        r := ParsePacket(decode);
        if r != Ok(None) {
          return;
        }
        if used == |incoming| || incoming[used] == [] {
          return;
        }
        assert incoming[..used + 1][..used] == incoming[..used];
        buffer := buffer + incoming[used];
        used := used + 1;
      }
    }

    /** `write_packet_with_pid`: the frame goes out under the given pid;
        `nextPid` is untouched. A failed write sends nothing. */
    method WritePacketWithPid(packet: Packet, pid: i16, encode: Encoder) returns (r: Result<(), StreamError>)
      modifies this`sent
      ensures Written(packet, pid, encode).Ok? ==> r.Ok? && sent == old(sent) + Written(packet, pid, encode).value
      ensures Written(packet, pid, encode).Err? ==> r == Err(Written(packet, pid, encode).error) && sent == old(sent)
    {
      var id := IdOf(packet);
      if id.None? {
        return Err(NoId);
      }
      var data := encode(EntirePacket(PacketHeader(id.value, pid), packet));
      if data.Err? {
        return Err(EncodeFailed);
      }
      if |data.value| > MaxPayload {
        return Err(TooLong);
      }
      sent := sent + LengthBytes(|data.value|) + data.value;
      r := Ok(());
    }

    /** `write_packet`: the frame goes out under `nextPid`, which moves on
        whether or not the write succeeds. */
    method WritePacket(packet: Packet, encode: Encoder) returns (r: Result<(), StreamError>)
      modifies this`sent, this`nextPid
      ensures nextPid == NextPid(old(nextPid))
      ensures Written(packet, old(nextPid), encode).Ok? ==> r.Ok? && sent == old(sent) + Written(packet, old(nextPid), encode).value
      ensures Written(packet, old(nextPid), encode).Err? ==> r.Err? && sent == old(sent)
    {
      var pid := nextPid;
      nextPid := NextPid(nextPid);
      r := WritePacketWithPid(packet, pid, encode);
    }
  }
}
