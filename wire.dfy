/**
 * The MySQL client/server packet frame of pysql.py: a 4-byte header (3-byte
 * little-endian payload length, 1-byte sequence number) followed by the
 * payload. `MySQLPacket.__str__` writes it; `fromSocket` reads it.
 *
 * Python 2 `str` values are byte strings here, so they are `Bytes`.
 * The socket is the sequence of bytes the peer sends; `sock.recv(n)`
 * returns the next `n` of them, or all that remain (full reads).
 */
module Wire {
  import opened Wrappers

  type Byte = b: int | 0 <= b < 0x100
  type Bytes = seq<Byte>

  /** The exceptions the packet code can raise. */
  datatype PacketError =
    | StructError     // struct.pack of an out-of-range integer, struct.unpack of too few bytes
    | AttributeError  // reading an attribute that was never assigned
    | NegativeRecv    // sock.recv with a negative buffer size

  predicate IsU8(x: int) { 0 <= x < 0x100 }
  predicate IsU16(x: int) { 0 <= x < 0x1_0000 }
  predicate IsU32(x: int) { 0 <= x < 0x1_0000_0000 }

  /** The largest payload a 3-byte length can describe, plus one. */
  const MaxFrameLength: int := 0x100_0000

  /** Little-endian reading of a byte string. */
  function FromLE(b: Bytes): nat
  {
    if b == [] then 0 else b[0] as int + 0x100 * FromLE(b[1..])
  }

  lemma FromLE3(b: Bytes)
    requires |b| == 3
    ensures FromLE(b) == b[0] as int + 0x100 * b[1] as int + 0x1_0000 * b[2] as int
  {
    assert b[1..][1..][1..] == [];
    assert FromLE(b[1..][1..]) == b[2] as int;
  }

  /** `struct.pack("<H", x)`. */
  function U16LE(x: int): (r: Bytes)
    requires IsU16(x)
    ensures |r| == 2 && FromLE(r) == x
  {
    assert FromLE([x / 0x100]) == x / 0x100;
    [x % 0x100, x / 0x100]
  }

  /** `struct.pack("<I", x)`. */
  function U32LE(x: int): (r: Bytes)
    requires IsU32(x)
    ensures |r| == 4 && FromLE(r) == x
  {
    var lo := U16LE(x % 0x1_0000);
    var hi := U16LE(x / 0x1_0000);
    FromLEAppend(lo, hi);
    lo + hi
  }

  lemma {:induction false} FromLEAppend(a: Bytes, b: Bytes)
    ensures FromLE(a + b) == FromLE(a) + Pow256(|a|) * FromLE(b)
  {
    if a == [] {
      assert a + b == b;
    } else {
      assert (a + b)[1..] == a[1..] + b;
      FromLEAppend(a[1..], b);
      var x, y, p := FromLE(a[1..]), FromLE(b), Pow256(|a| - 1);
      assert FromLE(a + b) == a[0] as int + 0x100 * (x + p * y);
      assert Pow256(|a|) == 0x100 * p;
      Distribute(x, p, y);
    }
  }

  lemma Distribute(x: int, p: int, y: int)
    ensures 0x100 * (x + p * y) == 0x100 * x + (0x100 * p) * y
  {
  }

  function Pow256(n: nat): (p: nat)
    ensures p > 0
  {
    if n == 0 then 1 else 0x100 * Pow256(n - 1)
  }

  /** `n` zero bytes, as in `"\0" * n`. */
  function Zeros(n: nat): (r: Bytes)
    ensures |r| == n
  {
    seq(n, _ => 0)
  }

  /** The 4-byte frame header `struct.pack("< H B B", length & 0xFFFF, length >> 16, number)`
      for a non-negative `length`; it fails when a value does not fit its byte. */
  function PackHeader(length: nat, number: int): (r: Result<Bytes, PacketError>)
    ensures r.Success? <==> length < MaxFrameLength && IsU8(number)
    ensures r.Success? ==> |r.value| == 4 && DecodeHeader(r.value) == Header(length, number)
  {
    if IsU8(length / 0x1_0000) && IsU8(number) then
      var h := U16LE(length % 0x1_0000) + [length / 0x1_0000, number];
      assert h[..2] == U16LE(length % 0x1_0000);
      Success(h)
    else
      Failure(StructError)
  }

  /** The bytes `MySQLPacket.__str__` returns for payload `data` and sequence number `number`:
      the header declaring `|data|` bytes, then `data` verbatim. */
  function EncodeFrame(data: Bytes, number: int): (r: Result<Bytes, PacketError>)
    ensures r.Success? <==> |data| < MaxFrameLength && IsU8(number)
    ensures r.Success? ==> |r.value| == 4 + |data| && r.value[4..] == data
    ensures r.Success? ==> DecodeHeader(r.value[..4]) == Header(|data|, number)
  {
    var h := PackHeader(|data|, number);
    if h.Success? then
      assert (h.value + data)[..4] == h.value;
      Success(h.value + data)
    else
      Failure(h.error)
  }

  /** The fields of a frame header. */
  datatype Header = Header(length: nat, packetNumber: Byte)

  /** `struct.unpack("< HB B", h)` followed by `length += length_byte3 << 16`. */
  function DecodeHeader(h: Bytes): (r: Header)
    requires |h| == 4
    ensures r.length < MaxFrameLength
    ensures r.length == FromLE(h[..3]) && r.packetNumber == h[3]
  {
    var b0, b1, b2: int := h[0], h[1], h[2];
    FromLE3(h[..3]);
    Header(b0 + 0x100 * b1 + 0x1_0000 * b2, h[3])
  }

  /** `sock.recv(n)`: the next `n` bytes of the input, or all that remain, and the rest. */
  function Recv(stream: Bytes, n: int): (r: Result<(Bytes, Bytes), PacketError>)
    ensures r.Success? <==> n >= 0
    ensures r.Success? ==> r.value.0 + r.value.1 == stream && |r.value.0| == Min(n, |stream|)
  {
    if n < 0 then Failure(NegativeRecv)
    else
      var k := Min(n, |stream|);
      assert stream[..k] + stream[k..] == stream;
      Success((stream[..k], stream[k..]))
  }

  /** A packet object made by `fromSocket`: `cls()` gives `length = 0` and `number = 0`
      and leaves `data` unset; the header then sets `length` and `packet_number`. */
  datatype IncomingPacket = IncomingPacket(length: nat, number: int, packetNumber: Byte, data: Option<Bytes>)

  /** `MySQLPacket.fromSocket(sock, get_data)` on input `stream`: the packet and the unread input. */
  function FromSocket(stream: Bytes, getData: bool): (r: Result<(IncomingPacket, Bytes), PacketError>)
    ensures r.Success? <==> |stream| >= 4
    ensures r.Success? ==>
      var (p, rest) := r.value;
      && p.number == 0
      && p.length == FromLE(stream[..3])
      && p.packetNumber == stream[3]
      && (getData <==> p.data.Some?)
      && (getData ==> p.data.value + rest == stream[4..] && |p.data.value| == Min(p.length, |stream| - 4))
      && (!getData ==> rest == stream[4..])
  {
    var head := Recv(stream, 4).value;
    if |head.0| < 4 then
      Failure(StructError)
    else
      var h := DecodeHeader(head.0);
      assert head.0[..3] == stream[..3] && head.1 == stream[4..];
      if getData then
        var body := Recv(head.1, h.length).value;
        Success((IncomingPacket(h.length, 0, h.packetNumber, Some(body.0)), body.1))
      else
        Success((IncomingPacket(h.length, 0, h.packetNumber, None), head.1))
  }

  /** Reading back an encoded frame returns its payload, its length and its sequence number
      (in `packet_number`; `number` keeps the 0 of `__init__`), and leaves the input after it. */
  lemma FrameRoundTrip(data: Bytes, number: int, rest: Bytes)
    requires EncodeFrame(data, number).Success?
    ensures FromSocket(EncodeFrame(data, number).value + rest, true)
         == Success((IncomingPacket(|data|, 0, number, Some(data)), rest))
  {
    var f := EncodeFrame(data, number).value;
    var s := f + rest;
    assert s[..3] == f[..4][..3];
    assert s[3] == f[..4][3];
    assert s[4..] == data + rest;
    assert (data + rest)[..|data|] == data;
  }

  /** The command names of `CommandPacket.commands`. */
  function Description(command: Byte): (d: string)
    ensures d == "Quit" <==> command == 1
    ensures d == "Query" <==> command == 3
    ensures command != 1 && command != 3 ==> d == "Unknown"
  {
    if command == 1 then "Quit"
    else if command == 3 then "Query"
    else "Unknown"
  }

  /** A decoded `CommandPacket`. */
  datatype CommandPacket = CommandPacket(header: IncomingPacket, command: Byte, description: string, statement: Bytes)

  /** `CommandPacket.fromSocket(sock)`: the header, then one command byte, then `length - 1`
      statement bytes. */
  function CommandFromSocket(stream: Bytes): (r: Result<(CommandPacket, Bytes), PacketError>)
    ensures r.Success? <==> |stream| >= 5 && FromLE(stream[..3]) >= 1
    ensures r.Success? ==>
      var (c, rest) := r.value;
      && c.header.length == FromLE(stream[..3])
      && c.header.packetNumber == stream[3]
      && c.header.data.None?
      && c.command == stream[4]
      && c.description == Description(stream[4])
      && c.statement + rest == stream[5..]
      && |c.statement| == Min(c.header.length - 1, |stream| - 5)
  {
    if |stream| < 4 then Failure(StructError)
    else
      var (p, afterHeader) := FromSocket(stream, false).value;
      var code := Recv(afterHeader, 1).value;
      if |code.0| < 1 then Failure(StructError)
      else
        var command := code.0[0];
        var statement := Recv(code.1, p.length - 1);
        if statement.Failure? then Failure(statement.error)
        else
          assert afterHeader == stream[4..];
          assert code.1 == stream[5..];
          Success((CommandPacket(p, command, Description(command), statement.value.0), statement.value.1))
  }

  /** A frame whose payload is a command byte and a statement reads back as that command
      and statement. */
  lemma CommandRoundTrip(command: Byte, statement: Bytes, number: int, rest: Bytes)
    requires EncodeFrame([command] + statement, number).Success?
    ensures var r := CommandFromSocket(EncodeFrame([command] + statement, number).value + rest);
      && r.Success?
      && r.value.0.command == command
      && r.value.0.description == Description(command)
      && r.value.0.statement == statement
      && r.value.0.header.packetNumber == number
      && r.value.1 == rest
  {
    var payload := [command] + statement;
    var f := EncodeFrame(payload, number).value;
    var s := f + rest;
    assert s[..3] == f[..4][..3];
    assert s[3] == f[..4][3];
    assert s[4..] == payload + rest;
    assert s[4] == command;
    assert s[5..] == statement + rest;
    var r := CommandFromSocket(s);
    assert r.Success?;
    var (c, rest') := r.value;
    assert |c.statement| == |statement|;
    assert c.statement == (statement + rest)[..|statement|];
  }

  /** `count` successive `fromSocket(sock, get_data=True)` calls, and the unread input. */
  function ReadFrames(stream: Bytes, count: nat): Result<(seq<IncomingPacket>, Bytes), PacketError>
  {
    if count == 0 then Success(([], stream))
    else
      match FromSocket(stream, true)
      case Failure(e) => Failure(e)
      case Success((p, rest)) =>
        match ReadFrames(rest, count - 1)
        case Failure(e) => Failure(e)
        case Success((ps, rest')) => Success(([p] + ps, rest'))
  }
}
