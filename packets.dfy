/**
 * The packet objects of pysql.py. `MySQLPacket` and its subclasses become one
 * class, `Packet`, whose `body` says which subclass it is and holds that
 * subclass's own attributes; one named constructor per subclass `__init__`.
 * The attributes every packet shares are fields: `number`, `length` and
 * `data`, the last two `None` while Python has not assigned them.
 *
 * `Encode` is `__str__`: it writes the payload into `data` (growing it string
 * by string for field and row packets), sets `length` to the payload size
 * (pysql.py:51) and returns the frame. `EncodeState` states the same on values.
 */
module Packets {
  import opened Wrappers
  import opened Wire
  import opened Payloads

  /** Which packet class an object is, with that class's own attributes. */
  datatype Body =
    | Plain                                              // MySQLPacket itself
    | GreetingBody(greeting: Greeting)
    | OkBody(fieldCount: int, affectedRows: int, insertId: int, serverStatus: int, warnings: int)
    | HeaderBody(fieldCount: int)                        // ResultSetHeaderPacket
    | FieldBody(field: Field)                            // column length is the shared `length`
    | EofBody(warnings: int, serverStatus: int)
    | RowBody(values: seq<Bytes>)                        // RowDataPacket

  /** The attributes of a packet object. */
  datatype PacketState = PacketState(body: Body, number: int, length: Option<int>, data: Option<Bytes>)

  /** How a fixed-layout payload ends up in `self.data`: assigned when `struct.pack`
      succeeds, left as it was when it raises. */
  function Assign(p: Result<Bytes, PacketError>, old_data: Option<Bytes>): (Option<Bytes>, Option<PacketError>)
  {
    if p.Success? then (Some(p.value), None) else (old_data, Some(p.error))
  }

  /** The payload step of `__str__` (everything before pysql.py:51): what `self.data` holds
      afterwards, and the exception raised, if any. A field or row loop that meets a string
      of 256 bytes or more raises with the strings before it already appended. */
  function WritePayload(s: PacketState): (r: (Option<Bytes>, Option<PacketError>))
    ensures r.1.None? ==> r.0.Some?
  {
    match s.body
    case Plain => (s.data, if s.data.None? then Some(AttributeError) else None)
    case GreetingBody(g) => Assign(GreetingPayload(g), s.data)
    case OkBody(fc, ar, id, st, w) => Assign(OkPayload(fc, ar, id, st, w), s.data)
    case HeaderBody(fc) => Assign(ResultSetHeaderPayload(fc), s.data)
    case EofBody(w, st) => Assign(EofPayload(w, st), s.data)
    case FieldBody(f) =>
      var strings := FieldStrings(f);
      var k := FirstLong(strings);
      if k < |strings| then (Some(Prefixed(strings[..k])), Some(StructError))
      else
        assert strings[..k] == strings;
        if s.length.None? then (Some(Prefixed(strings)), Some(AttributeError))
        else
          var tail := FieldTail(f, s.length.value);
          if tail.Failure? then (Some(Prefixed(strings)), Some(tail.error))
          else (Some(Prefixed(strings) + tail.value), None)
    case RowBody(values) =>
      var k := FirstLong(values);
      if k < |values| then (Some(Prefixed(values[..k])), Some(StructError))
      else
        assert values[..k] == values;
        (Some(Prefixed(values)), None)
  }

  /** What the payload step leaves in `self.data` for each kind of packet, and when a row
      packet raises. */
  lemma PayloadData(s: PacketState)
    ensures var r := WritePayload(s);
      && (s.body.Plain? ==> r.0 == s.data && (r.1.None? <==> s.data.Some?))
      && ((s.body.GreetingBody? || s.body.OkBody? || s.body.HeaderBody? || s.body.EofBody?) && r.1.Some? ==>
            r.0 == s.data)
      && (s.body.FieldBody? || s.body.RowBody? ==> r.0.Some?)
      && (s.body.RowBody? ==> (r.1.None? <==> AllShort(s.body.values)) && r.1 != Some(AttributeError))
  {
  }

  /** `str(packet)`: the packet's new attributes and the bytes returned or the exception raised. */
  function EncodeState(s: PacketState): (PacketState, Result<Bytes, PacketError>)
  {
    var (data, err) := WritePayload(s);
    if err.Some? then (s.(data := data), Failure(err.value))
    else (s.(data := data, length := Some(|data.value|)), EncodeFrame(data.value, s.number))
  }

  class Packet {
    var body: Body
    var number: int
    var length: Option<int>
    var data: Option<Bytes>

    function State(): PacketState
      reads this
    {
      PacketState(body, number, length, data)
    }

    /** `MySQLPacket(data, length, number)`: a non-empty `data` is stored and gives the length;
        otherwise `data` stays unset and `length` is taken as given. */
    constructor (data: Bytes, length: int, number: int)
      ensures State() == if |data| > 0 then PacketState(Plain, number, Some(|data|), Some(data))
                         else PacketState(Plain, number, Some(length), None)
    {
      body := Plain;
      if |data| > 0 {
        this.data := Some(data);
        this.length := Some(|data|);
      } else {
        this.data := None;
        this.length := Some(length);
      }
      this.number := number;
    }

    /** `GreetingPacket(...)`; `random` stands for `os.urandom(20)`. Its number is always 0. */
    constructor Greeting(protocolVersion: int, serverVersion: Bytes, threadId: int, salt: Option<Bytes>,
                         serverCapabilities: int, charset: int, serverStatus: int, random: Bytes)
      requires |random| == 20
      ensures State() == PacketState(
        GreetingBody(Payloads.Greeting(protocolVersion, serverVersion, threadId, ChooseSalt(salt, random),
                                       serverCapabilities, charset, serverStatus)),
        0, None, None)
      ensures |body.greeting.salt| == 20
    {
      body := GreetingBody(Payloads.Greeting(protocolVersion, serverVersion, threadId, ChooseSalt(salt, random),
                                             serverCapabilities, charset, serverStatus));
      number := 0;
      length := None;
      data := None;
    }

    /** `OKPacket(number, field_count, affected_rows, insert_id, server_status, warnings)`. */
    constructor Ok(number: int, fieldCount: int, affectedRows: int, insertId: int, serverStatus: int, warnings: int)
      ensures State() == PacketState(OkBody(fieldCount, affectedRows, insertId, serverStatus, warnings), number, None, None)
    {
      body := OkBody(fieldCount, affectedRows, insertId, serverStatus, warnings);
      this.number := number;
      length := None;
      data := None;
    }

    /** `ResultSetHeaderPacket(number, field_count)`. */
    constructor ResultSetHeader(number: int, fieldCount: int)
      ensures State() == PacketState(HeaderBody(fieldCount), number, None, None)
    {
      body := HeaderBody(fieldCount);
      this.number := number;
      length := None;
      data := None;
    }

    /** `FieldPacket(...)`: an empty original table or original name falls back to the table
        or the name, and the column length goes into the shared `length` attribute. */
    constructor Field(number: int, catalog: Bytes, database: Bytes, table: Bytes, originalTable: Bytes,
                      name: Bytes, originalName: Bytes, charset: int, length: int, fieldType: int,
                      flags: int, decimals: int, default: int)
      ensures State() == PacketState(
        FieldBody(Payloads.Field(catalog, database, table, if |originalTable| > 0 then originalTable else table,
                                 name, if |originalName| > 0 then originalName else name,
                                 charset, fieldType, flags, decimals, default)),
        number, Some(length), None)
    {
      body := FieldBody(Payloads.Field(catalog, database, table, if |originalTable| > 0 then originalTable else table,
                                       name, if |originalName| > 0 then originalName else name,
                                       charset, fieldType, flags, decimals, default));
      this.number := number;
      this.length := Some(length);
      data := None;
    }

    /** `EOFPacket(number, warnings, server_status)`. */
    constructor Eof(number: int, warnings: int, serverStatus: int)
      ensures State() == PacketState(EofBody(warnings, serverStatus), number, None, None)
    {
      body := EofBody(warnings, serverStatus);
      this.number := number;
      length := None;
      data := None;
    }

    /** `RowDataPacket(number, values)`. */
    constructor RowData(number: int, values: seq<Bytes>)
      ensures State() == PacketState(RowBody(values), number, None, None)
    {
      body := RowBody(values);
      this.number := number;
      length := None;
      data := None;
    }

    /** `str(packet)`. */
    method Encode() returns (r: Result<Bytes, PacketError>)
      modifies this
      ensures (State(), r) == EncodeState(old(State()))
    {
      match body {
        case Plain =>
          if data.None? {
            return Failure(AttributeError);
          }
        case GreetingBody(g) =>
          var p := GreetingPayload(g);
          if p.Failure? {
            return Failure(p.error);
          }
          data := Some(p.value);
        case OkBody(fc, ar, id, st, w) =>
          var p := OkPayload(fc, ar, id, st, w);
          if p.Failure? {
            return Failure(p.error);
          }
          data := Some(p.value);
        case HeaderBody(fc) =>
          var p := ResultSetHeaderPayload(fc);
          if p.Failure? {
            return Failure(p.error);
          }
          data := Some(p.value);
        case EofBody(w, st) =>
          var p := EofPayload(w, st);
          if p.Failure? {
            return Failure(p.error);
          }
          data := Some(p.value);
        case FieldBody(f) =>
          var strings := FieldStrings(f);
          var ok := AppendPrefixed(strings);
          if !ok {
            return Failure(StructError);
          }
          assert strings[..FirstLong(strings)] == strings;
          if length.None? {
            return Failure(AttributeError);
          }
          var tail := FieldTail(f, length.value);
          if tail.Failure? {
            return Failure(tail.error);
          }
          data := Some(data.value + tail.value);
        case RowBody(values) =>
          var ok := AppendPrefixed(values);
          if !ok {
            return Failure(StructError);
          }
          assert values[..FirstLong(values)] == values;
      }
      length := Some(|data.value|);
      r := EncodeFrame(data.value, number);
    }

    /** The loops of `FieldPacket.__str__` and `RowDataPacket.__str__`: `self.data = ""`, then
        each string's length byte and the string are appended, until one is too long. */
    method AppendPrefixed(strings: seq<Bytes>) returns (ok: bool)
      modifies this`data
      ensures ok == AllShort(strings)
      ensures data == Some(Prefixed(strings[..FirstLong(strings)]))
    {
      data := Some([]);
      for i := 0 to |strings|
        invariant AllShort(strings[..i])
        invariant data == Some(Prefixed(strings[..i]))
      {
        var s := strings[i];
        if |s| >= 0x100 {
          FirstLongAt(strings, i);
          return false;
        }
        PrefixedAppend(strings[..i], s);
        assert strings[..i + 1] == strings[..i] + [s];
        data := Some(data.value + [|s| as Byte] + s);
      }
      assert strings[..|strings|] == strings;
      return true;
    }
  }

  /** The loops stop at the first string that is too long. */
  lemma {:induction false} FirstLongAt(strings: seq<Bytes>, i: nat)
    requires i < |strings| && AllShort(strings[..i]) && |strings[i]| >= 0x100
    ensures FirstLong(strings) == i
  {
    if i > 0 {
      assert strings[..i][0] == strings[0];
      assert strings[1..][..i - 1] == strings[..i][1..];
      FirstLongAt(strings[1..], i - 1);
    }
  }

  /** The fixed parts of a field descriptor: 6 length-prefixed strings, then 15 bytes. */
  function FieldPayloadSize(f: Field): nat
  {
    PrefixedSize(FieldStrings(f)) + 15
  }

  /** When `str(packet)` returns, `length` is the size of the payload now in `data`, the frame
      is 4 bytes longer, and reading it back gives that payload under the packet's number. */
  lemma EncodeReadsBack(s: PacketState, rest: Bytes)
    requires EncodeState(s).1.Success?
    ensures var (s', r) := EncodeState(s);
      && s'.body == s.body && s'.number == s.number
      && s'.data.Some? && s'.length == Some(|s'.data.value|)
      && |r.value| == 4 + |s'.data.value|
      && FromSocket(r.value + rest, true) == Success((IncomingPacket(|s'.data.value|, 0, s.number, Some(s'.data.value)), rest))
  {
    var (s', r) := EncodeState(s);
    FrameRoundTrip(s'.data.value, s.number, rest);
  }

  /** `str(packet)` succeeds exactly when the payload step does and the frame header fits:
      payload under 2^24 bytes and a sequence number in 0..255. */
  lemma EncodeSucceeds(s: PacketState)
    ensures EncodeState(s).1.Success? <==>
      && WritePayload(s).1.None?
      && |WritePayload(s).0.value| < MaxFrameLength
      && IsU8(s.number)
  {
  }

  /** The payload sizes: OK 7 bytes, result-set header 1, EOF 5 starting with 0xFE,
      greeting 42 plus the server version, field descriptor its strings plus 15,
      row the sum of 1 + |v| over its values, and the row splits back into its values. */
  lemma PayloadSizes(s: PacketState)
    requires WritePayload(s).1.None?
    ensures var d := WritePayload(s).0.value;
      match s.body
      case Plain => d == s.data.value
      case GreetingBody(g) => |d| == 42 + |g.serverVersion|
      case OkBody(_, _, _, _, _) => |d| == 7
      case HeaderBody(fc) => d == [fc]
      case EofBody(_, _) => |d| == 5 && d[0] == 0xFE
      case FieldBody(f) => |d| == FieldPayloadSize(f) && ParsePrefixed(d, 6) == Some(FieldStrings(f))
      case RowBody(values) => |d| == PrefixedSize(values) && ParsePrefixed(d, |values|) == Some(values)
  {
    var d := WritePayload(s).0.value;
    match s.body
    case FieldBody(f) =>
      var strings := FieldStrings(f);
      assert strings[..FirstLong(strings)] == strings;
      var tail := FieldTail(f, s.length.value).value;
      assert d == Prefixed(strings) + tail;
      PrefixedRoundTrip(strings, tail);
    case RowBody(values) =>
      assert values[..FirstLong(values)] == values;
      assert d == Prefixed(values) + [];
      PrefixedRoundTrip(values, []);
    case _ =>
  }

  /** Encoding a packet other than a field descriptor a second time returns the same frame:
      its payload is rebuilt from attributes that encoding does not change. */
  lemma ReencodeSame(s: PacketState)
    requires !s.body.FieldBody? && EncodeState(s).1.Success?
    ensures EncodeState(EncodeState(s).0).1 == EncodeState(s).1
  {
  }

  /** A field descriptor shares `length` between its column length and the frame length.
      The first `str` packs the column length it was built with; pysql.py:51 then overwrites
      `length` with the payload size, so the second `str` packs that size instead. */
  lemma FieldReencodeUsesPayloadSize(s: PacketState)
    requires s.body.FieldBody? && EncodeState(s).1.Success?
    ensures var (s1, r1) := EncodeState(s);
      var (s2, r2) := EncodeState(s1);
      var f, n := s.body.field, PrefixedSize(FieldStrings(s.body.field));
      && FromLE(s1.data.value[n + 3..n + 7]) == s.length.value
      && s1.length == Some(FieldPayloadSize(f))
      && r2.Success?
      && FromLE(s2.data.value[n + 3..n + 7]) == FieldPayloadSize(f)
      && (r2 == r1 <==> s.length.value == FieldPayloadSize(f))
  {
    var f := s.body.field;
    var strings := FieldStrings(f);
    FieldEncoding(s);
    var (s1, r1) := EncodeState(s);
    FieldEncoding(s1);
    var t1 := FieldTail(f, s.length.value).value;
    var t2 := FieldTail(f, FieldPayloadSize(f)).value;
    LengthField(Prefixed(strings), t1);
    LengthField(Prefixed(strings), t2);
    FrameInjective(Prefixed(strings) + t1, Prefixed(strings) + t2, s.number);
    AppendInjective(Prefixed(strings), t1, t2);
  }

  /** Two frames with the same number are equal exactly when their payloads are. */
  lemma FrameInjective(d1: Bytes, d2: Bytes, number: int)
    requires EncodeFrame(d1, number).Success? && EncodeFrame(d2, number).Success?
    ensures EncodeFrame(d1, number) == EncodeFrame(d2, number) <==> d1 == d2
  {
    if EncodeFrame(d1, number) == EncodeFrame(d2, number) {
      assert d1 == EncodeFrame(d1, number).value[4..];
    }
  }

  lemma AppendInjective(p: Bytes, t1: Bytes, t2: Bytes)
    ensures p + t1 == p + t2 <==> t1 == t2
  {
    if p + t1 == p + t2 {
      assert t1 == (p + t1)[|p|..];
    }
  }

  /** How `str` treats a field descriptor: it succeeds exactly when the six strings fit their
      length bytes, `length` is set and fits the tail, and the frame fits; then `data` is the
      strings and the tail, and `length` becomes the payload size. */
  lemma FieldEncoding(s: PacketState)
    requires s.body.FieldBody?
    ensures var f, (s1, r1) := s.body.field, EncodeState(s);
      && (r1.Success? <==>
            && AllShort(FieldStrings(f)) && s.length.Some? && FieldTailFits(f, s.length.value)
            && FieldPayloadSize(f) < MaxFrameLength && IsU8(s.number))
      && (r1.Success? ==>
            && s1 == s.(data := Some(Prefixed(FieldStrings(f)) + FieldTail(f, s.length.value).value),
                        length := Some(FieldPayloadSize(f)))
            && r1 == EncodeFrame(s1.data.value, s.number))
  {
    var strings := FieldStrings(s.body.field);
    if AllShort(strings) {
      assert strings[..FirstLong(strings)] == strings;
    }
  }

  /** Where the column length sits behind the strings of a field descriptor. */
  lemma LengthField(p: Bytes, t: Bytes)
    requires |t| == 15
    ensures (p + t)[|p| + 3..|p| + 7] == t[3..7]
  {
  }
}
