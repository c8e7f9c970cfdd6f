/**
 * `ResultSet` of pysql.py: a column list and rows sent as numbered packets.
 * `toPackets` lays them out as a result-set header, one field descriptor per
 * column, an EOF, one row packet per row and a closing EOF, numbered from 1;
 * `__str__` encodes them one after the other.
 */
module ResultSets {
  import opened Wrappers
  import opened Wire
  import opened Payloads
  import opened Packets

  /** A result set; it is never changed after construction. */
  datatype ResultSet = ResultSet(columns: seq<Bytes>, rows: seq<seq<Bytes>>, table: Bytes, database: Bytes)

  /** The default catalog "def" of `FieldPacket`. */
  const Def: Bytes := [0x64, 0x65, 0x66]

  /** The field descriptor `FieldPacket(number, database=..., table=..., name=column)` with
      every other argument at its default: charset 8, length 255, type 254 (VARCHAR). */
  function ColumnPacket(rs: ResultSet, column: Bytes, number: int): (r: PacketState)
    ensures r.number == number && r.length == Some(255) && r.data.None?
    ensures r.body.FieldBody? && FieldStrings(r.body.field) == [Def, rs.database, rs.table, rs.table, column, column]
    ensures var f := r.body.field; f.charset == 8 && f.fieldType == 254 && f.flags == 0 && f.decimals == 0 && f.default == 0
  {
    PacketState(FieldBody(Field(Def, rs.database, rs.table, rs.table, column, column, 8, 254, 0, 0, 0)),
                number, Some(255), None)
  }

  /** The packet at position k of `toPackets`, as a value: number k + 1. */
  function LayoutAt(rs: ResultSet, k: nat): PacketState
  {
    var n, m := |rs.columns|, |rs.rows|;
    if k == 0 then PacketState(HeaderBody(n), 1, None, None)
    else if k <= n then ColumnPacket(rs, rs.columns[k - 1], k + 1)
    else if k == n + 1 || k >= n + m + 2 then PacketState(EofBody(0, 0), k + 1, None, None)
    else PacketState(RowBody(rs.rows[k - n - 2]), k + 1, None, None)
  }

  /** The packets of `toPackets`, as values. */
  function Layout(rs: ResultSet): (ps: seq<PacketState>)
    ensures |ps| == |rs.columns| + |rs.rows| + 3
    ensures forall k :: 0 <= k < |ps| ==> ps[k] == LayoutAt(rs, k)
  {
    seq(|rs.columns| + |rs.rows| + 3, k requires k >= 0 => LayoutAt(rs, k))
  }

  /** A result set with n columns and r rows is n + r + 3 packets numbered 1, 2, ...:
      the header giving field count n, the n columns in order, an EOF, the r rows in order
      and an EOF. */
  lemma LayoutOrder(rs: ResultSet)
    ensures var ps, n, m := Layout(rs), |rs.columns|, |rs.rows|;
      && |ps| == n + m + 3
      && (forall k :: 0 <= k < |ps| ==> ps[k].number == k + 1)
      && ps[0].body == HeaderBody(n)
      && (forall j :: 0 <= j < n ==> ps[1 + j].body.FieldBody? && ps[1 + j].body.field.name == rs.columns[j])
      && ps[n + 1].body == EofBody(0, 0)
      && (forall k :: 0 <= k < m ==> ps[n + 2 + k].body == RowBody(rs.rows[k]))
      && ps[n + m + 2].body == EofBody(0, 0)
  {
  }

  /** `rs.toPackets()`: new packet objects, in the order and with the attributes of `Layout`. */
  method ToPackets(rs: ResultSet) returns (packets: seq<Packet>)
    ensures |packets| == |Layout(rs)|
    ensures forall k :: 0 <= k < |packets| ==> fresh(packets[k]) && packets[k].State() == Layout(rs)[k]
    ensures forall j, k :: 0 <= j < k < |packets| ==> packets[j] != packets[k]
  {
    var n := |rs.columns|;
    var i := 1;
    var header := new Packet.ResultSetHeader(i, n);
    packets := [header];
    for c := 0 to n
      invariant i == c + 1 && |packets| == i
      invariant forall k :: 0 <= k < |packets| ==> fresh(packets[k]) && packets[k].State() == LayoutAt(rs, k)
      invariant forall j, k :: 0 <= j < k < |packets| ==> packets[j] != packets[k]
    {
      i := i + 1;
      var p := new Packet.Field(i, Def, rs.database, rs.table, [], rs.columns[c], [], 8, 255, 254, 0, 0, 0);
      packets := packets + [p];
    }
    i := i + 1;
    var eof := new Packet.Eof(i, 0, 0);
    packets := packets + [eof];
    for r := 0 to |rs.rows|
      invariant i == n + 2 + r && |packets| == i
      invariant forall k :: 0 <= k < |packets| ==> fresh(packets[k]) && packets[k].State() == LayoutAt(rs, k)
      invariant forall j, k :: 0 <= j < k < |packets| ==> packets[j] != packets[k]
    {
      i := i + 1;
      var p := new Packet.RowData(i, rs.rows[r]);
      packets := packets + [p];
    }
    i := i + 1;
    var last := new Packet.Eof(i, 0, 0);
    packets := packets + [last];
  }

  /** `"".join([str(p) for p in packets])` on packets in the states `ss`: the frames
      concatenated, or the first exception. */
  function EncodeAll(ss: seq<PacketState>): Result<Bytes, PacketError>
  {
    if ss == [] then Success([])
    else
      match EncodeState(ss[0]).1
      case Failure(e) => Failure(e)
      case Success(b) =>
        match EncodeAll(ss[1..])
        case Failure(e) => Failure(e)
        case Success(rest) => Success(b + rest)
  }

  lemma {:induction false} EncodeAllSnoc(ss: seq<PacketState>, s: PacketState)
    ensures EncodeAll(ss + [s]) == Then(EncodeAll(ss), EncodeState(s).1)
  {
    var y := EncodeState(s).1;
    if ss == [] {
      assert [s][1..] == [];
      assert ss + [s] == [s];
      assert EncodeAll([s]) == Then(y, Success([]));
      ThenUnit(y);
    } else {
      var t := ss + [s];
      assert t[0] == ss[0];
      assert t[1..] == ss[1..] + [s];
      var x := EncodeState(ss[0]).1;
      assert EncodeAll(t) == Then(x, EncodeAll(ss[1..] + [s]));
      assert EncodeAll(ss) == Then(x, EncodeAll(ss[1..]));
      EncodeAllSnoc(ss[1..], s);
      assert EncodeAll(ss[1..] + [s]) == Then(EncodeAll(ss[1..]), y);
      ThenAssoc(x, EncodeAll(ss[1..]), y);
    }
  }

  /** One step of the join: the first failure, or both outputs concatenated. */
  function Then(a: Result<Bytes, PacketError>, b: Result<Bytes, PacketError>): Result<Bytes, PacketError>
  {
    match a
    case Failure(e) => Failure(e)
    case Success(x) =>
      match b
      case Failure(e) => Failure(e)
      case Success(y) => Success(x + y)
  }

  lemma ThenUnit(a: Result<Bytes, PacketError>)
    ensures Then(a, Success([])) == Then(Success([]), a) == a
  {
    if a.Success? {
      assert a.value + [] == a.value && [] + a.value == a.value;
    }
  }

  lemma ThenAssoc(a: Result<Bytes, PacketError>, b: Result<Bytes, PacketError>, c: Result<Bytes, PacketError>)
    ensures Then(a, Then(b, c)) == Then(Then(a, b), c)
  {
    if a.Success? && b.Success? && c.Success? {
      assert a.value + (b.value + c.value) == (a.value + b.value) + c.value;
    }
  }

  /** `str(rs)`: the packets of `toPackets`, encoded one after the other. */
  method Encode(rs: ResultSet) returns (r: Result<Bytes, PacketError>)
    ensures r == EncodeAll(Layout(rs))
  {
    var packets := ToPackets(rs);
    r := EncodePackets(packets, Layout(rs));
  }

  /** `"".join([str(p) for p in packets])` for distinct packets in the states `ss`; when it
      returns, each packet is in the state its `str` leaves behind. */
  method EncodePackets(packets: seq<Packet>, ghost ss: seq<PacketState>) returns (r: Result<Bytes, PacketError>)
    requires |packets| == |ss| && forall k :: 0 <= k < |packets| ==> packets[k].State() == ss[k]
    requires forall j, k :: 0 <= j < k < |packets| ==> packets[j] != packets[k]
    modifies set k | 0 <= k < |packets| :: packets[k]
    ensures r == EncodeAll(ss)
    ensures r.Success? ==> forall k :: 0 <= k < |packets| ==> packets[k].State() == EncodeState(ss[k]).0
  {
    var out: Bytes := [];
    for k := 0 to |packets|
      invariant forall j :: 0 <= j < |packets| ==> packets[j].State() == if j < k then EncodeState(ss[j]).0 else ss[j]
      invariant EncodeAll(ss[..k]) == Success(out)
    {
      var b := packets[k].Encode();
      EncodeStep(ss, k, out, b);
      if b.Failure? {
        return Failure(b.error);
      }
      out := out + b.value;
    }
    assert ss[..|packets|] == ss;
    r := Success(out);
  }

  /** One step of the join loop: the next frame extends the output, or its exception is the
      exception of the whole. */
  lemma EncodeStep(ss: seq<PacketState>, k: nat, out: Bytes, b: Result<Bytes, PacketError>)
    requires k < |ss| && EncodeAll(ss[..k]) == Success(out) && b == EncodeState(ss[k]).1
    ensures b.Success? ==> EncodeAll(ss[..k + 1]) == Success(out + b.value)
    ensures b.Failure? ==> EncodeAll(ss) == Failure(b.error)
  {
    EncodeNext(ss, k, out, b);
    ThenSuccess(out, b);
    if b.Failure? {
      EncodeNextFails(ss, k, b);
    }
  }

  lemma EncodeNext(ss: seq<PacketState>, k: nat, out: Bytes, b: Result<Bytes, PacketError>)
    requires k < |ss| && EncodeAll(ss[..k]) == Success(out) && b == EncodeState(ss[k]).1
    ensures EncodeAll(ss[..k + 1]) == Then(Success(out), b)
  {
    var prefix := ss[..k];
    EncodeAllSnoc(prefix, ss[k]);
    assert ss[..k + 1] == prefix + [ss[k]];
  }

  lemma EncodeNextFails(ss: seq<PacketState>, k: nat, b: Result<Bytes, PacketError>)
    requires k < |ss| && EncodeAll(ss[..k + 1]) == b && b.Failure?
    ensures EncodeAll(ss) == b
  {
    EncodeAllPrefixFails(ss, k + 1);
  }

  lemma ThenSuccess(out: Bytes, b: Result<Bytes, PacketError>)
    ensures Then(Success(out), b) == if b.Success? then Success(out + b.value) else b
  {
  }

  /** An exception while encoding a prefix is the exception of the whole. */
  lemma {:induction false} EncodeAllPrefixFails(ss: seq<PacketState>, k: nat)
    requires k <= |ss| && EncodeAll(ss[..k]).Failure?
    ensures EncodeAll(ss) == EncodeAll(ss[..k])
  {
    if k > 0 {
      assert ss[0] == ss[..k][0];
      assert ss[..k][1..] == ss[1..][..k - 1];
      if EncodeState(ss[0]).1.Success? {
        EncodeAllPrefixFails(ss[1..], k - 1);
      }
    }
  }

  /** The frame `fromSocket(get_data=True)` reads back for a packet encoded in state `s`. */
  function FrameOf(s: PacketState): IncomingPacket
  {
    var (d, err) := WritePayload(s);
    if err.None? && IsU8(s.number) then IncomingPacket(|d.value|, 0, s.number, d)
    else IncomingPacket(0, 0, 0, None)
  }

  /** The frames read back for packets encoded in states `ss`, in order. */
  function Frames(ss: seq<PacketState>): (fs: seq<IncomingPacket>)
    ensures |fs| == |ss|
  {
    if ss == [] then [] else [FrameOf(ss[0])] + Frames(ss[1..])
  }

  lemma {:induction false} FramesAt(ss: seq<PacketState>, k: nat)
    requires k < |ss|
    ensures Frames(ss)[k] == FrameOf(ss[k])
  {
    if k > 0 {
      FramesAt(ss[1..], k - 1);
    }
  }

  /** An encoded packet reads back as `FrameOf` its state. */
  lemma FrameOfEncoded(s: PacketState, rest: Bytes)
    requires EncodeState(s).1.Success?
    ensures FromSocket(EncodeState(s).1.value + rest, true) == Success((FrameOf(s), rest))
  {
    EncodeReadsBack(s, rest);
  }

  /** Encoding succeeds exactly when every packet encodes. */
  lemma {:induction false} EncodeAllSucceeds(ss: seq<PacketState>)
    ensures EncodeAll(ss).Success? <==> forall k :: 0 <= k < |ss| ==> EncodeState(ss[k]).1.Success?
  {
    if ss != [] {
      EncodeAllSucceeds(ss[1..]);
      assert forall k :: 1 <= k < |ss| ==> ss[k] == ss[1..][k - 1];
    }
  }

  /** Reading `|ss|` frames back from the encoding gives each packet's payload under its
      number, in order, and leaves the input that follows. */
  lemma {:induction false} ReadBackAll(ss: seq<PacketState>, rest: Bytes)
    requires EncodeAll(ss).Success?
    ensures ReadFrames(EncodeAll(ss).value + rest, |ss|) == Success((Frames(ss), rest))
  {
    if ss == [] {
      assert EncodeAll(ss).value + rest == rest;
    } else {
      var b := EncodeState(ss[0]).1.value;
      var tail := EncodeAll(ss[1..]).value;
      FrameOfEncoded(ss[0], tail + rest);
      assert EncodeAll(ss).value + rest == b + (tail + rest);
      ReadBackAll(ss[1..], rest);
    }
  }

  /** The strings and row sizes `str(rs)` can pack: at most 255 packets; table and database
      names under 256 bytes when there is a column to describe; column names and row values
      under 256 bytes; each row payload under 2^24 bytes. */
  predicate Encodable(rs: ResultSet)
  {
    && |rs.columns| + |rs.rows| + 3 <= 0xFF
    && (|rs.columns| > 0 ==> |rs.table| < 0x100 && |rs.database| < 0x100)
    && AllShort(rs.columns)
    && forall k :: 0 <= k < |rs.rows| ==> AllShort(rs.rows[k]) && PrefixedSize(rs.rows[k]) < MaxFrameLength
  }

  lemma {:induction false} PrefixedSizeBound(strings: seq<Bytes>)
    requires AllShort(strings)
    ensures PrefixedSize(strings) <= 0x100 * |strings|
  {
    if strings != [] {
      PrefixedSizeBound(strings[1..]);
    }
  }

  lemma ColumnEncodes(rs: ResultSet, column: Bytes, number: int)
    ensures EncodeState(ColumnPacket(rs, column, number)).1.Success? <==>
      |rs.table| < 0x100 && |rs.database| < 0x100 && |column| < 0x100 && IsU8(number)
  {
    var s := ColumnPacket(rs, column, number);
    var strings := FieldStrings(s.body.field);
    assert strings[1] == rs.database && strings[2] == rs.table && strings[4] == column;
    if |rs.table| < 0x100 && |rs.database| < 0x100 && |column| < 0x100 {
      assert AllShort(strings);
      assert strings[..FirstLong(strings)] == strings;
      PayloadSizes(s);
      PrefixedSizeBound(strings);
    } else {
      assert !AllShort(strings);
    }
  }

  lemma RowEncodes(values: seq<Bytes>, number: int)
    ensures EncodeState(PacketState(RowBody(values), number, None, None)).1.Success? <==>
      AllShort(values) && PrefixedSize(values) < MaxFrameLength && IsU8(number)
  {
    if AllShort(values) {
      assert values[..FirstLong(values)] == values;
    }
  }

  /** Each packet of an encodable result set encodes. */
  lemma LayoutAtEncodes(rs: ResultSet, k: nat)
    requires Encodable(rs) && k < |rs.columns| + |rs.rows| + 3
    ensures EncodeState(LayoutAt(rs, k)).1.Success?
  {
    var n, m := |rs.columns|, |rs.rows|;
    if 1 <= k <= n {
      ColumnEncodes(rs, rs.columns[k - 1], k + 1);
    } else if n + 2 <= k < n + 2 + m {
      RowEncodes(rs.rows[k - n - 2], k + 1);
    }
  }

  /** An encodable result set encodes. */
  lemma EncodableEncodes(rs: ResultSet)
    requires Encodable(rs)
    ensures EncodeAll(Layout(rs)).Success?
  {
    var ps := Layout(rs);
    forall k | 0 <= k < |ps| ensures EncodeState(ps[k]).1.Success? {
      LayoutAtEncodes(rs, k);
    }
    EncodeAllSucceeds(ps);
  }

  /** When the whole result set encodes, so does each of its packets. */
  lemma EncodedEach(rs: ResultSet)
    requires EncodeAll(Layout(rs)).Success?
    ensures forall k :: 0 <= k < |rs.columns| + |rs.rows| + 3 ==> EncodeState(LayoutAt(rs, k)).1.Success?
  {
    EncodeAllSucceeds(Layout(rs));
  }

  /** Only an encodable result set encodes. */
  lemma EncodesOnlyEncodable(rs: ResultSet)
    requires EncodeAll(Layout(rs)).Success?
    ensures Encodable(rs)
  {
    EncodedEach(rs);
    EachEncodesEncodable(rs);
  }

  lemma EachEncodesEncodable(rs: ResultSet)
    requires forall k :: 0 <= k < |rs.columns| + |rs.rows| + 3 ==> EncodeState(LayoutAt(rs, k)).1.Success?
    ensures Encodable(rs)
  {
    var n, m := |rs.columns|, |rs.rows|;
    assert EncodeState(LayoutAt(rs, n + m + 2)).1.Success?;
    forall j | 0 <= j < n ensures |rs.columns[j]| < 0x100 && |rs.table| < 0x100 && |rs.database| < 0x100 {
      ColumnAt(rs, j);
    }
    if n > 0 {
      assert |rs.columns[0]| < 0x100 && |rs.table| < 0x100 && |rs.database| < 0x100;
    }
    forall k | 0 <= k < m ensures AllShort(rs.rows[k]) && PrefixedSize(rs.rows[k]) < MaxFrameLength {
      RowAt(rs, k);
    }
  }

  lemma ColumnAt(rs: ResultSet, j: nat)
    requires j < |rs.columns| && EncodeState(LayoutAt(rs, 1 + j)).1.Success?
    ensures |rs.columns[j]| < 0x100 && |rs.table| < 0x100 && |rs.database| < 0x100
  {
    ColumnEncodes(rs, rs.columns[j], j + 2);
  }

  lemma RowAt(rs: ResultSet, k: nat)
    requires k < |rs.rows| && EncodeState(LayoutAt(rs, |rs.columns| + 2 + k)).1.Success?
    ensures AllShort(rs.rows[k]) && PrefixedSize(rs.rows[k]) < MaxFrameLength
  {
    RowEncodes(rs.rows[k], |rs.columns| + 3 + k);
  }

  /** `str(rs)` succeeds exactly under `Encodable`: in particular it raises once the
      packet count n + r + 3 passes 255, because the closing EOF's number no longer fits
      its byte. */
  lemma EncodeSucceedsIff(rs: ResultSet)
    ensures EncodeAll(Layout(rs)).Success? <==> Encodable(rs)
  {
    if Encodable(rs) {
      EncodableEncodes(rs);
    } else if EncodeAll(Layout(rs)).Success? {
      EncodesOnlyEncodable(rs);
    }
  }

  /** The 15 bytes after the names of a default column descriptor: a zero, charset 8, column
      length 255, type 254 (VARCHAR), then flags, decimals, filler and default, all zero. */
  const DescriptorTail: Bytes := [0, 8, 0, 255, 0, 0, 0, 254, 0, 0, 0, 0, 0, 0, 0]

  lemma DescriptorTailBytes(f: Field)
    requires f.charset == 8 && f.fieldType == 254 && f.flags == 0 && f.decimals == 0 && f.default == 0
    ensures FieldTail(f, 255) == Success(DescriptorTail)
  {
    assert U16LE(8) == [8, 0] && U16LE(0) == [0, 0] && U16LE(255) == [255, 0];
    assert U32LE(255) == [255, 0, 0, 0];
    assert FieldTailFits(f, 255);
    var p := [0] + U16LE(f.charset) + U32LE(255) + [f.fieldType as Byte] + U16LE(f.flags)
      + [f.decimals as Byte] + U16LE(0) + [f.default as Byte, 0];
    assert FieldTail(f, 255) == Success(p);
    assert p == DescriptorTail;
  }

  /** What frame k of result set `rs` carries: sequence number k + 1, a length equal to the
      payload size, and as payload the field count n for the header; for a column, its six
      names each behind a length byte and then `DescriptorTail`; for an EOF, 0xFE and zero
      warnings and status; for a row, its values each behind a length byte. Column and row
      payloads also parse back into their strings. */
  predicate FrameMatches(rs: ResultSet, k: nat, f: IncomingPacket)
  {
    var n, m := |rs.columns|, |rs.rows|;
    && f.packetNumber == k + 1 && f.data.Some? && f.length == |f.data.value|
    && (k == 0 ==> f.data.value == [n])
    && (1 <= k <= n ==>
          var names := [Def, rs.database, rs.table, rs.table, rs.columns[k - 1], rs.columns[k - 1]];
          && AllShort(names)
          && f.data.value == Prefixed(names) + DescriptorTail
          && ParsePrefixed(f.data.value, 6) == Some(names))
    && (k == n + 1 || k >= n + m + 2 ==> f.data.value == [0xFE, 0, 0, 0, 0])
    && (n + 2 <= k < n + m + 2 ==>
          var row := rs.rows[k - n - 2];
          && AllShort(row)
          && f.data.value == Prefixed(row)
          && ParsePrefixed(f.data.value, |row|) == Some(row))
  }

  /** The frame read back for packet k of an encodable result set. */
  lemma LayoutFrame(rs: ResultSet, k: nat)
    requires Encodable(rs) && k < |rs.columns| + |rs.rows| + 3
    ensures FrameMatches(rs, k, FrameOf(LayoutAt(rs, k)))
  {
    var n, m := |rs.columns|, |rs.rows|;
    var s := LayoutAt(rs, k);
    LayoutAtEncodes(rs, k);
    PayloadSizes(s);
    if 1 <= k <= n {
      var f := s.body.field;
      FieldEncoding(s);
      DescriptorTailBytes(f);
      assert FieldStrings(f) == [Def, rs.database, rs.table, rs.table, rs.columns[k - 1], rs.columns[k - 1]];
    } else if n + 2 <= k < n + m + 2 {
      var row := rs.rows[k - n - 2];
      assert row[..FirstLong(row)] == row;
    } else if k != 0 {
      assert U16LE(0) == [0, 0];
    }
  }

  /** Reading a whole encoding back gives one frame per packet, in order, and consumes it. */
  lemma ReadBackExactly(ss: seq<PacketState>)
    requires EncodeAll(ss).Success?
    ensures ReadFrames(EncodeAll(ss).value, |ss|) == Success((Frames(ss), []))
  {
    var e := EncodeAll(ss).value;
    ReadBackAll(ss, []);
    assert e + [] == e;
  }

  /** On the wire, an encodable result set is n + r + 3 frames numbered 1, 2, ..., n + r + 3,
      each carrying what `FrameMatches` says. */
  lemma WireLayout(rs: ResultSet)
    requires Encodable(rs)
    ensures var fs := Frames(Layout(rs));
      && |fs| == |rs.columns| + |rs.rows| + 3
      && forall k :: 0 <= k < |fs| ==> FrameMatches(rs, k, fs[k])
  {
    var fs := Frames(Layout(rs));
    forall k | 0 <= k < |fs|
      ensures FrameMatches(rs, k, fs[k])
    {
      FramesAt(Layout(rs), k);
      LayoutFrame(rs, k);
    }
  }
}
