/**
 * The payloads the packet classes of pysql.py put in `self.data` before the
 * frame header is added: fixed `struct.pack` layouts for the greeting, OK,
 * result-set header and EOF packets, and 1-byte-length-prefixed strings for
 * field and row packets. Every integer is packed at a fixed width instead
 * of MySQL's length-encoded integers, as the source does.
 */
module Payloads {
  import opened Wrappers
  import opened Wire

  /** `s[lo:hi]` of Python for non-negative bounds. */
  function Slice(s: Bytes, lo: nat, hi: nat): (r: Bytes)
    ensures hi <= |s| && lo <= hi ==> r == s[lo..hi]
    ensures lo <= hi ==> r == s[Min(lo, |s|)..Min(hi, |s|)]
    ensures |r| == if lo <= hi then Min(hi, |s|) - Min(lo, |s|) else 0
  {
    var i := Min(lo, |s|);
    var j := Min(hi, |s|);
    if i <= j then s[i..j] else []
  }

  /** struct's `Ns` format: `s` cut to `n` bytes or padded with NUL bytes to `n`. */
  function FixedString(s: Bytes, n: nat): (r: Bytes)
    ensures |r| == n
    ensures |s| >= n ==> r == s[..n]
    ensures |s| < n ==> r[..|s|] == s && r[|s|..] == Zeros(n - |s|)
  {
    if |s| >= n then s[..n] else s + Zeros(n - |s|)
  }

  // ---------------------------------------------------------------- greeting

  /** The fields of a `GreetingPacket`. */
  datatype Greeting = Greeting(
    protocolVersion: int,
    serverVersion: Bytes,
    threadId: int,
    salt: Bytes,
    serverCapabilities: int,
    charset: int,
    serverStatus: int)

  /** The salt `GreetingPacket.__init__` keeps: the one supplied when it is 20 bytes long,
      otherwise `random`, standing for `os.urandom(20)`. A missing salt is `None`, whose
      `str` is 4 bytes long, so it is always replaced. */
  function ChooseSalt(salt: Option<Bytes>, random: Bytes): (r: Bytes)
    requires |random| == 20
    ensures |r| == 20
    ensures salt.Some? && |salt.value| == 20 ==> r == salt.value
    ensures !(salt.Some? && |salt.value| == 20) ==> r == random
  {
    if salt.Some? && |salt.value| == 20 then salt.value else random
  }

  predicate GreetingFits(g: Greeting)
  {
    IsU8(g.protocolVersion) && IsU32(g.threadId) && IsU16(g.serverCapabilities)
    && IsU8(g.charset) && IsU16(g.serverStatus)
  }

  /** `struct.pack("< B %ssB I 8sB H B H 13s 8sB" % len(server_version), ...)`. */
  function GreetingPayload(g: Greeting): (r: Result<Bytes, PacketError>)
    ensures r.Success? <==> GreetingFits(g)
    ensures r.Success? ==>
      var p, n := r.value, |g.serverVersion|;
      && |p| == 42 + n
      && p[0] == g.protocolVersion
      && p[1..1 + n] == g.serverVersion
      && p[1 + n] == 0
      && FromLE(p[n + 2..n + 6]) == g.threadId
      && p[n + 6..n + 14] == FixedString(Slice(g.salt, 0, 8), 8)
      && p[n + 14] == 0
      && FromLE(p[n + 15..n + 17]) == g.serverCapabilities
      && p[n + 17] == g.charset
      && FromLE(p[n + 18..n + 20]) == g.serverStatus
      && p[n + 20..n + 33] == Zeros(13)
      && p[n + 33..n + 41] == FixedString(Slice(g.salt, 8, 20), 8)
      && p[n + 41] == 0
  {
    if GreetingFits(g) then
      var a := [g.protocolVersion as Byte] + g.serverVersion + [0];
      var b := U32LE(g.threadId) + FixedString(Slice(g.salt, 0, 8), 8) + [0];
      var c := U16LE(g.serverCapabilities) + [g.charset as Byte] + U16LE(g.serverStatus);
      var d := Zeros(13) + FixedString(Slice(g.salt, 8, 20), 8) + [0];
      var p := a + b + c + d;
      GreetingPieces(g.protocolVersion as Byte, g.serverVersion, U32LE(g.threadId), FixedString(Slice(g.salt, 0, 8), 8),
                     U16LE(g.serverCapabilities), g.charset as Byte, U16LE(g.serverStatus), Zeros(13),
                     FixedString(Slice(g.salt, 8, 20), 8));
      Success(p)
    else
      Failure(StructError)
  }

  /** Where each field of the greeting layout sits. */
  lemma GreetingPieces(version: Byte, server: Bytes, thread: Bytes, salt1: Bytes, caps: Bytes, charset: Byte,
                       status: Bytes, filler: Bytes, salt2: Bytes)
    requires |thread| == 4 && |salt1| == 8 && |caps| == 2 && |status| == 2 && |filler| == 13 && |salt2| == 8
    ensures var n := |server|;
      var p := ([version] + server + [0]) + (thread + salt1 + [0]) + (caps + [charset] + status)
               + (filler + salt2 + [0]);
      && |p| == 42 + n
      && p[0] == version && p[1..1 + n] == server && p[1 + n] == 0
      && p[n + 2..n + 6] == thread && p[n + 6..n + 14] == salt1 && p[n + 14] == 0
      && p[n + 15..n + 17] == caps && p[n + 17] == charset && p[n + 18..n + 20] == status
      && p[n + 20..n + 33] == filler && p[n + 33..n + 41] == salt2 && p[n + 41] == 0
  {
  }

  /** With a 20-byte salt, the greeting carries salt bytes 0-7 and 8-15 and drops the last
      four: the `8s` field cuts `salt[8:20]` to eight bytes. */
  lemma GreetingSaltBytes(g: Greeting)
    requires GreetingFits(g) && |g.salt| == 20
    ensures var p, n := GreetingPayload(g).value, |g.serverVersion|;
      p[n + 6..n + 14] == g.salt[..8] && p[n + 33..n + 41] == g.salt[8..16]
  {
    assert g.salt[8..20][..8] == g.salt[8..16];
  }

  // ---------------------------------------------------------------- fixed-size packets

  /** `struct.pack("< B B B H H", field_count, affected_rows, insert_id, server_status, warnings)`. */
  function OkPayload(fieldCount: int, affectedRows: int, insertId: int, serverStatus: int, warnings: int)
    : (r: Result<Bytes, PacketError>)
    ensures r.Success? <==>
      IsU8(fieldCount) && IsU8(affectedRows) && IsU8(insertId) && IsU16(serverStatus) && IsU16(warnings)
    ensures r.Success? ==>
      && |r.value| == 7
      && r.value[0] == fieldCount && r.value[1] == affectedRows && r.value[2] == insertId
      && FromLE(r.value[3..5]) == serverStatus && FromLE(r.value[5..7]) == warnings
  {
    if IsU8(fieldCount) && IsU8(affectedRows) && IsU8(insertId) && IsU16(serverStatus) && IsU16(warnings) then
      var p := [fieldCount as Byte, affectedRows as Byte, insertId as Byte] + U16LE(serverStatus) + U16LE(warnings);
      assert p[3..5] == U16LE(serverStatus) && p[5..7] == U16LE(warnings);
      Success(p)
    else
      Failure(StructError)
  }

  /** `struct.pack("B", field_count)`. */
  function ResultSetHeaderPayload(fieldCount: int): (r: Result<Bytes, PacketError>)
    ensures r.Success? <==> IsU8(fieldCount)
    ensures r.Success? ==> r.value == [fieldCount]
  {
    if IsU8(fieldCount) then Success([fieldCount as Byte]) else Failure(StructError)
  }

  /** `struct.pack("< B H H", 0xFE, warnings, server_status)`. */
  function EofPayload(warnings: int, serverStatus: int): (r: Result<Bytes, PacketError>)
    ensures r.Success? <==> IsU16(warnings) && IsU16(serverStatus)
    ensures r.Success? ==>
      && |r.value| == 5 && r.value[0] == 0xFE
      && FromLE(r.value[1..3]) == warnings && FromLE(r.value[3..5]) == serverStatus
  {
    if IsU16(warnings) && IsU16(serverStatus) then
      var p := [0xFE] + U16LE(warnings) + U16LE(serverStatus);
      assert p[1..3] == U16LE(warnings) && p[3..5] == U16LE(serverStatus);
      Success(p)
    else
      Failure(StructError)
  }

  // ---------------------------------------------------------------- length-prefixed strings

  /** Every string fits a 1-byte length prefix. */
  predicate AllShort(strings: seq<Bytes>)
  {
    forall i :: 0 <= i < |strings| ==> |strings[i]| < 0x100
  }

  /** Total size of the strings once each is prefixed by its length byte. */
  function PrefixedSize(strings: seq<Bytes>): nat
  {
    if strings == [] then 0 else 1 + |strings[0]| + PrefixedSize(strings[1..])
  }

  /** The concatenation of `struct.pack("B", len(s)) + s` over `strings`. */
  function Prefixed(strings: seq<Bytes>): (r: Bytes)
    requires AllShort(strings)
    ensures |r| == PrefixedSize(strings)
  {
    if strings == [] then [] else [|strings[0]| as Byte] + strings[0] + Prefixed(strings[1..])
  }

  /** Appending one more string to the prefixed encoding. */
  lemma {:induction false} PrefixedAppend(strings: seq<Bytes>, s: Bytes)
    requires AllShort(strings) && |s| < 0x100
    ensures AllShort(strings + [s])
    ensures Prefixed(strings + [s]) == Prefixed(strings) + [|s| as Byte] + s
  {
    var t := strings + [s];
    assert forall i :: 0 <= i < |strings| ==> t[i] == strings[i];
    assert t[|strings|] == s;
    if strings == [] {
      assert t == [s] && t[1..] == [];
    } else {
      assert t[1..] == strings[1..] + [s];
      PrefixedAppend(strings[1..], s);
      var h, p := [|strings[0]| as Byte] + strings[0], Prefixed(strings[1..]);
      assert Prefixed(t) == h + (p + [|s| as Byte] + s);
      Regroup(h, p, [|s| as Byte], s);
    }
  }

  lemma Regroup(a: Bytes, b: Bytes, c: Bytes, d: Bytes)
    ensures a + (b + c + d) == (a + b) + c + d
  {
  }

  /** The index of the first string too long for its length byte, or `|strings|`.
      The loops of `FieldPacket.__str__` and `RowDataPacket.__str__` stop there. */
  function FirstLong(strings: seq<Bytes>): (k: nat)
    ensures k <= |strings|
    ensures AllShort(strings[..k])
    ensures k < |strings| ==> |strings[k]| >= 0x100
    ensures k == |strings| <==> AllShort(strings)
  {
    if strings == [] then 0
    else if |strings[0]| >= 0x100 then 0
    else
      var k := 1 + FirstLong(strings[1..]);
      assert strings[..k] == [strings[0]] + strings[1..][..k - 1];
      k
  }

  /** Reading a prefixed encoding back: the inverse of `Prefixed` for `count` strings. */
  function ParsePrefixed(b: Bytes, count: nat): Option<seq<Bytes>>
  {
    if count == 0 then Some([])
    else if b == [] || |b| < 1 + b[0] as int then None
    else
      match ParsePrefixed(b[1 + b[0]..], count - 1)
      case None => None
      case Some(tail) => Some([b[1..1 + b[0]]] + tail)
  }

  /** A row or field payload can be split back into its strings. */
  lemma {:induction false} PrefixedRoundTrip(strings: seq<Bytes>, rest: Bytes)
    requires AllShort(strings)
    ensures ParsePrefixed(Prefixed(strings) + rest, |strings|) == Some(strings)
  {
    if strings != [] {
      var s := strings[0];
      var b := Prefixed(strings) + rest;
      Unprefix(|s| as Byte, s, Prefixed(strings[1..]), rest);
      PrefixedRoundTrip(strings[1..], rest);
      assert [s] + strings[1..] == strings;
    }
  }

  /** Where the first string of a prefixed encoding sits. */
  lemma Unprefix(x: Byte, s: Bytes, q: Bytes, rest: Bytes)
    ensures var b := ([x] + s + q) + rest;
      b[0] == x && b[1..1 + |s|] == s && b[1 + |s|..] == q + rest
  {
  }

  // ---------------------------------------------------------------- field descriptor

  /** The name-like fields of a `FieldPacket`; the column length is the packet's `length`. */
  datatype Field = Field(
    catalog: Bytes,
    database: Bytes,
    table: Bytes,
    originalTable: Bytes,
    name: Bytes,
    originalName: Bytes,
    charset: int,
    fieldType: int,
    flags: int,
    decimals: int,
    default: int)

  /** The string attributes in the order `FieldPacket.__str__` writes them. */
  function FieldStrings(f: Field): (r: seq<Bytes>)
    ensures |r| == 6
  {
    [f.catalog, f.database, f.table, f.originalTable, f.name, f.originalName]
  }

  predicate FieldTailFits(f: Field, length: int)
  {
    IsU16(f.charset) && IsU32(length) && IsU8(f.fieldType) && IsU16(f.flags)
    && IsU8(f.decimals) && IsU8(f.default)
  }

  /** `struct.pack("< B H I B H B H B B", 0, charset, length, type, flags, decimals, 0, default, 0)`. */
  function FieldTail(f: Field, length: int): (r: Result<Bytes, PacketError>)
    ensures r.Success? <==> FieldTailFits(f, length)
    ensures r.Success? ==>
      && |r.value| == 15
      && r.value[0] == 0
      && FromLE(r.value[1..3]) == f.charset
      && FromLE(r.value[3..7]) == length
      && r.value[7] == f.fieldType
      && FromLE(r.value[8..10]) == f.flags
      && r.value[10] == f.decimals
      && r.value[11..13] == [0, 0]
      && r.value[13] == f.default
      && r.value[14] == 0
  {
    if FieldTailFits(f, length) then
      var p := [0] + U16LE(f.charset) + U32LE(length) + [f.fieldType as Byte] + U16LE(f.flags)
        + [f.decimals as Byte] + U16LE(0) + [f.default as Byte, 0];
      assert p[1..3] == U16LE(f.charset);
      assert p[3..7] == U32LE(length);
      assert p[8..10] == U16LE(f.flags);
      assert p[11..13] == U16LE(0);
      Success(p)
    else
      Failure(StructError)
  }
}
