/**
 * The one decision `MySQLServerSession` makes per command: a statement that
 * mentions "select" in any letter case is answered with a canned two-column
 * result set, anything else with an OK packet. The greeting and the OK that
 * open the session are the default packets.
 */
module Session {
  import opened Wrappers
  import opened Wire
  import opened Payloads
  import opened Packets
  import opened ResultSets

  /** Python 2 `str.lower()` in the C locale: ASCII capitals become small letters. */
  function Lower(s: Bytes): (r: Bytes)
    ensures |r| == |s|
    ensures forall i :: 0 <= i < |s| ==> r[i] == if 0x41 <= s[i] <= 0x5A then s[i] + 0x20 else s[i]
  {
    if s == [] then [] else
      var c := s[0];
      [if 0x41 <= c <= 0x5A then c + 0x20 else c] + Lower(s[1..])
  }

  /** `needle` occurs in `hay` at position `i`. */
  predicate OccursAt(hay: Bytes, needle: Bytes, i: nat)
  {
    i + |needle| <= |hay| && hay[i..i + |needle|] == needle
  }

  /** `hay.find(needle, from)`: the first position at or after `from` where `needle` occurs,
      or -1. */
  function Find(hay: Bytes, needle: Bytes, from: nat): (r: int)
    ensures r == -1 || (from <= r && OccursAt(hay, needle, r))
    ensures forall i :: from <= i && (r == -1 || i < r) ==> !OccursAt(hay, needle, i)
    decreases |hay| - from
  {
    if from + |needle| > |hay| then -1
    else if hay[from..from + |needle|] == needle then from
    else Find(hay, needle, from + 1)
  }

  /** "select" in ASCII. */
  const SelectWord: Bytes := [0x73, 0x65, 0x6C, 0x65, 0x63, 0x74]

  /** The test at pysql.py:425. */
  predicate MentionsSelect(statement: Bytes)
  {
    Find(Lower(statement), SelectWord, 0) != -1
  }

  /** `MentionsSelect` holds exactly when some six bytes of the statement spell "select" in
      any letter case. */
  lemma MentionsSelectIff(statement: Bytes)
    ensures MentionsSelect(statement) <==> exists i :: OccursAt(Lower(statement), SelectWord, i)
  {
    var r := Find(Lower(statement), SelectWord, 0);
    if r != -1 {
      assert OccursAt(Lower(statement), SelectWord, r);
    }
  }

  /** `ResultSet(["Name", "City"], [["Jon", "NYC"], ["GMP", "Worc"]], "test_table", "test")`. */
  const Canned: ResultSet := ResultSet(
    [[0x4E, 0x61, 0x6D, 0x65], [0x43, 0x69, 0x74, 0x79]],
    [[[0x4A, 0x6F, 0x6E], [0x4E, 0x59, 0x43]], [[0x47, 0x4D, 0x50], [0x57, 0x6F, 0x72, 0x63]]],
    [0x74, 0x65, 0x73, 0x74, 0x5F, 0x74, 0x61, 0x62, 0x6C, 0x65],
    [0x74, 0x65, 0x73, 0x74])

  /** `OKPacket(number)` with every other argument at its default. */
  function DefaultOk(number: int): (r: PacketState)
    ensures r.number == number && r.length.None? && r.data.None?
    ensures r.body.OkBody? && r.body.fieldCount == 0 && r.body.affectedRows == 0 && r.body.insertId == 0
    ensures r.body.serverStatus == 0 && r.body.warnings == 0
  {
    PacketState(OkBody(0, 0, 0, 0, 0), number, None, None)
  }

  /** The bytes sent in answer to a command whose statement is `statement`. */
  function Reply(statement: Bytes): Result<Bytes, PacketError>
  {
    if MentionsSelect(statement) then EncodeAll(Layout(Canned)) else EncodeState(DefaultOk(1)).1
  }

  lemma CannedEncodable()
    ensures Encodable(Canned)
  {
  }

  /** Every command gets an answer: a "select" gets the seven frames of the canned result set
      (header, two columns, EOF, two rows, EOF), numbered 1 to 7; anything else an 11-byte OK
      frame numbered 1. */
  lemma ReplySent(statement: Bytes)
    ensures Reply(statement).Success?
    ensures MentionsSelect(statement) ==>
      var fs := Frames(Layout(Canned));
      && ReadFrames(Reply(statement).value, 7) == Success((fs, []))
      && |fs| == 7
      && forall k :: 0 <= k < 7 ==> FrameMatches(Canned, k, fs[k])
    ensures !MentionsSelect(statement) ==>
      var r := Reply(statement).value;
      && |r| == 11 && r[3] == 1
      && FromSocket(r, true) == Success((IncomingPacket(7, 0, 1, Some(r[4..])), []))
  {
    CannedEncodable();
    if MentionsSelect(statement) {
      EncodableEncodes(Canned);
      ReadBackExactly(Layout(Canned));
      WireLayout(Canned);
    } else {
      var s := DefaultOk(1);
      PayloadSizes(s);
      EncodeReadsBack(s, []);
      var r := EncodeState(s).1.value;
      assert r + [] == r;
      assert r[4..] == EncodeState(s).0.data.value;
    }
  }

  /** `GreetingPacket()` with the default arguments; `random` stands for `os.urandom(20)`. */
  function DefaultGreeting(random: Bytes): (r: PacketState)
    requires |random| == 20
    ensures r.number == 0 && r.length.None? && r.data.None? && r.body.GreetingBody?
    ensures r.body.greeting.salt == random
  {
    PacketState(GreetingBody(Payloads.Greeting(10, [0x35, 0x2E, 0x31, 0x2E, 0x35, 0x33, 0x20, 0x2D, 0x20, 0x6C, 0x6F, 0x67],
                                               11578506, ChooseSalt(None, random), 0xF7FF, 8, 2)),
                0, None, None)
  }

  /** The session opens with a 58-byte greeting frame numbered 0, whose salt is the random
      bytes, and answers the client's first packet with an 11-byte OK frame numbered 2. */
  lemma SessionOpening(random: Bytes)
    requires |random| == 20
    ensures var g := EncodeState(DefaultGreeting(random)).1;
      g.Success? && |g.value| == 58 && g.value[3] == 0
    ensures var ok := EncodeState(DefaultOk(2)).1;
      ok.Success? && |ok.value| == 11 && ok.value[3] == 2
  {
    var g := DefaultGreeting(random);
    PayloadSizes(g);
    EncodeReadsBack(g, []);
    var ok := DefaultOk(2);
    PayloadSizes(ok);
    EncodeReadsBack(ok, []);
  }
}
