# pysql core, modelled in Dafny

pysql is a small gateway written in Python 2. It speaks the MySQL client/server wire protocol to clients. This project models four parts of it:

- **Packet codec** (`pysql.py`). A packet goes on the wire as a 4-byte header followed by its payload. The header holds a 3-byte little-endian payload length and a 1-byte sequence number.
  - Each packet class fills `self.data` with a fixed `struct.pack` layout or with 1-byte-length-prefixed strings. Then `MySQLPacket.__str__` sets `length` and adds the header.
  - `fromSocket` reads packets back.
  - `ResultSet.toPackets` lays a result set out as numbered packets: a header, one field descriptor per column, an EOF, one row packet per row and a closing EOF.
  - The session sends a greeting and an OK. After that it answers every command with a canned two-row result set when the statement mentions "select", and with an OK otherwise.
- **Expression tree** (`ast.py`). A `Tree` of heap `Node`s linked by `left`, `right` and `parent`. It keeps its `root` and the `last` node inserted.
- **Clause handlers** (`sql_parsers.py`). `SELECT`, `FROM` and `WHERE` each take the `(type, value)` tokens of one clause.
- **Constant tables** (`sql_constants.py`):
  - the operator set;
  - the operator types;
  - the "mongodb" templates of the translation table;
  - the reserved-keyword list and the regular expression built from it.

## How the model is built

| file | contents |
|---|---|
| `wrappers.dfy` | `Option`, `Result` and `Outcome` |
| `wire.dfy` | Frames as bytes: header packing, `fromSocket` over an input byte sequence, the command packet |
| `payloads.dfy` | Each packet class's payload, as functions |
| `packets.dfy` | One `Packet` class for `MySQLPacket` and its subclasses |
| `resultsets.dfy` | `toPackets` as a method creating packet objects, `__str__` over them, and the wire layout |
| `ast.dfy` | `Node` and `Tree` as classes |
| `sql_parsers.dfy` | The clause handlers; `WHERE` is a loop |
| `sql_constants.dfy` | The tables as constants, and `str.strip`, `splitlines`, `join` and `split` |
| `session.dfy` | The reply to a command, and the opening of a session |

More on the modelling choices:

- **Packet class.** Its `body` records which subclass a packet is. It has one named constructor per subclass `__init__`.
  - Attributes Python has not yet assigned are `None`. Reading one raises `AttributeError` in the model.
  - `Packet.Encode` is `__str__`. It is proved against the value-level function `EncodeState`, and the lemmas are stated about that function.
- **Errors.** Python exceptions are values of an error type: `struct.error`, `AttributeError`, `IndexError`, `KeyError`, `NameError` and `UnboundLocalError`. Out-of-range integers given to `struct.pack` are error paths, not preconditions.
- **Reading.** `sock.recv(n)` returns the next `n` bytes of the peer's input, or all that remain.
- **Where the code departs from its design.** The model follows the code in each of these cases:
  - A short read does not fail; `fromSocket` keeps the bytes that arrived.
  - The greeting carries only 16 of its 20 salt bytes, because its `8s` field cuts `salt[8:20]` to 8 bytes.
  - `SELECT` accepts only `*`.
  - A field descriptor packs its `length` attribute as the column length. That is the same attribute `__str__` overwrites with the payload size.
  - Statements are not parsed. Any statement containing "select" gets the canned result set.
- **Unbound names in `ast.py`.** Two methods use names that are not in scope:
  - `add_op` uses an unbound `node` (ast.py:49-52);
  - `refresh_depth` uses unbound `node` and `parent` (ast.py:108-109).

  `AddOp` and `RefreshDepth` read these as `Node(item)`, `self` and `self.parent`. The code as written is in the Findings below.
- **How the tree behaves even so.** Read that way, the tree still goes wrong in three places, and the model keeps all three:
  - The first `add_node` makes the node its own parent, its own left child and its own right child.
  - Its depth is then read before it was ever assigned, so the call raises `AttributeError`. From then on every insertion raises, because `last` never advances (`Tree.Stuck`).
  - `add_op` compares the precedence of the node it has just added with itself, so the upward walk never runs.

  `Climb` is that walk, proved over an acyclic parent chain.

## Model

| member | source | states |
|---|---|---|
| Wire.U16LE | pysql.py:52-56 | `struct.pack("<H")` gives two bytes whose little-endian value is the input |
| Wire.U32LE | pysql.py:289-300 | `struct.pack("<I")` gives four bytes whose little-endian value is the input |
| Wire.FromLEAppend | pysql.py:37-39 | The little-endian value of a concatenation is the first part plus 256^len times the second |
| Wire.PackHeader | pysql.py:52-56 | The header packs exactly when the length is under 2^24 and the number fits a byte; it is 4 bytes and decodes to that length and number |
| Wire.EncodeFrame | pysql.py:48-57 | `__str__` succeeds exactly when the header fits; the frame is the header declaring `len(data)`, then the payload verbatim |
| Wire.DecodeHeader | pysql.py:37-39 | The length is the 3-byte little-endian value (under 2^24) and the sequence number is the 4th byte |
| Wire.Recv | pysql.py:37-42 | `recv(n)` fails only for negative n; it splits the input into min(n, available) bytes and the rest |
| Wire.FromSocket | pysql.py:30-45 | Reading succeeds exactly when 4 header bytes are there. `number` stays 0; `length` and `packet_number` come from the header; `data` is read only with `get_data` and is at most `length` bytes |
| Wire.FrameRoundTrip | pysql.py:30-57 | Reading back an encoded frame gives its payload, length and number, and leaves the following input unread |
| Wire.Description | pysql.py:192-210 | Command 1 is "Quit", 3 is "Query", every other code "Unknown" |
| Wire.CommandFromSocket | pysql.py:198-216 | A command reads the header, one command byte, then up to `length - 1` statement bytes; it fails on missing bytes or a declared length of 0 |
| Wire.CommandRoundTrip | pysql.py:198-216 | A frame holding a command byte and a statement reads back as that command, description and statement, with the frame's number |
| Payloads.Slice | pysql.py:109-114 | Python slicing clamps both bounds to the string: with `lo <= hi` the result is `s` between the clamped bounds, otherwise empty |
| Payloads.FixedString | pysql.py:105 | The `Ns` format cuts the string to n bytes or pads it with NULs |
| Payloads.ChooseSalt | pysql.py:82-88 | A supplied 20-byte salt is kept; anything else, including the 4-character `str(None)`, is replaced by the random bytes |
| Payloads.GreetingPayload | pysql.py:100-115 | The greeting packs exactly when every integer fits its width; every field sits at its offset; total 42 + len(server_version) bytes |
| Payloads.GreetingSaltBytes | pysql.py:109-114 | With a 20-byte salt the greeting carries salt bytes 0-7 and 8-15 only |
| Payloads.OkPayload | pysql.py:169-180 | The OK payload packs exactly when each field fits; it is 7 bytes holding the five fields in order |
| Payloads.ResultSetHeaderPayload | pysql.py:233-240 | The header payload is the single field-count byte; it fails when the count exceeds 255 |
| Payloads.EofPayload | pysql.py:318-327 | The EOF payload is 0xFE followed by warnings and status, 5 bytes; it fails when either exceeds 16 bits |
| Payloads.Prefixed | pysql.py:283-287 | The prefixed encoding of strings has size sum(1 + len) |
| Payloads.PrefixedAppend | pysql.py:284-287 | Appending one short string extends the prefixed encoding by its length byte and its bytes |
| Payloads.FirstLong | pysql.py:284-287 | The index where the append loop raises: all strings before it are short and the one there is not; it is the end exactly when all are short |
| Payloads.PrefixedRoundTrip | pysql.py:283-287 | Parsing a prefixed encoding, whatever follows it, gives the strings back |
| Payloads.FieldStrings | pysql.py:281-282 | The six name-like attributes, in the order written |
| Payloads.FieldTail | pysql.py:289-300 | The 15-byte field tail packs exactly when every number fits; each field sits at its offset, with the column length at bytes 3-6 |
| Packets.Packet.constructor | pysql.py:18-27 | A non-empty `data` is stored and sets `length`; an empty one leaves `data` unset and keeps the given length |
| Packets.Packet.Greeting | pysql.py:68-97 | The greeting keeps its arguments; its salt is always 20 bytes; its number is 0 |
| Packets.Packet.Ok | pysql.py:158-166 | The OK packet keeps its fields and number |
| Packets.Packet.ResultSetHeader | pysql.py:227-230 | The result-set header keeps its field count and number |
| Packets.Packet.Field | pysql.py:253-272 | Empty original table and original name fall back to the table and the name; the column length goes into `length` |
| Packets.Packet.Eof | pysql.py:312-315 | The EOF keeps its warnings, status and number |
| Packets.Packet.RowData | pysql.py:337-339 | The row packet keeps its values and number |
| Packets.Packet.Encode | pysql.py:48-57 | `str(packet)` changes the packet's attributes and returns the frame exactly as `EncodeState` says |
| Packets.WritePayload | pysql.py:100-351 | The payload step of each `__str__`: when it raises nothing, `self.data` is set |
| Packets.PayloadData | pysql.py:100-351 | What the payload step leaves in `self.data`. A plain packet keeps its data and raises AttributeError exactly when it has none. A greeting, OK, header or EOF packet whose `struct.pack` raises keeps its old data. Field and row packets always leave data set. A row packet raises exactly when one of its values is 256 bytes or longer, and then StructError, never AttributeError |
| Packets.Packet.AppendPrefixed | pysql.py:283-287 | The append loop ends with `data` holding the prefixed encoding of the strings before the first long one; it reports whether all were short |
| Packets.FirstLongAt | pysql.py:284-287 | The loop stops at the first string of 256 bytes or more |
| Packets.EncodeReadsBack | pysql.py:30-57 | After `str`, `length` is the size of `data`, the frame is 4 bytes longer, and reading it back gives that payload under the packet's number |
| Packets.EncodeSucceeds | pysql.py:48-57 | `str` succeeds exactly when the payload step raises nothing, the payload is under 2^24 bytes and the number fits a byte |
| Packets.PayloadSizes | pysql.py:100-353 | Payload sizes per class. Field and row payloads parse back into their strings |
| Packets.ReencodeSame | pysql.py:48-57 | Encoding any packet other than a field descriptor twice gives the same frame |
| Packets.FieldReencodeUsesPayloadSize | pysql.py:268-302 | A field descriptor's second `str` packs the payload size, which pysql.py:51 stored in `length`, as the column length. The two frames are equal exactly when the original length was that size |
| Packets.FieldEncoding | pysql.py:275-302 | Encoding a field descriptor succeeds exactly when its strings, length and number fit. The payload is then the strings followed by the tail, and `length` becomes the payload size |
| Packets.FrameInjective | pysql.py:48-57 | Two frames with the same number are equal exactly when their payloads are |
| ResultSets.LayoutOrder | pysql.py:365-401 | n columns and r rows give n + r + 3 packets numbered 1 upward: the header with count n, the columns in order, an EOF, the rows in order, an EOF |
| ResultSets.ColumnPacket | pysql.py:379-386 | The column descriptor `toPackets` creates: the given number, column length 255 and no data yet; its strings are "def", the database, the table twice and the column name twice; charset 8, type 254 and zero flags, decimals and default |
| ResultSets.ToPackets | pysql.py:365-401 | `toPackets` returns distinct new packet objects in the states of `Layout` |
| ResultSets.Encode | pysql.py:404-405 | `str(rs)` is the concatenated encoding of the layout's packets, or its first exception |
| ResultSets.EncodePackets | pysql.py:405 | Joining the `str` of distinct packets gives the concatenation of their encodings, or the first exception. On success each packet is left in the state its own `str` produces |
| ResultSets.EncodeAllSnoc | pysql.py:405 | Encoding one packet more appends its frame |
| ResultSets.EncodeAllPrefixFails | pysql.py:405 | An exception part-way through the list is the exception of the whole join |
| ResultSets.EncodeAllSucceeds | pysql.py:405 | The join succeeds exactly when every packet encodes |
| ResultSets.FrameOfEncoded | pysql.py:30-57 | An encoded packet reads back as the frame of its state |
| ResultSets.ReadBackAll | pysql.py:404-405 | Reading one frame per packet from the encoding gives each payload under its number, in order, and leaves what follows |
| ResultSets.ReadBackExactly | pysql.py:404-405 | Reading one frame per packet consumes the whole encoding |
| ResultSets.ColumnEncodes | pysql.py:379-386 | A column's descriptor encodes exactly when table, database and column are under 256 bytes and its number fits a byte |
| ResultSets.RowEncodes | pysql.py:342-353 | A row packet encodes exactly when its values are short, its payload is under 2^24 and its number fits |
| ResultSets.LayoutAtEncodes | pysql.py:365-401 | Each packet of an encodable result set encodes |
| ResultSets.EncodableEncodes | pysql.py:404-405 | An encodable result set encodes |
| ResultSets.EncodesOnlyEncodable | pysql.py:404-405 | Only an encodable result set encodes |
| ResultSets.EncodeSucceedsIff | pysql.py:365-405 | `str(rs)` succeeds exactly for encodable result sets. It raises once n + r + 3 passes 255 |
| ResultSets.LayoutFrame | pysql.py:365-401 | Frame k of an encodable result set has number k + 1 and a length equal to its payload size. The header's payload is the column count. An EOF's payload is exactly 0xFE 0 0 0 0. A column's payload is its six names, each behind a length byte, then the 15-byte tail for charset 8, column length 255 and type 254. A row's payload is its values, each behind a length byte. Column and row payloads parse back into their strings |
| ResultSets.DescriptorTailBytes | pysql.py:253-257 | The default descriptor's tail is the bytes 0, 8 0, 255 0 0 0, 254, then seven zeros |
| ResultSets.WireLayout | pysql.py:365-405 | On the wire an encodable result set is n + r + 3 frames. Each has the number, length and exact payload that `LayoutFrame` gives for its position |
| Session.MentionsSelect | pysql.py:425 | The select test: `statement.lower().find("select") != -1` |
| Session.Reply | pysql.py:424-431 | The bytes sent for one command: the encoded canned result set when the test holds, otherwise the encoded default OK packet |
| Session.Lower | pysql.py:425 | `lower()` maps ASCII capitals to small letters and keeps every other byte |
| Session.Find | pysql.py:425 | `find` returns the first position where the needle occurs, or -1 when there is none |
| Session.MentionsSelectIff | pysql.py:425 | The select test holds exactly when "select" occurs in the lowered statement |
| Session.CannedEncodable | pysql.py:426-428 | The canned result set is encodable |
| Session.Canned | pysql.py:426-428 | The result set sent for a select: columns Name and City, rows Jon/NYC and GMP/Worc, table test_table, database test |
| Session.DefaultOk | pysql.py:158-159 | `OKPacket(number)` with its defaults: field count, affected rows, insert id, status and warnings all 0, with length and data unset |
| Session.DefaultGreeting | pysql.py:68-70 | `GreetingPacket()` numbered 0, with length and data unset and the 20 random bytes as its salt |
| Session.ReplySent | pysql.py:424-431 | A "select" statement is answered by the 7 frames of the canned result set, numbered 1-7, read back exactly. Any other statement gets an 11-byte OK frame numbered 1 |
| Session.SessionOpening | pysql.py:414-418 | The session opens with a 58-byte greeting frame numbered 0 and then an 11-byte OK frame numbered 2 |
| Ast.Node.constructor | ast.py:101-105 | A new node holds its data and links; its depth is unset |
| Ast.Node.RefreshDepth | ast.py:107-111 | Depth 0 without a parent. Otherwise it is the parent's depth plus one, and it raises when the parent has no depth |
| Ast.Node.RefreshDepthAsWritten | ast.py:107-111 | As written, every call raises NameError for `node` |
| Ast.Node.SpliceAbove | ast.py:49-51 | The node becomes `next`'s parent, takes `next` as its left child and takes over `next`'s old parent |
| Ast.Climb | ast.py:28-42 | The walk stops at the first ancestor whose precedence is at most the operator's, or past the top; every ancestor passed binds tighter |
| Ast.Tree.constructor | ast.py:9-12 | A new tree is empty |
| Ast.Tree.AddNode | ast.py:67-92 | The node is linked first under the root, then as the right child of `last`'s parent or as `last`'s left child. It becomes `last` exactly when its depth can be set. The first insert leaves the tree stuck, and a stuck tree stays stuck |
| Ast.Tree.AddOp | ast.py:15-52 | The node is inserted. When that succeeds, it is spliced above itself and its depth goes up by one more |
| Ast.Tree.AddOpAsWritten | ast.py:15-52 | As written, no call returns normally. This row keeps only `add_op`'s unbound `node` as written and reads `refresh_depth` with `self` and `self.parent`; taken fully as written, ast.py:108 raises NameError for `node` before anything else. It leaves the tree in the state `add_node` produced: the first insert self-linked with AttributeError; otherwise the same links as `AddNode`, with AttributeError when the new node's parent has no depth, and NameError for `node` at the splice when it has one. A stuck tree stays stuck and the depth index is unchanged |
| Ast.Tree.AddValue | ast.py:57-64 | As written, every call raises NameError for `add_node` |
| Ast.Tree.AddValueFixed | ast.py:57-92 | Calling `self.add_node` inserts a leaf as `add_node` does |
| SqlParsers.Select | sql_parsers.py:8-13 | SELECT succeeds exactly for the single token `*`, giving an empty fragment. An empty clause raises IndexError; anything else is unsupported |
| SqlParsers.From | sql_parsers.py:16-20 | FROM succeeds exactly for one token, whose value becomes the table; anything else is unsupported |
| SqlParsers.Where | sql_parsers.py:23-48 | The loop raises or returns as `WhereFrom` says. On return every value is in `a`, and `b` and `conditions` are empty |
| SqlParsers.WherePasses | sql_parsers.py:23-48 | WHERE returns exactly when every token is a value or a typed operator and the first one is an operator |
| SqlParsers.WhereRejects | sql_parsers.py:23-48 | WHERE raises at the first token it does not accept: KeyError for an unknown operator, unsupported for other kinds. A leading value raises UnboundLocalError |
| SqlParsers.WhereLeadingValue | sql_parsers.py:23-48 | A value as the first token raises UnboundLocalError for `op`, whatever tokens follow |
| SqlParsers.WhereOfScannedStatement | sql_test.py:9-17 | The WHERE tokens of the test statement raise KeyError at the opening parenthesis |
| SqlParsers.WhereOfIdentifiers | sql_parsers.py:47-48 | An identifier in WHERE is unsupported |
| SqlConstants.Operators | sql_constants.py:6-27 | `SQL_OPERATORS`: the set of MySQL operators, with the repeated entries counted once |
| SqlConstants.OperatorTypes | sql_constants.py:32-45 | `SQL_OPERATOR_TYPES`: the twelve operators that have a type, each mapped to its type |
| SqlConstants.OperatorTranslation | sql_constants.py:74-192 | `SQL_OPERATOR_TRANSLATION` by operator type: whether an entry is None, a single template or a dictionary, and the dictionary's "mongodb" template when it has one |
| SqlConstants.OperatorSynonyms | sql_constants.py:32-45 | AND and &&, OR and \|\|, NOT and ! share their types |
| SqlConstants.OperatorTypeValues | sql_constants.py:32-45 | Every operator's type is one of nine type names |
| SqlConstants.OperatorTypeNames | sql_constants.py:32-45 | The operator types are exactly nine: the set of values of `SQL_OPERATOR_TYPES` equals the nine type names |
| SqlConstants.TypedOperatorsAreOperators | sql_constants.py:6-45 | Every typed operator is a MySQL operator |
| SqlConstants.OperatorTypesTranslated | sql_constants.py:32-192 | Every operator type has a translation entry |
| SqlConstants.OperatorTypesNonEmpty | sql_constants.py:32-45 | Every operator type is a non-empty string, so it is true as a condition |
| SqlConstants.MongoTemplate | sql_constants.py:74-192 | An operator type has a mongodb template exactly when its entry is a dictionary with a mongodb key |
| SqlConstants.MongoTemplates | sql_constants.py:107-171 | The mongodb templates of equality, logical_and and logical_or |
| SqlConstants.NoMongoNot | sql_constants.py:82-86 | logical_not has no mongodb template |
| SqlConstants.NoMongoComparisons | sql_constants.py:119-123 | The ordering comparisons and not_equal have no mongodb template |
| SqlConstants.OperatorMongoTemplates | sql_constants.py:32-192 | Of the operator types, exactly equality, logical_and and logical_or have a mongodb template |
| SqlConstants.LStrip | sql_constants.py:431 | `lstrip` never lengthens a string |
| SqlConstants.LStripSuffix | sql_constants.py:431 | `lstrip` removes the leading whitespace and nothing else |
| SqlConstants.RStrip | sql_constants.py:431 | `rstrip` never lengthens a string |
| SqlConstants.RStripPrefix | sql_constants.py:431 | `rstrip` removes the trailing whitespace and nothing else |
| SqlConstants.Strip | sql_constants.py:431 | `str.strip()`: `rstrip` applied to the result of `lstrip` |
| SqlConstants.StripTrims | sql_constants.py:431 | `strip` gives the infix between leading and trailing whitespace; it is empty or trimmed |
| SqlConstants.SplitLines | sql_constants.py:431 | No line of `splitlines` contains a line break |
| SqlConstants.LineLength | sql_constants.py:431 | The first line ends at the first line break, or at the end |
| SqlConstants.SplitJoinedLines | sql_constants.py:198-431 | Lines joined with newlines split back into the same lines |
| SqlConstants.StrippedNonBlank | sql_constants.py:431 | The keyword list has at most one entry per line |
| SqlConstants.StrippedNonBlankTrimmed | sql_constants.py:431 | Every keyword is non-empty and has no surrounding whitespace |
| SqlConstants.StrippedNonBlankAppend | sql_constants.py:431 | The keyword list is built line by line, in text order |
| SqlConstants.StrippedNonBlankLine | sql_constants.py:431 | A line contributes its stripped text, or nothing when blank |
| SqlConstants.Keywords | sql_constants.py:431 | `SQL_KEYWORDS`: the stripped, non-blank lines of the keyword text |
| SqlConstants.KeywordsTrimmed | sql_constants.py:431 | Every entry of `SQL_KEYWORDS` itself is non-empty and has no whitespace at either end |
| SqlConstants.Join | sql_constants.py:432 | `sep.join(items)`: the items with the separator between each pair |
| SqlConstants.KeywordsRegex | sql_constants.py:432 | `SQL_KEYWORDS_REGEX`: the keywords joined with "\|" |
| SqlConstants.Split | sql_constants.py:432 | `split` gives at least one part, none containing the separator |
| SqlConstants.FieldLength | sql_constants.py:432 | The first part ends at the first separator, or at the end |
| SqlConstants.SplitJoin | sql_constants.py:432 | Splitting a non-empty list of items at a separator they do not contain, after joining them with it, gives the items back |
| SqlConstants.SplitLinesAvoid | sql_constants.py:431 | A character absent from a text is absent from each of its lines |
| SqlConstants.StripAvoid | sql_constants.py:431 | `strip` keeps only characters of its input |
| SqlConstants.StrippedNonBlankAvoid | sql_constants.py:431 | The keyword list keeps only characters of its lines |
| SqlConstants.KeywordAlternatives | sql_constants.py:431-432 | For any keyword text without "\|" that yields at least one keyword, the regular expression built as the source builds it splits at "\|" back into exactly the keyword list, in order |

## Left out

- Socket I/O itself is a byte sequence in the model. Also left out: the listener, the `while True` session loop and the `print` statements (pysql.py:420, 432 and 448). Only one command's reply is modelled.
- `os.urandom(20)` is the `random` parameter of the greeting.
- `LoginRequestPacket` (pysql.py:120-149) is not part of this model. The session does not use it.
- The SQL scanner and the `SQLStatement` class are not part of this model. WHERE takes the tokens they would produce as input.
- `SQL_ESCAPED_OPERATORS` (sql_constants.py:49-70), and the "sql", "js" and "python" templates of `SQL_OPERATOR_TRANSLATION`, are not modelled. Only the "mongodb" entries are kept.
- SqlParsers.Where: the branch at sql_parsers.py:33-38 that formats a condition is unreachable, because `b` is never filled. It would read `SQL_OPERATOR_TRANSLATION`, which is never imported. The model proves the branch unreachable rather than modelling the lookup.
- Wire.FromSocket: a blocking `recv` that returns fewer bytes than asked on a live socket is not modelled. The model's reads are short only at the end of the input.
- Ast.Tree.AddNode: requires the new node to be distinct from the root, the last node and its parent. Inserting a node already in the tree, where Python aliasing would come into play, is not covered.
- SqlConstants.Keywords: the concrete list is not written out entry by entry, and no fact about the characters of the literal keyword text is proved (such as the absence of `|`): evaluating the 230-line text character by character inside such a proof is beyond the proof budget. Lemmas that only need the functions that build the list, such as `KeywordsTrimmed`, are proved for the list itself.
- SqlConstants.KeywordAlternatives: it is proved for any keyword text without "|" and with a keyword in it. It is not applied to the concrete text, for the same reason.
- Integers are packed at fixed widths, as the source does, so MySQL's length-coded integers and strings do not appear.

## Findings

| source | as written | input that shows it | evidently intended | confidence | as-written member | corrected member |
|---|---|---|---|---|---|---|
| ast.py:64 | `add_value` calls `add_node` without `self.`, which is not a name in scope, so it raises NameError | any call of `add_value` | `self.add_node(Node(item))` | high; not executed | Ast.Tree.AddValue | Ast.Tree.AddValueFixed |
| ast.py:108-111 | `refresh_depth` reads and assigns `node` and `parent`, which are not names in scope | any call of `refresh_depth` | `self.parent` and `self.depth` | high; not executed | Ast.Node.RefreshDepthAsWritten | Ast.Node.RefreshDepth |
| ast.py:49-52 | `add_op` splices `node`, which is not a name in scope; it was never bound after `Node(item)` at ast.py:21 | an `add_op` call whose `add_node` returns. No such call happens from a fresh `Tree()`: as written, `refresh_depth` raises first, and under the intended reading the tree is stuck after its first insert. The defect is latent | bind `node = Node(item)` before `self.add_node(node)` | high; not executed | Ast.Tree.AddOpAsWritten | Ast.Tree.AddOp |
