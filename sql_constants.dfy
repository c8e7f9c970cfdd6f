/**
 * The constant tables of sql_constants.py: the MySQL operators, the operator
 * types `WHERE` looks operators up in, the "mongodb" templates of the
 * translation table, and the reserved-keyword list with its regular
 * expression.
 */
module SqlConstants {
  import opened Wrappers

  /** `SQL_OPERATORS`: every MySQL operator (a set, so the repeated "-" and "=" count once). */
  const Operators: set<string> := {
    "INTERVAL",
    "BINARY", "COLLATE",
    "!",
    "-", "~",
    "^",
    "*", "/", "DIV", "%", "MOD",
    "-", "+",
    "<<", ">>",
    "&",
    "|",
    "=", "<=>", ">=", ">", "<=", "<", "<>", "!=", "IS", "LIKE", "REGEXP", "IN",
    "BETWEEN", "CASE", "WHEN", "THEN", "ELSE",
    "NOT",
    "&&", "AND",
    "XOR",
    "||", "OR",
    "=", ":=",
    "(", ")",
    ".",
    ",", ";"
  }

  /** `SQL_OPERATOR_TYPES`: the operators grouped by meaning. */
  const OperatorTypes: map<string, string> := map[
    "AND" := "logical_and",
    "&&" := "logical_and",
    "OR" := "logical_or",
    "||" := "logical_or",
    "=" := "equality",
    "NOT" := "logical_not",
    "!" := "logical_not",
    ">=" := "greater_than_or_equal",
    ">" := "greater_than",
    "<=" := "less_than_or_equal",
    "<" := "less_than",
    "!=" := "not_equal"
  ]

  /** An entry of `SQL_OPERATOR_TRANSLATION`, keeping of its code templates only the
      "mongodb" one: `None`, a single template string, or a dictionary by language. */
  datatype Translation =
    | Untranslated
    | Plain
    | ByLanguage(mongodb: Option<string>)

  /** `SQL_OPERATOR_TRANSLATION`, by operator type. */
  const OperatorTranslation: map<string, Translation> := map[
    "interval" := ByLanguage(None),
    "binary" := Untranslated,
    "collate" := Untranslated,
    "logical_not" := ByLanguage(None),
    "unary_minus" := ByLanguage(None),
    "bitwise_inversion" := Plain,
    "exponential" := ByLanguage(None),
    "multiplication" := Plain,
    "division" := Plain,
    "modulo" := Plain,
    "subtraction" := Plain,
    "addition" := Plain,
    "bitwise_left_shift" := Plain,
    "bitwise_right_shift" := Plain,
    "bitwise_and" := Plain,
    "bitwise_or" := Plain,
    "equality" := ByLanguage(Some("{0}: {1}")),
    "null_safe_equality" := ByLanguage(None),
    "greater_than_or_equal" := Plain,
    "greater_than" := Plain,
    "less_than_or_equal" := Plain,
    "less_than" := Plain,
    "not_equal" := Plain,
    "is" := ByLanguage(None),
    "like" := ByLanguage(None),
    "regular_expression" := ByLanguage(None),
    "in" := ByLanguage(None),
    "between" := Untranslated,
    "case" := Untranslated,
    "when" := Untranslated,
    "then" := Untranslated,
    "else" := Untranslated,
    "logical_and" := ByLanguage(Some("{0}, {1}")),
    "xor" := ByLanguage(None),
    "logical_or" := ByLanguage(Some("$or: [{0}, {1}]")),
    "assignment" := ByLanguage(None),
    "parenthesis" := Plain,
    "parenthesis_open" := Plain,
    "parenthesis_close" := Plain,
    "member_accessor" := Plain,
    "double_quote" := Plain,
    "single_quote" := Plain,
    "identifier_quote" := ByLanguage(None),
    "end_statement" := Plain
  ]

  /** The "mongodb" template of an operator type, if it has one. */
  function MongoTemplate(opType: string): (t: Option<string>)
    ensures t.Some? <==>
      opType in OperatorTranslation && OperatorTranslation[opType].ByLanguage?
      && OperatorTranslation[opType].mongodb.Some?
  {
    if opType in OperatorTranslation && OperatorTranslation[opType].ByLanguage? then
      OperatorTranslation[opType].mongodb
    else None
  }

  /** The synonyms of `SQL_OPERATOR_TYPES`: AND and && are both logical_and, OR and || both
      logical_or, NOT and ! both logical_not. */
  lemma OperatorSynonyms()
    ensures OperatorTypes["AND"] == OperatorTypes["&&"] == "logical_and"
    ensures OperatorTypes["OR"] == OperatorTypes["||"] == "logical_or"
    ensures OperatorTypes["NOT"] == OperatorTypes["!"] == "logical_not"
  {
  }

  /** The nine operator types. */
  lemma OperatorTypeValues()
    ensures forall o :: o in OperatorTypes ==>
      OperatorTypes[o] in {"logical_and", "logical_or", "equality", "logical_not", "greater_than_or_equal",
                           "greater_than", "less_than_or_equal", "less_than", "not_equal"}
  {
  }

  /** The operator types are exactly these nine. */
  lemma OperatorTypeNames()
    ensures OperatorTypes.Values == {"logical_and", "logical_or", "equality", "logical_not", "greater_than_or_equal",
                                     "greater_than", "less_than_or_equal", "less_than", "not_equal"}
  {
    OperatorTypeValues();
    OperatorTypesUsed();
  }

  /** Each of the nine types is the type of some operator. */
  lemma OperatorTypesUsed()
    ensures "logical_and" in OperatorTypes.Values && "logical_or" in OperatorTypes.Values
    ensures "equality" in OperatorTypes.Values && "logical_not" in OperatorTypes.Values
    ensures "greater_than_or_equal" in OperatorTypes.Values && "greater_than" in OperatorTypes.Values
    ensures "less_than_or_equal" in OperatorTypes.Values && "less_than" in OperatorTypes.Values
    ensures "not_equal" in OperatorTypes.Values
  {
    assert OperatorTypes["AND"] in OperatorTypes.Values && OperatorTypes["OR"] in OperatorTypes.Values;
    assert OperatorTypes["="] in OperatorTypes.Values && OperatorTypes["NOT"] in OperatorTypes.Values;
    assert OperatorTypes[">="] in OperatorTypes.Values && OperatorTypes[">"] in OperatorTypes.Values;
    assert OperatorTypes["<="] in OperatorTypes.Values && OperatorTypes["<"] in OperatorTypes.Values;
    assert OperatorTypes["!="] in OperatorTypes.Values;
  }

  /** Every operator with a type is a MySQL operator. */
  lemma TypedOperatorsAreOperators()
    ensures forall o :: o in OperatorTypes ==> o in Operators
  {
  }

  /** Every operator type has an entry in the translation table. */
  lemma OperatorTypesTranslated()
    ensures forall o :: o in OperatorTypes ==> OperatorTypes[o] in OperatorTranslation
  {
    OperatorTypeValues();
  }

  /** Every operator type is a non-empty string, so it is true as a Python condition. */
  lemma OperatorTypesNonEmpty()
    ensures forall o :: o in OperatorTypes ==> |OperatorTypes[o]| > 0
  {
  }

  /** The "mongodb" templates of equality, logical_and and logical_or. */
  lemma MongoTemplates()
    ensures MongoTemplate("equality") == Some("{0}: {1}")
    ensures MongoTemplate("logical_and") == Some("{0}, {1}")
    ensures MongoTemplate("logical_or") == Some("$or: [{0}, {1}]")
  {
  }

  /** logical_not has a dictionary of templates without a "mongodb" key. */
  lemma NoMongoNot()
    ensures MongoTemplate("logical_not") == None
  {
  }

  /** The comparisons other than equality are single templates, not dictionaries. */
  lemma NoMongoComparisons()
    ensures MongoTemplate("greater_than_or_equal") == None && MongoTemplate("greater_than") == None
    ensures MongoTemplate("less_than_or_equal") == None && MongoTemplate("less_than") == None
    ensures MongoTemplate("not_equal") == None
  {
    assert OperatorTranslation["greater_than_or_equal"] == Plain;
    assert OperatorTranslation["greater_than"] == Plain;
    assert OperatorTranslation["less_than_or_equal"] == Plain;
    assert OperatorTranslation["less_than"] == Plain;
    assert OperatorTranslation["not_equal"] == Plain;
  }

  /** Of the operator types, only equality, logical_and and logical_or have a "mongodb"
      template. */
  lemma OperatorMongoTemplates()
    ensures forall o :: o in OperatorTypes ==>
      (MongoTemplate(OperatorTypes[o]).Some? <==> OperatorTypes[o] in {"equality", "logical_and", "logical_or"})
  {
    OperatorTypeValues();
    MongoTemplates();
    NoMongoNot();
    NoMongoComparisons();
  }

  /** Python 2 whitespace for `str.strip`. */
  predicate IsSpace(c: char)
  {
    c == ' ' || c == '\t' || c == '\n' || c == '\r' || c == '\U{000B}' || c == '\U{000C}'
  }

  predicate IsLineBreak(c: char)
  {
    c == '\n' || c == '\r'
  }

  /** A non-empty string with no whitespace at either end. */
  predicate Trimmed(x: string)
  {
    x != [] && !IsSpace(x[0]) && !IsSpace(x[|x| - 1])
  }

  /** A string with no line break in it. */
  predicate OneLine(x: string)
  {
    forall c :: c in x ==> !IsLineBreak(c)
  }

  /** `s.lstrip()`: `s` without its leading whitespace. */
  function LStrip(s: string): (r: string)
    ensures |r| <= |s|
  {
    if s != [] && IsSpace(s[0]) then LStrip(s[1..]) else s
  }

  /** `lstrip` removes a prefix of whitespace and leaves no whitespace in front. */
  lemma {:induction false} LStripSuffix(s: string)
    ensures var r := LStrip(s);
      && r == s[|s| - |r|..]
      && (forall i :: 0 <= i < |s| - |r| ==> IsSpace(s[i]))
      && (r == [] || !IsSpace(r[0]))
  {
    if s != [] && IsSpace(s[0]) {
      LStripSuffix(s[1..]);
      var r := LStrip(s[1..]);
      assert s[1..][|s| - 1 - |r|..] == s[|s| - |r|..];
      assert forall i :: 1 <= i < |s| - |r| ==> s[i] == s[1..][i - 1];
    }
  }

  /** `s.rstrip()`: `s` without its trailing whitespace. */
  function RStrip(s: string): (r: string)
    ensures |r| <= |s|
  {
    if s != [] && IsSpace(s[|s| - 1]) then RStrip(s[..|s| - 1]) else s
  }

  /** `rstrip` removes a suffix of whitespace and leaves no whitespace at the end. */
  lemma {:induction false} RStripPrefix(s: string)
    ensures var r := RStrip(s);
      && r == s[..|r|]
      && (forall i :: |r| <= i < |s| ==> IsSpace(s[i]))
      && (r == [] || !IsSpace(r[|r| - 1]))
  {
    if s != [] && IsSpace(s[|s| - 1]) {
      var t := s[..|s| - 1];
      RStripPrefix(t);
      var r := RStrip(t);
      assert t[..|r|] == s[..|r|];
      assert forall i :: |r| <= i < |t| ==> s[i] == t[i];
    }
  }

  /** `s.strip()`. */
  function Strip(s: string): string
  {
    RStrip(LStrip(s))
  }

  /** A stripped string is the infix of `s` that starts `i` characters in, with only
      whitespace before and after it in `s`, and none at its own ends. */
  lemma StripTrims(s: string)
    ensures var r, i := Strip(s), |s| - |LStrip(s)|;
      && i + |r| <= |s| && r == s[i..i + |r|]
      && (forall j :: 0 <= j < i ==> IsSpace(s[j]))
      && (forall j :: i + |r| <= j < |s| ==> IsSpace(s[j]))
      && (r == [] || Trimmed(r))
  {
    var l := LStrip(s);
    LStripSuffix(s);
    RStripPrefix(l);
    InfixOfSuffix(s, l, RStrip(l), |s| - |l|);
  }

  /** Where a prefix `r` of the suffix `l` of `s` that starts at `i` sits in `s`. */
  lemma InfixOfSuffix(s: string, l: string, r: string, i: nat)
    requires i <= |s| && l == s[i..] && |r| <= |l| && r == l[..|r|]
    ensures i + |r| <= |s| && r == s[i..i + |r|]
    ensures forall j :: i + |r| <= j < |s| ==> s[j] == l[j - i]
    ensures r != [] ==> r[0] == l[0]
  {
  }

  /** Python 2 `str.splitlines()`: the lines of `s` split at "\n", "\r" or "\r\n", without
      the line breaks; a final line break does not start an empty line. */
  function SplitLines(s: string): (lines: seq<string>)
    ensures forall k :: 0 <= k < |lines| ==> OneLine(lines[k])
    decreases |s|
  {
    if s == [] then []
    else
      var n := LineLength(s);
      var brk := if n < |s| && s[n] == '\r' && n + 1 < |s| && s[n + 1] == '\n' then 2
                 else if n < |s| then 1 else 0;
      [s[..n]] + SplitLines(s[n + brk..])
  }

  /** The length of the first line of `s`: the position of its first line break, or `|s|`. */
  function LineLength(s: string): (n: nat)
    ensures n <= |s| && (n < |s| ==> IsLineBreak(s[n]))
    ensures OneLine(s[..n])
  {
    if s == [] || IsLineBreak(s[0]) then 0
    else
      var n := LineLength(s[1..]);
      assert s[..n + 1] == [s[0]] + s[1..][..n];
      n + 1
  }

  /** Joining lines with "\n" between them and splitting them again gives the lines back. */
  lemma {:induction false} SplitJoinedLines(lines: seq<string>)
    requires forall k :: 0 <= k < |lines| ==> OneLine(lines[k])
    ensures SplitLines(JoinLines(lines)) == lines
  {
    if lines != [] {
      var s := JoinLines(lines);
      var tail := JoinLines(lines[1..]);
      assert s == lines[0] + ("\n" + tail);
      LineLengthAt(lines[0], "\n" + tail);
      assert s[|lines[0]|] == '\n';
      assert s[..|lines[0]|] == lines[0];
      assert s[|lines[0]| + 1..] == tail;
      SplitJoinedLines(lines[1..]);
    }
  }

  /** Each line followed by "\n". */
  function JoinLines(lines: seq<string>): string
  {
    if lines == [] then "" else lines[0] + "\n" + JoinLines(lines[1..])
  }

  lemma {:induction false} LineLengthAt(line: string, rest: string)
    requires OneLine(line)
    requires rest != [] && IsLineBreak(rest[0])
    ensures LineLength(line + rest) == |line|
  {
    if line != [] {
      assert (line + rest)[1..] == line[1..] + rest;
      LineLengthAt(line[1..], rest);
    } else {
      assert line + rest == rest;
    }
  }

  /** `[x.strip() for x in lines if x.strip()]`. */
  function StrippedNonBlank(lines: seq<string>): (ks: seq<string>)
    ensures |ks| <= |lines|
  {
    if lines == [] then []
    else if Strip(lines[0]) != [] then [Strip(lines[0])] + StrippedNonBlank(lines[1..])
    else StrippedNonBlank(lines[1..])
  }

  /** No entry of the list is empty or has whitespace at either end. */
  lemma {:induction false} StrippedNonBlankTrimmed(lines: seq<string>)
    ensures forall k :: 0 <= k < |StrippedNonBlank(lines)| ==> Trimmed(StrippedNonBlank(lines)[k])
  {
    if lines != [] {
      StripTrims(lines[0]);
      StrippedNonBlankTrimmed(lines[1..]);
    }
  }

  /** Keeping the stripped non-blank lines works line by line: the list for `a + b` is the
      list for `a` followed by the list for `b`, so the keywords keep the order of the text. */
  lemma {:induction false} StrippedNonBlankAppend(a: seq<string>, b: seq<string>)
    ensures StrippedNonBlank(a + b) == StrippedNonBlank(a) + StrippedNonBlank(b)
  {
    if a != [] {
      assert (a + b)[0] == a[0];
      assert (a + b)[1..] == a[1..] + b;
      StrippedNonBlankAppend(a[1..], b);
    } else {
      assert a + b == b;
    }
  }

  /** A single line contributes its stripped text, or nothing when it is blank. */
  lemma StrippedNonBlankLine(line: string)
    ensures StrippedNonBlank([line]) == if Strip(line) != [] then [Strip(line)] else []
  {
    assert [line][1..] == [];
  }

  /** The keyword list of the MySQL 5.5 reserved words, one per line. */
  const KeywordText: string := @"
ACCESSIBLE
ADD
ALL
ALTER
ANALYZE
AND
AS
ASC
ASENSITIVE
BEFORE
BETWEEN
BIGINT
BINARY
BLOB
BOTH
BY
CALL
CASCADE
CASE
CHANGE
CHAR
CHARACTER
CHECK
COLLATE
COLUMN
CONDITION
CONSTRAINT
CONTINUE
CONVERT
CREATE
CROSS
CURRENT_DATE
CURRENT_TIME
CURRENT_TIMESTAMP
CURRENT_USER
CURSOR
DATABASE
DATABASES
DAY_HOUR
DAY_MICROSECOND
DAY_MINUTE
DAY_SECOND
DEC
DECIMAL
DECLARE
DEFAULT
DELAYED
DELETE
DESC
DESCRIBE
DETERMINISTIC
DISTINCT
DISTINCTROW
DIV
DOUBLE
DROP
DUAL
EACH
ELSE
ELSEIF
ENCLOSED
ESCAPED
EXISTS
EXIT
EXPLAIN
FALSE
FETCH
FLOAT
FLOAT4
FLOAT8
FOR
FORCE
FOREIGN
FROM
FULLTEXT
GENERAL[a]
GRANT
GROUP
HAVING
HIGH_PRIORITY
HOUR_MICROSECOND
HOUR_MINUTE
HOUR_SECOND
IF
IGNORE
IGNORE_SERVER_IDS[b]
IN
INDEX
INFILE
INNER
INOUT
INSENSITIVE
INSERT
INT
INT1
INT2
INT3
INT4
INT8
INTEGER
INTERVAL
INTO
IS
ITERATE
JOIN
KEY
KEYS
KILL
LEADING
LEAVE
LEFT
LIKE
LIMIT
LINEAR
LINES
LOAD
LOCALTIME
LOCALTIMESTAMP
LOCK
LONG
LONGBLOB
LONGTEXT
LOOP
LOW_PRIORITY
MASTER_HEARTBEAT_PERIOD[c]
MASTER_SSL_VERIFY_SERVER_CERT
MATCH
MAXVALUE
MEDIUMBLOB
MEDIUMINT
MEDIUMTEXT
MIDDLEINT
MINUTE_MICROSECOND
MINUTE_SECOND
MOD
MODIFIES
NATURAL
NOT
NO_WRITE_TO_BINLOG
NULL
NUMERIC
ON
OPTIMIZE
OPTION
OPTIONALLY
OR
ORDER
OUT
OUTER
OUTFILE
PRECISION
PRIMARY
PROCEDURE
PURGE
RANGE
READ
READS
READ_WRITE
REAL
REFERENCES
REGEXP
RELEASE
RENAME
REPEAT
REPLACE
REQUIRE
RESIGNAL
RESTRICT
RETURN
REVOKE
RIGHT
RLIKE
SCHEMA
SCHEMAS
SECOND_MICROSECOND
SELECT
SENSITIVE
SEPARATOR
SET
SHOW
SIGNAL
SLOW[d]
SMALLINT
SPATIAL
SPECIFIC
SQL
SQLEXCEPTION
SQLSTATE
SQLWARNING
SQL_BIG_RESULT
SQL_CALC_FOUND_ROWS
SQL_SMALL_RESULT
SSL
STARTING
STRAIGHT_JOIN
TABLE
TERMINATED
THEN
TINYBLOB
TINYINT
TINYTEXT
TO
TRAILING
TRIGGER
TRUE
UNDO
UNION
UNIQUE
UNLOCK
UNSIGNED
UPDATE
USAGE
USE
USING
UTC_DATE
UTC_TIME
UTC_TIMESTAMP
VALUES
VARBINARY
VARCHAR
VARCHARACTER
VARYING
WHEN
WHERE
WHILE
WITH
WRITE
XOR
YEAR_MONTH
ZEROFILL
"

  /** `SQL_KEYWORDS`. */
  const Keywords: seq<string> := StrippedNonBlank(SplitLines(KeywordText))

  /** Every entry of `SQL_KEYWORDS` is non-empty and has no whitespace at either end. */
  lemma KeywordsTrimmed()
    ensures forall k :: 0 <= k < |Keywords| ==> Trimmed(Keywords[k])
  {
    StrippedNonBlankTrimmed(SplitLines(KeywordText));
  }

  /** `sep.join(items)`. */
  function Join(items: seq<string>, sep: char): string
  {
    if items == [] then ""
    else if |items| == 1 then items[0]
    else items[0] + [sep] + Join(items[1..], sep)
  }

  /** `SQL_KEYWORDS_REGEX`: the keywords as alternatives of one regular expression. */
  const KeywordsRegex: string := Join(Keywords, '|')

  /** `s.split(sep)`. */
  function Split(s: string, sep: char): (parts: seq<string>)
    ensures |parts| > 0
    ensures forall k :: 0 <= k < |parts| ==> sep !in parts[k]
    decreases |s|
  {
    var n := FieldLength(s, sep);
    if n == |s| then [s] else [s[..n]] + Split(s[n + 1..], sep)
  }

  /** The position of the first `sep` in `s`, or `|s|`. */
  function FieldLength(s: string, sep: char): (n: nat)
    ensures n <= |s| && (n < |s| ==> s[n] == sep) && sep !in s[..n]
  {
    if s == [] || s[0] == sep then 0
    else
      var n := FieldLength(s[1..], sep);
      assert s[..n + 1] == [s[0]] + s[1..][..n];
      n + 1
  }

  lemma {:induction false} FieldLengthAt(item: string, sep: char, rest: string)
    requires sep !in item && (rest == [] || rest[0] == sep)
    ensures FieldLength(item + rest, sep) == |item|
  {
    if item != [] {
      assert (item + rest)[1..] == item[1..] + rest;
      FieldLengthAt(item[1..], sep, rest);
    } else {
      assert item + rest == rest;
    }
  }

  /** Splitting a non-empty list of items free of the separator, joined with it, gives the
      items back: the regular expression holds each keyword as one alternative, in order. */
  lemma {:induction false} SplitJoin(items: seq<string>, sep: char)
    requires items != [] && forall k :: 0 <= k < |items| ==> sep !in items[k]
    ensures Split(Join(items, sep), sep) == items
  {
    var s := Join(items, sep);
    if |items| == 1 {
      FieldLengthAt(items[0], sep, []);
      assert items[0] + [] == items[0];
    } else {
      var tail := Join(items[1..], sep);
      assert s == items[0] + ([sep] + tail);
      FieldLengthAt(items[0], sep, [sep] + tail);
      var n := |items[0]|;
      assert s[..n] == items[0];
      assert s[n + 1..] == tail;
      assert Split(s, sep) == [items[0]] + Split(tail, sep);
      SplitJoin(items[1..], sep);
    }
  }
  /** A character absent from the text is absent from every line `splitlines` gives. */
  lemma {:induction false} SplitLinesAvoid(s: string, sep: char)
    requires sep !in s
    ensures forall k :: 0 <= k < |SplitLines(s)| ==> sep !in SplitLines(s)[k]
    decreases |s|
  {
    if s != [] {
      var n := LineLength(s);
      var brk := if n < |s| && s[n] == '\r' && n + 1 < |s| && s[n + 1] == '\n' then 2
                 else if n < |s| then 1 else 0;
      var tail := s[n + brk..];
      assert forall i :: 0 <= i < n ==> s[..n][i] == s[i];
      assert forall i :: 0 <= i < |tail| ==> tail[i] == s[n + brk + i];
      SplitLinesAvoid(tail, sep);
      var lines, rest := SplitLines(s), SplitLines(tail);
      assert lines == [s[..n]] + rest;
      forall k | 0 <= k < |lines| ensures sep !in lines[k] {
        if k > 0 {
          assert lines[k] == rest[k - 1];
        }
      }
    }
  }

  /** `strip` keeps only characters of its input. */
  lemma StripAvoid(s: string, sep: char)
    requires sep !in s
    ensures sep !in Strip(s)
  {
    StripTrims(s);
    var r, i := Strip(s), |s| - |LStrip(s)|;
    assert forall j :: 0 <= j < |r| ==> r[j] == s[i + j];
  }

  lemma {:induction false} StrippedNonBlankAvoid(lines: seq<string>, sep: char)
    requires forall k :: 0 <= k < |lines| ==> sep !in lines[k]
    ensures forall k :: 0 <= k < |StrippedNonBlank(lines)| ==> sep !in StrippedNonBlank(lines)[k]
  {
    if lines != [] {
      StripAvoid(lines[0], sep);
      assert forall k :: 0 <= k < |lines| - 1 ==> lines[1..][k] == lines[k + 1];
      StrippedNonBlankAvoid(lines[1..], sep);
    }
  }

  /** `SQL_KEYWORDS_REGEX` built from any keyword text without a "|" and with at least one
      keyword splits at "|" back into exactly the keyword list, in order: each keyword is one
      alternative of the regular expression. */
  lemma KeywordAlternatives(text: string)
    requires '|' !in text && StrippedNonBlank(SplitLines(text)) != []
    ensures var ks := StrippedNonBlank(SplitLines(text));
      Split(Join(ks, '|'), '|') == ks
  {
    SplitLinesAvoid(text, '|');
    StrippedNonBlankAvoid(SplitLines(text), '|');
    SplitJoin(StrippedNonBlank(SplitLines(text)), '|');
  }
}
