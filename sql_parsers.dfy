/**
 * The clause handlers of sql_parsers.py. Each takes the tokens of one clause,
 * `(type, value)` pairs, and returns the clause's query fragment or raises.
 */
module SqlParsers {
  import opened Wrappers
  import opened SqlConstants

  /** A scanner token `(token_type, token_value)`. */
  datatype Token = Token(kind: string, value: string)

  /** The exceptions the handlers raise. */
  datatype SqlError =
    | Unsupported(message: string)   // UnsupportedSQLExpression
    | IndexError                     // args[0] of an empty list
    | KeyError(key: string)          // an operator missing from SQL_OPERATOR_TYPES
    | UnboundLocal(name: string)     // `op` read before the first operator bound it

  /** A query fragment: a Python dict of strings. */
  type Fragment = map<string, string>

  /** `SELECT(args)`: only `*` alone is supported, and it selects every column. */
  function Select(args: seq<Token>): (r: Result<Fragment, SqlError>)
    ensures r.Success? <==> |args| == 1 && args[0].value == "*"
    ensures r.Success? ==> r.value == map[]
    ensures args == [] ==> r == Failure(IndexError)
    ensures args != [] && r.Failure? ==> r.error == Unsupported("Unsupported expression for SELECT")
  {
    if |args| == 0 then Failure(IndexError)
    else if args[0].value == "*" && |args| == 1 then Success(map[])
    else Failure(Unsupported("Unsupported expression for SELECT"))
  }

  /** `FROM(args)`: exactly one token, whose value names the table. */
  function From(args: seq<Token>): (r: Result<Fragment, SqlError>)
    ensures r.Success? <==> |args| == 1
    ensures r.Success? ==> r.value.Keys == {"table"} && r.value["table"] == args[0].value
    ensures r.Failure? ==> r.error == Unsupported("Unsupported expression for FROM")
  {
    if |args| == 1 then Success(map["table" := args[0].value])
    else Failure(Unsupported("Unsupported expression for FROM"))
  }

  /** What `WHERE` does with the tokens `args` once `op` holds the type of the last operator
      (`None` while it is unbound): an operator rebinds `op` or fails the lookup, a value needs
      `op` bound, and any other kind of token is unsupported. */
  function WhereFrom(args: seq<Token>, op: Option<string>): Outcome<SqlError>
  {
    if args == [] then Pass
    else
      var t := args[0];
      if t.kind == "operator" then
        if t.value in OperatorTypes then WhereFrom(args[1..], Some(OperatorTypes[t.value]))
        else Fail(KeyError(t.value))
      else if t.kind == "value" then
        if op.None? then Fail(UnboundLocal("op")) else WhereFrom(args[1..], op)
      else Fail(Unsupported("Unsupported expression for WHERE"))
  }

  /** The values of the value tokens, in order. */
  function Values(args: seq<Token>): seq<string>
  {
    if args == [] then []
    else
      var t := args[|args| - 1];
      Values(args[..|args| - 1]) + if t.kind == "value" then [t.value] else []
  }

  /** `WHERE(args)`, which returns None. `a`, `b` and `conditions` are its locals when it
      returns: every value lands in `a`, because the type `op` holds is never the empty
      string, so `b` and with it `conditions` stay empty. */
  method Where(args: seq<Token>) returns (r: Outcome<SqlError>, a: seq<string>, b: seq<string>, conditions: seq<string>)
    ensures r == WhereFrom(args, None)
    ensures r.Pass? ==> a == Values(args) && b == [] && conditions == []
  {
    a, b, conditions := [], [], [];
    var op: Option<string> := None;
    OperatorTypesNonEmpty();
    for i := 0 to |args|
      invariant WhereFrom(args, None) == WhereFrom(args[i..], op)
      invariant op.Some? ==> |op.value| > 0
      invariant a == Values(args[..i]) && b == [] && conditions == []
    {
      var t := args[i];
      assert args[i..][1..] == args[i + 1..];
      assert args[..i + 1][..i] == args[..i];
      if t.kind == "operator" {
        if b != [] {
          assert false;
        }
        if t.value !in OperatorTypes {
          r := Fail(KeyError(t.value));
          return;
        }
        op := Some(OperatorTypes[t.value]);
      } else if t.kind == "value" {
        if op.None? {
          r := Fail(UnboundLocal("op"));
          return;
        }
        if |op.value| > 0 {
          a := a + [t.value];
        } else {
          b := b + [t.value];
        }
      } else {
        r := Fail(Unsupported("Unsupported expression for WHERE"));
        return;
      }
    }
    assert args[..|args|] == args;
    r := Pass;
  }

  /** A token `WHERE` gets past once `op` is bound. */
  predicate Accepted(t: Token)
  {
    t.kind == "value" || (t.kind == "operator" && t.value in OperatorTypes)
  }

  /** The exception `WHERE` raises at a token it does not accept. */
  function Rejection(t: Token): SqlError
  {
    if t.kind == "operator" then KeyError(t.value) else Unsupported("Unsupported expression for WHERE")
  }

  lemma {:induction false} WhereFromBound(args: seq<Token>, op: Option<string>)
    requires op.Some? || args == [] || args[0].kind != "value"
    ensures WhereFrom(args, op).Pass? <==> forall i :: 0 <= i < |args| ==> Accepted(args[i])
  {
    if args != [] && Accepted(args[0]) {
      var op' := if args[0].kind == "operator" then Some(OperatorTypes[args[0].value]) else op;
      WhereFromBound(args[1..], op');
      assert forall i :: 1 <= i < |args| ==> args[i] == args[1..][i - 1];
    }
  }

  /** `WHERE` returns normally exactly when every token is a value or a known operator and
      the first one is an operator. */
  lemma WherePasses(args: seq<Token>)
    ensures WhereFrom(args, None).Pass? <==>
      (forall i :: 0 <= i < |args| ==> Accepted(args[i])) && (args != [] ==> args[0].kind == "operator")
  {
    if args == [] || args[0].kind != "value" {
      WhereFromBound(args, None);
    }
  }

  lemma {:induction false} WhereFromRejects(args: seq<Token>, op: Option<string>, k: nat)
    requires k < |args| && !Accepted(args[k])
    requires forall i :: 0 <= i < k ==> Accepted(args[i])
    requires op.Some? || args[0].kind != "value"
    ensures WhereFrom(args, op) == Fail(Rejection(args[k]))
  {
    if k > 0 {
      var op' := if args[0].kind == "operator" then Some(OperatorTypes[args[0].value]) else op;
      assert forall i :: 0 <= i < k - 1 ==> args[1..][i] == args[i + 1];
      WhereFromRejects(args[1..], op', k - 1);
    }
  }

  /** `WHERE` raises at the first token it does not accept: KeyError for an operator missing
      from `SQL_OPERATOR_TYPES`, UnsupportedSQLExpression for a token that is neither an
      operator nor a value (an identifier, say), and before that, an unbound `op` for a value
      that comes first. */
  lemma WhereRejects(args: seq<Token>, k: nat)
    requires k < |args| && !Accepted(args[k])
    requires forall i :: 0 <= i < k ==> Accepted(args[i])
    ensures args[0].kind == "value" ==> WhereFrom(args, None) == Fail(UnboundLocal("op"))
    ensures args[0].kind != "value" ==> WhereFrom(args, None) == Fail(Rejection(args[k]))
  {
    if args[0].kind != "value" {
      WhereFromRejects(args, None, k);
    }
  }

  /** A value as the first token raises UnboundLocalError for `op`, whatever follows it. */
  lemma WhereLeadingValue(args: seq<Token>)
    ensures args != [] && args[0].kind == "value" ==> WhereFrom(args, None) == Fail(UnboundLocal("op"))
  {
  }

  /** The WHERE clause of `SELECT ... WHERE (name='Jon') AND location = "manhattan";` as the
      scanner tokenises it: the opening parenthesis is an operator without a type. */
  lemma WhereOfScannedStatement()
    ensures WhereFrom([Token("operator", "("), Token("identifier", "name"), Token("operator", "="),
                       Token("value", "'Jon'"), Token("operator", ")"), Token("operator", "AND"),
                       Token("identifier", "location"), Token("operator", "="),
                       Token("value", "\"manhattan\""), Token("operator", ";")], None)
            == Fail(KeyError("("))
  {
  }

  /** Without the parentheses and the semicolon the clause still fails, at the identifier. */
  lemma WhereOfIdentifiers()
    ensures WhereFrom([Token("identifier", "name"), Token("operator", "="), Token("value", "'Jon'")], None)
            == Fail(Unsupported("Unsupported expression for WHERE"))
  {
  }
}
