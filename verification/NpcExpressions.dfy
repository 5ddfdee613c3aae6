/** Arithmetic in NPC scripts (`BehaviourDatabase::readValue`, `readFactor`), over the
    tokens of a script. */
module NpcExpressions {
  import opened Options

  datatype Token = IDENTIFIER(text: string) | NUMBER(number: nat) | STRING(text: string) | SPECIAL(special: char)

  datatype Operator = BEHAVIOUR_OPERATOR_MULTIPLY | BEHAVIOUR_OPERATOR_SUM | BEHAVIOUR_OPERATOR_RES

  /** What an expression becomes. */
  datatype Node =
    | Number(number: int)
    | Text(text: string)
    | MessageCount(number: int)
    | Property(name: string)
    | Call1(name: string, left: Node)
    | Call2(name: string, left: Node, right: Node)
    | Operation(op: Operator, left: Node, right: Node)

  const PROPERTIES: set<string> :=
    {"topic", "price", "type", "string", "data", "amount", "countmoney", "hp", "burning", "level", "poison", "balance"}

  const CALLS1: set<string> := {"spellknown", "spelllevel", "questvalue", "count"}

  const CALLS2: set<string> := {"random"}

  function LowerChar(c: char): char {
    if 'A' <= c <= 'Z' then (c as int + 32) as char else c
  }

  function Lower(s: string): string {
    seq(|s|, i requires 0 <= i < |s| => LowerChar(s[i]))
  }

  // ---- the grammar --------------------------------------------------------------------------

  function Symbol(op: Operator): char {
    match op
    case BEHAVIOUR_OPERATOR_MULTIPLY => '*'
    case BEHAVIOUR_OPERATOR_SUM => '+'
    case BEHAVIOUR_OPERATOR_RES => '-'
  }

  predicate IsAdditive(op: Operator) { op != BEHAVIOUR_OPERATOR_MULTIPLY }

  /** A single value; the arguments of a call are whole chains. */
  predicate IsValue(e: Node)
    decreases e, 0
  {
    match e
    case Number(n) => n >= 0
    case Text(s) => Lower(s) == s
    case MessageCount(_) => true
    case Property(name) => name in PROPERTIES && Lower(name) == name
    case Call1(name, left) => name in CALLS1 && Lower(name) == name && IsChain(left)
    case Call2(name, left, right) => name in CALLS2 && Lower(name) == name && IsChain(left) && IsChain(right)
    case Operation(_, _, _) => false
  }

  predicate IsProduct(e: Node)
    decreases e, 1
  {
    IsValue(e) || (e.Operation? && e.op == BEHAVIOUR_OPERATOR_MULTIPLY && IsProduct(e.left) && IsValue(e.right))
  }

  /** A product chain, then a chain of sums and differences of single values. */
  predicate IsChain(e: Node)
    decreases e, 2
  {
    IsProduct(e) || (e.Operation? && IsAdditive(e.op) && IsChain(e.left) && IsValue(e.right))
  }

  /** The expression as it is written. */
  function Tokens(e: Node): seq<Token> {
    match e
    case Number(n) => [NUMBER(if n >= 0 then n else 0)]
    case Text(s) => [STRING(s)]
    case MessageCount(n) => if n >= 0 then [SPECIAL('%'), NUMBER(n)] else [SPECIAL('%'), SPECIAL('-'), NUMBER(-n)]
    case Property(name) => [IDENTIFIER(name)]
    case Call1(name, left) => [IDENTIFIER(name), SPECIAL('(')] + (Tokens(left) + [SPECIAL(')')])
    case Call2(name, left, right) =>
      [IDENTIFIER(name), SPECIAL('(')] + (Tokens(left) + ([SPECIAL(',')] + (Tokens(right) + [SPECIAL(')')])))
    case Operation(op, left, right) => Tokens(left) + ([SPECIAL(Symbol(op))] + Tokens(right))
  }

  // ---- the reader -----------------------------------------------------------------------------

  type Reading = Option<(Node, seq<Token>)>

  predicate Starts(ts: seq<Token>, c: char) {
    ts != [] && ts[0] == SPECIAL(c)
  }

  /** `readNumber`: an optional minus and a number. */
  function ReadNumber(ts: seq<Token>): (r: Option<(int, seq<Token>)>)
    ensures r.Some? ==> |r.value.1| < |ts|
  {
    if ts != [] && ts[0].NUMBER? then
      var n: int := ts[0].number; Some((n, ts[1..]))
    else if |ts| >= 2 && Starts(ts, '-') && ts[1].NUMBER? then
      var n: int := 0 - ts[1].number; Some((n, ts[2..]))
    else None
  }

  /** `readValue`; an error in the script ends the reading. */
  function ReadValue(ts: seq<Token>): (r: Reading)
    ensures r.Some? ==> |r.value.1| < |ts|
    decreases |ts|, 0
  {
    if ts == [] then None
    else
      match ts[0]
      case NUMBER(n) => Some((Number(n), ts[1..]))
      case STRING(s) => Some((Text(Lower(s)), ts[1..]))
      case SPECIAL(c) =>
        if c != '%' || ReadNumber(ts[1..]).None? then None
        else Some((MessageCount(ReadNumber(ts[1..]).value.0), ReadNumber(ts[1..]).value.1))
      case IDENTIFIER(text) =>
        var name := Lower(text);
        if name in PROPERTIES then Some((Property(name), ts[1..]))
        else if name in CALLS1 then ReadCall1(name, ts[1..])
        else if name in CALLS2 then ReadCall2(name, ts[1..])
        else None
  }

  function ReadCall1(name: string, ts: seq<Token>): (r: Reading)
    ensures r.Some? ==> |r.value.1| <= |ts|
    decreases |ts|, 3
  {
    if !Starts(ts, '(') then None
    else
      var left := ReadExpression(ts[1..]);
      if left.None? || !Starts(left.value.1, ')') then None
      else Some((Call1(name, left.value.0), left.value.1[1..]))
  }

  function ReadCall2(name: string, ts: seq<Token>): (r: Reading)
    ensures r.Some? ==> |r.value.1| <= |ts|
    decreases |ts|, 3
  {
    if !Starts(ts, '(') then None
    else
      var left := ReadExpression(ts[1..]);
      if left.None? || !Starts(left.value.1, ',') then None
      else
        var right := ReadExpression(left.value.1[1..]);
        if right.None? || !Starts(right.value.1, ')') then None
        else Some((Call2(name, left.value.0, right.value.0), right.value.1[1..]))
  }

  /** `readValue` and `readFactor`, as every user of expressions calls them. */
  function ReadExpression(ts: seq<Token>): (r: Reading)
    ensures r.Some? ==> |r.value.1| < |ts|
    decreases |ts|, 2
  {
    var v := ReadValue(ts);
    if v.None? then None else ReadFactor(v.value.1, v.value.0)
  }

  /** `readFactor`: first every `*`, then every `+` and `-`. */
  function ReadFactor(ts: seq<Token>, node: Node): (r: Reading)
    ensures r.Some? ==> |r.value.1| <= |ts|
    decreases |ts|, 2
  {
    if Starts(ts, '*') then
      var v := ReadValue(ts[1..]);
      if v.None? then None else ReadFactor(v.value.1, Operation(BEHAVIOUR_OPERATOR_MULTIPLY, node, v.value.0))
    else ReadSums(ts, node)
  }

  function ReadSums(ts: seq<Token>, node: Node): (r: Reading)
    ensures r.Some? ==> |r.value.1| <= |ts|
    decreases |ts|, 1
  {
    if Starts(ts, '+') || Starts(ts, '-') then
      var v := ReadValue(ts[1..]);
      if v.None? then None
      else
        var op := if Starts(ts, '-') then BEHAVIOUR_OPERATOR_RES else BEHAVIOUR_OPERATOR_SUM;
        ReadSums(v.value.1, Operation(op, node, v.value.0))
    else Some((node, ts))
  }

  // ---- reading undoes writing ---------------------------------------------------------------------

  /** How the reading goes on behind a chain: a product may still be multiplied, a sum not. */
  function Onward(e: Node, rest: seq<Token>): Reading {
    if IsProduct(e) then ReadFactor(rest, e) else ReadSums(rest, e)
  }

  lemma {:induction false} ValueReads(e: Node, rest: seq<Token>)
    requires IsValue(e)
    ensures ReadValue(Tokens(e) + rest) == Some((e, rest))
    decreases e, 1
  {
    match e
    case Number(_) => assert (Tokens(e) + rest)[1..] == rest;
    case Text(_) => assert (Tokens(e) + rest)[1..] == rest;
    case MessageCount(n) => CountReads(n, rest);
    case Property(_) => assert (Tokens(e) + rest)[1..] == rest;
    case Call1(_, _) => CallReads1(e, rest);
    case Call2(_, _, _) => CallReads2(e, rest);
  }

  lemma CountReads(n: int, rest: seq<Token>)
    ensures ReadValue(Tokens(MessageCount(n)) + rest) == Some((MessageCount(n), rest))
  {
    var ts := Tokens(MessageCount(n)) + rest;
    if n >= 0 {
      assert ts[1..] == [NUMBER(n)] + rest && ts[1..][1..] == rest;
    } else {
      assert ts[1..] == [SPECIAL('-'), NUMBER(-n)] + rest && ts[1..][2..] == rest;
    }
  }

  lemma Stops(e: Node, rest: seq<Token>)
    requires !Starts(rest, '+') && !Starts(rest, '-') && (IsProduct(e) ==> !Starts(rest, '*'))
    ensures Onward(e, rest) == Some((e, rest))
  {
    assert ReadSums(rest, e) == Some((e, rest));
  }

  lemma NameReads(name: string, ts: seq<Token>)
    requires Lower(name) == name
    ensures name in CALLS1 ==> ReadValue([IDENTIFIER(name)] + ts) == ReadCall1(name, ts)
    ensures name in CALLS2 ==> ReadValue([IDENTIFIER(name)] + ts) == ReadCall2(name, ts)
  {
    assert ([IDENTIFIER(name)] + ts)[1..] == ts;
  }

  lemma {:induction false} CallReads1(e: Node, rest: seq<Token>)
    requires IsValue(e) && e.Call1?
    ensures ReadValue(Tokens(e) + rest) == Some((e, rest))
    decreases e, 0
  {
    var inner := [SPECIAL(')')] + rest;
    ChainReads(e.left, inner);
    Stops(e.left, inner);
    var ts := [SPECIAL('(')] + (Tokens(e.left) + inner);
    assert Tokens(e) + rest == [IDENTIFIER(e.name)] + ts;
    NameReads(e.name, ts);
    Call1Parts(e.name, e.left, ts, inner, rest);
  }

  lemma Call1Parts(name: string, left: Node, ts: seq<Token>, inner: seq<Token>, rest: seq<Token>)
    requires inner == [SPECIAL(')')] + rest && ts == [SPECIAL('(')] + (Tokens(left) + inner)
    requires ReadExpression(Tokens(left) + inner) == Some((left, inner))
    ensures ReadCall1(name, ts) == Some((Call1(name, left), rest))
  {
    assert ts[1..] == Tokens(left) + inner && inner[1..] == rest;
  }

  lemma {:induction false} CallReads2(e: Node, rest: seq<Token>)
    requires IsValue(e) && e.Call2?
    ensures ReadValue(Tokens(e) + rest) == Some((e, rest))
    decreases e, 0
  {
    var inner2 := [SPECIAL(')')] + rest;
    var inner1 := [SPECIAL(',')] + (Tokens(e.right) + inner2);
    ChainReads(e.right, inner2);
    Stops(e.right, inner2);
    ChainReads(e.left, inner1);
    Stops(e.left, inner1);
    var ts := [SPECIAL('(')] + (Tokens(e.left) + inner1);
    Call2Tokens(e, rest, inner1, inner2);
    NameReads(e.name, ts);
    Call2Parts(e.name, e.left, e.right, ts, inner1, inner2, rest);
  }

  lemma Call2Tokens(e: Node, rest: seq<Token>, inner1: seq<Token>, inner2: seq<Token>)
    requires e.Call2? && inner2 == [SPECIAL(')')] + rest && inner1 == [SPECIAL(',')] + (Tokens(e.right) + inner2)
    ensures Tokens(e) + rest == [IDENTIFIER(e.name)] + ([SPECIAL('(')] + (Tokens(e.left) + inner1))
  {
    var l, r := Tokens(e.left), Tokens(e.right);
    assert [SPECIAL(',')] + (r + [SPECIAL(')')]) + rest == inner1;
    assert l + ([SPECIAL(',')] + (r + [SPECIAL(')')])) + rest == l + inner1;
  }

  lemma Call2Parts(name: string, left: Node, right: Node, ts: seq<Token>, inner1: seq<Token>,
                   inner2: seq<Token>, rest: seq<Token>)
    requires inner2 == [SPECIAL(')')] + rest && inner1 == [SPECIAL(',')] + (Tokens(right) + inner2)
    requires ts == [SPECIAL('(')] + (Tokens(left) + inner1)
    requires ReadExpression(Tokens(left) + inner1) == Some((left, inner1))
    requires ReadExpression(Tokens(right) + inner2) == Some((right, inner2))
    ensures ReadCall2(name, ts) == Some((Call2(name, left, right), rest))
  {
    assert ts[1..] == Tokens(left) + inner1 && inner1[1..] == Tokens(right) + inner2 && inner2[1..] == rest;
  }

  lemma {:induction false} ChainReads(e: Node, rest: seq<Token>)
    requires IsChain(e)
    ensures ReadExpression(Tokens(e) + rest) == Onward(e, rest)
    decreases e, 2
  {
    if !e.Operation? {
      ValueReads(e, rest);
    } else {
      ChainParts(e);
      var next := [SPECIAL(Symbol(e.op))] + (Tokens(e.right) + rest);
      assert Tokens(e) + rest == Tokens(e.left) + next;
      ChainReads(e.left, next);
      ValueReads(e.right, rest);
      OperatorReads(e, rest, next);
    }
  }

  /** The parts of an operation in a chain. */
  lemma ChainParts(e: Node)
    requires IsChain(e) && e.Operation?
    ensures !IsValue(e) && IsValue(e.right)
    ensures IsAdditive(e.op) ==> !IsProduct(e) && IsChain(e.left)
    ensures !IsAdditive(e.op) ==> IsProduct(e) && IsProduct(e.left) && IsChain(e.left)
  {
  }

  lemma OperatorReads(e: Node, rest: seq<Token>, next: seq<Token>)
    requires IsChain(e) && e.Operation? && next == [SPECIAL(Symbol(e.op))] + (Tokens(e.right) + rest)
    requires ReadValue(Tokens(e.right) + rest) == Some((e.right, rest))
    ensures Onward(e.left, next) == Onward(e, rest)
  {
    ChainParts(e);
    assert next[1..] == Tokens(e.right) + rest;
    assert e == Operation(e.op, e.left, e.right);
    if IsAdditive(e.op) {
      assert ReadSums(next, e.left) == ReadSums(rest, e);
      assert Onward(e.left, next) == ReadSums(next, e.left);
    } else {
      assert ReadFactor(next, e.left) == ReadFactor(rest, e);
    }
  }

  /** What follows an expression that has been read cannot carry it on. A sum is not carried
      on by a `*`. */
  predicate EndsBefore(e: Node, rest: seq<Token>) {
    !Starts(rest, '+') && !Starts(rest, '-') && (IsProduct(e) ==> !Starts(rest, '*'))
  }

  /** For every expression of the accepted shape, whatever follows that cannot continue it:
      reading takes exactly its tokens and gives back the expression. */
  lemma ExpressionReads(e: Node, rest: seq<Token>)
    requires IsChain(e) && EndsBefore(e, rest)
    ensures ReadExpression(Tokens(e) + rest) == Some((e, rest))
  {
    ChainReads(e, rest);
    Stops(e, rest);
  }

  // ---- nothing else is read ---------------------------------------------------------------------

  lemma {:induction false} LowerTwice(s: string)
    ensures Lower(Lower(s)) == Lower(s)
  {
  }

  /** Whatever the tokens, a value that is read is of the accepted shape. */
  lemma {:induction false} ValueIsRead(ts: seq<Token>)
    ensures ReadValue(ts).Some? ==> IsValue(ReadValue(ts).value.0)
    decreases |ts|, 0
  {
    if ts != [] && ts[0].STRING? {
      LowerTwice(ts[0].text);
    } else if ts != [] && ts[0].IDENTIFIER? {
      LowerTwice(ts[0].text);
      var after := ts[1..];
      if Starts(after, '(') {
        ExpressionIsRead(after[1..]);
        var left := ReadExpression(after[1..]);
        if left.Some? && Starts(left.value.1, ',') { ExpressionIsRead(left.value.1[1..]); }
      }
    }
  }

  /** Whatever the tokens, an expression that is read is of the accepted shape, and is read
      as far as it goes. */
  lemma {:induction false} ExpressionIsRead(ts: seq<Token>)
    ensures var r := ReadExpression(ts); r.Some? ==> IsChain(r.value.0) && EndsBefore(r.value.0, r.value.1)
    decreases |ts|, 2
  {
    ValueIsRead(ts);
    var v := ReadValue(ts);
    if v.Some? { FactorIsRead(v.value.1, v.value.0); }
  }

  lemma {:induction false} FactorIsRead(ts: seq<Token>, node: Node)
    requires IsProduct(node)
    ensures var r := ReadFactor(ts, node); r.Some? ==> IsChain(r.value.0) && EndsBefore(r.value.0, r.value.1)
    decreases |ts|, 2
  {
    if Starts(ts, '*') {
      ValueIsRead(ts[1..]);
      var v := ReadValue(ts[1..]);
      if v.Some? { FactorIsRead(v.value.1, Operation(BEHAVIOUR_OPERATOR_MULTIPLY, node, v.value.0)); }
    } else {
      SumsAreRead(ts, node);
    }
  }

  lemma {:induction false} SumsAreRead(ts: seq<Token>, node: Node)
    requires IsChain(node) && (IsProduct(node) ==> !Starts(ts, '*'))
    ensures var r := ReadSums(ts, node); r.Some? ==> IsChain(r.value.0) && EndsBefore(r.value.0, r.value.1)
    decreases |ts|, 1
  {
    if Starts(ts, '+') || Starts(ts, '-') {
      ValueIsRead(ts[1..]);
      var v := ReadValue(ts[1..]);
      if v.Some? {
        var op := if Starts(ts, '-') then BEHAVIOUR_OPERATOR_RES else BEHAVIOUR_OPERATOR_SUM;
        var next := Operation(op, node, v.value.0);
        assert !IsValue(next) && IsChain(next);
        SumsAreRead(v.value.1, next);
      }
    }
  }

  /** For every expression, of any shape, and whatever follows: reading gives it back with
      exactly what follows left over if and only if it is a chain that ends there. */
  lemma ExpressionReadsExactly(e: Node, rest: seq<Token>)
    ensures ReadExpression(Tokens(e) + rest) == Some((e, rest)) <==> IsChain(e) && EndsBefore(e, rest)
  {
    ExpressionIsRead(Tokens(e) + rest);
    if IsChain(e) && EndsBefore(e, rest) { ExpressionReads(e, rest); }
  }

  /** A product after a sum is outside the accepted shape: however long the sum and the
      product, the product is left unread. */
  lemma ProductAfterSum(e: Node, rest: seq<Token>)
    requires IsChain(e) && !IsProduct(e) && Starts(rest, '*')
    ensures ReadExpression(Tokens(e) + rest) == Some((e, rest))
  {
    ExpressionReads(e, rest);
  }

  // ---- the script reader ----------------------------------------------------------------------------

  class Script {
    const tokens: seq<Token>
    var pos: nat

    ghost predicate Valid() reads this { pos <= |tokens| }

    ghost function Rest(): seq<Token> reads this requires Valid() { tokens[pos..] }

    constructor (tokens: seq<Token>)
      ensures Valid() && Rest() == tokens
    {
      this.tokens, pos := tokens, 0;
    }

    method NextToken()
      requires Valid()
      modifies this
      ensures Valid() && Rest() == if old(Rest()) == [] then [] else old(Rest())[1..]
    {
      if pos < |tokens| { pos := pos + 1; }
    }

    predicate At(c: char)
      requires pos <= |tokens|
      reads this
      ensures At(c) == Starts(Rest(), c)
    {
      pos < |tokens| && tokens[pos] == SPECIAL(c)
    }

    method ReadMessageCount() returns (r: Option<int>)
      requires Valid() && Rest() != []
      modifies this
      ensures Valid() && |Rest()| <= |old(Rest())|
      ensures var n := ReadNumber(old(Rest())[1..]);
        (r.Some? <==> n.Some?) && (r.Some? ==> n == Some((r.value, Rest())))
    {
      r := None;
      NextToken();
      var sign := 1;
      if At('-') {
        sign := -1;
        NextToken();
      }
      if pos < |tokens| && tokens[pos].NUMBER? {
        r := Some(tokens[pos].number * sign);
        NextToken();
      }
    }

    method ReadNode() returns (r: Option<Node>)
      requires Valid()
      modifies this
      ensures Valid() && |Rest()| <= |old(Rest())| && (r.Some? ==> |Rest()| < |old(Rest())|)
      ensures ReadValue(old(Rest())) == if r.Some? then Some((r.value, Rest())) else None
      decreases |Rest()|, 0
    {
      if pos == |tokens| { return None; }
      var token := tokens[pos];
      match token
      case NUMBER(n) =>
        NextToken();
        r := Some(Number(n));
      case STRING(s) =>
        NextToken();
        r := Some(Text(Lower(s)));
      case SPECIAL(c) =>
        if c != '%' { return None; }
        var n := ReadMessageCount();
        r := if n.Some? then Some(MessageCount(n.value)) else None;
      case IDENTIFIER(text) =>
        var name := Lower(text);
        NextToken();
        if name in PROPERTIES {
          r := Some(Property(name));
        } else if name in CALLS1 {
          r := ReadArguments1(name);
        } else if name in CALLS2 {
          r := ReadArguments2(name);
        } else {
          r := None;
        }
    }

    method ReadArguments1(name: string) returns (r: Option<Node>)
      requires Valid()
      modifies this
      ensures Valid() && |Rest()| <= |old(Rest())|
      ensures ReadCall1(name, old(Rest())) == if r.Some? then Some((r.value, Rest())) else None
      decreases |Rest()|, 3
    {
      r := None;
      if !At('(') { return; }
      NextToken();
      var left := ReadWhole();
      if left == None || !At(')') { return; }
      NextToken();
      r := Some(Call1(name, left.value));
    }

    method ReadArguments2(name: string) returns (r: Option<Node>)
      requires Valid()
      modifies this
      ensures Valid() && |Rest()| <= |old(Rest())|
      ensures ReadCall2(name, old(Rest())) == if r.Some? then Some((r.value, Rest())) else None
      decreases |Rest()|, 3
    {
      r := None;
      if !At('(') { return; }
      NextToken();
      var left := ReadWhole();
      if left == None || !At(',') { return; }
      NextToken();
      var right := ReadWhole();
      if right == None || !At(')') { return; }
      NextToken();
      r := Some(Call2(name, left.value, right.value));
    }

    method ReadWhole() returns (r: Option<Node>)
      requires Valid()
      modifies this
      ensures Valid() && |Rest()| <= |old(Rest())|
      ensures ReadExpression(old(Rest())) == if r.Some? then Some((r.value, Rest())) else None
      decreases |Rest()|, 2
    {
      r := ReadNode();
      if r.Some? {
        r := ReadOperators(r.value);
      }
    }

    /** `readFactor`. */
    method ReadOperators(first: Node) returns (r: Option<Node>)
      requires Valid()
      modifies this
      ensures Valid() && |Rest()| <= |old(Rest())|
      ensures ReadFactor(old(Rest()), first) == if r.Some? then Some((r.value, Rest())) else None
      decreases |Rest()|, 1
    {
      var node := first;
      while At('*')
        invariant Valid() && |Rest()| <= |old(Rest())|
        invariant ReadFactor(Rest(), node) == ReadFactor(old(Rest()), first)
        decreases |Rest()|
      {
        NextToken();
        var value := ReadNode();
        if value == None { return None; }
        node := Operation(BEHAVIOUR_OPERATOR_MULTIPLY, node, value.value);
      }
      while At('+') || At('-')
        invariant Valid() && |Rest()| <= |old(Rest())|
        invariant ReadSums(Rest(), node) == ReadFactor(old(Rest()), first)
        decreases |Rest()|
      {
        var op := if At('-') then BEHAVIOUR_OPERATOR_RES else BEHAVIOUR_OPERATOR_SUM;
        NextToken();
        var value := ReadNode();
        if value == None { return None; }
        node := Operation(op, node, value.value);
      }
      return Some(node);
    }
  }
}
