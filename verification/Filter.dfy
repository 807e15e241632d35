/** Partition filters.  A filter is a tree of conditions; the client sends it as
    postfix text, conditions separated by ':' and the parts of a leaf by '*'. */
module Filter {
  import opened Basics
  import opened Decimal
  import opened Tokens

  datatype Op = And | Or | Not | Eq | Lt | Lte | Gt | Gte | IsNull | IsNotNull | Contains | EndsWith | StartsWith

  /** `ConditionChild` of a leaf. */
  datatype Operand = Long(l: int) | Str(s: string)

  datatype Cond =
    | Leaf(op: Op, column: int, operand: Option<Operand>)
    | Node(op: Op, first: Cond, second: Option<Cond>)

  function Name(op: Op): string {
    match op
    case And => "And"
    case Or => "Or"
    case Not => "Not"
    case Eq => "EqualTo"
    case Lt => "LessThan"
    case Lte => "LessThanOrEqual"
    case Gt => "GreaterThan"
    case Gte => "GreaterThanOrEqual"
    case IsNull => "IsNull"
    case IsNotNull => "IsNotNull"
    case Contains => "StringContains"
    case EndsWith => "StringEndsWith"
    case StartsWith => "StringStartsWith"
  }

  /** `_getOperatorType`. */
  function OpOf(name: string): (r: Option<Op>)
    ensures r.Some? ==> Name(r.value) == name
  {
    if name == Name(And) then Some(And)
    else if name == Name(Or) then Some(Or)
    else if name == Name(Not) then Some(Not)
    else if name == Name(Eq) then Some(Eq)
    else if name == Name(Lt) then Some(Lt)
    else if name == Name(Lte) then Some(Lte)
    else if name == Name(Gt) then Some(Gt)
    else if name == Name(Gte) then Some(Gte)
    else if name == Name(IsNull) then Some(IsNull)
    else if name == Name(IsNotNull) then Some(IsNotNull)
    else if name == Name(Contains) then Some(Contains)
    else if name == Name(EndsWith) then Some(EndsWith)
    else if name == Name(StartsWith) then Some(StartsWith)
    else None
  }

  lemma OpOfName(op: Op)
    ensures OpOf(Name(op)) == Some(op)
  {
  }

  function Arity(op: Op): nat {
    if op == Not || op == IsNull || op == IsNotNull then 1 else 2
  }

  // ---- numbers and dates ----

  const INT64_MIN: int := -0x8000_0000_0000_0000
  const INT64_MAX: int := 0x7FFF_FFFF_FFFF_FFFF

  function IntText(v: int): string {
    if v < 0 then "-" + Dec(-v) else Dec(v)
  }

  /** `string2l`: the canonical text of a number that fits, or nothing. */
  function String2l(s: string): Option<int> {
    if s == "0" then Some(0)
    else
      var negative := s != "" && s[0] == '-';
      var d := if negative then s[1..] else s;
      if d == "" || d[0] == '0' || !AllDigits(d) then None
      else
        var v := if negative then -(Value(d) as int) else Value(d) as int;
        if INT64_MIN <= v <= INT64_MAX then Some(v) else None
  }

  lemma String2lOfText(v: int)
    requires INT64_MIN <= v <= INT64_MAX
    ensures String2l(IntText(v)) == Some(v)
  {
    if v == 0 {
      assert Dec(0) == "0";
    } else {
      var n := if v < 0 then -v else v;
      DecLeading(n);
      ValueOfDec(n);
      var s := IntText(v);
      if v < 0 {
        assert s[0] == '-' && s[1..] == Dec(n);
      } else {
        assert IsDigit(s[0]);
      }
    }
  }

  predicate TwoDigits(s: string, i: nat, low: nat, high: nat)
    requires i + 2 <= |s|
  {
    AllDigits(s[i..i + 2]) && low <= Value(s[i..i + 2]) <= high
  }

  /** The pattern yyyy-mm-dd. */
  predicate IsDate(s: string) {
    && |s| == 10 && s[4] == '-' && s[7] == '-' && AllDigits(s[..4])
    && TwoDigits(s, 5, 1, 12) && TwoDigits(s, 8, 1, 31)
  }

  /** `dateStrToInteger`: the digits of a date as one number. */
  function DateValue(s: string): Option<int> {
    if IsDate(s) then String2l(s[..4] + s[5..7] + s[8..]) else None
  }

  function ReadOperand(token: string): Operand {
    var date := DateValue(token);
    if date.Some? then Long(date.value)
    else
      var number := String2l(token);
      if number.Some? then Long(number.value) else Str(token)
  }

  // ---- text ----

  predicate Clean(s: string) {
    s != "" && ':' !in s && '*' !in s && '$' !in s && '\0' !in s
  }

  /** An operand that is read back as what it is. */
  predicate Canonical(o: Operand) {
    match o
    case Long(v) => INT64_MIN <= v <= INT64_MAX
    case Str(s) => Clean(s) && String2l(s).None? && DateValue(s).None?
  }

  function OperandText(o: Operand): string {
    match o
    case Long(v) => IntText(v)
    case Str(s) => s
  }

  predicate IsLeafOp(op: Op) {
    op != And && op != Or && op != Not
  }

  /** Trees the client can send: leaves under logical operators, each with its operands. */
  predicate WellFormed(c: Cond) {
    match c
    case Leaf(op, column, operand) =>
      && IsLeafOp(op) && INT64_MIN <= column <= INT64_MAX
      && (operand.Some? <==> Arity(op) == 2) && (operand.Some? ==> Canonical(operand.value))
    case Node(op, first, second) =>
      && !IsLeafOp(op) && WellFormed(first)
      && (second.Some? <==> Arity(op) == 2) && (second.Some? ==> WellFormed(second.value))
  }

  function LeafText(op: Op, column: int, operand: Option<Operand>): string {
    (if operand.Some? then OperandText(operand.value) + "*" else "") + IntText(column) + "*" + Name(op)
  }

  /** The conditions of a tree, operands before operators; the last one pushed is `first`. */
  function Postfix(c: Cond): seq<string> {
    match c
    case Leaf(op, column, operand) => [LeafText(op, column, operand)]
    case Node(op, first, None) => Postfix(first) + [Name(op)]
    case Node(op, first, Some(second)) => Postfix(second) + Postfix(first) + [Name(op)]
  }

  function Join(tokens: seq<string>): string {
    if tokens == [] then "" else if |tokens| == 1 then tokens[0] else tokens[0] + ":" + Join(tokens[1..])
  }

  function Text(c: Cond): string {
    Join(Postfix(c))
  }

  // ---- parsing ----

  /** What the parser's stack holds. */
  datatype Item = Operands(o: Operand) | Tree(c: Cond)

  function Parts(t: Split): (r: Option<(seq<string>, string)>)
    decreases |t.rest|
  {
    if t.rest == "" then Some(([], t.token))
    else
      var next := Strtok(t.rest, "*");
      if next.None? then None
      else
        var more := Parts(next.value);
        if more.None? then None else Some(([t.token] + more.value.0, more.value.1))
  }

  function Pushed(stack: seq<Item>, operands: seq<string>): seq<Item>
    decreases |operands|
  {
    if operands == [] then stack
    else Pushed(stack + [Operands(ReadOperand(operands[0]))], operands[1..])
  }

  /** `createCondition`: the new condition and the stack it leaves. */
  function CreateCondition(text: string, stack: seq<Item>): Option<(Cond, seq<Item>)> {
    var start := Strtok(text, "*");
    if start.None? then None
    else
      var parts := Parts(start.value);
      if parts.None? then None
      else
        var (operands, name) := parts.value;
        var op := OpOf(name);
        if op.None? then None
        else if operands != [] then BuildLeaf(op.value, Pushed(stack, operands), |operands|)
        else BuildNode(op.value, stack)
  }

  function BuildLeaf(op: Op, s: seq<Item>, count: nat): Option<(Cond, seq<Item>)> {
    var n := |s|;
    if count != Arity(op) || n < count then None
    else if !s[n - 1].Operands? || !s[n - 1].o.Long? then None
    else if Arity(op) == 1 then Some((Leaf(op, s[n - 1].o.l, None), s[..n - 1]))
    else if !s[n - 2].Operands? then None
    else Some((Leaf(op, s[n - 1].o.l, Some(s[n - 2].o)), s[..n - 2]))
  }

  function BuildNode(op: Op, s: seq<Item>): Option<(Cond, seq<Item>)> {
    var n := |s|;
    if Arity(op) > n || !s[n - 1].Tree? then None
    else if Arity(op) == 1 then Some((Node(op, s[n - 1].c, None), s[..n - 1]))
    else if !s[n - 2].Tree? then None
    else Some((Node(op, s[n - 1].c, Some(s[n - 2].c)), s[..n - 2]))
  }

  /** The parser's loop on the conditions it has split off. */
  function ParseTokens(tokens: seq<string>, stack: seq<Item>): Option<seq<Item>>
    decreases |tokens|
  {
    if tokens == [] then Some(stack)
    else
      var r := CreateCondition(tokens[0], stack);
      if r.None? then None else ParseTokens(tokens[1..], r.value.1 + [Tree(r.value.0)])
  }

  function Tokenize(s: string, delims: string): (r: seq<string>)
    decreases |s|
  {
    var t := Strtok(s, delims);
    if t.None? then [] else [t.value.token] + Tokenize(t.value.rest, delims)
  }

  /** `Invalid` stands for the error reply or the panic, `Overrun` for a statement that is
      copied past the end of the parser's buffer; nothing checks its length. */
  datatype Outcome<+T> = Done(value: T) | Invalid | Overrun

  predicate Fits(text: string) {
    |text| + 1 <= TMPBUF_SIZE
  }

  function ParseStatement(text: string): Outcome<Cond> {
    if !Fits(text) then Overrun
    else
      var s := ParseTokens(Tokenize(text, ":"), []);
      if s.None? || |s.value| != 1 || !s.value[0].Tree? then Invalid else Done(s.value[0].c)
  }

  /** The same, as the loop of `parseStatement`. */
  method ParseLoop(text: string) returns (r: Outcome<Cond>)
    ensures r == ParseStatement(text)
  {
    hide CreateCondition, Strtok;
    if |text| + 1 > TMPBUF_SIZE { return Overrun; }
    var stack: seq<Item> := [];
    var rest := text;
    var token := Strtok(rest, ":");
    while token.Some?
      invariant token == Strtok(rest, ":")
      invariant ParseTokens(Tokenize(text, ":"), []) == ParseTokens(Tokenize(rest, ":"), stack)
      decreases |rest|
    {
      var c := CreateCondition(token.value.token, stack);
      assert Tokenize(rest, ":") == [token.value.token] + Tokenize(token.value.rest, ":");
      if c.None? { return Invalid; }
      stack := c.value.1 + [Tree(c.value.0)];
      rest := token.value.rest;
      token := Strtok(rest, ":");
    }
    assert Tokenize(rest, ":") == [];
    if |stack| != 1 || !stack[0].Tree? { return Invalid; }
    return Done(stack[0].c);
  }

  // ---- parsing inverts printing ----

  predicate HasNone(s: string, chars: string) {
    forall i :: 0 <= i < |s| ==> s[i] !in chars
  }

  lemma {:induction false} TokenizeJoin(tokens: seq<string>)
    requires forall i :: 0 <= i < |tokens| ==> tokens[i] != "" && HasNone(tokens[i], ":")
    ensures Tokenize(Join(tokens), ":") == tokens
  {
    hide Strtok;
    if tokens == [] {
      assert Strtok("", ":").None? by { NoToken(); }
    } else if |tokens| == 1 {
      StrtokLast(tokens[0], ":");
      assert Tokenize("", ":") == [] by { NoToken(); }
    } else {
      StrtokAfter(tokens[0], ':', Join(tokens[1..]), ":");
      TokenizeJoin(tokens[1..]);
    }
  }

  lemma NoToken()
    ensures Strtok("", ":").None?
  {
  }

  lemma IntTextClean(v: int)
    ensures IntText(v) != "" && HasNone(IntText(v), ":*$")
  {
    var n := if v < 0 then -v else v;
    DecHasNo(n, ':');
    DecHasNo(n, '*');
    DecHasNo(n, '$');
  }

  predicate Letters(s: string) {
    forall i :: 0 <= i < |s| ==> 'A' <= s[i]
  }

  lemma LongNames()
    ensures Letters("GreaterThanOrEqual") && Letters("StringStartsWith") && Letters("StringEndsWith")
    ensures Letters("StringContains") && Letters("LessThanOrEqual")
  {
  }

  lemma NameLetters(op: Op)
    ensures Name(op) != "" && Letters(Name(op))
  {
    LongNames();
  }

  lemma NameClean(op: Op)
    ensures Name(op) != "" && HasNone(Name(op), ":*$")
  {
    hide Name;
    NameLetters(op);
  }

  lemma OperandClean(o: Operand)
    requires Canonical(o)
    ensures OperandText(o) != "" && HasNone(OperandText(o), ":*$")
  {
    if o.Long? { IntTextClean(o.l); }
  }

  /** A number has no dash behind a digit, so it is no date. */
  lemma NumberIsNoDate(v: int)
    ensures !IsDate(IntText(v))
  {
    var s := IntText(v);
    var n := if v < 0 then -v else v;
    DecHasNo(n, '-');
    if |s| == 10 {
      assert s[4] == if v < 0 then Dec(n)[3] else Dec(n)[4];
    }
  }

  lemma ReadCanonical(o: Operand)
    requires Canonical(o)
    ensures ReadOperand(OperandText(o)) == o
  {
    hide IsDate, String2l;
    if o.Long? {
      NumberIsNoDate(o.l);
      String2lOfText(o.l);
    }
  }

  lemma SplitLeaf(op: Op, column: int, operand: Option<Operand>)
    requires operand.Some? ==> Canonical(operand.value)
    ensures var start := Strtok(LeafText(op, column, operand), "*");
      && start.Some?
      && Parts(start.value) ==
           Some((LeafOperands(column, operand), Name(op)))
  {
    hide Strtok, Canonical, Name;
    var col, name := IntText(column), Name(op);
    IntTextClean(column);
    NameClean(op);
    hide IntText;
    StrtokAfter(col, '*', name, "*");
    StrtokLast(name, "*");
    assert Parts(Split(name, "")) == Some(([], name));
    assert Parts(Split(col, name)) == Some(([col], name)) by { assert [col] + [] == [col]; }
    if operand.None? {
      assert LeafText(op, column, operand) == col + ['*'] + name;
    } else {
      var v := OperandText(operand.value);
      OperandClean(operand.value);
      assert LeafText(op, column, operand) == v + ['*'] + (col + ['*'] + name);
      StrtokAfter(v, '*', col + ['*'] + name, "*");
      assert [v] + [col] == [v, col];
    }
  }

  /** The operands of a leaf, in the order they are pushed. */
  function LeafOperands(column: int, operand: Option<Operand>): seq<string> {
    if operand.Some? then [OperandText(operand.value), IntText(column)] else [IntText(column)]
  }

  function LeafItems(column: int, operand: Option<Operand>): seq<Item> {
    if operand.Some? then [Operands(operand.value), Operands(Long(column))] else [Operands(Long(column))]
  }

  lemma PushOne(stack: seq<Item>, t: string)
    ensures Pushed(stack, [t]) == stack + [Operands(ReadOperand(t))]
  {
    hide ReadOperand;
    assert [t][1..] == [];
  }

  lemma PushLeaf(column: int, operand: Option<Operand>, stack: seq<Item>)
    requires Canonical(Long(column)) && (operand.Some? ==> Canonical(operand.value))
    ensures Pushed(stack, LeafOperands(column, operand)) == stack + LeafItems(column, operand)
  {
    hide ReadOperand, Canonical, IntText;
    ReadCanonical(Long(column));
    if operand.Some? {
      ReadCanonical(operand.value);
      var v, col := OperandText(operand.value), IntText(column);
      assert [v, col][1..] == [col];
      PushOne(stack + [Operands(operand.value)], col);
    } else {
      PushOne(stack, IntText(column));
    }
  }

  lemma BuildTheLeaf(op: Op, column: int, operand: Option<Operand>, stack: seq<Item>)
    requires operand.Some? <==> Arity(op) == 2
    ensures BuildLeaf(op, stack + LeafItems(column, operand), |LeafOperands(column, operand)|)
         == Some((Leaf(op, column, operand), stack))
  {
    var s := stack + LeafItems(column, operand);
    assert s[..|stack|] == stack;
  }

  lemma CreateLeaf(op: Op, column: int, operand: Option<Operand>, stack: seq<Item>)
    requires WellFormed(Leaf(op, column, operand))
    ensures CreateCondition(LeafText(op, column, operand), stack) == Some((Leaf(op, column, operand), stack))
  {
    assert Canonical(Long(column));
    hide Strtok, Parts, OpOf, Name, LeafText, Pushed, BuildLeaf, BuildNode, Canonical, LeafItems;
    SplitLeaf(op, column, operand);
    OpOfName(op);
    PushLeaf(column, operand, stack);
    BuildTheLeaf(op, column, operand, stack);
    assert LeafOperands(column, operand) != [];
  }

  lemma CreateNode(op: Op, first: Cond, second: Option<Cond>, stack: seq<Item>)
    requires !IsLeafOp(op) && (second.Some? <==> Arity(op) == 2)
    ensures CreateCondition(Name(op), stack + (if second.Some? then [Tree(second.value)] else []) + [Tree(first)])
         == Some((Node(op, first, second), stack))
  {
    NameClean(op);
    OpOfName(op);
    hide Strtok, OpOf, Name;
    StrtokLast(Name(op), "*");
    var s := stack + (if second.Some? then [Tree(second.value)] else []) + [Tree(first)];
    assert s[..|stack|] == stack;
  }

  /** Parsing the text of a tree on top of any stack pushes exactly that tree. */
  lemma {:induction false} ParsePushes(c: Cond, stack: seq<Item>, rest: seq<string>)
    requires WellFormed(c)
    ensures ParseTokens(Postfix(c) + rest, stack) == ParseTokens(rest, stack + [Tree(c)])
    decreases c
  {
    hide CreateCondition, Name, LeafText;
    match c {
      case Leaf(op, column, operand) =>
        CreateLeaf(op, column, operand, stack);
        assert (Postfix(c) + rest)[1..] == rest;
      case Node(op, first, None) =>
        assert Postfix(c) + rest == Postfix(first) + ([Name(op)] + rest);
        ParsePushes(first, stack, [Name(op)] + rest);
        Reduce(op, first, None, stack, rest);
        assert stack + [] == stack;
      case Node(op, first, Some(second)) =>
        assert Postfix(c) + rest == Postfix(second) + (Postfix(first) + ([Name(op)] + rest));
        ParsePushes(second, stack, Postfix(first) + ([Name(op)] + rest));
        ParsePushes(first, stack + [Tree(second)], [Name(op)] + rest);
        Reduce(op, first, Some(second), stack, rest);
    }
  }

  lemma Reduce(op: Op, first: Cond, second: Option<Cond>, stack: seq<Item>, rest: seq<string>)
    requires !IsLeafOp(op) && (second.Some? <==> Arity(op) == 2)
    ensures ParseTokens([Name(op)] + rest, stack + (if second.Some? then [Tree(second.value)] else []) + [Tree(first)])
         == ParseTokens(rest, stack + [Tree(Node(op, first, second))])
  {
    hide CreateCondition, Name;
    CreateNode(op, first, second, stack);
    assert ([Name(op)] + rest)[1..] == rest;
  }

  lemma {:induction false} PostfixClean(c: Cond, i: nat)
    requires WellFormed(c) && i < |Postfix(c)|
    ensures Postfix(c)[i] != "" && HasNone(Postfix(c)[i], ":$")
    decreases c
  {
    match c {
      case Leaf(op, column, operand) =>
        LeafTextClean(op, column, operand);
      case Node(op, first, None) =>
        NameClean(op);
        if i < |Postfix(first)| { PostfixClean(first, i); }
      case Node(op, first, Some(second)) =>
        NameClean(op);
        if i < |Postfix(second)| {
          PostfixClean(second, i);
        } else if i < |Postfix(second)| + |Postfix(first)| {
          PostfixClean(first, i - |Postfix(second)|);
        }
    }
  }

  lemma LeafTextClean(op: Op, column: int, operand: Option<Operand>)
    requires operand.Some? ==> Canonical(operand.value)
    ensures LeafText(op, column, operand) != "" && HasNone(LeafText(op, column, operand), ":$")
  {
    IntTextClean(column);
    NameClean(op);
    if operand.Some? { OperandClean(operand.value); }
    hide Name, IntText, OperandText, Canonical;
  }

  lemma PostfixTokens(c: Cond)
    requires WellFormed(c)
    ensures forall i :: 0 <= i < |Postfix(c)| ==>
      Postfix(c)[i] != "" && HasNone(Postfix(c)[i], ":") && HasNone(Postfix(c)[i], "$")
  {
    forall i | 0 <= i < |Postfix(c)|
      ensures Postfix(c)[i] != "" && HasNone(Postfix(c)[i], ":") && HasNone(Postfix(c)[i], "$")
    {
      PostfixClean(c, i);
    }
  }

  /** The text of a tree is parsed to that tree, with or without a last colon, exactly when
      it fits the parser's buffer. */
  lemma ParseInvertsText(c: Cond)
    requires WellFormed(c)
    ensures ParseStatement(Text(c)) == if Fits(Text(c)) then Done(c) else Overrun
    ensures ParseStatement(Text(c) + ":") == if Fits(Text(c) + ":") then Done(c) else Overrun
  {
    hide Postfix, Tokenize, ParseTokens, Join, WellFormed, HasNone;
    PostfixTokens(c);
    TokenizeJoin(Postfix(c));
    NonEmpty(c);
    TokenizeEnded(Postfix(c));
    ParseWhole(c);
  }

  /** Column 1 is 1, said n + 1 times. */
  function Alternatives(n: nat): Cond {
    var leaf := Leaf(Eq, 1, Some(Long(1)));
    if n == 0 then leaf else Node(Or, leaf, Some(Alternatives(n - 1)))
  }

  lemma {:induction false} JoinLength(a: seq<string>, b: seq<string>)
    requires a != [] && b != []
    ensures |Join(a + b)| == |Join(a)| + 1 + |Join(b)|
    decreases |a|
  {
    assert (a + b)[1..] == a[1..] + b;
    if |a| > 1 { JoinLength(a[1..], b); }
  }

  lemma {:induction false} AlternativesLength(n: nat)
    ensures WellFormed(Alternatives(n)) && |Text(Alternatives(n))| == 15 * n + 11
  {
    assert Dec(1) == "1";
    var leaf := LeafText(Eq, 1, Some(Long(1)));
    assert |leaf| == 11;
    if n > 0 {
      AlternativesLength(n - 1);
      NonEmpty(Alternatives(n - 1));
      JoinLength(Postfix(Alternatives(n - 1)), [leaf]);
      JoinLength(Postfix(Alternatives(n - 1)) + [leaf], ["Or"]);
    }
  }

  /** Nine alternatives are too many. */
  lemma LongStatementOverruns()
    ensures WellFormed(Alternatives(8)) && ParseStatement(Text(Alternatives(8))) == Overrun
  {
    AlternativesLength(8);
  }

  lemma ParseWhole(c: Cond)
    requires WellFormed(c)
    ensures ParseTokens(Postfix(c), []) == Some([Tree(c)])
  {
    hide Postfix, WellFormed;
    ParsePushes(c, [], []);
    assert Postfix(c) + [] == Postfix(c) && [] + [Tree(c)] == [Tree(c)];
    assert ParseTokens([], [Tree(c)]) == Some([Tree(c)]);
  }

  lemma NonEmpty(c: Cond)
    ensures Postfix(c) != []
  {
  }

  lemma {:induction false} TokenizeEnded(tokens: seq<string>)
    requires tokens != [] && forall i :: 0 <= i < |tokens| ==> tokens[i] != "" && HasNone(tokens[i], ":")
    ensures Tokenize(Join(tokens) + ":", ":") == tokens
  {
    hide Strtok;
    if |tokens| == 1 {
      assert Join(tokens) + ":" == tokens[0] + [':'] + "";
      StrtokAfter(tokens[0], ':', "", ":");
      assert Tokenize("", ":") == [] by { NoToken(); }
    } else {
      var rest := Join(tokens[1..]) + ":";
      assert Join(tokens) + ":" == tokens[0] + [':'] + rest;
      StrtokAfter(tokens[0], ':', rest, ":");
      TokenizeEnded(tokens[1..]);
    }
  }

  lemma {:induction false} JoinHasNone(tokens: seq<string>, chars: string)
    requires ':' !in chars && forall i :: 0 <= i < |tokens| ==> HasNone(tokens[i], chars)
    ensures HasNone(Join(tokens), chars)
  {
    if |tokens| > 1 { JoinHasNone(tokens[1..], chars); }
  }

  /** The text of a tree does not hold the character that ends statements. */
  lemma TextHasNoSuffix(c: Cond)
    requires WellFormed(c)
    ensures HasNone(Text(c) + ":", "$")
  {
    PostfixTokens(c);
    JoinHasNone(Postfix(c), "$");
    hide Postfix, Join;
  }
}
