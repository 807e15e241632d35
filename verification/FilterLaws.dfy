/** What filters mean to a client, told from their text: which numbers and dates are read,
    and which partitions each statement keeps. */
module FilterLaws {
  import opened Basics
  import opened Decimal
  import opened Tokens
  import opened Filter
  import opened Pruning

  // ---- numbers ----

  /** Digits without a leading zero are the text of their value. */
  lemma {:induction false} DecOfValue(s: string)
    requires AllDigits(s) && s != "" && (s[0] != '0' || |s| == 1)
    ensures Dec(Value(s)) == s && (s[0] != '0' ==> Value(s) > 0)
    decreases |s|
  {
    var n := |s| - 1;
    var rest, d := s[..n], DigitValue(s[n]);
    assert s == rest + [s[n]];
    if n == 0 {
      assert Value(rest) == 0 && Value(s) == d;
      assert DigitChar(d) == s[0];
    } else {
      assert rest[0] == s[0];
      DecOfValue(rest);
      assert Value(s) / 10 == Value(rest) && Value(s) % 10 == d;
      assert DigitChar(d) == s[n];
    }
  }

  /** A number is read from its decimal text and from nothing else. */
  lemma String2lIff(s: string, v: int)
    ensures String2l(s) == Some(v) <==> INT64_MIN <= v <= INT64_MAX && s == IntText(v)
  {
    if INT64_MIN <= v <= INT64_MAX && s == IntText(v) { String2lOfText(v); }
    if String2l(s) == Some(v) && s != "0" {
      var d := if s[0] == '-' then s[1..] else s;
      DecOfValue(d);
      assert s[0] == '-' ==> s == "-" + d;
    }
    assert Dec(0) == "0";
  }

  // ---- dates ----

  lemma {:induction false} ValueConcat(a: string, b: string)
    requires AllDigits(a) && AllDigits(b)
    ensures AllDigits(a + b) && Value(a + b) == Value(a) * Pow10(|b|) + Value(b)
    decreases |b|
  {
    if b == "" {
      assert a + b == a;
    } else {
      var n := |b| - 1;
      assert (a + b)[..|a + b| - 1] == a + b[..n];
      ValueConcat(a, b[..n]);
      Regroup(Value(a), Pow10(n), Value(b[..n]), DigitValue(b[n]));
    }
  }

  lemma Regroup(x: nat, p: nat, y: nat, d: nat)
    ensures (x * p + y) * 10 + d == x * (10 * p) + (y * 10 + d)
  {
    assert x * (10 * p) == x * p * 10;
  }

  function TwoText(n: nat): string {
    if n < 10 then "0" + Dec(n) else Dec(n)
  }

  lemma TwoTextIs(n: nat)
    requires n < 100
    ensures |TwoText(n)| == 2 && AllDigits(TwoText(n)) && Value(TwoText(n)) == n
  {
    ValueOfDec(n);
    if n < 10 {
      var s := TwoText(n);
      assert s[..1] == "0" && s[..1][..0] == "";
      assert Value(s[..1]) == 0;
    } else {
      assert |Dec(n / 10)| == 1;
    }
  }

  lemma FourDigits(y: nat)
    requires 1000 <= y < 10000
    ensures |Dec(y)| == 4 && Dec(y)[0] != '0'
  {
    DecLeading(y);
    assert |Dec(y / 10)| == 3 by {
      assert |Dec(y / 100)| == 2 by { assert |Dec(y / 1000)| == 1; }
    }
  }

  function DateText(y: nat, m: nat, d: nat): string {
    Dec(y) + "-" + TwoText(m) + "-" + TwoText(d)
  }

  /** A date is read as the number its digits spell, so dates compare as numbers do. */
  lemma DateIsNumber(y: nat, m: nat, d: nat)
    requires 1000 <= y <= 9999 && 1 <= m <= 12 && 1 <= d <= 31
    ensures ReadOperand(DateText(y, m, d)) == Long(10000 * y + 100 * m + d)
  {
    var s, ys, ms, ds := DateText(y, m, d), Dec(y), TwoText(m), TwoText(d);
    FourDigits(y);
    ValueOfDec(y);
    TwoTextIs(m);
    TwoTextIs(d);
    hide Dec, TwoText, Value, String2l;
    assert s[..4] == ys && s[5..7] == ms && s[8..] == ds && s[8..10] == ds && s[4] == '-' && s[7] == '-';
    DateDigits(ys, ms, ds);
  }

  lemma DateDigits(ys: string, ms: string, ds: string)
    requires |ys| == 4 && |ms| == |ds| == 2 && AllDigits(ys) && AllDigits(ms) && AllDigits(ds) && ys[0] != '0'
    ensures String2l(ys + ms + ds) == Some(10000 * Value(ys) + 100 * Value(ms) + Value(ds))
  {
    hide Value, Pow10;
    var s := ys + ms + ds;
    EightDigits(ys, ms, ds);
    assert s[0] == ys[0] && s[0] != '-';
  }

  lemma EightDigits(ys: string, ms: string, ds: string)
    requires |ys| == 4 && |ms| == |ds| == 2 && AllDigits(ys) && AllDigits(ms) && AllDigits(ds)
    ensures AllDigits(ys + ms + ds)
    ensures Value(ys + ms + ds) == 10000 * Value(ys) + 100 * Value(ms) + Value(ds) < INT64_MAX
  {
    hide Value;
    ValueConcat(ys, ms);
    ValueConcat(ys + ms, ds);
    assert Pow10(2) == 100 && Pow10(4) == 10_000;
    ValueBound(ys, 4);
    ValueBound(ms, 2);
    ValueBound(ds, 2);
  }

  lemma {:induction false} ValueBound(s: string, k: nat)
    requires AllDigits(s) && |s| <= k
    ensures Value(s) < Pow10(k)
    decreases k
  {
    if s != "" { ValueBound(s[..|s| - 1], k - 1); } else if k > 0 { ValueBound(s, k - 1); }
  }

  // ---- statements ----

  /** The text of a condition on one column, as a client writes it. */
  function LeafStatement(operand: string, column: nat, name: string): string {
    operand + "*" + Dec(column) + "*" + name + ":"
  }

  /** The key of a partition by one column. */
  function OneColumn(column: nat, value: string): string {
    Dec(column) + ":" + value
  }

  /** Does the statement, read from its text, keep the partition with this key? */
  predicate Keeping(like: Like, text: string, part: string) {
    var root := ParseStatement(text);
    root.Done? && Keeps(like, root.value, part)
  }

  lemma LeafReads(op: Op, name: string, operand: Operand, column: nat)
    requires IsLeafOp(op) && Arity(op) == 2 && name == Name(op) && Canonical(operand) && column <= INT64_MAX
    requires Fits(LeafStatement(OperandText(operand), column, name))
    ensures ParseStatement(LeafStatement(OperandText(operand), column, name)) == Done(Leaf(op, column, Some(operand)))
  {
    var c := Leaf(op, column, Some(operand));
    hide Name, OperandText, Canonical, Dec;
    ParseInvertsText(c);
    assert Postfix(c) == [LeafText(op, column, Some(operand))];
    assert LeafText(op, column, Some(operand)) == OperandText(operand) + "*" + Dec(column) + "*" + name;
  }

  lemma OneColumnReads(column: nat, value: Operand)
    requires Canonical(value)
    ensures ParsePartitions(OneColumn(column, OperandText(value))) == Some([Param(column, value)])
  {
    var ps := [Param(column, value)];
    hide Strtok, ReadOperand, Canonical, OperandText, Dec, ParsePartitions;
    ParsePartitionsInverts(ps);
    assert OperandText(value) + "" == OperandText(value);
    assert Dec(column) + ":" + OperandText(value) == PartText(ps);
  }

  lemma NumbersFit(b: int, column: nat, name: string)
    requires INT64_MIN <= b <= INT64_MAX && column <= INT64_MAX && |name| <= 18
    ensures Fits(LeafStatement(IntText(b), column, name))
  {
    var n := if b < 0 then -b else b;
    TwentyDigits();
    DecLength(n, 20);
    DecLength(column, 20);
  }

  lemma TwentyDigits()
    ensures Pow10(20) > 0x8000_0000_0000_0000
  {
    assert Pow10(5) == 100_000 by { assert Pow10(2) == 100; assert Pow10(4) == 10_000; }
    assert Pow10(10) == 10_000_000_000 by { assert Pow10(7) == 10_000_000; assert Pow10(9) == 1_000_000_000; }
    assert Pow10(14) == 100_000_000_000_000 by { assert Pow10(12) == 1_000_000_000_000; }
    assert Pow10(18) == 1_000_000_000_000_000_000 by { assert Pow10(16) == 10_000_000_000_000_000; }
  }

  lemma NumberLeaf(like: Like, op: Op, name: string, a: int, b: int, column: nat)
    requires IsLeafOp(op) && Arity(op) == 2 && name == Name(op) && |name| <= 18
    requires INT64_MIN <= a <= INT64_MAX && INT64_MIN <= b <= INT64_MAX && column <= INT64_MAX
    ensures Keeping(like, LeafStatement(IntText(b), column, name), OneColumn(column, IntText(a)))
       <==> EvalLeaf(like, op, column, Some(Long(b)), [Param(column, Long(a))])
  {
    hide Name, EvalLeaf, IntText, ParseStatement, ParsePartitions;
    NumbersFit(b, column, name);
    LeafReads(op, name, Long(b), column);
    OneColumnReads(column, Long(a));
  }

  lemma Names()
    ensures Name(Eq) == "EqualTo" && Name(Lt) == "LessThan" && Name(Lte) == "LessThanOrEqual"
    ensures Name(Gt) == "GreaterThan" && Name(Gte) == "GreaterThanOrEqual"
  {
  }

  /** On numbers: a partition whose key gives the column the number a survives a comparison
      with b exactly when a compares so with b. */
  lemma ComparisonsMean(like: Like, a: int, b: int, column: nat)
    requires INT64_MIN <= a <= INT64_MAX && INT64_MIN <= b <= INT64_MAX && column <= INT64_MAX
    ensures var part := OneColumn(column, IntText(a));
      && (Keeping(like, LeafStatement(IntText(b), column, "EqualTo"), part) <==> a == b)
      && (Keeping(like, LeafStatement(IntText(b), column, "LessThan"), part) <==> a < b)
      && (Keeping(like, LeafStatement(IntText(b), column, "LessThanOrEqual"), part) <==> a <= b)
      && (Keeping(like, LeafStatement(IntText(b), column, "GreaterThan"), part) <==> a > b)
      && (Keeping(like, LeafStatement(IntText(b), column, "GreaterThanOrEqual"), part) <==> a >= b)
  {
    Names();
    hide Name, Keeping, LeafStatement, OneColumn, IntText;
    NumberLeaf(like, Eq, "EqualTo", a, b, column);
    NumberLeaf(like, Lt, "LessThan", a, b, column);
    NumberLeaf(like, Lte, "LessThanOrEqual", a, b, column);
    NumberLeaf(like, Gt, "GreaterThan", a, b, column);
    NumberLeaf(like, Gte, "GreaterThanOrEqual", a, b, column);
  }

  lemma StringLeaf(like: Like, op: Op, name: string, s: string, t: string, column: nat)
    requires IsLeafOp(op) && Arity(op) == 2 && name == Name(op)
    requires Canonical(Str(s)) && Canonical(Str(t)) && column <= INT64_MAX && Fits(LeafStatement(s, column, name))
    ensures Keeping(like, LeafStatement(s, column, name), OneColumn(column, t))
       <==> EvalLeaf(like, op, column, Some(Str(s)), [Param(column, Str(t))])
  {
    hide Name, EvalLeaf, Canonical, ParseStatement, ParsePartitions;
    LeafReads(op, name, Str(s), column);
    OneColumnReads(column, Str(t));
  }

  lemma ShorterFits(s: string, column: nat, name: string)
    requires |name| <= 18 && Fits(LeafStatement(s, column, "GreaterThanOrEqual"))
    ensures Fits(LeafStatement(s, column, name))
  {
  }

  lemma StringNames()
    ensures Name(Contains) == "StringContains" && Name(EndsWith) == "StringEndsWith"
    ensures Name(StartsWith) == "StringStartsWith"
  {
  }

  /** On strings: equality is equality, and no order comparison ever holds. */
  lemma StringsMean(like: Like, s: string, t: string, column: nat)
    requires Canonical(Str(s)) && Canonical(Str(t)) && column <= INT64_MAX
    requires Fits(LeafStatement(s, column, "GreaterThanOrEqual"))
    ensures var part := OneColumn(column, t);
      && (Keeping(like, LeafStatement(s, column, "EqualTo"), part) <==> s == t)
      && !Keeping(like, LeafStatement(s, column, "LessThan"), part)
      && !Keeping(like, LeafStatement(s, column, "GreaterThanOrEqual"), part)
  {
    hide Name, Keeping, OneColumn, Canonical, LeafStatement, Fits;
    Names();
    ShorterFits(s, column, "EqualTo");
    ShorterFits(s, column, "LessThan");
    StringLeaf(like, Eq, "EqualTo", s, t, column);
    StringLeaf(like, Lt, "LessThan", s, t, column);
    StringLeaf(like, Gte, "GreaterThanOrEqual", s, t, column);
  }

  /** The three patterns are what glob matching makes of them. */
  lemma PatternsMean(like: Like, s: string, t: string, column: nat)
    requires Canonical(Str(s)) && Canonical(Str(t)) && column <= INT64_MAX
    requires Fits(LeafStatement(s, column, "GreaterThanOrEqual"))
    ensures var part := OneColumn(column, t);
      && (Keeping(like, LeafStatement(s, column, "StringContains"), part) <==> like(Contains, s, t))
      && (Keeping(like, LeafStatement(s, column, "StringEndsWith"), part) <==> like(EndsWith, s, t))
      && (Keeping(like, LeafStatement(s, column, "StringStartsWith"), part) <==> like(StartsWith, s, t))
  {
    hide Name, Keeping, OneColumn, Canonical, LeafStatement, Fits;
    StringNames();
    ShorterFits(s, column, "StringContains");
    ShorterFits(s, column, "StringEndsWith");
    ShorterFits(s, column, "StringStartsWith");
    StringLeaf(like, Contains, "StringContains", s, t, column);
    StringLeaf(like, EndsWith, "StringEndsWith", s, t, column);
    StringLeaf(like, StartsWith, "StringStartsWith", s, t, column);
  }

  function UnaryStatement(column: nat, name: string): string {
    Dec(column) + "*" + name + ":"
  }

  lemma UnaryFits(column: nat, name: string)
    requires |name| <= 18 && column <= INT64_MAX
    ensures Fits(UnaryStatement(column, name))
  {
    TwentyDigits();
    DecLength(column, 20);
    hide Dec, Pow10;
  }

  lemma UnaryReads(op: Op, name: string, column: nat)
    requires (op == IsNull || op == IsNotNull) && name == Name(op) && |name| <= 18 && column <= INT64_MAX
    ensures ParseStatement(UnaryStatement(column, name)) == Done(Leaf(op, column, None))
  {
    hide Name, Dec, ParseStatement, Fits;
    var c := Leaf(op, column, None);
    UnaryFits(column, name);
    ParseInvertsText(c);
    assert Text(c) + ":" == UnaryStatement(column, name) by {
      assert Postfix(c) == [LeafText(op, column, None)];
      assert "" + Dec(column) == Dec(column);
    }
  }

  lemma UnaryKeeps(like: Like, op: Op, name: string, column: nat, key: nat, value: Operand)
    requires (op == IsNull || op == IsNotNull) && name == Name(op) && |name| <= 18 && column <= INT64_MAX
    requires Canonical(value)
    ensures Keeping(like, UnaryStatement(column, name), OneColumn(key, OperandText(value)))
       <==> column != key || op == IsNotNull
  {
    hide Name, ParseStatement, ParsePartitions, Canonical, UnaryStatement, OneColumn;
    UnaryReads(op, name, column);
    OneColumnReads(key, value);
    var ps := [Param(key, value)];
    assert ps[1..] == [];
    assert EvalLeaf(like, op, column, None, ps) <==> column != key || op == IsNotNull;
  }

  /** Key columns are never null; of other columns the key says nothing. */
  lemma NullsMean(like: Like, column: nat, key: nat, value: Operand)
    requires Canonical(value) && column <= INT64_MAX
    ensures var part := OneColumn(key, OperandText(value));
      && (Keeping(like, UnaryStatement(column, "IsNull"), part) <==> column != key)
      && Keeping(like, UnaryStatement(column, "IsNotNull"), part)
  {
    assert Name(IsNull) == "IsNull" && Name(IsNotNull) == "IsNotNull";
    hide Name, Keeping, OneColumn, UnaryStatement, Canonical;
    UnaryKeeps(like, IsNull, "IsNull", column, key, value);
    UnaryKeeps(like, IsNotNull, "IsNotNull", column, key, value);
  }

  // ---- logic ----

  lemma {:induction false} JoinConcat(a: seq<string>, b: seq<string>)
    requires a != [] && b != []
    ensures Join(a + b) == Join(a) + ":" + Join(b)
    decreases |a|
  {
    assert (a + b)[1..] == a[1..] + b;
    if |a| == 1 {
      assert a[1..] + b == b;
    } else {
      JoinConcat(a[1..], b);
    }
  }

  lemma NodeText(op: Op, first: Cond, second: Option<Cond>)
    ensures Text(Node(op, first, second))
         == (if second.Some? then Text(second.value) + ":" else "") + Text(first) + ":" + Name(op)
  {
    hide Name;
    NonEmpty(first);
    JoinConcat(Postfix(first), [Name(op)]);
    if second.Some? {
      NonEmpty(second.value);
      JoinConcat(Postfix(second.value), Postfix(first));
      JoinConcat(Postfix(second.value) + Postfix(first), [Name(op)]);
    }
  }

  lemma TextKeeps(like: Like, c: Cond, text: string, part: string)
    requires WellFormed(c) && text == Text(c) + ":" && Fits(text)
    ensures Keeping(like, text, part) <==> Keeps(like, c, part)
  {
    hide ParseStatement, Keeps, WellFormed, Text;
    ParseInvertsText(c);
  }

  function Joined(c: Cond, d: Cond, name: string): string {
    Text(d) + ":" + Text(c) + ":" + name + ":"
  }

  lemma JoinedKeeps(like: Like, op: Op, name: string, c: Cond, d: Cond, part: string)
    requires WellFormed(c) && WellFormed(d) && (op == And || op == Or) && name == Name(op) && Fits(Joined(c, d, name))
    ensures Keeping(like, Joined(c, d, name), part) <==> Keeps(like, Node(op, c, Some(d)), part)
    ensures Keeping(like, Text(c) + ":", part) <==> Keeps(like, c, part)
    ensures Keeping(like, Text(d) + ":", part) <==> Keeps(like, d, part)
  {
    hide Name, Text, Keeping, Keeps;
    NodeText(op, c, Some(d));
    TextKeeps(like, c, Text(c) + ":", part);
    TextKeeps(like, d, Text(d) + ":", part);
    TextKeeps(like, Node(op, c, Some(d)), Joined(c, d, name), part);
  }

  /** "And" and "Or" behind the two statements they join. */
  lemma LogicMeans(like: Like, c: Cond, d: Cond, part: string)
    requires WellFormed(c) && WellFormed(d) && Fits(Joined(c, d, "And"))
    ensures var first, second := Keeping(like, Text(c) + ":", part), Keeping(like, Text(d) + ":", part);
      && (Keeping(like, Joined(c, d, "And"), part) <==> first && second)
      && (Keeping(like, Joined(c, d, "Or"), part) <==> first || second)
  {
    assert Name(And) == "And" && Name(Or) == "Or";
    hide Name, Text, Keeping, ParsePartitions, WellFormed;
    JoinedKeeps(like, And, "And", c, d, part);
    JoinedKeeps(like, Or, "Or", c, d, part);
  }

  /** "Not" behind a statement: of the keys that can be read, it keeps the others. */
  lemma NotMeans(like: Like, c: Cond, part: string)
    requires WellFormed(c) && Fits(Text(c) + ":Not:")
    ensures Keeping(like, Text(c) + ":Not:", part)
       <==> ParsePartitions(part).Some? && !Keeping(like, Text(c) + ":", part)
  {
    assert Name(Not) == "Not";
    hide Name, Text, Keeping, ParsePartitions;
    NodeText(Not, c, None);
    assert "" + Text(c) == Text(c) && Text(c) + ":" + "Not" + ":" == Text(c) + ":Not:";
    TextKeeps(like, c, Text(c) + ":", part);
    TextKeeps(like, Node(Not, c, None), Text(c) + ":Not:", part);
  }

  // ---- statements that are no statement ----

  lemma TokensInvalid(tokens: seq<string>)
    requires tokens != [] && forall i :: 0 <= i < |tokens| ==> tokens[i] != "" && HasNone(tokens[i], ":")
    requires Fits(Join(tokens) + ":")
    requires var s := ParseTokens(tokens, []); s.None? || |s.value| != 1
    ensures ParseStatement(Join(tokens) + ":") == Invalid
  {
    hide ParseTokens, Tokenize, Join, HasNone;
    TokenizeEnded(tokens);
  }

  /** Two conditions that nothing joins, */
  lemma TwoTreesInvalid(c: Cond, d: Cond)
    requires WellFormed(c) && WellFormed(d) && Fits(Text(c) + ":" + Text(d) + ":")
    ensures ParseStatement(Text(c) + ":" + Text(d) + ":") == Invalid
  {
    hide ParseStatement, Join, HasNone, Fits, WellFormed, CreateCondition;
    var tokens := Postfix(c) + Postfix(d);
    PostfixTokens(c);
    PostfixTokens(d);
    NonEmpty(c);
    NonEmpty(d);
    JoinConcat(Postfix(c), Postfix(d));
    ParsePushes(c, [], Postfix(d));
    ParsePushes(d, [Tree(c)], []);
    hide Postfix;
    assert Postfix(d) + [] == Postfix(d) && [] + [Tree(c)] == [Tree(c)];
    assert [Tree(c)] + [Tree(d)] == [Tree(c), Tree(d)];
    TokensInvalid(tokens);
  }

  lemma AndOfOne(c: Cond)
    ensures CreateCondition("And", [Tree(c)]) == None
  {
    assert Name(And) == "And";
    OpOfName(And);
    hide Strtok, OpOf, Name;
    assert HasNone("And", "*");
    StrtokLast("And", "*");
  }

  /** an operator that lacks a condition, */
  lemma MissingConditionInvalid(c: Cond)
    requires WellFormed(c) && Fits(Text(c) + ":And:")
    ensures ParseStatement(Text(c) + ":And:") == Invalid
  {
    hide ParseStatement, Join, Fits, WellFormed, CreateCondition;
    var tokens := Postfix(c) + ["And"];
    PostfixTokens(c);
    NonEmpty(c);
    assert HasNone("And", ":");
    JoinConcat(Postfix(c), ["And"]);
    assert Join(["And"]) == "And" by { JoinOne("And"); }
    assert Text(c) + ":" + "And" + ":" == Text(c) + ":And:";
    ParsePushes(c, [], ["And"]);
    assert [] + [Tree(c)] == [Tree(c)];
    AndOfOne(c);
    hide Postfix, HasNone;
    TokensInvalid(tokens);
  }

  lemma JoinOne(token: string)
    ensures Join([token]) == token
  {
  }

  /** and an operator that does not exist are no statements. */
  lemma UnknownOperatorInvalid(name: string)
    requires Clean(name) && OpOf(name).None? && Fits(name + ":")
    ensures ParseStatement(name + ":") == Invalid
  {
    hide ParseStatement, OpOf, Strtok, Fits;
    assert HasNone(name, ":") && HasNone(name, "*");
    StrtokLast(name, "*");
    JoinOne(name);
    assert CreateCondition(name, []) == None;
    TokensInvalid([name]);
  }
}
