/** Deciding from a partition's key alone whether a filter can keep it. */
module Pruning {
  import opened Basics
  import opened Decimal
  import opened Tokens
  import opened Filter

  /** One key column of a partition and its value. */
  datatype Param = Param(column: int, value: Operand)

  /** Pattern matching of the three string operators: operator, pattern, text. */
  type Like = (Op, string, string) -> bool

  predicate IsOrder(op: Op) {
    op == Lt || op == Lte || op == Gt || op == Gte
  }

  predicate IsMatch(op: Op) {
    op == Contains || op == EndsWith || op == StartsWith
  }

  predicate InOrder(op: Op, a: int, b: int) {
    match op
    case Lt => a < b
    case Lte => a <= b
    case Gt => a > b
    case Gte => a >= b
    case _ => false
  }

  // ---- evaluation ----

  /** What a key column decides; None when the loop has to go on. */
  function Decide(like: Like, op: Op, column: int, operand: Option<Operand>, p: Param): Option<bool> {
    if column != p.column then None
    else if op == IsNull then Some(false)
    else if op == IsNotNull then Some(true)
    else if operand.None? then Some(false)
    else if operand.value.Long? != p.value.Long? then None
    else if op == Eq then Some(operand.value == p.value)
    else if IsMatch(op) then Some(operand.value.Str? && like(op, operand.value.s, p.value.s))
    else if operand.value.Str? then Some(false)
    else Some(InOrder(op, p.value.l, operand.value.l))
  }

  /** `_evaluateLeafOperator`: the first column that decides; a filter on other columns
      keeps the partition. */
  predicate EvalLeaf(like: Like, op: Op, column: int, operand: Option<Operand>, ps: seq<Param>) {
    if ps == [] then true
    else
      var d := Decide(like, op, column, operand, ps[0]);
      if d.Some? then d.value else EvalLeaf(like, op, column, operand, ps[1..])
  }

  method EvalLeafLoop(like: Like, op: Op, column: int, operand: Option<Operand>, ps: seq<Param>) returns (r: bool)
    ensures r == EvalLeaf(like, op, column, operand, ps)
  {
    assert ps[0..] == ps;
    for i := 0 to |ps|
      invariant EvalLeaf(like, op, column, operand, ps) == EvalLeaf(like, op, column, operand, ps[i..])
    {
      assert ps[i..][0] == ps[i] && ps[i..][1..] == ps[i + 1..];
      var p := ps[i];
      if column != p.column { continue; }
      if op == IsNull { return false; }
      if op == IsNotNull { return true; }
      if operand.None? { return false; }
      if operand.value.Long? != p.value.Long? { continue; }
      if op == Eq { return operand.value == p.value; }
      if IsMatch(op) { return operand.value.Str? && like(op, operand.value.s, p.value.s); }
      if operand.value.Str? { return false; }
      return InOrder(op, p.value.l, operand.value.l);
    }
    return true;
  }

  /** `_evaluateCondition`. */
  predicate Eval(like: Like, c: Cond, ps: seq<Param>) {
    match c
    case Leaf(op, column, operand) => IsLeafOp(op) && EvalLeaf(like, op, column, operand, ps)
    case Node(Not, first, _) => !Eval(like, first, ps)
    case Node(Or, first, Some(second)) => Eval(like, first, ps) || Eval(like, second, ps)
    case Node(And, first, Some(second)) => Eval(like, first, ps) && Eval(like, second, ps)
    case Node(_, _, _) => false
  }

  // ---- the postfix text on a stack of booleans ----

  function BoolStep(like: Like, token: string, bs: seq<bool>, ps: seq<Param>): Option<seq<bool>> {
    var op, n := OpOf(token), |bs|;
    if op.None? then
      var leaf := CreateCondition(token, []);
      if leaf.None? then None else Some(bs + [Eval(like, leaf.value.0, ps)])
    else if op.value == Not && n >= 1 then Some(bs[..n - 1] + [!bs[n - 1]])
    else if op.value == And && n >= 2 then Some(bs[..n - 2] + [bs[n - 2] && bs[n - 1]])
    else if op.value == Or && n >= 2 then Some(bs[..n - 2] + [bs[n - 2] || bs[n - 1]])
    else None
  }

  function BoolRun(like: Like, tokens: seq<string>, bs: seq<bool>, ps: seq<Param>): Option<seq<bool>>
    decreases |tokens|
  {
    if tokens == [] then Some(bs)
    else
      var r := BoolStep(like, tokens[0], bs, ps);
      if r.None? then None else BoolRun(like, tokens[1..], r.value, ps)
  }

  lemma LeafTextIsNoName(op: Op, column: int, operand: Option<Operand>)
    ensures OpOf(LeafText(op, column, operand)).None?
  {
    hide Name, OpOf;
    var text := LeafText(op, column, operand);
    var i := (if operand.Some? then |OperandText(operand.value)| + 1 else 0) + |IntText(column)|;
    assert text[i] == '*';
    var found := OpOf(text);
    if found.Some? { NameClean(found.value); }
  }

  /** A logical operator on the values of its conditions. */
  lemma BoolReduce(like: Like, op: Op, first: Cond, second: Option<Cond>, bs: seq<bool>, ps: seq<Param>)
    requires !IsLeafOp(op) && (second.Some? <==> Arity(op) == 2)
    ensures BoolStep(like, Name(op),
                     bs + (if second.Some? then [Eval(like, second.value, ps)] else []) + [Eval(like, first, ps)], ps)
         == Some(bs + [Eval(like, Node(op, first, second), ps)])
  {
    OpOfName(op);
    hide OpOf, Name, CreateCondition;
    var b := bs + (if second.Some? then [Eval(like, second.value, ps)] else []) + [Eval(like, first, ps)];
    assert b[..|bs|] == bs;
  }

  lemma BoolNext(like: Like, token: string, rest: seq<string>, bs: seq<bool>, r: seq<bool>, ps: seq<Param>)
    requires BoolStep(like, token, bs, ps) == Some(r)
    ensures BoolRun(like, [token] + rest, bs, ps) == BoolRun(like, rest, r, ps)
  {
    hide BoolStep;
    assert ([token] + rest)[1..] == rest;
  }

  /** Evaluating the tree is running its postfix text on booleans. */
  lemma {:induction false} BoolRunPushes(like: Like, c: Cond, bs: seq<bool>, rest: seq<string>, ps: seq<Param>)
    requires WellFormed(c)
    ensures BoolRun(like, Postfix(c) + rest, bs, ps) == BoolRun(like, rest, bs + [Eval(like, c, ps)], ps)
    decreases c
  {
    hide CreateCondition, OpOf, LeafText, Name, EvalLeaf, BoolRun;
    match c {
      case Leaf(op, column, operand) =>
        LeafTextIsNoName(op, column, operand);
        CreateLeaf(op, column, operand, []);
        BoolNext(like, LeafText(op, column, operand), rest, bs, bs + [Eval(like, c, ps)], ps);
      case Node(op, first, None) =>
        assert Postfix(c) + rest == Postfix(first) + ([Name(op)] + rest);
        BoolRunPushes(like, first, bs, [Name(op)] + rest, ps);
        BoolReduce(like, op, first, None, bs, ps);
        assert bs + [] == bs;
        BoolNext(like, Name(op), rest, bs + [Eval(like, first, ps)], bs + [Eval(like, c, ps)], ps);
      case Node(op, first, Some(second)) =>
        var tail, under := [Name(op)] + rest, bs + [Eval(like, second, ps)];
        assert Postfix(c) + rest == Postfix(second) + (Postfix(first) + tail);
        BoolRunPushes(like, second, bs, Postfix(first) + tail, ps);
        BoolRunPushes(like, first, under, tail, ps);
        BoolReduce(like, op, first, Some(second), bs, ps);
        BoolNext(like, Name(op), rest, under + [Eval(like, first, ps)], bs + [Eval(like, c, ps)], ps);
    }
  }

  // ---- rows ----

  /** The values of a row by column; a column that is not there is null. */
  type Row = map<int, Operand>

  /** Lexicographic order. */
  predicate Less(a: string, b: string) {
    b != "" && (a == "" || a[0] < b[0] || (a[0] == b[0] && Less(a[1..], b[1..])))
  }

  predicate StringOrder(op: Op, a: string, b: string) {
    match op
    case Lt => Less(a, b)
    case Lte => !Less(b, a)
    case Gt => Less(b, a)
    case Gte => !Less(a, b)
    case _ => false
  }

  predicate Holds(like: Like, op: Op, v: Operand, o: Operand) {
    if op == Eq then v == o
    else if IsMatch(op) then v.Str? && o.Str? && like(op, o.s, v.s)
    else if v.Long? && o.Long? then
      (op == Lt && v.l < o.l) || (op == Lte && v.l <= o.l) || (op == Gt && v.l > o.l) || (op == Gte && v.l >= o.l)
    else v.Str? && o.Str? && StringOrder(op, v.s, o.s)
  }

  /** What the filter means for a row. */
  predicate Satisfies(like: Like, c: Cond, row: Row) {
    match c
    case Leaf(IsNull, column, _) => column !in row
    case Leaf(IsNotNull, column, _) => column in row
    case Leaf(op, column, operand) => operand.Some? && column in row && Holds(like, op, row[column], operand.value)
    case Node(Not, first, _) => !Satisfies(like, first, row)
    case Node(Or, first, Some(second)) => Satisfies(like, first, row) || Satisfies(like, second, row)
    case Node(And, first, Some(second)) => Satisfies(like, first, row) && Satisfies(like, second, row)
    case Node(_, _, _) => false
  }

  /** A row of the partition has its key values. */
  predicate Agrees(row: Row, ps: seq<Param>) {
    forall i :: 0 <= i < |ps| ==> ps[i].column in row && row[ps[i].column] == ps[i].value
  }

  predicate NotFree(c: Cond) {
    match c
    case Leaf(_, _, _) => true
    case Node(op, first, second) => op != Not && NotFree(first) && (second.Some? ==> NotFree(second.value))
  }

  /** Order comparisons are on numbers only. */
  predicate WellTyped(c: Cond) {
    match c
    case Leaf(op, _, operand) => !(IsOrder(op) && operand.Some? && operand.value.Str?)
    case Node(_, first, second) => WellTyped(first) && (second.Some? ==> WellTyped(second.value))
  }

  lemma {:induction false} LeafSound(like: Like, op: Op, column: int, operand: Option<Operand>, ps: seq<Param>,
                                     row: Row)
    requires IsLeafOp(op) && WellTyped(Leaf(op, column, operand)) && Agrees(row, ps)
    requires Satisfies(like, Leaf(op, column, operand), row)
    ensures EvalLeaf(like, op, column, operand, ps)
    decreases |ps|
  {
    if ps != [] {
      assert ps[0].column in row && row[ps[0].column] == ps[0].value;
      assert Agrees(row, ps[1..]);
      LeafSound(like, op, column, operand, ps[1..], row);
    }
  }

  // ---- where it is not sound ----

  ghost predicate LeafIsSound(like: Like, op: Op, column: int, operand: Option<Operand>) {
    forall ps: seq<Param>, row: Row ::
      Agrees(row, ps) && Satisfies(like, Leaf(op, column, operand), row) ==> EvalLeaf(like, op, column, operand, ps)
  }

  lemma {:induction false} PrefixIsLess(s: string, t: string)
    requires t != ""
    ensures Less(s, s + t)
    decreases |s|
  {
    if s == "" {
      assert s + t == t;
    } else {
      assert (s + t)[1..] == s[1..] + t;
      PrefixIsLess(s[1..], t);
    }
  }

  lemma {:induction false} LessIrreflexive(s: string)
    ensures !Less(s, s)
  {
    if s != "" { LessIrreflexive(s[1..]); }
  }

  /** A value the comparison accepts. */
  function Witness(op: Op, s: string): string
    requires s != ""
  {
    match op
    case Lt => s[..|s| - 1]
    case Gt => s + "a"
    case _ => s
  }

  lemma WitnessHolds(op: Op, s: string)
    requires IsOrder(op) && s != ""
    ensures StringOrder(op, Witness(op, s), s)
  {
    LessIrreflexive(s);
    PrefixIsLess(s, "a");
    PrefixIsLess(s[..|s| - 1], [s[|s| - 1]]);
    assert s[..|s| - 1] + [s[|s| - 1]] == s;
  }

  /** A leaf is sound for every partition exactly when it does not order strings. */
  lemma LeafIsSoundIff(like: Like, op: Op, column: int, operand: Option<Operand>)
    requires WellFormed(Leaf(op, column, operand))
    ensures LeafIsSound(like, op, column, operand) <==> WellTyped(Leaf(op, column, operand))
  {
    if WellTyped(Leaf(op, column, operand)) {
      forall ps: seq<Param>, row: Row | Agrees(row, ps) && Satisfies(like, Leaf(op, column, operand), row)
        ensures EvalLeaf(like, op, column, operand, ps)
      {
        LeafSound(like, op, column, operand, ps, row);
      }
    } else {
      var s := operand.value.s;
      var v := Witness(op, s);
      WitnessHolds(op, s);
      var ps, row := [Param(column, Str(v))], map[column := Str(v)];
      assert Agrees(row, ps);
      assert Satisfies(like, Leaf(op, column, operand), row);
      assert !EvalLeaf(like, op, column, operand, ps);
    }
  }

  /** Does the key decide a leaf: its column is there, with a value of the operand's type? */
  predicate Decided(op: Op, column: int, operand: Option<Operand>, ps: seq<Param>) {
    ps != [] &&
    if column != ps[0].column then Decided(op, column, operand, ps[1..])
    else op == IsNull || op == IsNotNull || (operand.Some? && operand.value.Long? == ps[0].value.Long?)
  }

  /** A value of the other type decides nothing. */
  lemma {:induction false} MismatchKeeps(like: Like, op: Op, column: int, operand: Option<Operand>,
                                         ps: seq<Param>, row: Row)
    requires WellFormed(Leaf(op, column, operand)) && Agrees(row, ps) && op != IsNull && op != IsNotNull
    requires column in row && operand.value.Long? != row[column].Long?
    ensures EvalLeaf(like, op, column, operand, ps) && !Satisfies(like, Leaf(op, column, operand), row)
    decreases |ps|
  {
    if ps != [] {
      assert row[ps[0].column] == ps[0].value;
      assert Agrees(row, ps[1..]);
      MismatchKeeps(like, op, column, operand, ps[1..], row);
    }
  }

  /** Neither does a key without the column. */
  lemma {:induction false} AbsentKeeps(like: Like, op: Op, column: int, operand: Option<Operand>, ps: seq<Param>)
    requires forall i :: 0 <= i < |ps| ==> ps[i].column != column
    ensures EvalLeaf(like, op, column, operand, ps) && !Decided(op, column, operand, ps)
    decreases |ps|
  {
    if ps != [] { AbsentKeeps(like, op, column, operand, ps[1..]); }
  }

  lemma {:induction false} UndecidedMismatch(op: Op, column: int, operand: Option<Operand>, ps: seq<Param>,
                                             row: Row, i: nat)
    requires WellFormed(Leaf(op, column, operand)) && Agrees(row, ps) && !Decided(op, column, operand, ps)
    requires i < |ps| && ps[i].column == column
    ensures op != IsNull && op != IsNotNull && column in row && operand.value.Long? != row[column].Long?
    decreases |ps|
  {
    assert row[ps[0].column] == ps[0].value;
    if ps[0].column != column {
      assert Agrees(row, ps[1..]);
      UndecidedMismatch(op, column, operand, ps[1..], row, i - 1);
    }
  }

  /** A row with the same key that the leaf rejects, where the key does not decide it. */
  function Rejected(op: Op, column: int, ps: seq<Param>, row: Row): Row {
    if exists i :: 0 <= i < |ps| && ps[i].column == column then row
    else if op == IsNull then row[column := Long(0)]
    else map k | k in row && k != column :: row[k]
  }

  lemma RejectedIs(like: Like, op: Op, column: int, operand: Option<Operand>, ps: seq<Param>, row: Row)
    requires WellFormed(Leaf(op, column, operand)) && Agrees(row, ps) && !Decided(op, column, operand, ps)
    ensures var r := Rejected(op, column, ps, row);
      Agrees(r, ps) && !Satisfies(like, Leaf(op, column, operand), r) && EvalLeaf(like, op, column, operand, ps)
  {
    if exists i :: 0 <= i < |ps| && ps[i].column == column {
      var i :| 0 <= i < |ps| && ps[i].column == column;
      UndecidedMismatch(op, column, operand, ps, row, i);
      MismatchKeeps(like, op, column, operand, ps, row);
    } else {
      AbsentKeeps(like, op, column, operand, ps);
    }
  }

  ghost predicate NotIsSound(like: Like, leaf: Cond, ps: seq<Param>) {
    forall row: Row ::
      Agrees(row, ps) && Satisfies(like, Node(Not, leaf, None), row) ==> Eval(like, Node(Not, leaf, None), ps)
  }

  lemma {:induction false} IllTypedIsFalse(like: Like, op: Op, column: int, operand: Option<Operand>, ps: seq<Param>)
    requires IsOrder(op) && operand.Some? && operand.value.Str? && Decided(op, column, operand, ps)
    ensures !EvalLeaf(like, op, column, operand, ps)
    decreases |ps|
  {
    if column != ps[0].column { IllTypedIsFalse(like, op, column, operand, ps[1..]); }
  }

  /** For a key that some row has, the negation of a leaf prunes no matching row exactly
      when the key decides the leaf. */
  lemma NotIsSoundIff(like: Like, op: Op, column: int, operand: Option<Operand>, ps: seq<Param>, some: Row)
    requires WellFormed(Leaf(op, column, operand)) && Agrees(some, ps)
    ensures NotIsSound(like, Leaf(op, column, operand), ps) <==> Decided(op, column, operand, ps)
  {
    var leaf := Leaf(op, column, operand);
    if Decided(op, column, operand, ps) {
      forall row: Row | Agrees(row, ps) && Satisfies(like, Node(Not, leaf, None), row)
        ensures Eval(like, Node(Not, leaf, None), ps)
      {
        if WellTyped(leaf) {
          LeafExact(like, op, column, operand, ps, row);
        } else {
          IllTypedIsFalse(like, op, column, operand, ps);
        }
      }
    } else {
      var r := Rejected(op, column, ps, some);
      RejectedIs(like, op, column, operand, ps, some);
      assert Agrees(r, ps) && Satisfies(like, Node(Not, leaf, None), r) && !Eval(like, Node(Not, leaf, None), ps);
    }
  }

  /** Every partition whose key lacks the filtered column loses its matching rows. */
  lemma NotPrunes(like: Like, column: int, v: int, ps: seq<Param>, row: Row)
    requires Agrees(row, ps) && forall i :: 0 <= i < |ps| ==> ps[i].column != column
    ensures var c := Node(Not, Leaf(Eq, column, Some(Long(v))), None);
      var r := row[column := Long(v + 1)];
      Agrees(r, ps) && Satisfies(like, c, r) && !Eval(like, c, ps)
  {
    AbsentKeeps(like, Eq, column, Some(Long(v)), ps);
  }

  predicate AllDecided(c: Cond, ps: seq<Param>) {
    match c
    case Leaf(op, column, operand) => Decided(op, column, operand, ps)
    case Node(_, first, second) => AllDecided(first, ps) && (second.Some? ==> AllDecided(second.value, ps))
  }

  lemma {:induction false} LeafExact(like: Like, op: Op, column: int, operand: Option<Operand>, ps: seq<Param>,
                                     row: Row)
    requires IsLeafOp(op) && WellTyped(Leaf(op, column, operand)) && Agrees(row, ps) && Decided(op, column, operand, ps)
    ensures EvalLeaf(like, op, column, operand, ps) <==> Satisfies(like, Leaf(op, column, operand), row)
    decreases |ps|
  {
    assert ps[0].column in row && row[ps[0].column] == ps[0].value;
    if column != ps[0].column {
      assert Agrees(row, ps[1..]);
      LeafExact(like, op, column, operand, ps[1..], row);
    }
  }

  /** When the key decides every leaf, pruning is exact, also under Not. */
  lemma {:induction false} PruningExact(like: Like, c: Cond, ps: seq<Param>, row: Row)
    requires WellFormed(c) && WellTyped(c) && Agrees(row, ps) && AllDecided(c, ps)
    ensures Eval(like, c, ps) <==> Satisfies(like, c, row)
    decreases c
  {
    match c {
      case Leaf(op, column, operand) => LeafExact(like, op, column, operand, ps, row);
      case Node(op, first, None) => PruningExact(like, first, ps, row);
      case Node(op, first, Some(second)) =>
        PruningExact(like, first, ps, row);
        PruningExact(like, second, ps, row);
    }
  }

  /** Under an even number of Nots a leaf must have its operator's type; under an odd
      number the key must decide it. */
  predicate Safe(c: Cond, ps: seq<Param>, even: bool) {
    match c
    case Leaf(op, column, operand) => if even then WellTyped(c) else Decided(op, column, operand, ps)
    case Node(op, first, second) =>
      Safe(first, ps, if op == Not then !even else even) && (second.Some? ==> Safe(second.value, ps, even))
  }

  /** Filters without Not are safe when they order numbers only. */
  lemma {:induction false} NotFreeIsSafe(c: Cond, ps: seq<Param>)
    requires NotFree(c) && WellTyped(c)
    ensures Safe(c, ps, true)
    decreases c
  {
    match c {
      case Leaf(_, _, _) =>
      case Node(_, first, None) => NotFreeIsSafe(first, ps);
      case Node(_, first, Some(second)) =>
        NotFreeIsSafe(first, ps);
        NotFreeIsSafe(second, ps);
    }
  }

  lemma DecidedIsExact(like: Like, op: Op, column: int, operand: Option<Operand>, ps: seq<Param>, row: Row)
    requires WellFormed(Leaf(op, column, operand)) && Agrees(row, ps) && Decided(op, column, operand, ps)
    ensures EvalLeaf(like, op, column, operand, ps) ==> Satisfies(like, Leaf(op, column, operand), row)
  {
    if WellTyped(Leaf(op, column, operand)) {
      LeafExact(like, op, column, operand, ps, row);
    } else {
      IllTypedIsFalse(like, op, column, operand, ps);
    }
  }

  /** Pruning under Not: a safe filter keeps every partition with a row it accepts; an
      oddly negated one rejects only partitions whose rows it all rejects. */
  lemma {:induction false} PruningSafe(like: Like, c: Cond, ps: seq<Param>, row: Row, even: bool)
    requires WellFormed(c) && Agrees(row, ps) && Safe(c, ps, even)
    ensures even ==> (Satisfies(like, c, row) ==> Eval(like, c, ps))
    ensures !even ==> (Eval(like, c, ps) ==> Satisfies(like, c, row))
    decreases c
  {
    match c {
      case Leaf(op, column, operand) =>
        if !even {
          DecidedIsExact(like, op, column, operand, ps, row);
        } else if Satisfies(like, c, row) {
          LeafSound(like, op, column, operand, ps, row);
        }
      case Node(op, first, None) => PruningSafe(like, first, ps, row, !even);
      case Node(op, first, Some(second)) =>
        PruningSafe(like, first, ps, row, even);
        PruningSafe(like, second, ps, row, even);
    }
  }

  /** Without Not, pruning is sound: a partition with a row the filter accepts is kept. */
  lemma PruningSound(like: Like, c: Cond, ps: seq<Param>, row: Row)
    requires WellFormed(c) && NotFree(c) && WellTyped(c) && Agrees(row, ps) && Satisfies(like, c, row)
    ensures Eval(like, c, ps)
  {
    NotFreeIsSafe(c, ps);
    PruningSafe(like, c, ps, row, true);
  }

  // ---- the keys of METAKEYS ----

  /** `parsePartitions`, from the token that names a column on. */
  function Pairs(t: Split): Option<seq<Param>>
    decreases |t.rest|
  {
    if t.rest == "" then Some([])
    else
      var value := Strtok(t.rest, ":");
      if value.None? then None
      else
        var p := Param(Atoi(t.token), ReadOperand(value.value.token));
        var next := Strtok(value.value.rest, ":");
        if next.None? then Some([p])
        else
          var more := Pairs(next.value);
          if more.None? then None else Some([p] + more.value)
  }

  function ParsePartitions(part: string): Option<seq<Param>> {
    var start := Strtok(part, ":");
    if start.None? then Some([]) else Pairs(start.value)
  }

  /** The partition string of key columns and values. */
  function PartText(ps: seq<Param>): string
    requires forall i :: 0 <= i < |ps| ==> ps[i].column >= 0
  {
    if ps == [] then ""
    else
      var more := if |ps| == 1 then "" else ":" + PartText(ps[1..]);
      Dec(ps[0].column) + ":" + (OperandText(ps[0].value) + more)
  }

  lemma ReadColumn(column: nat, rest: string)
    ensures Strtok(Dec(column) + ":" + rest, ":") == Some(Split(Dec(column), rest)) && Atoi(Dec(column)) == column
  {
    hide Strtok, Atoi;
    DecHasNo(column, ':');
    StrtokAfter(Dec(column), ':', rest, ":");
    AtoiOfDec(column, "");
    assert Dec(column) + "" == Dec(column);
  }

  lemma ReadValue(v: Operand, rest: string)
    requires Canonical(v)
    ensures ReadOperand(OperandText(v)) == v
    ensures Strtok(OperandText(v) + (":" + rest), ":") == Some(Split(OperandText(v), rest))
    ensures Strtok(OperandText(v) + "", ":") == Some(Split(OperandText(v), ""))
  {
    ReadCanonical(v);
    OperandClean(v);
    hide Strtok, ReadOperand, Canonical, OperandText;
    var t := OperandText(v);
    assert t + (":" + rest) == t + [':'] + rest && t + "" == t;
    StrtokAfter(t, ':', rest, ":");
    StrtokLast(t, ":");
  }

  /** Parsing a partition string recovers its key columns. */
  lemma {:induction false} ParsePartitionsInverts(ps: seq<Param>)
    requires forall i :: 0 <= i < |ps| ==> ps[i].column >= 0 && Canonical(ps[i].value)
    ensures ParsePartitions(PartText(ps)) == Some(ps)
    ensures ps != [] ==> Strtok(PartText(ps), ":").Some?
  {
    hide Strtok, ReadOperand, Canonical, Atoi, OperandText, Dec;
    NoToken();
    if ps != [] {
      var p, rest := ps[0], PartText(ps[1..]);
      var more := if |ps| == 1 then "" else ":" + rest;
      ReadColumn(p.column, OperandText(p.value) + more);
      ReadValue(p.value, rest);
      if |ps| == 1 {
        assert [p] == ps;
      } else {
        ParsePartitionsInverts(ps[1..]);
        assert [p] + ps[1..] == ps;
      }
    }
  }

  /** `evaluateCondition` on the partition string of a key. */
  predicate Keeps(like: Like, c: Cond, part: string) {
    var ps := ParsePartitions(part);
    ps.Some? && Eval(like, c, ps.value)
  }

  function Survivors(like: Like, c: Cond, parts: seq<string>): seq<string> {
    if parts == [] then []
    else
      var n := |parts| - 1;
      Survivors(like, c, parts[..n]) + if Keeps(like, c, parts[n]) then [parts[n]] else []
  }

  predicate KeepsAll(like: Like, cs: seq<Cond>, part: string) {
    forall i :: 0 <= i < |cs| ==> Keeps(like, cs[i], part)
  }

  /** One pass over the keys, by the conjunction, keeping their order. */
  function OnePass(like: Like, cs: seq<Cond>, parts: seq<string>): seq<string> {
    if parts == [] then []
    else
      var n := |parts| - 1;
      OnePass(like, cs, parts[..n]) + if KeepsAll(like, cs, parts[n]) then [parts[n]] else []
  }

  lemma {:induction false} OnePassNext(like: Like, cs: seq<Cond>, c: Cond, parts: seq<string>)
    ensures Survivors(like, c, OnePass(like, cs, parts)) == OnePass(like, cs + [c], parts)
    decreases |parts|
  {
    hide Keeps;
    if parts != [] {
      var n := |parts| - 1;
      OnePassNext(like, cs, c, parts[..n]);
      var kept := OnePass(like, cs, parts[..n]);
      KeepsMore(like, cs, c, parts[n]);
      if KeepsAll(like, cs, parts[n]) {
        assert (kept + [parts[n]])[..|kept|] == kept;
      } else {
        assert kept + [] == kept;
      }
    }
  }

  lemma KeepsMore(like: Like, cs: seq<Cond>, c: Cond, part: string)
    ensures KeepsAll(like, cs + [c], part) <==> KeepsAll(like, cs, part) && Keeps(like, c, part)
  {
    hide Keeps;
    if KeepsAll(like, cs + [c], part) {
      assert (cs + [c])[|cs|] == c;
      assert forall i :: 0 <= i < |cs| ==> (cs + [c])[i] == cs[i];
    }
  }

  lemma {:induction false} NoCondition(like: Like, parts: seq<string>)
    ensures OnePass(like, [], parts) == parts
    decreases |parts|
  {
    if parts != [] { NoCondition(like, parts[..|parts| - 1]); }
  }

  /** One more condition, unless something went wrong. */
  function Append(before: Outcome<seq<Cond>>, c: Outcome<Cond>): Outcome<seq<Cond>> {
    match before
    case Done(cs) => (match c case Done(d) => Done(cs + [d]) case Invalid => Invalid case Overrun => Overrun)
    case Invalid => Invalid
    case Overrun => Overrun
  }

  /** The parsed statements, or what the first one that does not parse comes to. */
  function ParseAll(statements: seq<string>): Outcome<seq<Cond>> {
    if statements == [] then Done([])
    else
      var n := |statements| - 1;
      Append(ParseAll(statements[..n]), ParseStatement(statements[n]))
  }

  function Filtered(like: Like, parts: seq<string>, cs: Outcome<seq<Cond>>): Outcome<seq<string>> {
    match cs
    case Done(all) => Done(OnePass(like, all, parts))
    case Invalid => Invalid
    case Overrun => Overrun
  }

  /** The statement loop of METAKEYS: filtering again and again is one pass by the
      conjunction of all statements. */
  method FilterKeys(like: Like, parts: seq<string>, raw: string) returns (r: Outcome<seq<string>>)
    ensures r == Filtered(like, parts, ParseAll(Tokenize(raw, "$")))
  {
    hide ParseStatement, ParseAll, Keeps, Strtok, Tokenize, OnePass;
    var keys := parts;
    TokenizeIs(raw);
    ghost var all := Tokenize(raw, "$");
    ghost var done: seq<string> := [];
    ghost var cs: seq<Cond> := [];
    NoCondition(like, parts);
    assert ParseAll([]) == Done([]) by { NothingToParse(); }
    var token := Strtok(raw, "$");
    while token.Some?
      invariant all == done + Ahead(token)
      invariant ParseAll(done) == Done(cs) && keys == OnePass(like, cs, parts)
      decreases if token.None? then 0 else |token.value.rest| + 1
    {
      var text := token.value.token;
      var root := ParseStatement(text);
      ParseOneMore(done, text);
      TokenizeIs(token.value.rest);
      if !root.Done? {
        StopsAt(done, text, Tokenize(token.value.rest, "$"));
        return if root.Invalid? then Invalid else Overrun;
      }
      assert done + ([text] + Tokenize(token.value.rest, "$")) == (done + [text]) + Tokenize(token.value.rest, "$");
      keys := FilterOnce(like, root.value, keys);
      OnePassNext(like, cs, root.value, parts);
      cs := cs + [root.value];
      done := done + [text];
      token := Strtok(token.value.rest, "$");
    }
    assert done + [] == done;
    return Done(keys);
  }

  /** The tokens from one that was read on. */
  function Ahead(token: Option<Split>): seq<string> {
    if token.None? then [] else [token.value.token] + Tokenize(token.value.rest, "$")
  }

  lemma TokenizeIs(s: string)
    ensures Tokenize(s, "$") == Ahead(Strtok(s, "$"))
  {
    hide Strtok;
  }

  lemma ParseOneMore(done: seq<string>, text: string)
    ensures ParseAll(done + [text]) == Append(ParseAll(done), ParseStatement(text))
  {
    hide ParseStatement;
    assert (done + [text])[..|done|] == done;
  }

  /** The keys one statement keeps. */
  method FilterOnce(like: Like, c: Cond, keys: seq<string>) returns (filtered: seq<string>)
    ensures filtered == Survivors(like, c, keys)
  {
    hide Keeps;
    filtered := [];
    for j := 0 to |keys|
      invariant filtered == Survivors(like, c, keys[..j])
    {
      assert keys[..j + 1][..j] == keys[..j];
      if Keeps(like, c, keys[j]) { filtered := filtered + [keys[j]]; }
    }
    assert keys[..|keys|] == keys;
  }

  lemma {:induction false} CannotParse(statements: seq<string>, n: nat)
    requires n <= |statements| && !ParseAll(statements[..n]).Done?
    ensures ParseAll(statements) == ParseAll(statements[..n])
    decreases |statements|
  {
    hide ParseStatement;
    if n < |statements| {
      var m := |statements| - 1;
      assert statements[..m][..n] == statements[..n];
      CannotParse(statements[..m], n);
    } else {
      assert statements[..n] == statements;
    }
  }

  lemma NothingToParse()
    ensures ParseAll([]) == Done([])
  {
  }

  /** The first statement that does not parse decides. */
  lemma StopsAt(done: seq<string>, text: string, rest: seq<string>)
    requires ParseAll(done).Done? && !ParseStatement(text).Done?
    ensures ParseAll(done + ([text] + rest)) == if ParseStatement(text).Invalid? then Invalid else Overrun
  {
    hide ParseStatement, ParseAll;
    ParseOneMore(done, text);
    var all := done + ([text] + rest);
    assert all[..|done| + 1] == done + [text];
    CannotParse(all, |done| + 1);
  }

  // ---- a partition with a matching row is kept ----

  function StatementText(c: Cond): string {
    Text(c) + ":"
  }

  /** Each statement with its suffix, as a client sends them. */
  function Statements(cs: seq<Cond>): string {
    if cs == [] then "" else StatementText(cs[0]) + "$" + Statements(cs[1..])
  }

  function StatementTexts(cs: seq<Cond>): seq<string> {
    if cs == [] then [] else [StatementText(cs[0])] + StatementTexts(cs[1..])
  }

  lemma StatementFacts(c: Cond)
    requires WellFormed(c)
    ensures ParseStatement(StatementText(c)) == if Fits(StatementText(c)) then Done(c) else Overrun
    ensures StatementText(c) != "" && HasNone(StatementText(c), "$")
  {
    ParseInvertsText(c);
    TextHasNoSuffix(c);
  }

  lemma NoStatement()
    ensures Tokenize("", "$") == []
  {
  }

  lemma {:induction false} SplitStatements(cs: seq<Cond>)
    requires forall i :: 0 <= i < |cs| ==> WellFormed(cs[i])
    ensures Tokenize(Statements(cs), "$") == StatementTexts(cs)
    decreases |cs|
  {
    hide Strtok, StatementText, WellFormed, ParseStatement;
    if cs == [] {
      NoStatement();
    } else {
      StatementFacts(cs[0]);
      StrtokAfter(StatementText(cs[0]), '$', Statements(cs[1..]), "$");
      SplitStatements(cs[1..]);
    }
  }

  lemma {:induction false} ParseStatements(done: seq<string>, before: seq<Cond>, cs: seq<Cond>)
    requires (forall i :: 0 <= i < |cs| ==> WellFormed(cs[i])) && ParseAll(done) == Done(before)
    ensures ParseAll(done + StatementTexts(cs)) == if AllFit(cs) then Done(before + cs) else Overrun
    decreases |cs|
  {
    hide StatementText, WellFormed, ParseStatement, ParseAll, Fits;
    if cs == [] {
      assert done + [] == done && before + cs == before;
    } else {
      var text, rest := StatementText(cs[0]), StatementTexts(cs[1..]);
      StatementFacts(cs[0]);
      ParseOneMore(done, text);
      assert (done + [text]) + rest == done + ([text] + rest);
      FitsAll(cs);
      if Fits(text) {
        ParseStatements(done + [text], before + [cs[0]], cs[1..]);
        assert (before + [cs[0]]) + cs[1..] == before + cs;
      } else {
        StopsAt(done, text, rest);
      }
    }
  }

  predicate AllFit(cs: seq<Cond>) {
    forall i :: 0 <= i < |cs| ==> Fits(StatementText(cs[i]))
  }

  lemma FitsAll(cs: seq<Cond>)
    requires cs != []
    ensures AllFit(cs) <==> Fits(StatementText(cs[0])) && AllFit(cs[1..])
  {
    hide Fits, StatementText;
    if AllFit(cs[1..]) {
      forall i | 0 < i < |cs| ensures Fits(StatementText(cs[i])) {
        assert cs[1..][i - 1] == cs[i];
      }
    }
  }

  lemma {:induction false} KeptByAll(like: Like, cs: seq<Cond>, parts: seq<string>, part: string)
    requires part in parts && KeepsAll(like, cs, part)
    ensures part in OnePass(like, cs, parts)
    decreases |parts|
  {
    hide KeepsAll;
    var n := |parts| - 1;
    if part != parts[n] {
      assert part in parts[..n];
      KeptByAll(like, cs, parts[..n], part);
    }
  }

  /** METAKEYS reads the statements exactly when each fits the parser's buffer, and then
      keeps every partition with a row that satisfies all of them. */
  lemma MatchingPartitionKept(like: Like, cs: seq<Cond>, ps: seq<Param>, row: Row, parts: seq<string>)
    requires forall i :: 0 <= i < |cs| ==>
      WellFormed(cs[i]) && Safe(cs[i], ps, true) && Satisfies(like, cs[i], row)
    requires forall i :: 0 <= i < |ps| ==> ps[i].column >= 0 && Canonical(ps[i].value)
    requires Agrees(row, ps) && PartText(ps) in parts
    ensures ParseAll(Tokenize(Statements(cs), "$")) == if AllFit(cs) then Done(cs) else Overrun
    ensures PartText(ps) in OnePass(like, cs, parts)
  {
    SplitStatements(cs);
    ParseStatements([], [], cs);
    assert [] + StatementTexts(cs) == StatementTexts(cs) && [] + cs == cs;
    ParsePartitionsInverts(ps);
    forall i | 0 <= i < |cs| ensures Keeps(like, cs[i], PartText(ps)) {
      PruningSafe(like, cs[i], ps, row, true);
    }
    KeptByAll(like, cs, parts, PartText(ps));
  }
}
