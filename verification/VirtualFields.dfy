/** Virtual fields: expressions over a row, evaluated one after the other into the row. */
module VirtualFields {
  import opened Ordering
  import opened Values

  datatype Operator = Add | Sub | Mult | Div | OtherOperator

  /** Parsed expressions; `Unsupported` stands for every other form, which is not evaluated. */
  datatype Expr =
    | Constant(v: Value)
    | Name(id: string)
    | BinOp(op: Operator, left: Expr, right: Expr)
    | USub(operand: Expr)
    | Call(name: string, args: seq<Expr>)
    | Unsupported

  /** A value, or an exception. */
  datatype Outcome = Raised | Done(v: Value)

  /** The host language's parser, `str`, `str.upper`, `int` and `round`; `None` where they raise. */
  datatype Host = Host(parse: string -> Option<Expr>, text: Value -> string, upper: string -> string,
                       toInt: Value -> Option<int>, round: (Value, int) -> Option<Value>)

  // ── Arithmetic ──

  function AsInt(v: Value): Option<int> {
    match v
    case Int(i) => Some(i)
    case Bool(b) => Some(if b then 1 else 0)
    case _ => None
  }

  function Repeat<T>(s: seq<T>, n: int): seq<T>
    decreases n
  {
    if n <= 0 then [] else s + Repeat(s, n - 1)
  }

  function Plus(a: Value, b: Value): Outcome {
    if AsInt(a).Some? && AsInt(b).Some? then Done(Int(AsInt(a).value + AsInt(b).value))
    else if Number(a).Some? && Number(b).Some? then Done(Real(Number(a).value + Number(b).value))
    else if a.Str? && b.Str? then Done(Str(a.s + b.s))
    else if a.List? && b.List? then Done(List(a.items + b.items))
    else Raised
  }

  function Minus(a: Value, b: Value): Outcome {
    if AsInt(a).Some? && AsInt(b).Some? then Done(Int(AsInt(a).value - AsInt(b).value))
    else if Number(a).Some? && Number(b).Some? then Done(Real(Number(a).value - Number(b).value))
    else Raised
  }

  function Product(x: real, y: real): real {
    x * y
  }

  function Times(a: Value, b: Value): Outcome {
    if AsInt(a).Some? && AsInt(b).Some? then Done(Int(AsInt(a).value * AsInt(b).value))
    else if Number(a).Some? && Number(b).Some? then Done(Real(Product(Number(a).value, Number(b).value)))
    else if a.Str? && AsInt(b).Some? then Done(Str(Repeat(a.s, AsInt(b).value)))
    else if AsInt(a).Some? && b.Str? then Done(Str(Repeat(b.s, AsInt(a).value)))
    else if a.List? && AsInt(b).Some? then Done(List(Repeat(a.items, AsInt(b).value)))
    else if AsInt(a).Some? && b.List? then Done(List(Repeat(b.items, AsInt(a).value)))
    else Raised
  }

  function Quotient(a: Value, b: Value): Outcome {
    if Number(a).Some? && Number(b).Some? && Number(b).value != 0.0
    then Done(Real(Number(a).value / Number(b).value))
    else Raised
  }

  function Binary(op: Operator, a: Value, b: Value): Outcome {
    if op == OtherOperator || a.Null? || b.Null? then Done(Null)
    else
      match op
      case Add => Plus(a, b)
      case Sub => Minus(a, b)
      case Mult => Times(a, b)
      case Div => Quotient(a, b)
  }

  function Opposite(a: Value): Outcome {
    if a.Null? then Done(Null)
    else if AsInt(a).Some? then Done(Int(-AsInt(a).value))
    else if a.Real? then Done(Real(-a.r))
    else Raised
  }

  function Absolute(a: Value): Outcome {
    if AsInt(a).Some? then Done(Int(if AsInt(a).value < 0 then -AsInt(a).value else AsInt(a).value))
    else if a.Real? then Done(Real(if a.r < 0.0 then -a.r else a.r))
    else Raised
  }

  function Concat(args: seq<Value>, host: Host): string {
    if args == [] then "" else (if args[0].Null? then "" else host.text(args[0])) + Concat(args[1..], host)
  }

  function Round(args: seq<Value>, host: Host): Outcome
    requires args != []
  {
    var digits := if |args| > 1 && !args[1].Null? then host.toInt(args[1]) else Some(0);
    if digits.None? then Raised
    else
      match host.round(args[0], digits.value)
      case Some(v) => Done(v)
      case None => Raised
  }

  function CallBuiltin(name: string, args: seq<Value>, host: Host): Outcome {
    if name == "CONCAT" then Done(Str(Concat(args, host)))
    else if name == "IF" && |args| == 3 then Done(if Truthy(args[0]) then args[1] else args[2])
    else if name == "ABS" && |args| == 1 && !args[0].Null? then Absolute(args[0])
    else if name == "ROUND" && |args| >= 1 && !args[0].Null? then Round(args, host)
    else Done(Null)
  }

  // ── Evaluation ──

  function Eval(e: Expr, row: Row, host: Host): Outcome
    decreases e
  {
    match e
    case Constant(v) => Done(v)
    case Name(id) => Done(Get(row, id))
    case BinOp(op, left, right) =>
      var l, r := Eval(left, row, host), Eval(right, row, host);
      if l.Raised? || r.Raised? then Raised else Binary(op, l.v, r.v)
    case USub(operand) =>
      var a := Eval(operand, row, host);
      if a.Raised? then Raised else Opposite(a.v)
    case Call(name, args) =>
      var values := EvalAll(args, row, host);
      if values.None? then Raised else CallBuiltin(host.upper(name), values.value, host)
    case Unsupported => Done(Null)
  }

  /** The values of all arguments; `None` when one raises. */
  function EvalAll(args: seq<Expr>, row: Row, host: Host): Option<seq<Value>>
    decreases args
  {
    if args == [] then Some([])
    else
      var first, rest := Eval(args[0], row, host), EvalAll(args[1..], row, host);
      if first.Raised? || rest.None? then None else Some([first.v] + rest.value)
  }

  /** Any error, from the parser on, makes the field null. */
  function EvaluateExpression(expression: string, row: Row, host: Host): Value {
    match host.parse(expression)
    case None => Null
    case Some(e) => match Eval(e, row, host) case Raised => Null case Done(v) => v
  }

  // ── Virtual fields ──

  datatype Field = Field(name: string, expression: string)

  /** The row with the first `k` virtual fields. */
  function Enrich(row: Row, fields: seq<Field>, k: nat, host: Host): Row
    requires k <= |fields|
  {
    if k == 0 then row
    else
      var before := Enrich(row, fields, k - 1, host);
      before[fields[k - 1].name := EvaluateExpression(fields[k - 1].expression, before, host)]
  }

  method ApplyVirtualFields(rows: seq<Row>, fields: seq<Field>, host: Host) returns (result: seq<Row>)
    ensures |result| == |rows|
    ensures forall i :: 0 <= i < |rows| ==> result[i] == Enrich(rows[i], fields, |fields|, host)
  {
    if fields == [] {
      return rows;
    }
    result := [];
    for i := 0 to |rows|
      invariant |result| == i
      invariant forall j :: 0 <= j < i ==> result[j] == Enrich(rows[j], fields, |fields|, host)
    {
      var enriched := rows[i];
      for k := 0 to |fields|
        invariant enriched == Enrich(rows[i], fields, k, host)
      {
        enriched := enriched[fields[k].name := EvaluateExpression(fields[k].expression, enriched, host)];
      }
      result := result + [enriched];
    }
  }

  // ── What an expression depends on ──

  function Mentions(e: Expr): set<string>
    decreases e
  {
    match e
    case Constant(_) => {}
    case Name(id) => {id}
    case BinOp(_, left, right) => Mentions(left) + Mentions(right)
    case USub(operand) => Mentions(operand)
    case Call(_, args) => MentionsAll(args)
    case Unsupported => {}
  }

  function MentionsAll(args: seq<Expr>): set<string>
    decreases args
  {
    if args == [] then {} else Mentions(args[0]) + MentionsAll(args[1..])
  }

  ghost predicate AgreeOn(a: Row, b: Row, names: set<string>) {
    forall n :: n in names ==> Get(a, n) == Get(b, n)
  }

  /** An expression's value depends only on the names it mentions. */
  lemma {:induction false} EvalDependsOnMentions(e: Expr, a: Row, b: Row, host: Host)
    requires AgreeOn(a, b, Mentions(e))
    ensures Eval(e, a, host) == Eval(e, b, host)
    decreases e
  {
    match e
    case Constant(_) =>
    case Name(id) =>
    case BinOp(_, left, right) =>
      EvalDependsOnMentions(left, a, b, host);
      EvalDependsOnMentions(right, a, b, host);
    case USub(operand) => EvalDependsOnMentions(operand, a, b, host);
    case Call(_, args) => ArgsDependOnMentions(args, a, b, host);
    case Unsupported =>
  }

  lemma {:induction false} ArgsDependOnMentions(args: seq<Expr>, a: Row, b: Row, host: Host)
    requires AgreeOn(a, b, MentionsAll(args))
    ensures EvalAll(args, a, host) == EvalAll(args, b, host)
    decreases args
  {
    if args == [] {
    } else {
      EvalDependsOnMentions(args[0], a, b, host);
      ArgsDependOnMentions(args[1..], a, b, host);
    }
  }

  // ── Errors and nulls ──

  /** Strict positions: every operand, and every argument of a call, both branches of `IF` included. */
  ghost predicate Within(sub: Expr, e: Expr)
    decreases e
  {
    sub == e ||
    match e
    case BinOp(_, left, right) => Within(sub, left) || Within(sub, right)
    case USub(operand) => Within(sub, operand)
    case Call(_, args) => exists i :: 0 <= i < |args| && Within(sub, args[i])
    case _ => false
  }

  lemma {:induction false} ArgsRaise(args: seq<Expr>, i: nat, row: Row, host: Host)
    requires i < |args| && Eval(args[i], row, host).Raised?
    ensures EvalAll(args, row, host).None?
  {
    if i == 0 {
    } else {
      ArgsRaise(args[1..], i - 1, row, host);
    }
  }

  /** An error anywhere inside makes the whole expression raise. */
  lemma {:induction false} ErrorsPropagate(sub: Expr, e: Expr, row: Row, host: Host)
    requires Within(sub, e) && Eval(sub, row, host).Raised?
    ensures Eval(e, row, host).Raised?
    decreases e
  {
    if sub != e {
      match e
      case BinOp(_, left, right) =>
        if Within(sub, left) { ErrorsPropagate(sub, left, row, host); } else { ErrorsPropagate(sub, right, row, host); }
      case USub(operand) => ErrorsPropagate(sub, operand, row, host);
      case Call(_, args) =>
        var i :| 0 <= i < |args| && Within(sub, args[i]);
        ErrorsPropagate(sub, args[i], row, host);
        ArgsRaise(args, i, row, host);
    }
  }

  /** ... so the field is null. */
  lemma ErrorsGiveNull(expression: string, sub: Expr, row: Row, host: Host)
    requires host.parse(expression).Some? && Within(sub, host.parse(expression).value)
    requires Eval(sub, row, host).Raised?
    ensures EvaluateExpression(expression, row, host) == Null
  {
    ErrorsPropagate(sub, host.parse(expression).value, row, host);
  }

  /** Arithmetic positions only: a null inside makes the result null, unless something raises. */
  ghost predicate WithinArithmetic(sub: Expr, e: Expr)
    decreases e
  {
    sub == e ||
    match e
    case BinOp(_, left, right) => WithinArithmetic(sub, left) || WithinArithmetic(sub, right)
    case USub(operand) => WithinArithmetic(sub, operand)
    case _ => false
  }

  lemma {:induction false} NullsPropagate(sub: Expr, e: Expr, row: Row, host: Host)
    requires WithinArithmetic(sub, e) && Eval(sub, row, host) == Done(Null)
    ensures Eval(e, row, host) in {Raised, Done(Null)}
    decreases e
  {
    if sub != e {
      match e
      case BinOp(_, left, right) =>
        NullsPropagate(sub, if WithinArithmetic(sub, left) then left else right, row, host);
      case USub(operand) => NullsPropagate(sub, operand, row, host);
    }
  }

  // ── Numbers ──

  /** What the operator means on numbers; `None` for a division by zero. */
  function Meaning(op: Operator, x: real, y: real): Option<real>
    requires op != OtherOperator
  {
    match op
    case Add => Some(x + y)
    case Sub => Some(x - y)
    case Mult => Some(Product(x, y))
    case Div => if y == 0.0 then None else Some(x / y)
  }

  /** Integers, booleans and reals mix: the result is the number that the operator means, an integer if both were. */
  lemma NumbersFollowArithmetic(op: Operator, left: Expr, right: Expr, row: Row, host: Host)
    requires op != OtherOperator && Eval(left, row, host).Done? && Eval(right, row, host).Done?
    requires Number(Eval(left, row, host).v).Some? && Number(Eval(right, row, host).v).Some?
    ensures var a, b := Eval(left, row, host).v, Eval(right, row, host).v;
            var r := Eval(BinOp(op, left, right), row, host);
            match Meaning(op, Number(a).value, Number(b).value)
            case None => r == Raised
            case Some(x) => r.Done? && Number(r.v) == Some(x)
                            && (r.v.Int? <==> op != Div && BothInts(a, b))
  {
    BinaryOnNumbers(op, Eval(left, row, host).v, Eval(right, row, host).v);
  }

  predicate BothInts(a: Value, b: Value) {
    AsInt(a).Some? && AsInt(b).Some?
  }

  lemma BinaryOnNumbers(op: Operator, a: Value, b: Value)
    requires op != OtherOperator && Number(a).Some? && Number(b).Some?
    ensures match Meaning(op, Number(a).value, Number(b).value)
            case None => Binary(op, a, b) == Raised
            case Some(x) => Binary(op, a, b).Done? && Number(Binary(op, a, b).v) == Some(x)
                            && (Binary(op, a, b).v.Int? <==> op != Div && BothInts(a, b))
  {
    match op
    case Add => SumMeans(a, b);
    case Sub => DifferenceMeans(a, b);
    case Mult => ProductMeans(a, b);
    case Div =>
  }

  lemma IntsAreNumbers(a: Value)
    requires AsInt(a).Some?
    ensures Number(a) == Some(AsInt(a).value as real)
  {
  }

  lemma SumMeans(a: Value, b: Value)
    requires Number(a).Some? && Number(b).Some?
    ensures Plus(a, b).Done? && Number(Plus(a, b).v) == Some(Number(a).value + Number(b).value)
    ensures Plus(a, b).v.Int? <==> BothInts(a, b)
  {
    if BothInts(a, b) {
      IntsAreNumbers(a);
      IntsAreNumbers(b);
    }
  }

  lemma DifferenceMeans(a: Value, b: Value)
    requires Number(a).Some? && Number(b).Some?
    ensures Minus(a, b).Done? && Number(Minus(a, b).v) == Some(Number(a).value - Number(b).value)
    ensures Minus(a, b).v.Int? <==> BothInts(a, b)
  {
    if BothInts(a, b) {
      IntsAreNumbers(a);
      IntsAreNumbers(b);
    }
  }

  lemma ProductMeans(a: Value, b: Value)
    requires Number(a).Some? && Number(b).Some?
    ensures Times(a, b).Done? && Number(Times(a, b).v) == Some(Product(Number(a).value, Number(b).value))
    ensures Times(a, b).v.Int? <==> BothInts(a, b)
  {
    if BothInts(a, b) {
      IntsAreNumbers(a);
      IntsAreNumbers(b);
      ProductAsReal(AsInt(a).value, AsInt(b).value);
    }
  }

  lemma {:induction false} ProductAsReal(m: int, n: int)
    ensures (m * n) as real == Product(m as real, n as real)
    decreases if n < 0 then -n else n
  {
    if n > 0 {
      ProductAsReal(m, n - 1);
      assert m * n == m * (n - 1) + m;
      assert n as real == (n - 1) as real + 1.0;
    } else if n < 0 {
      ProductAsReal(m, n + 1);
      assert m * n == m * (n + 1) - m;
      assert n as real == (n + 1) as real - 1.0;
    }
  }

  // ── Simultaneous equations ──

  function Names(fields: seq<Field>): set<string> {
    set f | f in fields :: f.name
  }

  function Reads(expression: string, host: Host): set<string> {
    match host.parse(expression) case None => {} case Some(e) => Mentions(e)
  }

  lemma ValueDependsOnReads(expression: string, a: Row, b: Row, host: Host)
    requires AgreeOn(a, b, Reads(expression, host))
    ensures EvaluateExpression(expression, a, host) == EvaluateExpression(expression, b, host)
  {
    if host.parse(expression).Some? {
      EvalDependsOnMentions(host.parse(expression).value, a, b, host);
    }
  }

  ghost predicate DistinctNames(fields: seq<Field>) {
    forall i, j :: 0 <= i < j < |fields| ==> fields[i].name != fields[j].name
  }

  /** Each field reads only physical fields and earlier virtual ones. */
  ghost predicate WellOrdered(fields: seq<Field>, host: Host) {
    forall i, j :: 0 <= i <= j < |fields| ==> fields[j].name !in Reads(fields[i].expression, host)
  }

  /** The row holds, for every virtual field at once, the value of its expression on that same row. */
  ghost predicate Solves(row: Row, fields: seq<Field>, host: Host) {
    forall f :: f in fields ==> f.name in row && row[f.name] == EvaluateExpression(f.expression, row, host)
  }

  /** Same keys and values outside the virtual fields. */
  ghost predicate SamePhysical(a: Row, b: Row, names: set<string>) {
    forall k :: k !in names ==> (k in a <==> k in b) && (k in a ==> a[k] == b[k])
  }

  lemma {:induction false} EnrichKeepsOthers(row: Row, fields: seq<Field>, k: nat, n: nat, host: Host, name: string)
    requires k <= n <= |fields| && forall j :: k <= j < n ==> fields[j].name != name
    ensures var a, b := Enrich(row, fields, k, host), Enrich(row, fields, n, host);
            (name in a <==> name in b) && (name in a ==> a[name] == b[name])
    decreases n
  {
    if k < n { EnrichKeepsOthers(row, fields, k, n - 1, host, name); }
  }

  /** Field `i` has its value from the moment it is computed, and that value solves its equation. */
  lemma FieldSolved(row: Row, fields: seq<Field>, i: nat, host: Host)
    requires i < |fields| && DistinctNames(fields) && WellOrdered(fields, host)
    ensures var final, f := Enrich(row, fields, |fields|, host), fields[i];
            f.name in final && final[f.name] == EvaluateExpression(f.expression, final, host)
  {
    var before, final, f := Enrich(row, fields, i, host), Enrich(row, fields, |fields|, host), fields[i];
    EnrichKeepsOthers(row, fields, i + 1, |fields|, host, f.name);
    forall n | n in Reads(f.expression, host) ensures Get(before, n) == Get(final, n) {
      EnrichKeepsOthers(row, fields, i, |fields|, host, n);
    }
    ValueDependsOnReads(f.expression, before, final, host);
  }

  /** The enriched row satisfies every field's equation at once and leaves physical fields alone. */
  lemma EnrichSolves(row: Row, fields: seq<Field>, host: Host)
    requires DistinctNames(fields) && WellOrdered(fields, host)
    ensures Solves(Enrich(row, fields, |fields|, host), fields, host)
    ensures SamePhysical(row, Enrich(row, fields, |fields|, host), Names(fields))
  {
    forall f | f in fields
      ensures var final := Enrich(row, fields, |fields|, host);
              f.name in final && final[f.name] == EvaluateExpression(f.expression, final, host)
    {
      var i :| 0 <= i < |fields| && fields[i] == f;
      FieldSolved(row, fields, i, host);
    }
    forall k | k !in Names(fields)
      ensures var final := Enrich(row, fields, |fields|, host);
              (k in row <==> k in final) && (k in row ==> row[k] == final[k])
    {
      forall j | 0 <= j < |fields| ensures fields[j].name != k {
        assert fields[j] in fields;
      }
      EnrichKeepsOthers(row, fields, 0, |fields|, host, k);
    }
  }

  /** Two solutions over the same physical fields agree on the first `k` virtual fields. */
  lemma {:induction false} SolutionsAgree(a: Row, b: Row, fields: seq<Field>, k: nat, host: Host)
    requires k <= |fields| && WellOrdered(fields, host)
    requires Solves(a, fields, host) && Solves(b, fields, host) && SamePhysical(a, b, Names(fields))
    ensures forall i :: 0 <= i < k ==> a[fields[i].name] == b[fields[i].name]
  {
    if k == 0 {
    } else {
      SolutionsAgree(a, b, fields, k - 1, host);
      var f := fields[k - 1];
      assert f in fields;
      forall n | n in Reads(f.expression, host) ensures Get(a, n) == Get(b, n) {
        if n in Names(fields) {
          var g :| g in fields && g.name == n;
          var i :| 0 <= i < |fields| && fields[i] == g;
          assert i < k - 1;
        }
      }
      ValueDependsOnReads(f.expression, a, b, host);
    }
  }

  /** The equations have one solution over given physical fields. */
  lemma SolutionIsUnique(a: Row, b: Row, fields: seq<Field>, host: Host)
    requires WellOrdered(fields, host)
    requires Solves(a, fields, host) && Solves(b, fields, host) && SamePhysical(a, b, Names(fields))
    ensures a == b
  {
    SolutionsAgree(a, b, fields, |fields|, host);
    forall k ensures (k in a <==> k in b) && (k in a ==> a[k] == b[k]) {
      if k in Names(fields) {
        var f :| f in fields && f.name == k;
        var i :| 0 <= i < |fields| && fields[i] == f;
      }
    }
  }

  /** Any two dependency-respecting orders of the same fields give the same row. */
  lemma {:induction false} OrderIsIrrelevant(row: Row, fields: seq<Field>, others: seq<Field>, host: Host)
    requires DistinctNames(fields) && WellOrdered(fields, host)
    requires DistinctNames(others) && WellOrdered(others, host)
    requires forall f :: f in fields <==> f in others
    ensures Enrich(row, fields, |fields|, host) == Enrich(row, others, |others|, host)
  {
    EnrichSolves(row, fields, host);
    EnrichSolves(row, others, host);
    assert Names(fields) == Names(others);
    SolutionIsUnique(Enrich(row, fields, |fields|, host), Enrich(row, others, |others|, host), fields, host);
  }

  lemma {:induction false} SolutionStays(row: Row, fields: seq<Field>, k: nat, host: Host)
    requires k <= |fields| && Solves(row, fields, host)
    ensures Enrich(row, fields, k, host) == row
  {
    if k == 0 {
    } else {
      SolutionStays(row, fields, k - 1, host);
      assert fields[k - 1] in fields;
    }
  }

  /** If a whole pass changes nothing, no part of it does. */
  lemma IdlePassIsIdleThroughout(row: Row, fields: seq<Field>, k: nat, host: Host)
    requires DistinctNames(fields) && k <= |fields| && Enrich(row, fields, |fields|, host) == row
    ensures Enrich(row, fields, k, host) == row
  {
    var part := Enrich(row, fields, k, host);
    forall n ensures (n in part <==> n in row) && (n in part ==> part[n] == row[n]) {
      if i :| 0 <= i < k && fields[i].name == n {
        EnrichKeepsOthers(row, fields, k, |fields|, host, n);
      } else {
        EnrichKeepsOthers(row, fields, 0, k, host, n);
      }
    }
  }

  /** Whatever the order, the equations hold of a row exactly when evaluating the fields on it changes nothing. */
  lemma SolvesExactly(row: Row, fields: seq<Field>, host: Host)
    requires DistinctNames(fields)
    ensures Solves(row, fields, host) <==> Enrich(row, fields, |fields|, host) == row
  {
    if Solves(row, fields, host) {
      SolutionStays(row, fields, |fields|, host);
    }
    if Enrich(row, fields, |fields|, host) == row {
      forall f | f in fields ensures f.name in row && row[f.name] == EvaluateExpression(f.expression, row, host) {
        var i :| 0 <= i < |fields| && fields[i] == f;
        IdlePassIsIdleThroughout(row, fields, i, host);
        IdlePassIsIdleThroughout(row, fields, i + 1, host);
      }
    }
  }

  /**
   A field that is the bare name of a later one gets that name's physical value, so its equation holds
   exactly when the later field comes out as the physical value already there, or null for none.
   */
  lemma LaterFieldIsNotSeen(row: Row, fields: seq<Field>, i: nat, j: nat, host: Host)
    requires DistinctNames(fields) && i < j < |fields|
    requires host.parse(fields[i].expression) == Some(Name(fields[j].name))
    ensures var final, f, later := Enrich(row, fields, |fields|, host), fields[i], fields[j].name;
            && f.name in final && final[f.name] == Get(row, later)
            && (final[f.name] == EvaluateExpression(f.expression, final, host)
                <==> Get(row, later) == Get(final, later))
            && (Get(row, later) != Get(final, later) ==> !Solves(final, fields, host))
  {
    var before, f := Enrich(row, fields, i, host), fields[i];
    EnrichKeepsOthers(row, fields, i + 1, |fields|, host, f.name);
    EnrichKeepsOthers(row, fields, 0, i, host, fields[j].name);
    assert f in fields;
    assert EvaluateExpression(f.expression, before, host) == Get(before, fields[j].name);
  }

  /** The failure is real: a constant behind its reader. */
  lemma LaterConstantIsMissed(row: Row, f: Field, g: Field, host: Host)
    requires f.name != g.name && g.name !in row
    requires host.parse(f.expression) == Some(Name(g.name)) && host.parse(g.expression) == Some(Constant(Int(1)))
    ensures !Solves(Enrich(row, [f, g], 2, host), [f, g], host)
  {
    var fields := [f, g];
    LaterFieldIsNotSeen(row, fields, 0, 1, host);
    assert Enrich(row, fields, 2, host)[g.name] == Int(1);
  }
}
