/** The condition mini-language on workflow edges: dotted paths compared with literals. */
module Conditions {
  import opened Ordering
  import opened Text
  import opened Values

  // ── Strings ──

  predicate IsSpace(c: char) {
    c == ' ' || '\t' <= c <= '\r' || '\U{001C}' <= c <= '\U{001F}' || c == '\U{0085}' || c == '\U{00A0}'
  }

  function Strip(s: string): string {
    if s != [] && IsSpace(s[0]) then Strip(s[1..])
    else if s != [] && IsSpace(s[|s| - 1]) then Strip(s[..|s| - 1])
    else s
  }

  predicate Trimmed(s: string) {
    s == [] || (!IsSpace(s[0]) && !IsSpace(s[|s| - 1]))
  }

  function Lower(s: string): string {
    seq(|s|, i requires 0 <= i < |s| => if 'A' <= s[i] <= 'Z' then (s[i] as int + 32) as char else s[i])
  }

  ghost predicate OccursAt(s: string, sub: string, i: int) {
    0 <= i <= |s| - |sub| && s[i..i + |sub|] == sub
  }

  ghost predicate Occurs(s: string, sub: string) {
    exists i :: OccursAt(s, sub, i)
  }

  /** `r` is the first position, or negative when there is none. */
  ghost predicate FirstAt(s: string, sub: string, r: int) {
    if r < 0 then !Occurs(s, sub)
    else OccursAt(s, sub, r) && forall i :: 0 <= i < r ==> !OccursAt(s, sub, i)
  }

  lemma OccursShifts(s: string, sub: string, i: int)
    requires s != []
    ensures i > 0 ==> (OccursAt(s, sub, i) <==> OccursAt(s[1..], sub, i - 1))
  {
    if 0 < i <= |s| - |sub| {
      assert s[1..][i - 1..i - 1 + |sub|] == s[i..i + |sub|];
    }
  }

  lemma FirstShifts(s: string, sub: string, r: int)
    requires s != [] && !OccursAt(s, sub, 0) && FirstAt(s[1..], sub, r)
    ensures FirstAt(s, sub, if r < 0 then -1 else r + 1)
  {
    forall i | i > 0 ensures OccursAt(s, sub, i) <==> OccursAt(s[1..], sub, i - 1) { OccursShifts(s, sub, i); }
    if r >= 0 { OccursShifts(s, sub, r + 1); }
  }

  /** Position of the first occurrence, or -1. */
  function Find(s: string, sub: string): (r: int)
    ensures FirstAt(s, sub, r)
  {
    if |s| < |sub| then -1
    else if s[..|sub|] == sub then 0
    else if s == [] then -1
    else
      var r := Find(s[1..], sub);
      FirstShifts(s, sub, r);
      if r < 0 then -1 else r + 1
  }

  // ── Paths ──

  function Descend(current: Value, parts: seq<string>): Value
    decreases |parts|
  {
    if parts == [] then current
    else if current.Dict? then Descend(Get(current.fields, parts[0]), parts[1..])
    else Null
  }

  function Resolve(path: string, context: map<string, Value>): Value {
    Descend(Dict(context), Split(path, '.'))
  }

  /** The only name a path looks up in the context itself. */
  function Root(path: string): string {
    Split(path, '.')[0]
  }

  method ResolveValue(path: string, context: map<string, Value>) returns (current: Value)
    ensures current == Resolve(path, context)
  {
    var parts := Split(path, '.');
    current := Dict(context);
    for i := 0 to |parts|
      invariant Descend(current, parts[i..]) == Resolve(path, context)
    {
      if current.Dict? {
        current := Get(current.fields, parts[i]);
      } else {
        return Null;
      }
      assert parts[i..][1..] == parts[i + 1..];
    }
  }

  /** A path depends on the context only through its root. */
  lemma ResolveReadsRoot(path: string, c1: map<string, Value>, c2: map<string, Value>)
    requires Get(c1, Root(path)) == Get(c2, Root(path))
    ensures Resolve(path, c1) == Resolve(path, c2)
  {
    var parts := Split(path, '.');
    assert Resolve(path, c1) == Descend(Get(c1, parts[0]), parts[1..]);
    assert Resolve(path, c2) == Descend(Get(c2, parts[0]), parts[1..]);
  }

  // ── Literals ──

  /** Digits with single underscores between them, as `int(...)` accepts. */
  function ParseDigits(s: string, acc: nat, needDigit: bool): Option<int> {
    if s == [] then if needDigit then None else Some(acc)
    else if IsDigit(s[0]) then ParseDigits(s[1..], 10 * acc + (s[0] as int - '0' as int), false)
    else if s[0] == '_' && !needDigit then ParseDigits(s[1..], acc, true)
    else None
  }

  function ParseInt(s: string): Option<int> {
    if s != [] && s[0] == '-' then
      match ParseDigits(s[1..], 0, true)
      case Some(n) => Some(-n)
      case None => None
    else ParseDigits(if s != [] && s[0] == '+' then s[1..] else s, 0, true)
  }

  predicate Quoted(raw: string, quote: char) {
    raw != [] && raw[0] == quote && raw[|raw| - 1] == quote
  }

  function ResolveLiteral(raw: string, parseFloat: string -> Option<real>): Value {
    if Lower(raw) == "true" then Bool(true)
    else if Lower(raw) == "false" then Bool(false)
    else if ParseInt(raw).Some? then Int(ParseInt(raw).value)
    else if parseFloat(raw).Some? then Real(parseFloat(raw).value)
    else if Quoted(raw, '\'') || Quoted(raw, '"') then Str(if |raw| < 2 then "" else raw[1..|raw| - 1])
    else Str(raw)
  }

  // ── Comparison ──

  function Equal(a: Value, b: Value): bool {
    if Number(a).Some? && Number(b).Some? then Number(a) == Number(b) else a == b
  }

  /** `a < b`; `None` where the host language raises a type error. */
  function Less(a: Value, b: Value): Option<bool> {
    if Number(a).Some? && Number(b).Some? then Some(Number(a).value < Number(b).value)
    else if a.Str? && b.Str? then Some(StrLess(a.s, b.s))
    else None
  }

  datatype Operator = Eq | Ne | Ge | Le | Gt | Lt

  function Symbol(op: Operator): string {
    match op
    case Eq => "=="
    case Ne => "!="
    case Ge => ">="
    case Le => "<="
    case Gt => ">"
    case Lt => "<"
  }

  function Negate(r: Option<bool>): Option<bool> {
    match r
    case Some(b) => Some(!b)
    case None => None
  }

  function Compare(op: Operator, a: Value, b: Value): Option<bool> {
    match op
    case Eq => Some(Equal(a, b))
    case Ne => Some(!Equal(a, b))
    case Lt => Less(a, b)
    case Gt => Less(b, a)
    case Ge => Negate(Less(a, b))
    case Le => Negate(Less(b, a))
  }

  /** The operator's meaning on numbers. */
  predicate Holds(op: Operator, x: real, y: real) {
    match op
    case Eq => x == y
    case Ne => x != y
    case Ge => x >= y
    case Le => x <= y
    case Gt => x > y
    case Lt => x < y
  }

  /** Operators are the mathematical ones on numbers; strings follow code points; others compare for equality only. */
  lemma ComparesAsWritten(op: Operator, a: Value, b: Value)
    ensures Number(a).Some? && Number(b).Some? ==>
              Compare(op, a, b) == Some(Holds(op, Number(a).value, Number(b).value))
    ensures a.Str? && b.Str? ==>
              (Compare(Le, a, b) == Some(StrLess(a.s, b.s) || a.s == b.s))
              && (Compare(Ge, a, b) == Some(StrLess(b.s, a.s) || a.s == b.s))
    ensures Compare(op, a, b).None? <==>
            op !in {Eq, Ne} && !(Number(a).Some? && Number(b).Some?) && !(a.Str? && b.Str?)
  {
    if a.Str? && b.Str? { StrLessTrichotomy(a.s, b.s); }
  }

  // ── Evaluation ──

  /** Search order: longer symbols first, ties as declared. */
  const SEARCH_ORDER := [Eq, Ne, Ge, Le, Gt, Lt]

  datatype Comparison = Comparison(op: Operator, left: string, right: string)

  /** `expr.split(op, 1)` with both halves stripped. */
  function SplitAt(expr: string, op: Operator, i: nat): Comparison
    requires i + |Symbol(op)| <= |expr|
  {
    Comparison(op, Strip(expr[..i]), Strip(expr[i + |Symbol(op)|..]))
  }

  /** The first operator, from search position `k` on, that occurs in the text. */
  function FindOperator(expr: string, k: nat): Option<Comparison>
    requires k <= |SEARCH_ORDER|
    decreases |SEARCH_ORDER| - k
  {
    if k == |SEARCH_ORDER| then None
    else
      var op := SEARCH_ORDER[k];
      var i := Find(expr, Symbol(op));
      if i >= 0 then Some(SplitAt(expr, op, i))
      else FindOperator(expr, k + 1)
  }

  /** What an expression is: a constant, a comparison, or a path tested for truth. */
  datatype Parsed = Constant(b: bool) | Compared(c: Comparison) | Path(path: string)

  function Parse(expression: string): Parsed {
    var expr := Strip(expression);
    if Lower(expr) == "true" then Constant(true)
    else if Lower(expr) == "false" then Constant(false)
    else
      match FindOperator(expr, 0)
      case Some(c) => Compared(c)
      case None => Path(expr)
  }

  /** `None` is a type error raised by the comparison. */
  function EvaluateCondition(expression: string, context: map<string, Value>, parseFloat: string -> Option<real>)
    : Option<bool>
  {
    match Parse(expression)
    case Constant(b) => Some(b)
    case Compared(c) => Compare(c.op, Resolve(c.left, context), ResolveLiteral(c.right, parseFloat))
    case Path(path) => Some(Truthy(Resolve(path, context)))
  }

  /** The context names a condition looks up. */
  function ConditionReads(expression: string): set<string> {
    match Parse(expression)
    case Constant(_) => {}
    case Compared(c) => {Root(c.left)}
    case Path(path) => {Root(path)}
  }

  lemma ConditionDependsOnReads(expression: string, c1: map<string, Value>, c2: map<string, Value>,
                                parseFloat: string -> Option<real>)
    requires forall n :: n in ConditionReads(expression) ==> Get(c1, n) == Get(c2, n)
    ensures EvaluateCondition(expression, c1, parseFloat) == EvaluateCondition(expression, c2, parseFloat)
  {
    match Parse(expression)
    case Constant(_) =>
    case Compared(c) => ResolveReadsRoot(c.left, c1, c2);
    case Path(path) => ResolveReadsRoot(path, c1, c2);
  }

  // ── Printing ──

  predicate OperatorChar(c: char) {
    c == '=' || c == '!' || c == '<' || c == '>'
  }

  predicate OperatorFree(s: string) {
    forall i :: 0 <= i < |s| ==> !OperatorChar(s[i])
  }

  function PrintComparison(path: string, op: Operator, literal: string): string {
    path + " " + Symbol(op) + " " + literal
  }

  datatype Literal = IntLiteral(n: int) | BoolLiteral(b: bool) | StringLiteral(s: string, quote: char)

  function PrintLiteral(l: Literal): string {
    match l
    case IntLiteral(n) => PrintInt(n)
    case BoolLiteral(b) => if b then "true" else "false"
    case StringLiteral(s, quote) => [quote] + s + [quote]
  }

  function LiteralValue(l: Literal): Value {
    match l
    case IntLiteral(n) => Int(n)
    case BoolLiteral(b) => Bool(b)
    case StringLiteral(s, _) => Str(s)
  }

  lemma DigitValue(n: nat)
    ensures var d := ('0' as int + n % 10) as char;
            IsDigit(d) && d as int - '0' as int == n % 10
  {
  }

  lemma ParsesDigit(d: char, rest: string, acc: nat, needDigit: bool)
    requires IsDigit(d)
    ensures ParseDigits([d] + rest, acc, needDigit) == ParseDigits(rest, 10 * acc + (d as int - '0' as int), false)
  {
    assert ([d] + rest)[1..] == rest;
  }

  lemma {:induction false} ParsesPrintedDigits(n: nat, rest: string)
    ensures ParseDigits(PrintNat(n) + rest, 0, true) == ParseDigits(rest, n, false)
  {
    var d := [('0' as int + n % 10) as char];
    DigitValue(n);
    if n < 10 {
      ParsesDigit(d[0], rest, 0, true);
    } else {
      ParsesDigit(d[0], rest, n / 10, false);
      assert 10 * (n / 10) + n % 10 == n;
      assert PrintNat(n) + rest == PrintNat(n / 10) + (d + rest);
      ParsesPrintedDigits(n / 10, d + rest);
    }
  }

  lemma LiteralRoundTrip(l: Literal, parseFloat: string -> Option<real>)
    requires l.StringLiteral? ==> l.quote == '\'' || l.quote == '"'
    requires l.StringLiteral? ==> parseFloat(PrintLiteral(l)) == None
    ensures ResolveLiteral(PrintLiteral(l), parseFloat) == LiteralValue(l)
    ensures PrintLiteral(l) != [] && Trimmed(PrintLiteral(l))
  {
    var raw := PrintLiteral(l);
    match l
    case IntLiteral(n) =>
      var m: nat := if n < 0 then -n else n;
      PrintedDigitsAreDigits(m);
      ParsesPrintedDigits(m, "");
      assert PrintNat(m) + "" == PrintNat(m);
      assert n < 0 ==> raw[1..] == PrintNat(m);
      assert Lower(raw)[0] == raw[0];
    case BoolLiteral(b) =>
    case StringLiteral(s, quote) =>
      assert Lower(raw)[0] == quote;
      assert raw[1..|raw| - 1] == s;
  }

  lemma {:induction false} StripTrimmed(s: string)
    ensures Trimmed(s) ==> Strip(s) == s && Strip(s + " ") == s && Strip(" " + s) == s
  {
    assert (" " + s)[1..] == s;
    assert (s + " ")[..|s|] == s;
    if s == [] {
      assert (s + " ")[1..] == [];
    }
  }

  function Rank(op: Operator): (r: nat)
    ensures r < |SEARCH_ORDER| && SEARCH_ORDER[r] == op
  {
    match op
    case Eq => 0
    case Ne => 1
    case Ge => 2
    case Le => 3
    case Gt => 4
    case Lt => 5
  }

  lemma OccursChars(s: string, sub: string, i: int)
    requires OccursAt(s, sub, i)
    ensures sub != [] ==> s[i] == sub[0]
    ensures forall j :: 0 <= j < |sub| ==> s[i + j] == sub[j]
  {
    forall j | 0 <= j < |sub| ensures s[i + j] == sub[j] {
      assert s[i..i + |sub|][j] == s[i + j];
    }
  }

  lemma OccursChar(s: string, sub: string, i: int, k: int)
    requires OccursAt(s, sub, i) && i <= k < i + |sub|
    ensures s[k] in sub
  {
    assert s[k] == s[i..i + |sub|][k - i];
  }

  lemma OccursInside(a: string, b: string, c: string, sub: string, i: int)
    requires OccursAt(b, sub, i)
    ensures OccursAt(a + b + c, sub, |a| + i)
  {
    assert (a + b + c)[|a| + i..|a| + i + |sub|] == b[i..i + |sub|];
  }

  /** What contains no blank occurs before the blank or behind it. */
  lemma OccursBesideBlank(a: string, b: string, sub: string, i: int)
    requires sub != [] && ' ' !in sub && OccursAt(a + " " + b, sub, i)
    ensures OccursAt(a, sub, i) || (i > |a| && OccursAt(b, sub, i - |a| - 1))
  {
    var text := a + " " + b;
    assert text[|a|] == ' ';
    if i + |sub| <= |a| {
      assert a[i..i + |sub|] == text[i..i + |sub|];
    } else if i > |a| {
      assert b[i - |a| - 1..i - |a| - 1 + |sub|] == text[i..i + |sub|];
    } else {
      OccursChar(text, sub, i, |a|);
    }
  }

  lemma OccursAcrossBlank(a: string, b: string, sub: string)
    requires sub != [] && ' ' !in sub
    ensures Occurs(a + " " + b, sub) <==> Occurs(a, sub) || Occurs(b, sub)
  {
    var text := a + " " + b;
    if Occurs(text, sub) {
      var i :| OccursAt(text, sub, i);
      OccursBesideBlank(a, b, sub, i);
    }
    if Occurs(a, sub) {
      var i :| OccursAt(a, sub, i);
      OccursInside("", a, " " + b, sub, i);
      assert "" + a + (" " + b) == text;
    }
    if Occurs(b, sub) {
      var i :| OccursAt(b, sub, i);
      OccursInside(a + " ", b, "", sub, i);
      assert a + " " + b + "" == text;
    }
  }

  /** Symbols contain no blank, and none contains one that is tried earlier. */
  lemma SymbolFacts(op: Operator, e: Operator)
    ensures ' ' !in Symbol(e)
    ensures Rank(e) < Rank(op) ==> !Occurs(Symbol(op), Symbol(e))
  {
    if Occurs(Symbol(op), Symbol(e)) {
      var i :| OccursAt(Symbol(op), Symbol(e), i);
      OccursChars(Symbol(op), Symbol(e), i);
    }
  }

  /** The printed comparison without the blank of an empty path. */
  function Expression(path: string, op: Operator, literal: string): string {
    Left(path) + Symbol(op) + " " + literal
  }

  /** An operator is found in the expression exactly when the path, the symbol or the literal contains it. */
  lemma OccursInExpression(path: string, op: Operator, literal: string, e: Operator)
    ensures Occurs(Expression(path, op, literal), Symbol(e))
       <==> Occurs(path, Symbol(e)) || Occurs(Symbol(op), Symbol(e)) || Occurs(literal, Symbol(e))
  {
    var rest := Symbol(op) + " " + literal;
    SymbolFacts(op, e);
    OccursAcrossBlank(Symbol(op), literal, Symbol(e));
    if path == [] {
      assert Expression(path, op, literal) == rest;
    } else {
      assert Expression(path, op, literal) == path + " " + rest;
      OccursAcrossBlank(path, rest, Symbol(e));
    }
  }

  function Left(path: string): string {
    if path == [] then "" else path + " "
  }

  lemma OwnSymbolOccurs(path: string, op: Operator, literal: string)
    ensures OccursAt(Expression(path, op, literal), Symbol(op), |Left(path)|)
  {
    assert OccursAt(Symbol(op), Symbol(op), 0);
    OccursInside(Left(path), Symbol(op), " " + literal, Symbol(op), 0);
    assert Left(path) + Symbol(op) + (" " + literal) == Expression(path, op, literal);
  }

  lemma OccursBeforeSymbol(path: string, op: Operator, literal: string, i: int)
    requires i < |Left(path)|
    ensures OccursAt(Expression(path, op, literal), Symbol(op), i) <==> OccursAt(path, Symbol(op), i)
  {
    var rest := Symbol(op) + " " + literal;
    SymbolFacts(op, op);
    if path != [] {
      assert Expression(path, op, literal) == path + " " + rest == "" + path + (" " + rest);
      if OccursAt(Expression(path, op, literal), Symbol(op), i) { OccursBesideBlank(path, rest, Symbol(op), i); }
      if OccursAt(path, Symbol(op), i) { OccursInside("", path, " " + rest, Symbol(op), i); }
    }
  }

  /** The operator's own symbol is found where it was printed exactly when the path does not contain it. */
  lemma FindsOwnSymbol(path: string, op: Operator, literal: string)
    ensures var i := Find(Expression(path, op, literal), Symbol(op));
            if Occurs(path, Symbol(op)) then 0 <= i < |path| else i == |Left(path)|
  {
    var expr, sub := Expression(path, op, literal), Symbol(op);
    var i := Find(expr, sub);
    OwnSymbolOccurs(path, op, literal);
    assert 0 <= i <= |Left(path)|;
    forall k | k < |Left(path)| ensures OccursAt(expr, sub, k) <==> OccursAt(path, sub, k) {
      OccursBeforeSymbol(path, op, literal, k);
    }
    if Occurs(path, sub) {
      var k :| OccursAt(path, sub, k);
      assert OccursAt(expr, sub, k);
    }
  }

  /** No operator at search positions from `k` up to that of `op` occurs in the text. */
  ghost predicate NoneBefore(expr: string, op: Operator, k: nat) {
    forall j :: k <= j < Rank(op) ==> !Occurs(expr, Symbol(SEARCH_ORDER[j]))
  }

  /** The search stops at `op` when no operator tried before it occurs. */
  lemma {:induction false} SearchFinds(expr: string, op: Operator, k: nat)
    requires k <= Rank(op) && Occurs(expr, Symbol(op)) && NoneBefore(expr, op, k)
    ensures Find(expr, Symbol(op)) >= 0
    ensures FindOperator(expr, k) == Some(SplitAt(expr, op, Find(expr, Symbol(op))))
    decreases Rank(op) - k
  {
    if k < Rank(op) { SearchFinds(expr, op, k + 1); }
  }

  lemma {:induction false} SearchStopsEarly(expr: string, op: Operator, k: nat)
    requires k <= Rank(op) && !NoneBefore(expr, op, k)
    ensures FindOperator(expr, k).Some? && Rank(FindOperator(expr, k).value.op) < Rank(op)
    decreases Rank(op) - k
  {
    if !Occurs(expr, Symbol(SEARCH_ORDER[k])) {
      SearchStopsEarly(expr, op, k + 1);
    } else {
      assert Rank(SEARCH_ORDER[k]) == k;
    }
  }

  lemma {:induction false} StripShortens(s: string)
    ensures |Strip(s)| <= |s|
  {
    if s == [] {
      assert Strip(s) == s;
    } else if IsSpace(s[0]) {
      StripShortens(s[1..]);
    } else if IsSpace(s[|s| - 1]) {
      StripShortens(s[..|s| - 1]);
    }
  }

  /** The path does not contain the operator, and neither side contains one that is tried earlier. */
  ghost predicate SplitsBack(path: string, op: Operator, literal: string) {
    NoneBefore(path, op, 0) && !Occurs(path, Symbol(op)) && NoneBefore(literal, op, 0)
  }

  lemma NoneBeforeExpression(path: string, op: Operator, literal: string)
    ensures NoneBefore(Expression(path, op, literal), op, 0) <==> NoneBefore(path, op, 0) && NoneBefore(literal, op, 0)
  {
    forall j | 0 <= j < Rank(op)
      ensures Occurs(Expression(path, op, literal), Symbol(SEARCH_ORDER[j]))
         <==> Occurs(path, Symbol(SEARCH_ORDER[j])) || Occurs(literal, Symbol(SEARCH_ORDER[j]))
    {
      OccursInExpression(path, op, literal, SEARCH_ORDER[j]);
      assert Rank(SEARCH_ORDER[j]) == j;
      SymbolFacts(op, SEARCH_ORDER[j]);
    }
  }

  /** A split before the end of the path does not give the path back. */
  lemma SplitsTooEarly(expr: string, op: Operator, path: string, i: nat)
    requires i < |path| && i + |Symbol(op)| <= |expr|
    ensures SplitAt(expr, op, i).left != path
  {
    StripShortens(expr[..i]);
  }

  lemma SplitsWherePrinted(path: string, op: Operator, literal: string)
    requires Trimmed(path) && Trimmed(literal)
    ensures var expr := Expression(path, op, literal);
            |Left(path)| + |Symbol(op)| <= |expr|
            && SplitAt(expr, op, |Left(path)|) == Comparison(op, path, literal)
  {
    SplitsAround(Left(path), Symbol(op), " " + literal);
    assert Expression(path, op, literal) == Left(path) + Symbol(op) + (" " + literal);
    StripTrimmed(path);
    StripTrimmed(literal);
  }

  lemma {:induction false} SearchSplits(path: string, op: Operator, literal: string)
    requires Trimmed(path) && Trimmed(literal)
    ensures FindOperator(Expression(path, op, literal), 0) == Some(Comparison(op, path, literal))
       <==> SplitsBack(path, op, literal)
  {
    var expr := Expression(path, op, literal);
    NoneBeforeExpression(path, op, literal);
    if NoneBefore(expr, op, 0) {
      OwnSymbolOccurs(path, op, literal);
      SearchFinds(expr, op, 0);
      FindsOwnSymbol(path, op, literal);
      if Occurs(path, Symbol(op)) {
        SplitsTooEarly(expr, op, path, Find(expr, Symbol(op)));
      } else {
        SplitsWherePrinted(path, op, literal);
      }
    } else {
      SearchStopsEarly(expr, op, 0);
    }
  }

  lemma SplitsAround(a: string, b: string, c: string)
    ensures (a + b + c)[..|a|] == a && (a + b + c)[|a| + |b|..] == c
  {
  }

  /**
   The printed text splits back into its operator, path and literal exactly when the path does not
   contain the operator and neither path nor literal contains an operator that the search tries first.
   */
  lemma PrintedComparisonSplits(path: string, op: Operator, literal: string)
    requires Trimmed(path) && Trimmed(literal) && literal != []
    ensures Parse(PrintComparison(path, op, literal)) == Compared(Comparison(op, path, literal))
       <==> SplitsBack(path, op, literal)
  {
    StripsToExpression(path, op, literal);
    SearchSplits(path, op, literal);
    NotAConstant(Left(path), op, literal);
  }

  lemma StripsToExpression(path: string, op: Operator, literal: string)
    requires Trimmed(path) && Trimmed(literal) && literal != []
    ensures Strip(PrintComparison(path, op, literal)) == Expression(path, op, literal)
  {
    var text := PrintComparison(path, op, literal);
    var expr := Expression(path, op, literal);
    assert expr[|expr| - 1] == literal[|literal| - 1];
    StripTrimmed(expr);
    if path == [] {
      assert text == " " + expr;
    } else {
      assert text == expr;
    }
  }

  lemma NotAConstant(left: string, op: Operator, literal: string)
    ensures Lower(left + Symbol(op) + " " + literal) !in {"true", "false"}
  {
    var text := left + Symbol(op) + " " + literal;
    assert Lower(text)[|left|] == Symbol(op)[0];
  }

  /** Evaluating printed text compares the resolved path with the literal's value. */
  lemma {:induction false} ComparisonRoundTrip(path: string, op: Operator, l: Literal, context: Row,
                                               parseFloat: string -> Option<real>)
    requires Trimmed(path) && SplitsBack(path, op, PrintLiteral(l))
    requires l.StringLiteral? ==> l.quote == '\'' || l.quote == '"'
    requires l.StringLiteral? ==> parseFloat(PrintLiteral(l)) == None
    ensures EvaluateCondition(PrintComparison(path, op, PrintLiteral(l)), context, parseFloat)
         == Compare(op, Resolve(path, context), LiteralValue(l))
  {
    LiteralRoundTrip(l, parseFloat);
    PrintedComparisonSplits(path, op, PrintLiteral(l));
  }

  /** Paths and literals without operator characters, and so all numbers and booleans, always qualify. */
  lemma OperatorFreeTextQualifies(path: string, l: Literal, op: Operator)
    requires OperatorFree(path) && (l.StringLiteral? ==> OperatorFree(l.s) && !OperatorChar(l.quote))
    ensures SplitsBack(path, op, PrintLiteral(l))
  {
    PrintsOperatorFree(l);
    forall text, e, i | text in {path, PrintLiteral(l)} && OccursAt(text, Symbol(e), i) ensures false {
      OccursChars(text, Symbol(e), i);
    }
  }

  lemma PrintsOperatorFree(l: Literal)
    requires l.StringLiteral? ==> OperatorFree(l.s) && !OperatorChar(l.quote)
    ensures OperatorFree(PrintLiteral(l))
  {
    match l
    case IntLiteral(n) => PrintedDigitsAreDigits(if n < 0 then -n else n);
    case BoolLiteral(_) =>
    case StringLiteral(_, _) =>
  }
}
