/** The condition evaluator of conditional edges and node guards.

    Strings are sequences of Unicode scalar values. Slicing that would panic in
    the program (an operand that is one lone quotation mark) is the outcome `None`. */
module Condition {
  import opened Text

  // ---------- parenthesis depth ----------

  function Delta(c: char): int {
    if c == '(' then 1 else if c == ')' then -1 else 0
  }

  /** Opening minus closing parentheses. */
  function Depth(s: string): int {
    if s == [] then 0 else Depth(s[..|s| - 1]) + Delta(s[|s| - 1])
  }

  lemma {:induction false} DepthConcat(a: string, b: string)
    ensures Depth(a + b) == Depth(a) + Depth(b)
  {
    if b == [] {
      assert a + b == a;
    } else {
      assert (a + b)[..|a| + |b| - 1] == a + b[..|b| - 1];
      DepthConcat(a, b[..|b| - 1]);
    }
  }

  lemma DepthStep(s: string, i: nat)
    requires i < |s|
    ensures Depth(s[..i + 1]) == Depth(s[..i]) + Delta(s[i])
  {
    assert s[..i + 1][..i] == s[..i];
  }

  // ---------- operator search ----------

  /** Operator `op` starts at position `i`, outside every parenthesis. */
  predicate OperatorAt(s: string, op: string, i: int) {
    0 <= i < |s| && Delta(s[i]) == 0 && Depth(s[..i]) == 0 && op <= s[i..]
  }

  function FindOperator(s: string, op: string): (r: Option<nat>)
    ensures r.Some? ==> OperatorAt(s, op, r.value) && forall j :: 0 <= j < r.value ==> !OperatorAt(s, op, j)
    ensures r.None? ==> forall j :: !OperatorAt(s, op, j)
  {
    assert s[..0] == [];
    FindOperatorFrom(s, op, 0, 0)
  }

  function FindOperatorFrom(s: string, op: string, i: nat, depth: int): (r: Option<nat>)
    requires i <= |s| && depth == Depth(s[..i])
    ensures r.Some? ==> i <= r.value && OperatorAt(s, op, r.value) && forall j :: i <= j < r.value ==> !OperatorAt(s, op, j)
    ensures r.None? ==> forall j :: i <= j ==> !OperatorAt(s, op, j)
    decreases |s| - i
  {
    if i == |s| then None
    else if Delta(s[i]) == 0 && depth == 0 && op <= s[i..] then Some(i)
    else
      DepthStep(s, i);
      FindOperatorFrom(s, op, i + 1, depth + Delta(s[i]))
  }

  /** The scan with its running depth counter. */
  method FindOperatorScan(expr: string, op: string) returns (pos: Option<nat>)
    ensures pos == FindOperator(expr, op)
  {
    var depth := 0;
    var i := 0;
    assert expr[..0] == [];
    while i < |expr|
      invariant 0 <= i <= |expr|
      invariant depth == Depth(expr[..i])
      invariant forall j :: 0 <= j < i ==> !OperatorAt(expr, op, j)
    {
      DepthStep(expr, i);
      var ch := expr[i];
      if ch == '(' {
        depth := depth + 1;
      } else if ch == ')' {
        depth := depth - 1;
      } else if depth == 0 && op <= expr[i..] {
        assert OperatorAt(expr, op, i);
        return Some(i);
      }
      i := i + 1;
    }
    return None;
  }

  // ---------- outer parentheses ----------

  /** One pair of parentheses encloses the whole text. */
  predicate Wrapped(s: string) {
    && |s| >= 2 && s[0] == '(' && s[|s| - 1] == ')' && Depth(s) == 0
    && forall k :: 0 < k < |s| ==> Depth(s[..k]) > 0
  }

  function StripOuterParens(s: string): (r: string)
    ensures |r| <= |s|
  {
    if Wrapped(s) then s[1..|s| - 1] else s
  }

  /** The walk that looks for an early close of the first parenthesis. */
  method StripOuterParensScan(expr: string) returns (r: string)
    ensures r == StripOuterParens(expr)
  {
    if expr == [] || expr[0] != '(' || expr[|expr| - 1] != ')' {
      return expr;
    }
    var depth := 0;
    var i := 0;
    assert expr[..0] == [];
    while i < |expr|
      invariant 0 <= i <= |expr|
      invariant depth == Depth(expr[..i])
      invariant forall k :: 0 < k <= i && k < |expr| ==> Depth(expr[..k]) > 0
    {
      DepthStep(expr, i);
      if expr[i] == '(' {
        depth := depth + 1;
      } else if expr[i] == ')' {
        depth := depth - 1;
        if depth == 0 && i < |expr| - 1 {
          assert Depth(expr[..i + 1]) == 0;
          return expr;
        }
      }
      i := i + 1;
    }
    assert expr[..|expr|] == expr;
    if depth == 0 {
      return expr[1..|expr| - 1];
    }
    return expr;
  }

  // ---------- values ----------

  datatype Ordering = Less | Equal | Greater

  /** Floating-point operations, abstract: `parse` yields a representation,
      `compare` the partial order (no answer for a NaN), `fromInt` the conversion. */
  datatype FloatOps = FloatOps(
    parse: string -> Option<int>,
    compare: (int, int) -> Option<Ordering>,
    fromInt: int -> int)

  datatype Value =
    | Str(text: string)
    | Number(n: int)
    | Float(bits: int)
    | Boolean(b: bool)
    | Null

  /** `None` is the panic of slicing `s[1..s.len() - 1]` when `s` is one quotation mark. */
  function ParseValue(fl: FloatOps, raw: string): Option<Value> {
    var s := Trim(raw);
    if s != [] && ((s[0] == '"' && s[|s| - 1] == '"') || (s[0] == '\'' && s[|s| - 1] == '\'')) then
      if |s| == 1 then None else Some(Str(s[1..|s| - 1]))
    else if ParseI64(s).Some? then Some(Number(ParseI64(s).value))
    else if fl.parse(s).Some? then Some(Float(fl.parse(s).value))
    else
      var word := Lower(s);
      if word == "true" then Some(Boolean(true))
      else if word == "false" then Some(Boolean(false))
      else if word == "null" || word == "none" then Some(Null)
      else Some(Str(s))
  }

  /** The literals `true`, `1` and `yes`; every other text is false. */
  function ParseBool(s: string): bool {
    Lower(Trim(s)) in {"true", "1", "yes"}
  }

  function CompareInts(a: int, b: int): Ordering {
    if a < b then Less else if a == b then Equal else Greater
  }

  function CompareStrings(a: string, b: string): Ordering {
    if a == [] then (if b == [] then Equal else Less)
    else if b == [] then Greater
    else if a[0] != b[0] then (if a[0] < b[0] then Less else Greater)
    else CompareStrings(a[1..], b[1..])
  }

  function CompareValues(fl: FloatOps, l: Value, r: Value): Option<Ordering> {
    match (l, r)
    case (Number(a), Number(b)) => Some(CompareInts(a, b))
    case (Float(a), Float(b)) => fl.compare(a, b)
    case (Number(a), Float(b)) => fl.compare(fl.fromInt(a), b)
    case (Float(a), Number(b)) => fl.compare(a, fl.fromInt(b))
    case (Str(a), Str(b)) => Some(CompareStrings(a, b))
    case _ => None
  }

  /** Derived `PartialEq`: values of different kinds differ, floats by their own equality. */
  predicate SameValue(fl: FloatOps, l: Value, r: Value) {
    if l.Float? && r.Float? then fl.compare(l.bits, r.bits) == Some(Equal) else l == r
  }

  function EvalComparison(fl: FloatOps, left: string, right: string, op: string): Option<bool> {
    match (ParseValue(fl, left), ParseValue(fl, right))
    case (Some(l), Some(r)) =>
      var c := CompareValues(fl, l, r);
      Some(
        if op == "==" then SameValue(fl, l, r)
        else if op == "!=" then !SameValue(fl, l, r)
        else if op == "<" then c == Some(Less)
        else if op == ">" then c == Some(Greater)
        else if op == "<=" then c == Some(Less) || c == Some(Equal)
        else if op == ">=" then c == Some(Greater) || c == Some(Equal)
        else false)
    case _ => None
  }

  // ---------- evaluation ----------

  const COMPARISONS: seq<string> := ["==", "!=", "<=", ">=", "<", ">"]

  /** Both operands are evaluated before they are combined, so a panic on either side escapes. */
  function Disjoin(l: Option<bool>, r: Option<bool>): Option<bool> {
    if l.Some? && r.Some? then Some(l.value || r.value) else None
  }

  function Conjoin(l: Option<bool>, r: Option<bool>): Option<bool> {
    if l.Some? && r.Some? then Some(l.value && r.value) else None
  }

  /** `eval_expression`: trim, strip one outer pair, split at the first operator. */
  function Eval(fl: FloatOps, expr: string): Option<bool>
    decreases |expr|, 1
  {
    EvalBody(fl, StripOuterParens(Trim(expr)))
  }

  function EvalBody(fl: FloatOps, s: string): Option<bool>
    decreases |s|, 0
  {
    var disj := FindOperator(s, "||");
    if disj.Some? then
      Disjoin(Eval(fl, s[..disj.value]), Eval(fl, s[disj.value + 2..]))
    else
      var conj := FindOperator(s, "&&");
      if conj.Some? then
        Conjoin(Eval(fl, s[..conj.value]), Eval(fl, s[conj.value + 2..]))
      else
        EvalComparisons(fl, s, COMPARISONS)
  }

  /** The comparison operators are tried in the given order; without one the text is a boolean literal. */
  function EvalComparisons(fl: FloatOps, s: string, ops: seq<string>): Option<bool> {
    if ops == [] then Some(ParseBool(s))
    else
      var pos := FindOperator(s, ops[0]);
      if pos.Some? then
        EvalComparison(fl, Trim(s[..pos.value]), Trim(s[pos.value + |ops[0]|..]), ops[0])
      else EvalComparisons(fl, s, ops[1..])
  }
}
