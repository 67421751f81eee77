/** What the comparison operators mean on integers, on quoted texts and across kinds. */
module ConditionValues {
  import opened Text
  import opened Condition

  /** Lexicographic order: a proper prefix, or a smaller character at the first difference. */
  ghost predicate LexLess(a: string, b: string) {
    exists k: nat :: k <= |a| && k < |b| && a[..k] == b[..k] && (k == |a| || a[k] < b[k])
  }

  lemma LexTail(a: string, b: string)
    requires a != [] && b != [] && a[0] == b[0]
    ensures LexLess(a, b) <==> LexLess(a[1..], b[1..])
  {
    var c, d := a[1..], b[1..];
    if LexLess(a, b) {
      var k: nat :| k <= |a| && k < |b| && a[..k] == b[..k] && (k == |a| || a[k] < b[k]);
      assert k > 0;
      assert c[..k - 1] == a[..k][1..] && d[..k - 1] == b[..k][1..];
      assert k - 1 <= |c| && k - 1 < |d| && (k - 1 == |c| || c[k - 1] < d[k - 1]);
    }
    if LexLess(c, d) {
      var k: nat :| k <= |c| && k < |d| && c[..k] == d[..k] && (k == |c| || c[k] < d[k]);
      assert a[..k + 1] == [a[0]] + c[..k] && b[..k + 1] == [b[0]] + d[..k];
    }
  }

  /** Comparing characters one by one decides the lexicographic order. */
  lemma {:induction false} CompareStringsIsLex(a: string, b: string)
    ensures CompareStrings(a, b) == Less <==> LexLess(a, b)
    ensures CompareStrings(a, b) == Equal <==> a == b
    ensures CompareStrings(a, b) == Greater <==> LexLess(b, a)
    decreases |a|
  {
    if a == [] || b == [] {
      assert a == [] && b != [] ==> a[..0] == b[..0];
      assert b == [] && a != [] ==> a[..0] == b[..0];
    } else if a[0] != b[0] {
      assert a[..0] == b[..0];
      assert LexLess(a, b) ==> a[0] < b[0] by { FirstDecides(a, b); }
      assert LexLess(b, a) ==> b[0] < a[0] by { FirstDecides(b, a); }
    } else {
      CompareStringsIsLex(a[1..], b[1..]);
      LexTail(a, b);
      LexTail(b, a);
      assert a == [a[0]] + a[1..] && b == [b[0]] + b[1..];
    }
  }

  lemma FirstDecides(a: string, b: string)
    requires a != [] && b != [] && a[0] != b[0]
    ensures LexLess(a, b) ==> a[0] < b[0]
  {
    if LexLess(a, b) {
      var k: nat :| k <= |a| && k < |b| && a[..k] == b[..k] && (k == |a| || a[k] < b[k]);
      SameFirst(a, b, k);
    }
  }

  lemma SameFirst(a: string, b: string, k: nat)
    requires k <= |a| && k <= |b| && a[..k] == b[..k]
    ensures k > 0 ==> a[0] == b[0]
  {
    if k > 0 { assert a[..k][0] == b[..k][0]; }
  }

  /** What an operator says of two values in a total order. */
  predicate Holds(op: string, less: bool, same: bool) {
    if op == "==" then same
    else if op == "!=" then !same
    else if op == "<" then less
    else if op == ">" then !less && !same
    else if op == "<=" then less || same
    else op == ">=" && !less
  }

  lemma IntText(s: string)
    ensures ParseI64(s).Some? ==> s != [] && s[0] != '"' && s[0] != '\''
  {
    if ParseI64(s).Some? {
      var digits := if s[0] == '+' || s[0] == '-' then s[1..] else s;
      assert IsDigit(digits[0]);
    }
  }

  /** Operands that read as 64-bit integers are compared as integers. */
  lemma IntegersCompare(fl: FloatOps, l: string, r: string, op: string)
    requires ParseI64(Trim(l)).Some? && ParseI64(Trim(r)).Some? && op in COMPARISONS
    ensures var a, b := ParseI64(Trim(l)).value, ParseI64(Trim(r)).value;
            EvalComparison(fl, l, r, op) == Some(Holds(op, a < b, a == b))
  {
    hide Trim, ParseI64;
    IntText(Trim(l));
    IntText(Trim(r));
  }

  /** Quoted operands are compared as texts, whatever they look like inside. */
  lemma QuotedCompare(fl: FloatOps, p: char, x: string, q: char, y: string, op: string)
    requires p in "\"'" && q in "\"'" && op in COMPARISONS
    ensures EvalComparison(fl, [p] + x + [p], [q] + y + [q], op) == Some(Holds(op, LexLess(x, y), x == y))
  {
    hide Trim, ParseI64, LexLess;
    QuotedValue(fl, p, x);
    QuotedValue(fl, q, y);
    CompareStringsIsLex(x, y);
  }

  lemma QuotedValue(fl: FloatOps, p: char, x: string)
    requires p in "\"'"
    ensures ParseValue(fl, [p] + x + [p]) == Some(Str(x))
  {
    hide Trim, ParseI64, Lower;
    var s := [p] + x + [p];
    assert p == '"' || p == '\'';
    TrimOf([], s, []);
    assert [] + s + [] == s && s[0] == p && s[|s| - 1] == p;
    assert s[1..|s| - 1] == x;
  }

  /** Two values that `==` and the order treat differently: equal booleans and nulls, which are not
      ordered at all, and an integer next to a float of equal size, which are of different kinds. */
  predicate OrderDisagrees(fl: FloatOps, a: Value, b: Value) {
    || (a.Boolean? && a == b)
    || (a.Null? && b.Null?)
    || (a.Number? && b.Float? && fl.compare(fl.fromInt(a.n), b.bits) == Some(Equal))
    || (a.Float? && b.Number? && fl.compare(a.bits, fl.fromInt(b.n)) == Some(Equal))
  }

  /** `==` says the same as `<=` and `>=` together exactly when the values are not of these pairs. */
  lemma EqualityAgrees(fl: FloatOps, l: string, r: string)
    requires ParseValue(fl, l).Some? && ParseValue(fl, r).Some?
    ensures var a, b := ParseValue(fl, l).value, ParseValue(fl, r).value;
            var both := Conjoin(EvalComparison(fl, l, r, "<="), EvalComparison(fl, l, r, ">="));
            EvalComparison(fl, l, r, "==") == both <==> !OrderDisagrees(fl, a, b)
  {
    hide ParseValue, CompareStrings;
    var a, b := ParseValue(fl, l).value, ParseValue(fl, r).value;
    if a.Str? && b.Str? { CompareStringsIsLex(a.text, b.text); }
  }

  /** The texts `1` and `1.0`: not equal, and neither smaller nor greater. */
  lemma OneIsNotOnePointZero(fl: FloatOps, f: int)
    requires fl.parse("1.0") == Some(f) && fl.compare(fl.fromInt(1), f) == Some(Equal)
    ensures EvalComparison(fl, "1", "1.0", "==") == Some(false)
    ensures EvalComparison(fl, "1", "1.0", "<=") == Some(true) && EvalComparison(fl, "1", "1.0", ">=") == Some(true)
  {
    TrimOf([], "1", []);
    TrimOf([], "1.0", []);
    assert [] + "1" + [] == "1" && [] + "1.0" + [] == "1.0";
    assert "1"[..0] == [] && DigitsValue("1") == 1;
    assert !IsDigit("1.0"[1]);
  }
}
