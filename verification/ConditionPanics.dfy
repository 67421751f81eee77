/** For every text: evaluating it panics exactly when one of the comparisons it comes down to has a
    lone quotation mark as an operand. */
module ConditionPanics {
  import opened Text
  import opened Condition
  import ConditionGrammar

  /** The operands of all comparisons that the evaluation of a text makes, from left to right. */
  function Operands(expr: string): seq<string>
    decreases |expr|, 1
  {
    BodyOperands(StripOuterParens(Trim(expr)))
  }

  function BodyOperands(s: string): seq<string>
    decreases |s|, 0
  {
    var disj, conj := FindOperator(s, "||"), FindOperator(s, "&&");
    if disj.Some? then Operands(s[..disj.value]) + Operands(s[disj.value + 2..])
    else if conj.Some? then Operands(s[..conj.value]) + Operands(s[conj.value + 2..])
    else ComparisonOperands(s, COMPARISONS)
  }

  function ComparisonOperands(s: string, ops: seq<string>): seq<string> {
    if ops == [] then []
    else
      var pos := FindOperator(s, ops[0]);
      if pos.Some? then [Trim(s[..pos.value]), Trim(s[pos.value + |ops[0]|..])] else ComparisonOperands(s, ops[1..])
  }

  predicate SomeLoneQuote(operands: seq<string>) {
    exists i :: 0 <= i < |operands| && ConditionGrammar.LoneQuote(operands[i])
  }

  lemma LoneQuoteConcat(a: seq<string>, b: seq<string>)
    ensures SomeLoneQuote(a + b) <==> SomeLoneQuote(a) || SomeLoneQuote(b)
  {
    if SomeLoneQuote(a) {
      var i :| 0 <= i < |a| && ConditionGrammar.LoneQuote(a[i]);
      assert (a + b)[i] == a[i];
    }
    if SomeLoneQuote(b) {
      var i :| 0 <= i < |b| && ConditionGrammar.LoneQuote(b[i]);
      assert (a + b)[|a| + i] == b[i];
    }
  }

  lemma {:induction false} ComparisonPanics(fl: FloatOps, s: string, ops: seq<string>)
    ensures EvalComparisons(fl, s, ops).None? <==> SomeLoneQuote(ComparisonOperands(s, ops))
  {
    hide Trim, ParseValue, ConditionGrammar.LoneQuote;
    if ops != [] {
      var pos := FindOperator(s, ops[0]);
      if pos.Some? {
        var l, r := Trim(s[..pos.value]), Trim(s[pos.value + |ops[0]|..]);
        ConditionGrammar.ParsePanics(fl, l);
        ConditionGrammar.ParsePanics(fl, r);
        assert [l, r][0] == l && [l, r][1] == r;
      } else {
        ComparisonPanics(fl, s, ops[1..]);
      }
    }
  }

  /** Evaluating any text panics exactly when a comparison in it has a lone quotation mark as operand. */
  lemma {:induction false} EvalPanics(fl: FloatOps, expr: string)
    ensures Eval(fl, expr).None? <==> SomeLoneQuote(Operands(expr))
    decreases |expr|, 1
  {
    hide Trim, EvalBody, BodyOperands;
    BodyPanics(fl, StripOuterParens(Trim(expr)));
  }

  lemma {:induction false} BodyPanics(fl: FloatOps, s: string)
    ensures EvalBody(fl, s).None? <==> SomeLoneQuote(BodyOperands(s))
    decreases |s|, 0
  {
    hide Eval, Operands, SomeLoneQuote, EvalComparisons, ComparisonOperands;
    var disj, conj := FindOperator(s, "||"), FindOperator(s, "&&");
    if disj.Some? || conj.Some? {
      var n := if disj.Some? then disj.value else conj.value;
      var l, r := s[..n], s[n + 2..];
      EvalPanics(fl, l);
      EvalPanics(fl, r);
      LoneQuoteConcat(Operands(l), Operands(r));
    } else {
      ComparisonPanics(fl, s, COMPARISONS);
    }
  }

  // ---------- a check that needs no evaluation ----------

  predicate From(t: string, s: string) {
    forall c :: c in t ==> c in s
  }

  lemma TrimFrom(s: string)
    ensures From(Trim(s), s)
  {
    var a, b := TrimParts(s);
    forall c | c in Trim(s)
      ensures c in s
    {
      var i :| 0 <= i < |Trim(s)| && Trim(s)[i] == c;
      assert s[|a| + i] == c;
    }
  }

  predicate AllFrom(operands: seq<string>, s: string) {
    forall i :: 0 <= i < |operands| ==> From(operands[i], s)
  }

  lemma {:induction false} ComparisonOperandsFrom(s: string, ops: seq<string>)
    ensures AllFrom(ComparisonOperands(s, ops), s)
  {
    hide Trim;
    if ops != [] {
      var pos := FindOperator(s, ops[0]);
      if pos.Some? {
        TrimFrom(s[..pos.value]);
        TrimFrom(s[pos.value + |ops[0]|..]);
      } else {
        ComparisonOperandsFrom(s, ops[1..]);
      }
    }
  }

  /** Every operand consists of characters of the text. */
  lemma {:induction false} OperandsFrom(expr: string)
    ensures AllFrom(Operands(expr), expr)
    decreases |expr|, 1
  {
    hide Trim, BodyOperands;
    var t := Trim(expr);
    var s := StripOuterParens(t);
    TrimFrom(expr);
    assert From(s, t);
    BodyOperandsFrom(s);
  }

  lemma {:induction false} BodyOperandsFrom(s: string)
    ensures AllFrom(BodyOperands(s), s)
    decreases |s|, 0
  {
    hide Operands, ComparisonOperands;
    var disj, conj := FindOperator(s, "||"), FindOperator(s, "&&");
    if disj.Some? || conj.Some? {
      var n := if disj.Some? then disj.value else conj.value;
      OperandsFrom(s[..n]);
      OperandsFrom(s[n + 2..]);
      assert From(s[..n], s) && From(s[n + 2..], s);
    } else {
      ComparisonOperandsFrom(s, COMPARISONS);
    }
  }

  /** So a text without quotation marks never panics. */
  lemma NoQuoteNoPanic(fl: FloatOps, expr: string)
    requires '"' !in expr && '\'' !in expr
    ensures Eval(fl, expr).Some?
  {
    hide Trim, Eval, Operands;
    EvalPanics(fl, expr);
    OperandsFrom(expr);
    forall i | 0 <= i < |Operands(expr)|
      ensures !ConditionGrammar.LoneQuote(Operands(expr)[i])
    {
      var o := Operands(expr)[i];
      TrimFrom(o);
      assert Trim(o) != [] ==> Trim(o)[0] in Trim(o);
    }
  }
}
