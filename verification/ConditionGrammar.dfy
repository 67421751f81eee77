/** What the condition language means, and that the string evaluator computes it.

    A `Printed` tree is one way to write an expression: padding, and at most one
    pair of parentheses, around every subexpression. */
module ConditionGrammar {
  import opened Text
  import opened Condition

  datatype Expr =
    | Or(l: Expr, r: Expr)
    | And(l: Expr, r: Expr)
    | Cmp(op: string, left: string, right: string)
    | Lit(text: string)

  /** The meaning of an expression; `None` when a comparison operand is a lone quotation mark. */
  function Meaning(fl: FloatOps, e: Expr): Option<bool> {
    match e
    case Or(l, r) => Disjoin(Meaning(fl, l), Meaning(fl, r))
    case And(l, r) => Conjoin(Meaning(fl, l), Meaning(fl, r))
    case Cmp(op, left, right) => EvalComparison(fl, left, right, op)
    case Lit(text) => Some(ParseBool(text))
  }

  datatype Layout = Layout(pre: string, parens: bool, post: string)

  datatype Printed =
    | POr(lay: Layout, l: Printed, r: Printed)
    | PAnd(lay: Layout, l: Printed, r: Printed)
    | PCmp(lay: Layout, op: string, left: string, right: string)
    | PLit(lay: Layout, text: string)

  function Erase(p: Printed): Expr {
    match p
    case POr(_, l, r) => Or(Erase(l), Erase(r))
    case PAnd(_, l, r) => And(Erase(l), Erase(r))
    case PCmp(_, op, left, right) => Cmp(op, left, right)
    case PLit(_, text) => Lit(text)
  }

  function Core(p: Printed): string
    decreases p, 0
  {
    match p
    case POr(_, l, r) => Print(l) + "||" + Print(r)
    case PAnd(_, l, r) => Print(l) + "&&" + Print(r)
    case PCmp(_, op, left, right) => left + op + right
    case PLit(_, text) => text
  }

  function Body(p: Printed): string
    decreases p, 1
  {
    if p.lay.parens then "(" + Core(p) + ")" else Core(p)
  }

  function Print(p: Printed): string
    decreases p, 2
  {
    p.lay.pre + Body(p) + p.lay.post
  }

  /** The characters that operators and groups are made of. */
  predicate Special(c: char) { c in "()|&=!<>" }

  predicate Clean(s: string) {
    forall i :: 0 <= i < |s| ==> !Special(s[i])
  }

  /** The parentheses that precedence requires are there, and leaves hold no special character. */
  predicate WellPrinted(p: Printed) {
    && AllSpace(p.lay.pre) && AllSpace(p.lay.post)
    && match p
       case POr(_, l, r) => WellPrinted(l) && WellPrinted(r)
       case PAnd(_, l, r) =>
         WellPrinted(l) && WellPrinted(r) && !BareOr(l) && !BareOr(r)
       case PCmp(_, op, left, right) => op in COMPARISONS && Clean(left) && Clean(right)
       case PLit(_, text) => Clean(text)
  }

  predicate BareOr(p: Printed) { p.POr? && !p.lay.parens }

  predicate BareAnd(p: Printed) { p.PAnd? && !p.lay.parens }

  // ---------- balance ----------

  predicate Balanced(s: string) {
    Depth(s) == 0 && forall k :: 0 <= k <= |s| ==> Depth(s[..k]) >= 0
  }

  /** No character at depth 0 is in `cs`. */
  predicate TopFree(s: string, cs: string) {
    forall j :: 0 <= j < |s| && Depth(s[..j]) == 0 ==> s[j] !in cs
  }

  lemma PrefixOfConcat(a: string, b: string, k: nat)
    requires k <= |a| + |b|
    ensures (a + b)[..k] == if k <= |a| then a[..k] else a + b[..k - |a|]
  {
  }

  lemma DepthOfPrefix(a: string, b: string, k: nat)
    requires k <= |a| + |b|
    ensures Depth((a + b)[..k]) == if k <= |a| then Depth(a[..k]) else Depth(a) + Depth(b[..k - |a|])
  {
    PrefixOfConcat(a, b, k);
    if k > |a| { DepthConcat(a, b[..k - |a|]); }
  }

  lemma BalancedConcat(a: string, b: string)
    requires Balanced(a) && Balanced(b)
    ensures Balanced(a + b)
  {
    DepthConcat(a, b);
    forall k | 0 <= k <= |a + b|
      ensures Depth((a + b)[..k]) >= 0
    {
      DepthOfPrefix(a, b, k);
    }
  }

  lemma TopFreeConcat(a: string, b: string, cs: string)
    requires Depth(a) == 0
    requires TopFree(a, cs) && TopFree(b, cs)
    ensures TopFree(a + b, cs)
  {
    forall j | 0 <= j < |a + b| && Depth((a + b)[..j]) == 0
      ensures (a + b)[j] !in cs
    {
      DepthOfPrefix(a, b, j);
      if j == |a| { assert b[..0] == []; }
    }
  }

  lemma {:induction false} FlatBalanced(s: string)
    requires forall i :: 0 <= i < |s| ==> Delta(s[i]) == 0
    ensures Balanced(s)
    ensures forall k :: 0 <= k <= |s| ==> Depth(s[..k]) == 0
  {
    if s == [] {
    } else {
      var t := s[..|s| - 1];
      FlatBalanced(t);
      forall k | 0 <= k <= |s|
        ensures Depth(s[..k]) == 0
      {
        if k < |s| { assert s[..k] == t[..k]; } else { assert s[..k] == s; }
      }
      assert s[..|s|] == s;
    }
  }

  /** A parenthesised balanced text: the pair encloses everything, and nothing inside is at depth 0. */
  lemma ParensBalanced(core: string)
    requires Balanced(core)
    ensures var s := "(" + core + ")"; Balanced(s) && Wrapped(s) && TopFree(s, "|&=!<>")
  {
    var s := "(" + core + ")";
    var t := "(" + core;
    assert Depth("(") == 1 by { assert "("[..0] == []; }
    assert Depth(")") == -1 by { assert ")"[..0] == []; }
    DepthConcat("(", core);
    DepthConcat(t, ")");
    forall k | 0 < k < |s|
      ensures Depth(s[..k]) > 0
    {
      DepthOfPrefix(t, ")", k);
      DepthOfPrefix("(", core, k);
      assert k == 1 ==> core[..0] == [] && "("[..1] == "(";
    }
    assert s[..|s|] == s && s[..0] == [];
  }

  lemma JoinBalanced(a: string, mid: string, b: string)
    requires Balanced(a) && Balanced(mid) && Balanced(b)
    ensures Balanced(a + mid + b)
  {
    BalancedConcat(a, mid);
    BalancedConcat(a + mid, b);
  }

  lemma JoinTopFree(a: string, mid: string, b: string, cs: string)
    requires Depth(a) == 0 && Depth(mid) == 0
    requires TopFree(a, cs) && TopFree(mid, cs) && TopFree(b, cs)
    ensures TopFree(a + mid + b, cs)
  {
    DepthConcat(a, mid);
    TopFreeConcat(a, mid, cs);
    TopFreeConcat(a + mid, b, cs);
  }

  /** A comparison operator has one or two characters, all of `=!<>`. */
  predicate ComparisonShape(op: string) {
    1 <= |op| <= 2 && forall i :: 0 <= i < |op| ==> op[i] in "=!<>"
  }

  lemma ComparisonsShape()
    ensures forall i :: 0 <= i < |COMPARISONS| ==> ComparisonShape(COMPARISONS[i])
  {
  }

  lemma CmpBalanced(left: string, op: string, right: string)
    requires Clean(left) && ComparisonShape(op) && Clean(right)
    ensures Balanced(left + op + right) && TopFree(left + op + right, "|") && TopFree(left + op + right, "&")
  {
    var s := left + op + right;
    forall i | 0 <= i < |s|
      ensures Delta(s[i]) == 0 && s[i] != '|' && s[i] != '&'
    {
      var n := |left|;
      if i < n {
        assert s[i] == left[i] && !Special(left[i]);
      } else if i < n + |op| {
        assert s[i] == op[i - n];
      } else {
        assert s[i] == right[i - n - |op|] && !Special(right[i - n - |op|]);
      }
    }
    FlatBalanced(s);
  }

  lemma LitBalanced(s: string)
    requires Clean(s)
    ensures Balanced(s) && TopFree(s, "|") && TopFree(s, "&")
  {
    assert forall i :: 0 <= i < |s| ==> !Special(s[i]);
    FlatBalanced(s);
  }

  lemma {:induction false} CoreBalanced(p: Printed)
    requires WellPrinted(p)
    ensures Balanced(Core(p))
    ensures !p.POr? ==> TopFree(Core(p), "|")
    ensures !p.POr? && !p.PAnd? ==> TopFree(Core(p), "&")
    decreases p, 0
  {
    match p
    case POr(_, l, r) =>
      PrintBalanced(l); PrintBalanced(r);
      FlatBalanced("||");
      JoinBalanced(Print(l), "||", Print(r));
    case PAnd(_, l, r) =>
      PrintBalanced(l); PrintBalanced(r);
      FlatBalanced("&&");
      JoinBalanced(Print(l), "&&", Print(r));
      JoinTopFree(Print(l), "&&", Print(r), "|");
    case PCmp(_, op, left, right) =>
      ComparisonsShape();
      CmpBalanced(left, op, right);
    case PLit(_, text) =>
      LitBalanced(text);
  }

  lemma {:induction false} PrintBalanced(p: Printed)
    requires WellPrinted(p)
    ensures Balanced(Print(p))
    ensures !BareOr(p) ==> TopFree(Print(p), "|")
    ensures !BareOr(p) && !BareAnd(p) ==> TopFree(Print(p), "&")
    decreases p, 1
  {
    CoreBalanced(p);
    if p.lay.parens { GroupBalanced(Core(p)); }
    SpacedBalanced(p.lay.pre, Body(p), p.lay.post);
    if !BareOr(p) { SpacedTopFree(p.lay.pre, Body(p), p.lay.post, "|"); }
    if !BareOr(p) && !BareAnd(p) { SpacedTopFree(p.lay.pre, Body(p), p.lay.post, "&"); }
  }

  lemma GroupBalanced(core: string)
    requires Balanced(core)
    ensures Balanced("(" + core + ")")
    ensures TopFree("(" + core + ")", "|") && TopFree("(" + core + ")", "&")
  {
    ParensBalanced(core);
  }

  lemma SpacedBalanced(pre: string, body: string, post: string)
    requires AllSpace(pre) && AllSpace(post) && Balanced(body)
    ensures Balanced(pre + body + post)
  {
    FlatBalanced(pre);
    FlatBalanced(post);
    JoinBalanced(pre, body, post);
  }

  lemma SpacedTopFree(pre: string, body: string, post: string, cs: string)
    requires AllSpace(pre) && AllSpace(post)
    requires Depth(body) == 0 && TopFree(body, cs)
    requires forall c :: c in cs ==> !IsSpace(c)
    ensures TopFree(pre + body + post, cs)
  {
    FlatBalanced(pre);
    JoinTopFree(pre, body, post, cs);
  }

  // ---------- where operators are found ----------

  lemma OperatorPrefix(s: string, op: string, j: int)
    requires op != []
    ensures OperatorAt(s, op, j) ==> s[j] == op[0]
  {
    if 0 <= j < |s| && op <= s[j..] { assert s[j..][0] == op[0]; }
  }

  lemma NoOperator(s: string, op: string)
    requires op != [] && TopFree(s, [op[0]])
    ensures FindOperator(s, op) == None
  {
    forall j
      ensures !OperatorAt(s, op, j)
    {
      OperatorPrefix(s, op, j);
    }
  }

  lemma NoOperatorBefore(a: string, b: string, op: string, j: nat)
    requires op != [] && TopFree(a, [op[0]]) && j < |a|
    ensures !OperatorAt(a + b, op, j)
  {
    DepthOfPrefix(a, b, j);
    OperatorPrefix(a + b, op, j);
  }

  /** The first operator is found right after a balanced text without it. */
  lemma OperatorAfter(a: string, op: string, b: string)
    requires op != [] && Delta(op[0]) == 0
    requires Depth(a) == 0 && TopFree(a, [op[0]])
    ensures FindOperator(a + op + b, op) == Some(|a|)
  {
    hide Depth, OperatorAt, FindOperatorFrom;
    var s := a + op + b;
    assert s == a + (op + b);
    forall j | 0 <= j < |a|
      ensures !OperatorAt(s, op, j)
    {
      NoOperatorBefore(a, op + b, op, j);
    }
    OperatorHere(a, op, b);
  }

  lemma OperatorHere(a: string, op: string, b: string)
    requires op != [] && Delta(op[0]) == 0 && Depth(a) == 0
    ensures OperatorAt(a + op + b, op, |a|)
  {
    var s := a + op + b;
    assert s[..|a|] == a && s[|a|..] == op + b;
  }

  // ---------- white space does not matter ----------

  lemma EvalPadding(fl: FloatOps, a: string, s: string, b: string)
    requires AllSpace(a) && AllSpace(b)
    ensures Eval(fl, a + s + b) == Eval(fl, s)
  {
    TrimPadding(a, s, b);
  }

  predicate Solid(op: string) {
    op != [] && forall i :: 0 <= i < |op| ==> !IsSpace(op[i])
  }

  lemma PrefixPadded(u: string, b: string, op: string)
    requires Solid(op) && AllSpace(b)
    ensures op <= u + b <==> op <= u
  {
    assert op <= u ==> op <= u + b;
    if op <= u + b {
      var last := |op| - 1;
      assert op[last] == (u + b)[last];
      assert (u + b)[..|op|] == u[..|op|];
    }
  }

  lemma OperatorPadded(a: string, s: string, b: string, op: string, j: int)
    requires AllSpace(a) && AllSpace(b) && Solid(op)
    ensures OperatorAt(a + s + b, op, j) <==> OperatorAt(s, op, j - |a|)
  {
    var t := a + s + b;
    assert t == a + (s + b);
    var k := j - |a|;
    if 0 <= k < |s| {
      FlatBalanced(a);
      DepthOfPrefix(a, s + b, j);
      DepthOfPrefix(s, b, k);
      if k == 0 { assert s[..0] == [] && t[..j] == a; }
      assert t[j..] == s[k..] + b;
      PrefixPadded(s[k..], b, op);
    } else if 0 <= j < |t| {
      assert t[j] == if k >= |s| then b[k - |s|] else a[j];
      OperatorPrefix(t, op, j);
    }
  }

  /** An operator keeps its place, relative to the text, when padding is added. */
  lemma FindOperatorPadded(a: string, s: string, b: string, op: string)
    requires AllSpace(a) && AllSpace(b) && Solid(op)
    ensures var r := FindOperator(s, op);
            FindOperator(a + s + b, op) == if r.Some? then Some(|a| + r.value) else None
  {
    var t := a + s + b;
    forall j
      ensures OperatorAt(t, op, j) <==> OperatorAt(s, op, j - |a|)
    {
      OperatorPadded(a, s, b, op, j);
    }
    var r := FindOperator(s, op);
    if r.Some? { assert OperatorAt(t, op, |a| + r.value); }
  }

  lemma SplitPadded(a: string, s: string, b: string, n: nat, m: nat)
    requires n + m <= |s|
    ensures (a + s + b)[..|a| + n] == a + s[..n]
    ensures (a + s + b)[|a| + n + m..] == s[n + m..] + b
  {
  }

  lemma TrimSplitPadded(a: string, s: string, b: string, n: nat, m: nat)
    requires AllSpace(a) && AllSpace(b) && n + m <= |s|
    ensures Trim((a + s + b)[..|a| + n]) == Trim(s[..n])
    ensures Trim((a + s + b)[|a| + n + m..]) == Trim(s[n + m..])
  {
    SplitPadded(a, s, b, n, m);
    TrimPadStart(a, s[..n]);
    TrimPadEnd(s[n + m..], b);
  }

  /** Two texts split by the same operator, with operands equal up to padding. */
  predicate SameSplit(s: string, t: string, op: string, m: nat) {
    var p, q := FindOperator(s, op), FindOperator(t, op);
    && p.Some? && q.Some? && p.value + m <= |s| && q.value + m <= |t|
    && Trim(s[..p.value]) == Trim(t[..q.value])
    && Trim(s[p.value + m..]) == Trim(t[q.value + m..])
  }

  lemma OperatorPaddedSplit(a: string, s: string, b: string, op: string)
    requires AllSpace(a) && AllSpace(b) && Solid(op)
    ensures FindOperator(s, op).None? ==> FindOperator(a + s + b, op).None?
    ensures FindOperator(s, op).Some? ==> SameSplit(a + s + b, s, op, |op|)
  {
    hide Trim, FindOperatorFrom, Depth;
    FindOperatorPadded(a, s, b, op);
    var r := FindOperator(s, op);
    if r.Some? { TrimSplitPadded(a, s, b, r.value, |op|); }
  }

  lemma ComparisonSameSplit(fl: FloatOps, s: string, t: string, ops: seq<string>)
    requires ops != [] && SameSplit(s, t, ops[0], |ops[0]|)
    ensures EvalComparisons(fl, s, ops) == EvalComparisons(fl, t, ops)
  {
  }

  lemma ComparisonSkip(fl: FloatOps, s: string, ops: seq<string>)
    requires ops != [] && FindOperator(s, ops[0]).None?
    ensures EvalComparisons(fl, s, ops) == EvalComparisons(fl, s, ops[1..])
  {
  }

  lemma {:induction false} EvalComparisonsPadded(fl: FloatOps, a: string, s: string, b: string, ops: seq<string>)
    requires AllSpace(a) && AllSpace(b)
    requires forall i :: 0 <= i < |ops| ==> Solid(ops[i])
    ensures EvalComparisons(fl, a + s + b, ops) == EvalComparisons(fl, s, ops)
  {
    if ops == [] {
      TrimPadding(a, s, b);
    } else {
      OperatorPaddedSplit(a, s, b, ops[0]);
      if FindOperator(s, ops[0]).Some? {
        ComparisonSameSplit(fl, a + s + b, s, ops);
      } else {
        ComparisonSkip(fl, a + s + b, ops);
        ComparisonSkip(fl, s, ops);
        EvalComparisonsPadded(fl, a, s, b, ops[1..]);
      }
    }
  }

  lemma EvalBySame(fl: FloatOps, s: string, t: string)
    requires Trim(s) == Trim(t)
    ensures Eval(fl, s) == Eval(fl, t)
  {
  }

  lemma OrSameSplit(fl: FloatOps, s: string, t: string)
    requires SameSplit(s, t, "||", 2)
    ensures EvalBody(fl, s) == EvalBody(fl, t)
  {
    var p, q := FindOperator(s, "||").value, FindOperator(t, "||").value;
    EvalBySame(fl, s[..p], t[..q]);
    EvalBySame(fl, s[p + 2..], t[q + 2..]);
  }

  lemma AndSameSplit(fl: FloatOps, s: string, t: string)
    requires FindOperator(s, "||").None? && FindOperator(t, "||").None?
    requires SameSplit(s, t, "&&", 2)
    ensures EvalBody(fl, s) == EvalBody(fl, t)
  {
    var p, q := FindOperator(s, "&&").value, FindOperator(t, "&&").value;
    EvalBySame(fl, s[..p], t[..q]);
    EvalBySame(fl, s[p + 2..], t[q + 2..]);
  }

  lemma ComparisonBody(fl: FloatOps, s: string)
    requires FindOperator(s, "||").None? && FindOperator(s, "&&").None?
    ensures EvalBody(fl, s) == EvalComparisons(fl, s, COMPARISONS)
  {
  }

  lemma EvalBodyPadded(fl: FloatOps, a: string, s: string, b: string)
    requires AllSpace(a) && AllSpace(b)
    ensures EvalBody(fl, a + s + b) == EvalBody(fl, s)
  {
    var t := a + s + b;
    OperatorPaddedSplit(a, s, b, "||");
    OperatorPaddedSplit(a, s, b, "&&");
    if FindOperator(s, "||").Some? {
      OrSameSplit(fl, t, s);
    } else if FindOperator(s, "&&").Some? {
      AndSameSplit(fl, t, s);
    } else {
      ComparisonBody(fl, t);
      ComparisonBody(fl, s);
      SolidComparisons();
      EvalComparisonsPadded(fl, a, s, b, COMPARISONS);
    }
  }

  lemma SolidComparisons()
    ensures forall i :: 0 <= i < |COMPARISONS| ==> Solid(COMPARISONS[i])
  {
    ComparisonsShape();
  }

  // ---------- groups ----------

  /** A parenthesised balanced text evaluates like the text, unless the text is itself one
      group: the outer pair is stripped once only, and a group left over reads as false. */
  lemma EvalGroup(fl: FloatOps, s: string)
    requires Balanced(s)
    ensures Eval(fl, "(" + s + ")") == if Wrapped(Trim(s)) then Some(false) else Eval(fl, s)
  {
    ParensBalanced(s);
    EvalOneGroup(fl, "(" + s + ")", s);
    var a, b := TrimParts(s);
    EvalBodyPadded(fl, a, Trim(s), b);
    if Wrapped(Trim(s)) { EvalWrappedBody(fl, Trim(s)); }
  }

  lemma TrimTight(s: string)
    requires Tight(s)
    ensures Trim(s) == s
  {
    TrimOf([], s, []);
    assert [] + s + [] == s;
  }

  lemma EvalOneGroup(fl: FloatOps, g: string, s: string)
    requires g == "(" + s + ")" && Wrapped(g)
    ensures Eval(fl, g) == EvalBody(fl, s)
  {
    TrimTight(g);
    assert g[1..|g| - 1] == s;
  }

  lemma WrappedTopFree(s: string, op: string)
    requires Wrapped(s) && op != [] && Delta(op[0]) == 0
    ensures FindOperator(s, op) == None
  {
    assert s[0] == '(' && s[..0] == [];
    NoOperator(s, op);
  }

  lemma EvalWrappedBody(fl: FloatOps, s: string)
    requires Wrapped(s)
    ensures EvalBody(fl, s) == Some(false)
  {
    WrappedTopFree(s, "||");
    WrappedTopFree(s, "&&");
    ComparisonsShape();
    forall i | 0 <= i < |COMPARISONS|
      ensures FindOperator(s, COMPARISONS[i]) == None
    {
      WrappedTopFree(s, COMPARISONS[i]);
    }
    NoComparison(fl, s, COMPARISONS);
    TrimTight(s);
    assert Lower(s)[0] == '(';
  }

  lemma {:induction false} NoComparison(fl: FloatOps, s: string, ops: seq<string>)
    requires forall i :: 0 <= i < |ops| ==> FindOperator(s, ops[i]) == None
    ensures EvalComparisons(fl, s, ops) == Some(ParseBool(s))
  {
    if ops != [] { NoComparison(fl, s, ops[1..]); }
  }

  // ---------- splitting at a logical operator ----------

  /** A text that starts with a balanced part and goes on is not one group. */
  lemma NotWrapped(x: string, mid: string, y: string)
    requires mid != [] && mid[0] != '(' && Depth(x) == 0
    ensures !Wrapped(x + mid + y)
  {
    var s := x + mid + y;
    if x == [] { assert s[0] == mid[0]; } else { assert s[..|x|] == x; }
  }

  lemma DepthOfTrims(s: string, cs: string)
    ensures Depth(TrimStart(s)) == Depth(s)
    ensures TopFree(s, cs) ==> TopFree(TrimStart(s), cs)
  {
    var a := TrimStartParts(s);
    FlatBalanced(a);
    DepthConcat(a, TrimStart(s));
    if TopFree(s, cs) {
      var r := TrimStart(s);
      forall j | 0 <= j < |r| && Depth(r[..j]) == 0
        ensures r[j] !in cs
      {
        DepthOfPrefix(a, r, |a| + j);
        if j == 0 { assert (a + r)[..|a|] == a; }
        assert r[j] == s[|a| + j];
      }
    }
  }

  lemma TopFreeTrimEnd(s: string, cs: string)
    requires TopFree(s, cs)
    ensures TopFree(TrimEnd(s), cs)
  {
    var b := TrimEndParts(s);
    var r := TrimEnd(s);
    forall j | 0 <= j < |r| && Depth(r[..j]) == 0
      ensures r[j] !in cs
    {
      assert s[..j] == r[..j] && s[j] == r[j];
    }
  }

  lemma EvalTrimmedSides(fl: FloatOps, a: string, b: string)
    ensures Eval(fl, TrimStart(a)) == Eval(fl, a)
    ensures Eval(fl, TrimEnd(b)) == Eval(fl, b)
  {
    TrimOfTrimStart(a);
    TrimOfTrimEnd(b);
  }

  lemma SplitSides(a: string, op: string, b: string)
    requires |op| == 2
    ensures (a + op + b)[..|a|] == a && (a + op + b)[|a| + 2..] == b
  {
  }

  lemma EvalOr(fl: FloatOps, a: string, b: string)
    requires Depth(a) == 0 && TopFree(a, "|")
    ensures Eval(fl, a + "||" + b) == Disjoin(Eval(fl, a), Eval(fl, b))
    ensures Eval(fl, a).Some? && Eval(fl, b).Some? ==> Eval(fl, a + "||" + b) == Some(Eval(fl, a).value || Eval(fl, b).value)
  {
    var x, y := TrimStart(a), TrimEnd(b);
    TrimAround(a, "||", b);
    DepthOfTrims(a, "|");
    NotWrapped(x, "||", y);
    OperatorAfter(x, "||", y);
    SplitSides(x, "||", y);
    EvalTrimmedSides(fl, a, b);
  }

  lemma EvalAnd(fl: FloatOps, a: string, b: string)
    requires Depth(a) == 0 && TopFree(a, "|") && TopFree(a, "&") && TopFree(b, "|")
    ensures Eval(fl, a + "&&" + b) == Conjoin(Eval(fl, a), Eval(fl, b))
    ensures Eval(fl, a).Some? && Eval(fl, b).Some? ==> Eval(fl, a + "&&" + b) == Some(Eval(fl, a).value && Eval(fl, b).value)
  {
    hide TrimStart, TrimEnd, Depth, FindOperatorFrom;
    var x, y := TrimStart(a), TrimEnd(b);
    TrimAround(a, "&&", b);
    DepthOfTrims(a, "|");
    DepthOfTrims(a, "&");
    TopFreeTrimEnd(b, "|");
    NotWrapped(x, "&&", y);
    OperatorAfter(x, "&&", y);
    FlatBalanced("&&");
    TopFreeConcat(x, "&&", "|");
    DepthConcat(x, "&&");
    TopFreeConcat(x + "&&", y, "|");
    NoOperator(x + "&&" + y, "||");
    SplitSides(x, "&&", y);
    EvalTrimmedSides(fl, a, b);
  }

  // ---------- leaves ----------

  lemma EvalFlat(fl: FloatOps, s: string)
    requires forall i :: 0 <= i < |s| ==> Delta(s[i]) == 0
    ensures !Wrapped(Trim(s))
    ensures Eval(fl, s) == EvalBody(fl, s)
  {
    var a, b := TrimParts(s);
    var core := Trim(s);
    if core != [] { assert core[0] == s[|a|]; }
    EvalBodyPadded(fl, a, core, b);
  }

  lemma CmpChars(left: string, op: string, right: string)
    requires Clean(left) && ComparisonShape(op) && Clean(right)
    ensures var s := left + op + right; forall j :: 0 <= j < |s| ==>
              Delta(s[j]) == 0 && s[j] != '|' && s[j] != '&'
              && (s[j] in "=!<>" <==> |left| <= j < |left| + |op|)
  {
    var s := left + op + right;
    forall j | 0 <= j < |s|
      ensures Delta(s[j]) == 0 && s[j] != '|' && s[j] != '&'
              && (s[j] in "=!<>" <==> |left| <= j < |left| + |op|)
    {
      var n := |left|;
      if j < n {
        assert s[j] == left[j] && !Special(left[j]);
      } else if j < n + |op| {
        assert s[j] == op[j - n];
      } else {
        assert s[j] == right[j - n - |op|] && !Special(right[j - n - |op|]);
      }
    }
  }

  /** Only the operator itself, among those at least as long, matches anywhere. */
  lemma ComparisonMatch(left: string, op: string, right: string, o: string, j: int)
    requires Clean(left) && ComparisonShape(op) && Clean(right)
    requires ComparisonShape(o) && |o| >= |op|
    ensures OperatorAt(left + op + right, o, j) ==> o == op
  {
    var s := left + op + right;
    CmpChars(left, op, right);
    if 0 <= j < |s| && o <= s[j..] {
      assert o == s[j..][..|o|] == s[j..j + |o|];
      assert o[0] == s[j] && (|o| == 2 ==> o[1] == s[j + 1]);
      assert j == |left|;
      assert s[j..j + |op|] == op;
    }
  }

  lemma NoOtherComparison(left: string, op: string, right: string, o: string)
    requires Clean(left) && ComparisonShape(op) && Clean(right)
    requires ComparisonShape(o) && |o| >= |op| && o != op
    ensures FindOperator(left + op + right, o).None?
  {
    forall j
      ensures !OperatorAt(left + op + right, o, j)
    {
      ComparisonMatch(left, op, right, o, j);
    }
  }

  lemma {:induction false} SkipComparisons(fl: FloatOps, s: string, ops: seq<string>, k: nat)
    requires k <= |ops|
    requires forall i :: 0 <= i < k ==> FindOperator(s, ops[i]).None?
    ensures EvalComparisons(fl, s, ops) == EvalComparisons(fl, s, ops[k..])
  {
    if k == 0 {
      assert ops[0..] == ops;
    } else {
      ComparisonSkip(fl, s, ops);
      SkipComparisons(fl, s, ops[1..], k - 1);
      assert ops[1..][k - 1..] == ops[k..];
    }
  }

  lemma LongestFirst(k: nat, i: nat)
    requires i < k < |COMPARISONS|
    ensures |COMPARISONS[i]| >= |COMPARISONS[k]| && COMPARISONS[i] != COMPARISONS[k]
  {
  }

  lemma EvalCmp(fl: FloatOps, left: string, op: string, right: string)
    requires Clean(left) && op in COMPARISONS && Clean(right)
    ensures Eval(fl, left + op + right) == EvalComparison(fl, left, right, op)
  {
    var s := left + op + right;
    ComparisonsShape();
    CmpChars(left, op, right);
    EvalFlat(fl, s);
    NoOperator(s, "||");
    NoOperator(s, "&&");
    ComparisonBody(fl, s);
    var k :| 0 <= k < |COMPARISONS| && COMPARISONS[k] == op;
    forall i | 0 <= i < k
      ensures FindOperator(s, COMPARISONS[i]).None?
    {
      LongestFirst(k, i);
      NoOtherComparison(left, op, right, COMPARISONS[i]);
    }
    SkipComparisons(fl, s, COMPARISONS, k);
    EvalAtComparison(fl, left, op, right, COMPARISONS[k..]);
  }

  lemma EvalComparisonTrims(fl: FloatOps, left: string, right: string, op: string)
    ensures EvalComparison(fl, Trim(left), Trim(right), op) == EvalComparison(fl, left, right, op)
  {
    ParseValueTrims(fl, left);
    ParseValueTrims(fl, right);
  }

  lemma ParseValueTrims(fl: FloatOps, s: string)
    ensures ParseValue(fl, Trim(s)) == ParseValue(fl, s)
  {
    TrimTwice(s);
  }

  lemma EvalAtComparison(fl: FloatOps, left: string, op: string, right: string, ops: seq<string>)
    requires Clean(left) && ComparisonShape(op) && Clean(right) && ops != [] && ops[0] == op
    ensures EvalComparisons(fl, left + op + right, ops) == EvalComparison(fl, left, right, op)
  {
    CmpFound(left, op, right);
    EvalFirstComparison(fl, left + op + right, ops, |left|);
    EvalComparisonTrims(fl, left, right, op);
  }

  lemma CmpFound(left: string, op: string, right: string)
    requires Clean(left) && ComparisonShape(op) && Clean(right)
    ensures var s := left + op + right;
            FindOperator(s, op) == Some(|left|) && s[..|left|] == left && s[|left| + |op|..] == right
  {
    LitBalanced(left);
    assert TopFree(left, [op[0]]) by { assert forall j :: 0 <= j < |left| ==> !Special(left[j]); }
    OperatorAfter(left, op, right);
  }

  lemma EvalFirstComparison(fl: FloatOps, s: string, ops: seq<string>, n: nat)
    requires ops != [] && FindOperator(s, ops[0]) == Some(n) && n + |ops[0]| <= |s|
    ensures EvalComparisons(fl, s, ops) == EvalComparison(fl, Trim(s[..n]), Trim(s[n + |ops[0]|..]), ops[0])
  {
  }

  lemma EvalLit(fl: FloatOps, text: string)
    requires Clean(text)
    ensures Eval(fl, text) == Some(ParseBool(text))
  {
    assert forall j :: 0 <= j < |text| ==> !Special(text[j]);
    EvalFlat(fl, text);
    NoOperator(text, "||");
    NoOperator(text, "&&");
    ComparisonBody(fl, text);
    ComparisonsShape();
    forall i | 0 <= i < |COMPARISONS|
      ensures FindOperator(text, COMPARISONS[i]).None?
    {
      NoOperator(text, COMPARISONS[i]);
    }
    NoComparison(fl, text, COMPARISONS);
  }

  // ---------- the theorem ----------

  lemma CoreNotGroup(p: Printed)
    requires WellPrinted(p)
    ensures !Wrapped(Trim(Core(p)))
  {
    match p
    case POr(_, l, r) =>
      PrintBalanced(l);
      LogicalNotGroup(Print(l), "||", Print(r));
    case PAnd(_, l, r) =>
      PrintBalanced(l);
      LogicalNotGroup(Print(l), "&&", Print(r));
    case PCmp(_, op, left, right) =>
      ComparisonsShape();
      CmpChars(left, op, right);
      FlatNotGroup(Core(p));
    case PLit(_, text) =>
      assert forall j :: 0 <= j < |text| ==> !Special(text[j]);
      FlatNotGroup(text);
  }

  lemma FlatNotGroup(s: string)
    requires forall i :: 0 <= i < |s| ==> Delta(s[i]) == 0
    ensures !Wrapped(Trim(s))
  {
    var a, b := TrimParts(s);
    var core := Trim(s);
    if core != [] { assert core[0] == s[|a|]; }
  }

  lemma LogicalNotGroup(a: string, op: string, b: string)
    requires op == "||" || op == "&&"
    requires Depth(a) == 0
    ensures !Wrapped(Trim(a + op + b))
  {
    TrimAround(a, op, b);
    DepthOfTrims(a, "");
    NotWrapped(TrimStart(a), op, TrimEnd(b));
  }

  /** A chain of `||` is split at its first operator, wherever the tree has its root. */
  lemma {:induction false} OrChain(fl: FloatOps, text: string, pre: string, p: Printed, post: string, rest: string)
    requires WellPrinted(p) && AllSpace(pre) && AllSpace(post)
    requires text == pre + Print(p) + post + "||" + rest
    ensures Eval(fl, text) == Disjoin(Meaning(fl, Erase(p)), Eval(fl, rest))
    ensures var x, y := Meaning(fl, Erase(p)), Eval(fl, rest); x.Some? && y.Some? ==> Eval(fl, text) == Some(x.value || y.value)
    decreases p, 2
  {
    hide Eval, EvalBody, Print, Body, Depth;
    if BareOr(p) {
      var l, r := p.l, p.r;
      var tail := Tail(Print(r), p.lay.post + post, "||", rest);
      BareParts(p);
      assert Core(p) == Print(l) + "||" + Print(r);
      Reassociate(pre, p.lay.pre, Print(l), "||", Print(r), p.lay.post, post, rest);
      OrChain(fl, text, pre + p.lay.pre, l, [], tail);
      OrChain(fl, tail, [], r, p.lay.post + post, rest);
    } else {
      PrintBalanced(p);
      OrLink(fl, pre, Print(p), post, rest);
      EvalPrint(fl, p);
    }
  }

  lemma OrLink(fl: FloatOps, pre: string, body: string, post: string, rest: string)
    requires AllSpace(pre) && AllSpace(post) && Balanced(body) && TopFree(body, "|")
    ensures Eval(fl, pre + body + post + "||" + rest) == Disjoin(Eval(fl, body), Eval(fl, rest))
  {
    SpacedBalanced(pre, body, post);
    SpacedTopFree(pre, body, post, "|");
    EvalOr(fl, pre + body + post, rest);
    EvalPadding(fl, pre, body, post);
  }

  lemma {:induction false} AndChain(fl: FloatOps, text: string, pre: string, p: Printed, post: string, rest: string)
    requires WellPrinted(p) && !BareOr(p) && AllSpace(pre) && AllSpace(post) && TopFree(rest, "|")
    requires text == pre + Print(p) + post + "&&" + rest
    ensures Eval(fl, text) == Conjoin(Meaning(fl, Erase(p)), Eval(fl, rest))
    ensures var x, y := Meaning(fl, Erase(p)), Eval(fl, rest); x.Some? && y.Some? ==> Eval(fl, text) == Some(x.value && y.value)
    decreases p, 2
  {
    hide Eval, EvalBody, Print, Body, Depth;
    if BareAnd(p) {
      var l, r := p.l, p.r;
      var tail := Tail(Print(r), p.lay.post + post, "&&", rest);
      BareParts(p);
      assert Core(p) == Print(l) + "&&" + Print(r);
      Reassociate(pre, p.lay.pre, Print(l), "&&", Print(r), p.lay.post, post, rest);
      PrintBalanced(r);
      TailTopFree(Print(r), p.lay.post + post, rest);
      AndChain(fl, text, pre + p.lay.pre, l, [], tail);
      AndChain(fl, tail, [], r, p.lay.post + post, rest);
    } else {
      PrintBalanced(p);
      AndLink(fl, pre, Print(p), post, rest);
      EvalPrint(fl, p);
    }
  }

  lemma AndLink(fl: FloatOps, pre: string, body: string, post: string, rest: string)
    requires AllSpace(pre) && AllSpace(post) && Balanced(body)
    requires TopFree(body, "|") && TopFree(body, "&") && TopFree(rest, "|")
    ensures Eval(fl, pre + body + post + "&&" + rest) == Conjoin(Eval(fl, body), Eval(fl, rest))
  {
    SpacedBalanced(pre, body, post);
    SpacedTopFree(pre, body, post, "|");
    SpacedTopFree(pre, body, post, "&");
    EvalAnd(fl, pre + body + post, rest);
    EvalPadding(fl, pre, body, post);
  }

  function Tail(body: string, post: string, op: string, rest: string): string {
    [] + body + post + op + rest
  }

  lemma TailTopFree(body: string, post: string, rest: string)
    requires AllSpace(post) && Balanced(body)
    requires TopFree(body, "|") && TopFree(rest, "|")
    ensures TopFree(Tail(body, post, "&&", rest), "|")
  {
    SpacedBalanced([], body, post);
    SpacedTopFree([], body, post, "|");
    FlatBalanced("&&");
    JoinTopFree([] + body + post, "&&", rest, "|");
  }

  lemma Reassociate(pre: string, pre2: string, l: string, op: string, r: string, post2: string, post: string, rest: string)
    ensures pre + (pre2 + (l + op + r) + post2) + post + op + rest
         == (pre + pre2) + l + [] + op + Tail(r, post2 + post, op, rest)
  {
  }

  lemma BodyOfBare(p: Printed)
    requires !p.lay.parens
    ensures Body(p) == Core(p)
  {
  }

  lemma BareParts(p: Printed)
    requires !p.lay.parens
    ensures Print(p) == p.lay.pre + Core(p) + p.lay.post
  {
    BodyOfBare(p);
  }

  lemma Unpadded(l: string, op: string, r: string)
    ensures l + op + r == [] + l + [] + op + r
  {
  }

  lemma {:induction false} EvalCore(fl: FloatOps, p: Printed)
    requires WellPrinted(p)
    ensures Eval(fl, Core(p)) == Meaning(fl, Erase(p))
    decreases p, 0
  {
    hide Eval, EvalBody, Print, Body, Depth;
    match p
    case POr(_, l, r) =>
      Unpadded(Print(l), "||", Print(r));
      OrChain(fl, Core(p), [], l, [], Print(r));
      EvalPrint(fl, r);
    case PAnd(_, l, r) =>
      PrintBalanced(r);
      Unpadded(Print(l), "&&", Print(r));
      AndChain(fl, Core(p), [], l, [], Print(r));
      EvalPrint(fl, r);
    case PCmp(_, op, left, right) =>
      EvalCmp(fl, left, op, right);
    case PLit(_, text) =>
      EvalLit(fl, text);
  }

  /** Every well-parenthesised way to write an expression evaluates to its meaning. */
  lemma {:induction false} EvalPrint(fl: FloatOps, p: Printed)
    requires WellPrinted(p)
    ensures Eval(fl, Print(p)) == Meaning(fl, Erase(p))
    decreases p, 1
  {
    EvalCore(fl, p);
    if p.lay.parens {
      CoreBalanced(p);
      CoreNotGroup(p);
      EvalGroup(fl, Core(p));
    }
    EvalPadding(fl, p.lay.pre, Body(p), p.lay.post);
  }

  // ---------- consequences ----------

  predicate LoneQuote(s: string) {
    Trim(s) == "\"" || Trim(s) == "\'"
  }

  predicate HasLoneQuote(e: Expr) {
    match e
    case Or(l, r) => HasLoneQuote(l) || HasLoneQuote(r)
    case And(l, r) => HasLoneQuote(l) || HasLoneQuote(r)
    case Cmp(_, left, right) => LoneQuote(left) || LoneQuote(right)
    case Lit(_) => false
  }

  /** Evaluation panics exactly when some comparison operand is a lone quotation mark. */
  lemma {:induction false} EvalPanics(fl: FloatOps, p: Printed)
    requires WellPrinted(p)
    ensures Eval(fl, Print(p)).None? <==> HasLoneQuote(Erase(p))
  {
    EvalPrint(fl, p);
    MeaningPanics(fl, Erase(p));
  }

  lemma {:induction false} MeaningPanics(fl: FloatOps, e: Expr)
    ensures Meaning(fl, e).None? <==> HasLoneQuote(e)
  {
    match e
    case Or(l, r) => MeaningPanics(fl, l); MeaningPanics(fl, r);
    case And(l, r) => MeaningPanics(fl, l); MeaningPanics(fl, r);
    case Cmp(_, left, right) => ParsePanics(fl, left); ParsePanics(fl, right);
    case Lit(_) =>
  }

  lemma ParsePanics(fl: FloatOps, s: string)
    ensures ParseValue(fl, s).None? <==> LoneQuote(s)
  {
    var t := Trim(s);
    if |t| == 1 { assert t == [t[0]]; }
  }

  /** A doubled pair of parentheses turns every balanced expression into false. */
  lemma DoubledParens(fl: FloatOps, s: string)
    requires Balanced(s)
    ensures Eval(fl, "(" + ("(" + s + ")") + ")") == Some(false)
  {
    ParensBalanced(s);
    TrimTight("(" + s + ")");
    EvalGroup(fl, "(" + s + ")");
  }
}
