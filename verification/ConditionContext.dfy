/** Conditions over a DAG context: operands that refer to variables, parameters and node outputs
    by dotted names, evaluated as if the values stood in their place. */
module ConditionContext {
  import opened Text
  import opened JsonValues
  import opened JsonLeaves
  import opened Condition
  import opened ConditionGrammar
  import ConditionRender
  import ConditionTruth
  import ConditionValues
  import ContextMap
  import Template

  /** Plain text, or a reference to a dotted name with padding inside its braces. */
  datatype Piece =
    | Plain(text: string)
    | Ref(pre: string, name: string, post: string)

  /** Texts and references in any number and order. */
  type Operand = seq<Piece>

  /** A condition with such operands, laid out like a printed one. */
  datatype Guard =
    | GOr(lay: Layout, l: Guard, r: Guard)
    | GAnd(lay: Layout, l: Guard, r: Guard)
    | GCmp(lay: Layout, op: string, left: Operand, right: Operand)
    | GLit(lay: Layout, value: Operand)

  function PieceWritten(p: Piece): string {
    match p
    case Plain(text) => text
    case Ref(pre, name, post) => "{{" + (pre + name + post) + "}}"
  }

  function Written(o: Operand): string {
    if o == [] then [] else PieceWritten(o[0]) + Written(o[1..])
  }

  /** The value in place of the reference; a name without a value stays as it is written, unpadded. */
  function PieceValued(c: Codec, d: ContextMap.Data, p: Piece): string {
    match p
    case Plain(text) => text
    case Ref(_, name, _) =>
      var text := ContextMap.TextUnder(c, d, name);
      if text.Some? then text.value else "{{" + name + "}}"
  }

  function Valued(c: Codec, d: ContextMap.Data, o: Operand): string {
    if o == [] then [] else PieceValued(c, d, o[0]) + Valued(c, d, o[1..])
  }

  /** Plain text has no `{{` and does not end in a brace; a name is trimmed, not empty and has no closing brace. */
  predicate GoodPiece(p: Piece) {
    match p
    case Plain(text) => Find(text, "{{").None? && (text != [] ==> text[|text| - 1] != '{')
    case Ref(pre, name, post) => AllSpace(pre) && AllSpace(post) && name != [] && Tight(name) && !Contains(name, '}')
  }

  predicate GoodOperand(o: Operand) {
    forall k :: 0 <= k < |o| ==> GoodPiece(o[k])
  }

  predicate GoodGuard(g: Guard) {
    match g
    case GOr(_, l, r) => GoodGuard(l) && GoodGuard(r)
    case GAnd(_, l, r) => GoodGuard(l) && GoodGuard(r)
    case GCmp(_, _, left, right) => GoodOperand(left) && GoodOperand(right)
    case GLit(_, value) => GoodOperand(value)
  }

  /** The condition as it is written in a definition. */
  function Source(g: Guard): Printed {
    match g
    case GOr(lay, l, r) => POr(lay, Source(l), Source(r))
    case GAnd(lay, l, r) => PAnd(lay, Source(l), Source(r))
    case GCmp(lay, op, left, right) => PCmp(lay, op, Written(left), Written(right))
    case GLit(lay, value) => PLit(lay, Written(value))
  }

  /** The condition with the values of the context in place of the references. */
  function Resolved(c: Codec, d: ContextMap.Data, g: Guard): Printed {
    match g
    case GOr(lay, l, r) => POr(lay, Resolved(c, d, l), Resolved(c, d, r))
    case GAnd(lay, l, r) => PAnd(lay, Resolved(c, d, l), Resolved(c, d, r))
    case GCmp(lay, op, left, right) => PCmp(lay, op, Valued(c, d, left), Valued(c, d, right))
    case GLit(lay, value) => PLit(lay, Valued(c, d, value))
  }

  lemma RenderPiece(c: Codec, d: ContextMap.Data, m: map<string, string>, p: Piece)
    requires ContextMap.DotFreeNames(d) && ContextMap.Represents(c, m, d) && GoodPiece(p)
    ensures Template.Closed(PieceWritten(p)) && Template.Render(PieceWritten(p), m) == PieceValued(c, d, p)
    ensures forall rest: string :: Template.Seam(PieceWritten(p), rest)
  {
    hide Template.Render, Template.Closed, ContextMap.Represents, ContextMap.DotFreeNames, ContextMap.TextUnder;
    match p
    case Plain(text) => Template.RenderNoPair(text, m);
    case Ref(pre, name, post) =>
      Template.RenderReference(pre, name, post, m);
      ContextMap.LookupExact(c, m, d, name);
  }

  /** An operand renders to its texts with the values of the context in place of the references. */
  lemma {:induction false} RenderOperand(c: Codec, d: ContextMap.Data, m: map<string, string>, o: Operand)
    requires ContextMap.DotFreeNames(d) && ContextMap.Represents(c, m, d) && GoodOperand(o)
    ensures Template.Closed(Written(o)) && Template.Render(Written(o), m) == Valued(c, d, o)
  {
    hide Template.Render, Template.Closed, Template.Seam, PieceWritten, PieceValued, GoodPiece;
    hide ContextMap.Represents, ContextMap.DotFreeNames;
    if o == [] {
      Template.RenderPlain([], m);
    } else {
      RenderPiece(c, d, m, o[0]);
      RenderOperand(c, d, m, o[1..]);
      Template.RenderConcat(PieceWritten(o[0]), Written(o[1..]), m);
    }
  }

  lemma {:induction false} RenderGuard(c: Codec, d: ContextMap.Data, m: map<string, string>, g: Guard)
    requires ContextMap.DotFreeNames(d) && ContextMap.Represents(c, m, d) && GoodGuard(g)
    ensures ConditionRender.LeavesClosed(Source(g)) && ConditionRender.RenderLeaves(Source(g), m) == Resolved(c, d, g)
  {
    hide Written, Valued, GoodOperand, Template.Render, Template.Closed, ContextMap.Represents, ContextMap.DotFreeNames;
    match g
    case GOr(_, l, r) => RenderGuard(c, d, m, l); RenderGuard(c, d, m, r);
    case GAnd(_, l, r) => RenderGuard(c, d, m, l); RenderGuard(c, d, m, r);
    case GCmp(_, _, left, right) => RenderOperand(c, d, m, left); RenderOperand(c, d, m, right);
    case GLit(_, value) => RenderOperand(c, d, m, value);
  }

  /** `Condition::evaluate`: the context is flattened, the text rendered and evaluated. */
  method EvaluateIn(fl: FloatOps, c: Codec, context: ContextMap.DagContext, expr: string) returns (r: Option<bool>)
    ensures exists m :: ContextMap.Represents(c, m, context.Contents()) && r == ConditionRender.Evaluate(fl, expr, m)
    ensures ContextMap.DotFreeNames(context.Contents()) ==>
      forall m :: ContextMap.Represents(c, m, context.Contents()) ==> r == ConditionRender.Evaluate(fl, expr, m)
  {
    hide Eval, Template.Render, ContextMap.Represents, ContextMap.DotFreeNames;
    var rendered := context.RenderTemplate(c, expr);
    r := Eval(fl, rendered);
    ghost var m :| ContextMap.Represents(c, m, context.Contents()) && rendered == Template.Render(expr, m);
    assert r == ConditionRender.Evaluate(fl, expr, m);
  }

  /** A condition evaluates to the meaning of its tree with the values of the context in the leaves,
      if these are free of operators and parentheses. */
  lemma EvaluateGuard(fl: FloatOps, c: Codec, d: ContextMap.Data, m: map<string, string>, g: Guard)
    requires ContextMap.DotFreeNames(d) && ContextMap.Represents(c, m, d)
    requires GoodGuard(g) && WellPrinted(Resolved(c, d, g))
    ensures ConditionRender.Evaluate(fl, Print(Source(g)), m) == Meaning(fl, Erase(Resolved(c, d, g)))
  {
    hide WellPrinted, Print, Meaning, ContextMap.DotFreeNames, ContextMap.Represents, GoodGuard, ConditionRender.Evaluate;
    RenderGuard(c, d, m, g);
    ConditionRender.WellPrintedLaidOut(Resolved(c, d, g));
    ConditionRender.RenderedLaidOut(Source(g), m);
    ConditionRender.ClosedFits(Source(g), []);
    ConditionRender.EvaluateRendered(fl, Source(g), m);
    ConditionRender.EraseRendered(Source(g), m);
  }

  /** So it is true exactly when its tree is, unless an operand cannot be read. */
  lemma GuardTruth(fl: FloatOps, c: Codec, d: ContextMap.Data, m: map<string, string>, g: Guard)
    requires ContextMap.DotFreeNames(d) && ContextMap.Represents(c, m, d)
    requires GoodGuard(g) && WellPrinted(Resolved(c, d, g))
    ensures var e := Erase(Resolved(c, d, g));
            ConditionRender.Evaluate(fl, Print(Source(g)), m) == if ConditionTruth.Readable(fl, e) then Some(ConditionTruth.Truth(fl, e)) else None
  {
    hide WellPrinted, Print, Meaning, ContextMap.DotFreeNames, ContextMap.Represents, GoodGuard, ConditionRender.Evaluate;
    hide ConditionTruth.Readable, ConditionTruth.Truth, Source;
    EvaluateGuard(fl, c, d, m, g);
    ConditionTruth.PrintedOperators(Resolved(c, d, g));
    ConditionTruth.MeaningTruth(fl, Erase(Resolved(c, d, g)));
  }

  // ---------- guards on the output of a node ----------

  /** The output of node `n` has the value under the keys, whose dotted name can stand in a template. */
  predicate Outputs(d: ContextMap.Data, n: string, keys: seq<string>, v: Json) {
    && n in d.outputs && Traverse(d.outputs[n], keys) == Some(v) && !v.JObj?
    && n != [] && Tight(Key([n] + keys)) && !Contains(Key([n] + keys), '}')
  }

  function Reference(n: string, keys: seq<string>): string {
    "{{" + Key([n] + keys) + "}}"
  }

  /** A reference to a value renders to what the value shows: texts without quotes, booleans, null and
      integers as they are written in conditions. */
  lemma RenderOutput(c: Codec, d: ContextMap.Data, m: map<string, string>, n: string, keys: seq<string>, v: Json)
    requires ContextMap.DotFreeNames(d) && ContextMap.Represents(c, m, d) && Outputs(d, n, keys, v)
    ensures Shows(c, v, Template.Render(Reference(n, keys), m))
  {
    hide Key, Template.Render, ContextMap.Represents, ContextMap.DotFreeNames, Shows, ContextMap.TextUnder;
    var key := Key([n] + keys);
    ContextMap.NodeValueShows(c, m, d, n, keys, v);
    NameNotEmpty(n, keys);
    Template.RenderReference([], key, [], m);
    assert [] + key + [] == key;
  }

  lemma {:induction false} NameNotEmpty(n: string, keys: seq<string>)
    requires n != []
    ensures Key([n] + keys) != []
  {
    if keys == [] {
      assert ([n] + keys)[..0] == [] && ([n] + keys)[0] == n;
    } else {
      NameNotEmpty(n, keys[..|keys| - 1]);
      assert ([n] + keys)[..|keys|] == [n] + keys[..|keys| - 1];
    }
  }

  /** A guard that is one boolean output has that value. */
  lemma BooleanGuard(fl: FloatOps, c: Codec, d: ContextMap.Data, m: map<string, string>, n: string, keys: seq<string>, b: bool)
    requires ContextMap.DotFreeNames(d) && ContextMap.Represents(c, m, d) && Outputs(d, n, keys, JBool(b))
    ensures ConditionRender.Evaluate(fl, Reference(n, keys), m) == Some(b)
  {
    hide Key, Reference, Outputs, Template.Render, Eval, ContextMap.Represents, ContextMap.DotFreeNames;
    RenderOutput(c, d, m, n, keys, JBool(b));
    BooleanWords(fl);
  }

  lemma BooleanWords(fl: FloatOps)
    ensures Eval(fl, "true") == Some(true) && Eval(fl, "false") == Some(false)
  {
    hide Eval, Trim, Lower;
    EvalLit(fl, "true");
    EvalLit(fl, "false");
    TightTrim("true");
    TightTrim("false");
    assert Lower("true") == "true" && Lower("false") == "false" by { LowerWords(); }
    assert "false"[0] == 'f';
  }

  lemma LowerWords()
    ensures Lower("true") == "true" && Lower("false") == "false"
  {
  }

  lemma TightTrim(s: string)
    requires Tight(s)
    ensures Trim(s) == s
  {
    TrimOf([], s, []);
    assert [] + s + [] == s;
  }

  /** A guard that compares an integer output with an integer compares these integers. */
  lemma IntegerGuard(fl: FloatOps, c: Codec, d: ContextMap.Data, m: map<string, string>, n: string, keys: seq<string>,
      x: int, op: string, y: int)
    requires ContextMap.DotFreeNames(d) && ContextMap.Represents(c, m, d) && Outputs(d, n, keys, JInt(x))
    requires op in COMPARISONS && IsI64(x) && IsI64(y)
    ensures var r := ConditionRender.Evaluate(fl, Reference(n, keys) + op + Signed(y), m);
            && (op == "==" ==> r == Some(x == y)) && (op == "!=" ==> r == Some(x != y))
            && (op == "<" ==> r == Some(x < y)) && (op == ">" ==> r == Some(x > y))
            && (op == "<=" ==> r == Some(x <= y)) && (op == ">=" ==> r == Some(x >= y))
  {
    hide Key, Outputs, Template.Render, Eval, EvalComparison, ContextMap.Represents, ContextMap.DotFreeNames, Signed, Template.Closed, Template.Parse;
    RenderOutput(c, d, m, n, keys, JInt(x));
    ConditionRender.OperatorPlain(op);
    SignedClean(x);
    SignedClean(y);
    ReferenceClosed(n, keys, d, JInt(x), m);
    ConditionRender.PlainStep(op, Signed(y), m);
    Template.RenderPlain(Signed(y), m);
    Template.RenderApart(Reference(n, keys), op + Signed(y), m);
    assert Reference(n, keys) + op + Signed(y) == Reference(n, keys) + (op + Signed(y));
    assert Signed(x) + op + Signed(y) == Signed(x) + (op + Signed(y));
    EvalCmp(fl, Signed(x), op, Signed(y));
    IntegerTexts(fl, x, y, op);
  }

  lemma ReferenceClosed(n: string, keys: seq<string>, d: ContextMap.Data, v: Json, m: map<string, string>)
    requires Outputs(d, n, keys, v)
    ensures Template.Closed(Reference(n, keys)) && Reference(n, keys)[|Reference(n, keys)| - 1] == '}'
  {
    hide Key, Template.Closed, Template.Render;
    var key := Key([n] + keys);
    NameNotEmpty(n, keys);
    Template.RenderReference([], key, [], m);
    assert [] + key + [] == key;
  }

  lemma SignedClean(n: int)
    ensures Clean(Signed(n)) && Tight(Signed(n)) && forall i :: 0 <= i < |Signed(n)| ==> Signed(n)[i] !in "{}"
  {
    hide Digits;
    var s := Signed(n);
    var ds := Digits(if n < 0 then -n else n);
    forall i | 0 <= i < |s|
      ensures s[i] == '-' || IsDigit(s[i])
    {
      if n < 0 && i > 0 { assert s[i] == ds[i - 1]; }
    }
  }

  lemma IntegerTexts(fl: FloatOps, x: int, y: int, op: string)
    requires op in COMPARISONS && IsI64(x) && IsI64(y)
    ensures EvalComparison(fl, Signed(x), Signed(y), op) == Some(ConditionValues.Holds(op, x < y, x == y))
  {
    hide Signed, EvalComparison, ParseI64;
    SignedParses(x);
    SignedParses(y);
    SignedClean(x);
    SignedClean(y);
    TightTrim(Signed(x));
    TightTrim(Signed(y));
    ConditionValues.IntegersCompare(fl, Signed(x), Signed(y), op);
  }
}
