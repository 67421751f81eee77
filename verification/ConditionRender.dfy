/** Evaluating a condition with template variables: rendering the text and then
    evaluating it is the same as putting the values into the leaves. */
module ConditionRender {
  import opened Text
  import opened Condition
  import opened ConditionGrammar
  import opened Template

  /** `Condition::evaluate` over the flat context map. */
  function Evaluate(fl: FloatOps, expr: string, ctx: map<string, string>): Option<bool> {
    Eval(fl, Render(expr, ctx))
  }

  /** The expression with every leaf text rendered. */
  function Substitute(e: Expr, ctx: map<string, string>): Expr {
    match e
    case Or(l, r) => Or(Substitute(l, ctx), Substitute(r, ctx))
    case And(l, r) => And(Substitute(l, ctx), Substitute(r, ctx))
    case Cmp(op, left, right) => Cmp(op, Render(left, ctx), Render(right, ctx))
    case Lit(text) => Lit(Render(text, ctx))
  }

  function RenderLeaves(p: Printed, ctx: map<string, string>): Printed {
    match p
    case POr(lay, l, r) => POr(lay, RenderLeaves(l, ctx), RenderLeaves(r, ctx))
    case PAnd(lay, l, r) => PAnd(lay, RenderLeaves(l, ctx), RenderLeaves(r, ctx))
    case PCmp(lay, op, left, right) => PCmp(lay, op, Render(left, ctx), Render(right, ctx))
    case PLit(lay, text) => PLit(lay, Render(text, ctx))
  }

  // ---------- where the leaves end ----------

  /** Every `{{` in a leaf is closed inside that leaf. */
  predicate LeavesClosed(p: Printed) {
    match p
    case POr(_, l, r) => LeavesClosed(l) && LeavesClosed(r)
    case PAnd(_, l, r) => LeavesClosed(l) && LeavesClosed(r)
    case PCmp(_, _, left, right) => Closed(left) && Closed(right)
    case PLit(_, text) => Closed(text)
  }

  /** Padding is white space and operators are operators, whatever is in the leaves. */
  predicate LaidOut(p: Printed) {
    && AllSpace(p.lay.pre) && AllSpace(p.lay.post)
    && match p
       case POr(_, l, r) => LaidOut(l) && LaidOut(r)
       case PAnd(_, l, r) => LaidOut(l) && LaidOut(r)
       case PCmp(_, op, _, _) => op in COMPARISONS
       case PLit(_, _) => true
  }

  function Front(p: Printed): string { p.lay.pre + if p.lay.parens then "(" else [] }

  function Close(p: Printed): string { (if p.lay.parens then ")" else []) + p.lay.post }

  /** No leaf has an open `{{` that finds a `}}` further on in the condition, or in the text behind it. */
  predicate Fits(p: Printed, rest: string) {
    var after := Close(p) + rest;
    match p
    case POr(_, l, r) => Fits(l, "||" + (Print(r) + after)) && Fits(r, after)
    case PAnd(_, l, r) => Fits(l, "&&" + (Print(r) + after)) && Fits(r, after)
    case PCmp(_, op, left, right) => Apart(left, op + (right + after)) && Apart(right, after)
    case PLit(_, text) => Apart(text, after)
  }

  predicate NoBrace(s: string) {
    forall i :: 0 <= i < |s| ==> s[i] !in "{}"
  }

  lemma LayoutPlain(p: Printed)
    requires AllSpace(p.lay.pre) && AllSpace(p.lay.post)
    ensures NoBrace(Front(p)) && NoBrace(Close(p))
  {
    assert !IsSpace('{') && !IsSpace('}');
    var pre, post := p.lay.pre, p.lay.post;
    assert forall i :: 0 <= i < |Front(p)| ==> Front(p)[i] == if i < |pre| then pre[i] else '(';
    var n := if p.lay.parens then 1 else 0;
    assert forall i :: 0 <= i < |Close(p)| ==> Close(p)[i] == if i < n then ')' else post[i - n];
  }

  lemma OperatorPlain(op: string)
    requires op in COMPARISONS
    ensures NoBrace(op) && op != [] && Special(op[0])
  {
  }

  lemma PrintParts(p: Printed, rest: string)
    ensures Print(p) + rest == Front(p) + (Core(p) + (Close(p) + rest))
  {
    var a, b, c := p.lay.pre, Core(p), p.lay.post;
    if p.lay.parens {
      assert a + ("(" + b + ")") + c + rest == (a + "(") + (b + ((")" + c) + rest));
    } else {
      assert a + b + c + rest == (a + []) + (b + (([] + c) + rest));
    }
  }

  // ---------- rendering leaf by leaf ----------

  lemma PlainStep(s: string, rest: string, ctx: map<string, string>)
    requires NoBrace(s)
    ensures Render(s + rest, ctx) == s + Render(rest, ctx)
    ensures Names(Parse(s + rest)) == Names(Parse(rest))
  {
    hide Parse, RenderDoc, ClosedDoc;
    RenderPlain(s, ctx);
    RenderApart(s, rest, ctx);
  }

  lemma Regroup(a: string, op: string, b: string, after: string)
    ensures (a + op + b) + after == a + (op + (b + after))
  {
  }

  lemma {:induction false} RenderCore(p: Printed, rest: string, ctx: map<string, string>)
    requires LaidOut(p) && Fits(p, rest)
    ensures Render(Core(p) + (Close(p) + rest), ctx) == Core(RenderLeaves(p, ctx)) + Render(Close(p) + rest, ctx)
    decreases p, 0
  {
    hide Apart, Render, Parse, Print, Close;
    var after := Close(p) + rest;
    match p
    case POr(_, l, r) =>
      RenderPrint(l, "||" + (Print(r) + after), ctx);
      PlainStep("||", Print(r) + after, ctx);
      RenderPrint(r, after, ctx);
      Regroup(Print(l), "||", Print(r), after);
      Regroup(Print(RenderLeaves(l, ctx)), "||", Print(RenderLeaves(r, ctx)), Render(after, ctx));
    case PAnd(_, l, r) =>
      RenderPrint(l, "&&" + (Print(r) + after), ctx);
      PlainStep("&&", Print(r) + after, ctx);
      RenderPrint(r, after, ctx);
      Regroup(Print(l), "&&", Print(r), after);
      Regroup(Print(RenderLeaves(l, ctx)), "&&", Print(RenderLeaves(r, ctx)), Render(after, ctx));
    case PCmp(_, op, left, right) =>
      OperatorPlain(op);
      RenderApart(left, op + (right + after), ctx);
      PlainStep(op, right + after, ctx);
      RenderApart(right, after, ctx);
      Regroup(left, op, right, after);
      Regroup(Render(left, ctx), op, Render(right, ctx), Render(after, ctx));
    case PLit(_, text) =>
      RenderApart(text, after, ctx);
  }

  /** Rendering a printed condition is printing it with every leaf rendered, in front of any text. */
  lemma {:induction false} RenderPrint(p: Printed, rest: string, ctx: map<string, string>)
    requires LaidOut(p) && Fits(p, rest)
    ensures Render(Print(p) + rest, ctx) == Print(RenderLeaves(p, ctx)) + Render(rest, ctx)
    decreases p, 1
  {
    hide Apart, Render, Parse, Print, Core, Fits;
    var after, q := Close(p) + rest, RenderLeaves(p, ctx);
    LayoutPlain(p);
    PrintParts(p, rest);
    PlainStep(Front(p), Core(p) + after, ctx);
    RenderCore(p, rest, ctx);
    PlainStep(Close(p), rest, ctx);
    PrintParts(q, Render(rest, ctx));
    assert Front(q) == Front(p) && Close(q) == Close(p);
  }

  lemma RenderWhole(p: Printed, ctx: map<string, string>)
    requires LaidOut(p) && Fits(p, [])
    ensures Render(Print(p), ctx) == Print(RenderLeaves(p, ctx))
  {
    hide Parse, Fits, Print;
    RenderPrint(p, [], ctx);
    RenderPlain([], ctx);
    assert Print(p) + [] == Print(p);
    assert Print(RenderLeaves(p, ctx)) + [] == Print(RenderLeaves(p, ctx));
  }

  /** Closed leaves always fit. */
  lemma {:induction false} ClosedFits(p: Printed, rest: string)
    requires LaidOut(p) && LeavesClosed(p) && (rest != [] ==> rest[0] != '{')
    ensures Fits(p, rest)
  {
    hide Closed, Print, Close;
    LayoutPlain(p);
    var after := Close(p) + rest;
    assert after != [] ==> after[0] == if Close(p) != [] then Close(p)[0] else rest[0];
    match p
    case POr(_, l, r) => ClosedFits(l, "||" + (Print(r) + after)); ClosedFits(r, after);
    case PAnd(_, l, r) => ClosedFits(l, "&&" + (Print(r) + after)); ClosedFits(r, after);
    case PCmp(_, op, left, right) => OperatorPlain(op);
    case PLit(_, _) =>
  }

  // ---------- exactly when rendering goes leaf by leaf ----------

  /** No reference in the text reaches over an operator or a parenthesis. */
  predicate CleanNames(t: string) {
    forall n :: n in Names(Parse(t)) ==> Clean(n)
  }

  /** No brace comes before the first operator or parenthesis. */
  predicate Led(rest: string) {
    forall k :: 0 <= k < |rest| && rest[k] in "{}" ==> exists j :: 0 <= j < k && Special(rest[j])
  }

  lemma LedBehind(s: string, rest: string)
    requires NoBrace(s) && Led(rest)
    ensures Led(s + rest)
  {
    forall k | 0 <= k < |s + rest| && (s + rest)[k] in "{}"
      ensures exists j :: 0 <= j < k && Special((s + rest)[j])
    {
      assert rest[k - |s|] == (s + rest)[k];
      var j :| 0 <= j < k - |s| && Special(rest[j]);
      assert (s + rest)[|s| + j] == rest[j];
    }
  }

  lemma LedBySpecial(s: string, rest: string)
    requires s != [] && Special(s[0])
    ensures Led(s + rest)
  {
    assert !Special('{') && !Special('}');
    assert (s + rest)[0] == s[0];
  }

  lemma UncleanTrim(s: string, j: nat)
    requires j < |s| && Special(s[j])
    ensures Trim(s) != [] && !Clean(Trim(s)) && NonEmpty(Trim(s)) == [Trim(s)]
  {
    var a, b := TrimParts(s);
    var n := |a|;
    assert !IsSpace(s[j]);
    var m := n + |Trim(s)|;
    assert forall i :: 0 <= i < n ==> s[i] == a[i];
    assert forall i :: m <= i < |s| ==> s[i] == b[i - m];
    assert n <= j < m && Trim(s)[j - n] == s[j];
  }

  /** An open pair that finds a `}}` behind an operator captures the operator. */
  lemma CapturedHere(t: string, rest: string)
    requires Find(t, "{{").Some? && Find(t[Find(t, "{{").value + 2..], "}}").None?
    requires Find(rest, "}}").Some? && Led(rest)
    ensures !CleanNames(t + rest)
  {
    hide FindFrom, Parse, Trim, Clean, Special, Led;
    var i := Find(t, "{{").value;
    var after := t[i + 2..];
    FindInPrefix(t, rest, "{{");
    assert (t + rest)[i + 2..] == after + rest;
    var f := Find(rest, "}}").value;
    MatchShift(after, rest, "}}", |after| + f);
    var e := Find(after + rest, "}}").value;
    CloseBehind(after, rest, e);
    var inner := (after + rest)[..e];
    ParseClosed(t + rest, i, e);
    var j :| 0 <= j < e - |after| && Special(rest[j]);
    assert inner[|after| + j] == rest[j];
    UncleanTrim(inner, |after| + j);
    assert Trim(inner) in Names(Parse(t + rest)) by { assert NonEmpty(Trim(inner))[0] == Trim(inner); }
  }

  lemma CloseBehind(after: string, rest: string, e: nat)
    requires Find(after, "}}").None? && MatchAt(after + rest, "}}", e) && Led(rest)
    ensures e > |after| && exists j :: 0 <= j < e - |after| && Special(rest[j])
  {
    hide FindFrom, Special;
    var s := after + rest;
    assert s[e] == s[e..e + 2][0] && s[e + 1] == s[e..e + 2][1];
    forall k | 0 <= k <= |after| - 2
      ensures MatchAt(after + rest, "}}", k) <==> MatchAt(after, "}}", k)
    {
      assert (after + rest)[k..k + 2] == after[k..k + 2];
    }
    assert forall k :: |after| <= k < |after + rest| ==> (after + rest)[k] == rest[k - |after|];
    assert !MatchAt(after, "}}", e);
    assert e >= |after| && rest[e - |after|] == '}';
  }

  lemma {:induction false} Captured(t: string, rest: string)
    requires !Closed(t) && Find(rest, "}}").Some? && Led(rest)
    ensures !CleanNames(t + rest)
    decreases |t|
  {
    hide FindFrom, Parse, Clean, Trim, Led;
    var start := Find(t, "{{");
    if start.None? {
      RenderNoPair(t, map[]);
    } else if Find(t[start.value + 2..], "}}").None? {
      CapturedHere(t, rest);
    } else {
      FirstBlockConcat(t, rest);
      var after := t[start.value + 2..];
      var more := after[Find(after, "}}").value + 2..];
      Captured(more, rest);
      var n :| n in Names(Parse(more + rest)) && !Clean(n);
      assert n in Names(Parse(t + rest));
    }
  }

  /** So with clean names a leaf ends where it is written to end. */
  lemma LeafEnds(t: string, rest: string)
    requires Led(rest) && CleanNames(t + rest)
    ensures Apart(t, rest) && CleanNames(rest)
  {
    hide Parse, Closed, Clean, Names;
    if !Closed(t) && Find(rest, "}}").Some? { Captured(t, rest); }
    assert rest != [] ==> rest[0] !in "{}";
    RenderApart(t, rest, map[]);
    assert forall n :: n in Names(Parse(rest)) ==> n in Names(Parse(t)) + Names(Parse(rest));
  }

  lemma {:induction false} CoreFits(p: Printed, rest: string)
    requires LaidOut(p) && Led(rest) && CleanNames(Core(p) + (Close(p) + rest))
    ensures Fits(p, rest) && CleanNames(Close(p) + rest)
    decreases p, 0
  {
    hide Apart, Parse, Print, Close, Led, Names, Clean;
    var after := Close(p) + rest;
    LayoutPlain(p);
    LedBehind(Close(p), rest);
    match p
    case POr(_, l, r) =>
      Regroup(Print(l), "||", Print(r), after);
      LedBySpecial("||", Print(r) + after);
      PrintFits(l, "||" + (Print(r) + after));
      PlainStep("||", Print(r) + after, map[]);
      PrintFits(r, after);
    case PAnd(_, l, r) =>
      Regroup(Print(l), "&&", Print(r), after);
      LedBySpecial("&&", Print(r) + after);
      PrintFits(l, "&&" + (Print(r) + after));
      PlainStep("&&", Print(r) + after, map[]);
      PrintFits(r, after);
    case PCmp(_, op, left, right) =>
      OperatorPlain(op);
      Regroup(left, op, right, after);
      LedBySpecial(op, right + after);
      LeafEnds(left, op + (right + after));
      PlainStep(op, right + after, map[]);
      LeafEnds(right, after);
    case PLit(_, text) =>
      LeafEnds(text, after);
  }

  lemma {:induction false} PrintFits(p: Printed, rest: string)
    requires LaidOut(p) && Led(rest) && CleanNames(Print(p) + rest)
    ensures Fits(p, rest) && CleanNames(rest)
    decreases p, 1
  {
    hide Fits, Parse, Print, Core, Led, Names, Clean;
    LayoutPlain(p);
    PrintParts(p, rest);
    PlainStep(Front(p), Core(p) + (Close(p) + rest), map[]);
    CoreFits(p, rest);
    PlainStep(Close(p), rest, map[]);
  }

  // ---------- clean leaves and values are enough ----------

  /** The values that a text refers to are free of operators and parentheses. */
  predicate CleanValues(d: Doc, ctx: map<string, string>) {
    forall n :: n in Names(d) && n in ctx ==> Clean(ctx[n])
  }

  /** The same for all leaves. */
  predicate CleanLeaves(p: Printed, ctx: map<string, string>) {
    match p
    case POr(_, l, r) => CleanLeaves(l, ctx) && CleanLeaves(r, ctx)
    case PAnd(_, l, r) => CleanLeaves(l, ctx) && CleanLeaves(r, ctx)
    case PCmp(_, _, left, right) => CleanValues(Parse(left), ctx) && CleanValues(Parse(right), ctx)
    case PLit(_, text) => CleanValues(Parse(text), ctx)
  }

  lemma CleanParts(t: string)
    requires Clean(t)
    ensures CleanDoc(Parse(t))
  {
    SourceOfParse(t);
    CleanSource(Parse(t));
  }

  predicate CleanDoc(d: Doc) {
    match d
    case Tail(text) => Clean(text)
    case Block(text, inner, rest) => Clean(text) && Clean(inner) && CleanDoc(rest)
  }

  lemma {:induction false} CleanSource(d: Doc)
    requires Clean(Source(d))
    ensures CleanDoc(d)
  {
    if d.Block? {
      var s := Source(d);
      var n, m := |d.text|, |d.inner|;
      assert s == d.text + "{{" + d.inner + "}}" + Source(d.rest);
      assert forall i :: 0 <= i < n ==> d.text[i] == s[i];
      assert forall i :: 0 <= i < m ==> d.inner[i] == s[n + 2 + i];
      assert forall i :: 0 <= i < |Source(d.rest)| ==> Source(d.rest)[i] == s[n + m + 4 + i];
      CleanSource(d.rest);
    }
  }

  lemma CleanTrim(s: string)
    requires Clean(s)
    ensures Clean(Trim(s))
  {
    var a, b := TrimParts(s);
    assert forall i :: 0 <= i < |Trim(s)| ==> Trim(s)[i] == s[|a| + i];
  }

  lemma CleanRef(inner: string, ctx: map<string, string>)
    requires Clean(inner) && (Trim(inner) in ctx ==> Clean(ctx[Trim(inner)]) || Trim(inner) == [])
    ensures Clean(RenderRef(inner, ctx))
  {
    CleanTrim(inner);
    assert !Special('{') && !Special('}');
  }

  lemma {:induction false} CleanRender(d: Doc, ctx: map<string, string>)
    requires CleanDoc(d) && CleanValues(d, ctx)
    ensures Clean(RenderDoc(d, ctx))
  {
    if d.Block? {
      hide RenderRef, Trim;
      var name := Trim(d.inner);
      if name != [] { assert name in Names(d) by { assert NonEmpty(name)[0] == name; } }
      assert forall n :: n in Names(d.rest) ==> n in Names(d);
      CleanRef(d.inner, ctx);
      CleanRender(d.rest, ctx);
    }
  }

  lemma {:induction false} WellPrintedRendered(p: Printed, ctx: map<string, string>)
    requires WellPrinted(p) && CleanLeaves(p, ctx)
    ensures WellPrinted(RenderLeaves(p, ctx))
  {
    match p
    case POr(_, l, r) => WellPrintedRendered(l, ctx); WellPrintedRendered(r, ctx);
    case PAnd(_, l, r) => WellPrintedRendered(l, ctx); WellPrintedRendered(r, ctx);
    case PCmp(_, _, left, right) =>
      CleanParts(left); CleanRender(Parse(left), ctx);
      CleanParts(right); CleanRender(Parse(right), ctx);
    case PLit(_, text) =>
      CleanParts(text); CleanRender(Parse(text), ctx);
  }

  // ---------- a name that reaches over an operator ----------

  lemma {:induction false} CleanDocNames(d: Doc)
    requires CleanDoc(d)
    ensures forall n :: n in Names(d) ==> Clean(n)
  {
    if d.Block? {
      hide Trim, Clean;
      CleanTrim(d.inner);
      CleanDocNames(d.rest);
    }
  }

  lemma CleanLeafAgrees(t: string, n: string, x: string)
    requires Clean(t) && !Clean(n)
    ensures Render(t, map[n := x]) == Render(t, map[])
  {
    hide Parse, Clean;
    CleanParts(t);
    CleanDocNames(Parse(t));
    assert forall y :: y in References(t) ==> y in Names(Parse(t));
    RenderDependsOnReferences(t, map[n := x], map[]);
  }

  lemma {:induction false} CleanLeavesAgree(p: Printed, n: string, x: string)
    requires WellPrinted(p) && !Clean(n)
    ensures RenderLeaves(p, map[n := x]) == RenderLeaves(p, map[])
  {
    hide Render, Clean;
    match p
    case POr(_, l, r) => CleanLeavesAgree(l, n, x); CleanLeavesAgree(r, n, x);
    case PAnd(_, l, r) => CleanLeavesAgree(l, n, x); CleanLeavesAgree(r, n, x);
    case PCmp(_, _, left, right) => CleanLeafAgrees(left, n, x); CleanLeafAgrees(right, n, x);
    case PLit(_, text) => CleanLeafAgrees(text, n, x);
  }

  lemma {:induction false} NameShows(d: Doc, ctx: map<string, string>, n: string)
    requires n in Names(d) && n in ctx && n != []
    ensures |RenderDoc(d, ctx)| >= |ctx[n]|
  {
    hide Trim;
    if Trim(d.inner) != n { NameShows(d.rest, ctx, n); }
  }

  function Copies(n: nat): (s: string)
    ensures |s| == n
  {
    if n == 0 then [] else "x" + Copies(n - 1)
  }

  /** Rendering goes leaf by leaf, whatever the context, exactly when no reference of the condition's
      text reaches over an operator or a parenthesis. */
  lemma RenderExact(p: Printed)
    requires WellPrinted(p)
    ensures (forall ctx :: Render(Print(p), ctx) == Print(RenderLeaves(p, ctx))) <==> CleanNames(Print(p))
  {
    hide Parse, Print, Clean, RenderDoc, Names, Fits;
    WellPrintedLaidOut(p);
    if CleanNames(Print(p)) {
      assert Print(p) + [] == Print(p);
      PrintFits(p, []);
      forall ctx
        ensures Render(Print(p), ctx) == Print(RenderLeaves(p, ctx))
      {
        RenderWhole(p, ctx);
      }
    } else {
      var n :| n in Names(Parse(Print(p))) && !Clean(n);
      var x := Copies(|Print(RenderLeaves(p, map[]))| + 1);
      var ctx := map[n := x];
      CleanLeavesAgree(p, n, x);
      NotCleanNotEmpty(n);
      NameShows(Parse(Print(p)), ctx, n);
      assert Render(Print(p), ctx) != Print(RenderLeaves(p, ctx));
    }
  }

  lemma NotCleanNotEmpty(n: string)
    ensures !Clean(n) ==> n != []
  {
  }

  lemma {:induction false} WellPrintedLaidOut(p: Printed)
    requires WellPrinted(p)
    ensures LaidOut(p)
  {
    hide Clean;
    match p
    case POr(_, l, r) => WellPrintedLaidOut(l); WellPrintedLaidOut(r);
    case PAnd(_, l, r) => WellPrintedLaidOut(l); WellPrintedLaidOut(r);
    case PCmp(_, _, _, _) =>
    case PLit(_, _) =>
  }

  lemma {:induction false} RenderedLaidOut(p: Printed, ctx: map<string, string>)
    requires LaidOut(RenderLeaves(p, ctx))
    ensures LaidOut(p)
  {
    hide Render;
    match p
    case POr(_, l, r) => RenderedLaidOut(l, ctx); RenderedLaidOut(r, ctx);
    case PAnd(_, l, r) => RenderedLaidOut(l, ctx); RenderedLaidOut(r, ctx);
    case PCmp(_, _, _, _) =>
    case PLit(_, _) =>
  }

  // ---------- evaluating what is rendered ----------

  lemma {:induction false} EraseRendered(p: Printed, ctx: map<string, string>)
    ensures Erase(RenderLeaves(p, ctx)) == Substitute(Erase(p), ctx)
  {
    match p
    case POr(_, l, r) => EraseRendered(l, ctx); EraseRendered(r, ctx);
    case PAnd(_, l, r) => EraseRendered(l, ctx); EraseRendered(r, ctx);
    case PCmp(_, _, _, _) =>
    case PLit(_, _) =>
  }

  /** Rendering commutes with evaluation whenever the leaves end where they are written to end and, once
      rendered, hold no operator or parenthesis. */
  lemma EvaluateRendered(fl: FloatOps, p: Printed, ctx: map<string, string>)
    requires Fits(p, []) && WellPrinted(RenderLeaves(p, ctx))
    ensures Evaluate(fl, Print(p), ctx) == Meaning(fl, Substitute(Erase(p), ctx))
  {
    hide WellPrinted, Fits, Print, Render, Eval;
    WellPrintedLaidOut(RenderLeaves(p, ctx));
    RenderedLaidOut(p, ctx);
    RenderWhole(p, ctx);
    EvalPrint(fl, RenderLeaves(p, ctx));
    EraseRendered(p, ctx);
  }

  /** When leaves and the values they refer to are free of operators and parentheses, and so are the names
      of all references, a condition means what its expression means with the values in their place. */
  lemma EvaluateCommutes(fl: FloatOps, p: Printed, ctx: map<string, string>)
    requires WellPrinted(p) && CleanNames(Print(p)) && CleanLeaves(p, ctx)
    ensures Evaluate(fl, Print(p), ctx) == Meaning(fl, Substitute(Erase(p), ctx))
  {
    hide Fits, Print, Parse, Clean;
    WellPrintedLaidOut(p);
    assert Print(p) + [] == Print(p);
    PrintFits(p, []);
    WellPrintedRendered(p, ctx);
    EvaluateRendered(fl, p, ctx);
  }
}
