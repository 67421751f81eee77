/** The `{{name}}` template language: rendering, and the two scanners that list
    the names a template refers to. */
module Template {
  import opened Text

  // ---------- templates as documents ----------

  /** Plain text up to a `{{inner}}` block and so on, ending in plain text. */
  datatype Doc = Tail(text: string) | Block(text: string, inner: string, rest: Doc)

  /** A template cut at its blocks; an unclosed `{{` is plain text. */
  function Parse(t: string): Doc
    decreases |t|
  {
    var start := Find(t, "{{");
    if start.None? then Tail(t)
    else
      var after := t[start.value + 2..];
      var end := Find(after, "}}");
      if end.None? then Tail(t)
      else Block(t[..start.value], after[..end.value], Parse(after[end.value + 2..]))
  }

  /** An unknown name keeps its braces, without its padding. */
  function RenderRef(inner: string, ctx: map<string, string>): string {
    var name := Trim(inner);
    if name != [] && name in ctx then ctx[name] else "{{" + name + "}}"
  }

  function RenderDoc(d: Doc, ctx: map<string, string>): string {
    match d
    case Tail(text) => text
    case Block(text, inner, rest) => text + (RenderRef(inner, ctx) + RenderDoc(rest, ctx))
  }

  function Render(t: string, ctx: map<string, string>): string {
    RenderDoc(Parse(t), ctx)
  }

  function Source(d: Doc): string {
    match d
    case Tail(text) => text
    case Block(text, inner, rest) => text + (("{{" + inner + "}}") + Source(rest))
  }

  /** The trimmed non-empty names, in order and with repetitions. */
  function Names(d: Doc): seq<string> {
    match d
    case Tail(_) => []
    case Block(_, inner, rest) => NonEmpty(Trim(inner)) + Names(rest)
  }

  function NonEmpty(s: string): seq<string> {
    if s == [] then [] else [s]
  }

  function References(t: string): seq<string> {
    Dedup(Names(Parse(t)))
  }

  /** The first dotted segment of a name, trimmed. */
  function Head(name: string): string {
    Trim(Split(name, '.')[0])
  }

  function Heads(names: seq<string>): seq<string> {
    if names == [] then [] else Heads(names[..|names| - 1]) + NonEmpty(Head(names[|names| - 1]))
  }

  // ---------- rendering loop ----------

  method RenderTemplate(template: string, context: map<string, string>) returns (result: string)
    ensures result == Render(template, context)
  {
    hide Parse, Trim, RenderDoc, FindFrom;
    result := [];
    var remaining := template;
    var open := Find(remaining, "{{");
    while open.Some?
      invariant open == Find(remaining, "{{")
      invariant Render(template, context) == result + Render(remaining, context)
      decreases |remaining|
    {
      var start := open.value;
      var afterOpen := remaining[start + 2..];
      var close := Find(afterOpen, "}}");
      RenderStep(result, remaining, context);
      if close.Some? {
        var end := close.value;
        result := result + remaining[..start];
        var varName := Trim(afterOpen[..end]);
        if varName != [] {
          if varName in context {
            result := result + context[varName];
          } else {
            result := result + ("{{" + varName + "}}");
          }
        } else {
          assert "{{" + [] + "}}" == "{{}}";
          result := result + "{{}}";
        }
        remaining := afterOpen[end + 2..];
      } else {
        result := result + remaining[..start] + remaining[start..];
        remaining := [];
      }
      open := Find(remaining, "{{");
    }
    RenderTail(remaining, context);
    result := result + remaining;
  }

  lemma RenderTail(t: string, ctx: map<string, string>)
    requires Find(t, "{{").None?
    ensures Render(t, ctx) == t
  {
  }

  /** One turn of the loop: a block is rendered and skipped, or the unclosed rest is copied. */
  lemma RenderStep(done: string, t: string, ctx: map<string, string>)
    requires Find(t, "{{").Some?
    ensures var start := Find(t, "{{").value;
            var after := t[start + 2..];
            var close := Find(after, "}}");
            done + Render(t, ctx) ==
              if close.None? then done + t[..start] + t[start..] + Render([], ctx)
              else done + t[..start] + RenderRef(after[..close.value], ctx) + Render(after[close.value + 2..], ctx)
  {
    hide FindFrom, Find, Trim, RenderRef, Render;
    var start := Find(t, "{{").value;
    var after := t[start + 2..];
    var close := Find(after, "}}");
    if close.Some? {
      RenderClosed(t, start, close.value, ctx);
      Append4(done, t[..start], RenderRef(after[..close.value], ctx), Render(after[close.value + 2..], ctx));
    } else {
      RenderUnclosed(t, ctx);
      RenderEmpty(ctx);
      Append3(done, t[..start], t[start..]);
      assert t == t[..start] + t[start..];
    }
  }

  lemma RenderClosed(t: string, i: nat, e: nat, ctx: map<string, string>)
    requires Find(t, "{{") == Some(i) && Find(t[i + 2..], "}}") == Some(e)
    ensures Render(t, ctx) == t[..i] + (RenderRef(t[i + 2..][..e], ctx) + Render(t[i + 2..][e + 2..], ctx))
  {
    hide FindFrom, Trim, RenderRef;
  }

  lemma RenderUnclosed(t: string, ctx: map<string, string>)
    requires Find(t, "{{").Some? && Find(t[Find(t, "{{").value + 2..], "}}").None?
    ensures Render(t, ctx) == t
  {
    hide FindFrom, Trim, RenderRef;
  }

  lemma RenderEmpty(ctx: map<string, string>)
    ensures Render([], ctx) == []
  {
    assert !MatchAt([], "{{", 0);
  }

  lemma Append3(a: string, b: string, c: string)
    ensures a + (b + c) == a + b + c + []
  {
  }

  lemma Append4(a: string, b: string, c: string, d: string)
    ensures a + (b + (c + d)) == (a + b + c) + d
  {
  }

  // ---------- reference scanners ----------

  method ExtractReferences(template: string) returns (refs: seq<string>)
    ensures refs == References(template)
  {
    hide Parse, Trim, FindFrom, Dedup;
    refs := [];
    var seen: set<string> := {};
    ghost var names: seq<string> := [];
    DedupStep([], []);
    var remaining := template;
    var open := Find(remaining, "{{");
    while open.Some?
      invariant open == Find(remaining, "{{")
      invariant names + Names(Parse(remaining)) == Names(Parse(template))
      invariant refs == Dedup(names)
      invariant seen == set n | n in names
      decreases |remaining|
    {
      var afterOpen := remaining[open.value + 2..];
      var close := Find(afterOpen, "}}");
      if close.Some? {
        var varName := Trim(afterOpen[..close.value]);
        NamesStep(names, remaining);
        DedupStep(names, varName);
        if varName != [] {
          if varName !in seen {
            refs := refs + [varName];
          }
          seen := seen + {varName};
        }
        names := names + NonEmpty(varName);
        remaining := afterOpen[close.value + 2..];
      } else {
        break;
      }
      open := Find(remaining, "{{");
    }
    ParseUnclosed(remaining);
    assert names + [] == names;
  }

  lemma NamesStep(done: seq<string>, t: string)
    requires Find(t, "{{").Some? && Find(t[Find(t, "{{").value + 2..], "}}").Some?
    ensures var after := t[Find(t, "{{").value + 2..];
            var close := Find(after, "}}").value;
            var name := Trim(after[..close]);
            done + Names(Parse(t)) == done + NonEmpty(name) + Names(Parse(after[close + 2..]))
  {
  }

  lemma DedupStep(xs: seq<string>, x: string)
    ensures Dedup(xs + NonEmpty(x)) == if x == [] || x in xs then Dedup(xs) else Dedup(xs) + [x]
    ensures Dedup([]) == []
  {
    if x == [] {
      assert xs + NonEmpty(x) == xs;
    } else {
      assert (xs + [x])[..|xs|] == xs;
    }
  }

  /** The scanner of the DAG parser: it looks for `}}` from the opening braces on, and keeps
      the part of each block before the first dot. */
  function HeadsOfBlocks(d: Doc): seq<string> {
    match d
    case Tail(_) => []
    case Block(_, inner, rest) => NonEmpty(Head(inner)) + HeadsOfBlocks(rest)
  }

  method ExtractTemplateVars(template: string) returns (vars: seq<string>)
    ensures vars == Dedup(HeadsOfBlocks(Parse(template)))
  {
    hide Parse, Trim, FindFrom, Dedup, Split;
    vars := [];
    var seen: set<string> := {};
    ghost var names: seq<string> := [];
    DedupStep([], []);
    var rest := template;
    var open := Find(rest, "{{");
    while open.Some?
      invariant open == Find(rest, "{{")
      invariant names + HeadsOfBlocks(Parse(rest)) == HeadsOfBlocks(Parse(template))
      invariant vars == Dedup(names)
      invariant seen == set n | n in names
      decreases |rest|
    {
      var start := open.value;
      var endOffset := Find(rest[start..], "}}");
      CloseFromOpen(rest, start);
      if endOffset.Some? {
        var inner := rest[start + 2..start + endOffset.value];
        assert inner == rest[start + 2..][..endOffset.value - 2];
        assert rest[start + endOffset.value + 2..] == rest[start + 2..][endOffset.value..];
        var top := Trim(Split(inner, '.')[0]);
        HeadsStep(names, rest);
        DedupStep(names, top);
        if top != [] {
          if top !in seen {
            vars := vars + [top];
          }
          seen := seen + {top};
        }
        names := names + NonEmpty(top);
        rest := rest[start + endOffset.value + 2..];
      } else {
        break;
      }
      open := Find(rest, "{{");
    }
    ParseUnclosed(rest);
    assert names + [] == names;
  }

  lemma HeadsStep(done: seq<string>, t: string)
    requires Find(t, "{{").Some? && Find(t[Find(t, "{{").value + 2..], "}}").Some?
    ensures var after := t[Find(t, "{{").value + 2..];
            var close := Find(after, "}}").value;
            done + HeadsOfBlocks(Parse(t)) == done + NonEmpty(Head(after[..close])) + HeadsOfBlocks(Parse(after[close + 2..]))
  {
  }

  /** Searching for `}}` from the opening braces or from behind them is the same. */
  lemma CloseFromOpen(t: string, start: nat)
    requires MatchAt(t, "{{", start)
    ensures var r := Find(t[start + 2..], "}}");
            Find(t[start..], "}}") == if r.Some? then Some(r.value + 2) else None
  {
    var s, after := t[start..], t[start + 2..];
    assert s[0] == '{' && s[1] == '{' by { assert t[start..start + 2][0] == '{' && t[start..start + 2][1] == '{'; }
    assert s == s[..2] + after;
    forall j
      ensures MatchAt(s, "}}", j) <==> MatchAt(after, "}}", j - 2)
    {
      if 0 <= j < 2 && j + 2 <= |s| {
        assert s[j..j + 2][0] == s[j];
      } else if 2 <= j {
        MatchShift(s[..2], after, "}}", j);
      }
    }
    var r := Find(after, "}}");
    if r.Some? { assert MatchAt(s, "}}", r.value + 2); }
  }

  // ---------- laws of rendering ----------

  /** Cutting a template into blocks loses nothing. */
  lemma {:induction false} SourceOfParse(t: string)
    ensures Source(Parse(t)) == t
    decreases |t|
  {
    hide FindFrom, Parse;
    var start := Find(t, "{{");
    if start.Some? && Find(t[start.value + 2..], "}}").Some? {
      var after := t[start.value + 2..];
      var close := Find(after, "}}");
      ParseClosed(t, start.value, close.value);
      SourceOfParse(after[close.value + 2..]);
      Recompose(t, start.value, close.value);
    } else {
      ParseUnclosed(t);
    }
  }

  lemma Recompose(t: string, i: nat, e: nat)
    requires MatchAt(t, "{{", i) && MatchAt(t[i + 2..], "}}", e)
    ensures var after := t[i + 2..]; t == t[..i] + (("{{" + after[..e] + "}}") + after[e + 2..])
  {
    var after := t[i + 2..];
    assert t == t[..i] + t[i..i + 2] + after;
    assert after == after[..e] + after[e..e + 2] + after[e + 2..];
  }

  /** Rendering looks at the context only where the template refers to it. */
  lemma RenderDependsOnReferences(t: string, c: map<string, string>, d: map<string, string>)
    requires forall n :: n in References(t) ==> (n in c <==> n in d) && (n in c ==> c[n] == d[n])
    ensures Render(t, c) == Render(t, d)
  {
    RenderDocAgrees(Parse(t), c, d);
  }

  lemma {:induction false} RenderDocAgrees(doc: Doc, c: map<string, string>, d: map<string, string>)
    requires forall n :: n in Names(doc) ==> (n in c <==> n in d) && (n in c ==> c[n] == d[n])
    ensures RenderDoc(doc, c) == RenderDoc(doc, d)
  {
    if doc.Block? {
      var name := Trim(doc.inner);
      assert name != [] ==> Names(doc)[0] == name;
      assert forall n :: n in Names(doc.rest) ==> n in Names(doc);
      RenderDocAgrees(doc.rest, c, d);
    }
  }

  /** No block has white space around its name. */
  predicate Unpadded(d: Doc) {
    d.Block? ==> Trim(d.inner) == d.inner && Unpadded(d.rest)
  }

  /** With no referenced name bound, a template renders to itself exactly when no name is padded. */
  lemma RenderUnbound(t: string, ctx: map<string, string>)
    requires forall n :: n in References(t) ==> n !in ctx
    ensures Render(t, ctx) == t <==> Unpadded(Parse(t))
  {
    SourceOfParse(t);
    RenderDocUnbound(Parse(t), ctx);
  }

  lemma {:induction false} RenderDocUnbound(d: Doc, ctx: map<string, string>)
    requires forall n :: n in Names(d) ==> n !in ctx
    ensures |RenderDoc(d, ctx)| <= |Source(d)|
    ensures Unpadded(d) ==> RenderDoc(d, ctx) == Source(d)
    ensures !Unpadded(d) ==> |RenderDoc(d, ctx)| < |Source(d)|
  {
    if d.Block? {
      var name := Trim(d.inner);
      assert name != [] ==> Names(d)[0] == name;
      assert forall n :: n in Names(d.rest) ==> n in Names(d);
      RenderDocUnbound(d.rest, ctx);
      TrimShorter(d.inner);
    }
  }

  lemma TrimShorter(s: string)
    ensures Trim(s) != s ==> |Trim(s)| < |s|
  {
    var a, b := TrimParts(s);
    if |Trim(s)| == |s| { assert a == [] && b == []; }
  }

  // ---------- the two scanners agree ----------

  function FirstSegment(s: string): string {
    Split(s, '.')[0]
  }

  lemma {:induction false} FirstSegmentAfter(a: string, s: string)
    requires AllSpace(a)
    ensures FirstSegment(a + s) == a + FirstSegment(s)
  {
    if a == [] {
      assert a + s == s;
    } else {
      assert (a + s)[1..] == a[1..] + s;
      FirstSegmentAfter(a[1..], s);
    }
  }

  lemma {:induction false} FirstSegmentBefore(s: string, b: string)
    requires AllSpace(b)
    ensures FirstSegment(s + b) == FirstSegment(s) || FirstSegment(s + b) == FirstSegment(s) + b
  {
    if s == [] {
      assert s + b == b && b + [] == b;
      FirstSegmentAfter(b, []);
    } else {
      assert (s + b)[1..] == s[1..] + b;
      FirstSegmentBefore(s[1..], b);
    }
  }

  lemma HeadOfTrim(s: string)
    ensures Head(Trim(s)) == Head(s)
  {
    hide Split, TrimStart, TrimEnd;
    var a, b := TrimParts(s);
    var core := Trim(s);
    assert s == a + (core + b);
    FirstSegmentAfter(a, core + b);
    FirstSegmentBefore(core, b);
    TrimPadStart(a, FirstSegment(core + b));
    TrimPadEnd(FirstSegment(core), b);
  }

  lemma HeadOfBlank()
    ensures Head([]) == []
  {
  }

  lemma {:induction false} HeadsConcat(xs: seq<string>, ys: seq<string>)
    ensures Heads(xs + ys) == Heads(xs) + Heads(ys)
  {
    hide Head;
    if ys == [] {
      assert xs + ys == xs;
    } else {
      var zs, y := ys[..|ys| - 1], ys[|ys| - 1];
      assert xs + ys == (xs + zs) + [y] && ys == zs + [y];
      HeadsSnoc(xs + zs, y);
      HeadsSnoc(zs, y);
      HeadsConcat(xs, zs);
    }
  }

  lemma {:induction false} BlocksAsHeads(d: Doc)
    ensures HeadsOfBlocks(d) == Heads(Names(d))
  {
    if d.Block? {
      var name := Trim(d.inner);
      HeadOfTrim(d.inner);
      HeadOfBlank();
      HeadsConcat(NonEmpty(name), Names(d.rest));
      HeadsOfOne(name);
      BlocksAsHeads(d.rest);
    }
  }

  lemma HeadsOfOne(name: string)
    ensures Heads(NonEmpty(name)) == if name == [] then [] else NonEmpty(Head(name))
  {
    if name != [] { assert [name][..0] == []; }
  }

  lemma {:induction false} HeadsOfDedup(xs: seq<string>)
    ensures Dedup(Heads(Dedup(xs))) == Dedup(Heads(xs))
    ensures forall h :: h in Heads(Dedup(xs)) <==> h in Heads(xs)
  {
    if xs != [] {
      hide Dedup, Head, Heads, Split;
      var ys, x := xs[..|xs| - 1], xs[|xs| - 1];
      assert xs == ys + [x];
      HeadsOfDedup(ys);
      DedupStepAny(ys, x);
      HeadsSnoc(ys, x);
      HeadsSnoc(Dedup(ys), x);
      DedupSame(Heads(ys), Heads(Dedup(ys)), Head(x));
      if x in ys { HeadsMember(ys, x); }
    }
  }

  /** Equal up to repetitions stays so when one more name comes in, and a known name changes nothing. */
  lemma DedupSame(a: seq<string>, b: seq<string>, h: string)
    requires Dedup(a) == Dedup(b) && forall x :: x in a <==> x in b
    ensures Dedup(a + NonEmpty(h)) == Dedup(b + NonEmpty(h))
    ensures forall x :: x in a + NonEmpty(h) <==> x in b + NonEmpty(h)
    ensures h == [] || h in a ==> Dedup(a + NonEmpty(h)) == Dedup(a) && forall x :: x in a + NonEmpty(h) <==> x in a
  {
    hide Dedup;
    DedupStep(a, h);
    DedupStep(b, h);
  }

  lemma DedupStepAny(xs: seq<string>, x: string)
    ensures Dedup(xs + [x]) == if x in xs then Dedup(xs) else Dedup(xs) + [x]
  {
    assert (xs + [x])[..|xs|] == xs;
  }

  lemma HeadsSnoc(xs: seq<string>, x: string)
    ensures Heads(xs + [x]) == Heads(xs) + NonEmpty(Head(x))
  {
    assert (xs + [x])[..|xs|] == xs;
  }

  lemma {:induction false} HeadsMember(xs: seq<string>, x: string)
    requires x in xs
    ensures Head(x) != [] ==> Head(x) in Heads(xs)
  {
    var ys, y := xs[..|xs| - 1], xs[|xs| - 1];
    assert xs == ys + [y];
    if x != y { HeadsMember(ys, x); }
  }

  /** The DAG parser's scanner finds the deduplicated first segments of what the renderer's
      scanner finds, in the same order. */
  lemma ScannersAgree(t: string)
    ensures Dedup(HeadsOfBlocks(Parse(t))) == Dedup(Heads(References(t)))
  {
    BlocksAsHeads(Parse(t));
    HeadsOfDedup(Names(Parse(t)));
  }

  // ---------- rendering a concatenation ----------

  /** No `{{` is left open at the end. */
  predicate ClosedDoc(d: Doc) {
    match d
    case Tail(text) => Find(text, "{{").None?
    case Block(_, _, rest) => ClosedDoc(rest)
  }

  predicate Closed(t: string) { ClosedDoc(Parse(t)) }

  /** No `{{` arises where the two texts meet. */
  predicate Seam(a: string, b: string) {
    a == [] || b == [] || a[|a| - 1] != '{' || b[0] != '{'
  }

  /** Nor does an open `{{` of the first text find a `}}` in the second or where they meet. */
  predicate Apart(a: string, b: string) {
    && Seam(a, b)
    && (Closed(a) || (Find(b, "}}").None? && (a == [] || b == [] || a[|a| - 1] != '}' || b[0] != '}')))
  }

  function Join(d: Doc, e: Doc): Doc {
    match d
    case Tail(text) => (match e case Tail(t) => Tail(text + t) case Block(t, i, r) => Block(text + t, i, r))
    case Block(t, i, r) => Block(t, i, Join(r, e))
  }

  lemma FindAfter(a: string, b: string)
    requires Find(a, "{{").None? && Seam(a, b)
    ensures var r := Find(b, "{{");
            Find(a + b, "{{") == if r.Some? then Some(|a| + r.value) else None
  {
    hide FindFrom;
    forall j
      ensures MatchAt(a + b, "{{", j) <==> MatchAt(b, "{{", j - |a|)
    {
      if j >= |a| {
        MatchShift(a, b, "{{", j);
      } else if 0 <= j && j + 2 <= |a| {
        assert (a + b)[j..j + 2] == a[j..j + 2];
        assert !MatchAt(a, "{{", j);
      } else if 0 <= j && j + 2 <= |a + b| {
        assert (a + b)[j..j + 2] == [a[j], b[0]];
      }
    }
    var r := Find(b, "{{");
    if r.Some? { assert MatchAt(a + b, "{{", |a| + r.value); }
  }

  /** The first block of `a` is the first block of `a + b`. */
  lemma FirstBlockConcat(a: string, b: string)
    requires Find(a, "{{").Some? && Find(a[Find(a, "{{").value + 2..], "}}").Some?
    ensures var i := Find(a, "{{").value;
            var after := a[i + 2..];
            var close := Find(after, "}}");
            && Parse(a) == Block(a[..i], after[..close.value], Parse(after[close.value + 2..]))
            && Parse(a + b) == Block(a[..i], after[..close.value], Parse(after[close.value + 2..] + b))
  {
    hide FindFrom;
    var s := a + b;
    var i := Find(a, "{{").value;
    var after := a[i + 2..];
    FindInPrefix(a, b, "{{");
    assert s[..i] == a[..i] && s[i + 2..] == after + b;
    FindInPrefix(after, b, "}}");
    var e := Find(after, "}}").value;
    assert (after + b)[..e] == after[..e] && (after + b)[e + 2..] == after[e + 2..] + b;
  }

  lemma ParseUnclosed(t: string)
    requires Find(t, "{{").None? || Find(t[Find(t, "{{").value + 2..], "}}").None?
    ensures Parse(t) == Tail(t)
  {
  }

  lemma ParseClosed(t: string, i: nat, e: nat)
    requires Find(t, "{{") == Some(i) && Find(t[i + 2..], "}}") == Some(e)
    ensures Parse(t) == Block(t[..i], t[i + 2..][..e], Parse(t[i + 2..][e + 2..]))
  {
  }

  lemma FirstBlockAfter(a: string, b: string)
    requires Find(a, "{{").None? && Seam(a, b)
    ensures Parse(a + b) == Join(Tail(a), Parse(b))
  {
    hide FindFrom, Parse, Find, Seam;
    FindAfter(a, b);
    var r := Find(b, "{{");
    if r.None? {
      ParseUnclosed(a + b);
      ParseUnclosed(b);
    } else {
      var i := r.value;
      assert (a + b)[..|a| + i] == a + b[..i];
      assert (a + b)[|a| + i + 2..] == b[i + 2..];
      var e := Find(b[i + 2..], "}}");
      if e.None? {
        ParseUnclosed(a + b);
        ParseUnclosed(b);
      } else {
        ParseClosed(a + b, |a| + i, e.value);
        ParseClosed(b, i, e.value);
      }
    }
  }

  lemma NoCloseIn(b: string, i: nat)
    requires Find(b, "}}").None? && i <= |b|
    ensures Find(b[i..], "}}").None?
  {
    hide FindFrom;
    forall j
      ensures !MatchAt(b[i..], "}}", j)
    {
      assert !MatchAt(b, "}}", i + j);
      assert 0 <= j <= |b| - i - 2 ==> b[i..][j..j + 2] == b[i + j..i + j + 2];
    }
  }

  lemma NoCloseAcross(a: string, b: string)
    requires Find(a, "}}").None? && Find(b, "}}").None?
    requires a == [] || b == [] || a[|a| - 1] != '}' || b[0] != '}'
    ensures Find(a + b, "}}").None?
  {
    hide FindFrom;
    forall j
      ensures !MatchAt(a + b, "}}", j)
    {
      if j >= |a| {
        MatchShift(a, b, "}}", j);
      } else if 0 <= j && j + 2 <= |a| {
        assert (a + b)[j..j + 2] == a[j..j + 2];
        assert !MatchAt(a, "}}", j);
      } else if 0 <= j && j + 2 <= |a + b| {
        assert (a + b)[j..j + 2] == [a[j], b[0]];
      }
    }
  }

  /** An open pair that finds no `}}` leaves everything behind it plain. */
  lemma OpenConcat(a: string, b: string)
    requires Find(a, "{{").Some? && Find(a[Find(a, "{{").value + 2..], "}}").None? && Apart(a, b)
    ensures Parse(a + b) == Join(Parse(a), Parse(b))
  {
    hide FindFrom, Parse, Closed;
    assert !Closed(a) by { ParseUnclosed(a); OpenTail(a); }
    var i := Find(a, "{{").value;
    var after := a[i + 2..];
    FindInPrefix(a, b, "{{");
    assert (a + b)[i + 2..] == after + b;
    assert after != [] ==> after[|after| - 1] == a[|a| - 1];
    NoCloseAcross(after, b);
    ParseUnclosed(a + b);
    ParseUnclosed(a);
    var start := Find(b, "{{");
    if start.Some? { NoCloseIn(b, start.value + 2); }
    ParseUnclosed(b);
  }

  lemma OpenTail(a: string)
    requires Parse(a) == Tail(a) && Find(a, "{{").Some?
    ensures !Closed(a)
  {
  }

  lemma {:induction false} ParseConcat(a: string, b: string)
    requires Apart(a, b)
    ensures Parse(a + b) == Join(Parse(a), Parse(b))
    decreases |a|
  {
    hide FindFrom, Parse;
    var start := Find(a, "{{");
    if start.None? {
      FirstBlockAfter(a, b);
      ParseUnclosed(a);
    } else {
      var after := a[start.value + 2..];
      var close := Find(after, "}}");
      if close.None? {
        OpenConcat(a, b);
      } else {
        FirstBlockConcat(a, b);
        var rest := after[close.value + 2..];
        assert rest != [] ==> rest[|rest| - 1] == a[|a| - 1];
        ParseConcat(rest, b);
      }
    }
  }

  lemma {:induction false} JoinLaws(d: Doc, e: Doc, ctx: map<string, string>)
    ensures RenderDoc(Join(d, e), ctx) == RenderDoc(d, ctx) + RenderDoc(e, ctx)
    ensures Names(Join(d, e)) == Names(d) + Names(e)
  {
    hide RenderRef, Trim;
    if d.Block? {
      JoinLaws(d.rest, e, ctx);
      var n := NonEmpty(Trim(d.inner));
      assert n + (Names(d.rest) + Names(e)) == (n + Names(d.rest)) + Names(e);
      var x, y, z, w := d.text, RenderRef(d.inner, ctx), RenderDoc(d.rest, ctx), RenderDoc(e, ctx);
      assert x + (y + (z + w)) == (x + (y + z)) + w;
    } else if e.Block? {
      var x, y, z := d.text, e.text, RenderRef(e.inner, ctx) + RenderDoc(e.rest, ctx);
      assert (x + y) + z == x + (y + z);
    }
  }

  /** The plain text behind the last block. */
  function Last(d: Doc): string {
    match d
    case Tail(text) => text
    case Block(_, _, rest) => Last(rest)
  }

  lemma {:induction false} LastEndsSource(d: Doc) returns (x: string)
    ensures Source(d) == x + Last(d)
  {
    if d.Block? {
      var y := LastEndsSource(d.rest);
      x := d.text + (("{{" + d.inner + "}}") + y);
    } else {
      x := [];
    }
  }

  lemma {:induction false} JoinClosed(d: Doc, e: Doc)
    requires ClosedDoc(d) && ClosedDoc(e)
    requires e.Tail? ==> Seam(Last(d), e.text)
    ensures ClosedDoc(Join(d, e))
  {
    if d.Block? {
      JoinClosed(d.rest, e);
    } else if e.Tail? {
      FindAfter(d.text, e.text);
    }
  }

  /** Texts of which the first opens nothing that the second closes render independently. */
  lemma RenderApart(a: string, b: string, ctx: map<string, string>)
    requires Apart(a, b)
    ensures Render(a + b, ctx) == Render(a, ctx) + Render(b, ctx)
    ensures Names(Parse(a + b)) == Names(Parse(a)) + Names(Parse(b))
  {
    hide Parse, RenderDoc, Names, Apart, Join;
    ParseConcat(a, b);
    JoinLaws(Parse(a), Parse(b), ctx);
  }

  /** Two closed texts that meet without forming a brace pair render independently. */
  lemma RenderConcat(a: string, b: string, ctx: map<string, string>)
    requires Closed(a) && Closed(b) && Seam(a, b)
    ensures Closed(a + b) && Render(a + b, ctx) == Render(a, ctx) + Render(b, ctx)
  {
    hide FindFrom, RenderDoc, Join, Names, Parse, ClosedDoc;
    assert Apart(a, b);
    RenderApart(a, b, ctx);
    ParseConcat(a, b);
    SourceOfParse(a);
    SourceOfParse(b);
    var x := LastEndsSource(Parse(a));
    assert Last(Parse(a)) != [] ==> a[|a| - 1] == Last(Parse(a))[|Last(Parse(a))| - 1];
    TailSource(b);
    JoinClosed(Parse(a), Parse(b));
  }

  lemma TailSource(t: string)
    ensures Parse(t).Tail? ==> Parse(t).text == t
  {
    hide FindFrom;
  }

  /** A text without `{{` is closed and renders to itself. */
  lemma RenderNoPair(s: string, ctx: map<string, string>)
    requires Find(s, "{{").None?
    ensures Parse(s) == Tail(s) && Closed(s) && Render(s, ctx) == s
  {
    hide FindFrom;
  }

  lemma RenderPlain(s: string, ctx: map<string, string>)
    requires forall i :: 0 <= i < |s| ==> s[i] != '{'
    ensures Parse(s) == Tail(s) && Closed(s) && Render(s, ctx) == s
  {
    hide FindFrom, Parse, Closed, Render;
    forall j
      ensures !MatchAt(s, "{{", j)
    {
      assert 0 <= j <= |s| - 2 ==> s[j..j + 2][0] == s[j];
    }
    RenderNoPair(s, ctx);
  }

  lemma NoCloseBefore(inner: string)
    requires forall i :: 0 <= i < |inner| ==> inner[i] != '}'
    ensures forall j :: 0 <= j < |inner| ==> !MatchAt(inner + "}}", "}}", j)
  {
    var after := inner + "}}";
    forall j | 0 <= j < |inner|
      ensures !MatchAt(after, "}}", j)
    {
      assert after[j] == inner[j];
      assert after[j..j + 2][0] == after[j];
    }
  }

  /** A padded reference to a bound name becomes its value; an unbound one loses its padding. */
  lemma RenderReference(pre: string, name: string, post: string, ctx: map<string, string>)
    requires AllSpace(pre) && AllSpace(post) && name != [] && Tight(name)
    requires forall i :: 0 <= i < |name| ==> name[i] != '}'
    ensures var t := "{{" + (pre + name + post) + "}}";
            Closed(t) && Render(t, ctx) == if name in ctx then ctx[name] else "{{" + name + "}}"
  {
    hide FindFrom, Trim;
    var inner := pre + name + post;
    var t := "{{" + inner + "}}";
    var after := t[2..];
    assert after == inner + "}}";
    assert MatchAt(t, "{{", 0);
    assert MatchAt(after, "}}", |inner|);
    forall i | 0 <= i < |inner|
      ensures inner[i] != '}'
    {
      if |pre| <= i < |pre| + |name| { assert inner[i] == name[i - |pre|]; }
    }
    NoCloseBefore(inner);
    ParseClosed(t, 0, |inner|);
    assert t[..0] == [] && after[..|inner|] == inner && after[|inner| + 2..] == [];
    assert forall j :: !MatchAt([], "{{", j);
    ParseUnclosed([]);
    assert Parse(t) == Block([], inner, Tail([]));
    TrimOf(pre, name, post);
    assert [] + (RenderRef(inner, ctx) + []) == RenderRef(inner, ctx);
    assert RenderDoc(Tail([]), ctx) == [];
    assert RenderDoc(Block([], inner, Tail([])), ctx) == [] + (RenderRef(inner, ctx) + RenderDoc(Tail([]), ctx));
    assert ClosedDoc(Tail([]));
  }
}
