/** What a condition says, in Dafny's own `||`, `&&` and comparisons: how an operand is read off its
    text, when a comparison of two read values holds, and when a condition is true. */
module ConditionTruth {
  import opened Text
  import opened Condition
  import opened ConditionGrammar
  import ConditionValues

  // ---------- reading an operand ----------

  /** A sign or none, at least one digit, and a value that fits in 64 bits. */
  ghost predicate Numeral(core: string, n: int) {
    exists sign, ds :: sign in {"", "+", "-"} && core == sign + ds && ds != [] && AllDigits(ds) && IsI64(n)
      && n == if sign == "-" then -(DigitsValue(ds) as int) else DigitsValue(ds)
  }

  /** It starts and ends with the same quotation mark, which may be one and the same. */
  predicate Quoted(core: string) {
    core != [] && core[0] in "\"'" && core[|core| - 1] == core[0]
  }

  /** Neither quoted nor a number. */
  ghost predicate Word(fl: FloatOps, core: string) {
    !Quoted(core) && (forall n :: !Numeral(core, n)) && fl.parse(core).None?
  }

  predicate Keyword(core: string) {
    Spells(core, "true") || Spells(core, "false") || Spells(core, "null") || Spells(core, "none")
  }

  ghost predicate CoreReads(fl: FloatOps, core: string, v: Value) {
    match v
    case Str(x) => core == "\"" + x + "\"" || core == "'" + x + "'" || (x == core && Word(fl, core) && !Keyword(core))
    case Number(n) => Numeral(core, n)
    case Float(f) => !Quoted(core) && (forall n :: !Numeral(core, n)) && fl.parse(core) == Some(f)
    case Boolean(b) => Word(fl, core) && Spells(core, if b then "true" else "false")
    case Null => Word(fl, core) && (Spells(core, "null") || Spells(core, "none"))
  }

  /** The operand reads as the value. */
  ghost predicate Reads(fl: FloatOps, text: string, v: Value) {
    exists core :: Around(text, core) && CoreReads(fl, core, v)
  }

  lemma NumeralIsParse(core: string, n: int)
    ensures Numeral(core, n) <==> ParseI64(core) == Some(n)
  {
    hide DigitsValue;
    if Numeral(core, n) {
      var sign, ds :| sign in {"", "+", "-"} && core == sign + ds && ds != [] && AllDigits(ds) && IsI64(n)
        && n == if sign == "-" then -(DigitsValue(ds) as int) else DigitsValue(ds);
      assert sign == "" ==> core == ds;
      assert sign != "" ==> core[0] == sign[0] && core[1..] == ds;
      assert IsDigit(ds[0]);
    }
    if ParseI64(core) == Some(n) {
      var signed := core[0] == '+' || core[0] == '-';
      var sign, ds := if signed then core[..1] else "", if signed then core[1..] else core;
      assert core == sign + ds;
      assert sign == if core[0] == '+' then "+" else if core[0] == '-' then "-" else "";
    }
  }

  lemma KeywordsAreLower(core: string)
    ensures Spells(core, "true") <==> Lower(core) == "true"
    ensures Spells(core, "false") <==> Lower(core) == "false"
    ensures Spells(core, "null") <==> Lower(core) == "null"
    ensures Spells(core, "none") <==> Lower(core) == "none"
    ensures Spells(core, "yes") <==> Lower(core) == "yes"
  {
    hide Spells, Lower;
    SpellsIsLower(core, "true");
    SpellsIsLower(core, "false");
    SpellsIsLower(core, "null");
    SpellsIsLower(core, "none");
    SpellsIsLower(core, "yes");
  }

  lemma QuotedIsInside(core: string, x: string)
    ensures (core == "\"" + x + "\"" || core == "'" + x + "'") <==> Quoted(core) && |core| > 1 && x == core[1..|core| - 1]
  {
    if core == "\"" + x + "\"" || core == "'" + x + "'" {
      assert core[1..|core| - 1] == x && core[0] == core[|core| - 1];
    }
    if Quoted(core) && |core| > 1 && x == core[1..|core| - 1] {
      assert core == [core[0]] + x + [core[|core| - 1]];
    }
  }

  lemma CoreExact(fl: FloatOps, text: string, v: Value)
    ensures CoreReads(fl, Trim(text), v) <==> ParseValue(fl, text) == Some(v)
  {
    hide Trim, ParseI64, Numeral, Spells, Lower;
    var core := Trim(text);
    forall n
      ensures Numeral(core, n) <==> ParseI64(core) == Some(n)
    {
      NumeralIsParse(core, n);
    }
    assert ParseI64(core).Some? ==> Numeral(core, ParseI64(core).value);
    ConditionValues.IntText(core);
    KeywordsAreLower(core);
    if v.Str? { QuotedIsInside(core, v.text); }
    if Quoted(core) {
      assert core[0] == '"' || core[0] == '\'';
      if |core| > 1 { QuotedIsInside(core, core[1..|core| - 1]); }
    }
  }

  /** Parsing an operand is reading it; in particular no text reads in two ways. */
  lemma ReadExact(fl: FloatOps, text: string, v: Value)
    ensures Reads(fl, text, v) <==> ParseValue(fl, text) == Some(v)
  {
    hide Trim, CoreReads, ParseValue, Around;
    forall x
      ensures Around(text, x) <==> x == Trim(text)
    {
      AroundIsTrim(text, x);
    }
    CoreExact(fl, text, v);
  }

  /** An operand has no reading exactly when it is one quotation mark between white space. */
  lemma NoReading(fl: FloatOps, text: string)
    ensures (forall v :: !Reads(fl, text, v)) <==> Around(text, "\"") || Around(text, "'")
  {
    hide Reads, Around, ParseValue;
    AroundIsTrim(text, "\"");
    AroundIsTrim(text, "'");
    ParsePanics(fl, text);
    if ParseValue(fl, text).Some? { ReadExact(fl, text, ParseValue(fl, text).value); }
    forall v | Reads(fl, text, v)
      ensures ParseValue(fl, text).Some?
    {
      ReadExact(fl, text, v);
    }
  }

  // ---------- comparing values ----------

  /** Integers as integers, texts in lexicographic order, floats and mixed numbers as floats; nothing
      else stands in any order. */
  ghost predicate Stands(fl: FloatOps, v: Value, w: Value, o: Ordering) {
    match (v, w)
    case (Number(a), Number(b)) => if o.Less? then a < b else if o.Equal? then a == b else a > b
    case (Str(a), Str(b)) =>
      if o.Less? then ConditionValues.LexLess(a, b) else if o.Equal? then a == b else ConditionValues.LexLess(b, a)
    case (Float(a), Float(b)) => fl.compare(a, b) == Some(o)
    case (Number(a), Float(b)) => fl.compare(fl.fromInt(a), b) == Some(o)
    case (Float(a), Number(b)) => fl.compare(a, fl.fromInt(b)) == Some(o)
    case _ => false
  }

  /** Values of one kind with the same content; floats as they compare. */
  ghost predicate Equals(fl: FloatOps, v: Value, w: Value) {
    match (v, w)
    case (Number(a), Number(b)) => a == b
    case (Str(a), Str(b)) => a == b
    case (Float(a), Float(b)) => fl.compare(a, b) == Some(Equal)
    case (Boolean(a), Boolean(b)) => a <==> b
    case (Null, Null) => true
    case _ => false
  }

  ghost predicate Relates(fl: FloatOps, op: string, v: Value, w: Value) {
    || (op == "==" && Equals(fl, v, w))
    || (op == "!=" && !Equals(fl, v, w))
    || (op == "<" && Stands(fl, v, w, Less))
    || (op == ">" && Stands(fl, v, w, Greater))
    || (op == "<=" && (Stands(fl, v, w, Less) || Stands(fl, v, w, Equal)))
    || (op == ">=" && (Stands(fl, v, w, Greater) || Stands(fl, v, w, Equal)))
  }

  lemma StandsIsCompare(fl: FloatOps, v: Value, w: Value, o: Ordering)
    ensures Stands(fl, v, w, o) <==> CompareValues(fl, v, w) == Some(o)
  {
    hide ConditionValues.LexLess, CompareStrings;
    if v.Str? && w.Str? { ConditionValues.CompareStringsIsLex(v.text, w.text); }
  }

  /** A comparison is decided by what its operands read as. */
  lemma ComparisonExact(fl: FloatOps, left: string, right: string, op: string, b: bool)
    requires op in COMPARISONS
    ensures EvalComparison(fl, left, right, op) == Some(b) <==>
              exists v, w :: Reads(fl, left, v) && Reads(fl, right, w) && (b <==> Relates(fl, op, v, w))
  {
    hide ParseValue, Reads, Stands, CompareValues;
    forall v
      ensures Reads(fl, left, v) <==> ParseValue(fl, left) == Some(v)
      ensures Reads(fl, right, v) <==> ParseValue(fl, right) == Some(v)
    {
      ReadExact(fl, left, v);
      ReadExact(fl, right, v);
    }
    if ParseValue(fl, left).Some? && ParseValue(fl, right).Some? {
      var v, w := ParseValue(fl, left).value, ParseValue(fl, right).value;
      StandsIsCompare(fl, v, w, Less);
      StandsIsCompare(fl, v, w, Equal);
      StandsIsCompare(fl, v, w, Greater);
      assert Reads(fl, left, v) && Reads(fl, right, w);
      assert EvalComparison(fl, left, right, op) == Some(Relates(fl, op, v, w));
    }
  }

  // ---------- conditions ----------

  /** The words that a bare condition is true for. */
  ghost predicate SaysYes(text: string) {
    exists core :: Around(text, core) && (Spells(core, "true") || Spells(core, "yes") || core == "1")
  }

  ghost predicate Truth(fl: FloatOps, e: Expr) {
    match e
    case Or(l, r) => Truth(fl, l) || Truth(fl, r)
    case And(l, r) => Truth(fl, l) && Truth(fl, r)
    case Cmp(op, left, right) => exists v, w :: Reads(fl, left, v) && Reads(fl, right, w) && Relates(fl, op, v, w)
    case Lit(text) => SaysYes(text)
  }

  /** Every operand of a comparison reads as something. */
  ghost predicate Readable(fl: FloatOps, e: Expr) {
    match e
    case Or(l, r) => Readable(fl, l) && Readable(fl, r)
    case And(l, r) => Readable(fl, l) && Readable(fl, r)
    case Cmp(_, left, right) => (exists v :: Reads(fl, left, v)) && exists v :: Reads(fl, right, v)
    case Lit(_) => true
  }

  predicate KnownOperators(e: Expr) {
    match e
    case Or(l, r) => KnownOperators(l) && KnownOperators(r)
    case And(l, r) => KnownOperators(l) && KnownOperators(r)
    case Cmp(op, _, _) => op in COMPARISONS
    case Lit(_) => true
  }

  lemma LiteralSaysYes(text: string)
    ensures ParseBool(text) <==> SaysYes(text)
  {
    hide Trim, Around, Spells, Lower;
    forall x
      ensures Around(text, x) <==> x == Trim(text)
    {
      AroundIsTrim(text, x);
    }
    var core := Trim(text);
    KeywordsAreLower(core);
    LowerOne(core);
  }

  lemma LowerOne(s: string)
    ensures Lower(s) == "1" <==> s == "1"
  {
  }

  lemma CmpTruth(fl: FloatOps, op: string, left: string, right: string)
    requires op in COMPARISONS
    ensures EvalComparison(fl, left, right, op) ==
      if Readable(fl, Cmp(op, left, right)) then Some(Truth(fl, Cmp(op, left, right))) else None
  {
    hide Reads, ParseValue, Relates;
    forall v
      ensures Reads(fl, left, v) <==> ParseValue(fl, left) == Some(v)
      ensures Reads(fl, right, v) <==> ParseValue(fl, right) == Some(v)
    {
      ReadExact(fl, left, v);
      ReadExact(fl, right, v);
    }
    ComparisonExact(fl, left, right, op, true);
    if ParseValue(fl, left).Some? && ParseValue(fl, right).Some? {
      assert Reads(fl, left, ParseValue(fl, left).value) && Reads(fl, right, ParseValue(fl, right).value);
    }
  }

  lemma {:induction false} MeaningTruth(fl: FloatOps, e: Expr)
    requires KnownOperators(e)
    ensures Meaning(fl, e) == if Readable(fl, e) then Some(Truth(fl, e)) else None
  {
    match e
    case Or(l, r) => MeaningTruth(fl, l); MeaningTruth(fl, r);
    case And(l, r) => MeaningTruth(fl, l); MeaningTruth(fl, r);
    case Cmp(op, left, right) => CmpTruth(fl, op, left, right);
    case Lit(text) => LiteralSaysYes(text);
  }

  lemma {:induction false} PrintedOperators(p: Printed)
    requires WellPrinted(p)
    ensures KnownOperators(Erase(p))
  {
    match p
    case POr(_, l, r) => PrintedOperators(l); PrintedOperators(r);
    case PAnd(_, l, r) => PrintedOperators(l); PrintedOperators(r);
    case PCmp(_, _, _, _) =>
    case PLit(_, _) =>
  }

  /** Every permitted way of writing a condition evaluates to whether it is true, unless an operand cannot
      be read: then the evaluator panics. */
  lemma EvalTruth(fl: FloatOps, p: Printed)
    requires WellPrinted(p)
    ensures Eval(fl, Print(p)) == if Readable(fl, Erase(p)) then Some(Truth(fl, Erase(p))) else None
  {
    hide Eval, Print, Meaning, Truth, Readable;
    PrintedOperators(p);
    EvalPrint(fl, p);
    MeaningTruth(fl, Erase(p));
  }
}
