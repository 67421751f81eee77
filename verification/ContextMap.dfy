/** The data that templates are rendered with: global variables, parameters and node outputs,
    flattened into one map from dotted names to texts. */
module ContextMap {
  import opened Text
  import opened JsonValues
  import opened JsonLeaves
  import Template

  // ---------- the context ----------

  /** Variables, parameters and node outputs at one moment. */
  datatype Data = Data(globals: map<string, string>, params: map<string, Json>, outputs: map<string, Json>)

  /** The three sources, in the order in which they are walked. */
  datatype Source = Variables | Parameters | Outputs

  /** `q` is walked after `r`, so what it inserts under the same key stays. */
  predicate Overrides(q: Source, r: Source) {
    (r.Variables? && !q.Variables?) || (r.Parameters? && q.Outputs?)
  }

  ghost predicate LeafOf(c: Codec, d: Data, source: Source, x: Leaf) {
    match source
    case Variables => exists k :: k in d.globals && x == Leaf(["global", k], d.globals[k])
    case Parameters => exists k :: k in d.params && x in Leaves(c, ["param", k], d.params[k])
    case Outputs => exists n :: n in d.outputs && x in Leaves(c, [n], d.outputs[n])
  }

  /** No later source has a leaf with this key. */
  ghost predicate Topmost(c: Codec, d: Data, source: Source, key: string) {
    forall q, y :: Overrides(q, source) && LeafOf(c, d, q, y) ==> Key(y.path) != key
  }

  ghost predicate Provides(c: Codec, d: Data, source: Source, x: Leaf, key: string, text: string) {
    LeafOf(c, d, source, x) && Key(x.path) == key && x.text == text && Topmost(c, d, source, key)
  }

  /** The map has the keys of all leaves, each with the text of a leaf from the last source that has the key. */
  ghost predicate Represents(c: Codec, m: map<string, string>, d: Data) {
    && (forall source, x :: LeafOf(c, d, source, x) ==> Key(x.path) in m)
    && (forall key :: key in m ==> exists source, x :: Provides(c, d, source, x, key, m[key]))
  }

  lemma {:induction false} InsertAllKeys(m: map<string, string>, leaves: seq<Leaf>)
    ensures var r := InsertAll(m, leaves);
            && (forall key :: key in m ==> key in r)
            && (forall x :: x in leaves ==> Key(x.path) in r)
            && forall key :: key in r ==>
                 if exists x :: x in leaves && Key(x.path) == key
                 then exists x :: x in leaves && Key(x.path) == key && x.text == r[key]
                 else key in m && r[key] == m[key]
    decreases |leaves|
  {
    hide Key;
    if leaves != [] {
      var x, rest := leaves[0], leaves[1..];
      InsertAllKeys(m[Key(x.path) := x.text], rest);
      assert x in leaves && forall y :: y in rest ==> y in leaves;
      assert forall y :: y in leaves ==> y == x || y in rest;
    }
  }

  /** More leaves of one source come in, while no later source has any. */
  lemma RepresentsMore(c: Codec, m: map<string, string>, d: Data, leaves: seq<Leaf>, e: Data, source: Source)
    requires Represents(c, m, d)
    requires forall x :: LeafOf(c, e, source, x) <==> LeafOf(c, d, source, x) || x in leaves
    requires forall q, x :: q != source ==> (LeafOf(c, e, q, x) <==> LeafOf(c, d, q, x))
    requires forall q, x :: Overrides(q, source) ==> !LeafOf(c, d, q, x)
    ensures Represents(c, InsertAll(m, leaves), e)
  {
    hide Key, LeafOf, InsertAll;
    InsertAllKeys(m, leaves);
    var r := InsertAll(m, leaves);
    forall key | key in r
      ensures exists q, x :: Provides(c, e, q, x, key, r[key])
    {
      if exists x :: x in leaves && Key(x.path) == key {
        var x :| x in leaves && Key(x.path) == key && x.text == r[key];
        assert Provides(c, e, source, x, key, r[key]);
      } else {
        var q, x :| Provides(c, d, q, x, key, m[key]);
        assert Provides(c, e, q, x, key, r[key]);
      }
    }
  }

  // ---------- merging outputs ----------

  datatype MergeStrategy = Overwrite | Append | Max | Min | Reducer

  /** `as_f64`: the number that a JSON value is, if it is one. */
  type Numbers = Json -> Option<real>

  function Items(v: Json): seq<Json> {
    if v.JArr? then v.items else [v]
  }

  /** What a node's output becomes when another one is merged into it. The larger or smaller of two
      numbers stays; if either is no number, the old value does. */
  function Merged(num: Numbers, existing: Option<Json>, added: Json, strategy: MergeStrategy): Json {
    match strategy
    case Append => JArr((if existing.Some? then Items(existing.value) else []) + Items(added))
    case Max => if existing.Some? && !Larger(num, added, existing.value) then existing.value else added
    case Min => if existing.Some? && !Larger(num, existing.value, added) then existing.value else added
    case _ => added
  }

  predicate Larger(num: Numbers, a: Json, b: Json) {
    num(a).Some? && num(b).Some? && num(a).value > num(b).value
  }

  class DagContext {
    var globalVars: map<string, string>
    var parameters: map<string, Json>
    var nodeOutputs: map<string, Json>

    constructor (globalVars: map<string, string>, parameters: map<string, Json>)
      ensures Contents() == Data(globalVars, parameters, map[])
    {
      this.globalVars, this.parameters, this.nodeOutputs := globalVars, parameters, map[];
    }

    ghost function Contents(): Data
      reads this
    {
      Data(globalVars, parameters, nodeOutputs)
    }

    method RecordOutput(node: string, outputs: Json)
      modifies this`nodeOutputs
      ensures Contents() == old(Contents()).(outputs := old(nodeOutputs)[node := outputs])
    {
      nodeOutputs := nodeOutputs[node := outputs];
    }

    /** The append branch takes the old value out of the map before it puts the array back. */
    method MergeOutput(num: Numbers, node: string, outputs: Json, strategy: MergeStrategy)
      modifies this`nodeOutputs
      ensures var before := old(if node in nodeOutputs then Some(nodeOutputs[node]) else None);
              Contents() == old(Contents()).(outputs := old(nodeOutputs)[node := Merged(num, before, outputs, strategy)])
      ensures strategy.Overwrite? || strategy.Reducer? ==> node in nodeOutputs && nodeOutputs[node] == outputs
    {
      if strategy.Append? {
        if node in nodeOutputs {
          var existing := nodeOutputs[node];
          nodeOutputs := nodeOutputs - {node};
          if existing.JArr? {
            if outputs.JArr? {
              nodeOutputs := nodeOutputs[node := JArr(existing.items + outputs.items)];
            } else {
              nodeOutputs := nodeOutputs[node := JArr(existing.items + [outputs])];
            }
          } else {
            nodeOutputs := nodeOutputs[node := JArr([existing] + Items(outputs))];
          }
        } else {
          assert [] + Items(outputs) == Items(outputs);
          nodeOutputs := nodeOutputs[node := JArr(Items(outputs))];
        }
      } else if strategy.Max? || strategy.Min? {
        if node in nodeOutputs {
          var existingNum, newNum := num(nodeOutputs[node]), num(outputs);
          if existingNum.Some? && newNum.Some? {
            var better := if strategy.Max? then newNum.value > existingNum.value else newNum.value < existingNum.value;
            if better {
              nodeOutputs := nodeOutputs[node := outputs];
            }
          }
          assert nodeOutputs == nodeOutputs[node := nodeOutputs[node]];
        } else {
          nodeOutputs := nodeOutputs[node := outputs];
        }
      } else {
        nodeOutputs := nodeOutputs[node := outputs];
      }
    }

    /** `build_context_map`: variables, then parameters, then outputs, each in no particular order. */
    method BuildContextMap(c: Codec) returns (m: map<string, string>)
      ensures Represents(c, m, Contents())
    {
      hide Represents, Leaves, Flatten;
      m := map[];
      ghost var done := Data(map[], map[], map[]);
      NothingRepresented(c);
      var todo := globalVars.Keys;
      while todo != {}
        invariant todo <= globalVars.Keys && Walked(done.globals, globalVars, todo)
        invariant done.params == map[] && done.outputs == map[] && Represents(c, m, done)
      {
        var k :| k in todo;
        AddGlobal(c, m, done, k, globalVars[k]);
        m, todo := m["global." + k := globalVars[k]], todo - {k};
        done := done.(globals := done.globals[k := globalVars[k]]);
      }
      todo := parameters.Keys;
      while todo != {}
        invariant todo <= parameters.Keys && Walked(done.params, parameters, todo)
        invariant done.globals == globalVars && done.outputs == map[] && Represents(c, m, done)
      {
        var k :| k in todo;
        AddParameter(c, m, done, k, parameters[k]);
        m := FlattenJsonValue(c, m, "param." + k, parameters[k]);
        todo, done := todo - {k}, done.(params := done.params[k := parameters[k]]);
      }
      todo := nodeOutputs.Keys;
      while todo != {}
        invariant todo <= nodeOutputs.Keys && Walked(done.outputs, nodeOutputs, todo)
        invariant done.globals == globalVars && done.params == parameters && Represents(c, m, done)
      {
        var n :| n in todo;
        AddOutput(c, m, done, n, nodeOutputs[n]);
        m := FlattenJsonValue(c, m, n, nodeOutputs[n]);
        todo, done := todo - {n}, done.(outputs := done.outputs[n := nodeOutputs[n]]);
      }
      assert done.outputs == nodeOutputs;
    }

    /** The text does not depend on the order within the maps, reserved names or not. */
    method RenderTemplate(c: Codec, template: string) returns (r: string)
      ensures exists m :: Represents(c, m, Contents()) && r == Template.Render(template, m)
      ensures DotFreeNames(Contents()) ==> forall m :: Represents(c, m, Contents()) ==> r == Template.Render(template, m)
    {
      hide Represents, DotFreeNames, Template.Render;
      var context := BuildContextMap(c);
      r := Template.RenderTemplate(template, context);
      forall m | DotFreeNames(Contents()) && Represents(c, m, Contents())
        ensures m == context
      {
        ContextUnique(c, m, context, Contents());
      }
    }
  }

  /** `part` is `whole` without the keys that are still to be visited. */
  ghost predicate Walked<V(!new)>(part: map<string, V>, whole: map<string, V>, todo: set<string>) {
    part.Keys == whole.Keys - todo && forall k :: k in part ==> part[k] == whole[k]
  }

  lemma NothingRepresented(c: Codec)
    ensures Represents(c, map[], Data(map[], map[], map[]))
  {
    forall source: Source, x: Leaf
      ensures !LeafOf(c, Data(map[], map[], map[]), source, x)
    {
    }
  }

  lemma AddGlobal(c: Codec, m: map<string, string>, d: Data, k: string, text: string)
    requires k !in d.globals && d.params == map[] && d.outputs == map[] && Represents(c, m, d)
    ensures Represents(c, m["global." + k := text], d.(globals := d.globals[k := text]))
  {
    hide Represents, Leaves;
    var path := ["global", k];
    assert Key(path) == "global." + k by { KeyOfTwo("global", k); }
    assert [Leaf(path, text)][1..] == [];
    assert InsertAll(m, [Leaf(path, text)]) == m[Key(path) := text];
    var e := d.(globals := d.globals[k := text]);
    forall x
      ensures LeafOf(c, e, Variables, x) <==> LeafOf(c, d, Variables, x) || x in [Leaf(path, text)]
    {
      assert forall g :: g in e.globals <==> g in d.globals || g == k;
      assert forall g :: g in d.globals ==> e.globals[g] == d.globals[g];
      assert e.globals[k] == text;
    }
    RepresentsMore(c, m, d, [Leaf(path, text)], e, Variables);
  }

  lemma AddParameter(c: Codec, m: map<string, string>, d: Data, k: string, v: Json)
    requires k !in d.params && d.outputs == map[] && Represents(c, m, d)
    ensures Represents(c, Flatten(c, m, "param." + k, v), d.(params := d.params[k := v]))
  {
    hide Represents, Leaves, Flatten;
    var path := ["param", k];
    assert Key(path) == "param." + k by { KeyOfTwo("param", k); }
    FlattenInserts(c, m, path, v);
    var e := d.(params := d.params[k := v]);
    forall x
      ensures LeafOf(c, e, Parameters, x) <==> LeafOf(c, d, Parameters, x) || x in Leaves(c, path, v)
    {
      assert forall g :: g in e.params <==> g in d.params || g == k;
      assert forall g :: g in d.params ==> e.params[g] == d.params[g];
      assert e.params[k] == v;
    }
    RepresentsMore(c, m, d, Leaves(c, path, v), e, Parameters);
  }

  lemma AddOutput(c: Codec, m: map<string, string>, d: Data, n: string, v: Json)
    requires n !in d.outputs && Represents(c, m, d)
    ensures Represents(c, Flatten(c, m, n, v), d.(outputs := d.outputs[n := v]))
  {
    hide Represents, Leaves, Flatten;
    var path := [n];
    KeyOfOne(n);
    FlattenInserts(c, m, path, v);
    var e := d.(outputs := d.outputs[n := v]);
    forall x
      ensures LeafOf(c, e, Outputs, x) <==> LeafOf(c, d, Outputs, x) || x in Leaves(c, path, v)
    {
      assert forall g :: g in e.outputs <==> g in d.outputs || g == n;
      assert forall g :: g in d.outputs ==> e.outputs[g] == d.outputs[g];
      assert e.outputs[n] == v;
    }
    RepresentsMore(c, m, d, Leaves(c, path, v), e, Outputs);
  }

  // ---------- what a path means ----------

  /** Parameter names, node ids and JSON keys are dot-free, and node ids are not empty. The names of
      global variables are not restricted, and a node may be called `global` or `param`. */
  ghost predicate DotFreeNames(d: Data) {
    && (forall k :: k in d.params ==> DotFree(k) && GoodKeys(d.params[k]))
    && (forall n :: n in d.outputs ==> n != [] && DotFree(n) && GoodKeys(d.outputs[n]))
  }

  /** Besides, no node has a reserved name. */
  ghost predicate GoodData(d: Data) {
    DotFreeNames(d) && "global" !in d.outputs && "param" !in d.outputs
  }

  /** Reading one source along a path. */
  function SourceText(c: Codec, d: Data, source: Source, path: seq<string>): Option<string> {
    match source
    case Variables =>
      if |path| == 2 && path[0] == "global" && path[1] in d.globals then Some(d.globals[path[1]]) else None
    case Parameters =>
      if |path| >= 2 && path[0] == "param" && path[1] in d.params then LeafTextAt(c, d.params[path[1]], path[2..]) else None
    case Outputs =>
      if path != [] && path[0] in d.outputs then LeafTextAt(c, d.outputs[path[0]], path[1..]) else None
  }

  /** The text at a path: the last source that has one. */
  function TextAt(c: Codec, d: Data, path: seq<string>): Option<string> {
    if SourceText(c, d, Outputs, path).Some? then SourceText(c, d, Outputs, path)
    else if SourceText(c, d, Parameters, path).Some? then SourceText(c, d, Parameters, path)
    else SourceText(c, d, Variables, path)
  }

  /** The leaves of a source are exactly the paths along which it has a text. */
  lemma SourceMeans(c: Codec, d: Data, source: Source, x: Leaf)
    requires DotFreeNames(d)
    ensures LeafOf(c, d, source, x) <==> SourceText(c, d, source, x.path) == Some(x.text)
  {
    hide GoodKeys, Leaves, LeafTextAt, DotFree;
    var p := x.path;
    match source
    case Variables =>
      if SourceText(c, d, source, p) == Some(x.text) { assert p == ["global", p[1]]; }
    case Parameters =>
      forall k | k in d.params && x in Leaves(c, ["param", k], d.params[k])
        ensures SourceText(c, d, source, p) == Some(x.text)
      {
        LeafBelow(c, ["param", k], d.params[k], x);
        assert p[0] == "param" && p[1] == k;
      }
      if SourceText(c, d, source, p) == Some(x.text) {
        LeafOfText(c, ["param", p[1]], d.params[p[1]], p[2..], x.text);
        assert ["param", p[1]] + p[2..] == p;
      }
    case Outputs =>
      forall n | n in d.outputs && x in Leaves(c, [n], d.outputs[n])
        ensures SourceText(c, d, source, p) == Some(x.text)
      {
        LeafBelow(c, [n], d.outputs[n], x);
        assert p[0] == n;
      }
      if SourceText(c, d, source, p) == Some(x.text) {
        LeafOfText(c, [p[0]], d.outputs[p[0]], p[1..], x.text);
        assert [p[0]] + p[1..] == p;
      }
  }

  /** The path of a leaf: a variable, or dot-free segments that start with the source. */
  predicate PathOf(source: Source, path: seq<string>) {
    match source
    case Variables => |path| == 2 && path[0] == "global"
    case Parameters => DotFreePath(path) && path[0] == "param"
    case Outputs => DotFreePath(path)
  }

  lemma LeafShape(c: Codec, d: Data, source: Source, x: Leaf)
    requires DotFreeNames(d) && LeafOf(c, d, source, x)
    ensures PathOf(source, x.path)
    ensures source.Outputs? ==> x.path[0] in d.outputs
  {
    hide GoodKeys, Leaves, LeafTextAt;
    assert DotFree("param");
    match source
    case Variables =>
    case Parameters =>
      var k :| k in d.params && x in Leaves(c, ["param", k], d.params[k]);
      LeafBelow(c, ["param", k], d.params[k], x);
      assert x.path[0] == "param" && x.path[1] == k;
    case Outputs =>
      var n :| n in d.outputs && x in Leaves(c, [n], d.outputs[n]);
      LeafBelow(c, [n], d.outputs[n], x);
      assert x.path[0] == n;
  }

  // ---------- keys ----------

  lemma KeyOfVariable(path: seq<string>)
    requires |path| == 2 && path[0] == "global"
    ensures Key(path) == "global." + path[1] && Key(path)[7..] == path[1]
    ensures Split(Key(path), '.') == ["global"] + Split(path[1], '.')
  {
    hide Key, Split;
    KeyOfTwo("global", path[1]);
    assert path == ["global", path[1]];
    assert "global" + "." + path[1] == "global." + path[1] == "global" + ['.'] + path[1];
    assert DotFree("global");
    SplitOfJoin("global", '.', path[1]);
  }

  /** The dotted segments of a key tell the path, except that a variable's name may have dots. */
  lemma KeySegments(source: Source, path: seq<string>)
    requires PathOf(source, path)
    ensures Split(Key(path), '.') == if source.Variables? then ["global"] + Split(path[1], '.') else path
  {
    hide Split, Key;
    if source.Variables? { KeyOfVariable(path); } else { SplitOfKey(path); }
  }

  /** Two leaves of one source with one key are the same. */
  lemma OneSourceOneKey(c: Codec, d: Data, source: Source, x: Leaf, y: Leaf)
    requires DotFreeNames(d) && LeafOf(c, d, source, x) && LeafOf(c, d, source, y) && Key(x.path) == Key(y.path)
    ensures x == y
  {
    hide Key, LeafOf, DotFreeNames, SourceText, Split;
    LeafShape(c, d, source, x);
    LeafShape(c, d, source, y);
    if source.Variables? {
      KeyOfVariable(x.path);
      KeyOfVariable(y.path);
      assert x.path == y.path;
    } else {
      KeySegments(source, x.path);
      KeySegments(source, y.path);
    }
    SourceMeans(c, d, source, x);
    SourceMeans(c, d, source, y);
  }

  /** A variable's key is the key of the path that its name spells below `global`. */
  lemma KeyOfSpelledPath(k: string)
    ensures DotFreePath(["global"] + Split(k, '.')) && Key(["global"] + Split(k, '.')) == "global." + k
  {
    hide Split, Key;
    var path := ["global"] + Split(k, '.');
    SplitPlain(k, '.');
    assert DotFree("global");
    assert DotFreePath(path);
    SplitOfKey(path);
    SplitOfJoin("global", '.', k);
    assert "global" + ['.'] + k == "global." + k;
    SplitInjective(Key(path), "global." + k, '.');
  }

  // ---------- exactly when keys collide ----------

  /** A variable whose name, split at its dots, is a leaf path of a node called `global`. */
  ghost predicate VariableClash(d: Data) {
    "global" in d.outputs && exists k :: k in d.globals && LeafAt(d.outputs["global"], Split(k, '.'))
  }

  /** A leaf path of a parameter that is also one of a node called `param`. */
  ghost predicate ParameterClash(d: Data) {
    "param" in d.outputs && exists k, keys :: k in d.params && LeafAt(d.params[k], keys) && LeafAt(d.outputs["param"], [k] + keys)
  }

  /** Two different leaves share a key. */
  ghost predicate Collision(c: Codec, d: Data) {
    exists q, x, r, y :: SharedKey(c, d, q, x, r, y)
  }

  ghost predicate SharedKey(c: Codec, d: Data, q: Source, x: Leaf, r: Source, y: Leaf) {
    LeafOf(c, d, q, x) && LeafOf(c, d, r, y) && Key(x.path) == Key(y.path) && (q != r || x != y)
  }

  lemma OutputMeets(c: Codec, d: Data, r: Source, x: Leaf, y: Leaf)
    requires DotFreeNames(d) && !r.Outputs? && LeafOf(c, d, r, x) && LeafOf(c, d, Outputs, y) && Key(x.path) == Key(y.path)
    ensures if r.Variables? then VariableClash(d) else ParameterClash(d)
  {
    hide Key, Split, DotFreeNames, GoodKeys, Leaves;
    LeafShape(c, d, r, x);
    LeafShape(c, d, Outputs, y);
    KeySegments(r, x.path);
    KeySegments(Outputs, y.path);
    SourceMeans(c, d, r, x);
    SourceMeans(c, d, Outputs, y);
    if r.Variables? {
      var k := x.path[1];
      assert y.path[0] == "global" && y.path[1..] == Split(k, '.');
    } else {
      var k, keys := x.path[1], x.path[2..];
      assert y.path == x.path && y.path[1..] == [k] + keys;
    }
  }

  lemma VariablesMeetNoParameter(c: Codec, d: Data, x: Leaf, y: Leaf)
    requires DotFreeNames(d) && LeafOf(c, d, Variables, x) && LeafOf(c, d, Parameters, y)
    ensures Key(x.path) != Key(y.path)
  {
    hide Key, Split, DotFreeNames, LeafOf;
    LeafShape(c, d, Variables, x);
    LeafShape(c, d, Parameters, y);
    KeySegments(Variables, x.path);
    KeySegments(Parameters, y.path);
    assert "global" != "param" by { assert |"global"| == 6; }
    assert Split(Key(x.path), '.')[0] == "global" && Split(Key(y.path), '.')[0] == "param";
  }

  lemma ClashCollides(c: Codec, d: Data)
    requires DotFreeNames(d) && (VariableClash(d) || ParameterClash(d))
    ensures Collision(c, d)
  {
    hide Key, Split, DotFreeNames, GoodKeys, Leaves, LeafAt, LeafOf;
    if VariableClash(d) {
      var k :| k in d.globals && LeafAt(d.outputs["global"], Split(k, '.'));
      var x := Leaf(["global", k], d.globals[k]);
      var path := ["global"] + Split(k, '.');
      var y := Leaf(path, LeafTextAt(c, d.outputs["global"], Split(k, '.')).value);
      assert path[1..] == Split(k, '.');
      KeyOfTwo("global", k);
      KeyOfSpelledPath(k);
      SourceMeans(c, d, Variables, x);
      SourceMeans(c, d, Outputs, y);
      assert "global" + "." + k == "global." + k;
      assert SharedKey(c, d, Variables, x, Outputs, y);
    } else {
      var k, keys :| k in d.params && LeafAt(d.params[k], keys) && LeafAt(d.outputs["param"], [k] + keys);
      var path := ["param", k] + keys;
      var x := Leaf(path, LeafTextAt(c, d.params[k], keys).value);
      var y := Leaf(path, LeafTextAt(c, d.outputs["param"], [k] + keys).value);
      assert path[2..] == keys && path[1..] == [k] + keys;
      SourceMeans(c, d, Parameters, x);
      SourceMeans(c, d, Outputs, y);
      assert SharedKey(c, d, Parameters, x, Outputs, y);
    }
  }

  /** With dot-free names, two leaves share a key exactly when a node called `global` has a leaf where a
      variable's name leads, or a node called `param` has one where a parameter has one. */
  lemma CollisionExact(c: Codec, d: Data)
    requires DotFreeNames(d)
    ensures Collision(c, d) <==> VariableClash(d) || ParameterClash(d)
  {
    hide Key, DotFreeNames, LeafOf, VariableClash, ParameterClash;
    if Collision(c, d) {
      var q, x, r, y :| SharedKey(c, d, q, x, r, y);
      if q == r {
        OneSourceOneKey(c, d, q, x, y);
      } else if q.Outputs? {
        OutputMeets(c, d, r, y, x);
      } else if r.Outputs? {
        OutputMeets(c, d, q, x, y);
      } else if q.Variables? {
        VariablesMeetNoParameter(c, d, x, y);
      } else {
        VariablesMeetNoParameter(c, d, y, x);
      }
    }
    if VariableClash(d) || ParameterClash(d) { ClashCollides(c, d); }
  }

  /** So with reserved names left to their owners no two leaves share a key. */
  lemma NoCollisions(c: Codec, d: Data, q: Source, x: Leaf, r: Source, y: Leaf)
    requires GoodData(d) && LeafOf(c, d, q, x) && LeafOf(c, d, r, y) && Key(x.path) == Key(y.path)
    ensures q == r && x == y
  {
    hide Key, LeafOf, DotFreeNames;
    CollisionExact(c, d);
    assert !VariableClash(d) && !ParameterClash(d);
    assert !SharedKey(c, d, q, x, r, y);
  }

  // ---------- the map, collisions included ----------

  /** The leaf of the last source that has a key gives the text. */
  lemma LastSourceWins(c: Codec, m: map<string, string>, d: Data, source: Source, x: Leaf)
    requires DotFreeNames(d) && Represents(c, m, d) && LeafOf(c, d, source, x) && Topmost(c, d, source, Key(x.path))
    ensures Key(x.path) in m && m[Key(x.path)] == x.text
  {
    hide Key, LeafOf, DotFreeNames;
    var key := Key(x.path);
    var q, y :| Provides(c, d, q, y, key, m[key]);
    assert !Overrides(q, source) && !Overrides(source, q);
    assert q == source;
    OneSourceOneKey(c, d, source, x, y);
  }

  /** A node always wins: its leaves are in the map whatever variables and parameters there are. */
  lemma NodeWins(c: Codec, m: map<string, string>, d: Data, x: Leaf)
    requires DotFreeNames(d) && Represents(c, m, d) && LeafOf(c, d, Outputs, x)
    ensures Key(x.path) in m && m[Key(x.path)] == x.text
  {
    hide Key, LeafOf, DotFreeNames, Represents;
    LastSourceWins(c, m, d, Outputs, x);
  }

  /** What a source has under a dotted name: a variable whose name may have dots, or what traversal
      finds along the segments. */
  function SourceUnder(c: Codec, d: Data, source: Source, key: string): Option<string> {
    if !source.Variables? then SourceText(c, d, source, Split(key, '.'))
    else if "global." <= key && key[7..] in d.globals then Some(d.globals[key[7..]])
    else None
  }

  /** The text under a dotted name: that of the last source that has one. */
  function TextUnder(c: Codec, d: Data, key: string): Option<string> {
    if SourceUnder(c, d, Outputs, key).Some? then SourceUnder(c, d, Outputs, key)
    else if SourceUnder(c, d, Parameters, key).Some? then SourceUnder(c, d, Parameters, key)
    else SourceUnder(c, d, Variables, key)
  }

  lemma LeafUnder(c: Codec, d: Data, source: Source, x: Leaf)
    requires DotFreeNames(d) && LeafOf(c, d, source, x)
    ensures SourceUnder(c, d, source, Key(x.path)) == Some(x.text)
  {
    hide Key, Split, DotFreeNames, LeafOf, SourceText;
    LeafShape(c, d, source, x);
    SourceMeans(c, d, source, x);
    KeySegments(source, x.path);
    if source.Variables? {
      KeyOfVariable(x.path);
      VariableText(c, d, x.path, x.text);
    }
  }

  lemma VariableText(c: Codec, d: Data, path: seq<string>, text: string)
    ensures SourceText(c, d, Variables, path) == Some(text) <==>
              |path| == 2 && path[0] == "global" && path[1] in d.globals && d.globals[path[1]] == text
  {
  }

  lemma UnderIsLeaf(c: Codec, d: Data, source: Source, key: string) returns (x: Leaf)
    requires DotFreeNames(d) && SourceUnder(c, d, source, key).Some?
    ensures LeafOf(c, d, source, x) && Key(x.path) == key && Some(x.text) == SourceUnder(c, d, source, key)
  {
    hide Key, Split, DotFreeNames, LeafOf, SourceText;
    var text := SourceUnder(c, d, source, key).value;
    if source.Variables? {
      x := Leaf(["global", key[7..]], text);
      VariableText(c, d, x.path, text);
      KeyOfVariable(x.path);
      assert key == "global." + key[7..];
    } else {
      x := Leaf(Split(key, '.'), text);
    }
    SourceMeans(c, d, source, x);
    if !source.Variables? {
      LeafShape(c, d, source, x);
      SplitOfKey(x.path);
      SplitInjective(Key(x.path), key, '.');
    }
  }

  /** Under every name, well-formed or not, reserved names included, the map has exactly what the sources have. */
  lemma LookupExact(c: Codec, m: map<string, string>, d: Data, key: string)
    requires DotFreeNames(d) && Represents(c, m, d)
    ensures (if key in m then Some(m[key]) else None) == TextUnder(c, d, key)
  {
    hide Key, LeafOf, DotFreeNames, SourceUnder;
    if TextUnder(c, d, key).Some? {
      var source := if SourceUnder(c, d, Outputs, key).Some? then Outputs
        else if SourceUnder(c, d, Parameters, key).Some? then Parameters else Variables;
      var x := UnderIsLeaf(c, d, source, key);
      forall q, y | Overrides(q, source) && LeafOf(c, d, q, y)
        ensures Key(y.path) != key
      {
        LeafUnder(c, d, q, y);
      }
      LastSourceWins(c, m, d, source, x);
    } else if key in m {
      var q, y :| Provides(c, d, q, y, key, m[key]);
      LeafUnder(c, d, q, y);
      assert false;
    }
  }

  /** A variable keeps its place exactly when no node called `global` has a leaf of its key. */
  lemma VariableVisible(c: Codec, m: map<string, string>, d: Data, k: string)
    requires DotFreeNames(d) && Represents(c, m, d) && k in d.globals
    ensures "global." + k in m
    ensures var hidden := "global" in d.outputs && LeafAt(d.outputs["global"], Split(k, '.'));
            m["global." + k] == if hidden then LeafTextAt(c, d.outputs["global"], Split(k, '.')).value else d.globals[k]
  {
    hide Split, DotFreeNames, LeafAt, Represents;
    LookupExact(c, m, d, "global." + k);
    SplitOfJoin("global", '.', k);
    var path := ["global"] + Split(k, '.');
    assert "global" + ['.'] + k == "global." + k && Split("global." + k, '.') == path;
    assert path[0] == "global" && path[1..] == Split(k, '.');
    assert "global" != "param" by { assert |"global"| == 6; }
    assert ("global." + k)[7..] == k;
  }

  /** A leaf of a parameter keeps its place exactly when no node called `param` has a leaf there. */
  lemma ParameterVisible(c: Codec, m: map<string, string>, d: Data, k: string, keys: seq<string>)
    requires DotFreeNames(d) && Represents(c, m, d) && k in d.params && LeafAt(d.params[k], keys)
    ensures var key, path := Key(["param", k] + keys), [k] + keys;
            var hidden := "param" in d.outputs && LeafAt(d.outputs["param"], path);
            key in m && m[key] == if hidden then LeafTextAt(c, d.outputs["param"], path).value else LeafTextAt(c, d.params[k], keys).value
  {
    hide Key, Split, DotFreeNames, GoodKeys, LeafAt, LeafOf, Represents;
    var path := ["param", k] + keys;
    var x := Leaf(path, LeafTextAt(c, d.params[k], keys).value);
    assert path[0] == "param" && path[1] == k && path[2..] == keys && path[1..] == [k] + keys;
    SourceMeans(c, d, Parameters, x);
    LeafShape(c, d, Parameters, x);
    KeySegments(Parameters, path);
    LookupExact(c, m, d, Key(path));
  }

  /** A value in the output of a node is found under its dotted name. */
  lemma NodeValueShows(c: Codec, m: map<string, string>, d: Data, n: string, keys: seq<string>, v: Json)
    requires DotFreeNames(d) && Represents(c, m, d)
    requires n in d.outputs && Traverse(d.outputs[n], keys) == Some(v) && !v.JObj?
    ensures var key := Key([n] + keys); key in m && Shows(c, v, m[key])
  {
    hide Key, DotFreeNames, GoodKeys, LeafOf, Represents, Traverse;
    var path := [n] + keys;
    var x := Leaf(path, LeafTextAt(c, d.outputs[n], keys).value);
    assert path[0] == n && path[1..] == keys;
    SourceMeans(c, d, Outputs, x);
    NodeWins(c, m, d, x);
  }

  /** The map does not depend on the order in which each of the sources is walked. */
  lemma ContextUnique(c: Codec, m1: map<string, string>, m2: map<string, string>, d: Data)
    requires DotFreeNames(d) && Represents(c, m1, d) && Represents(c, m2, d)
    ensures m1 == m2
  {
    hide Key, LeafOf, DotFreeNames;
    forall key | key in m1
      ensures key in m2 && m1[key] == m2[key]
    {
      var q, x :| Provides(c, d, q, x, key, m1[key]);
      LastSourceWins(c, m2, d, q, x);
    }
    forall key | key in m2
      ensures key in m1
    {
      var q, x :| Provides(c, d, q, x, key, m2[key]);
    }
  }

  // ---------- lookup ----------

  /** A path that can be asked for: a variable, or dot-free segments that do not start with `global`. */
  ghost predicate StoredPath(path: seq<string>) {
    (|path| == 2 && path[0] == "global") || (DotFreePath(path) && path[0] != "global")
  }

  lemma TextIsLeaf(c: Codec, d: Data, path: seq<string>) returns (source: Source)
    requires DotFreeNames(d) && TextAt(c, d, path).Some?
    ensures LeafOf(c, d, source, Leaf(path, TextAt(c, d, path).value))
  {
    hide LeafOf, DotFreeNames, SourceText;
    source := if SourceText(c, d, Outputs, path).Some? then Outputs
      else if SourceText(c, d, Parameters, path).Some? then Parameters else Variables;
    SourceMeans(c, d, source, Leaf(path, TextAt(c, d, path).value));
  }

  lemma LeafIsText(c: Codec, d: Data, source: Source, x: Leaf)
    requires GoodData(d) && LeafOf(c, d, source, x)
    ensures TextAt(c, d, x.path) == Some(x.text) && StoredPath(x.path)
  {
    hide LeafOf, DotFreeNames, LeafTextAt;
    SourceMeans(c, d, source, x);
    LeafShape(c, d, source, x);
    assert "global" != "param" by { assert |"global"| == 6; }
  }

  /** Different stored paths have different dotted names. */
  lemma KeyInjective(p: seq<string>, q: seq<string>)
    requires StoredPath(p) && StoredPath(q) && Key(p) == Key(q)
    ensures p == q
  {
    hide Split, Key;
    var s := if p[0] == "global" then Variables else Outputs;
    var t := if q[0] == "global" then Variables else Outputs;
    KeySegments(s, p);
    KeySegments(t, q);
    assert Split(Key(p), '.')[0] == p[0] && Split(Key(q), '.')[0] == q[0];
    if s.Variables? {
      KeyOfVariable(p);
      KeyOfVariable(q);
      assert p == ["global", p[1]] && q == ["global", q[1]];
    }
  }

  /** Looking up a dotted name in the flattened map is traversing the sources along it. */
  lemma LookupIsTraversal(c: Codec, m: map<string, string>, d: Data, path: seq<string>)
    requires GoodData(d) && Represents(c, m, d) && StoredPath(path)
    ensures (if Key(path) in m then Some(m[Key(path)]) else None) == TextAt(c, d, path)
  {
    hide Key, LeafOf, DotFreeNames, TextAt, StoredPath;
    if TextAt(c, d, path).Some? {
      var source := TextIsLeaf(c, d, path);
      var x := Leaf(path, TextAt(c, d, path).value);
      var q, y :| Provides(c, d, q, y, Key(path), m[Key(path)]);
      NoCollisions(c, d, source, x, q, y);
    } else if Key(path) in m {
      var q, y :| Provides(c, d, q, y, Key(path), m[Key(path)]);
      LeafIsText(c, d, q, y);
      KeyInjective(path, y.path);
      assert false;
    }
  }

  /** So a reference to a name renders to what the sources have under it, and stays as it is without. */
  lemma RenderName(c: Codec, m: map<string, string>, d: Data, key: string)
    requires DotFreeNames(d) && Represents(c, m, d)
    requires key != [] && Tight(key) && !Contains(key, '}')
    ensures var t := "{{" + key + "}}";
            Template.Render(t, m) == if TextUnder(c, d, key).Some? then TextUnder(c, d, key).value else t
  {
    hide DotFreeNames, Represents, TextUnder, Template.Render;
    LookupExact(c, m, d, key);
    Template.RenderReference([], key, [], m);
    assert [] + key + [] == key;
  }

  /** The keys of the map are exactly those of the leaf paths. */
  lemma KeysAreLeafPaths(c: Codec, m: map<string, string>, d: Data, key: string)
    requires GoodData(d) && Represents(c, m, d)
    ensures key in m <==> exists path :: StoredPath(path) && TextAt(c, d, path).Some? && Key(path) == key
  {
    hide Key, LeafOf, DotFreeNames, TextAt, StoredPath;
    if key in m {
      var q, y :| Provides(c, d, q, y, key, m[key]);
      LeafIsText(c, d, q, y);
    }
    forall path | StoredPath(path) && TextAt(c, d, path).Some? && Key(path) == key
      ensures key in m
    {
      LookupIsTraversal(c, m, d, path);
    }
  }

  // ---------- series of merges ----------

  function MergedAll(num: Numbers, existing: Option<Json>, added: seq<Json>, strategy: MergeStrategy): Option<Json>
    decreases |added|
  {
    if added == [] then existing
    else MergedAll(num, Some(Merged(num, existing, added[0], strategy)), added[1..], strategy)
  }

  function AllItems(added: seq<Json>): seq<Json> {
    if added == [] then [] else Items(added[0]) + AllItems(added[1..])
  }

  function ItemsBefore(existing: Option<Json>): seq<Json> {
    if existing.Some? then Items(existing.value) else []
  }

  /** Appending outputs one after the other collects all their items in order, after what was there. */
  lemma {:induction false} AppendsCollect(num: Numbers, existing: Option<Json>, added: seq<Json>)
    requires added != []
    ensures MergedAll(num, existing, added, Append) == Some(JArr(ItemsBefore(existing) + AllItems(added)))
    decreases |added|
  {
    hide Items;
    var first := Merged(num, existing, added[0], Append);
    AppendOne(num, existing, added[0]);
    if |added| == 1 {
      assert added[1..] == [] && AllItems([]) == [] && MergedAll(num, Some(first), [], Append) == Some(first);
      Associate([], Items(added[0]), []);
    } else {
      AppendsCollect(num, Some(first), added[1..]);
      Associate(ItemsBefore(existing), Items(added[0]), AllItems(added[1..]));
    }
  }

  lemma AppendOne(num: Numbers, existing: Option<Json>, added: Json)
    ensures Merged(num, existing, added, Append) == JArr(ItemsBefore(existing) + Items(added))
    ensures ItemsBefore(Some(Merged(num, existing, added, Append))) == ItemsBefore(existing) + Items(added)
  {
  }

  lemma Associate(a: seq<Json>, b: seq<Json>, c: seq<Json>)
    ensures (a + b) + c == a + (b + c) && b + [] == b
  {
  }

  /** `a` is at least as large as `b` for `Max`, at most as large for `Min`. */
  predicate Beats(strategy: MergeStrategy, a: real, b: real) {
    if strategy.Max? then a >= b else a <= b
  }

  /** Under `Max` and `Min` a first output that is no number stays for good; otherwise the outcome is
      one of the outputs, and beats every number among them. */
  lemma {:induction false} ExtremeStays(num: Numbers, existing: Json, added: seq<Json>, strategy: MergeStrategy) returns (r: Json)
    requires strategy.Max? || strategy.Min?
    ensures MergedAll(num, Some(existing), added, strategy) == Some(r)
    ensures num(existing).None? ==> r == existing
    ensures num(existing).Some? ==>
              && r in [existing] + added && num(r).Some? && Beats(strategy, num(r).value, num(existing).value)
              && forall k :: 0 <= k < |added| && num(added[k]).Some? ==> Beats(strategy, num(r).value, num(added[k]).value)
    decreases |added|
  {
    if added == [] {
      r := existing;
    } else {
      var first := Merged(num, Some(existing), added[0], strategy);
      r := ExtremeStays(num, first, added[1..], strategy);
      assert forall k :: 1 <= k < |added| ==> added[k] == added[1..][k - 1];
      if num(existing).Some? {
        assert r == first || r in added[1..];
      }
    }
  }
}
