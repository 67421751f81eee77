/** The leaves of a JSON value: the paths that lead to them, their dotted names, and the
    flattening that inserts them into a map of texts. */
module JsonLeaves {
  import opened Text
  import opened JsonValues

  // ---------- leaves of a JSON value ----------

  /** How a value that is no object appears in a template. */
  function LeafText(c: Codec, v: Json): string {
    match v
    case JStr(s) => s
    case JBool(b) => if b then "true" else "false"
    case JNull => "null"
    case JInt(n) => Signed(n)
    case JReal(text) => text
    case _ => c.encode(v)
  }

  /** How values read in a template: booleans as words, texts as they are, null as a word, integers in
      decimal, arrays as JSON. */
  ghost predicate Shows(c: Codec, v: Json, text: string) {
    match v
    case JBool(b) => text == if b then "true" else "false"
    case JStr(s) => text == s
    case JNull => text == "null"
    case JInt(n) => text == Signed(n)
    case JReal(t) => text == t
    case JArr(_) => text == c.encode(v)
    case JObj(_) => false
  }

  function Traverse(v: Json, keys: seq<string>): Option<Json>
    decreases |keys|
  {
    if keys == [] then Some(v)
    else
      var field := Get(v, keys[0]);
      if field.None? then None else Traverse(field.value, keys[1..])
  }

  predicate LeafAt(v: Json, keys: seq<string>) {
    var leaf := Traverse(v, keys);
    leaf.Some? && !leaf.value.JObj?
  }

  /** The keys lead to a leaf with the given text, and none of them has a dot. */
  ghost predicate IsLeafText(c: Codec, v: Json, keys: seq<string>, text: string) {
    && LeafAt(v, keys) && Shows(c, Traverse(v, keys).value, text)
    && forall i :: 0 <= i < |keys| ==> DotFree(keys[i])
  }

  datatype Leaf = Leaf(path: seq<string>, text: string)

  /** All leaves below a value, in field order; an empty object has none. */
  function Leaves(c: Codec, path: seq<string>, v: Json): seq<Leaf>
    decreases v, 0
  {
    if v.JObj? then FieldLeaves(c, path, v.fields) else [Leaf(path, LeafText(c, v))]
  }

  function FieldLeaves(c: Codec, path: seq<string>, fields: seq<Field>): seq<Leaf>
    decreases fields, 1
  {
    if fields == [] then []
    else Leaves(c, path + [fields[0].name], fields[0].value) + FieldLeaves(c, path, fields[1..])
  }

  predicate DotFree(s: string) { !Contains(s, '.') }

  /** Objects have distinct, dot-free keys, at every level. */
  predicate GoodKeys(v: Json)
    decreases v, 0
  {
    v.JObj? ==> GoodFields(v.fields)
  }

  predicate GoodFields(fields: seq<Field>)
    decreases fields, 1
  {
    fields != [] ==>
      && DotFree(fields[0].name) && GoodKeys(fields[0].value)
      && (forall i :: 1 <= i < |fields| ==> fields[i].name != fields[0].name)
      && GoodFields(fields[1..])
  }

  // ---------- flattening ----------

  function Under(prefix: string, key: string): string {
    if prefix == [] then key else prefix + "." + key
  }

  function Flatten(c: Codec, m: map<string, string>, prefix: string, v: Json): map<string, string>
    decreases v, 0
  {
    if v.JObj? then FlattenFields(c, m, prefix, v.fields) else m[prefix := LeafText(c, v)]
  }

  function FlattenFields(c: Codec, m: map<string, string>, prefix: string, fields: seq<Field>): map<string, string>
    decreases fields, 1
  {
    if fields == [] then m
    else FlattenFields(c, Flatten(c, m, Under(prefix, fields[0].name), fields[0].value), prefix, fields[1..])
  }

  /** `flatten_json_value`: inserts into the map that is handed in. */
  method FlattenJsonValue(c: Codec, m: map<string, string>, prefix: string, v: Json) returns (r: map<string, string>)
    ensures r == Flatten(c, m, prefix, v)
    decreases v
  {
    r := m;
    if v.JObj? {
      var k := 0;
      while k < |v.fields|
        invariant 0 <= k <= |v.fields|
        invariant FlattenFields(c, r, prefix, v.fields[k..]) == FlattenFields(c, m, prefix, v.fields)
      {
        assert v.fields[k..][1..] == v.fields[k + 1..];
        r := FlattenJsonValue(c, r, Under(prefix, v.fields[k].name), v.fields[k].value);
        k := k + 1;
      }
    } else {
      r := r[prefix := LeafText(c, v)];
    }
  }

  /** The name under which a path is stored. */
  function Key(path: seq<string>): string
    decreases |path|
  {
    if path == [] then [] else Under(Key(path[..|path| - 1]), path[|path| - 1])
  }

  lemma KeySnoc(path: seq<string>, key: string)
    ensures Key(path + [key]) == Under(Key(path), key)
  {
    assert (path + [key])[..|path|] == path;
  }

  function InsertAll(m: map<string, string>, leaves: seq<Leaf>): map<string, string>
    decreases |leaves|
  {
    if leaves == [] then m else InsertAll(m[Key(leaves[0].path) := leaves[0].text], leaves[1..])
  }

  lemma {:induction false} InsertAllConcat(m: map<string, string>, a: seq<Leaf>, b: seq<Leaf>)
    ensures InsertAll(m, a + b) == InsertAll(InsertAll(m, a), b)
    decreases |a|
  {
    if a == [] {
      assert a + b == b;
    } else {
      assert (a + b)[1..] == a[1..] + b;
      InsertAllConcat(m[Key(a[0].path) := a[0].text], a[1..], b);
    }
  }

  /** Flattening under a path inserts the leaves below it, each under its own key. */
  lemma {:induction false} FlattenInserts(c: Codec, m: map<string, string>, path: seq<string>, v: Json)
    ensures Flatten(c, m, Key(path), v) == InsertAll(m, Leaves(c, path, v))
    decreases v, 0
  {
    if v.JObj? {
      FlattenFieldsInserts(c, m, path, v.fields);
    } else {
      assert [Leaf(path, LeafText(c, v))][1..] == [];
    }
  }

  lemma {:induction false} FlattenFieldsInserts(c: Codec, m: map<string, string>, path: seq<string>, fields: seq<Field>)
    ensures FlattenFields(c, m, Key(path), fields) == InsertAll(m, FieldLeaves(c, path, fields))
    decreases fields, 1
  {
    if fields != [] {
      var sub := path + [fields[0].name];
      var head := Leaves(c, sub, fields[0].value);
      KeySnoc(path, fields[0].name);
      FlattenInserts(c, m, sub, fields[0].value);
      FlattenFieldsInserts(c, InsertAll(m, head), path, fields[1..]);
      InsertAllConcat(m, head, FieldLeaves(c, path, fields[1..]));
    }
  }

  // ---------- leaves are what traversal finds ----------

  lemma {:induction false} LeafIsTraversal(c: Codec, path: seq<string>, v: Json, x: Leaf)
    requires GoodKeys(v)
    ensures x in Leaves(c, path, v) ==>
      exists keys :: x.path == path + keys && IsLeafText(c, v, keys, x.text)
    decreases v, 0
  {
    if x in Leaves(c, path, v) {
      if v.JObj? {
        var keys := FieldLeafIsTraversal(c, path, v.fields, x);
        assert x.path == path + keys && IsLeafText(c, v, keys, x.text);
      } else {
        assert x.path == path + [] && IsLeafText(c, v, [], x.text);
      }
    }
  }

  lemma {:induction false} FieldLeafIsTraversal(c: Codec, path: seq<string>, fields: seq<Field>, x: Leaf)
      returns (keys: seq<string>)
    requires GoodFields(fields) && x in FieldLeaves(c, path, fields)
    ensures x.path == path + keys && IsLeafText(c, JObj(fields), keys, x.text)
    decreases fields, 1
  {
    var k, w := fields[0].name, fields[0].value;
    if x in Leaves(c, path + [k], w) {
      LeafIsTraversal(c, path + [k], w, x);
      var rest :| x.path == path + [k] + rest && IsLeafText(c, w, rest, x.text);
      keys := [k] + rest;
      assert keys[1..] == rest && path + keys == path + [k] + rest;
    } else {
      keys := FieldLeafIsTraversal(c, path, fields[1..], x);
      LookupBehind(fields, keys[0]);
    }
  }

  lemma {:induction false} LookupMember(fields: seq<Field>, key: string)
    ensures Lookup(fields, key).Some? ==> exists i :: 0 <= i < |fields| && fields[i] == Field(key, Lookup(fields, key).value)
  {
    if fields != [] && fields[0].name != key {
      LookupMember(fields[1..], key);
      if Lookup(fields[1..], key).Some? {
        var i :| 0 <= i < |fields[1..]| && fields[1..][i] == Field(key, Lookup(fields, key).value);
        assert fields[i + 1] == Field(key, Lookup(fields, key).value);
      }
    } else if fields != [] {
      assert fields[0] == Field(key, Lookup(fields, key).value);
    }
  }

  /** With distinct keys, what is found behind the first field is found in all of them. */
  lemma LookupBehind(fields: seq<Field>, key: string)
    requires fields != [] && GoodFields(fields) && Lookup(fields[1..], key).Some?
    ensures Lookup(fields, key) == Lookup(fields[1..], key)
  {
    LookupMember(fields[1..], key);
    var i :| 0 <= i < |fields[1..]| && fields[1..][i] == Field(key, Lookup(fields[1..], key).value);
    assert fields[i + 1].name == key;
  }

  lemma {:induction false} TraversalIsLeaf(c: Codec, path: seq<string>, v: Json, keys: seq<string>)
    requires GoodKeys(v) && LeafAt(v, keys)
    ensures Leaf(path + keys, LeafText(c, Traverse(v, keys).value)) in Leaves(c, path, v)
    decreases v, 0
  {
    if keys == [] {
      assert path + keys == path;
    } else {
      FieldTraversalIsLeaf(c, path, v.fields, keys);
    }
  }

  lemma {:induction false} FieldTraversalIsLeaf(c: Codec, path: seq<string>, fields: seq<Field>, keys: seq<string>)
    requires GoodFields(fields) && keys != [] && LeafAt(JObj(fields), keys)
    ensures Leaf(path + keys, LeafText(c, Traverse(JObj(fields), keys).value)) in FieldLeaves(c, path, fields)
    decreases fields, 1
  {
    var k, w := fields[0].name, fields[0].value;
    if k == keys[0] {
      TraversalIsLeaf(c, path + [k], w, keys[1..]);
      assert path + [k] + keys[1..] == path + keys;
    } else {
      FieldTraversalIsLeaf(c, path, fields[1..], keys);
    }
  }

  /** The leaves of a value are exactly what traversal reaches. */
  lemma LeavesExact(c: Codec, path: seq<string>, v: Json, keys: seq<string>, text: string)
    requires GoodKeys(v)
    ensures Leaf(path + keys, text) in Leaves(c, path, v) <==> IsLeafText(c, v, keys, text)
  {
    var x := Leaf(path + keys, text);
    LeafIsTraversal(c, path, v, x);
    if x in Leaves(c, path, v) {
      var ks :| path + keys == path + ks && IsLeafText(c, v, ks, text);
      assert keys == (path + keys)[|path|..] == (path + ks)[|path|..] == ks;
    }
    if IsLeafText(c, v, keys, text) { TraversalIsLeaf(c, path, v, keys); }
  }

  lemma KeyOfOne(a: string)
    ensures Key([a]) == a
  {
    KeySnoc([], a);
    assert [] + [a] == [a];
  }

  lemma KeyOfTwo(a: string, b: string)
    requires a != []
    ensures Key([a, b]) == a + "." + b
  {
    KeyOfOne(a);
    KeySnoc([a], b);
    assert [a] + [b] == [a, b];
  }

  // ---------- dotted names ----------

  predicate DotFreePath(path: seq<string>) {
    path != [] && path[0] != [] && forall i :: 0 <= i < |path| ==> DotFree(path[i])
  }

  lemma {:induction false} SplitSnoc(s: string, c: char, k: string)
    requires !Contains(k, c)
    ensures Split(s + [c] + k, c) == Split(s, c) + [k]
  {
    if s == [] {
      assert s + [c] + k == [c] + k && ([c] + k)[1..] == k;
      SplitOfPlain(k, c);
      assert [[]] + [k] == [[], k];
    } else {
      assert (s + [c] + k)[1..] == s[1..] + [c] + k;
      SplitSnoc(s[1..], c, k);
      var rest := Split(s[1..], c);
      if s[0] == c {
        assert [[]] + (rest + [k]) == ([[]] + rest) + [k];
      } else {
        assert (rest + [k])[0] == rest[0] && (rest + [k])[1..] == rest[1..] + [k];
        assert [[s[0]] + rest[0]] + (rest[1..] + [k]) == ([[s[0]] + rest[0]] + rest[1..]) + [k];
      }
    }
  }

  /** Splitting a key at its dots gives the path back. */
  lemma {:induction false} SplitOfKey(path: seq<string>)
    requires DotFreePath(path)
    ensures Key(path) != [] && Split(Key(path), '.') == path
    decreases |path|
  {
    hide Split;
    var init, k := path[..|path| - 1], path[|path| - 1];
    if |path| == 1 {
      KeyOfOne(k);
      SplitOfPlain(k, '.');
      assert [k] == path;
    } else {
      SplitOfKey(init);
      SplitSnoc(Key(init), '.', k);
      assert init + [k] == path;
    }
  }

  // ---------- the text at a path ----------

  function LeafTextAt(c: Codec, v: Json, keys: seq<string>): Option<string> {
    if LeafAt(v, keys) then Some(LeafText(c, Traverse(v, keys).value)) else None
  }

  lemma LeafOfText(c: Codec, path: seq<string>, v: Json, keys: seq<string>, text: string)
    requires GoodKeys(v)
    ensures Leaf(path + keys, text) in Leaves(c, path, v) <==> LeafTextAt(c, v, keys) == Some(text)
  {
    hide GoodKeys, Traverse, Leaves, LeafAt;
    LeavesExact(c, path, v, keys, text);
    if LeafTextAt(c, v, keys) == Some(text) { TraversalIsLeaf(c, path, v, keys); }
  }

  lemma LeafBelow(c: Codec, path: seq<string>, v: Json, x: Leaf)
    requires GoodKeys(v) && x in Leaves(c, path, v)
    ensures path <= x.path && LeafTextAt(c, v, x.path[|path|..]) == Some(x.text)
    ensures forall i :: |path| <= i < |x.path| ==> DotFree(x.path[i])
  {
    hide GoodKeys, Traverse, Leaves, LeafAt;
    LeafIsTraversal(c, path, v, x);
    var keys :| x.path == path + keys && IsLeafText(c, v, keys, x.text);
    assert x.path[|path|..] == keys;
    forall i | |path| <= i < |x.path|
      ensures DotFree(x.path[i])
    {
      assert x.path[i] == keys[i - |path|];
    }
  }
}
