/** Replacing the messages of a conversation by a client payload, without losing what
    agents wrote in the meantime.

    JSON text is handled through a `Codec`; the laws need only that decoding inverts encoding. */
module LegacyMessages {
  import opened Text
  import opened JsonValues

  // ---------- rows ----------

  datatype Message = Message(
    id: int,
    sequence: int,
    role: string,
    parts: string,
    metadata: Option<string>,
    createdAt: int,
    updatedAt: int)

  /** A row before it is numbered. */
  datatype Draft = Draft(id: int, role: string, parts: string, metadata: Option<string>, createdAt: int)

  function ToDraft(m: Message): Draft {
    Draft(m.id, m.role, m.parts, m.metadata, m.createdAt)
  }

  function ToDrafts(ms: seq<Message>): (r: seq<Draft>)
    ensures |r| == |ms| && forall i :: 0 <= i < |r| ==> r[i] == ToDraft(ms[i])
  {
    seq(|ms|, i requires 0 <= i < |ms| => ToDraft(ms[i]))
  }

  /** The inserted rows: numbered from 0, both timestamps set to the draft's. */
  function Numbered(ds: seq<Draft>): (r: seq<Message>)
    ensures |r| == |ds|
    ensures forall i :: 0 <= i < |r| ==> r[i].sequence == i && ToDraft(r[i]) == ds[i] && r[i].updatedAt == ds[i].createdAt
  {
    seq(|ds|, i requires 0 <= i < |ds| =>
      Message(ds[i].id, i, ds[i].role, ds[i].parts, ds[i].metadata, ds[i].createdAt, ds[i].createdAt))
  }

  // ---------- text of a message ----------

  function TextItems(items: seq<Json>): seq<string> {
    if items == [] then []
    else
      var text := GetStr(items[0], "text");
      (if GetStr(items[0], "type") == Some("text") && text.Some? then [text.value] else []) + TextItems(items[1..])
  }

  function JoinLines(lines: seq<string>): string {
    if lines == [] then [] else if |lines| == 1 then lines[0] else lines[0] + "\n" + JoinLines(lines[1..])
  }

  /** `parts_text`: the text items of a JSON array, one per line; nothing for any other text. */
  function PartsText(c: Codec, parts: string): string {
    var j := c.decode(parts);
    if j.Some? && j.value.JArr? then JoinLines(TextItems(j.value.items)) else []
  }

  function SourceIsAgent(c: Codec, metadata: Option<string>): bool {
    metadata.Some? && c.decode(metadata.value).Some? && GetStr(c.decode(metadata.value).value, "source") == Some("agent")
  }

  // ---------- the payload ----------

  /** An id is a 64-bit integer or a string that parses as one. */
  function ExplicitId(item: Json): Option<int> {
    match Get(item, "id")
    case Some(JInt(n)) => if IsI64(n) then Some(n) else None
    case Some(JStr(s)) => ParseI64(s)
    case _ => None
  }

  function DraftOf(c: Codec, item: Json, updatedAt: int, freshId: int): Draft {
    var id := ExplicitId(item);
    var role := GetStr(item, "role");
    var parts := Get(item, "parts");
    var metadata := Get(item, "metadata");
    Draft(
      if id.Some? then id.value else freshId,
      if role.Some? then role.value else "user",
      c.encode(if parts.Some? then parts.value else item),
      if metadata.Some? && !metadata.value.JNull? then Some(c.encode(metadata.value)) else None,
      updatedAt)
  }

  /** `newId(k)` is what the id generator yields for item `k`. */
  function Drafts(c: Codec, items: seq<Json>, updatedAt: int, newId: nat -> int): (r: seq<Draft>)
    ensures |r| == |items| && forall k :: 0 <= k < |r| ==> r[k] == DraftOf(c, items[k], updatedAt, newId(k))
  {
    seq(|items|, k requires 0 <= k < |items| => DraftOf(c, items[k], updatedAt, newId(k)))
  }

  predicate HasId(ds: seq<Draft>, id: int) {
    exists k :: 0 <= k < |ds| && ds[k].id == id
  }

  /** Some payload row has the same role and the same non-empty text, up to padding. */
  predicate SameText(c: Codec, ds: seq<Draft>, role: string, text: string) {
    exists k :: 0 <= k < |ds| && PartsText(c, ds[k].parts) != [] && ds[k].role == role && Trim(PartsText(c, ds[k].parts)) == Trim(text)
  }

  /** An agent's row that the payload does not supersede, by id or by text. */
  predicate Keeps(c: Codec, ds: seq<Draft>, m: Draft) {
    && !HasId(ds, m.id)
    && SourceIsAgent(c, m.metadata)
    && (PartsText(c, m.parts) == [] || !SameText(c, ds, m.role, PartsText(c, m.parts)))
  }

  function Preserved(c: Codec, ds: seq<Draft>, existing: seq<Draft>): seq<Draft> {
    if existing == [] then []
    else (if Keeps(c, ds, existing[0]) then [existing[0]] else []) + Preserved(c, ds, existing[1..])
  }

  /** Preserved rows go before a final assistant row, else to the end. */
  function SplitPoint(ds: seq<Draft>): (p: nat)
    ensures p <= |ds|
  {
    if ds != [] && ds[|ds| - 1].role == "assistant" then |ds| - 1 else |ds|
  }

  function Merge(c: Codec, ds: seq<Draft>, existing: seq<Draft>): seq<Draft> {
    ds[..SplitPoint(ds)] + Preserved(c, ds, existing) + ds[SplitPoint(ds)..]
  }

  predicate DistinctIds(ds: seq<Draft>) {
    forall i, j :: 0 <= i < j < |ds| ==> ds[i].id != ds[j].id
  }

  // ---------- the table ----------

  /** `message_id` is the primary key of the whole table. */
  predicate UniqueKeys(rows: map<int, seq<Message>>) {
    forall c, d, i, j :: c in rows && d in rows && 0 <= i < |rows[c]| && 0 <= j < |rows[d]| && rows[c][i].id == rows[d][j].id
      ==> c == d && i == j
  }

  /** Every list is in the order of its sequence numbers, which are different. */
  predicate InOrder(rows: map<int, seq<Message>>) {
    forall c :: c in rows ==> Ascending(rows[c])
  }

  predicate Ascending(ms: seq<Message>) {
    forall i, j :: 0 <= i < j < |ms| ==> ms[i].sequence < ms[j].sequence
  }

  function IdsOutside(rows: map<int, seq<Message>>, conversation: int): set<int> {
    set c, k | c in rows && c != conversation && 0 <= k < |rows[c]| :: rows[c][k].id
  }

  lemma ReplacedKeysUnique(rows: map<int, seq<Message>>, conversation: int, ms: seq<Message>)
    requires UniqueKeys(rows) && DistinctIds(ToDrafts(ms))
    requires forall k :: 0 <= k < |ms| ==> ms[k].id !in IdsOutside(rows, conversation)
    ensures UniqueKeys(rows[conversation := ms])
  {
    forall d: int, j: int | d in rows && d != conversation && 0 <= j < |rows[d]|
      ensures rows[d][j].id in IdsOutside(rows, conversation)
    {
    }
    forall i: int, j: int | 0 <= i < j < |ms|
      ensures ms[i].id != ms[j].id
    {
      assert ToDrafts(ms)[i].id == ms[i].id && ToDrafts(ms)[j].id == ms[j].id;
    }
  }

  /** The row that is appended; metadata `null` is no metadata. */
  function NewRow(c: Codec, ms: seq<Message>, id: int, role: string, parts: Json, metadata: Json, now: int): Message {
    var printed := if metadata.JNull? then None else Some(c.encode(metadata));
    Message(id, NextSequence(ms), role, c.encode(parts), printed, now, now)
  }

  /** Messages per conversation, as a query ordered by sequence number lists them. */
  class MessageTable {
    var rows: map<int, seq<Message>>

    predicate Valid()
      reads this
    {
      UniqueKeys(rows) && InOrder(rows)
    }

    function IdsElsewhere(conversation: int): set<int>
      reads this
    {
      IdsOutside(rows, conversation)
    }

    function List(conversation: int): seq<Message>
      reads this
    {
      if conversation in rows then rows[conversation] else []
    }

    constructor ()
      ensures Valid() && rows == map[]
    {
      rows := map[];
    }

    /** `append`: the next sequence number after the largest one. */
    method Append(c: Codec, conversation: int, role: string, parts: Json, metadata: Json, id: int, now: int)
        returns (ok: bool)
      requires Valid()
      modifies this
      ensures Valid()
      ensures ok <==> conversation in old(rows) && id !in old(IdsElsewhere(conversation)) && !HasId(ToDrafts(old(List(conversation))), id)
      ensures !ok ==> rows == old(rows)
      ensures ok ==> var n := |old(List(conversation))|;
                conversation in rows && |rows[conversation]| == n + 1 && rows[conversation][n].id == id && rows[conversation][n].role == role
                && rows[conversation][n].parts == c.encode(parts) && rows[conversation][n].createdAt == now
      ensures ok ==> rows == old(rows)[conversation :=
                old(List(conversation)) + [NewRow(c, old(List(conversation)), id, role, parts, metadata, now)]]
    {
      var existing := List(conversation);
      var next := NextSequence(existing);
      if conversation !in rows || id in IdsElsewhere(conversation) || HasId(ToDrafts(existing), id) {
        return false;
      }
      var printed := if metadata.JNull? then None else Some(c.encode(metadata));
      var message := Message(id, next, role, c.encode(parts), printed, now, now);
      AppendDistinct(rows, conversation, message);
      ReplacedKeysUnique(rows, conversation, existing + [message]);
      rows := rows[conversation := existing + [message]];
      return true;
    }

    /** `replace_legacy`. The transaction deletes the old rows, inserts the merged ones, and is
        rolled back when the payload is no array, an id is taken or the conversation is missing. */
    method ReplaceLegacy(c: Codec, conversation: int, payload: Option<Json>, updatedAt: int, newId: nat -> int)
        returns (ok: bool)
      requires Valid()
      modifies this
      ensures Valid()
      ensures ok ==> payload.Some? && payload.value.JArr?
      ensures payload.Some? && payload.value.JArr? ==>
                var merged := Merge(c, Drafts(c, payload.value.items, updatedAt, newId), ToDrafts(old(List(conversation))));
                && (ok <==> Insertable(merged, conversation in old(rows), old(IdsElsewhere(conversation))))
                && (ok && conversation in old(rows) ==> rows == old(rows)[conversation := Numbered(merged)])
                && (ok && conversation !in old(rows) ==> rows == old(rows))
      ensures !ok ==> rows == old(rows)
    {
      hide Preserved, DraftOf, Insertable;
      if payload.None? || !payload.value.JArr? {
        return false;
      }
      var merged := BuildDrafts(c, payload.value.items, updatedAt, newId);
      var preserved := Preserved(c, merged, ToDrafts(List(conversation)));
      var at := SplitPoint(merged);
      merged := merged[..at] + preserved + merged[at..];
      var inserted := InsertRows(merged, conversation in rows, IdsElsewhere(conversation));
      if inserted.None? {
        return false;
      }
      if conversation in rows {
        NumberedKeys(merged, IdsElsewhere(conversation));
        ReplacedKeysUnique(rows, conversation, inserted.value);
        rows := rows[conversation := inserted.value];
      }
      return true;
    }
  }

  lemma AppendDistinct(rows: map<int, seq<Message>>, conversation: int, m: Message)
    requires UniqueKeys(rows) && conversation in rows
    requires m.id !in IdsOutside(rows, conversation) && !HasId(ToDrafts(rows[conversation]), m.id)
    ensures DistinctIds(ToDrafts(rows[conversation] + [m]))
    ensures forall k :: 0 <= k < |rows[conversation] + [m]| ==> (rows[conversation] + [m])[k].id !in IdsOutside(rows, conversation)
  {
    var ms := rows[conversation];
    forall i | 0 <= i < |ms|
      ensures ms[i].id != m.id && ms[i].id !in IdsOutside(rows, conversation)
    {
      assert ToDrafts(ms)[i].id == ms[i].id;
    }
  }

  lemma NumberedKeys(ds: seq<Draft>, taken: set<int>)
    requires Insertable(ds, true, taken)
    ensures DistinctIds(ToDrafts(Numbered(ds)))
    ensures forall k :: 0 <= k < |ds| ==> Numbered(ds)[k].id !in taken
  {
    assert ToDrafts(Numbered(ds)) == ds;
    assert forall k :: 0 <= k < |ds| ==> ToDraft(Numbered(ds)[k]) == ds[k];
  }

  /** Every insert meets the primary key and the foreign key. */
  predicate Insertable(ds: seq<Draft>, conversationExists: bool, taken: set<int>) {
    && DistinctIds(ds) && (ds != [] ==> conversationExists)
    && forall k :: 0 <= k < |ds| ==> ds[k].id !in taken
  }

  method BuildDrafts(c: Codec, items: seq<Json>, updatedAt: int, newId: nat -> int) returns (merged: seq<Draft>)
    ensures merged == Drafts(c, items, updatedAt, newId)
  {
    hide DraftOf;
    merged := [];
    for k := 0 to |items|
      invariant |merged| == k
      invariant forall j :: 0 <= j < k ==> merged[j] == DraftOf(c, items[j], updatedAt, newId(j))
    {
      merged := merged + [DraftOf(c, items[k], updatedAt, newId(k))];
    }
  }

  method InsertRows(ds: seq<Draft>, conversationExists: bool, taken: set<int>) returns (inserted: Option<seq<Message>>)
    ensures inserted == if Insertable(ds, conversationExists, taken) then Some(Numbered(ds)) else None
  {
    var rows: seq<Message> := [];
    for k := 0 to |ds|
      invariant rows == Numbered(ds[..k])
      invariant DistinctIds(ds[..k])
      invariant forall j :: 0 <= j < k ==> ds[j].id !in taken
      invariant k > 0 ==> conversationExists
    {
      if !conversationExists || ds[k].id in taken {
        return None;
      }
      if HasId(ds[..k], ds[k].id) {
        ghost var j :| 0 <= j < k && ds[..k][j].id == ds[k].id;
        assert ds[j].id == ds[k].id;
        return None;
      }
      NumberedSnoc(ds, k);
      rows := rows + [Message(ds[k].id, k, ds[k].role, ds[k].parts, ds[k].metadata, ds[k].createdAt, ds[k].createdAt)];
    }
    assert ds[..|ds|] == ds;
    return Some(rows);
  }

  function NextSequence(ms: seq<Message>): (n: int)
    ensures forall i :: 0 <= i < |ms| ==> ms[i].sequence < n
    ensures ms == [] ==> n == 0
  {
    if ms == [] then 0
    else
      var n := NextSequence(ms[..|ms| - 1]);
      var last := ms[|ms| - 1].sequence + 1;
      if |ms| == 1 || last > n then last else n
  }

  lemma NumberedSnoc(ds: seq<Draft>, k: nat)
    requires k < |ds| && DistinctIds(ds[..k]) && !HasId(ds[..k], ds[k].id)
    ensures DistinctIds(ds[..k + 1])
    ensures Numbered(ds[..k + 1]) == Numbered(ds[..k]) +
              [Message(ds[k].id, k, ds[k].role, ds[k].parts, ds[k].metadata, ds[k].createdAt, ds[k].createdAt)]
  {
    assert ds[..k + 1] == ds[..k] + [ds[k]];
    assert forall j :: 0 <= j < k ==> ds[..k][j].id != ds[k].id;
  }

  // ---------- what a replacement keeps ----------

  /** The rows whose id is (or is not) one of the payload's, in order. */
  function WithPayloadId(ds: seq<Draft>, rows: seq<Draft>, inside: bool): seq<Draft> {
    if rows == [] then []
    else (if HasId(ds, rows[0].id) == inside then [rows[0]] else []) + WithPayloadId(ds, rows[1..], inside)
  }

  lemma {:induction false} WithPayloadConcat(ds: seq<Draft>, a: seq<Draft>, b: seq<Draft>, inside: bool)
    ensures WithPayloadId(ds, a + b, inside) == WithPayloadId(ds, a, inside) + WithPayloadId(ds, b, inside)
  {
    if a == [] {
      assert a + b == b;
    } else {
      hide HasId, WithPayloadId;
      WithPayloadConcat(ds, a[1..], b, inside);
      WithPayloadHead(ds, a, inside);
      WithPayloadHead(ds, a + b, inside);
      assert (a + b)[0] == a[0] && (a + b)[1..] == a[1..] + b;
      Associate(if HasId(ds, a[0].id) == inside then [a[0]] else [], WithPayloadId(ds, a[1..], inside), WithPayloadId(ds, b, inside));
    }
  }

  lemma WithPayloadHead(ds: seq<Draft>, rows: seq<Draft>, inside: bool)
    requires rows != []
    ensures WithPayloadId(ds, rows, inside)
              == (if HasId(ds, rows[0].id) == inside then [rows[0]] else []) + WithPayloadId(ds, rows[1..], inside)
  {
  }

  lemma Associate(a: seq<Draft>, b: seq<Draft>, c: seq<Draft>)
    ensures (a + b) + c == a + (b + c)
  {
  }

  lemma {:induction false} WithPayloadAll(ds: seq<Draft>, rows: seq<Draft>, inside: bool)
    requires forall i :: 0 <= i < |rows| ==> (HasId(ds, rows[i].id) <==> inside)
    ensures WithPayloadId(ds, rows, inside) == rows && WithPayloadId(ds, rows, !inside) == []
  {
    if rows != [] {
      assert HasId(ds, rows[0].id) <==> inside;
      assert forall i :: 0 <= i < |rows[1..]| ==> rows[1..][i] == rows[i + 1];
      WithPayloadAll(ds, rows[1..], inside);
    }
  }

  lemma {:induction false} PreservedLaws(c: Codec, ds: seq<Draft>, existing: seq<Draft>)
    ensures forall m :: m in Preserved(c, ds, existing) <==> m in existing && Keeps(c, ds, m)
    ensures Preserved(c, ds, Preserved(c, ds, existing)) == Preserved(c, ds, existing)
  {
    if existing != [] {
      PreservedLaws(c, ds, existing[1..]);
      assert existing == [existing[0]] + existing[1..];
      var rest := Preserved(c, ds, existing[1..]);
      var head := if Keeps(c, ds, existing[0]) then [existing[0]] else [];
      PreservedConcat(c, ds, head, rest);
      assert Preserved(c, ds, head) == head;
    }
  }

  lemma {:induction false} PreservedConcat(c: Codec, ds: seq<Draft>, a: seq<Draft>, b: seq<Draft>)
    ensures Preserved(c, ds, a + b) == Preserved(c, ds, a) + Preserved(c, ds, b)
  {
    if a == [] {
      assert a + b == b;
    } else {
      assert (a + b)[1..] == a[1..] + b;
      PreservedConcat(c, ds, a[1..], b);
    }
  }

  lemma {:induction false} PreservedNone(c: Codec, ds: seq<Draft>, rows: seq<Draft>)
    requires forall i :: 0 <= i < |rows| ==> HasId(ds, rows[i].id)
    ensures Preserved(c, ds, rows) == []
  {
    if rows != [] {
      assert HasId(ds, rows[0].id);
      assert forall i :: 0 <= i < |rows[1..]| ==> rows[1..][i] == rows[i + 1];
      PreservedNone(c, ds, rows[1..]);
    }
  }

  lemma KeptOutside(c: Codec, ds: seq<Draft>, existing: seq<Draft>)
    ensures forall i :: 0 <= i < |Preserved(c, ds, existing)| ==> !HasId(ds, Preserved(c, ds, existing)[i].id)
  {
    PreservedLaws(c, ds, existing);
    var kept := Preserved(c, ds, existing);
    forall i | 0 <= i < |kept|
      ensures !HasId(ds, kept[i].id)
    {
      assert kept[i] in kept && Keeps(c, ds, kept[i]);
    }
  }

  // ---------- which rows stay, read off the rows ----------

  /** The field by that name, the first if there are several. */
  ghost predicate HasField(fields: seq<Field>, name: string, v: Json) {
    exists k :: 0 <= k < |fields| && fields[k] == Field(name, v) && forall i :: 0 <= i < k ==> fields[i].name != name
  }

  lemma {:induction false} FieldIsLookup(fields: seq<Field>, name: string, v: Json)
    ensures HasField(fields, name, v) <==> Lookup(fields, name) == Some(v)
  {
    if fields != [] {
      var rest := fields[1..];
      FieldIsLookup(rest, name, v);
      if fields[0].name != name && HasField(rest, name, v) {
        var k :| 0 <= k < |rest| && rest[k] == Field(name, v) && forall i :: 0 <= i < k ==> rest[i].name != name;
        assert fields[k + 1] == Field(name, v) && forall i :: 1 <= i < k + 1 ==> fields[i] == rest[i - 1];
      }
      if fields[0].name != name && HasField(fields, name, v) {
        var k :| 0 <= k < |fields| && fields[k] == Field(name, v) && forall i :: 0 <= i < k ==> fields[i].name != name;
        assert k > 0 && rest[k - 1] == Field(name, v) && forall i :: 0 <= i < k - 1 ==> rest[i] == fields[i + 1];
      }
    }
  }

  /** Metadata that decodes to an object whose source is the text `agent`. */
  ghost predicate FromAgent(c: Codec, m: Draft) {
    m.metadata.Some? && exists fields :: c.decode(m.metadata.value) == Some(JObj(fields)) && HasField(fields, "source", JStr("agent"))
  }

  lemma FromAgentIsSource(c: Codec, m: Draft)
    ensures FromAgent(c, m) <==> SourceIsAgent(c, m.metadata)
  {
    hide HasField, Lookup;
    forall fields: seq<Field>
      ensures HasField(fields, "source", JStr("agent")) <==> Lookup(fields, "source") == Some(JStr("agent"))
    {
      FieldIsLookup(fields, "source", JStr("agent"));
    }
    if m.metadata.Some? && c.decode(m.metadata.value).Some? && c.decode(m.metadata.value).value.JObj? {
      var fields := c.decode(m.metadata.value).value.fields;
      assert c.decode(m.metadata.value) == Some(JObj(fields));
    }
  }

  /** An item of a message that is a text. */
  ghost predicate TextItem(item: Json, text: string) {
    item.JObj? && HasField(item.fields, "type", JStr("text")) && HasField(item.fields, "text", JStr(text))
  }

  /** The texts of the text items, in order. */
  ghost predicate TextsOf(items: seq<Json>, texts: seq<string>) {
    if items == [] then texts == []
    else if exists t :: TextItem(items[0], t) then texts != [] && TextItem(items[0], texts[0]) && TextsOf(items[1..], texts[1..])
    else TextsOf(items[1..], texts)
  }

  /** One text per line. */
  ghost predicate OnLines(texts: seq<string>, text: string) {
    if texts == [] then text == []
    else if |texts| == 1 then text == texts[0]
    else exists rest :: OnLines(texts[1..], rest) && text == texts[0] + "\n" + rest
  }

  /** What the parts of a row say: the texts of a JSON array, one per line, and nothing if they are no array. */
  ghost predicate Says(c: Codec, m: Draft, text: string) {
    if exists items :: c.decode(m.parts) == Some(JArr(items))
    then exists items, texts :: c.decode(m.parts) == Some(JArr(items)) && TextsOf(items, texts) && OnLines(texts, text)
    else text == []
  }

  lemma TextItemIsGet(item: Json, t: string)
    ensures TextItem(item, t) <==> GetStr(item, "type") == Some("text") && GetStr(item, "text") == Some(t)
  {
    hide HasField, Lookup;
    if item.JObj? {
      FieldIsLookup(item.fields, "type", JStr("text"));
      FieldIsLookup(item.fields, "text", JStr(t));
    }
  }

  lemma {:induction false} TextsOfIsItems(items: seq<Json>, texts: seq<string>)
    ensures TextsOf(items, texts) <==> texts == TextItems(items)
  {
    hide TextItem, GetStr;
    if items != [] {
      forall t
        ensures TextItem(items[0], t) <==> GetStr(items[0], "type") == Some("text") && GetStr(items[0], "text") == Some(t)
      {
        TextItemIsGet(items[0], t);
      }
      TextsOfIsItems(items[1..], texts);
      if texts != [] {
        TextsOfIsItems(items[1..], texts[1..]);
        assert texts == [texts[0]] + texts[1..];
      }
    }
  }

  lemma {:induction false} OnLinesIsJoin(texts: seq<string>, text: string)
    ensures OnLines(texts, text) <==> text == JoinLines(texts)
  {
    if |texts| > 1 {
      forall rest
        ensures OnLines(texts[1..], rest) <==> rest == JoinLines(texts[1..])
      {
        OnLinesIsJoin(texts[1..], rest);
      }
    }
  }

  lemma SaysIsText(c: Codec, m: Draft, text: string)
    ensures Says(c, m, text) <==> text == PartsText(c, m.parts)
  {
    hide TextsOf, OnLines, TextItems, JoinLines;
    var j := c.decode(m.parts);
    if j.Some? && j.value.JArr? {
      var items := j.value.items;
      assert j == Some(JArr(items));
      forall texts
        ensures TextsOf(items, texts) <==> texts == TextItems(items)
        ensures OnLines(texts, text) <==> text == JoinLines(texts)
      {
        TextsOfIsItems(items, texts);
        OnLinesIsJoin(texts, text);
      }
    }
  }

  /** A payload row of the same role says the same, up to padding. */
  ghost predicate SaidBy(c: Codec, ds: seq<Draft>, m: Draft) {
    exists k, x, y :: 0 <= k < |ds| && ds[k].role == m.role && Says(c, m, x) && Says(c, ds[k], y) && x != [] && y != [] && Trim(x) == Trim(y)
  }

  /** What a payload item becomes: its id if it has one that is a 64-bit integer or a text of one, its role
      or `user`, its parts or itself, and its metadata unless that is null. */
  lemma DraftExact(c: Codec, item: Json, updatedAt: int, freshId: int)
    ensures DraftOf(c, item, updatedAt, freshId).createdAt == updatedAt
    ensures !item.JObj? ==> DraftOf(c, item, updatedAt, freshId) == Draft(freshId, "user", c.encode(item), None, updatedAt)
    ensures item.JObj? ==>
              var r, f := DraftOf(c, item, updatedAt, freshId), item.fields;
              && (forall n :: HasField(f, "id", JInt(n)) && IsI64(n) ==> r.id == n)
              && (forall s, n :: HasField(f, "id", JStr(s)) && ParseI64(s) == Some(n) ==> r.id == n)
              && (r.id == freshId || (HasField(f, "id", JInt(r.id)) && IsI64(r.id))
                  || exists s :: HasField(f, "id", JStr(s)) && ParseI64(s) == Some(r.id))
              && (forall s :: HasField(f, "role", JStr(s)) ==> r.role == s)
              && ((forall s :: !HasField(f, "role", JStr(s))) ==> r.role == "user")
              && (forall v :: HasField(f, "parts", v) ==> r.parts == c.encode(v))
              && ((forall v :: !HasField(f, "parts", v)) ==> r.parts == c.encode(item))
              && (forall v :: HasField(f, "metadata", v) && v != JNull ==> r.metadata == Some(c.encode(v)))
              && ((forall v :: HasField(f, "metadata", v) ==> v == JNull) ==> r.metadata == None)
  {
    hide HasField, Lookup, ParseI64;
    if item.JObj? {
      forall name, v
        ensures HasField(item.fields, name, v) <==> Lookup(item.fields, name) == Some(v)
      {
        FieldIsLookup(item.fields, name, v);
      }
      var r := DraftOf(c, item, updatedAt, freshId);
      var id := Lookup(item.fields, "id");
      if r.id != freshId && id.Some? && id.value.JStr? { assert HasField(item.fields, "id", JStr(id.value.s)); }
    }
  }

  lemma SaidIsSame(c: Codec, ds: seq<Draft>, m: Draft)
    ensures SaidBy(c, ds, m) <==> PartsText(c, m.parts) != [] && SameText(c, ds, m.role, PartsText(c, m.parts))
  {
    hide PartsText, Says, Trim;
    forall d, x
      ensures Says(c, d, x) <==> x == PartsText(c, d.parts)
    {
      SaysIsText(c, d, x);
    }
    if PartsText(c, m.parts) != [] && SameText(c, ds, m.role, PartsText(c, m.parts)) {
      var k :| 0 <= k < |ds| && PartsText(c, ds[k].parts) != [] && ds[k].role == m.role
        && Trim(PartsText(c, ds[k].parts)) == Trim(PartsText(c, m.parts));
      assert Says(c, m, PartsText(c, m.parts)) && Says(c, ds[k], PartsText(c, ds[k].parts));
    }
  }

  lemma KeepsExact(c: Codec, ds: seq<Draft>, m: Draft)
    ensures Keeps(c, ds, m) <==> FromAgent(c, m) && !SaidBy(c, ds, m) && forall k :: 0 <= k < |ds| ==> ds[k].id != m.id
  {
    hide SourceIsAgent, PartsText, FromAgent, SaidBy, SameText;
    FromAgentIsSource(c, m);
    SaidIsSame(c, ds, m);
  }

  /** `kept` are the rows at these positions, in order. */
  predicate Picks(rows: seq<Draft>, at: seq<nat>, kept: seq<Draft>) {
    && |at| == |kept|
    && (forall k :: 0 <= k < |at| ==> at[k] < |rows| && rows[at[k]] == kept[k])
    && forall i, j :: 0 <= i < j < |at| ==> at[i] < at[j]
  }

  lemma {:induction false} PreservedInOrder(c: Codec, ds: seq<Draft>, existing: seq<Draft>) returns (at: seq<nat>)
    ensures Picks(existing, at, Preserved(c, ds, existing))
  {
    hide Keeps, Picks, Preserved;
    if existing == [] {
      at := [];
      assert Preserved(c, ds, existing) == [] && Picks(existing, at, []) by { PreservedEmpty(c, ds); PicksEmpty(); }
    } else {
      var rest := PreservedInOrder(c, ds, existing[1..]);
      var shifted := seq(|rest|, k requires 0 <= k < |rest| => rest[k] + 1);
      PicksShifted(existing, rest, shifted, Preserved(c, ds, existing[1..]));
      PreservedHead(c, ds, existing);
      at := if Keeps(c, ds, existing[0]) then [0] + shifted else shifted;
      assert [] + Preserved(c, ds, existing[1..]) == Preserved(c, ds, existing[1..]);
    }
  }

  lemma PreservedEmpty(c: Codec, ds: seq<Draft>)
    ensures Preserved(c, ds, []) == []
  {
  }

  lemma PicksEmpty()
    ensures Picks([], [], [])
  {
  }

  lemma PreservedHead(c: Codec, ds: seq<Draft>, existing: seq<Draft>)
    requires existing != []
    ensures Preserved(c, ds, existing) == (if Keeps(c, ds, existing[0]) then [existing[0]] else []) + Preserved(c, ds, existing[1..])
  {
    hide Keeps;
  }

  lemma PicksShifted(rows: seq<Draft>, at: seq<nat>, shifted: seq<nat>, kept: seq<Draft>)
    requires rows != [] && Picks(rows[1..], at, kept)
    requires |shifted| == |at| && forall k :: 0 <= k < |at| ==> shifted[k] == at[k] + 1
    ensures Picks(rows, shifted, kept) && Picks(rows, [0] + shifted, [rows[0]] + kept)
  {
  }

  /** The payload rows appear in order, each as it was drafted; the other rows are exactly the old rows
      that an agent wrote, whose id the payload does not carry and which no payload row of their role says as
      well, in old order, in one block before a final assistant row or at the end. */
  lemma MergeContents(c: Codec, ds: seq<Draft>, existing: seq<Draft>)
    ensures var r, kept, p := Merge(c, ds, existing), Preserved(c, ds, existing), SplitPoint(ds);
            && WithPayloadId(ds, r, true) == ds
            && WithPayloadId(ds, r, false) == kept
            && (forall m :: m in kept <==>
                 m in existing && FromAgent(c, m) && !SaidBy(c, ds, m) && forall k :: 0 <= k < |ds| ==> ds[k].id != m.id)
            && (exists at :: Picks(existing, at, kept))
            && r[p..p + |kept|] == kept
            && p == (if ds != [] && ds[|ds| - 1].role == "assistant" then |ds| - 1 else |ds|)
  {
    hide Preserved, Keeps, FromAgent, SaidBy, WithPayloadId, Merge, Picks;
    var at := PreservedInOrder(c, ds, existing);
    assert exists at :: Picks(existing, at, Preserved(c, ds, existing));
    PreservedLaws(c, ds, existing);
    forall m
      ensures Keeps(c, ds, m) <==> FromAgent(c, m) && !SaidBy(c, ds, m) && forall k :: 0 <= k < |ds| ==> ds[k].id != m.id
    {
      KeepsExact(c, ds, m);
    }
    MergeParts(c, ds, existing);
  }

  lemma MergeParts(c: Codec, ds: seq<Draft>, existing: seq<Draft>)
    ensures var r, kept, p := Merge(c, ds, existing), Preserved(c, ds, existing), SplitPoint(ds);
            && WithPayloadId(ds, r, true) == ds && WithPayloadId(ds, r, false) == kept
            && |r| == |ds| + |kept| && r[p..p + |kept|] == kept
  {
    hide Preserved, Keeps;
    var kept, p := Preserved(c, ds, existing), SplitPoint(ds);
    KeptOutside(c, ds, existing);
    forall i | 0 <= i < |ds|
      ensures HasId(ds, ds[i].id)
    {
    }
    WithPayloadAll(ds, ds[..p], true);
    WithPayloadAll(ds, kept, false);
    WithPayloadAll(ds, ds[p..], true);
    forall inside: bool
      ensures WithPayloadId(ds, ds[..p] + kept + ds[p..], inside)
                == WithPayloadId(ds, ds[..p], inside) + WithPayloadId(ds, kept, inside) + WithPayloadId(ds, ds[p..], inside)
    {
      WithPayloadConcat(ds, ds[..p] + kept, ds[p..], inside);
      WithPayloadConcat(ds, ds[..p], kept, inside);
    }
    assert ds[..p] + ds[p..] == ds;
  }

  /** An old row whose id the payload does not carry is in the result exactly when an agent wrote it and no
      payload row of its role says the same; one whose id is carried, only as a payload row. */
  lemma MergeKeeps(c: Codec, ds: seq<Draft>, existing: seq<Draft>, m: Draft)
    requires m in existing
    ensures (forall k :: 0 <= k < |ds| ==> ds[k].id != m.id) ==>
              (m in Merge(c, ds, existing) <==> FromAgent(c, m) && !SaidBy(c, ds, m))
    ensures (exists k :: 0 <= k < |ds| && ds[k].id == m.id) ==> (m in Merge(c, ds, existing) <==> m in ds)
  {
    hide Keeps, FromAgent, SaidBy, Preserved;
    var kept, p := Preserved(c, ds, existing), SplitPoint(ds);
    PreservedLaws(c, ds, existing);
    KeepsExact(c, ds, m);
    assert ds == ds[..p] + ds[p..];
    assert m in Merge(c, ds, existing) <==> m in ds || m in kept;
    assert m in ds ==> exists k :: 0 <= k < |ds| && ds[k].id == m.id;
  }

  /** Merging into the outcome of a merge changes nothing. */
  lemma MergeTwice(c: Codec, ds: seq<Draft>, existing: seq<Draft>)
    ensures Merge(c, ds, Merge(c, ds, existing)) == Merge(c, ds, existing)
  {
    hide Keeps, Preserved;
    var kept, p := Preserved(c, ds, existing), SplitPoint(ds);
    PreservedConcat(c, ds, ds[..p] + kept, ds[p..]);
    PreservedConcat(c, ds, ds[..p], kept);
    PreservedNone(c, ds, ds[..p]);
    PreservedNone(c, ds, ds[p..]);
    PreservedLaws(c, ds, existing);
    assert [] + kept + [] == kept;
  }

  /** With explicit ids, applying the same payload a second time leaves every row as it is. */
  lemma ReplaceTwice(c: Codec, items: seq<Json>, updatedAt: int, newId: nat -> int, again: nat -> int, existing: seq<Message>)
    requires forall k :: 0 <= k < |items| ==> ExplicitId(items[k]).Some?
    ensures var once := Numbered(Merge(c, Drafts(c, items, updatedAt, newId), ToDrafts(existing)));
            Numbered(Merge(c, Drafts(c, items, updatedAt, again), ToDrafts(once))) == once
  {
    hide Merge;
    var ds := Drafts(c, items, updatedAt, newId);
    assert Drafts(c, items, updatedAt, again) == ds;
    MergeTwice(c, ds, ToDrafts(existing));
    var merged := Merge(c, ds, ToDrafts(existing));
    assert ToDrafts(Numbered(merged)) == merged;
  }

  // ---------- writing back what was read ----------

  /** The JSON value that `serialize_legacy` prints for one row. */
  function Serialized(c: Codec, m: Message): Json {
    var parts := c.decode(m.parts);
    var metadata := if m.metadata.Some? then c.decode(m.metadata.value) else None;
    JObj([
      Field("id", JInt(m.id)),
      Field("role", JStr(m.role)),
      Field("parts", if parts.Some? then parts.value else JStr(m.parts)),
      Field("metadata", if metadata.Some? then metadata.value else JNull),
      Field("createdAt", JInt(m.createdAt))])
  }

  function SerializeLegacy(c: Codec, ms: seq<Message>): (r: seq<Json>)
    ensures |r| == |ms| && forall k :: 0 <= k < |r| ==> r[k] == Serialized(c, ms[k])
  {
    seq(|ms|, k requires 0 <= k < |ms| => Serialized(c, ms[k]))
  }

  /** The printed row has the fields of the stored one; parts that are no JSON are printed as a text, and
      metadata that is absent or no JSON as null. */
  lemma SerializedExact(c: Codec, m: Message)
    ensures var s := Serialized(c, m);
            && s.JObj? && |s.fields| == 5
            && HasField(s.fields, "id", JInt(m.id)) && HasField(s.fields, "role", JStr(m.role))
            && HasField(s.fields, "createdAt", JInt(m.createdAt))
            && (forall v :: c.decode(m.parts) == Some(v) ==> HasField(s.fields, "parts", v))
            && (c.decode(m.parts) == None ==> HasField(s.fields, "parts", JStr(m.parts)))
            && (forall raw, v :: m.metadata == Some(raw) && c.decode(raw) == Some(v) ==> HasField(s.fields, "metadata", v))
            && (m.metadata.None? || c.decode(m.metadata.value) == None ==> HasField(s.fields, "metadata", JNull))
  {
    var f := Serialized(c, m).fields;
    assert f[0].name == "id" && f[1].name == "role" && f[2].name == "parts" && f[3].name == "metadata" && f[4].name == "createdAt";
    assert |"id"| == 2 && |"role"| == 4 && |"parts"| == 5 && |"metadata"| == 8 && |"createdAt"| == 9;
  }

  /** Parts and metadata are valid JSON text, and the id is a 64-bit integer. */
  predicate ValidJson(c: Codec, m: Message) {
    IsI64(m.id) && c.decode(m.parts).Some? && (m.metadata.Some? ==> c.decode(m.metadata.value).Some?)
  }

  /** The row with its JSON printed anew; metadata `null` becomes no metadata. */
  function Reprinted(c: Codec, m: Message): Message
    requires ValidJson(c, m)
  {
    var metadata := if m.metadata.Some? then c.decode(m.metadata.value).value else JNull;
    m.(parts := c.encode(c.decode(m.parts).value), metadata := if metadata.JNull? then None else Some(c.encode(metadata)))
  }

  /** Parts and metadata are JSON text as the program prints it, and metadata is not `null`. */
  ghost predicate Canonical(c: Codec, m: Message) {
    && IsI64(m.id)
    && (exists j :: c.encode(j) == m.parts)
    && (m.metadata.Some? ==> exists j :: c.encode(j) == m.metadata.value && !j.JNull?)
  }

  lemma CanonicalReprints(c: Codec, m: Message)
    requires Lawful(c) && Canonical(c, m)
    ensures ValidJson(c, m) && Reprinted(c, m) == m
  {
    var j :| c.encode(j) == m.parts;
    assert c.decode(c.encode(j)) == Some(j);
    if m.metadata.Some? {
      var k :| c.encode(k) == m.metadata.value && !k.JNull?;
      assert c.decode(c.encode(k)) == Some(k);
    }
  }

  lemma LookupSerialized(c: Codec, m: Message)
    ensures var s := Serialized(c, m);
            && Get(s, "id") == Some(JInt(m.id)) && GetStr(s, "role") == Some(m.role)
            && Get(s, "parts") == Some(s.fields[2].value) && Get(s, "metadata") == Some(s.fields[3].value)
  {
    var f := Serialized(c, m).fields;
    assert f[1..][0].name == "role" && f[2..][0].name == "parts" && f[3..][0].name == "metadata";
    assert f[1..][1..] == f[2..] && f[2..][1..] == f[3..];
    assert "role" != "id" && "parts" != "id" && "parts" != "role";
    assert "metadata" != "id" && "metadata" != "role" && "metadata" != "parts" by { assert |"metadata"| == 8; }
    assert Lookup(f, "role") == Lookup(f[1..], "role");
    assert Lookup(f, "parts") == Lookup(f[1..], "parts") == Lookup(f[2..], "parts");
    assert Lookup(f, "metadata") == Lookup(f[1..], "metadata") == Lookup(f[2..], "metadata") == Lookup(f[3..], "metadata");
  }

  lemma DraftOfSerialized(c: Codec, m: Message, updatedAt: int, freshId: int)
    requires ValidJson(c, m)
    ensures DraftOf(c, Serialized(c, m), updatedAt, freshId) == ToDraft(Reprinted(c, m)).(createdAt := updatedAt)
  {
    hide Lookup, Get;
    LookupSerialized(c, m);
  }

  /** Replacing a conversation by what `serialize_legacy` returns keeps every row but its
      timestamps and the way its JSON is printed. */
  lemma SerializeThenReplace(c: Codec, ms: seq<Message>, updatedAt: int, newId: nat -> int)
    requires forall k :: 0 <= k < |ms| ==> ValidJson(c, ms[k]) && ms[k].sequence == k
    ensures Numbered(Merge(c, Drafts(c, SerializeLegacy(c, ms), updatedAt, newId), ToDrafts(ms)))
              == seq(|ms|, k requires 0 <= k < |ms| => Reprinted(c, ms[k]).(createdAt := updatedAt, updatedAt := updatedAt))
  {
    hide Serialized, DraftOf, Preserved, ValidJson;
    var ds := Drafts(c, SerializeLegacy(c, ms), updatedAt, newId);
    forall k | 0 <= k < |ms|
      ensures ds[k] == ToDraft(Reprinted(c, ms[k])).(createdAt := updatedAt) && HasId(ds, ms[k].id)
    {
      DraftOfSerialized(c, ms[k], updatedAt, newId(k));
      assert ds[k].id == ms[k].id;
    }
    PreservedNone(c, ds, ToDrafts(ms));
    assert ds[..SplitPoint(ds)] + [] + ds[SplitPoint(ds)..] == ds;
  }

  // ---------- what the table looks like in every run ----------

  /** Rows are numbered from 0 without gaps and hold JSON as the program prints it. */
  ghost predicate Tidy(c: Codec, ms: seq<Message>) {
    forall k :: 0 <= k < |ms| ==> ms[k].sequence == k && Canonical(c, ms[k])
  }

  lemma {:induction false} NextOfTidy(ms: seq<Message>)
    requires forall k :: 0 <= k < |ms| ==> ms[k].sequence == k
    ensures NextSequence(ms) == |ms|
  {
    if ms != [] { NextOfTidy(ms[..|ms| - 1]); }
  }

  lemma AppendKeepsTidy(c: Codec, ms: seq<Message>, id: int, role: string, parts: Json, metadata: Json, now: int)
    requires Tidy(c, ms) && IsI64(id)
    ensures Tidy(c, ms + [NewRow(c, ms, id, role, parts, metadata, now)])
  {
    NextOfTidy(ms);
  }

  lemma ReplaceKeepsTidy(c: Codec, ms: seq<Message>, items: seq<Json>, updatedAt: int, newId: nat -> int)
    requires Tidy(c, ms) && forall k: nat :: IsI64(newId(k))
    ensures Tidy(c, Numbered(Merge(c, Drafts(c, items, updatedAt, newId), ToDrafts(ms))))
  {
    hide Keeps, Preserved, DraftOf;
    var ds := Drafts(c, items, updatedAt, newId);
    var kept, p := Preserved(c, ds, ToDrafts(ms)), SplitPoint(ds);
    var merged := Merge(c, ds, ToDrafts(ms));
    PreservedLaws(c, ds, ToDrafts(ms));
    forall k | 0 <= k < |merged|
      ensures Canonical(c, Numbered(merged)[k])
    {
      assert ToDraft(Numbered(merged)[k]) == merged[k];
      if p <= k < p + |kept| {
        assert merged[k] == kept[k - p] && merged[k] in ToDrafts(ms);
        var i :| 0 <= i < |ms| && ToDraft(ms[i]) == merged[k];
        assert Canonical(c, ms[i]);
      } else {
        var i := if k < p then k else k - |kept|;
        assert merged[k] == ds[i];
        DraftCanonical(c, items[i], updatedAt, newId(i), Numbered(merged)[k]);
      }
    }
  }

  lemma DraftCanonical(c: Codec, item: Json, updatedAt: int, freshId: int, m: Message)
    requires IsI64(freshId) && ToDraft(m) == DraftOf(c, item, updatedAt, freshId)
    ensures Canonical(c, m)
  {
    hide Get, GetStr;
    var parts := Get(item, "parts");
    assert c.encode(if parts.Some? then parts.value else item) == m.parts;
  }

  /** In a tidy table, replacing a conversation by its own serialisation changes only the timestamps. */
  lemma SerializeThenReplaceTidy(c: Codec, ms: seq<Message>, updatedAt: int, newId: nat -> int)
    requires Lawful(c) && Tidy(c, ms)
    ensures Numbered(Merge(c, Drafts(c, SerializeLegacy(c, ms), updatedAt, newId), ToDrafts(ms)))
              == seq(|ms|, k requires 0 <= k < |ms| => ms[k].(createdAt := updatedAt, updatedAt := updatedAt))
  {
    hide Canonical, ValidJson, Reprinted, Merge, Drafts, SerializeLegacy;
    forall k | 0 <= k < |ms|
      ensures ValidJson(c, ms[k]) && Reprinted(c, ms[k]) == ms[k]
    {
      CanonicalReprints(c, ms[k]);
    }
    SerializeThenReplace(c, ms, updatedAt, newId);
  }
}
