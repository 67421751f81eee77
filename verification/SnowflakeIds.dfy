/** Snowflake ids: their bit layout, their display format, and result-file names built from them. */
module SnowflakeIds {
  import opened Text
  import opened TaskFiles

  datatype IdType =
    | Message | Conversation | Chat | Lock | Snapshot | Permission | Session
    | Agent | Workspace | Project | Dag | Task | Checkpoint

  function Prefix(t: IdType): string {
    match t
    case Message => "msg"
    case Conversation => "conv"
    case Chat => "chat"
    case Lock => "lock"
    case Snapshot => "snap"
    case Permission => "perm"
    case Session => "sess"
    case Agent => "agent"
    case Workspace => "ws"
    case Project => "proj"
    case Dag => "dag"
    case Task => "task"
    case Checkpoint => "ckpt"
  }

  function FromPrefix(p: string): Option<IdType> {
    if p == "msg" then Some(Message)
    else if p == "conv" then Some(Conversation)
    else if p == "chat" then Some(Chat)
    else if p == "lock" then Some(Lock)
    else if p == "snap" then Some(Snapshot)
    else if p == "perm" then Some(Permission)
    else if p == "sess" then Some(Session)
    else if p == "agent" then Some(Agent)
    else if p == "ws" then Some(Workspace)
    else if p == "proj" then Some(Project)
    else if p == "dag" then Some(Dag)
    else if p == "task" then Some(Task)
    else if p == "ckpt" then Some(Checkpoint)
    else None
  }

  // ---------- layout: 41 bits of time, 10 of instance, 12 of sequence ----------

  const I64_LIMIT := 0x8000_0000_0000_0000
  const MAX_TIMESTAMP := 0x1FF_FFFF_FFFF
  const MAX_INSTANCE := 0x3FF
  const MAX_SEQUENCE := 0xFFF

  newtype Id = x: int | -0x8000_0000_0000_0000 <= x < 0x8000_0000_0000_0000

  function Timestamp(id: nat): nat { id / 0x40_0000 }

  function Instance(id: nat): nat { id / 0x1000 % 0x400 }

  function Sequence(id: nat): nat { id % 0x1000 }

  /** A left shift of an unsigned 64-bit number loses the bits that leave the word. */
  function Shl(n: nat, bits: nat): nat {
    n * Power2(bits) % U64_LIMIT
  }

  function Power2(bits: nat): nat {
    if bits == 0 then 1 else 2 * Power2(bits - 1)
  }

  function CheckedAdd(a: nat, b: nat): Option<nat> {
    if a + b < U64_LIMIT then Some(a + b) else None
  }

  // ---------- format and parse ----------

  /** `format`: a negative id gets a fallback that names no id. */
  function Format(id: Id, t: IdType): string {
    if id >= 0 then
      var n := id as nat;
      Prefix(t) + "_" + (Digits(Timestamp(n)) + "_" + (Padded(Instance(n), 3) + "_" + Padded(Sequence(n), 4)))
    else Prefix(t) + "_invalid_0_0"
  }

  datatype Fields = Fields(idType: IdType, timestamp: nat, instance: nat, sequence: nat)

  function Parse(formatted: string): Option<Fields> {
    var parts := Split(formatted, '_');
    if |parts| != 4 then None
    else
      var t := FromPrefix(parts[0]);
      var ts, inst, sq := ParseU64(parts[1]), ParseU64(parts[2]), ParseU64(parts[3]);
      if t.Some? && ts.Some? && inst.Some? && sq.Some? then Some(Fields(t.value, ts.value, inst.value, sq.value)) else None
  }

  /** The range checks, then the word arithmetic with its own checks. */
  function Reassemble(f: Fields): Option<Id> {
    if f.timestamp > MAX_TIMESTAMP || f.instance > MAX_INSTANCE || f.sequence > MAX_SEQUENCE then None
    else
      var high := CheckedAdd(Shl(f.timestamp, 22), Shl(f.instance, 12));
      if high.None? then None
      else
        var raw := CheckedAdd(high.value, f.sequence);
        if raw.None? || raw.value >= I64_LIMIT then None else Some(raw.value as Id)
  }

  function ParseToI64(formatted: string): Option<Id> {
    var f := Parse(formatted);
    if f.None? then None else Reassemble(f.value)
  }

  function ParseToI64WithType(formatted: string, expected: IdType): Option<Id> {
    var f := Parse(formatted);
    if f.None? || f.value.idType != expected then None else Reassemble(f.value)
  }

  // ---------- laws ----------

  lemma PowersUsed()
    ensures Power2(22) == 0x40_0000 && Power2(12) == 0x1000
  {
    assert Power2(10) == 0x400;
    assert Power2(12) == 0x1000;
    assert Power2(20) == 0x10_0000;
  }

  /** The range checks alone decide: neither the shifts nor the checked additions nor the last
      comparison can fail behind them. */
  lemma RangesSuffice(f: Fields)
    ensures Reassemble(f).Some? <==> f.timestamp <= MAX_TIMESTAMP && f.instance <= MAX_INSTANCE && f.sequence <= MAX_SEQUENCE
    ensures Reassemble(f).Some? ==> Reassemble(f).value as int == f.timestamp * 0x40_0000 + f.instance * 0x1000 + f.sequence
  {
    PowersUsed();
  }

  lemma FieldsOfId(n: nat)
    requires n < I64_LIMIT
    ensures Timestamp(n) <= MAX_TIMESTAMP && Instance(n) <= MAX_INSTANCE && Sequence(n) <= MAX_SEQUENCE
    ensures n == Timestamp(n) * 0x40_0000 + Instance(n) * 0x1000 + Sequence(n)
  {
    assert n / 0x1000 / 0x400 == n / 0x40_0000;
  }

  lemma PrefixPlain(t: IdType)
    ensures FromPrefix(Prefix(t)) == Some(t)
    ensures !Contains(Prefix(t), '_') && !Contains(Prefix(t), '-') && !Contains(Prefix(t), '.')
    ensures Prefix(t) != []
    ensures forall p :: FromPrefix(p) == Some(t) ==> p == Prefix(t)
  {
    forall p | FromPrefix(p) == Some(t)
      ensures p == Prefix(t)
    {
      OnlyPrefix(p, t);
    }
  }

  lemma OnlyPrefix(p: string, t: IdType)
    requires FromPrefix(p) == Some(t)
    ensures p == Prefix(t)
  {
  }

  lemma DigitsPlain(s: string)
    requires AllDigits(s)
    ensures !Contains(s, '_') && !Contains(s, '-') && !Contains(s, '.') && !Contains(s, '+')
  {
  }

  lemma ParseDigits(s: string)
    requires s != [] && AllDigits(s) && DigitsValue(s) < U64_LIMIT
    ensures ParseU64(s) == Some(DigitsValue(s))
  {
    assert IsDigit(s[0]);
  }

  lemma SplitFour(a: string, b: string, c: string, d: string)
    requires !Contains(a, '_') && !Contains(b, '_') && !Contains(c, '_') && !Contains(d, '_')
    ensures Split(a + "_" + (b + "_" + (c + "_" + d)), '_') == [a, b, c, d]
  {
    hide Split;
    SplitOfPlain(d, '_');
    SplitOfJoin(c, '_', d);
    SplitOfJoin(b, '_', c + "_" + d);
    SplitOfJoin(a, '_', b + "_" + (c + "_" + d));
  }

  lemma ParseOfFormat(id: Id, t: IdType)
    requires id >= 0
    ensures var n := id as nat; Parse(Format(id, t)) == Some(Fields(t, Timestamp(n), Instance(n), Sequence(n)))
  {
    hide Split, Digits, Padded, FromPrefix, Prefix;
    var n := id as nat;
    var ts, inst, sq := Digits(Timestamp(n)), Padded(Instance(n), 3), Padded(Sequence(n), 4);
    FieldsOfId(n);
    PrefixPlain(t);
    DigitsPlain(ts); DigitsPlain(inst); DigitsPlain(sq);
    SplitFour(Prefix(t), ts, inst, sq);
    ParseDigits(ts); ParseDigits(inst); ParseDigits(sq);
  }

  lemma NumberPlain(s: string)
    ensures ParseU64(s).Some? ==> !Contains(s, '_')
  {
    hide DigitsValue;
    if ParseU64(s).Some? && s[0] == '+' { assert forall i :: 1 <= i < |s| ==> s[i] == s[1..][i - 1]; }
  }

  /** A text parses exactly if it is a prefix and three numbers, joined by underscores; how many digits the
      numbers have, and whether they have a plus sign, does not matter. */
  lemma ParseExact(s: string, f: Fields)
    ensures Parse(s) == Some(f) <==>
      exists a, b, c :: s == Prefix(f.idType) + "_" + (a + "_" + (b + "_" + c))
        && ParseU64(a) == Some(f.timestamp) && ParseU64(b) == Some(f.instance) && ParseU64(c) == Some(f.sequence)
  {
    hide Split, ParseU64, Prefix, FromPrefix;
    PrefixPlain(f.idType);
    forall a, b, c | s == Prefix(f.idType) + "_" + (a + "_" + (b + "_" + c)) && ParseU64(a).Some? && ParseU64(b).Some? && ParseU64(c).Some?
      ensures Split(s, '_') == [Prefix(f.idType), a, b, c]
    {
      NumberPlain(a); NumberPlain(b); NumberPlain(c);
      SplitFour(Prefix(f.idType), a, b, c);
    }
    if Parse(s) == Some(f) {
      var parts := Split(s, '_');
      var a, b, c := parts[1], parts[2], parts[3];
      NumberPlain(a); NumberPlain(b); NumberPlain(c);
      var t := Prefix(f.idType) + "_" + (a + "_" + (b + "_" + c));
      SplitFour(Prefix(f.idType), a, b, c);
      assert parts == [parts[0], a, b, c];
      SplitInjective(s, t, '_');
    }
  }

  /** Parsing a formatted id gives the id back; the typed variant does so exactly for its own type. */
  lemma RoundTrip(id: Id, t: IdType, expected: IdType)
    requires id >= 0
    ensures ParseToI64(Format(id, t)) == Some(id)
    ensures ParseToI64WithType(Format(id, t), expected) == if expected == t then Some(id) else None
  {
    hide Parse, Format;
    ParseOfFormat(id, t);
    var n := id as nat;
    FieldsOfId(n);
    RangesSuffice(Fields(t, Timestamp(n), Instance(n), Sequence(n)));
  }

  lemma DigitsLength(n: nat)
    ensures n < 10 ==> |Digits(n)| == 1
    ensures 10 <= n < 100 ==> |Digits(n)| == 2
    ensures 100 <= n < 1000 ==> |Digits(n)| == 3
    ensures 1000 <= n < 10000 ==> |Digits(n)| == 4
  {
    if 10 <= n < 10000 { DigitsLength(n / 10); }
  }

  /** The fields are written in decimal: the time without leading zeros, the instance padded to three
      digits, the sequence in four. */
  lemma FormatWidths(id: Id, t: IdType)
    requires id >= 0
    ensures var n := id as nat;
            exists a, b, c :: Format(id, t) == Prefix(t) + "_" + (a + "_" + (b + "_" + c))
              && AllDigits(a) && AllDigits(b) && AllDigits(c)
              && DigitsValue(a) == Timestamp(n) && DigitsValue(b) == Instance(n) && DigitsValue(c) == Sequence(n)
              && (|a| > 1 ==> a[0] != '0') && |b| == (if Instance(n) < 1000 then 3 else 4) && |c| == 4
  {
    hide Digits, Padded, Prefix;
    var n := id as nat;
    FieldsOfId(n);
    DigitsLength(Instance(n));
    DigitsLength(Sequence(n));
    var a, b, c := Digits(Timestamp(n)), Padded(Instance(n), 3), Padded(Sequence(n), 4);
    assert Format(id, t) == Prefix(t) + "_" + (a + "_" + (b + "_" + c));
  }

  /** Different ids, or different types, have different formats. */
  lemma FormatInjective(a: Id, s: IdType, b: Id, t: IdType)
    requires a >= 0 && b >= 0 && Format(a, s) == Format(b, t)
    ensures a == b && s == t
  {
    RoundTrip(a, s, s);
    RoundTrip(b, t, s);
  }

  /** The fallback format of a negative id is never read back as an id. */
  lemma NegativeNeverParses(id: Id, t: IdType)
    requires id < 0
    ensures ParseToI64(Format(id, t)) == None
  {
    hide Split, Prefix, FromPrefix, ParseU64;
    PrefixPlain(t);
    assert Format(id, t) == Prefix(t) + "_" + "invalid_0_0";
    SplitOfJoin(Prefix(t), '_', "invalid_0_0");
    FallbackTail();
  }

  lemma FallbackTail()
    ensures ParseU64(Split("invalid_0_0", '_')[0]) == None
  {
    hide Split;
    assert "invalid_0_0" == "invalid" + "_" + "0_0";
    assert !Contains("invalid", '_');
    SplitOfJoin("invalid", '_', "0_0");
    assert "invalid"[0] == 'i';
  }

  /** Ids are ordered by time, then instance, then sequence. */
  lemma FieldOrder(a: nat, b: nat)
    requires a < I64_LIMIT && b < I64_LIMIT
    ensures a < b <==>
      Timestamp(a) < Timestamp(b)
      || (Timestamp(a) == Timestamp(b) && Instance(a) < Instance(b))
      || (Timestamp(a) == Timestamp(b) && Instance(a) == Instance(b) && Sequence(a) < Sequence(b))
  {
    FieldsOfId(a);
    FieldsOfId(b);
  }

  // ---------- result files ----------

  /** The last position of a character. */
  function LastIndex(s: string, c: char): (r: Option<nat>)
    ensures r.Some? ==> r.value < |s| && s[r.value] == c && forall i :: r.value < i < |s| ==> s[i] != c
    ensures r.None? ==> !Contains(s, c)
  {
    if s == [] then None
    else if s[|s| - 1] == c then Some(|s| - 1)
    else LastIndex(s[..|s| - 1], c)
  }

  /** `Path::file_stem` and `Path::extension` of a file name: a leading dot starts no extension. */
  function StemAndExtension(name: string): (string, Option<string>) {
    var dot := LastIndex(name, '.');
    if name == ".." || dot.None? || dot.value == 0 then (name, None)
    else (name[..dot.value], Some(name[dot.value + 1..]))
  }

  /** Three non-empty runs of digits behind `task_`. */
  predicate IsTaskIdShape(s: string) {
    && "task_" <= s
    && var parts := Split(s[5..], '_');
       |parts| == 3 && forall k :: 0 <= k < 3 ==> parts[k] != [] && AllDigits(parts[k])
  }

  function ParseResultFilename(name: string): Option<string> {
    var (stem, extension) := StemAndExtension(name);
    if extension != Some("md") || !("task_" <= stem) then None
    else
      var hyphen := Find(stem, "-");
      if hyphen.None? then None
      else
        var taskId := stem[..hyphen.value];
        if !IsTaskIdShape(taskId) || stem[hyphen.value + 1..] == [] then None else Some(taskId)
  }

  /** The file name of `get_result_path`. */
  function ResultName(taskId: string, agent: string): Option<string> {
    if ValidComponent(taskId) && ValidComponent(agent) then Some(taskId + "-" + agent + ".md") else None
  }

  /** A result file is named exactly for safe ids and agents, and its name leads into no other directory. */
  lemma ResultNameSafe(taskId: string, agent: string)
    ensures ResultName(taskId, agent).Some? <==> ValidComponent(taskId) && ValidComponent(agent)
    ensures ResultName(taskId, agent).Some? ==>
              var name := ResultName(taskId, agent).value; !Contains(name, '/') && !Contains(name, '\\')
  {
    hide FindFrom;
    if ResultName(taskId, agent).Some? {
      var name := taskId + "-" + agent + ".md";
      forall i | 0 <= i < |name|
        ensures name[i] != '/' && name[i] != '\\'
      {
        var n := |taskId|;
        if i < n { assert name[i] == taskId[i]; }
        else if n < i <= n + |agent| { assert name[i] == agent[i - n - 1]; }
      }
    }
  }

  lemma StemOfResult(stem: string)
    requires stem != []
    ensures StemAndExtension(stem + ".md") == (stem, Some("md"))
  {
    var name := stem + ".md";
    assert name[|stem|] == '.' && name[|stem| + 1] == 'm' && name[|stem| + 2] == 'd';
    assert name[..|stem|] == stem && name[|stem| + 1..] == "md";
    assert name[|name| - 1] != '.';
  }

  lemma HyphenAfter(taskId: string, agent: string)
    requires !Contains(taskId, '-')
    ensures var stem := taskId + "-" + agent;
            Find(stem, "-") == Some(|taskId|) && stem[..|taskId|] == taskId && stem[|taskId| + 1..] == agent
  {
    hide FindFrom;
    var stem := taskId + "-" + agent;
    assert MatchAt(stem, "-", |taskId|);
    forall j | 0 <= j < |taskId|
      ensures !MatchAt(stem, "-", j)
    {
      assert stem[j..j + 1][0] == taskId[j];
    }
  }

  /** Every character is a separator or in one of the fields. */
  lemma {:induction false} SplitCovers(s: string, c: char, i: nat)
    requires i < |s| && s[i] != c
    ensures exists k :: 0 <= k < |Split(s, c)| && s[i] in Split(s, c)[k]
  {
    var rest := Split(s[1..], c);
    var whole := Split(s, c);
    if i == 0 {
      assert s[0] in whole[0];
    } else {
      SplitCovers(s[1..], c, i - 1);
      var k :| 0 <= k < |rest| && s[i] in rest[k];
      if s[0] == c {
        assert whole[k + 1] == rest[k];
      } else if k == 0 {
        assert whole[0] == [s[0]] + rest[0];
      } else {
        assert whole[k] == rest[k];
      }
    }
  }

  lemma ShapeHasNoHyphen(t: string)
    requires IsTaskIdShape(t)
    ensures !Contains(t, '-')
  {
    assert t[..5] == "task_";
    forall i | 0 <= i < |t|
      ensures t[i] != '-'
    {
      if i < 5 {
        assert t[i] == "task_"[i];
      } else if t[i] != '_' {
        SplitCovers(t[5..], '_', i - 5);
      }
    }
  }

  /** A name is accepted, with task id `t`, exactly when it is `t`, a hyphen, a non-empty rest and `.md`. */
  lemma ResultFilenameExact(name: string, t: string)
    ensures ParseResultFilename(name) == Some(t) <==>
              IsTaskIdShape(t) && exists agent :: agent != [] && name == t + "-" + agent + ".md"
  {
    hide IsTaskIdShape, FindFrom, LastIndex;
    if ParseResultFilename(name) == Some(t) {
      var (stem, _) := StemAndExtension(name);
      var h := Find(stem, "-").value;
      var agent := stem[h + 1..];
      var dot := LastIndex(name, '.').value;
      assert name == name[..dot] + [name[dot]] + name[dot + 1..];
      assert name == stem + ".md" by { assert [name[dot]] + "md" == ".md"; }
      assert stem == stem[..h] + stem[h..h + 1] + agent;
      assert name == t + "-" + agent + ".md";
    }
    if IsTaskIdShape(t) && exists agent :: agent != [] && name == t + "-" + agent + ".md" {
      var agent :| agent != [] && name == t + "-" + agent + ".md";
      ShapeHasNoHyphen(t);
      StemOfResult(t + "-" + agent);
      HyphenAfter(t, agent);
      assert "task_" <= t by { ShapePrefix(t); }
      assert "task_" <= t + "-" + agent;
    }
  }

  lemma ShapePrefix(t: string)
    requires IsTaskIdShape(t)
    ensures "task_" <= t
  {
  }

  lemma FormattedShape(id: Id)
    requires id >= 0
    ensures IsTaskIdShape(Format(id, Task))
    ensures ValidComponent(Format(id, Task))
  {
    hide Digits, Padded, Split, FindFrom;
    var n := id as nat;
    var ts, inst, sq := Digits(Timestamp(n)), Padded(Instance(n), 3), Padded(Sequence(n), 4);
    var s := Format(id, Task);
    var rest := ts + "_" + (inst + "_" + sq);
    assert s == "task_" + rest && s[5..] == rest;
    DigitsPlain(ts); DigitsPlain(inst); DigitsPlain(sq);
    SplitOfPlain(sq, '_');
    SplitOfJoin(inst, '_', sq);
    SplitOfJoin(ts, '_', inst + "_" + sq);
    forall i | 0 <= i < |s|
      ensures s[i] !in "/\\:|*?."
    {
      if i < 5 { assert s[i] == "task_"[i]; }
      else { assert s[i] == rest[i - 5] && (IsDigit(rest[i - 5]) || rest[i - 5] == '_'); }
    }
    forall j
      ensures !MatchAt(s, "..", j)
    {
      assert 0 <= j <= |s| - 2 ==> s[j..j + 2][0] == s[j];
    }
  }

  /** The result file that is written for a formatted task id and any agent is read back as that id. */
  lemma ResultFileRoundTrip(id: Id, agent: string)
    requires id >= 0 && ValidComponent(agent)
    ensures var name := ResultName(Format(id, Task), agent);
            && name.Some?
            && ParseResultFilename(name.value) == Some(Format(id, Task))
            && ParseToI64WithType(Format(id, Task), Task) == Some(id)
  {
    hide Format, IsTaskIdShape, ParseResultFilename, ParseToI64WithType;
    FormattedShape(id);
    RoundTrip(id, Task, Task);
    var t := Format(id, Task);
    ResultFilenameExact(t + "-" + agent + ".md", t);
  }
}
