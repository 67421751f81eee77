/** The unified agent registry: records by agent id, with two secondary indices. */
module Registry {
  import opened Text

  /** The parts of an agent record that the indices depend on. */
  datatype AgentRecord = AgentRecord(agentId: string, mcpId: Option<string>, conversationId: Option<string>)

  datatype Kind = Mcp | Conversation

  function ExternalId(r: AgentRecord, kind: Kind): Option<string> {
    match kind
    case Mcp => r.mcpId
    case Conversation => r.conversationId
  }

  type Agents = map<string, AgentRecord>
  type Index = map<string, string>

  datatype State = State(agents: Agents, mcp: Index, conversation: Index)

  function IndexOf(s: State, kind: Kind): Index {
    match kind
    case Mcp => s.mcp
    case Conversation => s.conversation
  }

  // ---------- the operations ----------

  function Drop(index: Index, id: Option<string>): Index {
    if id.Some? then index - {id.value} else index
  }

  function Put(index: Index, id: Option<string>, agent: string): Index {
    if id.Some? then index[id.value := agent] else index
  }

  /** The old index entries of the agent id go, whoever they point to; the new ones overwrite. */
  function Registered(s: State, r: AgentRecord): State {
    var id := r.agentId;
    var known := id in s.agents;
    var mcp := if known then Drop(s.mcp, s.agents[id].mcpId) else s.mcp;
    var conversation := if known then Drop(s.conversation, s.agents[id].conversationId) else s.conversation;
    State(s.agents[id := r], Put(mcp, r.mcpId, id), Put(conversation, r.conversationId, id))
  }

  function Unregistered(s: State, id: string): State {
    if id !in s.agents then s
    else
      var r := s.agents[id];
      State(s.agents - {id}, Drop(s.mcp, r.mcpId), Drop(s.conversation, r.conversationId))
  }

  function WithMcpId(s: State, id: string, mcpId: string): State {
    if id !in s.agents then s
    else
      var r := s.agents[id];
      State(s.agents[id := r.(mcpId := Some(mcpId))], Drop(s.mcp, r.mcpId)[mcpId := id], s.conversation)
  }

  /** Index lookup, then the record. */
  function Lookup(s: State, kind: Kind, x: string): Option<AgentRecord> {
    var index := IndexOf(s, kind);
    if x in index && index[x] in s.agents then Some(s.agents[index[x]]) else None
  }

  // ---------- what the indices promise ----------

  predicate Keyed(s: State) {
    forall a :: a in s.agents ==> s.agents[a].agentId == a
  }

  /** Every entry points to a live record that carries the id. */
  predicate Sound(s: State, kind: Kind) {
    forall x :: x in IndexOf(s, kind) ==>
      IndexOf(s, kind)[x] in s.agents && ExternalId(s.agents[IndexOf(s, kind)[x]], kind) == Some(x)
  }

  /** Every external id of a live agent has an entry. */
  predicate Complete(s: State, kind: Kind) {
    forall a :: a in s.agents && ExternalId(s.agents[a], kind).Some? ==> ExternalId(s.agents[a], kind).value in IndexOf(s, kind)
  }

  /** No two live agents share an external id. */
  predicate Unique(s: State, kind: Kind) {
    forall a, b :: a in s.agents && b in s.agents && a != b && ExternalId(s.agents[a], kind).Some?
      ==> ExternalId(s.agents[a], kind) != ExternalId(s.agents[b], kind)
  }

  predicate AllSound(s: State) {
    Keyed(s) && Sound(s, Mcp) && Sound(s, Conversation)
  }

  /** The answer of scanning all live records for an external id. */
  predicate ScanResult(s: State, kind: Kind, x: string, r: Option<AgentRecord>) {
    if r.Some? then r.value.agentId in s.agents && s.agents[r.value.agentId] == r.value && ExternalId(r.value, kind) == Some(x)
    else forall a :: a in s.agents ==> ExternalId(s.agents[a], kind) != Some(x)
  }

  class UnifiedAgentRegistry {
    var agents: Agents
    var mcpIndex: Index
    var conversationIndex: Index

    function Abstract(): State
      reads this
    {
      State(agents, mcpIndex, conversationIndex)
    }

    predicate Valid()
      reads this
    {
      AllSound(Abstract())
    }

    constructor ()
      ensures Valid() && Abstract() == State(map[], map[], map[])
    {
      agents, mcpIndex, conversationIndex := map[], map[], map[];
    }

    method Register(record: AgentRecord)
      requires Valid()
      modifies this
      ensures Valid()
      ensures Abstract() == Registered(old(Abstract()), record)
    {
      RegisterKeepsSound(Abstract(), record);
      var id := record.agentId;
      if id in agents {
        var oldRecord := agents[id];
        if oldRecord.mcpId.Some? {
          mcpIndex := mcpIndex - {oldRecord.mcpId.value};
        }
        if oldRecord.conversationId.Some? {
          conversationIndex := conversationIndex - {oldRecord.conversationId.value};
        }
      }
      agents := agents[id := record];
      if record.mcpId.Some? {
        mcpIndex := mcpIndex[record.mcpId.value := id];
      }
      if record.conversationId.Some? {
        conversationIndex := conversationIndex[record.conversationId.value := id];
      }
    }

    method Unregister(id: string) returns (removed: Option<AgentRecord>)
      requires Valid()
      modifies this
      ensures Valid()
      ensures Abstract() == Unregistered(old(Abstract()), id)
      ensures removed == if id in old(agents) then Some(old(agents)[id]) else None
    {
      UnregisterKeepsSound(Abstract(), id);
      if id !in agents {
        return None;
      }
      var record := agents[id];
      agents := agents - {id};
      if record.mcpId.Some? {
        mcpIndex := mcpIndex - {record.mcpId.value};
      }
      if record.conversationId.Some? {
        conversationIndex := conversationIndex - {record.conversationId.value};
      }
      return Some(record);
    }

    method SetMcpAgentId(id: string, mcpId: string) returns (found: bool)
      requires Valid()
      modifies this`agents, this`mcpIndex
      ensures Valid()
      ensures found <==> id in old(agents)
      ensures Abstract() == WithMcpId(old(Abstract()), id, mcpId)
    {
      SetMcpKeepsSound(Abstract(), id, mcpId);
      if id !in agents {
        return false;
      }
      var record := agents[id];
      if record.mcpId.Some? {
        mcpIndex := mcpIndex - {record.mcpId.value};
      }
      agents := agents[id := record.(mcpId := Some(mcpId))];
      mcpIndex := mcpIndex[mcpId := id];
      return true;
    }

    /** A hit is a live record with the id; a miss means none exists if the index is complete. */
    method GetByMcpId(mcpId: string) returns (r: Option<AgentRecord>)
      requires Valid()
      ensures r == Lookup(Abstract(), Mcp, mcpId)
      ensures r.Some? || Complete(Abstract(), Mcp) ==> ScanResult(Abstract(), Mcp, mcpId, r)
    {
      if mcpId !in mcpIndex {
        return None;
      }
      assert mcpId in IndexOf(Abstract(), Mcp);
      return Some(agents[mcpIndex[mcpId]]);
    }

    method GetByConversationId(conversationId: string) returns (r: Option<AgentRecord>)
      requires Valid()
      ensures r == Lookup(Abstract(), Conversation, conversationId)
      ensures r.Some? || Complete(Abstract(), Conversation) ==> ScanResult(Abstract(), Conversation, conversationId, r)
    {
      if conversationId !in conversationIndex {
        return None;
      }
      assert conversationId in IndexOf(Abstract(), Conversation);
      return Some(agents[conversationIndex[conversationId]]);
    }
  }

  // ---------- soundness, collisions included ----------

  lemma RegisterKeepsSound(s: State, r: AgentRecord)
    requires AllSound(s)
    ensures AllSound(Registered(s, r))
  {
    var t := Registered(s, r);
    forall kind: Kind
      ensures Sound(t, kind)
    {
      assert Sound(s, kind);
      forall x | x in IndexOf(t, kind)
        ensures IndexOf(t, kind)[x] in t.agents && ExternalId(t.agents[IndexOf(t, kind)[x]], kind) == Some(x)
      {
        if x in IndexOf(s, kind) {
          var a := IndexOf(s, kind)[x];
          assert ExternalId(s.agents[a], kind) == Some(x);
        }
      }
    }
  }

  lemma UnregisterKeepsSound(s: State, id: string)
    requires AllSound(s)
    ensures AllSound(Unregistered(s, id))
  {
    var t := Unregistered(s, id);
    forall kind: Kind
      ensures Sound(t, kind)
    {
      assert Sound(s, kind);
      forall x | x in IndexOf(t, kind)
        ensures IndexOf(t, kind)[x] in t.agents && ExternalId(t.agents[IndexOf(t, kind)[x]], kind) == Some(x)
      {
        if x in IndexOf(s, kind) {
          var a := IndexOf(s, kind)[x];
          assert ExternalId(s.agents[a], kind) == Some(x);
        }
      }
    }
  }

  lemma SetMcpKeepsSound(s: State, id: string, mcpId: string)
    requires AllSound(s)
    ensures AllSound(WithMcpId(s, id, mcpId))
  {
    var t := WithMcpId(s, id, mcpId);
    forall kind: Kind
      ensures Sound(t, kind)
    {
      assert Sound(s, kind);
      forall x | x in IndexOf(t, kind)
        ensures IndexOf(t, kind)[x] in t.agents && ExternalId(t.agents[IndexOf(t, kind)[x]], kind) == Some(x)
      {
        if x in IndexOf(s, kind) {
          var a := IndexOf(s, kind)[x];
          assert ExternalId(s.agents[a], kind) == Some(x);
        }
      }
    }
  }

  // ---------- runs ----------

  datatype Op = Register(record: AgentRecord) | Unregister(id: string) | SetMcp(id: string, mcpId: string)

  function Apply(s: State, op: Op): State {
    match op
    case Register(record) => Registered(s, record)
    case Unregister(id) => Unregistered(s, id)
    case SetMcp(id, mcpId) => WithMcpId(s, id, mcpId)
  }

  function After(s: State, ops: seq<Op>): State {
    if ops == [] then s else Apply(After(s, ops[..|ops| - 1]), ops[|ops| - 1])
  }

  const EMPTY := State(map[], map[], map[])

  lemma SoundStep(s: State, op: Op)
    requires AllSound(s)
    ensures AllSound(Apply(s, op))
  {
    match op
    case Register(record) => RegisterKeepsSound(s, record);
    case Unregister(id) => UnregisterKeepsSound(s, id);
    case SetMcp(id, mcpId) => SetMcpKeepsSound(s, id, mcpId);
  }

  /** Over all runs, every index entry points to a live record that carries the id. */
  lemma {:induction false} AlwaysSound(ops: seq<Op>)
    ensures AllSound(After(EMPTY, ops))
  {
    if ops != [] {
      AlwaysSound(ops[..|ops| - 1]);
      SoundStep(After(EMPTY, ops[..|ops| - 1]), ops[|ops| - 1]);
    }
  }

  // ---------- where completeness ends ----------

  /** Some other live agent carries the id. */
  predicate SharedWith(s: State, id: string, kind: Kind, external: Option<string>) {
    external.Some? && exists b :: b in s.agents && b != id && ExternalId(s.agents[b], kind) == external
  }

  /** What `id` carried before the operation. */
  function OldId(s: State, id: string, kind: Kind): Option<string> {
    if id in s.agents then ExternalId(s.agents[id], kind) else None
  }

  /** A check before the operation: the id that is taken out of the index is put back, or no one else carries it. */
  predicate Harmless(s: State, op: Op, kind: Kind) {
    match op
    case Register(r) => !SharedWith(s, r.agentId, kind, OldId(s, r.agentId, kind)) || OldId(s, r.agentId, kind) == ExternalId(r, kind)
    case Unregister(id) => !SharedWith(s, id, kind, OldId(s, id, kind))
    case SetMcp(id, mcpId) => kind.Mcp? ==> !SharedWith(s, id, kind, OldId(s, id, kind)) || OldId(s, id, kind) == Some(mcpId)
  }

  lemma UnregisterExact(s: State, id: string, kind: Kind)
    requires AllSound(s) && Complete(s, kind)
    ensures Complete(Unregistered(s, id), kind) <==> Harmless(s, Unregister(id), kind)
  {
    var t := Unregistered(s, id);
    var before := OldId(s, id, kind);
    if SharedWith(s, id, kind, before) {
      var b :| b in s.agents && b != id && ExternalId(s.agents[b], kind) == before;
      assert b in t.agents && t.agents[b] == s.agents[b];
    }
  }

  lemma RegisterExact(s: State, r: AgentRecord, kind: Kind)
    requires AllSound(s) && Complete(s, kind)
    ensures Complete(Registered(s, r), kind) <==> Harmless(s, Register(r), kind)
  {
    var t, id := Registered(s, r), r.agentId;
    var before := OldId(s, id, kind);
    if SharedWith(s, id, kind, before) {
      var b :| b in s.agents && b != id && ExternalId(s.agents[b], kind) == before;
      assert b in t.agents && t.agents[b] == s.agents[b];
    }
    if Harmless(s, Register(r), kind) {
      forall a | a in t.agents && ExternalId(t.agents[a], kind).Some?
        ensures ExternalId(t.agents[a], kind).value in IndexOf(t, kind)
      {
        if a != id { assert ExternalId(s.agents[a], kind).value in IndexOf(s, kind); }
      }
    }
  }

  lemma SetMcpExact(s: State, id: string, mcpId: string, kind: Kind)
    requires AllSound(s) && Complete(s, kind)
    ensures Complete(WithMcpId(s, id, mcpId), kind) <==> Harmless(s, SetMcp(id, mcpId), kind)
  {
    var t := WithMcpId(s, id, mcpId);
    var before := OldId(s, id, kind);
    if kind.Mcp? && SharedWith(s, id, kind, before) {
      var b :| b in s.agents && b != id && ExternalId(s.agents[b], kind) == before;
      assert b in t.agents && t.agents[b] == s.agents[b];
    }
    if Harmless(s, SetMcp(id, mcpId), kind) {
      forall a | a in t.agents && ExternalId(t.agents[a], kind).Some?
        ensures ExternalId(t.agents[a], kind).value in IndexOf(t, kind)
      {
        if a != id || kind.Conversation? { assert ExternalId(s.agents[a], kind).value in IndexOf(s, kind); }
      }
    }
  }

  /** Each operation keeps the index complete exactly when it is harmless. */
  lemma StepExact(s: State, op: Op, kind: Kind)
    requires AllSound(s) && Complete(s, kind)
    ensures Complete(Apply(s, op), kind) <==> Harmless(s, op, kind)
  {
    match op
    case Register(record) => RegisterExact(s, record, kind);
    case Unregister(id) => UnregisterExact(s, id, kind);
    case SetMcp(id, mcpId) => SetMcpExact(s, id, mcpId, kind);
  }

  /** In every run, some agent is found under every id that a live agent carries, in every state, exactly
      when every operation was harmless when it came. */
  lemma RunExact(ops: seq<Op>, kind: Kind)
    ensures (forall n :: 0 <= n <= |ops| ==> Complete(After(EMPTY, ops[..n]), kind))
      <==> forall n :: 0 <= n < |ops| ==> Harmless(After(EMPTY, ops[..n]), ops[n], kind)
  {
    hide Complete, Harmless, Apply, AllSound;
    forall n | 0 <= n < |ops|
      ensures After(EMPTY, ops[..n + 1]) == Apply(After(EMPTY, ops[..n]), ops[n])
    {
      assert ops[..n + 1][..n] == ops[..n];
    }
    if forall n :: 0 <= n <= |ops| ==> Complete(After(EMPTY, ops[..n]), kind) {
      forall n | 0 <= n < |ops|
        ensures Harmless(After(EMPTY, ops[..n]), ops[n], kind)
      {
        AlwaysSound(ops[..n]);
        assert Complete(After(EMPTY, ops[..n + 1]), kind);
        StepExact(After(EMPTY, ops[..n]), ops[n], kind);
      }
    }
    if forall n :: 0 <= n < |ops| ==> Harmless(After(EMPTY, ops[..n]), ops[n], kind) {
      forall n | 0 <= n <= |ops|
        ensures Complete(After(EMPTY, ops[..n]), kind)
      {
        HarmlessPrefix(ops, n, kind);
      }
    }
  }

  lemma {:induction false} HarmlessPrefix(ops: seq<Op>, n: nat, kind: Kind)
    requires n <= |ops|
    requires forall k :: 0 <= k < |ops| ==> Harmless(After(EMPTY, ops[..k]), ops[k], kind)
    ensures Complete(After(EMPTY, ops[..n]), kind)
  {
    hide Harmless, Apply, AllSound;
    if n > 0 {
      HarmlessPrefix(ops, n - 1, kind);
      AlwaysSound(ops[..n - 1]);
      assert ops[..n][..n - 1] == ops[..n - 1];
      StepExact(After(EMPTY, ops[..n - 1]), ops[n - 1], kind);
    } else {
      assert ops[..0] == [] && After(EMPTY, []) == EMPTY;
    }
  }

  /** In a run of harmless operations a lookup finds an agent exactly when some live agent carries the id. */
  lemma LookupFinds(ops: seq<Op>, kind: Kind, x: string)
    requires forall n :: 0 <= n < |ops| ==> Harmless(After(EMPTY, ops[..n]), ops[n], kind)
    ensures var s := After(EMPTY, ops);
            Lookup(s, kind, x).Some? <==> exists a :: a in s.agents && ExternalId(s.agents[a], kind) == Some(x)
  {
    AlwaysSound(ops);
    HarmlessPrefix(ops, |ops|, kind);
    assert ops[..|ops|] == ops;
    var s := After(EMPTY, ops);
    assert Sound(s, kind);
  }

  /** Live agents never shared an external id of this kind at any point of the run. */
  predicate NeverShared(ops: seq<Op>, kind: Kind) {
    forall n :: 0 <= n <= |ops| ==> Unique(After(EMPTY, ops[..n]), kind)
  }

  lemma UniqueIsHarmless(s: State, op: Op, kind: Kind)
    requires Unique(s, kind)
    ensures Harmless(s, op, kind)
  {
  }

  /** While external ids stay unique, looking one up is the same as scanning all records for it. */
  lemma LookupIsScan(ops: seq<Op>, kind: Kind, x: string, r: Option<AgentRecord>)
    requires NeverShared(ops, kind)
    ensures var s := After(EMPTY, ops); ScanResult(s, kind, x, r) <==> r == Lookup(s, kind, x)
  {
    hide Harmless, After;
    AlwaysSound(ops);
    forall n | 0 <= n < |ops|
      ensures Harmless(After(EMPTY, ops[..n]), ops[n], kind)
    {
      UniqueIsHarmless(After(EMPTY, ops[..n]), ops[n], kind);
    }
    HarmlessPrefix(ops, |ops|, kind);
    assert ops[..|ops|] == ops;
    var s := After(EMPTY, ops);
    assert Sound(s, kind) && Unique(s, kind) && Keyed(s);
  }

  // ---------- where agents hide each other ----------

  /** Every live agent is what a lookup of its external id returns. */
  predicate EachFound(s: State, kind: Kind) {
    forall a :: a in s.agents && ExternalId(s.agents[a], kind).Some? ==>
      Lookup(s, kind, ExternalId(s.agents[a], kind).value) == Some(s.agents[a])
  }

  /** A check before the operation: the id that it brings in is carried by no other live agent. */
  predicate BringsOwnId(s: State, op: Op, kind: Kind) {
    match op
    case Register(r) => !SharedWith(s, r.agentId, kind, ExternalId(r, kind))
    case Unregister(_) => true
    case SetMcp(id, mcpId) => kind.Mcp? && id in s.agents ==> !SharedWith(s, id, kind, Some(mcpId))
  }

  /** Lookups return every agent exactly when the index is complete and no two agents share an id. */
  lemma EachFoundIff(s: State, kind: Kind)
    requires AllSound(s)
    ensures EachFound(s, kind) <==> Complete(s, kind) && Unique(s, kind)
  {
    if EachFound(s, kind) {
      forall a, b | a in s.agents && b in s.agents && a != b && ExternalId(s.agents[a], kind).Some?
        ensures ExternalId(s.agents[a], kind) != ExternalId(s.agents[b], kind)
      {
        assert s.agents[a].agentId == a && s.agents[b].agentId == b;
      }
    }
    if Complete(s, kind) && Unique(s, kind) {
      forall a | a in s.agents && ExternalId(s.agents[a], kind).Some?
        ensures Lookup(s, kind, ExternalId(s.agents[a], kind).value) == Some(s.agents[a])
      {
        var x := ExternalId(s.agents[a], kind).value;
        assert ExternalId(s.agents[IndexOf(s, kind)[x]], kind) == Some(x);
      }
    }
  }

  lemma UniqueStep(s: State, op: Op, kind: Kind)
    requires AllSound(s) && Unique(s, kind)
    ensures Unique(Apply(s, op), kind) <==> BringsOwnId(s, op, kind)
  {
    hide IndexOf;
    var t := Apply(s, op);
    match op
    case Register(r) =>
      if SharedWith(s, r.agentId, kind, ExternalId(r, kind)) {
        var b :| b in s.agents && b != r.agentId && ExternalId(s.agents[b], kind) == ExternalId(r, kind);
        assert t.agents[r.agentId] == r && t.agents[b] == s.agents[b];
      }
    case Unregister(id) =>
    case SetMcp(id, mcpId) =>
      if kind.Mcp? && id in s.agents && SharedWith(s, id, kind, Some(mcpId)) {
        var b :| b in s.agents && b != id && ExternalId(s.agents[b], kind) == Some(mcpId);
        assert ExternalId(t.agents[id], kind) == Some(mcpId) && t.agents[b] == s.agents[b];
      }
  }

  /** From a state in which each agent is found, each still is exactly when the operation brings in no
      id of another live agent. */
  lemma FoundExact(s: State, op: Op, kind: Kind)
    requires AllSound(s) && EachFound(s, kind)
    ensures EachFound(Apply(s, op), kind) <==> BringsOwnId(s, op, kind)
  {
    hide EachFound, Complete, Unique, Sound, Harmless, BringsOwnId, Apply;
    EachFoundIff(s, kind);
    UniqueIsHarmless(s, op, kind);
    StepExact(s, op, kind);
    UniqueStep(s, op, kind);
    SoundStep(s, op);
    EachFoundIff(Apply(s, op), kind);
  }

  /** In every run each agent is found in every state exactly when no operation brought in an id that
      another live agent carried then. */
  lemma FoundRunExact(ops: seq<Op>, kind: Kind)
    ensures (forall n :: 0 <= n <= |ops| ==> EachFound(After(EMPTY, ops[..n]), kind))
      <==> forall n :: 0 <= n < |ops| ==> BringsOwnId(After(EMPTY, ops[..n]), ops[n], kind)
  {
    hide EachFound, BringsOwnId, Apply, AllSound;
    forall n | 0 <= n < |ops|
      ensures After(EMPTY, ops[..n + 1]) == Apply(After(EMPTY, ops[..n]), ops[n])
    {
      assert ops[..n + 1][..n] == ops[..n];
    }
    if forall n :: 0 <= n <= |ops| ==> EachFound(After(EMPTY, ops[..n]), kind) {
      forall n | 0 <= n < |ops|
        ensures BringsOwnId(After(EMPTY, ops[..n]), ops[n], kind)
      {
        AlwaysSound(ops[..n]);
        assert EachFound(After(EMPTY, ops[..n + 1]), kind);
        FoundExact(After(EMPTY, ops[..n]), ops[n], kind);
      }
    }
    if forall n :: 0 <= n < |ops| ==> BringsOwnId(After(EMPTY, ops[..n]), ops[n], kind) {
      forall n | 0 <= n <= |ops|
        ensures EachFound(After(EMPTY, ops[..n]), kind)
      {
        OwnIdsPrefix(ops, n, kind);
      }
    }
  }

  lemma {:induction false} OwnIdsPrefix(ops: seq<Op>, n: nat, kind: Kind)
    requires n <= |ops|
    requires forall k :: 0 <= k < |ops| ==> BringsOwnId(After(EMPTY, ops[..k]), ops[k], kind)
    ensures EachFound(After(EMPTY, ops[..n]), kind)
  {
    hide BringsOwnId, Apply, AllSound;
    if n > 0 {
      OwnIdsPrefix(ops, n - 1, kind);
      AlwaysSound(ops[..n - 1]);
      assert ops[..n][..n - 1] == ops[..n - 1];
      FoundExact(After(EMPTY, ops[..n - 1]), ops[n - 1], kind);
    } else {
      assert ops[..0] == [] && After(EMPTY, []) == EMPTY;
    }
  }

  /** Two agents with one id: when the first is removed, or gets another id, the second cannot be
      found any more, although its id is now unique. */
  lemma CollisionHidesSurvivor(x: string, y: string, a: string, b: string)
    requires a != b && x != y
    ensures var ops := [Register(AgentRecord(a, Some(x), None)), Register(AgentRecord(b, Some(x), None))];
            var s, t := After(EMPTY, ops + [Unregister(a)]), After(EMPTY, ops + [SetMcp(a, y)]);
            && s.agents == map[b := AgentRecord(b, Some(x), None)] && Unique(s, Mcp) && Lookup(s, Mcp, x) == None
            && t.agents == map[a := AgentRecord(a, Some(y), None), b := AgentRecord(b, Some(x), None)]
            && Unique(t, Mcp) && Lookup(t, Mcp, x) == None
  {
    var ra, rb := AgentRecord(a, Some(x), None), AgentRecord(b, Some(x), None);
    var ops := [Register(ra), Register(rb)];
    assert ops[..1] == [Register(ra)] && ops[..1][..0] == [];
    var s1 := Registered(EMPTY, ra);
    assert After(EMPTY, []) == EMPTY && After(EMPTY, ops[..1]) == s1;
    var s2 := Registered(s1, rb);
    assert After(EMPTY, ops) == s2;
    assert (ops + [Unregister(a)])[..2] == ops && (ops + [SetMcp(a, y)])[..2] == ops;
    assert After(EMPTY, ops + [Unregister(a)]) == Unregistered(s2, a);
    assert After(EMPTY, ops + [SetMcp(a, y)]) == WithMcpId(s2, a, y);
  }
}
