/** Names that task ids and agent names are put into: agent ids and result files. */
module TaskFiles {
  import opened Text

  /** `validate_path_component`. */
  predicate ValidComponent(name: string) {
    && name != []
    && Find(name, "..").None?
    && forall i :: 0 <= i < |name| ==> name[i] !in "/\\:|*?"
  }

  /** Nothing in a component separates paths, drives, ids or patterns, or leads upwards. */
  lemma ComponentExact(name: string)
    ensures ValidComponent(name) <==>
      && name != [] && (forall a, b :: name != a + ".." + b)
      && !Contains(name, '/') && !Contains(name, '\\') && !Contains(name, ':')
      && !Contains(name, '|') && !Contains(name, '*') && !Contains(name, '?')
  {
    hide FindFrom;
    forall a, b | name == a + ".." + b
      ensures MatchAt(name, "..", |a|)
    {
    }
    if Find(name, "..").Some? {
      var i := Find(name, "..").value;
      assert name == name[..i] + ".." + name[i + 2..];
    }
  }

  function MakeAgentId(taskId: string, agent: string): string {
    taskId + "|" + agent
  }

  /** `split_once('|')`. */
  function ParseAgentId(agentId: string): Option<(string, string)> {
    var bar := Find(agentId, "|");
    if bar.None? then None else Some((agentId[..bar.value], agentId[bar.value + 1..]))
  }

  /** Parsing inverts making on every task id that is a valid path component. */
  lemma ParseMakeAgentId(taskId: string, agent: string)
    requires ValidComponent(taskId)
    ensures ParseAgentId(MakeAgentId(taskId, agent)) == Some((taskId, agent))
  {
    hide FindFrom;
    var s := MakeAgentId(taskId, agent);
    var n := |taskId|;
    assert s[n..n + 1] == "|";
    assert MatchAt(s, "|", n);
    forall j | 0 <= j < n
      ensures !MatchAt(s, "|", j)
    {
      assert s[j..j + 1][0] == s[j] == taskId[j] && taskId[j] !in "/\\:|*?";
    }
    assert s[..n] == taskId && s[n + 1..] == agent;
  }
}
