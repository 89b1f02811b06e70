/** Re-syncing a user's custom rules into a subscription file
    (internal/handler/apply_custom_rules.go). */
module CustomRules {
  import opened Base
  import opened RuleText
  import opened InsertAndErase
  import opened ProxyGroups

  // ---------------------------------------------------------------------------------------
  // Lists
  // ---------------------------------------------------------------------------------------

  /** Repeats an earlier line: not a rule set, and the same key, letter case aside, or one final
      MATCH rule for another. */
  predicate Duplicates(node: Node, newRules: seq<Node>) {
    node.IsScalar() && !IsRuleSet(node.value)
    && ((HasMatch(newRules) && IsMatch(node.value)) || Lower(RuleKey(node.value)) in Keys(newRules))
  }

  predicate HasMatch(nodes: seq<Node>) {
    exists i :: 0 <= i < |nodes| && nodes[i].IsScalar() && IsMatch(nodes[i].value)
  }

  function Keys(nodes: seq<Node>): set<string> {
    if nodes == [] then {}
    else Keys(nodes[..|nodes| - 1]) + if nodes[|nodes| - 1].IsScalar() then {Lower(RuleKey(nodes[|nodes| - 1].value))} else {}
  }

  /** Which nodes a recorded application does not take back. */
  function NotApplied(strings: seq<string>): Node -> bool {
    (n: Node) => !(n.Str? && n.value in strings)
  }

  function NotDuplicate(newRules: seq<Node>): Node -> bool {
    (n: Node) => !Duplicates(n, newRules)
  }

  predicate NamesRuleSet(node: Node) {
    node.IsScalar() && IsRuleSet(node.value)
  }

  function RuleSets(nodes: seq<Node>): seq<Node> {
    if nodes == [] then []
    else if NamesRuleSet(nodes[0]) then [nodes[0]] + RuleSets(nodes[1..])
    else RuleSets(nodes[1..])
  }

  /** The string values of a list. */
  function Strings(nodes: seq<Node>): seq<string> {
    if nodes == [] then [] else (if nodes[0].Str? then [nodes[0].value] else []) + Strings(nodes[1..])
  }

  predicate AllEncode(nodes: seq<Node>) {
    forall i :: 0 <= i < |nodes| ==> nodes[i].Encodes()
  }

  /** What is recorded of a list: its strings, or nothing at all when one of its nodes has no JSON
      form. */
  function RecordOf(nodes: seq<Node>): seq<string> {
    if AllEncode(nodes) then Strings(nodes) else []
  }

  lemma {:induction false} StringsHold(nodes: seq<Node>, i: nat)
    requires i < |nodes| && nodes[i].Str?
    ensures nodes[i].value in Strings(nodes)
  {
    if i > 0 {
      StringsHold(nodes[1..], i - 1);
    }
  }

  // ---------------------------------------------------------------------------------------
  // One rule
  // ---------------------------------------------------------------------------------------

  datatype Mode = Replace | Prepend | Append | OtherMode

  /** What a rule's content parses to: nothing that can be used, a list of rules, or a mapping whose
      "rules" is no list but another node, by the nodes that it holds. */
  datatype Content = NoRules | RuleList(nodes: seq<Node>) | OtherNode(nodes: seq<Node>)

  /** `hash` is the digest of the content. */
  datatype CustomRule = CustomRule(id: int, mode: Mode, hash: string, content: Content)
  {
    /** What applying the rule puts into a list. */
    function Inserted(): seq<Node> {
      if content.RuleList? then content.nodes else []
    }
  }

  /** What was recorded when a rule was last applied to the file. */
  datatype Applied = Applied(strings: seq<string>, hash: string)

  type History = map<int, Applied>

  predicate Skipped(history: History, rule: CustomRule) {
    rule.mode.Replace? && rule.id in history && history[rule.id].hash == rule.hash
  }

  predicate Takes(history: History, rule: CustomRule) {
    !Skipped(history, rule) && !rule.content.NoRules?
  }

  function Recorded(history: History, rule: CustomRule): seq<string> {
    if rule.id in history then history[rule.id].strings else []
  }

  /** The file's rule list after one rule; none stands for a missing or malformed list. */
  function AfterRule(list: Option<seq<Node>>, history: History, rule: CustomRule): Option<seq<Node>> {
    if !Takes(history, rule) || rule.mode.OtherMode? then list
    else
      var newRules := rule.Inserted();
      if rule.mode.Replace? then
        (if rule.content.OtherNode? then None else Some(newRules + if list.None? then [] else RuleSets(list.value)))
      else if list.None? then (if rule.content.OtherNode? then None else Some(newRules))
      else
        var rest := Kept(list.value, NotApplied(Recorded(history, rule)));
        Some(if rule.mode.Prepend? then newRules + Kept(rest, NotDuplicate(newRules)) else rest + newRules)
  }

  function AfterRecord(records: History, history: History, rule: CustomRule): History {
    if !Takes(history, rule) then records
    else records[rule.id := Applied(RecordOf(rule.content.nodes), rule.hash)]
  }

  /** All rules in order; what was recorded is read once, at the start. */
  function Synced(list: Option<seq<Node>>, history: History, rules: seq<CustomRule>): Option<seq<Node>> {
    if rules == [] then list
    else AfterRule(Synced(list, history, rules[..|rules| - 1]), history, rules[|rules| - 1])
  }

  function Records(history: History, rules: seq<CustomRule>): History {
    if rules == [] then history
    else AfterRecord(Records(history, rules[..|rules| - 1]), history, rules[|rules| - 1])
  }

  // ---------------------------------------------------------------------------------------
  // In place
  // ---------------------------------------------------------------------------------------

  /** The parts of a subscription file that rules of this kind concern, and what is recorded
      about it. */
  class Document {
    var rules: Option<seq<Node>>
    var groups: Option<seq<Group>>
    var records: History

    constructor (rules: Option<seq<Node>>, groups: Option<seq<Group>>, records: History)
      ensures this.rules == rules && this.groups == groups && this.records == records
    {
      this.rules, this.groups, this.records := rules, groups, records;
    }

    /** applyRulesRuleToNodeSmart */
    method ApplyRule(rule: CustomRule, history: History)
      requires !Skipped(history, rule)
      modifies this`rules, this`records
      ensures rules == AfterRule(old(rules), history, rule)
      ensures records == AfterRecord(old(records), history, rule)
    {
      if rule.content.NoRules? {
        return;
      }
      var isList, newRules := rule.content.RuleList?, rule.content.nodes;
      match rule.mode {
        case Replace => ReplaceRules(isList, newRules);
        case Prepend =>
          if rules.None? {
            rules := if isList then Some(newRules) else None;
          } else {
            var rest := TakeBack(rules.value, rule, history);
            if isList {
              rest := RemoveDuplicates(rest, newRules);
              rest := newRules + rest;
            } else {
              KeptByNoRules(rest);
            }
            rules := Some(rest);
          }
        case Append =>
          if rules.None? {
            rules := if isList then Some(newRules) else None;
          } else {
            var rest := TakeBack(rules.value, rule, history);
            if isList {
              rest := rest + newRules;
            } else {
              assert rest + [] == rest;
            }
            rules := Some(rest);
          }
        case OtherMode =>
      }
      var strings := DecodeStrings(newRules);
      var encoded := HasEncoding(newRules);
      if !encoded {
        strings := [];
      }
      records := records[rule.id := Applied(strings, rule.hash)];
    }

    method ReplaceRules(isList: bool, newRules: seq<Node>)
      modifies this`rules
      ensures rules == if !isList then None
                       else Some(newRules + if old(rules).None? then [] else RuleSets(old(rules).value))
    {
      if !isList {
        rules := None;
      } else if rules.None? {
        assert newRules + [] == newRules;
        rules := Some(newRules);
      } else {
        var sets := ExtractRuleSetRules(rules.value);
        rules := Some(newRules + sets);
      }
    }

    method TakeBack(nodes: seq<Node>, rule: CustomRule, history: History) returns (rest: seq<Node>)
      ensures rest == Kept(nodes, NotApplied(Recorded(history, rule)))
    {
      if rule.id in history {
        rest := RemoveNodes(nodes, history[rule.id].strings);
      } else {
        KeptWhole(nodes, NotApplied([]));
        rest := nodes;
      }
    }

    /** applyCustomRulesToYamlSmart, on rules of this kind: every rule, then the groups that the
        rules name and the file lacks. */
    method Sync(all: seq<CustomRule>) returns (added: seq<string>)
      modifies this
      ensures rules == Synced(old(rules), old(records), all) && records == Records(old(records), all)
      ensures if all == [] then added == [] && groups == old(groups)
              else AddsMissing(rules, old(groups), groups, added)
    {
      if |all| == 0 {
        return [];
      }
      var history := records;
      for i := 0 to |all|
        invariant rules == Synced(old(rules), history, all[..i]) && records == Records(history, all[..i])
        invariant groups == old(groups) && history == old(records)
      {
        assert all[..i + 1][..i] == all[..i];
        if !(all[i].mode.Replace? && all[i].id in history && history[all[i].id].hash == all[i].hash) {
          ApplyRule(all[i], history);
        }
      }
      assert all[..|all|] == all;
      groups, added := AutoAddMissingProxyGroups(rules, groups);
    }
  }

  /** Without new rules nothing is a duplicate. */
  lemma KeptByNoRules(nodes: seq<Node>)
    ensures [] + Kept(nodes, NotDuplicate([])) == nodes
  {
    KeptWhole(nodes, NotDuplicate([]));
  }

  /** removeNodesFromSequence */
  method RemoveNodes(nodes: seq<Node>, toRemove: seq<string>) returns (filtered: seq<Node>)
    ensures filtered == Kept(nodes, NotApplied(toRemove))
  {
    filtered := [];
    for i := 0 to |nodes|
      invariant Kept(nodes, NotApplied(toRemove)) == filtered + Kept(nodes[i..], NotApplied(toRemove))
    {
      assert nodes[i..][1..] == nodes[i + 1..];
      if !(nodes[i].Str? && nodes[i].value in toRemove) {
        filtered := filtered + [nodes[i]];
      }
    }
  }

  /** removeDuplicateNodesBasedOnNewRules: one pass over the new rules for their keys, one over the
      existing ones. */
  method RemoveDuplicates(existing: seq<Node>, newRules: seq<Node>) returns (filtered: seq<Node>)
    ensures filtered == Kept(existing, NotDuplicate(newRules))
  {
    var keys: set<string> := {};
    var hasMatch := false;
    for i := 0 to |newRules|
      invariant keys == Keys(newRules[..i]) && (hasMatch <==> HasMatch(newRules[..i]))
    {
      ghost var seen := newRules[..i + 1];
      assert seen[..i] == newRules[..i] && seen[i] == newRules[i];
      MatchSoFar(newRules, i);
      if newRules[i].IsScalar() {
        var key := ExtractRuleKey(newRules[i].value);
        keys := keys + {Lower(key)};
        if IsMatch(newRules[i].value) {
          hasMatch := true;
        }
      }
    }
    assert newRules[..|newRules|] == newRules;
    filtered := [];
    for i := 0 to |existing|
      invariant Kept(existing, NotDuplicate(newRules)) == filtered + Kept(existing[i..], NotDuplicate(newRules))
    {
      assert existing[i..][1..] == existing[i + 1..];
      var repeated := false;
      if existing[i].IsScalar() && !IsRuleSet(existing[i].value) {
        var key := ExtractRuleKey(existing[i].value);
        repeated := (hasMatch && IsMatch(existing[i].value)) || Lower(key) in keys;
      }
      if !repeated {
        filtered := filtered + [existing[i]];
      }
    }
  }

  lemma MatchSoFar(nodes: seq<Node>, i: nat)
    requires i < |nodes|
    ensures HasMatch(nodes[..i + 1]) <==> HasMatch(nodes[..i]) || (nodes[i].IsScalar() && IsMatch(nodes[i].value))
  {
    var a, b := nodes[..i], nodes[..i + 1];
    if HasMatch(a) {
      var k :| 0 <= k < |a| && a[k].IsScalar() && IsMatch(a[k].value);
      assert b[k] == a[k];
    }
    if HasMatch(b) {
      var k :| 0 <= k < |b| && b[k].IsScalar() && IsMatch(b[k].value);
      assert k < i ==> a[k] == b[k];
    }
    assert b[i] == nodes[i];
  }

  method ExtractRuleSetRules(nodes: seq<Node>) returns (sets: seq<Node>)
    ensures sets == RuleSets(nodes)
  {
    sets := [];
    for i := 0 to |nodes|
      invariant RuleSets(nodes) == sets + RuleSets(nodes[i..])
    {
      assert nodes[i..][1..] == nodes[i + 1..];
      if NamesRuleSet(nodes[i]) {
        sets := sets + [nodes[i]];
      }
    }
  }

  method DecodeStrings(nodes: seq<Node>) returns (strings: seq<string>)
    ensures strings == Strings(nodes)
  {
    strings := [];
    for i := 0 to |nodes|
      invariant Strings(nodes) == strings + Strings(nodes[i..])
    {
      assert nodes[i..][1..] == nodes[i + 1..];
      if nodes[i].Str? {
        strings := strings + [nodes[i].value];
      }
    }
  }

  /** The list is encoded as a whole. */
  method HasEncoding(nodes: seq<Node>) returns (ok: bool)
    ensures ok <==> AllEncode(nodes)
  {
    for i := 0 to |nodes|
      invariant forall k :: 0 <= k < i ==> nodes[k].Encodes()
    {
      if !nodes[i].Encodes() {
        return false;
      }
    }
    return true;
  }
}
