/** What applying a custom rule leaves of a list, line by line: which lines stay, in which order, and
    what a line must read to be kept or taken out. */
module RuleLines {
  import opened Base
  import opened RuleText
  import opened InsertAndErase
  import opened ProxyGroups
  import opened CustomRules

  // ---------------------------------------------------------------------------------------
  // What a line reads
  // ---------------------------------------------------------------------------------------

  /** The line begins with the word, whatever the case of its letters, white space around it and one
      list dash in front of it aside. */
  predicate BeginsWith(line: string, word: string) {
    var text := Trim(line);
    var rest := if |text| >= 2 && text[0] == '-' && text[1] == ' ' then Trim(text[2..]) else text;
    |rest| >= |word| && forall k :: 0 <= k < |word| ==> LowerChar(rest[k]) == LowerChar(word[k])
  }

  lemma BareIs(line: string)
    ensures var text := Trim(line);
            Bare(line) == if |text| >= 2 && text[0] == '-' && text[1] == ' ' then Trim(text[2..]) else text
  {
    var text := Trim(line);
    assert HasPrefix(text, "- ") <==> |text| >= 2 && text[0] == '-' && text[1] == ' ' by {
      if |text| >= 2 && text[0] == '-' && text[1] == ' ' {
        assert text[..2] == "- ";
      }
    }
  }

  /** Upper case equal to a word that is all upper case, letter by letter. */
  lemma UpperBegins(text: string, word: string)
    requires forall k :: 0 <= k < |word| ==> UpperChar(word[k]) == word[k]
    ensures word <= Upper(text) <==> |text| >= |word| && forall k :: 0 <= k < |word| ==> LowerChar(text[k]) == LowerChar(word[k])
  {
    forall k | 0 <= k < |word| && k < |text| ensures UpperChar(text[k]) == word[k] <==> LowerChar(text[k]) == LowerChar(word[k]) {
      CasesAre(text[k]);
      CasesAre(word[k]);
    }
    if |text| >= |word| && forall k :: 0 <= k < |word| ==> LowerChar(text[k]) == LowerChar(word[k]) {
      assert Upper(text)[..|word|] == word;
    }
    if word <= Upper(text) {
      forall k | 0 <= k < |word| ensures LowerChar(text[k]) == LowerChar(word[k]) {
        assert Upper(text)[k] == word[k];
      }
    }
  }

  lemma RuleSetReads(line: string)
    ensures IsRuleSet(line) <==> BeginsWith(line, "rule-set")
  {
    BareIs(line);
    UpperBegins(Bare(line), "RULE-SET");
    assert Lower("RULE-SET") == "rule-set" && Lower("rule-set") == "rule-set";
    SameLetters(Bare(line), "RULE-SET", "rule-set");
  }

  lemma MatchReads(line: string)
    ensures IsMatch(line) <==> BeginsWith(line, "match")
  {
    BareIs(line);
    UpperBegins(Bare(line), "MATCH");
    assert Lower("MATCH") == "match" && Lower("match") == "match";
    SameLetters(Bare(line), "MATCH", "match");
  }

  lemma SameLetters(text: string, a: string, b: string)
    requires Lower(a) == Lower(b)
    ensures |a| == |b| && forall k :: 0 <= k < |a| ==> LowerChar(a[k]) == LowerChar(b[k])
  {
    assert |Lower(a)| == |Lower(b)|;
    forall k | 0 <= k < |a| ensures LowerChar(a[k]) == LowerChar(b[k]) {
      assert Lower(a)[k] == Lower(b)[k];
    }
  }

  /** The key of a line is its text up to the second comma, or all of it. */
  predicate KeyIs(line: string, key: string) {
    && key <= line
    && (forall i, j :: 0 <= i < j < |key| ==> !(key[i] == ',' && key[j] == ','))
    && (key == line || (line[|key|] == ',' && ',' in key))
  }

  lemma {:induction false} AtMostOneComma(s: string)
    ensures CommaCount(s) == 0 <==> ',' !in s
    ensures CommaCount(s) <= 1 <==> forall i, j :: 0 <= i < j < |s| ==> !(s[i] == ',' && s[j] == ',')
  {
    if s != [] {
      var front := s[..|s| - 1];
      AtMostOneComma(front);
      assert s == front + [s[|s| - 1]];
      if s[|s| - 1] == ',' && ',' in front {
        var i :| 0 <= i < |front| && front[i] == ',';
        assert s[i] == ',' && s[|s| - 1] == ',';
      }
      if exists i, j :: 0 <= i < j < |front| && front[i] == ',' && front[j] == ',' {
        var i, j :| 0 <= i < j < |front| && front[i] == ',' && front[j] == ',';
        assert s[i] == ',' && s[j] == ',';
      }
    }
  }

  lemma KeyMeans(line: string, key: string)
    ensures RuleKey(line) == key <==> KeyIs(line, key)
  {
    KeyIsKey(line);
    if KeyIs(line, key) {
      AtMostOneComma(key);
      assert line[..|key|] == key;
      KeyFromEnds(line, 0, |key|);
    }
  }

  lemma KeyIsKey(line: string)
    ensures KeyIs(line, RuleKey(line))
  {
    var i := KeyEnds(line);
    AtMostOneComma(line[..i]);
    KeyFromEnds(line, 0, i);
  }

  lemma {:induction false} KeyEnds(line: string) returns (i: nat)
    ensures i <= |line| && CommaCount(line[..i]) <= 1
    ensures i == |line| || (line[i] == ',' && CommaCount(line[..i]) == 1)
  {
    i := 0;
    while i < |line| && !(line[i] == ',' && CommaCount(line[..i]) == 1)
      invariant i <= |line| && CommaCount(line[..i]) <= 1
    {
      assert line[..i + 1][..i] == line[..i];
      i := i + 1;
    }
  }

  // ---------------------------------------------------------------------------------------
  // Which lines stay
  // ---------------------------------------------------------------------------------------

  /** `out` is the part of the list at the given positions, in order. */
  ghost predicate Selects(list: seq<Node>, at: seq<nat>, out: seq<Node>) {
    && |out| == |at|
    && (forall k :: 0 <= k < |at| ==> at[k] < |list| && out[k] == list[at[k]])
    && (forall k, l :: 0 <= k < l < |at| ==> at[k] < at[l])
  }

  /** The positions from the second on, when the list is taken with its first element. */
  lemma SelectsMore(list: seq<Node>, at: seq<nat>, out: seq<Node>, first: bool) returns (more: seq<nat>)
    requires list != [] && Selects(list[1..], at, out)
    ensures Selects(list, more, if first then [list[0]] + out else out)
    ensures forall i: nat :: i in more <==> (i == 0 && first) || (i > 0 && i - 1 in at)
  {
    var moved := Moved(at);
    MovedSelects(list, at, out);
    MovedHas(at);
    more := moved;
    if first {
      more := [0] + moved;
      FirstToo(list, moved, out);
    }
  }

  lemma FirstToo(list: seq<Node>, at: seq<nat>, out: seq<Node>)
    requires list != [] && Selects(list, at, out) && 0 !in at
    ensures Selects(list, [0] + at, [list[0]] + out)
  {
    var longer, taken := [0] + at, [list[0]] + out;
    forall k | 0 <= k < |longer| ensures longer[k] < |list| && taken[k] == list[longer[k]] {
      if k > 0 {
        assert longer[k] == at[k - 1] && taken[k] == out[k - 1];
      }
    }
    forall k, l | 0 <= k < l < |longer| ensures longer[k] < longer[l] {
      assert longer[l] == at[l - 1] && at[l - 1] in at;
      if k > 0 {
        assert longer[k] == at[k - 1];
      }
    }
  }

  /** The same positions one further on. */
  function Moved(at: seq<nat>): seq<nat> {
    seq(|at|, k requires 0 <= k < |at| => at[k] + 1)
  }

  lemma MovedSelects(list: seq<Node>, at: seq<nat>, out: seq<Node>)
    requires list != [] && Selects(list[1..], at, out)
    ensures Selects(list, Moved(at), out)
  {
  }

  lemma MovedHas(at: seq<nat>)
    ensures forall i: nat :: i in Moved(at) <==> i > 0 && i - 1 in at
  {
    forall i: nat ensures i in Moved(at) <==> i > 0 && i - 1 in at {
      if i > 0 && i - 1 in at {
        var k :| 0 <= k < |at| && at[k] == i - 1;
        assert Moved(at)[k] == i;
      }
      if i in Moved(at) {
        var k :| 0 <= k < |at| && Moved(at)[k] == i;
        assert at[k] in at;
      }
    }
  }

  lemma {:induction false} KeptPositions(list: seq<Node>, keep: Node -> bool) returns (at: seq<nat>)
    ensures Selects(list, at, InsertAndErase.Kept(list, keep))
    ensures forall i: nat :: i in at <==> i < |list| && keep(list[i])
  {
    at := [];
    if list != [] {
      var rest := KeptPositions(list[1..], keep);
      at := SelectsMore(list, rest, InsertAndErase.Kept(list[1..], keep), keep(list[0]));
      forall i: nat ensures i in at <==> i < |list| && keep(list[i]) {
        if 0 < i < |list| {
          assert list[1..][i - 1] == list[i];
        }
      }
    }
  }

  lemma {:induction false} RuleSetPositions(list: seq<Node>) returns (at: seq<nat>)
    ensures Selects(list, at, RuleSets(list))
    ensures forall i: nat :: i in at <==>
              i < |list| && (list[i].Str? || list[i].Scalar?) && BeginsWith(list[i].value, "rule-set")
  {
    at := [];
    if list != [] {
      var rest := RuleSetPositions(list[1..]);
      at := SelectsMore(list, rest, RuleSets(list[1..]), NamesRuleSet(list[0]));
      if list[0].IsScalar() {
        RuleSetReads(list[0].value);
      }
      forall i: nat
        ensures i in at <==> i < |list| && (list[i].Str? || list[i].Scalar?) && BeginsWith(list[i].value, "rule-set")
      {
        if 0 < i < |list| {
          assert list[1..][i - 1] == list[i];
        }
      }
    }
  }

  /** Two lines with the same key, letter case aside. */
  ghost predicate SameKey(a: string, b: string) {
    exists k, l :: KeyIs(a, k) && KeyIs(b, l) && Lower(k) == Lower(l)
  }

  lemma SameKeyMeans(a: string, b: string)
    ensures SameKey(a, b) <==> Lower(RuleKey(a)) == Lower(RuleKey(b))
  {
    KeyIsKey(a);
    KeyIsKey(b);
    if SameKey(a, b) {
      var k, l :| KeyIs(a, k) && KeyIs(b, l) && Lower(k) == Lower(l);
      KeyMeans(a, k);
      KeyMeans(b, l);
    }
  }

  /** A line that an inserted one replaces: not a rule set, and with the same key, or one final MATCH
      line for another. */
  ghost predicate Repeats(node: Node, inserted: seq<Node>) {
    && (node.Str? || node.Scalar?) && !BeginsWith(node.value, "rule-set")
    && exists i :: 0 <= i < |inserted| && (inserted[i].Str? || inserted[i].Scalar?)
         && (SameKey(node.value, inserted[i].value)
             || (BeginsWith(node.value, "match") && BeginsWith(inserted[i].value, "match")))
  }

  lemma {:induction false} KeysMean(nodes: seq<Node>, key: string)
    ensures key in Keys(nodes) <==> exists i :: 0 <= i < |nodes| && nodes[i].IsScalar() && Lower(RuleKey(nodes[i].value)) == key
  {
    if nodes != [] {
      var front := nodes[..|nodes| - 1];
      KeysMean(front, key);
      if exists i :: 0 <= i < |front| && front[i].IsScalar() && Lower(RuleKey(front[i].value)) == key {
        var i :| 0 <= i < |front| && front[i].IsScalar() && Lower(RuleKey(front[i].value)) == key;
        assert nodes[i] == front[i];
      }
    }
  }

  lemma RepeatsMeans(node: Node, inserted: seq<Node>)
    ensures Duplicates(node, inserted) <==> Repeats(node, inserted)
  {
    if node.IsScalar() {
      RuleSetReads(node.value);
      MatchReads(node.value);
      KeysMean(inserted, Lower(RuleKey(node.value)));
      forall i | 0 <= i < |inserted| && inserted[i].IsScalar()
        ensures IsMatch(inserted[i].value) <==> BeginsWith(inserted[i].value, "match")
        ensures SameKey(node.value, inserted[i].value) <==> Lower(RuleKey(inserted[i].value)) == Lower(RuleKey(node.value))
      {
        MatchReads(inserted[i].value);
        SameKeyMeans(node.value, inserted[i].value);
      }
    }
  }

  // ---------------------------------------------------------------------------------------
  // Applying a rule
  // ---------------------------------------------------------------------------------------

  /** The rule was applied to the file with its present content. */
  predicate OnRecord(history: History, rule: CustomRule) {
    rule.id in history && history[rule.id].hash == rule.hash
  }

  /** A replacement that is not on record leaves its own lines, followed by exactly the rule set lines
      of the list that was there, in their order. */
  lemma ReplacementMeans(list: Option<seq<Node>>, history: History, rule: CustomRule) returns (at: seq<nat>)
    requires rule.mode == Replace && rule.content.RuleList? && !OnRecord(history, rule)
    ensures var was, r, n := if list.Some? then list.value else [], AfterRule(list, history, rule), |rule.content.nodes|;
            && r.Some? && |r.value| >= n && r.value[..n] == rule.content.nodes && Selects(was, at, r.value[n..])
            && (forall i: nat :: i in at <==>
                  i < |was| && (was[i].Str? || was[i].Scalar?) && BeginsWith(was[i].value, "rule-set"))
  {
    at := RuleSetPositions(if list.Some? then list.value else []);
  }

  /** What was recorded of the rule's last application to the file. */
  ghost predicate TakesBack(history: History, rule: CustomRule, node: Node) {
    rule.id in history && node.Str? && node.value in history[rule.id].strings
  }

  /** A prepended rule: its own lines, then what was there but the recorded lines and those that its
      own lines repeat. */
  lemma PrependMeans(list: seq<Node>, history: History, rule: CustomRule) returns (at: seq<nat>)
    requires rule.mode == Prepend && rule.content.RuleList?
    ensures var nodes, r := rule.content.nodes, AfterRule(Some(list), history, rule);
            && r.Some? && |r.value| >= |nodes| && r.value[..|nodes|] == nodes && Selects(list, at, r.value[|nodes|..])
            && (forall i: nat :: i in at <==>
                  i < |list| && !TakesBack(history, rule, list[i]) && !Repeats(list[i], nodes))
  {
    var nodes, r := rule.content.nodes, AfterRule(Some(list), history, rule);
    var forgets, fresh' := NotApplied(Recorded(history, rule)), NotDuplicate(nodes);
    var both := (n: Node) => forgets(n) && fresh'(n);
    KeptTwice(list, forgets, fresh', both);
    at := KeptPositions(list, both);
    forall i: nat | i < |list| ensures both(list[i]) <==> !TakesBack(history, rule, list[i]) && !Repeats(list[i], nodes) {
      RepeatsMeans(list[i], nodes);
    }
  }

  /** An appended rule: what was there but the recorded lines, then its own lines. */
  lemma AppendMeans(list: seq<Node>, history: History, rule: CustomRule) returns (at: seq<nat>)
    requires rule.mode == Append && rule.content.RuleList?
    ensures var nodes, r := rule.content.nodes, AfterRule(Some(list), history, rule);
            && r.Some? && |r.value| == |at| + |nodes| && r.value[|at|..] == nodes && Selects(list, at, r.value[..|at|])
            && (forall i: nat :: i in at <==> i < |list| && !TakesBack(history, rule, list[i]))
  {
    at := KeptPositions(list, NotApplied(Recorded(history, rule)));
  }

  /** Where there is no list, a list is put in as it is. */
  lemma NewListMeans(history: History, rule: CustomRule)
    requires rule.content.RuleList? && rule.mode in {Prepend, Append}
    ensures AfterRule(None, history, rule) == Some(rule.content.nodes)
  {
  }

  /** Nothing happens to the list when the content cannot be used, when a replacement is on record, or
      in a mode that is none of the three. */
  lemma IdleRules(list: Option<seq<Node>>, history: History, rule: CustomRule)
    ensures rule.content.NoRules? || rule.mode.OtherMode? || (rule.mode == Replace && OnRecord(history, rule)) ==>
              AfterRule(list, history, rule) == list
  {
  }

  lemma {:induction false} StringsMean(nodes: seq<Node>, text: string)
    ensures text in Strings(nodes) <==> exists i :: 0 <= i < |nodes| && nodes[i] == Str(text)
  {
    if nodes != [] {
      StringsMean(nodes[1..], text);
      if exists i :: 0 <= i < |nodes| && nodes[i] == Str(text) {
        var i :| 0 <= i < |nodes| && nodes[i] == Str(text);
        if i > 0 {
          assert nodes[1..][i - 1] == Str(text);
        }
      }
      if exists i :: 0 <= i < |nodes[1..]| && nodes[1..][i] == Str(text) {
        var i :| 0 <= i < |nodes[1..]| && nodes[1..][i] == Str(text);
        assert nodes[i + 1] == Str(text);
      }
    }
  }

  /** After a sync the rule is on record with its content: its strings, or none when some node of it
      has no JSON form; all other records are as they were. */
  lemma RecordMeans(records: History, history: History, rule: CustomRule, text: string, other: int)
    requires !rule.content.NoRules? && !(rule.mode == Replace && OnRecord(history, rule))
    ensures var after, nodes := AfterRecord(records, history, rule), rule.content.nodes;
            && OnRecord(after, rule)
            && (text in after[rule.id].strings <==>
                  && (exists i :: 0 <= i < |nodes| && nodes[i] == Str(text))
                  && (forall i :: 0 <= i < |nodes| ==> nodes[i].Str? || nodes[i].encodes))
            && (other != rule.id ==> (other in after <==> other in records)
                                     && (other in records ==> after[other] == records[other]))
  {
    StringsMean(rule.content.nodes, text);
    var nodes := rule.content.nodes;
    assert AllEncode(nodes) <==> forall i :: 0 <= i < |nodes| ==> nodes[i].Str? || nodes[i].encodes by {
      if forall i :: 0 <= i < |nodes| ==> nodes[i].Str? || nodes[i].encodes {
        forall i | 0 <= i < |nodes| ensures nodes[i].Encodes() {}
      }
    }
  }

  // ---------------------------------------------------------------------------------------
  // Policies and groups
  // ---------------------------------------------------------------------------------------

  function Joined(fields: seq<string>): string
    requires fields != []
  {
    if |fields| == 1 then fields[0] else fields[0] + "," + Joined(fields[1..])
  }

  /** The fields are the text between the commas. */
  predicate Separates(line: string, fields: seq<string>) {
    fields != [] && Joined(fields) == line && forall i :: 0 <= i < |fields| ==> ',' !in fields[i]
  }

  lemma {:induction false} FieldsSeparate(line: string)
    ensures Separates(line, Fields(line))
  {
    if line != [] {
      var rest := Fields(line[1..]);
      FieldsSeparate(line[1..]);
      var fields := Fields(line);
      if line[0] == ',' {
        assert fields[1..] == rest && fields[0] == "";
        assert Joined(fields) == "" + "," + line[1..];
      } else {
        assert fields[1..] == rest[1..] && fields[0] == [line[0]] + rest[0];
        if |rest| > 1 {
          assert Joined(fields) == [line[0]] + (rest[0] + "," + Joined(rest[1..]));
        }
        forall i | 0 <= i < |fields| ensures ',' !in fields[i] {
          assert i > 0 ==> fields[i] == rest[i];
        }
      }
    }
  }

  lemma JoinedFromFirst(fields: seq<string>)
    requires |fields| > 1
    ensures Joined(fields) == fields[0] + [','] + Joined(fields[1..])
  {
  }

  lemma {:induction false} CommasOfJoined(fields: seq<string>)
    requires fields != [] && forall i :: 0 <= i < |fields| ==> ',' !in fields[i]
    ensures CommaCount(Joined(fields)) == |fields| - 1
  {
    AtMostOneComma(fields[0]);
    if |fields| > 1 {
      JoinedFromFirst(fields);
      CommaCountConcat(fields[0] + [','], Joined(fields[1..]));
      CommaCountConcat(fields[0], [',']);
      assert [','][..0] == [];
      assert CommaCount([',']) == 1;
      CommasOfJoined(fields[1..]);
    }
  }

  lemma {:induction false} SeparatesOnce(line: string, a: seq<string>, b: seq<string>)
    requires Separates(line, a) && Separates(line, b)
    ensures a == b
    decreases |a|
  {
    CommasOfJoined(a);
    CommasOfJoined(b);
    if |a| > 1 {
      JoinedFromFirst(a);
      JoinedFromFirst(b);
      FirstPart(',', a[0], Joined(a[1..]), b[0], Joined(b[1..]));
      SeparatesOnce(Joined(a[1..]), a[1..], b[1..]);
      assert a == [a[0]] + a[1..] && b == [b[0]] + b[1..];
    }
  }

  /** The policy of a line is its last field, or the one before when the last of at least four is
      "no-resolve"; a line of one field has none, and neither has one whose policy is built in. */
  lemma PolicyMeans(line: string, fields: seq<string>, name: string)
    requires Separates(line, fields)
    ensures Policy(line) == Some(name) <==>
              && |fields| >= 2 && name !in {"DIRECT", "REJECT", "PROXY", ""}
              && name == Trim(fields[if |fields| >= 4 && Trim(fields[|fields| - 1]) == "no-resolve" then |fields| - 2
                                     else |fields| - 1])
  {
    FieldsSeparate(line);
    SeparatesOnce(line, fields, Fields(line));
  }

  /** The groups that are added come after the old ones, each once for a policy that some line names and no
      old group has, with the selector and the direct connection as its members, the direct one first
      for domestic services. */
  lemma AddedGroupsMean(rules: seq<Node>, before: seq<Group>, after: Option<seq<Group>>, added: seq<string>, i: nat)
    requires AddsMissing(Some(rules), Some(before), after, added) && after.Some? && |before| <= i < |after.value|
    ensures after.value[i].Named? && after.value[i].rest == "type: select"
    ensures var g := after.value[i];
            && g.proxies == (if g.name == "🔒 国内服务" then ["DIRECT", "🚀 节点选择"] else ["🚀 节点选择", "DIRECT"])
            && (exists k :: 0 <= k < |rules| && (rules[k].Str? || rules[k].Scalar?) && Policy(rules[k].value) == Some(g.name))
            && (forall k :: 0 <= k < |before| && before[k].Named? ==> before[k].name != g.name)
            && forall k :: |before| <= k < |after.value| && k != i ==> after.value[k].Named? && after.value[k].name != g.name
  {
    var name := added[i - |before|];
    assert name in added && after.value[i] == NewGroup(name);
    assert Referred(rules, name) && !Exists(before, name);
    forall k | |before| <= k < |after.value| && k != i ensures after.value[k].Named? && after.value[k].name != name {
      assert after.value[k] == NewGroup(added[k - |before|]);
    }
  }
}
