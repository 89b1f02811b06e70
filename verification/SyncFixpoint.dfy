/** Syncing custom rules again and again: from the second time on nothing changes, nothing
    accumulates, and an edit leaves no trace of what it replaces. */
module SyncFixpoint {
  import opened Base
  import opened RuleText
  import opened InsertAndErase
  import opened ProxyGroups
  import opened CustomRules

  predicate Inserts(rule: CustomRule) {
    !rule.content.NoRules? && rule.mode in {Prepend, Append}
  }

  function Retains(strings: seq<string>, rule: CustomRule): Node -> bool {
    (n: Node) => NotApplied(strings)(n) && (rule.mode.Prepend? ==> NotDuplicate(rule.Inserted())(n))
  }

  /** A rule of the inserting modes as a step of the algebra. */
  function StepOf(rule: CustomRule, history: History): Step<Node> {
    Step(rule.mode.Prepend?, rule.Inserted(), Retains(Recorded(history, rule), rule))
  }

  function Steps(rules: seq<CustomRule>, history: History): seq<Step<Node>> {
    if rules == [] then []
    else
      var rule := rules[|rules| - 1];
      Steps(rules[..|rules| - 1], history) + if Inserts(rule) then [StepOf(rule, history)] else []
  }

  /** Each rule's application with its present content is on record. */
  predicate Remembers(history: History, rule: CustomRule) {
    !rule.content.NoRules? ==>
      && rule.id in history && history[rule.id].hash == rule.hash
      && (!rule.mode.Replace? ==> history[rule.id].strings == RecordOf(rule.content.nodes))
  }

  predicate RemembersAll(history: History, rules: seq<CustomRule>) {
    forall i :: 0 <= i < |rules| ==> Remembers(history, rules[i])
  }

  predicate DistinctIds(rules: seq<CustomRule>) {
    forall i, j :: 0 <= i < j < |rules| ==> rules[i].id != rules[j].id
  }

  /** A line of the rule that the next sync takes out again: a string, by the record of the rule if
      there is one, or, when it is put in front, any scalar but a rule set, as a duplicate of
      itself. */
  predicate Erasable(node: Node, rule: CustomRule) {
    (node.Str? && AllEncode(rule.Inserted())) || (rule.mode.Prepend? && node.IsScalar() && !IsRuleSet(node.value))
  }

  predicate AllErasable(rules: seq<CustomRule>) {
    forall i, k :: 0 <= i < |rules| && Inserts(rules[i]) && 0 <= k < |rules[i].Inserted()| ==>
      Erasable(rules[i].Inserted()[k], rules[i])
  }

  // ---------------------------------------------------------------------------------------
  // A sync is a pass
  // ---------------------------------------------------------------------------------------

  lemma {:induction false} KeptAlike(list: seq<Node>, p: Node -> bool, q: Node -> bool)
    requires forall n :: p(n) <==> q(n)
    ensures Kept(list, p) == Kept(list, q)
  {
    if list != [] {
      KeptAlike(list[1..], p, q);
    }
  }

  lemma InsertingIsApply(list: seq<Node>, history: History, rule: CustomRule)
    requires Inserts(rule)
    ensures AfterRule(Some(list), history, rule) == Some(Apply(list, StepOf(rule, history)))
  {
    var forgets := NotApplied(Recorded(history, rule));
    var both := Retains(Recorded(history, rule), rule);
    if rule.mode.Prepend? {
      KeptTwice(list, forgets, NotDuplicate(rule.Inserted()), both);
    } else {
      KeptAlike(list, forgets, both);
    }
  }

  lemma {:induction false} PassConcat(list: seq<Node>, a: seq<Step<Node>>, b: seq<Step<Node>>)
    ensures Pass(list, a + b) == Pass(Pass(list, a), b)
    decreases |a|
  {
    if a == [] {
      assert a + b == b;
    } else {
      assert (a + b)[1..] == a[1..] + b;
      PassConcat(Apply(list, a[0]), a[1..], b);
    }
  }

  /** With every replacing rule on record, a sync of a list is a pass of insertions. */
  lemma {:induction false} SyncIsPass(list: seq<Node>, history: History, rules: seq<CustomRule>)
    requires forall i :: 0 <= i < |rules| && rules[i].mode.Replace? ==> Remembers(history, rules[i])
    ensures Synced(Some(list), history, rules) == Some(Pass(list, Steps(rules, history)))
  {
    if rules != [] {
      var front, rule := rules[..|rules| - 1], rules[|rules| - 1];
      SyncIsPass(list, history, front);
      var before := Pass(list, Steps(front, history));
      if Inserts(rule) {
        InsertingIsApply(before, history, rule);
        PassConcat(list, Steps(front, history), [StepOf(rule, history)]);
      } else {
        assert Steps(front, history) + [] == Steps(front, history);
      }
    }
  }

  lemma {:induction false} StepsAreRules(rules: seq<CustomRule>, history: History, i: nat) returns (k: nat)
    requires i < |Steps(rules, history)|
    ensures k < |rules| && Inserts(rules[k]) && Steps(rules, history)[i] == StepOf(rules[k], history)
  {
    var front := rules[..|rules| - 1];
    if i < |Steps(front, history)| {
      k := StepsAreRules(front, history, i);
    } else {
      k := |rules| - 1;
    }
  }

  lemma {:induction false} RulesAreSteps(rules: seq<CustomRule>, history: History, k: nat) returns (i: nat)
    requires k < |rules| && Inserts(rules[k])
    ensures i < |Steps(rules, history)| && Steps(rules, history)[i] == StepOf(rules[k], history)
  {
    var front := rules[..|rules| - 1];
    if k < |front| {
      i := RulesAreSteps(front, history, k);
    } else {
      i := |Steps(front, history)|;
    }
  }

  // ---------------------------------------------------------------------------------------
  // Records
  // ---------------------------------------------------------------------------------------

  lemma {:induction false} RecordsElsewhere(history: History, rules: seq<CustomRule>, id: int)
    requires forall i :: 0 <= i < |rules| ==> rules[i].id != id
    ensures id in Records(history, rules) <==> id in history
    ensures id in history ==> Records(history, rules)[id] == history[id]
  {
    if rules != [] {
      RecordsElsewhere(history, rules[..|rules| - 1], id);
    }
  }

  /** After a sync every rule is on record with its content. */
  lemma {:induction false} SyncRemembers(history: History, rules: seq<CustomRule>)
    requires DistinctIds(rules)
    ensures RemembersAll(Records(history, rules), rules)
  {
    if rules != [] {
      var front, rule := rules[..|rules| - 1], rules[|rules| - 1];
      SyncRemembers(history, front);
      RecordsElsewhere(history, front, rule.id);
      forall i | 0 <= i < |rules| ensures Remembers(Records(history, rules), rules[i]) {
        assert i < |front| ==> rules[i] == front[i] && Remembers(Records(history, front), front[i]);
      }
    }
  }

  lemma {:induction false} RecordsStay(history: History, rules: seq<CustomRule>)
    requires RemembersAll(history, rules)
    ensures Records(history, rules) == history
  {
    if rules != [] {
      var front, rule := rules[..|rules| - 1], rules[|rules| - 1];
      assert forall i :: 0 <= i < |front| ==> front[i] == rules[i];
      RecordsStay(history, front);
      assert Remembers(history, rule);
      if Takes(history, rule) {
        assert history[rule.id := Applied(RecordOf(rule.content.nodes), rule.hash)] == history;
      }
    }
  }

  // ---------------------------------------------------------------------------------------
  // The fixpoint
  // ---------------------------------------------------------------------------------------

  lemma {:induction false} KeysHold(nodes: seq<Node>, i: nat)
    requires i < |nodes| && nodes[i].IsScalar()
    ensures Lower(RuleKey(nodes[i].value)) in Keys(nodes)
  {
    if i < |nodes| - 1 {
      KeysHold(nodes[..|nodes| - 1], i);
    }
  }

  lemma ErasableIsErased(history: History, rule: CustomRule, k: nat)
    requires Inserts(rule) && Remembers(history, rule) && k < |rule.Inserted()|
    requires Erasable(rule.Inserted()[k], rule)
    ensures !Retains(Recorded(history, rule), rule)(rule.Inserted()[k])
  {
    var node := rule.Inserted()[k];
    if node.Str? && AllEncode(rule.Inserted()) {
      assert Recorded(history, rule) == Strings(rule.content.nodes);
      StringsHold(rule.content.nodes, k);
      assert !NotApplied(Recorded(history, rule))(node);
    } else {
      KeysHold(rule.Inserted(), k);
      assert Duplicates(node, rule.Inserted());
      assert !NotDuplicate(rule.Inserted())(node);
    }
  }

  lemma RulesErase(history: History, rules: seq<CustomRule>)
    requires RemembersAll(history, rules) && AllErasable(rules)
    ensures Erases(Steps(rules, history), Steps(rules, history))
  {
    var steps := Steps(rules, history);
    forall i, k | 0 <= i < |steps| && 0 <= k < |steps[i].insert| ensures !steps[i].keep(steps[i].insert[k]) {
      var r := StepsAreRules(rules, history, i);
      assert Remembers(history, rules[r]);
      ErasableIsErased(history, rules[r], k);
    }
    OwnErasureSuffices(steps);
  }

  /** Some rule puts a list where there is none. */
  predicate Starts(rules: seq<CustomRule>) {
    exists i :: 0 <= i < |rules| && Inserts(rules[i]) && rules[i].content.RuleList?
  }

  /** Without a list to begin with, a sync starts from an empty one as soon as some rule has one. */
  lemma {:induction false} SyncFromNothing(history: History, rules: seq<CustomRule>)
    requires forall i :: 0 <= i < |rules| && rules[i].mode.Replace? ==> Remembers(history, rules[i])
    ensures Synced(None, history, rules) == if Starts(rules) then Some(Pass([], Steps(rules, history))) else None
  {
    if rules != [] {
      var front, rule := rules[..|rules| - 1], rules[|rules| - 1];
      SyncFromNothing(history, front);
      assert Starts(rules) <==> Starts(front) || (Inserts(rule) && rule.content.RuleList?) by {
        if Starts(front) {
          var i :| 0 <= i < |front| && Inserts(front[i]) && front[i].content.RuleList?;
          assert rules[i] == front[i];
        }
      }
      if Inserts(rule) {
        PassConcat([], Steps(front, history), [StepOf(rule, history)]);
        if Starts(front) {
          InsertingIsApply(Pass([], Steps(front, history)), history, rule);
        } else {
          NoStartIsEmpty(front, history);
          assert Apply([], StepOf(rule, history)) == rule.Inserted();
        }
      } else {
        assert Steps(front, history) + [] == Steps(front, history);
      }
    }
  }

  /** Rules without a list leave an empty list empty. */
  lemma {:induction false} NoStartIsEmpty(rules: seq<CustomRule>, history: History)
    requires !Starts(rules)
    ensures Pass([], Steps(rules, history)) == []
  {
    if rules != [] {
      var front, rule := rules[..|rules| - 1], rules[|rules| - 1];
      assert !Starts(front) by {
        forall i | 0 <= i < |front| ensures !(Inserts(front[i]) && front[i].content.RuleList?) { assert rules[i] == front[i]; }
      }
      NoStartIsEmpty(front, history);
      if Inserts(rule) {
        PassConcat([], Steps(front, history), [StepOf(rule, history)]);
        assert Apply([], StepOf(rule, history)) == [];
      } else {
        assert Steps(front, history) + [] == Steps(front, history);
      }
    }
  }

  /** The second sync and the third give the same list, on any list and any recorded history. */
  lemma SecondSyncIsFinal(list: Option<seq<Node>>, history: History, rules: seq<CustomRule>)
    requires DistinctIds(rules) && AllErasable(rules)
    ensures var first, records := Synced(list, history, rules), Records(history, rules);
            && Records(records, rules) == records
            && Synced(Synced(first, records, rules), records, rules) == Synced(first, records, rules)
  {
    var first, records := Synced(list, history, rules), Records(history, rules);
    SyncRemembers(history, rules);
    RecordsStay(records, rules);
    RulesErase(records, rules);
    var steps := Steps(rules, records);
    var start := if first.Some? then first.value else [];
    SyncIsPass(start, records, rules);
    SyncIsPass(Pass(start, steps), records, rules);
    SyncFromNothing(records, rules);
    StableIff(start, steps);
  }

  /** Exactly when a recorded rule set is stable: syncing twice gives what syncing once gives if
      and only if every inserted node is taken out again by one of the rules; otherwise the list
      grows with every sync. */
  lemma StableSyncIff(list: seq<Node>, history: History, rules: seq<CustomRule>)
    requires RemembersAll(history, rules)
    ensures var once := Synced(Some(list), history, rules);
            var twice := Synced(once, history, rules);
            && once.Some? && twice.Some?
            && (twice == once <==> Erases(Steps(rules, history), Steps(rules, history)))
            && (twice != once ==> |twice.value| > |once.value|)
  {
    SyncIsPass(list, history, rules);
    SyncIsPass(Pass(list, Steps(rules, history)), history, rules);
    StableIff(list, Steps(rules, history));
  }

  /** A rule set line is never taken back when its list has a node without a JSON form, for then
      nothing is recorded: every further sync puts in another copy. */
  lemma UnencodableRuleSetGrows(list: seq<Node>, history: History, rule: CustomRule, k: nat)
    requires Remembers(history, rule) && rule.mode.Prepend? && rule.content.RuleList?
    requires k < |rule.Inserted()| && NamesRuleSet(rule.Inserted()[k]) && !AllEncode(rule.Inserted())
    ensures var once := Synced(Some(list), history, [rule]);
            var twice := Synced(once, history, [rule]);
            once.Some? && twice.Some? && |twice.value| > |once.value|
  {
    var steps, node := Steps([rule], history), rule.Inserted()[k];
    var j := RulesAreSteps([rule], history, 0);
    assert rule.Inserted() == rule.content.nodes && Recorded(history, rule) == [];
    assert NotApplied([])(node) && NotDuplicate(rule.Inserted())(node);
    assert steps[j].insert[k] == node && steps[j].keep(node);
    forall i | 0 <= i < |steps| ensures steps[i].keep(node) {
      var r := StepsAreRules([rule], history, i);
    }
    StableSyncIff(list, history, [rule]);
  }

  // ---------------------------------------------------------------------------------------
  // Whole files
  // ---------------------------------------------------------------------------------------

  datatype File = File(rules: Option<seq<Node>>, groups: Option<seq<Group>>, records: History)

  /** What one run of Document.Sync may make of a file; the order of added groups is open. */
  ghost predicate SyncStep(before: File, after: File, rules: seq<CustomRule>) {
    && after.rules == Synced(before.rules, before.records, rules)
    && after.records == Records(before.records, rules)
    && if rules == [] then after.groups == before.groups
       else exists added :: AddsMissing(after.rules, before.groups, after.groups, added)
  }

  lemma ThirdFileIsSecond(f0: File, f1: File, f2: File, f3: File, rules: seq<CustomRule>)
    requires DistinctIds(rules) && AllErasable(rules)
    requires SyncStep(f0, f1, rules) && SyncStep(f1, f2, rules) && SyncStep(f2, f3, rules)
    ensures f3 == f2
  {
    SecondSyncIsFinal(f0.rules, f0.records, rules);
    if rules != [] && f2.rules.Some? && f1.groups.Some? {
      var added :| AddsMissing(f2.rules, f1.groups, f2.groups, added);
      GroupsAreClosed(f2.rules.value, f1.groups.value, f2.groups, added);
    }
  }

  /** Any number of syncs of unedited rules: from the second on, rules, groups and records stay
      exactly as they are. */
  lemma {:induction false} RepeatedSyncIsStable(files: seq<File>, rules: seq<CustomRule>, n: nat)
    requires DistinctIds(rules) && AllErasable(rules) && 2 <= n < |files|
    requires forall i :: 0 <= i < |files| - 1 ==> SyncStep(files[i], files[i + 1], rules)
    ensures files[n] == files[2]
  {
    if n > 2 {
      RepeatedSyncIsStable(files, rules, n - 1);
      ThirdFileIsSecond(files[n - 3], files[n - 2], files[n - 1], files[n], rules);
    }
  }

  // ---------------------------------------------------------------------------------------
  // Edits
  // ---------------------------------------------------------------------------------------

  /** The same rules, each with new content. */
  predicate Edited(rules: seq<CustomRule>, edited: seq<CustomRule>) {
    |edited| == |rules| && forall i :: 0 <= i < |rules| ==>
      edited[i].id == rules[i].id && Inserts(edited[i]) && Inserts(rules[i])
  }

  predicate AllStrings(rules: seq<CustomRule>) {
    forall i, k :: 0 <= i < |rules| && 0 <= k < |rules[i].Inserted()| ==> rules[i].Inserted()[k].Str?
  }

  lemma StringsEncode(rules: seq<CustomRule>, r: nat)
    requires AllStrings(rules) && r < |rules|
    ensures AllEncode(rules[r].Inserted())
  {
  }

  lemma EditRefuses(history: History, rules: seq<CustomRule>, edited: seq<CustomRule>, r: nat, k: nat)
    requires RemembersAll(history, rules) && Edited(rules, edited) && AllStrings(rules)
    requires r < |rules| && k < |rules[r].Inserted()|
    ensures !KeptByAll(rules[r].Inserted()[k], Steps(edited, history))
  {
    var node := rules[r].Inserted()[k];
    assert Remembers(history, rules[r]) && edited[r].id == rules[r].id;
    StringsHold(rules[r].content.nodes, k);
    StringsEncode(rules, r);
    assert !NotApplied(Recorded(history, edited[r]))(node);
    var j := RulesAreSteps(edited, history, r);
    assert !Steps(edited, history)[j].keep(node);
  }

  lemma EditsErase(history: History, rules: seq<CustomRule>, edited: seq<CustomRule>)
    requires RemembersAll(history, rules) && Edited(rules, edited) && AllStrings(rules)
    ensures Erases(Steps(edited, history), Steps(rules, history))
  {
    var steps, later := Steps(rules, history), Steps(edited, history);
    forall i, k | 0 <= i < |steps| && 0 <= k < |steps[i].insert| ensures !KeptByAll(steps[i].insert[k], later) {
      var r := StepsAreRules(rules, history, i);
      EditRefuses(history, rules, edited, r, k);
    }
  }

  /** After an edit the next sync gives the new contents around what both the old and the new
      rules keep of the original list: no line of the old contents stays behind. */
  lemma EditsLeaveNoTrace(list: seq<Node>, history: History, rules: seq<CustomRule>, edited: seq<CustomRule>)
    requires RemembersAll(history, rules) && Edited(rules, edited) && AllStrings(rules)
    ensures var before, after := Steps(rules, history), Steps(edited, history);
            Synced(Synced(Some(list), history, rules), history, edited)
            == Some(Front(after) + Survivors(Survivors(list, before), after) + Back(after))
  {
    SyncIsPass(list, history, rules);
    SyncIsPass(Pass(list, Steps(rules, history)), history, edited);
    EditsErase(history, rules, edited);
    LaterPassReplaces(list, Steps(rules, history), Steps(edited, history));
  }

  // ---------------------------------------------------------------------------------------
  // The first sync
  // ---------------------------------------------------------------------------------------

  /** A replacing rule whose present content is not on record: it throws away what came before. */
  predicate Resets(history: History, rule: CustomRule) {
    rule.mode.Replace? && Takes(history, rule)
  }

  /** The rules after the last one that resets. */
  function Tail(history: History, rules: seq<CustomRule>): seq<CustomRule> {
    if rules == [] || Resets(history, rules[|rules| - 1]) then []
    else Tail(history, rules[..|rules| - 1]) + [rules[|rules| - 1]]
  }

  /** What the tail starts from: the file's list, or what the last reset puts in its place. */
  function StartList(list: Option<seq<Node>>, history: History, rules: seq<CustomRule>): Option<seq<Node>> {
    if rules == [] then list
    else
      var front, rule := rules[..|rules| - 1], rules[|rules| - 1];
      if Resets(history, rule) then AfterRule(Synced(list, history, front), history, rule)
      else StartList(list, history, front)
  }

  lemma {:induction false} SyncFromStart(list: Option<seq<Node>>, history: History, rules: seq<CustomRule>)
    ensures Synced(list, history, rules) == Synced(StartList(list, history, rules), history, Tail(history, rules))
    ensures forall i :: 0 <= i < |Tail(history, rules)| ==> !Resets(history, Tail(history, rules)[i])
  {
    if rules != [] && !Resets(history, rules[|rules| - 1]) {
      var front, rule := rules[..|rules| - 1], rules[|rules| - 1];
      SyncFromStart(list, history, front);
      assert (Tail(history, front) + [rule])[..|Tail(history, front)|] == Tail(history, front);
    }
  }

  lemma {:induction false} TailIsOfRules(history: History, rules: seq<CustomRule>, i: nat) returns (k: nat)
    requires i < |Tail(history, rules)|
    ensures k < |rules| && rules[k] == Tail(history, rules)[i]
  {
    if i == |Tail(history, rules)| - 1 {
      k := |rules| - 1;
    } else {
      k := TailIsOfRules(history, rules[..|rules| - 1], i);
    }
  }

  /** The recorded rules take out whatever the tail of the first sync inserted. */
  lemma RecordedErasesTail(history: History, records: History, rules: seq<CustomRule>)
    requires RemembersAll(records, rules) && AllErasable(rules)
    ensures Erases(Steps(rules, records), Steps(Tail(history, rules), history))
  {
    var tail, later := Tail(history, rules), Steps(rules, records);
    var steps := Steps(tail, history);
    forall i, k | 0 <= i < |steps| && 0 <= k < |steps[i].insert| ensures !KeptByAll(steps[i].insert[k], later) {
      var t := StepsAreRules(tail, history, i);
      var r := TailIsOfRules(history, rules, t);
      var j := RulesAreSteps(rules, records, r);
      assert Remembers(records, rules[r]);
      ErasableIsErased(records, rules[r], k);
      assert !later[j].keep(steps[i].insert[k]);
    }
  }

  /** The first sync of any rules, from any file and any records, leaves the insertions of the tail
      around what the tail keeps of its start. It is final if and only if this equals what the
      recorded rules would put around what they, too, keep of the start; or, when it leaves no list,
      if and only if no rule would start one. */
  lemma FirstSyncIsFinalIff(list: Option<seq<Node>>, history: History, rules: seq<CustomRule>)
    requires DistinctIds(rules) && AllErasable(rules)
    ensures var first, records := Synced(list, history, rules), Records(history, rules);
            var start, tail := StartList(list, history, rules), Tail(history, rules);
            var now, later := Steps(tail, history), Steps(rules, records);
            var middle := Survivors(if start.Some? then start.value else [], now);
            Synced(first, records, rules) == first
            <==> if start.None? && !Starts(tail) then !Starts(rules)
                 else Front(later) + Survivors(middle, later) + Back(later) == Front(now) + middle + Back(now)
  {
    var first, records := Synced(list, history, rules), Records(history, rules);
    var start, tail := StartList(list, history, rules), Tail(history, rules);
    var from := if start.Some? then start.value else [];
    SyncRemembers(history, rules);
    SyncFromStart(list, history, rules);
    TailIsPass(start, history, tail);
    if start.None? && !Starts(tail) {
      SyncFromNothing(records, rules);
    } else {
      var now, later := Steps(tail, history), Steps(rules, records);
      SyncIsPass(first.value, records, rules);
      RecordedErasesTail(history, records, rules);
      LaterPassReplaces(from, now, later);
      PassShape(from, now);
    }
  }

  /** A sync without resets is a pass, also from no list. */
  lemma TailIsPass(start: Option<seq<Node>>, history: History, tail: seq<CustomRule>)
    requires forall i :: 0 <= i < |tail| ==> !Resets(history, tail[i])
    ensures Synced(start, history, tail)
            == if start.None? && !Starts(tail) then None
               else Some(Pass(if start.Some? then start.value else [], Steps(tail, history)))
  {
    forall i | 0 <= i < |tail| && tail[i].mode.Replace? ensures Remembers(history, tail[i]) {
      assert !Resets(history, tail[i]);
    }
    if start.Some? {
      SyncIsPass(start.value, history, tail);
    } else {
      SyncFromNothing(history, tail);
    }
  }

  /** For inserting rules applied to the file for the first time this comes down to single lines: no
      line of the file that outlives the first sync, and no inserted line that outlives the later
      rules of the first sync, is taken out by the recorded rules, or by the later ones among them. */
  lemma UnrecordedSyncIsFinalIff(list: seq<Node>, history: History, rules: seq<CustomRule>)
    requires DistinctIds(rules) && AllErasable(rules)
    requires forall i :: 0 <= i < |rules| ==> Inserts(rules[i]) && rules[i].id !in history
    ensures var first, records := Synced(Some(list), history, rules), Records(history, rules);
            var steps, later := Steps(rules, history), Steps(rules, records);
            && |later| == |steps|
            && (Synced(first, records, rules) == first <==> KeepsAsMuch(list, steps, later) && EndsKept(steps, later))
  {
    var records := Records(history, rules);
    var steps, later := Steps(rules, history), Steps(rules, records);
    SyncRemembers(history, rules);
    SyncIsPass(list, history, rules);
    SyncIsPass(Pass(list, steps), records, rules);
    RulesErase(records, rules);
    RecordsAreStricter(history, records, rules);
    StricterPassIff(list, steps, later);
    EndsEqualIff(steps, later);
    StricterSurvivorsIff(list, steps, later);
    StricterAbsorbs(list, steps, later);
    SurvivorsAllIff(Survivors(list, steps), later);
  }

  /** With records the same rules insert the same and keep less. */
  lemma {:induction false} RecordsAreStricter(history: History, records: History, rules: seq<CustomRule>)
    requires forall i :: 0 <= i < |rules| ==> rules[i].id !in history
    ensures Stricter(Steps(rules, records), Steps(rules, history))
  {
    if rules != [] {
      var front, rule := rules[..|rules| - 1], rules[|rules| - 1];
      assert forall i :: 0 <= i < |front| ==> front[i] == rules[i];
      RecordsAreStricter(history, records, front);
      assert Recorded(history, rule) == [];
      forall n: Node ensures Retains(Recorded(records, rule), rule)(n) ==> Retains(Recorded(history, rule), rule)(n) {
        assert NotApplied([])(n);
      }
    }
  }

  /** One appended rule: the first sync puts it beside a line of the file with the same text, and the
      second takes both out before it appends again. The first is final exactly when the file had
      no such line. */
  lemma FirstAppendIsFinalIff(list: seq<Node>, history: History, rule: CustomRule)
    requires rule.content.RuleList? && rule.mode.Append? && rule.id !in history && AllStrings([rule])
    ensures var first := Synced(Some(list), history, [rule]);
            Synced(first, Records(history, [rule]), [rule]) == first
            <==> forall i :: 0 <= i < |list| ==> !(list[i].Str? && list[i].value in Strings(rule.content.nodes))
  {
    var newRules, records := rule.content.nodes, Records(history, [rule]);
    var forgets := NotApplied(Strings(newRules));
    assert [rule][..0] == [];
    KeptWhole(list, NotApplied([]));
    assert Synced(Some(list), history, [rule]) == Some(list + newRules);
    StringsEncode([rule], 0);
    assert Recorded(records, rule) == Strings(newRules);
    assert Synced(Some(list + newRules), records, [rule]) == Some(Kept(list + newRules, forgets) + newRules);
    KeptConcat(list, newRules, forgets);
    forall i | 0 <= i < |newRules| ensures !forgets(newRules[i]) {
      assert [rule][0].Inserted()[i].Str?;
      StringsHold(newRules, i);
    }
    KeptNone(newRules, forgets);
    KeptAllIff(list, forgets);
    assert Kept(list + newRules, forgets) == Kept(list, forgets);
    if forall i :: 0 <= i < |list| ==> forgets(list[i]) {
      KeptWhole(list, forgets);
    } else {
      assert |Kept(list, forgets) + newRules| < |list + newRules|;
    }
  }

  lemma {:induction false} KeptNone(list: seq<Node>, keep: Node -> bool)
    requires forall i :: 0 <= i < |list| ==> !keep(list[i])
    ensures Kept(list, keep) == []
  {
    if list != [] {
      KeptNone(list[1..], keep);
    }
  }
}
