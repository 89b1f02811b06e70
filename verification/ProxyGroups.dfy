/** Groups that rules refer to and a subscription file lacks (autoAddMissingProxyGroups in
    internal/handler/apply_custom_rules.go). */
module ProxyGroups {
  import opened Base
  import opened RuleText

  /** An element of a rule list: a string, another scalar by its text, or anything else. `encodes`
      says whether what it decodes to has a JSON form: an infinity does not, and neither does a
      mapping whose keys are no strings. */
  datatype Node =
    | Str(value: string)
    | Scalar(value: string, encodes: bool)
    | NotScalar(text: string, encodes: bool)
  {
    predicate Encodes() {
      Str? || encodes
    }

    predicate IsScalar() {
      !NotScalar?
    }
  }

  /** An element of proxy-groups: a mapping with a scalar name, or anything else. */
  datatype Group = Named(name: string, proxies: seq<string>, rest: string) | OtherGroup(text: string)

  const DOMESTIC := "🔒 国内服务"
  const SELECTOR := "🚀 节点选择"

  function NewGroup(name: string): Group {
    Named(name, if name == DOMESTIC then ["DIRECT", SELECTOR] else [SELECTOR, "DIRECT"], "type: select")
  }

  predicate Refers(node: Node, name: string) {
    node.IsScalar() && Policy(node.value) == Some(name)
  }

  predicate Referred(rules: seq<Node>, name: string) {
    exists i :: 0 <= i < |rules| && Refers(rules[i], name)
  }

  predicate Exists(groups: seq<Group>, name: string) {
    exists i :: 0 <= i < |groups| && groups[i].Named? && groups[i].name == name
  }

  function NewGroups(names: seq<string>): (r: seq<Group>)
    ensures |r| == |names| && forall i :: 0 <= i < |names| ==> r[i] == NewGroup(names[i])
  {
    if names == [] then [] else NewGroups(names[..|names| - 1]) + [NewGroup(names[|names| - 1])]
  }

  predicate Distinct(names: seq<string>) {
    forall i, j :: 0 <= i < j < |names| ==> names[i] != names[j]
  }

  /** `added` names the missing groups, each once, in some order, and they come after the old
      groups; without both lists nothing happens. */
  ghost predicate AddsMissing(rules: Option<seq<Node>>, before: Option<seq<Group>>, after: Option<seq<Group>>, added: seq<string>) {
    if rules.None? || before.None? then after == before && added == []
    else
      && Distinct(added)
      && (forall name :: name in added <==> Referred(rules.value, name) && !Exists(before.value, name))
      && after == Some(before.value + NewGroups(added))
  }

  method AutoAddMissingProxyGroups(rules: Option<seq<Node>>, groups: Option<seq<Group>>)
    returns (after: Option<seq<Group>>, added: seq<string>)
    ensures AddsMissing(rules, groups, after, added)
  {
    if rules.None? || groups.None? {
      return groups, [];
    }
    var existing := GroupNames(groups.value);
    var referenced := ReferencedNames(rules.value);
    added := [];
    var remaining := referenced;
    while remaining != {}
      invariant remaining <= referenced && Distinct(added)
      invariant forall name :: name in added <==> name in referenced && name !in remaining && name !in existing
      decreases |remaining|
    {
      var name :| name in remaining;
      remaining := remaining - {name};
      if name !in existing {
        added := added + [name];
      }
    }
    var list := groups.value;
    for i := 0 to |added|
      invariant list == groups.value + NewGroups(added[..i])
    {
      assert added[..i + 1][..i] == added[..i];
      list := list + [NewGroup(added[i])];
    }
    assert added[..|added|] == added;
    after := Some(list);
  }

  method GroupNames(groups: seq<Group>) returns (names: set<string>)
    ensures forall name :: name in names <==> Exists(groups, name)
  {
    names := {};
    for i := 0 to |groups|
      invariant forall name :: name in names <==> exists k :: 0 <= k < i && groups[k].Named? && groups[k].name == name
    {
      if groups[i].Named? {
        names := names + {groups[i].name};
      }
    }
  }

  method ReferencedNames(rules: seq<Node>) returns (names: set<string>)
    ensures forall name :: name in names <==> Referred(rules, name)
  {
    names := {};
    for i := 0 to |rules|
      invariant forall name :: name in names <==> exists k :: 0 <= k < i && Refers(rules[k], name)
    {
      if rules[i].IsScalar() {
        var policy := Policy(rules[i].value);
        if policy.Some? {
          names := names + {policy.value};
        }
      }
    }
  }

  /** Afterwards every group that a rule names exists, the old groups are unchanged and in front,
      and looking again finds nothing to add. */
  lemma GroupsAreClosed(rules: seq<Node>, before: seq<Group>, after: Option<seq<Group>>, added: seq<string>)
    requires AddsMissing(Some(rules), Some(before), after, added)
    ensures after.Some? && before <= after.value && |after.value| == |before| + |added|
    ensures forall name :: Referred(rules, name) ==> Exists(after.value, name)
    ensures forall name :: Exists(after.value, name) ==> Exists(before, name) || Referred(rules, name)
    ensures forall again, more :: AddsMissing(Some(rules), after, again, more) ==> again == after && more == []
  {
    var list := after.value;
    forall name | Exists(before, name) ensures Exists(list, name) {
      var i :| 0 <= i < |before| && before[i].Named? && before[i].name == name;
      assert list[i] == before[i];
    }
    forall name | name in added ensures Exists(list, name) {
      var i :| 0 <= i < |added| && added[i] == name;
      assert list[|before| + i] == NewGroup(name);
    }
    forall name | Exists(list, name) ensures Exists(before, name) || name in added {
      var i :| 0 <= i < |list| && list[i].Named? && list[i].name == name;
      if i < |before| {
        assert before[i] == list[i];
      } else {
        assert list[i] == NewGroup(added[i - |before|]);
      }
    }
    forall again, more | AddsMissing(Some(rules), after, again, more) ensures again == after && more == [] {
      assert forall i :: 0 <= i < |more| ==> more[i] in more;
      assert list + NewGroups([]) == list;
    }
  }
}
