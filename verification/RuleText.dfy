/** What a line of a Clash rule list says: its key, its kind, its policy
    (internal/handler/apply_custom_rules.go). */
module RuleText {
  import opened Base

  /** The line without white space around it and without a leading list dash. */
  function Bare(line: string): string {
    var trimmed := Trim(line);
    if HasPrefix(trimmed, "- ") then Trim(trimmed[2..]) else trimmed
  }

  predicate IsMatch(line: string) {
    HasPrefix(Upper(Bare(line)), "MATCH")
  }

  predicate IsRuleSet(line: string) {
    HasPrefix(Upper(Bare(line)), "RULE-SET")
  }

  function CommaCount(s: string): nat {
    if s == [] then 0 else CommaCount(s[..|s| - 1]) + if s[|s| - 1] == ',' then 1 else 0
  }

  /** The text before the second comma, or all of it. */
  method ExtractRuleKey(line: string) returns (key: string)
    ensures key == RuleKey(line)
  {
    var commaCount := 0;
    for i := 0 to |line|
      invariant commaCount == CommaCount(line[..i]) <= 1
    {
      assert line[..i + 1][..i] == line[..i];
      if line[i] == ',' {
        commaCount := commaCount + 1;
        if commaCount == 2 {
          KeyEndsAt(line, i);
          return line[..i];
        }
      }
    }
    assert line[..|line|] == line;
    KeyIsWhole(line);
    return line;
  }

  function RuleKey(line: string): string {
    KeyFrom(line, 0)
  }

  function KeyFrom(line: string, commas: nat): string {
    if line == [] || (line[0] == ',' && commas == 1) then []
    else [line[0]] + KeyFrom(line[1..], commas + if line[0] == ',' then 1 else 0)
  }

  lemma {:induction false} CommaCountConcat(a: string, b: string)
    ensures CommaCount(a + b) == CommaCount(a) + CommaCount(b)
  {
    if b == [] {
      assert a + b == a;
    } else {
      assert (a + b)[..|a + b| - 1] == a + b[..|b| - 1];
      CommaCountConcat(a, b[..|b| - 1]);
    }
  }

  lemma {:induction false} KeyFromEnds(line: string, commas: nat, i: nat)
    requires commas <= 1 && i <= |line| && commas + CommaCount(line[..i]) <= 1
    requires i == |line| || (line[i] == ',' && commas + CommaCount(line[..i]) == 1)
    ensures KeyFrom(line, commas) == line[..i]
  {
    if i > 0 {
      var head := if line[0] == ',' then 1 else 0;
      assert line[..i] == [line[0]] + line[1..][..i - 1];
      CommaCountConcat([line[0]], line[1..][..i - 1]);
      assert CommaCount([line[0]]) == head by { assert [line[0]][..0] == []; }
      KeyFromEnds(line[1..], commas + head, i - 1);
    }
  }

  lemma KeyEndsAt(line: string, i: nat)
    requires i < |line| && line[i] == ',' && CommaCount(line[..i]) == 1
    ensures RuleKey(line) == line[..i]
  {
    KeyFromEnds(line, 0, i);
  }

  lemma KeyIsWhole(line: string)
    requires CommaCount(line) <= 1
    ensures RuleKey(line) == line
  {
    assert line[..|line|] == line;
    KeyFromEnds(line, 0, |line|);
  }

  // ---------------------------------------------------------------------------------------
  // Policies
  // ---------------------------------------------------------------------------------------

  /** strings.Split at commas */
  function Fields(line: string): (r: seq<string>)
    ensures |r| > 0
  {
    if line == [] then [[]]
    else
      var rest := Fields(line[1..]);
      if line[0] == ',' then [[]] + rest else [[line[0]] + rest[0]] + rest[1..]
  }

  const BUILT_IN := {"DIRECT", "REJECT", "PROXY", ""}

  /** The group a rule refers to, if it names one that is not built in. */
  function Policy(line: string): Option<string> {
    var parts := Fields(line);
    var last := Trim(parts[|parts| - 1]);
    var policy :=
      if |parts| >= 4 && last == "no-resolve" then Trim(parts[|parts| - 2])
      else if |parts| >= 2 then last
      else "";
    if policy in BUILT_IN then None else Some(policy)
  }
}
