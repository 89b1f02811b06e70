/** The algebra behind a repeated sync: every step filters the list and inserts elements at one of
    its ends; filters commute with concatenation, and a step erases what an earlier pass inserted. */
module InsertAndErase {

  /** One step: drop what `keep` refuses, then put `insert` at the front or at the back. */
  datatype Step<!T> = Step(front: bool, insert: seq<T>, keep: T -> bool)

  function Kept<T>(list: seq<T>, keep: T -> bool): seq<T> {
    if list == [] then []
    else if keep(list[0]) then [list[0]] + Kept(list[1..], keep)
    else Kept(list[1..], keep)
  }

  function Apply<T>(list: seq<T>, step: Step<T>): seq<T> {
    if step.front then step.insert + Kept(list, step.keep) else Kept(list, step.keep) + step.insert
  }

  /** One pass over all the steps. */
  function Pass<T>(list: seq<T>, steps: seq<Step<T>>): seq<T>
    decreases |steps|
  {
    if steps == [] then list else Pass(Apply(list, steps[0]), steps[1..])
  }

  /** What every step keeps, in order. */
  function Survivors<T>(list: seq<T>, steps: seq<Step<T>>): seq<T>
    decreases |steps|
  {
    if steps == [] then list else Survivors(Kept(list, steps[0].keep), steps[1..])
  }

  /** What a pass leaves at the front, and at the back, of whatever it started from. */
  function Front<T>(steps: seq<Step<T>>): seq<T> {
    if steps == [] then []
    else Front(steps[1..]) + if steps[0].front then Survivors(steps[0].insert, steps[1..]) else []
  }

  function Back<T>(steps: seq<Step<T>>): seq<T> {
    if steps == [] then []
    else (if steps[0].front then [] else Survivors(steps[0].insert, steps[1..])) + Back(steps[1..])
  }

  lemma {:induction false} KeptConcat<T>(a: seq<T>, b: seq<T>, keep: T -> bool)
    ensures Kept(a + b, keep) == Kept(a, keep) + Kept(b, keep)
  {
    if a == [] {
      assert a + b == b;
    } else {
      assert (a + b)[1..] == a[1..] + b;
      KeptConcat(a[1..], b, keep);
    }
  }

  lemma {:induction false} KeptMember<T>(x: T, list: seq<T>, keep: T -> bool)
    ensures x in Kept(list, keep) <==> x in list && keep(x)
  {
    if list != [] {
      KeptMember(x, list[1..], keep);
      assert x in list <==> x == list[0] || x in list[1..];
    }
  }

  lemma {:induction false} SurvivorsConcat<T>(a: seq<T>, b: seq<T>, steps: seq<Step<T>>)
    ensures Survivors(a + b, steps) == Survivors(a, steps) + Survivors(b, steps)
    decreases |steps|
  {
    if steps != [] {
      KeptConcat(a, b, steps[0].keep);
      SurvivorsConcat(Kept(a, steps[0].keep), Kept(b, steps[0].keep), steps[1..]);
    }
  }

  predicate KeptByAll<T>(x: T, steps: seq<Step<T>>) {
    forall i :: 0 <= i < |steps| ==> steps[i].keep(x)
  }

  lemma KeptByRest<T>(x: T, steps: seq<Step<T>>)
    requires steps != []
    ensures KeptByAll(x, steps) <==> steps[0].keep(x) && KeptByAll(x, steps[1..])
  {
    if steps[0].keep(x) && KeptByAll(x, steps[1..]) {
      forall i | 0 <= i < |steps| ensures steps[i].keep(x) {
        assert i > 0 ==> steps[i] == steps[1..][i - 1];
      }
    }
  }

  /** What survives is what every step keeps. */
  lemma {:induction false} SurvivorsMember<T>(x: T, list: seq<T>, steps: seq<Step<T>>)
    ensures x in Survivors(list, steps) <==> x in list && KeptByAll(x, steps)
    decreases |steps|
  {
    if steps != [] {
      KeptMember(x, list, steps[0].keep);
      KeptByRest(x, steps);
      SurvivorsMember(x, Kept(list, steps[0].keep), steps[1..]);
    }
  }

  lemma {:induction false} KeptWhole<T>(list: seq<T>, keep: T -> bool)
    requires forall i :: 0 <= i < |list| ==> keep(list[i])
    ensures Kept(list, keep) == list
  {
    if list != [] {
      KeptWhole(list[1..], keep);
    }
  }

  lemma {:induction false} SurvivorsWhole<T>(list: seq<T>, steps: seq<Step<T>>)
    requires forall i :: 0 <= i < |list| ==> KeptByAll(list[i], steps)
    ensures Survivors(list, steps) == list
    decreases |steps|
  {
    if steps != [] {
      forall i | 0 <= i < |list| ensures steps[0].keep(list[i]) && KeptByAll(list[i], steps[1..]) {
        KeptByRest(list[i], steps);
      }
      KeptWhole(list, steps[0].keep);
      SurvivorsWhole(list, steps[1..]);
    }
  }

  lemma SurvivorsNothing<T>(list: seq<T>, steps: seq<Step<T>>)
    requires forall i :: 0 <= i < |list| ==> !KeptByAll(list[i], steps)
    ensures Survivors(list, steps) == []
  {
    var rest := Survivors(list, steps);
    if rest != [] {
      SurvivorsMember(rest[0], list, steps);
    }
  }

  /** Filtering twice is filtering once. */
  lemma SurvivorsTwice<T>(list: seq<T>, steps: seq<Step<T>>)
    ensures Survivors(Survivors(list, steps), steps) == Survivors(list, steps)
  {
    var middle := Survivors(list, steps);
    forall i | 0 <= i < |middle| ensures KeptByAll(middle[i], steps) {
      SurvivorsMember(middle[i], list, steps);
    }
    SurvivorsWhole(middle, steps);
  }

  /** A pass in closed form: what it started from is only filtered. */
  lemma {:induction false} PassShape<T>(list: seq<T>, steps: seq<Step<T>>)
    ensures Pass(list, steps) == Front(steps) + Survivors(list, steps) + Back(steps)
    decreases |steps|
  {
    if steps != [] {
      var kept, rest := Kept(list, steps[0].keep), steps[1..];
      PassShape(Apply(list, steps[0]), rest);
      if steps[0].front {
        SurvivorsConcat(steps[0].insert, kept, rest);
      } else {
        SurvivorsConcat(kept, steps[0].insert, rest);
      }
    }
  }

  /** Whatever a pass leaves at the ends was inserted by one of its steps. */
  lemma {:induction false} EndsAreInserted<T>(x: T, steps: seq<Step<T>>) returns (i: nat)
    requires x in Front(steps) || x in Back(steps)
    ensures i < |steps| && x in steps[i].insert
  {
    if x in Front(steps[1..]) || x in Back(steps[1..]) {
      var k := EndsAreInserted(x, steps[1..]);
      i := k + 1;
    } else {
      SurvivorsMember(x, steps[0].insert, steps[1..]);
      i := 0;
    }
  }

  /** What was inserted and is kept by every step stays at one of the ends. */
  lemma {:induction false} KeptInsertionsStay<T>(steps: seq<Step<T>>, i: nat, x: T)
    requires i < |steps| && x in steps[i].insert && KeptByAll(x, steps)
    ensures x in Front(steps) || x in Back(steps)
  {
    SurvivorsMember(x, steps[0].insert, steps[1..]);
    KeptByRest(x, steps);
    if i > 0 {
      assert steps[i] == steps[1..][i - 1];
      KeptInsertionsStay(steps[1..], i - 1, x);
    }
  }

  /** Every element that some step inserts is refused by some step of `filters`. */
  ghost predicate Erases<T>(filters: seq<Step<T>>, steps: seq<Step<T>>) {
    forall i, k :: 0 <= i < |steps| && 0 <= k < |steps[i].insert| ==> !KeptByAll(steps[i].insert[k], filters)
  }

  lemma ErasedEnds<T>(filters: seq<Step<T>>, steps: seq<Step<T>>, ends: seq<T>)
    requires Erases(filters, steps) && ends in {Front(steps), Back(steps)}
    ensures Survivors(ends, filters) == []
  {
    forall k | 0 <= k < |ends| ensures !KeptByAll(ends[k], filters) {
      var i := EndsAreInserted(ends[k], steps);
      var n :| 0 <= n < |steps[i].insert| && steps[i].insert[n] == ends[k];
    }
    SurvivorsNothing(ends, filters);
  }

  /** The shape of two passes in a row. */
  lemma TwoPasses<T>(list: seq<T>, steps: seq<Step<T>>, later: seq<Step<T>>)
    ensures Survivors(Pass(list, steps), later)
            == Survivors(Front(steps), later) + Survivors(Survivors(list, steps), later) + Survivors(Back(steps), later)
  {
    PassShape(list, steps);
    var middle := Survivors(list, steps);
    SurvivorsConcat(Front(steps) + middle, Back(steps), later);
    SurvivorsConcat(Front(steps), middle, later);
  }

  /** A later pass whose filters erase what an earlier one inserted leaves no trace of it: the
      result is its own insertions around what both passes kept. */
  lemma LaterPassReplaces<T>(list: seq<T>, steps: seq<Step<T>>, later: seq<Step<T>>)
    requires Erases(later, steps)
    ensures Pass(Pass(list, steps), later)
            == Front(later) + Survivors(Survivors(list, steps), later) + Back(later)
  {
    PassShape(Pass(list, steps), later);
    PassLeavesNoTrace(list, steps, later);
  }

  lemma EmptySides<T>(a: seq<T>, b: seq<T>, c: seq<T>)
    requires a == [] && c == []
    ensures a + b + c == b
  {
  }

  lemma PassLeavesNoTrace<T>(list: seq<T>, steps: seq<Step<T>>, later: seq<Step<T>>)
    requires Erases(later, steps)
    ensures Survivors(Pass(list, steps), later) == Survivors(Survivors(list, steps), later)
  {
    ErasedEnds(later, steps, Front(steps));
    ErasedEnds(later, steps, Back(steps));
    TwoPasses(list, steps, later);
    EmptySides(Survivors(Front(steps), later), Survivors(Survivors(list, steps), later), Survivors(Back(steps), later));
  }

  /** Passing again changes nothing, on any list, if and only if the steps erase everything they
      insert; otherwise every further pass makes the list longer. */
  lemma StableIff<T>(list: seq<T>, steps: seq<Step<T>>)
    ensures Pass(Pass(list, steps), steps) == Pass(list, steps) <==> Erases(steps, steps)
    ensures !Erases(steps, steps) ==> |Pass(Pass(list, steps), steps)| > |Pass(list, steps)|
  {
    SurvivorsTwice(list, steps);
    PassShape(list, steps);
    if Erases(steps, steps) {
      LaterPassReplaces(list, steps, steps);
    } else {
      PassShape(Pass(list, steps), steps);
      TwoPasses(list, steps, steps);
      var i, k :| 0 <= i < |steps| && 0 <= k < |steps[i].insert| && KeptByAll(steps[i].insert[k], steps);
      var x := steps[i].insert[k];
      KeptInsertionsStay(steps, i, x);
      SurvivorsMember(x, Front(steps), steps);
      SurvivorsMember(x, Back(steps), steps);
    }
  }

  /** When each step erases its own insertions, the steps together erase all. */
  lemma OwnErasureSuffices<T>(steps: seq<Step<T>>)
    requires forall i, k :: 0 <= i < |steps| && 0 <= k < |steps[i].insert| ==> !steps[i].keep(steps[i].insert[k])
    ensures Erases(steps, steps)
  {
  }

  // ---------------------------------------------------------------------------------------
  // Passes that keep less
  // ---------------------------------------------------------------------------------------

  ghost predicate AllKept<T>(list: seq<T>, steps: seq<Step<T>>) {
    forall i :: 0 <= i < |list| ==> KeptByAll(list[i], steps)
  }

  lemma {:induction false} KeptTwice<T>(list: seq<T>, p: T -> bool, q: T -> bool, both: T -> bool)
    requires forall n :: both(n) <==> p(n) && q(n)
    ensures Kept(Kept(list, p), q) == Kept(list, both)
  {
    if list != [] {
      KeptTwice(list[1..], p, q, both);
      var rest := Kept(list[1..], p);
      assert ([list[0]] + rest)[1..] == rest;
    }
  }

  lemma {:induction false} KeptAllIff<T>(list: seq<T>, keep: T -> bool)
    ensures |Kept(list, keep)| <= |list|
    ensures |Kept(list, keep)| == |list| <==> forall i :: 0 <= i < |list| ==> keep(list[i])
  {
    if list != [] {
      KeptAllIff(list[1..], keep);
    }
  }

  lemma {:induction false} SurvivorsAllIff<T>(list: seq<T>, steps: seq<Step<T>>)
    ensures |Survivors(list, steps)| <= |list|
    ensures |Survivors(list, steps)| == |list| <==> AllKept(list, steps)
    decreases |steps|
  {
    if steps == [] {
      assert AllKept(list, steps);
    } else {
      KeptAllIff(list, steps[0].keep);
      SurvivorsAllIff(Kept(list, steps[0].keep), steps[1..]);
      if AllKept(list, steps) {
        SurvivorsWhole(list, steps);
      }
      if |Survivors(list, steps)| == |list| {
        KeptWhole(list, steps[0].keep);
        forall i | 0 <= i < |list| ensures KeptByAll(list[i], steps) {
          KeptByRest(list[i], steps);
        }
      }
    }
  }

  lemma {:induction false} SurvivorsOfKept<T>(list: seq<T>, keep: T -> bool, steps: seq<Step<T>>)
    ensures Survivors(Kept(list, keep), steps) == Kept(Survivors(list, steps), keep)
    decreases |steps|
  {
    if steps != [] {
      var p := steps[0].keep;
      var both := x => keep(x) && p(x);
      KeptTwice(list, keep, p, both);
      KeptTwice(list, p, keep, both);
      SurvivorsOfKept(Kept(list, p), keep, steps[1..]);
    }
  }

  /** The same insertions, and nothing kept that `steps` would not keep. */
  ghost predicate Stricter<T(!new)>(later: seq<Step<T>>, steps: seq<Step<T>>) {
    |later| == |steps| && forall i :: 0 <= i < |steps| ==>
      && later[i].front == steps[i].front && later[i].insert == steps[i].insert
      && forall x :: later[i].keep(x) ==> steps[i].keep(x)
  }

  lemma {:induction false} StricterSurvivors<T(!new)>(list: seq<T>, steps: seq<Step<T>>, later: seq<Step<T>>)
    requires Stricter(later, steps)
    ensures |Survivors(list, later)| <= |Survivors(list, steps)|
    decreases |steps|
  {
    if steps != [] {
      StricterTail(steps, later);
      var p, q := steps[0].keep, later[0].keep;
      KeptTwice(list, p, q, q);
      StricterSurvivors(Kept(list, q), steps[1..], later[1..]);
      SurvivorsOfKept(Kept(list, p), q, steps[1..]);
      KeptAllIff(Survivors(Kept(list, p), steps[1..]), q);
    }
  }

  lemma StricterTail<T(!new)>(steps: seq<Step<T>>, later: seq<Step<T>>)
    requires Stricter(later, steps) && steps != []
    ensures Stricter(later[1..], steps[1..])
  {
    forall i | 0 <= i < |steps| - 1
      ensures later[1..][i].front == steps[1..][i].front && later[1..][i].insert == steps[1..][i].insert
      ensures forall x :: later[1..][i].keep(x) ==> steps[1..][i].keep(x)
    {
      assert later[1..][i] == later[i + 1] && steps[1..][i] == steps[i + 1];
    }
  }

  lemma {:induction false} StricterEnds<T(!new)>(steps: seq<Step<T>>, later: seq<Step<T>>)
    requires Stricter(later, steps)
    ensures |Front(later)| <= |Front(steps)| && |Back(later)| <= |Back(steps)|
  {
    if steps != [] {
      StricterTail(steps, later);
      StricterEnds(steps[1..], later[1..]);
      StricterSurvivors(steps[0].insert, steps[1..], later[1..]);
    }
  }

  /** A stricter pass changes nothing after the first if and only if it keeps all that the first left:
      the same insertions at both ends, and everything between them. */
  lemma StricterPassIff<T(!new)>(list: seq<T>, steps: seq<Step<T>>, later: seq<Step<T>>)
    requires Stricter(later, steps) && Erases(later, later)
    ensures Pass(Pass(list, steps), later) == Pass(list, steps)
            <==> Front(later) == Front(steps) && Back(later) == Back(steps) && AllKept(Survivors(list, steps), later)
  {
    var middle := Survivors(list, steps);
    assert Erases(later, steps);
    LaterPassReplaces(list, steps, later);
    PassShape(list, steps);
    StricterEnds(steps, later);
    SurvivorsAllIff(middle, later);
    SegmentsEqual(Front(later), Survivors(middle, later), Back(later), Front(steps), middle, Back(steps));
    if AllKept(middle, later) {
      SurvivorsWhole(middle, later);
    }
  }

  /** Keeping less after keeping more is keeping less. */
  lemma {:induction false} StricterAbsorbs<T(!new)>(list: seq<T>, steps: seq<Step<T>>, later: seq<Step<T>>)
    requires Stricter(later, steps)
    ensures Survivors(Survivors(list, steps), later) == Survivors(list, later)
    decreases |steps|
  {
    if steps != [] {
      StricterTail(steps, later);
      var p, q := steps[0].keep, later[0].keep;
      SurvivorsOfKept(Kept(list, p), q, steps[1..]);
      KeptTwice(list, p, q, q);
      StricterAbsorbs(Kept(list, q), steps[1..], later[1..]);
    }
  }

  /** Whatever all of `steps` keep, all of `later` keep. */
  ghost predicate KeepsAsMuch<T>(list: seq<T>, steps: seq<Step<T>>, later: seq<Step<T>>) {
    forall k :: 0 <= k < |list| && KeptByAll(list[k], steps) ==> KeptByAll(list[k], later)
  }

  lemma StricterSurvivorsIff<T(!new)>(list: seq<T>, steps: seq<Step<T>>, later: seq<Step<T>>)
    requires Stricter(later, steps)
    ensures |Survivors(list, later)| == |Survivors(list, steps)| <==> KeepsAsMuch(list, steps, later)
    ensures KeepsAsMuch(list, steps, later) ==> Survivors(list, later) == Survivors(list, steps)
  {
    var some := Survivors(list, steps);
    StricterAbsorbs(list, steps, later);
    SurvivorsAllIff(some, later);
    if AllKept(some, later) {
      SurvivorsWhole(some, later);
      forall k | 0 <= k < |list| && KeptByAll(list[k], steps) ensures KeptByAll(list[k], later) {
        SurvivorsMember(list[k], list, steps);
        var i :| 0 <= i < |some| && some[i] == list[k];
      }
    }
    if KeepsAsMuch(list, steps, later) {
      forall i | 0 <= i < |some| ensures KeptByAll(some[i], later) {
        SurvivorsMember(some[i], list, steps);
        var k :| 0 <= k < |list| && list[k] == some[i];
      }
    }
  }

  /** Each insertion that the following steps keep is also kept by the following later steps. */
  ghost predicate EndsKept<T>(steps: seq<Step<T>>, later: seq<Step<T>>)
    requires |later| == |steps|
  {
    forall i :: 0 <= i < |steps| ==> KeepsAsMuch(steps[i].insert, steps[i + 1..], later[i + 1..])
  }

  lemma EndsKeptTail<T>(steps: seq<Step<T>>, later: seq<Step<T>>)
    requires |later| == |steps| > 0
    ensures EndsKept(steps, later) <==>
              KeepsAsMuch(steps[0].insert, steps[1..], later[1..]) && EndsKept(steps[1..], later[1..])
  {
    var s, l := steps[1..], later[1..];
    forall i | 0 <= i < |s| ensures s[i + 1..] == steps[i + 2..] && l[i + 1..] == later[i + 2..] && s[i] == steps[i + 1] {}
    if EndsKept(s, l) && KeepsAsMuch(steps[0].insert, s, l) {
      forall i | 0 <= i < |steps| ensures KeepsAsMuch(steps[i].insert, steps[i + 1..], later[i + 1..]) {
        if i > 0 {
          assert KeepsAsMuch(s[i - 1].insert, s[i..], l[i..]);
        }
      }
    }
    if EndsKept(steps, later) {
      forall i | 0 <= i < |s| ensures KeepsAsMuch(s[i].insert, s[i + 1..], l[i + 1..]) {
        assert KeepsAsMuch(steps[i + 1].insert, steps[i + 2..], later[i + 2..]);
      }
    }
  }

  lemma EndsOfFirst<T>(steps: seq<Step<T>>)
    requires steps != []
    ensures var x := Survivors(steps[0].insert, steps[1..]);
            if steps[0].front then Front(steps) == Front(steps[1..]) + x && Back(steps) == Back(steps[1..])
            else Front(steps) == Front(steps[1..]) && Back(steps) == x + Back(steps[1..])
  {
  }

  /** A stricter pass leaves the same ends if and only if it does so line by line. */
  lemma {:induction false} EndsEqualIff<T(!new)>(steps: seq<Step<T>>, later: seq<Step<T>>)
    requires Stricter(later, steps)
    ensures Front(later) == Front(steps) && Back(later) == Back(steps) <==> EndsKept(steps, later)
  {
    if steps != [] {
      var s, l, x := steps[1..], later[1..], steps[0].insert;
      StricterTail(steps, later);
      EndsEqualIff(s, l);
      EndsKeptTail(steps, later);
      StricterEnds(s, l);
      StricterSurvivors(x, s, l);
      StricterSurvivorsIff(x, s, l);
      EndsOfFirst(steps);
      EndsOfFirst(later);
      if steps[0].front {
        PartsEqual(Front(l), Survivors(x, l), Front(s), Survivors(x, s));
      } else {
        PartsEqual(Survivors(x, l), Back(l), Survivors(x, s), Back(s));
      }
    }
  }

  lemma PartsEqual<T>(a: seq<T>, b: seq<T>, x: seq<T>, y: seq<T>)
    requires |a| <= |x| && |b| <= |y|
    ensures a + b == x + y <==> a == x && b == y
  {
    SegmentsEqual(a, b, [], x, y, []);
    EmptyTail(a, b);
    EmptyTail(x, y);
  }

  lemma EmptyTail<T>(a: seq<T>, b: seq<T>)
    ensures a + b + [] == a + b
  {
  }

  lemma SegmentsEqual<T>(a: seq<T>, b: seq<T>, c: seq<T>, x: seq<T>, y: seq<T>, z: seq<T>)
    requires |a| <= |x| && |b| <= |y| && |c| <= |z|
    ensures a + b + c == x + y + z <==> a == x && b == y && c == z
  {
    if a + b + c == x + y + z {
      assert |a| == |x| && |b| == |y| && |c| == |z|;
      var s, t := a + b + c, x + y + z;
      assert a == s[..|a|] && x == t[..|a|];
      assert b == s[|a|..|a| + |b|] && y == t[|a|..|a| + |b|];
      assert c == s[|a| + |b|..] && z == t[|a| + |b|..];
    }
  }
}
