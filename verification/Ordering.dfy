/** Inserting into a list that an order keeps ascending. */
module Ordering {

  ghost predicate Transitive<T(!new)>(before: (T, T) -> bool) {
    forall a, b, c :: before(a, b) && before(b, c) ==> before(a, c)
  }

  ghost predicate Ascending<T>(list: seq<T>, before: (T, T) -> bool) {
    forall i, j :: 0 <= i < j < |list| ==> before(list[i], list[j])
  }

  /** `x` is in the list already, or has a place in it. */
  ghost predicate Fits<T>(x: T, list: seq<T>, before: (T, T) -> bool) {
    forall i :: 0 <= i < |list| ==> list[i] == x || before(x, list[i]) || before(list[i], x)
  }

  function InsertInto<T(==,!new)>(x: T, list: seq<T>, before: (T, T) -> bool): (r: seq<T>)
    requires Transitive(before) && Ascending(list, before) && Fits(x, list, before)
    ensures Ascending(r, before) && |r| <= |list| + 1
    ensures forall y :: y in r <==> y == x || y in list
  {
    if list == [] then [x]
    else if x == list[0] then list
    else if before(x, list[0]) then
      assert forall i :: 0 < i < |list| ==> before(list[0], list[i]);
      [x] + list
    else
      var rest := InsertInto(x, list[1..], before);
      assert forall i :: 0 <= i < |rest| ==> rest[i] in rest && (rest[i] == x || rest[i] in list[1..]);
      assert forall i :: 0 <= i < |list[1..]| ==> before(list[0], list[1..][i]);
      [list[0]] + rest
  }

  lemma HeadIsFirst<T>(list: seq<T>, x: T, before: (T, T) -> bool)
    requires Ascending(list, before) && x in list
    ensures x == list[0] || before(list[0], x)
  {
    var i :| 0 <= i < |list| && list[i] == x;
  }

  lemma HeadsAgree<T(!new)>(a: seq<T>, b: seq<T>, before: (T, T) -> bool)
    requires Transitive(before) && (forall x :: !before(x, x)) && |a| > 0 && |b| > 0
    requires Ascending(a, before) && Ascending(b, before) && a[0] in b && b[0] in a
    ensures a[0] == b[0]
  {
    HeadIsFirst(a, b[0], before);
    HeadIsFirst(b, a[0], before);
    assert !before(a[0], a[0]);
  }

  /** An ascending list is determined by its elements. */
  lemma {:induction false} AscendingIsUnique<T(!new)>(a: seq<T>, b: seq<T>, before: (T, T) -> bool)
    requires Transitive(before) && (forall x :: !before(x, x))
    requires Ascending(a, before) && Ascending(b, before) && forall x :: x in a <==> x in b
    ensures a == b
  {
    if |a| > 0 { assert a[0] in b; }
    if |b| > 0 { assert b[0] in a; }
    if |a| > 0 {
      HeadsAgree(a, b, before);
      forall x | x in a[1..] ensures x in b[1..] { assert x in a && before(a[0], x); }
      forall x | x in b[1..] ensures x in a[1..] { assert x in b && before(b[0], x); }
      AscendingIsUnique(a[1..], b[1..], before);
    }
  }
}
