/** Types and facts about finite collections shared by the other modules. */
module Prelude {

  datatype Option<+T> = None | Some(value: T)

  function Max(a: int, b: int): int { if a < b then b else a }

  function Min(a: int, b: int): int { if a < b then a else b }

  /** A string longer than every string of a finite set, hence not a member of it. */
  ghost function LongerThanAll(keys: set<string>): (k: string)
    ensures k !in keys
    ensures forall s :: s in keys ==> |s| < |k|
  {
    if keys == {} then "x"
    else
      var s :| s in keys;
      var k := LongerThanAll(keys - {s});
      assert forall t :: t in keys ==> t == s || t in keys - {s};
      seq(Max(|s|, |k|) + 1, i => 'x')
  }

  /** The largest element of a finite set of naturals, 0 for the empty set. */
  ghost function MaxOf(s: set<nat>): (m: nat)
    ensures s == {} ==> m == 0
    ensures s != {} ==> m in s
    ensures forall x :: x in s ==> x <= m
  {
    if s == {} then 0
    else
      var x :| x in s;
      var rest := s - {x};
      assert forall y :: y in s ==> y == x || y in rest;
      Max(x, MaxOf(rest))
  }

  /** The smallest element of a finite non-empty set of naturals. */
  ghost function MinOf(s: set<nat>): (m: nat)
    requires s != {}
    ensures m in s
    ensures forall x :: x in s ==> m <= x
  {
    var x :| x in s;
    var rest := s - {x};
    assert forall y :: y in s ==> y == x || y in rest;
    if rest == {} then x else Min(x, MinOf(rest))
  }
}
