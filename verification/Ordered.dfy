/** Insertion-ordered sets as sequences without repetition, the iteration order of a JavaScript set. */
module Ordered {

  predicate NoRepeats<T(==)>(s: seq<T>) {
    forall i, j | 0 <= i < j < |s| :: s[i] != s[j]
  }

  function Including<T(==,!new)>(s: seq<T>, x: T): (r: seq<T>)
    ensures NoRepeats(s) ==> NoRepeats(r)
    ensures forall y :: y in r <==> y in s || y == x
    ensures |r| == if x in s then |s| else |s| + 1
  {
    if x in s then s else s + [x]
  }

  function Without<T(==,!new)>(s: seq<T>, x: T): (r: seq<T>)
    ensures NoRepeats(s) ==> NoRepeats(r)
    ensures forall y :: y in r <==> y in s && y != x
    ensures NoRepeats(s) && x in s ==> |r| == |s| - 1
    ensures x !in s ==> r == s
  {
    if s == [] then []
    else if s[0] == x then Without(s[1..], x)
    else
      assert forall y :: y in s <==> y == s[0] || y in s[1..];
      var t := Without(s[1..], x);
      assert NoRepeats(s) ==> NoRepeats(s[1..]) && s[0] !in s[1..];
      [s[0]] + t
  }
}
