/** Small shared vocabulary: optional values, results and duplicate-free sequences. */
module Prelude {

  datatype Option<+T> = None | Some(value: T)

  datatype Result<+T> = Ok(value: T) | Err

  function Max0(x: int): (r: nat)
    ensures x <= r
  {
    if x < 0 then 0 else x
  }

  predicate NoDuplicates<T(==)>(s: seq<T>) {
    forall i, j :: 0 <= i < j < |s| ==> s[i] != s[j]
  }

  function ToSet<T>(s: seq<T>): set<T> {
    set x | x in s
  }

  lemma SnocNoDuplicates<T>(s: seq<T>, x: T)
    ensures NoDuplicates(s + [x]) <==> NoDuplicates(s) && x !in s
    ensures ToSet(s + [x]) == ToSet(s) + {x}
  {
    var more := s + [x];
    assert forall i :: 0 <= i < |s| ==> more[i] == s[i];
    assert more[|s|] == x;
  }

  /** A sequence has as many different elements as elements exactly when it has no duplicates. */
  lemma {:induction false} CountDistinct<T>(s: seq<T>)
    ensures |ToSet(s)| <= |s|
    ensures |ToSet(s)| == |s| <==> NoDuplicates(s)
  {
    if s != [] {
      var init, last := s[..|s| - 1], s[|s| - 1];
      CountDistinct(init);
      SnocNoDuplicates(init, last);
      assert s == init + [last];
    }
  }

  lemma SubsetCount<T>(a: set<T>, b: set<T>)
    requires a <= b
    ensures |a| <= |b|
  {
    assert b == a + (b - a);
  }
}
