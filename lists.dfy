/** Searching and filtering the arrays the source keeps in lists. */
module Lists {

  /** `xs.findIndex(found)`: the first index whose element is found, or -1 when none is. */
  function FindIndex<T>(xs: seq<T>, found: T -> bool): (k: int)
    ensures -1 <= k < |xs|
    ensures k >= 0 ==> found(xs[k]) && forall j :: 0 <= j < k ==> !found(xs[j])
    ensures k == -1 ==> forall j :: 0 <= j < |xs| ==> !found(xs[j])
  {
    if xs == [] then -1
    else if found(xs[0]) then 0
    else
      var k := FindIndex(xs[1..], found);
      if k < 0 then -1 else k + 1
  }

  /** `xs.filter(keep)`: the elements that pass, in their order. */
  function Filter<T(==,!new)>(xs: seq<T>, keep: T -> bool): (r: seq<T>)
    ensures |r| <= |xs|
    ensures forall x :: x in r <==> x in xs && keep(x)
    ensures |r| == |xs| <==> forall k :: 0 <= k < |xs| ==> keep(xs[k])
  {
    if xs == [] then []
    else
      var r := (if keep(xs[0]) then [xs[0]] else []) + Filter(xs[1..], keep);
      assert forall k :: 1 <= k < |xs| ==> xs[k] == xs[1..][k - 1];
      r
  }

  /** Filtering distributes over concatenation, so the kept elements stay in their order. */
  lemma {:induction false} FilterAppend<T(!new)>(a: seq<T>, b: seq<T>, keep: T -> bool)
    ensures Filter(a + b, keep) == Filter(a, keep) + Filter(b, keep)
  {
    if a == [] {
      assert a + b == b;
    } else {
      assert (a + b)[1..] == a[1..] + b;
      FilterAppend(a[1..], b, keep);
    }
  }
}
