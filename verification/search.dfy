/**
 * "The first element that matches": MongoDB's `findOne` over a collection in
 * natural order, and JavaScript's `Array.prototype.find`.
 */
module Search {
  import opened Wrappers

  /** Position of the first element satisfying `p`, or `|s|` when there is none. */
  function FirstIndex<T>(s: seq<T>, p: T -> bool): (k: nat)
    ensures k <= |s|
    ensures k < |s| ==> p(s[k])
    ensures forall j :: 0 <= j < k ==> !p(s[j])
  {
    if s == [] then 0
    else if p(s[0]) then 0
    else 1 + FirstIndex(s[1..], p)
  }

  /** The first element satisfying `p`, if any. */
  function First<T>(s: seq<T>, p: T -> bool): (r: Option<T>)
    ensures r.None? <==> forall x :: x in s ==> !p(x)
    ensures r.Some? ==> r.value in s && p(r.value)
    ensures r.Some? ==> exists k :: 0 <= k < |s| && s[k] == r.value && forall j :: 0 <= j < k ==> !p(s[j])
  {
    var k := FirstIndex(s, p);
    if k < |s| then Some(s[k]) else None
  }

  /** Searching a concatenation searches the second part only when the first has no match. */
  lemma {:induction false} FirstOfConcat<T>(a: seq<T>, b: seq<T>, p: T -> bool)
    ensures First(a + b, p) == if First(a, p).Some? then First(a, p) else First(b, p)
  {
    var k, n, m := FirstIndex(a, p), FirstIndex(a + b, p), FirstIndex(b, p);
    if k < |a| {
      assert (a + b)[k] == a[k];
    } else {
      assert n == |a| + m by {
        if m < |b| { assert (a + b)[|a| + m] == b[m]; }
      }
    }
  }
}
