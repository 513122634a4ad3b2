/**
 * Scans over the fixed, ordered keyword tables of the chatbot.  Each mirrors
 * one Python loop shape, and its contract states what the loop computes:
 *  - `Any`:    `any(p(x) for x in xs)`
 *  - `First`:  `for x in xs: if p(x): return x`
 *  - `Count`:  `sum(1 for x in xs if p(x))`
 *  - `Filter`: `[x for x in xs if p(x)]` (or the equivalent append loop)
 */
module Tables {
  import opened Wrappers

  /** `any(p(x) for x in xs)`. */
  function Any<T>(xs: seq<T>, p: T -> bool): (r: bool)
    ensures r <==> exists k :: 0 <= k < |xs| && p(xs[k])
    decreases |xs|
  {
    if |xs| == 0 then false
    else if p(xs[0]) then true
    else
      assert forall k :: 1 <= k < |xs| ==> xs[k] == xs[1..][k - 1];
      Any(xs[1..], p)
  }

  /** `xs[k]` is the first element of `xs` satisfying `p`. */
  ghost predicate IsFirst<T>(xs: seq<T>, p: T -> bool, k: int) {
    0 <= k < |xs| && p(xs[k]) && forall j :: 0 <= j < k ==> !p(xs[j])
  }

  /** The first element satisfying `p`, in table order, if any. */
  function First<T>(xs: seq<T>, p: T -> bool): (r: Option<T>)
    ensures r.None? <==> forall k :: 0 <= k < |xs| ==> !p(xs[k])
    ensures forall k :: IsFirst(xs, p, k) ==> r == Some(xs[k])
    ensures r.Some? ==> exists k :: IsFirst(xs, p, k) && r.value == xs[k]
    decreases |xs|
  {
    if |xs| == 0 then None
    else if p(xs[0]) then
      assert IsFirst(xs, p, 0);
      Some(xs[0])
    else
      var r := First(xs[1..], p);
      assert forall k :: 1 <= k < |xs| ==> xs[k] == xs[1..][k - 1];
      assert forall k :: IsFirst(xs, p, k) ==> k >= 1 && IsFirst(xs[1..], p, k - 1);
      assert forall k :: IsFirst(xs[1..], p, k) ==> IsFirst(xs, p, k + 1);
      r
  }

  /** `sum(1 for x in xs if p(x))`, characterised by the thresholds the chatbot uses. */
  function Count<T>(xs: seq<T>, p: T -> bool): (n: nat)
    ensures n <= |xs|
    ensures n >= 1 <==> exists k :: 0 <= k < |xs| && p(xs[k])
    ensures n >= 2 <==> exists a, b :: 0 <= a < b < |xs| && p(xs[a]) && p(xs[b])
    decreases |xs|
  {
    if |xs| == 0 then 0
    else
      var rest := Count(xs[1..], p);
      CountStep(xs, p, rest);
      if p(xs[0]) then rest + 1 else rest
  }

  /** How one more table entry changes the count thresholds. */
  lemma CountStep<T>(xs: seq<T>, p: T -> bool, rest: nat)
    requires |xs| > 0
    requires rest >= 1 <==> exists k :: 0 <= k < |xs[1..]| && p(xs[1..][k])
    requires rest >= 2 <==> exists a, b :: 0 <= a < b < |xs[1..]| && p(xs[1..][a]) && p(xs[1..][b])
    ensures (if p(xs[0]) then rest + 1 else rest) >= 1 <==> exists k :: 0 <= k < |xs| && p(xs[k])
    ensures (if p(xs[0]) then rest + 1 else rest) >= 2 <==>
      exists a, b :: 0 <= a < b < |xs| && p(xs[a]) && p(xs[b])
  {
    assert forall k :: 1 <= k < |xs| ==> xs[k] == xs[1..][k - 1];
    if exists k :: 0 <= k < |xs| && p(xs[k]) {
      var k :| 0 <= k < |xs| && p(xs[k]);
      if k > 0 {
        assert p(xs[1..][k - 1]);
      }
    }
    if rest >= 1 {
      var b :| 0 <= b < |xs[1..]| && p(xs[1..][b]);
      assert p(xs[b + 1]);
    }
    if rest >= 2 {
      var a, b :| 0 <= a < b < |xs[1..]| && p(xs[1..][a]) && p(xs[1..][b]);
      assert p(xs[a + 1]) && p(xs[b + 1]);
    }
    if exists a, b :: 0 <= a < b < |xs| && p(xs[a]) && p(xs[b]) {
      var a, b :| 0 <= a < b < |xs| && p(xs[a]) && p(xs[b]);
      assert p(xs[1..][b - 1]);
      if a >= 1 {
        assert p(xs[1..][a - 1]);
      }
    }
  }

  /** `a` is a subsequence of `b`: `b` with some elements removed, order kept. */
  ghost predicate SubseqOf<T>(a: seq<T>, b: seq<T>)
    decreases |b|
  {
    if |a| == 0 then true
    else if |b| == 0 then false
    else (a[0] == b[0] && SubseqOf(a[1..], b[1..])) || SubseqOf(a, b[1..])
  }

  /** No element occurs twice. */
  predicate NoDup<T(==)>(xs: seq<T>) {
    forall i, j :: 0 <= i < j < |xs| ==> xs[i] != xs[j]
  }

  /** `[x for x in xs if p(x)]`. */
  function Filter<T(==)>(xs: seq<T>, p: T -> bool): (r: seq<T>)
    ensures |r| <= |xs|
    ensures SubseqOf(r, xs)
    ensures forall k :: 0 <= k < |r| ==> r[k] in xs && p(r[k])
    ensures forall k :: 0 <= k < |xs| && p(xs[k]) ==> xs[k] in r
    ensures NoDup(xs) ==> NoDup(r)
    decreases |xs|
  {
    if |xs| == 0 then []
    else
      var rest := Filter(xs[1..], p);
      assert forall k :: 1 <= k < |xs| ==> xs[k] == xs[1..][k - 1];
      if p(xs[0]) then
        var r := [xs[0]] + rest;
        assert r[1..] == rest;
        assert NoDup(xs) ==> xs[0] !in xs[1..];
        r
      else
        rest
  }

  /** The filter keeps exactly as many elements as the count counts. */
  lemma {:induction false} FilterCount<T>(xs: seq<T>, p: T -> bool)
    ensures |Filter(xs, p)| == Count(xs, p)
    decreases |xs|
  {
    if |xs| > 0 {
      FilterCount(xs[1..], p);
    }
  }
}
