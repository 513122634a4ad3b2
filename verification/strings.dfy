/**
 * String primitives used by every classifier of the chatbot: ASCII
 * lower-casing (Python `str.lower` restricted to ASCII), substring
 * containment (Python's `in` on strings) and `sep.join(xs)`.
 *
 * Containment comes in two forms: `Contains` scans the string front to back
 * the way a search does, and the ghost predicate `Occurs` states the meaning
 * (some index where the pattern starts).  `Contains`'s contract links them.
 */
module Strings {

  /** ASCII lower-casing of one character; every other character is kept. */
  function LowerChar(c: char): char {
    if 'A' <= c <= 'Z' then (c as int + 32) as char else c
  }

  /** `s.lower()` over ASCII. */
  function Lower(s: string): (r: string)
    ensures |r| == |s|
    ensures forall i :: 0 <= i < |s| ==> r[i] == LowerChar(s[i])
    ensures forall i :: 0 <= i < |r| ==> !('A' <= r[i] <= 'Z')
    decreases |s|
  {
    if |s| == 0 then "" else [LowerChar(s[0])] + Lower(s[1..])
  }

  /** Lower-casing distributes over concatenation. */
  lemma LowerAppend(a: string, b: string)
    ensures Lower(a + b) == Lower(a) + Lower(b)
  {
    assert forall i :: 0 <= i < |a + b| ==> Lower(a + b)[i] == (Lower(a) + Lower(b))[i];
  }

  /** Lower-casing twice is lower-casing once. */
  lemma LowerIdempotent(s: string)
    ensures Lower(Lower(s)) == Lower(s)
  {
  }

  /** `p` starts at index `i` of `s`. */
  ghost predicate OccursAt(s: string, p: string, i: int) {
    0 <= i && i + |p| <= |s| && s[i..i + |p|] == p
  }

  /** `p` is a substring of `s`: the meaning of Python's `p in s`. */
  ghost predicate Occurs(s: string, p: string) {
    exists i :: OccursAt(s, p, i)
  }

  /** `p` is a prefix of `s` (Python `s.startswith(p)`). */
  predicate StartsWith(s: string, p: string) {
    |p| <= |s| && s[..|p|] == p
  }

  /** An occurrence that does not start at index 0 is an occurrence in the tail. */
  lemma OccursTail(s: string, p: string)
    requires |s| > 0
    requires !OccursAt(s, p, 0)
    ensures Occurs(s, p) <==> Occurs(s[1..], p)
  {
    if Occurs(s, p) {
      var i :| OccursAt(s, p, i);
      assert s[1..][i - 1..i - 1 + |p|] == s[i..i + |p|];
      assert OccursAt(s[1..], p, i - 1);
    }
    if Occurs(s[1..], p) {
      var i :| OccursAt(s[1..], p, i);
      assert s[1..][i..i + |p|] == s[i + 1..i + 1 + |p|];
      assert OccursAt(s, p, i + 1);
    }
  }

  /** Python's `p in s`, computed by trying each start position in turn. */
  function Contains(s: string, p: string): (r: bool)
    ensures r <==> Occurs(s, p)
    decreases |s|
  {
    if |p| > |s| then
      assert forall i :: !OccursAt(s, p, i);
      false
    else if StartsWith(s, p) then
      assert OccursAt(s, p, 0);
      true
    else
      OccursTail(s, p);
      Contains(s[1..], p)
  }

  /**
   * Containment survives any text added before or after: the reason every
   * substring classifier of the chatbot is monotone.
   */
  lemma OccursExtend(s: string, p: string, before: string, after: string)
    requires Occurs(s, p)
    ensures Occurs(before + s + after, p)
  {
    var i :| OccursAt(s, p, i);
    var t := before + s + after;
    assert t[|before| + i..|before| + i + |p|] == s[i..i + |p|];
    assert OccursAt(t, p, |before| + i);
  }

  /**
   * Python's `sep.join(xs)`: no pieces give `""`, one piece is itself, and
   * otherwise the first piece is followed by `sep` and the join of the rest.
   */
  function Join(sep: string, xs: seq<string>): (r: string)
    ensures |xs| == 0 ==> r == ""
    ensures |xs| == 1 ==> r == xs[0]
    ensures |xs| >= 2 ==> r == xs[0] + sep + Join(sep, xs[1..])
    ensures |xs| > 0 ==> StartsWith(r, xs[0])
    ensures forall k :: 0 <= k < |xs| ==> Occurs(r, xs[k])
    decreases |xs|
  {
    if |xs| == 0 then ""
    else if |xs| == 1 then
      assert OccursAt(xs[0], xs[0], 0);
      xs[0]
    else
      var rest := Join(sep, xs[1..]);
      var r := xs[0] + sep + rest;
      assert r[..|xs[0]|] == xs[0];
      assert OccursAt(r, xs[0], 0);
      forall k | 1 <= k < |xs|
        ensures Occurs(r, xs[k])
      {
        assert xs[k] == xs[1..][k - 1];
        OccursExtend(rest, xs[k], xs[0] + sep, "");
        assert xs[0] + sep + rest + "" == r;
      }
      r
  }

  /** Putting a piece in front of a non-empty list puts it and one `sep` in front of the join. */
  lemma JoinCons(sep: string, x: string, xs: seq<string>)
    requires |xs| > 0
    ensures Join(sep, [x] + xs) == x + sep + Join(sep, xs)
  {
    assert ([x] + xs)[1..] == xs;
  }
}
