/**
 * Word-level text primitives used by the evaluation heuristics:
 *  - the regular-expression word boundary `\b`, over ASCII word characters;
 *  - whole-word search, the meaning of `re.search(r'\bW\b', s)`;
 *  - Python's `s.split()` (runs of whitespace separate words);
 *  - `re.split('[D]+', s)` for a character class D.
 */
module Words {
  import opened Strings

  /** `\w` over ASCII: letters, digits and underscore. */
  predicate IsWordChar(c: char) {
    ('a' <= c <= 'z') || ('A' <= c <= 'Z') || ('0' <= c <= '9') || c == '_'
  }

  /**
   * The characters `str.isspace` accepts: the ASCII controls 9-13 and
   * 28-31, the space, and the Unicode spaces and separators.
   */
  predicate IsSpace(c: char) {
    var n := c as int;
    || n == 32 || (9 <= n <= 13) || (28 <= n <= 31)
    || n == 0x85 || n == 0xA0 || n == 0x1680 || (0x2000 <= n <= 0x200A)
    || n == 0x2028 || n == 0x2029 || n == 0x202F || n == 0x205F || n == 0x3000
  }

  /** A class of characters whose maximal runs are counted: the words of `split()`, or a delimiter class. */
  datatype CharClass = NonSpace | Delimiters(chars: set<char>) {
    predicate Has(c: char) {
      match this
      case NonSpace => !IsSpace(c)
      case Delimiters(chars) => c in chars
    }
  }

  /** Position `k` of `s` begins a maximal run of `cls` characters. */
  ghost predicate RunStart(s: string, cls: CharClass, k: int)
    requires 0 <= k < |s|
  {
    cls.Has(s[k]) && (k == 0 || !cls.Has(s[k - 1]))
  }

  /** The number of positions at or after `i` that begin a maximal run of `cls` characters. */
  ghost function RunsFrom(s: string, cls: CharClass, i: nat): nat
    requires i <= |s|
    decreases |s| - i
  {
    if i == |s| then 0 else (if RunStart(s, cls, i) then 1 else 0) + RunsFrom(s, cls, i + 1)
  }

  /** The number of maximal runs of `cls` characters in `s`. */
  ghost function RunCount(s: string, cls: CharClass): nat {
    RunsFrom(s, cls, 0)
  }

  /** A stretch with no run start does not change the count. */
  lemma {:induction false} RunsSkip(s: string, cls: CharClass, i: nat, j: nat)
    requires i <= j <= |s|
    requires forall k :: i <= k < j ==> !RunStart(s, cls, k)
    ensures RunsFrom(s, cls, i) == RunsFrom(s, cls, j)
    decreases j - i
  {
    if i < j {
      RunsSkip(s, cls, i + 1, j);
    }
  }

  /**
   * Counting in a suffix `s[m..]` agrees with counting in `s`, provided
   * that the cut does not create a run start: either it lies at an end, or
   * one of the two characters beside it is outside the class.
   */
  lemma {:induction false} RunsShift(s: string, cls: CharClass, m: nat, i: nat)
    requires m + i <= |s|
    requires i > 0 || m == 0 || m == |s| || !cls.Has(s[m - 1]) || !cls.Has(s[m])
    ensures RunsFrom(s, cls, m + i) == RunsFrom(s[m..], cls, i)
    decreases |s| - m - i
  {
    if m + i < |s| {
      assert RunStart(s, cls, m + i) == RunStart(s[m..], cls, i);
      RunsShift(s, cls, m, i + 1);
    }
  }

  /** `\b` at position `i`: exactly one of the characters either side is a word character. */
  predicate BoundaryAt(s: string, i: int)
    requires 0 <= i <= |s|
  {
    (i > 0 && IsWordChar(s[i - 1])) != (i < |s| && IsWordChar(s[i]))
  }

  /** `\bw\b` matches at index `i` of `s`. */
  ghost predicate WordAt(s: string, w: string, i: int) {
    OccursAt(s, w, i) && BoundaryAt(s, i) && BoundaryAt(s, i + |w|)
  }

  /** `re.search(r'\b' + re.escape(w) + r'\b', s)` finds a match. */
  ghost predicate WordOccurs(s: string, w: string) {
    exists i :: WordAt(s, w, i)
  }

  /** The regular-expression search from index `i` on. */
  function SearchWordFrom(s: string, w: string, i: nat): (r: bool)
    requires i <= |s|
    ensures r <==> exists j :: i <= j && WordAt(s, w, j)
    decreases |s| - i
  {
    if i + |w| > |s| then
      false
    else if s[i..i + |w|] == w && BoundaryAt(s, i) && BoundaryAt(s, i + |w|) then
      assert WordAt(s, w, i);
      true
    else if i == |s| then
      false
    else
      SearchWordFrom(s, w, i + 1)
  }

  /** Whether `\bw\b` matches anywhere in `s`. */
  function SearchWord(s: string, w: string): (r: bool)
    ensures r <==> WordOccurs(s, w)
  {
    SearchWordFrom(s, w, 0)
  }

  /** Index just past the run of non-space characters starting at `i`. */
  function WordEnd(s: string, i: nat): (j: nat)
    requires i <= |s|
    ensures i <= j <= |s|
    ensures forall k :: i <= k < j ==> !IsSpace(s[k])
    ensures j < |s| ==> IsSpace(s[j])
    decreases |s| - i
  {
    if i == |s| || IsSpace(s[i]) then i else WordEnd(s, i + 1)
  }

  /** `s` without its whitespace characters, in order. */
  function NonSpaceChars(s: string): (r: string)
    ensures forall c :: c in r ==> !IsSpace(c)
    decreases |s|
  {
    if |s| == 0 then "" else (if IsSpace(s[0]) then "" else [s[0]]) + NonSpaceChars(s[1..])
  }

  /** Removing whitespace distributes over concatenation. */
  lemma {:induction false} NonSpaceCharsAppend(a: string, b: string)
    ensures NonSpaceChars(a + b) == NonSpaceChars(a) + NonSpaceChars(b)
    decreases |a|
  {
    if |a| > 0 {
      assert (a + b)[0] == a[0];
      assert (a + b)[1..] == a[1..] + b;
      NonSpaceCharsAppend(a[1..], b);
    } else {
      assert a + b == b;
    }
  }

  /** A string without whitespace is unchanged by removing whitespace. */
  lemma {:induction false} NonSpaceCharsOfWord(w: string)
    requires forall k :: 0 <= k < |w| ==> !IsSpace(w[k])
    ensures NonSpaceChars(w) == w
    decreases |w|
  {
    if |w| > 0 {
      NonSpaceCharsOfWord(w[1..]);
    }
  }

  /** The concatenation of a list of strings. */
  function Concat(xs: seq<string>): string
    decreases |xs|
  {
    if |xs| == 0 then "" else xs[0] + Concat(xs[1..])
  }

  /**
   * Python's `s.split()` with no argument: the maximal runs of non-space
   * characters.  There is one piece per run, and the pieces together hold
   * exactly the non-space characters of `s`, in order.
   */
  function Split(s: string): (ws: seq<string>)
    ensures forall k :: 0 <= k < |ws| ==> |ws[k]| > 0
    ensures forall k, c :: 0 <= k < |ws| && c in ws[k] ==> !IsSpace(c)
    ensures |ws| == RunCount(s, NonSpace)
    ensures Concat(ws) == NonSpaceChars(s)
    decreases |s|
  {
    if |s| == 0 then []
    else if IsSpace(s[0]) then
      SplitSpaceStep(s);
      Split(s[1..])
    else
      var j := WordEnd(s, 0);
      SplitWordStep(s, j);
      [s[..j]] + Split(s[j..])
  }

  /** A leading space neither starts a word nor survives whitespace removal. */
  lemma SplitSpaceStep(s: string)
    requires |s| > 0 && IsSpace(s[0])
    ensures RunCount(s, NonSpace) == RunCount(s[1..], NonSpace)
    ensures NonSpaceChars(s) == NonSpaceChars(s[1..])
  {
    RunsShift(s, NonSpace, 1, 0);
  }

  /** A leading word of length `j` is one run, and its characters come first after whitespace removal. */
  lemma SplitWordStep(s: string, j: nat)
    requires 0 < |s| && !IsSpace(s[0]) && j == WordEnd(s, 0)
    ensures 0 < j <= |s|
    ensures RunCount(s, NonSpace) == 1 + RunCount(s[j..], NonSpace)
    ensures NonSpaceChars(s) == s[..j] + NonSpaceChars(s[j..])
  {
    assert RunStart(s, NonSpace, 0);
    RunsSkip(s, NonSpace, 1, j);
    RunsShift(s, NonSpace, j, 0);
    assert s == s[..j] + s[j..];
    NonSpaceCharsAppend(s[..j], s[j..]);
    NonSpaceCharsOfWord(s[..j]);
  }

  /** A string without whitespace. */
  ghost predicate IsWord(w: string) {
    |w| > 0 && forall c :: c in w ==> !IsSpace(c)
  }

  /** Leading whitespace does not change the split. */
  lemma SplitSkipsSpace(t: string)
    ensures Split(" " + t) == Split(t)
  {
    assert (" " + t)[1..] == t;
  }

  /** A word followed by whitespace or the end of text is the first piece. */
  lemma SplitWord(w: string, t: string)
    requires IsWord(w)
    requires |t| == 0 || IsSpace(t[0])
    ensures Split(w + t) == [w] + Split(t)
  {
    var s := w + t;
    assert forall k :: 0 <= k < |w| ==> s[k] == w[k] && w[k] in w;
    assert |t| > 0 ==> s[|w|] == t[0];
    var j := WordEnd(s, 0);
    assert j == |w|;
    assert s[..j] == w;
    assert s[j..] == t;
  }

  /**
   * `s.split()` inverts `" ".join(ws)` whenever the words are non-empty and
   * contain no whitespace.
   */
  lemma {:induction false} SplitJoin(ws: seq<string>)
    requires forall k :: 0 <= k < |ws| ==> IsWord(ws[k])
    ensures Split(Join(" ", ws)) == ws
    decreases |ws|
  {
    if |ws| == 0 {
    } else if |ws| == 1 {
      SplitWord(ws[0], "");
      assert ws[0] + "" == ws[0];
    } else {
      var rest := Join(" ", ws[1..]);
      assert Join(" ", ws) == ws[0] + (" " + rest);
      SplitWord(ws[0], " " + rest);
      SplitSkipsSpace(rest);
      SplitJoin(ws[1..]);
      assert [ws[0]] + ws[1..] == ws;
    }
  }

  /** Index of the first character of `s` at or after `i` that lies in `delims`, or `|s|`. */
  function FirstIn(s: string, delims: set<char>, i: nat): (j: nat)
    requires i <= |s|
    ensures i <= j <= |s|
    ensures forall k :: i <= k < j ==> s[k] !in delims
    ensures j < |s| ==> s[j] in delims
    decreases |s| - i
  {
    if i == |s| || s[i] in delims then i else FirstIn(s, delims, i + 1)
  }

  /** Index just past the run of `delims` characters starting at `i`. */
  function RunEnd(s: string, delims: set<char>, i: nat): (j: nat)
    requires i <= |s|
    ensures i <= j <= |s|
    ensures forall k :: i <= k < j ==> s[k] in delims
    ensures j < |s| ==> s[j] !in delims
    decreases |s| - i
  {
    if i == |s| || s[i] !in delims then i else RunEnd(s, delims, i + 1)
  }

  /** Some character of `s` lies in `delims`. */
  ghost predicate HasDelimiter(s: string, delims: set<char>) {
    exists k :: 0 <= k < |s| && s[k] in delims
  }

  /**
   * `re.split('[D]+', s)`: the pieces between maximal runs of delimiter
   * characters, with an empty piece where a run touches either end.
   */
  function ReSplit(s: string, delims: set<char>): (pieces: seq<string>)
    ensures |pieces| >= 1
    ensures |pieces| >= 2 <==> HasDelimiter(s, delims)
    ensures forall k, c :: 0 <= k < |pieces| && c in pieces[k] ==> c !in delims
    ensures |pieces| == 1 + RunCount(s, Delimiters(delims))
    decreases |s|
  {
    var i := FirstIn(s, delims, 0);
    if i == |s| then
      ReSplitNoRun(s, delims);
      [s]
    else
      var j := RunEnd(s, delims, i);
      ReSplitRunStep(s, delims, i, j);
      [s[..i]] + ReSplit(s[j..], delims)
  }

  /** Without a delimiter there is no delimiter run. */
  lemma ReSplitNoRun(s: string, delims: set<char>)
    requires FirstIn(s, delims, 0) == |s|
    ensures RunCount(s, Delimiters(delims)) == 0
  {
    RunsSkip(s, Delimiters(delims), 0, |s|);
  }

  /** The first delimiter run, from `i` to `j`, accounts for one run; the rest are those after it. */
  lemma ReSplitRunStep(s: string, delims: set<char>, i: nat, j: nat)
    requires i == FirstIn(s, delims, 0) && i < |s| && j == RunEnd(s, delims, i)
    ensures RunCount(s, Delimiters(delims)) == 1 + RunCount(s[j..], Delimiters(delims))
  {
    var cls := Delimiters(delims);
    RunsSkip(s, cls, 0, i);
    assert RunStart(s, cls, i);
    RunsSkip(s, cls, i + 1, j);
    RunsShift(s, cls, j, 0);
  }

  /**
   * At least two separate groups of delimiters: a delimiter, then a
   * non-delimiter, then a delimiter again.
   */
  ghost predicate TwoGroups(s: string, delims: set<char>) {
    exists i, k, j :: 0 <= i < k < j < |s| && s[i] in delims && s[k] !in delims && s[j] in delims
  }

  /** More than two pieces means a delimiter, a non-delimiter after its run, and a later delimiter. */
  lemma ReSplitMoreThanTwoOnlyIf(s: string, delims: set<char>)
    requires |ReSplit(s, delims)| > 2
    ensures TwoGroups(s, delims)
  {
    var i := FirstIn(s, delims, 0);
    assert i < |s|;
    var j := RunEnd(s, delims, i);
    var rest := s[j..];
    assert ReSplit(s, delims) == [s[..i]] + ReSplit(rest, delims);
    assert |ReSplit(rest, delims)| >= 2;
    assert HasDelimiter(rest, delims);
    var p :| 0 <= p < |rest| && rest[p] in delims;
    assert j < |s| && s[j] == rest[0];
    assert p > 0;
    assert s[j + p] == rest[p];
    assert s[i] in delims && s[j] !in delims && s[j + p] in delims;
  }

  /** Two separate delimiter groups leave a delimiter in what follows the first run, so a third piece. */
  lemma ReSplitMoreThanTwoIf(s: string, delims: set<char>)
    requires TwoGroups(s, delims)
    ensures |ReSplit(s, delims)| > 2
  {
    var a, k, b :| 0 <= a < k < b < |s| && s[a] in delims && s[k] !in delims && s[b] in delims;
    var i := FirstIn(s, delims, 0);
    assert i <= a;
    var j := RunEnd(s, delims, i);
    assert k >= j;
    var rest := s[j..];
    assert rest[b - j] == s[b];
    assert HasDelimiter(rest, delims);
    assert ReSplit(s, delims) == [s[..i]] + ReSplit(rest, delims);
  }

  /** `re.split('[D]+', s)` has more than two pieces exactly when there are two separate delimiter groups. */
  lemma ReSplitMoreThanTwo(s: string, delims: set<char>)
    ensures |ReSplit(s, delims)| > 2 <==> TwoGroups(s, delims)
  {
    if |ReSplit(s, delims)| > 2 {
      ReSplitMoreThanTwoOnlyIf(s, delims);
    }
    if TwoGroups(s, delims) {
      ReSplitMoreThanTwoIf(s, delims);
    }
  }
}
