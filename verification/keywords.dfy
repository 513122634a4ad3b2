/**
 * Keyword-table matching, the building block of every heuristic of the
 * chatbot.  The ghost predicates say what a match over a table means; the
 * functions compute it by scanning the table in order, as the Python
 * generator expressions do.
 */
module Keywords {
  import opened Wrappers
  import opened Strings
  import opened Words
  import opened Tables

  /** Some entry of `table` is a substring of `s`. */
  ghost predicate HasAny(s: string, table: seq<string>) {
    exists k :: 0 <= k < |table| && Occurs(s, table[k])
  }

  /** Two different entries of `table` are substrings of `s`. */
  ghost predicate HasTwo(s: string, table: seq<string>) {
    exists a, b :: 0 <= a < b < |table| && Occurs(s, table[a]) && Occurs(s, table[b])
  }

  /** `table[k]` is the first entry, in table order, that is a substring of `s`. */
  ghost predicate FirstOccurring(s: string, table: seq<string>, k: int) {
    0 <= k < |table| && Occurs(s, table[k]) && forall j :: 0 <= j < k ==> !Occurs(s, table[j])
  }

  /** Some entry of `table` matches `s` as a whole word (`\b...\b`). */
  ghost predicate HasWord(s: string, table: seq<string>) {
    exists k :: 0 <= k < |table| && WordOccurs(s, table[k])
  }

  /** Two different entries of `table` match `s` as whole words. */
  ghost predicate HasTwoWords(s: string, table: seq<string>) {
    exists a, b :: 0 <= a < b < |table| && WordOccurs(s, table[a]) && WordOccurs(s, table[b])
  }

  /** `any(kw in s for kw in table)`. */
  function ContainsAny(s: string, table: seq<string>): (r: bool)
    ensures r <==> HasAny(s, table)
  {
    Any(table, kw => Contains(s, kw))
  }

  /** `sum(1 for kw in table if kw in s) >= 2`. */
  function ContainsTwo(s: string, table: seq<string>): (r: bool)
    ensures r <==> HasTwo(s, table)
  {
    Count(table, kw => Contains(s, kw)) >= 2
  }

  /** `for kw in table: if kw in s: return kw`, with `None` when the loop finishes. */
  function FirstContained(s: string, table: seq<string>): (r: Option<string>)
    ensures r.None? <==> !HasAny(s, table)
    ensures forall k :: FirstOccurring(s, table, k) ==> r == Some(table[k])
    ensures r.Some? ==> exists k :: FirstOccurring(s, table, k) && r.value == table[k]
  {
    var r := First(table, kw => Contains(s, kw));
    assert forall k :: FirstOccurring(s, table, k) <==> IsFirst(table, kw => Contains(s, kw), k);
    r
  }

  /** `[kw for kw in table if kw in s]`. */
  function FilterContained(s: string, table: seq<string>): (r: seq<string>)
    ensures SubseqOf(r, table)
    ensures forall k :: 0 <= k < |r| ==> r[k] in table && Occurs(s, r[k])
    ensures forall k :: 0 <= k < |table| && Occurs(s, table[k]) ==> table[k] in r
    ensures NoDup(table) ==> NoDup(r)
  {
    Filter(table, kw => Contains(s, kw))
  }

  /** Two contained entries leave at least two in the filtered list. */
  lemma FilterContainedTwoIf(s: string, table: seq<string>)
    requires HasTwo(s, table)
    ensures |FilterContained(s, table)| >= 2
  {
    var p := kw => Contains(s, kw);
    FilterCount(table, p);
    var a, b :| 0 <= a < b < |table| && Occurs(s, table[a]) && Occurs(s, table[b]);
    assert p(table[a]) && p(table[b]);
  }

  /** Two filtered entries are two contained entries. */
  lemma FilterContainedTwoOnlyIf(s: string, table: seq<string>)
    requires |FilterContained(s, table)| >= 2
    ensures HasTwo(s, table)
  {
    var p := kw => Contains(s, kw);
    FilterCount(table, p);
    var a, b :| 0 <= a < b < |table| && p(table[a]) && p(table[b]);
    assert Occurs(s, table[a]) && Occurs(s, table[b]);
  }

  /** Two entries occur exactly when the filtered list has at least two elements. */
  lemma FilterContainedTwo(s: string, table: seq<string>)
    ensures |FilterContained(s, table)| >= 2 <==> HasTwo(s, table)
  {
    if HasTwo(s, table) {
      FilterContainedTwoIf(s, table);
    }
    if |FilterContained(s, table)| >= 2 {
      FilterContainedTwoOnlyIf(s, table);
    }
  }

  /** `[kw for kw in table if re.search(r'\b' + re.escape(kw) + r'\b', s)]`. */
  function FilterWords(s: string, table: seq<string>): (r: seq<string>)
    ensures |r| <= |table|
    ensures SubseqOf(r, table)
    ensures forall k :: 0 <= k < |r| ==> r[k] in table && WordOccurs(s, r[k])
    ensures forall k :: 0 <= k < |table| && WordOccurs(s, table[k]) ==> table[k] in r
    ensures NoDup(table) ==> NoDup(r)
  {
    Filter(table, kw => SearchWord(s, kw))
  }

  /** The whole-word filter keeps some entry exactly when some entry matches. */
  lemma FilterWordsOne(s: string, table: seq<string>)
    ensures |FilterWords(s, table)| >= 1 <==> HasWord(s, table)
  {
    var p := kw => SearchWord(s, kw);
    FilterCount(table, p);
    if HasWord(s, table) {
      var k :| 0 <= k < |table| && WordOccurs(s, table[k]);
      assert p(table[k]);
    }
    if Count(table, p) >= 1 {
      var k :| 0 <= k < |table| && p(table[k]);
      assert WordOccurs(s, table[k]);
    }
  }

  /** Two matching entries leave at least two in the whole-word filter. */
  lemma FilterWordsTwoIf(s: string, table: seq<string>)
    requires HasTwoWords(s, table)
    ensures |FilterWords(s, table)| >= 2
  {
    var p := kw => SearchWord(s, kw);
    FilterCount(table, p);
    var a, b :| 0 <= a < b < |table| && WordOccurs(s, table[a]) && WordOccurs(s, table[b]);
    assert p(table[a]) && p(table[b]);
  }

  /** Two entries kept by the whole-word filter are two matching entries. */
  lemma FilterWordsTwoOnlyIf(s: string, table: seq<string>)
    requires |FilterWords(s, table)| >= 2
    ensures HasTwoWords(s, table)
  {
    var p := kw => SearchWord(s, kw);
    FilterCount(table, p);
    var a, b :| 0 <= a < b < |table| && p(table[a]) && p(table[b]);
    assert WordOccurs(s, table[a]) && WordOccurs(s, table[b]);
  }

  /** The whole-word filter keeps at least one, or two, entries exactly when that many match. */
  lemma FilterWordsThresholds(s: string, table: seq<string>)
    ensures |FilterWords(s, table)| >= 1 <==> HasWord(s, table)
    ensures |FilterWords(s, table)| >= 2 <==> HasTwoWords(s, table)
  {
    FilterWordsOne(s, table);
    if HasTwoWords(s, table) {
      FilterWordsTwoIf(s, table);
    }
    if |FilterWords(s, table)| >= 2 {
      FilterWordsTwoOnlyIf(s, table);
    }
  }

  /** `re.search(r'\b(a|b|...)\b', s)` for the alternatives in `table`. */
  function SearchAnyWord(s: string, table: seq<string>): (r: bool)
    ensures r <==> HasWord(s, table)
  {
    Any(table, kw => SearchWord(s, kw))
  }

  /** Adding text around `s` never loses a table match. */
  lemma HasAnyExtend(s: string, table: seq<string>, before: string, after: string)
    requires HasAny(s, table)
    ensures HasAny(before + s + after, table)
  {
    var k :| 0 <= k < |table| && Occurs(s, table[k]);
    OccursExtend(s, table[k], before, after);
  }

  /** Lower-casing both sides of an extension: a match in the lowered text survives. */
  lemma HasAnyExtendLower(s: string, table: seq<string>, before: string, after: string)
    requires HasAny(Lower(s), table)
    ensures HasAny(Lower(before + s + after), table)
  {
    LowerAppend(before + s, after);
    LowerAppend(before, s);
    HasAnyExtend(Lower(s), table, Lower(before), Lower(after));
  }
}
