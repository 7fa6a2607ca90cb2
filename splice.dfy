/**
 * The splice window of _append_document: which elements of a source body are
 * copied into the master, and the two loops that compute it.
 */
module Splice {
  import opened Text
  import opened Seqs
  import opened Elements
  import opened Classifier

  /**
   * An element the copy loop passes over: a paragraph with blank text and no
   * page break that is not the source's last element.
   */
  predicate Skipped(s: Body, j: nat)
    requires j < |s|
  {
    s[j].Para? && Blank(ParaText(s[j])) && !HasPageBreak(s[j]) && j != |s| - 1
  }

  /** The elements of s[lo..hi] that are not skipped, in source order. */
  function SpliceRange(s: Body, lo: nat, hi: nat): Body
    requires lo <= hi <= |s|
    decreases hi - lo
  {
    if hi == lo then []
    else SpliceRange(s, lo, hi - 1) + (if Skipped(s, hi - 1) then [] else [s[hi - 1]])
  }

  /** The copied elements: from the first content element on, minus the skipped ones. */
  function SpliceWindow(s: Body): Body {
    SpliceRange(s, FirstContentIndex(s), |s|)
  }

  /** Any selection q that no skipped element meets sees the same elements in the range as in the source. */
  lemma {:induction false} SpliceRangeFilter(s: Body, lo: nat, hi: nat, q: Element -> bool)
    requires lo <= hi <= |s|
    requires forall j | lo <= j < hi :: Skipped(s, j) ==> !q(s[j])
    ensures Filter(SpliceRange(s, lo, hi), q) == Filter(s[lo..hi], q)
    decreases hi - lo
  {
    if hi > lo {
      var tail := if Skipped(s, hi - 1) then [] else [s[hi - 1]];
      assert Filter(tail, q) == Filter([s[hi - 1]], q) by {
        assert Skipped(s, hi - 1) ==> !q(s[hi - 1]);
      }
      assert Filter(SpliceRange(s, lo, hi - 1), q) == Filter(s[lo..hi - 1], q) by {
        SpliceRangeFilter(s, lo, hi - 1, q);
      }
      FilterAppend(SpliceRange(s, lo, hi - 1), tail, q);
      assert s[lo..hi] == s[lo..hi - 1] + [s[hi - 1]];
      FilterAppend(s[lo..hi - 1], [s[hi - 1]], q);
    }
  }

  /** Every table and non-blank paragraph of the source is copied, in order. */
  lemma SpliceWindowContent(s: Body)
    ensures Content(SpliceWindow(s)) == Content(s)
  {
    var start := FirstContentIndex(s);
    SpliceRangeFilter(s, start, |s|, IsContent);
    assert s[start..|s|] == s[start..];
    assert s == s[..start] + s[start..];
    FilterAppend(s[..start], s[start..], IsContent);
    FilterNone(s[..start], IsContent);
  }

  /**
   * Tables and other non-paragraph elements from the first content element on
   * are all copied, and so is every paragraph holding a page break.
   */
  lemma SpliceWindowKeepsStructure(s: Body)
    ensures Filter(SpliceWindow(s), IsNotPara) == Filter(s[FirstContentIndex(s)..], IsNotPara)
    ensures Filter(SpliceWindow(s), HasPageBreak) == Filter(s[FirstContentIndex(s)..], HasPageBreak)
  {
    var start := FirstContentIndex(s);
    assert s[start..|s|] == s[start..];
    SpliceRangeFilter(s, FirstContentIndex(s), |s|, IsNotPara);
    SpliceRangeFilter(s, FirstContentIndex(s), |s|, HasPageBreak);
  }

  /** The source's last element is always copied, and copied last. */
  lemma SpliceWindowKeepsLast(s: Body)
    requires s != []
    ensures SpliceWindow(s) != [] && SpliceWindow(s)[|SpliceWindow(s)| - 1] == s[|s| - 1]
  {
  }

  /** The first-content scan of _append_document, as its loop with an early exit. */
  method ScanFirstContent(elements: Body) returns (start: nat)
    ensures start == FirstContentIndex(elements)
  {
    start := 0;
    var idx := 0;
    while idx < |elements|
      invariant idx <= |elements|
      invariant forall j | 0 <= j < idx :: !IsContent(elements[j])
    {
      if IsContent(elements[idx]) {
        start := idx;
        return;
      }
      idx := idx + 1;
    }
  }

  /** The filtering copy loop of _append_document over elements[start..]. */
  method SelectElements(elements: Body, start: nat) returns (toAdd: Body)
    requires start <= |elements|
    ensures toAdd == SpliceRange(elements, start, |elements|)
  {
    toAdd := [];
    var idx := start;
    while idx < |elements|
      invariant start <= idx <= |elements|
      invariant toAdd == SpliceRange(elements, start, idx)
    {
      var element := elements[idx];
      if element.Para? {
        var text := ParaText(element);
        var hasBreak := HasPageBreak(element);
        if Blank(text) && !hasBreak && idx != |elements| - 1 {
          idx := idx + 1;
          continue;
        }
      }
      toAdd := toAdd + [element];
      idx := idx + 1;
    }
  }
}
