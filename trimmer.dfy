/**
 * The blank-paragraph trimmer as a specification: repeatedly drop the body's
 * last paragraph while it is blank and carries no formatting to preserve.
 */
module Trimmer {
  import opened Text
  import opened Seqs
  import opened Elements
  import opened Classifier

  /**
   * The last paragraph may go when its stripped text is empty, no run breaks the
   * page or is bold, italic or underlined, and (for a paragraph with runs) every
   * run's stripped text is empty.
   */
  predicate Removable(e: Element) {
    e.Para? && Blank(ParaText(e)) && !HasSpecialFormatting(e)
  }

  predicate NotRemovable(e: Element) { !Removable(e) }

  /** A paragraph the trimmer stops at. */
  predicate Kept(e: Element) { e.Para? && !Removable(e) }

  /**
   * The loop's own test (blank text, no special formatting, then either no runs
   * or only runs whose stripped text is empty) removes exactly the Removable
   * paragraphs: once the paragraph text is blank the per-run check cannot fail.
   */
  lemma RemovableIff(e: Element)
    ensures Removable(e) <==>
            e.Para? && Blank(ParaText(e)) && !HasSpecialFormatting(e) &&
            (|e.runs| == 0 || forall j | 0 <= j < |e.runs| :: Blank(e.runs[j].text))
  {
    if e.Para? {
      RunsTextBlank(e.runs);
    }
  }

  /** Non-blank paragraphs and tables are never removable. */
  lemma ContentNotRemovable(e: Element)
    requires IsContent(e)
    ensures NotRemovable(e)
  {
  }

  /** The trimmer has nothing left to do: no paragraph, or a last paragraph it keeps. */
  predicate EndsClean(b: Body) {
    var l := LastParagraphIndex(b);
    l.None? || !Removable(b[l.value])
  }

  /** _clean_empty_paragraphs_at_end, one removal per step, run to a fixed point. */
  function Trimmed(b: Body): (r: Body)
    ensures |r| <= |b|
    decreases |b|
  {
    var last := LastParagraphIndex(b);
    if last.Some? && Removable(b[last.value]) then
      Trimmed(b[..last.value] + b[last.value + 1..])
    else b
  }

  /** One past the index of the last paragraph the trimmer keeps (0 if none). */
  function KeepLength(b: Body): (n: nat)
    ensures n <= |b|
    ensures n > 0 ==> Kept(b[n - 1])
    ensures forall j | n <= j < |b| :: !Kept(b[j])
  {
    LastEnd(b, Kept, |b|)
  }

  lemma KeepLengthUnique(b: Body, n: nat)
    requires n <= |b|
    requires n > 0 ==> Kept(b[n - 1])
    requires forall j | n <= j < |b| :: !Kept(b[j])
    ensures n == KeepLength(b)
  {
    LastEndUnique(b, Kept, |b|, n);
  }

  /** Removing a paragraph the trimmer does not keep, past which no paragraph follows, keeps KeepLength. */
  lemma RemoveAtKeepLength(b: Body, i: nat)
    requires i < |b| && b[i].Para? && !Kept(b[i])
    requires forall j | i < j < |b| :: !b[j].Para?
    ensures KeepLength(b) <= i
    ensures KeepLength(b[..i] + b[i + 1..]) == KeepLength(b)
  {
    RemoveAtLastEnd(b, Kept, i);
  }

  /** Dropping a paragraph at or after k leaves the same prefix and the same non-paragraphs. */
  lemma RemoveAtFilter(b: Body, i: nat, k: nat)
    requires k <= i < |b| && b[i].Para?
    ensures (b[..i] + b[i + 1..])[..k] + Filter((b[..i] + b[i + 1..])[k..], IsNotPara)
         == b[..k] + Filter(b[k..], IsNotPara)
  {
    var b' := b[..i] + b[i + 1..];
    assert b[k..] == b[k..i] + [b[i]] + b[i + 1..];
    assert b'[k..] == b[k..i] + b[i + 1..];
    assert b'[..k] == b[..k];
    FilterAppend(b[k..i] + [b[i]], b[i + 1..], IsNotPara);
    FilterAppend(b[k..i], [b[i]], IsNotPara);
    FilterAppend(b[k..i], b[i + 1..], IsNotPara);
    assert Filter([b[i]], IsNotPara) == [];
  }

  /**
   * What the trimmer leaves: everything up to and including the last paragraph
   * it keeps, then only the non-paragraph elements after it, in order.
   */
  lemma {:induction false} TrimmedShape(b: Body)
    ensures Trimmed(b) == b[..KeepLength(b)] + Filter(b[KeepLength(b)..], IsNotPara)
    decreases |b|
  {
    match LastParagraphIndex(b)
    case None =>
      KeepLengthUnique(b, 0);
      FilterAll(b, IsNotPara);
    case Some(i) =>
      if Removable(b[i]) {
        var b' := b[..i] + b[i + 1..];
        assert Trimmed(b) == Trimmed(b');
        RemoveAtKeepLength(b, i);
        TrimmedShape(b');
        RemoveAtFilter(b, i, KeepLength(b));
      } else {
        KeepLengthUnique(b, i + 1);
        FilterAll(b[i + 1..], IsNotPara);
        assert b == b[..i + 1] + b[i + 1..];
      }
  }

  /** The trimmer stops only when the last paragraph must stay or none remain. */
  lemma {:induction false} TrimmedEndsClean(b: Body)
    ensures EndsClean(Trimmed(b))
    decreases |b|
  {
    match LastParagraphIndex(b)
    case None =>
    case Some(i) =>
      if Removable(b[i]) {
        TrimmedEndsClean(b[..i] + b[i + 1..]);
      }
  }

  /** A body is left unchanged by the trimmer exactly when it already ends clean. */
  lemma TrimmedFixedPointIff(b: Body)
    ensures Trimmed(b) == b <==> EndsClean(b)
  {
    TrimmedEndsClean(b);
  }

  /** Trimming twice gives the same body as trimming once. */
  lemma TrimmedIdempotent(b: Body)
    ensures Trimmed(Trimmed(b)) == Trimmed(b)
  {
    TrimmedEndsClean(b);
    TrimmedFixedPointIff(Trimmed(b));
  }

  /**
   * A selection q that meets no paragraph past k sees the same elements in the
   * trimmer's closed form as in the body.
   */
  lemma ShapeFilter(b: Body, k: nat, q: Element -> bool)
    requires k <= |b|
    requires forall j | k <= j < |b| :: q(b[j]) ==> !b[j].Para?
    ensures Filter(b[..k] + Filter(b[k..], IsNotPara), q) == Filter(b, q)
  {
    assert b == b[..k] + b[k..];
    assert Filter(Filter(b[k..], IsNotPara), q) == Filter(b[k..], q) by {
      FilterFilter(b[k..], IsNotPara, q);
    }
    FilterAppend(b[..k], Filter(b[k..], IsNotPara), q);
    FilterAppend(b[..k], b[k..], q);
  }

  /**
   * Only removable paragraphs go: tables, other elements and every paragraph
   * the trimmer must keep all survive, in their original order.
   */
  lemma TrimmedKeepsNotRemovable(b: Body)
    ensures Filter(Trimmed(b), NotRemovable) == Filter(b, NotRemovable)
    ensures Filter(Trimmed(b), IsNotPara) == Filter(b, IsNotPara)
  {
    var k := KeepLength(b);
    TrimmedShape(b);
    ShapeFilter(b, k, NotRemovable);
    ShapeFilter(b, k, IsNotPara);
  }

  /** The trimmer never removes content: tables and non-blank paragraphs all stay. */
  lemma TrimmedContent(b: Body)
    ensures Content(Trimmed(b)) == Content(b)
  {
    TrimmedKeepsNotRemovable(b);
    forall e: Element ensures IsContent(e) ==> NotRemovable(e) { }
    FilterFilter(Trimmed(b), NotRemovable, IsContent);
    FilterFilter(b, NotRemovable, IsContent);
  }

  /** In a body that ends clean, no paragraph follows the last kept one. */
  lemma EndsCleanTail(t: Body, r: Body)
    requires EndsClean(t)
    ensures forall j | KeepLength(t + r) <= j < |t| :: !t[j].Para?
  {
    var x := t + r;
    var k := KeepLength(x);
    var last := LastParagraphIndex(t);
    if last.Some? {
      assert Kept(x[last.value]);
    }
  }

  /** Sequence algebra for TrimmedExtends: the closed form keeps a prefix t of x when only non-paragraphs of t follow k. */
  lemma ShapeExtends(x: Body, t: Body, k: nat)
    requires t <= x && k <= |x|
    requires forall j | k <= j < |t| :: !x[j].Para?
    ensures t <= x[..k] + Filter(x[k..], IsNotPara)
  {
    var r := x[|t|..];
    assert x == t + r;
    if k < |t| {
      assert x[..k] == t[..k];
      assert x[k..] == t[k..] + r;
      assert Filter(x[k..], IsNotPara) == t[k..] + Filter(r, IsNotPara) by {
        FilterAppend(t[k..], r, IsNotPara);
        FilterAll(t[k..], IsNotPara);
      }
      assert t[..k] + (t[k..] + Filter(r, IsNotPara)) == t + Filter(r, IsNotPara);
    } else {
      assert x[..k] == t + x[|t|..k];
    }
  }

  /** Appending after a body that already ends clean never trims into that body. */
  lemma TrimmedExtends(t: Body, r: Body)
    requires EndsClean(t)
    ensures t <= Trimmed(t + r)
  {
    var x := t + r;
    var k := KeepLength(x);
    assert Trimmed(x) == x[..k] + Filter(x[k..], IsNotPara) by {
      TrimmedShape(x);
    }
    assert forall j | k <= j < |t| :: !x[j].Para? by {
      EndsCleanTail(t, r);
    }
    ShapeExtends(x, t, k);
  }
}
