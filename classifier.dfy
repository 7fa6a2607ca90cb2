/**
 * The content classifier: whether a body carries real content, and where its
 * first and last content-bearing elements are.
 */
module Classifier {
  import opened Wrappers
  import opened Text
  import opened Seqs
  import opened Elements

  /** Content-bearing: a table, or a paragraph whose stripped text is non-empty. */
  predicate IsContent(e: Element) {
    e.Table? || IsNonBlankPara(e)
  }

  /** The content-bearing elements of a body, in order. */
  function Content(b: Body): seq<Element> {
    Filter(b, IsContent)
  }

  /**
   * _has_real_content: no paragraphs and no tables means no content; then any
   * paragraph with non-blank text, then any table, counts as content.
   */
  function HasRealContent(b: Body): (r: bool)
    ensures r <==> exists i | 0 <= i < |b| :: IsContent(b[i])
  {
    var paras := Paragraphs(b);
    var tables := Tables(b);
    ContentFromViews(b);
    if |paras| == 0 && |tables| == 0 then false
    else if exists i | 0 <= i < |paras| :: !Blank(ParaText(paras[i])) then true
    else |tables| > 0
  }

  /** Content of a body, read through its paragraph and table views. */
  lemma ContentFromViews(b: Body)
    ensures (exists i | 0 <= i < |b| :: IsContent(b[i])) <==>
            (exists i | 0 <= i < |Paragraphs(b)| :: !Blank(ParaText(Paragraphs(b)[i]))) || |Tables(b)| > 0
  {
    if exists i | 0 <= i < |b| :: IsContent(b[i]) {
      var i :| 0 <= i < |b| && IsContent(b[i]);
      if b[i].Table? {
        FilterMember(b, IsTable, b[i]);
      } else {
        FilterMember(b, IsPara, b[i]);
        var j :| 0 <= j < |Paragraphs(b)| && Paragraphs(b)[j] == b[i];
      }
    }
    if exists i | 0 <= i < |Paragraphs(b)| :: !Blank(ParaText(Paragraphs(b)[i])) {
      var i :| 0 <= i < |Paragraphs(b)| && !Blank(ParaText(Paragraphs(b)[i]));
      FilterMember(b, IsPara, Paragraphs(b)[i]);
    } else if |Tables(b)| > 0 {
      FilterMember(b, IsTable, Tables(b)[0]);
    }
  }

  /**
   * The classifier's property in the terms of the library views: a body has no
   * real content exactly when all its paragraphs are blank and it has no table.
   */
  lemma HasRealContentIff(b: Body)
    ensures !HasRealContent(b) <==>
            (forall e | e in Paragraphs(b) :: Blank(ParaText(e))) && TableCount(b) == 0
  {
    ContentFromViews(b);
  }

  /** A body without real content holds no non-blank paragraph and no table. */
  lemma NoContentCountsZero(b: Body)
    requires !HasRealContent(b)
    ensures NonBlankParagraphCount(b) == 0 && TableCount(b) == 0 && Content(b) == []
  {
    FilterNone(b, IsNonBlankPara);
    FilterNone(b, IsTable);
    FilterNone(b, IsContent);
  }

  /**
   * _get_last_meaningful_element: scanning from the end, the first table or
   * non-blank paragraph; the index of that element, or None.
   */
  function LastMeaningfulElement(b: Body): (r: Option<nat>)
    ensures r.Some? ==> r.value < |b| && IsContent(b[r.value]) &&
                        forall j | r.value < j < |b| :: !IsContent(b[j])
    ensures r.None? ==> forall j | 0 <= j < |b| :: !IsContent(b[j])
  {
    if b == [] then None
    else if IsContent(b[|b| - 1]) then Some(|b| - 1)
    else LastMeaningfulElement(b[..|b| - 1])
  }

  /**
   * The first-content scan of _append_document: the index of the first table
   * or non-blank paragraph, and 0 when there is none.
   */
  function FirstContentIndex(b: Body): (r: nat)
    ensures (exists i | 0 <= i < |b| :: IsContent(b[i])) ==>
              r < |b| && IsContent(b[r]) && forall j | 0 <= j < r :: !IsContent(b[j])
    ensures (forall i | 0 <= i < |b| :: !IsContent(b[i])) ==> r == 0
  {
    FirstContentFrom(b, 0)
  }

  function FirstContentFrom(b: Body, k: nat): (r: nat)
    requires k <= |b|
    requires forall j | 0 <= j < k :: !IsContent(b[j])
    ensures (exists i | k <= i < |b| :: IsContent(b[i])) ==>
              k <= r < |b| && IsContent(b[r]) && forall j | 0 <= j < r :: !IsContent(b[j])
    ensures (forall i | k <= i < |b| :: !IsContent(b[i])) ==> r == 0
    decreases |b| - k
  {
    if k == |b| then 0
    else if IsContent(b[k]) then k
    else FirstContentFrom(b, k + 1)
  }

  /** doc.paragraphs[-1]: the index of the body's last paragraph, or None. */
  function LastParagraphIndex(b: Body): (r: Option<nat>)
    ensures r.Some? ==> r.value < |b| && b[r.value].Para? &&
                        forall j | r.value < j < |b| :: !b[j].Para?
    ensures r.None? ==> forall j | 0 <= j < |b| :: !b[j].Para?
  {
    if b == [] then None
    else if b[|b| - 1].Para? then Some(|b| - 1)
    else LastParagraphIndex(b[..|b| - 1])
  }

  /** doc.paragraphs[0]: the index of the body's first paragraph, or None. */
  function FirstParagraphIndex(b: Body): (r: Option<nat>)
    ensures r.Some? ==> r.value < |b| && b[r.value].Para? &&
                        forall j | 0 <= j < r.value :: !b[j].Para?
    ensures r.None? ==> forall j | 0 <= j < |b| :: !b[j].Para?
  {
    if b == [] then None
    else if b[0].Para? then Some(0)
    else
      var r := FirstParagraphIndex(b[1..]);
      if r.Some? then Some(r.value + 1) else None
  }

  /** len(doc.paragraphs) > 0 exactly when doc.paragraphs[0] and doc.paragraphs[-1] exist. */
  lemma ParagraphCountPositive(b: Body)
    ensures ParagraphCount(b) > 0 <==> LastParagraphIndex(b).Some?
    ensures ParagraphCount(b) > 0 <==> FirstParagraphIndex(b).Some?
  {
    var l := LastParagraphIndex(b);
    if l.Some? {
      FilterMember(b, IsPara, b[l.value]);
    } else {
      FilterNone(b, IsPara);
    }
  }

  /** The last content element is the only index that meets LastMeaningfulElement's contract. */
  lemma LastMeaningfulUnique(b: Body, r: Option<nat>)
    requires r.Some? ==> r.value < |b| && IsContent(b[r.value]) &&
                         forall j | r.value < j < |b| :: !IsContent(b[j])
    requires r.None? ==> forall j | 0 <= j < |b| :: !IsContent(b[j])
    ensures r == LastMeaningfulElement(b)
  {
  }

  /** A last meaningful element exists exactly when the body has real content. */
  lemma LastMeaningfulIffContent(b: Body)
    ensures LastMeaningfulElement(b).Some? <==> HasRealContent(b)
  {
  }

  /** A body has real content exactly when its content sequence is non-empty. */
  lemma HasRealContentIffContent(b: Body)
    ensures HasRealContent(b) <==> Content(b) != []
  {
    if HasRealContent(b) {
      var i :| 0 <= i < |b| && IsContent(b[i]);
      FilterMember(b, IsContent, b[i]);
    } else {
      FilterNone(b, IsContent);
    }
  }

  /** One content element is enough for real content. */
  lemma ContentWitness(b: Body, i: nat)
    requires i < |b| && IsContent(b[i])
    ensures HasRealContent(b)
  {
  }
}
