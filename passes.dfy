/**
 * The passes around the main loop: the cover page added to the first
 * document and the table of contents appended at the end.
 */
module Passes {
  import opened Wrappers
  import opened Text
  import opened Seqs
  import opened Elements
  import opened Classifier
  import opened Trimmer
  import opened Append

  const DefaultCoverTitle: string := "Documentos Combinados"
  const SubtitlePrefix: string := "Generado el "
  const TocTitle: string := "\U{CD}ndice de Contenidos"

  function CoverTitle(opts: Options): string {
    if opts.coverTitle.Some? then opts.coverTitle.value else DefaultCoverTitle
  }

  /**
   * The given subtitle, or when it is missing or empty "Generado el " and the
   * formatted current time, which is a parameter here.
   */
  function CoverSubtitle(opts: Options, now: string): (r: string)
    ensures r != ""
    ensures (opts.coverSubtitle.None? || opts.coverSubtitle == Some("")) ==> !Blank(r)
  {
    var given := if opts.coverSubtitle.Some? then opts.coverSubtitle.value else "";
    if given != "" then given
    else
      var r := SubtitlePrefix + now;
      assert !IsSpace(r[0]);
      r
  }

  function CoverInfo(opts: Options): string {
    if opts.coverInfo.Some? then opts.coverInfo.value else ""
  }

  /** The subtitle paragraph: its one run is set italic. */
  function SubtitleParagraph(text: string): (e: Element)
    ensures e.Para? && ParaText(e) == text && !HasPageBreak(e)
  {
    var runs := [Run(text, false, true, false, false, false)];
    assert runs[..0] == [] && RunsText(runs) == "" + text;
    Para(runs)
  }

  /**
   * The cover block for the given texts: the title paragraph, the subtitle
   * paragraph when the subtitle is not empty, the info paragraph when the
   * info is not empty.
   */
  function CoverBlockOf(title: string, subtitle: string, info: string): Body {
    [TextParagraph(title)] +
    (if subtitle != "" then [SubtitleParagraph(subtitle)] else []) +
    (if info != "" then [TextParagraph(info)] else [])
  }

  /** The block _add_cover_page appends at the end of the body. */
  function CoverBlock(opts: Options, now: string): Body {
    CoverBlockOf(CoverTitle(opts), CoverSubtitle(opts, now), CoverInfo(opts))
  }

  /** No paragraph of a cover block holds a page break; the block is never empty. */
  lemma CoverBlockNoBreak(title: string, subtitle: string, info: string)
    ensures var block := CoverBlockOf(title, subtitle, info);
            |block| > 0 && forall i | 0 <= i < |block| :: !HasPageBreak(block[i])
  {
    var block := CoverBlockOf(title, subtitle, info);
    forall i | 0 <= i < |block| ensures !HasPageBreak(block[i]) {
      var e := block[i];
      if e == TextParagraph(title) {
        NoSpecialNoBreak(e);
      } else if e == TextParagraph(info) {
        NoSpecialNoBreak(e);
      } else {
        assert e == SubtitleParagraph(subtitle);
      }
    }
  }

  lemma NoSpecialNoBreak(e: Element)
    requires !HasSpecialFormatting(e)
    ensures !HasPageBreak(e)
  {
  }

  /** A cover block has real content exactly when one of its three texts is not blank. */
  lemma CoverBlockContent(title: string, subtitle: string, info: string)
    ensures HasRealContent(CoverBlockOf(title, subtitle, info)) <==>
            !Blank(title) || !Blank(subtitle) || !Blank(info)
  {
    var block := CoverBlockOf(title, subtitle, info);
    if !Blank(title) {
      ContentWitness(block, 0);
    } else if !Blank(subtitle) {
      ContentWitness(block, 1);
    } else if !Blank(info) {
      ContentWitness(block, |block| - 1);
    } else {
      BlankCoverBlock(title, subtitle, info);
    }
  }

  lemma BlankCoverBlock(title: string, subtitle: string, info: string)
    requires Blank(title) && Blank(subtitle) && Blank(info)
    ensures !HasRealContent(CoverBlockOf(title, subtitle, info))
  {
    var block := CoverBlockOf(title, subtitle, info);
    forall i | 0 <= i < |block| ensures !IsContent(block[i]) {
      if i == 0 {
        assert block[i] == TextParagraph(title);
      } else if i == 1 && subtitle != "" {
        assert block[i] == SubtitleParagraph(subtitle);
      } else {
        assert block[i] == TextParagraph(info);
      }
    }
  }

  /** insert_paragraph_before on the first paragraph, when there is one. */
  function WithLeadingBlank(b: Body): Body {
    var first := FirstParagraphIndex(b);
    if first.Some? then b[..first.value] + [EmptyParagraph()] + b[first.value..] else b
  }

  /** The closing page break of the cover: only when the covered body has real content. */
  function ClosingBreak(covered: Body): Body {
    if HasRealContent(covered) then [PageBreakParagraph()] else []
  }

  /** A cover block put after the body, with its closing page break. */
  function Covered(b: Body, block: Body): Body {
    var covered := WithLeadingBlank(b) + block;
    covered + ClosingBreak(covered)
  }

  /** _add_cover_page, as the code does it. */
  function CoverPage(b: Body, opts: Options, now: string): Body {
    Covered(b, CoverBlock(opts, now))
  }

  /**
   * The body keeps every element in place except for one empty paragraph put
   * just before its first paragraph.
   */
  lemma CoverPageKeepsBody(b: Body, opts: Options, now: string)
    ensures var r := CoverPage(b, opts, now);
            var first := FirstParagraphIndex(b);
            |r| > |b| &&
            (first.None? ==> r[..|b|] == b) &&
            (first.Some? ==> r[..first.value] == b[..first.value] &&
                             r[first.value] == EmptyParagraph() &&
                             r[first.value + 1..|b| + 1] == b[first.value..])
  {
    var block := CoverBlock(opts, now);
    assert |block| > 0;
    CoveredKeepsBody(b, block);
  }

  lemma CoveredKeepsBody(b: Body, block: Body)
    requires |block| > 0
    ensures var r := Covered(b, block);
            var first := FirstParagraphIndex(b);
            |r| > |b| &&
            (first.None? ==> r[..|b|] == b) &&
            (first.Some? ==> r[..first.value] == b[..first.value] &&
                             r[first.value] == EmptyParagraph() &&
                             r[first.value + 1..|b| + 1] == b[first.value..])
  {
    var w := WithLeadingBlank(b);
    var rest := block + ClosingBreak(w + block);
    assert Covered(b, block) == w + rest;
    LeadingBlankLayout(b, rest);
  }

  /**
   * The cover block comes right after the body and its inserted empty
   * paragraph, and nothing but the optional closing page break follows it.
   */
  lemma CoverPagePlacement(b: Body, opts: Options, now: string)
    ensures var r := CoverPage(b, opts, now);
            var block := CoverBlock(opts, now);
            var k := |b| + (if FirstParagraphIndex(b).Some? then 1 else 0);
            k + |block| <= |r| && r[k..k + |block|] == block &&
            (r[k + |block|..] == [] || r[k + |block|..] == [PageBreakParagraph()])
  {
    CoveredPlacement(b, CoverBlock(opts, now));
  }

  lemma CoveredPlacement(b: Body, block: Body)
    ensures var r := Covered(b, block);
            var k := |b| + (if FirstParagraphIndex(b).Some? then 1 else 0);
            k + |block| <= |r| && r[k..k + |block|] == block &&
            (r[k + |block|..] == [] || r[k + |block|..] == [PageBreakParagraph()])
  {
    var w := WithLeadingBlank(b);
    var closing := ClosingBreak(w + block);
    LeadingBlankLength(b);
    ConcatParts(w, block, closing);
  }

  lemma LeadingBlankLength(b: Body)
    ensures |WithLeadingBlank(b)| == |b| + (if FirstParagraphIndex(b).Some? then 1 else 0)
  {
  }

  lemma ConcatParts<T>(a: seq<T>, m: seq<T>, z: seq<T>)
    ensures var r := a + m + z;
            r[|a|..|a| + |m|] == m && r[|a| + |m|..] == z
  {
  }

  lemma LeadingBlankLayout(b: Body, rest: Body)
    requires |rest| > 0
    ensures var r := WithLeadingBlank(b) + rest;
            var first := FirstParagraphIndex(b);
            |r| > |b| &&
            (first.None? ==> r[..|b|] == b) &&
            (first.Some? ==> r[..first.value] == b[..first.value] &&
                             r[first.value] == EmptyParagraph() &&
                             r[first.value + 1..|b| + 1] == b[first.value..])
  {
    var first := FirstParagraphIndex(b);
    if first.Some? {
      var f := first.value;
      var w := b[..f] + [EmptyParagraph()] + b[f..];
      assert (w + rest)[..f] == b[..f];
      assert (w + rest)[f + 1..|b| + 1] == b[f..];
    } else {
      assert (b + rest)[..|b|] == b;
    }
  }

  /** Inserting the empty paragraph adds no content. */
  lemma LeadingBlankContent(b: Body)
    ensures Content(WithLeadingBlank(b)) == Content(b)
  {
    var first := FirstParagraphIndex(b);
    if first.Some? {
      var f := first.value;
      assert WithLeadingBlank(b) == (b[..f] + [EmptyParagraph()]) + b[f..];
      assert b == b[..f] + b[f..];
      FilterAppend(b[..f], b[f..], IsContent);
      FilterAppend(b[..f] + [EmptyParagraph()], b[f..], IsContent);
      FilterAppend(b[..f], [EmptyParagraph()], IsContent);
      assert Content([EmptyParagraph()]) == [];
    }
  }

  /**
   * The cover's text lands after the first document's content: the content of
   * the result is the body's content followed by the cover block's.
   */
  lemma CoverPageContent(b: Body, opts: Options, now: string)
    ensures Content(CoverPage(b, opts, now)) == Content(b) + Content(CoverBlock(opts, now))
  {
    CoveredContent(b, CoverBlock(opts, now));
  }

  lemma CoveredContent(b: Body, block: Body)
    ensures Content(Covered(b, block)) == Content(b) + Content(block)
  {
    var w := WithLeadingBlank(b);
    var closing := ClosingBreak(w + block);
    assert Content(closing) == [] by {
      FilterNone(closing, IsContent);
    }
    LeadingBlankContent(b);
    FilterAppend(w, block, IsContent);
    FilterAppend(w + block, closing, IsContent);
  }

  /**
   * A closing page break is added exactly when the body has real content or one
   * of the cover's title, subtitle and info texts is not blank.
   */
  lemma CoverPageBreak(b: Body, opts: Options, now: string)
    ensures var r := CoverPage(b, opts, now);
            (HasPageBreak(r[|r| - 1]) <==>
               HasRealContent(b) || !Blank(CoverTitle(opts)) ||
               !Blank(CoverSubtitle(opts, now)) || !Blank(CoverInfo(opts)))
  {
    var block := CoverBlock(opts, now);
    assert |block| > 0 && !HasPageBreak(block[|block| - 1]) by {
      CoverBlockNoBreak(CoverTitle(opts), CoverSubtitle(opts, now), CoverInfo(opts));
    }
    CoverBlockContent(CoverTitle(opts), CoverSubtitle(opts, now), CoverInfo(opts));
    CoveredBreak(b, block);
  }

  /** With the default subtitle the cover always ends with a page break. */
  lemma CoverPageDefaultBreak(b: Body, opts: Options, now: string)
    requires opts.coverSubtitle.None? || opts.coverSubtitle == Some("")
    ensures var r := CoverPage(b, opts, now);
            r[|r| - 1] == PageBreakParagraph()
  {
    var block := CoverBlock(opts, now);
    assert HasRealContent(block) by {
      assert !Blank(CoverSubtitle(opts, now));
      CoverBlockContent(CoverTitle(opts), CoverSubtitle(opts, now), CoverInfo(opts));
    }
    assert CoverPage(b, opts, now) == Covered(b, block);
    CoveredEndsWithBreak(b, block);
  }

  lemma CoveredEndsWithBreak(b: Body, block: Body)
    requires HasRealContent(block)
    ensures var r := Covered(b, block);
            r[|r| - 1] == PageBreakParagraph()
  {
    var w := WithLeadingBlank(b);
    assert HasRealContent(w + block) by {
      FilterAppend(w, block, IsContent);
      HasRealContentIffContent(w + block);
      HasRealContentIffContent(block);
    }
  }

  lemma CoveredBreak(b: Body, block: Body)
    requires |block| > 0 && !HasPageBreak(block[|block| - 1])
    ensures var r := Covered(b, block);
            (HasPageBreak(r[|r| - 1]) <==> HasRealContent(b) || HasRealContent(block))
  {
    var w := WithLeadingBlank(b);
    assert HasRealContent(w + block) <==> HasRealContent(b) || HasRealContent(block) by {
      LeadingBlankContent(b);
      FilterAppend(w, block, IsContent);
      HasRealContentIffContent(w + block);
      HasRealContentIffContent(b);
      HasRealContentIffContent(block);
    }
  }

  /** One numbered entry "{i}. {name}" of the index. */
  function TocEntry(i: nat, name: string): (e: Element)
    ensures IsContent(e) && !HasPageBreak(e)
    ensures ParaText(e) == NatToString(i) + ". " + name
  {
    var text := NatToString(i) + ". " + name;
    assert !IsSpace(text[0]);
    TextParagraph(text)
  }

  /** The entries for the inputs, numbered from 1 in input order. */
  function TocEntries(names: seq<string>): (r: Body)
    ensures |r| == |names|
    ensures forall i | 0 <= i < |names| :: ParaText(r[i]) == NatToString(i + 1) + ". " + names[i]
  {
    seq(|names|, i requires 0 <= i < |names| => TocEntry(i + 1, names[i]))
  }

  /** What precedes the index: the trimmed body, and a page break if it has real content. */
  function TocLead(b: Body): Body {
    var t := Trimmed(b);
    if HasRealContent(t) then t + [PageBreakParagraph()] else t
  }

  /** The index proper: heading, empty paragraph, the entries, a closing page break. */
  function TocTail(names: seq<string>): Body {
    [TextParagraph(TocTitle), EmptyParagraph()] + TocEntries(names) + [PageBreakParagraph()]
  }

  /** _add_table_of_contents. */
  function TableOfContents(b: Body, names: seq<string>): Body {
    TocLead(b) + TocTail(names)
  }

  lemma TocLeadContent(b: Body)
    ensures Content(TocLead(b)) == Content(b)
  {
    var t := Trimmed(b);
    TrimmedContent(b);
    if HasRealContent(t) {
      FilterAppend(t, [PageBreakParagraph()], IsContent);
      assert Content([PageBreakParagraph()]) == [];
    }
  }

  lemma TocTailContent(names: seq<string>)
    ensures Content(TocTail(names)) == [TextParagraph(TocTitle)] + TocEntries(names)
  {
    var heading := [TextParagraph(TocTitle), EmptyParagraph()];
    var entries := TocEntries(names);
    TocHeadingContent();
    TocEntriesContent(names);
    assert Content([PageBreakParagraph()]) == [];
    ContentBeforeNone(heading, entries, [PageBreakParagraph()]);
  }

  lemma TocHeadingContent()
    ensures Content([TextParagraph(TocTitle), EmptyParagraph()]) == [TextParagraph(TocTitle)]
  {
    assert !IsSpace(TocTitle[0]);
    FilterAppend([TextParagraph(TocTitle)], [EmptyParagraph()], IsContent);
  }

  lemma TocEntriesContent(names: seq<string>)
    ensures Content(TocEntries(names)) == TocEntries(names)
  {
    var entries := TocEntries(names);
    forall i | 0 <= i < |entries| ensures IsContent(entries[i]) {
      assert entries[i] == TocEntry(i + 1, names[i]);
    }
    FilterAll(entries, IsContent);
  }

  /** Content of three parts, the last of which has none. */
  lemma ContentBeforeNone(a: Body, m: Body, z: Body)
    requires Content(z) == []
    ensures Content(a + m + z) == Content(a) + Content(m)
  {
    FilterAppend(a + m, z, IsContent);
    FilterAppend(a, m, IsContent);
  }

  /**
   * The index keeps the document's content and adds, after it, the heading and
   * one entry per input in input order; nothing else it adds has content.
   */
  lemma TableOfContentsContent(b: Body, names: seq<string>)
    ensures Content(TableOfContents(b, names)) ==
            Content(b) + [TextParagraph(TocTitle)] + TocEntries(names)
  {
    TocLeadContent(b);
    TocTailContent(names);
    FilterAppend(TocLead(b), TocTail(names), IsContent);
  }
}
