/**
 * One append of _append_document, as a function of the master body, the merge
 * statistics and the source body, and what it guarantees.
 */
module Append {
  import opened Wrappers
  import opened Text
  import opened Seqs
  import opened Elements
  import opened Classifier
  import opened Trimmer
  import opened Splice

  /**
   * The merge options the engine reads. The cover fields are None when the
   * options carry no such key (options.get falls back to its default).
   */
  datatype Options = Options(
    addPageBreak: bool,
    addSeparator: bool,
    numberDocuments: bool,
    addCoverPage: bool,
    addTableOfContents: bool,
    stopOnError: bool,
    coverTitle: Option<string>,
    coverSubtitle: Option<string>,
    coverInfo: Option<string>)

  /** The merger's counters (processing time is not modelled). */
  datatype Stats = Stats(totalDocs: nat, totalParagraphs: nat, totalTables: nat, totalImages: nat)

  /** The master body together with the counters, as one append leaves them. */
  datatype MergeState = MergeState(body: Body, stats: Stats)

  function HeaderText(n: nat, name: string): string {
    "Documento " + NatToString(n) + ": " + name
  }

  /** The numbered header: one bold run "Documento {n}: {name}". */
  function HeaderParagraph(n: nat, name: string): (e: Element)
    ensures IsContent(e) && !HasPageBreak(e)
    ensures ParaText(e) == "Documento " + NatToString(n) + ": " + name
  {
    var runs := [Run(HeaderText(n, name), true, false, false, false, false)];
    assert runs[..0] == [] && RunsText(runs) == HeaderText(n, name);
    assert !IsSpace(HeaderText(n, name)[0]);
    Para(runs)
  }

  /** The separator: one run of 80 box-drawing horizontal lines. */
  function SeparatorParagraph(): (e: Element)
    ensures IsContent(e) && !HasPageBreak(e)
    ensures ParaText(e) == Repeat('\U{2500}', 80)
  {
    var rule := Repeat('\U{2500}', 80);
    assert !IsSpace(rule[0]);
    TextParagraph(rule)
  }

  /** The last paragraph of the body already holds a page-break run. */
  predicate LastParagraphHasBreak(t: Body) {
    var l := LastParagraphIndex(t);
    l.Some? && HasPageBreak(t[l.value])
  }

  /** The page-break decision of _append_document on the trimmed master t. */
  predicate AddsPageBreak(t: Body, opts: Options) {
    opts.addPageBreak && HasRealContent(t) && LastMeaningfulElement(t).Some? &&
    !LastParagraphHasBreak(t)
  }

  /** The numbered header and the separator, each when enabled. */
  function Heading(n: nat, name: string, opts: Options): Body {
    (if opts.numberDocuments then [HeaderParagraph(n, name)] else []) +
    (if opts.addSeparator then [SeparatorParagraph()] else [])
  }

  /** What goes between the trimmed master and the copied elements: break, header, separator. */
  function Joint(t: Body, n: nat, name: string, opts: Options): Body {
    (if AddsPageBreak(t, opts) then [PageBreakParagraph()] else []) + Heading(n, name, opts)
  }

  /**
   * _append_document: a source without real content changes nothing; otherwise
   * trim the master, add the joint and the splice window, trim again, and count
   * the source's non-blank paragraphs and tables.
   */
  function AppendStep(st: MergeState, source: Body, n: nat, name: string, opts: Options): MergeState {
    if !HasRealContent(source) then st
    else
      var t := Trimmed(st.body);
      MergeState(
        Trimmed(t + Joint(t, n, name, opts) + SpliceWindow(source)),
        st.stats.(totalParagraphs := st.stats.totalParagraphs + NonBlankParagraphCount(source),
                  totalTables := st.stats.totalTables + TableCount(source)))
  }

  /**
   * The counters grow by the source's non-blank paragraphs and tables, which is
   * zero for a source that is skipped; a skipped source leaves the body alone too.
   */
  lemma AppendStepStats(st: MergeState, source: Body, n: nat, name: string, opts: Options)
    ensures AppendStep(st, source, n, name, opts).stats ==
            st.stats.(totalParagraphs := st.stats.totalParagraphs + NonBlankParagraphCount(source),
                      totalTables := st.stats.totalTables + TableCount(source))
    ensures !HasRealContent(source) ==> AppendStep(st, source, n, name, opts) == st
  {
    if !HasRealContent(source) {
      NoContentCountsZero(source);
    }
  }

  /** Every heading element is content and none holds a page break. */
  lemma HeadingElements(n: nat, name: string, opts: Options)
    ensures var h := Heading(n, name, opts);
            forall i | 0 <= i < |h| :: IsContent(h[i]) && !HasPageBreak(h[i])
  {
    var h := Heading(n, name, opts);
    forall i | 0 <= i < |h| ensures IsContent(h[i]) && !HasPageBreak(h[i]) {
      if opts.numberDocuments && i == 0 {
        assert h[i] == HeaderParagraph(n, name);
      } else {
        assert h[i] == SeparatorParagraph();
      }
    }
  }

  /**
   * At most one page-break paragraph is added, and one is added exactly when
   * breaks are enabled, the trimmed master has real content and its last
   * paragraph does not already hold a page break.
   */
  lemma JointPageBreaks(t: Body, n: nat, name: string, opts: Options)
    ensures |Filter(Joint(t, n, name, opts), HasPageBreak)| <= 1
    ensures |Filter(Joint(t, n, name, opts), HasPageBreak)| == 1 <==>
            opts.addPageBreak && HasRealContent(t) && !LastParagraphHasBreak(t)
  {
    var brk: Body := if AddsPageBreak(t, opts) then [PageBreakParagraph()] else [];
    var h := Heading(n, name, opts);
    assert Filter(h, HasPageBreak) == [] by {
      HeadingElements(n, name, opts);
      FilterNone(h, HasPageBreak);
    }
    FilterAppend(brk, h, HasPageBreak);
    LastMeaningfulIffContent(t);
  }

  /** Elements without content followed by content elements: the content is the latter. */
  lemma ContentAfterNoContent(none: Body, all: Body)
    requires forall i | 0 <= i < |none| :: !IsContent(none[i])
    requires forall i | 0 <= i < |all| :: IsContent(all[i])
    ensures Content(none + all) == all
  {
    FilterAppend(none, all, IsContent);
    FilterNone(none, IsContent);
    FilterAll(all, IsContent);
  }

  /** The joint's content is the header and the separator, when enabled. */
  lemma JointContent(t: Body, n: nat, name: string, opts: Options)
    ensures Content(Joint(t, n, name, opts)) == Heading(n, name, opts)
  {
    var brk: Body := if AddsPageBreak(t, opts) then [PageBreakParagraph()] else [];
    HeadingElements(n, name, opts);
    ContentAfterNoContent(brk, Heading(n, name, opts));
  }

  /**
   * The content of the master after an append is the master's content, then
   * the joint's, then every table and non-blank paragraph of the source in order.
   */
  lemma AppendContent(st: MergeState, source: Body, n: nat, name: string, opts: Options)
    requires HasRealContent(source)
    ensures Content(AppendStep(st, source, n, name, opts).body) ==
            Content(st.body) + Content(Joint(Trimmed(st.body), n, name, opts)) + Content(source)
  {
    var t := Trimmed(st.body);
    var j := Joint(t, n, name, opts);
    var w := SpliceWindow(source);
    TrimmedContent(t + j + w);
    FilterAppend(t + j, w, IsContent);
    FilterAppend(t, j, IsContent);
    TrimmedContent(st.body);
    SpliceWindowContent(source);
  }

  /** The last element of a non-empty joint is a paragraph the trimmer keeps. */
  lemma JointLastKept(t: Body, n: nat, name: string, opts: Options)
    ensures var j := Joint(t, n, name, opts);
            j != [] ==> Kept(j[|j| - 1])
  {
    var j := Joint(t, n, name, opts);
    var h := Heading(n, name, opts);
    if h != [] {
      HeadingElements(n, name, opts);
      assert j[|j| - 1] == h[|h| - 1];
    } else if j != [] {
      assert j[|j| - 1] == PageBreakParagraph();
    }
  }

  /** The joint ends in a paragraph the trimmer keeps, or adds nothing to a clean master. */
  lemma JointEndsClean(t: Body, n: nat, name: string, opts: Options)
    requires EndsClean(t)
    ensures EndsClean(t + Joint(t, n, name, opts))
  {
    var j := Joint(t, n, name, opts);
    if j == [] {
      assert t + j == t;
    } else {
      JointLastKept(t, n, name, opts);
      LastKeptEndsClean(t + j);
    }
  }

  /** A body whose last element is a kept paragraph ends clean. */
  lemma LastKeptEndsClean(x: Body)
    requires x != [] && Kept(x[|x| - 1])
    ensures EndsClean(x)
  {
  }

  /**
   * Appending a source with content never touches the trimmed master nor the
   * break, header and separator placed after it: all of them are a prefix of
   * the new body.
   */
  lemma AppendKeepsMasterAndJoint(st: MergeState, source: Body, n: nat, name: string, opts: Options)
    requires HasRealContent(source)
    ensures Trimmed(st.body) + Joint(Trimmed(st.body), n, name, opts) <= AppendStep(st, source, n, name, opts).body
  {
    var t := Trimmed(st.body);
    var j := Joint(t, n, name, opts);
    TrimmedEndsClean(st.body);
    JointEndsClean(t, n, name, opts);
    TrimmedExtends(t + j, SpliceWindow(source));
  }

  /**
   * After an append the body always ends clean: no trailing removable
   * paragraph. A source with content makes any master clean, because the
   * whole new body is trimmed; a skipped source leaves the master as it was.
   */
  lemma AppendEndsClean(st: MergeState, source: Body, n: nat, name: string, opts: Options)
    requires EndsClean(st.body) || HasRealContent(source)
    ensures EndsClean(AppendStep(st, source, n, name, opts).body)
  {
    if HasRealContent(source) {
      var t := Trimmed(st.body);
      TrimmedEndsClean(t + Joint(t, n, name, opts) + SpliceWindow(source));
    }
  }
}
