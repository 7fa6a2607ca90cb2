/**
 * DocumentMerger: the engine as the code runs it, a master document changed
 * in place by loops, each method proved to leave the state its specification
 * function describes.
 */
module Merger {
  import opened Wrappers
  import opened Text
  import opened Seqs
  import opened Elements
  import opened Classifier
  import opened Trimmer
  import opened Splice
  import opened Append
  import opened Passes
  import opened Orchestration
  import opened Inspector

  /** A document being built: its body changes in place. */
  class Document {
    var body: Body

    constructor(body: Body)
      ensures this.body == body
    {
      this.body := body;
    }
  }

  /** The inputs as the merge reads them: each name, and what opening its source yields. */
  function InputsOf(documents: seq<DocumentInfo>): (r: seq<Input>)
    ensures |r| == |documents|
    ensures forall i | 0 <= i < |documents| :: r[i] == Input(documents[i].name, documents[i].source)
  {
    seq(|documents|, i requires 0 <= i < |documents| => Input(documents[i].name, documents[i].source))
  }

  /** The run loop of the trimmer: a page break, bold, italic or underline on some run. */
  method ScanSpecialFormatting(para: Element) returns (special: bool)
    requires para.Para?
    ensures special == HasSpecialFormatting(para)
  {
    special := false;
    var k := 0;
    while k < |para.runs|
      invariant k <= |para.runs|
      invariant forall j | 0 <= j < k ::
                  !(para.runs[j].pageBreak || para.runs[j].bold || para.runs[j].italic || para.runs[j].underline)
    {
      var run := para.runs[k];
      if run.pageBreak {
        special := true;
        return;
      }
      if run.bold || run.italic || run.underline {
        special := true;
        return;
      }
      k := k + 1;
    }
  }

  /** The run loop of the page-break test on the master's last paragraph. */
  method ScanPageBreak(para: Element) returns (hasBreak: bool)
    requires para.Para?
    ensures hasBreak == HasPageBreak(para)
  {
    hasBreak := false;
    var k := 0;
    while k < |para.runs|
      invariant k <= |para.runs|
      invariant forall j | 0 <= j < k :: !para.runs[j].pageBreak
    {
      if para.runs[k].pageBreak {
        hasBreak := true;
        return;
      }
      k := k + 1;
    }
  }

  /** The trimmer's second run loop: every run's stripped text is empty. */
  method ScanRunsEmpty(para: Element) returns (allEmpty: bool)
    requires para.Para?
    ensures allEmpty <==> forall j | 0 <= j < |para.runs| :: Blank(para.runs[j].text)
  {
    allEmpty := true;
    var k := 0;
    while k < |para.runs|
      invariant k <= |para.runs|
      invariant forall j | 0 <= j < k :: Blank(para.runs[j].text)
    {
      var text := para.runs[k].text;
      var nonBlank := text != "" && Strip(text) != "";
      assert nonBlank <==> !Blank(text) by {
        StripEmptyIffBlank(text);
      }
      if nonBlank {
        allEmpty := false;
        return;
      }
      k := k + 1;
    }
  }

  class DocumentMerger {
    var stats: Stats

    constructor()
      ensures stats == Stats(0, 0, 0, 0)
    {
      stats := Stats(0, 0, 0, 0);
    }

    /** _has_real_content, with its two scans and early returns. */
    method FindRealContent(body: Body) returns (found: bool)
      ensures found == HasRealContent(body)
    {
      var paras := Paragraphs(body);
      var tables := Tables(body);
      if |paras| == 0 && |tables| == 0 {
        return false;
      }
      var i := 0;
      while i < |paras|
        invariant i <= |paras|
        invariant forall j | 0 <= j < i :: Blank(ParaText(paras[j]))
      {
        var text := Strip(ParaText(paras[i]));
        assert text != "" <==> !Blank(ParaText(paras[i])) by {
          StripEmptyIffBlank(ParaText(paras[i]));
        }
        if text != "" {
          return true;
        }
        i := i + 1;
      }
      return |tables| > 0;
    }

    /** _get_last_meaningful_element: scan the body backwards for a table or a non-blank paragraph. */
    method FindLastMeaningfulElement(elements: Body) returns (last: Option<nat>)
      ensures last == LastMeaningfulElement(elements)
    {
      var i := |elements|;
      while i > 0
        invariant 0 <= i <= |elements|
        invariant forall j | i <= j < |elements| :: !IsContent(elements[j])
      {
        i := i - 1;
        var element := elements[i];
        if element.Para? {
          var text := Strip(ParaText(element));
          assert text != "" <==> !Blank(ParaText(element)) by {
            StripEmptyIffBlank(ParaText(element));
          }
          if text != "" {
            LastMeaningfulUnique(elements, Some(i));
            return Some(i);
          }
        } else if element.Table? {
          LastMeaningfulUnique(elements, Some(i));
          return Some(i);
        }
      }
      LastMeaningfulUnique(elements, None);
      return None;
    }

    /**
     * _clean_empty_paragraphs_at_end: while the last paragraph has blank text,
     * no special formatting and only blank runs, remove it.
     */
    method CleanEmptyParagraphsAtEnd(doc: Document)
      modifies doc
      ensures doc.body == Trimmed(old(doc.body))
    {
      ParagraphCountPositive(doc.body);
      if ParagraphCount(doc.body) == 0 {
        TrimmedFixedPointIff(doc.body);
        return;
      }
      var removed := true;
      while removed && ParagraphCount(doc.body) > 0
        invariant Trimmed(doc.body) == Trimmed(old(doc.body))
        invariant !removed ==> EndsClean(doc.body)
        decreases |doc.body|
      {
        removed := false;
        ParagraphCountPositive(doc.body);
        var l := LastParagraphIndex(doc.body).value;
        var lastPara := doc.body[l];
        var text := Strip(ParaText(lastPara));
        assert text == "" <==> Blank(ParaText(lastPara)) by {
          StripEmptyIffBlank(ParaText(lastPara));
        }
        var special := ScanSpecialFormatting(lastPara);
        if text == "" && !special && |lastPara.runs| == 0 {
          assert Removable(lastPara);
          doc.body := doc.body[..l] + doc.body[l + 1..];
          removed := true;
        } else if text == "" && !special {
          RunsTextBlank(lastPara.runs);
          var allEmpty := ScanRunsEmpty(lastPara);
          if allEmpty {
            assert Removable(lastPara);
            doc.body := doc.body[..l] + doc.body[l + 1..];
            removed := true;
          } else {
            // A blank paragraph text leaves every run's text blank.
            assert false;
            break;
          }
        } else {
          break;
        }
      }
      ParagraphCountPositive(doc.body);
      TrimmedFixedPointIff(doc.body);
    }

    /**
     * The page-break decision of _append_document on the trimmed master: a
     * break goes in when breaks are enabled, the master has real content, a
     * last meaningful element exists and the last paragraph, if any, holds no
     * break already.
     */
    method AddSeparatingBreak(master: Document, opts: Options)
      modifies master
      ensures master.body == old(master.body) +
                             (if AddsPageBreak(old(master.body), opts) then [PageBreakParagraph()] else [])
    {
      var masterHasContent := FindRealContent(master.body);
      ParagraphCountPositive(master.body);
      if opts.addPageBreak && masterHasContent {
        var lastElement := FindLastMeaningfulElement(master.body);
        if lastElement.Some? {
          if ParagraphCount(master.body) > 0 {
            var lastPara := master.body[LastParagraphIndex(master.body).value];
            var hasExistingBreak := ScanPageBreak(lastPara);
            if !hasExistingBreak {
              master.body := master.body + [PageBreakParagraph()];
              return;
            }
          } else {
            master.body := master.body + [PageBreakParagraph()];
            return;
          }
        }
      }
      AppendEmpty(master.body);
    }

    /** The page break, the numbered header and the separator of _append_document. */
    method AddJoint(master: Document, docNumber: nat, name: string, opts: Options)
      modifies master
      ensures master.body == old(master.body) + Joint(old(master.body), docNumber, name, opts)
    {
      ghost var t := master.body;
      AddSeparatingBreak(master, opts);
      ghost var brk := master.body[|t|..];
      assert master.body == t + brk;
      ghost var header: Body := if opts.numberDocuments then [HeaderParagraph(docNumber, name)] else [];
      ghost var separator: Body := if opts.addSeparator then [SeparatorParagraph()] else [];
      if opts.numberDocuments {
        master.body := master.body + [HeaderParagraph(docNumber, name)];
      } else {
        AppendEmpty(master.body);
      }
      assert master.body == t + brk + header;
      if opts.addSeparator {
        master.body := master.body + [SeparatorParagraph()];
      } else {
        AppendEmpty(master.body);
      }
      assert master.body == t + brk + header + separator;
      JointLayout(t, brk, header, separator);
    }

    /** The copy loop of _append_document: every selected element is appended in order. */
    method CopyElements(master: Document, elementsToAdd: Body)
      modifies master
      ensures master.body == old(master.body) + elementsToAdd
    {
      ghost var before := master.body;
      var i := 0;
      while i < |elementsToAdd|
        invariant i <= |elementsToAdd|
        invariant master.body == before + elementsToAdd[..i]
      {
        PrefixExtend(before, elementsToAdd, i);
        master.body := master.body + [elementsToAdd[i]];
        i := i + 1;
      }
      PrefixAll(elementsToAdd);
    }

    /**
     * The body half of _append_document for a source with real content: trim
     * the master, add the joint and the splice window, trim again.
     */
    method AppendBody(master: Document, source: Body, docNumber: nat, name: string, opts: Options)
      modifies master
      ensures var t := Trimmed(old(master.body));
              master.body == Trimmed(t + Joint(t, docNumber, name, opts) + SpliceWindow(source))
    {
      CleanEmptyParagraphsAtEnd(master);
      AddJoint(master, docNumber, name, opts);
      var start := ScanFirstContent(source);
      var elementsToAdd := SelectElements(source, start);
      CopyElements(master, elementsToAdd);
      CleanEmptyParagraphsAtEnd(master);
    }

    /**
     * _append_document: the new master and counters are AppendStep of the old
     * ones, so every property proved of AppendStep holds of this method.
     */
    method AppendDocument(master: Document, source: Body, docNumber: nat, name: string, opts: Options)
      modifies master, this
      ensures MergeState(master.body, stats) ==
              AppendStep(old(MergeState(master.body, stats)), source, docNumber, name, opts)
    {
      ghost var st := MergeState(master.body, stats);
      var sourceHasContent := FindRealContent(source);
      if !sourceHasContent {
        assert AppendStep(st, source, docNumber, name, opts) == st;
        return;
      }
      ghost var t := Trimmed(master.body);
      AppendBody(master, source, docNumber, name, opts);
      stats := stats.(totalParagraphs := stats.totalParagraphs + NonBlankParagraphCount(source),
                      totalTables := stats.totalTables + TableCount(source));
      assert AppendStep(st, source, docNumber, name, opts) ==
             MergeState(Trimmed(t + Joint(t, docNumber, name, opts) + SpliceWindow(source)), stats);
    }

    /** insert_paragraph_before on the first paragraph, when the document has one. */
    method InsertLeadingBlank(doc: Document)
      modifies doc
      ensures doc.body == WithLeadingBlank(old(doc.body))
    {
      ParagraphCountPositive(doc.body);
      if ParagraphCount(doc.body) > 0 {
        var first := FirstParagraphIndex(doc.body).value;
        doc.body := doc.body[..first] + [EmptyParagraph()] + doc.body[first..];
      }
    }

    /** The title, the subtitle when not empty and the information when not empty, appended. */
    method AppendCoverBlock(doc: Document, opts: Options, now: string)
      modifies doc
      ensures doc.body == old(doc.body) + CoverBlock(opts, now)
    {
      ghost var w := doc.body;
      var title := CoverTitle(opts);
      doc.body := doc.body + [TextParagraph(title)];
      var subtitleText := CoverSubtitle(opts, now);
      ghost var subtitle: Body := if subtitleText != "" then [SubtitleParagraph(subtitleText)] else [];
      if subtitleText != "" {
        doc.body := doc.body + [SubtitleParagraph(subtitleText)];
      }
      var info := CoverInfo(opts);
      ghost var infoBlock: Body := if info != "" then [TextParagraph(info)] else [];
      if info != "" {
        doc.body := doc.body + [TextParagraph(info)];
      } else {
        AppendEmpty(doc.body);
      }
      assert doc.body == w + [TextParagraph(title)] + subtitle + infoBlock;
      JointLayout(w, [TextParagraph(title)], subtitle, infoBlock);
      AppendAssoc([TextParagraph(title)], subtitle, infoBlock);
    }

    /**
     * _add_cover_page: an empty paragraph before the first paragraph, then the
     * title, subtitle and information paragraphs appended at the end, and a
     * page break when the document then has real content.
     */
    method AddCoverPage(doc: Document, opts: Options, now: string)
      modifies doc
      ensures doc.body == CoverPage(old(doc.body), opts, now)
    {
      InsertLeadingBlank(doc);
      AppendCoverBlock(doc, opts, now);
      var hasContent := FindRealContent(doc.body);
      if hasContent {
        doc.body := doc.body + [PageBreakParagraph()];
      } else {
        AppendEmpty(doc.body);
      }
    }

    /** The entry loop of _add_table_of_contents: "{idx}. {name}" for every input, numbered from 1. */
    method AddTocEntries(doc: Document, documents: seq<DocumentInfo>)
      modifies doc
      ensures doc.body == old(doc.body) + TocEntries(Names(InputsOf(documents)))
    {
      ghost var before := doc.body;
      ghost var names := Names(InputsOf(documents));
      ghost var entries := TocEntries(names);
      var idx := 1;
      while idx <= |documents|
        invariant 1 <= idx <= |documents| + 1
        invariant doc.body == before + entries[..idx - 1]
      {
        assert entries[idx - 1] == TocEntry(idx, documents[idx - 1].name);
        PrefixExtend(before, entries, idx - 1);
        doc.body := doc.body + [TocEntry(idx, documents[idx - 1].name)];
        idx := idx + 1;
      }
      PrefixAll(entries);
    }

    /**
     * _add_table_of_contents: trim, a page break when there is content, the
     * heading, an empty paragraph, the numbered entries, a page break.
     */
    method AddTableOfContents(doc: Document, documents: seq<DocumentInfo>)
      modifies doc
      ensures doc.body == TableOfContents(old(doc.body), Names(InputsOf(documents)))
    {
      CleanEmptyParagraphsAtEnd(doc);
      var hasContent := FindRealContent(doc.body);
      if hasContent {
        doc.body := doc.body + [PageBreakParagraph()];
      }
      ghost var lead := doc.body;
      ghost var heading: Body := [TextParagraph(TocTitle), EmptyParagraph()];
      doc.body := doc.body + [TextParagraph(TocTitle)];
      doc.body := doc.body + [EmptyParagraph()];
      assert doc.body == lead + heading by {
        AppendAssoc(lead, [TextParagraph(TocTitle)], [EmptyParagraph()]);
      }
      ghost var entries := TocEntries(Names(InputsOf(documents)));
      AddTocEntries(doc, documents);
      doc.body := doc.body + [PageBreakParagraph()];
      JointLayout(lead, heading, entries, [PageBreakParagraph()]);
      AppendAssoc(heading, entries, [PageBreakParagraph()]);
    }

    /**
     * The loop of merge_documents over the inputs after the first, numbered
     * from 2: the master, the counters and the failure that stopped the loop
     * are those Process describes.
     */
    method AppendRemaining(master: Document, documents: seq<DocumentInfo>, opts: Options)
      returns (failure: Option<Failure>)
      requires |documents| >= 1
      modifies master, this
      ensures Process(old(MergeState(master.body, stats)), InputsOf(documents), |documents|, opts) ==
              Progress(MergeState(master.body, stats), failure)
    {
      ghost var docs := InputsOf(documents);
      ghost var st := MergeState(master.body, stats);
      var idx := 2;
      while idx <= |documents|
        invariant 2 <= idx <= |documents| + 1
        invariant Process(st, docs, idx - 1, opts) == Progress(MergeState(master.body, stats), None)
      {
        var docInfo := documents[idx - 1];
        var loaded := docInfo.source;
        assert docs[idx - 1] == Input(docInfo.name, loaded);
        assert Process(st, docs, idx, opts) == Step(Process(st, docs, idx - 1, opts), docs[idx - 1], idx, opts);
        if loaded.LoadFailed? {
          if opts.stopOnError {
            StopsAt(st, docs, idx, opts);
            return Some(Failure(idx - 1, loaded.message));
          }
          idx := idx + 1;
          continue;
        }
        AppendDocument(master, loaded.body, idx, docInfo.name, opts);
        idx := idx + 1;
      }
      return None;
    }

    /**
     * merge_documents: the result and the counters are those of Merge on the
     * inputs, so every property proved of Merge holds of this method.
     */
    method MergeDocuments(documents: seq<DocumentInfo>, opts: Options, now: string)
      returns (result: Result<Body, MergeError>)
      modifies this
      ensures Outcome(result, stats) == Merge(InputsOf(documents), opts, now, old(stats))
    {
      if |documents| == 0 {
        return Err(NoDocuments);
      }
      stats := stats.(totalDocs := |documents|);
      var first := documents[0].source;
      if first.LoadFailed? {
        return Err(LoadError(0, first.message));
      }
      var master := new Document(first.body);
      if opts.addCoverPage {
        AddCoverPage(master, opts, now);
      }
      var failure := AppendRemaining(master, documents, opts);
      if failure.Some? {
        return Err(LoadError(failure.value.index, failure.value.message));
      }
      if opts.addTableOfContents {
        AddTableOfContents(master, documents);
      }
      return Ok(master.body);
    }
  }

  /** Four pieces appended one after the other. */
  lemma JointLayout(a: Body, b: Body, c: Body, d: Body)
    ensures a + b + c + d == a + (b + (c + d))
  {
    AppendAssoc(a + b, c, d);
    AppendAssoc(a, b, c + d);
  }

  /**
   * The loop reached input i - 1 without failure and that input fails to load
   * under stop_on_error: the whole loop stops there, with its message.
   */
  lemma StopsAt(st: MergeState, docs: seq<Input>, i: nat, opts: Options)
    requires 2 <= i <= |docs| && opts.stopOnError && docs[i - 1].loaded.LoadFailed?
    requires Process(st, docs, i - 1, opts).failure.None?
    ensures Process(st, docs, |docs|, opts).failure == Some(Failure(i - 1, docs[i - 1].loaded.message))
    ensures Process(st, docs, |docs|, opts).state == Process(st, docs, i - 1, opts).state
  {
    ProcessFailure(st, docs, i - 1, opts);
    ProcessFailure(st, docs, |docs|, opts);
    StaysStopped(st, docs, i, |docs|, opts);
  }

  /** Once the loop has stopped, later inputs change nothing. */
  lemma {:induction false} StaysStopped(st: MergeState, docs: seq<Input>, i: nat, k: nat, opts: Options)
    requires 1 <= i <= k <= |docs|
    requires Process(st, docs, i, opts).failure.Some?
    ensures Process(st, docs, k, opts) == Process(st, docs, i, opts)
    decreases k
  {
    if k > i {
      StaysStopped(st, docs, i, k - 1, opts);
    }
  }
}
