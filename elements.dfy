/**
 * The block-level content of a word-processing document body, and the few
 * document-library operations the merge engine uses to build new paragraphs.
 */
module Elements {
  import opened Text
  import opened Seqs

  /**
   * A run of text with the formatting flags the merge engine inspects; picture
   * marks a run that embeds an image (an a:blip element).
   */
  datatype Run = Run(text: string, bold: bool, italic: bool, underline: bool, pageBreak: bool, picture: bool)

  /**
   * A body element: a paragraph made of runs, a table, or anything else
   * (section properties, bookmarks and similar markup).
   */
  datatype Element = Para(runs: seq<Run>) | Table | Other

  type Body = seq<Element>

  /** What opening one input yields: its body, or the document library's error message. */
  datatype LoadResult = Loaded(body: Body) | LoadFailed(message: string)

  /** The text of a list of runs, in order. */
  function RunsText(runs: seq<Run>): string {
    if runs == [] then "" else RunsText(runs[..|runs| - 1]) + runs[|runs| - 1].text
  }

  /** A paragraph's text; other elements carry none the engine looks at. */
  function ParaText(e: Element): string {
    if e.Para? then RunsText(e.runs) else ""
  }

  /** A paragraph's text is blank exactly when every one of its runs' texts is. */
  lemma {:induction false} RunsTextBlank(runs: seq<Run>)
    ensures Blank(RunsText(runs)) <==> forall i | 0 <= i < |runs| :: Blank(runs[i].text)
  {
    if runs != [] {
      var init := runs[..|runs| - 1];
      RunsTextBlank(init);
      BlankConcat(RunsText(init), runs[|runs| - 1].text);
      assert forall i | 0 <= i < |init| :: init[i] == runs[i];
    }
  }

  predicate IsPara(e: Element) { e.Para? }

  predicate IsTable(e: Element) { e.Table? }

  predicate IsNotPara(e: Element) { !e.Para? }

  /** A paragraph whose stripped text is non-empty. */
  predicate IsNonBlankPara(e: Element) { e.Para? && !Blank(ParaText(e)) }

  /** A paragraph holding an explicit page-break run. */
  predicate HasPageBreak(e: Element) {
    e.Para? && exists i | 0 <= i < |e.runs| :: e.runs[i].pageBreak
  }

  /** A paragraph with a run that breaks the page or is bold, italic or underlined. */
  predicate HasSpecialFormatting(e: Element) {
    e.Para? && exists i | 0 <= i < |e.runs| ::
      e.runs[i].pageBreak || e.runs[i].bold || e.runs[i].italic || e.runs[i].underline
  }

  /** doc.paragraphs: the body's paragraphs in order. */
  function Paragraphs(b: Body): seq<Element> {
    Filter(b, IsPara)
  }

  /** doc.tables: the body's tables. */
  function Tables(b: Body): seq<Element> {
    Filter(b, IsTable)
  }

  function ParagraphCount(b: Body): nat { |Paragraphs(b)| }

  function TableCount(b: Body): nat { |Tables(b)| }

  function NonBlankParagraphCount(b: Body): nat { |Filter(b, IsNonBlankPara)| }

  predicate IsPicture(r: Run) { r.picture }

  /** The runs of an element that embed an image (none for tables and other elements). */
  function PictureRuns(e: Element): nat {
    if e.Para? then |Filter(e.runs, IsPicture)| else 0
  }

  /** The image estimate of DocumentInfo.analyze: one per paragraph run embedding an image. */
  function ImageCount(b: Body): nat {
    if b == [] then 0 else PictureRuns(b[0]) + ImageCount(b[1..])
  }

  /** Only the paragraphs' runs are looked at: the count over the paragraph view is the same. */
  lemma {:induction false} ImageCountParagraphs(b: Body)
    ensures ImageCount(Paragraphs(b)) == ImageCount(b)
  {
    if b != [] {
      ImageCountParagraphs(b[1..]);
      var head := if IsPara(b[0]) then [b[0]] else [];
      assert Paragraphs(b) == head + Paragraphs(b[1..]);
      ImageCountAppend(head, Paragraphs(b[1..]));
    }
  }

  lemma {:induction false} ImageCountAppend(a: Body, b: Body)
    ensures ImageCount(a + b) == ImageCount(a) + ImageCount(b)
  {
    if a == [] {
      assert a + b == b;
    } else {
      assert (a + b)[1..] == a[1..] + b;
      ImageCountAppend(a[1..], b);
    }
  }

  /** A run with no formatting flags set. */
  function PlainRun(text: string): Run {
    Run(text, false, false, false, false, false)
  }

  /** add_paragraph(text): a run is created only for a non-empty text. */
  function TextParagraph(text: string): (e: Element)
    ensures e.Para? && ParaText(e) == text
    ensures !HasSpecialFormatting(e)
  {
    var runs := if text == "" then [] else [PlainRun(text)];
    assert runs != [] ==> runs[..0] == [] && RunsText(runs) == "" + text;
    Para(runs)
  }

  /** add_paragraph() with no text, and insert_paragraph_before(). */
  function EmptyParagraph(): Element {
    Para([])
  }

  /** add_page_break(): a new paragraph holding one run with a page break and no text. */
  function PageBreakParagraph(): (e: Element)
    ensures HasPageBreak(e) && ParaText(e) == ""
  {
    var runs := [Run("", false, false, false, true, false)];
    assert runs[..0] == [] && runs[0].pageBreak;
    Para(runs)
  }
}
