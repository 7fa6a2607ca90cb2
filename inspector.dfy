/**
 * DocumentInfo: one input of the merger, with the statistics analyze fills in
 * the first time it is called.
 */
module Inspector {
  import opened Wrappers
  import opened Elements

  /** The page estimate of analyze: one page per 50 paragraphs, never less than one. */
  function PagesEstimate(paragraphs: nat): (r: nat)
    ensures r >= 1
    ensures paragraphs >= 50 ==> r * 50 <= paragraphs < (r + 1) * 50
    ensures paragraphs < 100 ==> r == 1
  {
    if paragraphs / 50 > 1 then paragraphs / 50 else 1
  }

  /** More paragraphs never give fewer estimated pages. */
  lemma PagesEstimateMonotonic(p: nat, q: nat)
    requires p <= q
    ensures PagesEstimate(p) <= PagesEstimate(q)
  {
    assert p / 50 <= q / 50 by {
      DivMonotonic(p, q, 50);
    }
  }

  lemma DivMonotonic(p: nat, q: nat, d: nat)
    requires p <= q && d > 0
    ensures p / d <= q / d
  {
    var a, b := p / d, q / d;
    assert a * d <= p && q < (b + 1) * d;
    assert a * d < (b + 1) * d;
    MulLessCancel(a, b + 1, d);
  }

  lemma MulLessCancel(a: int, b: int, d: nat)
    requires d > 0 && a * d < b * d
    ensures a < b
  {
    assert (b - a) * d > 0;
  }

  class DocumentInfo {
    const name: string
    /** What opening the input yields; the file path or upload it stands for is not modelled. */
    const source: LoadResult
    var paragraphs: nat
    var tables: nat
    var images: nat
    var pagesEstimate: nat
    var isValid: bool
    var errorMessage: Option<string>
    var analyzed: bool

    constructor(name: string, source: LoadResult)
      ensures this.name == name && this.source == source
      ensures paragraphs == 0 && tables == 0 && images == 0 && pagesEstimate == 0
      ensures isValid && errorMessage.None? && !analyzed
    {
      this.name := name;
      this.source := source;
      paragraphs := 0;
      tables := 0;
      images := 0;
      pagesEstimate := 0;
      isValid := true;
      errorMessage := None;
      analyzed := false;
    }

    /**
     * analyze: once analyzed nothing changes; otherwise a loaded input sets the
     * paragraph, table and image counts and the page estimate and is valid, and
     * an input that fails to load is invalid with the library's message.
     */
    method Analyze()
      modifies this
      ensures old(analyzed) ==> unchanged(this)
      ensures !old(analyzed) && source.Loaded? ==>
                paragraphs == ParagraphCount(source.body) && tables == TableCount(source.body) &&
                images == ImageCount(source.body) && pagesEstimate == PagesEstimate(paragraphs) &&
                isValid && errorMessage == old(errorMessage) && analyzed
      ensures !old(analyzed) && source.LoadFailed? ==>
                paragraphs == old(paragraphs) && tables == old(tables) && images == old(images) &&
                pagesEstimate == old(pagesEstimate) &&
                !isValid && errorMessage == Some(source.message) && analyzed
    {
      if analyzed {
        return;
      }
      if source.LoadFailed? {
        isValid := false;
        errorMessage := Some(source.message);
        analyzed := true;
        return;
      }
      var body := source.body;
      paragraphs := ParagraphCount(body);
      tables := TableCount(body);
      images := ImageCount(Paragraphs(body));
      ImageCountParagraphs(body);
      pagesEstimate := PagesEstimate(paragraphs);
      isValid := true;
      analyzed := true;
    }
  }
}
