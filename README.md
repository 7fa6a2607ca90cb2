# Word document merger — verified model of the merge engine

This project models, in Dafny, the engine that combines several Word
documents into one (`app.py`): the inspector `DocumentInfo.analyze` and the
`DocumentMerger` class. The merger takes the first input as the master
document. It optionally adds a cover page, then appends every later input in
order, and optionally ends with a table of contents. A document body is a
sequence of elements: a paragraph made of runs, a table, or any other element.
A run has its text, its bold, italic and underline flags, whether it holds a
page break, and whether it embeds an image. A paragraph's text is the
concatenation of its runs' texts.

The model has two layers.

- Specification functions over values, with the lemmas proved about them:
  - `Classifier`: which elements carry content; the first and last of them.
  - `Trimmer`: the removal of trailing blank paragraphs, run to a fixed point.
  - `Splice`: the window of source elements that an append copies.
  - `Append`: one append, together with the merger's counters.
  - `Passes`: the cover page and the table of contents.
  - `Orchestration`: the whole merge, with its error policy.
- Imperative classes that mirror the code:
  - `Inspector.DocumentInfo`, whose `Analyze` sets its fields behind the analyzed flag.
  - `Merger.Document`, whose body is changed in place.
  - `Merger.DocumentMerger`, whose `stats` field the methods update.

Every loop of `DocumentMerger` is a `while` loop in a method. The node scans, the counts in `analyze` and the counter sums (app.py:357, app.py:370, app.py:393-394) are functions over the element fields. Each method is proved
to leave exactly the state its specification function gives: for example,
`AppendDocument` gives `AppendStep` and `MergeDocuments` gives `Merge`. So
every lemma about those functions also holds for the methods.

Behaviour of the code that the model keeps as written:

- The cover page inserts only an empty paragraph before the first paragraph.
  The title, subtitle and information paragraphs are appended at the end of
  the first document, so they come after its content.
- The first input is the master and is never appended. Its paragraphs and
  tables are not added to the counters.
- `total_images` is never updated by the merge. Only `analyze` counts images.
- The table of contents lists every input, including inputs that failed to
  load and inputs skipped for having no content.
- A paragraph whose runs only embed inline images has blank text. The
  trimmer removes it at the end of the master, and the splice filter drops
  it between content elements. This holds for inline pictures only: a
  floating picture carries position text in its drawing nodes, which the
  splice filter reads and the model does not.
- In the trimmer, the branch that gives up when some run's stripped text is
  not empty cannot be reached. The paragraph's text is already blank, so
  every run's text is blank too (`Trimmer.RemovableIff`).

## Model

| member | source | states |
|---|---|---|
| Text.StripEmptyIffBlank | app.py:207-209 | `s.strip()` is empty exactly when every character of `s` is whitespace in the sense of Python's `isspace` |
| Text.NatToStringRoundTrip | app.py:336 | the decimal rendering of the document number reads back as the number |
| Elements.RunsTextBlank | app.py:268-273 | a paragraph's text is blank exactly when each of its runs' texts is blank |
| Elements.ImageCountParagraphs | app.py:170 | counting image runs over the paragraph view gives the same number as over the whole body |
| Classifier.HasRealContent | app.py:202-217 | true exactly when some element of the body is a table or a paragraph with non-blank text |
| Classifier.HasRealContentIff | app.py:202-217 | false exactly when every paragraph's text is blank and there is no table |
| Classifier.HasRealContentIffContent | app.py:202-217 | true exactly when the body's sequence of content elements is non-empty |
| Classifier.NoContentCountsZero | app.py:296-298 | a body without real content has no non-blank paragraph, no table and no content |
| Classifier.LastMeaningfulElement | app.py:219-232 | the index of the last table or non-blank paragraph, with no content after it; None exactly when the body has no content |
| Classifier.LastMeaningfulUnique | app.py:219-232 | an index with content and no content after it, or None for a body without content, is the scan's result |
| Classifier.LastMeaningfulIffContent | app.py:310-314 | a last meaningful element exists exactly when the body has real content |
| Classifier.FirstContentIndex | app.py:354-363 | the index of the first table or non-blank paragraph, with no content before it, and 0 when there is none |
| Classifier.LastParagraphIndex | app.py:243 | the index of the last paragraph, with no paragraph after it; None when there are no paragraphs |
| Classifier.FirstParagraphIndex | app.py:486-489 | the index of the first paragraph, with no paragraph before it; None when there are no paragraphs |
| Classifier.ParagraphCountPositive | app.py:236 | the paragraph count is positive exactly when a first and a last paragraph exist |
| Trimmer.RemovableIff | app.py:243-284 | the loop's test (blank text, no break or bold/italic/underline run, then no runs or only blank runs) holds exactly for the removable paragraphs |
| Trimmer.ContentNotRemovable | app.py:259 | tables and paragraphs with non-blank text are never removable |
| Trimmer.KeepLength | app.py:241-284 | one past the last paragraph the trimmer keeps, with no kept paragraph after it |
| Trimmer.TrimmedShape | app.py:234-284 | the trimmed body is everything up to the last kept paragraph, followed by only the non-paragraph elements after it, in order |
| Trimmer.TrimmedEndsClean | app.py:241-284 | the trimmer stops only when no paragraph remains or the last one must stay |
| Trimmer.TrimmedFixedPointIff | app.py:234-284 | a body is left unchanged exactly when it already ends clean |
| Trimmer.TrimmedIdempotent | app.py:234-284 | trimming twice gives the same body as trimming once |
| Trimmer.TrimmedKeepsNotRemovable | app.py:234-284 | every table, other element and non-removable paragraph survives, in the original order |
| Trimmer.TrimmedContent | app.py:234-284 | trimming never changes the content sequence |
| Trimmer.TrimmedExtends | app.py:386-391 | trimming after appending to a body that ends clean never cuts into that body |
| Splice.SpliceRangeFilter | app.py:365-384 | any selection that rejects every skipped paragraph sees the same elements in the copied window as in the source range |
| Splice.SpliceWindowContent | app.py:354-388 | the copied window holds exactly the source's content elements, in order |
| Splice.SpliceWindowKeepsStructure | app.py:365-384 | every table, other element and page-break paragraph from the first content element on is copied, in order |
| Splice.SpliceWindowKeepsLast | app.py:381 | the last source element is always copied, as the window's last element |
| Splice.ScanFirstContent | app.py:354-363 | the scan's early-exit loop returns the first content index |
| Splice.SelectElements | app.py:365-384 | the filtering loop builds exactly the window over the given range |
| Append.HeaderParagraph | app.py:334-339 | the numbered header is a content paragraph without a page break whose text is "Documento {n}: {name}" |
| Append.SeparatorParagraph | app.py:342-347 | the separator is a content paragraph without a page break whose text is 80 box-drawing horizontal lines |
| Append.HeadingElements | app.py:334-347 | every header and separator element is content and holds no page break |
| Append.AppendStepStats | app.py:296-395 | the counters grow by the source's non-blank paragraphs and tables; a source without content changes neither the body nor the counters |
| Append.JointPageBreaks | app.py:310-331 | at most one page break is added, and one is added exactly when breaks are enabled, the trimmed master has content and its last paragraph holds no break |
| Append.JointContent | app.py:310-347 | the content added before the copied elements is the header and the separator, when enabled |
| Append.AppendContent | app.py:286-395 | the master's content after an append is its old content, then the joint's, then the source's |
| Append.JointEndsClean | app.py:310-347 | adding the break, header and separator to a clean master leaves it clean |
| Append.AppendKeepsMasterAndJoint | app.py:300-391 | the trimmed master and the break, header and separator after it form a prefix of the new body |
| Append.AppendEndsClean | app.py:296-391 | after appending a source with content the master ends clean whatever its state before, because the whole new body is trimmed; after skipping a source without content a master that was clean stays clean |
| Passes.CoverSubtitle | app.py:496 | the subtitle is never empty, and the default one is not blank |
| Passes.SubtitleParagraph | app.py:497-502 | the subtitle paragraph carries the subtitle text and no page break |
| Passes.CoverBlockNoBreak | app.py:491-506 | the title, subtitle and information block is non-empty and holds no page break |
| Passes.CoverBlockContent | app.py:491-506 | the block has real content exactly when its title, subtitle or information text is not blank |
| Passes.CoverPageKeepsBody | app.py:486-489 | the body stays in place except for one empty paragraph inserted before its first paragraph |
| Passes.CoverPagePlacement | app.py:491-511 | the cover block comes right after the whole body and the inserted paragraph, and only the optional closing page break follows it |
| Passes.CoverPageContent | app.py:483-511 | the covered body's content is the body's content followed by the block's |
| Passes.CoverPageBreak | app.py:508-511 | the cover ends with a page break exactly when the body or one of the three texts is not blank |
| Passes.CoverPageDefaultBreak | app.py:496-511 | with the default subtitle, the cover always ends with a page break paragraph |
| Passes.TocEntry | app.py:531 | an entry is a content paragraph whose text is "{i}. {name}" |
| Passes.TocEntries | app.py:530-531 | one entry per input, numbered from 1 in input order |
| Passes.TocLeadContent | app.py:515-520 | the trimming and the conditional page break before the index add no content |
| Passes.TableOfContentsContent | app.py:513-535 | the content after the index pass is the body's content, then the heading, then the entries |
| Orchestration.Process | app.py:436-459 | the loop can only stop at an input after the first one it has reached |
| Orchestration.ProcessFailure | app.py:436-459 | the loop stops exactly when stop_on_error is set and some later input fails to load, and then at the first such input, with its message |
| Orchestration.StepStats | app.py:440-459 | a step either stops the loop and keeps the state, or adds the input's counts |
| Orchestration.ProcessStats | app.py:436-459 | the counters grow by the non-blank paragraphs and tables of every loaded input the loop got through |
| Orchestration.StepContent | app.py:440-459 | a step that does not stop the loop adds the input's heading and content |
| Orchestration.AppendStepContent | app.py:286-395 | one append adds the heading and then the source's content after the master's content |
| Orchestration.ProcessContent | app.py:436-459 | after the loop the content is the master's, then each input's heading and content in order, up to where the loop stopped |
| Orchestration.MergeFails | app.py:414-481 | a merge fails exactly when there are no inputs, the first fails to load, or stop_on_error is set and a later one fails |
| Orchestration.MergeErrorIndex | app.py:454-459 | a load error names the first input whose failure ended the merge, with its message |
| Orchestration.MergeStats | app.py:417-459 | the document count is the number of inputs, the image count is unchanged, and after a success the paragraph and table counts grow by those of every input after the first |
| Orchestration.MergeContent | app.py:397-481 | a merged document's content is the first input's, the cover text, each later input's heading and content in order, then the index |
| Orchestration.MergeSingle | app.py:419-465 | a single input with no cover and no index comes back exactly as loaded |
| Inspector.PagesEstimate | app.py:173 | the estimate is at least 1; it is the number of whole 50-paragraph pages from 50 paragraphs on, and 1 below 100 paragraphs |
| Inspector.PagesEstimateMonotonic | app.py:173 | more paragraphs never give a smaller estimate |
| Inspector.DocumentInfo.constructor | app.py:140-151 | a new record has zero counts, is valid, has no error and is not analyzed |
| Inspector.DocumentInfo.Analyze | app.py:153-182 | once analyzed nothing changes; otherwise a loaded input sets the paragraph, table and image counts and the estimate and is valid, and a failed one is invalid with the error message |
| Merger.ScanSpecialFormatting | app.py:247-256 | the run loop finds a page break, bold, italic or underline exactly when the paragraph has special formatting |
| Merger.ScanPageBreak | app.py:319-322 | the run loop finds a page break exactly when the paragraph holds one |
| Merger.ScanRunsEmpty | app.py:268-272 | the run loop reports all runs empty exactly when every run's text is blank |
| Merger.DocumentMerger.constructor | app.py:187-195 | a new merger starts with all counters at zero |
| Merger.DocumentMerger.FindRealContent | app.py:202-217 | the scan with its early returns computes HasRealContent |
| Merger.DocumentMerger.FindLastMeaningfulElement | app.py:219-232 | the backward scan computes LastMeaningfulElement |
| Merger.DocumentMerger.CleanEmptyParagraphsAtEnd | app.py:234-284 | the removal loop leaves the document as Trimmed of its old body |
| Merger.DocumentMerger.AddSeparatingBreak | app.py:310-331 | a page break paragraph is appended exactly under the conditions of AddsPageBreak |
| Merger.DocumentMerger.AddJoint | app.py:310-347 | the break, the numbered header and the separator are appended as Joint describes |
| Merger.DocumentMerger.CopyElements | app.py:387-388 | the copy loop appends the selected elements in order |
| Merger.DocumentMerger.AppendBody | app.py:300-391 | the master becomes the trimmed master, plus the joint and the window, trimmed again |
| Merger.DocumentMerger.AppendDocument | app.py:286-395 | the master's body and the counters become AppendStep of the old ones |
| Merger.DocumentMerger.InsertLeadingBlank | app.py:486-489 | an empty paragraph is inserted before the first paragraph, if there is one |
| Merger.DocumentMerger.AppendCoverBlock | app.py:491-506 | the title, subtitle and information paragraphs are appended as CoverBlock describes |
| Merger.DocumentMerger.AddCoverPage | app.py:483-511 | the document becomes CoverPage of its old body |
| Merger.DocumentMerger.AddTocEntries | app.py:530-531 | the entry loop appends one numbered entry per input, in order |
| Merger.DocumentMerger.AddTableOfContents | app.py:513-535 | the document becomes TableOfContents of its old body and the input names |
| Merger.DocumentMerger.AppendRemaining | app.py:436-459 | the loop over the later inputs leaves the master, the counters and the stopping failure that Process gives |
| Merger.DocumentMerger.MergeDocuments | app.py:397-481 | the result and the counters are those of Merge on the inputs |
| Merger.StopsAt | app.py:454-457 | an input that fails to load under stop_on_error, reached without earlier failure, ends the loop with its own index and message |

## Left out

- The Streamlit interface, its session state and its handlers are not part of this model: they are presentation.
- Reading and writing `.docx` files (`Document(...)`, `save`, `BytesIO`, `seek`) is not modelled. Loading an input is a value, either the loaded body or the library's error message.
- XPath and tag tests are replaced by fields:
  - a page-break run is the run's `pageBreak` flag;
  - an image run is its `picture` flag;
  - a paragraph or table is the element's variant.
- A paragraph's text is the concatenation of its runs' texts. Text in hyperlinks, fields or other nested nodes is not modelled. This includes the text inside drawing nodes, such as the position offsets of a floating picture: the first-content scan and the splice filter read all node text (app.py:357, app.py:370), so the code treats such a paragraph as content where the model does not.
- Fonts, sizes, colours and alignment are not modelled: they are cosmetic.
- Paragraph styles are not modelled. The cover title (`add_heading(..., 0)`, app.py:492), the index heading (`add_heading(..., 1)`, app.py:523) and the index entries (`style='List Number'`, app.py:531) look styles up by name. A master that lacks the Title, Heading 1 or List Number style makes the code raise, and `merge_documents` re-raises the error (app.py:478-481). `Passes.CoverPage`, `Passes.TableOfContents` and `Orchestration.Merge` are total, so the model does not capture that failure.
- The document size and its source kind (path or upload) are not modelled.
- The processing time and the clock are not modelled. The formatted current time that a default cover subtitle uses is a parameter (`now`).
- Logging and the progress callback are not modelled.
- Where python-docx puts new paragraphs is not modelled. Its `add_paragraph`, `add_heading` and `add_page_break` insert in front of the body's first section-properties element, not at the end. The model appends every new paragraph at the end of the body. Copied elements go at the end in both (app.py:388), and a source's trailing section properties are copied as an `Other` element. So from the third input on, the code puts each header, separator and page break in front of the elements already copied, and puts the index there too. `Orchestration.MergeContent` and `Passes.TableOfContentsContent` place them at the end.
- The `try`/`except: break` around each paragraph removal in the trimmer is not modelled: removing a paragraph from a body cannot fail in the model.
- `options['current_doc_name']` is not written into the options. The name is passed to the append directly.
- Merger.DocumentMerger.AppendDocument: takes the source as a body value, not a document object, because the code only reads the source.
- Merger.DocumentMerger.FindRealContent: takes a body value, not a document object, for the same reason.
- Merger.DocumentMerger.FindLastMeaningfulElement: takes a body value and returns the element's index rather than the element itself.
- Merger.DocumentMerger.MergeDocuments: returns the merged body rather than serialized bytes. The counters stay in the merger's `stats` field rather than being returned alongside.
- Errors are values (`Err(NoDocuments)`, `Err(LoadError(index, message))`), not exceptions. The index of the failing input is added by the model.
- `format_file_size`, `get_file_size`, `validate_docx_file` and `list_docx_in_folder` are not part of this model: they do file-system I/O or floating-point formatting.
- config.py is not part of this model: `app.py` does not use its constants.
