/**
 * merge_documents as a function of its inputs: the first input is the base,
 * every later input is appended in order, the cover page and the table of
 * contents are optional passes, and a failed load either stops the merge or
 * is passed over.
 */
module Orchestration {
  import opened Wrappers
  import opened Seqs
  import opened Elements
  import opened Classifier
  import opened Trimmer
  import opened Append
  import opened Passes

  /** One input document: its display name and what opening it yields. */
  datatype Input = Input(name: string, loaded: LoadResult)

  /** Why a merge gives no document: no inputs, or the input at index failed to load. */
  datatype MergeError = NoDocuments | LoadError(index: nat, message: string)

  /** A failed load inside the loop, at its input index. */
  datatype Failure = Failure(index: nat, message: string)

  /** Where the loop stands: the master and counters, and the failure that stopped it. */
  datatype Progress = Progress(state: MergeState, failure: Option<Failure>)

  /** The merged body or the error raised, with the counters as the merger holds them afterwards. */
  datatype Outcome = Outcome(result: Result<Body, MergeError>, stats: Stats)

  /** The input names in order, as the table of contents lists them. */
  function Names(docs: seq<Input>): (r: seq<string>)
    ensures |r| == |docs| && forall i | 0 <= i < |docs| :: r[i] == docs[i].name
  {
    seq(|docs|, i requires 0 <= i < |docs| => docs[i].name)
  }

  /**
   * One pass of the loop body for the input d numbered n (at index n - 1): a
   * failed load stops the loop when stop_on_error is set and is passed over
   * otherwise; nothing happens once the loop has stopped.
   */
  function Step(p: Progress, d: Input, n: nat, opts: Options): Progress
    requires n >= 1
  {
    if p.failure.Some? then p
    else if d.loaded.LoadFailed? then
      (if opts.stopOnError then Progress(p.state, Some(Failure(n - 1, d.loaded.message))) else p)
    else Progress(AppendStep(p.state, d.loaded.body, n, d.name, opts), None)
  }

  /** The loop over docs[1..i]: input j gets number j + 1. */
  function Process(st: MergeState, docs: seq<Input>, i: nat, opts: Options): (p: Progress)
    requires 1 <= i <= |docs|
    ensures p.failure.Some? ==> 1 <= p.failure.value.index < i
    decreases i
  {
    if i == 1 then Progress(st, None)
    else Step(Process(st, docs, i - 1, opts), docs[i - 1], i, opts)
  }

  /** How many inputs the loop got through: all i, or up to the one that stopped it. */
  function Reached(p: Progress, i: nat): nat {
    if p.failure.Some? then p.failure.value.index else i
  }

  /** The non-blank paragraphs of the loaded inputs among docs[lo..hi]. */
  function LoadedParagraphs(docs: seq<Input>, lo: nat, hi: nat): nat
    requires lo <= hi <= |docs|
    decreases hi - lo
  {
    if hi == lo then 0
    else LoadedParagraphs(docs, lo, hi - 1) + Paragraphs1(docs[hi - 1])
  }

  /** The tables of the loaded inputs among docs[lo..hi]. */
  function LoadedTables(docs: seq<Input>, lo: nat, hi: nat): nat
    requires lo <= hi <= |docs|
    decreases hi - lo
  {
    if hi == lo then 0
    else LoadedTables(docs, lo, hi - 1) + Tables1(docs[hi - 1])
  }

  /** What one appended input adds to the content: its heading, then its own content. */
  function Contribution(d: Input, n: nat, opts: Options): Body {
    if d.loaded.Loaded? && HasRealContent(d.loaded.body) then
      Heading(n, d.name, opts) + Content(d.loaded.body)
    else []
  }

  /** The contributions of docs[lo..hi], in input order. */
  function LoadedContent(docs: seq<Input>, lo: nat, hi: nat, opts: Options): Body
    requires lo <= hi <= |docs|
    decreases hi - lo
  {
    if hi == lo then []
    else LoadedContent(docs, lo, hi - 1, opts) + Contribution(docs[hi - 1], hi, opts)
  }

  /** merge_documents; now stands for the formatted current time the cover subtitle may use. */
  function Merge(docs: seq<Input>, opts: Options, now: string, stats0: Stats): Outcome {
    if docs == [] then Outcome(Err(NoDocuments), stats0)
    else
      var stats1 := stats0.(totalDocs := |docs|);
      var first := docs[0].loaded;
      if first.LoadFailed? then Outcome(Err(LoadError(0, first.message)), stats1)
      else
        var p := Process(MergeState(Base(first.body, opts, now), stats1), docs, |docs|, opts);
        if p.failure.Some? then
          Outcome(Err(LoadError(p.failure.value.index, p.failure.value.message)), p.state.stats)
        else Outcome(Ok(Finish(p.state.body, docs, opts)), p.state.stats)
  }

  /** The first input's body, with the cover page when enabled. */
  function Base(first: Body, opts: Options, now: string): Body {
    if opts.addCoverPage then CoverPage(first, opts, now) else first
  }

  /** The body after the loop, with the table of contents when enabled. */
  function Finish(body: Body, docs: seq<Input>, opts: Options): Body {
    if opts.addTableOfContents then TableOfContents(body, Names(docs)) else body
  }

  /**
   * The loop stops exactly when stop_on_error is set and some input after the
   * first fails to load, and then at the first such input.
   */
  lemma {:induction false} ProcessFailure(st: MergeState, docs: seq<Input>, i: nat, opts: Options)
    requires 1 <= i <= |docs|
    ensures var p := Process(st, docs, i, opts);
            p.failure.Some? <==> opts.stopOnError && exists j | 1 <= j < i :: docs[j].loaded.LoadFailed?
    ensures var p := Process(st, docs, i, opts);
            p.failure.Some? ==>
              var k := p.failure.value.index;
              1 <= k < i && docs[k].loaded == LoadFailed(p.failure.value.message) &&
              forall j | 1 <= j < k :: docs[j].loaded.Loaded?
    decreases i
  {
    if i > 1 {
      ProcessFailure(st, docs, i - 1, opts);
      var p := Process(st, docs, i - 1, opts);
      if p.failure.None? && opts.stopOnError && docs[i - 1].loaded.Loaded? {
        forall j | 1 <= j < i ensures docs[j].loaded.Loaded? {
          if j < i - 1 {
            assert !docs[j].loaded.LoadFailed?;
          }
        }
      }
    }
  }

  /**
   * The counters grow by the non-blank paragraphs and tables of every loaded
   * input the loop got through; the document count and image count stay.
   */
  lemma {:induction false} ProcessStats(st: MergeState, docs: seq<Input>, i: nat, opts: Options)
    requires 1 <= i <= |docs|
    ensures var p := Process(st, docs, i, opts);
            var m := Reached(p, i);
            1 <= m <= i &&
            p.state.stats == st.stats.(totalParagraphs := st.stats.totalParagraphs + LoadedParagraphs(docs, 1, m),
                                       totalTables := st.stats.totalTables + LoadedTables(docs, 1, m))
    decreases i
  {
    if i > 1 {
      ProcessStats(st, docs, i - 1, opts);
      var p := Process(st, docs, i - 1, opts);
      var q := Process(st, docs, i, opts);
      assert q == Step(p, docs[i - 1], i, opts);
      if p.failure.None? {
        StepStats(p, docs[i - 1], i, opts);
        if q.failure.None? {
          assert Reached(q, i) == i;
          assert LoadedParagraphs(docs, 1, i) == LoadedParagraphs(docs, 1, i - 1) + Paragraphs1(docs[i - 1]);
          assert LoadedTables(docs, 1, i) == LoadedTables(docs, 1, i - 1) + Tables1(docs[i - 1]);
        }
      }
    }
  }

  /** The non-blank paragraphs one input brings, if it loads. */
  function Paragraphs1(d: Input): nat {
    if d.loaded.Loaded? then NonBlankParagraphCount(d.loaded.body) else 0
  }

  /** The tables one input brings, if it loads. */
  function Tables1(d: Input): nat {
    if d.loaded.Loaded? then TableCount(d.loaded.body) else 0
  }

  /** A step either stops the loop and keeps the state, or adds the input's counts. */
  lemma StepStats(p: Progress, d: Input, n: nat, opts: Options)
    requires n >= 1 && p.failure.None?
    ensures var q := Step(p, d, n, opts);
            (q.failure.Some? ==> q.state == p.state && q.failure.value.index == n - 1) &&
            (q.failure.None? ==>
               q.state.stats == p.state.stats.(totalParagraphs := p.state.stats.totalParagraphs + Paragraphs1(d),
                                              totalTables := p.state.stats.totalTables + Tables1(d)))
  {
    if d.loaded.Loaded? {
      AppendStepStats(p.state, d.loaded.body, n, d.name, opts);
    }
  }

  /**
   * The content of the master after the loop is its content before, then each
   * input's heading and content in input order, up to where the loop stopped.
   */
  lemma {:induction false} ProcessContent(st: MergeState, docs: seq<Input>, i: nat, opts: Options)
    requires 1 <= i <= |docs|
    ensures var p := Process(st, docs, i, opts);
            var m := Reached(p, i);
            1 <= m <= i &&
            Content(p.state.body) == Content(st.body) + LoadedContent(docs, 1, m, opts)
    decreases i
  {
    if i > 1 {
      ProcessContent(st, docs, i - 1, opts);
      var p := Process(st, docs, i - 1, opts);
      var q := Process(st, docs, i, opts);
      var base := Content(st.body);
      assert q == Step(p, docs[i - 1], i, opts);
      if p.failure.Some? {
        assert q == p;
        assert Reached(q, i) == Reached(p, i - 1);
      } else {
        StepContent(p, docs[i - 1], i, opts);
        var c := Contribution(docs[i - 1], i, opts);
        if q.failure.Some? {
          assert Reached(q, i) == i - 1;
          assert q.state == p.state;
        } else {
          assert Reached(q, i) == i;
          assert Content(q.state.body) == (base + LoadedContent(docs, 1, i - 1, opts)) + c;
          assert LoadedContent(docs, 1, i, opts) == LoadedContent(docs, 1, i - 1, opts) + c;
          AppendAssoc(base, LoadedContent(docs, 1, i - 1, opts), c);
        }
      }
    } else {
      AppendEmpty(Content(st.body));
    }
  }

  /** A step that does not stop the loop adds the input's contribution to the content. */
  lemma StepContent(p: Progress, d: Input, n: nat, opts: Options)
    requires n >= 1 && p.failure.None?
    ensures var q := Step(p, d, n, opts);
            (q.failure.Some? ==> q.state == p.state && q.failure.value.index == n - 1) &&
            (q.failure.None? ==> Content(q.state.body) == Content(p.state.body) + Contribution(d, n, opts))
  {
    if d.loaded.Loaded? && HasRealContent(d.loaded.body) {
      AppendStepContent(p.state, d.loaded.body, n, d.name, opts);
    } else if d.loaded.Loaded? {
      AppendStepStats(p.state, d.loaded.body, n, d.name, opts);
    }
  }

  /** One append adds the input's heading and content after the master's content. */
  lemma AppendStepContent(st: MergeState, source: Body, n: nat, name: string, opts: Options)
    requires HasRealContent(source)
    ensures Content(AppendStep(st, source, n, name, opts).body) ==
            Content(st.body) + (Heading(n, name, opts) + Content(source))
  {
    AppendContent(st, source, n, name, opts);
    JointContent(Trimmed(st.body), n, name, opts);
  }

  /**
   * A merge fails exactly when there are no inputs, the first input fails to
   * load, or stop_on_error is set and a later input fails to load.
   */
  lemma MergeFails(docs: seq<Input>, opts: Options, now: string, stats0: Stats)
    ensures Merge(docs, opts, now, stats0).result.Err? <==>
            docs == [] || docs[0].loaded.LoadFailed? ||
            (opts.stopOnError && exists j | 1 <= j < |docs| :: docs[j].loaded.LoadFailed?)
  {
    if docs != [] && docs[0].loaded.Loaded? {
      var base := Base(docs[0].loaded.body, opts, now);
      ProcessFailure(MergeState(base, stats0.(totalDocs := |docs|)), docs, |docs|, opts);
    }
  }

  /** The error names the first input whose load failure ended the merge, with its message. */
  lemma MergeErrorIndex(docs: seq<Input>, opts: Options, now: string, stats0: Stats)
    ensures var r := Merge(docs, opts, now, stats0).result;
            r.Err? && r.error.LoadError? ==>
              var k := r.error.index;
              k < |docs| && docs[k].loaded == LoadFailed(r.error.message) &&
              forall j | 0 <= j < k :: docs[j].loaded.Loaded?
  {
    if docs != [] && docs[0].loaded.Loaded? {
      var base := Base(docs[0].loaded.body, opts, now);
      ProcessFailure(MergeState(base, stats0.(totalDocs := |docs|)), docs, |docs|, opts);
    }
  }

  /**
   * After a successful merge the counters hold the number of inputs and the
   * non-blank paragraphs and tables of every input after the first; the first
   * input's own paragraphs and tables are not counted, and images stay as they were.
   */
  lemma MergeStats(docs: seq<Input>, opts: Options, now: string, stats0: Stats)
    requires docs != []
    ensures var o := Merge(docs, opts, now, stats0);
            o.stats.totalDocs == |docs| && o.stats.totalImages == stats0.totalImages
    ensures var o := Merge(docs, opts, now, stats0);
            o.result.Ok? ==>
              o.stats.totalParagraphs == stats0.totalParagraphs + LoadedParagraphs(docs, 1, |docs|) &&
              o.stats.totalTables == stats0.totalTables + LoadedTables(docs, 1, |docs|)
  {
    if docs[0].loaded.Loaded? {
      var st := MergeState(Base(docs[0].loaded.body, opts, now), stats0.(totalDocs := |docs|));
      var p := Process(st, docs, |docs|, opts);
      assert Merge(docs, opts, now, stats0).stats == p.state.stats;
      ProcessStats(st, docs, |docs|, opts);
    }
  }

  /** The optional cover block's content: what the cover page adds after the first input. */
  function CoverContent(opts: Options, now: string): Body {
    if opts.addCoverPage then Content(CoverBlock(opts, now)) else []
  }

  /** The optional index's content: its heading and one entry per input. */
  function TocContent(docs: seq<Input>, opts: Options): Body {
    if opts.addTableOfContents then [TextParagraph(TocTitle)] + TocEntries(Names(docs)) else []
  }

  /**
   * The content of a merged document: the first input's content, the cover
   * text, each later input's heading and content in order, then the index.
   */
  lemma MergeContent(docs: seq<Input>, opts: Options, now: string, stats0: Stats)
    ensures var r := Merge(docs, opts, now, stats0).result;
            r.Ok? ==>
              docs != [] && docs[0].loaded.Loaded? &&
              Content(r.value) == Content(docs[0].loaded.body) + CoverContent(opts, now) +
                                  LoadedContent(docs, 1, |docs|, opts) + TocContent(docs, opts)
  {
    if docs != [] && docs[0].loaded.Loaded? {
      var first := docs[0].loaded.body;
      var base := Base(first, opts, now);
      assert Content(base) == Content(first) + CoverContent(opts, now) by {
        if opts.addCoverPage {
          CoverPageContent(first, opts, now);
        } else {
          AppendEmpty(Content(first));
        }
      }
      var st := MergeState(base, stats0.(totalDocs := |docs|));
      var p := Process(st, docs, |docs|, opts);
      if p.failure.None? {
        var body := p.state.body;
        assert Content(body) == Content(base) + LoadedContent(docs, 1, |docs|, opts) by {
          ProcessContent(st, docs, |docs|, opts);
        }
        if opts.addTableOfContents {
          TableOfContentsContent(body, Names(docs));
          AppendAssoc(Content(body), [TextParagraph(TocTitle)], TocEntries(Names(docs)));
        } else {
          AppendEmpty(Content(body));
        }
      }
    }
  }

  /** A single input merged with no cover and no index comes back exactly as loaded. */
  lemma MergeSingle(d: Input, opts: Options, now: string, stats0: Stats)
    requires d.loaded.Loaded? && !opts.addCoverPage && !opts.addTableOfContents
    ensures Merge([d], opts, now, stats0).result == Ok(d.loaded.body)
  {
  }
}
