/**
 * `run_hackathon`: choose the corpus (the one built from the request's
 * document URL, or the preloaded one when there is no URL or a step of
 * building it raised), then answer every question from the top three
 * chunks.
 */
module App {
  import opened Wrappers
  import opened Strings
  import opened PyValues
  import opened Chunking
  import opened Retrieval
  import opened Collaborators
  import opened LlmQuery

  const NoInfo: string := "No relevant information found."
  const UrlDoc: string := "url_doc"
  const AppTopN: int := 3

  /** Chunk records and their embeddings, as `load_embeddings_and_chunks`
      or the dynamic path produces them. */
  datatype Corpus = Corpus(chunks: seq<ChunkRecord>, embeddings: seq<Vector>)

  /** Every embedding has its chunk, so the search never indexes past the
      chunk list. */
  predicate Aligned(c: Corpus)
  {
    |c.chunks| >= |c.embeddings|
  }

  /** `"".join([page.extract_text() or "" for page in reader.pages])`. */
  function JoinPages(pages: seq<Option<string>>): string
  {
    Concat(seq(|pages|, k requires 0 <= k < |pages| => pages[k].GetOr("")))
  }

  /** `[c["content"] for c in chunks]`, the texts `get_chunk_embeddings` encodes. */
  function Contents(chunks: seq<ChunkRecord>): (ts: seq<string>)
    ensures |ts| == |chunks|
    ensures forall k :: 0 <= k < |chunks| ==> ts[k] == chunks[k].content
  {
    seq(|chunks|, k requires 0 <= k < |chunks| => chunks[k].content)
  }

  /** The chunks of the dynamic path for the downloaded pages. */
  function UrlChunks(pages: seq<Option<string>>): seq<ChunkRecord>
  {
    Prepared([(UrlDoc, JoinPages(pages))])
  }

  /** The corpus the dynamic path builds from `url`, or `None` when the
      download, the PDF reading or the embedding raised. */
  function DynamicCorpus(svc: Services, url: string): Option<Corpus>
  {
    match svc.fetch(url)
    case None => None
    case Some(body) =>
      match svc.pdfPages(body)
      case None => None
      case Some(pages) =>
        var chunks := UrlChunks(pages);
        match svc.embed(Contents(chunks))
        case None => None
        case Some(es) => Some(Corpus(chunks, es))
  }

  /** `request.documents` is truthy. */
  predicate HasUrl(documents: Option<string>)
  {
    documents.Some? && documents.value != ""
  }

  /** The final value of `use_local`. */
  predicate UseLocal(svc: Services, documents: Option<string>)
  {
    !HasUrl(documents) || DynamicCorpus(svc, documents.value).None?
  }

  /** The `chunks, embeddings` the questions are answered from. */
  function ChosenCorpus(svc: Services, local: Corpus, documents: Option<string>): Corpus
  {
    if UseLocal(svc, documents) then local else DynamicCorpus(svc, documents.value).value
  }

  /** `use_local` is set exactly when there is no URL or one of the steps
      (download, PDF reading, embedding) raised; then the preloaded corpus
      is used as it is. */
  lemma {:induction false} UseLocalIff(svc: Services, local: Corpus, documents: Option<string>)
    ensures UseLocal(svc, documents) <==>
      || documents.None? || documents.value == ""
      || svc.fetch(documents.value).None?
      || svc.pdfPages(svc.fetch(documents.value).value).None?
      || svc.embed(Contents(UrlChunks(svc.pdfPages(svc.fetch(documents.value).value).value))).None?
    ensures UseLocal(svc, documents) ==> ChosenCorpus(svc, local, documents) == local
  {
  }

  /** The dynamic path never reads the preloaded corpus: with a URL whose
      corpus builds, any two preloaded corpora give the same chunks and
      embeddings, every chunk is tagged `url_doc`, and each chunk has its
      embedding. */
  lemma {:induction false} DynamicPathIgnoresLocal(svc: Services, local1: Corpus, local2: Corpus, documents: Option<string>)
    requires WellBehaved(svc)
    requires !UseLocal(svc, documents)
    ensures ChosenCorpus(svc, local1, documents) == ChosenCorpus(svc, local2, documents)
    ensures forall r :: r in ChosenCorpus(svc, local1, documents).chunks ==> r.doc == UrlDoc
    ensures |ChosenCorpus(svc, local1, documents).embeddings| == |ChosenCorpus(svc, local1, documents).chunks|
  {
    var pages := svc.pdfPages(svc.fetch(documents.value).value).value;
    var text := JoinPages(pages);
    PreparedOne(UrlDoc, text);
    var t := Tag(UrlDoc, DocumentChunks(text));
    forall r | r in t
      ensures r.doc == UrlDoc
    {
      var k :| 0 <= k < |t| && t[k] == r;
    }
  }

  /** The dynamic chunks are the chunks of the downloaded text. */
  lemma {:induction false} DynamicChunks(svc: Services, documents: Option<string>)
    requires !UseLocal(svc, documents)
    ensures var pages := svc.pdfPages(svc.fetch(documents.value).value).value;
      DynamicCorpus(svc, documents.value).value.chunks == Tag(UrlDoc, DocumentChunks(JoinPages(pages)))
  {
    var pages := svc.pdfPages(svc.fetch(documents.value).value).value;
    PreparedOne(UrlDoc, JoinPages(pages));
  }

  /** The block one result contributes to the question's context. */
  function AppBlock(h: Hit): string
  {
    "[Source: " + h.doc + "]\n" + h.chunk
  }

  function AppBlocks(hs: seq<Hit>): (bs: seq<string>)
    ensures |bs| == |hs|
    ensures forall k :: 0 <= k < |hs| ==> bs[k] == AppBlock(hs[k])
  {
    seq(|hs|, k requires 0 <= k < |hs| => AppBlock(hs[k]))
  }

  /** `"\n".join(f"[Source: {c['doc']}]\n{c['chunk']}" for c in top_chunks)`. */
  function AppContext(hs: seq<Hit>): string
  {
    JoinWith("\n", AppBlocks(hs))
  }

  /** The two context formats: `process_query` wraps every block in line
      breaks, `run_hackathon` only separates them, so for the same results
      the former is the latter with the separator doubled and one line
      break added at each end. */
  lemma {:induction false} ContextFormats(hs: seq<Hit>)
    ensures hs == [] ==> Context(hs) == "" && AppContext(hs) == ""
    ensures hs != [] ==> Context(hs) == "\n" + JoinWith("\n\n", AppBlocks(hs)) + "\n"
    decreases |hs|
  {
    if |hs| == 1 {
      ContextFormatsOne(hs);
    } else if |hs| > 1 {
      ContextFormats(hs[..|hs| - 1]);
      ContextFormatsStep(hs);
    }
  }

  lemma {:induction false} ContextFormatsOne(hs: seq<Hit>)
    requires |hs| == 1
    ensures Context(hs) == "\n" + JoinWith("\n\n", AppBlocks(hs)) + "\n"
  {
    assert hs[..0] == [];
    assert AppBlocks(hs) == [AppBlock(hs[0])];
    assert Context(hs) == Context(hs[..0]) + Block(hs[0]);
  }

  lemma {:induction false} ContextFormatsStep(hs: seq<Hit>)
    requires |hs| > 1
    requires Context(hs[..|hs| - 1]) == "\n" + JoinWith("\n\n", AppBlocks(hs[..|hs| - 1])) + "\n"
    ensures Context(hs) == "\n" + JoinWith("\n\n", AppBlocks(hs)) + "\n"
  {
    var init, last := hs[..|hs| - 1], hs[|hs| - 1];
    assert AppBlocks(hs) == AppBlocks(init) + [AppBlock(last)];
    JoinWithSnoc("\n\n", AppBlocks(init), AppBlock(last));
    WrapGlue(JoinWith("\n\n", AppBlocks(init)), AppBlock(last));
  }

  /** The string step of `ContextFormats`. */
  lemma WrapGlue(j: string, b: string)
    ensures "\n" + j + "\n" + ("\n" + b + "\n") == "\n" + (j + "\n\n" + b) + "\n"
  {
  }

  /** The answer for one model result: its `justification` when the result
      is truthy and holds that key, else the fixed fallback text.  Python's
      `in` and `[]` apply to whatever `json.loads` returned, so a truthy
      result that is not an object can raise. */
  function ReduceAnswer(llmResult: Option<Json>): Outcome<Json>
  {
    match llmResult
    case None => Ok(JStr(NoInfo))
    case Some(v) =>
      if !Truthy(v) then Ok(JStr(NoInfo))
      else match Contains("justification", v)
        case Raised(e) => Raised(e)
        case Ok(present) => if present then GetItem(v, "justification") else Ok(JStr(NoInfo))
  }

  /** The reduction on an object result (or none): the `justification` value
      when the key is there, the fallback text otherwise; and it raises
      exactly for a truthy non-object result that either does not support
      `in` (a number, `true`) or contains `"justification"` as an element or
      substring (a list or string cannot be indexed by it). */
  lemma {:induction false} ReduceAnswerRule(llmResult: Option<Json>)
    ensures llmResult.None? ==> ReduceAnswer(llmResult) == Ok(JStr(NoInfo))
    ensures llmResult.Some? && llmResult.value.JObj? ==>
      ReduceAnswer(llmResult) ==
        if "justification" in llmResult.value.fields
        then Ok(llmResult.value.fields["justification"])
        else Ok(JStr(NoInfo))
    ensures ReduceAnswer(llmResult).Raised? <==>
      llmResult.Some? && Truthy(llmResult.value) && !llmResult.value.JObj?
      && (Contains("justification", llmResult.value).Raised? || Contains("justification", llmResult.value) == Ok(true))
  {
  }

  /** The answer to question `q` over `corpus`. */
  function AnswerFor(svc: Services, corpus: Corpus, q: string): Outcome<Json>
    requires WellBehaved(svc)
    requires Aligned(corpus)
  {
    var sims := svc.similarities(q, corpus.embeddings);
    var top := TopHits(sims, svc.argsort(sims), corpus.chunks, AppTopN);
    ReduceAnswer(QueryResult(svc, q, AppContext(top)))
  }

  /** The answer to every question, each on its own. */
  function AnswerOutcomes(svc: Services, corpus: Corpus, questions: seq<string>): (os: seq<Outcome<Json>>)
    requires WellBehaved(svc)
    requires Aligned(corpus)
    ensures |os| == |questions|
    ensures forall k :: 0 <= k < |questions| ==> os[k] == AnswerFor(svc, corpus, questions[k])
  {
    seq(|questions|, k requires 0 <= k < |questions| => AnswerFor(svc, corpus, questions[k]))
  }

  /** Appending answers in turn, stopping at the first one that raised. */
  function Collect(outcomes: seq<Outcome<Json>>): Outcome<seq<Json>>
  {
    if outcomes == [] then Ok([])
    else match Collect(outcomes[..|outcomes| - 1])
      case Raised(e) => Raised(e)
      case Ok(answers) =>
        match outcomes[|outcomes| - 1]
        case Raised(e) => Raised(e)
        case Ok(a) => Ok(answers + [a])
  }

  /** The `answers` list after the loop, or the exception that stopped it. */
  function Answers(svc: Services, corpus: Corpus, questions: seq<string>): Outcome<seq<Json>>
    requires WellBehaved(svc)
    requires Aligned(corpus)
  {
    Collect(AnswerOutcomes(svc, corpus, questions))
  }

  /** Collecting succeeds exactly when every outcome does, and then keeps
      their values in order. */
  lemma {:induction false} CollectShape(outcomes: seq<Outcome<Json>>)
    ensures Collect(outcomes).Ok? <==> forall k :: 0 <= k < |outcomes| ==> outcomes[k].Ok?
    ensures Collect(outcomes).Ok? ==>
      && |Collect(outcomes).value| == |outcomes|
      && forall k :: 0 <= k < |outcomes| ==> Collect(outcomes).value[k] == outcomes[k].value
    decreases |outcomes|
  {
    if outcomes != [] {
      var init := outcomes[..|outcomes| - 1];
      CollectShape(init);
      forall k | 0 <= k < |init|
        ensures init[k] == outcomes[k]
      {
      }
    }
  }

  /** One answer per question, in the questions' order (none for no
      questions); the request fails exactly when answering some question
      raises. */
  lemma {:induction false} AnswersShape(svc: Services, corpus: Corpus, questions: seq<string>)
    requires WellBehaved(svc)
    requires Aligned(corpus)
    ensures Answers(svc, corpus, questions).Ok? <==>
      forall k :: 0 <= k < |questions| ==> AnswerFor(svc, corpus, questions[k]).Ok?
    ensures Answers(svc, corpus, questions).Ok? ==>
      && |Answers(svc, corpus, questions).value| == |questions|
      && forall k :: 0 <= k < |questions| ==>
           Answers(svc, corpus, questions).value[k] == AnswerFor(svc, corpus, questions[k]).value
  {
    CollectShape(AnswerOutcomes(svc, corpus, questions));
  }

  /** Once a prefix raised, the whole collection raises the same error. */
  lemma {:induction false} CollectRaisedPrefix(outcomes: seq<Outcome<Json>>, n: nat)
    requires n <= |outcomes|
    requires Collect(outcomes[..n]).Raised?
    ensures Collect(outcomes) == Collect(outcomes[..n])
    decreases |outcomes| - n
  {
    if n < |outcomes| {
      CollectStep(outcomes, n);
      CollectRaisedPrefix(outcomes, n + 1);
    } else {
      assert outcomes[..n] == outcomes;
    }
  }

  /** The outcomes of the first `i + 1` questions. */
  lemma {:induction false} CollectStep(outcomes: seq<Outcome<Json>>, i: nat)
    requires i < |outcomes|
    ensures Collect(outcomes[..i + 1]) ==
      match Collect(outcomes[..i])
      case Raised(e) => Raised(e)
      case Ok(answers) =>
        match outcomes[i]
        case Raised(e) => Raised(e)
        case Ok(a) => Ok(answers + [a])
  {
    assert outcomes[..i + 1][..i] == outcomes[..i];
  }

  /** The response of `run_hackathon`: the answers over the chosen corpus. */
  function RunResult(svc: Services, local: Corpus, documents: Option<string>, questions: seq<string>): Outcome<seq<Json>>
    requires WellBehaved(svc)
    requires Aligned(local)
  {
    var corpus := ChosenCorpus(svc, local, documents);
    assert Aligned(corpus) by {
      if !UseLocal(svc, documents) {
        DynamicPathIgnoresLocal(svc, local, local, documents);
      }
    }
    Answers(svc, corpus, questions)
  }

  /** The corpus choice of `run_hackathon`: try the dynamic path when there
      is a URL, falling back to the preloaded corpus when it raised. */
  method ChooseCorpus(svc: Services, local: Corpus, documents: Option<string>)
    returns (useLocal: bool, chunks: seq<ChunkRecord>, embeddings: seq<Vector>)
    ensures useLocal == UseLocal(svc, documents)
    ensures Corpus(chunks, embeddings) == ChosenCorpus(svc, local, documents)
  {
    useLocal := false;
    chunks, embeddings := [], [];
    if HasUrl(documents) {
      var body := svc.fetch(documents.value);
      if body.None? {
        useLocal := true;
      } else {
        var pages := svc.pdfPages(body.value);
        if pages.None? {
          useLocal := true;
        } else {
          var text := JoinPages(pages.value);
          chunks := PrepareChunks([(UrlDoc, text)]);
          var es := svc.embed(Contents(chunks));
          if es.None? {
            useLocal := true;
          } else {
            embeddings := es.value;
          }
        }
      }
    } else {
      useLocal := true;
    }
    if useLocal {
      chunks, embeddings := local.chunks, local.embeddings;
    }
  }

  /** `run_hackathon`, after the token check: the corpus choice and the
      per-question loop. */
  method RunHackathon(svc: Services, local: Corpus, documents: Option<string>, questions: seq<string>)
    returns (response: Outcome<seq<Json>>)
    requires WellBehaved(svc)
    requires Aligned(local)
    ensures response == RunResult(svc, local, documents, questions)
  {
    var useLocal, chunks, embeddings := ChooseCorpus(svc, local, documents);
    var corpus := Corpus(chunks, embeddings);
    assert Aligned(corpus) by {
      if !useLocal {
        DynamicPathIgnoresLocal(svc, local, local, documents);
      }
    }
    ghost var outcomes := AnswerOutcomes(svc, corpus, questions);
    assert RunResult(svc, local, documents, questions) == Collect(outcomes);

    var answers: seq<Json> := [];
    for i := 0 to |questions|
      invariant Collect(outcomes[..i]) == Ok(answers)
    {
      CollectStep(outcomes, i);
      var q := questions[i];
      var sims := svc.similarities(q, embeddings);
      var topChunks := SemanticSearch(sims, svc.argsort(sims), chunks, AppTopN);
      var context := AppContext(topChunks);
      var llmResult := QueryLlm(svc, q, context);
      var answer := ReduceAnswer(llmResult);
      assert answer == outcomes[i];
      if answer.Raised? {
        CollectRaisedPrefix(outcomes, i + 1);
        return Raised(answer.error);
      }
      answers := answers + [answer.value];
    }
    assert outcomes[..|questions|] == outcomes;
    response := Ok(answers);
  }
}
