/**
 * The code the pipeline calls but does not own, as functions passed in:
 * the HTTP client, the PDF reader, the sentence-embedding model, numpy's
 * `argsort`, the UTF-8 decoder and `json.loads`.  A call that raises is a
 * `None` result.
 */
module Collaborators {
  import opened Wrappers
  import opened PyValues
  import opened Retrieval

  type Bytes = seq<bv8>

  /** One embedding. */
  type Vector = seq<real>

  datatype Services = Services(
    /** `requests.get(url, timeout=10)` then `raise_for_status()`: the body. */
    fetch: string -> Option<Bytes>,
    /** `PdfReader(BytesIO(body)).pages`, each page's `extract_text()`. */
    pdfPages: Bytes -> Option<seq<Option<string>>>,
    /** `get_chunk_embeddings`: one vector per chunk text. */
    embed: seq<string> -> Option<seq<Vector>>,
    /** Encoding the query and `np.dot(embeddings, query_embedding)`. */
    similarities: (string, seq<Vector>) -> seq<real>,
    /** numpy's `argsort` on the similarity vector. */
    argsort: seq<real> -> seq<nat>,
    /** The streaming `requests.post` to the model server with a model name
        and a prompt: the lines of the response body. */
    post: (string, string) -> Option<seq<Bytes>>,
    /** `bytes.decode("utf-8")`. */
    utf8: Bytes -> Option<string>,
    /** `json.loads`; `None` is a `JSONDecodeError`. */
    parse: string -> Option<Json>
  )

  /** What the pipeline takes for granted of the libraries: one similarity
      per stored embedding, one embedding per text, and an `argsort` that
      really sorts. */
  ghost predicate WellBehaved(svc: Services)
  {
    && (forall q, es :: |svc.similarities(q, es)| == |es|)
    && (forall ts :: svc.embed(ts).Some? ==> |svc.embed(ts).value| == |ts|)
    && (forall sims :: IsArgsort(svc.argsort(sims), sims))
  }
}
