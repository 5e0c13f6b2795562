# Retrieval-then-answer pipeline over insurance policy documents — a Dafny model

The system answers questions about insurance policy PDFs. It normalises the
text of every document, cuts it into overlapping 800-character chunks tagged
with the document's name, and embeds every chunk. For a question it ranks the
chunks by similarity to the question and keeps the top ones. It sends them as
context to a local language model, together with a prompt that asks for a JSON
decision. It then pulls the JSON object out of the model's streamed reply.

This project models four parts of that system and proves what they promise:

- **Chunker** (`Chunking`, `chunking.dfy`).
  - `clean_text` runs the regular-expression substitution of `\s+` by one space, then `strip`. It is modelled run by run over Python's whitespace set.
  - It is proved equal to `" ".join(text.split())`. Its output is normalised, and cleaning twice changes nothing.
  - `chunk_text_by_length` is a `while` loop proved against a window function. The model proves the exact chunk count, the contents of each chunk and coverage.
  - `prepare_chunks` is two nested loops proved against a fold over the dictionary's items.
- **Top-N ranking** (`Retrieval`, `retrieval.dfy`).
  - `argsort()[-top_n:][::-1]` is modelled with Python's slice semantics, including `-0 == 0`.
  - The result loop of `semantic_search` is proved against it.
  - The similarity vector and `argsort` are inputs. The only assumption about `argsort` is that it returns an ascending permutation. Ties may come in any order.
- **Model query and context assembly** (`LlmQuery`, `llm_query.dfy`).
  - The exact prompt template.
  - The stream accumulation loop. It skips empty lines and lines that are not JSON, and fails on anything that makes the Python code raise, including a line that is not UTF-8.
  - The parse cascade: the whole text, then the greedy `\{[\s\S]*\}` span, then `None`.
  - `process_query`'s context string, its first-appearance `source_docs` list and the back-fill.
- **Request orchestration** (`App`, `app.dfy`). `run_hackathon` after the token check:
  - the `use_local` flag;
  - the choice between the corpus built from the request's URL and the preloaded one;
  - the per-question loop with its `"\n"`-joined context;
  - the reduction of every model result to one answer.

Supporting modules:

- `Wrappers` (`Option`).
- `Strings`: `sep.join`, `"".join`, and `in` on strings.
- `PyValues`: the values `json.loads` returns, with Python's truthiness, `in`, `[]` and item assignment on them. An exception is an `Outcome` that is `Raised`.
- `Collaborators`: everything the pipeline calls but does not own, passed in as functions. They are the HTTP client, the PDF reader, the embedding model, the dot product, numpy's `argsort`, UTF-8 decoding and `json.loads`. For `fetch`, `pdfPages`, `embed`, `post`, `utf8` and `parse`, a call that raises returns `None`. `similarities` and `argsort` are total. `WellBehaved` states the only facts assumed about them:
  - one similarity per embedding;
  - one embedding per text;
  - `argsort` sorts.

Points where the code behaves in ways a reader might not expect. The model follows the code in each:

- **Chunk count.** The loop at chunking.py:15-19 advances `start` by `chunk_size - overlap` and stops once `start` reaches the length. It therefore yields `ceil(len / (size - overlap))` chunks, as `Chunking.ChunkCount` proves. A 750-character text gives two chunks, and the second lies entirely inside the first window.
- **Answer reduction can raise.** At app.py:70, `"justification" in llm_result` and `llm_result["justification"]` apply to whatever `json.loads` returned. A truthy number raises `TypeError`. So does a list or string that contains `"justification"`. `App.ReduceAnswerRule` states exactly when this happens. The `source_docs` back-fill at llm_query.py:95-96 can raise too, under a different condition. There the test is `"source_docs" not in result`, so a truthy number raises `TypeError`, and a truthy list or string raises when `"source_docs"` is absent, on the assignment. A list or string that contains `"source_docs"` passes unchanged (`LlmQuery.BackFillRaisesIff`).
- **Back-fill skips an empty object.** The guard `if result and ...` at llm_query.py:95 is false for an empty JSON object `{}`, so `{}` is returned without `source_docs`.
- **Text without `{`.** llm_query.py:59-60 tries the whole text first. So text without a `{ ... }` span yields `None` only when it does not itself parse. For example, `42` parses and is returned as it is.

## Model

| member | source | states |
|---|---|---|
| Chunking.CleanTextIsJoinedWords | chunking.py:4-6 | `clean_text(t)` is the words of `t` (maximal runs of non-whitespace) joined by single spaces |
| Chunking.CleanTextIsClean | chunking.py:5-6 | the result has no whitespace at either end, no whitespace but `' '`, and never two whitespace characters in a row |
| Chunking.CleanTextIdempotent | chunking.py:4-6 | cleaning a cleaned text changes nothing |
| Chunking.CleanTextEmptyIff | chunking.py:5-6 | the result is empty exactly when every character of the input is whitespace |
| Chunking.WordsOfJoinedWords | chunking.py:5 | splitting the single-space join of a list of words gives the list back, so normalisation loses no word |
| Chunking.ChunkTextByLength | chunking.py:8-20 | the loop returns exactly the stripped windows `text[i*step : min(i*step + size, n)]`; it is callable on empty text with any overlap and otherwise only when `overlap < chunk_size`, the loop's termination condition |
| Chunking.ChunkLoopExits | chunking.py:13-19 | the guard `start < text_length`, from `start = 0`, fails after exactly `len(Chunks)` iterations on empty text or when `overlap < chunk_size`, and never on non-empty text with `overlap >= chunk_size` |
| Chunking.ExitsAfterWindows | chunking.py:15-19 | with a positive step the guard fails after `fuel` iterations iff `fuel` is at least the number of windows |
| Chunking.NeverExits | chunking.py:15-19 | from any start inside the text, a non-positive step never makes the guard fail |
| Chunking.ChunkCount | chunking.py:13-19 | no chunk for empty text; `ceil(n / (size - overlap))` chunks for text of length `n > 0` |
| Chunking.ChunkAt | chunking.py:16-18 | chunk `i` is `strip(text[i*step : min(i*step + size, n)])`, its start is inside the text, and its length is at most `size` |
| Chunking.ChunksCoverText | chunking.py:15-19 | with `0 <= overlap < size`, the first `min(step, len)` characters of the successive windows, concatenated, are the text |
| Chunking.WindowsFromCount | chunking.py:15-19 | from start index `s`, the loop visits `ceil((n - s) / step)` windows |
| Chunking.PrepareChunks | chunking.py:22-32 | the nested loops return exactly `Prepared(docs)`, the tagged chunks of each document in iteration order |
| Chunking.AppendTagged | chunking.py:30-31 | the inner loop appends one `{doc, content}` record per chunk, in chunk order, after the records already there |
| Chunking.PreparedAppend | chunking.py:26-31 | the records for two runs of documents one after the other are the two results one after the other, so documents are never reordered |
| Chunking.PreparedOne | chunking.py:27-31 | one document contributes its chunks of the cleaned text, in order, each tagged `{doc: name, content: chunk}` |
| Chunking.PreparedProvenance | chunking.py:27-31 | every record names one of the documents and holds one of that document's chunks |
| Chunking.DocumentChunksEmptyIff | chunking.py:28-29 | a document has no chunk exactly when its text is empty or all whitespace |
| Chunking.BlankDocumentContributesNothing | chunking.py:28-31 | appending an empty or all-whitespace document leaves the records unchanged |
| Chunking.ShortDocumentOneChunk | chunking.py:15-19 | a document whose cleaned text has 1 to 700 characters gives exactly one chunk, the cleaned text |
| Retrieval.SliceStart | semanticSearch.py:23 | the start of `[-top_n:]` is within the list and is 0 when `top_n == 0` |
| Retrieval.TopIndicesCount | semanticSearch.py:23 | `min(top_n, n)` indices for positive `top_n`, all `n` for `top_n == 0`, `max(n + top_n, 0)` for negative `top_n` |
| Retrieval.TopIndicesRanked | semanticSearch.py:23 | the kept indices are valid and distinct, and their scores do not increase. Every index left out scores no higher than every index kept |
| Retrieval.ZeroTopNSelectsAll | semanticSearch.py:23 | with `top_n == 0` every chunk index is returned |
| Retrieval.TopHitsRanked | semanticSearch.py:23-31 | the results have the count above. Result `k` takes `doc`, `chunk` and `score` from the same stored chunk. Scores do not increase, and no chunk left out scores higher than any result |
| Retrieval.SemanticSearch | semanticSearch.py:25-32 | the result loop returns exactly `TopHits` |
| PyValues.Contains | llm_query.py:95 | `key in v` is a key test on an object and raises `TypeError` exactly on values that are not an object, list or string |
| PyValues.GetItem | app.py:70 | `v[key]` succeeds exactly on an object holding the key, with that key's value |
| PyValues.SetItem | llm_query.py:96 | `v[key] = x` succeeds exactly on an object. It adds the key with `x` and keeps every other key's value |
| LlmQuery.Prompt | llm_query.py:12-32 | the prompt is the fixed template, with the query and the context at their fixed positions |
| LlmQuery.AccumulateStream | llm_query.py:39-49 | the loop returns exactly `StreamText`, or `None` as soon as a line makes the call raise |
| LlmQuery.StreamTextIsConcat | llm_query.py:40-45 | when no line fails, `raw` is the in-order concatenation of each line's `response`, with `""` for lines without one and for empty or non-JSON lines |
| LlmQuery.StreamTextAppend | llm_query.py:40-45 | accumulation is a homomorphism: two stretches of the stream give their texts one after the other, and fail when either fails |
| LlmQuery.SkippedLineContributesNothing | llm_query.py:41-49 | an empty line, or a decodable line that is not JSON, adds nothing and does not stop the loop |
| LlmQuery.StreamFailsIff | llm_query.py:40-54 | the accumulation fails exactly when some line fails: undecodable bytes, JSON that is not an object, or a non-string `response` |
| LlmQuery.FirstIndex | llm_query.py:63 | the first position of a character, `None` exactly when it does not occur |
| LlmQuery.LastIndex | llm_query.py:63 | the last position of a character, `None` exactly when it does not occur |
| LlmQuery.BraceSpanIsGreedyMatch | llm_query.py:63-65 | there is a match exactly when some `{` precedes some `}`. It runs from a `{` with none before it to a `}` with none after it: the leftmost, longest match of `\{[\s\S]*\}` |
| LlmQuery.ExtractJsonCascade | llm_query.py:59-75 | text that parses whole is returned as parsed. Otherwise the brace span parsed is the result, and with no `{` before a `}` the result is `None` |
| LlmQuery.ExtractJsonSkipsChatter | llm_query.py:59-67 | an object surrounded by text with no `{` before it and no `}` after it is extracted and parsed on its own |
| LlmQuery.QueryLlm | llm_query.py:7-75 | returns exactly `QueryResult`. A result exists only when the request to the model server succeeded |
| LlmQuery.FirstAppearancesSpec | llm_query.py:86-90 | `source_docs` holds every document of the results, each once, ordered by first appearance |
| LlmQuery.BuildContext | llm_query.py:85-90 | the loop returns exactly the concatenated `"\n[Source: doc]\nchunk\n"` blocks and the first-appearance list |
| LlmQuery.BackFillObject | llm_query.py:95-96 | a non-empty object without `source_docs` gains that list and keeps every other key. Any other object, and a missing result, is left unchanged |
| LlmQuery.BackFillRaisesIff | llm_query.py:95-96 | back-fill raises exactly for a truthy non-object result on which `in` raises or that does not contain `"source_docs"`. Otherwise a non-object result is unchanged |
| LlmQuery.ProcessQuery | llm_query.py:77-105 | search, context, model query and back-fill give exactly `ProcessQueryResult` |
| LlmQuery.DefaultQueryUsesFiveBest | llm_query.py:77-92 | `process_query(user_query)` with the default `top_n=5` posts the prompt over the context of min(5, n) hits, best first; no chunk left out scores higher than any of them |
| App.UseLocalIff | app.py:34-59 | `use_local` holds exactly when `documents` is missing or empty, or the download, the PDF reading or the embedding raised. Then the preloaded corpus is used unchanged |
| App.DynamicPathIgnoresLocal | app.py:38-59 | on the dynamic path the chosen corpus is the same whatever the preloaded corpus is. Every chunk is tagged `url_doc`, and there is one embedding per chunk |
| App.DynamicChunks | app.py:46-49 | the dynamic chunks are the tagged chunks of the pages' joined text |
| App.ChooseCorpus | app.py:34-59 | the flag and the corpus the code ends with are `UseLocal` and `ChosenCorpus` |
| App.ContextFormats | app.py:66 | `process_query`'s context is `run_hackathon`'s context with the separator doubled and a line break at each end. Both are empty for no results |
| App.ReduceAnswerRule | app.py:70-71 | for an object (or no result) the answer is the `justification` value when present, else `"No relevant information found."`. The reduction raises exactly for a truthy non-object on which `in` raises or that contains `"justification"` |
| App.CollectShape | app.py:61-73 | appending per-question outcomes succeeds exactly when every one does, and keeps their order |
| App.AnswersShape | app.py:61-73 | one answer per question, in order (none for no questions). The request fails exactly when some question's answer raises |
| App.RunHackathon | app.py:34-73 | the response is exactly `RunResult`: the answers over the chosen corpus, or the first exception |

## Left out

- ExtractJson: `json.loads` of the text `null` gives Python's `None`, which the model keeps as `Some(JNull)` rather than `None`. `QueryLlm`'s "a result exists" therefore counts it as a result. `JNull` is falsy, so answers and back-fill are the same as for `None`.
- The bearer-token check, the FastAPI router and the mapping of exceptions to HTTP responses (app.py:28-32). A `Raised` outcome stands for the error response.
- Logging to `output.txt` and every `print`.
- `load_embeddings_and_chunks` (file I/O). The stored chunks and embeddings are parameters, and the app's preloaded corpus is a parameter.
- Embedding and similarity. The sentence-embedding model, normalisation and the floating-point dot product are the injected `similarities` and `embed`. Scores are mathematical reals, so NaN and rounding are not modelled.
- A failure inside `semantic_search` itself (model loading, a dimension mismatch in `np.dot`) is not modelled. `WellBehaved` assumes one similarity per embedding.
- The order numpy's `argsort` gives to equal scores. Any ascending permutation is allowed, so nothing is claimed about ties.
- The internals of `json.loads`, which is the injected `parse`, and of UTF-8 decoding, which is the injected `utf8`. JSON objects are maps, so key order is not kept.
- The transport. `requests.post` and its streaming iteration are one injected call returning the lines or failing. A failure part-way through the stream looks the same as an immediate one, because either way `query_llm` returns `None`.
- `ChunkTextByLength` takes a non-negative `chunk_size`. A negative size is not modelled, because `prepare_chunks` always passes 800.
- `query_llm`'s `model_name` parameter is fixed to its default `"llama3"`, because no caller passes another.
- ChunkTextByLength: requires `overlap < chunk_size` on non-empty text, because Dafny methods must terminate and the loop is not run unboundedly. Non-termination otherwise is stated by `ChunkLoopExits` for every finite number of iterations.
- `ChunksCoverText` requires `overlap >= 0`. With a negative overlap the windows leave gaps, and the text is not reconstructed.
- `ExtractJsonCascade` gives `None` for text without a `{`…`}` pair only when the text does not parse as a whole.
- `prepare_chunks`' dictionary is its sequence of items in iteration order. Distinct keys are neither needed nor imposed.
- The commented-out digit-grouping substitution in `query_llm`, which is inactive code.
- embedding.py, extract.py, main.py and test.py are not part of this model. They are the embedding wrapper, PDF extraction from local files and the build and inspection scripts.
