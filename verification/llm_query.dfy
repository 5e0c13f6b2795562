/**
 * `query_llm` and `process_query`: the prompt, the accumulation of the
 * streamed answer, the three-step JSON extraction, and the context,
 * `source_docs` and back-fill of `process_query`.
 */
module LlmQuery {
  import opened Wrappers
  import opened Strings
  import opened PyValues
  import opened Chunking
  import opened Retrieval
  import opened Collaborators

  const ModelName: string := "llama3"
  const DefaultTopN: int := 5

  const PromptHead: string := "\nBased on the following insurance policy clauses and this query:\nQuery: "
  const PromptMiddle: string := "\n\n\nPolicy Context (with sources):\n"
  const PromptTail: string :=
    "\n\n\nONLY return a valid JSON object in this format (no extra text):\n{\n"
    + "  \"decision\": \"approved\" or \"rejected\",\n"
    + "  \"justification\": \"Concise reasoning\",\n"
    + "  \"cited_clauses\": [\n"
    + "    \"Copy-paste the exact sentences or clauses from the provided context that support the decision.\"\n"
    + "  ],\n"
    + "  \"payout_amount\": \"amount if specified, else null\",\n"
    + "  \"source_docs\": [\"List of source document names used\"]\n"
    + "}\nIf no relevant clause is found, set cited_clauses to [\"No direct clause found\"].\n"

  /** The prompt `query_llm` sends: the fixed template with the query and
      the context filled in. */
  function Prompt(userQuery: string, context: string): (p: string)
    ensures |p| == |PromptHead| + |userQuery| + |PromptMiddle| + |context| + |PromptTail|
    ensures p[|PromptHead|..|PromptHead| + |userQuery|] == userQuery
    ensures p[|PromptHead| + |userQuery| + |PromptMiddle|..|p| - |PromptTail|] == context
  {
    var p := PromptHead + userQuery + PromptMiddle + context + PromptTail;
    assert p[|PromptHead|..|PromptHead| + |userQuery|] == userQuery;
    assert p[|PromptHead| + |userQuery| + |PromptMiddle|..|p| - |PromptTail|] == context;
    p
  }

  // ---------------------------------------------------------------------
  // Stream accumulation

  /** What one streamed line adds to `raw`: nothing for an empty line or a
      line that is not JSON, else its `response` field (`""` when absent).
      `None` when the line makes `query_llm` fail: bytes that are not UTF-8,
      JSON that is not an object (no `.get`), or a `response` that is not a
      string (`str += x` raises). */
  function LineResponse(svc: Services, line: Bytes): Option<string>
  {
    if line == [] then Some("")
    else match svc.utf8(line)
      case None => None
      case Some(text) =>
        match svc.parse(text)
        case None => Some("")
        case Some(JObj(fields)) =>
          if "response" !in fields then Some("")
          else if fields["response"].JStr? then Some(fields["response"].s)
          else None
        case Some(_) => None
  }

  /** `raw` after the loop over `lines`, or `None` when a line made the call fail. */
  function StreamText(svc: Services, lines: seq<Bytes>): Option<string>
  {
    if lines == [] then Some("")
    else match StreamText(svc, lines[..|lines| - 1])
      case None => None
      case Some(raw) =>
        match LineResponse(svc, lines[|lines| - 1])
        case None => None
        case Some(piece) => Some(raw + piece)
  }

  /** The stream up to and including line `i`. */
  lemma {:induction false} StreamTextStep(svc: Services, lines: seq<Bytes>, i: nat)
    requires i < |lines|
    ensures StreamText(svc, lines[..i + 1]) ==
      if StreamText(svc, lines[..i]).Some? && LineResponse(svc, lines[i]).Some?
      then Some(StreamText(svc, lines[..i]).value + LineResponse(svc, lines[i]).value)
      else None
  {
    assert lines[..i + 1][..i] == lines[..i];
  }

  /** The streaming loop of `query_llm`. */
  method AccumulateStream(svc: Services, lines: seq<Bytes>) returns (result: Option<string>)
    ensures result == StreamText(svc, lines)
  {
    var raw := "";
    for i := 0 to |lines|
      invariant StreamText(svc, lines[..i]) == Some(raw)
    {
      StreamTextStep(svc, lines, i);
      var line := lines[i];
      if line != [] {
        var decoded := svc.utf8(line);
        if decoded.None? {
          StreamFailsAt(svc, lines, i);
          return None;
        }
        var data := svc.parse(decoded.value);
        if data.Some? {
          if !data.value.JObj? {
            StreamFailsAt(svc, lines, i);
            return None;
          }
          if "response" in data.value.fields {
            var piece := data.value.fields["response"];
            if !piece.JStr? {
              StreamFailsAt(svc, lines, i);
              return None;
            }
            raw := raw + piece.s;
          } else {
            assert raw + "" == raw;
          }
        } else {
          assert raw + "" == raw;
        }
      } else {
        assert raw + "" == raw;
      }
    }
    assert lines[..|lines|] == lines;
    result := Some(raw);
  }

  /** The stream of two pieces in a row yields the two texts in a row, and
      fails when either piece does. */
  lemma {:induction false} StreamTextAppend(svc: Services, a: seq<Bytes>, b: seq<Bytes>)
    ensures StreamText(svc, a + b) ==
      if StreamText(svc, a).Some? && StreamText(svc, b).Some?
      then Some(StreamText(svc, a).value + StreamText(svc, b).value)
      else None
    decreases |b|
  {
    if b == [] {
      assert a + b == a;
      assert StreamText(svc, a).Some? ==> StreamText(svc, a).value + "" == StreamText(svc, a).value;
    } else {
      var init, last := b[..|b| - 1], b[|b| - 1];
      var ab := a + b;
      assert ab[..|ab| - 1] == a + init;
      assert ab[|ab| - 1] == last;
      StreamTextAppend(svc, a, init);
      var sa, si, sl := StreamText(svc, a), StreamText(svc, init), LineResponse(svc, last);
      if sa.Some? && si.Some? && sl.Some? {
        assert sa.value + si.value + sl.value == sa.value + (si.value + sl.value);
      }
    }
  }

  /** Once a prefix fails, or one line does, the whole stream fails. */
  lemma {:induction false} StreamFailsAt(svc: Services, lines: seq<Bytes>, i: nat)
    requires i < |lines|
    requires StreamText(svc, lines[..i]).None? || LineResponse(svc, lines[i]).None?
    ensures StreamText(svc, lines) == None
  {
    StreamTextStep(svc, lines, i);
    assert lines == lines[..i + 1] + lines[i + 1..];
    StreamTextAppend(svc, lines[..i + 1], lines[i + 1..]);
  }

  /** A single line on its own. */
  lemma {:induction false} StreamTextOne(svc: Services, line: Bytes)
    ensures StreamText(svc, [line]) ==
      if LineResponse(svc, line).Some? then Some(LineResponse(svc, line).value) else None
  {
    assert [line][..0] == [];
    if LineResponse(svc, line).Some? {
      assert "" + LineResponse(svc, line).value == LineResponse(svc, line).value;
    }
  }

  /** An empty line, or a line that decodes but is not JSON, contributes
      nothing and does not stop the accumulation. */
  lemma {:induction false} SkippedLineContributesNothing(svc: Services, a: seq<Bytes>, line: Bytes, b: seq<Bytes>)
    requires line == [] || (svc.utf8(line).Some? && svc.parse(svc.utf8(line).value).None?)
    ensures StreamText(svc, a + [line] + b) == StreamText(svc, a + b)
  {
    StreamTextOne(svc, line);
    StreamTextAppend(svc, a, [line]);
    StreamTextAppend(svc, a + [line], b);
    StreamTextAppend(svc, a, b);
    if StreamText(svc, a).Some? {
      assert StreamText(svc, a).value + "" == StreamText(svc, a).value;
    }
    assert StreamText(svc, a + [line]) == StreamText(svc, a);
  }

  /** The text of each line, when none fails. */
  function Pieces(svc: Services, lines: seq<Bytes>): (ps: seq<string>)
    requires forall k :: 0 <= k < |lines| ==> LineResponse(svc, lines[k]).Some?
    ensures |ps| == |lines|
    ensures forall k :: 0 <= k < |lines| ==> ps[k] == LineResponse(svc, lines[k]).value
  {
    seq(|lines|, k requires 0 <= k < |lines| => LineResponse(svc, lines[k]).value)
  }

  /** When no line fails, `raw` is the in-order concatenation of what the
      lines contribute. */
  lemma {:induction false} StreamTextIsConcat(svc: Services, lines: seq<Bytes>)
    requires forall k :: 0 <= k < |lines| ==> LineResponse(svc, lines[k]).Some?
    ensures StreamText(svc, lines) == Some(Concat(Pieces(svc, lines)))
    decreases |lines|
  {
    if lines != [] {
      var init := lines[..|lines| - 1];
      assert forall k :: 0 <= k < |init| ==> init[k] == lines[k];
      StreamTextIsConcat(svc, init);
      assert Pieces(svc, lines)[..|lines| - 1] == Pieces(svc, init);
    }
  }

  /** The stream fails exactly when one of its lines does. */
  lemma {:induction false} StreamFailsIff(svc: Services, lines: seq<Bytes>)
    ensures StreamText(svc, lines).None? <==> exists k :: 0 <= k < |lines| && LineResponse(svc, lines[k]).None?
    decreases |lines|
  {
    if lines != [] {
      var init := lines[..|lines| - 1];
      StreamFailsIff(svc, init);
      if exists k :: 0 <= k < |init| && LineResponse(svc, init[k]).None? {
        var k :| 0 <= k < |init| && LineResponse(svc, init[k]).None?;
        assert lines[k] == init[k];
      }
      if exists k :: 0 <= k < |lines| && LineResponse(svc, lines[k]).None? {
        var k :| 0 <= k < |lines| && LineResponse(svc, lines[k]).None?;
        if k < |init| {
          assert init[k] == lines[k];
        }
      }
    }
  }

  // ---------------------------------------------------------------------
  // The parse cascade

  /** The first position of `c` in `s`. */
  function FirstIndex(s: string, c: char): (r: Option<nat>)
    ensures r.None? <==> c !in s
    ensures r.Some? ==> r.value < |s| && s[r.value] == c && c !in s[..r.value]
  {
    if s == [] then None
    else if s[0] == c then Some(0)
    else match FirstIndex(s[1..], c)
      case None => None
      case Some(i) =>
        assert s[..i + 1] == [s[0]] + s[1..][..i];
        Some(i + 1)
  }

  /** The last position of `c` in `s`. */
  function LastIndex(s: string, c: char): (r: Option<nat>)
    ensures r.None? <==> c !in s
    ensures r.Some? ==> r.value < |s| && s[r.value] == c && c !in s[r.value + 1..]
  {
    if s == [] then None
    else if s[|s| - 1] == c then Some(|s| - 1)
    else match LastIndex(s[..|s| - 1], c)
      case None => None
      case Some(i) =>
        assert s[i + 1..] == s[..|s| - 1][i + 1..] + [s[|s| - 1]];
        Some(i)
  }

  /** What `re.search(r'\{[\s\S]*\}', raw)` matches: from the first `{` to
      the last `}`, when that `}` comes after that `{`. */
  function BraceSpan(raw: string): Option<string>
  {
    match FirstIndex(raw, '{')
    case None => None
    case Some(i) =>
      match LastIndex(raw, '}')
      case None => None
      case Some(j) => if i < j then Some(raw[i..j + 1]) else None
  }

  /** `BraceSpan` is the leftmost, longest match of the regular expression:
      there is one exactly when some `{` comes before some `}`, and it runs
      from a `{` with none before it to a `}` with none after it. */
  lemma {:induction false} BraceSpanIsGreedyMatch(raw: string)
    ensures BraceSpan(raw).Some? <==>
              exists i, j :: 0 <= i < j < |raw| && raw[i] == '{' && raw[j] == '}'
    ensures BraceSpan(raw).Some? ==>
              exists i, j :: 0 <= i < j < |raw| && BraceSpan(raw).value == raw[i..j + 1]
                && raw[i] == '{' && raw[j] == '}' && '{' !in raw[..i] && '}' !in raw[j + 1..]
  {
    var fi, lj := FirstIndex(raw, '{'), LastIndex(raw, '}');
    if exists i, j :: 0 <= i < j < |raw| && raw[i] == '{' && raw[j] == '}' {
      var i, j :| 0 <= i < j < |raw| && raw[i] == '{' && raw[j] == '}';
      assert raw[i] in raw && raw[j] in raw;
    }
  }

  /** The value `query_llm` returns for the accumulated text `raw`: `raw`
      parsed whole, else the brace span parsed, else `None`. */
  function ExtractJson(svc: Services, raw: string): Option<Json>
  {
    match svc.parse(raw)
    case Some(v) => Some(v)
    case None =>
      match BraceSpan(raw)
      case None => None
      case Some(cleaned) => svc.parse(cleaned)
  }

  /** The cascade: a text that parses whole is returned as parsed and nothing
      else is tried; otherwise the brace span is the only other candidate,
      and without one, or when it does not parse, the result is `None`. */
  lemma {:induction false} ExtractJsonCascade(svc: Services, raw: string)
    ensures svc.parse(raw).Some? ==> ExtractJson(svc, raw) == svc.parse(raw)
    ensures svc.parse(raw).None? && BraceSpan(raw).Some? ==>
              ExtractJson(svc, raw) == svc.parse(BraceSpan(raw).value)
    ensures svc.parse(raw).None? && !(exists i, j :: 0 <= i < j < |raw| && raw[i] == '{' && raw[j] == '}') ==>
              ExtractJson(svc, raw) == None
  {
    BraceSpanIsGreedyMatch(raw);
  }

  /** A JSON object surrounded by chatter: when the chatter before it has no
      `{` and the chatter after it no `}`, the object itself is what gets
      parsed. */
  lemma {:induction false} ExtractJsonSkipsChatter(svc: Services, before: string, obj: string, after: string)
    requires |obj| >= 2 && obj[0] == '{' && obj[|obj| - 1] == '}'
    requires '{' !in before && '}' !in after
    requires svc.parse(before + obj + after).None?
    ensures ExtractJson(svc, before + obj + after) == svc.parse(obj)
  {
    var raw := before + obj + after;
    var i, j := |before|, |before| + |obj| - 1;
    assert raw[i] == '{' && raw[j] == '}';
    assert raw[..i] == before;
    assert raw[j + 1..] == after;
    var fi, lj := FirstIndex(raw, '{'), LastIndex(raw, '}');
    assert raw[i..j + 1] == obj;
  }

  /** What `query_llm(user_query, context)` returns. */
  function QueryResult(svc: Services, userQuery: string, context: string): Option<Json>
  {
    match svc.post(ModelName, Prompt(userQuery, context))
    case None => None
    case Some(lines) =>
      match StreamText(svc, lines)
      case None => None
      case Some(raw) => ExtractJson(svc, raw)
  }

  /** `query_llm`. */
  method QueryLlm(svc: Services, userQuery: string, context: string) returns (result: Option<Json>)
    ensures result == QueryResult(svc, userQuery, context)
    ensures result.Some? ==> svc.post(ModelName, Prompt(userQuery, context)).Some?
  {
    var prompt := Prompt(userQuery, context);
    var response := svc.post(ModelName, prompt);
    if response.None? {
      return None;
    }
    var raw := AccumulateStream(svc, response.value);
    if raw.None? {
      return None;
    }
    result := ExtractJson(svc, raw.value);
  }

  // ---------------------------------------------------------------------
  // process_query

  /** The context block of one search result. */
  function Block(h: Hit): string
  {
    "\n[Source: " + h.doc + "]\n" + h.chunk + "\n"
  }

  /** The context `process_query` builds: the blocks in retrieval order. */
  function Context(hs: seq<Hit>): string
  {
    if hs == [] then "" else Context(hs[..|hs| - 1]) + Block(hs[|hs| - 1])
  }

  /** The document names of the results, in retrieval order. */
  function Docs(hs: seq<Hit>): (ds: seq<string>)
    ensures |ds| == |hs|
    ensures forall k :: 0 <= k < |hs| ==> ds[k] == hs[k].doc
  {
    seq(|hs|, k requires 0 <= k < |hs| => hs[k].doc)
  }

  /** `source_docs`: each name once, in order of first appearance. */
  function FirstAppearances(ds: seq<string>): seq<string>
  {
    if ds == [] then []
    else
      var seen := FirstAppearances(ds[..|ds| - 1]);
      if ds[|ds| - 1] in seen then seen else seen + [ds[|ds| - 1]]
  }

  /** Where `d` first occurs in `ds`. */
  function FirstPos(ds: seq<string>, d: string): (p: nat)
    requires d in ds
    ensures p < |ds| && ds[p] == d && d !in ds[..p]
  {
    if ds[0] == d then 0
    else
      var p := FirstPos(ds[1..], d) + 1;
      assert ds[..p] == [ds[0]] + ds[1..][..p - 1];
      p
  }

  lemma {:induction false} FirstPosPrefix(ds: seq<string>, n: nat, d: string)
    requires n <= |ds| && d in ds[..n]
    ensures d in ds && FirstPos(ds, d) == FirstPos(ds[..n], d)
  {
    var p, q := FirstPos(ds, d), FirstPos(ds[..n], d);
    assert ds[..n][q] == ds[q];
  }

  /** `source_docs` names every document of the results exactly once, and
      lists them in the order in which they first appear. */
  lemma {:induction false} FirstAppearancesSpec(ds: seq<string>)
    ensures var r := FirstAppearances(ds);
      && (forall d :: d in r <==> d in ds)
      && (forall i, j :: 0 <= i < j < |r| ==> r[i] != r[j])
      && (forall i, j :: 0 <= i < j < |r| ==> FirstPos(ds, r[i]) < FirstPos(ds, r[j]))
    decreases |ds|
  {
    if ds != [] {
      var n := |ds| - 1;
      var init, d := ds[..n], ds[n];
      assert ds == init + [d];
      FirstAppearancesSpec(init);
      var seen := FirstAppearances(init);
      forall x | x in seen
        ensures x in ds && FirstPos(ds, x) == FirstPos(init, x)
      {
        FirstPosPrefix(ds, n, x);
      }
      if d !in seen {
        assert d !in init;
        assert FirstPos(ds, d) == n;
        var r := seen + [d];
        forall i, j | 0 <= i < j < |r|
          ensures FirstPos(ds, r[i]) < FirstPos(ds, r[j])
        {
          assert r[i] == seen[i];
          if j < |seen| {
            assert r[j] == seen[j];
          }
        }
      }
    }
  }

  /** The loop of `process_query` that builds the context and `source_docs`. */
  method BuildContext(topChunks: seq<Hit>) returns (context: string, sourceDocs: seq<string>)
    ensures context == Context(topChunks)
    ensures sourceDocs == FirstAppearances(Docs(topChunks))
  {
    context := "";
    sourceDocs := [];
    for i := 0 to |topChunks|
      invariant context == Context(topChunks[..i])
      invariant sourceDocs == FirstAppearances(Docs(topChunks[..i]))
    {
      var c := topChunks[i];
      assert topChunks[..i + 1][..i] == topChunks[..i];
      assert Docs(topChunks[..i + 1])[..i] == Docs(topChunks[..i]);
      context := context + "\n[Source: " + c.doc + "]\n" + c.chunk + "\n";
      if c.doc !in sourceDocs {
        sourceDocs := sourceDocs + [c.doc];
      }
    }
    assert topChunks[..|topChunks|] == topChunks;
  }

  /** `source_docs` as a JSON list. */
  function DocsJson(ds: seq<string>): (v: Json)
    ensures v.JArr? && |v.items| == |ds|
    ensures forall k :: 0 <= k < |ds| ==> v.items[k] == JStr(ds[k])
  {
    JArr(seq(|ds|, k requires 0 <= k < |ds| => JStr(ds[k])))
  }

  /** The back-fill `if result and "source_docs" not in result:
      result["source_docs"] = source_docs`, with Python's `in` and item
      assignment on whatever `json.loads` returned. */
  function BackFill(result: Option<Json>, sourceDocs: seq<string>): Outcome<Option<Json>>
  {
    match result
    case None => Ok(None)
    case Some(v) =>
      if !Truthy(v) then Ok(result)
      else match Contains("source_docs", v)
        case Raised(e) => Raised(e)
        case Ok(present) =>
          if present then Ok(result)
          else match SetItem(v, "source_docs", DocsJson(sourceDocs))
            case Raised(e) => Raised(e)
            case Ok(updated) => Ok(Some(updated))
  }

  /** Back-fill on a JSON object: one that is non-empty and lacks
      `source_docs` gets the list and keeps every other key; any other
      object (the empty one included, which is falsy) is left as it is, and
      so is a missing result. */
  lemma {:induction false} BackFillObject(fields: map<string, Json>, sourceDocs: seq<string>)
    ensures fields != map[] && "source_docs" !in fields ==>
      BackFill(Some(JObj(fields)), sourceDocs) == Ok(Some(JObj(fields["source_docs" := DocsJson(sourceDocs)])))
    ensures (fields == map[] || "source_docs" in fields) ==>
      BackFill(Some(JObj(fields)), sourceDocs) == Ok(Some(JObj(fields)))
    ensures BackFill(None, sourceDocs) == Ok(None)
  {
  }

  /** Back-fill raises exactly for a truthy result that is not an object and
      either does not support `in` (a number, `true`) or does not contain
      `"source_docs"` (a list or a string, which cannot take the item);
      otherwise a result that is not an object is returned unchanged. */
  lemma {:induction false} BackFillRaisesIff(result: Option<Json>, sourceDocs: seq<string>)
    ensures BackFill(result, sourceDocs).Raised? <==>
      result.Some? && Truthy(result.value) && !result.value.JObj?
      && (Contains("source_docs", result.value).Raised? || Contains("source_docs", result.value) == Ok(false))
    ensures BackFill(result, sourceDocs).Ok? && (result.None? || !result.value.JObj?) ==>
      BackFill(result, sourceDocs) == Ok(result)
  {
  }

  /** What `process_query(user_query, top_n)` returns over the stored
      chunks and embeddings. */
  function ProcessQueryResult(svc: Services, chunks: seq<ChunkRecord>, embeddings: seq<Vector>,
                              userQuery: string, topN: int): Outcome<Option<Json>>
    requires WellBehaved(svc)
    requires |chunks| >= |embeddings|
  {
    var sims := svc.similarities(userQuery, embeddings);
    var top := TopHits(sims, svc.argsort(sims), chunks, topN);
    BackFill(QueryResult(svc, userQuery, Context(top)), FirstAppearances(Docs(top)))
  }

  /** `process_query`: search, build the context, ask the model, back-fill
      `source_docs`.  Loading the stored corpus is file I/O, so the corpus is
      given. */
  method ProcessQuery(svc: Services, chunks: seq<ChunkRecord>, embeddings: seq<Vector>,
                      userQuery: string, topN: int) returns (result: Outcome<Option<Json>>)
    requires WellBehaved(svc)
    requires |chunks| >= |embeddings|
    ensures result == ProcessQueryResult(svc, chunks, embeddings, userQuery, topN)
  {
    var sims := svc.similarities(userQuery, embeddings);
    var topChunks := SemanticSearch(sims, svc.argsort(sims), chunks, topN);
    var context, sourceDocs := BuildContext(topChunks);
    var answer := QueryLlm(svc, userQuery, context);
    result := BackFill(answer, sourceDocs);
  }

  /** `process_query(user_query)` with the default `top_n=5`: the prompt
      posted to the model carries the context built from at most five
      hits (all of them when fewer chunks are stored), best first, and no
      stored chunk left out scores higher than any of them. */
  lemma {:induction false} DefaultQueryUsesFiveBest(svc: Services, chunks: seq<ChunkRecord>,
                                                    embeddings: seq<Vector>, userQuery: string)
    requires WellBehaved(svc)
    requires |chunks| >= |embeddings|
    ensures var sims := svc.similarities(userQuery, embeddings);
      var top := TopHits(sims, svc.argsort(sims), chunks, DefaultTopN);
      && ProcessQueryResult(svc, chunks, embeddings, userQuery, DefaultTopN) ==
           BackFill(QueryResult(svc, userQuery, Context(top)), FirstAppearances(Docs(top)))
      && |top| == (if |embeddings| < 5 then |embeddings| else 5)
      && (forall i, j :: 0 <= i < j < |top| ==> top[i].score >= top[j].score)
      && (forall x, k :: 0 <= x < |sims| && x !in TopIndices(svc.argsort(sims), DefaultTopN) && 0 <= k < |top| ==>
            sims[x] <= top[k].score)
  {
    var sims := svc.similarities(userQuery, embeddings);
    TopHitsRanked(sims, svc.argsort(sims), chunks, DefaultTopN);
  }
}
