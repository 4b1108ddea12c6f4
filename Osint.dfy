/** The company intelligence script: the guarded Ollama call, the web
    search over seven query templates, the context given to the model and
    the extraction of the JSON object from its reply.

    The HTTP call and its `resp.json()`, the search engine and `json.loads`
    are parameters: `post` gives the decoded reply body (or `Failed` when
    anything raises), `ddgs` the result dictionaries of `DDGS().text` and
    `decode` the value `json.loads` gives (`None` when it raises). */
module Osint {
  import opened Wrappers
  import opened Text

  // ------------------------------------------------------------ Ollama call

  /** The outcome of the POST and `resp.json()`: an exception, or the
      decoded reply object. */
  datatype OllamaReply = Failed | Body(data: map<string, string>)

  /** `ask_llama`: the `"response"` field of a reply without an `"error"`
      key; every other outcome is turned into `""`. */
  function AskLlama(prompt: string, post: string -> OllamaReply): (text: string)
    ensures var reply := post(prompt);
      (reply.Failed? || "error" in reply.data || "response" !in reply.data) ==> text == ""
    ensures var reply := post(prompt);
      (reply.Body? && "error" !in reply.data && "response" in reply.data) ==> text == reply.data["response"]
  {
    match post(prompt)
    case Failed => ""
    case Body(data) =>
      if "error" in data then ""
      else if "response" !in data then ""
      else data["response"]
  }

  // ------------------------------------------------------------- web search

  /** The seven query templates of `web_search`, each appended to the
      company name. */
  const Templates: seq<string> := [
    " official website", " address contact", " phone email", " LinkedIn",
    " management team", " HR email", " Chakan MIDC Pune"]

  /** `max_results` of every search. */
  const MaxResults: nat := 5

  function Queries(company: string): seq<string>
  {
    seq(|Templates|, i requires 0 <= i < |Templates| => company + Templates[i])
  }

  /** There are seven queries, in template order, each the company name
      followed by its template, and no two are the same. */
  lemma QueriesShape(company: string)
    ensures |Queries(company)| == 7
    ensures forall i :: 0 <= i < 7 ==>
      Queries(company)[i][..|company|] == company && Queries(company)[i][|company|..] == Templates[i]
    ensures forall i, j :: 0 <= i < j < 7 ==> Queries(company)[i] != Queries(company)[j]
  {
    var qs := Queries(company);
    assert Templates[0][1] != Templates[6][1];
    assert Templates[1][1] != Templates[4][1];
    assert Templates[3][1] != Templates[5][1];
  }

  /** One collected result. */
  datatype SearchRecord = SearchRecord(query: string, title: string, snippet: string, url: string)

  /** `r.get(key, "")` */
  function Field(hit: map<string, string>, key: string): string
  {
    if key in hit then hit[key] else ""
  }

  /** The record for one search hit: the query that produced it and the
      hit's `title`, `body` and `href`, each `""` when missing. */
  function ToRecord(query: string, hit: map<string, string>): (r: SearchRecord)
    ensures r.query == query
    ensures r.title == (if "title" in hit then hit["title"] else "")
    ensures r.snippet == (if "body" in hit then hit["body"] else "")
    ensures r.url == (if "href" in hit then hit["href"] else "")
  {
    SearchRecord(query, Field(hit, "title"), Field(hit, "body"), Field(hit, "href"))
  }

  function RecordsFor(query: string, hits: seq<map<string, string>>): seq<SearchRecord>
  {
    seq(|hits|, i requires 0 <= i < |hits| => ToRecord(query, hits[i]))
  }

  /** The records of all queries: query by query, and within a query in
      the order the search returned its hits. */
  function Collected(queries: seq<string>, ddgs: (string, nat) -> seq<map<string, string>>): seq<SearchRecord>
  {
    if |queries| == 0 then []
    else
      var q := queries[|queries| - 1];
      Collected(queries[..|queries| - 1], ddgs) + RecordsFor(q, ddgs(q, MaxResults))
  }

  /** The inner loop of `web_search`: one record appended per hit. */
  method AppendRecords(results: seq<SearchRecord>, query: string, hits: seq<map<string, string>>)
    returns (results': seq<SearchRecord>)
    ensures results' == results + RecordsFor(query, hits)
  {
    results' := results;
    for j := 0 to |hits|
      invariant results' == results + RecordsFor(query, hits[..j])
    {
      results' := results' + [ToRecord(query, hits[j])];
      assert RecordsFor(query, hits[..j + 1]) == RecordsFor(query, hits[..j]) + [ToRecord(query, hits[j])];
    }
    assert hits[..|hits|] == hits;
  }

  /** `web_search`. */
  method WebSearch(company: string, ddgs: (string, nat) -> seq<map<string, string>>)
    returns (results: seq<SearchRecord>)
    ensures results == Collected(Queries(company), ddgs)
  {
    var queries := Queries(company);
    results := [];
    for i := 0 to |queries|
      invariant results == Collected(queries[..i], ddgs)
    {
      var q := queries[i];
      assert queries[..i + 1][..i] == queries[..i];
      results := AppendRecords(results, q, ddgs(q, MaxResults));
    }
    assert queries[..|queries|] == queries;
  }

  lemma {:induction false} CollectedAppend(a: seq<string>, b: seq<string>, ddgs: (string, nat) -> seq<map<string, string>>)
    ensures Collected(a + b, ddgs) == Collected(a, ddgs) + Collected(b, ddgs)
    decreases |b|
  {
    if |b| == 0 {
      assert a + b == a;
    } else {
      var n := |b|;
      var q := b[n - 1];
      calc {
        Collected(a + b, ddgs);
      == { DropLastAppend(a, b); }
        Collected(a + b[..n - 1], ddgs) + RecordsFor(q, ddgs(q, MaxResults));
      == { CollectedAppend(a, b[..n - 1], ddgs); }
        Collected(a, ddgs) + Collected(b[..n - 1], ddgs) + RecordsFor(q, ddgs(q, MaxResults));
      }
    }
  }

  /** Query-then-result order: the records of query `i` come after those of
      every earlier query and before those of every later one. */
  lemma CollectedOrder(queries: seq<string>, ddgs: (string, nat) -> seq<map<string, string>>, i: nat)
    requires i < |queries|
    ensures Collected(queries, ddgs) ==
      Collected(queries[..i], ddgs)
      + RecordsFor(queries[i], ddgs(queries[i], MaxResults))
      + Collected(queries[i + 1..], ddgs)
  {
    var q := queries[i];
    var front, back := queries[..i], queries[i + 1..];
    var hits := RecordsFor(q, ddgs(q, MaxResults));
    SplitAround(queries, i);
    calc {
      Collected(queries, ddgs);
    == { CollectedAppend(front + [q], back, ddgs); }
      Collected(front + [q], ddgs) + Collected(back, ddgs);
    == { assert (front + [q])[..|front + [q]| - 1] == front; }
      Collected(front, ddgs) + hits + Collected(back, ddgs);
    }
  }

  /** Every record carries the query that produced it and is the record of
      one of that query's hits. */
  lemma {:induction false} CollectedProvenance(queries: seq<string>, ddgs: (string, nat) -> seq<map<string, string>>, k: nat)
    requires k < |Collected(queries, ddgs)|
    ensures Collected(queries, ddgs)[k].query in queries
    ensures exists hit :: (hit in ddgs(Collected(queries, ddgs)[k].query, MaxResults)
      && Collected(queries, ddgs)[k] == ToRecord(Collected(queries, ddgs)[k].query, hit))
    decreases |queries|
  {
    var n := |queries|;
    var front := queries[..n - 1];
    var q := queries[n - 1];
    var m := |Collected(front, ddgs)|;
    if k < m {
      CollectedProvenance(front, ddgs, k);
      assert Collected(queries, ddgs)[k] == Collected(front, ddgs)[k];
    } else {
      var hits := ddgs(q, MaxResults);
      assert Collected(queries, ddgs)[k] == RecordsFor(q, hits)[k - m];
      assert hits[k - m] in hits;
    }
  }

  // -------------------------------------------------- intelligence extraction

  /** At most this many results go into the context. */
  const ContextLimit: nat := 25

  /** `f"URL: {r['url']}\n{r['snippet']}"` */
  function ResultBlock(r: SearchRecord): string
  {
    "URL: " + r.url + "\n" + r.snippet
  }

  /** The blocks of the first `min(25, n)` results, block `i` being result
      `i` formatted. */
  function Blocks(results: seq<SearchRecord>): (blocks: seq<string>)
    ensures |blocks| == if |results| < ContextLimit then |results| else ContextLimit
    ensures forall i :: 0 <= i < |blocks| ==> blocks[i] == ResultBlock(results[i])
  {
    var n := if |results| < ContextLimit then |results| else ContextLimit;
    seq(n, i requires 0 <= i < n => ResultBlock(results[i]))
  }

  /** The `DATA` section of the prompt. */
  function IntelContext(results: seq<SearchRecord>): string
  {
    Join(Blocks(results), "\n\n")
  }

  /** Only the first 25 results matter: results past the 25th can be
      anything and the context is the same. */
  lemma ContextUsesFirst25(a: seq<SearchRecord>, b: seq<SearchRecord>)
    requires |a| >= ContextLimit && |b| >= ContextLimit && a[..ContextLimit] == b[..ContextLimit]
    ensures IntelContext(a) == IntelContext(b)
  {
    forall i | 0 <= i < ContextLimit ensures Blocks(a)[i] == Blocks(b)[i] {
      assert a[i] == a[..ContextLimit][i];
      assert b[i] == b[..ContextLimit][i];
    }
    assert Blocks(a) == Blocks(b);
  }

  /** Block `i` of the context is result `i` formatted, for each of the first
      `min(25, n)` results, and blocks are separated by one blank line. */
  lemma ContextBlocks(results: seq<SearchRecord>, i: nat)
    requires i < |Blocks(results)|
    ensures Blocks(results)[i] == "URL: " + results[i].url + "\n" + results[i].snippet
    ensures 0 < i ==>
      IntelContext(results) == Join(Blocks(results)[..i], "\n\n") + "\n\n" + Join(Blocks(results)[i..], "\n\n")
  {
    if 0 < i {
      JoinSplit(Blocks(results), "\n\n", i);
    }
  }

  /** With a single result the context is that result's block alone. */
  lemma ContextSingle(r: SearchRecord)
    ensures IntelContext([r]) == "URL: " + r.url + "\n" + r.snippet
  {
    assert Blocks([r]) == [ResultBlock(r)];
  }

  const IntelHead := "\nYou are a business OSINT analyst.\n\nCompany: "
  const IntelBody :=
    "\nCountry: India\n\nExtract ONLY verifiable, publicly available information.\n\n"
    + "Return STRICT JSON only (no commentary):\n\n"
    + "{\n  \"addresses\": [],\n  \"phones\": [],\n  \"emails\": [],\n  \"people\": [\n"
    + "    {\n      \"name\": \"\",\n      \"designation\": \"\",\n      \"phone\": \"\",\n      \"email\": \"\"\n    }\n  ]\n}\n\n"
    + "RULES:\n- Do not guess or fabricate\n- Leave fields empty if unknown\n"
    + "- Use Indian phone formats\n- Do not repeat duplicates\n\nDATA:\n"

  /** The extraction prompt. */
  function IntelPrompt(company: string, context: string): string
  {
    IntelHead + company + IntelBody + context + "\n"
  }

  /** The prompt ends with the context, verbatim, and a newline. */
  lemma IntelPromptEndsWithContext(company: string, context: string)
    ensures var p := IntelPrompt(company, context);
      |p| > |context| && p[|p| - |context| - 1..] == context + "\n"
  {
    var p := IntelPrompt(company, context);
    assert p == (IntelHead + company + IntelBody) + (context + "\n");
  }

  // ------------------------------------------------------- JSON span of reply

  /** `s[i..k+1]` matches `\{.*\}` with DOTALL: it opens with '{' and closes
      with '}'. */
  predicate BraceMatch(s: string, i: int, k: int)
  {
    0 <= i < k < |s| && s[i] == '{' && s[k] == '}'
  }

  /** No `c` before index `i`. */
  lemma AbsentBefore(s: string, c: char, i: nat)
    requires i <= |s| && c !in s[..i]
    ensures forall i' :: 0 <= i' < i ==> s[i'] != c
  {
    forall i' | 0 <= i' < i ensures s[i'] != c {
      assert s[..i][i'] == s[i'];
    }
  }

  /** No `c` after index `k`. */
  lemma AbsentAfter(s: string, c: char, k: nat)
    requires k < |s| && c !in s[k + 1..]
    ensures forall k' :: k < k' < |s| ==> s[k'] != c
  {
    forall k' | k < k' < |s| ensures s[k'] != c {
      assert s[k + 1..][k' - k - 1] == s[k'];
    }
  }

  /** `re.search(r"\{.*\}", s, re.DOTALL)`: the leftmost match, made as long
      as possible, which runs from the first '{' to the last '}'. */
  function BraceSpan(s: string): (m: Option<string>)
    ensures m.None? <==> forall i, k :: !BraceMatch(s, i, k)
    ensures m.Some? ==> exists i, k :: (BraceMatch(s, i, k) && m.value == s[i..k + 1]
      && forall i', k' :: BraceMatch(s, i', k') ==> i <= i' && k' <= k)
  {
    match FirstIndex(s, '{')
    case None => None
    case Some(i) =>
      match LastIndex(s, '}')
      case None => None
      case Some(k) =>
        AbsentBefore(s, '{', i);
        AbsentAfter(s, '}', k);
        if i < k then
          assert BraceMatch(s, i, k);
          Some(s[i..k + 1])
        else
          None
  }

  /** What `extract_intelligence` returns: `{}` or the decoded value. */
  datatype Intel<D> = NoData | Data(value: D)

  /** The prompts sent to the model (at most one) and the result. */
  datatype Extraction<D> = Extraction(prompts: seq<string>, result: Intel<D>)

  /** `extract_intelligence`. */
  function ExtractIntelligence<D>(company: string, results: seq<SearchRecord>,
                                  post: string -> OllamaReply, decode: string -> Option<D>): (r: Extraction<D>)
    ensures results == [] ==> r.prompts == [] && r.result == NoData
    ensures results != [] ==> r.prompts == [IntelPrompt(company, IntelContext(results))]
    ensures results != [] ==>
      var raw := AskLlama(IntelPrompt(company, IntelContext(results)), post);
      (r.result.Data? <==> raw != "" && BraceSpan(raw).Some? && decode(BraceSpan(raw).value).Some?)
      && (r.result.Data? ==> decode(BraceSpan(raw).value) == Some(r.result.value))
  {
    if results == [] then Extraction([], NoData)
    else
      var prompt := IntelPrompt(company, IntelContext(results));
      var raw := AskLlama(prompt, post);
      var result :=
        if raw == "" then NoData
        else match BraceSpan(raw)
          case None => NoData
          case Some(span) =>
            match decode(span)
            case None => NoData
            case Some(v) => Data(v);
      Extraction([prompt], result)
  }
}
