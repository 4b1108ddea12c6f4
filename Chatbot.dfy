/** The PDF chatbot: text extraction, the input lists for the vector index,
    context assembly, the grounding prompt, the persisted chat history and
    the two button handlers `build` and `ask`.

    The PDF reader, the text splitter, the FAISS store, the similarity search
    and the chat model are parameters: `pages` stands for what
    `page.extract_text()` gives per page, `split` for
    `RecursiveCharacterTextSplitter.split_text`, `fromTexts` for
    `FAISS.from_texts`, `search` for `similarity_search` and `chat` for
    `ollama.chat`. A parameter of type `Option` returns `None` where the
    library call raises. */
module Chatbot {
  import opened Wrappers
  import opened Text

  // ---------------------------------------------------------------- PDF text

  /** An uploaded PDF: its path and the text of each page (`None` for a page
      without a text layer). */
  datatype PdfFile = PdfFile(path: string, pages: seq<Option<string>>)

  /** The page's text when it is non-empty (`if t:`), else nothing. */
  function Kept(page: Option<string>): seq<string>
  {
    if page.Some? && page.value != "" then [page.value] else []
  }

  /** The non-empty page texts, in page order. */
  function PageTexts(pages: seq<Option<string>>): seq<string>
  {
    if |pages| == 0 then [] else Kept(pages[0]) + PageTexts(pages[1..])
  }

  lemma {:induction false} PageTextsAppend(a: seq<Option<string>>, b: seq<Option<string>>)
    ensures PageTexts(a + b) == PageTexts(a) + PageTexts(b)
    decreases |a|
  {
    if |a| == 0 {
      assert a + b == b;
    } else {
      PageTextsAppend(a[1..], b);
      DropFirstAppend(a, b);
    }
  }

  /** A page is among the kept texts exactly when it has non-empty text. */
  lemma {:induction false} PageTextsMembers(pages: seq<Option<string>>, t: string)
    ensures t in PageTexts(pages) <==> t != "" && Some(t) in pages
    decreases |pages|
  {
    if |pages| > 0 {
      PageTextsMembers(pages[1..], t);
      assert pages == [pages[0]] + pages[1..];
    }
  }

  /** `extract_text`: `t + "\n"` for every page with non-empty text, in page order. */
  method ExtractText(pages: seq<Option<string>>) returns (text: string)
    ensures text == Lines(PageTexts(pages))
  {
    text := "";
    for i := 0 to |pages|
      invariant text == Lines(PageTexts(pages[..i]))
    {
      var t := pages[i];
      ghost var done := PageTexts(pages[..i]);
      assert PageTexts(pages[..i + 1]) == done + Kept(t) by {
        assert pages[..i + 1] == pages[..i] + [t];
        PageTextsAppend(pages[..i], [t]);
        assert PageTexts([t]) == Kept(t);
      }
      LinesAppend(done, Kept(t));
      if t.Some? && t.value != "" {
        assert Lines([t.value]) == t.value + "\n" by {
          assert [t.value][..0] == [];
        }
        text := text + t.value + "\n";
      }
    }
    assert pages[..|pages|] == pages;
  }

  /** A page with no text or empty text leaves the extracted text unchanged. */
  lemma EmptyPageIgnored(pages: seq<Option<string>>, j: nat)
    requires j < |pages| && (pages[j].None? || pages[j].value == "")
    ensures Lines(PageTexts(pages[..j] + pages[j + 1..])) == Lines(PageTexts(pages))
  {
    var a, b := pages[..j], pages[j + 1..];
    SplitAround(pages, j);
    calc {
      PageTexts(pages);
    == { PageTextsAppend(a, [pages[j]] + b); }
      PageTexts(a) + PageTexts([pages[j]] + b);
    == { PageTextsAppend([pages[j]], b); assert PageTexts([pages[j]]) == []; }
      PageTexts(a) + PageTexts(b);
    == { PageTextsAppend(a, b); }
      PageTexts(a + b);
    }
  }

  // ------------------------------------------------------------- index input

  /** `os.path.basename` on a POSIX path. */
  function Basename(path: string): string
  {
    if |path| == 0 || path[|path| - 1] == '/' then ""
    else Basename(path[..|path| - 1]) + [path[|path| - 1]]
  }

  /** The basename is the longest suffix of the path without a '/'. */
  lemma {:induction false} BasenameSpec(path: string)
    ensures '/' !in Basename(path)
    ensures |Basename(path)| <= |path| && Basename(path) == path[|path| - |Basename(path)|..]
    ensures |Basename(path)| < |path| ==> path[|path| - |Basename(path)| - 1] == '/'
    decreases |path|
  {
    if |path| > 0 && path[|path| - 1] != '/' {
      var p := path[..|path| - 1];
      BasenameSpec(p);
      assert path[|path| - |Basename(path)|..] == p[|p| - |Basename(p)|..] + [path[|path| - 1]];
    }
  }

  /** The metadata FAISS stores beside each chunk: `{"source": name}`. */
  datatype Meta = Meta(source: string)

  /** What the loop of `build_index` knows of one file once `name` and
      `text` are computed. */
  datatype Doc = Doc(name: string, text: string)

  function Extracted(f: PdfFile): Doc
  {
    Doc(Basename(f.path), Lines(PageTexts(f.pages)))
  }

  function ExtractAll(files: seq<PdfFile>): seq<Doc>
  {
    seq(|files|, j requires 0 <= j < |files| => Extracted(files[j]))
  }

  /** The chunks one document contributes: none when its text is white space
      only (`not text.strip()`, see `StripEmptyIff`), else the splitter's
      chunks. */
  function DocChunks(d: Doc, split: string -> seq<string>): seq<string>
  {
    if AllSpace(d.text) then [] else split(d.text)
  }

  function DocMetas(d: Doc, split: string -> seq<string>): seq<Meta>
  {
    seq(|DocChunks(d, split)|, _ => Meta(d.name))
  }

  /** The `texts` list: every document's chunks, in file order. */
  function IndexTexts(docs: seq<Doc>, split: string -> seq<string>): seq<string>
  {
    if |docs| == 0 then []
    else IndexTexts(docs[..|docs| - 1], split) + DocChunks(docs[|docs| - 1], split)
  }

  /** The `metas` list, parallel to `texts`. */
  function IndexMetas(docs: seq<Doc>, split: string -> seq<string>): seq<Meta>
  {
    if |docs| == 0 then []
    else IndexMetas(docs[..|docs| - 1], split) + DocMetas(docs[|docs| - 1], split)
  }

  /** The inner loop of `build_index`: one `texts.append(c)` and one
      `metas.append({"source": name})` per chunk, in chunk order. */
  method AppendChunks(texts: seq<string>, metas: seq<Meta>, chunks: seq<string>, name: string)
    returns (texts': seq<string>, metas': seq<Meta>)
    ensures texts' == texts + chunks
    ensures metas' == metas + seq(|chunks|, _ => Meta(name))
  {
    texts', metas' := texts, metas;
    for j := 0 to |chunks|
      invariant texts' == texts + chunks[..j]
      invariant metas' == metas + seq(j, _ => Meta(name))
    {
      texts' := texts' + [chunks[j]];
      metas' := metas' + [Meta(name)];
      assert chunks[..j + 1] == chunks[..j] + [chunks[j]];
    }
    assert chunks[..|chunks|] == chunks;
  }

  /** The loops of `build_index`, up to the call of `FAISS.from_texts`. */
  method BuildIndex(files: seq<PdfFile>, split: string -> seq<string>)
    returns (texts: seq<string>, metas: seq<Meta>)
    ensures texts == IndexTexts(ExtractAll(files), split)
    ensures metas == IndexMetas(ExtractAll(files), split)
  {
    ghost var docs := ExtractAll(files);
    texts, metas := [], [];
    for i := 0 to |files|
      invariant texts == IndexTexts(docs[..i], split)
      invariant metas == IndexMetas(docs[..i], split)
    {
      var name := Basename(files[i].path);
      var text := ExtractText(files[i].pages);
      assert docs[i] == Doc(name, text);
      IndexStep(docs, i, split);
      StripEmptyIff(text);
      if Strip(text) == "" {
        continue;
      }
      texts, metas := AppendChunks(texts, metas, split(text), name);
    }
    assert docs[..|files|] == docs;
  }

  /** One more document extends both lists by its own chunks. */
  lemma IndexStep(docs: seq<Doc>, i: nat, split: string -> seq<string>)
    requires i < |docs|
    ensures IndexTexts(docs[..i + 1], split) == IndexTexts(docs[..i], split) + DocChunks(docs[i], split)
    ensures IndexMetas(docs[..i + 1], split) == IndexMetas(docs[..i], split) + DocMetas(docs[i], split)
  {
    assert docs[..i + 1][..i] == docs[..i];
  }

  /** `texts` and `metas` always have the same length. */
  lemma {:induction false} IndexParallel(docs: seq<Doc>, split: string -> seq<string>)
    ensures |IndexTexts(docs, split)| == |IndexMetas(docs, split)|
    decreases |docs|
  {
    if |docs| > 0 {
      IndexParallel(docs[..|docs| - 1], split);
    }
  }

  lemma {:induction false} IndexTextsAppend(a: seq<Doc>, b: seq<Doc>, split: string -> seq<string>)
    ensures IndexTexts(a + b, split) == IndexTexts(a, split) + IndexTexts(b, split)
    decreases |b|
  {
    if |b| == 0 {
      assert a + b == a;
    } else {
      var n := |b|;
      var last := DocChunks(b[n - 1], split);
      calc {
        IndexTexts(a + b, split);
      == { DropLastAppend(a, b); }
        IndexTexts(a + b[..n - 1], split) + last;
      == { IndexTextsAppend(a, b[..n - 1], split); }
        IndexTexts(a, split) + IndexTexts(b[..n - 1], split) + last;
      }
    }
  }

  lemma {:induction false} IndexMetasAppend(a: seq<Doc>, b: seq<Doc>, split: string -> seq<string>)
    ensures IndexMetas(a + b, split) == IndexMetas(a, split) + IndexMetas(b, split)
    decreases |b|
  {
    if |b| == 0 {
      assert a + b == a;
    } else {
      var n := |b|;
      var last := DocMetas(b[n - 1], split);
      calc {
        IndexMetas(a + b, split);
      == { DropLastAppend(a, b); }
        IndexMetas(a + b[..n - 1], split) + last;
      == { IndexMetasAppend(a, b[..n - 1], split); }
        IndexMetas(a, split) + IndexMetas(b[..n - 1], split) + last;
      }
    }
  }

  /** Chunk `k` of the index came from some document `j`, whose chunk list
      holds it, and its metadata names that document's file. */
  lemma {:induction false} IndexProvenance(docs: seq<Doc>, split: string -> seq<string>, k: nat)
    requires k < |IndexTexts(docs, split)|
    ensures k < |IndexMetas(docs, split)|
    ensures exists j :: (0 <= j < |docs|
      && IndexTexts(docs, split)[k] in DocChunks(docs[j], split)
      && IndexMetas(docs, split)[k] == Meta(docs[j].name))
    decreases |docs|
  {
    var n := |docs|;
    var front := docs[..n - 1];
    IndexParallel(front, split);
    var m := |IndexTexts(front, split)|;
    if k < m {
      IndexProvenance(front, split, k);
      var j :| 0 <= j < |front|
        && IndexTexts(front, split)[k] in DocChunks(front[j], split)
        && IndexMetas(front, split)[k] == Meta(front[j].name);
      assert front[j] == docs[j];
    } else {
      assert IndexTexts(docs, split)[k] == DocChunks(docs[n - 1], split)[k - m];
      assert IndexMetas(docs, split)[k] == DocMetas(docs[n - 1], split)[k - m];
    }
  }

  lemma BlankDocEmpty(d: Doc, split: string -> seq<string>)
    requires AllSpace(d.text)
    ensures IndexTexts([d], split) == [] && IndexMetas([d], split) == []
  {
    assert [d][..0] == [];
  }

  /** A document whose text is white space only contributes nothing:
      removing it leaves both lists unchanged. */
  lemma BlankDocIgnored(docs: seq<Doc>, split: string -> seq<string>, j: nat)
    requires j < |docs| && AllSpace(docs[j].text)
    ensures IndexTexts(docs[..j] + docs[j + 1..], split) == IndexTexts(docs, split)
    ensures IndexMetas(docs[..j] + docs[j + 1..], split) == IndexMetas(docs, split)
  {
    var a, d, b := docs[..j], docs[j], docs[j + 1..];
    SplitAround(docs, j);
    BlankDocEmpty(d, split);
    BlankDocTexts(a, d, b, split);
    BlankDocMetas(a, d, b, split);
  }

  lemma BlankDocTexts(a: seq<Doc>, d: Doc, b: seq<Doc>, split: string -> seq<string>)
    requires IndexTexts([d], split) == []
    ensures IndexTexts(a + ([d] + b), split) == IndexTexts(a + b, split)
  {
    calc {
      IndexTexts(a + ([d] + b), split);
    == { IndexTextsAppend(a, [d] + b, split); }
      IndexTexts(a, split) + IndexTexts([d] + b, split);
    == { IndexTextsAppend([d], b, split); }
      IndexTexts(a, split) + IndexTexts(b, split);
    == { IndexTextsAppend(a, b, split); }
      IndexTexts(a + b, split);
    }
  }

  lemma BlankDocMetas(a: seq<Doc>, d: Doc, b: seq<Doc>, split: string -> seq<string>)
    requires IndexMetas([d], split) == []
    ensures IndexMetas(a + ([d] + b), split) == IndexMetas(a + b, split)
  {
    calc {
      IndexMetas(a + ([d] + b), split);
    == { IndexMetasAppend(a, [d] + b, split); }
      IndexMetas(a, split) + IndexMetas([d] + b, split);
    == { IndexMetasAppend([d], b, split); }
      IndexMetas(a, split) + IndexMetas(b, split);
    == { IndexMetasAppend(a, b, split); }
      IndexMetas(a + b, split);
    }
  }

  /** Stated on the uploaded files: chunk `k` of `texts` is a chunk of some
      file `j`, and `metas[k].source` is that file's basename. */
  lemma ChunkSource(files: seq<PdfFile>, split: string -> seq<string>, k: nat)
    requires k < |IndexTexts(ExtractAll(files), split)|
    ensures k < |IndexMetas(ExtractAll(files), split)|
    ensures exists j :: (0 <= j < |files|
      && IndexTexts(ExtractAll(files), split)[k] in DocChunks(Extracted(files[j]), split)
      && IndexMetas(ExtractAll(files), split)[k].source == Basename(files[j].path))
  {
    var docs := ExtractAll(files);
    IndexProvenance(docs, split, k);
    var j :| 0 <= j < |docs|
      && IndexTexts(docs, split)[k] in DocChunks(docs[j], split)
      && IndexMetas(docs, split)[k] == Meta(docs[j].name);
    assert docs[j] == Extracted(files[j]);
  }

  /** Stated on the uploaded files: a PDF whose extracted text is white space
      only can be left out without changing `texts` or `metas`. */
  lemma BlankFileIgnored(files: seq<PdfFile>, split: string -> seq<string>, j: nat)
    requires j < |files| && AllSpace(Lines(PageTexts(files[j].pages)))
    ensures IndexTexts(ExtractAll(files[..j] + files[j + 1..]), split) == IndexTexts(ExtractAll(files), split)
    ensures IndexMetas(ExtractAll(files[..j] + files[j + 1..]), split) == IndexMetas(ExtractAll(files), split)
  {
    var docs := ExtractAll(files);
    assert ExtractAll(files[..j] + files[j + 1..]) == docs[..j] + docs[j + 1..];
    BlankDocIgnored(docs, split, j);
  }

  // ------------------------------------------------------- context and prompt

  /** The number of passages `retrieve_context` asks for. */
  const TopK: nat := 4

  /** `retrieve_context`: the passages in the order the search returns them,
      separated by a blank line; `None` when the search raises. */
  function RetrieveContext<S>(vs: S, query: string, search: (S, string, nat) -> Option<seq<string>>)
    : (context: Option<string>)
    ensures search(vs, query, TopK).None? <==> context.None?
    ensures search(vs, query, TopK) == Some([]) ==> context == Some("")
    ensures search(vs, query, TopK).Some? && |search(vs, query, TopK).value| == 1 ==>
      context == Some(search(vs, query, TopK).value[0])
    ensures search(vs, query, TopK).Some? ==> forall i :: 0 < i < |search(vs, query, TopK).value| ==>
      context == Some(Join(search(vs, query, TopK).value[..i], "\n\n") + "\n\n"
                      + Join(search(vs, query, TopK).value[i..], "\n\n"))
  {
    match search(vs, query, TopK)
    case None => None
    case Some(passages) =>
      forall i | 0 < i < |passages|
        ensures Join(passages, "\n\n") == Join(passages[..i], "\n\n") + "\n\n" + Join(passages[i..], "\n\n")
      {
        JoinSplit(passages, "\n\n", i);
      }
      Some(Join(passages, "\n\n"))
  }

  const PromptHead := "\nAnswer the question ONLY using the context.\nIf the answer is not in the context, say:\n\"Information not found in the documents.\"\n\nContext:\n"
  const PromptMiddle := "\n\nQuestion:\n"
  const PromptTail := "\n\nAnswer:\n"

  /** The grounding prompt of `ask_llama3`. */
  function Llama3Prompt(context: string, question: string): string
  {
    PromptHead + context + PromptMiddle + question + PromptTail
  }

  /** For a fixed context the prompt determines the question. */
  lemma Llama3PromptQuestion(context: string, q1: string, q2: string)
    requires Llama3Prompt(context, q1) == Llama3Prompt(context, q2)
    ensures q1 == q2
  {
    var p := Llama3Prompt(context, q1);
    var lo := |PromptHead| + |context| + |PromptMiddle|;
    assert p[lo..|p| - |PromptTail|] == q1;
    assert Llama3Prompt(context, q2)[lo..|p| - |PromptTail|] == q2;
  }

  /** For a fixed question the prompt determines the context. */
  lemma Llama3PromptContext(c1: string, c2: string, question: string)
    requires Llama3Prompt(c1, question) == Llama3Prompt(c2, question)
    ensures c1 == c2
  {
    var p := Llama3Prompt(c1, question);
    var hi := |p| - |PromptTail| - |question| - |PromptMiddle|;
    assert p[|PromptHead|..hi] == c1;
    assert Llama3Prompt(c2, question)[|PromptHead|..hi] == c2;
  }

  /** `ask_llama3`: the stripped reply of the chat model to the prompt;
      `None` when the call raises. */
  function AskLlama3(context: string, question: string, chat: string -> Option<string>): (answer: Option<string>)
    ensures answer.None? <==> chat(Llama3Prompt(context, question)).None?
    ensures answer.Some? ==> answer.value == Strip(chat(Llama3Prompt(context, question)).value)
  {
    match chat(Llama3Prompt(context, question))
    case None => None
    case Some(content) => Some(Strip(content))
  }

  // ------------------------------------------------------------ chat history

  /** One record of `chat_history`: `{"sender": ..., "text": ...}`. */
  datatype Turn = Turn(sender: string, text: string)

  /** The history file at start-up: absent, or present with the result of
      decoding it (`None` when decoding raises). */
  datatype HistoryFile = Missing | Present(decoded: Option<seq<Turn>>)

  /** `load_history`: a missing file gives the empty history; `None` means the
      decoding error escapes and the program stops. */
  function LoadHistory(file: HistoryFile): (history: Option<seq<Turn>>)
    ensures file.Missing? ==> history == Some([])
    ensures file.Present? ==> history == file.decoded
  {
    match file
    case Missing => Some([])
    case Present(decoded) => decoded
  }

  const NotReadyReply := "Please upload PDFs and build index first."

  /** The chatbot's process-wide state. `S` is the type of the FAISS store. */
  class ChatApp<S> {
    /** `chat_history` */
    var history: seq<Turn>
    /** Contents of the history file, as `save_history` last wrote it. */
    var saved: seq<Turn>
    /** The messages shown in the chat box, in order. */
    var shown: seq<Turn>
    /** `vectorstore` */
    var vectorstore: Option<S>
    /** `rag_ready` */
    var ragReady: bool
    /** `user_input.value` */
    var input: Option<string>

    /** `rag_ready` is set only together with a built store. */
    ghost predicate Valid()
      reads this
    {
      ragReady ==> vectorstore.Some?
    }

    /** Start-up: `load_history` on the history file as found, whose
        history is then replayed into the chat box without being stored
        again. A file that does not decode stops the program first. */
    constructor (file: HistoryFile)
      requires LoadHistory(file).Some?
      ensures Valid()
      ensures history == LoadHistory(file).value && saved == history && shown == history
      ensures file.Missing? ==> history == []
      ensures vectorstore == None && !ragReady && input == Some("")
    {
      var loaded := LoadHistory(file).value;
      history, saved, shown := loaded, loaded, [];
      vectorstore, ragReady, input := None, false, Some("");
      new;
      ReplayHistory();
    }

    /** `add_message`: the message is shown; with `persist` it is appended to
        the history and the whole history is written to the file. */
    method AddMessage(sender: string, text: string, persist: bool)
      modifies this
      ensures shown == old(shown) + [Turn(sender, text)]
      ensures history == if persist then old(history) + [Turn(sender, text)] else old(history)
      ensures saved == if persist then history else old(saved)
      ensures vectorstore == old(vectorstore) && ragReady == old(ragReady) && input == old(input)
    {
      shown := shown + [Turn(sender, text)];
      if persist {
        history := history + [Turn(sender, text)];
        saved := history;
      }
    }

    /** The start-up loop `for m in chat_history: add_message(..., persist=False)`. */
    method ReplayHistory()
      modifies this
      ensures shown == old(shown) + old(history)
      ensures history == old(history) && saved == old(saved)
      ensures vectorstore == old(vectorstore) && ragReady == old(ragReady) && input == old(input)
    {
      var h := history;
      for i := 0 to |h|
        invariant history == h && saved == old(saved) && shown == old(shown) + h[..i]
        invariant vectorstore == old(vectorstore) && ragReady == old(ragReady) && input == old(input)
      {
        AddMessage(h[i].sender, h[i].text, false);
        assert h[..i + 1] == h[..i] + [h[i]];
      }
      assert h[..|h|] == h;
    }

    /** `build`: with no PDFs nothing changes; otherwise the index is built
        and, if the store can be created, installed and marked ready. */
    method Build(pdfs: seq<PdfFile>, split: string -> seq<string>,
                 fromTexts: (seq<string>, seq<Meta>) -> Option<S>)
      requires Valid()
      modifies this
      ensures Valid()
      ensures |pdfs| == 0 ==> vectorstore == old(vectorstore) && ragReady == old(ragReady)
      ensures |pdfs| > 0 ==>
        var store := fromTexts(IndexTexts(ExtractAll(pdfs), split), IndexMetas(ExtractAll(pdfs), split));
        if store.Some? then vectorstore == store && ragReady
        else vectorstore == old(vectorstore) && ragReady == old(ragReady)
      ensures history == old(history) && saved == old(saved) && shown == old(shown) && input == old(input)
    {
      if |pdfs| == 0 {
        return;
      }
      var texts, metas := BuildIndex(pdfs, split);
      var store := fromTexts(texts, metas);
      if store.Some? {
        vectorstore := store;
        ragReady := true;
      }
    }

    /** `ask`: a blank question changes nothing. Otherwise the user turn is
        stored, followed by the fixed reply when no index is ready, or by the
        model's answer; if the search or the model call raises, only the user
        turn stays and the input is kept. */
    method Ask(search: (S, string, nat) -> Option<seq<string>>, chat: string -> Option<string>)
      requires Valid()
      modifies this
      ensures Valid()
      ensures vectorstore == old(vectorstore) && ragReady == old(ragReady)
      ensures var q := Strip(old(input).GetOr(""));
        q == "" ==>
          history == old(history) && saved == old(saved) && shown == old(shown) && input == old(input)
      ensures var q := Strip(old(input).GetOr(""));
        q != "" && !old(ragReady) ==>
          history == old(history) + [Turn("user", q), Turn("bot", NotReadyReply)] && input == Some("")
      ensures var q := Strip(old(input).GetOr(""));
        q != "" && old(ragReady) ==>
          var context := RetrieveContext(old(vectorstore).value, q, search);
          var answer := if context.Some? then AskLlama3(context.value, q, chat) else None;
          if answer.Some? then
            history == old(history) + [Turn("user", q), Turn("bot", answer.value)] && input == Some("")
          else
            history == old(history) + [Turn("user", q)] && input == old(input)
      ensures |old(history)| <= |history|
      ensures Strip(old(input).GetOr("")) != "" ==>
        saved == history && shown == old(shown) + history[|old(history)|..]
    {
      var q := Strip(input.GetOr(""));
      if q == "" {
        return;
      }
      AddMessage("user", q, true);
      if !ragReady {
        AddMessage("bot", NotReadyReply, true);
        input := Some("");
        return;
      }
      var context := RetrieveContext(vectorstore.value, q, search);
      if context.None? {
        return;
      }
      var answer := AskLlama3(context.value, q, chat);
      if answer.None? {
        return;
      }
      AddMessage("bot", answer.value, true);
      input := Some("");
    }
  }
}
