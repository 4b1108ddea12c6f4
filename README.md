# Verified model of the PDF chatbot and company-intelligence scripts

The repository is four Python scripts around local LLMs (Ollama):

- a NiceGUI chatbot that indexes uploaded PDFs with FAISS and answers questions from the retrieved passages (`shivang_chatbot_OLLAMA_LLAMA3_STABLE.py`, module `Chatbot`);
- an OSINT script that runs seven web searches for a company and asks the model to extract contact data as JSON (`Phase1_CH.py`, module `Osint`);
- an Excel batch flow that looks each company of a sheet up on Wikipedia, asks the model for its address, and appends the rows the operator accepts to an output workbook (`Phase2_Excle_SH.py`, module `ExcelFlow`);
- a FastAPI endpoint that answers a question about one uploaded PDF with a streamed Ollama request (`rag-fast-api.py`, module `PdfQa`).

The scripts contain no retrieval algorithm of their own. What they contain is glue: folds, filters and concatenations over the results of library calls. The model keeps that glue and turns every library call into a parameter:

- the text splitter is `split`;
- `FAISS.from_texts` and `similarity_search` are `fromTexts` and `search`;
- `ollama.chat`, `requests`, `DDGS().text` and `subprocess.run` are `chat`, `post`, `get`, `ddgs` and `ollama`;
- `json.loads` is `decode`;
- PDF readers are given as the text of each page.

A call that raises is `None` (or `Failed`/`Raised`), so the glue's `try` blocks and the exceptions that end a request are modelled where they change what the scripts compute. In the Excel flow the replies of the outside world are given per company by a `World`: the Wikipedia reply, the `ollama run` result, and whether the workbook read and write go through. Every library call the model takes as total, and every other failure it does not cover, is listed under Left out. Two modules are shared:

- `Text` holds the Python string operations the scripts use: `strip`, ASCII `lower`, `sep.join`, the `text += t + "\n"` fold, and index search.
- `Wrappers` holds `Option`.

State that the scripts update in place becomes a class:

- the chatbot's globals, history list, chat box and input field are fields of `Chatbot.ChatApp`;
- the output workbook is `ExcelFlow.OutputWorkbook`.

Loops in the source are methods with loop invariants. Each is proved against a specification function (`Lines`, `IndexTexts`, `Collected`, `Run` and `Flow`, `StreamText`). The properties are then proved as lemmas about those functions.

Where the code and its description differ, the model follows the code:

- `rag-fast-api.py` never imports `json` (see Findings).
- `Phase1_CH.py:150` compares `_name_`, so its `run` is not reachable (see Left out).
- `rag-fast-api.py:1` is a shell command, not Python. The model treats the file as if that line were absent.

## Model

| member | source | states |
|---|---|---|
| Text.TrimLeftSpec | shivang_chatbot_OLLAMA_LLAMA3_STABLE.py:195 | `lstrip` keeps a suffix of the input, everything it drops is Python white space, and what it keeps does not start with white space |
| Text.TrimLeftSuffix | shivang_chatbot_OLLAMA_LLAMA3_STABLE.py:195 | what `lstrip` keeps is a suffix of the input |
| Text.TrimLeftDropped | shivang_chatbot_OLLAMA_LLAMA3_STABLE.py:195 | everything `lstrip` drops is white space |
| Text.TrimLeftHead | shivang_chatbot_OLLAMA_LLAMA3_STABLE.py:195 | what `lstrip` keeps does not start with white space |
| Text.TrimRightSpec | shivang_chatbot_OLLAMA_LLAMA3_STABLE.py:195 | `rstrip` keeps a prefix, drops only white space, and what it keeps does not end with white space |
| Text.StripSlice | shivang_chatbot_OLLAMA_LLAMA3_STABLE.py:195 | `strip` returns one slice `s[i..j]` with white space only before `i` and after `j`, and the slice neither starts nor ends with white space |
| Text.StripTrims | Phase2_Excle_SH.py:39 | the same fact as an existential: the stripped text is the input with white space removed at both ends, and no more |
| Text.StripEmptyIff | shivang_chatbot_OLLAMA_LLAMA3_STABLE.py:51 | `not text.strip()` holds exactly when every character of `text` is white space |
| Text.StripIdempotent | shivang_chatbot_OLLAMA_LLAMA3_STABLE.py:195 | stripping twice is stripping once |
| Text.Lower | Phase2_Excle_SH.py:135 | lower-casing keeps the length, moves each upper-case ASCII letter up by 32 code points, keeps every other character, and leaves no upper-case ASCII letter |
| Text.JoinLength | shivang_chatbot_OLLAMA_LLAMA3_STABLE.py:67 | a join of `n` parts is the parts' total length plus `n - 1` separators |
| Text.JoinSplit | shivang_chatbot_OLLAMA_LLAMA3_STABLE.py:67 | cutting the parts at any `0 < i < n` cuts the joined text at exactly one separator, with the parts in order on either side |
| Text.LinesAppend | rag-fast-api.py:47-50 | the `text += t + "\n"` fold over `a + b` is the fold over `a` followed by the fold over `b` |
| Text.LinesLength | rag-fast-api.py:47-50 | the fold is as long as the texts together plus one newline per text |
| Text.FirstIndex | Phase1_CH.py:117 | returns the index of the first `c`, with no `c` before it, and `None` exactly when `c` does not occur |
| Text.LastIndex | Phase1_CH.py:117 | returns the index of the last `c`, with no `c` after it, and `None` exactly when `c` does not occur |
| Chatbot.PageTextsAppend | shivang_chatbot_OLLAMA_LLAMA3_STABLE.py:37-40 | the kept page texts of `a + b` are those of `a` followed by those of `b` |
| Chatbot.PageTextsMembers | shivang_chatbot_OLLAMA_LLAMA3_STABLE.py:37-40 | a text is kept exactly when it is the non-empty text of some page |
| Chatbot.ExtractText | shivang_chatbot_OLLAMA_LLAMA3_STABLE.py:34-41 | the loop returns `t + "\n"` for every page with non-empty text, in page order |
| Chatbot.EmptyPageIgnored | shivang_chatbot_OLLAMA_LLAMA3_STABLE.py:38-40 | removing a page with no text or empty text leaves the extracted text unchanged |
| Chatbot.BasenameSpec | shivang_chatbot_OLLAMA_LLAMA3_STABLE.py:49 | the basename is a suffix of the path without `/`, and it is the whole path or follows a `/` |
| Chatbot.AppendChunks | shivang_chatbot_OLLAMA_LLAMA3_STABLE.py:54-56 | the inner loop adds the chunks in order to `texts` and one `{"source": name}` per chunk to `metas` |
| Chatbot.BuildIndex | shivang_chatbot_OLLAMA_LLAMA3_STABLE.py:44-57 | the nested loops leave `texts` and `metas` equal to the index lists of the extracted documents: every non-blank document's chunks in file order, then chunk order |
| Chatbot.IndexStep | shivang_chatbot_OLLAMA_LLAMA3_STABLE.py:48-56 | one more document extends both lists by its own chunks and metadata |
| Chatbot.IndexParallel | shivang_chatbot_OLLAMA_LLAMA3_STABLE.py:46-56 | `texts` and `metas` always have the same length |
| Chatbot.IndexTextsAppend | shivang_chatbot_OLLAMA_LLAMA3_STABLE.py:48-56 | the `texts` of `a + b` are those of `a` followed by those of `b` |
| Chatbot.IndexMetasAppend | shivang_chatbot_OLLAMA_LLAMA3_STABLE.py:48-56 | the same for `metas` |
| Chatbot.IndexProvenance | shivang_chatbot_OLLAMA_LLAMA3_STABLE.py:48-56 | entry `k` of `texts` is a chunk of some document `j`, and entry `k` of `metas` names that document |
| Chatbot.BlankDocEmpty | shivang_chatbot_OLLAMA_LLAMA3_STABLE.py:51-52 | a document whose text is white space only contributes no chunks and no metadata |
| Chatbot.BlankDocIgnored | shivang_chatbot_OLLAMA_LLAMA3_STABLE.py:48-56 | removing a white-space-only document leaves both lists unchanged |
| Chatbot.BlankDocTexts | shivang_chatbot_OLLAMA_LLAMA3_STABLE.py:48-56 | a document that contributes nothing can be dropped from the middle of `texts` |
| Chatbot.BlankDocMetas | shivang_chatbot_OLLAMA_LLAMA3_STABLE.py:48-56 | the same for `metas` |
| Chatbot.ChunkSource | shivang_chatbot_OLLAMA_LLAMA3_STABLE.py:48-56 | stated on the uploaded files: `texts[k]` is a chunk of some file `j`, and `metas[k].source` is that file's basename |
| Chatbot.BlankFileIgnored | shivang_chatbot_OLLAMA_LLAMA3_STABLE.py:48-53 | stated on the uploaded files: a PDF whose extracted text is white space only can be left out without changing `texts` or `metas` |
| Chatbot.RetrieveContext | shivang_chatbot_OLLAMA_LLAMA3_STABLE.py:65-67 | no context exactly when the search raises; zero passages give `""` and one passage gives itself; otherwise the passages appear in search order with exactly `"\n\n"` between each two |
| Chatbot.Llama3PromptQuestion | shivang_chatbot_OLLAMA_LLAMA3_STABLE.py:106-118 | for a fixed context, the prompt determines the question |
| Chatbot.Llama3PromptContext | shivang_chatbot_OLLAMA_LLAMA3_STABLE.py:106-118 | for a fixed question, the prompt determines the context |
| Chatbot.AskLlama3 | shivang_chatbot_OLLAMA_LLAMA3_STABLE.py:105-123 | the answer is the chat reply to the prompt, stripped, and there is none exactly when the call raises |
| Chatbot.LoadHistory | shivang_chatbot_OLLAMA_LLAMA3_STABLE.py:72-76 | a missing file gives the empty history; otherwise the result is what decoding the file gives |
| Chatbot.ChatApp.constructor | shivang_chatbot_OLLAMA_LLAMA3_STABLE.py:72-84 | start-up on a history file that loads: the history is what `load_history` returns (empty when the file is missing), it is shown via the replay with nothing written, no index exists, and the input is empty |
| Chatbot.ChatApp.AddMessage | shivang_chatbot_OLLAMA_LLAMA3_STABLE.py:89-100 | the message is shown; with `persist` exactly one turn is appended to the history, earlier turns are kept, and the file holds the new history; without `persist` the history and file are unchanged |
| Chatbot.ChatApp.ReplayHistory | shivang_chatbot_OLLAMA_LLAMA3_STABLE.py:189-190 | the replay shows every stored turn in order and leaves the history and file unchanged |
| Chatbot.ChatApp.Build | shivang_chatbot_OLLAMA_LLAMA3_STABLE.py:164-176 | with no PDFs the store and `rag_ready` are unchanged; otherwise the store built from the index lists is installed and `rag_ready` becomes true (unchanged if building the store raises) |
| Chatbot.ChatApp.Ask | shivang_chatbot_OLLAMA_LLAMA3_STABLE.py:194-210 | a blank question changes nothing; with no index the history grows by the user turn and the fixed reply; otherwise by the user turn and the answer; if the similarity search or the model call raises, by the user turn only and the input is kept |
| Osint.AskLlama | Phase1_CH.py:13-37 | a failed request, an `"error"` key or a missing `"response"` key give `""`; otherwise the result is `data["response"]` |
| Osint.QueriesShape | Phase1_CH.py:44-52 | there are seven queries, in template order, each the company name followed by its template, and no two are equal |
| Osint.ToRecord | Phase1_CH.py:58-63 | a record carries its query, and the hit's `title`, `body` and `href`, each `""` when missing |
| Osint.AppendRecords | Phase1_CH.py:57-63 | the inner loop appends one record per hit, in hit order |
| Osint.WebSearch | Phase1_CH.py:43-64 | the nested loops return the records of all seven queries, query by query |
| Osint.CollectedAppend | Phase1_CH.py:56-63 | the records for the queries `a + b` are those for `a` followed by those for `b` |
| Osint.CollectedOrder | Phase1_CH.py:56-63 | the records of query `i` come after those of every earlier query and before those of every later one |
| Osint.CollectedProvenance | Phase1_CH.py:56-63 | every record carries one of the queries, and it is the record of one of that query's hits |
| Osint.Blocks | Phase1_CH.py:74-77 | exactly `min(25, n)` blocks, and block `i` is result `i` formatted |
| Osint.ContextUsesFirst25 | Phase1_CH.py:74-77 | results after the 25th do not change the context |
| Osint.ContextBlocks | Phase1_CH.py:74-77 | for every block `i`, it is `"URL: " + url + "\n" + snippet` of result `i`; for every `i > 0` the context is the blocks before `i` joined, one `"\n\n"`, then the blocks from `i` joined |
| Osint.ContextSingle | Phase1_CH.py:74-77 | a single result gives its own block as the whole context, with no separator |
| Osint.IntelPromptEndsWithContext | Phase1_CH.py:79-111 | the extraction prompt ends with the context, verbatim, followed by one newline |
| Osint.BraceSpan | Phase1_CH.py:117-120 | `\{.*\}` with DOTALL matches exactly when some `}` follows a `{`; the match runs from the first `{` to the last `}`, so every other candidate span lies inside it |
| Osint.ExtractIntelligence | Phase1_CH.py:70-126 | no results give `{}` without calling the model; otherwise one prompt is sent, and the result is the decoded brace span exactly when the reply is non-empty, has a span, and the span decodes; in every other case it is `{}` |
| ExcelFlow.CallLlamaSpec | Phase2_Excle_SH.py:26-39 | a non-zero exit code gives exactly `"LLM execution failed."`; exit code 0 gives the standard output with the white space at both ends removed, and no more; an exception starting the process propagates |
| ExcelFlow.Title | Phase2_Excle_SH.py:45 | the title keeps the name's length, has no spaces, has `_` wherever the name had a space, and keeps every other character |
| ExcelFlow.TitleRoundTrip | Phase2_Excle_SH.py:45 | for a name without underscores, replacing `_` back with spaces recovers the name |
| ExcelFlow.WikiUrlSpec | Phase2_Excle_SH.py:45-46 | the URL is the fixed REST prefix followed by the title, and is as long as the two together |
| ExcelFlow.FetchPublicInfoSpec | Phase2_Excle_SH.py:44-55 | an exception, a non-200 status, a body that does not decode, or a reply without `"extract"` give `""`; otherwise the result is the `"extract"` field |
| ExcelFlow.AddressPromptText | Phase2_Excle_SH.py:60-77 | for a fixed company, the address prompt determines the public text |
| ExcelFlow.AddressPromptCompany | Phase2_Excle_SH.py:60-77 | for a fixed public text, the address prompt determines the company |
| ExcelFlow.FindCompanyAddressSpec | Phase2_Excle_SH.py:60-77 | the address is `call_llama` on the address prompt for this company and public text: none exactly when starting the process raises, `"LLM execution failed."` on a non-zero exit code, and otherwise the standard output stripped |
| ExcelFlow.DropMissingAppend | Phase2_Excle_SH.py:89 | `dropna` keeps order: the names from `a + b` are those from `a` followed by those from `b` |
| ExcelFlow.DropMissingMembers | Phase2_Excle_SH.py:89 | a name survives exactly when it is a present cell, and no entries are added |
| ExcelFlow.DropMissingNoBlanks | Phase2_Excle_SH.py:89 | a column without blanks loses nothing |
| ExcelFlow.LoadCompanies | Phase2_Excle_SH.py:82-89 | a missing `Company Name` column, and only that, gives exit status 1; otherwise the result is that column without its blanks |
| ExcelFlow.OutputWorkbook.constructor | Phase2_Excle_SH.py:18 | the output workbook as found on disk before the run |
| ExcelFlow.OutputWorkbook.Init | Phase2_Excle_SH.py:94-101 | an existing workbook is left as it is; a missing one is created empty when `to_excel` can write it, and otherwise the call raises and nothing changes |
| ExcelFlow.OutputWorkbook.Append | Phase2_Excle_SH.py:106-110 | when the file exists and the read and write go through, the sheet grows by exactly one row `[company, address, remarks]` at its end and earlier rows are unchanged; a missing file or a failing read or write raises and nothing changes |
| ExcelFlow.LowerIsY | Phase2_Excle_SH.py:135-137 | a lower-cased answer is `y` exactly when it was `y` or `Y` |
| ExcelFlow.LowerIsYes | Phase2_Excle_SH.py:135-137 | a lower-cased answer is `yes` exactly when it was one of the eight case spellings of `yes` |
| ExcelFlow.YesSpellingsIff | Phase2_Excle_SH.py:135-137 | an answer is a yes exactly when, with white space at both ends removed, it is `y` or `yes` in any mix of case |
| ExcelFlow.Attempts | Phase2_Excle_SH.py:123-130 | one attempt per listed company, in order; attempt `k` is company `k` with the address from its own Wikipedia reply and its own `ollama run`, and its own write outcome |
| ExcelFlow.YesAnswers | Phase2_Excle_SH.py:135-137 | one answer per console line, true exactly when the line passes the `strip().lower() in ("y", "yes")` test |
| ExcelFlow.CompanyStepSpec | Phase2_Excle_SH.py:127-144 | a row is saved exactly when the model call succeeds, the save answer is a yes and the write goes through; the row holds the company, the model's address and empty remarks; a failed model call consumes no answer, any other outcome consumes the save answer, and end of input at the save prompt leaves no answer for the continue prompt |
| ExcelFlow.RunBounds | Phase2_Excle_SH.py:123-149 | at most one row is saved per company shown; no more companies are shown than listed; a run that was neither stopped nor ended by end of input has shown every company |
| ExcelFlow.FlowBounds | Phase2_Excle_SH.py:120-149 | the same bounds stated on the sheet's companies and the console lines |
| ExcelFlow.RunCons | Phase2_Excle_SH.py:123-149 | after the first company a yes at the continue prompt goes on with the rest; otherwise the run ends having shown that one company and saved at most its row |
| ExcelFlow.SavedIndex | Phase2_Excle_SH.py:123-149 | each saved row is that of an attempt among those shown whose model call succeeded and whose write went through |
| ExcelFlow.FlowSavedRows | Phase2_Excle_SH.py:127-138 | every saved row is the row of one of the companies shown, with the address from that company's own model call, a write that went through, and empty remarks |
| ExcelFlow.ErrorDoesNotStop | Phase2_Excle_SH.py:143-149 | after a failed model call a yes at the continue prompt goes on to the next company, having consumed only that answer |
| ExcelFlow.WriteErrorDoesNotStop | Phase2_Excle_SH.py:138-149 | after a failed workbook write a yes at the continue prompt goes on to the next company, having consumed the save answer and that answer, and nothing is saved |
| ExcelFlow.RunAt | Phase2_Excle_SH.py:123-149 | the rest of a run after `i` companies unfolds one company further: stop at end of input, stop on a non-yes answer, otherwise go on |
| ExcelFlow.ProcessCompany | Phase2_Excle_SH.py:127-144 | the `try` block appends the row of one company exactly when the step saves it, and leaves the input lines whose answers the step leaves |
| ExcelFlow.ProcessCompanies | Phase2_Excle_SH.py:123-149 | the loop appends exactly the run's saved rows to the workbook, and returns the run's count of companies shown and how it ended |
| ExcelFlow.RunActionflow | Phase2_Excle_SH.py:115-149 | without a `Company Name` column the run exits with status 1 and touches no workbook; if the missing output workbook cannot be written, `init_output_excel` raises and nothing changes; otherwise the workbook exists and receives exactly the flow's saved rows, and the outcome is the flow's count and ending |
| PdfQa.ApiPromptContext | rag-fast-api.py:20 | for a fixed question, the prompt determines the context |
| PdfQa.ApiPromptQuestion | rag-fast-api.py:20 | for a fixed context, the prompt determines the question |
| PdfQa.Request | rag-fast-api.py:16-27 | the request goes to the generate URL, for `mistral:latest`, streamed, with the prompt `"Context:\n" + context + "\n\nQuestion:\n" + prompt + "\nAnswer:"` |
| PdfQa.LinePiece | rag-fast-api.py:31-38 | an empty line, a line that does not decode, or a record without `"response"` adds nothing; otherwise the line adds its `"response"` field |
| PdfQa.StreamTextAppend | rag-fast-api.py:29-38 | the output for the lines `a + b` is the output for `a` followed by the output for `b` |
| PdfQa.SkippedLine | rag-fast-api.py:31-38 | a line that adds nothing can be dropped from the stream without changing the output |
| PdfQa.StreamTextLength | rag-fast-api.py:29-38 | the output is exactly as long as the lines' pieces together |
| PdfQa.AskOllama | rag-fast-api.py:12-39 | the answer is the in-order concatenation of the streamed `"response"` fields, stripped; there is no answer when the POST raises |
| PdfQa.ExtractTextFromPdf | rag-fast-api.py:42-50 | every page followed by `"\n"`, in order and none skipped, so the length is the pages' total length plus the page count |
| PdfQa.UploadPdf | rag-fast-api.py:53-63 | the reply echoes the question and carries the `ask_ollama` answer for the PDF's text; an unreadable PDF or a failed POST is an error response |
| PdfQa.AsWrittenDecode | rag-fast-api.py:34 | as written, decoding never succeeds: `json` is not imported |
| PdfQa.AsWrittenStreamIsEmpty | rag-fast-api.py:29-39 | as written, the output is empty whatever the stream holds |
| PdfQa.AsWrittenLosesResponse | rag-fast-api.py:34-36 | the line `{"response": "hi"}` gives `"hi"` with a working decoder and `""` as written |

## Left out

- Library internals are parameters: text splitting, FAISS, embeddings, PDF page extraction, JSON decoding, DuckDuckGo, `requests` and `ollama`. The model claims nothing about chunk contents, similarity ranking or answer quality. Chunk size and overlap are only arguments to the splitter.
- UI and terminal output are not modelled: NiceGUI layout, CSS classes, status labels, message alignment by sender, the upload handler and file list, `print`, `textwrap.fill`, and the banners of `run_actionflow`.
- Chatbot.ChatApp.AddMessage: `save_history` is modelled as the file holding the whole history after each persisted message. Nothing about atomic or durable writes is claimed. A `save_history` that raises after the append (history grown, file not, the rest of `ask` skipped) is not modelled.
- Chatbot.ChatApp.Build: `split` is total: `splitter.split_text` (line 54) raising is not modelled. `fromTexts` may fail because `build_index` passes a bare lambda as `embedding` (line 60), and whether `FAISS.from_texts` accepts that is library behaviour. Both outcomes are covered: a store is installed, or `build` raises before the assignment and nothing changes.
- Chatbot.LoadHistory: a history file that is not a list of `{sender, text}` records is not modelled.
- Chatbot.BasenameSpec: `os.path.basename` is modelled with the POSIX rule (after the last `/`). The directory comes from `glob` and on Windows `\` also separates.
- Chatbot.ExtractText: `pdfplumber.open` failing on a broken file raises out of `build`. That path is not modelled.
- Text.Lower: `str.lower` is modelled on ASCII letters only. Other letters are kept as they are.
- Text.IsSpace: Python's `str.isspace` is written out as its fixed set of code points. There is no other Unicode processing.
- Osint.AskLlama: the request body (`model`, `stream: False`, the 180-second timeout) goes to the `post` parameter. The model only takes the prompt from it. Non-string `"response"` values are not modelled.
- Osint.WebSearch: `ddgs.text` raising is not caught by the script; the model takes each search as returning its hits.
- `run` in `Phase1_CH.py` is not modelled: the guard at line 150 compares `_name_`, which raises `NameError` at import, so it is not a working entry point.
- ExcelFlow.FetchPublicInfo: request headers and the 15-second timeout are not parameters of `get`. A decoded body that is not an object, and a non-string `"extract"`, are not modelled.
- ExcelFlow.LoadCompanies: an unreadable input workbook raises before the check. Cells are strings or blank; other cell types are not modelled.
- ExcelFlow.ProcessCompanies: console input is a finite list of lines, and running out of lines is end of input. End of input at the save prompt is caught by the `try`; at the continue prompt it ends the program (`Crashed`). A `KeyboardInterrupt` is not modelled.
- ExcelFlow.World: the Wikipedia reply and the `ollama run` result are functions of the company's position and the URL or prompt; the network and the model are not otherwise modelled.
- ExcelFlow.OutputWorkbook.Append: a read or write that fails is taken to leave the file as it was; a write that fails part-way is not modelled.
- ExcelFlow.CallLlama: `subprocess.run` decodes with `errors="replace"`, so the output is taken as a string. Only an exception starting the process is an error.
- PdfQa.AskOllama: the streamed lines are taken after UTF-8 decoding. A line that is not valid UTF-8 raises outside the `try` and is not modelled. The `num_predict` and `temperature` options (a float) are not part of the modelled request. `iter_lines` failing part-way through the stream is not modelled.
- PdfQa.UploadPdf: `await file.read()` and the FastAPI routing are not modelled. The PDF is given as the text of its pages.

## Findings

| source | as written | input that shows it | evidently intended | confidence | as-written member | corrected member |
|---|---|---|---|---|---|---|
| rag-fast-api.py:34 | `json.loads` is called but `json` is never imported. Every call raises `NameError`, the `except Exception` at line 37 swallows it, and `ask_ollama` always returns `""` | a stream holding the line `{"response": "hi"}`: the answer is `""` instead of `"hi"` | decode each line and concatenate the `"response"` fields | high; not executed | PdfQa.AsWrittenStreamIsEmpty | PdfQa.AskOllama |
