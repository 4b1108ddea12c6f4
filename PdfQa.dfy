/** The PDF question-answering endpoint: the text of an uploaded PDF is the
    context of one streamed request to the Ollama generate API.

    The PDF reader is given as the text of each page (`None` when the file
    is not a readable PDF), `requests.post` as the parameter `post` (the
    streamed lines of the reply, `None` when the request raises) and
    `json.loads` as the parameter `decode` (`None` when it raises). */
module PdfQa {
  import opened Wrappers
  import opened Text

  // ------------------------------------------------------------ the request

  const OllamaApiUrl := "http://localhost:11434/api/generate"
  const DefaultModel := "mistral:latest"

  /** The POST: its URL, the `model` and `prompt` of its JSON body, and the
      `stream` flag. */
  datatype GenerateRequest = GenerateRequest(url: string, model: string, prompt: string, stream: bool)

  const PromptHead := "Context:\n"
  const PromptMiddle := "\n\nQuestion:\n"
  const PromptTail := "\nAnswer:"

  /** The prompt of `ask_ollama`. */
  function ApiPrompt(prompt: string, context: string): string
  {
    PromptHead + context + PromptMiddle + prompt + PromptTail
  }

  /** For a fixed question the prompt determines the context. */
  lemma ApiPromptContext(prompt: string, c1: string, c2: string)
    requires ApiPrompt(prompt, c1) == ApiPrompt(prompt, c2)
    ensures c1 == c2
  {
    var p := ApiPrompt(prompt, c1);
    var hi := |p| - |PromptTail| - |prompt| - |PromptMiddle|;
    assert p[|PromptHead|..hi] == c1;
    assert ApiPrompt(prompt, c2)[|PromptHead|..hi] == c2;
  }

  /** For a fixed context the prompt determines the question. */
  lemma ApiPromptQuestion(q1: string, q2: string, context: string)
    requires ApiPrompt(q1, context) == ApiPrompt(q2, context)
    ensures q1 == q2
  {
    var p := ApiPrompt(q1, context);
    var lo := |PromptHead| + |context| + |PromptMiddle|;
    assert p[lo..|p| - |PromptTail|] == q1;
    assert ApiPrompt(q2, context)[lo..|p| - |PromptTail|] == q2;
  }

  /** The request `ask_ollama` sends for the default model. */
  function Request(prompt: string, context: string): (r: GenerateRequest)
    ensures r.url == OllamaApiUrl && r.model == DefaultModel && r.stream
    ensures r.prompt == ApiPrompt(prompt, context)
  {
    GenerateRequest(OllamaApiUrl, DefaultModel, ApiPrompt(prompt, context), true)
  }

  // ------------------------------------------------------- the streamed reply

  /** What one streamed line adds to the output: nothing for an empty line,
      a line that does not decode, or a record without `"response"`. */
  function LinePiece(line: string, decode: string -> Option<map<string, string>>): (piece: string)
    ensures line == "" || decode(line).None? || "response" !in decode(line).value ==> piece == ""
    ensures line != "" && decode(line).Some? && "response" in decode(line).value ==>
      piece == decode(line).value["response"]
  {
    if line == "" then ""
    else match decode(line)
      case None => ""
      case Some(obj) => if "response" in obj then obj["response"] else ""
  }

  /** The `"response"` fields of the lines, in stream order. */
  function StreamText(lines: seq<string>, decode: string -> Option<map<string, string>>): string
  {
    if |lines| == 0 then ""
    else StreamText(lines[..|lines| - 1], decode) + LinePiece(lines[|lines| - 1], decode)
  }

  lemma {:induction false} StreamTextAppend(a: seq<string>, b: seq<string>, decode: string -> Option<map<string, string>>)
    ensures StreamText(a + b, decode) == StreamText(a, decode) + StreamText(b, decode)
    decreases |b|
  {
    if |b| == 0 {
      assert a + b == a;
    } else {
      var n := |b|;
      calc {
        StreamText(a + b, decode);
      == { DropLastAppend(a, b); }
        StreamText(a + b[..n - 1], decode) + LinePiece(b[n - 1], decode);
      == { StreamTextAppend(a, b[..n - 1], decode); }
        StreamText(a, decode) + StreamText(b[..n - 1], decode) + LinePiece(b[n - 1], decode);
      }
    }
  }

  /** A line that adds nothing (empty, undecodable, or without
      `"response"`) can be dropped from the stream without changing the
      output. */
  lemma SkippedLine(lines: seq<string>, j: nat, decode: string -> Option<map<string, string>>)
    requires j < |lines|
    requires lines[j] == "" || decode(lines[j]).None? || "response" !in decode(lines[j]).value
    ensures StreamText(lines[..j] + lines[j + 1..], decode) == StreamText(lines, decode)
  {
    SplitAround(lines, j);
    StreamSingle(lines[j], decode);
    SkipMiddle(lines[..j], lines[j], lines[j + 1..], decode);
  }

  lemma StreamSingle(line: string, decode: string -> Option<map<string, string>>)
    ensures StreamText([line], decode) == LinePiece(line, decode)
  {
    assert [line][..0] == [];
  }

  lemma SkipMiddle(a: seq<string>, line: string, b: seq<string>, decode: string -> Option<map<string, string>>)
    requires StreamText([line], decode) == ""
    ensures StreamText(a + ([line] + b), decode) == StreamText(a + b, decode)
  {
    calc {
      StreamText(a + ([line] + b), decode);
    == { StreamTextAppend(a, [line] + b, decode); }
      StreamText(a, decode) + StreamText([line] + b, decode);
    == { StreamTextAppend([line], b, decode); }
      StreamText(a, decode) + StreamText(b, decode);
    == { StreamTextAppend(a, b, decode); }
      StreamText(a + b, decode);
    }
  }

  /** The output is as long as the `"response"` fields added together. */
  lemma {:induction false} StreamTextLength(lines: seq<string>, decode: string -> Option<map<string, string>>)
    ensures |StreamText(lines, decode)| ==
      TotalLength(seq(|lines|, i requires 0 <= i < |lines| => LinePiece(lines[i], decode)))
    decreases |lines|
  {
    if |lines| > 0 {
      var n := |lines|;
      StreamTextLength(lines[..n - 1], decode);
      var pieces := seq(n, i requires 0 <= i < n => LinePiece(lines[i], decode));
      assert pieces[..n - 1] == seq(n - 1, i requires 0 <= i < n - 1 => LinePiece(lines[..n - 1][i], decode));
    }
  }

  /** `ask_ollama`: the streamed `"response"` fields, in order, with white
      space stripped at both ends; `None` when the POST raises. */
  method AskOllama(prompt: string, context: string, post: GenerateRequest -> Option<seq<string>>,
                   decode: string -> Option<map<string, string>>)
    returns (answer: Option<string>)
    ensures post(Request(prompt, context)).None? ==> answer.None?
    ensures post(Request(prompt, context)).Some? ==>
      answer == Some(Strip(StreamText(post(Request(prompt, context)).value, decode)))
  {
    var response := post(Request(prompt, context));
    if response.None? {
      return None;
    }
    var lines := response.value;
    var output := "";
    for i := 0 to |lines|
      invariant output == StreamText(lines[..i], decode)
    {
      var line := lines[i];
      assert lines[..i + 1][..i] == lines[..i];
      if line != "" {
        var data := line;
        var obj := decode(data);
        if obj.Some? && "response" in obj.value {
          output := output + obj.value["response"];
        }
      }
    }
    assert lines[..|lines|] == lines;
    answer := Some(Strip(output));
  }

  // ----------------------------------------------------------- PDF and route

  /** `extract_text_from_pdf` on the page texts: every page followed by a
      newline, none skipped, so one newline per page is added. */
  method ExtractTextFromPdf(pages: seq<string>) returns (text: string)
    ensures text == Lines(pages)
    ensures |text| == TotalLength(pages) + |pages|
  {
    text := "";
    for i := 0 to |pages|
      invariant text == Lines(pages[..i])
    {
      assert pages[..i + 1][..i] == pages[..i];
      text := text + pages[i] + "\n";
    }
    assert pages[..|pages|] == pages;
    LinesLength(pages);
  }

  /** The JSON object the route returns. */
  datatype QaReply = QaReply(question: string, answer: string)

  /** `upload_pdf`: the question echoed and the model's answer with the PDF's
      text as context; `None` is an error response, when the file is not a
      readable PDF or the POST raises. */
  method UploadPdf(question: string, pdf: Option<seq<string>>, post: GenerateRequest -> Option<seq<string>>,
                   decode: string -> Option<map<string, string>>)
    returns (reply: Option<QaReply>)
    ensures pdf.None? ==> reply.None?
    ensures pdf.Some? ==>
      var r := post(Request(question, Lines(pdf.value)));
      (r.None? ==> reply.None?)
      && (r.Some? ==> reply == Some(QaReply(question, Strip(StreamText(r.value, decode)))))
  {
    if pdf.None? {
      return None;
    }
    var pdfText := ExtractTextFromPdf(pdf.value);
    var answer := AskOllama(question, pdfText, post, decode);
    if answer.None? {
      return None;
    }
    reply := Some(QaReply(question, answer.value));
  }

  // ----------------------------------------------- decoding as it is written

  /** `json.loads` as the module is written: `json` is never imported, so
      every call raises `NameError`, which the `except` swallows. */
  function AsWrittenDecode(data: string): (obj: Option<map<string, string>>)
    ensures obj.None?
  {
    None
  }

  /** As written, no streamed line ever contributes: the output is empty
      whatever the model sends. */
  lemma {:induction false} AsWrittenStreamIsEmpty(lines: seq<string>)
    ensures StreamText(lines, AsWrittenDecode) == ""
    decreases |lines|
  {
    if |lines| > 0 {
      AsWrittenStreamIsEmpty(lines[..|lines| - 1]);
      assert LinePiece(lines[|lines| - 1], AsWrittenDecode) == "";
    }
  }

  /** The line `{"response": "hi"}` gives `"hi"` when it is decoded, and
      nothing as written. */
  lemma AsWrittenLosesResponse()
    ensures var line := "{\"response\": \"hi\"}";
      var decode := (s: string) => if s == line then Some(map["response" := "hi"]) else None;
      StreamText([line], decode) == "hi" && StreamText([line], AsWrittenDecode) == ""
  {
    var line := "{\"response\": \"hi\"}";
    var decode := (s: string) => if s == line then Some(map["response" := "hi"]) else None;
    assert [line][..0] == [];
    assert LinePiece(line, decode) == "hi";
  }
}
