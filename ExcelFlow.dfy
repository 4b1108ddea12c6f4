/** The Excel action flow: for each company of the input sheet, look up a
    Wikipedia summary, ask the local model for the company's address, and
    on the operator's "y" append one row to the output workbook.

    `ollama run` is the parameter `ollama` (its completed process, `None`
    when starting it raises), the Wikipedia request is the parameter `get`,
    and the workbook's read and write outcomes are booleans; in the loop all
    three are given per company by a `World`. The input sheet is given as
    its columns, and the console as the lines the operator types (running
    out of lines is end of input). */
module ExcelFlow {
  import opened Wrappers
  import opened Text

  // ------------------------------------------------------------- model call

  /** The part of `subprocess.run`'s result the script reads. */
  datatype Completed = Completed(returncode: int, stdout: string)

  const LlmFailed := "LLM execution failed."

  /** `call_llama`. */
  function CallLlama(prompt: string, ollama: string -> Option<Completed>): Option<string>
  {
    match ollama(prompt)
    case None => None
    case Some(result) => if result.returncode != 0 then Some(LlmFailed) else Some(Strip(result.stdout))
  }

  /** A non-zero exit code gives exactly the fallback text; exit code 0
      gives the standard output with the white space at both ends removed
      and nothing else; an exception starting the process propagates. */
  lemma CallLlamaSpec(prompt: string, ollama: string -> Option<Completed>)
    ensures ollama(prompt).None? <==> CallLlama(prompt, ollama).None?
    ensures ollama(prompt).Some? && ollama(prompt).value.returncode != 0 ==> CallLlama(prompt, ollama) == Some(LlmFailed)
    ensures ollama(prompt).Some? && ollama(prompt).value.returncode == 0 ==>
      var out, reply := ollama(prompt).value.stdout, CallLlama(prompt, ollama);
      reply.Some?
      && (exists i, j :: (0 <= i <= j <= |out| && reply.value == out[i..j] && AllSpace(out[..i]) && AllSpace(out[j..])))
      && (reply.value != [] ==> !IsSpace(reply.value[0]) && !IsSpace(reply.value[|reply.value| - 1]))
  {
    if ollama(prompt).Some? {
      StripTrims(ollama(prompt).value.stdout);
    }
  }

  // ------------------------------------------------------ Wikipedia summary

  /** `company.replace(" ", "_")`: the title has the name's length, has no
      spaces left, puts `_` where the name had a space and keeps every other
      character. */
  function Title(company: string): (t: string)
    ensures |t| == |company|
    ensures ' ' !in t
    ensures forall i :: 0 <= i < |company| ==>
      (company[i] == ' ' ==> t[i] == '_') && (company[i] != ' ' ==> t[i] == company[i])
  {
    seq(|company|, i requires 0 <= i < |company| => if company[i] == ' ' then '_' else company[i])
  }

  /** The inverse replacement, `title.replace("_", " ")`. */
  function Untitle(title: string): string
  {
    seq(|title|, i requires 0 <= i < |title| => if title[i] == '_' then ' ' else title[i])
  }

  /** A name without underscores is recovered from its title. */
  lemma TitleRoundTrip(company: string)
    requires '_' !in company
    ensures Untitle(Title(company)) == company
  {
    var t := Title(company);
    forall i | 0 <= i < |company| ensures Untitle(t)[i] == company[i] {
      assert company[i] != '_';
    }
  }

  const WikiPrefix := "https://en.wikipedia.org/api/rest_v1/page/summary/"

  /** The summary URL. */
  function WikiUrl(company: string): string
  {
    WikiPrefix + Title(company)
  }

  /** The summary URL is the fixed prefix followed by the title. */
  lemma WikiUrlSpec(company: string)
    ensures |WikiUrl(company)| == |WikiPrefix| + |company|
    ensures WikiUrl(company)[..|WikiPrefix|] == WikiPrefix && WikiUrl(company)[|WikiPrefix|..] == Title(company)
  {
  }

  /** The outcome of the GET and of `r.json()`: an exception, or a status
      code and the decoded object (`None` when the body does not decode). */
  datatype HttpReply = Raised | Reply(status: int, json: Option<map<string, string>>)

  /** `fetch_public_info`. */
  function FetchPublicInfo(company: string, get: string -> HttpReply): string
  {
    match get(WikiUrl(company))
    case Raised => ""
    case Reply(status, json) =>
      if status != 200 then ""
      else match json
        case None => ""
        case Some(obj) => if "extract" in obj then obj["extract"] else ""
  }

  /** The public text is the `"extract"` field of a 200 reply to the
      summary URL of the company; every other outcome, exceptions included,
      is `""`. */
  lemma FetchPublicInfoSpec(company: string, get: string -> HttpReply)
    ensures var reply, info := get(WikiUrl(company)), FetchPublicInfo(company, get);
      ((reply.Raised? || reply.status != 200 || reply.json.None? || "extract" !in reply.json.value) ==> info == "")
      && ((reply.Reply? && reply.status == 200 && reply.json.Some? && "extract" in reply.json.value) ==>
        info == reply.json.value["extract"])
  {
  }

  // ------------------------------------------------------- address discovery

  const Hint := "All these companies are located in Chakan MIDC area of Pune, India"

  const AddressHead := "\nYou are a business intelligence assistant.\n\nCompany Name: "
  const AddressMiddle :=
    "\nHint: " + Hint + "\n\nBased on the information below and your general knowledge:\n"
    + "1. Identify the company address or location\n"
    + "2. Mention industrial area, city, state if known\n"
    + "3. If exact address is not available, provide best inferred location\n\n"
    + "Public Information:\n"
  const AddressTail := "\n\nRespond clearly in plain text.\n"

  /** The prompt of `find_company_address`. */
  function AddressPrompt(company: string, publicText: string): string
  {
    AddressHead + company + AddressMiddle + publicText + AddressTail
  }

  /** For a fixed company the prompt determines the public text. */
  lemma AddressPromptText(company: string, t1: string, t2: string)
    requires AddressPrompt(company, t1) == AddressPrompt(company, t2)
    ensures t1 == t2
  {
    var p := AddressPrompt(company, t1);
    var lo := |AddressHead| + |company| + |AddressMiddle|;
    assert p[lo..|p| - |AddressTail|] == t1;
    assert AddressPrompt(company, t2)[lo..|p| - |AddressTail|] == t2;
  }

  /** For a fixed public text the prompt determines the company. */
  lemma AddressPromptCompany(c1: string, c2: string, publicText: string)
    requires AddressPrompt(c1, publicText) == AddressPrompt(c2, publicText)
    ensures c1 == c2
  {
    var p := AddressPrompt(c1, publicText);
    var hi := |p| - |AddressTail| - |publicText| - |AddressMiddle|;
    assert p[|AddressHead|..hi] == c1;
    assert AddressPrompt(c2, publicText)[|AddressHead|..hi] == c2;
  }

  /** `find_company_address` */
  function FindCompanyAddress(company: string, publicText: string, ollama: string -> Option<Completed>): Option<string>
  {
    CallLlama(AddressPrompt(company, publicText), ollama)
  }

  /** The address is the model's reply to the address prompt for this
      company and public text: no address exactly when starting the process
      raises, the fallback text on a non-zero exit code, and otherwise the
      standard output with the white space at both ends removed. */
  lemma FindCompanyAddressSpec(company: string, publicText: string, ollama: string -> Option<Completed>)
    ensures var reply, address := ollama(AddressPrompt(company, publicText)), FindCompanyAddress(company, publicText, ollama);
      (address.None? <==> reply.None?)
      && (reply.Some? && reply.value.returncode != 0 ==> address == Some(LlmFailed))
      && (reply.Some? && reply.value.returncode == 0 ==> address == Some(Strip(reply.value.stdout)))
  {
  }

  // ------------------------------------------------------------ input sheet

  /** A cell of the `Company Name` column; `Blank` stands for NaN/None. */
  datatype Cell = Blank | Value(text: string)

  /** `dropna()`: the present values, in row order. */
  function DropMissing(cells: seq<Cell>): seq<string>
  {
    if |cells| == 0 then []
    else
      var rest := DropMissing(cells[..|cells| - 1]);
      match cells[|cells| - 1]
      case Blank => rest
      case Value(v) => rest + [v]
  }

  /** Order is kept: removing the blanks from `a + b` lists the names of
      `a` before those of `b`. */
  lemma {:induction false} DropMissingAppend(a: seq<Cell>, b: seq<Cell>)
    ensures DropMissing(a + b) == DropMissing(a) + DropMissing(b)
    decreases |b|
  {
    if |b| == 0 {
      assert a + b == a;
    } else {
      DropLastAppend(a, b);
      DropMissingAppend(a, b[..|b| - 1]);
    }
  }

  /** Exactly the present values survive, and none is invented. */
  lemma {:induction false} DropMissingMembers(cells: seq<Cell>, v: string)
    ensures v in DropMissing(cells) <==> Value(v) in cells
    ensures |DropMissing(cells)| <= |cells|
    decreases |cells|
  {
    if |cells| > 0 {
      var front := cells[..|cells| - 1];
      DropMissingMembers(front, v);
      assert cells == front + [cells[|cells| - 1]];
    }
  }

  /** A column without blanks loses nothing. */
  lemma {:induction false} DropMissingNoBlanks(cells: seq<Cell>)
    requires forall i :: 0 <= i < |cells| ==> cells[i].Value?
    ensures DropMissing(cells) == seq(|cells|, i requires 0 <= i < |cells| => cells[i].text)
    decreases |cells|
  {
    if |cells| > 0 {
      DropMissingNoBlanks(cells[..|cells| - 1]);
    }
  }

  /** What `load_companies` ends in. */
  datatype Loaded = Companies(names: seq<string>) | Exit(status: int)

  const CompanyColumn := "Company Name"

  /** `load_companies`: exit status 1 without a `Company Name` column,
      otherwise that column without its blanks. */
  function LoadCompanies(columns: map<string, seq<Cell>>): (loaded: Loaded)
    ensures CompanyColumn !in columns <==> loaded == Exit(1)
    ensures CompanyColumn in columns ==> loaded == Companies(DropMissing(columns[CompanyColumn]))
  {
    if CompanyColumn !in columns then Exit(1) else Companies(DropMissing(columns[CompanyColumn]))
  }

  // ---------------------------------------------------------- output sheet

  /** One row of the output sheet: company, address, remarks. */
  datatype Row = Row(company: string, address: string, remarks: string)

  /** The output workbook on disk: whether the file exists, and its rows
      below the header. */
  class OutputWorkbook {
    var present: bool
    var rows: seq<Row>

    /** The workbook as found before the run. */
    constructor(present: bool, rows: seq<Row>)
      ensures this.present == present && this.rows == rows
    {
      this.present := present;
      this.rows := rows;
    }

    /** `init_output_excel`: create an empty sheet when the file is missing;
        an existing file is left alone. `written` says whether `to_excel`
        can create the file; when it raises, `ok` is false and nothing
        changes. */
    method Init(written: bool) returns (ok: bool)
      modifies this
      ensures ok == (old(present) || written)
      ensures present == ok
      ensures rows == if !old(present) && written then [] else old(rows)
    {
      ok := true;
      if !present {
        if written {
          present := true;
          rows := [];
        } else {
          ok := false;
        }
      }
    }

    /** `append_to_excel`: read the sheet, add one row at its end, write it
        back. `written` says whether `read_excel` and `to_excel` go through
        on an existing file. Reading a missing file raises, and so does a
        failing read or write: then `ok` is false and nothing changes. */
    method Append(company: string, address: string, remarks: string, written: bool) returns (ok: bool)
      modifies this
      ensures ok == (old(present) && written) && present == old(present)
      ensures ok ==> rows == old(rows) + [Row(company, address, remarks)]
      ensures !ok ==> rows == old(rows)
    {
      ok := present && written;
      if ok {
        rows := rows + [Row(company, address, remarks)];
      }
    }
  }


  // ---------------------------------------------------------------- answers

  /** `input(...).strip().lower()` */
  function Answer(line: string): string
  {
    Lower(Strip(line))
  }

  /** `choice in ("y", "yes")` */
  predicate IsYes(line: string)
  {
    Answer(line) == "y" || Answer(line) == "yes"
  }

  const YesSpellings: set<string> := {"y", "Y", "yes", "yeS", "yEs", "yES", "Yes", "YeS", "YEs", "YES"}

  lemma LowerIsY(t: string)
    ensures Lower(t) == "y" <==> t == "y" || t == "Y"
  {
    if Lower(t) == "y" {
      assert t[0] == 'y' || t[0] == 'Y';
      assert t == [t[0]];
    }
  }

  lemma LowerIsYes(t: string)
    ensures Lower(t) == "yes" <==> t in {"yes", "yeS", "yEs", "yES", "Yes", "YeS", "YEs", "YES"}
  {
    if Lower(t) == "yes" {
      assert t[0] == 'y' || t[0] == 'Y';
      assert t[1] == 'e' || t[1] == 'E';
      assert t[2] == 's' || t[2] == 'S';
      assert t == [t[0], t[1], t[2]];
    }
  }

  /** An answer is a yes exactly when, white space at both ends aside, it
      is `y` or `yes` in any mix of case. */
  lemma YesSpellingsIff(line: string)
    ensures IsYes(line) <==> Strip(line) in YesSpellings
  {
    LowerIsY(Strip(line));
    LowerIsYes(Strip(line));
  }

  // -------------------------------------------------------------- the flow

  /** How the loop over the companies ends: the operator declined to go on,
      every company was visited, or input ended at the continue prompt and the
      uncaught end-of-file error ended the program. */
  datatype Ending = Stopped | Exhausted | Crashed

  /** The rows a run saves, how many companies it showed, and how it ended. */
  datatype FlowEnd = FlowEnd(saved: seq<Row>, visited: nat, ending: Ending)

  /** What the outside world does while company `k` of the list (counted
      from 0) is processed: the Wikipedia reply to each URL, the completed
      `ollama run` for each prompt, and whether `append_to_excel` can read
      and write the workbook. Every company starts a fresh `ollama run`, so
      a name listed twice can get two different addresses. */
  datatype World = World(get: nat -> string -> HttpReply, ollama: nat -> string -> Option<Completed>,
                         writes: nat -> bool)

  /** The address the model gives for company `k`, if the call succeeds. */
  function AddressOf(company: string, k: nat, world: World): Option<string>
  {
    FindCompanyAddress(company, FetchPublicInfo(company, world.get(k)), world.ollama(k))
  }

  /** What the `try` does for one company, console aside: the company, the
      model's address (`None` when the call raised) and whether the workbook
      write goes through. */
  datatype Attempt = Attempt(company: string, address: Option<string>, written: bool)

  /** The attempt for company `k`. */
  function AttemptOf(companies: seq<string>, k: nat, world: World): Attempt
    requires k < |companies|
  {
    Attempt(companies[k], AddressOf(companies[k], k, world), world.writes(k))
  }

  /** The attempts for all companies of the list, in order. */
  function Attempts(companies: seq<string>, world: World): (attempts: seq<Attempt>)
    ensures |attempts| == |companies|
    ensures forall k :: 0 <= k < |companies| ==> attempts[k] == AttemptOf(companies, k, world)
  {
    seq(|companies|, k requires 0 <= k < |companies| => AttemptOf(companies, k, world))
  }

  /** Which console lines are a yes: both prompts of the loop apply the
      same `strip().lower() in ("y", "yes")` test, so the loop depends on the
      lines only through these answers. */
  function YesAnswers(lines: seq<string>): (answers: seq<bool>)
    ensures |answers| == |lines|
    ensures forall i :: 0 <= i < |lines| ==> answers[i] == IsYes(lines[i])
  {
    seq(|lines|, i requires 0 <= i < |lines| => IsYes(lines[i]))
  }

  lemma YesAnswersTail(lines: seq<string>)
    requires |lines| > 0
    ensures YesAnswers(lines[1..]) == YesAnswers(lines)[1..]
  {
  }

  /** The body of the `try` for one company: the row it saves, if any, and
      the answers left for the continue prompt. */
  function CompanyStep(a: Attempt, answers: seq<bool>): (Option<Row>, seq<bool>)
  {
    match a.address
    case None => (None, answers)
    case Some(address) =>
      if |answers| == 0 then (None, answers)
      else if answers[0] && a.written then (Some(Row(a.company, address, "")), answers[1..])
      else (None, answers[1..])
  }

  /** A row is saved exactly when the model call succeeds, the save answer
      is a yes and the workbook write goes through; the row holds the
      company, the model's address and empty remarks. A failed model call
      raises before the save prompt and consumes no input; end of input at
      the save prompt and a failed write raise too; all are caught and save
      nothing. After end of input at the save prompt no answer is left, so
      the continue prompt meets end of input as well. */
  lemma CompanyStepSpec(a: Attempt, answers: seq<bool>)
    ensures var step := CompanyStep(a, answers);
      (step.0.Some? <==> a.address.Some? && |answers| > 0 && answers[0] && a.written)
      && (step.0.Some? ==> step.0.value == Row(a.company, a.address.value, ""))
      && (a.address.None? ==> step.1 == answers)
      && (a.address.Some? && |answers| > 0 ==> step.1 == answers[1..])
      && (a.address.Some? && |answers| == 0 ==> step.1 == [])
  {
  }

  function RowsOf(row: Option<Row>): seq<Row>
  {
    if row.Some? then [row.value] else []
  }

  /** Put the rows and the count of one more company in front of a run. */
  function Prepend(rows: seq<Row>, visited: nat, rest: FlowEnd): FlowEnd
  {
    FlowEnd(rows + rest.saved, visited + rest.visited, rest.ending)
  }

  /** The loop of `run_actionflow` over the attempts and the answers. */
  function Run(attempts: seq<Attempt>, answers: seq<bool>): FlowEnd
    decreases |attempts|
  {
    if |attempts| == 0 then FlowEnd([], 0, Exhausted)
    else
      var step := CompanyStep(attempts[0], answers);
      var rows := RowsOf(step.0);
      var rest := step.1;
      if |rest| == 0 then FlowEnd(rows, 1, Crashed)
      else if !rest[0] then FlowEnd(rows, 1, Stopped)
      else Prepend(rows, 1, Run(attempts[1..], rest[1..]))
  }

  /** The loop of `run_actionflow` over the companies and the console lines. */
  function Flow(companies: seq<string>, world: World, lines: seq<string>): FlowEnd
  {
    Run(Attempts(companies, world), YesAnswers(lines))
  }

  /** Every company shown is counted once, at most one row is saved per
      company shown, and a run that was not stopped or cut short has shown
      every company. */
  lemma {:induction false} RunBounds(attempts: seq<Attempt>, answers: seq<bool>)
    ensures var f := Run(attempts, answers);
      |f.saved| <= f.visited <= |attempts|
      && (attempts != [] ==> f.visited >= 1)
      && (f.ending == Exhausted ==> f.visited == |attempts|)
      && (f.ending != Exhausted ==> f.visited >= 1)
    decreases |attempts|
  {
    if |attempts| > 0 {
      var rest := CompanyStep(attempts[0], answers).1;
      if |rest| > 0 && rest[0] {
        RunBounds(attempts[1..], rest[1..]);
      }
    }
  }

  /** The same bounds for the companies of the sheet. */
  lemma FlowBounds(companies: seq<string>, world: World, lines: seq<string>)
    ensures var f := Flow(companies, world, lines);
      |f.saved| <= f.visited <= |companies|
      && (companies != [] ==> f.visited >= 1)
      && (f.ending == Exhausted ==> f.visited == |companies|)
      && (f.ending != Exhausted ==> f.visited >= 1)
  {
    RunBounds(Attempts(companies, world), YesAnswers(lines));
  }

  /** The run one company further: it goes on after a yes at the continue
      prompt, and otherwise ends with that company's row, if any. */
  lemma RunCons(attempts: seq<Attempt>, answers: seq<bool>)
    requires |attempts| > 0
    ensures var step := CompanyStep(attempts[0], answers);
      var f := Run(attempts, answers);
      if |step.1| > 0 && step.1[0] then
        f == Prepend(RowsOf(step.0), 1, Run(attempts[1..], step.1[1..]))
      else
        f.saved == RowsOf(step.0) && f.visited == 1
  {
  }

  /** Row `n` of a run is saved by attempt `j`, one of those shown: the
      attempt had an address and its write went through. */
  lemma {:induction false} SavedIndex(attempts: seq<Attempt>, answers: seq<bool>, n: nat) returns (j: nat)
    requires n < |Run(attempts, answers).saved|
    ensures j < Run(attempts, answers).visited && j < |attempts|
    ensures attempts[j].address.Some? && attempts[j].written
    ensures Run(attempts, answers).saved[n] == Row(attempts[j].company, attempts[j].address.value, "")
    decreases |attempts|
  {
    var step := CompanyStep(attempts[0], answers);
    var rows := RowsOf(step.0);
    RunCons(attempts, answers);
    RunBounds(attempts, answers);
    if n < |rows| {
      CompanyStepSpec(attempts[0], answers);
      j := 0;
    } else {
      var rest := step.1[1..];
      var i := SavedIndex(attempts[1..], rest, n - |rows|);
      assert Run(attempts, answers).saved[n] == Run(attempts[1..], rest).saved[n - |rows|];
      j := i + 1;
    }
  }

  /** Every saved row is the row of one of the companies shown, with the
      model's address from that company's own call, a write that went
      through, and empty remarks. */
  lemma FlowSavedRows(companies: seq<string>, world: World, lines: seq<string>, n: nat)
    requires n < |Flow(companies, world, lines).saved|
    ensures exists j :: (0 <= j < Flow(companies, world, lines).visited && j < |companies|
      && AddressOf(companies[j], j, world).Some? && world.writes(j)
      && Flow(companies, world, lines).saved[n] == Row(companies[j], AddressOf(companies[j], j, world).value, ""))
  {
    var attempts := Attempts(companies, world);
    var j := SavedIndex(attempts, YesAnswers(lines), n);
    assert attempts[j] == AttemptOf(companies, j, world);
  }

  /** A company whose model call fails is reported and the loop still asks
      whether to go on: with a yes it proceeds to the next company, having
      consumed only that answer. */
  lemma ErrorDoesNotStop(attempts: seq<Attempt>, answers: seq<bool>)
    requires |attempts| > 0 && attempts[0].address.None?
    requires |answers| > 0 && answers[0]
    ensures Run(attempts, answers) == Prepend([], 1, Run(attempts[1..], answers[1..]))
  {
    assert CompanyStep(attempts[0], answers) == (None, answers);
  }

  /** A write that fails is reported like any other error: nothing is saved
      for that company and, with a yes at the continue prompt, the run goes
      on to the next one. */
  lemma WriteErrorDoesNotStop(attempts: seq<Attempt>, answers: seq<bool>)
    requires |attempts| > 0 && attempts[0].address.Some? && !attempts[0].written
    requires |answers| > 1 && answers[1]
    ensures Run(attempts, answers) == Prepend([], 1, Run(attempts[1..], answers[2..]))
  {
    assert CompanyStep(attempts[0], answers) == (None, answers[1..]);
    assert answers[1..][1..] == answers[2..];
  }

  /** What is left of the run after `i` companies, one company further. */
  lemma RunAt(attempts: seq<Attempt>, i: nat, answers: seq<bool>)
    requires i < |attempts|
    ensures var step := CompanyStep(attempts[i], answers);
      var rows, rest := RowsOf(step.0), step.1;
      Run(attempts[i..], answers) ==
        if |rest| == 0 then FlowEnd(rows, 1, Crashed)
        else if !rest[0] then FlowEnd(rows, 1, Stopped)
        else Prepend(rows, 1, Run(attempts[i + 1..], rest[1..]))
  {
    assert attempts[i..][0] == attempts[i];
    assert attempts[i..][1..] == attempts[i + 1..];
  }

  /** Appending rows is associative. */
  lemma AppendRows(a: seq<Row>, b: seq<Row>, c: seq<Row>)
    ensures (a + b) + c == a + (b + c)
  {
  }

  lemma PrependTwice(a: seq<Row>, n: nat, b: seq<Row>, m: nat, rest: FlowEnd)
    ensures Prepend(a, n, Prepend(b, m, rest)) == Prepend(a + b, n + m, rest)
  {
    assert (a + b) + rest.saved == a + (b + rest.saved);
  }

  /** The `try` block for company `k`, on a workbook that exists;
      `attempt` is the attempt at that company. It appends the row the step
      saves and returns the input lines left for the continue prompt,
      which are those the step leaves. */
  method ProcessCompany(book: OutputWorkbook, companies: seq<string>, k: nat, world: World, input: seq<string>,
                        ghost attempt: Attempt)
    returns (rest: seq<string>)
    requires k < |companies| && book.present
    requires attempt == AttemptOf(companies, k, world)
    modifies book
    ensures book.present
    ensures book.rows == old(book.rows) + RowsOf(CompanyStep(attempt, YesAnswers(input)).0)
    ensures rest == if attempt.address.Some? && |input| > 0 then input[1..] else input
    ensures YesAnswers(rest) == CompanyStep(attempt, YesAnswers(input)).1
  {
    var company := companies[k];
    rest := input;
    var publicInfo := FetchPublicInfo(company, world.get(k));
    var addressInfo := FindCompanyAddress(company, publicInfo, world.ollama(k));
    if addressInfo.Some? {
      if |rest| > 0 {
        var choice := rest[0];
        rest := rest[1..];
        YesAnswersTail(input);
        if IsYes(choice) {
          var ok := book.Append(company, addressInfo.value, "", world.writes(k));
        }
      }
    }
  }

  /** The `for` loop of `run_actionflow`, on a workbook that exists;
      `attempts` are the attempts at the companies in `world`. The loop
      saves and visits what `Run` does over them and the console answers,
      and ends as it does. */
  method ProcessCompanies(book: OutputWorkbook, companies: seq<string>, world: World, lines: seq<string>,
                          ghost attempts: seq<Attempt>)
    returns (visited: nat, ending: Ending)
    requires book.present
    requires |attempts| == |companies|
    requires forall k :: 0 <= k < |companies| ==> attempts[k] == AttemptOf(companies, k, world)
    modifies book
    ensures book.present
    ensures book.rows == old(book.rows) + Run(attempts, YesAnswers(lines)).saved
    ensures visited == Run(attempts, YesAnswers(lines)).visited
    ensures ending == Run(attempts, YesAnswers(lines)).ending
  {
    ghost var run := Run(attempts, YesAnswers(lines));
    ghost var saved: seq<Row> := [];
    var input := lines;
    var i := 0;
    visited, ending := 0, Exhausted;
    while i < |companies|
      invariant 0 <= i <= |companies| == |attempts| && visited == i
      invariant book.present
      invariant book.rows == old(book.rows) + saved
      invariant run == Prepend(saved, i, Run(attempts[i..], YesAnswers(input)))
    {
      ghost var step := CompanyStep(attempts[i], YesAnswers(input));
      RunAt(attempts, i, YesAnswers(input));
      ghost var before := saved;
      input := ProcessCompany(book, companies, i, world, input, attempts[i]);
      AppendRows(old(book.rows), saved, RowsOf(step.0));
      saved := saved + RowsOf(step.0);
      visited := i + 1;
      if |input| == 0 {
        assert run == FlowEnd(saved, i + 1, Crashed);
        ending := Crashed;
        return;
      }
      var cont := input[0];
      YesAnswersTail(input);
      input := input[1..];
      if !IsYes(cont) {
        assert run == FlowEnd(saved, i + 1, Stopped);
        ending := Stopped;
        return;
      }
      PrependTwice(before, i, RowsOf(step.0), 1, Run(attempts[i + 1..], YesAnswers(input)));
      i := i + 1;
    }
    assert attempts[i..] == [];
    assert run == FlowEnd(saved, i, Exhausted);
  }

  /** What the program ends in: `sys.exit(1)`, an exception from
      `init_output_excel`, or the end of the loop. */
  datatype Outcome = Exited(status: int) | InitRaised | Ran(visited: nat, ending: Ending)

  /** `run_actionflow`; `created` says whether `init_output_excel` can write
      a missing workbook. */
  method RunActionflow(book: OutputWorkbook, columns: map<string, seq<Cell>>, created: bool, world: World,
                       lines: seq<string>)
    returns (outcome: Outcome)
    modifies book
    ensures CompanyColumn !in columns ==>
      outcome == Exited(1) && book.present == old(book.present) && book.rows == old(book.rows)
    ensures CompanyColumn in columns && !old(book.present) && !created ==>
      outcome == InitRaised && !book.present && book.rows == old(book.rows)
    ensures CompanyColumn in columns && (old(book.present) || created) ==>
      var f := Flow(DropMissing(columns[CompanyColumn]), world, lines);
      book.present
      && book.rows == (if old(book.present) then old(book.rows) else []) + f.saved
      && outcome == Ran(f.visited, f.ending)
  {
    var loaded := LoadCompanies(columns);
    if loaded.Exit? {
      return Exited(loaded.status);
    }
    var ok := book.Init(created);
    if !ok {
      return InitRaised;
    }
    var visited, ending := ProcessCompanies(book, loaded.names, world, lines, Attempts(loaded.names, world));
    outcome := Ran(visited, ending);
  }
}
