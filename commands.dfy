/**
  The tools the agent may call. Each one shapes its single string input into
  an AppleScript text, submits at most one script to the interpreter and
  ends with a returned string or a raised failure. A tool is a function from
  the interpreter and its input to an `Effect`, so what it submits is as
  visible as what it returns.
 */
module Commands {
  import opened Wrappers
  import opened Text
  import opened Numerals
  import opened Osascript

  // ---------------------------------------------------------------------
  // Fixed texts

  const FileSearchDone := "file name search completed"
  const LinesSelected := "lines have been selected"
  const ForegroundDone := "vs code is now in the foreground"
  const InvalidRange := "Invalid input format. Please use 'start_line:end_line'."
  const NotJavascript := "Invalid command, not javascript"

  /** The JavaScript guard: escaped text with this prefix is refused. */
  const OpenPrefix := "open "

  /** The three page-reading tools cut their result to this many characters. */
  const ResultCap: nat := 4000

  const LinksJavascript :=
    "Array.from("
    + "document.querySelectorAll(\"a\"))"
    + ".map(x => x.innerText + \": \" + x.href)"
    + ".join(\" - \")"
  const ReadPageJavascript := "document.body.innerText"

  const NavigateLead := "window.location.href = "

  /** The JavaScript `chrome_click_on_link` runs: navigate the tab to `link`. */
  function ClickJavascript(link: string): string
  {
    NavigateLead + "\"" + link + "\""
  }

  // ---------------------------------------------------------------------
  // Script templates; each is the f-string of its tool with its fields filled in

  const FileSearchHead :=
    "\n"
    + "    tell application \"System Events\"\n"
    + "        tell process \"Code\"\n"
    + "            delay 0.5\n"
    + "            key code 35 using {command down} -- Press Command+P\n"
    + "            delay 0.1\n"
    + "            keystroke \""
  const FileSearchTail :=
    "\" -- Type the file name\n"
    + "            delay 0.1\n"
    + "            key code 36 -- Press Enter key\n"
    + "        end tell\n"
    + "    end tell\n"
    + "    "

  function FileSearchScript(fileNameSafe: string): string
  {
    FileSearchHead + fileNameSafe + FileSearchTail
  }

  const SelectHead :=
    "\n"
    + "    tell application \"Visual Studio Code\"\n"
    + "        activate\n"
    + "    end tell\n"
    + "\n"
    + "    delay 0.5\n"
    + "\n"
    + "    tell application \"System Events\"\n"
    + "        tell process \"Code\"\n"
    + "            -- Open the 'Go to Line' dialog (Control+G in VS Code)\n"
    + "            keystroke \"g\" using {control down}\n"
    + "            delay 0.1\n"
    + "\n"
    + "            -- Type the starting line number\n"
    + "            keystroke ("
  const SelectMiddle := " " + SelectMiddleWords + " "
  const SelectMiddleWords :=
    "as string)\n"
    + "            delay 0.2\n"
    + "            keystroke return\n"
    + "            delay 0.2\n"
    + "\n"
    + "            -- Expand the selection downwards by the number of lines\n"
    + "            repeat"
  const SelectTail :=
    " times\n"
    + "                key code 125 using {shift down} -- Down Arrow with Shift\n"
    + "                delay 0.05\n"
    + "            end repeat\n"
    + "        end tell\n"
    + "    end tell\n"
    + "    "

  function SelectScript(startLine: int, linesToSelect: int): string
  {
    SelectHead + IntToString(startLine) + SelectMiddle + IntToString(linesToSelect) + SelectTail
  }

  const ForegroundScript :=
    "\n"
    + "    tell application \"Visual Studio Code\"\n"
    + "        activate\n"
    + "    end tell\n"
    + "    "

  const OpenUrlHead :=
    "\n"
    + "    tell application \"Google Chrome\"\n"
    + "        open location \""
  const OpenUrlTail :=
    "\"\n"
    + "    end tell\n"
    + "    "

  function OpenUrlScript(url: string): string
  {
    OpenUrlHead + url + OpenUrlTail
  }

  const JavascriptHead :=
    "\n"
    + "    tell application \"Google Chrome\"\n"
    + "        tell active tab of front window\n"
    + "            execute javascript \""
  const JavascriptTail :=
    "\"\n"
    + "        end tell\n"
    + "    end tell\n"
    + "    "

  function JavascriptScript(javascript: string): string
  {
    JavascriptHead + javascript + JavascriptTail
  }

  // ---------------------------------------------------------------------
  // Parsing "start_line:end_line"

  /**
    `start_line, end_line = map(int, input.split(":"))`: `None` where Python
    raises `ValueError`, that is, unless there are exactly two fields and both
    are integers.
   */
  function ParseRange(input: string): Option<(int, int)>
  {
    var fields := Split(input, ':');
    if |fields| != 2 then None
    else
      match (ParseInt(fields[0]), ParseInt(fields[1]))
      case (Some(startLine), Some(endLine)) => Some((startLine, endLine))
      case _ => None
  }

  /** Without exactly one `:` there are not exactly two fields, and the range is refused. */
  lemma ParseRangeNeedsOneColon(input: string)
    requires Count(':', input) != 1
    ensures ParseRange(input) == None
  {
    SplitCount(input, ':');
  }

  /** With exactly one `:`, the range is the two integers on either side of it, when both parse. */
  lemma ParseRangeOfFields(a: string, b: string)
    requires ':' !in a && ':' !in b
    ensures ParseRange(a + ":" + b).Some? <==> ParseInt(a).Some? && ParseInt(b).Some?
    ensures ParseRange(a + ":" + b).Some? ==> ParseRange(a + ":" + b).value == (ParseInt(a).value, ParseInt(b).value)
  {
    SplitAtSeparator(a, ':', b);
    SplitNoSeparator(a, ':');
    SplitNoSeparator(b, ':');
    assert a + ":" + b == a + [':'] + b;
  }

  /** Two rendered integers joined by `:` read back as that range, unless one has too many digits. */
  lemma ParseRangeRoundTrip(startLine: int, endLine: int)
    ensures ParseRange(IntToString(startLine) + ":" + IntToString(endLine))
      == if StrFits(startLine) && StrFits(endLine) then Some((startLine, endLine)) else None
  {
    IntToStringNoColon(startLine);
    IntToStringNoColon(endLine);
    ParseIntToString(startLine);
    ParseIntToString(endLine);
    ParseRangeOfFields(IntToString(startLine), IntToString(endLine));
  }

  /**
    Reads a line-selection script back: the line it goes to and how often it
    repeats the shift-down keystroke. These are the first and the last
    space-separated words between the template's head and tail.
   */
  function ReadSelection(script: string): Option<(int, int)>
  {
    match Between(script, SelectHead, SelectTail)
    case None => None
    case Some(inner) =>
      var words := Split(inner, ' ');
      match (ParseInt(words[0]), ParseInt(words[|words| - 1]))
      case (Some(startLine), Some(count)) => Some((startLine, count))
      case _ => None
  }

  /** The script reads back as the two numbers it was built from, when `str` can write both. */
  lemma ReadSelectScript(startLine: int, linesToSelect: int)
    requires StrFits(startLine) && StrFits(linesToSelect)
    ensures ReadSelection(SelectScript(startLine, linesToSelect)) == Some((startLine, linesToSelect))
  {
    var a := IntToString(startLine);
    var b := IntToString(linesToSelect);
    BetweenOf3(SelectHead, a, SelectMiddle, b, SelectTail);
    assert ' ' !in a && ' ' !in b;
    SplitEnclosed(a, ' ', SelectMiddleWords, b);
    ParseIntToString(startLine);
    ParseIntToString(linesToSelect);
  }

  // ---------------------------------------------------------------------
  // The tools

  /** `open_vs_code_file_by_name_search`: type the quote-escaped name into the Command+P box. */
  function OpenVsCodeFileByNameSearch(osascript: Interpreter, input: string): Effect
  {
    ThenReturn(RunApplescript(osascript, FileSearchScript(Escape(input))), FileSearchDone)
  }

  /**
    Both f-string fields of the line-selection script can be written: neither
    `start_line` nor `end_line - start_line` has more than `MaxStrDigits` digits.
   */
  predicate SelectionFits(range: (int, int))
  {
    StrFits(range.0) && StrFits(range.1 - range.0)
  }

  /**
    `select_lines_in_vs_code`: go to `start_line`, then extend the selection
    `end_line - start_line` times. A field `str` cannot write raises out of
    the f-string, outside the `try`, before anything is submitted.
   */
  function SelectLinesInVsCode(osascript: Interpreter, input: string): Effect
  {
    match ParseRange(input)
    case None => Effect([], Returned(InvalidRange))
    case Some((startLine, endLine)) =>
      if !SelectionFits((startLine, endLine)) then Effect([], Raised(StrDigitsError))
      else ThenReturn(RunApplescript(osascript, SelectScript(startLine, endLine - startLine)), LinesSelected)
  }

  /** `bring_vs_code_to_foreground`: its input is ignored. */
  function BringVsCodeToForeground(osascript: Interpreter, input: string): Effect
  {
    ThenReturn(RunApplescript(osascript, ForegroundScript), ForegroundDone)
  }

  /** `run_javascript`: escape the quotes, refuse text starting with `open `, else execute it in the active tab. */
  function RunJavascript(osascript: Interpreter, javascript: string): Effect
  {
    var escaped := Escape(javascript);
    if StartsWith(escaped, OpenPrefix) then Effect([], Returned(NotJavascript))
    else RunApplescript(osascript, JavascriptScript(escaped))
  }

  /** `result[:limit]` on a returned result; a raised failure passes through untouched. */
  function Capped(e: Effect, limit: nat): Effect
  {
    match e.outcome
    case Returned(v) => Effect(e.submitted, Returned(Truncate(v, limit)))
    case Raised(_) => e
  }

  function ChromeGetTheLinksOnThePage(osascript: Interpreter, input: string): Effect
  {
    Capped(RunJavascript(osascript, LinksJavascript), ResultCap)
  }

  function ChromeClickOnLink(osascript: Interpreter, link: string): Effect
  {
    Capped(RunJavascript(osascript, ClickJavascript(link)), ResultCap)
  }

  function ChromeReadThePage(osascript: Interpreter, input: string): Effect
  {
    Capped(RunJavascript(osascript, ReadPageJavascript), ResultCap)
  }

  /** `chrome_open_url`: the URL goes into the script as given, and the result is not capped. */
  function ChromeOpenUrl(osascript: Interpreter, url: string): Effect
  {
    RunApplescript(osascript, OpenUrlScript(url))
  }

  // ---------------------------------------------------------------------
  // What the tools promise

  /**
    The file-search tool submits one script whose `keystroke` literal holds
    the escaped name, from which the name is recovered exactly; the raw name
    is not what is typed when it holds a quote. It returns its message only
    if the interpreter succeeded.
   */
  lemma FileSearchTypesEscapedName(osascript: Interpreter, input: string)
    ensures var e := OpenVsCodeFileByNameSearch(osascript, input);
      && |e.submitted| == 1
      && Between(e.submitted[0], FileSearchHead, FileSearchTail) == Some(Escape(input))
      && Unescape(Escape(input)) == input
      && ('"' in input ==> Escape(input) != input)
      && ReportsAfterRun(osascript, e, FileSearchDone)
  {
    BetweenOf(FileSearchHead, Escape(input), FileSearchTail);
    UnescapeEscape(input);
    EscapeLength(input);
    CountAbsent('"', input);
  }

  /**
    Nothing is submitted exactly when the range is malformed or a field of the
    script has too many digits. A malformed range returns the fixed message;
    too many digits raise the `ValueError` of `str`.
   */
  lemma SelectLinesMalformed(osascript: Interpreter, input: string)
    ensures var e := SelectLinesInVsCode(osascript, input);
      && (e.submitted == [] <==> ParseRange(input) == None || !SelectionFits(ParseRange(input).value))
      && (ParseRange(input) == None ==> e.outcome == Returned(InvalidRange))
      && (ParseRange(input).Some? && !SelectionFits(ParseRange(input).value) ==>
            e.outcome == Raised(StrDigitsError))
  {
  }

  /**
    The start line came from `int()`, so `str` can always write it back: only
    the repeat count `e - s` can have too many digits.
   */
  lemma SelectionFitsCount(input: string)
    ensures ParseRange(input).Some? ==>
      var (startLine, endLine) := ParseRange(input).value;
      SelectionFits((startLine, endLine)) <==> StrFits(endLine - startLine)
  {
    var fields := Split(input, ':');
    ParseIntFits(fields[0]);
  }

  /**
    A well-formed range `s:e` whose two fields `str` can write (always so for
    ranges of real line numbers) submits exactly one script, which goes to line
    `s` and repeats the shift-down keystroke exactly `e - s` times, with no
    check that `e >= s`; the tool then reports success unless the run failed.
   */
  lemma SelectLinesRepeatCount(osascript: Interpreter, input: string)
    ensures ParseRange(input).Some? && SelectionFits(ParseRange(input).value) ==>
      var (startLine, endLine) := ParseRange(input).value;
      var e := SelectLinesInVsCode(osascript, input);
      && |e.submitted| == 1
      && ReadSelection(e.submitted[0]) == Some((startLine, endLine - startLine))
      && ReportsAfterRun(osascript, e, LinesSelected)
  {
    if ParseRange(input).Some? && SelectionFits(ParseRange(input).value) {
      var (startLine, endLine) := ParseRange(input).value;
      ReadSelectScript(startLine, endLine - startLine);
    }
  }

  /** `10:15` selects five lines below line 10. */
  lemma SelectLinesTenToFifteen(osascript: Interpreter)
    ensures var e := SelectLinesInVsCode(osascript, "10:15");
      |e.submitted| == 1 && ReadSelection(e.submitted[0]) == Some((10, 5))
  {
    assert NatToString(10) == "10" by { assert NatToString(1) == "1"; }
    assert NatToString(15) == "15" by { assert NatToString(1) == "1"; }
    assert "10:15" == IntToString(10) + ":" + IntToString(15);
    ParseRangeRoundTrip(10, 15);
    assert SelectionFits((10, 15));
    SelectLinesRepeatCount(osascript, "10:15");
  }

  /** `15:10` is accepted too, and the script repeats the keystroke -5 times. */
  lemma SelectLinesBackwards(osascript: Interpreter)
    ensures var e := SelectLinesInVsCode(osascript, "15:10");
      |e.submitted| == 1 && ReadSelection(e.submitted[0]) == Some((15, -5))
  {
    assert NatToString(10) == "10" by { assert NatToString(1) == "1"; }
    assert NatToString(15) == "15" by { assert NatToString(1) == "1"; }
    assert "15:10" == IntToString(15) + ":" + IntToString(10);
    ParseRangeRoundTrip(15, 10);
    assert SelectionFits((15, 10));
    SelectLinesRepeatCount(osascript, "15:10");
  }

  /** `abc` is refused with the fixed message and no script. */
  lemma SelectLinesRejectsWord(osascript: Interpreter)
    ensures SelectLinesInVsCode(osascript, "abc") == Effect([], Returned(InvalidRange))
  {
    assert Count(':', "abc") == 0;
    ParseRangeNeedsOneColon("abc");
  }

  lemma ForegroundReports(osascript: Interpreter, input: string)
    ensures var e := BringVsCodeToForeground(osascript, input);
      && e.submitted == [ForegroundScript]
      && ReportsAfterRun(osascript, e, ForegroundDone)
  {
  }

  /** The guard fires exactly when the raw JavaScript starts with `open `; then nothing is submitted. */
  lemma RunJavascriptGuard(osascript: Interpreter, javascript: string)
    ensures var e := RunJavascript(osascript, javascript);
      && (e.submitted == [] <==> StartsWith(javascript, OpenPrefix))
      && (StartsWith(javascript, OpenPrefix) ==> e.outcome == Returned(NotJavascript))
  {
    EscapeStartsWith(javascript, OpenPrefix);
  }

  /**
    JavaScript the guard lets through is submitted as one script whose
    `execute javascript` literal holds the escaped text, which unescapes to
    the original; the call ends as the interpreter does.
   */
  lemma RunJavascriptSubmits(osascript: Interpreter, javascript: string)
    requires !StartsWith(javascript, OpenPrefix)
    ensures var e := RunJavascript(osascript, javascript);
      && |e.submitted| == 1
      && Between(e.submitted[0], JavascriptHead, JavascriptTail) == Some(Escape(javascript))
      && Unescape(Escape(javascript)) == javascript
      && var c := osascript(e.submitted[0]);
         e.outcome == if c.returnCode != 0 then Raised(c.stderr) else Returned(c.stdout)
  {
    EscapeStartsWith(javascript, OpenPrefix);
    BetweenOf(JavascriptHead, Escape(javascript), JavascriptTail);
    UnescapeEscape(javascript);
  }

  /**
    `capped` is `inner` with its returned result cut to `limit` characters:
    the same scripts, the same failure, a prefix of the same result, a result
    that already fits unchanged and a longer one cut to exactly `limit`.
   */
  ghost predicate CapsAt(capped: Effect, inner: Effect, limit: nat)
  {
    && capped.submitted == inner.submitted
    && capped.outcome.Raised? == inner.outcome.Raised?
    && (inner.outcome.Raised? ==> capped.outcome == inner.outcome)
    && (inner.outcome.Returned? ==>
          && |capped.outcome.value| <= limit
          && capped.outcome.value <= inner.outcome.value
          && (|inner.outcome.value| <= limit ==> capped.outcome.value == inner.outcome.value)
          && (|inner.outcome.value| >= limit ==> |capped.outcome.value| == limit))
  }

  lemma CappedCaps(e: Effect, limit: nat)
    ensures CapsAt(Capped(e, limit), e, limit)
  {
  }

  /** A JavaScript whose first character is not `o` passes the guard. */
  lemma NotOpenPrefixed(javascript: string)
    requires |javascript| > 0 && javascript[0] != 'o'
    ensures !StartsWith(javascript, OpenPrefix)
  {
  }

  /** Escaping `lead` followed by `link` in quotes, where `lead` holds no quote. */
  lemma EscapeQuoted(lead: string, link: string)
    requires '"' !in lead
    ensures Escape(lead + "\"" + link + "\"") == lead + "\\\"" + Escape(link) + "\\\""
  {
    EscapeConcat(lead + "\"" + link, "\"");
    EscapeConcat(lead + "\"", link);
    EscapeConcat(lead, "\"");
    EscapeNoQuote(lead);
    assert Escape("\"") == "\\\"" + Escape("");
  }

  lemma LinksCapped(osascript: Interpreter, input: string)
    ensures var e := ChromeGetTheLinksOnThePage(osascript, input);
      && |e.submitted| == 1
      && CapsAt(e, RunJavascript(osascript, LinksJavascript), ResultCap)
  {
    assert LinksJavascript[0] == 'A';
    NotOpenPrefixed(LinksJavascript);
    RunJavascriptSubmits(osascript, LinksJavascript);
  }

  lemma ReadPageCapped(osascript: Interpreter, input: string)
    ensures var e := ChromeReadThePage(osascript, input);
      && |e.submitted| == 1
      && CapsAt(e, RunJavascript(osascript, ReadPageJavascript), ResultCap)
  {
    NotOpenPrefixed(ReadPageJavascript);
    RunJavascriptSubmits(osascript, ReadPageJavascript);
  }

  /**
    Clicking a link never trips the guard: exactly one script is submitted,
    and its JavaScript literal is the navigation with the link's quotes
    escaped together with the two quotes around it. The result is capped.
   */
  lemma ClickOnLinkSubmits(osascript: Interpreter, link: string)
    ensures var e := ChromeClickOnLink(osascript, link);
      && |e.submitted| == 1
      && Between(e.submitted[0], JavascriptHead, JavascriptTail)
         == Some(NavigateLead + "\\\"" + Escape(link) + "\\\"")
      && CapsAt(e, RunJavascript(osascript, ClickJavascript(link)), ResultCap)
  {
    var js := ClickJavascript(link);
    NotOpenPrefixed(js);
    RunJavascriptSubmits(osascript, js);
    EscapeQuoted(NavigateLead, link);
  }

  /**
    Opening a URL submits one script with the URL as given, not escaped, and
    returns the interpreter's output whatever its length.
   */
  lemma OpenUrlUncapped(osascript: Interpreter, url: string)
    ensures var e := ChromeOpenUrl(osascript, url);
      && |e.submitted| == 1
      && Between(e.submitted[0], OpenUrlHead, OpenUrlTail) == Some(url)
      && var c := osascript(e.submitted[0]);
         e.outcome == if c.returnCode != 0 then Raised(c.stderr) else Returned(c.stdout)
  {
    BetweenOf(OpenUrlHead, url, OpenUrlTail);
  }
}
