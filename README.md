# Command wrappers of a zero-shot desktop automation agent, in Dafny

The repository gives a language-model agent a handful of desktop-automation
tools. Each tool is a thin wrapper in `commands.py`. It takes one input
string, builds an AppleScript text, and submits that text to the `osascript`
interpreter. This project models those wrappers: the shaping of the input
before submission, and how a tool's result depends on the interpreter's
answer.

The interpreter is an oracle. `Osascript.Interpreter` is a function from a
script to a `Completion`: the exit status, stdout and stderr. Each tool is a
function from the interpreter and its input to an `Effect`. An `Effect`
records the scripts the tool submits (none or one) and how the call ends:
`Returned(value)`, or `Raised(error)` for an exception that leaves the tool.
Because submission is recorded, properties such as "nothing is submitted"
can be stated.

Files and modules:

- `wrappers.dfy`, module `Wrappers`: `Option`.
- `text.dfy`, module `Text`: the Python string operations the wrappers use.
  These are `str.replace('"', '\\"')` (`Escape`, with its inverse
  `Unescape`), `str.split` (`Split`, with `Join`), `str.startswith`
  (`StartsWith`), the slice `s[:n]` (`Truncate`), and the whitespace
  stripping `int()` applies (`Strip`).
- `numerals.dfy`, module `Numerals`: `int(text)` (`ParseInt`) and `str(n)`
  (`IntToString`, which an f-string field `{n}` produces).
- `osascript.dfy`, module `Osascript`: the oracle, `run_applescript`
  (`RunApplescript`), and the "run, then return a fixed message" pattern
  (`ThenReturn`).
- `commands.dfy`, module `Commands`: the script templates, copied
  character for character from the f-strings, and one function per tool.
  - `OpenVsCodeFileByNameSearch` is commands.py:6-33.
  - `SelectLinesInVsCode` is commands.py:35-83, with `ParseRange` for
    lines 43-46.
  - `BringVsCodeToForeground` is commands.py:86-99.
  - `ChromeGetTheLinksOnThePage` is commands.py:102-109.
  - `ChromeClickOnLink` is commands.py:111-118.
  - `ChromeReadThePage` is commands.py:120-126.
  - `ChromeOpenUrl` is commands.py:128-141.
  - `RunJavascript` is commands.py:150-164.

Two functions read generated scripts back. They give the script-level
lemmas something independent to check against. `ReadSelection` recovers the
start line and the repeat count from a line-selection script, and
`Text.Between` recovers the text inside a template.

Only the three page-reading tools cut their result (`[:4000]`).
`chrome_open_url` returns the interpreter's output uncapped. The
fixed-message tools discard the interpreter's output and return their own
short message, which no cap touches.

CPython refuses decimal integers longer than `sys.get_int_max_str_digits()`
(4300 by default) in both directions: `int(text)` and `str(n)` raise
`ValueError`. The model keeps this limit as `Numerals.MaxStrDigits`. A range
field with more digits is refused inside the `try`, like any malformed
range. A repeat count `end_line - start_line` with more digits makes the
f-string raise outside the `try`, before anything is submitted.

## Model

| member | source | states |
|---|---|---|
| Text.Escape | commands.py:15 | `replace('"', '\\"')`. Also used at commands.py:151. Its contract is stated by the `Escape…` lemmas and by UnescapeEscape. |
| Text.EscapeLength | commands.py:15 | The escaped text is longer than the input by exactly the number of `"` in the input. |
| Text.EscapeNoQuote | commands.py:15 | Text without `"` is returned unchanged. |
| Text.EscapeQuotesBackslashed | commands.py:151 | Every `"` in the escaped text has a `\` immediately before it. |
| Text.UnescapeEscape | commands.py:15 | The escape inserts exactly one `\` before each `"`. Removing those inserted backslashes gives back the input, for every input. |
| Text.EscapeInjective | commands.py:151 | Different inputs give different escaped texts. |
| Text.EscapeConcat | commands.py:118 | Escaping a concatenation is the concatenation of the escaped parts. So a link's quotes are escaped along with the quotes the wrapper puts around it. |
| Text.EscapeStartsWith | commands.py:151-153 | For a prefix that contains neither `"` nor `\`, the escaped text starts with that prefix exactly when the raw text does. |
| Text.Split | commands.py:44 | `split(sep)` always gives at least one field. Further properties are stated by JoinSplit, SplitFieldsFree, SplitCount, SplitNoSeparator and SplitAtSeparator. |
| Text.JoinSplit | commands.py:44 | `split(":")` loses nothing: joining the fields with the separator gives back the input. |
| Text.SplitFieldsFree | commands.py:44 | No field of a split contains the separator. |
| Text.SplitCount | commands.py:44 | A split has exactly one field more than the input has separators, so the empty input gives one field. |
| Text.SplitNoSeparator | commands.py:44 | Text without the separator splits into one field: the text itself. |
| Text.SplitAtSeparator | commands.py:44 | Splitting `a + sep + b` gives the fields of `a` followed by the fields of `b`. |
| Text.Truncate | commands.py:109 | `s[:limit]` is a prefix of `s` of length at most `limit`. It equals `s` when `s` fits, and has length exactly `limit` otherwise. |
| Text.StripLeft | commands.py:44 | Removes exactly the leading whitespace. What remains is a suffix of the input, and it does not start with whitespace. |
| Text.StripRight | commands.py:44 | Removes exactly the trailing whitespace. What remains is a prefix of the input, and it does not end with whitespace. |
| Text.StripSurrounded | commands.py:44 | Whitespace around a text whose ends are not whitespace is exactly what stripping removes. |
| Numerals.NatToString | commands.py:66 | `str(n)` for `n >= 0` is a non-empty string of decimal digits with no leading zero. |
| Numerals.DigitsValueNatToString | commands.py:72 | The digits `str(n)` writes have the value `n`. |
| Numerals.ParseInt | commands.py:44 | `int(text)` in base 10. Its contract is stated by the `ParseInt…` lemmas below and by ParseIntToString. |
| Numerals.IntToString | commands.py:66-72 | The text `str(n)` writes for the f-string fields. Its contract is stated by NatToString, DigitsValueNatToString and ParseIntToString. |
| Numerals.DigitCountAllDigits | commands.py:44 | In a text made only of digits, every character counts toward the digit limit. |
| Numerals.DigitsValueBound | commands.py:44 | A digit group reads as a number below ten to the power of its digit count. |
| Numerals.NatToStringLength | commands.py:66 | A number below ten to the power `k` is written with at most `k` digits, and at least one. |
| Numerals.ParseIntFits | commands.py:44-66 | Every number `int()` accepts also has a `str()` within the digit limit, because leading zeros only lengthen the input. |
| Numerals.ParseIntToString | commands.py:44 | `int(str(n)) == n` for every integer `n` that has at most 4300 digits, negative numbers included. A longer `n` is refused by `int()` as well. |
| Numerals.ParseIntSurrounded | commands.py:44 | `int()` ignores whitespace on either side of a number. It accepts a number of at most 4300 digits and refuses a longer one. |
| Numerals.ParseIntNeedsDigit | commands.py:44-46 | Text with no digit in it is refused (a `ValueError`). |
| Numerals.ParseIntAcceptsTen | commands.py:44 | `int("10") == 10`. |
| Numerals.ParseIntAcceptsSigned | commands.py:44 | A sign and surrounding whitespace are accepted: a space, `-7` and a newline read as -7. |
| Numerals.ParseIntAcceptsUnderscore | commands.py:44 | `int("1_000") == 1000`. |
| Numerals.DigitGroupUnderscores | commands.py:44 | An underscore must stand between two digits: `1_000` is accepted, `1__0` and `12_` are not. |
| Osascript.RunApplescript | commands.py:166-178 | Submits exactly the one script it is given. It raises with stderr exactly when the exit status is nonzero. With status 0 it returns stdout. |
| Commands.ParseRange | commands.py:43-46 | `map(int, input.split(":"))` unpacked into two names. Its contract is stated by ParseRangeNeedsOneColon, ParseRangeOfFields and ParseRangeRoundTrip. |
| Commands.ParseRangeNeedsOneColon | commands.py:43-46 | Input without exactly one `:` does not give exactly two fields, so it is refused. |
| Commands.ParseRangeOfFields | commands.py:43-46 | For `a:b` where neither side holds a `:`, the range is accepted exactly when both sides parse as integers. The range is then `(int(a), int(b))`. |
| Commands.ParseRangeRoundTrip | commands.py:44 | `str(s) + ":" + str(e)` parses back to `(s, e)` for all integers `s` and `e` of at most 4300 digits. When either has more, the range is refused. |
| Commands.ReadSelectScript | commands.py:52-78 | Reading back a generated line-selection script gives exactly the start line and the repeat count it was built from. This holds for every script `str` can write. |
| Commands.SelectLinesInVsCode | commands.py:35-83 | `select_lines_in_vs_code`. Its contract is stated by SelectLinesMalformed, SelectionFitsCount and SelectLinesRepeatCount. |
| Commands.SelectionFitsCount | commands.py:44-72 | For an accepted range, the f-string can always write `start_line`. It raises exactly when `end_line - start_line` has more than 4300 digits. |
| Commands.OpenVsCodeFileByNameSearch | commands.py:6-33 | `open_vs_code_file_by_name_search`. Its contract is stated by FileSearchTypesEscapedName. |
| Commands.FileSearchTypesEscapedName | commands.py:14-33 | Submits one script. Its `keystroke` literal holds the escaped name, which unescapes to the input; when the name contains `"`, this is not the raw input. Returns `file name search completed` on exit status 0; otherwise the failure with stderr propagates. |
| Commands.SelectLinesMalformed | commands.py:43-72 | Nothing is submitted exactly when the range is malformed or a field of the script has more than 4300 digits. A malformed range returns the fixed `Invalid input format...` message. Too many digits raise the `ValueError` of `str`. |
| Commands.SelectLinesRepeatCount | commands.py:48-83 | A well-formed range `s:e` whose fields `str` can write submits one script. The script goes to line `s` and repeats the shift-down keystroke exactly `e - s` times, with no check that `e >= s`. The tool then returns `lines have been selected`, or propagates the failure. |
| Commands.SelectLinesTenToFifteen | commands.py:43-49 | `10:15` submits a script that starts at line 10 and selects 5 more lines. |
| Commands.SelectLinesBackwards | commands.py:49 | `15:10` is accepted, and the repeat count is -5. |
| Commands.SelectLinesRejectsWord | commands.py:43-46 | `abc` submits nothing and returns the fixed format message. |
| Commands.BringVsCodeToForeground | commands.py:86-99 | `bring_vs_code_to_foreground`. Its contract is stated by ForegroundReports. |
| Commands.ForegroundReports | commands.py:86-99 | Ignores its input. Submits the fixed activation script, then returns its message or propagates the failure. |
| Commands.RunJavascript | commands.py:150-164 | `run_javascript`. Its contract is stated by RunJavascriptGuard and RunJavascriptSubmits. |
| Commands.RunJavascriptGuard | commands.py:150-154 | Nothing is submitted exactly when the raw JavaScript starts with `open `. In that case the result is `Invalid command, not javascript`. |
| Commands.RunJavascriptSubmits | commands.py:150-164 | Any other JavaScript is submitted as one script. Its `execute javascript` literal holds the escaped text, which unescapes to the original. The call returns stdout or raises with stderr. |
| Commands.Capped | commands.py:109 | The `[:4000]` applied to a tool's result. Also used at commands.py:118 and 126. Its contract is stated by CappedCaps. |
| Commands.CappedCaps | commands.py:109 | The `[:4000]` step keeps the submitted scripts and any raised failure. A returned result longer than the limit is cut to exactly its first `limit` characters. A result that fits is unchanged. |
| Commands.NotOpenPrefixed | commands.py:153 | JavaScript whose first character is not `o` passes the guard. |
| Commands.ChromeGetTheLinksOnThePage | commands.py:102-109 | `chrome_get_the_links_on_the_page`. Its contract is stated by LinksCapped. |
| Commands.LinksCapped | commands.py:102-109 | The link-listing tool always submits exactly one script, and its result is the JavaScript result cut to its first 4000 characters when longer, and unchanged otherwise. |
| Commands.ChromeReadThePage | commands.py:120-126 | `chrome_read_the_page`. Its contract is stated by ReadPageCapped. |
| Commands.ReadPageCapped | commands.py:120-126 | The page-reading tool always submits exactly one script, and its result is the JavaScript result cut to its first 4000 characters when longer, and unchanged otherwise. |
| Commands.EscapeQuoted | commands.py:118 | Escaping `lead"link"` for a `lead` without quotes escapes the two wrapper quotes and every quote inside the link. |
| Commands.ChromeClickOnLink | commands.py:111-118 | `chrome_click_on_link`. Its contract is stated by ClickOnLinkSubmits. |
| Commands.ClickOnLinkSubmits | commands.py:111-118 | Clicking a link never trips the `open ` guard, so exactly one script is submitted. Its literal is `window.location.href = \"` followed by the escaped link and `\"`. The result is cut to its first 4000 characters when longer, and unchanged otherwise. |
| Commands.ChromeOpenUrl | commands.py:128-141 | `chrome_open_url`. Its contract is stated by OpenUrlUncapped. |
| Commands.OpenUrlUncapped | commands.py:128-141 | Submits one script holding the URL as given, not escaped. Returns the interpreter's stdout, however long, or raises with stderr. |

## Left out

- `ai.py` and `main.py` are not part of this model. They are process wiring: they load the environment file, build the language-model agent, run its loop, read the command line and speak the result. They also import names that `commands.py` does not define.
- The `osascript` subprocess itself is an oracle: starting it, UTF-8 encoding of the script, and the `print` calls. The oracle is a function, so submitting the same script twice would give the same answer; no tool submits more than one script.
- Osascript.RunApplescript: stdout is taken as already-decoded text. The `UnicodeDecodeError` that `stdout.decode("utf-8")` raises on invalid UTF-8 is not modelled. The raised failure carries stderr as text, where Python carries the raw bytes.
- No claim is made about what AppleScript does with these scripts: `delay`, `keystroke`, `key code`, `repeat` with a negative count. `ReadSelection` reads the generated text back; it does not execute it.
- No claim is made that the generated AppleScript string literals are well formed. The escape does not double backslashes, so an input ending in `\` changes the meaning of the closing quote.
- Numerals.ParseInt: the digit limit is CPython's default of 4300. A limit changed through `PYTHONINTMAXSTRDIGITS`, `-X int_max_str_digits` or `sys.set_int_max_str_digits()` is not modelled, and neither are Python versions without the limit.
- Numerals.ParseInt: accepts only ASCII digits. Python's `int()` also accepts other Unicode decimal digits, which this model refuses.
- `say_text` and `hello_world` are not modelled: they only produce side effects and contain no logic.
- The `@tool(parse_docstring=True)` registration is not modelled. It is the agent framework's business.
- Characters are Unicode scalar values. Python strings can also hold lone surrogates, and those are not modelled.
