# commitlint Chinese formatter, modelled in Dafny

`scripts/commitlint-formatter-zh.js` is a formatter callback for commitlint.
It receives the lint result payload and returns the text that commitlint
prints. It has two parts, modelled in two modules:

- **Rule translator** (`rule_translator.dfy`, module `RuleTranslator`): a
  fixed table of fourteen rule names with Chinese explanations. The
  translation of a finding is its rule's table entry, or the fixed prefix
  `不符合规范: ` followed by the original message when the rule is not in the
  table.
- **Report formatter** (`formatter.dfy`, module `Formatter`). It normalises
  the payload into a list of reports. The payload can be an object with a
  `results` list, a bare list, a single report, or nothing at all. The
  formatter then walks the reports in order:
  - it skips falsy entries;
  - for each report it emits the input line (when the input is non-empty),
    one line per error and one line per warning;
  - it adds up an error counter and a warning counter.

  When both counters are zero the result is `""`. Otherwise the formatter
  appends a blank line, the summary `共发现 E 个错误, W 个警告` and the
  reference line, and joins all lines with `"\n"`.

The formatter is modelled the way the source works: `Formatter.FormatChinese`
is a method. It assigns the report list branch by branch, appends to a
`lines` sequence in a `for` loop over the reports, and keeps the two counters
in local variables. Its loop invariants tie `lines` and the counters to pure
functions of the part of the list walked so far (`BodyLines`, `TotalErrors`,
`TotalWarnings`). Its postcondition is `out == Format(payload)`. The lemmas
describe `Format` through `OutputLines`, the list of lines before joining:
- when the output is empty;
- how it is counted;
- in which order the lines appear;
- the exact text of each line.

Supporting modules:
- `decimal.dfy` (module `Decimal`) renders a counter in decimal for the
  summary line and proves that rendering can be read back.
- `text_lines.dfy` (module `TextLines`) joins the output lines with `"\n"`
  and cuts a text at every `"\n"`. Cutting the joined lines gives them back,
  so the returned text determines its lines.
- `seq_facts.dfy` (module `SeqFacts`) holds small generic sequence facts
  used by the proofs.
- `wrappers.dfy` (module `Wrappers`) holds `Option`.

Data model:
- A `Report` has an optional `input` and optional `errors`/`warnings` lists.
  A missing list takes the destructuring default `[]`.
- A list entry is an `Option<Report>`, where `None` is a falsy entry.
- `Payload` is `Results(list) | Many(list) | Single(report) | Absent`.

Two truthiness tests in the code are modelled as written:
- An input line is emitted only for a truthy input
  (`scripts/commitlint-formatter-zh.js:46`), so an empty-string input gives
  no line.
- The translator tests the looked-up entry for truthiness
  (`scripts/commitlint-formatter-zh.js:23`). The model does the same, and
  `RuleTranslator.TableEntriesNonEmpty` shows that with this table the test
  is the same as membership.

## Model

| member | source | states |
|---|---|---|
| RuleTranslator.MapMessageToChinese | scripts/commitlint-formatter-zh.js:21-26 | a name whose table entry exists and is non-empty gives that entry; any other name gives `不符合规范: ` + message |
| RuleTranslator.KnownRuleTranslation | scripts/commitlint-formatter-zh.js:21-23 | a rule in the table translates to its table entry, and the message has no influence on it |
| RuleTranslator.UnknownRuleTranslation | scripts/commitlint-formatter-zh.js:24-25 | a rule not in the table translates to `不符合规范: ` + message; removing the prefix gives back the message unchanged |
| RuleTranslator.KnownRuleStrings | scripts/commitlint-formatter-zh.js:4-19 | each of the fourteen rule names yields exactly its Chinese string, whatever the message is |
| RuleTranslator.TableEntriesNonEmpty | scripts/commitlint-formatter-zh.js:4-23 | every table entry is non-empty, so the truthiness test at line 23 succeeds exactly for names in the table |
| RuleTranslator.TableKeys | scripts/commitlint-formatter-zh.js:4-19 | the table's keys are exactly the fourteen rule names listed in the source |
| RuleTranslator.CustomRuleKeepsMessage | scripts/commitlint-formatter-zh.js:21-25 | the unknown rule `custom-rule` with message `oops` gives `不符合规范: oops` |
| Decimal.NatToString | scripts/commitlint-formatter-zh.js:66 | a counter renders as a non-empty string of decimal digits; it starts with `0` exactly when the counter is zero, and zero renders as the single digit `0` |
| Decimal.NatToStringRoundTrip | scripts/commitlint-formatter-zh.js:66 | reading the rendered digits back gives the counter's value |
| Decimal.NatToStringInjective | scripts/commitlint-formatter-zh.js:66 | different counts render as different summary numbers |
| Formatter.Normalize | scripts/commitlint-formatter-zh.js:30-37 | `{results: rs}` gives `rs`, a bare list gives itself, a single truthy report gives the one-element list, and no payload gives the empty list |
| Formatter.FindingLine | scripts/commitlint-formatter-zh.js:49-55 | a finding's line starts with its marker and ends with ` [` + rule name + `]` |
| Formatter.SummaryLine | scripts/commitlint-formatter-zh.js:66 | the summary starts with `共发现 ` and ends with ` 个警告` |
| Formatter.SummaryLineInjective | scripts/commitlint-formatter-zh.js:66 | two summary lines are equal only when both their error counts and their warning counts are |
| Formatter.OutputLines | scripts/commitlint-formatter-zh.js:39-67 | there are no output lines exactly when both totals are zero; otherwise the lines end with "", the summary line of the two totals and the reference line |
| Formatter.Format | scripts/commitlint-formatter-zh.js:61-69 | the returned text is "" exactly when there are no output lines |
| Formatter.FormatChinese | scripts/commitlint-formatter-zh.js:28-70 | the formatter's result equals the joined output lines of the normalised payload: "" when both totals are zero, otherwise the body lines, a blank line, the summary and the reference line |
| Formatter.PushReportLines | scripts/commitlint-formatter-zh.js:46-56 | one present report appends its input line (only for a non-empty input), then its error lines, then its warning lines, to the lines so far |
| Formatter.PushFindingLines | scripts/commitlint-formatter-zh.js:49-56 | the inner loop appends one translated line under the marker per finding, in list order |
| Formatter.PrefixStep | scripts/commitlint-formatter-zh.js:43-59 | one more walked entry appends its lines and adds its error and warning counts to the counters |
| Formatter.EmptyExactlyWhenClean | scripts/commitlint-formatter-zh.js:39-63 | the output is "" if and only if the summed error count and the summed warning count over the present reports are both zero |
| Formatter.CleanInputsGiveEmpty | scripts/commitlint-formatter-zh.js:30-63 | an absent payload, an empty list in either shape, and a report with missing or empty finding lists all give "", whatever the input |
| Formatter.ShapesAgree | scripts/commitlint-formatter-zh.js:30-37 | `{results: [R]}`, `[R]` and `R` format identically, and `{results: rs}` formats like `rs` |
| Formatter.AbsentEntryIgnored | scripts/commitlint-formatter-zh.js:43-44 | a falsy entry anywhere in the list changes neither the lines nor the counts |
| Formatter.MissingListsAreEmpty | scripts/commitlint-formatter-zh.js:45 | a missing `errors` or `warnings` field yields the same lines as an empty list and counts zero |
| Formatter.OutputLinesAgree | scripts/commitlint-formatter-zh.js:43-67 | the output depends on the report list only through its body lines and its two totals |
| Formatter.OutputShape | scripts/commitlint-formatter-zh.js:57-67 | non-empty output has (non-empty inputs) + E + W + 3 lines: the body, then "", then `共发现 E 个错误, W 个警告` with the summed counts, then the reference line |
| Formatter.BodyLinesCount | scripts/commitlint-formatter-zh.js:43-59 | the body has one line per non-empty input, per error and per warning of the present reports |
| Formatter.ReportLinesCount | scripts/commitlint-formatter-zh.js:44-56 | one entry contributes one line for a non-empty input plus one per error and one per warning, and a falsy entry contributes none |
| Formatter.BodyLinesAppend | scripts/commitlint-formatter-zh.js:43-59 | the lines of a concatenated report list are the lines of the first part followed by those of the second |
| Formatter.TotalsAppend | scripts/commitlint-formatter-zh.js:57-58 | the error, warning and input totals of a concatenated list are the sums of the totals of its parts |
| Formatter.EntryLinesAt | scripts/commitlint-formatter-zh.js:43-59 | the lines of report `i` sit as one contiguous block right after the lines of the reports before it |
| Formatter.EntryOffset | scripts/commitlint-formatter-zh.js:43-59 | the block of report `i` starts at the number of non-empty inputs, errors and warnings of the reports before it |
| Formatter.ReportInputLine | scripts/commitlint-formatter-zh.js:46-48 | a report with a non-empty input starts with `输入(commit message): ` + input |
| Formatter.ReportErrorLine | scripts/commitlint-formatter-zh.js:49-52 | error `j` of a report is on the report's line (input lines) + `j`, as its translated error line |
| Formatter.ReportWarningLine | scripts/commitlint-formatter-zh.js:53-56 | warning `j` of a report is on line (input lines) + (errors) + `j`, after all the errors, as its translated warning line |
| Formatter.FindingLinesAt | scripts/commitlint-formatter-zh.js:49-56 | the finding lines have one line per finding, and line `j` is the line for finding `j` |
| Formatter.FindingLineText | scripts/commitlint-formatter-zh.js:47-55 | the exact text of error and warning lines: `✖ 错误: ` or `⚠ 警告: `, then the table entry (known rule) or `不符合规范: ` + message (unknown rule), then ` [` + name + `]` |
| Formatter.CountExample | scripts/commitlint-formatter-zh.js:57-67 | two reports with 2 errors, and with 1 error and 3 warnings, give nine lines whose summary is `共发现 3 个错误, 3 个警告` |
| Formatter.OrderExample | scripts/commitlint-formatter-zh.js:43-67 | a report with input, errors A, B and warning C gives its input line, A, B, C, then "", `共发现 2 个错误, 1 个警告` and the reference line |
| TextLines.Join | scripts/commitlint-formatter-zh.js:69 | joining no lines gives ""; joined lines start with the first line and are at least as long as the last |
| TextLines.JoinEndsWithLast | scripts/commitlint-formatter-zh.js:69 | joining lines with "\n" ends with the last line, so joined non-empty output is never "" |
| TextLines.SplitJoin | scripts/commitlint-formatter-zh.js:69 | cutting the joined text at every "\n" gives back the lines, when no line holds a newline |

## Left out

- `module.exports`, the eslint and `'use strict'` pragmas, and the commitlint host that calls the formatter and prints its result: plumbing with no logic.
- JavaScript prototype lookups on the translation table (a rule named `constructor` would find an inherited property): the table is modelled as a map of exactly its fourteen keys.
- Loose JavaScript typing is not modelled, because the model's types rule these inputs out:
  - a non-string `input`;
  - `errors: null`, which would throw because the destructuring default applies only to `undefined`;
  - a finding without a `name`, which would render as `undefined`;
  - a finding without a `message` under an unknown rule, which would render as `不符合规范: undefined`.
- A payload whose `results` field is not an array falls through to the single-report branch in JavaScript. The model represents such a payload as `Single`.
- Character encoding: the Chinese text and the symbols are compared as sequences of characters, with no byte-level encoding.
- `Array.prototype.join` is a library call with no loop in the source. It is modelled as the recursive function `TextLines.Join`.
- `TextLines.SplitJoin` needs lines without newlines. An input line of a multi-line commit message holds newlines, so for such output the returned text does not determine where one line ends.
- The two counters are JavaScript numbers: exact only up to 2^53, and rendered in exponent notation from 10^21 on. The model counts with unbounded `nat`s and always renders all the digits.
- The claim that the function never mutates its input and gives the same output for the same payload is not stated as a lemma. It holds by construction: `FormatChinese` has no `modifies` clause and the model's values are immutable.
- The per-report loop body is split into the helper methods `Formatter.PushReportLines` and `Formatter.PushFindingLines`. They are called in order by `Formatter.FormatChinese`, so `lines` is appended to in the source's order.
- RuleTranslator.TableKeys: states the exact key set, not the number fourteen as a cardinality, because that would need the distinctness of the fourteen string literals spelled out.
