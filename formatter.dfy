/** The report formatter: a commitlint result payload becomes the Chinese
    console text, one line per commit input, error and warning, followed by a
    blank line, a summary and a reference line, or the empty string when
    nothing was found. */
module Formatter {
  import opened Wrappers
  import opened RuleTranslator
  import opened SeqFacts
  import opened TextLines
  import Decimal

  /** One rule violation as the lint engine reports it. */
  datatype Finding = Finding(name: string, message: string)

  /** The lint result for one commit message. A `None` field is a field the
      report object does not have. */
  datatype Report = Report(
    input: Option<string>,
    errors: Option<seq<Finding>>,
    warnings: Option<seq<Finding>>)

  /** The three shapes the formatter accepts, and a missing (falsy) payload.
      A `None` entry is a falsy element of the report list. */
  datatype Payload =
    | Results(results: seq<Option<Report>>)
    | Many(reports: seq<Option<Report>>)
    | Single(report: Report)
    | Absent

  const InputLabel: string := "输入(commit message): "
  const ErrorLabel: string := "✖ 错误: "
  const WarningLabel: string := "⚠ 警告: "
  const ReferenceLine: string := "规范文档: https://github.com/conventional-changelog/commitlint"

  // ---------------------------------------------------------------------
  // What the formatter computes
  // ---------------------------------------------------------------------

  /** The report list the payload stands for. */
  function Normalize(payload: Payload): (rs: seq<Option<Report>>)
    ensures payload.Results? ==> rs == payload.results
    ensures payload.Many? ==> rs == payload.reports
    ensures payload.Single? ==> rs == [Some(payload.report)]
    ensures payload.Absent? ==> rs == []
  {
    match payload
    case Results(rs) => rs
    case Many(rs) => rs
    case Single(r) => [Some(r)]
    case Absent => []
  }

  /** The errors of a report; a missing list is the empty list. */
  function ErrorsOf(r: Report): seq<Finding> {
    r.errors.GetOr([])
  }

  /** The warnings of a report; a missing list is the empty list. */
  function WarningsOf(r: Report): seq<Finding> {
    r.warnings.GetOr([])
  }

  /** Whether the report gets an input line: the input is there and is not
      the (falsy) empty string. */
  predicate HasInput(r: Report) {
    r.input.Some? && r.input.value != ""
  }

  function InputLine(input: string): string {
    InputLabel + input
  }

  /** The line of one finding under the given marker: the marker, then its
      translation, then its rule name in brackets. */
  function FindingLine(marker: string, f: Finding): (line: string)
    ensures |line| >= |marker| + |f.name| + 3
    ensures line[..|marker|] == marker
    ensures line[|line| - (|f.name| + 3)..] == " [" + f.name + "]"
  {
    var translation, suffix := MapMessageToChinese(f.message, f.name), " [" + f.name + "]";
    MiddleSlice(marker, translation, suffix);
    assert marker + translation + " [" + f.name + "]" == marker + translation + suffix;
    marker + translation + " [" + f.name + "]"
  }

  /** One line per finding, in order. */
  function FindingLines(marker: string, fs: seq<Finding>): seq<string> {
    if fs == [] then [] else [FindingLine(marker, fs[0])] + FindingLines(marker, fs[1..])
  }

  /** The input line of a report, when it has one. */
  function InputPart(r: Report): seq<string> {
    if HasInput(r) then [InputLine(r.input.value)] else []
  }

  /** The error lines of a report, then its warning lines. */
  function FindingsPart(r: Report): seq<string> {
    FindingLines(ErrorLabel, ErrorsOf(r)) + FindingLines(WarningLabel, WarningsOf(r))
  }

  /** The lines one list entry contributes; a falsy entry contributes none. */
  function ReportLines(entry: Option<Report>): seq<string> {
    match entry
    case None => []
    case Some(r) => InputPart(r) + FindingsPart(r)
  }

  /** The lines of all entries, in list order. */
  function BodyLines(rs: seq<Option<Report>>): seq<string> {
    if rs == [] then [] else ReportLines(rs[0]) + BodyLines(rs[1..])
  }

  function ErrorCount(entry: Option<Report>): nat {
    if entry.Some? then |ErrorsOf(entry.value)| else 0
  }

  function WarningCount(entry: Option<Report>): nat {
    if entry.Some? then |WarningsOf(entry.value)| else 0
  }

  function InputCount(entry: Option<Report>): nat {
    if entry.Some? && HasInput(entry.value) then 1 else 0
  }

  /** Sum of the error counts of the present entries. */
  function TotalErrors(rs: seq<Option<Report>>): nat {
    if rs == [] then 0 else ErrorCount(rs[0]) + TotalErrors(rs[1..])
  }

  /** Sum of the warning counts of the present entries. */
  function TotalWarnings(rs: seq<Option<Report>>): nat {
    if rs == [] then 0 else WarningCount(rs[0]) + TotalWarnings(rs[1..])
  }

  /** Number of present entries with an input line. */
  function TotalInputs(rs: seq<Option<Report>>): nat {
    if rs == [] then 0 else InputCount(rs[0]) + TotalInputs(rs[1..])
  }

  /** The summary line: it starts with "共发现 " and ends with " 个警告";
      `SummaryLineInjective` shows that it determines both counts. */
  function SummaryLine(errors: nat, warnings: nat): (line: string)
    ensures |line| >= 8 && line[..4] == "共发现 " && line[|line| - 4..] == " 个警告"
  {
    "共发现 " + Decimal.NatToString(errors) + " 个错误, " + Decimal.NatToString(warnings) + " 个警告"
  }

  /** The lines of the output, before joining; none when nothing was found. */
  function OutputLines(payload: Payload): (lines: seq<string>)
    ensures lines == [] <==>
      TotalErrors(Normalize(payload)) == 0 && TotalWarnings(Normalize(payload)) == 0
    ensures lines != [] ==>
      |lines| >= 3 && lines[|lines| - 3] == "" && lines[|lines| - 1] == ReferenceLine
    ensures lines != [] ==>
      lines[|lines| - 2] == SummaryLine(TotalErrors(Normalize(payload)), TotalWarnings(Normalize(payload)))
  {
    var rs := Normalize(payload);
    var e, w := TotalErrors(rs), TotalWarnings(rs);
    if e == 0 && w == 0 then []
    else BodyLines(rs) + ["", SummaryLine(e, w), ReferenceLine]
  }

  /** The formatter's result as a function of the payload. */
  function Format(payload: Payload): (text: string)
    ensures text == "" <==> OutputLines(payload) == []
  {
    Join(OutputLines(payload))
  }

  // ---------------------------------------------------------------------
  // The formatter itself
  // ---------------------------------------------------------------------

  /** Normalises the payload, walks its reports appending lines and adding up
      the two counters, and returns "" or the joined lines with the summary. */
  method FormatChinese(payload: Payload) returns (out: string)
    ensures out == Format(payload)
  {
    var reports: seq<Option<Report>> := [];
    if payload.Results? {
      reports := payload.results;
    } else if payload.Many? {
      reports := payload.reports;
    } else if payload.Single? {
      reports := [Some(payload.report)];
    }
    assert reports == Normalize(payload);

    var totalErrors: nat := 0;
    var totalWarnings: nat := 0;
    var lines: seq<string> := [];

    for k := 0 to |reports|
      invariant lines == BodyLines(reports[..k])
      invariant totalErrors == TotalErrors(reports[..k])
      invariant totalWarnings == TotalWarnings(reports[..k])
    {
      PrefixStep(reports, k);
      if reports[k].None? {
        continue;
      }
      var report := reports[k].value;
      var errors := ErrorsOf(report);
      var warnings := WarningsOf(report);
      lines := PushReportLines(lines, report);
      totalErrors := totalErrors + |errors|;
      totalWarnings := totalWarnings + |warnings|;
    }
    TakeAll(reports);
    OutputLinesFrom(payload, lines);

    if totalErrors == 0 && totalWarnings == 0 {
      return "";
    }

    lines := lines + [""];
    lines := lines + [SummaryLine(totalErrors, totalWarnings)];
    lines := lines + [ReferenceLine];
    out := Join(lines);
  }

  /** The body of the walk for one present report: its input line when the
      input is non-empty, then its error lines, then its warning lines. */
  method PushReportLines(lines: seq<string>, report: Report) returns (out: seq<string>)
    ensures out == lines + ReportLines(Some(report))
  {
    out := lines;
    if HasInput(report) {
      out := out + [InputLine(report.input.value)];
    }
    AppendEmpty(lines);
    assert out == lines + InputPart(report);
    out := PushFindingLines(out, ErrorLabel, ErrorsOf(report));
    out := PushFindingLines(out, WarningLabel, WarningsOf(report));
    ReportStep(lines, report);
  }

  /** The inner loop over one report's errors or warnings: one line per
      finding, in order. */
  method PushFindingLines(lines: seq<string>, marker: string, fs: seq<Finding>) returns (out: seq<string>)
    ensures out == lines + FindingLines(marker, fs)
  {
    out := lines;
    for j := 0 to |fs|
      invariant out == lines + FindingLines(marker, fs[..j])
    {
      FindingLinesSnoc(marker, fs, j);
      Associative(lines, FindingLines(marker, fs[..j]), [FindingLine(marker, fs[j])]);
      out := out + [FindingLine(marker, fs[j])];
    }
    TakeAll(fs);
  }

  // ---------------------------------------------------------------------
  // Steps of the proof of FormatChinese
  // ---------------------------------------------------------------------

  lemma {:induction false} FindingLinesSnoc(marker: string, fs: seq<Finding>, j: nat)
    requires j < |fs|
    ensures FindingLines(marker, fs[..j + 1]) == FindingLines(marker, fs[..j]) + [FindingLine(marker, fs[j])]
  {
    TakeOneMore(fs, j);
    FindingLinesAppend(marker, fs[..j], [fs[j]]);
    var one := [fs[j]];
    assert one[1..] == [];
    AppendEmpty([FindingLine(marker, fs[j])]);
  }

  lemma {:induction false} FindingLinesAppend(marker: string, a: seq<Finding>, b: seq<Finding>)
    ensures FindingLines(marker, a + b) == FindingLines(marker, a) + FindingLines(marker, b)
    decreases |a|
  {
    if a == [] {
      assert a + b == b;
      AppendEmpty(FindingLines(marker, b));
    } else {
      var head := [FindingLine(marker, a[0])];
      assert (a + b)[0] == a[0];
      assert (a + b)[1..] == a[1..] + b;
      FindingLinesAppend(marker, a[1..], b);
      Associative(head, FindingLines(marker, a[1..]), FindingLines(marker, b));
    }
  }

  /** One report's lines, appended piece by piece as the formatter does. */
  lemma ReportStep(before: seq<string>, r: Report)
    ensures before + InputPart(r) + FindingLines(ErrorLabel, ErrorsOf(r)) + FindingLines(WarningLabel, WarningsOf(r))
      == before + ReportLines(Some(r))
  {
    var p, e, w := InputPart(r), FindingLines(ErrorLabel, ErrorsOf(r)), FindingLines(WarningLabel, WarningsOf(r));
    assert ReportLines(Some(r)) == p + (e + w);
    Associative(p, e, w);
    Associative4(before, p, e, w);
  }

  /** One more entry of the list walked: its lines and its counts are added. */
  lemma PrefixStep(rs: seq<Option<Report>>, k: nat)
    requires k < |rs|
    ensures BodyLines(rs[..k + 1]) == BodyLines(rs[..k]) + ReportLines(rs[k])
    ensures TotalErrors(rs[..k + 1]) == TotalErrors(rs[..k]) + ErrorCount(rs[k])
    ensures TotalWarnings(rs[..k + 1]) == TotalWarnings(rs[..k]) + WarningCount(rs[k])
  {
    TakeOneMore(rs, k);
    BodyLinesSnoc(rs[..k], rs[k]);
  }

  /** The output in terms of the body lines and the two totals. */
  lemma OutputLinesFrom(payload: Payload, body: seq<string>)
    requires body == BodyLines(Normalize(payload))
    ensures var e, w := TotalErrors(Normalize(payload)), TotalWarnings(Normalize(payload));
      && (e == 0 && w == 0 ==> Format(payload) == "")
      && (!(e == 0 && w == 0) ==>
            Format(payload) == Join(body + [""] + [SummaryLine(e, w)] + [ReferenceLine]))
  {
    var e, w := TotalErrors(Normalize(payload)), TotalWarnings(Normalize(payload));
    PushThree(body, "", SummaryLine(e, w), ReferenceLine);
  }

  // ---------------------------------------------------------------------
  // Structure of the body lines
  // ---------------------------------------------------------------------

  /** Splitting the list splits the body lines the same way. */
  lemma {:induction false} BodyLinesAppend(a: seq<Option<Report>>, b: seq<Option<Report>>)
    ensures BodyLines(a + b) == BodyLines(a) + BodyLines(b)
    decreases |a|
  {
    if a == [] {
      assert a + b == b;
      AppendEmpty(BodyLines(b));
    } else {
      var head := ReportLines(a[0]);
      assert (a + b)[0] == a[0];
      assert (a + b)[1..] == a[1..] + b;
      assert BodyLines(a + b) == head + BodyLines(a[1..] + b);
      BodyLinesAppend(a[1..], b);
      Associative(head, BodyLines(a[1..]), BodyLines(b));
    }
  }

  /** Splitting the list splits the three totals the same way. */
  lemma {:induction false} TotalsAppend(a: seq<Option<Report>>, b: seq<Option<Report>>)
    ensures TotalErrors(a + b) == TotalErrors(a) + TotalErrors(b)
    ensures TotalWarnings(a + b) == TotalWarnings(a) + TotalWarnings(b)
    ensures TotalInputs(a + b) == TotalInputs(a) + TotalInputs(b)
    decreases |a|
  {
    if a == [] {
      assert a + b == b;
    } else {
      assert (a + b)[0] == a[0];
      assert (a + b)[1..] == a[1..] + b;
      TotalsAppend(a[1..], b);
    }
  }

  /** The body lines and the totals of a one-entry list. */
  lemma SingletonList(entry: Option<Report>)
    ensures BodyLines([entry]) == ReportLines(entry)
    ensures TotalErrors([entry]) == ErrorCount(entry)
    ensures TotalWarnings([entry]) == WarningCount(entry)
    ensures TotalInputs([entry]) == InputCount(entry)
  {
    var one := [entry];
    assert one[1..] == [];
    AppendEmpty(ReportLines(entry));
  }

  /** Appending one entry appends its lines and adds its counts. */
  lemma BodyLinesSnoc(rs: seq<Option<Report>>, entry: Option<Report>)
    ensures BodyLines(rs + [entry]) == BodyLines(rs) + ReportLines(entry)
    ensures TotalErrors(rs + [entry]) == TotalErrors(rs) + ErrorCount(entry)
    ensures TotalWarnings(rs + [entry]) == TotalWarnings(rs) + WarningCount(entry)
    ensures TotalInputs(rs + [entry]) == TotalInputs(rs) + InputCount(entry)
  {
    BodyLinesAppend(rs, [entry]);
    TotalsAppend(rs, [entry]);
    SingletonList(entry);
  }

  /** A report has one line for its input (if any), one per error and one per warning. */
  lemma ReportLinesCount(entry: Option<Report>)
    ensures |ReportLines(entry)| == InputCount(entry) + ErrorCount(entry) + WarningCount(entry)
  {
    if entry.Some? {
      ReportLinesSome(entry.value);
      FindingLinesLength(ErrorLabel, ErrorsOf(entry.value));
      FindingLinesLength(WarningLabel, WarningsOf(entry.value));
    }
  }

  /** Every body line is an input line, an error line or a warning line. */
  lemma {:induction false} BodyLinesCount(rs: seq<Option<Report>>)
    ensures |BodyLines(rs)| == TotalInputs(rs) + TotalErrors(rs) + TotalWarnings(rs)
  {
    if rs != [] {
      ReportLinesCount(rs[0]);
      BodyLinesCount(rs[1..]);
    }
  }

  // ---------------------------------------------------------------------
  // Properties of the formatter
  // ---------------------------------------------------------------------

  /** The output is empty exactly when no present report has an error or a warning. */
  lemma EmptyExactlyWhenClean(payload: Payload)
    ensures Format(payload) == "" <==>
      TotalErrors(Normalize(payload)) == 0 && TotalWarnings(Normalize(payload)) == 0
  {
  }

  /** A missing payload, an empty list and reports without findings all give "",
      whatever their inputs. */
  lemma CleanInputsGiveEmpty(input: Option<string>)
    ensures Format(Absent) == ""
    ensures Format(Many([])) == "" && Format(Results([])) == ""
    ensures Format(Single(Report(input, None, None))) == ""
    ensures Format(Single(Report(input, Some([]), Some([])))) == ""
  {
    SingletonList(Some(Report(input, None, None)));
    SingletonList(Some(Report(input, Some([]), Some([]))));
  }

  /** `{results: [R]}`, `[R]` and `R` format identically, and the object shape
      and the bare list agree for every list. */
  lemma ShapesAgree(r: Report, rs: seq<Option<Report>>)
    ensures Format(Results([Some(r)])) == Format(Single(r))
    ensures Format(Many([Some(r)])) == Format(Single(r))
    ensures Format(Results(rs)) == Format(Many(rs))
  {
  }

  /** The output depends on the report list only through its body lines and totals. */
  lemma OutputLinesAgree(p: Payload, q: Payload)
    requires BodyLines(Normalize(p)) == BodyLines(Normalize(q))
    requires TotalErrors(Normalize(p)) == TotalErrors(Normalize(q))
    requires TotalWarnings(Normalize(p)) == TotalWarnings(Normalize(q))
    ensures OutputLines(p) == OutputLines(q)
  {
  }

  /** A falsy entry anywhere in the list adds no line and nothing to the counts. */
  lemma AbsentEntryIgnored(a: seq<Option<Report>>, b: seq<Option<Report>>)
    ensures OutputLines(Many(a + [None] + b)) == OutputLines(Many(a + b))
  {
    BodyLinesAppend(a + [None], b);
    TotalsAppend(a + [None], b);
    BodyLinesSnoc(a, None);
    AppendEmpty(BodyLines(a));
    BodyLinesAppend(a, b);
    TotalsAppend(a, b);
    OutputLinesAgree(Many(a + [None] + b), Many(a + b));
  }

  /** Missing `errors`/`warnings` fields behave as empty lists. */
  lemma MissingListsAreEmpty(input: Option<string>, errs: Option<seq<Finding>>, warns: Option<seq<Finding>>)
    ensures ReportLines(Some(Report(input, None, warns))) == ReportLines(Some(Report(input, Some([]), warns)))
    ensures ReportLines(Some(Report(input, errs, None))) == ReportLines(Some(Report(input, errs, Some([]))))
    ensures ErrorCount(Some(Report(input, None, warns))) == 0
    ensures WarningCount(Some(Report(input, errs, None))) == 0
  {
  }

  /** When there is output: the body, a blank line, the summary with the two
      totals and the reference line; one line per input, error and warning,
      plus those three. */
  lemma OutputShape(payload: Payload)
    requires Format(payload) != ""
    ensures var rs := Normalize(payload);
      var lines := OutputLines(payload);
      && |lines| == TotalInputs(rs) + TotalErrors(rs) + TotalWarnings(rs) + 3
      && lines[..|lines| - 3] == BodyLines(rs)
      && lines[|lines| - 3] == ""
      && lines[|lines| - 2] == "共发现 " + Decimal.NatToString(TotalErrors(rs)) + " 个错误, "
                               + Decimal.NatToString(TotalWarnings(rs)) + " 个警告"
      && lines[|lines| - 1] == "规范文档: https://github.com/conventional-changelog/commitlint"
  {
    var rs := Normalize(payload);
    BodyLinesCount(rs);
    EmptyExactlyWhenClean(payload);
    var lines := OutputLines(payload);
    assert lines[..|lines| - 3] == BodyLines(rs);
  }

  /** Where the lines of entry `i` start in the body. */
  function Offset(rs: seq<Option<Report>>, i: nat): nat
    requires i <= |rs|
  {
    |BodyLines(rs[..i])|
  }

  /** Entry `i`'s lines sit in the body right after those of the entries
      before it, and the next entry's lines follow them. */
  lemma EntryLinesAt(rs: seq<Option<Report>>, i: nat)
    requires i < |rs|
    ensures Offset(rs, i) + |ReportLines(rs[i])| == Offset(rs, i + 1) <= |BodyLines(rs)|
    ensures BodyLines(rs)[Offset(rs, i)..Offset(rs, i + 1)] == ReportLines(rs[i])
  {
    PrefixStep(rs, i);
    SplitAt(rs, i + 1);
    BodyLinesAppend(rs[..i + 1], rs[i + 1..]);
    MiddleSlice(BodyLines(rs[..i]), ReportLines(rs[i]), BodyLines(rs[i + 1..]));
  }

  /** Entry `i`'s lines start after one line per input, error and warning of
      the entries before it. */
  lemma EntryOffset(rs: seq<Option<Report>>, i: nat)
    requires i <= |rs|
    ensures Offset(rs, i) == TotalInputs(rs[..i]) + TotalErrors(rs[..i]) + TotalWarnings(rs[..i])
  {
    BodyLinesCount(rs[..i]);
  }

  /** Two summary lines are equal only when both counts are. */
  lemma SummaryLineInjective(e1: nat, w1: nat, e2: nat, w2: nat)
    requires SummaryLine(e1, w1) == SummaryLine(e2, w2)
    ensures e1 == e2 && w1 == w2
  {
    Decimal.TwoNumeralsUnique("共发现 ", " 个错误, ", " 个警告",
      Decimal.NatToString(e1), Decimal.NatToString(w1), Decimal.NatToString(e2), Decimal.NatToString(w2));
    Decimal.NatToStringInjective(e1, e2);
    Decimal.NatToStringInjective(w1, w2);
  }

  lemma ReportLinesSome(r: Report)
    ensures ReportLines(Some(r)) == InputPart(r) + FindingsPart(r)
    ensures |InputPart(r)| == InputCount(Some(r))
  {
  }

  lemma FindingLinesOne(marker: string, f: Finding)
    ensures FindingLines(marker, [f]) == [FindingLine(marker, f)]
  {
    var one := [f];
    assert one[1..] == [];
    AppendEmpty([FindingLine(marker, f)]);
  }

  lemma {:induction false} FindingLinesLength(marker: string, fs: seq<Finding>)
    ensures |FindingLines(marker, fs)| == |fs|
  {
    if fs != [] {
      FindingLinesLength(marker, fs[1..]);
    }
  }

  lemma {:induction false} FindingLinesAt(marker: string, fs: seq<Finding>, j: nat)
    requires j < |fs|
    ensures |FindingLines(marker, fs)| == |fs| && FindingLines(marker, fs)[j] == FindingLine(marker, fs[j])
  {
    FindingLinesLength(marker, fs);
    if j > 0 {
      var rest := fs[1..];
      assert rest[j - 1] == fs[j];
      FindingLinesAt(marker, rest, j - 1);
    }
  }

  /** Within one report, the input line comes first, when the input is non-empty. */
  lemma ReportInputLine(r: Report)
    requires HasInput(r)
    ensures ReportLines(Some(r))[0] == "输入(commit message): " + r.input.value
  {
    ReportLinesSome(r);
    IndexLeft(InputPart(r), FindingsPart(r), 0);
  }

  /** Within one report, the finding lines follow the input line (if any). */
  lemma ReportFindingAt(r: Report, m: nat)
    requires m < |FindingsPart(r)|
    ensures InputCount(Some(r)) + m < |ReportLines(Some(r))|
    ensures ReportLines(Some(r))[InputCount(Some(r)) + m] == FindingsPart(r)[m]
  {
    ReportLinesSome(r);
    IndexRight(InputPart(r), FindingsPart(r), m);
  }

  /** Within one report, error `j` is on the line after the input line (if
      any) and the `j` errors before it. */
  lemma ReportErrorLine(r: Report, j: nat)
    requires j < |ErrorsOf(r)|
    ensures InputCount(Some(r)) + j < |ReportLines(Some(r))|
    ensures ReportLines(Some(r))[InputCount(Some(r)) + j] == FindingLine(ErrorLabel, ErrorsOf(r)[j])
  {
    FindingLinesAt(ErrorLabel, ErrorsOf(r), j);
    IndexLeft(FindingLines(ErrorLabel, ErrorsOf(r)), FindingLines(WarningLabel, WarningsOf(r)), j);
    ReportFindingAt(r, j);
  }

  /** Within one report, warning `j` is on the line after the input line (if
      any), all the errors and the `j` warnings before it. */
  lemma ReportWarningLine(r: Report, j: nat)
    requires j < |WarningsOf(r)|
    ensures InputCount(Some(r)) + |ErrorsOf(r)| + j < |ReportLines(Some(r))|
    ensures ReportLines(Some(r))[InputCount(Some(r)) + |ErrorsOf(r)| + j] == FindingLine(WarningLabel, WarningsOf(r)[j])
  {
    FindingLinesLength(ErrorLabel, ErrorsOf(r));
    FindingLinesAt(WarningLabel, WarningsOf(r), j);
    IndexRight(FindingLines(ErrorLabel, ErrorsOf(r)), FindingLines(WarningLabel, WarningsOf(r)), j);
    ReportFindingAt(r, |ErrorsOf(r)| + j);
  }

  /** The exact text of an error or a warning line, for a known and an unknown rule. */
  lemma FindingLineText(f: Finding)
    ensures f.name in RuleNameToChinese ==>
      && FindingLine(ErrorLabel, f) == "✖ 错误: " + RuleNameToChinese[f.name] + " [" + f.name + "]"
      && FindingLine(WarningLabel, f) == "⚠ 警告: " + RuleNameToChinese[f.name] + " [" + f.name + "]"
    ensures f.name !in RuleNameToChinese ==>
      && FindingLine(ErrorLabel, f) == "✖ 错误: 不符合规范: " + f.message + " [" + f.name + "]"
      && FindingLine(WarningLabel, f) == "⚠ 警告: 不符合规范: " + f.message + " [" + f.name + "]"
  {
    if f.name in RuleNameToChinese {
      KnownRuleTranslation(f.message, f.name);
    } else {
      UnknownRuleTranslation(f.message, f.name);
    }
  }

  /** Two reports, one with two errors and one with one error and three
      warnings: nine lines, and the summary counts three errors and three warnings. */
  lemma CountExample(a: Finding, b: Finding, c: Finding, x: Finding, y: Finding, z: Finding)
    ensures var lines := OutputLines(Many([
        Some(Report(None, Some([a, b]), None)),
        Some(Report(None, Some([c]), Some([x, y, z])))]));
      |lines| == 9 && lines[7] == "共发现 3 个错误, 3 个警告"
  {
    var p := Many([Some(Report(None, Some([a, b]), None)), Some(Report(None, Some([c]), Some([x, y, z])))]);
    CountExampleTotals(Some(Report(None, Some([a, b]), None)), Some(Report(None, Some([c]), Some([x, y, z]))));
    EmptyExactlyWhenClean(p);
    OutputShape(p);
    assert Decimal.NatToString(3) == "3";
  }

  /** The totals over two reports add up the counts of each. */
  lemma CountExampleTotals(first: Option<Report>, second: Option<Report>)
    ensures TotalErrors([first, second]) == ErrorCount(first) + ErrorCount(second)
    ensures TotalWarnings([first, second]) == WarningCount(first) + WarningCount(second)
    ensures TotalInputs([first, second]) == InputCount(first) + InputCount(second)
  {
    assert [first, second] == [first] + [second];
    TotalsAppend([first], [second]);
    SingletonList(first);
    SingletonList(second);
  }

  /** A report with an input, errors A and B and warning C gives exactly these
      seven lines. */
  lemma OrderExample(a: Finding, b: Finding, c: Finding)
    ensures OutputLines(Single(Report(Some("feat: x"), Some([a, b]), Some([c])))) == [
      "输入(commit message): feat: x",
      FindingLine(ErrorLabel, a),
      FindingLine(ErrorLabel, b),
      FindingLine(WarningLabel, c),
      "",
      "共发现 2 个错误, 1 个警告",
      ReferenceLine]
  {
    var r := Report(Some("feat: x"), Some([a, b]), Some([c]));
    OrderExampleReport(r, a, b, c);
    assert InputLabel + "feat: x" == "输入(commit message): feat: x";
    SingletonList(Some(r));
    assert Decimal.NatToString(2) == "2" && Decimal.NatToString(1) == "1";
    assert SummaryLine(2, 1) == "共发现 2 个错误, 1 个警告";
    assert OutputLines(Single(r)) == ReportLines(Some(r)) + ["", SummaryLine(2, 1), ReferenceLine];
  }

  /** The lines of one report: its input line, then errors A and B, then warning C. */
  lemma OrderExampleReport(r: Report, a: Finding, b: Finding, c: Finding)
    requires HasInput(r) && r.errors == Some([a, b]) && r.warnings == Some([c])
    ensures ReportLines(Some(r)) == [InputLine(r.input.value), FindingLine(ErrorLabel, a), FindingLine(ErrorLabel, b), FindingLine(WarningLabel, c)]
  {
    FindingLinesOne(ErrorLabel, a);
    FindingLinesOne(ErrorLabel, b);
    FindingLinesOne(WarningLabel, c);
    assert [a, b] == [a] + [b];
    FindingLinesAppend(ErrorLabel, [a], [b]);
    assert ReportLines(Some(r)) == [InputLine(r.input.value)]
      + [FindingLine(ErrorLabel, a), FindingLine(ErrorLabel, b)] + [FindingLine(WarningLabel, c)];
  }
}
