/**
 * The console table report as the sequence of console calls it makes: a
 * titled table per extension with matches, then a summary. Styling and the
 * rendering of the table are not modelled.
 */
module TableOutput {
  import opened Php
  import opened Dto
  import opened Output

  /** One console call: `success`, `title`, a rendered `Table`, `newLine`, `section`, `error`, `warning`, `text`. */
  datatype TableEvent =
    | Success(message: string)
    | Title(message: string)
    | Table(headers: seq<string>, rows: seq<seq<string>>)
    | NewLine
    | Section(message: string)
    | ErrorBlock(message: string)
    | WarningBlock(message: string)
    | Text(lines: seq<string>)

  const Headers: seq<string> := ["File", "Line", "Type", "Message", "Indicator"]
  const StrongLabel: string := "<error> STRONG </error>"
  const WeakLabel: string := "<comment> WEAK </comment>"
  const MaxMessageLength: nat := 60
  const KeptMessageLength: nat := 57

  /** A message of at most 60 bytes is shown as is; a longer one as its first 57 bytes and "...". */
  function Truncate(message: string): (shown: string)
    ensures |message| <= MaxMessageLength ==> shown == message
    ensures |message| > MaxMessageLength ==>
      |shown| == MaxMessageLength && shown[..KeptMessageLength] == message[..KeptMessageLength] &&
      shown[KeptMessageLength..] == "..."
  {
    if |message| > MaxMessageLength then message[..KeptMessageLength] + "..." else message
  }

  /** A shown message never exceeds 60 bytes, so truncating again changes nothing. */
  lemma TruncateIdempotent(message: string)
    ensures |Truncate(message)| <= MaxMessageLength
    ensures Truncate(Truncate(message)) == Truncate(message)
  {
  }

  function IndicatorLabel(m: ScanMatch): string {
    if m.IsStrong() then StrongLabel else WeakLabel
  }

  /** The label is STRONG exactly for strong matches; every other indicator is shown as WEAK. */
  lemma IndicatorLabels(m: ScanMatch)
    ensures IndicatorLabel(m) == StrongLabel <==> m.IsStrong()
    ensures IndicatorLabel(m) == WeakLabel <==> !m.IsStrong()
  {
  }

  /** The cells of one row: file, line, match type, shown message, indicator label. */
  function Row(m: ScanMatch): seq<string> {
    [m.file, DecimalString(m.line), m.MatchType(), Truncate(m.message), IndicatorLabel(m)]
  }

  function Rows(ms: seq<ScanMatch>): (rows: seq<seq<string>>)
    ensures |rows| == |ms|
    ensures forall i :: 0 <= i < |ms| ==> rows[i] == Row(ms[i])
  {
    seq(|ms|, i requires 0 <= i < |ms| => Row(ms[i]))
  }

  lemma RowsSnoc(ms: seq<ScanMatch>, j: nat)
    requires j < |ms|
    ensures Rows(ms[..j + 1]) == Rows(ms[..j]) + [Row(ms[j])]
  {
  }

  lemma RowsAppend(a: seq<ScanMatch>, b: seq<ScanMatch>)
    ensures Rows(a + b) == Rows(a) + Rows(b)
  {
  }

  /** The block shown for one extension: nothing for an empty list, otherwise a titled table. */
  function ResultBlock(key: string, ms: seq<ScanMatch>): seq<TableEvent> {
    if ms == [] then [] else [Title(ResultsTitle(key)), Table(Headers, Rows(ms)), NewLine]
  }

  function ResultBlocks(all: MatchesByExtension): seq<TableEvent> {
    if all == [] then []
    else ResultBlocks(all[..|all| - 1]) + ResultBlock(all[|all| - 1].0, all[|all| - 1].1)
  }

  const StrongExplanation: string := "<info>Strong matches</info>: Definite usage of removed/deprecated API - must be fixed."
  const WeakExplanation: string := "<comment>Weak matches</comment>: Potential matches that need manual verification."
  const NoIssuesMessage: string := "No deprecated API usage found!"

  /** `sprintf('Results for: %s', $extensionKey)`. */
  function ResultsTitle(key: string): string {
    "Results for: " + key
  }

  function StrongSummary(totalStrong: int): string {
    "Found " + DecimalString(totalStrong) + " strong match(es) that WILL break on upgrade."
  }

  function WeakSummary(totalWeak: int): string {
    "Found " + DecimalString(totalWeak) + " weak match(es) that MAY need attention."
  }

  const TotalsPrefix: string := "Total issues: "

  /** `sprintf('Total issues: %d (%d strong, %d weak)', ...)`. */
  function TotalsLine(totalStrong: int, totalWeak: int): string {
    TotalsPrefix + DecimalString(totalStrong + totalWeak) + CountsInBrackets(totalStrong, totalWeak)
  }

  function CountsInBrackets(totalStrong: int, totalWeak: int): string {
    " (" + DecimalString(totalStrong) + " strong, " + DecimalString(totalWeak) + " weak)"
  }

  /** The closing text: the totals line between blank lines, then the two explanations. */
  function TotalsText(totalStrong: int, totalWeak: int): seq<string> {
    ["", TotalsLine(totalStrong, totalWeak), "", StrongExplanation, WeakExplanation]
  }

  function SummaryEvents(totalStrong: int, totalWeak: int): seq<TableEvent> {
    [Section("Summary")] +
    (if totalStrong > 0 then [ErrorBlock(StrongSummary(totalStrong))] else []) +
    (if totalWeak > 0 then [WarningBlock(WeakSummary(totalWeak))] else []) +
    [Text(TotalsText(totalStrong, totalWeak))]
  }

  /**
   * `format`: with no issue counted it only congratulates, whatever the lists
   * hold; otherwise a block per extension with matches, then the summary.
   */
  method Format(all: MatchesByExtension, totalStrong: int, totalWeak: int) returns (events: seq<TableEvent>)
    ensures IsReportFor(events, all, totalStrong, totalWeak)
  {
    var totalMatches := totalStrong + totalWeak;
    if totalMatches == 0 {
      events := [Success(NoIssuesMessage)];
      return;
    }
    events := ResultTables(all);
    events := WriteSummary(events, totalStrong, totalWeak);
  }

  ghost predicate IsReportFor(events: seq<TableEvent>, all: MatchesByExtension, totalStrong: int, totalWeak: int) {
    (totalStrong + totalWeak == 0 ==> events == [Success(NoIssuesMessage)]) &&
    (totalStrong + totalWeak != 0 ==> events == ResultBlocks(all) + SummaryEvents(totalStrong, totalWeak))
  }

  /** `format`'s loop over the extensions. */
  method ResultTables(all: MatchesByExtension) returns (events: seq<TableEvent>)
    ensures events == ResultBlocks(all)
  {
    events := [];
    for i := 0 to |all|
      invariant events == ResultBlocks(all[..i])
    {
      ResultBlocksSnoc(all, i);
      var extensionKey := all[i].0;
      var matches := all[i].1;
      if matches == [] {
        continue;
      }
      events := events + [Title(ResultsTitle(extensionKey))];
      var rows := TableRows(matches);
      events := events + [Table(Headers, rows), NewLine];
    }
    assert all[..|all|] == all;
  }

  lemma ResultBlocksSnoc(all: MatchesByExtension, i: nat)
    requires i < |all|
    ensures ResultBlocks(all[..i + 1]) == ResultBlocks(all[..i]) + ResultBlock(all[i].0, all[i].1)
  {
    assert all[..i + 1][..i] == all[..i];
  }

  /** `format`'s summary: the section, the conditional error and warning, the closing text. */
  method WriteSummary(before: seq<TableEvent>, totalStrong: int, totalWeak: int) returns (events: seq<TableEvent>)
    ensures events == before + SummaryEvents(totalStrong, totalWeak)
  {
    events := before + [Section("Summary")];
    if totalStrong > 0 {
      events := events + [ErrorBlock(StrongSummary(totalStrong))];
    }
    if totalWeak > 0 {
      events := events + [WarningBlock(WeakSummary(totalWeak))];
    }
    events := events + [Text(TotalsText(totalStrong, totalWeak))];
  }

  /** The rows added to one extension's table, one per match, with the label and the truncated message. */
  method TableRows(matches: seq<ScanMatch>) returns (rows: seq<seq<string>>)
    ensures rows == Rows(matches)
  {
    rows := [];
    for j := 0 to |matches|
      invariant rows == Rows(matches[..j])
    {
      var found := matches[j];
      var indicator := if found.IsStrong() then StrongLabel else WeakLabel;
      var message := found.message;
      if |message| > 60 {
        message := message[..57] + "...";
      }
      RowsSnoc(matches, j);
      rows := rows + [[found.file, DecimalString(found.line), found.MatchType(), message, indicator]];
    }
    assert matches[..|matches|] == matches;
  }

  // ----- what the report shows -----

  /** The rows of all rendered tables, in order. */
  function ShownRows(events: seq<TableEvent>): seq<seq<string>> {
    if events == [] then []
    else ShownRows(events[..|events| - 1]) + (if events[|events| - 1].Table? then events[|events| - 1].rows else [])
  }

  lemma {:induction false} ShownRowsAppend(a: seq<TableEvent>, b: seq<TableEvent>)
    ensures ShownRows(a + b) == ShownRows(a) + ShownRows(b)
  {
    if b == [] {
      assert a + b == a;
    } else {
      assert (a + b)[..|a + b| - 1] == a + b[..|b| - 1];
      ShownRowsAppend(a, b[..|b| - 1]);
    }
  }

  /** The block of one extension shows the rows of its matches, none for an empty list. */
  lemma ShownRowsOfBlock(key: string, ms: seq<ScanMatch>)
    ensures ShownRows(ResultBlock(key, ms)) == Rows(ms)
  {
    if ms != [] {
      var title := Title(ResultsTitle(key));
      var table := Table(Headers, Rows(ms));
      var block := [title, table, NewLine];
      assert ResultBlock(key, ms) == block;
      assert block[..2] == [title, table];
      assert [title, table][..1] == [title];
      assert [title][..0] == [];
      assert ShownRows([title]) == [];
      assert ShownRows([title, table]) == Rows(ms);
    }
  }

  /** The tables together show one row per match of every extension, in order; empty extensions add none. */
  lemma {:induction false} ShownRowsAreAllMatches(all: MatchesByExtension)
    ensures ShownRows(ResultBlocks(all)) == Rows(AllMatches(all))
  {
    if all != [] {
      var n := |all| - 1;
      ShownRowsAreAllMatches(all[..n]);
      ShownRowsAppend(ResultBlocks(all[..n]), ResultBlock(all[n].0, all[n].1));
      ShownRowsOfBlock(all[n].0, all[n].1);
      RowsAppend(AllMatches(all[..n]), all[n].1);
      assert all[..n + 1] == all;
      AllMatchesSnoc(all, n);
      ResultBlocksSnoc(all, n);
    }
  }

  /** The error line appears exactly when strong matches were counted, the warning exactly when weak ones were. */
  lemma SummaryLines(totalStrong: int, totalWeak: int)
    ensures (exists e :: e in SummaryEvents(totalStrong, totalWeak) && e.ErrorBlock?) <==> totalStrong > 0
    ensures (exists e :: e in SummaryEvents(totalStrong, totalWeak) && e.WarningBlock?) <==> totalWeak > 0
    ensures SummaryEvents(totalStrong, totalWeak)[0] == Section("Summary")
  {
    var events := SummaryEvents(totalStrong, totalWeak);
    if totalStrong > 0 {
      assert events[1].ErrorBlock?;
    }
    if totalWeak > 0 {
      assert events[|events| - 2].WarningBlock?;
    }
  }

  /** The totals line starts with a number that reads back as strong plus weak. */
  lemma TotalLineReportsSum(totalStrong: int, totalWeak: int)
    ensures exists n: string ::
      (IsNumeric(Str(n)) && IntCast(Str(n)) == totalStrong + totalWeak &&
       |TotalsPrefix + n| <= |TotalsLine(totalStrong, totalWeak)| &&
       TotalsLine(totalStrong, totalWeak)[..|TotalsPrefix + n|] == TotalsPrefix + n)
  {
    var n := DecimalString(totalStrong + totalWeak);
    DecimalStringRoundTrip(totalStrong + totalWeak);
    var head := TotalsPrefix + n;
    assert TotalsLine(totalStrong, totalWeak) == head + CountsInBrackets(totalStrong, totalWeak);
    assert TotalsLine(totalStrong, totalWeak)[..|head|] == head;
  }

  /** The summary always closes with the five lines of text, the totals line second. */
  lemma SummaryEndsWithTotals(totalStrong: int, totalWeak: int)
    ensures var events := SummaryEvents(totalStrong, totalWeak);
      events[|events| - 1] == Text(TotalsText(totalStrong, totalWeak)) &&
      TotalsText(totalStrong, totalWeak)[1] == TotalsLine(totalStrong, totalWeak)
  {
  }
}
