/**
 * The JSON report as the structure handed to the encoder: a summary block
 * and one entry per extension. The encoding itself is not modelled.
 */
module JsonOutput {
  import opened OrderedMap
  import opened Php
  import opened Dto
  import opened Output

  /** `summary`; `timestamp` is the caller's `date('c')`. */
  datatype Summary = Summary(total: int, strong: int, weak: int, extensionsScanned: int, timestamp: string)

  /** One element of `extensions`. */
  datatype ExtensionResult = ExtensionResult(key: string, total: int, strong: int, weak: int, matches: seq<PhpArray>)

  datatype JsonDocument = JsonDocument(summary: Summary, extensions: seq<ExtensionResult>)

  /** `toArray()` of every match, in order. */
  function Records(ms: seq<ScanMatch>): (rs: seq<PhpArray>)
    ensures |rs| == |ms|
    ensures forall i :: 0 <= i < |ms| ==> rs[i] == ms[i].ToArray()
  {
    seq(|ms|, i requires 0 <= i < |ms| => ms[i].ToArray())
  }

  lemma RecordsSnoc(ms: seq<ScanMatch>, j: nat)
    requires j < |ms|
    ensures Records(ms[..j + 1]) == Records(ms[..j]) + [ms[j].ToArray()]
  {
  }

  /**
   * `format`: the summary echoes the caller's totals (it does not recount)
   * and there is exactly one entry per extension key, in input order, empty
   * lists included.
   */
  method Format(all: MatchesByExtension, totalStrong: int, totalWeak: int, timestamp: string) returns (doc: JsonDocument)
    ensures IsReportFor(doc, all, totalStrong, totalWeak, timestamp)
  {
    var extensions: seq<ExtensionResult> := [];
    for i := 0 to |all|
      invariant |extensions| == i
      invariant forall e :: 0 <= e < i ==> IsEntryFor(extensions[e], all[e].0, all[e].1)
    {
      var entry := ExtensionEntry(all[i].0, all[i].1);
      extensions := extensions + [entry];
    }
    doc := JsonDocument(Summary(totalStrong + totalWeak, totalStrong, totalWeak, |all|, timestamp), extensions);
  }

  ghost predicate IsReportFor(doc: JsonDocument, all: MatchesByExtension, totalStrong: int, totalWeak: int, timestamp: string) {
    doc.summary == Summary(totalStrong + totalWeak, totalStrong, totalWeak, |all|, timestamp) &&
    |doc.extensions| == |all| &&
    forall i :: 0 <= i < |all| ==> IsEntryFor(doc.extensions[i], all[i].0, all[i].1)
  }

  /**
   * An entry describes the matches of `key`: it counts them, strong by
   * `isStrong` and weak as all the others, and lists their arrays in order.
   */
  ghost predicate IsEntryFor(entry: ExtensionResult, key: string, ms: seq<ScanMatch>) {
    entry.key == key &&
    entry.total == |ms| &&
    entry.strong == StrongCount(ms) &&
    entry.weak == |ms| - StrongCount(ms) &&
    entry.matches == Records(ms)
  }

  /** The body of `format`'s loop over one extension's matches. */
  method ExtensionEntry(key: string, matches: seq<ScanMatch>) returns (entry: ExtensionResult)
    ensures IsEntryFor(entry, key, matches)
  {
    var strong := 0;
    var weak := 0;
    var records: seq<PhpArray> := [];
    for j := 0 to |matches|
      invariant strong == StrongCount(matches[..j])
      invariant weak == j - strong
      invariant records == Records(matches[..j])
    {
      StrongCountSnoc(matches, j);
      RecordsSnoc(matches, j);
      if matches[j].IsStrong() {
        strong := strong + 1;
      } else {
        weak := weak + 1;
      }
      records := records + [matches[j].ToArray()];
    }
    assert matches[..|matches|] == matches;
    entry := ExtensionResult(key, |matches|, strong, weak, records);
  }

  /**
   * An entry's weak count is the number of its matches `isStrong` rejects,
   * so a match with an indicator other than "strong" or "weak" counts as weak.
   */
  lemma EntryWeakIsNotStrong(entry: ExtensionResult, key: string, ms: seq<ScanMatch>)
    requires IsEntryFor(entry, key, ms)
    ensures entry.weak == NotStrongCount(ms)
  {
    StrongCountSplit(ms);
  }

  /** Each listed record reads back, with its match's file and class, as that match. */
  lemma RecordsReadBack(ms: seq<ScanMatch>, i: nat)
    requires i < |ms|
    ensures FromMatcherOutput(Records(ms)[i], ms[i].file, ms[i].absolutePath, ms[i].matcherClass) == ms[i]
  {
    FromArrayRoundTrip(ms[i]);
  }

  /** The entries' totals add up to the number of matches over all extensions. */
  function EntryTotals(es: seq<ExtensionResult>): int {
    if es == [] then 0 else EntryTotals(es[..|es| - 1]) + es[|es| - 1].total
  }

  lemma {:induction false} EntryTotalsCountAllMatches(all: MatchesByExtension, es: seq<ExtensionResult>)
    requires |es| == |all|
    requires forall i :: 0 <= i < |all| ==> es[i].total == |all[i].1|
    ensures EntryTotals(es) == |AllMatches(all)|
  {
    if all != [] {
      var n := |all| - 1;
      EntryTotalsCountAllMatches(all[..n], es[..n]);
    }
  }
}
