/**
 * The Checkstyle report as an element tree: the matches of all extensions
 * regrouped by absolute file path, one `error` element per match. XML
 * writing, escaping and indentation are not modelled.
 */
module CheckstyleOutput {
  import opened Wrappers
  import opened OrderedMap
  import opened Php
  import opened Dto
  import opened Output

  datatype ErrorElement = ErrorElement(line: string, column: string, severity: string, message: string, source: string)

  datatype FileElement = FileElement(name: string, errors: seq<ErrorElement>)

  datatype CheckstyleDocument = CheckstyleDocument(version: string, files: seq<FileElement>)

  const SourcePrefix: string := "TYPO3.ExtensionScanner."

  /** `$matchesByFile`: absolute path => the matches in that file. */
  type FileGroups = OMap<string, seq<ScanMatch>>

  /** The attributes of the `error` element written for one match. */
  function ErrorOf(m: ScanMatch): ErrorElement {
    ErrorElement(DecimalString(m.line), "0", if m.IsStrong() then "error" else "warning", m.message,
                 SourcePrefix + m.MatchType())
  }

  /**
   * The line attribute reads back as the match's line, the column is always
   * "0", the severity is "error" exactly for strong matches and "warning" for
   * every other indicator, and the source names the match type.
   */
  lemma ErrorAttributes(m: ScanMatch)
    ensures var e := ErrorOf(m);
      IsNumeric(Str(e.line)) && IntCast(Str(e.line)) == m.line &&
      e.column == "0" &&
      (e.severity == "error" <==> m.IsStrong()) &&
      (e.severity == "warning" <==> !m.IsStrong()) &&
      e.message == m.message &&
      e.source[..|SourcePrefix|] == SourcePrefix && e.source[|SourcePrefix|..] == m.MatchType()
  {
    DecimalStringRoundTrip(m.line);
  }

  function Errors(ms: seq<ScanMatch>): (es: seq<ErrorElement>)
    ensures |es| == |ms|
    ensures forall i :: 0 <= i < |ms| ==> es[i] == ErrorOf(ms[i])
  {
    seq(|ms|, i requires 0 <= i < |ms| => ErrorOf(ms[i]))
  }

  lemma ErrorsSnoc(ms: seq<ScanMatch>, j: nat)
    requires j < |ms|
    ensures Errors(ms[..j + 1]) == Errors(ms[..j]) + [ErrorOf(ms[j])]
  {
  }

  lemma ConcatSnoc(seen: seq<ScanMatch>, ms: seq<ScanMatch>, j: nat)
    requires j < |ms|
    ensures seen + ms[..j + 1] == (seen + ms[..j]) + [ms[j]]
  {
  }

  // ----- grouping -----

  /** `$matchesByFile[$path][] = $match`, creating the group when the path is new. */
  function AddToGroup(groups: FileGroups, m: ScanMatch): FileGroups {
    Put(groups, m.absolutePath, Get(groups, m.absolutePath).GetOr([]) + [m])
  }

  function GroupByPath(ms: seq<ScanMatch>): FileGroups {
    if ms == [] then [] else AddToGroup(GroupByPath(ms[..|ms| - 1]), ms[|ms| - 1])
  }

  function Paths(ms: seq<ScanMatch>): (ps: seq<string>)
    ensures |ps| == |ms|
    ensures forall i :: 0 <= i < |ms| ==> ps[i] == ms[i].absolutePath
  {
    if ms == [] then [] else Paths(ms[..|ms| - 1]) + [ms[|ms| - 1].absolutePath]
  }

  /** The matches located in `path`, in encounter order. */
  function InFile(ms: seq<ScanMatch>, path: string): seq<ScanMatch> {
    if ms == [] then []
    else InFile(ms[..|ms| - 1], path) + (if ms[|ms| - 1].absolutePath == path then [ms[|ms| - 1]] else [])
  }

  lemma {:induction false} InFileAbsent(ms: seq<ScanMatch>, path: string)
    requires path !in Paths(ms)
    ensures InFile(ms, path) == []
  {
    if ms != [] {
      var n := |ms| - 1;
      assert Paths(ms[..n]) == Paths(ms)[..n];
      InFileAbsent(ms[..n], path);
    }
  }

  /** There is one group per distinct path, ordered by the path's first occurrence. */
  lemma {:induction false} GroupOrder(ms: seq<ScanMatch>)
    ensures InFirstOccurrenceOrder(Keys(GroupByPath(ms)), Paths(ms))
  {
    if ms != [] {
      var n := |ms| - 1;
      GroupOrder(ms[..n]);
      var g := GroupByPath(ms[..n]);
      var p := ms[n].absolutePath;
      var keys := Keys(g);
      KeysPut(g, p, Get(g, p).GetOr([]) + [ms[n]]);
      assert Keys(GroupByPath(ms)) == if p in keys then keys else keys + [p];
      FirstOccurrenceSnoc(keys, Paths(ms[..n]), p);
    }
  }

  /** The group of a path holds exactly the matches in that file, in encounter order across extensions. */
  lemma {:induction false} GroupContents(ms: seq<ScanMatch>, path: string)
    ensures Get(GroupByPath(ms), path) == if path in Paths(ms) then Some(InFile(ms, path)) else None
  {
    if ms != [] {
      var n := |ms| - 1;
      GroupContents(ms[..n], path);
      var g := GroupByPath(ms[..n]);
      var p := ms[n].absolutePath;
      GetPut(g, p, Get(g, p).GetOr([]) + [ms[n]], path);
      assert InFile(ms, path) == InFile(ms[..n], path) + (if p == path then [ms[n]] else []);
      assert Paths(ms) == Paths(ms[..n]) + [p];
      if path == p {
        if path !in Paths(ms[..n]) {
          InFileAbsent(ms[..n], path);
        }
        assert Get(GroupByPath(ms), path) == Some(Get(g, p).GetOr([]) + [ms[n]]);
      } else {
        assert Get(GroupByPath(ms), path) == Get(g, path);
        assert InFile(ms, path) == InFile(ms[..n], path) + [];
        assert InFile(ms[..n], path) + [] == InFile(ms[..n], path);
        assert (path in Paths(ms)) == (path in Paths(ms[..n]));
      }
    }
  }

  /** The total size of the groups. */
  function GroupSizes(groups: FileGroups): nat {
    if groups == [] then 0 else |groups[0].1| + GroupSizes(groups[1..])
  }

  lemma {:induction false} GroupSizesPut(groups: FileGroups, path: string, ms: seq<ScanMatch>)
    ensures GroupSizes(Put(groups, path, ms)) + |Get(groups, path).GetOr([])| == GroupSizes(groups) + |ms|
  {
    if groups != [] && groups[0].0 != path {
      GroupSizesPut(groups[1..], path, ms);
      assert Put(groups, path, ms)[1..] == Put(groups[1..], path, ms);
    }
  }

  /** Every match lands in exactly one group: the group sizes add up to the number of matches. */
  lemma {:induction false} GroupSizesCount(ms: seq<ScanMatch>)
    ensures GroupSizes(GroupByPath(ms)) == |ms|
  {
    if ms != [] {
      var n := |ms| - 1;
      GroupSizesCount(ms[..n]);
      var g := GroupByPath(ms[..n]);
      var p := ms[n].absolutePath;
      GroupSizesPut(g, p, Get(g, p).GetOr([]) + [ms[n]]);
    }
  }

  lemma GroupByPathSnoc(ms: seq<ScanMatch>, m: ScanMatch)
    ensures GroupByPath(ms + [m]) == AddToGroup(GroupByPath(ms), m)
  {
    assert (ms + [m])[..|ms|] == ms;
  }

  // ----- the formatter -----

  /** The XML document written for all matches: version "4.3" and one file element per group, in group order. */
  ghost predicate IsReportFor(doc: CheckstyleDocument, all: MatchesByExtension) {
    var groups := GroupByPath(AllMatches(all));
    doc.version == "4.3" &&
    |doc.files| == |groups| &&
    forall i :: 0 <= i < |groups| ==> doc.files[i] == FileElement(groups[i].0, Errors(groups[i].1))
  }

  /** `format`: the strong and weak totals are accepted and never read. */
  method Format(all: MatchesByExtension, totalStrong: int, totalWeak: int) returns (doc: CheckstyleDocument)
    ensures IsReportFor(doc, all)
  {
    var matchesByFile := GroupMatches(all);
    var files: seq<FileElement> := [];
    for i := 0 to |matchesByFile|
      invariant |files| == i
      invariant forall f :: 0 <= f < i ==> files[f] == FileElement(matchesByFile[f].0, Errors(matchesByFile[f].1))
    {
      var filePath := matchesByFile[i].0;
      var matches := matchesByFile[i].1;
      var errors: seq<ErrorElement> := [];
      for j := 0 to |matches|
        invariant errors == Errors(matches[..j])
      {
        ErrorsSnoc(matches, j);
        errors := errors + [ErrorOf(matches[j])];
      }
      assert matches[..|matches|] == matches;
      files := files + [FileElement(filePath, errors)];
    }
    doc := CheckstyleDocument("4.3", files);
  }

  /** Creating an empty group for a new path and then appending is one `AddToGroup`. */
  lemma IssetThenAppend(groups: FileGroups, m: ScanMatch)
    ensures var created := if Get(groups, m.absolutePath).None? then Put(groups, m.absolutePath, []) else groups;
      Get(created, m.absolutePath).Some? &&
      Put(created, m.absolutePath, Get(created, m.absolutePath).value + [m]) == AddToGroup(groups, m)
  {
    var p := m.absolutePath;
    if Get(groups, p).None? {
      GetPut(groups, p, [], p);
      PutPut(groups, p, [], [m]);
      assert [] + [m] == [m];
    }
  }

  /** The first loop of `format`: every match of every extension into the group of its absolute path. */
  method GroupMatches(all: MatchesByExtension) returns (matchesByFile: FileGroups)
    ensures matchesByFile == GroupByPath(AllMatches(all))
  {
    matchesByFile := [];
    for i := 0 to |all|
      invariant matchesByFile == GroupByPath(AllMatches(all[..i]))
    {
      matchesByFile := AddMatches(matchesByFile, AllMatches(all[..i]), all[i].1);
      AllMatchesSnoc(all, i);
    }
    assert all[..|all|] == all;
  }

  /** The inner loop of the grouping: the matches of one extension, one after the other. */
  method AddMatches(groups: FileGroups, ghost seen: seq<ScanMatch>, matches: seq<ScanMatch>) returns (matchesByFile: FileGroups)
    requires groups == GroupByPath(seen)
    ensures matchesByFile == GroupByPath(seen + matches)
  {
    matchesByFile := groups;
    assert seen + matches[..0] == seen;
    for j := 0 to |matches|
      invariant matchesByFile == GroupByPath(seen + matches[..j])
    {
      var found := matches[j];
      var absolutePath := found.absolutePath;
      ConcatSnoc(seen, matches, j);
      GroupByPathSnoc(seen + matches[..j], found);
      IssetThenAppend(matchesByFile, found);
      if Get(matchesByFile, absolutePath).None? {
        matchesByFile := Put(matchesByFile, absolutePath, []);
      }
      matchesByFile := Put(matchesByFile, absolutePath, Get(matchesByFile, absolutePath).value + [found]);
    }
    assert matches[..|matches|] == matches;
  }

  /** Every match of every extension appears as exactly one error element. */
  lemma ReportCoversEveryMatch(doc: CheckstyleDocument, all: MatchesByExtension)
    requires IsReportFor(doc, all)
    ensures ErrorCount(doc.files) == |AllMatches(all)|
  {
    var groups := GroupByPath(AllMatches(all));
    GroupSizesCount(AllMatches(all));
    ErrorCountOfGroups(doc.files, groups);
  }

  function ErrorCount(files: seq<FileElement>): nat {
    if files == [] then 0 else |files[0].errors| + ErrorCount(files[1..])
  }

  lemma {:induction false} ErrorCountOfGroups(files: seq<FileElement>, groups: FileGroups)
    requires |files| == |groups|
    requires forall i :: 0 <= i < |groups| ==> files[i] == FileElement(groups[i].0, Errors(groups[i].1))
    ensures ErrorCount(files) == GroupSizes(groups)
  {
    if files != [] {
      ErrorCountOfGroups(files[1..], groups[1..]);
    }
  }
}
