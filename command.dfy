/**
 * The `extension:scan` console command: validates the format, decides which
 * paths to scan, scans them with the scanner service, hands everything to
 * the chosen formatter and turns the totals into an exit code. Console
 * output is modelled as the sequence of messages the command writes.
 */
module Command {
  import opened Wrappers
  import opened OrderedMap
  import opened Php
  import opened PhpString
  import opened Service
  import opened Output
  import JsonOutput
  import CheckstyleOutput
  import TableOutput

  const SupportedFormats: seq<string> := ["table", "json", "checkstyle"]

  /** `Command::SUCCESS`, `Command::FAILURE` and the command's own code for weak-only findings. */
  const ExitSuccess: int := 0
  const ExitFailure: int := 1
  const ExitWeakOnly: int := 2

  const FrameworkType: string := "typo3-cms-framework"

  /** `in_array($format, self::SUPPORTED_FORMATS, true)`. */
  predicate IsSupportedFormat(format: string) {
    format in SupportedFormats
  }

  // ----- exit code -----

  /** Strong findings fail the command; weak ones only with `--fail-on-weak`, and with a code of their own. */
  function ExitCode(totalStrong: int, totalWeak: int, failOnWeak: bool): (code: int)
    ensures code == ExitFailure <==> totalStrong > 0
    ensures code == ExitWeakOnly <==> totalStrong <= 0 && failOnWeak && totalWeak > 0
    ensures code == ExitSuccess <==> totalStrong <= 0 && !(failOnWeak && totalWeak > 0)
  {
    if totalStrong > 0 then ExitFailure
    else if failOnWeak && totalWeak > 0 then ExitWeakOnly
    else ExitSuccess
  }

  /** Without `--fail-on-weak` weak findings never change the exit code. */
  lemma WeakFindingsAloneDoNotFail(totalStrong: int, totalWeak: int, totalWeak': int)
    ensures ExitCode(totalStrong, totalWeak, false) == ExitCode(totalStrong, totalWeak', false)
    ensures ExitCode(totalStrong, totalWeak, false) != ExitWeakOnly
  {
  }

  // ----- packages -----

  datatype Package = Package(key: string, path: string, composerType: Value)

  /** The active packages, by package key. */
  datatype PackageManager = PackageManager(active: OMap<string, Package>)
  {
    predicate IsPackageActive(key: string) {
      key in Keys(active)
    }

    function GetActivePackages(): seq<Package> {
      Values(active)
    }

    function PackagePath(key: string): string
      requires IsPackageActive(key)
    {
      Get(active, key).value.path
    }
  }

  /** `getValueFromComposerManifest('type') === 'typo3-cms-framework'`. */
  predicate IsFramework(p: Package) {
    p.composerType == Str(FrameworkType)
  }

  /** Whether `--all` scans package `p`. */
  predicate IsSelected(p: Package, includeSystem: bool) {
    includeSystem || !IsFramework(p)
  }

  /** `--all`: every active package, system ones only with `--include-system`. */
  function SelectedPackages(packages: seq<Package>, includeSystem: bool): OMap<string, string> {
    if packages == [] then []
    else
      var previous := SelectedPackages(packages[..|packages| - 1], includeSystem);
      var p := packages[|packages| - 1];
      if IsSelected(p, includeSystem) then Put(previous, p.key, p.path) else previous
  }

  /** The first position in `keys` whose package is not active, `|keys|` when all are. */
  function FirstInactive(pm: PackageManager, keys: seq<string>): (i: nat)
    ensures i <= |keys|
    ensures forall j :: 0 <= j < i ==> pm.IsPackageActive(keys[j])
    ensures i < |keys| ==> !pm.IsPackageActive(keys[i])
  {
    if keys == [] then 0
    else if !pm.IsPackageActive(keys[0]) then 0
    else 1 + FirstInactive(pm, keys[1..])
  }

  /** Extension keys, all active: each key with its package path. */
  function ExtensionPaths(pm: PackageManager, keys: seq<string>): OMap<string, string>
    requires forall i :: 0 <= i < |keys| ==> pm.IsPackageActive(keys[i])
  {
    if keys == [] then []
    else
      var k := keys[|keys| - 1];
      Put(ExtensionPaths(pm, keys[..|keys| - 1]), k, pm.PackagePath(k))
  }

  /** What `resolvePathsToScan` returns: the paths by extension key, or null after reporting an error. */
  datatype Resolution = Resolved(paths: OMap<string, string>) | Unresolved(error: ConsoleEvent)

  /** The messages the command writes. */
  datatype ConsoleEvent =
    | InvalidFormat(format: string)
    | PathMissing(path: string)
    | ExtensionInactive(key: string)
    | MissingTarget
    | NoExtensionsFound
    | Scanning(key: string)
    | Callback(notice: Notice)
    | LineBreak

  /** The precedence of `resolvePathsToScan`: a custom path, else `--all`, else the extension keys. */
  function Resolve(pm: PackageManager, fs: FileSystem, extensions: seq<string>, customPath: Option<string>,
                   scanAll: bool, includeSystem: bool): Resolution
  {
    if customPath.Some? then
      if fs.isDirectory(customPath.value) then Resolved([("custom", RTrim(customPath.value, '/'))])
      else Unresolved(PathMissing(customPath.value))
    else if scanAll then Resolved(SelectedPackages(pm.GetActivePackages(), includeSystem))
    else if extensions != [] then
      var i := FirstInactive(pm, extensions);
      if i < |extensions| then Unresolved(ExtensionInactive(extensions[i]))
      else Resolved(ExtensionPaths(pm, extensions))
    else Unresolved(MissingTarget)
  }

  /** A custom path decides alone: the packages, `--all` and the extension keys are not consulted. */
  lemma CustomPathWins(pm: PackageManager, pm': PackageManager, fs: FileSystem, path: string,
                       extensions: seq<string>, extensions': seq<string>, scanAll: bool, scanAll': bool,
                       includeSystem: bool, includeSystem': bool)
    ensures Resolve(pm, fs, extensions, Some(path), scanAll, includeSystem) ==
            Resolve(pm', fs, extensions', Some(path), scanAll', includeSystem')
  {
  }

  /** Without a custom path, `--all` ignores the extension keys. */
  lemma ScanAllWinsOverKeys(pm: PackageManager, fs: FileSystem, extensions: seq<string>, extensions': seq<string>,
                            includeSystem: bool)
    ensures Resolve(pm, fs, extensions, None, true, includeSystem) == Resolve(pm, fs, extensions', None, true, includeSystem)
  {
  }

  /** An existing custom path is scanned as "custom", without its trailing slashes. */
  lemma CustomPathEntry(pm: PackageManager, fs: FileSystem, extensions: seq<string>, path: string,
                        scanAll: bool, includeSystem: bool)
    requires fs.isDirectory(path)
    ensures var r := Resolve(pm, fs, extensions, Some(path), scanAll, includeSystem);
      r.Resolved? && |r.paths| == 1 && r.paths[0].0 == "custom" &&
      path[..|r.paths[0].1|] == r.paths[0].1 &&
      (|r.paths[0].1| > 0 ==> r.paths[0].1[|r.paths[0].1| - 1] != '/') &&
      (forall j :: |r.paths[0].1| <= j < |path| ==> path[j] == '/')
  {
  }

  /**
   * A custom path made only of slashes, such as "/", passes the directory
   * check but is trimmed to the empty path, which is what gets scanned.
   */
  lemma SlashesOnlyPathIsEmpty(pm: PackageManager, fs: FileSystem, extensions: seq<string>, path: string,
                               scanAll: bool, includeSystem: bool)
    requires fs.isDirectory(path) && forall j :: 0 <= j < |path| ==> path[j] == '/'
    ensures Resolve(pm, fs, extensions, Some(path), scanAll, includeSystem) == Resolved([("custom", "")])
  {
  }

  /**
   * With `--all`, a key is scanned exactly when some active package has it and
   * either system extensions are included or that package is not a framework package.
   */
  lemma {:induction false} SelectedPackagesAre(packages: seq<Package>, includeSystem: bool, key: string)
    ensures key in Keys(SelectedPackages(packages, includeSystem)) <==>
      exists i :: 0 <= i < |packages| && packages[i].key == key && IsSelected(packages[i], includeSystem)
  {
    if packages != [] {
      var n := |packages| - 1;
      SelectedPackagesAre(packages[..n], includeSystem, key);
      var previous := SelectedPackages(packages[..n], includeSystem);
      var p := packages[n];
      if IsSelected(p, includeSystem) {
        KeysPut(previous, p.key, p.path);
      }
      if exists i :: 0 <= i < |packages| && packages[i].key == key && IsSelected(packages[i], includeSystem) {
        var i :| 0 <= i < |packages| && packages[i].key == key && IsSelected(packages[i], includeSystem);
        if i < n {
          assert packages[..n][i] == packages[i];
        }
      } else {
        assert forall i :: 0 <= i < n ==> packages[..n][i] == packages[i];
      }
    }
  }

  /** `--all` scans each key once. */
  lemma {:induction false} SelectedPackagesDistinct(packages: seq<Package>, includeSystem: bool)
    ensures Distinct(Keys(SelectedPackages(packages, includeSystem)))
  {
    if packages != [] {
      var n := |packages| - 1;
      SelectedPackagesDistinct(packages[..n], includeSystem);
      var previous := SelectedPackages(packages[..n], includeSystem);
      var p := packages[n];
      if IsSelected(p, includeSystem) {
        KeysPut(previous, p.key, p.path);
        DistinctSnoc(Keys(previous), p.key);
      }
    }
  }

  /** Appending an element the sequence lacks keeps it free of repetition. */
  lemma DistinctSnoc<T>(s: seq<T>, x: T)
    requires Distinct(s)
    ensures Distinct(if x in s then s else s + [x])
  {
  }

  /** An inactive key makes the whole resolution fail, reporting the first such key. */
  lemma InactiveKeyFails(pm: PackageManager, fs: FileSystem, extensions: seq<string>, includeSystem: bool)
    ensures var r := Resolve(pm, fs, extensions, None, false, includeSystem);
      r.Unresolved? <==> extensions == [] || exists i :: 0 <= i < |extensions| && !pm.IsPackageActive(extensions[i])
  {
  }

  /** With active extension keys, the map has one entry per distinct key, in the order the keys first appear. */
  lemma {:induction false} ExtensionPathsOrder(pm: PackageManager, keys: seq<string>)
    requires forall i :: 0 <= i < |keys| ==> pm.IsPackageActive(keys[i])
    ensures InFirstOccurrenceOrder(Keys(ExtensionPaths(pm, keys)), keys)
  {
    if keys != [] {
      var n := |keys| - 1;
      var k := keys[n];
      var front := keys[..n];
      assert forall i :: 0 <= i < |front| ==> pm.IsPackageActive(front[i]) by {
        assert forall i :: 0 <= i < |front| ==> front[i] == keys[i];
      }
      ExtensionPathsOrder(pm, front);
      var previous := ExtensionPaths(pm, front);
      var ks := Keys(previous);
      KeysPut(previous, k, pm.PackagePath(k));
      assert Keys(ExtensionPaths(pm, keys)) == if k in ks then ks else ks + [k];
      FirstOccurrenceSnoc(ks, front, k);
      assert front + [k] == keys;
    }
  }

  /** Each extension key is mapped to its package path. */
  lemma {:induction false} ExtensionPathsLookup(pm: PackageManager, keys: seq<string>, i: nat)
    requires forall j :: 0 <= j < |keys| ==> pm.IsPackageActive(keys[j])
    requires i < |keys|
    ensures Get(ExtensionPaths(pm, keys), keys[i]) == Some(pm.PackagePath(keys[i]))
  {
    var n := |keys| - 1;
    var k := keys[n];
    GetPut(ExtensionPaths(pm, keys[..n]), k, pm.PackagePath(k), keys[i]);
    if keys[i] != k {
      assert keys[..n][i] == keys[i];
      ExtensionPathsLookup(pm, keys[..n], i);
    }
  }

  /** Every resolved map has each extension key once. */
  lemma ResolvedKeysDistinct(pm: PackageManager, fs: FileSystem, extensions: seq<string>, customPath: Option<string>,
                             scanAll: bool, includeSystem: bool)
    ensures var r := Resolve(pm, fs, extensions, customPath, scanAll, includeSystem);
      r.Resolved? ==> Distinct(Keys(r.paths))
  {
    if customPath.None? {
      if scanAll {
        SelectedPackagesDistinct(pm.GetActivePackages(), includeSystem);
      } else if extensions != [] && FirstInactive(pm, extensions) == |extensions| {
        ExtensionPathsOrder(pm, extensions);
      }
    }
  }

  // ----- scanning the resolved paths -----

  /** The callback calls, as the command's closures write them. */
  function Callbacks(notices: seq<Notice>): (events: seq<ConsoleEvent>)
    ensures |events| == |notices|
    ensures forall i :: 0 <= i < |notices| ==> events[i] == Callback(notices[i])
  {
    seq(|notices|, i requires 0 <= i < |notices| => Callback(notices[i]))
  }

  function ExtensionScan(analyzer: Analyzer, fs: FileSystem, path: string, configurations: Configurations): seq<PhpArray> {
    PathMatches(analyzer, fs.phpFiles(path), configurations)
  }

  /** `$allMatches`: each extension key with the raw records its path produced. */
  function Scans(analyzer: Analyzer, fs: FileSystem, paths: OMap<string, string>, configurations: Configurations): OMap<string, seq<PhpArray>> {
    if paths == [] then []
    else
      var last := paths[|paths| - 1];
      Put(Scans(analyzer, fs, paths[..|paths| - 1], configurations), last.0, ExtensionScan(analyzer, fs, last.1, configurations))
  }

  function StrongTotal(analyzer: Analyzer, fs: FileSystem, paths: OMap<string, string>, configurations: Configurations): int {
    if paths == [] then 0
    else
      var ms := ExtensionScan(analyzer, fs, paths[|paths| - 1].1, configurations);
      StrongTotal(analyzer, fs, paths[..|paths| - 1], configurations) + StrongRecords(ms)
  }

  function WeakTotal(analyzer: Analyzer, fs: FileSystem, paths: OMap<string, string>, configurations: Configurations): int {
    if paths == [] then 0
    else
      var ms := ExtensionScan(analyzer, fs, paths[|paths| - 1].1, configurations);
      WeakTotal(analyzer, fs, paths[..|paths| - 1], configurations) + (|ms| - StrongRecords(ms))
  }

  /** The messages of the scanning loop: section, callbacks and closing line break per extension. */
  function ScanLog(analyzer: Analyzer, fs: FileSystem, paths: OMap<string, string>, configurations: Configurations,
                   showProgress: bool, verboseParseErrors: bool): seq<ConsoleEvent>
  {
    if paths == [] then []
    else
      var last := paths[|paths| - 1];
      var files := fs.phpFiles(last.1);
      ScanLog(analyzer, fs, paths[..|paths| - 1], configurations, showProgress, verboseParseErrors) +
      (if showProgress then [Scanning(last.0)] else []) +
      Callbacks(PathNotices(analyzer, files, |files|, showProgress, verboseParseErrors)) +
      (if showProgress then [LineBreak] else [])
  }

  lemma ScanSnoc(analyzer: Analyzer, fs: FileSystem, paths: OMap<string, string>, i: nat, configurations: Configurations,
                 showProgress: bool, verboseParseErrors: bool)
    requires i < |paths|
    ensures var ms := ExtensionScan(analyzer, fs, paths[i].1, configurations);
      var files := fs.phpFiles(paths[i].1);
      Scans(analyzer, fs, paths[..i + 1], configurations) == Put(Scans(analyzer, fs, paths[..i], configurations), paths[i].0, ms) &&
      StrongTotal(analyzer, fs, paths[..i + 1], configurations) == StrongTotal(analyzer, fs, paths[..i], configurations) + StrongRecords(ms) &&
      WeakTotal(analyzer, fs, paths[..i + 1], configurations) == WeakTotal(analyzer, fs, paths[..i], configurations) + (|ms| - StrongRecords(ms)) &&
      ScanLog(analyzer, fs, paths[..i + 1], configurations, showProgress, verboseParseErrors) ==
        ScanLog(analyzer, fs, paths[..i], configurations, showProgress, verboseParseErrors) +
        (if showProgress then [Scanning(paths[i].0)] else []) +
        Callbacks(PathNotices(analyzer, files, |files|, showProgress, verboseParseErrors)) +
        (if showProgress then [LineBreak] else [])
  {
    assert paths[..i + 1][..i] == paths[..i];
  }

  /** The totals are the sums of the per-extension statistics: strong plus weak is the number of records. */
  lemma {:induction false} TotalsCountRecords(analyzer: Analyzer, fs: FileSystem, paths: OMap<string, string>, configurations: Configurations)
    ensures 0 <= StrongTotal(analyzer, fs, paths, configurations)
    ensures 0 <= WeakTotal(analyzer, fs, paths, configurations)
    ensures StrongTotal(analyzer, fs, paths, configurations) + WeakTotal(analyzer, fs, paths, configurations) == 0 <==>
      forall i :: 0 <= i < |paths| ==> ExtensionScan(analyzer, fs, paths[i].1, configurations) == []
  {
    if paths != [] {
      var n := |paths| - 1;
      TotalsCountRecords(analyzer, fs, paths[..n], configurations);
      StrongRecordsBounded(ExtensionScan(analyzer, fs, paths[n].1, configurations));
      assert forall i :: 0 <= i < n ==> paths[..n][i] == paths[i];
    }
  }

  /** With distinct extension keys, `$allMatches` holds every extension's records under its key, in order. */
  lemma {:induction false} ScansInOrder(analyzer: Analyzer, fs: FileSystem, paths: OMap<string, string>, configurations: Configurations)
    requires Distinct(Keys(paths))
    ensures var all := Scans(analyzer, fs, paths, configurations);
      |all| == |paths| &&
      forall i :: 0 <= i < |paths| ==> all[i] == (paths[i].0, ExtensionScan(analyzer, fs, paths[i].1, configurations))
  {
    if paths != [] {
      var n := |paths| - 1;
      assert Keys(paths[..n]) == Keys(paths)[..n];
      ScansInOrder(analyzer, fs, paths[..n], configurations);
      var previous := Scans(analyzer, fs, paths[..n], configurations);
      assert paths[n].0 !in Keys(previous) by {
        forall j | 0 <= j < |previous| ensures previous[j].0 != paths[n].0 {
          assert previous[j].0 == paths[j].0;
          assert Keys(paths)[j] != Keys(paths)[n];
        }
      }
      PutFresh(previous, paths[n].0, ExtensionScan(analyzer, fs, paths[n].1, configurations));
    }
  }

  // ----- formatting -----

  datatype Report =
    | JsonReport(json: JsonOutput.JsonDocument)
    | CheckstyleReport(checkstyle: CheckstyleOutput.CheckstyleDocument)
    | TableReport(table: seq<TableOutput.TableEvent>)

  /**
   * How `execute` ends: with an exit code, or with the error a formatter
   * raises, after whatever that formatter had already written.
   */
  datatype Outcome = Exit(code: int, report: Option<Report>) | FormatterFailure(written: seq<TableOutput.TableEvent>)

  predicate HasRecords(all: OMap<string, seq<PhpArray>>) {
    exists i :: 0 <= i < |all| && all[i].1 != []
  }

  /**
   * The formatters call match-object methods on what they receive, but the
   * command passes the service's arrays. The JSON formatter fails at
   * `isStrong()` on the first record. The Checkstyle formatter reads
   * `->absolutePath` of every record (a warning and null on an array) and
   * fails at `isStrong()` on the first record of its second loop. The table
   * formatter fails at `isStrong()` on the first record it renders, and
   * renders none when the totals add up to zero.
   */
  predicate FormatterFails(format: string, all: OMap<string, seq<PhpArray>>, totalStrong: int, totalWeak: int) {
    !(format == "table" && totalStrong + totalWeak == 0) && HasRecords(all)
  }

  /** The position of the first extension with a record; `|all|` when there is none. */
  function FirstWithRecords(all: OMap<string, seq<PhpArray>>): (i: nat)
    ensures i <= |all|
    ensures i < |all| <==> HasRecords(all)
    ensures i < |all| ==> all[i].1 != []
    ensures forall j :: 0 <= j < i ==> all[j].1 == []
  {
    if all == [] then 0
    else if all[0].1 != [] then 0
    else 1 + FirstWithRecords(all[1..])
  }

  /**
   * What a failing formatter has written before its error: the table
   * formatter has already written the title of the first extension with a
   * record; the JSON and Checkstyle formatters build their document in
   * memory and have written nothing.
   */
  function FailureOutput(format: string, all: OMap<string, seq<PhpArray>>): seq<TableOutput.TableEvent> {
    if format == "json" || format == "checkstyle" then []
    else
      var i := FirstWithRecords(all);
      if i < |all| then [TableOutput.Title(TableOutput.ResultsTitle(all[i].0))] else []
  }

  /** On failure, the table format leaves exactly the title of the first extension with a record. */
  lemma FailureLeavesFirstTitle(format: string, all: OMap<string, seq<PhpArray>>, totalStrong: int, totalWeak: int)
    requires FormatterFails(format, all, totalStrong, totalWeak)
    ensures format == "json" || format == "checkstyle" ==> FailureOutput(format, all) == []
    ensures format == "table" ==>
      exists i :: 0 <= i < |all| && all[i].1 != [] && (forall j :: 0 <= j < i ==> all[j].1 == []) &&
        FailureOutput(format, all) == [TableOutput.Title(TableOutput.ResultsTitle(all[i].0))]
  {
    var i := FirstWithRecords(all);
    if format == "table" {
      assert 0 <= i < |all| && all[i].1 != [] && (forall j :: 0 <= j < i ==> all[j].1 == []);
    }
  }

  /** The extension keys with no match at all: the only input the formatters can take from the command. */
  function WithoutRecords(all: OMap<string, seq<PhpArray>>): (r: MatchesByExtension)
    ensures |r| == |all|
    ensures forall i :: 0 <= i < |all| ==> r[i] == (all[i].0, [])
  {
    seq(|all|, i requires 0 <= i < |all| => (all[i].0, []))
  }

  /** `createFormatter($format)->format(...)`: "json", "checkstyle", otherwise the table. */
  ghost predicate ReportFits(format: string, report: Report, all: MatchesByExtension, totalStrong: int, totalWeak: int, timestamp: string) {
    match report
    case JsonReport(doc) => format == "json" && JsonOutput.IsReportFor(doc, all, totalStrong, totalWeak, timestamp)
    case CheckstyleReport(doc) => format == "checkstyle" && CheckstyleOutput.IsReportFor(doc, all)
    case TableReport(events) => format != "json" && format != "checkstyle" && TableOutput.IsReportFor(events, all, totalStrong, totalWeak)
  }

  /**
   * As written, formatting fails exactly when some extension produced a
   * record, so whenever the exit-code rule is reached the code is 0.
   */
  lemma {:induction false} OutcomeAsWritten(analyzer: Analyzer, fs: FileSystem, paths: OMap<string, string>,
                                            configurations: Configurations, format: string, failOnWeak: bool)
    requires Distinct(Keys(paths))
    ensures var all := Scans(analyzer, fs, paths, configurations);
      var totalStrong := StrongTotal(analyzer, fs, paths, configurations);
      var totalWeak := WeakTotal(analyzer, fs, paths, configurations);
      (FormatterFails(format, all, totalStrong, totalWeak) <==>
         exists i :: 0 <= i < |paths| && ExtensionScan(analyzer, fs, paths[i].1, configurations) != []) &&
      (!FormatterFails(format, all, totalStrong, totalWeak) ==> ExitCode(totalStrong, totalWeak, failOnWeak) == ExitSuccess)
  {
    ScansInOrder(analyzer, fs, paths, configurations);
    TotalsCountRecords(analyzer, fs, paths, configurations);
    var all := Scans(analyzer, fs, paths, configurations);
    if exists i :: 0 <= i < |paths| && ExtensionScan(analyzer, fs, paths[i].1, configurations) != [] {
      var i :| 0 <= i < |paths| && ExtensionScan(analyzer, fs, paths[i].1, configurations) != [];
      assert all[i].1 != [];
    }
  }

  // ----- the command object -----

  class ExtensionScannerCommand {
    const scannerService: ExtensionScannerService
    const packageManager: PackageManager

    constructor (scannerService: ExtensionScannerService, packageManager: PackageManager)
      ensures this.scannerService == scannerService && this.packageManager == packageManager
    {
      this.scannerService := scannerService;
      this.packageManager := packageManager;
    }

    /** `resolvePathsToScan`, with its loops over the active packages and over the extension keys. */
    method ResolvePathsToScan(fs: FileSystem, extensions: seq<string>, customPath: Option<string>, scanAll: bool, includeSystem: bool)
      returns (resolution: Resolution)
      ensures resolution == Resolve(packageManager, fs, extensions, customPath, scanAll, includeSystem)
    {
      var pathsToScan: OMap<string, string> := [];
      if customPath.Some? {
        if !fs.isDirectory(customPath.value) {
          return Unresolved(PathMissing(customPath.value));
        }
        pathsToScan := Put(pathsToScan, "custom", RTrim(customPath.value, '/'));
      } else if scanAll {
        var packages := packageManager.GetActivePackages();
        for i := 0 to |packages|
          invariant pathsToScan == SelectedPackages(packages[..i], includeSystem)
        {
          assert packages[..i + 1][..i] == packages[..i];
          var package := packages[i];
          if !includeSystem && package.composerType == Str(FrameworkType) {
            continue;
          }
          pathsToScan := Put(pathsToScan, package.key, package.path);
        }
        assert packages[..|packages|] == packages;
      } else if extensions != [] {
        for i := 0 to |extensions|
          invariant forall j :: 0 <= j < i ==> packageManager.IsPackageActive(extensions[j])
          invariant FirstInactive(packageManager, extensions) >= i
          invariant pathsToScan == ExtensionPaths(packageManager, extensions[..i])
        {
          var extensionKey := extensions[i];
          if !packageManager.IsPackageActive(extensionKey) {
            return Unresolved(ExtensionInactive(extensionKey));
          }
          assert extensions[..i + 1][..i] == extensions[..i];
          pathsToScan := Put(pathsToScan, extensionKey, packageManager.PackagePath(extensionKey));
        }
        assert extensions[..|extensions|] == extensions;
      } else {
        return Unresolved(MissingTarget);
      }
      resolution := Resolved(pathsToScan);
    }

    /** `scanExtensionPath`: progress only for the table format without `--no-progress`, parse errors on request. */
    method ScanExtensionPath(fs: FileSystem, path: string, showProgress: bool, verboseParseErrors: bool)
      returns (matches: seq<PhpArray>, events: seq<ConsoleEvent>)
      modifies scannerService`matcherConfigurations
      ensures scannerService.CurrentConfigurations(fs) == old(scannerService.CurrentConfigurations(fs))
      ensures matches == ExtensionScan(scannerService.analyzer, fs, path, old(scannerService.CurrentConfigurations(fs)))
      ensures events ==
        Callbacks(PathNotices(scannerService.analyzer, fs.phpFiles(path), |fs.phpFiles(path)|, showProgress, verboseParseErrors)) +
        (if showProgress then [LineBreak] else [])
    {
      var notices;
      matches, notices := scannerService.ScanPath(fs, path, showProgress, verboseParseErrors);
      events := Callbacks(notices);
      if showProgress {
        events := events + [LineBreak];
      }
    }

    /** One pass of `execute`'s loop: scan one extension and add its records, totals and messages. */
    method ScanNext(fs: FileSystem, extensionKey: string, path: string, showProgress: bool, verboseParseErrors: bool,
                    allMatches: OMap<string, seq<PhpArray>>, totalStrong: int, totalWeak: int, console: seq<ConsoleEvent>)
      returns (allMatches': OMap<string, seq<PhpArray>>, totalStrong': int, totalWeak': int, console': seq<ConsoleEvent>)
      modifies scannerService`matcherConfigurations
      ensures scannerService.CurrentConfigurations(fs) == old(scannerService.CurrentConfigurations(fs))
      ensures var ms := ExtensionScan(scannerService.analyzer, fs, path, old(scannerService.CurrentConfigurations(fs)));
        var files := fs.phpFiles(path);
        allMatches' == Put(allMatches, extensionKey, ms) &&
        totalStrong' == totalStrong + StrongRecords(ms) &&
        totalWeak' == totalWeak + (|ms| - StrongRecords(ms)) &&
        console' == console + (if showProgress then [Scanning(extensionKey)] else []) +
          Callbacks(PathNotices(scannerService.analyzer, files, |files|, showProgress, verboseParseErrors)) +
          (if showProgress then [LineBreak] else [])
    {
      console' := console;
      if showProgress {
        console' := console' + [Scanning(extensionKey)];
      }
      var extensionMatches, events := ScanExtensionPath(fs, path, showProgress, verboseParseErrors);
      console' := console' + events;
      allMatches' := Put(allMatches, extensionKey, extensionMatches);
      var stats := scannerService.CalculateStatistics(extensionMatches);
      totalStrong' := totalStrong + stats.strong;
      totalWeak' := totalWeak + stats.weak;
    }

    /** `execute`'s loop over the resolved paths. */
    method ScanExtensions(fs: FileSystem, paths: OMap<string, string>, showProgress: bool, verboseParseErrors: bool)
      returns (allMatches: OMap<string, seq<PhpArray>>, totalStrong: int, totalWeak: int, console: seq<ConsoleEvent>)
      modifies scannerService`matcherConfigurations
      ensures scannerService.CurrentConfigurations(fs) == old(scannerService.CurrentConfigurations(fs))
      ensures var configurations := old(scannerService.CurrentConfigurations(fs));
        allMatches == Scans(scannerService.analyzer, fs, paths, configurations) &&
        totalStrong == StrongTotal(scannerService.analyzer, fs, paths, configurations) &&
        totalWeak == WeakTotal(scannerService.analyzer, fs, paths, configurations) &&
        console == ScanLog(scannerService.analyzer, fs, paths, configurations, showProgress, verboseParseErrors)
    {
      ghost var configurations := scannerService.CurrentConfigurations(fs);
      allMatches, totalStrong, totalWeak, console := [], 0, 0, [];
      for i := 0 to |paths|
        invariant scannerService.CurrentConfigurations(fs) == configurations
        invariant allMatches == Scans(scannerService.analyzer, fs, paths[..i], configurations)
        invariant totalStrong == StrongTotal(scannerService.analyzer, fs, paths[..i], configurations)
        invariant totalWeak == WeakTotal(scannerService.analyzer, fs, paths[..i], configurations)
        invariant console == ScanLog(scannerService.analyzer, fs, paths[..i], configurations, showProgress, verboseParseErrors)
      {
        ScanSnoc(scannerService.analyzer, fs, paths, i, configurations, showProgress, verboseParseErrors);
        allMatches, totalStrong, totalWeak, console :=
          ScanNext(fs, paths[i].0, paths[i].1, showProgress, verboseParseErrors, allMatches, totalStrong, totalWeak, console);
      }
      assert paths[..|paths|] == paths;
    }

    /** The formatter step: what the chosen formatter makes of `$allMatches` and the totals. */
    method FormatResults(format: string, allMatches: OMap<string, seq<PhpArray>>, totalStrong: int, totalWeak: int, timestamp: string)
      returns (report: Option<Report>, written: seq<TableOutput.TableEvent>)
      ensures report.None? <==> FormatterFails(format, allMatches, totalStrong, totalWeak)
      ensures report.None? ==> written == FailureOutput(format, allMatches)
      ensures report.Some? ==> written == []
      ensures report.Some? ==> ReportFits(format, report.value, WithoutRecords(allMatches), totalStrong, totalWeak, timestamp)
    {
      if FormatterFails(format, allMatches, totalStrong, totalWeak) {
        return None, FailureOutput(format, allMatches);
      }
      written := [];
      var all := WithoutRecords(allMatches);
      if format == "json" {
        var doc := JsonOutput.Format(all, totalStrong, totalWeak, timestamp);
        report := Some(JsonReport(doc));
      } else if format == "checkstyle" {
        var doc := CheckstyleOutput.Format(all, totalStrong, totalWeak);
        report := Some(CheckstyleReport(doc));
      } else {
        var events := TableOutput.Format(all, totalStrong, totalWeak);
        report := Some(TableReport(events));
      }
    }

    /**
     * `execute`: an unsupported format fails before anything else; a failed
     * resolution fails; nothing to scan succeeds; otherwise every path is
     * scanned, the results are formatted and the totals decide the exit code.
     */
    method Execute(fs: FileSystem, options: Options, timestamp: string) returns (outcome: Outcome, console: seq<ConsoleEvent>)
      modifies scannerService`matcherConfigurations
      ensures !IsSupportedFormat(options.format) ==>
        outcome == Exit(ExitFailure, None) && console == [InvalidFormat(options.format)] &&
        scannerService.matcherConfigurations == old(scannerService.matcherConfigurations)
      ensures IsSupportedFormat(options.format) ==>
        var resolution := Resolve(packageManager, fs, options.extensions, options.path, options.all, options.includeSystem);
        (resolution.Unresolved? ==>
           outcome == Exit(ExitFailure, None) && console == [resolution.error] &&
           scannerService.matcherConfigurations == old(scannerService.matcherConfigurations)) &&
        (resolution == Resolved([]) ==>
           outcome == Exit(ExitSuccess, None) && console == [NoExtensionsFound] &&
           scannerService.matcherConfigurations == old(scannerService.matcherConfigurations)) &&
        (resolution.Resolved? && resolution.paths != [] ==>
           var analyzer := scannerService.analyzer;
           var configurations := old(scannerService.CurrentConfigurations(fs));
           var all := Scans(analyzer, fs, resolution.paths, configurations);
           var totalStrong := StrongTotal(analyzer, fs, resolution.paths, configurations);
           var totalWeak := WeakTotal(analyzer, fs, resolution.paths, configurations);
           var showProgress := !options.noProgress && options.format == "table";
           console == ScanLog(analyzer, fs, resolution.paths, configurations, showProgress, options.verboseParseErrors) &&
           (FormatterFails(options.format, all, totalStrong, totalWeak) ==> outcome == FormatterFailure(FailureOutput(options.format, all))) &&
           (!FormatterFails(options.format, all, totalStrong, totalWeak) ==>
              outcome.Exit? && outcome.code == ExitCode(totalStrong, totalWeak, options.failOnWeak) &&
              outcome.report.Some? &&
              ReportFits(options.format, outcome.report.value, WithoutRecords(all), totalStrong, totalWeak, timestamp)))
    {
      if !IsSupportedFormat(options.format) {
        return Exit(ExitFailure, None), [InvalidFormat(options.format)];
      }
      var resolution := ResolvePathsToScan(fs, options.extensions, options.path, options.all, options.includeSystem);
      if resolution.Unresolved? {
        return Exit(ExitFailure, None), [resolution.error];
      }
      var pathsToScan := resolution.paths;
      if pathsToScan == [] {
        return Exit(ExitSuccess, None), [NoExtensionsFound];
      }
      var showProgress := !options.noProgress && options.format == "table";
      var allMatches, totalStrong, totalWeak;
      allMatches, totalStrong, totalWeak, console := ScanExtensions(fs, pathsToScan, showProgress, options.verboseParseErrors);
      var report, written := FormatResults(options.format, allMatches, totalStrong, totalWeak, timestamp);
      if report.None? {
        return FormatterFailure(written), console;
      }
      outcome := Exit(ExitCode(totalStrong, totalWeak, options.failOnWeak), report);
    }
  }

  /** The command line: extension keys, `--path`, `--all`, `--format` and the flags. */
  datatype Options = Options(
    extensions: seq<string>,
    path: Option<string>,
    all: bool,
    format: string,
    noProgress: bool,
    failOnWeak: bool,
    includeSystem: bool,
    verboseParseErrors: bool)
}
