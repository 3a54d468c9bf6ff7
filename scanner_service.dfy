/**
 * The scanner service: loads and caches the matcher configurations, scans a
 * file with every configured matcher, scans all PHP files under a path and
 * counts strong and weak findings. The parser, the first traversal (name
 * resolution and the "file ignored" decision) and the matchers are foreign
 * code and appear as the oracles of an `Analyzer`; the file system appears as
 * a `FileSystem` value.
 */
module Service {
  import opened Wrappers
  import opened OrderedMap
  import opened Php

  // ----- the registry of matchers -----

  const MatcherNamespace: string := "TYPO3\\CMS\\Install\\ExtensionScanner\\Php\\Matcher\\"

  /** The short class names of the registered matchers, in declaration order. */
  const MatcherShortNames: seq<string> := [
    "ArrayDimensionMatcher", "ArrayGlobalMatcher", "ClassConstantMatcher", "ClassNameMatcher",
    "ConstantMatcher", "ConstructorArgumentMatcher", "FunctionCallMatcher", "InterfaceMethodChangedMatcher",
    "MethodAnnotationMatcher", "MethodArgumentDroppedMatcher", "MethodArgumentDroppedStaticMatcher",
    "MethodArgumentRequiredMatcher", "MethodArgumentRequiredStaticMatcher", "MethodArgumentUnusedMatcher",
    "MethodCallMatcher", "MethodCallStaticMatcher", "PropertyAnnotationMatcher", "PropertyExistsStaticMatcher",
    "PropertyProtectedMatcher", "PropertyPublicMatcher"]

  /** `MATCHER_CONFIGURATIONS`: each matcher class with the file that holds its configuration. */
  const MatcherConfigurationFiles: OMap<string, string> := Registry(MatcherShortNames)

  /** Each short name `X` becomes the entry `<namespace>X => X.php`. */
  function Registry(shortNames: seq<string>): (table: OMap<string, string>)
    ensures |table| == |shortNames|
    ensures forall i :: 0 <= i < |shortNames| ==>
      table[i] == (MatcherNamespace + shortNames[i], shortNames[i] + ".php")
  {
    if shortNames == [] then []
    else
      var last := shortNames[|shortNames| - 1];
      Registry(shortNames[..|shortNames| - 1]) + [(MatcherNamespace + last, last + ".php")]
  }

  /** Matcher class => configuration payload, in the order the classes were loaded. */
  type Configurations = OMap<string, Value>

  // ----- the foreign parts -----

  /** A file found under the scanned path: `getRelativePathname`, `getRealPath`, `getContents`. */
  datatype SourceFile = SourceFile(relativePathname: string, realPath: string, contents: string)

  /** A syntax tree, known only through the analyzer's oracles. */
  datatype SyntaxTree = SyntaxTree(handle: int)

  /** What the parser makes of a file: an error (it throws), null, or statements. */
  datatype ParseResult = ParseError(message: string) | NoStatements | Statements(tree: SyntaxTree)

  /** The first traversal: names resolved, and whether the code statistics ignore the file. */
  datatype FirstPass = FirstPass(resolved: SyntaxTree, ignored: bool)

  datatype Analyzer = Analyzer(
    parse: string -> ParseResult,
    firstPass: SyntaxTree -> FirstPass,
    /** `(new $matcherClass($configuration))->getMatches()` after the second traversal of the tree. */
    matches: (string, Value, SyntaxTree) -> seq<PhpArray>)

  datatype FileSystem = FileSystem(
    /** The Finder's enumeration of `*.php` under a path, outside vendor, node_modules and .Build. */
    phpFiles: string -> seq<SourceFile>,
    /** The files under EXT:install/Configuration/ExtensionScanner/Php/ by name, with what `require` returns. */
    installConfigFiles: map<string, Value>,
    isDirectory: string -> bool)

  /** One call of a callback: `$progressCallback($current, $total)` or `$parseErrorCallback($file, $error)`. */
  datatype Notice = Progress(current: int, total: int) | ParseFailure(file: string, error: string)

  datatype Statistics = Statistics(total: int, strong: int, weak: int)

  // ----- loading configurations -----

  /** The `foreach` over the registry: `$configurations[$class] = require $file` for every file that exists. */
  function LoadConfigurations(table: OMap<string, string>, files: map<string, Value>): Configurations {
    if table == [] then []
    else
      var previous := LoadConfigurations(table[..|table| - 1], files);
      var entry := table[|table| - 1];
      if entry.1 in files then Put(previous, entry.0, files[entry.1]) else previous
  }

  lemma LoadSnoc(table: OMap<string, string>, i: nat, files: map<string, Value>)
    requires i < |table|
    ensures LoadConfigurations(table[..i + 1], files) ==
      var previous := LoadConfigurations(table[..i], files);
      if table[i].1 in files then Put(previous, table[i].0, files[table[i].1]) else previous
  {
    assert table[..i + 1][..i] == table[..i];
  }

  /** The registry entries whose file exists, each paired with what its file returns. */
  function ExistingEntries(table: OMap<string, string>, files: map<string, Value>): Configurations {
    if table == [] then []
    else
      var entry := table[|table| - 1];
      ExistingEntries(table[..|table| - 1], files) + (if entry.1 in files then [(entry.0, files[entry.1])] else [])
  }

  /** An entry is kept exactly when its file exists, and then with that file's payload. */
  lemma {:induction false} ExistingEntriesOf(table: OMap<string, string>, files: map<string, Value>)
    ensures forall e :: e in ExistingEntries(table, files) ==>
      exists i :: 0 <= i < |table| && table[i].0 == e.0 && table[i].1 in files && e.1 == files[table[i].1]
    ensures forall i :: 0 <= i < |table| && table[i].1 in files ==>
      (table[i].0, files[table[i].1]) in ExistingEntries(table, files)
  {
    if table != [] {
      var n := |table| - 1;
      ExistingEntriesOf(table[..n], files);
      forall e | e in ExistingEntries(table, files)
        ensures exists i :: 0 <= i < |table| && table[i].0 == e.0 && table[i].1 in files && e.1 == files[table[i].1]
      {
        if e in ExistingEntries(table[..n], files) {
          var i :| 0 <= i < n && table[..n][i].0 == e.0 && table[..n][i].1 in files && e.1 == files[table[..n][i].1];
          assert table[i] == table[..n][i];
        } else {
          assert table[n].0 == e.0;
        }
      }
    }
  }

  lemma {:induction false} ExistingEntriesDistinct(table: OMap<string, string>, files: map<string, Value>)
    requires Distinct(Keys(table))
    ensures Distinct(Keys(ExistingEntries(table, files)))
  {
    if table != [] {
      var n := |table| - 1;
      var prefix := table[..n];
      assert Keys(prefix) == Keys(table)[..n];
      ExistingEntriesDistinct(prefix, files);
      ExistingEntriesOf(prefix, files);
      var previous := ExistingEntries(prefix, files);
      if table[n].1 in files {
        forall j | 0 <= j < |previous| ensures previous[j].0 != table[n].0 {
          var i :| 0 <= i < |prefix| && prefix[i].0 == previous[j].0 && prefix[i].1 in files && previous[j].1 == files[prefix[i].1];
          assert Keys(table)[i] != Keys(table)[n];
        }
        var r := ExistingEntries(table, files);
        assert forall j :: 0 <= j < |previous| ==> r[j] == previous[j];
      }
    }
  }

  /**
   * For a registry without repeated classes, loading yields exactly the
   * registry entries whose file exists, in registry order.
   */
  lemma {:induction false} LoadedConfigurations(table: OMap<string, string>, files: map<string, Value>)
    requires Distinct(Keys(table))
    ensures LoadConfigurations(table, files) == ExistingEntries(table, files)
  {
    if table != [] {
      var n := |table| - 1;
      var prefix := table[..n];
      var entry := table[n];
      assert Keys(prefix) == Keys(table)[..n];
      LoadedConfigurations(prefix, files);
      if entry.1 in files {
        var previous := ExistingEntries(prefix, files);
        ExistingEntriesOf(prefix, files);
        assert entry.0 !in Keys(previous) by {
          forall j | 0 <= j < |previous| ensures previous[j].0 != entry.0 {
            var i :| 0 <= i < |prefix| && prefix[i].0 == previous[j].0 && prefix[i].1 in files && previous[j].1 == files[prefix[i].1];
            assert Keys(table)[i] != Keys(table)[n];
          }
        }
        PutFresh(previous, entry.0, files[entry.1]);
      }
    }
  }

  lemma MatcherShortNamesDistinct()
    ensures Distinct(MatcherShortNames)
  {
  }

  lemma MatcherClassesDistinct()
    ensures Distinct(Keys(MatcherConfigurationFiles))
  {
    MatcherShortNamesDistinct();
    forall i, j | 0 <= i < j < |MatcherConfigurationFiles|
      ensures Keys(MatcherConfigurationFiles)[i] != Keys(MatcherConfigurationFiles)[j]
    {
      var a := MatcherNamespace + MatcherShortNames[i];
      var b := MatcherNamespace + MatcherShortNames[j];
      assert a[|MatcherNamespace|..] == MatcherShortNames[i];
      assert b[|MatcherNamespace|..] == MatcherShortNames[j];
    }
  }

  /**
   * Whatever the installation holds, the loaded classes are registered ones,
   * without repetition and in registry order, each with its file's payload,
   * and a class is loaded exactly when its configuration file exists.
   */
  lemma InstalledConfigurations(files: map<string, Value>)
    ensures var r := LoadConfigurations(MatcherConfigurationFiles, files);
      r == ExistingEntries(MatcherConfigurationFiles, files) &&
      Distinct(Keys(r)) &&
      (forall e :: e in r ==>
         (exists i :: 0 <= i < |MatcherConfigurationFiles| &&
            MatcherConfigurationFiles[i].0 == e.0 && MatcherConfigurationFiles[i].1 in files &&
            e.1 == files[MatcherConfigurationFiles[i].1])) &&
      (forall i :: 0 <= i < |MatcherConfigurationFiles| && MatcherConfigurationFiles[i].1 in files ==>
         (MatcherConfigurationFiles[i].0, files[MatcherConfigurationFiles[i].1]) in r)
  {
    MatcherClassesDistinct();
    LoadedConfigurations(MatcherConfigurationFiles, files);
    ExistingEntriesOf(MatcherConfigurationFiles, files);
    ExistingEntriesDistinct(MatcherConfigurationFiles, files);
  }

  // ----- statistics -----

  /** `($match['indicator'] ?? 'strong') === 'strong'`. */
  predicate CountsAsStrong(m: PhpArray) {
    Coalesce(m, "indicator", Str("strong")) == Str("strong")
  }

  /** A record is strong exactly when its indicator is absent, null or the string "strong". */
  lemma CountsAsStrongCases(m: PhpArray)
    ensures CountsAsStrong(m) <==>
      (Lookup(m, "indicator") == None || Lookup(m, "indicator") == Some(Null) || Lookup(m, "indicator") == Some(Str("strong")))
  {
  }

  function StrongRecords(ms: seq<PhpArray>): nat {
    if ms == [] then 0
    else StrongRecords(ms[..|ms| - 1]) + (if CountsAsStrong(ms[|ms| - 1]) then 1 else 0)
  }

  lemma {:induction false} StrongRecordsBounded(ms: seq<PhpArray>)
    ensures StrongRecords(ms) <= |ms|
  {
    if ms != [] {
      StrongRecordsBounded(ms[..|ms| - 1]);
    }
  }

  /** Counting is additive over concatenated results. */
  lemma {:induction false} StrongRecordsAppend(a: seq<PhpArray>, b: seq<PhpArray>)
    ensures StrongRecords(a + b) == StrongRecords(a) + StrongRecords(b)
  {
    if b == [] {
      assert a + b == a;
    } else {
      assert (a + b)[..|a + b| - 1] == a + b[..|b| - 1];
      StrongRecordsAppend(a, b[..|b| - 1]);
    }
  }

  // ----- scanning one file -----

  /** The service overwrites the location and the producer of every raw match. */
  function Stamp(m: PhpArray, file: SourceFile, matcherClass: string): (r: PhpArray)
    ensures Lookup(r, "file") == Some(Str(file.relativePathname))
    ensures Lookup(r, "absolutePath") == Some(Str(file.realPath))
    ensures Lookup(r, "matcherClass") == Some(Str(matcherClass))
    ensures forall k :: k != StrKey("file") && k != StrKey("absolutePath") && k != StrKey("matcherClass") ==>
      Get(r, k) == Get(m, k)
  {
    Assign(Assign(Assign(m, "file", Str(file.relativePathname)), "absolutePath", Str(file.realPath)),
           "matcherClass", Str(matcherClass))
  }

  function StampAll(ms: seq<PhpArray>, file: SourceFile, matcherClass: string): (r: seq<PhpArray>)
    ensures |r| == |ms|
    ensures forall k :: 0 <= k < |ms| ==> r[k] == Stamp(ms[k], file, matcherClass)
  {
    if ms == [] then []
    else StampAll(ms[..|ms| - 1], file, matcherClass) + [Stamp(ms[|ms| - 1], file, matcherClass)]
  }

  /** `$matchers[$matcherClass] = new $matcherClass($configuration)` for every configuration. */
  function Instantiate(configurations: Configurations): Configurations {
    if configurations == [] then []
    else
      var last := configurations[|configurations| - 1];
      Put(Instantiate(configurations[..|configurations| - 1]), last.0, last.1)
  }

  /** Configurations without a repeated class give one matcher each, in the same order. */
  lemma {:induction false} InstantiateDistinct(configurations: Configurations)
    requires Distinct(Keys(configurations))
    ensures Instantiate(configurations) == configurations
  {
    if configurations != [] {
      var n := |configurations| - 1;
      var prefix := configurations[..n];
      assert Keys(prefix) == Keys(configurations)[..n];
      InstantiateDistinct(prefix);
      assert configurations[n].0 !in Keys(prefix) by {
        forall i | 0 <= i < n ensures prefix[i].0 != configurations[n].0 {
          assert Keys(configurations)[i] != Keys(configurations)[n];
        }
      }
      PutFresh(prefix, configurations[n].0, configurations[n].1);
      assert prefix + [configurations[n]] == configurations;
    }
  }

  /** What each matcher found, stamped, matcher after matcher. */
  function Collect(analyzer: Analyzer, matchers: Configurations, tree: SyntaxTree, file: SourceFile): seq<PhpArray> {
    if matchers == [] then []
    else
      var last := matchers[|matchers| - 1];
      Collect(analyzer, matchers[..|matchers| - 1], tree, file) + StampAll(analyzer.matches(last.0, last.1, tree), file, last.0)
  }

  /** The number of matches the first `j` matchers report. */
  function Found(analyzer: Analyzer, matchers: Configurations, tree: SyntaxTree): nat {
    if matchers == [] then 0
    else
      var last := matchers[|matchers| - 1];
      Found(analyzer, matchers[..|matchers| - 1], tree) + |analyzer.matches(last.0, last.1, tree)|
  }

  /** The matchers together report as many matches as are collected. */
  lemma {:induction false} CollectLength(analyzer: Analyzer, matchers: Configurations, tree: SyntaxTree, file: SourceFile)
    ensures |Collect(analyzer, matchers, tree, file)| == Found(analyzer, matchers, tree)
  {
    if matchers != [] {
      CollectLength(analyzer, matchers[..|matchers| - 1], tree, file);
    }
  }

  /**
   * The collected matches are the matchers' own matches, each stamped, in
   * matcher order and within a matcher in emission order: the `k`-th match of
   * matcher `j` sits right after everything the matchers before `j` found.
   */
  lemma CollectAt(analyzer: Analyzer, matchers: Configurations, tree: SyntaxTree, file: SourceFile, j: nat, k: nat)
    requires j < |matchers| && k < |analyzer.matches(matchers[j].0, matchers[j].1, tree)|
    ensures Found(analyzer, matchers[..j], tree) + k < |Collect(analyzer, matchers, tree, file)|
    ensures Collect(analyzer, matchers, tree, file)[Found(analyzer, matchers[..j], tree) + k] ==
      Stamp(analyzer.matches(matchers[j].0, matchers[j].1, tree)[k], file, matchers[j].0)
  {
    var ms := analyzer.matches(matchers[j].0, matchers[j].1, tree);
    CollectPrefix(analyzer, matchers, tree, file, j + 1);
    CollectSnoc(analyzer, matchers, j, tree, file);
    CollectLength(analyzer, matchers[..j], tree, file);
    SecondPartAt(Collect(analyzer, matchers[..j + 1], tree, file), Collect(analyzer, matchers[..j], tree, file),
      StampAll(ms, file, matchers[j].0), k, Stamp(ms[k], file, matchers[j].0));
    PrefixAt(Collect(analyzer, matchers[..j + 1], tree, file), Collect(analyzer, matchers, tree, file),
      Found(analyzer, matchers[..j], tree) + k);
  }

  /** What the first `i` matchers collect is where the collection starts. */
  lemma {:induction false} CollectPrefix(analyzer: Analyzer, matchers: Configurations, tree: SyntaxTree, file: SourceFile, i: nat)
    requires i <= |matchers|
    ensures Collect(analyzer, matchers[..i], tree, file) <= Collect(analyzer, matchers, tree, file)
    decreases |matchers| - i
  {
    if i == |matchers| {
      assert matchers[..i] == matchers;
    } else {
      var n := |matchers| - 1;
      CollectPrefix(analyzer, matchers[..n], tree, file, i);
      assert matchers[..n][..i] == matchers[..i];
      CollectUnfold(analyzer, matchers, tree, file);
      PrefixTransitive(Collect(analyzer, matchers[..i], tree, file), Collect(analyzer, matchers[..n], tree, file),
        Collect(analyzer, matchers, tree, file));
    }
  }

  lemma CollectUnfold(analyzer: Analyzer, matchers: Configurations, tree: SyntaxTree, file: SourceFile)
    requires matchers != []
    ensures Collect(analyzer, matchers[..|matchers| - 1], tree, file) <= Collect(analyzer, matchers, tree, file)
  {
  }

  lemma PrefixTransitive<T>(a: seq<T>, b: seq<T>, c: seq<T>)
    requires a <= b && b <= c
    ensures a <= c
  {
  }

  /** An element of a prefix is the element of the whole at the same place. */
  lemma PrefixAt<T>(part: seq<T>, whole: seq<T>, i: nat)
    requires part <= whole && i < |part|
    ensures i < |whole| && whole[i] == part[i]
  {
  }

  /** Element `k` of the second part of a concatenation. */
  lemma SecondPartAt<T>(whole: seq<T>, first: seq<T>, second: seq<T>, k: nat, x: T)
    requires whole == first + second && k < |second| && second[k] == x
    ensures |first| + k < |whole| && whole[|first| + k] == x
  {
  }

  lemma {:induction false} FoundMonotone(analyzer: Analyzer, matchers: Configurations, tree: SyntaxTree)
    ensures forall j :: 0 <= j < |matchers| ==>
      Found(analyzer, matchers[..j], tree) + |analyzer.matches(matchers[j].0, matchers[j].1, tree)| <= Found(analyzer, matchers, tree)
  {
    if matchers != [] {
      var n := |matchers| - 1;
      var prefix := matchers[..n];
      FoundMonotone(analyzer, prefix, tree);
      assert matchers[..n] == prefix;
      forall j | 0 <= j < n
        ensures Found(analyzer, matchers[..j], tree) + |analyzer.matches(matchers[j].0, matchers[j].1, tree)| <= Found(analyzer, matchers, tree)
      {
        assert matchers[..j] == prefix[..j];
      }
    }
  }

  /** Every collected record carries the file's relative and absolute path and a configured matcher class. */
  lemma {:induction false} CollectStamped(analyzer: Analyzer, matchers: Configurations, tree: SyntaxTree, file: SourceFile)
    ensures forall r :: r in Collect(analyzer, matchers, tree, file) ==>
      Lookup(r, "file") == Some(Str(file.relativePathname)) &&
      Lookup(r, "absolutePath") == Some(Str(file.realPath)) &&
      exists c :: c in Keys(matchers) && Lookup(r, "matcherClass") == Some(Str(c))
  {
    if matchers != [] {
      var n := |matchers| - 1;
      CollectStamped(analyzer, matchers[..n], tree, file);
      assert forall c :: c in Keys(matchers[..n]) ==> c in Keys(matchers);
      assert matchers[n].0 in Keys(matchers);
    }
  }

  lemma StampAllSnoc(ms: seq<PhpArray>, k: nat, file: SourceFile, matcherClass: string)
    requires k < |ms|
    ensures StampAll(ms[..k + 1], file, matcherClass) == StampAll(ms[..k], file, matcherClass) + [Stamp(ms[k], file, matcherClass)]
  {
    assert ms[..k + 1][..k] == ms[..k];
  }

  lemma CollectSnoc(analyzer: Analyzer, matchers: Configurations, j: nat, tree: SyntaxTree, file: SourceFile)
    requires j < |matchers|
    ensures Collect(analyzer, matchers[..j + 1], tree, file) ==
      Collect(analyzer, matchers[..j], tree, file) + StampAll(analyzer.matches(matchers[j].0, matchers[j].1, tree), file, matchers[j].0)
  {
    assert matchers[..j + 1][..j] == matchers[..j];
  }

  lemma PathSnoc(analyzer: Analyzer, files: seq<SourceFile>, i: nat, configurations: Configurations,
                 total: int, reportProgress: bool, reportParseErrors: bool)
    requires i < |files|
    ensures PathMatches(analyzer, files[..i + 1], configurations) ==
      PathMatches(analyzer, files[..i], configurations) + FileMatches(analyzer, files[i], configurations)
    ensures PathNotices(analyzer, files[..i + 1], total, reportProgress, reportParseErrors) ==
      PathNotices(analyzer, files[..i], total, reportProgress, reportParseErrors) +
      FileNotices(analyzer, files[i], reportParseErrors) + (if reportProgress then [Progress(i + 1, total)] else [])
  {
    assert files[..i + 1][..i] == files[..i];
  }

  /** Everything `scanFile` returns, for the configurations it ends up using. */
  function FileMatches(analyzer: Analyzer, file: SourceFile, configurations: Configurations): seq<PhpArray> {
    match analyzer.parse(file.contents)
    case ParseError(_) => []
    case NoStatements => []
    case Statements(tree) =>
      var pass := analyzer.firstPass(tree);
      if pass.ignored then [] else Collect(analyzer, Instantiate(configurations), pass.resolved, file)
  }

  /** The callback calls `scanFile` makes: one parse-error report, and only for a parse error. */
  function FileNotices(analyzer: Analyzer, file: SourceFile, reportParseErrors: bool): seq<Notice> {
    match analyzer.parse(file.contents)
    case ParseError(message) => if reportParseErrors then [ParseFailure(file.relativePathname, message)] else []
    case _ => []
  }

  /** A file that fails to parse, parses to null, or is ignored yields no match. */
  lemma NothingFromUnscannedFiles(analyzer: Analyzer, file: SourceFile, configurations: Configurations)
    requires analyzer.parse(file.contents).ParseError? || analyzer.parse(file.contents).NoStatements? ||
             analyzer.firstPass(analyzer.parse(file.contents).tree).ignored
    ensures FileMatches(analyzer, file, configurations) == []
    ensures FileNotices(analyzer, file, true) ==
      if analyzer.parse(file.contents).ParseError?
      then [ParseFailure(file.relativePathname, analyzer.parse(file.contents).message)] else []
  {
  }

  // ----- scanning a path -----

  function PathMatches(analyzer: Analyzer, files: seq<SourceFile>, configurations: Configurations): seq<PhpArray> {
    if files == [] then []
    else PathMatches(analyzer, files[..|files| - 1], configurations) + FileMatches(analyzer, files[|files| - 1], configurations)
  }

  /** The callback calls of the first `|files|` iterations of `scanPath`'s loop over `total` files. */
  function PathNotices(analyzer: Analyzer, files: seq<SourceFile>, total: int, reportProgress: bool, reportParseErrors: bool): seq<Notice> {
    if files == [] then []
    else
      PathNotices(analyzer, files[..|files| - 1], total, reportProgress, reportParseErrors) +
      FileNotices(analyzer, files[|files| - 1], reportParseErrors) +
      (if reportProgress then [Progress(|files|, total)] else [])
  }

  function ProgressCalls(ns: seq<Notice>): seq<Notice> {
    if ns == [] then []
    else ProgressCalls(ns[..|ns| - 1]) + (if ns[|ns| - 1].Progress? then [ns[|ns| - 1]] else [])
  }

  lemma {:induction false} ProgressCallsAppend(a: seq<Notice>, b: seq<Notice>)
    ensures ProgressCalls(a + b) == ProgressCalls(a) + ProgressCalls(b)
  {
    if b == [] {
      assert a + b == a;
    } else {
      assert (a + b)[..|a + b| - 1] == a + b[..|b| - 1];
      ProgressCallsAppend(a, b[..|b| - 1]);
    }
  }

  /** Progress is reported after every file, matches or not: (1, n), (2, n), ..., in order. */
  lemma {:induction false} ProgressAfterEveryFile(analyzer: Analyzer, files: seq<SourceFile>, total: int, reportParseErrors: bool)
    ensures ProgressCalls(PathNotices(analyzer, files, total, true, reportParseErrors)) ==
      seq(|files|, i requires 0 <= i < |files| => Progress(i + 1, total))
  {
    if files != [] {
      var n := |files| - 1;
      ProgressAfterEveryFile(analyzer, files[..n], total, reportParseErrors);
      var before := PathNotices(analyzer, files[..n], total, true, reportParseErrors);
      var own := FileNotices(analyzer, files[n], reportParseErrors);
      ProgressCallsAppend(before + own, [Progress(|files|, total)]);
      ProgressCallsAppend(before, own);
      assert ProgressCalls(own) == [];
      ProgressSequenceSnoc(n, total);
    }
  }

  lemma ProgressSequenceSnoc(n: nat, total: int)
    ensures seq(n + 1, i requires 0 <= i < n + 1 => Progress(i + 1, total)) ==
      seq(n, i requires 0 <= i < n => Progress(i + 1, total)) + [Progress(n + 1, total)]
  {
  }

  /** Without callbacks nothing is reported. */
  lemma {:induction false} SilentWithoutCallbacks(analyzer: Analyzer, files: seq<SourceFile>, total: int)
    ensures PathNotices(analyzer, files, total, false, false) == []
  {
    if files != [] {
      SilentWithoutCallbacks(analyzer, files[..|files| - 1], total);
    }
  }

  // ----- the service object -----

  class ExtensionScannerService {
    const analyzer: Analyzer
    /** The configuration cache: null until the first load. */
    var matcherConfigurations: Option<Configurations>

    constructor (analyzer: Analyzer)
      ensures this.analyzer == analyzer && matcherConfigurations == None
    {
      this.analyzer := analyzer;
      matcherConfigurations := None;
    }

    /** The configurations `getMatcherConfigurations` returns in the current state. */
    function CurrentConfigurations(fs: FileSystem): Configurations
      reads this
    {
      if matcherConfigurations.Some? then matcherConfigurations.value
      else LoadConfigurations(MatcherConfigurationFiles, fs.installConfigFiles)
    }

    /** Every registered matcher class in declaration order, whatever the cache holds. */
    function GetAvailableMatcherClasses(): (classes: seq<string>)
      ensures |classes| == 20 && Distinct(classes)
      ensures forall i :: 0 <= i < 20 ==> classes[i] == MatcherNamespace + MatcherShortNames[i]
    {
      MatcherClassesDistinct();
      Keys(MatcherConfigurationFiles)
    }

    /** The first call loads and caches; later calls return the cache without looking at the files. */
    method GetMatcherConfigurations(fs: FileSystem) returns (configurations: Configurations)
      modifies this`matcherConfigurations
      ensures old(matcherConfigurations).Some? ==> configurations == old(matcherConfigurations).value
      ensures old(matcherConfigurations).None? ==>
        configurations == LoadConfigurations(MatcherConfigurationFiles, fs.installConfigFiles)
      ensures configurations == old(CurrentConfigurations(fs))
      ensures matcherConfigurations == Some(configurations)
    {
      if matcherConfigurations.Some? {
        return matcherConfigurations.value;
      }
      configurations := LoadMatcherConfigurations(MatcherConfigurationFiles, fs.installConfigFiles);
      matcherConfigurations := Some(configurations);
    }

    /** The loading loop of `getMatcherConfigurations`: `require` of every registered file that exists. */
    static method LoadMatcherConfigurations(table: OMap<string, string>, files: map<string, Value>)
      returns (configurations: Configurations)
      ensures configurations == LoadConfigurations(table, files)
    {
      configurations := [];
      for i := 0 to |table|
        invariant configurations == LoadConfigurations(table[..i], files)
      {
        var entry := table[i];
        LoadSnoc(table, i, files);
        if entry.1 in files {
          configurations := Put(configurations, entry.0, files[entry.1]);
        }
      }
      assert table[..|table|] == table;
    }

    /** `calculateStatistics`: strong counts the records whose indicator is missing or "strong", weak all others. */
    method CalculateStatistics(matches: seq<PhpArray>) returns (stats: Statistics)
      ensures stats.total == stats.strong + stats.weak
      ensures stats.total == |matches|
      ensures stats.strong == StrongRecords(matches)
    {
      var strong := 0;
      var weak := 0;
      for i := 0 to |matches|
        invariant strong == StrongRecords(matches[..i])
        invariant weak == i - strong
      {
        assert matches[..i + 1][..i] == matches[..i];
        if Coalesce(matches[i], "indicator", Str("strong")) == Str("strong") {
          strong := strong + 1;
        } else {
          weak := weak + 1;
        }
      }
      assert matches[..|matches|] == matches;
      stats := Statistics(strong + weak, strong, weak);
    }

    /**
     * `scanFile`: with no configurations given it loads them (and so fills the
     * cache) before it parses; then it returns the stamped findings of every
     * matcher, or nothing for a parse error, a null parse or an ignored file.
     */
    method ScanFile(fs: FileSystem, file: SourceFile, given: Option<Configurations>, reportParseErrors: bool)
      returns (matches: seq<PhpArray>, notices: seq<Notice>)
      modifies this`matcherConfigurations
      ensures given.Some? ==> matcherConfigurations == old(matcherConfigurations)
      ensures given.None? ==> matcherConfigurations == Some(old(CurrentConfigurations(fs)))
      ensures matches == FileMatches(analyzer, file, if given.Some? then given.value else old(CurrentConfigurations(fs)))
      ensures notices == FileNotices(analyzer, file, reportParseErrors)
    {
      var configurations: Configurations;
      if given.Some? {
        configurations := given.value;
      } else {
        configurations := GetMatcherConfigurations(fs);
      }
      matches, notices := AnalyzeFile(file, configurations, reportParseErrors);
    }

    /** The part of `scanFile` after the configurations are known: parse, traverse, run every matcher. */
    method AnalyzeFile(file: SourceFile, configurations: Configurations, reportParseErrors: bool)
      returns (matches: seq<PhpArray>, notices: seq<Notice>)
      ensures matches == FileMatches(analyzer, file, configurations)
      ensures notices == FileNotices(analyzer, file, reportParseErrors)
    {
      matches := [];
      notices := [];
      var parsed := analyzer.parse(file.contents);
      if parsed.ParseError? {
        if reportParseErrors {
          notices := [ParseFailure(file.relativePathname, parsed.message)];
        }
        return;
      }
      if parsed.NoStatements? {
        return;
      }
      var pass := analyzer.firstPass(parsed.tree);
      if pass.ignored {
        return;
      }
      var matchers := InstantiateMatchers(configurations);
      matches := CollectMatches(matchers, pass.resolved, file);
    }

    /** One matcher per configured class; a repeated class keeps its first place and its last configuration. */
    method InstantiateMatchers(configurations: Configurations) returns (matchers: Configurations)
      ensures matchers == Instantiate(configurations)
    {
      matchers := [];
      for i := 0 to |configurations|
        invariant matchers == Instantiate(configurations[..i])
      {
        assert configurations[..i + 1][..i] == configurations[..i];
        matchers := Put(matchers, configurations[i].0, configurations[i].1);
      }
      assert configurations[..|configurations|] == configurations;
    }

    /** Runs the matchers in order and stamps each of their matches with the file and the matcher class. */
    method CollectMatches(matchers: Configurations, tree: SyntaxTree, file: SourceFile) returns (matches: seq<PhpArray>)
      ensures matches == Collect(analyzer, matchers, tree, file)
    {
      matches := [];
      for j := 0 to |matchers|
        invariant matches == Collect(analyzer, matchers[..j], tree, file)
      {
        var matcherClass := matchers[j].0;
        var found := analyzer.matches(matcherClass, matchers[j].1, tree);
        var stamped := StampMatches(found, file, matcherClass);
        CollectSnoc(analyzer, matchers, j, tree, file);
        matches := matches + stamped;
      }
      assert matchers[..|matchers|] == matchers;
    }

    /** The inner loop of the collection: each match of one matcher, stamped, in emission order. */
    static method StampMatches(found: seq<PhpArray>, file: SourceFile, matcherClass: string) returns (stamped: seq<PhpArray>)
      ensures stamped == StampAll(found, file, matcherClass)
    {
      stamped := [];
      for k := 0 to |found|
        invariant stamped == StampAll(found[..k], file, matcherClass)
      {
        StampAllSnoc(found, k, file, matcherClass);
        stamped := stamped + [Stamp(found[k], file, matcherClass)];
      }
      assert found[..|found|] == found;
    }

    /**
     * `scanPath`: with no file it returns at once, without loading
     * configurations; otherwise it scans the files in the Finder's order,
     * concatenating their matches and reporting progress after each one.
     */
    method ScanPath(fs: FileSystem, path: string, reportProgress: bool, reportParseErrors: bool)
      returns (matches: seq<PhpArray>, notices: seq<Notice>)
      modifies this`matcherConfigurations
      ensures fs.phpFiles(path) == [] ==> matches == [] && notices == [] && matcherConfigurations == old(matcherConfigurations)
      ensures fs.phpFiles(path) != [] ==> matcherConfigurations == Some(old(CurrentConfigurations(fs)))
      ensures matches == PathMatches(analyzer, fs.phpFiles(path), old(CurrentConfigurations(fs)))
      ensures notices == PathNotices(analyzer, fs.phpFiles(path), |fs.phpFiles(path)|, reportProgress, reportParseErrors)
    {
      matches := [];
      notices := [];
      var files := fs.phpFiles(path);
      var fileCount := |files|;
      if fileCount == 0 {
        return;
      }
      var configurations := GetMatcherConfigurations(fs);
      var processedFiles := 0;
      while processedFiles < fileCount
        invariant 0 <= processedFiles <= fileCount
        invariant matcherConfigurations == Some(configurations)
        invariant matches == PathMatches(analyzer, files[..processedFiles], configurations)
        invariant notices == PathNotices(analyzer, files[..processedFiles], fileCount, reportProgress, reportParseErrors)
      {
        var fileMatches, fileNotices := ScanFile(fs, files[processedFiles], Some(configurations), reportParseErrors);
        PathSnoc(analyzer, files, processedFiles, configurations, fileCount, reportProgress, reportParseErrors);
        matches := matches + fileMatches;
        notices := notices + fileNotices;
        processedFiles := processedFiles + 1;
        if reportProgress {
          notices := notices + [Progress(processedFiles, fileCount)];
        }
      }
      assert files[..fileCount] == files;
    }
  }
}
