# TYPO3 extension scanner CLI — record handling, formatting and command decisions

This project models the record-handling core of the `extension:scan` console
command for TYPO3. The command finds the PHP files of one or more
extensions (or of a custom directory). It runs TYPO3's extension-scanner
matchers over each file's syntax tree and collects every match as a raw
record. It then counts strong and weak matches, hands the results to one of
three report formats (console table, JSON, Checkstyle XML), and turns the
totals into an exit code.

The PHP parser, the name-resolving first pass, the ignore decision and the
twenty matcher classes are foreign code. They appear as oracles, the arrow
fields of `Service.Analyzer`. The file system is the same kind of oracle,
`Service.FileSystem`: it gives the PHP files of a directory, the matcher
configuration files that exist, and whether a path is a directory. The
package manager is an insertion-ordered map of active packages.

PHP arrays are modelled as insertion-ordered key/value sequences
(`OrderedMap`). `Put` is `$a[$k] = $v`: an existing key keeps its place, and
a new key goes last. Strings are `seq<char>` with one character per byte.

Files and modules:

- `wrappers.dfy`, `Wrappers`: `Option`.
- `ordered_map.dfy`, `OrderedMap`: PHP arrays as ordered maps.
- `php.dfy`, `Php`: PHP values, `isset`, `??`, `is_numeric`, `(int)` and `(string)` on integers.
- `php_string.dfy`, `PhpString`: `explode`/`end`, `str_replace`, the camel-case `preg_replace`, `rtrim`.
- `scan_match.dfy`, `Dto`: the `ScanMatch` record.
- `scanner_service.dfy`, `Service`: the scanner service class with its configuration cache.
- `output_formatter.dfy`, `Output`: the formatters' shared input, extension key => matches.
- `json_output.dfy`, `checkstyle_output.dfy`, `table_output.dfy`: the three formatters.
- `command.dfy`, `Command`: the console command.

The service and the formatters disagree about what a match is, and the model follows the code:

- `scanFile` and `scanPath` return associative arrays. The command passes
  these arrays unchanged to the formatters, which are written for
  `ScanMatch` objects. The JSON formatter fails at `isStrong()` on the first
  record, before writing anything. The Checkstyle formatter reads
  `->absolutePath` of every record, which on an array is only a warning and
  null. It then fails at `isStrong()` on the first record of its second
  loop, with its document still in memory. The table formatter writes the
  title "Results for: <key>" of the first extension with records and then
  fails at `isStrong()` on that extension's first record.
- When the totals add up to zero, the table formatter writes only its
  success message and never looks at the records.

There is no conversion anywhere in the code, and the model invents none:

- `Command.FormatterFails` says when the formatter step raises an error.
- `Command.OutcomeAsWritten` proves that this happens exactly when some
  extension produced a match. Whenever the exit-code rule is reached, the
  totals are therefore zero and the code is 0.
- `Command.FailureOutput` is what the failing formatter has written:
  the table formatter's one title, and nothing for the other two
  (`Command.FailureLeavesFirstTitle`).
- When it does not fail, a formatter can only receive the extension keys,
  in order, each with an empty list.

The formatters themselves are modelled over `ScanMatch` values, as their
code is written, and their properties are proved for any input. The
service's unit test passes `ScanMatch` objects to `calculateStatistics`,
which indexes arrays. The model follows the code's array semantics
(`Service.CountsAsStrong`).

## Model

| member | source | states |
|---|---|---|
| Dto.StrengthIsExclusive | Classes/Dto/ScanMatch.php:47-58 | strong iff the indicator is "strong", weak iff it is "weak", never both, neither for any other indicator |
| Dto.ScanMatch.IsStrong | Classes/Dto/ScanMatch.php:47-50 | `isStrong()`: the indicator is exactly "strong"; Dto.StrengthIsExclusive relates it to `isWeak()` |
| Dto.ScanMatch.IsWeak | Classes/Dto/ScanMatch.php:55-58 | `isWeak()`: the indicator is exactly "weak"; Dto.StrengthIsExclusive shows the two never hold together |
| Dto.MatcherNameQualified | Classes/Dto/ScanMatch.php:63-68 | for `qualifier\name` with a name that has no backslash and is truthy, the short name is that name |
| Dto.MatcherNameUnqualified | Classes/Dto/ScanMatch.php:63-68 | a class name without a backslash is its own short name |
| Dto.MatcherNameFalsyLastSegment | Classes/Dto/ScanMatch.php:67 | when the last segment is "" or "0", the whole class name is returned |
| Dto.MatcherNameIsSuffix | Classes/Dto/ScanMatch.php:63-68 | the short name is a suffix of the class name that is either all of it or backslash-free and directly after a backslash |
| Dto.ScanMatch.MatcherName | Classes/Dto/ScanMatch.php:63-68 | `end(explode(...)) ?: $matcherClass`; the four MatcherName lemmas above state what it returns |
| PhpString.LastPartIsSuffix | Classes/Dto/ScanMatch.php:65-67 | `end(explode(...))` is the longest separator-free suffix of the string |
| PhpString.ImplodeExplode | Classes/Dto/ScanMatch.php:65 | joining the pieces of `explode` with the separator gives the string back |
| Dto.MatchTypeOnlyAddsSpaces | Classes/Dto/ScanMatch.php:73-79 | deleting spaces from the match type gives the "Matcher"-free short name back (for a name without spaces) |
| Dto.MatchTypeHasNoCamelBoundary | Classes/Dto/ScanMatch.php:78 | no lower-case letter in the match type is directly followed by an upper-case one |
| Dto.MatchTypeOfPlainName | Classes/Dto/ScanMatch.php:73-79 | a short name without "Matcher" and without a camel boundary is shown unchanged |
| Dto.ScanMatch.MatchType | Classes/Dto/ScanMatch.php:73-79 | `str_replace` of "Matcher" and then the camel-case replacement on the short name; the MatchType and SplitCamelCase lemmas state what it returns |
| PhpString.RemoveAllAbsent | Classes/Dto/ScanMatch.php:76 | `str_replace` with a search string that does not occur leaves the string unchanged |
| PhpString.SplitCamelCaseOnlyAddsSpaces | Classes/Dto/ScanMatch.php:78 | deleting every space from the result gives the input with every space deleted; where the spaces go is fixed by SplitCamelCaseJoin |
| PhpString.SplitCamelCaseLeavesNoBoundary | Classes/Dto/ScanMatch.php:78 | after the replacement no lower/upper pair remains adjacent |
| PhpString.SplitCamelCaseIdentity | Classes/Dto/ScanMatch.php:78 | a string without a lower/upper pair is not changed by the replacement |
| PhpString.SplitCamelCaseSingle | Classes/Dto/ScanMatch.php:78 | a single character is never rewritten |
| PhpString.SplitCamelCaseJoin | Classes/Dto/ScanMatch.php:78 | the replacement of a + b is that of a, then one space exactly when a ends in a lower-case and b starts with an upper-case ASCII letter, then that of b; with SplitCamelCaseSingle this fixes the result of every input |
| Dto.FromMatcherOutput | Classes/Dto/ScanMatch.php:89-106 | file, path and class are copied; line is `(int)` of a set numeric value, else 0; indicator and message are the given string, else "strong" and "Unknown issue"; restFiles are the string entries of an array, else [] |
| Dto.StringValues | Classes/Dto/ScanMatch.php:104 | `array_values(array_filter(..., is_string))`; Dto.StringValuesFilter states which entries it keeps and in what order |
| Dto.StringValuesFilter | Classes/Dto/ScanMatch.php:104 | filtering keeps each string entry in place, drops every other entry, and keeps the order |
| Dto.FromMatcherOutputFiltersRestFiles | Classes/Dto/ScanMatch.php:95-104 | the mixed `restFiles` example keeps exactly "Valid.rst" and "Another.rst" |
| Dto.FromMatcherOutputDefaults | Classes/Dto/ScanMatch.php:100-104 | an empty raw match takes line 0, "strong", "Unknown issue" and no rest files |
| Dto.ScanMatch.ToArray | Classes/Dto/ScanMatch.php:113-124 | the array has exactly the seven keys, in the order written |
| Dto.ToArrayLocation | Classes/Dto/ScanMatch.php:116-118 | file, absolutePath and line are copied unchanged |
| Dto.ToArrayFinding | Classes/Dto/ScanMatch.php:119-120 | indicator and message are copied unchanged |
| Dto.ToArrayMatcher | Classes/Dto/ScanMatch.php:121-122 | matcherClass becomes the short name; restFiles becomes a list of the same strings |
| Dto.FromArrayRoundTrip | Classes/Dto/ScanMatch.php:89-124 | reading `toArray()` back with the record's own file, path and class gives the record |
| Php.DecimalStringRoundTrip | Classes/Output/CheckstyleOutputFormatter.php:63 | `(string)` of an integer is numeric and `(int)` of it is the integer |
| Service.Registry | Classes/Service/ExtensionScannerService.php:70-91 | entry i maps the namespaced class of short name i to the file "<name>.php" |
| Service.MatcherClassesDistinct | Classes/Service/ExtensionScannerService.php:70-91 | the twenty matcher classes are pairwise different |
| Service.ExtensionScannerService.GetAvailableMatcherClasses | Classes/Service/ExtensionScannerService.php:253-256 | all 20 classes, in declaration order, without repetition, whatever the cache holds |
| Service.ExistingEntriesOf | Classes/Service/ExtensionScannerService.php:274-279 | an entry is loaded exactly when its configuration file exists, with that file's payload |
| Service.LoadConfigurations | Classes/Service/ExtensionScannerService.php:274-279 | the registry loop as a function of the registry and the existing files; ExistingEntriesOf, LoadedConfigurations and InstalledConfigurations state what it holds |
| Service.ExistingEntriesDistinct | Classes/Service/ExtensionScannerService.php:274-279 | loading from a registry without repeated classes repeats no class |
| Service.LoadedConfigurations | Classes/Service/ExtensionScannerService.php:269-282 | for distinct classes the loaded map is the registry's entries with existing files, in registry order |
| Service.InstalledConfigurations | Classes/Service/ExtensionScannerService.php:263-283 | the loaded configurations are the registry subsequence with existing files, without repetition, both directions of membership |
| Service.ExtensionScannerService.GetMatcherConfigurations | Classes/Service/ExtensionScannerService.php:263-283 | a cached map is returned as is; otherwise a fresh load is returned and becomes the cache |
| Service.ExtensionScannerService.LoadMatcherConfigurations | Classes/Service/ExtensionScannerService.php:274-279 | the registered files that exist are loaded under their matcher class, in registry order; missing files are skipped |
| Service.CountsAsStrongCases | Classes/Service/ExtensionScannerService.php:234 | a record is strong iff its indicator is missing, null or exactly "strong" |
| Service.CountsAsStrong | Classes/Service/ExtensionScannerService.php:234 | `($match['indicator'] ?? 'strong') === 'strong'` on a raw record; CountsAsStrongCases lists its cases |
| Service.StrongRecordsBounded | Classes/Service/ExtensionScannerService.php:233-239 | the strong count never exceeds the number of records |
| Service.StrongRecordsAppend | Classes/Service/ExtensionScannerService.php:233-239 | counting is additive over concatenated results |
| Service.ExtensionScannerService.CalculateStatistics | Classes/Service/ExtensionScannerService.php:228-246 | total = strong + weak = number of records, strong = the records counted as strong |
| Service.Stamp | Classes/Service/ExtensionScannerService.php:212-214 | file, absolutePath and matcherClass are overwritten; every other key is unchanged |
| Service.StampAll | Classes/Service/ExtensionScannerService.php:211-216 | one stamped record per match, in emission order |
| Service.Instantiate | Classes/Service/ExtensionScannerService.php:199-205 | `$matchers[$class] = new $class($configuration)` over the configurations; InstantiateDistinct shows it keeps every configuration in order |
| Service.Collect | Classes/Service/ExtensionScannerService.php:209-217 | the nested loops over matchers and their matches as a function; CollectLength, CollectPrefix, CollectAt and CollectStamped state its layout and contents |
| Service.InstantiateDistinct | Classes/Service/ExtensionScannerService.php:200-205 | distinct configurations give one matcher each, in configuration order |
| Service.CollectLength | Classes/Service/ExtensionScannerService.php:209-217 | the result length is the sum of the matchers' match counts |
| Service.CollectPrefix | Classes/Service/ExtensionScannerService.php:209-217 | what the first i matchers collect is a prefix of the whole collection: later matchers only append |
| Service.CollectAt | Classes/Service/ExtensionScannerService.php:209-217 | the k-th match of matcher j, stamped, sits right after everything the earlier matchers found |
| Service.FoundMonotone | Classes/Service/ExtensionScannerService.php:209-217 | the matches before matcher j plus its own fit within the total |
| Service.CollectStamped | Classes/Service/ExtensionScannerService.php:211-215 | every collected record carries the file's paths and a configured matcher class |
| Service.FileMatches | Classes/Service/ExtensionScannerService.php:167-219 | what `scanFile` returns for given configurations; NothingFromUnscannedFiles states its empty cases |
| Service.PathMatches | Classes/Service/ExtensionScannerService.php:135-145 | the per-file results of `scanPath`, concatenated in enumeration order; ScanPath computes it |
| Service.NothingFromUnscannedFiles | Classes/Service/ExtensionScannerService.php:169-194 | parse error, null statements or an ignored file give no match; only the parse error is reported, once, with the relative path and message |
| Service.ExtensionScannerService.ScanFile | Classes/Service/ExtensionScannerService.php:157-220 | loads configurations only when none are given; the result and notices are the file's matches and parse-error notice under those configurations |
| Service.ExtensionScannerService.AnalyzeFile | Classes/Service/ExtensionScannerService.php:167-219 | the parse, ignore and collection steps for given configurations |
| Service.ExtensionScannerService.InstantiateMatchers | Classes/Service/ExtensionScannerService.php:199-205 | the `$matchers` map built from the configurations |
| Service.ExtensionScannerService.CollectMatches | Classes/Service/ExtensionScannerService.php:209-217 | the stamped matches of every matcher, in matcher order |
| Service.ExtensionScannerService.StampMatches | Classes/Service/ExtensionScannerService.php:211-215 | every match of one matcher, stamped with the file and the matcher class, in emission order |
| Service.ExtensionScannerService.ScanPath | Classes/Service/ExtensionScannerService.php:108-146 | no files: no match, no notice and the cache untouched; otherwise the per-file results concatenated in enumeration order, with the cache loaded once |
| Service.ProgressAfterEveryFile | Classes/Service/ExtensionScannerService.php:133-143 | progress is reported exactly (1,n), (2,n), ..., (n,n), whether or not a file had matches |
| Service.ProgressCallsAppend | Classes/Service/ExtensionScannerService.php:135-143 | the progress calls of two runs of files are those of each, in order |
| Service.SilentWithoutCallbacks | Classes/Service/ExtensionScannerService.php:135-143 | without callbacks nothing is reported |
| Output.StrongCountBounded | Classes/Output/JsonOutputFormatter.php:54-59 | the number of strong matches is at most the number of matches |
| Output.StrongCountZero | Classes/Output/JsonOutputFormatter.php:54-59 | no match is strong exactly when the strong count is zero |
| Output.StrongCountSplit | Classes/Output/JsonOutputFormatter.php:54-59 | the strong matches and the matches `isStrong()` rejects make up all matches |
| JsonOutput.Format | Classes/Output/JsonOutputFormatter.php:27-69 | summary total = strong + weak with both echoed, extensions_scanned = number of keys, one entry per key in order |
| JsonOutput.ExtensionEntry | Classes/Output/JsonOutputFormatter.php:45-62 | key; total = count; strong = `isStrong` matches; weak = the rest; matches = `toArray()` of each, in order |
| JsonOutput.EntryWeakIsNotStrong | Classes/Output/JsonOutputFormatter.php:54-59 | an entry's weak count is the number of its matches `isStrong()` rejects, so any indicator other than "strong" counts as weak |
| JsonOutput.RecordsReadBack | Classes/Output/JsonOutputFormatter.php:61 | each listed record reads back as its match |
| JsonOutput.EntryTotalsCountAllMatches | Classes/Output/JsonOutputFormatter.php:44-65 | the entries' totals add up to the number of matches over all extensions |
| CheckstyleOutput.ErrorAttributes | Classes/Output/CheckstyleOutputFormatter.php:62-67 | line reads back as the match's line, column "0", severity "error" iff strong, else "warning", the message, and source "TYPO3.ExtensionScanner." + match type |
| CheckstyleOutput.ErrorOf | Classes/Output/CheckstyleOutputFormatter.php:62-68 | the attributes of one error element; ErrorAttributes states each of them |
| CheckstyleOutput.Paths | Classes/Output/CheckstyleOutputFormatter.php:49 | the absolute paths in encounter order |
| CheckstyleOutput.InFileAbsent | Classes/Output/CheckstyleOutputFormatter.php:47-55 | a path that no match has gets no match |
| CheckstyleOutput.GroupOrder | Classes/Output/CheckstyleOutputFormatter.php:45-55 | one group per distinct absolute path, ordered by the path's first occurrence; extension keys play no part |
| CheckstyleOutput.GroupContents | Classes/Output/CheckstyleOutputFormatter.php:47-55 | a path's group is exactly the matches in that file, in encounter order across extensions |
| CheckstyleOutput.GroupByPath | Classes/Output/CheckstyleOutputFormatter.php:47-55 | the grouping loop as a function of the match sequence; GroupOrder and GroupContents state its keys and groups |
| CheckstyleOutput.GroupSizesCount | Classes/Output/CheckstyleOutputFormatter.php:47-55 | the group sizes add up to the number of matches |
| CheckstyleOutput.GroupSizesPut | Classes/Output/CheckstyleOutputFormatter.php:53 | replacing a group changes the total size by the difference |
| CheckstyleOutput.IssetThenAppend | Classes/Output/CheckstyleOutputFormatter.php:50-53 | creating an empty group for a new path and then appending is one grouping step |
| CheckstyleOutput.GroupMatches | Classes/Output/CheckstyleOutputFormatter.php:44-55 | the loops fill `$matchesByFile` as the grouping of all matches |
| CheckstyleOutput.AddMatches | Classes/Output/CheckstyleOutputFormatter.php:48-54 | the inner loop extends a grouping by one extension's matches |
| CheckstyleOutput.Format | Classes/Output/CheckstyleOutputFormatter.php:29-78 | version "4.3" and one file element per group, in group order, holding the group's errors; the totals are not read |
| CheckstyleOutput.ReportCoversEveryMatch | Classes/Output/CheckstyleOutputFormatter.php:47-72 | every match of every extension appears as exactly one error element |
| CheckstyleOutput.ErrorCountOfGroups | Classes/Output/CheckstyleOutputFormatter.php:57-72 | the file elements hold as many errors as the groups hold matches |
| TableOutput.Truncate | Classes/Output/TableOutputFormatter.php:64-68 | a message of at most 60 characters is kept; a longer one is its first 57 followed by "...", 60 in all |
| TableOutput.TruncateIdempotent | Classes/Output/TableOutputFormatter.php:64-68 | a shown message is at most 60 long, so truncating again changes nothing |
| TableOutput.IndicatorLabels | Classes/Output/TableOutputFormatter.php:60-62 | the label is STRONG iff the match is strong; every other indicator is WEAK |
| TableOutput.IndicatorLabel | Classes/Output/TableOutputFormatter.php:60-62 | the label of the indicator column; IndicatorLabels states when it is STRONG |
| TableOutput.Row | Classes/Output/TableOutputFormatter.php:70-76 | the five cells of a row: file, line, match type, shown message and label; ShownRowsAreAllMatches shows one per match |
| TableOutput.RowsAppend | Classes/Output/TableOutputFormatter.php:59-77 | the rows of concatenated matches are the concatenated rows |
| TableOutput.Format | Classes/Output/TableOutputFormatter.php:34-107 | zero total: only the success message, whatever the lists hold; otherwise the result blocks, then the summary |
| TableOutput.ResultTables | Classes/Output/TableOutputFormatter.php:48-81 | the loop emits one titled table and a line break per extension with matches, and nothing for an empty list |
| TableOutput.TableRows | Classes/Output/TableOutputFormatter.php:59-77 | the loop adds one row per match, with label and truncated message |
| TableOutput.WriteSummary | Classes/Output/TableOutputFormatter.php:83-106 | appends the summary section, the conditional error and warning, and the text |
| TableOutput.ShownRowsAreAllMatches | Classes/Output/TableOutputFormatter.php:48-81 | the rendered tables together show exactly one row per match of every extension, in order |
| TableOutput.ShownRowsAppend | Classes/Output/TableOutputFormatter.php:48-81 | the shown rows of concatenated output are the concatenated rows |
| TableOutput.SummaryLines | Classes/Output/TableOutputFormatter.php:84-98 | the summary starts with its section; the error line appears iff strong > 0, the warning iff weak > 0 |
| TableOutput.TotalLineReportsSum | Classes/Output/TableOutputFormatter.php:102 | the totals line starts with "Total issues: " and a number that reads back as strong + weak |
| TableOutput.SummaryEndsWithTotals | Classes/Output/TableOutputFormatter.php:100-106 | the summary closes with the text, whose second line is the totals line |
| TableOutput.SummaryEvents | Classes/Output/TableOutputFormatter.php:83-106 | the summary block; SummaryLines, TotalLineReportsSum and SummaryEndsWithTotals state its lines |
| PhpString.RTrim | Classes/Command/ExtensionScannerCommand.php:220 | the result is a prefix that does not end in the character, and everything removed is that character |
| Command.ExitCode | Classes/Command/ExtensionScannerCommand.php:189-197 | 1 iff strong > 0; 2 iff no strong, fail-on-weak and weak > 0; 0 otherwise |
| Command.WeakFindingsAloneDoNotFail | Classes/Command/ExtensionScannerCommand.php:190-197 | without fail-on-weak the weak total never changes the code, and the code is never 2 |
| Command.FirstInactive | Classes/Command/ExtensionScannerCommand.php:230-234 | all keys before the index are active and the key at it is not |
| Command.CustomPathWins | Classes/Command/ExtensionScannerCommand.php:215-221 | with a custom path, the packages, `--all` and the keys do not affect the resolution |
| Command.ScanAllWinsOverKeys | Classes/Command/ExtensionScannerCommand.php:221-229 | without a custom path, `--all` ignores the extension keys |
| Command.CustomPathEntry | Classes/Command/ExtensionScannerCommand.php:215-220 | an existing custom path gives the single entry "custom", without the trailing slashes |
| Command.SlashesOnlyPathIsEmpty | Classes/Command/ExtensionScannerCommand.php:215-220 | a custom path made only of slashes, such as "/", passes the directory check and is scanned as the empty path |
| Command.SelectedPackagesAre | Classes/Command/ExtensionScannerCommand.php:221-228 | a key is selected iff an active package has it and system extensions are included or that package is not "typo3-cms-framework" |
| Command.SelectedPackagesDistinct | Classes/Command/ExtensionScannerCommand.php:227 | `--all` names each key once |
| Command.SelectedPackages | Classes/Command/ExtensionScannerCommand.php:221-228 | the `--all` loop as a function of the active packages; SelectedPackagesAre and SelectedPackagesDistinct state what it holds |
| Command.InactiveKeyFails | Classes/Command/ExtensionScannerCommand.php:229-241 | with only extension keys, resolution fails iff there are none or some key is inactive |
| Command.ExtensionPathsOrder | Classes/Command/ExtensionScannerCommand.php:230-237 | one entry per distinct key, in order of first mention |
| Command.ExtensionPathsLookup | Classes/Command/ExtensionScannerCommand.php:235-236 | each key maps to its package path |
| Command.ExtensionPaths | Classes/Command/ExtensionScannerCommand.php:229-241 | the loop over the keys once all are active; ExtensionPathsOrder and ExtensionPathsLookup state its keys and paths |
| Command.Resolve | Classes/Command/ExtensionScannerCommand.php:206-244 | the precedence of `resolvePathsToScan`; CustomPathWins, ScanAllWinsOverKeys, CustomPathEntry and InactiveKeyFails state its outcomes |
| Command.ResolvedKeysDistinct | Classes/Command/ExtensionScannerCommand.php:206-244 | every resolved map holds each key once |
| Command.ExtensionScannerCommand.ResolvePathsToScan | Classes/Command/ExtensionScannerCommand.php:206-244 | the loops compute the resolution: custom path, else `--all`, else the keys, else the missing-target error |
| Command.ExtensionScannerCommand.ScanExtensionPath | Classes/Command/ExtensionScannerCommand.php:251-279 | the path's matches; callbacks only as requested; a closing line break only with progress |
| Command.ExtensionScannerCommand.ScanNext | Classes/Command/ExtensionScannerCommand.php:166-182 | one loop pass: section, scan, store under the key, add the statistics to the totals |
| Command.ExtensionScannerCommand.ScanExtensions | Classes/Command/ExtensionScannerCommand.php:161-183 | the loop's `$allMatches`, totals and console output over all resolved paths; the configurations stay the same |
| Command.ScanLog | Classes/Command/ExtensionScannerCommand.php:161-183 | the console output of the scanning loop per extension; ScanExtensions produces it |
| Command.TotalsCountRecords | Classes/Command/ExtensionScannerCommand.php:180-182 | both totals are non-negative, and they add up to zero iff no extension has a match |
| Command.ScansInOrder | Classes/Command/ExtensionScannerCommand.php:166-178 | with distinct keys, `$allMatches` holds every extension's records under its key, in order |
| Command.FormatterFails | Classes/Command/ExtensionScannerCommand.php:185-187 | when the formatter raises an error on the service's arrays; OutcomeAsWritten shows it is exactly when some extension has a record |
| Command.FirstWithRecords | Classes/Command/ExtensionScannerCommand.php:185-187 | the first extension with a record: every one before it is empty, and it exists iff some extension has a record |
| Command.FailureLeavesFirstTitle | Classes/Output/TableOutputFormatter.php:48-60 | a failing table formatter has written exactly the title of the first extension with a record; JSON and Checkstyle have written nothing |
| Command.OutcomeAsWritten | Classes/Command/ExtensionScannerCommand.php:185-197 | formatting fails iff some extension produced a match; when it does not fail the exit code is 0 |
| Command.ExtensionScannerCommand.FormatResults | Classes/Command/ExtensionScannerCommand.php:185-187 | fails exactly under `FormatterFails`, leaving what the formatter had written (`FailureOutput`); otherwise the report of the formatter chosen by the format |
| Command.ExtensionScannerCommand.Execute | Classes/Command/ExtensionScannerCommand.php:121-198 | an invalid format fails first; an unresolved target fails; an empty map succeeds without scanning; otherwise scan, then a formatter failure with its partial output, or the report and the exit-code rule |
| OrderedMap.GetPut | Classes/Command/ExtensionScannerCommand.php:236 | after `$a[$k] = $v`, `$a[$k]` is `$v` and every other key reads as before |
| OrderedMap.KeysPut | Classes/Command/ExtensionScannerCommand.php:236 | an existing key keeps its place, a new one is appended |
| OrderedMap.PutPut | Classes/Command/ExtensionScannerCommand.php:236 | a second assignment to the same key overrides the first and keeps its place |

## Left out

- Parsing, name resolution, the ignore decision and the matchers are oracles: `Service.Analyzer` holds the parse result, the first-pass result and each matcher's raw matches.
- The parser cache (`getParser`) is left out: the model has one analyzer for all files.
- The Finder's filters (`*.php`, and skipping `vendor`, `node_modules` and `.Build`) and its order are left out. `FileSystem.phpFiles` gives the files in whatever order it has.
- `getRealPath` returning false is left out: the real path is a string.
- `GeneralUtility::getFileAbsFileName`, `file_exists` and `require` are replaced by a map from configuration file name to its payload.
- XMLWriter escaping and indentation, `json_encode` and `date('c')` are left out. The timestamp is a parameter of `JsonOutput.Format`.
- Symfony console styling, the message texts of the command's errors and warnings, and `Table` rendering are left out. Console output is a sequence of events.
- `Bootstrap::initializeBackendAuthentication` and the option parsing of `configure` are left out. `Command.Options` holds the parsed options.
- The interface `OutputFormatterInterface` is only a signature. `Command.ExtensionScannerCommand.FormatResults` chooses among the three formatters directly.
- Numeric extension keys, which PHP turns into integer array keys, are left out: keys stay strings.
- `is_numeric` strings with an exponent, and PHP's 64-bit clamping of `(int)`, are left out.
- Dto.ScanMatch.MatchType: the unit-test literal "MethodCallStaticMatcher" → "Method Call Static" is not proved as a literal. `PhpString.SplitCamelCaseJoin` and `PhpString.SplitCamelCaseSingle` determine the result for every input, that one included.
- Service.ExtensionScannerService.ScanPath: `Finder::in` throws when the path is not a directory, and the model does not model that exception. It asks `FileSystem.phpFiles` for the path's files whatever the path is. The case arises from the command: a custom path made only of slashes, such as "/", passes `is_dir` and is trimmed to "" (`Command.SlashesOnlyPathIsEmpty`). The source then throws inside `scanPath`, while the model scans `phpFiles("")` and finishes normally.
- The Checkstyle formatter's PHP warnings (one `->absolutePath` warning per record, and one `->line` warning for the first record of the second loop) are console output that the model does not record.
- TableOutput.Truncate: counts characters, and each character stands for one byte, so multi-byte UTF-8 text is not modelled.
