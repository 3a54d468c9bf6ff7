/**
 * The match record: one finding of one matcher in one file, with the
 * derived names used by the report formats and the normalising constructor
 * from a matcher's raw output.
 */
module Dto {
  import opened Wrappers
  import opened OrderedMap
  import opened Php
  import opened PhpString

  /**
   * `file` is relative to the scanned root; `indicator` is "strong" (certain)
   * or "weak" (needs review), though any text can be stored; `matcherClass`
   * is the fully qualified class name of the producing matcher.
   */
  datatype ScanMatch = ScanMatch(
    file: string,
    absolutePath: string,
    line: int,
    indicator: string,
    message: string,
    matcherClass: string,
    restFiles: seq<string>)
  {
    predicate IsStrong() {
      indicator == "strong"
    }

    predicate IsWeak() {
      indicator == "weak"
    }

    /** The class name without its namespace; the full name when the last segment is "" or "0". */
    function MatcherName(): string {
      var last := LastPart('\\', matcherClass);
      if IsFalsyString(last) then matcherClass else last
    }

    /** A readable rule name: "Matcher" removed, then a space at every lower-to-upper boundary. */
    function MatchType(): string {
      SplitCamelCase(RemoveAll("Matcher", MatcherName()))
    }

    /** The record as an array for JSON output; the matcher is given by its short name. */
    function ToArray(): (r: PhpArray)
      ensures Keys(r) == [StrKey("file"), StrKey("absolutePath"), StrKey("line"), StrKey("indicator"),
                          StrKey("message"), StrKey("matcherClass"), StrKey("restFiles")]
    {
      [(StrKey("file"), Str(file)),
       (StrKey("absolutePath"), Str(absolutePath)),
       (StrKey("line"), Int(line)),
       (StrKey("indicator"), Str(indicator)),
       (StrKey("message"), Str(message)),
       (StrKey("matcherClass"), Str(MatcherName())),
       (StrKey("restFiles"), Arr(StringList(restFiles)))]
    }
  }

  /** `toArray` copies the location fields unchanged... */
  lemma ToArrayLocation(m: ScanMatch)
    ensures Lookup(m.ToArray(), "file") == Some(Str(m.file))
    ensures Lookup(m.ToArray(), "absolutePath") == Some(Str(m.absolutePath))
    ensures Lookup(m.ToArray(), "line") == Some(Int(m.line))
  {
    var a := m.ToArray();
    GetAt(a, 0); GetAt(a, 1); GetAt(a, 2);
  }

  /** ...and the finding itself... */
  lemma ToArrayFinding(m: ScanMatch)
    ensures Lookup(m.ToArray(), "indicator") == Some(Str(m.indicator))
    ensures Lookup(m.ToArray(), "message") == Some(Str(m.message))
  {
    var a := m.ToArray();
    GetAt(a, 3); GetAt(a, 4);
  }

  /** ...except that the matcher becomes its short name. */
  lemma ToArrayMatcher(m: ScanMatch)
    ensures Lookup(m.ToArray(), "matcherClass") == Some(Str(m.MatcherName()))
    ensures Lookup(m.ToArray(), "restFiles") == Some(Arr(StringList(m.restFiles)))
  {
    var a := m.ToArray();
    GetAt(a, 5); GetAt(a, 6);
  }

  /** A PHP list of strings: keys 0, 1, 2, ... */
  function StringList(xs: seq<string>): (a: PhpArray)
    ensures |a| == |xs|
    ensures forall i :: 0 <= i < |xs| ==> a[i] == (IntKey(i), Str(xs[i]))
  {
    seq(|xs|, i requires 0 <= i < |xs| => (IntKey(i), Str(xs[i])))
  }

  /** `array_values(array_filter($vs, 'is_string'))`: the strings, in order. */
  function StringValues(vs: seq<Value>): seq<string> {
    if vs == [] then []
    else (if vs[0].Str? then [vs[0].s] else []) + StringValues(vs[1..])
  }

  /** `ScanMatch::fromMatcherOutput`: missing or ill-typed fields take their defaults. */
  function FromMatcherOutput(raw: PhpArray, relativeFile: string, absolutePath: string, matcherClass: string): (m: ScanMatch)
    ensures m.file == relativeFile && m.absolutePath == absolutePath && m.matcherClass == matcherClass
    ensures IsSet(raw, "line") && IsNumeric(Lookup(raw, "line").value) ==> m.line == IntCast(Lookup(raw, "line").value)
    ensures !(IsSet(raw, "line") && IsNumeric(Lookup(raw, "line").value)) ==> m.line == 0
    ensures forall s :: Lookup(raw, "indicator") == Some(Str(s)) ==> m.indicator == s
    ensures !(Lookup(raw, "indicator").Some? && Lookup(raw, "indicator").value.Str?) ==> m.indicator == "strong"
    ensures forall s :: Lookup(raw, "message") == Some(Str(s)) ==> m.message == s
    ensures !(Lookup(raw, "message").Some? && Lookup(raw, "message").value.Str?) ==> m.message == "Unknown issue"
    ensures forall es :: Lookup(raw, "restFiles") == Some(Arr(es)) ==> m.restFiles == StringValues(Values(es))
    ensures !(Lookup(raw, "restFiles").Some? && Lookup(raw, "restFiles").value.Arr?) ==> m.restFiles == []
  {
    var line := if IsSet(raw, "line") && IsNumeric(Lookup(raw, "line").value) then IntCast(Lookup(raw, "line").value) else 0;
    var indicator := if IsSet(raw, "indicator") && Lookup(raw, "indicator").value.Str? then Lookup(raw, "indicator").value.s else "strong";
    var message := if IsSet(raw, "message") && Lookup(raw, "message").value.Str? then Lookup(raw, "message").value.s else "Unknown issue";
    var restFiles := Coalesce(raw, "restFiles", Arr([]));
    ScanMatch(relativeFile, absolutePath, line, indicator, message, matcherClass,
              if restFiles.Arr? then StringValues(Values(restFiles.entries)) else [])
  }

  // ----- strength -----

  /** Strong and weak exclude each other, and any other indicator is neither. */
  lemma StrengthIsExclusive(m: ScanMatch)
    ensures !(m.IsStrong() && m.IsWeak())
    ensures m.IsStrong() <==> m.indicator == "strong"
    ensures m.IsWeak() <==> m.indicator == "weak"
    ensures m.indicator != "strong" && m.indicator != "weak" ==> !m.IsStrong() && !m.IsWeak()
  {
  }

  // ----- matcher name -----

  /** A name without a namespace separator is its own short name. */
  lemma {:induction false} MatcherNameUnqualified(m: ScanMatch)
    requires '\\' !in m.matcherClass
    ensures m.MatcherName() == m.matcherClass
  {
    if m.matcherClass != [] {
      assert LastPart('\\', m.matcherClass) == m.matcherClass;
    }
  }

  lemma LastPartOfQualified(qualifier: string, name: string)
    requires '\\' !in name
    ensures LastPart('\\', qualifier + ['\\'] + name) == name
  {
    var s := qualifier + ['\\'] + name;
    var last := LastPart('\\', s);
    LastPartIsSuffix('\\', s);
    assert s[|s| - |name|..] == name;
    assert s[|s| - |name| - 1] == '\\';
    assert forall k :: 0 <= k < |last| ==> last[k] == s[|s| - |last| + k];
    assert forall j :: 0 <= j < |name| ==> s[|s| - |name| + j] == name[j];
    assert |last| == |name|;
  }

  /** For a qualified name the short name is the text after the last backslash... */
  lemma MatcherNameQualified(m: ScanMatch, qualifier: string, name: string)
    requires m.matcherClass == qualifier + ['\\'] + name
    requires '\\' !in name && !IsFalsyString(name)
    ensures m.MatcherName() == name
  {
    LastPartOfQualified(qualifier, name);
  }

  /** ...unless that text is "" or "0", which PHP reads as false: then it is the full name. */
  lemma MatcherNameFalsyLastSegment(m: ScanMatch, qualifier: string, name: string)
    requires m.matcherClass == qualifier + ['\\'] + name
    requires IsFalsyString(name)
    ensures m.MatcherName() == m.matcherClass
  {
    LastPartOfQualified(qualifier, name);
  }

  /** The short name is a suffix of the class name that is all of it or follows a backslash. */
  lemma MatcherNameIsSuffix(m: ScanMatch)
    ensures var n := m.MatcherName();
      |n| <= |m.matcherClass| && m.matcherClass[|m.matcherClass| - |n|..] == n &&
      (n == m.matcherClass || ('\\' !in n && m.matcherClass[|m.matcherClass| - |n| - 1] == '\\'))
  {
    LastPartIsSuffix('\\', m.matcherClass);
  }

  // ----- match type -----

  /**
   * The readable type only adds spaces to the "Matcher"-free short name;
   * for a class name without spaces, deleting them gives that name back.
   */
  lemma MatchTypeOnlyAddsSpaces(m: ScanMatch)
    ensures RemoveSpaces(m.MatchType()) == RemoveSpaces(RemoveAll("Matcher", m.MatcherName()))
    ensures ' ' !in m.MatcherName() ==> RemoveSpaces(m.MatchType()) == RemoveAll("Matcher", m.MatcherName())
  {
    var stripped := RemoveAll("Matcher", m.MatcherName());
    SplitCamelCaseOnlyAddsSpaces(stripped);
    if ' ' !in m.MatcherName() {
      RemoveAllKeepsAbsentChar("Matcher", m.MatcherName(), ' ');
      RemoveSpacesNone(stripped);
    }
  }

  lemma {:induction false} RemoveAllKeepsAbsentChar(search: string, s: string, c: char)
    requires c !in s
    ensures c !in RemoveAll(search, s)
  {
    if search != [] && |s| >= |search| {
      if s[..|search|] == search {
        RemoveAllKeepsAbsentChar(search, s[|search|..], c);
      } else {
        RemoveAllKeepsAbsentChar(search, s[1..], c);
      }
    }
  }

  /** No lower-case letter in the readable type is directly followed by an upper-case one. */
  lemma MatchTypeHasNoCamelBoundary(m: ScanMatch)
    ensures !HasCamelBoundary(m.MatchType())
  {
    SplitCamelCaseLeavesNoBoundary(RemoveAll("Matcher", m.MatcherName()));
  }

  /** A short name without "Matcher" and without a boundary is shown as it is. */
  lemma MatchTypeOfPlainName(m: ScanMatch)
    requires !Occurs("Matcher", m.MatcherName()) && !HasCamelBoundary(m.MatcherName())
    ensures m.MatchType() == m.MatcherName()
  {
    RemoveAllAbsent("Matcher", m.MatcherName());
    SplitCamelCaseIdentity(m.MatcherName());
  }

  // ----- the raw-output constructor -----

  lemma {:induction false} StringValuesAppend(a: seq<Value>, b: seq<Value>)
    ensures StringValues(a + b) == StringValues(a) + StringValues(b)
  {
    if a == [] {
      assert a + b == b;
    } else {
      assert (a + b)[0] == a[0];
      assert (a + b)[1..] == a[1..] + b;
      StringValuesAppend(a[1..], b);
    }
  }

  /** Filtering keeps each string entry, drops every other one, and keeps their order. */
  lemma StringValuesFilter(a: seq<Value>, v: Value, b: seq<Value>)
    ensures StringValues(a + [v] + b) == StringValues(a) + (if v.Str? then [v.s] else []) + StringValues(b)
  {
    StringValuesAppend(a + [v], b);
    StringValuesAppend(a, [v]);
  }

  lemma {:induction false} StringValuesOfStrings(xs: seq<string>)
    ensures StringValues(Values(StringList(xs))) == xs
  {
    if xs != [] {
      var vs := Values(StringList(xs));
      StringValuesOfStrings(xs[1..]);
      assert vs[1..] == Values(StringList(xs[1..]));
    }
  }

  /** The array form of a record, read back with the same file and class, is the record itself. */
  lemma FromArrayRoundTrip(m: ScanMatch)
    ensures FromMatcherOutput(m.ToArray(), m.file, m.absolutePath, m.matcherClass) == m
  {
    var a := m.ToArray();
    ToArrayLocation(m);
    ToArrayFinding(m);
    ToArrayMatcher(m);
    StringValuesOfStrings(m.restFiles);
    var r := FromMatcherOutput(a, m.file, m.absolutePath, m.matcherClass);
    assert IsSet(a, "line") && IsNumeric(Int(m.line));
    assert r.line == m.line;
    assert r.indicator == m.indicator;
    assert r.message == m.message;
    assert r.restFiles == m.restFiles;
  }

  /** The conversion of the unit test with mixed `restFiles` entries: only the strings survive. */
  lemma FromMatcherOutputFiltersRestFiles()
    ensures FromMatcherOutput(
      [(StrKey("restFiles"), Arr([(IntKey(0), Str("Valid.rst")), (IntKey(1), Int(123)), (IntKey(2), Null),
                                  (IntKey(3), Str("Another.rst")), (IntKey(4), Arr([(IntKey(0), Str("nested"))]))]))],
      "test.php", "/test.php", "Matcher").restFiles == ["Valid.rst", "Another.rst"]
  {
  }

  /** An empty raw match takes every default. */
  lemma FromMatcherOutputDefaults(raw: PhpArray)
    requires raw == []
    ensures var m := FromMatcherOutput(raw, "test.php", "/test.php", "Matcher");
      m.line == 0 && m.indicator == "strong" && m.message == "Unknown issue" && m.restFiles == []
  {
  }
}
