/**
 * The PHP string functions the scanner uses, each with the behaviour it has
 * for the arguments the scanner passes.
 */
module PhpString {

  // ----- explode / implode -----

  /** `explode($sep, $s)` for a one-character separator: never empty, "" gives [""]. */
  function Explode(sep: char, s: string): (parts: seq<string>)
    ensures parts != []
    ensures forall i :: 0 <= i < |parts| ==> sep !in parts[i]
    ensures sep !in s ==> parts == [s]
    ensures sep in s ==> |parts| > 1
  {
    if s == [] then [""]
    else
      var rest := Explode(sep, s[1..]);
      if s[0] == sep then [""] + rest
      else
        assert s == [s[0]] + s[1..];
        [[s[0]] + rest[0]] + rest[1..]
  }

  /** `implode($sep, $parts)`. */
  function Implode(sep: char, parts: seq<string>): string
    requires parts != []
  {
    if |parts| == 1 then parts[0] else parts[0] + [sep] + Implode(sep, parts[1..])
  }

  /** `explode` loses nothing: joining the pieces with the separator gives the string back. */
  lemma {:induction false} ImplodeExplode(sep: char, s: string)
    ensures Implode(sep, Explode(sep, s)) == s
  {
    if s != [] {
      var rest := Explode(sep, s[1..]);
      ImplodeExplode(sep, s[1..]);
      if s[0] == sep {
        assert Explode(sep, s)[1..] == rest;
      } else if |rest| == 1 {
      } else {
        var parts := Explode(sep, s);
        assert parts[1..] == rest[1..];
        assert Implode(sep, parts) == [s[0]] + rest[0] + [sep] + Implode(sep, rest[1..]);
      }
    }
  }

  /** The text after the last separator (all of `s` when there is none). */
  function LastPart(sep: char, s: string): string {
    var parts := Explode(sep, s);
    parts[|parts| - 1]
  }

  /**
   * The last piece is the longest separator-free suffix: `s` is some prefix
   * that is empty or ends in the separator, followed by it.
   */
  lemma {:induction false} LastPartIsSuffix(sep: char, s: string)
    ensures var last := LastPart(sep, s);
      |last| <= |s| && s[|s| - |last|..] == last && sep !in last &&
      (|last| == |s| || s[|s| - |last| - 1] == sep)
  {
    if s != [] {
      LastPartIsSuffix(sep, s[1..]);
      var rest := Explode(sep, s[1..]);
      if s[0] != sep && |rest| == 1 {
        assert LastPart(sep, s) == [s[0]] + rest[0];
      } else {
        assert LastPart(sep, s) == LastPart(sep, s[1..]);
      }
    }
  }

  // ----- str_replace($search, '', $subject) -----

  /**
   * `str_replace($search, '', $s)`: deletes the non-overlapping occurrences of
   * `search` found scanning left to right; the result is not scanned again.
   */
  function RemoveAll(search: string, s: string): (r: string)
    ensures |r| <= |s|
  {
    if search == [] || |s| < |search| then s
    else if s[..|search|] == search then RemoveAll(search, s[|search|..])
    else [s[0]] + RemoveAll(search, s[1..])
  }

  predicate OccursAt(search: string, s: string, i: int) {
    0 <= i && i + |search| <= |s| && s[i..i + |search|] == search
  }

  predicate Occurs(search: string, s: string) {
    exists i :: 0 <= i <= |s| && OccursAt(search, s, i)
  }

  /** A string without the searched text is unchanged. */
  lemma {:induction false} RemoveAllAbsent(search: string, s: string)
    requires !Occurs(search, s)
    ensures RemoveAll(search, s) == s
  {
    if search != [] && |s| >= |search| {
      assert s[0..|search|] == s[..|search|];
      assert !OccursAt(search, s, 0);
      assert !Occurs(search, s[1..]) by {
        forall i | 0 <= i <= |s| - 1
          ensures !OccursAt(search, s[1..], i)
        {
          if i + |search| <= |s| - 1 {
            assert s[1..][i..i + |search|] == s[i + 1..i + 1 + |search|];
            assert !OccursAt(search, s, i + 1);
          }
        }
      }
      RemoveAllAbsent(search, s[1..]);
    }
  }

  /** Every text removed is an occurrence: each deletion shortens by exactly `|search|`. */
  lemma {:induction false} RemoveAllPrefix(search: string, t: string)
    requires search != []
    ensures RemoveAll(search, search + t) == RemoveAll(search, t)
  {
    assert (search + t)[..|search|] == search;
    assert (search + t)[|search|..] == t;
  }

  // ----- preg_replace('/([a-z])([A-Z])/', '$1 $2', $s) -----

  predicate IsAsciiLower(c: char) { 'a' <= c <= 'z' }
  predicate IsAsciiUpper(c: char) { 'A' <= c <= 'Z' }

  /** A lower-case ASCII letter directly followed by an upper-case one at `i`. */
  predicate CamelBoundaryAt(s: string, i: int) {
    0 <= i && i + 1 < |s| && IsAsciiLower(s[i]) && IsAsciiUpper(s[i + 1])
  }

  predicate HasCamelBoundary(s: string) {
    exists i :: 0 <= i < |s| && CamelBoundaryAt(s, i)
  }

  /**
   * The regular-expression replacement: every non-overlapping match of a
   * lower-case letter followed by an upper-case letter, taken left to right,
   * gets a space between its two letters.
   */
  function SplitCamelCase(s: string): (r: string)
    ensures |r| >= |s|
    ensures s != [] ==> r != [] && r[0] == s[0]
  {
    if |s| >= 2 && IsAsciiLower(s[0]) && IsAsciiUpper(s[1]) then [s[0], ' ', s[1]] + SplitCamelCase(s[2..])
    else if s == [] then []
    else [s[0]] + SplitCamelCase(s[1..])
  }

  function RemoveSpaces(s: string): (r: string)
    ensures ' ' !in r
  {
    if s == [] then [] else (if s[0] == ' ' then [] else [s[0]]) + RemoveSpaces(s[1..])
  }

  lemma {:induction false} RemoveSpacesAppend(a: string, b: string)
    ensures RemoveSpaces(a + b) == RemoveSpaces(a) + RemoveSpaces(b)
  {
    if a == [] {
      assert a + b == b;
    } else {
      assert (a + b)[0] == a[0];
      assert (a + b)[1..] == a[1..] + b;
      RemoveSpacesAppend(a[1..], b);
      var head := if a[0] == ' ' then [] else [a[0]];
      calc {
        RemoveSpaces(a + b);
        head + RemoveSpaces(a[1..] + b);
        head + (RemoveSpaces(a[1..]) + RemoveSpaces(b));
        (head + RemoveSpaces(a[1..])) + RemoveSpaces(b);
      }
    }
  }

  lemma {:induction false} RemoveSpacesNone(s: string)
    requires ' ' !in s
    ensures RemoveSpaces(s) == s
  {
    if s != [] {
      RemoveSpacesNone(s[1..]);
    }
  }

  /** The replacement inserts nothing but spaces: deleting spaces on both sides gives the same text. */
  lemma {:induction false} SplitCamelCaseOnlyAddsSpaces(s: string)
    ensures RemoveSpaces(SplitCamelCase(s)) == RemoveSpaces(s)
  {
    if |s| >= 2 && IsAsciiLower(s[0]) && IsAsciiUpper(s[1]) {
      var a, b := s[0], s[1];
      SplitCamelCaseOnlyAddsSpaces(s[2..]);
      RemoveSpacesAppend([a, ' ', b], SplitCamelCase(s[2..]));
      RemoveSpacesAppend([a, b], s[2..]);
      assert RemoveSpaces([a, ' ', b]) == [a, b] by {
        assert [a, ' ', b][1..] == [' ', b];
        assert [' ', b][1..] == [b];
        assert [b][1..] == [];
      }
      assert RemoveSpaces([a, b]) == [a, b] by {
        assert [a, b][1..] == [b];
        assert [b][1..] == [];
      }
      assert s == [a, b] + s[2..];
    } else if s != [] {
      SplitCamelCaseOnlyAddsSpaces(s[1..]);
      RemoveSpacesAppend([s[0]], SplitCamelCase(s[1..]));
      RemoveSpacesAppend([s[0]], s[1..]);
      assert s == [s[0]] + s[1..];
    }
  }

  /** One character on its own is never rewritten. */
  lemma SplitCamelCaseSingle(c: char)
    ensures SplitCamelCase([c]) == [c]
  {
    assert [c][1..] == [];
  }

  /** The space the replacement puts between two texts written one after the other. */
  function JoinSpace(a: string, b: string): string {
    if a != [] && b != [] && IsAsciiLower(a[|a| - 1]) && IsAsciiUpper(b[0]) then " " else ""
  }

  /**
   * The replacement of a concatenation: each part is rewritten on its own,
   * and one space goes between them exactly when a lower-case letter ends
   * the first part and an upper-case letter starts the second. Together
   * with `SplitCamelCaseSingle` this fixes where every space goes.
   */
  lemma {:induction false} SplitCamelCaseJoin(a: string, b: string)
    ensures SplitCamelCase(a + b) == SplitCamelCase(a) + JoinSpace(a, b) + SplitCamelCase(b)
  {
    var ab := a + b;
    if a == [] {
      assert ab == b;
    } else if |a| >= 2 && IsAsciiLower(a[0]) && IsAsciiUpper(a[1]) {
      var t := a[2..];
      assert ab[0] == a[0] && ab[1] == a[1];
      assert ab[2..] == t + b;
      SplitCamelCaseJoin(t, b);
      assert JoinSpace(t, b) == JoinSpace(a, b) by {
        if t != [] {
          assert t[|t| - 1] == a[|a| - 1];
        }
      }
      var head := [a[0], ' ', a[1]];
      assert SplitCamelCase(ab) == head + SplitCamelCase(t + b);
      assert SplitCamelCase(a) == head + SplitCamelCase(t);
      Associate(head, SplitCamelCase(t), JoinSpace(a, b), SplitCamelCase(b));
    } else if |a| == 1 && b != [] && IsAsciiLower(a[0]) && IsAsciiUpper(b[0]) {
      assert ab[0] == a[0] && ab[1] == b[0];
      assert ab[2..] == b[1..];
      assert a[1..] == [];
      assert SplitCamelCase(a) == [a[0]];
      assert SplitCamelCase(b) == [b[0]] + SplitCamelCase(b[1..]);
      assert SplitCamelCase(ab) == [a[0], ' ', b[0]] + SplitCamelCase(b[1..]);
      assert JoinSpace(a, b) == " ";
    } else {
      var t := a[1..];
      assert ab[0] == a[0];
      assert !(|ab| >= 2 && IsAsciiLower(ab[0]) && IsAsciiUpper(ab[1])) by {
        if |a| == 1 && |ab| >= 2 {
          assert ab[1] == b[0];
        } else if |ab| >= 2 {
          assert ab[1] == a[1];
        }
      }
      assert ab[1..] == t + b;
      SplitCamelCaseJoin(t, b);
      assert JoinSpace(t, b) == JoinSpace(a, b) by {
        if t != [] {
          assert t[|t| - 1] == a[|a| - 1];
        }
      }
      var head := [a[0]];
      assert SplitCamelCase(ab) == head + SplitCamelCase(t + b);
      assert SplitCamelCase(a) == head + SplitCamelCase(t);
      Associate(head, SplitCamelCase(t), JoinSpace(a, b), SplitCamelCase(b));
    }
  }

  lemma Associate<T>(w: seq<T>, x: seq<T>, y: seq<T>, z: seq<T>)
    ensures w + (x + y + z) == (w + x) + y + z
  {
  }

  /** After the replacement no lower-case letter is directly followed by an upper-case one. */
  lemma {:induction false} SplitCamelCaseLeavesNoBoundary(s: string)
    ensures !HasCamelBoundary(SplitCamelCase(s))
  {
    var r := SplitCamelCase(s);
    if |s| >= 2 && IsAsciiLower(s[0]) && IsAsciiUpper(s[1]) {
      SplitCamelCaseLeavesNoBoundary(s[2..]);
      var tail := SplitCamelCase(s[2..]);
      forall i | 0 <= i < |r| ensures !CamelBoundaryAt(r, i) {
        if i >= 3 {
          assert r[i] == tail[i - 3];
          if i + 1 < |r| { assert r[i + 1] == tail[i - 2]; }
          assert !CamelBoundaryAt(tail, i - 3);
        } else if i == 2 && i + 1 < |r| {
          assert r[2] == s[1];
        }
      }
    } else if s != [] {
      SplitCamelCaseLeavesNoBoundary(s[1..]);
      var tail := SplitCamelCase(s[1..]);
      forall i | 0 <= i < |r| ensures !CamelBoundaryAt(r, i) {
        if i >= 1 {
          assert r[i] == tail[i - 1];
          if i + 1 < |r| { assert r[i + 1] == tail[i]; }
          assert !CamelBoundaryAt(tail, i - 1);
        } else if |r| > 1 {
          assert r[1] == s[1];
        }
      }
    }
  }

  /** Text without a lower-to-upper boundary is left as it is. */
  lemma {:induction false} SplitCamelCaseIdentity(s: string)
    requires !HasCamelBoundary(s)
    ensures SplitCamelCase(s) == s
  {
    if s != [] {
      assert !CamelBoundaryAt(s, 0);
      assert !HasCamelBoundary(s[1..]) by {
        forall i | 0 <= i < |s| - 1 ensures !CamelBoundaryAt(s[1..], i) {
          assert !CamelBoundaryAt(s, i + 1);
        }
      }
      SplitCamelCaseIdentity(s[1..]);
    }
  }

  // ----- rtrim($s, $c) -----

  /** `rtrim($s, $c)` for one character: drops every trailing `c`. */
  function RTrim(s: string, c: char): (r: string)
    ensures |r| <= |s| && r == s[..|r|]
    ensures r != [] ==> r[|r| - 1] != c
    ensures forall i :: |r| <= i < |s| ==> s[i] == c
  {
    if s != [] && s[|s| - 1] == c then RTrim(s[..|s| - 1], c) else s
  }
}
