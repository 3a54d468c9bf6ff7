/**
 * What every report format receives: the matches grouped by extension key,
 * in scan order, together with the caller's strong and weak totals.
 */
module Output {
  import opened OrderedMap
  import opened Dto

  /** `$allMatches`: extension key => the matches found in that extension. */
  type MatchesByExtension = OMap<string, seq<ScanMatch>>

  /** Every match of every extension, extension after extension. */
  function AllMatches(all: MatchesByExtension): (ms: seq<ScanMatch>)
    ensures all == [] ==> ms == []
  {
    if all == [] then [] else AllMatches(all[..|all| - 1]) + all[|all| - 1].1
  }

  lemma AllMatchesSnoc(all: MatchesByExtension, i: nat)
    requires i < |all|
    ensures AllMatches(all[..i + 1]) == AllMatches(all[..i]) + all[i].1
  {
    assert all[..i + 1][..i] == all[..i];
  }

  /** The number of matches `isStrong` accepts. */
  function StrongCount(ms: seq<ScanMatch>): nat {
    if ms == [] then 0 else StrongCount(ms[..|ms| - 1]) + (if ms[|ms| - 1].IsStrong() then 1 else 0)
  }

  lemma StrongCountSnoc(ms: seq<ScanMatch>, j: nat)
    requires j < |ms|
    ensures StrongCount(ms[..j + 1]) == StrongCount(ms[..j]) + (if ms[j].IsStrong() then 1 else 0)
  {
    assert ms[..j + 1][..j] == ms[..j];
  }

  /** The number of matches `isStrong` rejects, whatever their indicator says. */
  function NotStrongCount(ms: seq<ScanMatch>): nat {
    if ms == [] then 0 else NotStrongCount(ms[..|ms| - 1]) + (if ms[|ms| - 1].IsStrong() then 0 else 1)
  }

  /** Every match is either strong or not: the two counts make up the whole. */
  lemma {:induction false} StrongCountSplit(ms: seq<ScanMatch>)
    ensures StrongCount(ms) + NotStrongCount(ms) == |ms|
  {
    if ms != [] {
      StrongCountSplit(ms[..|ms| - 1]);
    }
  }

  lemma {:induction false} StrongCountBounded(ms: seq<ScanMatch>)
    ensures StrongCount(ms) <= |ms|
  {
    if ms != [] {
      StrongCountBounded(ms[..|ms| - 1]);
    }
  }

  /** No match is strong exactly when the count is zero. */
  lemma {:induction false} StrongCountZero(ms: seq<ScanMatch>)
    ensures StrongCount(ms) == 0 <==> forall i :: 0 <= i < |ms| ==> !ms[i].IsStrong()
  {
    if ms != [] {
      StrongCountZero(ms[..|ms| - 1]);
      assert forall i :: 0 <= i < |ms| - 1 ==> ms[..|ms| - 1][i] == ms[i];
    }
  }
}
