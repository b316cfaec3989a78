/**
 * The JavaScript string operations the component relies on: `includes` and
 * `split` with a non-empty string separator. `IndexOf` (`indexOf`) defines
 * `includes`; `Join`, the inverse of `Split`, states what a split means.
 */
module Text {
  import opened Wrappers

  /** `pat` occurs in `s` starting at position `i`. */
  predicate OccursAt(s: string, pat: string, i: nat) {
    i + |pat| <= |s| && s[i..i + |pat|] == pat
  }

  /** The first position at or after `from` where `pat` occurs in `s` (`s.indexOf(pat, from)`). */
  function IndexFrom(s: string, pat: string, from: nat): (r: Option<nat>)
    decreases |s| - from
    ensures r.Some? ==> from <= r.value && OccursAt(s, pat, r.value)
    ensures r.Some? ==> forall j: nat :: from <= j < r.value ==> !OccursAt(s, pat, j)
    ensures r.None? ==> forall j: nat :: from <= j ==> !OccursAt(s, pat, j)
  {
    if from + |pat| > |s| then None
    else if s[from..from + |pat|] == pat then Some(from)
    else IndexFrom(s, pat, from + 1)
  }

  /** The first position where `pat` occurs in `s` (`s.indexOf(pat)`, with `None` for -1). */
  function IndexOf(s: string, pat: string): (r: Option<nat>)
    ensures r.Some? ==> OccursAt(s, pat, r.value)
    ensures r.Some? ==> forall j: nat :: j < r.value ==> !OccursAt(s, pat, j)
    ensures r.None? ==> forall j: nat :: !OccursAt(s, pat, j)
  {
    IndexFrom(s, pat, 0)
  }

  /** A one-character pattern is first found at the first position holding that character. */
  lemma FirstCharAt(s: string, head: string, c: char, rest: string)
    requires s == head + [c] + rest && c !in head
    ensures IndexOf(s, [c]) == Some(|head|)
  {
    assert s[|head|..|head| + 1] == [c];
    assert OccursAt(s, [c], |head|);
    forall j: nat | j < |head| ensures !OccursAt(s, [c], j) {
      assert s[j..j + 1][0] == head[j];
    }
    var r := IndexOf(s, [c]);
    assert r.Some? && |head| <= r.value;
  }

  /** `s.includes(pat)`. */
  predicate Contains(s: string, pat: string) {
    IndexOf(s, pat).Some?
  }

  /** Any occurrence makes `Contains` true. */
  lemma OccursContains(s: string, pat: string, i: nat)
    requires OccursAt(s, pat, i)
    ensures Contains(s, pat)
  {
  }

  /** An occurrence of a pattern is an occurrence of each of its prefixes. */
  lemma PrefixPatternContains(s: string, pat: string, n: nat)
    requires Contains(s, pat) && n <= |pat|
    ensures Contains(s, pat[..n])
  {
    var i := IndexOf(s, pat).value;
    assert s[i..i + n] == s[i..i + |pat|][..n];
    OccursContains(s, pat[..n], i);
  }

  /** A pattern whose character `pat[m]` appears nowhere in `s` does not occur in `s`. */
  lemma MissingCharNotContained(s: string, pat: string, m: nat)
    requires m < |pat|
    requires forall j :: 0 <= j < |s| ==> s[j] != pat[m]
    ensures !Contains(s, pat)
  {
  }

  /** A prefix of `s` that ends before any occurrence of a non-empty `pat` in `s` does not contain `pat`. */
  lemma PrefixNotContained(s: string, n: nat, pat: string)
    requires n <= |s| && pat != []
    requires forall j: nat :: j < n ==> !OccursAt(s, pat, j)
    ensures !Contains(s[..n], pat)
  {
    if Contains(s[..n], pat) {
      var i := IndexOf(s[..n], pat).value;
      assert s[..n][i..i + |pat|] == s[i..i + |pat|];
      assert OccursAt(s, pat, i);
    }
  }

  /** An occurrence in a suffix is an occurrence in the whole string, shifted. */
  lemma SuffixOccurrence(s: string, k: nat, pat: string, j: nat)
    requires k <= |s| && OccursAt(s[k..], pat, j)
    ensures OccursAt(s, pat, k + j)
  {
    assert s[k..][j..j + |pat|] == s[k + j..k + j + |pat|];
  }

  /**
   * `s.split(sep)` for a non-empty separator: the pieces between the
   * occurrences of `sep`, found left to right without overlapping.
   */
  function Split(s: string, sep: string): (r: seq<string>)
    requires sep != []
    decreases |s|
    ensures |r| >= 1
    ensures |r| >= 2 <==> Contains(s, sep)
  {
    match IndexOf(s, sep)
    case None => [s]
    case Some(i) => [s[..i]] + Split(s[i + |sep|..], sep)
  }

  /** The first piece of a split does not contain the separator. */
  lemma FirstPieceFree(s: string, sep: string)
    requires sep != []
    ensures !Contains(Split(s, sep)[0], sep)
  {
    match IndexOf(s, sep)
    case None =>
    case Some(i) =>
      PrefixNotContained(s, i, sep);
  }

  /** No piece of a split contains the separator. */
  lemma {:induction false} SplitPiecesFree(s: string, sep: string)
    requires sep != []
    decreases |s|
    ensures forall k :: 0 <= k < |Split(s, sep)| ==> !Contains(Split(s, sep)[k], sep)
  {
    FirstPieceFree(s, sep);
    match IndexOf(s, sep)
    case None =>
    case Some(i) =>
      var rest := s[i + |sep|..];
      SplitPiecesFree(rest, sep);
      assert Split(s, sep) == [s[..i]] + Split(rest, sep);
  }

  /** `parts.join(sep)`. */
  function Join(parts: seq<string>, sep: string): string {
    if |parts| == 0 then []
    else if |parts| == 1 then parts[0]
    else parts[0] + sep + Join(parts[1..], sep)
  }

  /** Splitting loses nothing: joining the pieces with the separator gives back the string. */
  lemma {:induction false} JoinSplit(s: string, sep: string)
    requires sep != []
    decreases |s|
    ensures Join(Split(s, sep), sep) == s
  {
    match IndexOf(s, sep)
    case None =>
    case Some(i) =>
      var rest := s[i + |sep|..];
      JoinSplit(rest, sep);
      assert Split(s, sep) == [s[..i]] + Split(rest, sep);
      assert s == s[..i] + s[i..i + |sep|] + rest;
  }

  /**
   * The first piece of a split is the longest prefix that stops at the end
   * of the string or at the first occurrence of the separator.
   */
  lemma SplitHead(s: string, sep: string)
    requires sep != []
    ensures var h := Split(s, sep)[0];
      && |h| <= |s| && h == s[..|h|]
      && (|h| == |s| || OccursAt(s, sep, |h|))
  {
    match IndexOf(s, sep)
    case None =>
      assert Split(s, sep) == [s];
    case Some(i) =>
      assert Split(s, sep) == [s[..i]] + Split(s[i + |sep|..], sep);
  }

  /** A suffix of a string in which `pat` does not occur does not contain `pat`. */
  lemma SuffixNotContained(s: string, k: nat, pat: string)
    requires k <= |s| && !Contains(s, pat)
    ensures !Contains(s[k..], pat)
  {
    if Contains(s[k..], pat) {
      SuffixOccurrence(s, k, pat, IndexOf(s[k..], pat).value);
    }
  }

  /** `p` sits in `s` at `k`, holds no `sep`, and is followed by the end of `s` or by a `sep`. */
  predicate PieceAt(s: string, k: nat, p: string, sep: string) {
    && k + |p| <= |s| && s[k..k + |p|] == p && !Contains(p, sep)
    && (k + |p| == |s| || OccursAt(s, sep, k + |p|))
  }

  /**
   * `p` sits in `s` at `k`, holds neither `stop` nor `sep`, and is followed
   * by the end of `s`, a `stop` or a `sep`.
   */
  predicate CutAt(s: string, k: nat, p: string, stop: string, sep: string) {
    && k + |p| <= |s| && s[k..k + |p|] == p && !Contains(p, stop) && !Contains(p, sep)
    && (k + |p| == |s| || OccursAt(s, stop, k + |p|) || OccursAt(s, sep, k + |p|))
  }

  /**
   * A prefix `p` of the suffix `s[k..]` that stops at the end or at `sep`
   * sits in `s` at `k` and stops at the end of `s` or at `sep`.
   */
  lemma PrefixOfSuffix(s: string, k: nat, p: string, sep: string)
    requires k <= |s| && |p| <= |s| - k && p == s[k..][..|p|] && !Contains(p, sep)
    requires |p| == |s| - k || OccursAt(s[k..], sep, |p|)
    ensures PieceAt(s, k, p, sep)
  {
    assert s[k..][..|p|] == s[k..k + |p|];
    if |p| < |s| - k {
      SuffixOccurrence(s, k, sep, |p|);
    }
  }

  /**
   * The second piece of a split starts right after the first separator and
   * stops at the end of the string or at the next separator.
   */
  lemma SecondPiece(s: string, sep: string)
    requires sep != [] && Contains(s, sep)
    ensures |Split(s, sep)| >= 2
    ensures PieceAt(s, IndexOf(s, sep).value + |sep|, Split(s, sep)[1], sep)
  {
    var k := IndexOf(s, sep).value + |sep|;
    var rest := s[k..];
    assert Split(s, sep) == [s[..k - |sep|]] + Split(rest, sep);
    var p := Split(rest, sep)[0];
    assert Split(s, sep)[1] == p;
    SplitHead(rest, sep);
    FirstPieceFree(rest, sep);
    PrefixOfSuffix(s, k, p, sep);
  }

  /** An occurrence inside a substring `p` of `s` taken at `k` is an occurrence in `s`. */
  lemma InnerOccurrence(s: string, k: nat, p: string, j: nat, pat: string)
    requires k + |p| <= |s| && s[k..k + |p|] == p && OccursAt(p, pat, j)
    ensures OccursAt(s, pat, k + j)
  {
    forall i | j <= i < j + |pat| ensures p[i] == s[k + i] {
      assert p[i] == s[k..k + |p|][i];
    }
    assert p[j..j + |pat|] == s[k + j..k + j + |pat|];
  }

  /**
   * The first piece of `p.split(stop)`, for a piece `p` of `s` at `k`, is a
   * cut of `s` at `k`: it holds neither `stop` nor `sep` and stops at the
   * end of `s`, at a `stop` or at a `sep`.
   */
  lemma HeadOfPiece(s: string, k: nat, p: string, sep: string, stop: string)
    requires sep != [] && stop != [] && PieceAt(s, k, p, sep)
    ensures CutAt(s, k, Split(p, stop)[0], stop, sep)
  {
    var piece := Split(p, stop)[0];
    var m := |piece|;
    SplitHead(p, stop);
    FirstPieceFree(p, stop);
    PrefixNotContained(p, m, sep);
    assert s[k..k + m] == s[k..k + |p|][..m];
    if m < |p| {
      InnerOccurrence(s, k, p, m, stop);
    }
  }

  /**
   * The first piece of the second piece: `s.split(sep)[1].split(stop)[0]` is
   * the text right after the first `sep`, up to the end of `s`, the next
   * `stop` or the next `sep`, and contains neither.
   */
  lemma SecondPieceHead(s: string, sep: string, stop: string) returns (k: nat, piece: string)
    requires sep != [] && stop != [] && Contains(s, sep)
    ensures |Split(s, sep)| >= 2
    ensures k == IndexOf(s, sep).value + |sep| && piece == Split(Split(s, sep)[1], stop)[0]
    ensures CutAt(s, k, piece, stop, sep)
  {
    SecondPiece(s, sep);
    k := IndexOf(s, sep).value + |sep|;
    var p := Split(s, sep)[1];
    HeadOfPiece(s, k, p, sep, stop);
    piece := Split(p, stop)[0];
  }
}
