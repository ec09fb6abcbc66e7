/** The few JavaScript String operations the users service applies to a
    MongoDB error message: `indexOf`, `lastIndexOf`, the first two pieces
    of `split` and `substring`, each with the semantics ECMAScript gives
    it for a non-empty separator. */
module JsString {
  import opened Wrappers

  /** `p` occurs in `s` starting at index `i`. */
  predicate OccursAt(s: string, p: string, i: int) {
    0 <= i && i + |p| <= |s| && s[i..i + |p|] == p
  }

  /** No occurrence of `p` in `s` starts at an index in `[lo, hi)`. */
  predicate NoneIn(s: string, p: string, lo: int, hi: int) {
    forall j :: lo <= j < hi ==> !OccursAt(s, p, j)
  }

  /** `p` occurs nowhere in `s`. */
  predicate Absent(s: string, p: string) {
    NoneIn(s, p, 0, |s| + 1)
  }

  /** An occurrence in a suffix of `s` is an occurrence in `s`, shifted. */
  lemma OccursInSuffix(s: string, b: nat, p: string, k: nat)
    requires b <= |s|
    ensures OccursAt(s, p, b + k) <==> OccursAt(s[b..], p, k)
  {
    if b + k + |p| <= |s| {
      assert s[b..][k..k + |p|] == s[b + k..b + k + |p|];
    }
  }

  /** `s.indexOf(p, from)`: the first index at or after `from` where `p`
      occurs, or -1, for a non-empty `p`. */
  function IndexOf(s: string, p: string, from: nat): (r: int)
    requires |p| > 0
    ensures r == -1 || (from <= r && OccursAt(s, p, r))
    ensures r == -1 ==> NoneIn(s, p, from, |s| + 1)
    ensures r != -1 ==> NoneIn(s, p, from, r)
    decreases |s| + 1 - from
  {
    if from + |p| > |s| then -1
    else if s[from..from + |p|] == p then from
    else IndexOf(s, p, from + 1)
  }

  /** The result of `IndexOf` is determined by any occurrence that has no
      earlier one after `from`. */
  lemma IndexOfIs(s: string, p: string, from: nat, i: int)
    requires |p| > 0 && from <= i && OccursAt(s, p, i) && NoneIn(s, p, from, i)
    ensures IndexOf(s, p, from) == i
  {
  }

  /** `s.lastIndexOf(c)` for a one-character argument: the last index
      holding `c`, or -1. */
  function LastIndexOf(s: string, c: char): (r: int)
    ensures -1 <= r < |s|
    ensures r >= 0 ==> s[r] == c
    ensures forall j :: r < j < |s| ==> s[j] != c
  {
    if |s| == 0 then -1
    else if s[|s| - 1] == c then |s| - 1
    else LastIndexOf(s[..|s| - 1], c)
  }

  /** `s.split(sep)[0]`: the text before the first occurrence of `sep`, or
      all of `s` when there is none. */
  function FirstPiece(s: string, sep: string): (r: string)
    requires |sep| > 0
    ensures r <= s
    ensures NoneIn(s, sep, 0, |r|)
    ensures r == s || OccursAt(s, sep, |r|)
  {
    var i := IndexOf(s, sep, 0);
    if i < 0 then s else s[..i]
  }

  /** `s.split(sep)[1]`: the text between the first and the second
      occurrence of `sep` (or the end), and `undefined` (`None`) when `sep`
      does not occur at all. */
  function SecondPiece(s: string, sep: string): (r: Option<string>)
    requires |sep| > 0
    ensures r.None? <==> NoneIn(s, sep, 0, |s| + 1)
    ensures r.Some? ==>
      var i := IndexOf(s, sep, 0);
      var start := i + |sep|;
      && OccursAt(s, sep, i)
      && start + |r.value| <= |s|
      && s[start..start + |r.value|] == r.value
      && NoneIn(s, sep, start, start + |r.value|)
      && (start + |r.value| == |s| || OccursAt(s, sep, start + |r.value|))
  {
    var i := IndexOf(s, sep, 0);
    if i < 0 then None
    else
      var start := i + |sep|;
      var k := IndexOf(s, sep, start);
      var e := if k < 0 then |s| else k;
      assert start <= e <= |s| && NoneIn(s, sep, start, e);
      Some(s[start..e])
  }

  /** When `sep` first occurs at `i`, `split(sep)[1]` is a prefix of the
      text after it, ended by the end of the text or by the next `sep`. */
  lemma PieceAfterFirst(s: string, sep: string, i: nat) returns (piece: string)
    requires |sep| > 0 && OccursAt(s, sep, i) && NoneIn(s, sep, 0, i)
    ensures SecondPiece(s, sep) == Some(piece)
    ensures var t := s[i + |sep|..];
      |piece| <= |t| && piece == t[..|piece|] && (|piece| == |t| || OccursAt(t, sep, |piece|))
  {
    IndexOfIs(s, sep, 0, i);
    piece := SecondPiece(s, sep).value;
    var b := i + |sep|;
    assert piece == s[b..][..|piece|] by {
      assert s[b..b + |piece|] == s[b..][..|piece|];
    }
    OccursInSuffix(s, b, sep, |piece|);
  }

  /** ECMAScript ToIntegerOrInfinity followed by the clamp `substring`
      applies to each of its arguments. */
  function ClampIndex(x: int, len: nat): (r: nat)
    ensures r <= len
    ensures 0 <= x <= len ==> r == x
    ensures x < 0 ==> r == 0
    ensures x > len ==> r == len
  {
    if x < 0 then 0 else if x > len then len else x
  }

  /** `s.substring(a, b)`: both arguments are clamped to `[0, |s|]` and
      swapped when the first is the larger. */
  function Substring(s: string, a: int, b: int): (r: string)
    ensures 0 <= a <= b <= |s| ==> r == s[a..b]
    ensures 0 <= b <= a <= |s| ==> r == s[b..a]
    ensures a <= 0 && b <= 0 ==> r == []
    ensures a >= |s| && b >= |s| ==> r == []
    ensures |r| <= |s|
  {
    var x, y := ClampIndex(a, |s|), ClampIndex(b, |s|);
    if x <= y then s[x..y] else s[y..x]
  }

  /** `substring` does not care which argument is the larger. */
  lemma SubstringSwaps(s: string, a: int, b: int)
    ensures Substring(s, a, b) == Substring(s, b, a)
  {
  }
}
