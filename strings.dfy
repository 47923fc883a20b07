/**
 * The JavaScript string operations the core relies on: `indexOf`, `lastIndexOf`,
 * `split` with a non-empty separator, and `trim`. Strings are sequences of characters.
 */
module Strings {
  import opened Types

  /** `sub` occurs in `s` starting at index `i`. */
  predicate OccursAt(s: string, sub: string, i: nat) {
    i + |sub| <= |s| && s[i..i + |sub|] == sub
  }

  /** No occurrence of `sub` in `s` starts at an index in `[lo, hi)`. */
  predicate NoneStartIn(s: string, sub: string, lo: nat, hi: nat) {
    forall j :: lo <= j < hi ==> !OccursAt(s, sub, j)
  }

  /** `s.indexOf(sub, from)`: the first occurrence of `sub` at or after `from`, if any. */
  function IndexOf(s: string, sub: string, from: nat): (r: Option<nat>)
    ensures r.Some? ==> from <= r.value && OccursAt(s, sub, r.value)
    ensures r.Some? ==> forall j :: from <= j < r.value ==> !OccursAt(s, sub, j)
    ensures r.None? ==> forall j :: from <= j ==> !OccursAt(s, sub, j)
    decreases |s| - from
  {
    if from + |sub| > |s| then None
    else if OccursAt(s, sub, from) then Some(from)
    else IndexOf(s, sub, from + 1)
  }

  /** `s.lastIndexOf(c)`: the index of the last `c` in `s`, or -1 when there is none. */
  function LastIndexOf(s: string, c: char): (r: int)
    ensures -1 <= r < |s|
    ensures r == -1 <==> c !in s
    ensures r >= 0 ==> s[r] == c && c !in s[r + 1..]
  {
    if s == [] then -1
    else if s[|s| - 1] == c then |s| - 1
    else
      assert s == s[..|s| - 1] + [s[|s| - 1]];
      LastIndexOf(s[..|s| - 1], c)
  }

  /**
   * `s.split(sep)` for a non-empty separator: the pieces between the occurrences of
   * `sep`, found from left to right without overlap.
   */
  function Split(s: string, sep: string): (parts: seq<string>)
    requires |sep| > 0
    ensures |parts| >= 1
    ensures |parts| > 1 <==> IndexOf(s, sep, 0).Some?
    ensures IndexOf(s, sep, 0).None? ==> parts == [s]
    ensures IndexOf(s, sep, 0).Some? ==> parts[0] == s[..IndexOf(s, sep, 0).value]
    decreases |s|
  {
    match IndexOf(s, sep, 0)
    case None => [s]
    case Some(k) => [s[..k]] + Split(s[k + |sep|..], sep)
  }

  /** `parts.join(sep)`. */
  function Join(parts: seq<string>, sep: string): (r: string)
    requires |parts| >= 1
  {
    if |parts| == 1 then parts[0] else parts[0] + sep + Join(parts[1..], sep)
  }

  /** Splitting loses nothing: joining the pieces with the separator gives back the string. */
  lemma {:induction false} SplitJoin(s: string, sep: string)
    requires |sep| > 0
    ensures Join(Split(s, sep), sep) == s
    decreases |s|
  {
    match IndexOf(s, sep, 0)
    case None =>
    case Some(k) =>
      var rest := s[k + |sep|..];
      SplitJoin(rest, sep);
      assert Split(s, sep)[1..] == Split(rest, sep);
      assert s[k..k + |sep|] == sep;
      assert s == s[..k] + s[k..k + |sep|] + rest;
  }

  /** No occurrence of `sep` starts inside the prefix before the first occurrence. */
  lemma {:induction false} PrefixBeforeFirstHasNoSep(s: string, sep: string, k: nat)
    requires |sep| > 0
    requires IndexOf(s, sep, 0) == Some(k)
    ensures IndexOf(s[..k], sep, 0).None?
  {
    if IndexOf(s[..k], sep, 0).Some? {
      var j := IndexOf(s[..k], sep, 0).value;
      assert s[..k][j..j + |sep|] == s[j..j + |sep|];
      assert OccursAt(s, sep, j);
    }
  }

  /** No piece of a split contains the separator. */
  lemma {:induction false} SplitPiecesHaveNoSep(s: string, sep: string)
    requires |sep| > 0
    ensures forall i :: 0 <= i < |Split(s, sep)| ==> IndexOf(Split(s, sep)[i], sep, 0).None?
    decreases |s|
  {
    match IndexOf(s, sep, 0)
    case None =>
      assert Split(s, sep) == [s];
    case Some(k) =>
      var rest := s[k + |sep|..];
      SplitUnfold(s, sep, k);
      PrefixBeforeFirstHasNoSep(s, sep, k);
      SplitPiecesHaveNoSep(rest, sep);
      forall i | 0 <= i < |Split(s, sep)|
        ensures IndexOf(Split(s, sep)[i], sep, 0).None?
      {
        if i > 0 {
          assert Split(s, sep)[i] == Split(rest, sep)[i - 1];
        }
      }
  }

  /** An occurrence found from `from` on is also found in any extension of the string. */
  lemma {:induction false} IndexOfExtend(u: string, v: string, sub: string, from: nat)
    requires IndexOf(u, sub, from).Some?
    ensures IndexOf(u + v, sub, from) == IndexOf(u, sub, from)
  {
    var k := IndexOf(u, sub, from).value;
    assert (u + v)[k..k + |sub|] == u[k..k + |sub|];
    assert OccursAt(u + v, sub, k);
    forall j | from <= j < k
      ensures !OccursAt(u + v, sub, j)
    {
      assert (u + v)[j..j + |sub|] == u[j..j + |sub|];
      assert !OccursAt(u, sub, j);
    }
  }

  /** The text of `t` before the first `sep`, or all of `t` when there is none. */
  function PieceBefore(t: string, sep: string): (p: string)
    requires |sep| > 0
    ensures |p| <= |t| && p == t[..|p|]
    ensures |p| == |t| || OccursAt(t, sep, |p|)
    ensures NoneStartIn(t, sep, 0, |p|)
  {
    match IndexOf(t, sep, 0)
    case None => t
    case Some(j) => t[..j]
  }

  /** The first piece of a split is the text before the first separator. */
  lemma {:induction false} SplitFirst(t: string, sep: string)
    requires |sep| > 0
    ensures Split(t, sep)[0] == PieceBefore(t, sep)
  {
  }

  /** A piece read from a suffix, and the separator after it, sit at a shifted place in the whole. */
  lemma {:induction false} PieceInSuffix(s: string, start: nat, q: string, sep: string)
    requires start <= |s| && |q| <= |s| - start && q == s[start..][..|q|]
    requires |q| == |s| - start || OccursAt(s[start..], sep, |q|)
    requires NoneStartIn(s[start..], sep, 0, |q|)
    ensures s[start..start + |q|] == q
    ensures start + |q| == |s| || OccursAt(s, sep, start + |q|)
    ensures NoneStartIn(s, sep, start, start + |q|)
  {
    if |q| < |s| - start {
      assert s[start..][|q|..|q| + |sep|] == s[start + |q|..start + |q| + |sep|];
    }
    forall j | start <= j < start + |q|
      ensures !OccursAt(s, sep, j)
    {
      assert !OccursAt(s[start..], sep, j - start);
      if j + |sep| <= |s| {
        assert s[start..][j - start..j - start + |sep|] == s[j..j + |sep|];
      }
    }
  }

  /** The second piece of a split is the piece before the next separator in the rest. */
  lemma {:induction false} SplitSecond(s: string, sep: string, k: nat)
    requires |sep| > 0
    requires IndexOf(s, sep, 0) == Some(k)
    ensures |Split(s, sep)| > 1
    ensures Split(s, sep)[1] == PieceBefore(s[k + |sep|..], sep)
  {
    SplitUnfold(s, sep, k);
    SplitFirst(s[k + |sep|..], sep);
  }

  /**
   * The second piece of a split is the text after the first separator, up to the next
   * separator or the end of the string: it ends there, and no separator starts inside it.
   */
  lemma {:induction false} SplitSecondPiece(s: string, sep: string, k: nat, q: string)
    requires |sep| > 0
    requires IndexOf(s, sep, 0) == Some(k)
    requires |Split(s, sep)| > 1 && q == Split(s, sep)[1]
    ensures k + |sep| + |q| <= |s|
    ensures s[k + |sep|..k + |sep| + |q|] == q
    ensures k + |sep| + |q| == |s| || OccursAt(s, sep, k + |sep| + |q|)
    ensures NoneStartIn(s, sep, k + |sep|, k + |sep| + |q|)
  {
    SplitSecond(s, sep, k);
    PieceAfter(s, sep, k);
  }

  /** The piece after the separator at `k` sits right after it and ends at the end or a separator. */
  lemma {:induction false} PieceAfter(s: string, sep: string, k: nat)
    requires |sep| > 0 && k + |sep| <= |s|
    ensures var q := PieceBefore(s[k + |sep|..], sep);
      && k + |sep| + |q| <= |s|
      && s[k + |sep|..k + |sep| + |q|] == q
      && (k + |sep| + |q| == |s| || OccursAt(s, sep, k + |sep| + |q|))
      && NoneStartIn(s, sep, k + |sep|, k + |sep| + |q|)
  {
    PieceInSuffix(s, k + |sep|, PieceBefore(s[k + |sep|..], sep), sep);
  }

  /** One step of a split: the piece before the first separator, then the split of the rest. */
  lemma {:induction false} SplitUnfold(s: string, sep: string, k: nat)
    requires |sep| > 0
    requires IndexOf(s, sep, 0) == Some(k)
    ensures Split(s, sep) == [s[..k]] + Split(s[k + |sep|..], sep)
  {
  }

  /**
   * The characters `String.prototype.trim` removes: the ECMAScript white space (tab,
   * vertical tab, form feed, space, no-break space, the byte order mark and the Unicode
   * space separators) and the line terminators.
   */
  predicate IsWhitespace(c: char) {
    || c == '\t' || c == '\n' || c == '\U{000B}' || c == '\U{000C}' || c == '\r' || c == ' '
    || c == '\U{00A0}' || c == '\U{1680}' || ('\U{2000}' <= c <= '\U{200A}')
    || c == '\U{2028}' || c == '\U{2029}' || c == '\U{202F}' || c == '\U{205F}'
    || c == '\U{3000}' || c == '\U{FEFF}'
  }

  /** Removes leading whitespace: the longest suffix of `s` that does not start with whitespace. */
  function TrimStart(s: string): (r: string)
    ensures |r| <= |s| && r == s[|s| - |r|..]
    ensures r == [] || !IsWhitespace(r[0])
    ensures forall i :: 0 <= i < |s| - |r| ==> IsWhitespace(s[i])
  {
    if s != [] && IsWhitespace(s[0]) then TrimStart(s[1..]) else s
  }

  /** Removes trailing whitespace: the longest prefix of `s` that does not end with whitespace. */
  function TrimEnd(s: string): (r: string)
    ensures |r| <= |s| && r == s[..|r|]
    ensures r == [] || !IsWhitespace(r[|r| - 1])
    ensures forall i :: |r| <= i < |s| ==> IsWhitespace(s[i])
  {
    if s != [] && IsWhitespace(s[|s| - 1]) then TrimEnd(s[..|s| - 1]) else s
  }

  /** `s.trim()`: `s` without its leading and trailing whitespace. */
  function Trim(s: string): (r: string)
    ensures var i := |s| - |TrimStart(s)|;
      && i + |r| <= |s|
      && r == s[i..i + |r|]
      && (forall k :: 0 <= k < i ==> IsWhitespace(s[k]))
      && (forall k :: i + |r| <= k < |s| ==> IsWhitespace(s[k]))
    ensures r == [] || (!IsWhitespace(r[0]) && !IsWhitespace(r[|r| - 1]))
  {
    var t := TrimStart(s);
    var r := TrimEnd(t);
    assert r == [] || r[0] == t[0];
    var i := |s| - |t|;
    assert r == s[i..i + |r|];
    r
  }

  /** Trimming a trimmed string changes nothing. */
  lemma {:induction false} TrimIdempotent(s: string)
    ensures Trim(Trim(s)) == Trim(s)
  {
    var r := Trim(s);
    assert TrimStart(r) == r;
    assert TrimEnd(r) == r;
  }
}
