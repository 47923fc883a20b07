/**
 * `arrayMove(list, from, to)` of the drag-and-drop library, as the playlist page uses
 * it: a copy of `list` with the element at `from` taken out and put back in at `to`.
 */
module ArrayMove {

  /** `s` without its element at index `i`. */
  function RemoveAt<T>(s: seq<T>, i: nat): (r: seq<T>)
    requires i < |s|
    ensures |r| == |s| - 1
    ensures forall k :: 0 <= k < i ==> r[k] == s[k]
    ensures forall k :: i <= k < |r| ==> r[k] == s[k + 1]
  {
    s[..i] + s[i + 1..]
  }

  /** The element at `from` moved to index `to`; the others keep their relative order. */
  function Move<T>(s: seq<T>, from: nat, to: nat): (r: seq<T>)
    requires from < |s| && to < |s|
    ensures |r| == |s|
    ensures r[to] == s[from]
    ensures RemoveAt(r, to) == RemoveAt(s, from)
  {
    var rest := RemoveAt(s, from);
    var r := rest[..to] + [s[from]] + rest[to..];
    assert r[..to] == rest[..to] && r[to + 1..] == rest[to..];
    r
  }

  /** Where every element of the moved list comes from. */
  lemma {:induction false} MoveAt<T>(s: seq<T>, from: nat, to: nat, k: nat)
    requires from < |s| && to < |s| && k < |s|
    ensures Move(s, from, to)[k] ==
      if k == to then s[from]
      else if from <= to && from <= k < to then s[k + 1]
      else if to < from && to < k <= from then s[k - 1]
      else s[k]
  {
    var r := Move(s, from, to);
    var rest := RemoveAt(s, from);
    if k < to {
      assert r[k] == RemoveAt(r, to)[k] == rest[k];
    } else if k > to {
      assert r[k] == RemoveAt(r, to)[k - 1] == rest[k - 1];
    }
  }

  /** Moving an element is a permutation: the same elements, each as often as before. */
  lemma {:induction false} MovePermutes<T>(s: seq<T>, from: nat, to: nat)
    requires from < |s| && to < |s|
    ensures multiset(Move(s, from, to)) == multiset(s)
  {
    var rest := RemoveAt(s, from);
    var r := Move(s, from, to);
    assert s == s[..from] + [s[from]] + s[from + 1..];
    assert r == rest[..to] + [s[from]] + rest[to..];
    assert rest == rest[..to] + rest[to..];
    calc {
      multiset(r);
      multiset(rest[..to]) + multiset([s[from]]) + multiset(rest[to..]);
      multiset(rest) + multiset([s[from]]);
      multiset(s[..from]) + multiset(s[from + 1..]) + multiset([s[from]]);
      multiset(s);
    }
  }

  /** Moving an element onto its own index changes nothing. */
  lemma {:induction false} MoveToSameIndex<T>(s: seq<T>, i: nat)
    requires i < |s|
    ensures Move(s, i, i) == s
  {
    assert s == s[..i] + [s[i]] + s[i + 1..];
  }

  /** Moving back from `to` to `from` undoes a move from `from` to `to`. */
  lemma {:induction false} MoveUndo<T>(s: seq<T>, from: nat, to: nat)
    requires from < |s| && to < |s|
    ensures Move(Move(s, from, to), to, from) == s
  {
    var r := Move(s, from, to);
    var rest := RemoveAt(s, from);
    assert RemoveAt(r, to) == rest && r[to] == s[from];
    assert Move(r, to, from) == rest[..from] + [s[from]] + rest[from..];
    assert rest[..from] == s[..from] && rest[from..] == s[from + 1..];
    assert s == s[..from] + [s[from]] + s[from + 1..];
  }

  /** Dragging the first of three entries to the last place gives [B, C, A]. */
  lemma {:induction false} MoveFirstToLast<T>(a: T, b: T, c: T)
    ensures Move([a, b, c], 0, 2) == [b, c, a]
  {
    MoveAt([a, b, c], 0, 2, 0);
    MoveAt([a, b, c], 0, 2, 1);
  }
}
