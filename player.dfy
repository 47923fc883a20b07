/**
 * The playback queue controller (src/contexts/MusicPlayerContext.tsx): the queue of
 * songs, the index of the current one (absent before anything was played) and the
 * play/pause flag, with the transitions the provider exposes.
 */
module Player {
  import opened Types

  /**
   * JavaScript's `a % n` for a positive `n`: the remainder of division truncated
   * toward zero, so it takes the sign of `a`.
   */
  function JsRem(a: int, n: int): (r: int)
    requires n > 0
    ensures a >= 0 ==> 0 <= r < n
    ensures a < 0 ==> -n < r <= 0
    ensures 0 <= a < n ==> r == a
    ensures n <= a < 2 * n ==> r == a - n
    ensures (a - r) % n == 0
  {
    if a >= 0 then
      RemOfSmall(a, n);
      assert a - a % n == (a / n) * n;
      DivModUnique(a - a % n, n, a / n, 0);
      a % n
    else
      assert a + (-a) % n == (-((-a) / n)) * n;
      DivModUnique(a + (-a) % n, n, -((-a) / n), 0);
      -((-a) % n)
  }

  /** `d` copies of `n` are at least one `n`. */
  lemma {:induction false} MulAtLeast(d: int, n: nat)
    requires d >= 1
    ensures d * n >= n
  {
    if d > 1 {
      MulAtLeast(d - 1, n);
      assert d * n == (d - 1) * n + n;
    }
  }

  /** Euclidean division is unique: a remainder in `[0, n)` that fits `x == q * n + r` is `x % n`. */
  lemma {:induction false} DivModUnique(x: int, n: int, q: int, r: int)
    requires n > 0 && 0 <= r < n && x == q * n + r
    ensures x % n == r
  {
    var q', r' := x / n, x % n;
    assert (q - q') * n == r' - r;
    if q > q' {
      MulAtLeast(q - q', n);
    } else if q < q' {
      MulAtLeast(q' - q, n);
    }
  }

  /** The two cases of a non-negative remainder that index arithmetic needs. */
  lemma {:induction false} RemOfSmall(a: int, n: int)
    requires n > 0 && a >= 0
    ensures 0 <= a % n < n
    ensures a < n ==> a % n == a
    ensures n <= a < 2 * n ==> a % n == a - n
  {
    if n <= a < 2 * n {
      assert (a - n) % n == a % n;
    }
  }

  /**
   * `queue[index]` as the provider's `currentSong` reads it: absent when there is no
   * index, and also when the index lies outside the queue (JavaScript yields
   * `undefined` there, which the callers treat as "no current song").
   */
  function SongAt(queue: seq<Song>, index: Option<int>): (r: Option<Song>)
    ensures r.Some? <==> index.Some? && 0 <= index.value < |queue|
    ensures r.Some? ==> r.value == queue[index.value]
  {
    if index.Some? && 0 <= index.value < |queue| then Some(queue[index.value]) else None
  }

  /** The index `playNext` selects in a queue of `n > 0` songs: advance by one, wrapping to 0. */
  function NextIndex(index: Option<int>, n: int): (r: int)
    requires n > 0
    ensures index.None? ==> r == 0
    ensures index.Some? && 0 <= index.value < n - 1 ==> r == index.value + 1
    ensures index.Some? && index.value == n - 1 ==> r == 0
    ensures index.None? || index.value >= 0 ==> 0 <= r < n
  {
    match index
    case None => 0
    case Some(i) => JsRem(i + 1, n)
  }

  /**
   * The index `playPrev` selects in a queue of `n > 0` songs: step back by one, wrapping
   * from 0 to `n - 1`; with no index it starts at 0, not at the last song.
   */
  function PrevIndex(index: Option<int>, n: int): (r: int)
    requires n > 0
    ensures index.None? ==> r == 0
    ensures index.Some? && 0 < index.value < n ==> r == index.value - 1
    ensures index.Some? && index.value == 0 ==> r == n - 1
    ensures index.None? || index.value >= 0 ==> 0 <= r < n
  {
    match index
    case None => 0
    case Some(i) => JsRem(i - 1 + n, n)
  }

  /** Going back after going forward returns to the same song. */
  lemma {:induction false} PrevAfterNext(i: int, n: int)
    requires 0 <= i < n
    ensures PrevIndex(Some(NextIndex(Some(i), n)), n) == i
  {
  }

  /** Going forward after going back returns to the same song. */
  lemma {:induction false} NextAfterPrev(i: int, n: int)
    requires 0 <= i < n
    ensures NextIndex(Some(PrevIndex(Some(i), n)), n) == i
  {
  }

  /** The index reached from `i` by `k` successive `playNext` calls. */
  function NextTimes(i: int, k: nat, n: int): (r: int)
    requires n > 0
    requires 0 <= i < n
    ensures 0 <= r < n
    decreases k
  {
    if k == 0 then i else NextTimes(NextIndex(Some(i), n), k - 1, n)
  }

  /** `a` calls followed by `b` calls are `a + b` calls. */
  lemma {:induction false} NextTimesAdd(i: int, a: nat, b: nat, n: int)
    requires 0 <= i < n
    ensures NextTimes(NextTimes(i, a, n), b, n) == NextTimes(i, a + b, n)
    decreases a
  {
    if a > 0 {
      NextTimesAdd(NextIndex(Some(i), n), a - 1, b, n);
    }
  }

  /** Before the end of the queue, `k` calls advance the index by exactly `k`. */
  lemma {:induction false} NextTimesNoWrap(i: int, k: nat, n: int)
    requires 0 <= i && i + k < n
    ensures NextTimes(i, k, n) == i + k
    decreases k
  {
    if k > 0 {
      NextTimesNoWrap(i + 1, k - 1, n);
    }
  }

  /** `n` successive `playNext` calls on a queue of `n` songs return to the starting song. */
  lemma {:induction false} NextCycle(i: int, n: int)
    requires 0 <= i < n
    ensures NextTimes(i, n, n) == i
  {
    NextTimesNoWrap(i, n - 1 - i, n);
    NextTimesAdd(i, n - 1 - i, 1 + i, n);
    assert NextTimes(n - 1, 1 + i, n) == NextTimes(0, i, n);
    NextTimesNoWrap(0, i, n);
  }

  /** Repeated `playNext` calls visit every song of the queue within `n` calls. */
  lemma {:induction false} NextReaches(i: int, j: int, n: int)
    requires 0 <= i < n && 0 <= j < n
    ensures NextTimes(i, if i <= j then j - i else n - i + j, n) == j
  {
    if i <= j {
      NextTimesNoWrap(i, j - i, n);
    } else {
      NextTimesNoWrap(i, n - 1 - i, n);
      NextTimesAdd(i, n - 1 - i, 1 + j, n);
      assert NextTimes(n - 1, 1 + j, n) == NextTimes(0, j, n);
      NextTimesNoWrap(0, j, n);
    }
  }

  /** The state of `MusicPlayerProvider`. */
  class MusicPlayer {
    var playlist: seq<Song>
    var currentSongIndex: Option<int>
    var isPlaying: bool

    /** The provider's initial state: empty queue, nothing selected, paused. */
    constructor ()
      ensures playlist == [] && currentSongIndex == None && !isPlaying
    {
      playlist := [];
      currentSongIndex := None;
      isPlaying := false;
    }

    /** The derived `currentSong`. */
    function CurrentSong(): (r: Option<Song>)
      reads this
      ensures r.Some? <==> currentSongIndex.Some? && 0 <= currentSongIndex.value < |playlist|
      ensures r.Some? ==> r.value == playlist[currentSongIndex.value]
    {
      SongAt(playlist, currentSongIndex)
    }

    /** The index, when present, points into the queue, so `currentSong` is defined. */
    predicate Valid()
      reads this
    {
      currentSongIndex.Some? ==> 0 <= currentSongIndex.value < |playlist|
    }

    /** `playPlaylist(songs, index)`: replaces the queue and selects `index` without checking it. */
    method PlayPlaylist(songs: seq<Song>, index: int)
      modifies this
      ensures playlist == songs && currentSongIndex == Some(index) && isPlaying
      ensures Valid() <==> 0 <= index < |songs|
      ensures 0 <= index < |songs| ==> CurrentSong() == Some(songs[index])
      ensures !(0 <= index < |songs|) ==> CurrentSong() == None
    {
      playlist := songs;
      currentSongIndex := Some(index);
      isPlaying := true;
    }

    /** `togglePlayPause`: flips the flag when there is a current song, otherwise does nothing. */
    method TogglePlayPause()
      modifies this
      ensures playlist == old(playlist) && currentSongIndex == old(currentSongIndex)
      ensures old(CurrentSong()).Some? ==> isPlaying == !old(isPlaying)
      ensures old(CurrentSong()).None? ==> isPlaying == old(isPlaying)
    {
      if CurrentSong().Some? {
        isPlaying := !isPlaying;
      }
    }

    /** `playNext`: on a non-empty queue selects the next index and plays; on an empty one does nothing. */
    method PlayNext()
      modifies this
      ensures playlist == old(playlist)
      ensures |playlist| == 0 ==> currentSongIndex == old(currentSongIndex) && isPlaying == old(isPlaying)
      ensures |playlist| > 0 ==> currentSongIndex == Some(NextIndex(old(currentSongIndex), |playlist|)) && isPlaying
      ensures old(Valid()) ==> Valid()
      ensures old(Valid()) && |playlist| > 0 ==> CurrentSong().Some?
    {
      if |playlist| > 0 {
        var nextIndex := NextIndex(currentSongIndex, |playlist|);
        currentSongIndex := Some(nextIndex);
        isPlaying := true;
      }
    }

    /** `playPrev`: on a non-empty queue selects the previous index and plays; on an empty one does nothing. */
    method PlayPrev()
      modifies this
      ensures playlist == old(playlist)
      ensures |playlist| == 0 ==> currentSongIndex == old(currentSongIndex) && isPlaying == old(isPlaying)
      ensures |playlist| > 0 ==> currentSongIndex == Some(PrevIndex(old(currentSongIndex), |playlist|)) && isPlaying
      ensures old(Valid()) ==> Valid()
      ensures old(Valid()) && |playlist| > 0 ==> CurrentSong().Some?
    {
      if |playlist| > 0 {
        var prevIndex := PrevIndex(currentSongIndex, |playlist|);
        currentSongIndex := Some(prevIndex);
        isPlaying := true;
      }
    }

    /** `setIsPlaying`: the direct setter the audio element's error and end handlers use. */
    method SetIsPlaying(playing: bool)
      modifies this
      ensures playlist == old(playlist) && currentSongIndex == old(currentSongIndex)
      ensures isPlaying == playing
    {
      isPlaying := playing;
    }
  }

  /** The scenario: play [S1, S2, S3] from index 1, then next twice, wrapping to S1. */
  method Scenario(s1: Song, s2: Song, s3: Song)
  {
    var player := new MusicPlayer();
    player.PlayPlaylist([s1, s2, s3], 1);
    assert player.CurrentSong() == Some(s2) && player.isPlaying;
    player.PlayNext();
    assert player.CurrentSong() == Some(s3);
    player.PlayNext();
    assert player.CurrentSong() == Some(s1);
  }
}
