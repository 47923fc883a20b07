/**
 * The playlist page (src/pages/Playlist.tsx): the entry list it reads from the
 * `playlist_songs` join, the optimistic reorder and remove handlers with their
 * snapshot and rollback, and the play actions of its rows and header.
 */
module PlaylistPage {
  import opened Types
  import Seqs
  import opened ArrayMove
  import opened Player
  import SongRow

  /** A row of `playlist_songs` joined with its song; the song is absent when the join found none. */
  datatype EntryRow = EntryRow(position: int, song: Option<Song>)

  /** The playlist record the page shows. */
  datatype PlaylistInfo = PlaylistInfo(id: string, userId: string, name: string)

  /** A row survives the `filter(s => s.id)`: its joined song exists and has a non-empty id. */
  predicate HasSongId(row: EntryRow) {
    row.song.Some? && row.song.value.id != ""
  }

  /** `{ ...item.songs, position: item.position }`: the joined song carrying the row's position. */
  function WithPosition(row: EntryRow): (s: Song)
    requires row.song.Some?
    ensures s.position == Some(row.position)
    ensures s.(position := row.song.value.position) == row.song.value
  {
    row.song.value.(position := Some(row.position))
  }

  /** The song list built from the fetched rows, in the rows' order. */
  function FetchedSongs(rows: seq<EntryRow>): (r: seq<Song>)
    ensures |r| <= |rows|
    ensures forall k :: 0 <= k < |r| ==> r[k].id != "" && r[k].position.Some?
    ensures forall row :: row in rows && HasSongId(row) ==> WithPosition(row) in r
  {
    if rows == [] then []
    else (if HasSongId(rows[0]) then [WithPosition(rows[0])] else []) + FetchedSongs(rows[1..])
  }

  /** A single row gives its song with the row's position when it survives the filter, and nothing otherwise. */
  lemma {:induction false} FetchedSongsOne(row: EntryRow)
    ensures FetchedSongs([row]) == if HasSongId(row) then [WithPosition(row)] else []
  {
    assert [row][1..] == [];
  }

  /** Building the list distributes over concatenation: each row contributes in place, once. */
  lemma {:induction false} FetchedSongsConcat(a: seq<EntryRow>, b: seq<EntryRow>)
    ensures FetchedSongs(a + b) == FetchedSongs(a) + FetchedSongs(b)
  {
    if a == [] {
      assert a + b == b;
    } else {
      assert (a + b)[0] == a[0];
      assert (a + b)[1..] == a[1..] + b;
      FetchedSongsConcat(a[1..], b);
    }
  }

  /** The rows are in ascending `position` order, as the query requests. */
  predicate RowsAscending(rows: seq<EntryRow>) {
    forall i, j :: 0 <= i < j < |rows| ==> rows[i].position <= rows[j].position
  }

  /** Every song carries a position and the positions ascend. */
  predicate SongsAscending(songs: seq<Song>) {
    && (forall i :: 0 <= i < |songs| ==> songs[i].position.Some?)
    && (forall i, j :: 0 <= i < j < |songs| ==> songs[i].position.value <= songs[j].position.value)
  }

  /** Every fetched song is the song of some surviving row, with that row's position. */
  lemma {:induction false} FetchedSongsFromRows(rows: seq<EntryRow>)
    ensures forall s :: s in FetchedSongs(rows) ==>
      exists row :: row in rows && HasSongId(row) && s == WithPosition(row)
  {
    if rows != [] {
      FetchedSongsFromRows(rows[1..]);
    }
  }

  /** A positional lower bound on the rows carries over to the fetched songs. */
  lemma {:induction false} FetchedSongsAbove(rows: seq<EntryRow>, p: int)
    requires forall i :: 0 <= i < |rows| ==> p <= rows[i].position
    ensures forall k :: 0 <= k < |FetchedSongs(rows)| ==> p <= FetchedSongs(rows)[k].position.value
  {
    if rows != [] {
      FetchedSongsAbove(rows[1..], p);
    }
  }

  /** Rows read in ascending position give songs in ascending position. */
  lemma {:induction false} FetchedSongsAscending(rows: seq<EntryRow>)
    requires RowsAscending(rows)
    ensures SongsAscending(FetchedSongs(rows))
  {
    if rows != [] {
      FetchedSongsAscending(rows[1..]);
      FetchedSongsAbove(rows[1..], rows[0].position);
    }
  }

  /** `songs.findIndex(s => s.id === id)`: the first index holding `id`, or -1. */
  function FindIndex(songs: seq<Song>, id: string): (r: int)
    ensures -1 <= r < |songs|
    ensures r >= 0 ==> songs[r].id == id && forall j :: 0 <= j < r ==> songs[j].id != id
    ensures r == -1 <==> forall j :: 0 <= j < |songs| ==> songs[j].id != id
  {
    if songs == [] then -1
    else if songs[0].id == id then 0
    else
      var k := FindIndex(songs[1..], id);
      if k == -1 then -1 else k + 1
  }

  /** The predicate of that filter: the entry does not carry `id`. */
  function OtherId(id: string): Song -> bool
  {
    (s: Song) => s.id != id
  }

  /** `songs.filter(s => s.id !== id)`: the list without every entry that has this id. */
  function RemoveById(songs: seq<Song>, id: string): (r: seq<Song>)
    ensures forall s :: s in r <==> s in songs && s.id != id
    ensures FindIndex(songs, id) == -1 ==> r == songs
  {
    assert FindIndex(songs, id) == -1 ==> Seqs.Filter(OtherId(id), songs) == songs by {
      if FindIndex(songs, id) == -1 {
        Seqs.FilterKeepsAll(OtherId(id), songs);
      }
    }
    Seqs.Filter(OtherId(id), songs)
  }

  /** Removing keeps the remaining entries in their original order. */
  lemma {:induction false} RemoveByIdKeepsOrder(a: seq<Song>, b: seq<Song>, id: string)
    ensures RemoveById(a + b, id) == RemoveById(a, id) + RemoveById(b, id)
  {
    Seqs.FilterConcat(OtherId(id), a, b);
  }

  /** Removing the same song twice is removing it once. */
  lemma {:induction false} RemoveByIdIdempotent(songs: seq<Song>, id: string)
    ensures RemoveById(RemoveById(songs, id), id) == RemoveById(songs, id)
  {
    var r := RemoveById(songs, id);
    assert FindIndex(r, id) == -1 by {
      forall j | 0 <= j < |r| ensures r[j].id != id {
        assert r[j] in r;
      }
    }
  }

  /** Removing B from [A, B, C] (distinct ids) leaves [A, C]. */
  lemma {:induction false} RemoveMiddle(a: Song, b: Song, c: Song)
    requires a.id != b.id && b.id != c.id
    ensures RemoveById([a, b, c], b.id) == [a, c]
  {
    var p := OtherId(b.id);
    Seqs.FilterCons(p, c, []);
    assert [c] + [] == [c];
    Seqs.FilterCons(p, b, [c]);
    assert [b] + [c] == [b, c];
    Seqs.FilterCons(p, a, [b, c]);
    assert [a] + [b, c] == [a, b, c];
  }

  /** The body of the `reorder-playlist-songs` call. */
  datatype ReorderRequest = ReorderRequest(
    playlistId: string, songId: string, oldPosition: Option<int>, newPosition: Option<int>)

  /** The body of the `remove-song-from-playlist` call. */
  datatype RemoveRequest = RemoveRequest(playlistId: string, songId: string)

  /** A reorder whose remote call is outstanding: the pre-drag list and the request sent. */
  datatype PendingReorder = PendingReorder(snapshot: seq<Song>, request: ReorderRequest)

  /** A removal whose remote call is outstanding: the pre-removal list and the request sent. */
  datatype PendingRemove = PendingRemove(snapshot: seq<Song>, request: RemoveRequest)

  /** The notifications the page shows. */
  datatype Notice = ReorderFailed | RemoveSucceeded | RemoveFailed

  /**
   * The header Play button is enabled only when the playlist has songs, that is exactly
   * when playing it from its first entry yields a current song.
   */
  predicate PlayButtonEnabled(songs: seq<Song>): (enabled: bool)
    ensures enabled <==> SongAt(songs, Some(0)).Some?
  {
    |songs| != 0
  }

  /** The page's state for one playlist. */
  class Page {
    const playlistId: string
    var playlist: Option<PlaylistInfo>
    var songs: seq<Song>
    var loading: bool
    var error: Option<string>

    /** The page as first rendered: loading, nothing read yet. */
    constructor (playlistId: string)
      ensures this.playlistId == playlistId
      ensures playlist == None && songs == [] && loading && error == None
    {
      this.playlistId := playlistId;
      playlist := None;
      songs := [];
      loading := true;
      error := None;
    }

    /**
     * `fetchPlaylistData`, with the results of its two queries as inputs: the playlist
     * record, then its entries ordered by position.
     */
    method FetchPlaylistData(playlistResult: Result<PlaylistInfo>, songsResult: Result<seq<EntryRow>>)
      modifies this
      ensures playlistId == "" ==>
        playlist == old(playlist) && songs == old(songs) && loading == old(loading) && error == old(error)
      ensures playlistId != "" ==> !loading
      ensures playlistId != "" && playlistResult.Err? ==>
        error == Some(playlistResult.message) && playlist == old(playlist) && songs == old(songs)
      ensures playlistId != "" && playlistResult.Ok? ==> playlist == Some(playlistResult.value)
      ensures playlistId != "" && playlistResult.Ok? && songsResult.Err? ==>
        error == Some(songsResult.message) && songs == old(songs)
      ensures playlistId != "" && playlistResult.Ok? && songsResult.Ok? ==>
        error == old(error) && songs == FetchedSongs(songsResult.value)
    {
      if playlistId == "" {
        return;
      }
      loading := true;
      if playlistResult.Err? {
        error := Some(playlistResult.message);
        loading := false;
        return;
      }
      playlist := Some(playlistResult.value);
      if songsResult.Err? {
        error := Some(songsResult.message);
      } else {
        songs := FetchedSongs(songsResult.value);
      }
      loading := false;
    }

    /**
     * The part of `handleDragEnd` that runs before the remote call: for a drag between two
     * different entries, move the dragged entry to the drop target's index and build the
     * request from the positions of the pre-drag list.
     */
    method BeginDragEnd(activeId: string, overId: string) returns (pending: Option<PendingReorder>)
      requires activeId != overId ==> FindIndex(songs, activeId) >= 0 && FindIndex(songs, overId) >= 0
      modifies this`songs
      ensures activeId == overId ==> pending.None? && songs == old(songs)
      ensures activeId != overId ==>
        var oldIndex := FindIndex(old(songs), activeId);
        var newIndex := FindIndex(old(songs), overId);
        && songs == Move(old(songs), oldIndex, newIndex)
        && pending == Some(PendingReorder(old(songs), ReorderRequest(
             playlistId, activeId, old(songs)[oldIndex].position, old(songs)[newIndex].position)))
      ensures |songs| == |old(songs)| && multiset(songs) == multiset(old(songs))
    {
      if activeId == overId {
        return None;
      }
      var oldIndex := FindIndex(songs, activeId);
      var newIndex := FindIndex(songs, overId);
      var snapshot := songs;
      MovePermutes(snapshot, oldIndex, newIndex);
      songs := Move(snapshot, oldIndex, newIndex);
      pending := Some(PendingReorder(snapshot, ReorderRequest(
        playlistId, activeId, snapshot[oldIndex].position, snapshot[newIndex].position)));
    }

    /** The part of `handleDragEnd` after the remote call: keep the new order, or revert and report. */
    method SettleDragEnd(pending: PendingReorder, succeeded: bool) returns (notice: Option<Notice>)
      modifies this`songs
      ensures succeeded ==> songs == old(songs) && notice == None
      ensures !succeeded ==> songs == pending.snapshot && notice == Some(ReorderFailed)
    {
      if succeeded {
        return None;
      }
      songs := pending.snapshot;
      return Some(ReorderFailed);
    }

    /** `handleDragEnd` as one transition, `succeeded` being the outcome of the remote call. */
    method HandleDragEnd(activeId: string, overId: string, succeeded: bool)
      returns (request: Option<ReorderRequest>, notice: Option<Notice>)
      requires activeId != overId ==> FindIndex(songs, activeId) >= 0 && FindIndex(songs, overId) >= 0
      modifies this`songs
      ensures activeId == overId ==> request == None && notice == None && songs == old(songs)
      ensures activeId != overId ==> request.Some? && request.value.songId == activeId
      ensures activeId != overId && succeeded ==>
        songs == Move(old(songs), FindIndex(old(songs), activeId), FindIndex(old(songs), overId))
        && notice == None
      ensures activeId != overId && !succeeded ==> songs == old(songs) && notice == Some(ReorderFailed)
    {
      var pending := BeginDragEnd(activeId, overId);
      request, notice := None, None;
      if pending.Some? {
        request := Some(pending.value.request);
        notice := SettleDragEnd(pending.value, succeeded);
      }
    }

    /** The part of `handleRemoveSong` before the remote call: drop the entry, keep a snapshot. */
    method BeginRemove(song: Song) returns (pending: PendingRemove)
      modifies this`songs
      ensures songs == RemoveById(old(songs), song.id)
      ensures pending == PendingRemove(old(songs), RemoveRequest(playlistId, song.id))
    {
      var originalSongs := songs;
      songs := RemoveById(songs, song.id);
      pending := PendingRemove(originalSongs, RemoveRequest(playlistId, song.id));
    }

    /**
     * The part of `handleRemoveSong` after the remote call: on success report it and ask
     * for a full refetch; on failure restore the snapshot and report the failure.
     */
    method SettleRemove(pending: PendingRemove, succeeded: bool) returns (notice: Notice, refetch: bool)
      modifies this`songs
      ensures succeeded ==> songs == old(songs) && notice == RemoveSucceeded && refetch
      ensures !succeeded ==> songs == pending.snapshot && notice == RemoveFailed && !refetch
    {
      if succeeded {
        return RemoveSucceeded, true;
      }
      songs := pending.snapshot;
      return RemoveFailed, false;
    }

    /** `handleRemoveSong` as one transition, `succeeded` being the outcome of the remote call. */
    method HandleRemoveSong(song: Song, succeeded: bool)
      returns (request: RemoveRequest, notice: Notice, refetch: bool)
      modifies this`songs
      ensures request == RemoveRequest(playlistId, song.id)
      ensures succeeded ==> songs == RemoveById(old(songs), song.id) && notice == RemoveSucceeded && refetch
      ensures !succeeded ==> songs == old(songs) && notice == RemoveFailed && !refetch
    {
      var pending := BeginRemove(song);
      request := pending.request;
      notice, refetch := SettleRemove(pending, succeeded);
    }

    /** The header Play button: plays the playlist from its first song; disabled when it is empty. */
    method PlayAll(player: MusicPlayer)
      modifies player
      ensures !PlayButtonEnabled(songs) ==> unchanged(player)
      ensures PlayButtonEnabled(songs) ==>
        player.playlist == songs && player.currentSongIndex == Some(0) && player.isPlaying
        && player.CurrentSong() == Some(songs[0])
    {
      if PlayButtonEnabled(songs) {
        player.PlayPlaylist(songs, 0);
      }
    }

    /**
     * `PlaylistSongRow.handlePlayAction` for the row at `index`: toggle when it is the
     * current song, otherwise play the playlist from that row.
     */
    method HandlePlayAction(player: MusicPlayer, index: int)
      requires 0 <= index < |songs|
      modifies player
      ensures SongRow.IsCurrentSong(songs[index], old(player.CurrentSong())) ==>
        && player.playlist == old(player.playlist)
        && player.currentSongIndex == old(player.currentSongIndex)
        && player.isPlaying == !old(player.isPlaying)
      ensures !SongRow.IsCurrentSong(songs[index], old(player.CurrentSong())) ==>
        player.playlist == songs && player.currentSongIndex == Some(index) && player.isPlaying
      ensures SongRow.IsCurrentSong(songs[index], player.CurrentSong())
    {
      SongRow.HandlePlay(player, songs[index], songs, index);
    }
  }

  /**
   * The reorder scenario: with entries A, B, C at positions 0, 1, 2, dragging A onto C
   * shows [B, C, A] while the call is outstanding, sends positions 0 and 2, and a failed
   * call brings back [A, B, C].
   */
  method ReorderScenario(a: Song, b: Song, c: Song)
    requires a.id != b.id && a.id != c.id && b.id != c.id
    requires a.position == Some(0) && b.position == Some(1) && c.position == Some(2)
  {
    var page := new Page("p");
    page.songs := [a, b, c];
    assert FindIndex(page.songs, a.id) == 0;
    assert page.songs[2].id == c.id;
    assert FindIndex(page.songs, c.id) == 2;
    var pending := page.BeginDragEnd(a.id, c.id);
    MoveFirstToLast(a, b, c);
    assert page.songs == [b, c, a];
    assert pending.value.request.oldPosition == Some(0) && pending.value.request.newPosition == Some(2);
    var notice := page.SettleDragEnd(pending.value, false);
    assert page.songs == [a, b, c] && notice == Some(ReorderFailed);
  }
}
