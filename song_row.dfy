/**
 * A row of a song list (src/components/SongRow.tsx): whether it is the current song,
 * what its trailing slot shows, and which queue transition a click fires.
 */
module SongRow {
  import opened Types
  import opened Player

  /** `song.id === currentSong?.id`: with no current song no row is current. */
  function IsCurrentSong(song: Song, current: Option<Song>): (r: bool)
    ensures r <==> current.Some? && current.value.id == song.id
  {
    match current
    case None => false
    case Some(c) => song.id == c.id
  }

  /** What the trailing slot of a row shows. */
  datatype Trailing = PlayingIndicator | AddToPlaylistMenu

  /** The playing indicator replaces the add-to-playlist menu exactly on the current row while playing. */
  function TrailingSlot(song: Song, current: Option<Song>, isPlaying: bool): (t: Trailing)
    ensures t == PlayingIndicator <==> IsCurrentSong(song, current) && isPlaying
    ensures current.None? ==> t == AddToPlaylistMenu
    ensures !isPlaying ==> t == AddToPlaylistMenu
  {
    if IsCurrentSong(song, current) && isPlaying then PlayingIndicator else AddToPlaylistMenu
  }

  /** Two rows are current at the same time only when they show songs with the same id. */
  lemma {:induction false} CurrentRowsShareId(a: Song, b: Song, current: Option<Song>)
    requires IsCurrentSong(a, current) && IsCurrentSong(b, current)
    ensures a.id == b.id
  {
  }

  /**
   * `handlePlay`: clicking the current row only toggles play/pause; clicking any other
   * row replaces the queue with the whole displayed list and selects that row.
   */
  method HandlePlay(player: MusicPlayer, song: Song, allSongs: seq<Song>, index: int)
    modifies player
    ensures IsCurrentSong(song, old(player.CurrentSong())) ==>
      && player.playlist == old(player.playlist)
      && player.currentSongIndex == old(player.currentSongIndex)
      && player.isPlaying == !old(player.isPlaying)
    ensures !IsCurrentSong(song, old(player.CurrentSong())) ==>
      && player.playlist == allSongs
      && player.currentSongIndex == Some(index)
      && player.isPlaying
    ensures 0 <= index < |allSongs| && allSongs[index] == song ==>
      IsCurrentSong(song, player.CurrentSong())
  {
    if IsCurrentSong(song, player.CurrentSong()) {
      player.TogglePlayPause();
    } else {
      player.PlayPlaylist(allSongs, index);
    }
  }
}
