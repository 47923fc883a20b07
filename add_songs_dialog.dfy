/**
 * The dialog that edits which library songs belong to a playlist
 * (src/components/AddSongsToPlaylistDialog.tsx): the selection it starts from, the
 * check-box updates, and the insert/delete pair that saves the difference.
 */
module AddSongsDialog {
  import opened Types

  /** `handleSelectSong`'s update: a new set with `id` added when checked and removed otherwise. */
  function WithSelection(prev: set<string>, id: string, checked: bool): (next: set<string>)
    ensures id in next <==> checked
    ensures forall x :: x != id ==> (x in next <==> x in prev)
  {
    if checked then prev + {id} else prev - {id}
  }

  /** `songsToAdd`: selected songs that are not yet in the playlist. */
  function SongsToAdd(selected: set<string>, existing: set<string>): (add: set<string>)
    ensures add <= selected && add !! existing
    ensures forall x :: x in selected && x !in existing ==> x in add
  {
    set id | id in selected && id !in existing
  }

  /** `songsToRemove`: songs of the playlist that are no longer selected. */
  function SongsToRemove(selected: set<string>, existing: set<string>): (remove: set<string>)
    ensures remove <= existing && remove !! selected
    ensures forall x :: x in existing && x !in selected ==> x in remove
  {
    set id | id in existing && id !in selected
  }

  /** Applying the two lists to the playlist yields exactly the selection, and they never overlap. */
  lemma {:induction false} DiffReachesSelection(selected: set<string>, existing: set<string>)
    ensures SongsToAdd(selected, existing) !! SongsToRemove(selected, existing)
    ensures (existing - SongsToRemove(selected, existing)) + SongsToAdd(selected, existing) == selected
  {
  }

  /** Both lists are empty exactly when the selection equals the playlist's songs. */
  lemma {:induction false} NoChangeNoCalls(selected: set<string>, existing: set<string>)
    ensures SongsToAdd(selected, existing) == {} && SongsToRemove(selected, existing) == {}
      <==> selected == existing
  {
    if SongsToAdd(selected, existing) == {} && SongsToRemove(selected, existing) == {} {
      forall x | x in selected ensures x in existing {
        assert x !in SongsToAdd(selected, existing);
      }
      forall x | x in existing ensures x in selected {
        assert x !in SongsToRemove(selected, existing);
      }
    }
  }

  /** Checking a box and unchecking it again restores a selection that did not hold the song. */
  lemma {:induction false} CheckThenUncheck(prev: set<string>, id: string)
    requires id !in prev
    ensures WithSelection(WithSelection(prev, id, true), id, false) == prev
  {
  }

  /** The notifications of the dialog. */
  datatype Notice = LoadFailed(message: string) | AddFailed(message: string) | RemoveFailed(message: string) | Updated

  /** What `handleSaveChanges` did. */
  datatype SaveReport = SaveReport(
    inserted: Option<set<string>>,
    deleted: Option<set<string>>,
    notice: Option<Notice>,
    songsAddedCalled: bool,
    closeRequested: bool)

  /** The dialog's state for one playlist. */
  class Dialog {
    var allSongs: seq<Song>
    var selected: set<string>
    var existing: set<string>
    var loading: bool

    constructor ()
      ensures allSongs == [] && selected == {} && existing == {} && !loading
    {
      allSongs := [];
      selected := {};
      existing := {};
      loading := false;
    }

    /**
     * The fetch run when the dialog opens, with the results of its two queries as inputs:
     * the library, then the ids of the playlist's songs. Both sets start as those ids.
     */
    method Open(library: Result<seq<Song>>, playlistSongIds: Result<seq<string>>)
      returns (notices: seq<Notice>)
      modifies this
      ensures !loading
      ensures library.Ok? ==> allSongs == library.value
      ensures library.Err? ==> allSongs == old(allSongs)
      ensures playlistSongIds.Ok? ==>
        && existing == set id | id in playlistSongIds.value
        && selected == existing
      ensures playlistSongIds.Err? ==> existing == old(existing) && selected == old(selected)
      ensures notices ==
        (if library.Err? then [LoadFailed(library.message)] else [])
        + (if playlistSongIds.Err? then [LoadFailed(playlistSongIds.message)] else [])
    {
      loading := true;
      notices := [];
      if library.Err? {
        notices := notices + [LoadFailed(library.message)];
      } else {
        allSongs := library.value;
      }
      if playlistSongIds.Err? {
        notices := notices + [LoadFailed(playlistSongIds.message)];
      } else {
        var songIds := set id | id in playlistSongIds.value;
        existing := songIds;
        selected := songIds;
      }
      loading := false;
    }

    /** `handleSelectSong`: the selection replaced by an updated copy. */
    method SelectSong(id: string, checked: bool)
      modifies this`selected
      ensures selected == WithSelection(old(selected), id, checked)
    {
      selected := WithSelection(selected, id, checked);
    }

    /**
     * `handleSaveChanges`, with the outcomes of the insert and the delete as inputs
     * (`None` for success, the error message otherwise). An insert failure stops before
     * the delete; only a full success refreshes the playlist and closes the dialog.
     */
    method SaveChanges(insertError: Option<string>, deleteError: Option<string>)
      returns (report: SaveReport)
      modifies this`loading
      ensures !loading
      ensures var add := SongsToAdd(selected, existing);
        report.inserted == (if add != {} then Some(add) else None)
      ensures var add := SongsToAdd(selected, existing);
        var remove := SongsToRemove(selected, existing);
        if add != {} && insertError.Some? then
          report == SaveReport(Some(add), None, Some(AddFailed(insertError.value)), false, false)
        else if remove != {} && deleteError.Some? then
          report.deleted == Some(remove) && report.notice == Some(RemoveFailed(deleteError.value))
          && !report.songsAddedCalled && !report.closeRequested
        else
          report.deleted == (if remove != {} then Some(remove) else None)
          && report.notice == Some(Updated) && report.songsAddedCalled && report.closeRequested
    {
      loading := true;
      var songsToAdd := SongsToAdd(selected, existing);
      var songsToRemove := SongsToRemove(selected, existing);
      var inserted: Option<set<string>> := None;
      var deleted: Option<set<string>> := None;
      if songsToAdd != {} {
        inserted := Some(songsToAdd);
        if insertError.Some? {
          loading := false;
          return SaveReport(inserted, None, Some(AddFailed(insertError.value)), false, false);
        }
      }
      if songsToRemove != {} {
        deleted := Some(songsToRemove);
        if deleteError.Some? {
          loading := false;
          return SaveReport(inserted, deleted, Some(RemoveFailed(deleteError.value)), false, false);
        }
      }
      report := SaveReport(inserted, deleted, Some(Updated), true, true);
      loading := false;
    }
  }
}
