# JoshotPlay core, modelled in Dafny

JoshotPlay is a music-streaming web client. Its users browse a shared song library, build
playlists and play them through a queue. Administrators upload song files in bulk. Most of
the client is user interface wired to a hosted database, file storage and authentication
service. This project models the pieces that compute something, and it proves what they
guarantee:

- **The playback queue controller** (`Player.MusicPlayer`). It keeps the queue, a nullable
  current index and a playing flag, and its next and previous operations wrap around the
  queue. `SongRow.HandlePlay` and the playlist page's row and header buttons decide which of
  its operations to fire.
- **The playlist page** (`PlaylistPage`). It loads the playlist's entries, and it edits them
  optimistically. A drag reorders the local list and a remove filters the entry out, both
  before the remote call. A failed call puts back the exact pre-edit list. The reorder uses
  the library move `ArrayMove.Move`, which is stated by its behaviour and proved to be a
  permutation with an inverse.
- **The playlist membership dialog** (`AddSongsDialog`). It holds the check-box selection,
  computes the set difference against the playlist's songs, and issues an insert and then a
  delete. It aborts at the first failure.
- **The bulk upload form** (`Upload`). It parses "Artist - Title.ext" file names and builds
  the `title|artist` duplicate key. It keeps the candidates whose key is new, in order, and
  chooses the result messages.
- **String helpers** (`Utils`). `SanitizeFileName` maps a file name onto the letters, digits,
  `.`, `_` and `-`. `GetPathFromUrl` extracts a storage key from a public file URL.
- **Infinite scrolling of the library** (`Paging`). It covers the row range of each page and
  the next-page rule. It proves that pages fetched from an unchanging table concatenate to a
  prefix of the table, and to the whole table once loading stops.
- **The route guard** (`RouteGuard`). It decides between loading, the login redirect, the
  protected page and the home redirect, using the role lists the routes are wired with.

JavaScript's own semantics are written out where they matter. Shared modules provide them:
- `Strings` has `split` with a non-empty separator, `trim` over the ECMAScript white-space
  set, and `lastIndexOf`.
- `Seqs` has `filter` and `flatMap`.
- `Player.JsRem` is the truncating `%`.
- A read past the end of an array gives `undefined`, modelled as `None`.

Remote calls become inputs to the methods: query results as `Result` values, and success or
failure flags. Two foreign functions become function-valued parameters: Unicode NFD
normalisation (`nfd`) and the URL parser's pathname (`pathnameOf`).

The two optimistic handlers of the playlist page, drag end and remove, are split at their
`await`. A `Begin...` method makes the change before the call, and a `Settle...` method
reacts to the outcome. `HandleDragEnd` and `HandleRemoveSong` compose the two into one
atomic step. The other remote-calling handlers, `PlaylistPage.Page.FetchPlaylistData`,
`AddSongsDialog.Dialog.Open`, `AddSongsDialog.Dialog.SaveChanges` and
`Upload.AddSongForm.OnSubmit`, await several calls. Each of them is one atomic method that
takes the outcome of every call as an input.

## Model

| member | source | states |
|---|---|---|
| Player.SongAt | src/contexts/MusicPlayerContext.tsx:22 | the current song exists exactly when the index is non-null and inside the queue, and is then the queue's entry at that index |
| Player.MusicPlayer.CurrentSong | src/contexts/MusicPlayerContext.tsx:22 | the provider's current song exists exactly when the index is set and inside the queue, and is then the queue's entry at that index |
| Player.MusicPlayer.constructor | src/contexts/MusicPlayerContext.tsx:18-20 | the controller starts with an empty queue, no current index and not playing |
| Player.MusicPlayer.PlayPlaylist | src/contexts/MusicPlayerContext.tsx:24-28 | the queue becomes the given songs, the index the given index without a bounds check, and playing is on; the current song is defined exactly when the index is in range |
| Player.MusicPlayer.TogglePlayPause | src/contexts/MusicPlayerContext.tsx:30-34 | the playing flag flips when there is a current song, and nothing changes otherwise; the queue and the index never change |
| Player.MusicPlayer.PlayNext | src/contexts/MusicPlayerContext.tsx:36-42 | an empty queue changes nothing; otherwise the index becomes NextIndex of the old one and playing is on, the queue is untouched, and a valid index stays valid so a current song is defined |
| Player.MusicPlayer.PlayPrev | src/contexts/MusicPlayerContext.tsx:44-50 | the same for the previous song, with PrevIndex |
| Player.MusicPlayer.SetIsPlaying | src/contexts/MusicPlayerContext.tsx:20 | the exposed setter changes only the playing flag |
| Player.JsRem | src/contexts/MusicPlayerContext.tsx:38 | the truncating remainder lies in [0, n) for a non-negative dividend and in (-n, 0] for a negative one, and differs from the dividend by a multiple of n, which fixes its value; on the first two periods it is the dividend itself or the dividend minus n |
| Player.NextIndex | src/contexts/MusicPlayerContext.tsx:38 | a null index gives 0, an index before the last advances by one, the last wraps to 0, and the result is inside the queue whenever the old index was null or non-negative |
| Player.PrevIndex | src/contexts/MusicPlayerContext.tsx:46 | a null index gives 0 (not the last position), an index after the first steps back by one, the first wraps to the last, and the result is inside the queue whenever the old index was null or non-negative |
| Player.PrevAfterNext | src/contexts/MusicPlayerContext.tsx:36-50 | previous after next returns to any in-range index |
| Player.NextAfterPrev | src/contexts/MusicPlayerContext.tsx:36-50 | next after previous returns to any in-range index |
| Player.NextTimesAdd | src/contexts/MusicPlayerContext.tsx:38 | a next steps followed by b next steps are a + b next steps |
| Player.NextTimesNoWrap | src/contexts/MusicPlayerContext.tsx:38 | k next steps that stay before the end of the queue add k to the index |
| Player.NextCycle | src/contexts/MusicPlayerContext.tsx:38 | n successive next steps on a queue of n songs return to the starting index |
| Player.NextReaches | src/contexts/MusicPlayerContext.tsx:38 | every position of the queue is reached from every other by repeated next steps |
| SongRow.IsCurrentSong | src/components/SongRow.tsx:18 | a row is current exactly when there is a current song and its id equals the row's id; with no current song no row is current |
| SongRow.TrailingSlot | src/components/SongRow.tsx:42-48 | the playing indicator shows exactly when the row is current and playback is on; otherwise the add-to-playlist menu shows |
| SongRow.CurrentRowsShareId | src/components/SongRow.tsx:18 | two rows marked current carry the same song id |
| SongRow.HandlePlay | src/components/SongRow.tsx:20-26 | clicking the current row only toggles playback and keeps queue and index; any other row replaces the queue with the displayed list at that row's index, after which the clicked row is current |
| ArrayMove.RemoveAt | src/pages/Playlist.tsx:166 | removing position i shifts every later element down by one and keeps the earlier ones |
| ArrayMove.Move | src/pages/Playlist.tsx:166 | a move keeps the length, puts the moved element at the target index, and leaves the other elements in their relative order |
| ArrayMove.MoveAt | src/pages/Playlist.tsx:166 | the element at each index after a move, case by case (target, the shifted band between the two indices, untouched elsewhere) |
| ArrayMove.MovePermutes | src/pages/Playlist.tsx:166 | a move is a permutation of the list |
| ArrayMove.MoveToSameIndex | src/pages/Playlist.tsx:166 | moving an element onto its own index changes nothing |
| ArrayMove.MoveUndo | src/pages/Playlist.tsx:166 | moving back from the target to the source restores the list |
| ArrayMove.MoveFirstToLast | src/pages/Playlist.tsx:166 | moving the first of three entries to the end gives the other two followed by it |
| PlaylistPage.WithPosition | src/pages/Playlist.tsx:125 | a fetched entry is its song with the entry's position copied on and every other field unchanged |
| PlaylistPage.FetchedSongs | src/pages/Playlist.tsx:125 | the fetched list has no more songs than rows, each with a non-empty id and a position, and keeps every row whose joined song has an id |
| PlaylistPage.FetchedSongsFromRows | src/pages/Playlist.tsx:125 | every fetched song comes from a row whose joined song has an id |
| PlaylistPage.FetchedSongsAbove | src/pages/Playlist.tsx:125 | a lower bound on the rows' positions bounds the fetched songs' positions |
| PlaylistPage.FetchedSongsAscending | src/pages/Playlist.tsx:116-126 | rows in ascending position order give songs in ascending position order |
| PlaylistPage.FetchedSongsOne | src/pages/Playlist.tsx:125 | a single row gives its song carrying the row's position when its joined song has an id, and nothing otherwise |
| PlaylistPage.FetchedSongsConcat | src/pages/Playlist.tsx:125 | the list of a concatenation of rows is the concatenation of their lists, so each row contributes once, in place |
| PlaylistPage.Page.constructor | src/pages/Playlist.tsx:94-97 | a page starts loading with no playlist, no songs and no error |
| PlaylistPage.Page.FetchPlaylistData | src/pages/Playlist.tsx:104-130 | no id does nothing; a failed playlist query sets the error and stops; a failed entries query sets the error; success stores the playlist and the fetched songs; loading ends on every path with an id |
| PlaylistPage.FindIndex | src/pages/Playlist.tsx:164-165 | the index of the first entry with the id, or -1 exactly when no entry has it |
| PlaylistPage.RemoveById | src/pages/Playlist.tsx:188 | the result keeps exactly the entries whose id differs, and is the list itself when no entry has the id |
| PlaylistPage.RemoveByIdKeepsOrder | src/pages/Playlist.tsx:188 | removal distributes over concatenation, so the remaining entries keep their original order |
| PlaylistPage.RemoveByIdIdempotent | src/pages/Playlist.tsx:188 | removing the same id twice is the same as once |
| PlaylistPage.RemoveMiddle | src/pages/Playlist.tsx:188 | removing the middle of three entries leaves the first and the last |
| PlaylistPage.Page.BeginDragEnd | src/pages/Playlist.tsx:161-176 | a drag onto its own id changes nothing and sends nothing; otherwise the list becomes the move from the dragged entry's index to the target's index, and the request carries the dragged id and the positions of those two indices in the pre-drag list; length and multiset are kept |
| PlaylistPage.Page.SettleDragEnd | src/pages/Playlist.tsx:178-182 | success keeps the reordered list; failure restores the pre-drag snapshot exactly and reports it |
| PlaylistPage.Page.HandleDragEnd | src/pages/Playlist.tsx:161-184 | the whole drag: no call for the same id, the moved list on success, the exact old list and a failure notice on failure |
| PlaylistPage.Page.BeginRemove | src/pages/Playlist.tsx:186-188 | the list becomes the old list without that id, and the snapshot is the old list |
| PlaylistPage.Page.SettleRemove | src/pages/Playlist.tsx:193-199 | success keeps the filtered list, reports it and asks for a refetch; failure restores the snapshot exactly, with no refetch |
| PlaylistPage.Page.HandleRemoveSong | src/pages/Playlist.tsx:186-200 | the whole remove: the request names the playlist and song; the filtered list on success, the old list on failure |
| PlaylistPage.Page.PlayAll | src/pages/Playlist.tsx:222 | the header button does nothing on an empty list, and otherwise plays the whole list from index 0 |
| PlaylistPage.PlayButtonEnabled | src/pages/Playlist.tsx:222 | the header Play button is enabled exactly when playing the list from its first entry yields a current song |
| PlaylistPage.Page.HandlePlayAction | src/pages/Playlist.tsx:33-39 | a row click toggles when the row is current and otherwise plays the list from that row; afterwards the row is current |
| AddSongsDialog.Dialog.constructor | src/components/AddSongsToPlaylistDialog.tsx:18-21 | the dialog starts with no songs, empty selection and membership, not loading |
| AddSongsDialog.Dialog.Open | src/components/AddSongsToPlaylistDialog.tsx:23-42 | the library replaces the song list when its query succeeds; when the membership query succeeds both the membership and the selection become exactly its ids; each failure adds a notice and leaves its state alone; loading ends |
| AddSongsDialog.WithSelection | src/components/AddSongsToPlaylistDialog.tsx:44-51 | checking puts the id in the new selection and unchecking takes it out; every other id is as before |
| AddSongsDialog.Dialog.SelectSong | src/components/AddSongsToPlaylistDialog.tsx:44-51 | the selection is replaced by the updated copy |
| AddSongsDialog.CheckThenUncheck | src/components/AddSongsToPlaylistDialog.tsx:44-51 | checking and then unchecking a song that was not selected restores the selection |
| AddSongsDialog.SongsToAdd | src/components/AddSongsToPlaylistDialog.tsx:55 | the songs to add are exactly the selected ones not yet in the playlist |
| AddSongsDialog.SongsToRemove | src/components/AddSongsToPlaylistDialog.tsx:56 | the songs to remove are exactly the playlist's songs no longer selected |
| AddSongsDialog.DiffReachesSelection | src/components/AddSongsToPlaylistDialog.tsx:55-56 | the two lists are disjoint, and removing one and adding the other turns the membership into the selection |
| AddSongsDialog.NoChangeNoCalls | src/components/AddSongsToPlaylistDialog.tsx:55-67 | both lists are empty exactly when the selection equals the membership |
| AddSongsDialog.Dialog.SaveChanges | src/components/AddSongsToPlaylistDialog.tsx:53-80 | the insert is issued only for a non-empty add list, and its failure stops before the delete without notifying the page or closing; the delete is issued only for a non-empty remove list; only full success notifies the page and closes; loading ends on every path |
| Strings.IndexOf | src/pages/Admin.tsx:53 | the first occurrence of the separator at or after the start, or none when it does not occur |
| Strings.Split | src/pages/Admin.tsx:53 | splitting gives at least one piece, more than one exactly when the separator occurs, the whole text when it does not, and the text before the first occurrence as the first piece |
| Strings.SplitJoin | src/pages/Admin.tsx:53 | joining the pieces with the separator restores the text |
| Strings.SplitPiecesHaveNoSep | src/pages/Admin.tsx:53 | no piece contains the separator |
| Strings.SplitSecondPiece | src/pages/Admin.tsx:55 | the second piece is the text after the first separator up to the next separator or the end: it sits there, ends at a separator or the end, and no separator starts inside it |
| Strings.LastIndexOf | src/pages/Admin.tsx:52 | -1 exactly when the character is absent, otherwise a position holding it with no occurrence after it |
| Strings.Trim | src/pages/Admin.tsx:54-55 | trimming removes leading and trailing white space only: the result is a contiguous slice of the text, and does not start or end with white space |
| Strings.TrimIdempotent | src/pages/Admin.tsx:54-55 | trimming twice is trimming once |
| Upload.BaseName | src/pages/Admin.tsx:52 | the text before the last '.', or the whole name when that prefix would be empty (no dot, or only a leading dot) |
| Upload.ParseBaseName | src/pages/Admin.tsx:53-55 | without the " - " separator the artist is absent and the title is the trimmed base name; with it the artist is the trimmed text before the first separator |
| Upload.ParseFileName | src/pages/Admin.tsx:52-55 | a file name is parsed through its base name: no artist and the trimmed base name without a separator, the trimmed text before the first separator as artist with one |
| Upload.ParsedTitle | src/pages/Admin.tsx:53-55 | with the separator the title is the trimmed text between the first separator and the second one or the end, with no separator starting inside it, so anything after a second separator is dropped |
| Upload.BaseNameOfExtension | src/pages/Admin.tsx:52 | a name with a one-part extension loses exactly the extension |
| Upload.ParseConventionalName | src/pages/Admin.tsx:52-55 | a name written as artist, separator, title and extension parses back to that artist and title |
| Upload.ParseConventionalBase | src/pages/Admin.tsx:53-55 | a base name written as artist, separator and title parses back to that artist and title |
| Upload.ArtistOrNull | src/pages/Admin.tsx:86 | the artist part of the key is never empty; it is the text "null" exactly for a missing, empty or literally "null" artist, and a present non-empty artist is written as itself |
| Upload.DuplicateKey | src/pages/Admin.tsx:86 | the key is the title, one bar character, then the artist part, each at its place |
| Upload.MissingArtistKeys | src/pages/Admin.tsx:85-91 | a missing, an empty and a literal "null" artist give the same duplicate key |
| Upload.DuplicateKeyInjective | src/pages/Admin.tsx:85-91 | when neither title contains a bar character, equal keys mean equal titles and equal artist parts |
| Upload.DuplicateKeyCollision | src/pages/Admin.tsx:85-91 | without that condition, different title and artist pairs can share a key |
| Upload.ExistingKeys | src/pages/Admin.tsx:85-87 | the set holds exactly the keys of the rows the duplicate query returned |
| Upload.NewSongs | src/pages/Admin.tsx:89-91 | the kept candidates are exactly those whose key is not in the existing set |
| Upload.NewSongsKeepOrder | src/pages/Admin.tsx:89-91 | the filter distributes over concatenation, so kept candidates keep their order |
| Upload.SameBatchDuplicatesKept | src/pages/Admin.tsx:89-91 | two identical new candidates in one batch are both kept |
| Upload.SkippedCount | src/pages/Admin.tsx:93 | the skipped count is the number of duplicates, and skipped plus kept is the number of candidates |
| Upload.ResultMessages | src/pages/Admin.tsx:103-112 | the success message shows exactly when some songs are kept; "all duplicates" exactly when none are kept and some are skipped; the skipped notice exactly when both happen; nothing when neither; one message per case that applies, the success message first and the duplicates message last |
| Upload.UploadPath | src/pages/Admin.tsx:44-45 | a storage path is "songs/", the stamp and "-", followed by the sanitised file name, which uses only allowed characters and is as long as the mark-stripped name |
| Upload.UploadPaths | src/pages/Admin.tsx:44-45 | each file is stored under its stamp and its sanitised name, one path per file |
| Upload.CandidateOf | src/pages/Admin.tsx:52-63 | a candidate carries the parsed title and the parsed artist of its file name, which is present exactly when the base name holds the separator, and the file's public URL |
| Upload.Candidates | src/pages/Admin.tsx:52-63 | one candidate per uploaded file, with the parsed title and artist and the file's public URL |
| Upload.AddSongForm.constructor | src/pages/Admin.tsx:25 | the form starts not uploading |
| Upload.AddSongForm.OnSubmit | src/pages/Admin.tsx:33-123 | the report is `Upload.Submit` of the inputs; a signed-in submission always ends with the form no longer uploading, and one without a user leaves the flag untouched |
| Upload.SubmitStart | src/pages/Admin.tsx:33-45 | no user: only the log-in error, nothing stored; otherwise every file is stored under its stamp and sanitised name, and the first two notices are the uploading notice and its dismissal |
| Upload.SubmitQueried | src/pages/Admin.tsx:43-83 | the duplicate query runs exactly when there is a user, every upload succeeded and there are files; without its answer nothing is inserted and the form is not reset |
| Upload.SubmitKept | src/pages/Admin.tsx:85-114 | with the query's answer, exactly the new songs are inserted and only when there are some; the form is reset exactly when nothing needed inserting or the insert succeeded, and then the result messages follow the two notices |
| Upload.SubmitFailureNotice | src/pages/Admin.tsx:116-118 | a signed-in submission with files that does not reset the form ends with the failure notice |
| Utils.GetPathFromUrl | src/lib/utils.ts:8-18 | an empty or unparseable URL gives null; the result is undefined exactly when the pathname has no "/musicfiles/", and a key exactly when it has one; the key is the pathname text after the first marker, ending at the next marker or the end, with no marker starting inside it |
| Utils.StripMarks | src/lib/utils.ts:22 | the combining marks U+0300 to U+036F are removed and every other character is kept |
| Utils.StripMarksChar | src/lib/utils.ts:22 | a single character is deleted exactly when it is a combining mark, and kept otherwise |
| Utils.StripMarksConcat | src/lib/utils.ts:22 | stripping distributes over concatenation, so the kept characters keep their order and their number |
| Utils.ReplaceDisallowed | src/lib/utils.ts:25 | the replacement is one for one: same length, allowed characters kept in place, every other character becomes '_' |
| Utils.SanitizeFileName | src/lib/utils.ts:20-27 | the result uses only letters, digits, '.', '_' and '-', has the length of the mark-stripped normalised name, and keeps its allowed characters in place |
| Utils.SanitizeSafeName | src/lib/utils.ts:20-27 | a name that is already safe and normalised is returned unchanged |
| Utils.SanitizeIdempotent | src/lib/utils.ts:20-27 | sanitising a sanitised name changes nothing |
| Seqs.Filter | src/pages/Admin.tsx:89-91 | a filter keeps exactly the elements satisfying the predicate and never lengthens the list |
| Seqs.FilterComplement | src/pages/Admin.tsx:93 | a filter and its complement split the list's length |
| Seqs.Flatten | src/pages/Index.tsx:69 | every element of every page is in the concatenation, and no pages give an empty list |
| Seqs.FlattenAppend | src/pages/Index.tsx:69 | loading one more page appends exactly that page to the list shown |
| Paging.PageRange | src/pages/Index.tsx:13-19 | a page starts at the parameter when it is a number and at 0 otherwise, and asks for an inclusive range of exactly 20 slots |
| Paging.NextPageParam | src/pages/Index.tsx:41-46 | there is no next page exactly when the last page holds fewer than 20 songs; otherwise the next page starts at the number of loaded pages times 20 |
| Paging.AllSongs | src/pages/Index.tsx:69 | nothing is shown before the first load, and every song of every loaded page is shown |
| Paging.FetchPage | src/pages/Index.tsx:15-19 | a page holds the table's rows from its start on: 20 of them when the table reaches past its range, all remaining ones otherwise, none past the end |
| Paging.NextPageKeepsLoaded | src/pages/Index.tsx:41-46 | following the next-page rule keeps every page equal to the answer for its own slot |
| Paging.RangesContiguous | src/pages/Index.tsx:13-46 | for consistently loaded pages whose last page is full, the next range begins right after the previous one ends and at the first row not yet shown |
| Paging.LoadedIsPrefix | src/pages/Index.tsx:41-69 | consistently loaded pages concatenate to a prefix of the table: nothing skipped and nothing repeated |
| Paging.LoadPages | src/pages/Index.tsx:37-67 | the fetches made while a next page exists add at most one page per round |
| Paging.LoadPagesLoaded | src/pages/Index.tsx:37-46 | loading from an unchanging table yields consistent pages, and stops after the page that comes back short |
| Paging.LoadEverything | src/pages/Index.tsx:41-69 | once enough fetches have happened, no next page remains and the list shown is the whole table in order |
| RouteGuard.Decide | src/components/ProtectedRoute.tsx:8-25 | loading shows the placeholder whatever the session; no session redirects to the login page; a profile whose role is allowed renders the child routes; a missing profile or a role that is not allowed redirects home |
| RouteGuard.RoleAccess | src/App.tsx:42-49 | a signed-in profile reaches the administration route exactly with role "admin", and the main routes exactly with "admin" or "user" |
| RouteGuard.AdminRouteImpliesAppRoutes | src/App.tsx:42-49 | whoever reaches the administration route also reaches the main routes |
| RouteGuard.MoreRolesAdmitMore | src/components/ProtectedRoute.tsx:19 | widening the allowed roles never turns an admitted visitor away |

## Left out

- Characters are Unicode scalar values. JavaScript strings are UTF-16 code units, so
  `SanitizeFileName`, `trim` and the length statements differ from the original for
  characters outside the Basic Multilingual Plane.
- `String.prototype.normalize('NFD')` and `new URL(...).pathname` are taken as parameters
  (`nfd`, `pathnameOf`). They are used only through their results.
- Utils.SanitizeIdempotent: assumes that NFD normalisation leaves already-safe names
  unchanged. This is true of the real normalisation but not derived here.
- Every database, storage, realtime and edge-function call is out of the model. Each is
  replaced by its result or by a success/failure input. This includes the text of error
  messages, the filter string of the duplicate query, the public URL lookup and the query
  cache invalidation.
- The duplicate query itself is not modelled: the rows it returns are an input. Its
  `artist.eq.null` filter compares with the text "null", not with SQL NULL. How it matches
  is left to the database.
- The order in which the insert and delete payloads of the membership dialog list their
  ids is out of the model. The dialog's sets are modelled as sets.
- The server renumbers stored positions after a remove or reorder, in a SQL function that
  is not part of this model. Nothing here claims that positions become contiguous.
- Overlapping handlers are out of the model, as are React's batching of state updates and
  stale closures. Each handler is one atomic step. Only the drag-end and remove handlers
  are also split at their `await` into a `Begin` and a `Settle` part.
- The inserted song rows also carry the signed-in user's id and a null cover art URL.
  `Upload.Candidate` holds only the title, the artist and the file URL, because the other
  two columns are the same for every row of a submission and play no part in the
  duplicate check.
- Realtime refetches of the playlist and of the song library are out of the model.
  `Paging` assumes the table does not change while pages load.
- Paging.AllSongs: its own contract states membership in one direction only. That the list
  is exactly the pages in load order is stated by `Seqs.FlattenAppend` and
  `Paging.LoadedIsPrefix`.
- `Paging.LoadPages` models the scroll-triggered fetches as a count of rounds. The viewport
  observer that triggers them is out of the model, as are the loading skeletons.
- An error thrown by a page fetch is not modelled. The query library handles it.
- The audio element of `src/components/MusicPlayer.tsx` is out of the model: progress,
  duration and volume are floating point.
- Rendering-only state is out of the model, apart from the song list of the membership
  dialog. Neither are translations, toasts beyond the notice values returned, the owner
  check that hides the playlist header buttons, or the drag sensor settings.
- `PlaylistPage.Page.BeginDragEnd` requires the drop target to exist and both ids to be in
  the list. The original does not check either, and it would fail on a missing target.
