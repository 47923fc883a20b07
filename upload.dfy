/**
 * The song upload of the admin page (src/pages/Admin.tsx): deriving artist and title
 * from a file name, the duplicate key, the split into new and already known songs,
 * the result messages, and the step sequence of `onSubmit`.
 */
module Upload {
  import opened Types
  import Seqs
  import opened Strings
  import opened Utils

  /** The separator between artist and title in a file name. */
  const Separator: string := " - "

  /**
   * `name.substring(0, name.lastIndexOf('.')) || name`: the text before the last dot,
   * or the whole name when that text is empty (no dot, or only a leading one).
   */
  function BaseName(fileName: string): (r: string)
    ensures (|fileName| <= 1 || '.' !in fileName[1..]) ==> r == fileName
    ensures |fileName| > 1 && '.' in fileName[1..] ==>
      && 0 < |r| < |fileName|
      && fileName[..|r|] == r
      && fileName[|r|] == '.'
      && '.' !in fileName[|r| + 1..]
  {
    var dot := LastIndexOf(fileName, '.');
    // `substring` clamps a negative end (-1 when there is no dot) to 0.
    var prefix := if dot <= 0 then "" else fileName[..dot];
    assert dot >= 1 ==> fileName[dot] in fileName[1..];
    assert |fileName| > 1 && '.' in fileName[1..] ==> dot >= 1 by {
      if |fileName| > 1 && '.' in fileName[1..] {
        var j :| 0 <= j < |fileName[1..]| && fileName[1..][j] == '.';
        assert fileName[j + 1] == '.';
      }
    }
    if prefix == "" then fileName else prefix
  }

  /** The artist (absent when the name has no separator) and the title of an uploaded file. */
  datatype ParsedName = ParsedName(artist: Option<string>, title: string)

  /**
   * Artist and title from a base name: with a separator, the trimmed texts before the
   * first one and after it (up to a second one, see `ParsedTitle`); without one, no
   * artist and the trimmed base name as title.
   */
  function ParseBaseName(base: string): (r: ParsedName)
    ensures IndexOf(base, Separator, 0).None? ==> r == ParsedName(None, Trim(base))
    ensures IndexOf(base, Separator, 0).Some? ==>
      r.artist == Some(Trim(base[..IndexOf(base, Separator, 0).value]))
  {
    var parts := Split(base, Separator);
    if |parts| > 1 then ParsedName(Some(Trim(parts[0])), Trim(parts[1]))
    else ParsedName(None, Trim(base))
  }

  /** Artist and title of an uploaded file, parsed from its base name. */
  function ParseFileName(fileName: string): (r: ParsedName)
    ensures IndexOf(BaseName(fileName), Separator, 0).None? ==>
      r == ParsedName(None, Trim(BaseName(fileName)))
    ensures IndexOf(BaseName(fileName), Separator, 0).Some? ==>
      r.artist == Some(Trim(BaseName(fileName)[..IndexOf(BaseName(fileName), Separator, 0).value]))
  {
    ParseBaseName(BaseName(fileName))
  }

  /**
   * With a separator, the title is the trimmed text between the first separator and
   * the second one (or the end): anything after a second separator is dropped.
   */
  lemma {:induction false} ParsedTitle(base: string)
    requires IndexOf(base, Separator, 0).Some?
    ensures var start := IndexOf(base, Separator, 0).value + |Separator|;
      var piece := Split(base, Separator)[1];
      && start + |piece| <= |base|
      && base[start..start + |piece|] == piece
      && (start + |piece| == |base| || OccursAt(base, Separator, start + |piece|))
      && NoneStartIn(base, Separator, start, start + |piece|)
      && ParseBaseName(base).title == Trim(piece)
  {
    var k := IndexOf(base, Separator, 0).value;
    SplitSecond(base, Separator, k);
    SplitSecondPiece(base, Separator, k, Split(base, Separator)[1]);
  }

  /** The base name of `base.ext` is `base` when the extension holds no dot and `base` is not empty. */
  lemma {:induction false} BaseNameOfExtension(base: string, ext: string)
    requires |base| > 0 && '.' !in ext
    ensures BaseName(base + "." + ext) == base
  {
    var name := base + "." + ext;
    var p := |base|;
    assert name[p] == '.' && name[1..][p - 1] == '.';
    var b := BaseName(name);
    assert |b| == p;
    assert b == name[..p] == base;
  }

  /**
   * A file named `artist - title.ext` parses back into that artist and title, when the
   * artist holds no separator, the title neither a separator nor a dot, the extension
   * no dot, and neither has surrounding whitespace.
   */
  lemma {:induction false} ParseConventionalName(artist: string, title: string, ext: string)
    requires IndexOf(artist + Separator, Separator, 0) == Some(|artist|)
    requires IndexOf(title, Separator, 0).None? && '.' !in ext
    requires Trim(artist) == artist && Trim(title) == title
    ensures ParseFileName(artist + Separator + title + "." + ext) == ParsedName(Some(artist), title)
  {
    var base := artist + Separator + title;
    assert artist + Separator + title + "." + ext == base + "." + ext;
    BaseNameOfExtension(base, ext);
    ParseConventionalBase(artist, title);
  }

  /** The base name `artist - title` parses into that artist and title. */
  lemma {:induction false} ParseConventionalBase(artist: string, title: string)
    requires IndexOf(artist + Separator, Separator, 0) == Some(|artist|)
    requires IndexOf(title, Separator, 0).None?
    requires Trim(artist) == artist && Trim(title) == title
    ensures ParseBaseName(artist + Separator + title) == ParsedName(Some(artist), title)
  {
    var base := artist + Separator + title;
    FirstSeparator(artist, title);
    SplitSecond(base, Separator, |artist|);
    assert PieceBefore(title, Separator) == title;
  }

  /** In `artist - title`, the first separator follows the artist, and the title follows it. */
  lemma {:induction false} FirstSeparator(artist: string, title: string)
    requires IndexOf(artist + Separator, Separator, 0) == Some(|artist|)
    ensures IndexOf(artist + Separator + title, Separator, 0) == Some(|artist|)
    ensures (artist + Separator + title)[..|artist|] == artist
    ensures (artist + Separator + title)[|artist| + |Separator|..] == title
  {
    assert artist + Separator + title == (artist + Separator) + title;
    IndexOfExtend(artist + Separator, title, Separator, 0);
  }

  /** `artist || 'null'`: a missing or empty artist is written `null`. */
  function ArtistOrNull(artist: Option<string>): (r: string)
    ensures r != ""
    ensures r == "null" <==> artist.None? || artist.value == "" || artist.value == "null"
    ensures artist.Some? && artist.value != "" ==> r == artist.value
  {
    if artist.None? || artist.value == "" then "null" else artist.value
  }

  /** The key `title|artist` under which a song counts as already in the library. */
  function DuplicateKey(title: string, artist: Option<string>): (k: string)
    ensures |k| == |title| + 1 + |ArtistOrNull(artist)|
    ensures k[..|title|] == title && k[|title|] == '|'
    ensures k[|title| + 1..] == ArtistOrNull(artist)
  {
    title + "|" + ArtistOrNull(artist)
  }

  /** No artist, an empty artist and an artist literally named `null` share one key. */
  lemma {:induction false} MissingArtistKeys(title: string)
    ensures DuplicateKey(title, None) == DuplicateKey(title, Some(""))
    ensures DuplicateKey(title, None) == DuplicateKey(title, Some("null"))
  {
  }

  /** In `title|rest`, the first `|` follows the title when the title holds none. */
  lemma {:induction false} FirstBar(title: string, rest: string)
    requires '|' !in title
    ensures IndexOf(title + "|" + rest, "|", 0) == Some(|title|)
  {
    var k := title + "|" + rest;
    assert k[|title|..|title| + 1] == "|";
    assert OccursAt(k, "|", |title|);
    forall j | 0 <= j < |title|
      ensures !OccursAt(k, "|", j)
    {
      assert title[j] in title;
      assert k[j..j + 1] == [title[j]];
    }
  }

  /** For titles without `|`, equal keys mean equal titles and equal written artists. */
  lemma {:induction false} DuplicateKeyInjective(t1: string, a1: Option<string>, t2: string, a2: Option<string>)
    requires '|' !in t1 && '|' !in t2
    requires DuplicateKey(t1, a1) == DuplicateKey(t2, a2)
    ensures t1 == t2 && ArtistOrNull(a1) == ArtistOrNull(a2)
  {
    var k := DuplicateKey(t1, a1);
    FirstBar(t1, ArtistOrNull(a1));
    FirstBar(t2, ArtistOrNull(a2));
    assert t1 == k[..|t1|] == t2;
    assert ArtistOrNull(a1) == k[|t1| + 1..] == ArtistOrNull(a2);
  }

  /** A `|` in a title lets two different songs share a key. */
  lemma {:induction false} DuplicateKeyCollision()
    ensures DuplicateKey("a|b", Some("c")) == DuplicateKey("a", Some("b|c"))
  {
  }

  /** A song about to be inserted: its title, artist and public file URL. */
  datatype Candidate = Candidate(title: string, artist: Option<string>, fileUrl: string)

  /** A library row returned by the duplicate query. */
  datatype ExistingSong = ExistingSong(title: string, artist: Option<string>)

  /** The keys of the library rows the duplicate query returned. */
  function ExistingKeys(existing: seq<ExistingSong>): (keys: set<string>)
    ensures forall s :: s in existing ==> DuplicateKey(s.title, s.artist) in keys
    ensures forall k :: k in keys ==> exists s :: s in existing && k == DuplicateKey(s.title, s.artist)
  {
    set s | s in existing :: DuplicateKey(s.title, s.artist)
  }

  /** The candidate's key is among the existing ones. */
  predicate IsDuplicate(c: Candidate, keys: set<string>) {
    DuplicateKey(c.title, c.artist) in keys
  }

  /** The predicate of the kept-songs filter: the candidate's key is new. */
  function IsNew(keys: set<string>): Candidate -> bool
  {
    c => !IsDuplicate(c, keys)
  }

  /** The complementary predicate: the candidate's key already exists. */
  function IsOld(keys: set<string>): Candidate -> bool
  {
    c => IsDuplicate(c, keys)
  }

  /** The candidates whose key is not among the existing ones, in their original order. */
  function NewSongs(candidates: seq<Candidate>, keys: set<string>): (kept: seq<Candidate>)
    ensures forall c :: c in kept <==> c in candidates && !IsDuplicate(c, keys)
  {
    Seqs.Filter(IsNew(keys), candidates)
  }

  /** `skippedCount`: the total minus the kept, which is the number of duplicate candidates. */
  function SkippedCount(candidates: seq<Candidate>, keys: set<string>): (n: nat)
    ensures n == |Seqs.Filter(IsOld(keys), candidates)|
    ensures n + |NewSongs(candidates, keys)| == |candidates|
  {
    Seqs.FilterComplement(IsNew(keys), IsOld(keys), candidates);
    |candidates| - |NewSongs(candidates, keys)|
  }

  /** Keeping new songs distributes over concatenation: the kept ones stay in batch order. */
  lemma {:induction false} NewSongsKeepOrder(a: seq<Candidate>, b: seq<Candidate>, keys: set<string>)
    ensures NewSongs(a + b, keys) == NewSongs(a, keys) + NewSongs(b, keys)
  {
    Seqs.FilterConcat(IsNew(keys), a, b);
  }

  /** Two identical new candidates in one batch are both kept: duplicates within a batch are not removed. */
  lemma {:induction false} SameBatchDuplicatesKept(c: Candidate, keys: set<string>)
    requires !IsDuplicate(c, keys)
    ensures NewSongs([c, c], keys) == [c, c]
  {
    Seqs.FilterKeepsAll(IsNew(keys), [c, c]);
  }

  /** The notifications of the admin upload. */
  datatype Toast =
    | MustBeLoggedIn
    | Uploading(count: nat)
    | Dismissed
    | SongsAdded(count: nat)
    | AllDuplicates
    | SkippedDuplicates(count: nat)
    | UploadFailed

  /**
   * The messages after a successful run: how many were added when any were; "all
   * duplicates" when none were added and some were skipped; how many were skipped
   * when both happened.
   */
  function ResultMessages(added: nat, skipped: nat): (ts: seq<Toast>)
    ensures SongsAdded(added) in ts <==> added > 0
    ensures AllDuplicates in ts <==> added == 0 && skipped > 0
    ensures SkippedDuplicates(skipped) in ts <==> added > 0 && skipped > 0
    ensures ts == [] <==> added == 0 && skipped == 0
    ensures UploadFailed !in ts && |ts| <= 2
    ensures |ts| == (if added > 0 then 1 else 0) + (if skipped > 0 then 1 else 0)
    ensures skipped > 0 ==> ts[|ts| - 1] == (if added == 0 then AllDuplicates else SkippedDuplicates(skipped))
    ensures added > 0 ==> ts[0] == SongsAdded(added)
  {
    (if added > 0 then [SongsAdded(added)] else [])
    + (if skipped > 0 then (if added == 0 then [AllDuplicates] else [SkippedDuplicates(skipped)]) else [])
  }

  /** The storage path of an uploaded file: `songs/<timestamp>-<sanitised name>`. */
  function UploadPath(stamp: string, fileName: string, nfd: string -> string): (path: string)
    ensures |path| == |"songs/" + stamp + "-"| + |StripMarks(nfd(fileName))|
    ensures path[..|"songs/" + stamp + "-"|] == "songs/" + stamp + "-"
    ensures AllAllowed(path[|"songs/" + stamp + "-"|..])
    ensures path[|"songs/" + stamp + "-"|..] == SanitizeFileName(fileName, nfd)
  {
    "songs/" + stamp + "-" + SanitizeFileName(fileName, nfd)
  }

  /** The storage paths of all files of a submission, in order. */
  function UploadPaths(files: seq<string>, stamps: seq<string>, nfd: string -> string): (paths: seq<string>)
    requires |stamps| == |files|
    ensures |paths| == |files|
    ensures forall i :: 0 <= i < |files| ==> paths[i] == UploadPath(stamps[i], files[i], nfd)
  {
    seq(|files|, i requires 0 <= i < |files| => UploadPath(stamps[i], files[i], nfd))
  }

  /** Every upload returned a public URL. */
  predicate AllUploaded(uploads: seq<Option<string>>) {
    forall i :: 0 <= i < |uploads| ==> uploads[i].Some?
  }

  /** The candidate row for one stored file: its parsed title and artist and its public URL. */
  function CandidateOf(fileName: string, url: string): (c: Candidate)
    ensures c.artist.Some? <==> IndexOf(BaseName(fileName), Separator, 0).Some?
    ensures c.title == ParseFileName(fileName).title && c.artist == ParseFileName(fileName).artist
    ensures c.fileUrl == url
  {
    var parsed := ParseFileName(fileName);
    Candidate(parsed.title, parsed.artist, url)
  }

  /** The candidate rows built from the files and their public URLs, in file order. */
  function Candidates(files: seq<string>, uploads: seq<Option<string>>): (cs: seq<Candidate>)
    requires |uploads| == |files| && AllUploaded(uploads)
    ensures |cs| == |files|
    ensures forall i :: 0 <= i < |files| ==> cs[i] == CandidateOf(files[i], uploads[i].value)
  {
    seq(|files|, i requires 0 <= i < |files| => CandidateOf(files[i], uploads[i].value))
  }

  /** What one submission did: uploads, queries, insert, notifications and form reset. */
  datatype SubmitReport = SubmitReport(
    uploadPaths: seq<string>,
    queried: bool,
    inserted: Option<seq<Candidate>>,
    toasts: seq<Toast>,
    formReset: bool)

  /**
   * What `onSubmit` reports for the given inputs: the remote results are inputs, `uploads[i]`
   * being the public URL of the i-th stored file (absent when its upload failed), `existing`
   * the rows of the duplicate query and `insertSucceeded` the outcome of the insert;
   * `stamps[i]` is the clock reading used in the i-th storage path.
   */
  function Submit(userId: Option<string>, files: seq<string>, stamps: seq<string>,
                  uploads: seq<Option<string>>, existing: Result<seq<ExistingSong>>,
                  insertSucceeded: bool, nfd: string -> string): SubmitReport
    requires |stamps| == |files| && |uploads| == |files|
  {
    if userId.None? then SubmitReport([], false, None, [MustBeLoggedIn], false)
    else
      var paths := UploadPaths(files, stamps, nfd);
      var notices := [Uploading(|files|), Dismissed];
      if !AllUploaded(uploads) then SubmitReport(paths, false, None, notices + [UploadFailed], false)
      else if files == [] then SubmitReport(paths, false, None, notices, false)
      else if existing.Err? then SubmitReport(paths, true, None, notices + [UploadFailed], false)
      else
        var candidates := Candidates(files, uploads);
        var keys := ExistingKeys(existing.value);
        var kept := NewSongs(candidates, keys);
        if kept == [] then
          SubmitReport(paths, true, None, notices + ResultMessages(0, SkippedCount(candidates, keys)), true)
        else if !insertSucceeded then
          SubmitReport(paths, true, Some(kept), notices + [UploadFailed], false)
        else
          SubmitReport(paths, true, Some(kept), notices + ResultMessages(|kept|, SkippedCount(candidates, keys)), true)
  }

  /**
   * A submission without a user only asks to log in; any other stores every file under its
   * path and starts with the uploading and dismissal notices.
   */
  lemma {:induction false} SubmitStart(userId: Option<string>, files: seq<string>, stamps: seq<string>,
                                       uploads: seq<Option<string>>, existing: Result<seq<ExistingSong>>,
                                       insertSucceeded: bool, nfd: string -> string, report: SubmitReport)
    requires |stamps| == |files| && |uploads| == |files|
    requires report == Submit(userId, files, stamps, uploads, existing, insertSucceeded, nfd)
    ensures userId.None? ==> report == SubmitReport([], false, None, [MustBeLoggedIn], false)
    ensures userId.Some? ==> report.uploadPaths == UploadPaths(files, stamps, nfd)
    ensures userId.Some? ==> |report.toasts| >= 2 && report.toasts[..2] == [Uploading(|files|), Dismissed]
  {
  }

  /**
   * The duplicate query runs exactly when there is a user, every upload succeeded and there
   * are files; without its answer nothing is inserted and the form is not reset.
   */
  lemma {:induction false} SubmitQueried(userId: Option<string>, files: seq<string>, stamps: seq<string>,
                                         uploads: seq<Option<string>>, existing: Result<seq<ExistingSong>>,
                                         insertSucceeded: bool, nfd: string -> string)
    requires |stamps| == |files| && |uploads| == |files|
    ensures var report := Submit(userId, files, stamps, uploads, existing, insertSucceeded, nfd);
      && (report.queried <==> userId.Some? && AllUploaded(uploads) && files != [])
      && (!(report.queried && existing.Ok?) ==> report.inserted.None? && !report.formReset)
  {
  }

  /**
   * With the query's answer, exactly the new songs are inserted, and only when there are
   * some; the form is reset when nothing needed inserting or the insert succeeded, and then
   * the result messages follow the two notices.
   */
  lemma {:induction false} SubmitKept(userId: Option<string>, files: seq<string>, stamps: seq<string>,
                                      uploads: seq<Option<string>>, existing: Result<seq<ExistingSong>>,
                                      insertSucceeded: bool, nfd: string -> string,
                                      report: SubmitReport, kept: seq<Candidate>, skipped: nat)
    requires |stamps| == |files| && |uploads| == |files|
    requires userId.Some? && AllUploaded(uploads) && files != [] && existing.Ok?
    requires report == Submit(userId, files, stamps, uploads, existing, insertSucceeded, nfd)
    requires kept == NewSongs(Candidates(files, uploads), ExistingKeys(existing.value))
    requires skipped == SkippedCount(Candidates(files, uploads), ExistingKeys(existing.value))
    ensures report.inserted.Some? <==> kept != []
    ensures report.inserted.Some? ==> report.inserted.value == kept
    ensures report.formReset <==> kept == [] || insertSucceeded
    ensures report.formReset ==> report.toasts == [Uploading(|files|), Dismissed] + ResultMessages(|kept|, skipped)
  {
    var paths := UploadPaths(files, stamps, nfd);
    var notices := [Uploading(|files|), Dismissed];
    if kept == [] {
      assert report == SubmitReport(paths, true, None, notices + ResultMessages(0, skipped), true);
    } else if !insertSucceeded {
      assert report.inserted == Some(kept) && !report.formReset;
    } else {
      assert report == SubmitReport(paths, true, Some(kept), notices + ResultMessages(|kept|, skipped), true);
    }
  }

  /** A submission with a user and files that does not reset the form ends with the failure notice. */
  lemma {:induction false} SubmitFailureNotice(userId: Option<string>, files: seq<string>, stamps: seq<string>,
                                               uploads: seq<Option<string>>, existing: Result<seq<ExistingSong>>,
                                               insertSucceeded: bool, nfd: string -> string)
    requires |stamps| == |files| && |uploads| == |files|
    requires userId.Some? && files != []
    ensures var report := Submit(userId, files, stamps, uploads, existing, insertSucceeded, nfd);
      !report.formReset ==> report.toasts[|report.toasts| - 1] == UploadFailed
  {
  }

  /** The upload form's state. */
  class AddSongForm {
    var isUploading: bool

    constructor ()
      ensures !isUploading
    {
      isUploading := false;
    }

    /**
     * `onSubmit`: reports what `Submit` describes, and leaves the form no longer uploading
     * whenever a user was signed in.
     */
    method OnSubmit(userId: Option<string>, files: seq<string>, stamps: seq<string>,
                    uploads: seq<Option<string>>, existing: Result<seq<ExistingSong>>,
                    insertSucceeded: bool, nfd: string -> string)
      returns (report: SubmitReport)
      requires |stamps| == |files| && |uploads| == |files|
      modifies this
      ensures report == Submit(userId, files, stamps, uploads, existing, insertSucceeded, nfd)
      ensures isUploading == (old(isUploading) && userId.None?)
    {
      if userId.None? {
        return SubmitReport([], false, None, [MustBeLoggedIn], false);
      }
      isUploading := true;
      // The loading notice is shown now and dismissed on every way out.
      var notices := [Uploading(|files|), Dismissed];
      var paths := UploadPaths(files, stamps, nfd);
      if !AllUploaded(uploads) {
        isUploading := false;
        return SubmitReport(paths, false, None, notices + [UploadFailed], false);
      }
      var candidates := Candidates(files, uploads);
      if |candidates| == 0 {
        isUploading := false;
        return SubmitReport(paths, false, None, notices, false);
      }
      if existing.Err? {
        isUploading := false;
        return SubmitReport(paths, true, None, notices + [UploadFailed], false);
      }
      var keys := ExistingKeys(existing.value);
      var newSongs := NewSongs(candidates, keys);
      var skipped := SkippedCount(candidates, keys);
      var inserted: Option<seq<Candidate>> := None;
      if |newSongs| > 0 {
        inserted := Some(newSongs);
        if !insertSucceeded {
          isUploading := false;
          return SubmitReport(paths, true, inserted, notices + [UploadFailed], false);
        }
      }
      isUploading := false;
      report := SubmitReport(paths, true, inserted, notices + ResultMessages(|newSongs|, skipped), true);
    }
  }
}
