/**
 * The string helpers of src/lib/utils.ts: the storage key of a public file URL, and
 * the file name sanitiser used for upload paths.
 */
module Utils {
  import opened Types
  import Seqs
  import opened Strings

  /** The path segment that precedes storage keys of the `musicfiles` bucket. */
  const BucketMarker: string := "/musicfiles/"

  /** What `getPathFromUrl` returns: `null`, `undefined`, or a key. */
  datatype StoragePath = Null | Undefined | Key(key: string)

  /**
   * `getPathFromUrl(url)`. `pathnameOf` stands for `new URL(url).pathname`: `None` when
   * the URL constructor throws.
   */
  function GetPathFromUrl(url: string, pathnameOf: string -> Option<string>): (r: StoragePath)
    ensures url == "" ==> r == Null
    ensures url != "" && pathnameOf(url).None? ==> r == Null
    ensures r.Undefined? <==>
      url != "" && pathnameOf(url).Some? && IndexOf(pathnameOf(url).value, BucketMarker, 0).None?
    ensures r.Key? <==>
      url != "" && pathnameOf(url).Some? && IndexOf(pathnameOf(url).value, BucketMarker, 0).Some?
    ensures r.Key? ==>
      && pathnameOf(url).Some?
      && IndexOf(pathnameOf(url).value, BucketMarker, 0).Some?
      && var p := pathnameOf(url).value;
         var start := IndexOf(p, BucketMarker, 0).value + |BucketMarker|;
         && start + |r.key| <= |p|
         && p[start..start + |r.key|] == r.key
         && (start + |r.key| == |p| || OccursAt(p, BucketMarker, start + |r.key|))
         && NoneStartIn(p, BucketMarker, start, start + |r.key|)
         && IndexOf(r.key, BucketMarker, 0).None?
  {
    if url == "" then Null
    else match pathnameOf(url)
      case None => Null
      case Some(pathname) =>
        var parts := Split(pathname, BucketMarker);
        if |parts| > 1 then
          SplitSecondPiece(pathname, BucketMarker, IndexOf(pathname, BucketMarker, 0).value, parts[1]);
          SplitPiecesHaveNoSep(pathname, BucketMarker);
          Key(parts[1])
        else Undefined
  }

  /** The combining diacritical marks U+0300 to U+036F that the sanitiser deletes. */
  predicate IsCombiningMark(c: char) {
    0x300 <= c as int <= 0x36F
  }

  /** The characters a sanitised name may contain: `[a-zA-Z0-9._-]`. */
  predicate IsAllowed(c: char) {
    ('a' <= c <= 'z') || ('A' <= c <= 'Z') || ('0' <= c <= '9') || c == '.' || c == '_' || c == '-'
  }

  /** Every character of `s` is allowed. */
  predicate AllAllowed(s: string) {
    forall k :: 0 <= k < |s| ==> IsAllowed(s[k])
  }

  /** The predicate of the mark-stripping filter. */
  function NotMark(): char -> bool
  {
    c => !IsCombiningMark(c)
  }

  /** The regular-expression replacement that deletes U+0300 to U+036F: the other characters, in order. */
  function StripMarks(s: string): (r: string)
    ensures |r| <= |s|
    ensures forall c :: c in r <==> c in s && !IsCombiningMark(c)
  {
    Seqs.Filter(NotMark(), s)
  }

  /** Stripping works character by character: a mark is deleted, any other character kept. */
  lemma {:induction false} StripMarksChar(c: char)
    ensures StripMarks([c]) == if IsCombiningMark(c) then [] else [c]
  {
    Seqs.FilterCons(NotMark(), c, []);
    assert [c] + [] == [c];
  }

  /** Stripping distributes over concatenation, so the kept characters keep their order and number. */
  lemma {:induction false} StripMarksConcat(a: string, b: string)
    ensures StripMarks(a + b) == StripMarks(a) + StripMarks(b)
  {
    Seqs.FilterConcat(NotMark(), a, b);
  }

  /** The replacement of every character outside `[a-zA-Z0-9._-]` by one `_`. */
  function ReplaceDisallowed(s: string): (r: string)
    ensures |r| == |s|
    ensures AllAllowed(r)
    ensures forall k :: 0 <= k < |s| && IsAllowed(s[k]) ==> r[k] == s[k]
    ensures forall k :: 0 <= k < |s| && !IsAllowed(s[k]) ==> r[k] == '_'
  {
    if s == [] then []
    else [if IsAllowed(s[0]) then s[0] else '_'] + ReplaceDisallowed(s[1..])
  }

  /**
   * `sanitizeFileName(fileName)`. `nfd` stands for `String.prototype.normalize('NFD')`,
   * the canonical decomposition that splits accented letters into a base letter and
   * combining marks.
   */
  function SanitizeFileName(fileName: string, nfd: string -> string): (r: string)
    ensures AllAllowed(r)
    ensures |r| == |StripMarks(nfd(fileName))|
    ensures var stripped := StripMarks(nfd(fileName));
      forall k :: 0 <= k < |stripped| ==> r[k] == if IsAllowed(stripped[k]) then stripped[k] else '_'
  {
    ReplaceDisallowed(StripMarks(nfd(fileName)))
  }

  /** A name made of allowed characters that decomposition leaves alone passes through unchanged. */
  lemma {:induction false} SanitizeSafeName(fileName: string, nfd: string -> string)
    requires AllAllowed(fileName) && nfd(fileName) == fileName
    ensures SanitizeFileName(fileName, nfd) == fileName
  {
    Seqs.FilterKeepsAll(NotMark(), fileName);
  }

  /**
   * Sanitising is idempotent, given that decomposition leaves strings of allowed
   * (ASCII) characters unchanged, as canonical decomposition does.
   */
  lemma {:induction false} SanitizeIdempotent(fileName: string, nfd: string -> string)
    requires forall s :: AllAllowed(s) ==> nfd(s) == s
    ensures SanitizeFileName(SanitizeFileName(fileName, nfd), nfd) == SanitizeFileName(fileName, nfd)
  {
    SanitizeSafeName(SanitizeFileName(fileName, nfd), nfd);
  }
}
