/**
 * The infinite-scroll paging of the library page (src/pages/Index.tsx): the row range each
 * page asks for, the rule that decides whether another page exists, and the list shown,
 * which is the pages concatenated in load order.
 */
module Paging {
  import opened Types
  import Seqs

  /** Number of songs requested per page. */
  const PageSize: nat := 20

  /** The page parameter handed to the fetch; anything that is not a number counts as 0. */
  datatype PageParam = Number(n: int) | NotNumber

  /** An inclusive range of row offsets, as the database's range filter takes it. */
  datatype RowRange = RowRange(first: int, last: int)

  /** The range `fetchSongs` requests for one page: PageSize slots from the page's start. */
  function PageRange(param: PageParam): (r: RowRange)
    ensures param.Number? ==> r.first == param.n
    ensures param.NotNumber? ==> r.first == 0
    ensures r.last - r.first + 1 == PageSize
  {
    var rangeStart := if param.Number? then param.n else 0;
    RowRange(rangeStart, rangeStart + PageSize - 1)
  }

  /**
   * `getNextPageParam`: no further page once the last one came back short; otherwise the
   * next page starts after all the slots requested so far.
   */
  function NextPageParam<T>(lastPage: seq<T>, allPages: seq<seq<T>>): (next: Option<nat>)
    ensures next.None? <==> |lastPage| < PageSize
    ensures next.Some? ==> next.value == |allPages| * PageSize
  {
    if |lastPage| < PageSize then None else Some(|allPages| * PageSize)
  }

  /** The list shown: the loaded pages in load order, or nothing before the first load. */
  function AllSongs<T(!new)>(pages: Option<seq<seq<T>>>): (songs: seq<T>)
    ensures pages.None? ==> songs == []
    ensures pages.Some? ==> forall i, x :: 0 <= i < |pages.value| && x in pages.value[i] ==> x in songs
  {
    if pages.Some? then Seqs.Flatten(pages.value) else []
  }

  /**
   * What the database answers for a page starting at `start` when the ordered song table is
   * `table`: the rows of the requested range that exist.
   */
  function FetchPage<T>(table: seq<T>, start: nat): (page: seq<T>)
    ensures |page| <= PageSize
    ensures |page| == PageSize <==> start + PageSize <= |table|
    ensures forall i :: 0 <= i < |page| ==> start + i < |table| && page[i] == table[start + i]
    ensures |page| == if |table| <= start then 0 else Min(PageSize, |table| - start)
  {
    if |table| <= start then []
    else if start + PageSize <= |table| then table[start..start + PageSize]
    else table[start..]
  }

  /** Every page is the answer for its own slot, and every page but the last is full. */
  ghost predicate Loaded<T>(table: seq<T>, pages: seq<seq<T>>)
  {
    && (forall j :: 0 <= j < |pages| ==> pages[j] == FetchPage(table, j * PageSize))
    && (forall j :: 0 <= j < |pages| - 1 ==> |pages[j]| == PageSize)
  }

  function Min(a: int, b: int): int
  {
    if a <= b then a else b
  }

  /**
   * The pages held after the first fetch and `rounds - 1` scroll-triggered fetches, where a
   * fetch happens only while a next page exists and the table does not change in between.
   */
  function LoadPages<T>(table: seq<T>, rounds: nat): (pages: seq<seq<T>>)
    ensures |pages| <= rounds
    decreases rounds
  {
    if rounds == 0 then []
    else
      var prev := LoadPages(table, rounds - 1);
      if prev == [] then [FetchPage(table, 0)]
      else match NextPageParam(prev[|prev| - 1], prev)
        case None => prev
        case Some(start) => prev + [FetchPage(table, start)]
  }

  /** Following the next-page rule from a loaded state gives a loaded state. */
  lemma {:induction false} NextPageKeepsLoaded<T>(table: seq<T>, pages: seq<seq<T>>)
    requires Loaded(table, pages) && pages != []
    requires NextPageParam(pages[|pages| - 1], pages).Some?
    ensures Loaded(table, pages + [FetchPage(table, NextPageParam(pages[|pages| - 1], pages).value)])
  {
  }

  /**
   * While pages are full, the next range starts right after the last one, and at the first
   * row not yet shown: no gap, no overlap.
   */
  lemma {:induction false} RangesContiguous<T(!new)>(table: seq<T>, pages: seq<seq<T>>)
    requires Loaded(table, pages) && pages != []
    requires NextPageParam(pages[|pages| - 1], pages).Some?
    ensures var next := NextPageParam(pages[|pages| - 1], pages).value;
      && PageRange(Number(next)).first == PageRange(Number((|pages| - 1) * PageSize)).last + 1
      && PageRange(Number(next)).first == |Seqs.Flatten(pages)|
  {
    var m := |pages|;
    assert pages[m - 1] == FetchPage(table, (m - 1) * PageSize);
    assert m * PageSize <= |table|;
    LoadedIsPrefix(table, pages);
  }

  /** A page fetched right after a prefix of the table extends that prefix. */
  lemma {:induction false} PrefixThenPage<T>(table: seq<T>, start: nat)
    requires start <= |table|
    ensures table[..start] + FetchPage(table, start) == table[..Min(start + PageSize, |table|)]
  {
  }

  /** The loaded pages concatenate to a prefix of the table: nothing skipped, nothing repeated. */
  lemma {:induction false} LoadedIsPrefix<T(!new)>(table: seq<T>, pages: seq<seq<T>>)
    requires Loaded(table, pages)
    ensures |pages| * PageSize <= |table| + PageSize
    ensures Seqs.Flatten(pages) == table[..Min(|pages| * PageSize, |table|)]
  {
    if pages != [] {
      var m := |pages| - 1;
      var init := pages[..m];
      assert pages == init + [pages[m]];
      assert Loaded(table, init);
      LoadedIsPrefix(table, init);
      Seqs.FlattenAppend(init, pages[m]);
      if m > 0 {
        assert |pages[m - 1]| == PageSize;
        assert pages[m - 1] == FetchPage(table, (m - 1) * PageSize);
      }
      assert m * PageSize <= |table|;
      PrefixThenPage(table, m * PageSize);
    }
  }

  /** Loading from an unchanging table always yields consistent pages, and stops at the end. */
  lemma {:induction false} LoadPagesLoaded<T>(table: seq<T>, rounds: nat)
    ensures Loaded(table, LoadPages(table, rounds))
    ensures |LoadPages(table, rounds)| == Min(rounds, |table| / PageSize + 1)
    decreases rounds
  {
    if rounds > 0 {
      var prev := LoadPages(table, rounds - 1);
      LoadPagesLoaded(table, rounds - 1);
      if prev != [] {
        var m := |prev|;
        assert prev[m - 1] == FetchPage(table, (m - 1) * PageSize);
        if m * PageSize <= |table| {
          assert |prev[m - 1]| == PageSize;
          assert m <= |table| / PageSize;
          NextPageKeepsLoaded(table, prev);
        } else {
          assert |prev[m - 1]| < PageSize;
          assert m == |table| / PageSize + 1;
        }
      }
    }
  }

  /** Once enough pages have been requested, the list shown is the whole table in order. */
  lemma {:induction false} LoadEverything<T(!new)>(table: seq<T>, rounds: nat)
    requires rounds > |table| / PageSize
    ensures Seqs.Flatten(LoadPages(table, rounds)) == table
    ensures NextPageParam(LoadPages(table, rounds)[|LoadPages(table, rounds)| - 1], LoadPages(table, rounds)).None?
  {
    var pages := LoadPages(table, rounds);
    LoadPagesLoaded(table, rounds);
    LoadedIsPrefix(table, pages);
    var m := |pages|;
    assert m == |table| / PageSize + 1;
    assert m * PageSize > |table|;
    assert pages[m - 1] == FetchPage(table, (m - 1) * PageSize);
  }
}
