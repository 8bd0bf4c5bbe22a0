/** `SongsList`: the searchable, sortable song list shared by the song,
    favourite, recent and detail screens. */
module SongsList {
  import opened Model
  import opened Seqs
  import opened Text
  import opened Orders
  import opened Sorting
  import opened SortMenu
  import SortUtils
  import MediaStore

  /** `SongsListState`: the search box and the sort order. */
  datatype ListState = ListState(searchQuery: string, isSearchActive: bool, sortOrder: string)

  const InitialState := ListState("", false, AlfaAsc)

  /** The list's own test: `contains(query, ignoreCase = true)` on title,
      artist or album. */
  predicate QueryMatches(s: Song, query: string) {
    ContainsIgnoreCase(s.title, query) || ContainsIgnoreCase(s.artist, query) || ContainsIgnoreCase(s.album, query)
  }

  function QueryMatcher(query: string): Song -> bool {
    (s: Song) => QueryMatches(s, query)
  }

  /** The search half of `filteredSongs`: a blank query keeps everything. */
  function SearchFilter(songs: seq<Song>, query: string): (r: seq<Song>)
    ensures IsBlank(query) ==> r == songs
    ensures !IsBlank(query) ==> forall s :: s in r <==> s in songs && QueryMatches(s, query)
    ensures !IsBlank(query) ==> forall s :: QueryMatches(s, query) ==> Count(r, s) == Count(songs, s)
    ensures multiset(r) <= multiset(songs)
  {
    FilterKeepsCopies(songs, QueryMatcher(query));
    if IsBlank(query) then songs else Filter(songs, QueryMatcher(query))
  }

  /** The sort half of `filteredSongs`; an unknown order leaves the list
      as filtered. */
  function ApplySortOrder(filtered: seq<Song>, order: string): (r: seq<Song>)
    ensures multiset(r) == multiset(filtered)
    ensures order == AlfaAsc ==> forall i, j :: 0 <= i < j < |r| ==> LexLe(Lower(r[i].title), Lower(r[j].title))
    ensures order == AlfaDesc ==> forall i, j :: 0 <= i < j < |r| ==> LexLe(Lower(r[j].title), Lower(r[i].title))
    ensures order == FechaAsc ==> forall i, j :: 0 <= i < j < |r| ==> r[i].dateAdded <= r[j].dateAdded
    ensures order == FechaDesc ==> forall i, j :: 0 <= i < j < |r| ==> r[i].dateAdded >= r[j].dateAdded
    ensures order in {AlfaAsc, AlfaDesc} ==> SameOrderPerKey(r, filtered, LowerKey(SortUtils.SongTitle))
    ensures order in {FechaAsc, FechaDesc} ==> SameOrderPerKey(r, filtered, SortUtils.SongDateAdded)
    ensures order !in {AlfaAsc, AlfaDesc, FechaAsc, FechaDesc} ==> r == filtered
  {
    if order == AlfaAsc then SortUtils.SortSongsByAlphaAsc(filtered)
    else if order == AlfaDesc then SortUtils.SortSongsByAlphaDesc(filtered)
    else if order == FechaDesc then SortUtils.SortSongsByDateDesc(filtered)
    else if order == FechaAsc then SortUtils.SortSongsByDateAsc(filtered)
    else filtered
  }

  /** The contract of `ApplySortOrder` pins its result down: any list that
      is a permutation of the input, ordered as the sort order asks and
      keeping songs with equal keys in their input order (as Kotlin's
      stable `sortedBy` does) is exactly the list it returns. */
  lemma ApplySortOrderUnique(filtered: seq<Song>, order: string, other: seq<Song>)
    requires multiset(other) == multiset(filtered)
    requires order == AlfaAsc ==> forall i, j :: 0 <= i < j < |other| ==> LexLe(Lower(other[i].title), Lower(other[j].title))
    requires order == AlfaDesc ==> forall i, j :: 0 <= i < j < |other| ==> LexLe(Lower(other[j].title), Lower(other[i].title))
    requires order == FechaAsc ==> forall i, j :: 0 <= i < j < |other| ==> other[i].dateAdded <= other[j].dateAdded
    requires order == FechaDesc ==> forall i, j :: 0 <= i < j < |other| ==> other[i].dateAdded >= other[j].dateAdded
    requires order in {AlfaAsc, AlfaDesc} ==> SameOrderPerKey(other, filtered, LowerKey(SortUtils.SongTitle))
    requires order in {FechaAsc, FechaDesc} ==> SameOrderPerKey(other, filtered, SortUtils.SongDateAdded)
    requires order !in {AlfaAsc, AlfaDesc, FechaAsc, FechaDesc} ==> other == filtered
    ensures other == ApplySortOrder(filtered, order)
  {
    if order == AlfaAsc {
      SortByAlphaAscUnique(filtered, SortUtils.SongTitle, other);
    } else if order == AlfaDesc {
      SortByAlphaDescUnique(filtered, SortUtils.SongTitle, other);
    } else if order == FechaDesc {
      SortByDateDescUnique(filtered, SortUtils.SongDateAdded, other);
    } else if order == FechaAsc {
      SortByDateAscUnique(filtered, SortUtils.SongDateAdded, other);
    }
  }

  /** Two songs added in the same second stay in list order under either
      date order: stability, not the key, decides a tie. */
  lemma DateTiesKeepListOrder(a: Song, b: Song)
    requires a.dateAdded == b.dateAdded
    ensures ApplySortOrder([a, b], FechaAsc) == [a, b]
    ensures ApplySortOrder([a, b], FechaDesc) == [a, b]
  {
    ApplySortOrderUnique([a, b], FechaAsc, [a, b]);
    ApplySortOrderUnique([a, b], FechaDesc, [a, b]);
  }

  /** `filteredSongs`: filter by the query, then sort. */
  function FilteredSongs(songs: seq<Song>, state: ListState): (r: seq<Song>)
    ensures multiset(r) == multiset(SearchFilter(songs, state.searchQuery))
    ensures IsBlank(state.searchQuery) ==> multiset(r) == multiset(songs)
    ensures forall s :: s in r <==> s in songs && (IsBlank(state.searchQuery) || QueryMatches(s, state.searchQuery))
    ensures forall s :: IsBlank(state.searchQuery) || QueryMatches(s, state.searchQuery) ==> Count(r, s) == Count(songs, s)
    ensures state.sortOrder == AlfaAsc ==> forall i, j :: 0 <= i < j < |r| ==> LexLe(Lower(r[i].title), Lower(r[j].title))
    ensures state.sortOrder == AlfaDesc ==> forall i, j :: 0 <= i < j < |r| ==> LexLe(Lower(r[j].title), Lower(r[i].title))
    ensures state.sortOrder == FechaAsc ==> forall i, j :: 0 <= i < j < |r| ==> r[i].dateAdded <= r[j].dateAdded
    ensures state.sortOrder == FechaDesc ==> forall i, j :: 0 <= i < j < |r| ==> r[i].dateAdded >= r[j].dateAdded
    ensures state.sortOrder in {AlfaAsc, AlfaDesc} ==>
      SameOrderPerKey(r, SearchFilter(songs, state.searchQuery), LowerKey(SortUtils.SongTitle))
    ensures state.sortOrder in {FechaAsc, FechaDesc} ==>
      SameOrderPerKey(r, SearchFilter(songs, state.searchQuery), SortUtils.SongDateAdded)
    ensures state.sortOrder !in {AlfaAsc, AlfaDesc, FechaAsc, FechaDesc} ==> r == SearchFilter(songs, state.searchQuery)
  {
    var filtered := SearchFilter(songs, state.searchQuery);
    var r := ApplySortOrder(filtered, state.sortOrder);
    assert forall s :: s in r <==> s in multiset(r);
    r
  }

  /** For a non-blank query the list keeps the same songs, in the same
      order, as the catalogue's `searchSongs`. A blank but non-empty query
      is where they differ: the list keeps everything, the catalogue looks
      for the blanks. */
  lemma SearchFilterMatchesCatalogSearch(songs: seq<Song>, query: string)
    requires !IsBlank(query)
    ensures SearchFilter(songs, query) == MediaStore.SearchSongs(songs, query)
  {
    FilterCongruent(songs, QueryMatcher(query), MediaStore.SongMatcher(Lower(query)));
  }

  /** The sort orders the menu produces are all ones the list knows. */
  lemma MenuOrdersAreKnown(order: string, item: MenuItem)
    ensures Press(order, item) in {AlfaAsc, AlfaDesc, FechaAsc, FechaDesc}
  {
  }

  /** `SearchButton`'s `onClick`: closing the search clears the query;
      opening it keeps whatever was typed before. */
  function SearchButton(state: ListState): (r: ListState)
    ensures r.isSearchActive == !state.isSearchActive
    ensures r.sortOrder == state.sortOrder
    ensures !r.isSearchActive ==> r.searchQuery == ""
    ensures r.isSearchActive ==> r.searchQuery == state.searchQuery
  {
    var active := !state.isSearchActive;
    if !active then state.(isSearchActive := active, searchQuery := "")
    else state.(isSearchActive := active)
  }

  /** Opening and closing the search leaves no query behind and restores
      the rest of the state. */
  lemma SearchButtonTwice(state: ListState)
    requires !state.isSearchActive
    ensures SearchButton(SearchButton(state)) == state.(searchQuery := "")
  {
  }

  /** The index passed to `onSongClick`: `songs.indexOf(song)` in the
      unsorted input. */
  function OriginalIndex(songs: seq<Song>, song: Song): (i: int)
    ensures song in songs ==> 0 <= i < |songs| && songs[i] == song
    ensures song in songs ==> forall j :: 0 <= j < i ==> songs[j] != song
    ensures song !in songs ==> i == -1
  {
    IndexOf(songs, song)
  }

  /** Every row of the list maps back to a valid index of the input that
      holds the same song, so the click always starts the queue at it. */
  lemma ClickIndexInRange(songs: seq<Song>, state: ListState, k: int)
    requires 0 <= k < |FilteredSongs(songs, state)|
    ensures var song := FilteredSongs(songs, state)[k];
            var i := OriginalIndex(songs, song);
            0 <= i < |songs| && songs[i] == song
  {
    var r := FilteredSongs(songs, state);
    assert r[k] in r;
  }
}
