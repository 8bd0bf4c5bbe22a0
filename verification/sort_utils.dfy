/** `SortUtils`: the ten catalogue sorts. Each is a stable Kotlin
    `sortedBy` / `sortedByDescending`, so each is one of the repository's
    generic helpers in `Sorting` at a fixed selector. */
module SortUtils {
  import opened Model
  import opened Orders
  import opened Sorting
  import opened Text

  function SongTitle(s: Song): string { s.title }
  function SongDateAdded(s: Song): int { s.dateAdded }
  function AlbumName(a: Album): string { a.name }
  function AlbumYear(a: Album): int { a.year }
  function ArtistName(a: Artist): string { a.name }

  /** `sortSongsByAlphaAsc`: by lowercase title, A to Z. */
  function SortSongsByAlphaAsc(songs: seq<Song>): (r: seq<Song>)
    ensures multiset(r) == multiset(songs)
    ensures forall i, j :: 0 <= i < j < |r| ==> LexLe(Lower(r[i].title), Lower(r[j].title))
    ensures SameOrderPerKey(r, songs, LowerKey(SongTitle))
  {
    SortByAlphaAsc(songs, SongTitle)
  }

  /** `sortSongsByAlphaDesc`: by lowercase title, Z to A. */
  function SortSongsByAlphaDesc(songs: seq<Song>): (r: seq<Song>)
    ensures multiset(r) == multiset(songs)
    ensures forall i, j :: 0 <= i < j < |r| ==> LexLe(Lower(r[j].title), Lower(r[i].title))
    ensures SameOrderPerKey(r, songs, LowerKey(SongTitle))
  {
    SortByAlphaDesc(songs, SongTitle)
  }

  /** `sortSongsByDateAsc`: oldest `dateAdded` first. */
  function SortSongsByDateAsc(songs: seq<Song>): (r: seq<Song>)
    ensures multiset(r) == multiset(songs)
    ensures forall i, j :: 0 <= i < j < |r| ==> r[i].dateAdded <= r[j].dateAdded
    ensures SameOrderPerKey(r, songs, SongDateAdded)
  {
    SortByDateAsc(songs, SongDateAdded)
  }

  /** `sortSongsByDateDesc`: newest `dateAdded` first. */
  function SortSongsByDateDesc(songs: seq<Song>): (r: seq<Song>)
    ensures multiset(r) == multiset(songs)
    ensures forall i, j :: 0 <= i < j < |r| ==> r[i].dateAdded >= r[j].dateAdded
    ensures SameOrderPerKey(r, songs, SongDateAdded)
  {
    SortByDateDesc(songs, SongDateAdded)
  }

  /** `sortAlbumsByAlphaAsc`: by lowercase name, A to Z. */
  function SortAlbumsByAlphaAsc(albums: seq<Album>): (r: seq<Album>)
    ensures multiset(r) == multiset(albums)
    ensures forall i, j :: 0 <= i < j < |r| ==> LexLe(Lower(r[i].name), Lower(r[j].name))
    ensures SameOrderPerKey(r, albums, LowerKey(AlbumName))
  {
    SortByAlphaAsc(albums, AlbumName)
  }

  /** `sortAlbumsByAlphaDesc`: by lowercase name, Z to A. */
  function SortAlbumsByAlphaDesc(albums: seq<Album>): (r: seq<Album>)
    ensures multiset(r) == multiset(albums)
    ensures forall i, j :: 0 <= i < j < |r| ==> LexLe(Lower(r[j].name), Lower(r[i].name))
    ensures SameOrderPerKey(r, albums, LowerKey(AlbumName))
  {
    SortByAlphaDesc(albums, AlbumName)
  }

  /** `sortAlbumsByDateAsc`: by year, earliest first. */
  function SortAlbumsByDateAsc(albums: seq<Album>): (r: seq<Album>)
    ensures multiset(r) == multiset(albums)
    ensures forall i, j :: 0 <= i < j < |r| ==> r[i].year <= r[j].year
    ensures SameOrderPerKey(r, albums, AlbumYear)
  {
    SortByDateAsc(albums, AlbumYear)
  }

  /** `sortAlbumsByDateDesc`: by year, latest first. */
  function SortAlbumsByDateDesc(albums: seq<Album>): (r: seq<Album>)
    ensures multiset(r) == multiset(albums)
    ensures forall i, j :: 0 <= i < j < |r| ==> r[i].year >= r[j].year
    ensures SameOrderPerKey(r, albums, AlbumYear)
  {
    SortByDateDesc(albums, AlbumYear)
  }

  /** `sortArtistsByAlphaAsc`: by lowercase name, A to Z. */
  function SortArtistsByAlphaAsc(artists: seq<Artist>): (r: seq<Artist>)
    ensures multiset(r) == multiset(artists)
    ensures forall i, j :: 0 <= i < j < |r| ==> LexLe(Lower(r[i].name), Lower(r[j].name))
    ensures SameOrderPerKey(r, artists, LowerKey(ArtistName))
  {
    SortByAlphaAsc(artists, ArtistName)
  }

  /** `sortArtistsByAlphaDesc`: by lowercase name, Z to A. */
  function SortArtistsByAlphaDesc(artists: seq<Artist>): (r: seq<Artist>)
    ensures multiset(r) == multiset(artists)
    ensures forall i, j :: 0 <= i < j < |r| ==> LexLe(Lower(r[j].name), Lower(r[i].name))
    ensures SameOrderPerKey(r, artists, LowerKey(ArtistName))
  {
    SortByAlphaDesc(artists, ArtistName)
  }

  /** Sorting an already sorted list by title changes nothing. */
  lemma SongsAlphaAscIdempotent(songs: seq<Song>)
    ensures SortSongsByAlphaAsc(SortSongsByAlphaAsc(songs)) == SortSongsByAlphaAsc(songs)
  {
    var once := SortSongsByAlphaAsc(songs);
    var twice := SortSongsByAlphaAsc(once);
    assert SameOrderPerKey(twice, songs, LowerKey(SongTitle)) by {
      forall k ensures WithKey(twice, LowerKey(SongTitle), k) == WithKey(songs, LowerKey(SongTitle), k) {
        assert WithKey(twice, LowerKey(SongTitle), k) == WithKey(once, LowerKey(SongTitle), k);
      }
    }
    SortByAlphaAscUnique(songs, SongTitle, twice);
  }
}
