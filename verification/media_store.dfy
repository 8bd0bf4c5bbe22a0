/** `MediaStoreRepository` after the cursor has been read: turning rows into
    records (with default names for null columns), grouping songs by folder,
    and the catalogue filters and searches. The rows themselves are an
    input; the content resolver is not modelled. */
module MediaStore {
  import opened Options
  import opened Model
  import opened Seqs
  import opened Text

  const UnknownTitle: string := "Unknown"
  const UnknownArtist: string := "Unknown Artist"
  const UnknownAlbum: string := "Unknown Album"

  /** One row of the audio query. Text columns may be null; `folderPath`
      is the parent directory of the file, already computed. */
  datatype SongRow = SongRow(
    id: int,
    title: Option<string>,
    artist: Option<string>,
    album: Option<string>,
    albumId: int,
    artistId: int,
    duration: int,
    dateAdded: int,
    folderPath: string)

  datatype AlbumRow = AlbumRow(id: int, name: Option<string>, artist: Option<string>, songCount: int, year: int)

  datatype ArtistRow = ArtistRow(id: int, name: Option<string>, albumCount: int, trackCount: int)

  /** `ContentUris.withAppendedId(EXTERNAL_CONTENT_URI, id)`: one locator per id. */
  function ContentUri(id: int): Uri {
    Uri(id)
  }

  // ------------------------------------------------------------ row reading

  /** The `Song` built for one audio row: null text becomes the default
      name, a present value is kept, and no artwork is loaded yet. */
  function SongOfRow(row: SongRow): (s: Song)
    ensures s.id == row.id && s.uri == ContentUri(row.id) && s.artwork == None
    ensures row.title.Some? ==> s.title == row.title.value
    ensures row.title.None? ==> s.title == UnknownTitle
    ensures row.artist.Some? ==> s.artist == row.artist.value
    ensures row.artist.None? ==> s.artist == UnknownArtist
    ensures row.album.Some? ==> s.album == row.album.value
    ensures row.album.None? ==> s.album == UnknownAlbum
    ensures s.albumId == row.albumId && s.artistId == row.artistId && s.duration == row.duration
    ensures s.dateAdded == row.dateAdded && s.folderPath == row.folderPath
  {
    Song(row.id, row.title.GetOr(UnknownTitle), row.artist.GetOr(UnknownArtist),
         row.album.GetOr(UnknownAlbum), row.albumId, row.artistId, row.duration,
         ContentUri(row.id), row.dateAdded, row.folderPath, None)
  }

  /** `getAlbums`, per row: null name and artist become the defaults. */
  function AlbumOfRow(row: AlbumRow): (a: Album)
    ensures a.id == row.id && a.songCount == row.songCount && a.year == row.year
    ensures row.name.Some? ==> a.name == row.name.value
    ensures row.name.None? ==> a.name == UnknownAlbum
    ensures row.artist.Some? ==> a.artist == row.artist.value
    ensures row.artist.None? ==> a.artist == UnknownArtist
  {
    Album(row.id, row.name.GetOr(UnknownAlbum), row.artist.GetOr(UnknownArtist), row.songCount, row.year)
  }

  /** `getArtists`, per row: a null name becomes the default. */
  function ArtistOfRow(row: ArtistRow): (a: Artist)
    ensures a.id == row.id && a.albumCount == row.albumCount && a.trackCount == row.trackCount
    ensures row.name.Some? ==> a.name == row.name.value
    ensures row.name.None? ==> a.name == UnknownArtist
  {
    Artist(row.id, row.name.GetOr(UnknownArtist), row.albumCount, row.trackCount)
  }

  /** `getAllSongs`: one song per row, in cursor order. */
  function GetAllSongs(rows: seq<SongRow>): (songs: seq<Song>)
    ensures |songs| == |rows|
    ensures forall i :: 0 <= i < |rows| ==> songs[i] == SongOfRow(rows[i])
  {
    Map(rows, SongOfRow)
  }

  // ---------------------------------------------------------------- folders

  /** The index of the last '/' among the first `n` characters, or -1. */
  function LastSlashBelow(path: string, n: nat): (i: int)
    requires n <= |path|
    ensures -1 <= i < n
    ensures i >= 0 ==> path[i] == '/'
    ensures forall j :: i < j < n ==> path[j] != '/'
  {
    if n == 0 then -1
    else if path[n - 1] == '/' then n - 1
    else LastSlashBelow(path, n - 1)
  }

  /** `File(path).name`: the text after the last '/', or the whole path
      when it has none. `File.name` would drop a trailing '/' first, where
      this gives ""; the paths passed here come from `File.parent`, which
      never ends in '/' except for the root "/", where both give the empty
      name, so the two agree on every path that reaches it. */
  function FileName(path: string): (r: string)
    ensures |r| <= |path| && r == path[|path| - |r|..]
    ensures '/' !in r
    ensures |r| < |path| ==> path[|path| - |r| - 1] == '/'
  {
    path[LastSlashBelow(path, |path|) + 1..]
  }

  function FolderPathOf(s: Song): string { s.folderPath }

  /** The folder path of every song, in catalogue order. */
  function Paths(songs: seq<Song>): seq<string> {
    Map(songs, FolderPathOf)
  }

  /** An entry of `getFolders`' `LinkedHashMap`: a path and its count. */
  datatype PathCount = PathCount(path: string, count: int)

  function FolderPath(f: Folder): string { f.path }
  function EntryPath(e: PathCount): string { e.path }
  function EntryCount(e: PathCount): int { e.count }
  function FolderCount(f: Folder): int { f.count }

  function HasPath(path: string): PathCount -> bool {
    (e: PathCount) => e.path == path
  }

  /** Each entry counts its path's occurrences. */
  ghost predicate CountsOccurrences(entries: seq<PathCount>, ps: seq<string>) {
    forall a :: 0 <= a < |entries| ==> entries[a].count == Count(ps, entries[a].path)
  }

  /** `entries` is the `LinkedHashMap` of `getFolders` after it has seen the
      paths `ps`: its keys are the distinct paths in first-occurrence
      order, each counting its path's occurrences, and the counts add up
      to the number of paths seen. */
  ghost predicate Summarises(entries: seq<PathCount>, ps: seq<string>) {
    && Map(entries, EntryPath) == Distinct(ps)
    && CountsOccurrences(entries, ps)
    && SumOf(entries, EntryCount) == |ps|
  }

  /** One step of the grouping loop: `folderMap[path] = (folderMap[path] ?: 0) + 1`.
      A new key goes to the end of the map; an existing key keeps its place. */
  function CountPath(entries: seq<PathCount>, path: string): seq<PathCount> {
    var k := IndexWhere(entries, HasPath(path));
    if k == -1 then entries + [PathCount(path, 1)]
    else entries[k := entries[k].(count := entries[k].count + 1)]
  }

  /** `Distinct` after one more element. */
  lemma DistinctAppend(ps: seq<string>, path: string)
    ensures Distinct(ps + [path]) == if path in ps then Distinct(ps) else Distinct(ps) + [path]
  {
    assert (ps + [path])[..|ps|] == ps;
  }

  lemma NewPathCounts(entries: seq<PathCount>, ps: seq<string>, path: string)
    requires CountsOccurrences(entries, ps)
    requires path !in ps
    requires forall a :: 0 <= a < |entries| ==> entries[a].path != path
    ensures CountsOccurrences(entries + [PathCount(path, 1)], ps + [path])
  {
    var r := entries + [PathCount(path, 1)];
    var ps' := ps + [path];
    assert multiset(ps') == multiset(ps) + multiset{path};
    forall a | 0 <= a < |r| ensures r[a].count == Count(ps', r[a].path) {
      if a < |entries| {
        assert r[a] == entries[a];
      }
    }
  }

  lemma CountNewPath(entries: seq<PathCount>, ps: seq<string>, path: string)
    requires Summarises(entries, ps)
    requires IndexWhere(entries, HasPath(path)) == -1
    ensures Summarises(CountPath(entries, path), ps + [path])
  {
    var e := PathCount(path, 1);
    var keys := Map(entries, EntryPath);
    assert CountPath(entries, path) == entries + [e];
    forall a | 0 <= a < |entries| ensures entries[a].path != path {
      assert !HasPath(path)(entries[a]);
    }
    assert path !in keys by {
      forall a | 0 <= a < |keys| ensures keys[a] != path {
        assert !HasPath(path)(entries[a]);
      }
    }
    DistinctAppend(ps, path);
    assert Map(entries + [e], EntryPath) == keys + [path];
    NewPathCounts(entries, ps, path);
    SumOfAppend(entries, e, EntryCount);
  }

  lemma KnownPathCounts(entries: seq<PathCount>, ps: seq<string>, k: int)
    requires 0 <= k < |entries|
    requires CountsOccurrences(entries, ps)
    requires forall a :: 0 <= a < |entries| && a != k ==> entries[a].path != entries[k].path
    ensures CountsOccurrences(entries[k := entries[k].(count := entries[k].count + 1)], ps + [entries[k].path])
  {
    var path := entries[k].path;
    var r := entries[k := entries[k].(count := entries[k].count + 1)];
    var ps' := ps + [path];
    assert multiset(ps') == multiset(ps) + multiset{path};
    forall a | 0 <= a < |r| ensures r[a].count == Count(ps', r[a].path) {
      if a != k {
        assert r[a] == entries[a];
      }
    }
  }

  lemma CountKnownPath(entries: seq<PathCount>, ps: seq<string>, path: string)
    requires Summarises(entries, ps)
    requires IndexWhere(entries, HasPath(path)) != -1
    ensures Summarises(CountPath(entries, path), ps + [path])
  {
    var k := IndexWhere(entries, HasPath(path));
    var e := entries[k].(count := entries[k].count + 1);
    var r := entries[k := e];
    var keys := Map(entries, EntryPath);
    assert CountPath(entries, path) == r;
    assert keys[k] == path;
    DistinctAppend(ps, path);
    assert Map(r, EntryPath) == keys;
    forall a | 0 <= a < |entries| && a != k ensures entries[a].path != path {
      assert keys[a] == entries[a].path;
    }
    KnownPathCounts(entries, ps, k);
    SumOfUpdate(entries, k, e, EntryCount);
  }

  lemma CountStep(entries: seq<PathCount>, ps: seq<string>, i: int)
    requires 0 <= i < |ps|
    requires Summarises(entries, ps[..i])
    ensures Summarises(CountPath(entries, ps[i]), ps[..i + 1])
  {
    assert ps[..i + 1] == ps[..i] + [ps[i]];
    if IndexWhere(entries, HasPath(ps[i])) == -1 {
      CountNewPath(entries, ps[..i], ps[i]);
    } else {
      CountKnownPath(entries, ps[..i], ps[i]);
    }
  }

  /** `File(path).name` paired with the entry, as the final `map` does. */
  function ToFolder(e: PathCount): Folder {
    Folder(e.path, FileName(e.path), e.count)
  }

  /** The grouping loop of `getFolders` over the paths `ps`. */
  method CountPaths(ps: seq<string>) returns (entries: seq<PathCount>)
    ensures Summarises(entries, ps)
  {
    entries := [];
    var i := 0;
    while i < |ps|
      invariant 0 <= i <= |ps|
      invariant Summarises(entries, ps[..i])
    {
      CountStep(entries, ps, i);
      entries := CountPath(entries, ps[i]);
      i := i + 1;
    }
    assert ps[..i] == ps;
  }

  /** `getFolders`: counts the songs per folder path in a `LinkedHashMap`,
      then names each folder after the path's last segment. The folders
      are the distinct paths in first-occurrence order (`Seqs.Distinct`). */
  method GetFolders(songs: seq<Song>) returns (folders: seq<Folder>)
    ensures Map(folders, FolderPath) == Distinct(Paths(songs))
    ensures forall i :: 0 <= i < |folders| ==> folders[i].count == Count(Paths(songs), folders[i].path)
    ensures forall i :: 0 <= i < |folders| ==> folders[i].name == FileName(folders[i].path)
    ensures SumOf(folders, FolderCount) == |songs|
  {
    var entries := CountPaths(Paths(songs));
    folders := Map(entries, ToFolder);
    assert Map(folders, FolderPath) == Map(entries, EntryPath);
    SumOfPointwise(folders, entries, FolderCount, EntryCount);
  }

  // --------------------------------------------------------------- filters

  function AlbumIs(albumId: int): Song -> bool {
    (s: Song) => s.albumId == albumId
  }

  function ArtistIs(artistId: int): Song -> bool {
    (s: Song) => s.artistId == artistId
  }

  function FolderIs(path: string): Song -> bool {
    (s: Song) => s.folderPath == path
  }

  /** `getSongsByAlbum`. */
  function GetSongsByAlbum(songs: seq<Song>, albumId: int): (r: seq<Song>)
    ensures forall s :: s in r <==> s in songs && s.albumId == albumId
    ensures forall s: Song :: s.albumId == albumId ==> Count(r, s) == Count(songs, s)
  {
    var r := Filter(songs, AlbumIs(albumId));
    forall s: Song | s.albumId == albumId ensures Count(r, s) == Count(songs, s) {
      FilterMultiplicity(songs, AlbumIs(albumId), s);
    }
    r
  }

  /** `getSongsByArtist`. */
  function GetSongsByArtist(songs: seq<Song>, artistId: int): (r: seq<Song>)
    ensures forall s :: s in r <==> s in songs && s.artistId == artistId
    ensures forall s: Song :: s.artistId == artistId ==> Count(r, s) == Count(songs, s)
  {
    var r := Filter(songs, ArtistIs(artistId));
    forall s: Song | s.artistId == artistId ensures Count(r, s) == Count(songs, s) {
      FilterMultiplicity(songs, ArtistIs(artistId), s);
    }
    r
  }

  /** `getSongsByFolder`. */
  function GetSongsByFolder(songs: seq<Song>, path: string): (r: seq<Song>)
    ensures forall s :: s in r <==> s in songs && s.folderPath == path
    ensures forall s: Song :: s.folderPath == path ==> Count(r, s) == Count(songs, s)
  {
    var r := Filter(songs, FolderIs(path));
    forall s: Song | s.folderPath == path ensures Count(r, s) == Count(songs, s) {
      FilterMultiplicity(songs, FolderIs(path), s);
    }
    r
  }

  /** The three filters keep catalogue order: filtering a catalogue made of
      two parts filters each part and keeps them in sequence. */
  lemma FiltersKeepCatalogOrder(a: seq<Song>, b: seq<Song>, albumId: int, artistId: int, path: string)
    ensures GetSongsByAlbum(a + b, albumId) == GetSongsByAlbum(a, albumId) + GetSongsByAlbum(b, albumId)
    ensures GetSongsByArtist(a + b, artistId) == GetSongsByArtist(a, artistId) + GetSongsByArtist(b, artistId)
    ensures GetSongsByFolder(a + b, path) == GetSongsByFolder(a, path) + GetSongsByFolder(b, path)
  {
    FilterConcat(a, b, AlbumIs(albumId));
    FilterConcat(a, b, ArtistIs(artistId));
    FilterConcat(a, b, FolderIs(path));
  }

  /** The folder grouping and the folder filter agree: a folder's count is
      the number of songs `getSongsByFolder` returns for it. */
  lemma {:induction false} FolderCountMatchesFilter(songs: seq<Song>, path: string)
    ensures |GetSongsByFolder(songs, path)| == Count(Paths(songs), path)
    decreases |songs|
  {
    FolderFilterLength(songs, path);
  }

  lemma {:induction false} FolderFilterLength(songs: seq<Song>, path: string)
    ensures |Filter(songs, FolderIs(path))| == multiset(Paths(songs))[path]
    decreases |songs|
  {
    if |songs| > 0 {
      FolderFilterLength(songs[1..], path);
      assert Paths(songs) == [songs[0].folderPath] + Paths(songs[1..]);
      assert multiset(Paths(songs)) == multiset{songs[0].folderPath} + multiset(Paths(songs[1..]));
    }
  }

  // ---------------------------------------------------------------- search

  /** `searchSongs`' test: the lowercased query inside the lowercased
      title, artist or album. */
  predicate SongMatches(s: Song, lowerQuery: string) {
    Contains(Lower(s.title), lowerQuery) || Contains(Lower(s.artist), lowerQuery) || Contains(Lower(s.album), lowerQuery)
  }

  function SongMatcher(lowerQuery: string): Song -> bool {
    (s: Song) => SongMatches(s, lowerQuery)
  }

  /** `searchSongs`. */
  function SearchSongs(songs: seq<Song>, query: string): (r: seq<Song>)
    ensures forall s :: s in r <==> (s in songs &&
      (ContainsIgnoreCase(s.title, query) || ContainsIgnoreCase(s.artist, query) || ContainsIgnoreCase(s.album, query)))
    ensures forall i :: 0 <= i < |r| ==> SongMatches(r[i], Lower(query))
    ensures forall s :: SongMatches(s, Lower(query)) ==> Count(r, s) == Count(songs, s)
  {
    FilterKeepsCopies(songs, SongMatcher(Lower(query)));
    Filter(songs, SongMatcher(Lower(query)))
  }

  /** An empty query keeps the whole catalogue, in order. */
  lemma SearchSongsEmptyKeepsAll(songs: seq<Song>)
    ensures SearchSongs(songs, "") == songs
  {
    forall i | 0 <= i < |songs| ensures SongMatcher(Lower(""))(songs[i]) {
      ContainsEmpty(Lower(songs[i].title));
    }
    FilterAll(songs, SongMatcher(Lower("")));
  }

  function AlbumMatcher(lowerQuery: string): Album -> bool {
    (a: Album) => Contains(Lower(a.name), lowerQuery) || Contains(Lower(a.artist), lowerQuery)
  }

  /** `searchAlbums`: name or artist. */
  function SearchAlbums(albums: seq<Album>, query: string): (r: seq<Album>)
    ensures forall a :: a in r <==> (a in albums &&
      (ContainsIgnoreCase(a.name, query) || ContainsIgnoreCase(a.artist, query)))
    ensures forall a: Album :: ContainsIgnoreCase(a.name, query) || ContainsIgnoreCase(a.artist, query) ==>
      Count(r, a) == Count(albums, a)
  {
    FilterKeepsCopies(albums, AlbumMatcher(Lower(query)));
    Filter(albums, AlbumMatcher(Lower(query)))
  }

  function ArtistMatcher(lowerQuery: string): Artist -> bool {
    (a: Artist) => Contains(Lower(a.name), lowerQuery)
  }

  /** `searchArtists`: name only. */
  function SearchArtists(artists: seq<Artist>, query: string): (r: seq<Artist>)
    ensures forall a :: a in r <==> a in artists && ContainsIgnoreCase(a.name, query)
    ensures forall a: Artist :: ContainsIgnoreCase(a.name, query) ==> Count(r, a) == Count(artists, a)
  {
    FilterKeepsCopies(artists, ArtistMatcher(Lower(query)));
    Filter(artists, ArtistMatcher(Lower(query)))
  }

  /** The searches keep input order. */
  lemma SearchesKeepOrder(a: seq<Song>, b: seq<Song>, al: seq<Album>, bl: seq<Album>,
                          ar: seq<Artist>, br: seq<Artist>, query: string)
    ensures SearchSongs(a + b, query) == SearchSongs(a, query) + SearchSongs(b, query)
    ensures SearchAlbums(al + bl, query) == SearchAlbums(al, query) + SearchAlbums(bl, query)
    ensures SearchArtists(ar + br, query) == SearchArtists(ar, query) + SearchArtists(br, query)
  {
    FilterConcat(a, b, SongMatcher(Lower(query)));
    FilterConcat(al, bl, AlbumMatcher(Lower(query)));
    FilterConcat(ar, br, ArtistMatcher(Lower(query)));
  }
}
