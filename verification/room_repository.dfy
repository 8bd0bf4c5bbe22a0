/** `RoomRepository`: the app's single entry point to the three tables.
    Each table operation forwards to one DAO call; what matters is which
    call it forwards to. Its four generic sort helpers are in `Sorting`. */
module RoomRepository {
  import opened Options
  import opened Model
  import opened Seqs
  import opened Text
  import RecentDao
  import FavoriteDao
  import PlaylistDao

  // ------------------------------------------------------------- playlists

  /** `createPlaylist(name)`: a `Playlist(name = name)` stamped with the
      clock reading `now`; returns the new key. */
  function CreatePlaylist(db: PlaylistDao.PlaylistDb, name: string, now: int): (r: (PlaylistDao.PlaylistDb, int))
    ensures PlaylistDao.Valid(db) ==> PlaylistDao.GetPlaylistById(db, r.1) == None
    ensures PlaylistDao.Valid(db) ==> PlaylistDao.GetPlaylistById(r.0, r.1) == Some(Playlist(r.1, name, now))
    ensures forall q :: q != r.1 ==> PlaylistDao.GetPlaylistById(r.0, q) == PlaylistDao.GetPlaylistById(db, q)
  {
    PlaylistDao.CreatePlaylist(db, name, now)
  }

  /** `deletePlaylist(playlistId)` forwards to `deletePlaylistById`: the
      playlist goes, its entries stay. */
  function DeletePlaylist(db: PlaylistDao.PlaylistDb, playlistId: int): (r: PlaylistDao.PlaylistDb)
    ensures PlaylistDao.GetPlaylistById(r, playlistId) == None
    ensures forall p :: p in r.playlists <==> p in db.playlists && p.id != playlistId
    ensures r.entries == db.entries
    ensures GetSongsFromPlaylist(r, playlistId) == GetSongsFromPlaylist(db, playlistId)
    ensures r.nextPlaylistId == db.nextPlaylistId && r.nextEntryId == db.nextEntryId
  {
    PlaylistDao.DeletePlaylistById(db, playlistId)
  }

  /** `getAllPlaylists`: newest first. */
  function GetAllPlaylists(db: PlaylistDao.PlaylistDb): (r: seq<Playlist>)
    ensures multiset(r) == multiset(db.playlists)
    ensures forall i, j :: 0 <= i < j < |r| ==> r[i].createdAt >= r[j].createdAt
  {
    PlaylistDao.GetAllPlaylists(db)
  }

  /** `getPlaylistById`. */
  function GetPlaylistById(db: PlaylistDao.PlaylistDb, playlistId: int): (r: Option<Playlist>)
    ensures r.Some? ==> r.value in db.playlists && r.value.id == playlistId
    ensures r.None? <==> forall p :: p in db.playlists ==> p.id != playlistId
  {
    PlaylistDao.GetPlaylistById(db, playlistId)
  }

  /** `addSongToPlaylist`: inserts without asking whether the pair is
      already there. */
  function AddSongToPlaylist(db: PlaylistDao.PlaylistDb, playlistId: int, songId: int): (r: PlaylistDao.PlaylistDb)
    ensures PlaylistDao.IsSongInPlaylist(r, playlistId, songId)
    ensures |PlaylistDao.EntriesOf(r, playlistId)| == |PlaylistDao.EntriesOf(db, playlistId)| + 1
    ensures PlaylistDao.EntriesOf(r, playlistId)
         == PlaylistDao.EntriesOf(db, playlistId) + [PlaylistSong(db.nextEntryId, playlistId, songId)]
    ensures forall q :: q != playlistId ==> PlaylistDao.EntriesOf(r, q) == PlaylistDao.EntriesOf(db, q)
    ensures r.playlists == db.playlists
  {
    var r := PlaylistDao.AddSongToPlaylist(db, playlistId, songId);
    var e := PlaylistSong(db.nextEntryId, playlistId, songId);
    assert e in PlaylistDao.EntriesOf(r, playlistId);
    r
  }

  /** Through the repository a song already in a playlist is stored again,
      and then listed twice. */
  lemma AddSongToPlaylistDuplicates(db: PlaylistDao.PlaylistDb, playlistId: int, songId: int)
    requires PlaylistDao.IsSongInPlaylist(db, playlistId, songId)
    ensures Count(GetSongsFromPlaylist(AddSongToPlaylist(db, playlistId, songId), playlistId), songId) >= 2
  {
    PlaylistDao.AddTwiceListsTwice(db, playlistId, songId);
  }

  /** `removeSongFromPlaylist`. */
  function RemoveSongFromPlaylist(db: PlaylistDao.PlaylistDb, playlistId: int, songId: int): (r: PlaylistDao.PlaylistDb)
    ensures !PlaylistDao.IsSongInPlaylist(r, playlistId, songId)
    ensures forall x :: x != songId ==>
      (PlaylistDao.IsSongInPlaylist(r, playlistId, x) <==> PlaylistDao.IsSongInPlaylist(db, playlistId, x))
    ensures PlaylistDao.EntriesOf(r, playlistId)
         == Filter(PlaylistDao.EntriesOf(db, playlistId), PlaylistDao.NotSong(songId))
    ensures forall q :: q != playlistId ==> PlaylistDao.EntriesOf(r, q) == PlaylistDao.EntriesOf(db, q)
    ensures r.playlists == db.playlists
  {
    var r := PlaylistDao.RemoveSongFromPlaylist(db, playlistId, songId);
    forall x | x != songId
      ensures PlaylistDao.IsSongInPlaylist(r, playlistId, x) <==> PlaylistDao.IsSongInPlaylist(db, playlistId, x)
    {
      if PlaylistDao.IsSongInPlaylist(db, playlistId, x) {
        var e :| e in db.entries && e.playlistId == playlistId && e.songId == x;
        assert PlaylistDao.NotPair(playlistId, songId)(e);
        assert e in r.entries;
      }
    }
    r
  }

  /** `getSongsFromPlaylist` forwards to `getSongIdsFromPlaylist`. */
  function GetSongsFromPlaylist(db: PlaylistDao.PlaylistDb, playlistId: int): (ids: seq<int>)
    ensures |ids| == |PlaylistDao.EntriesOf(db, playlistId)|
    ensures forall x :: x in ids <==> PlaylistDao.IsSongInPlaylist(db, playlistId, x)
    ensures forall x :: Count(ids, x) == |Filter(PlaylistDao.EntriesOf(db, playlistId), PlaylistDao.IsSong(x))|
  {
    PlaylistDao.GetSongIdsFromPlaylist(db, playlistId)
  }

  /** `clearPlaylist`. */
  function ClearPlaylist(db: PlaylistDao.PlaylistDb, playlistId: int): (r: PlaylistDao.PlaylistDb)
    ensures GetSongsFromPlaylist(r, playlistId) == []
    ensures forall q :: q != playlistId ==> GetSongsFromPlaylist(r, q) == GetSongsFromPlaylist(db, q)
  {
    PlaylistDao.ClearPlaylist(db, playlistId)
  }

  // ------------------------------------------------------------- favourites

  /** `toggleFavorite` forwards to the DAO's checked toggle. */
  function ToggleFavorite(t: FavoriteDao.FavoriteTable, songId: int): (r: FavoriteDao.FavoriteTable)
    ensures IsFavorite(r, songId) == !IsFavorite(t, songId)
    ensures forall x :: x != songId ==> IsFavorite(r, x) == IsFavorite(t, x)
    ensures FavoriteDao.OneRowPerSong(t) ==> FavoriteDao.OneRowPerSong(r)
  {
    var r := FavoriteDao.ToggleFavorite(t, songId);
    SameRowsSameFavorite(t, r, songId);
    r
  }

  lemma SameRowsSameFavorite(t: FavoriteDao.FavoriteTable, r: FavoriteDao.FavoriteTable, songId: int)
    requires forall x :: x != songId ==> FavoriteDao.RowsOf(r, x) == FavoriteDao.RowsOf(t, x)
    ensures forall x :: x != songId ==> IsFavorite(r, x) == IsFavorite(t, x)
  {
  }

  /** `addFavorite`: the song is a favourite afterwards, even if it was
      already one (then it is stored twice). */
  function AddFavorite(t: FavoriteDao.FavoriteTable, songId: int): (r: FavoriteDao.FavoriteTable)
    ensures IsFavorite(r, songId)
    ensures |FavoriteDao.RowsOf(r, songId)| == |FavoriteDao.RowsOf(t, songId)| + 1
    ensures FavoriteDao.RowsOf(r, songId) == FavoriteDao.RowsOf(t, songId) + [FavoriteSong(t.nextId, songId)]
    ensures forall x :: x != songId ==> FavoriteDao.RowsOf(r, x) == FavoriteDao.RowsOf(t, x)
  {
    var r := FavoriteDao.AddFavorite(t, songId);
    assert FavoriteSong(t.nextId, songId) in FavoriteDao.RowsOf(r, songId);
    r
  }

  /** `removeFavorite`. */
  function RemoveFavorite(t: FavoriteDao.FavoriteTable, songId: int): (r: FavoriteDao.FavoriteTable)
    ensures !IsFavorite(r, songId)
    ensures forall x :: x != songId ==> IsFavorite(r, x) == IsFavorite(t, x)
  {
    var r := FavoriteDao.RemoveFavorite(t, songId);
    SameRowsSameFavorite(t, r, songId);
    r
  }

  /** `getAllFavorites`. */
  function GetAllFavorites(t: FavoriteDao.FavoriteTable): (r: seq<FavoriteSong>)
    ensures multiset(r) == multiset(t.rows)
  {
    FavoriteDao.GetAllFavorites(t)
  }

  /** `getFavoriteSongIds`. */
  function GetFavoriteSongIds(t: FavoriteDao.FavoriteTable): (ids: seq<int>)
    ensures |ids| == |t.rows|
    ensures forall x :: x in ids <==> IsFavorite(t, x)
    ensures forall x :: Count(ids, x) == |FavoriteDao.RowsOf(t, x)|
  {
    FavoriteDao.GetFavoriteSongIds(t)
  }

  /** `isFavorite`. */
  function IsFavorite(t: FavoriteDao.FavoriteTable, songId: int): (b: bool)
    ensures b <==> exists r :: r in t.rows && r.songId == songId
  {
    FavoriteDao.IsFavorite(t, songId)
  }

  // ---------------------------------------------------------------- recents

  /** `addRecentSong` forwards to the upsert `updateRecentSong`, not to the
      DAO's plain insert: the song ends with exactly one row, stamped `now`. */
  function AddRecentSong(t: RecentDao.RecentTable, songId: int, now: int): (r: RecentDao.RecentTable)
    ensures |RecentDao.RowsOf(r, songId)| == 1
    ensures RecentDao.RowsOf(r, songId)[0].playedAt == now
    ensures forall x :: x != songId ==> RecentDao.RowsOf(r, x) == RecentDao.RowsOf(t, x)
    ensures RecentDao.OneRowPerSong(t) ==> RecentDao.OneRowPerSong(r)
  {
    RecentDao.UpdateRecentSong(t, songId, now)
  }

  /** `getAllRecentSongs`: most recent first. */
  function GetAllRecentSongs(t: RecentDao.RecentTable): (r: seq<RecentSong>)
    ensures multiset(r) == multiset(t.rows)
    ensures forall i, j :: 0 <= i < j < |r| ==> r[i].playedAt >= r[j].playedAt
  {
    RecentDao.GetAllRecentSongs(t)
  }

  /** `getRecentSongIds`. */
  function GetRecentSongIds(t: RecentDao.RecentTable): (ids: seq<int>)
    ensures |ids| == |t.rows|
    ensures forall x :: x in ids <==> exists r :: r in t.rows && r.songId == x
    ensures forall x :: Count(ids, x) == |RecentDao.RowsOf(t, x)|
    ensures exists p: seq<RecentSong> ::
      && multiset(p) == multiset(t.rows) && |p| == |ids|
      && (forall i, j :: 0 <= i < j < |p| ==> p[i].playedAt >= p[j].playedAt)
      && (forall k :: 0 <= k < |p| ==> ids[k] == p[k].songId)
  {
    RecentDao.GetRecentSongIds(t)
  }

  /** `getAllRecentSongsAsc`: oldest first. */
  function GetAllRecentSongsAsc(t: RecentDao.RecentTable): (r: seq<RecentSong>)
    ensures multiset(r) == multiset(t.rows)
    ensures forall i, j :: 0 <= i < j < |r| ==> r[i].playedAt <= r[j].playedAt
  {
    RecentDao.GetAllRecentSongsAsc(t)
  }

  /** `removeRecentSong`. */
  function RemoveRecentSong(t: RecentDao.RecentTable, songId: int): (r: RecentDao.RecentTable)
    ensures RecentDao.RowsOf(r, songId) == []
    ensures forall x :: x != songId ==> RecentDao.RowsOf(r, x) == RecentDao.RowsOf(t, x)
  {
    RecentDao.RemoveRecentSong(t, songId)
  }

  /** `clearAllRecent`. */
  function ClearAllRecent(t: RecentDao.RecentTable): (r: RecentDao.RecentTable)
    ensures r.rows == []
  {
    RecentDao.ClearAllRecent(t)
  }
}
