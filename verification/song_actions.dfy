/** The two list actions the album and playlist screens both attach to
    their song list: the click guard before `playQueue`, and the favourite
    toggle decided from the screen's snapshot of favourite ids. */
module SongActions {
  import opened Options
  import opened Model
  import FavoriteDao
  import SongsList
  import MusicPlayer

  /** `currentSong?.id`. */
  function CurrentId(current: Option<Song>): Option<int> {
    if current.Some? then Some(current.value.id) else None
  }

  /** The arguments of the `playQueue` call a click makes, if it makes one:
      clicking the song that is already current does nothing. */
  function PlayOnClick(currentSongId: Option<int>, songs: seq<Song>, song: Song, index: int): (r: Option<(seq<Song>, int)>)
    ensures r.None? <==> currentSongId == Some(song.id)
    ensures r.Some? ==> r.value == (songs, index)
  {
    if currentSongId == Some(song.id) then None else Some((songs, index))
  }

  /** The favourite action: remove when the snapshot lists the song, add
      otherwise. The table itself is not consulted. */
  function ToggleBySnapshot(t: FavoriteDao.FavoriteTable, favoriteIds: set<int>, songId: int): (r: FavoriteDao.FavoriteTable)
    ensures songId in favoriteIds ==> !FavoriteDao.IsFavorite(r, songId)
    ensures songId !in favoriteIds ==> FavoriteDao.IsFavorite(r, songId)
    ensures songId !in favoriteIds ==>
      |FavoriteDao.RowsOf(r, songId)| == |FavoriteDao.RowsOf(t, songId)| + 1
    ensures forall x :: x != songId ==> FavoriteDao.RowsOf(r, x) == FavoriteDao.RowsOf(t, x)
  {
    if songId in favoriteIds then
      var r := FavoriteDao.RemoveFavorite(t, songId);
      assert forall x :: x in FavoriteDao.RowsOf(r, songId) <==> x in r.rows && x.songId == songId;
      r
    else
      var r := FavoriteDao.AddFavorite(t, songId);
      assert FavoriteSong(t.nextId, songId) in FavoriteDao.RowsOf(r, songId);
      r
  }

  /** With an up-to-date snapshot the action is the DAO's toggle. */
  lemma ToggleBySnapshotIsToggle(t: FavoriteDao.FavoriteTable, favoriteIds: set<int>, songId: int)
    requires songId in favoriteIds <==> FavoriteDao.IsFavorite(t, songId)
    ensures ToggleBySnapshot(t, favoriteIds, songId) == FavoriteDao.ToggleFavorite(t, songId)
  {
  }

  /** With a stale snapshot that misses a favourite, the action stores the
      song a second time. */
  lemma StaleSnapshotDuplicates(t: FavoriteDao.FavoriteTable, favoriteIds: set<int>, songId: int)
    requires songId !in favoriteIds && FavoriteDao.IsFavorite(t, songId)
    ensures |FavoriteDao.RowsOf(ToggleBySnapshot(t, favoriteIds, songId), songId)| >= 2
  {
    var rows := FavoriteDao.RowsOf(t, songId);
    var w :| w in t.rows && w.songId == songId;
    assert w in rows;
  }

  /** A click on row `k` of the list starts the queue at the clicked song:
      the index `indexOf` gives is one `playQueue` accepts, and the player's
      new current song carries the clicked song's id. */
  lemma ClickPlaysClickedSong(st: MusicPlayer.PlayerState, controller: Option<MusicPlayer.ControllerView>,
                              songs: seq<Song>, state: SongsList.ListState, k: int, found: Option<Bitmap>)
    requires 0 <= k < |SongsList.FilteredSongs(songs, state)|
    ensures var song := SongsList.FilteredSongs(songs, state)[k];
            var i := SongsList.OriginalIndex(songs, song);
            && 0 <= i < |songs|
            && (PlayOnClick(CurrentId(st.current), songs, song, i).Some? ==>
                  MusicPlayer.PlayQueue(st, controller, songs, i, found).state.current == Some(MusicPlayer.LoadArtwork(song, found)))
  {
    SongsList.ClickIndexInRange(songs, state, k);
  }
}
