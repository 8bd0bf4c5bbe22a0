/** `FavoriteDao`: the `favorite_songs` table. The key is auto-generated and
    there is no unique index on `songId`, so `addFavorite`'s IGNORE strategy
    never meets a conflict: adding a song twice stores it twice. Only
    `toggleFavorite`, which checks first, keeps one row per song. */
module FavoriteDao {
  import opened Model
  import opened Seqs

  /** The rows in insertion order, and the next key AUTOINCREMENT hands out. */
  datatype FavoriteTable = FavoriteTable(rows: seq<FavoriteSong>, nextId: int)

  function IdBefore(): (FavoriteSong, FavoriteSong) -> bool {
    (a: FavoriteSong, b: FavoriteSong) => a.id < b.id
  }

  function SongsDiffer(): (FavoriteSong, FavoriteSong) -> bool {
    (a: FavoriteSong, b: FavoriteSong) => a.songId != b.songId
  }

  /** Keys increase along the rows and stay below the counter. */
  ghost predicate Valid(t: FavoriteTable) {
    && Ordered(t.rows, IdBefore())
    && (forall r :: r in t.rows ==> r.id < t.nextId)
  }

  /** No song is stored twice. */
  ghost predicate OneRowPerSong(t: FavoriteTable) {
    Ordered(t.rows, SongsDiffer())
  }

  function IsSong(songId: int): FavoriteSong -> bool {
    (r: FavoriteSong) => r.songId == songId
  }

  function NotSong(songId: int): FavoriteSong -> bool {
    (r: FavoriteSong) => r.songId != songId
  }

  /** The rows stored for `songId`, in insertion order. */
  function RowsOf(t: FavoriteTable, songId: int): seq<FavoriteSong> {
    Filter(t.rows, IsSong(songId))
  }

  /** `isFavorite`: `SELECT EXISTS(... WHERE songId = :songId)`. */
  function IsFavorite(t: FavoriteTable, songId: int): (b: bool)
    ensures b <==> exists r :: r in t.rows && r.songId == songId
  {
    var rows := RowsOf(t, songId);
    assert forall r :: r in rows <==> r in t.rows && r.songId == songId;
    assert |rows| > 0 ==> rows[0] in rows;
    |rows| > 0
  }

  /** `addFavorite`: always inserts a row under a fresh key. */
  function AddFavorite(t: FavoriteTable, songId: int): (r: FavoriteTable)
    ensures RowsOf(r, songId) == RowsOf(t, songId) + [FavoriteSong(t.nextId, songId)]
    ensures forall x :: x != songId ==> RowsOf(r, x) == RowsOf(t, x)
    ensures Valid(t) ==> Valid(r)
  {
    var row := FavoriteSong(t.nextId, songId);
    FilterConcat(t.rows, [row], IsSong(songId));
    AppendOthers(t.rows, row);
    FavoriteTable(t.rows + [row], t.nextId + 1)
  }

  lemma AppendOthers(rows: seq<FavoriteSong>, row: FavoriteSong)
    ensures forall x :: x != row.songId ==> Filter(rows + [row], IsSong(x)) == Filter(rows, IsSong(x))
  {
    forall x | x != row.songId ensures Filter(rows + [row], IsSong(x)) == Filter(rows, IsSong(x)) {
      FilterConcat(rows, [row], IsSong(x));
    }
  }

  /** `removeFavorite`: `DELETE FROM favorite_songs WHERE songId = :songId`. */
  function RemoveFavorite(t: FavoriteTable, songId: int): (r: FavoriteTable)
    ensures RowsOf(r, songId) == []
    ensures forall x :: x != songId ==> RowsOf(r, x) == RowsOf(t, x)
    ensures r.nextId == t.nextId
    ensures Valid(t) ==> Valid(r)
    ensures OneRowPerSong(t) ==> OneRowPerSong(r)
  {
    FilterRemoves(t.rows, songId);
    FavoriteTable(Filter(t.rows, NotSong(songId)), t.nextId)
  }

  lemma FilterRemoves(rows: seq<FavoriteSong>, songId: int)
    ensures Filter(Filter(rows, NotSong(songId)), IsSong(songId)) == []
    ensures forall x :: x != songId ==>
      Filter(Filter(rows, NotSong(songId)), IsSong(x)) == Filter(rows, IsSong(x))
    ensures Ordered(rows, IdBefore()) ==> Ordered(Filter(rows, NotSong(songId)), IdBefore())
    ensures Ordered(rows, SongsDiffer()) ==> Ordered(Filter(rows, NotSong(songId)), SongsDiffer())
  {
    var kept := Filter(rows, NotSong(songId));
    FilterNone(kept, IsSong(songId));
    forall x | x != songId
      ensures Filter(kept, IsSong(x)) == Filter(rows, IsSong(x))
    {
      FilterFilter(rows, NotSong(songId), IsSong(x));
    }
    if Ordered(rows, IdBefore()) {
      FilterKeepsOrder(rows, NotSong(songId), IdBefore());
    }
    if Ordered(rows, SongsDiffer()) {
      FilterKeepsOrder(rows, NotSong(songId), SongsDiffer());
    }
  }

  /** `toggleFavorite` (one transaction): remove the song if it is a
      favourite, add it otherwise. */
  function ToggleFavorite(t: FavoriteTable, songId: int): (r: FavoriteTable)
    ensures IsFavorite(r, songId) == !IsFavorite(t, songId)
    ensures forall x :: x != songId ==> RowsOf(r, x) == RowsOf(t, x)
    ensures Valid(t) ==> Valid(r)
    ensures OneRowPerSong(t) ==> OneRowPerSong(r)
  {
    if IsFavorite(t, songId) then
      var r := RemoveFavorite(t, songId);
      assert forall x :: x in RowsOf(r, songId) <==> x in r.rows && x.songId == songId;
      r
    else
      var r := AddFavorite(t, songId);
      AddAbsentKeepsOneRow(t, songId);
      assert FavoriteSong(t.nextId, songId) in RowsOf(r, songId);
      r
  }

  lemma AddAbsentKeepsOneRow(t: FavoriteTable, songId: int)
    requires !IsFavorite(t, songId)
    ensures OneRowPerSong(t) ==> OneRowPerSong(AddFavorite(t, songId))
  {
    if !OneRowPerSong(t) { return; }
    var r := AddFavorite(t, songId);
    forall i, j | 0 <= i < j < |r.rows| ensures SongsDiffer()(r.rows[i], r.rows[j]) {
      assert r.rows[i] == t.rows[i] && t.rows[i] in t.rows;
      if j < |t.rows| {
        assert r.rows[j] == t.rows[j];
      }
    }
  }

  /** Toggling a song that is not a favourite twice gives back exactly the
      rows there were; only the key counter has moved on. */
  lemma ToggleTwiceRestoresRows(t: FavoriteTable, songId: int)
    requires !IsFavorite(t, songId)
    ensures ToggleFavorite(ToggleFavorite(t, songId), songId).rows == t.rows
  {
    var row := FavoriteSong(t.nextId, songId);
    FilterConcat(t.rows, [row], NotSong(songId));
    forall i | 0 <= i < |t.rows| ensures NotSong(songId)(t.rows[i]) {
      assert t.rows[i] in t.rows;
    }
    FilterAll(t.rows, NotSong(songId));
  }

  /** `getAllFavorites`: `SELECT *` without ORDER BY, so only the rows, not
      their order, are promised. */
  function GetAllFavorites(t: FavoriteTable): (r: seq<FavoriteSong>)
    ensures multiset(r) == multiset(t.rows)
  {
    t.rows
  }

  function SongIdOf(r: FavoriteSong): int { r.songId }

  /** `getFavoriteSongIds`: one id per row, so a song stored twice is listed
      twice. */
  function GetFavoriteSongIds(t: FavoriteTable): (ids: seq<int>)
    ensures |ids| == |t.rows|
    ensures forall x :: x in ids <==> IsFavorite(t, x)
    ensures forall x :: Count(ids, x) == |RowsOf(t, x)|
  {
    var ids := Map(t.rows, SongIdOf);
    forall x ensures Count(ids, x) == |RowsOf(t, x)| {
      CountMap(t.rows, SongIdOf, IsSong(x), x);
    }
    assert forall x :: IsFavorite(t, x) ==> x in ids by {
      forall x | IsFavorite(t, x) ensures x in ids {
        var r :| r in t.rows && r.songId == x;
        var k :| 0 <= k < |t.rows| && t.rows[k] == r;
        assert ids[k] == x;
      }
    }
    ids
  }
}
