/** `RecentDao`: the `recent_songs` table as an in-memory relation. Keys are
    auto-generated, so nothing in the schema stops two rows having the same
    `songId`; at most one row per song comes only from `updateRecentSong`
    deleting before it inserts. */
module RecentDao {
  import opened Options
  import opened Model
  import opened Seqs
  import opened Orders
  import opened Sorting

  /** The rows in insertion order, and the next key AUTOINCREMENT hands out. */
  datatype RecentTable = RecentTable(rows: seq<RecentSong>, nextId: int)

  /** Keys increase along the rows and stay below the counter, so they are
      unique and a fresh key never collides. */
  ghost predicate Valid(t: RecentTable) {
    && Ordered(t.rows, IdBefore())
    && (forall r :: r in t.rows ==> r.id < t.nextId)
  }

  /** No two rows share a `songId`. */
  ghost predicate OneRowPerSong(t: RecentTable) {
    Ordered(t.rows, SongsDiffer())
  }

  function IsSong(songId: int): RecentSong -> bool {
    (r: RecentSong) => r.songId == songId
  }

  function NotSong(songId: int): RecentSong -> bool {
    (r: RecentSong) => r.songId != songId
  }

  function IdBefore(): (RecentSong, RecentSong) -> bool {
    (a: RecentSong, b: RecentSong) => a.id < b.id
  }

  function SongsDiffer(): (RecentSong, RecentSong) -> bool {
    (a: RecentSong, b: RecentSong) => a.songId != b.songId
  }

  /** The rows recorded for `songId`, in insertion order. */
  function RowsOf(t: RecentTable, songId: int): seq<RecentSong> {
    Filter(t.rows, IsSong(songId))
  }

  /** `addRecentSong` (`@Insert(onConflict = REPLACE)`): the row is built
      with key 0, which Room replaces by a generated key, so the insert never
      meets a conflict and always adds one row. */
  function AddRecentSong(t: RecentTable, songId: int, playedAt: int): (r: RecentTable)
    ensures RowsOf(r, songId) == RowsOf(t, songId) + [RecentSong(t.nextId, songId, playedAt)]
    ensures forall x :: x != songId ==> RowsOf(r, x) == RowsOf(t, x)
    ensures Valid(t) ==> Valid(r)
  {
    var row := RecentSong(t.nextId, songId, playedAt);
    AppendRows(t.rows, row);
    RecentTable(t.rows + [row], t.nextId + 1)
  }

  lemma AppendRows(rows: seq<RecentSong>, row: RecentSong)
    ensures Filter(rows + [row], IsSong(row.songId)) == Filter(rows, IsSong(row.songId)) + [row]
    ensures forall x :: x != row.songId ==> Filter(rows + [row], IsSong(x)) == Filter(rows, IsSong(x))
  {
    FilterConcat(rows, [row], IsSong(row.songId));
    forall x | x != row.songId ensures Filter(rows + [row], IsSong(x)) == Filter(rows, IsSong(x)) {
      FilterConcat(rows, [row], IsSong(x));
    }
  }

  /** `removeRecentSong`: `DELETE FROM recent_songs WHERE songId = :songId`. */
  function RemoveRecentSong(t: RecentTable, songId: int): (r: RecentTable)
    ensures RowsOf(r, songId) == []
    ensures forall x :: x != songId ==> RowsOf(r, x) == RowsOf(t, x)
    ensures r.nextId == t.nextId
    ensures Valid(t) ==> Valid(r)
    ensures OneRowPerSong(t) ==> OneRowPerSong(r)
  {
    var kept := Filter(t.rows, NotSong(songId));
    FilterRemoves(t.rows, songId);
    RecentTable(kept, t.nextId)
  }

  lemma FilterRemoves(rows: seq<RecentSong>, songId: int)
    ensures Filter(Filter(rows, NotSong(songId)), IsSong(songId)) == []
    ensures forall x :: x != songId ==>
      Filter(Filter(rows, NotSong(songId)), IsSong(x)) == Filter(rows, IsSong(x))
    ensures Ordered(rows, IdBefore()) ==> Ordered(Filter(rows, NotSong(songId)), IdBefore())
    ensures Ordered(rows, SongsDiffer()) ==> Ordered(Filter(rows, NotSong(songId)), SongsDiffer())
  {
    var kept := Filter(rows, NotSong(songId));
    FilterNone(kept, IsSong(songId));
    forall x | x != songId
      ensures Filter(kept, IsSong(x)) == Filter(rows, IsSong(x))
    {
      FilterFilter(rows, NotSong(songId), IsSong(x));
    }
    if Ordered(rows, IdBefore()) {
      FilterKeepsOrder(rows, NotSong(songId), IdBefore());
    }
    if Ordered(rows, SongsDiffer()) {
      FilterKeepsOrder(rows, NotSong(songId), SongsDiffer());
    }
  }

  /** `clearAllRecent`: `DELETE FROM recent_songs`. The key counter is kept. */
  function ClearAllRecent(t: RecentTable): (r: RecentTable)
    ensures r.rows == [] && r.nextId == t.nextId
    ensures forall x :: RowsOf(r, x) == []
  {
    RecentTable([], t.nextId)
  }

  /** `updateRecentSong` (one transaction): delete every row of the song,
      then insert a row stamped `now` (the wall clock, passed in). */
  function UpdateRecentSong(t: RecentTable, songId: int, now: int): (r: RecentTable)
    ensures RowsOf(r, songId) == [RecentSong(t.nextId, songId, now)]
    ensures forall x :: x != songId ==> RowsOf(r, x) == RowsOf(t, x)
    ensures Valid(t) ==> Valid(r)
    ensures OneRowPerSong(t) ==> OneRowPerSong(r)
  {
    var removed := RemoveRecentSong(t, songId);
    var r := AddRecentSong(removed, songId, now);
    AppendKeepsOneRow(removed, songId, now);
    r
  }

  lemma AppendKeepsOneRow(t: RecentTable, songId: int, now: int)
    requires RowsOf(t, songId) == []
    ensures OneRowPerSong(t) ==> OneRowPerSong(AddRecentSong(t, songId, now))
  {
    if !OneRowPerSong(t) { return; }
    var r := AddRecentSong(t, songId, now);
    forall i, j | 0 <= i < j < |r.rows| ensures SongsDiffer()(r.rows[i], r.rows[j]) {
      assert r.rows[i] == t.rows[i] && t.rows[i] in t.rows;
      if j < |t.rows| {
        assert r.rows[j] == t.rows[j];
      }
    }
  }

  /** After any sequence of plays recorded through `updateRecentSong`, a
      table that started with at most one row per song still has at most
      one. */
  lemma {:induction false} ReplayKeepsOneRowPerSong(t: RecentTable, plays: seq<int>, now: int)
    requires OneRowPerSong(t)
    ensures OneRowPerSong(ReplayPlays(t, plays, now))
    decreases |plays|
  {
    if |plays| > 0 {
      ReplayKeepsOneRowPerSong(UpdateRecentSong(t, plays[0], now), plays[1..], now);
    }
  }

  /** Every song played has exactly one row afterwards, whatever the table
      held before. */
  lemma {:induction false} ReplayLeavesOneRow(t: RecentTable, plays: seq<int>, now: int, songId: int)
    requires songId in plays
    ensures |RowsOf(ReplayPlays(t, plays, now), songId)| == 1
    decreases |plays|
  {
    var t' := UpdateRecentSong(t, plays[0], now);
    if plays[0] == songId {
      ReplayKeepsRows(t', plays[1..], now, songId);
    } else {
      assert songId in plays[1..];
      ReplayLeavesOneRow(t', plays[1..], now, songId);
    }
  }

  /** Records each song of `plays` in turn, all at time `now`. */
  function ReplayPlays(t: RecentTable, plays: seq<int>, now: int): RecentTable
    decreases |plays|
  {
    if |plays| == 0 then t else ReplayPlays(UpdateRecentSong(t, plays[0], now), plays[1..], now)
  }

  /** A song that already has exactly one row keeps exactly one while other
      songs are recorded. */
  lemma {:induction false} ReplayKeepsRows(t: RecentTable, plays: seq<int>, now: int, songId: int)
    requires |RowsOf(t, songId)| == 1
    ensures |RowsOf(ReplayPlays(t, plays, now), songId)| == 1
    decreases |plays|
  {
    if |plays| > 0 {
      ReplayKeepsRows(UpdateRecentSong(t, plays[0], now), plays[1..], now, songId);
    }
  }

  function PlayedAt(r: RecentSong): int { r.playedAt }

  function SongIdOf(r: RecentSong): int { r.songId }

  /** `getAllRecentSongs`: `SELECT * ... ORDER BY playedAt DESC`. Rows with
      equal timestamps come out in some order SQLite chooses; the model
      keeps insertion order, and the contract does not depend on it. */
  function GetAllRecentSongs(t: RecentTable): (r: seq<RecentSong>)
    ensures multiset(r) == multiset(t.rows)
    ensures forall i, j :: 0 <= i < j < |r| ==> r[i].playedAt >= r[j].playedAt
  {
    IntLeTotalOrder();
    FlipTotalOrder(IntLe);
    var r := SortBy(t.rows, PlayedAt, Flip(IntLe));
    assert forall i, j :: 0 <= i < j < |r| ==> Flip(IntLe)(PlayedAt(r[i]), PlayedAt(r[j]));
    r
  }

  /** `getAllRecentSongsAsc`: `SELECT * ... ORDER BY playedAt ASC`. */
  function GetAllRecentSongsAsc(t: RecentTable): (r: seq<RecentSong>)
    ensures multiset(r) == multiset(t.rows)
    ensures forall i, j :: 0 <= i < j < |r| ==> r[i].playedAt <= r[j].playedAt
  {
    IntLeTotalOrder();
    var r := SortBy(t.rows, PlayedAt, IntLe);
    assert forall i, j :: 0 <= i < j < |r| ==> IntLe(PlayedAt(r[i]), PlayedAt(r[j]));
    r
  }

  /** `getRecentSongIds`: `SELECT songId ... ORDER BY playedAt DESC`. */
  function GetRecentSongIds(t: RecentTable): (ids: seq<int>)
    ensures |ids| == |t.rows|
    ensures forall x :: x in ids <==> exists r :: r in t.rows && r.songId == x
    ensures forall x :: Count(ids, x) == |RowsOf(t, x)|
    ensures exists p: seq<RecentSong> ::
      && multiset(p) == multiset(t.rows) && |p| == |ids|
      && (forall i, j :: 0 <= i < j < |p| ==> p[i].playedAt >= p[j].playedAt)
      && (forall k :: 0 <= k < |p| ==> ids[k] == p[k].songId)
  {
    var sorted := GetAllRecentSongs(t);
    var ids := Map(sorted, SongIdOf);
    IdsOfPermutation(t, sorted);
    assert |sorted| == |ids| && forall k :: 0 <= k < |sorted| ==> ids[k] == sorted[k].songId;
    ids
  }

  /** The song ids of any permutation of the rows: one per row, and a song
      as often as it has rows. */
  lemma IdsOfPermutation(t: RecentTable, sorted: seq<RecentSong>)
    requires multiset(sorted) == multiset(t.rows)
    ensures var ids := Map(sorted, SongIdOf);
      && |ids| == |t.rows|
      && (forall x :: x in ids <==> exists r :: r in t.rows && r.songId == x)
      && (forall x :: Count(ids, x) == |RowsOf(t, x)|)
  {
    var ids := Map(sorted, SongIdOf);
    assert |sorted| == |multiset(sorted)| == |t.rows|;
    forall x ensures Count(ids, x) == |RowsOf(t, x)| {
      CountMap(sorted, SongIdOf, IsSong(x), x);
      FilterPermutation(sorted, t.rows, IsSong(x));
    }
    assert forall r :: r in sorted <==> r in t.rows by {
      forall r ensures r in sorted <==> r in t.rows {
        assert r in sorted <==> r in multiset(sorted);
      }
    }
    assert forall x :: x in ids ==> exists r :: r in sorted && r.songId == x;
    assert forall x :: (exists r :: r in sorted && r.songId == x) ==> x in ids by {
      forall x | exists r :: r in sorted && r.songId == x ensures x in ids {
        var r :| r in sorted && r.songId == x;
        var k :| 0 <= k < |sorted| && sorted[k] == r;
        assert ids[k] == x;
      }
    }
  }

  /** The `playedAt` of the song's row (the first, if there were several). */
  function PlayedAtOf(t: RecentTable, songId: int): int {
    match Find(t.rows, IsSong(songId))
    case Some(r) => r.playedAt
    case None => 0
  }

  /** With one row per song, `getRecentSongIds` lists the songs from the
      most recently played to the least. */
  lemma RecentIdsMostRecentFirst(t: RecentTable)
    requires OneRowPerSong(t)
    ensures var ids := GetRecentSongIds(t);
      forall i, j :: 0 <= i < j < |ids| ==> PlayedAtOf(t, ids[i]) >= PlayedAtOf(t, ids[j])
  {
    var sorted := GetAllRecentSongs(t);
    var ids := GetRecentSongIds(t);
    forall k | 0 <= k < |sorted| ensures PlayedAtOf(t, ids[k]) == sorted[k].playedAt {
      assert sorted[k] in multiset(t.rows);
      RowIsFound(t, sorted[k]);
    }
  }

  lemma RowIsFound(t: RecentTable, r: RecentSong)
    requires OneRowPerSong(t)
    requires r in t.rows
    ensures Find(t.rows, IsSong(r.songId)) == Some(r)
  {
    var k :| 0 <= k < |t.rows| && t.rows[k] == r;
    var f := Find(t.rows, IsSong(r.songId));
    assert !(forall j :: 0 <= j < |t.rows| ==> !IsSong(r.songId)(t.rows[j]));
    var i :| 0 <= i < |t.rows| && t.rows[i] == f.value && IsSong(r.songId)(t.rows[i]) &&
             forall j :: 0 <= j < i ==> !IsSong(r.songId)(t.rows[j]);
    var a, b := t.rows[i], t.rows[k];
    assert IsSong(r.songId)(b);
    assert i < k ==> SongsDiffer()(a, b);
    assert i == k;
  }
}
