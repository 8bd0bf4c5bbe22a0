/** `PlaylistDao`: the `playlists` and `playlist_songs` tables. Both keys are
    auto-generated. The schema declares no foreign key, so deleting a
    playlist leaves its entries in `playlist_songs`, and an entry may name a
    playlist that does not exist. */
module PlaylistDao {
  import opened Options
  import opened Model
  import opened Seqs
  import opened Orders
  import opened Sorting

  datatype PlaylistDb = PlaylistDb(
    playlists: seq<Playlist>,
    nextPlaylistId: int,
    entries: seq<PlaylistSong>,
    nextEntryId: int)

  function PlaylistIdBefore(): (Playlist, Playlist) -> bool {
    (a: Playlist, b: Playlist) => a.id < b.id
  }

  function EntryIdBefore(): (PlaylistSong, PlaylistSong) -> bool {
    (a: PlaylistSong, b: PlaylistSong) => a.id < b.id
  }

  /** In both tables keys increase along the rows and stay below the
      table's counter. */
  ghost predicate Valid(db: PlaylistDb) {
    && Ordered(db.playlists, PlaylistIdBefore())
    && (forall p :: p in db.playlists ==> p.id < db.nextPlaylistId)
    && Ordered(db.entries, EntryIdBefore())
    && (forall e :: e in db.entries ==> e.id < db.nextEntryId)
  }

  function HasId(id: int): Playlist -> bool {
    (p: Playlist) => p.id == id
  }

  function NotId(id: int): Playlist -> bool {
    (p: Playlist) => p.id != id
  }

  function InPlaylist(playlistId: int): PlaylistSong -> bool {
    (e: PlaylistSong) => e.playlistId == playlistId
  }

  function NotInPlaylist(playlistId: int): PlaylistSong -> bool {
    (e: PlaylistSong) => e.playlistId != playlistId
  }

  function IsSong(songId: int): PlaylistSong -> bool {
    (e: PlaylistSong) => e.songId == songId
  }

  function NotSong(songId: int): PlaylistSong -> bool {
    (e: PlaylistSong) => e.songId != songId
  }

  function IsPair(playlistId: int, songId: int): PlaylistSong -> bool {
    (e: PlaylistSong) => e.playlistId == playlistId && e.songId == songId
  }

  function NotPair(playlistId: int, songId: int): PlaylistSong -> bool {
    (e: PlaylistSong) => e.playlistId != playlistId || e.songId != songId
  }

  /** The entries of one playlist, in insertion order. */
  function EntriesOf(db: PlaylistDb, playlistId: int): seq<PlaylistSong> {
    Filter(db.entries, InPlaylist(playlistId))
  }

  /** `getPlaylistById`: `SELECT * FROM playlists WHERE id = :playlistId`,
      `null` when there is none. */
  function GetPlaylistById(db: PlaylistDb, playlistId: int): (r: Option<Playlist>)
    ensures r.Some? ==> r.value in db.playlists && r.value.id == playlistId
    ensures r.None? <==> forall p :: p in db.playlists ==> p.id != playlistId
  {
    var r := Find(db.playlists, HasId(playlistId));
    assert forall p :: p in db.playlists ==> exists k :: 0 <= k < |db.playlists| && db.playlists[k] == p;
    r
  }

  /** With unique keys the playlist found is the only one with its key. */
  lemma GetPlaylistByIdUnique(db: PlaylistDb, p: Playlist)
    requires Valid(db)
    requires p in db.playlists
    ensures GetPlaylistById(db, p.id) == Some(p)
  {
    var k :| 0 <= k < |db.playlists| && db.playlists[k] == p;
    var f := Find(db.playlists, HasId(p.id));
    assert HasId(p.id)(db.playlists[k]);
    var i :| 0 <= i < |db.playlists| && db.playlists[i] == f.value && HasId(p.id)(db.playlists[i]) &&
             forall j :: 0 <= j < i ==> !HasId(p.id)(db.playlists[j]);
    var a, b := db.playlists[i], db.playlists[k];
    assert i < k ==> PlaylistIdBefore()(a, b);
    assert i == k;
  }

  /** `createPlaylist`: inserts the playlist under a fresh key and returns
      that key. */
  function CreatePlaylist(db: PlaylistDb, name: string, createdAt: int): (r: (PlaylistDb, int))
    ensures r.1 == db.nextPlaylistId
    ensures Valid(db) ==> Valid(r.0)
    ensures Valid(db) ==> GetPlaylistById(db, r.1) == None
    ensures Valid(db) ==> GetPlaylistById(r.0, r.1) == Some(Playlist(r.1, name, createdAt))
    ensures forall q :: q != r.1 ==> GetPlaylistById(r.0, q) == GetPlaylistById(db, q)
    ensures r.0.entries == db.entries
  {
    var p := Playlist(db.nextPlaylistId, name, createdAt);
    var db' := db.(playlists := db.playlists + [p], nextPlaylistId := db.nextPlaylistId + 1);
    CreateFinds(db, db', p);
    FindAppendOthers(db.playlists, p);
    (db', p.id)
  }

  lemma CreateFinds(db: PlaylistDb, db': PlaylistDb, p: Playlist)
    requires p.id == db.nextPlaylistId
    requires db' == db.(playlists := db.playlists + [p], nextPlaylistId := db.nextPlaylistId + 1)
    ensures Valid(db) ==> Valid(db') && GetPlaylistById(db, p.id) == None && GetPlaylistById(db', p.id) == Some(p)
  {
    if Valid(db) {
      assert Valid(db') by {
        forall i, j | 0 <= i < j < |db'.playlists|
          ensures PlaylistIdBefore()(db'.playlists[i], db'.playlists[j])
        {
          assert db'.playlists[i] == db.playlists[i] && db.playlists[i] in db.playlists;
          if j < |db.playlists| {
            assert db'.playlists[j] == db.playlists[j];
          }
        }
      }
      GetPlaylistByIdUnique(db', p);
    }
  }

  lemma FindAppendOthers(ps: seq<Playlist>, p: Playlist)
    ensures forall q :: q != p.id ==> Find(ps + [p], HasId(q)) == Find(ps, HasId(q))
  {
    forall q | q != p.id ensures Find(ps + [p], HasId(q)) == Find(ps, HasId(q)) {
      FindAppend(ps, p, HasId(q));
    }
  }

  /** `deletePlaylistById`: `DELETE FROM playlists WHERE id = :playlistId`.
      The playlist's entries stay behind. */
  function DeletePlaylistById(db: PlaylistDb, playlistId: int): (r: PlaylistDb)
    ensures GetPlaylistById(r, playlistId) == None
    ensures forall p :: p in r.playlists <==> p in db.playlists && p.id != playlistId
    ensures r.entries == db.entries
    ensures r.nextPlaylistId == db.nextPlaylistId && r.nextEntryId == db.nextEntryId
    ensures Valid(db) ==> Valid(r)
  {
    var kept := Filter(db.playlists, NotId(playlistId));
    FilterKeepsOrder(db.playlists, NotId(playlistId), PlaylistIdBefore());
    db.(playlists := kept)
  }

  /** `deletePlaylist` (`@Delete`): Room deletes by the entity's primary
      key, so only the key of the argument matters. */
  function DeletePlaylist(db: PlaylistDb, playlist: Playlist): (r: PlaylistDb)
    ensures GetPlaylistById(r, playlist.id) == None
    ensures forall p :: p in r.playlists <==> p in db.playlists && p.id != playlist.id
    ensures r.entries == db.entries
    ensures r.nextPlaylistId == db.nextPlaylistId && r.nextEntryId == db.nextEntryId
    ensures Valid(db) ==> Valid(r)
  {
    DeletePlaylistById(db, playlist.id)
  }

  function Rename(playlistId: int, newName: string): Playlist -> Playlist {
    (p: Playlist) => if p.id == playlistId then p.(name := newName) else p
  }

  /** `updatePlaylistName`: `UPDATE playlists SET name = :newName WHERE id
      = :playlistId`; a missing key changes nothing. */
  function UpdatePlaylistName(db: PlaylistDb, playlistId: int, newName: string): (r: PlaylistDb)
    ensures |r.playlists| == |db.playlists|
    ensures forall i :: 0 <= i < |db.playlists| ==>
      r.playlists[i].id == db.playlists[i].id &&
      r.playlists[i].createdAt == db.playlists[i].createdAt &&
      r.playlists[i].name == (if db.playlists[i].id == playlistId then newName else db.playlists[i].name)
    ensures r.entries == db.entries
    ensures Valid(db) ==> Valid(r)
  {
    var r := db.(playlists := Map(db.playlists, Rename(playlistId, newName)));
    assert forall p :: p in r.playlists ==> exists k :: 0 <= k < |r.playlists| && r.playlists[k] == p;
    r
  }

  function CreatedAt(p: Playlist): int { p.createdAt }

  /** `getAllPlaylists`: `ORDER BY createdAt DESC`, newest first. */
  function GetAllPlaylists(db: PlaylistDb): (r: seq<Playlist>)
    ensures multiset(r) == multiset(db.playlists)
    ensures forall i, j :: 0 <= i < j < |r| ==> r[i].createdAt >= r[j].createdAt
  {
    IntLeTotalOrder();
    FlipTotalOrder(IntLe);
    var r := SortBy(db.playlists, CreatedAt, Flip(IntLe));
    assert forall i, j :: 0 <= i < j < |r| ==> Flip(IntLe)(CreatedAt(r[i]), CreatedAt(r[j]));
    r
  }

  /** `addSongToPlaylist` (plain `@Insert`): always adds an entry under a
      fresh key, whether or not the pair is already there and whether or
      not the playlist exists. */
  function AddSongToPlaylist(db: PlaylistDb, playlistId: int, songId: int): (r: PlaylistDb)
    ensures EntriesOf(r, playlistId) == EntriesOf(db, playlistId) + [PlaylistSong(db.nextEntryId, playlistId, songId)]
    ensures forall q :: q != playlistId ==> EntriesOf(r, q) == EntriesOf(db, q)
    ensures r.playlists == db.playlists
    ensures Valid(db) ==> Valid(r)
  {
    var e := PlaylistSong(db.nextEntryId, playlistId, songId);
    FilterConcat(db.entries, [e], InPlaylist(playlistId));
    AppendOtherPlaylists(db.entries, e);
    db.(entries := db.entries + [e], nextEntryId := db.nextEntryId + 1)
  }

  lemma AppendOtherPlaylists(entries: seq<PlaylistSong>, e: PlaylistSong)
    ensures forall q :: q != e.playlistId ==>
      Filter(entries + [e], InPlaylist(q)) == Filter(entries, InPlaylist(q))
  {
    forall q | q != e.playlistId
      ensures Filter(entries + [e], InPlaylist(q)) == Filter(entries, InPlaylist(q))
    {
      FilterConcat(entries, [e], InPlaylist(q));
    }
  }

  /** `isSongInPlaylist`: `SELECT EXISTS(...)` over the pair. */
  function IsSongInPlaylist(db: PlaylistDb, playlistId: int, songId: int): (b: bool)
    ensures b <==> exists e :: e in db.entries && e.playlistId == playlistId && e.songId == songId
  {
    var found := Filter(db.entries, IsPair(playlistId, songId));
    assert |found| > 0 ==> found[0] in found;
    |found| > 0
  }

  /** `removeSongFromPlaylist`: deletes every entry of the pair, so a song
      added twice disappears at once. */
  function RemoveSongFromPlaylist(db: PlaylistDb, playlistId: int, songId: int): (r: PlaylistDb)
    ensures !IsSongInPlaylist(r, playlistId, songId)
    ensures EntriesOf(r, playlistId) == Filter(EntriesOf(db, playlistId), NotSong(songId))
    ensures forall q :: q != playlistId ==> EntriesOf(r, q) == EntriesOf(db, q)
    ensures r.playlists == db.playlists
    ensures Valid(db) ==> Valid(r)
  {
    var kept := Filter(db.entries, NotPair(playlistId, songId));
    FilterKeepsOrder(db.entries, NotPair(playlistId, songId), EntryIdBefore());
    RemovePairEntries(db.entries, playlistId, songId);
    FilterNone(kept, IsPair(playlistId, songId));
    db.(entries := kept)
  }

  lemma RemovePairEntries(entries: seq<PlaylistSong>, playlistId: int, songId: int)
    ensures Filter(Filter(entries, NotPair(playlistId, songId)), InPlaylist(playlistId))
         == Filter(Filter(entries, InPlaylist(playlistId)), NotSong(songId))
    ensures forall q :: q != playlistId ==>
      Filter(Filter(entries, NotPair(playlistId, songId)), InPlaylist(q)) == Filter(entries, InPlaylist(q))
  {
    var kept := Filter(entries, NotPair(playlistId, songId));
    FilterCommute(entries, NotPair(playlistId, songId), InPlaylist(playlistId));
    var mine := Filter(entries, InPlaylist(playlistId));
    FilterCongruent(mine, NotPair(playlistId, songId), NotSong(songId));
    forall q | q != playlistId ensures Filter(kept, InPlaylist(q)) == Filter(entries, InPlaylist(q)) {
      FilterFilter(entries, NotPair(playlistId, songId), InPlaylist(q));
    }
  }

  function SongIdOf(e: PlaylistSong): int { e.songId }

  /** `getSongIdsFromPlaylist`: one id per entry, so a song is listed once
      for each entry that holds it, in no promised order. */
  function GetSongIdsFromPlaylist(db: PlaylistDb, playlistId: int): (ids: seq<int>)
    ensures |ids| == |EntriesOf(db, playlistId)|
    ensures forall x :: x in ids <==> IsSongInPlaylist(db, playlistId, x)
    ensures forall x :: Count(ids, x) == |Filter(EntriesOf(db, playlistId), IsSong(x))|
  {
    var mine := EntriesOf(db, playlistId);
    var ids := Map(mine, SongIdOf);
    forall x ensures Count(ids, x) == |Filter(mine, IsSong(x))| {
      CountMap(mine, SongIdOf, IsSong(x), x);
    }
    forall x ensures x in ids <==> IsSongInPlaylist(db, playlistId, x) {
      if x in ids {
        var k :| 0 <= k < |ids| && ids[k] == x;
        assert mine[k] in mine;
        assert mine[k] in db.entries && mine[k].playlistId == playlistId && mine[k].songId == x;
      }
      if IsSongInPlaylist(db, playlistId, x) {
        var e :| e in db.entries && e.playlistId == playlistId && e.songId == x;
        assert e in mine;
        var k :| 0 <= k < |mine| && mine[k] == e;
        assert ids[k] == x;
      }
    }
    ids
  }

  /** `clearPlaylist`: deletes every entry of the playlist and nothing else. */
  function ClearPlaylist(db: PlaylistDb, playlistId: int): (r: PlaylistDb)
    ensures EntriesOf(r, playlistId) == []
    ensures forall q :: q != playlistId ==> EntriesOf(r, q) == EntriesOf(db, q)
    ensures r.playlists == db.playlists
    ensures Valid(db) ==> Valid(r)
  {
    var kept := Filter(db.entries, NotInPlaylist(playlistId));
    FilterKeepsOrder(db.entries, NotInPlaylist(playlistId), EntryIdBefore());
    FilterNone(kept, InPlaylist(playlistId));
    ClearOthers(db.entries, playlistId);
    db.(entries := kept)
  }

  lemma ClearOthers(entries: seq<PlaylistSong>, playlistId: int)
    ensures forall q :: q != playlistId ==>
      Filter(Filter(entries, NotInPlaylist(playlistId)), InPlaylist(q)) == Filter(entries, InPlaylist(q))
  {
    forall q | q != playlistId
      ensures Filter(Filter(entries, NotInPlaylist(playlistId)), InPlaylist(q)) == Filter(entries, InPlaylist(q))
    {
      FilterFilter(entries, NotInPlaylist(playlistId), InPlaylist(q));
    }
  }

  /** Deleting a playlist leaves its songs' entries orphaned: the ids are
      still reported for the deleted key. */
  lemma DeleteLeavesEntries(db: PlaylistDb, playlistId: int)
    ensures GetSongIdsFromPlaylist(DeletePlaylistById(db, playlistId), playlistId)
         == GetSongIdsFromPlaylist(db, playlistId)
  {
  }

  /** Adding a song already in a playlist stores a second entry, and the
      song's id is then listed twice. */
  lemma AddTwiceListsTwice(db: PlaylistDb, playlistId: int, songId: int)
    requires IsSongInPlaylist(db, playlistId, songId)
    ensures Count(GetSongIdsFromPlaylist(AddSongToPlaylist(db, playlistId, songId), playlistId), songId) >= 2
  {
    var r := AddSongToPlaylist(db, playlistId, songId);
    var before := GetSongIdsFromPlaylist(db, playlistId);
    var after := GetSongIdsFromPlaylist(r, playlistId);
    var mine := EntriesOf(db, playlistId);
    assert after == before + [songId];
    assert songId in before;
    assert multiset(after) == multiset(before) + multiset{songId};
  }
}
