/** `AddToPlaylistDialog`: the two ways the dialog puts a song into a
    playlist. Unlike the plain `addSongToPlaylist` insert, choosing an
    existing playlist checks for the pair first. */
module AddToPlaylist {
  import opened Options
  import opened Model
  import opened Text
  import opened PlaylistDao

  /** No (playlist, song) pair is stored twice. */
  ghost predicate PairsUnique(db: PlaylistDb) {
    forall i, j :: 0 <= i < j < |db.entries| ==>
      db.entries[i].playlistId != db.entries[j].playlistId || db.entries[i].songId != db.entries[j].songId
  }

  /** Clicking a playlist in the list: insert the pair unless
      `isSongInPlaylist` already reports it. */
  function ChoosePlaylist(db: PlaylistDb, playlistId: int, songId: int): (r: PlaylistDb)
    ensures IsSongInPlaylist(r, playlistId, songId)
    ensures IsSongInPlaylist(db, playlistId, songId) ==> r == db
    ensures !IsSongInPlaylist(db, playlistId, songId) ==>
      EntriesOf(r, playlistId) == EntriesOf(db, playlistId) + [PlaylistSong(db.nextEntryId, playlistId, songId)]
    ensures forall q :: q != playlistId ==> EntriesOf(r, q) == EntriesOf(db, q)
    ensures r.playlists == db.playlists
    ensures Valid(db) ==> Valid(r)
  {
    if IsSongInPlaylist(db, playlistId, songId) then db
    else
      var r := AddSongToPlaylist(db, playlistId, songId);
      assert r.entries[|db.entries|] == PlaylistSong(db.nextEntryId, playlistId, songId);
      r
  }

  /** This path never stores a pair twice. */
  lemma ChooseKeepsPairsUnique(db: PlaylistDb, playlistId: int, songId: int)
    requires PairsUnique(db)
    ensures PairsUnique(ChoosePlaylist(db, playlistId, songId))
  {
    if !IsSongInPlaylist(db, playlistId, songId) {
      var r := ChoosePlaylist(db, playlistId, songId);
      assert r.entries == db.entries + [PlaylistSong(db.nextEntryId, playlistId, songId)];
      forall i | 0 <= i < |db.entries|
        ensures db.entries[i].playlistId != playlistId || db.entries[i].songId != songId
      {
        assert db.entries[i] in db.entries;
      }
    }
  }

  /** Choosing the same playlist twice is the same as choosing it once. */
  lemma ChooseIdempotent(db: PlaylistDb, playlistId: int, songId: int)
    ensures ChoosePlaylist(ChoosePlaylist(db, playlistId, songId), playlistId, songId)
         == ChoosePlaylist(db, playlistId, songId)
  {
  }

  /** "Crear": a blank name does nothing; otherwise a playlist is created
      with the name and the clock's time, and the song is added to it. */
  function CreateWithSong(db: PlaylistDb, name: string, songId: int, now: int): (r: (PlaylistDb, Option<int>))
    ensures IsBlank(name) <==> r.1.None?
    ensures IsBlank(name) ==> r.0 == db
    ensures r.1.Some? ==> r.1.value == db.nextPlaylistId
    ensures r.1.Some? ==>
      EntriesOf(r.0, r.1.value) == EntriesOf(db, r.1.value) + [PlaylistSong(db.nextEntryId, r.1.value, songId)]
    ensures r.1.Some? ==> forall q :: q != r.1.value ==> EntriesOf(r.0, q) == EntriesOf(db, q)
    ensures r.1.Some? ==> forall q :: q != r.1.value ==> GetPlaylistById(r.0, q) == GetPlaylistById(db, q)
    ensures r.1.Some? && Valid(db) ==>
      && Valid(r.0)
      && GetPlaylistById(db, r.1.value) == None
      && GetPlaylistById(r.0, r.1.value) == Some(Playlist(r.1.value, name, now))
  {
    if IsBlank(name) then (db, None)
    else
      var (created, id) := CreatePlaylist(db, name, now);
      (AddSongToPlaylist(created, id, songId), Some(id))
  }

  /** When no stored entry names a playlist key that was never handed
      out, the new playlist holds the song and nothing else. */
  lemma CreatedHoldsOnlyTheSong(db: PlaylistDb, name: string, songId: int, now: int)
    requires !IsBlank(name)
    requires forall e :: e in db.entries ==> e.playlistId < db.nextPlaylistId
    ensures var (r, id) := CreateWithSong(db, name, songId, now);
            id.Some? && GetSongIdsFromPlaylist(r, id.value) == [songId]
  {
    var id := db.nextPlaylistId;
    Seqs.FilterNone(db.entries, InPlaylist(id));
    assert EntriesOf(db, id) == [];
    var r := CreateWithSong(db, name, songId, now).0;
    var e := PlaylistSong(db.nextEntryId, id, songId);
    assert EntriesOf(r, id) == [e];
    SingleEntryIds(r, id, e);
  }

  lemma SingleEntryIds(db: PlaylistDb, playlistId: int, e: PlaylistSong)
    requires EntriesOf(db, playlistId) == [e]
    ensures GetSongIdsFromPlaylist(db, playlistId) == [e.songId]
  {
    var ids := GetSongIdsFromPlaylist(db, playlistId);
    assert ids[0] in ids;
    assert e in db.entries && e.playlistId == playlistId by { assert e in EntriesOf(db, playlistId); }
  }
}
