/** `PlaylistDetailScreen`: the songs of one playlist, resolved against the
    catalogue, with a per-row action that takes a song out of the playlist. */
module PlaylistDetail {
  import opened Options
  import opened Model
  import opened Seqs
  import PlaylistDao
  import SongLookup

  /** `playlistSongs`: the playlist's song ids, each replaced by its
      catalogue song; ids the catalogue no longer has are dropped. */
  function PlaylistSongs(db: PlaylistDao.PlaylistDb, playlistId: int, catalog: seq<Song>): (r: seq<Song>)
    ensures |r| <= |PlaylistDao.EntriesOf(db, playlistId)|
    ensures forall s :: s in r <==>
      s in catalog && SongLookup.FindById(catalog, s.id) == Some(s) && PlaylistDao.IsSongInPlaylist(db, playlistId, s.id)
  {
    var ids := PlaylistDao.GetSongIdsFromPlaylist(db, playlistId);
    var r := SongLookup.ResolveIds(catalog, ids);
    assert forall s :: s in catalog && SongLookup.FindById(catalog, s.id) == Some(s) && s.id in ids ==> s in r;
    r
  }

  /** A song stored in k entries of the playlist is shown k times. */
  lemma PlaylistCopies(db: PlaylistDao.PlaylistDb, playlistId: int, catalog: seq<Song>, s: Song)
    requires SongLookup.FindById(catalog, s.id) == Some(s)
    ensures Count(PlaylistSongs(db, playlistId, catalog), s)
         == |Filter(PlaylistDao.EntriesOf(db, playlistId), PlaylistDao.IsSong(s.id))|
  {
    SongLookup.ResolveCopies(catalog, PlaylistDao.GetSongIdsFromPlaylist(db, playlistId), s);
  }

  /** Which ids a playlist holds after one is removed. */
  lemma RemoveMembership(db: PlaylistDao.PlaylistDb, playlistId: int, songId: int, x: int)
    ensures PlaylistDao.IsSongInPlaylist(PlaylistDao.RemoveSongFromPlaylist(db, playlistId, songId), playlistId, x)
        <==> x != songId && PlaylistDao.IsSongInPlaylist(db, playlistId, x)
  {
    var r := PlaylistDao.RemoveSongFromPlaylist(db, playlistId, songId);
    var before := PlaylistDao.EntriesOf(db, playlistId);
    var after := PlaylistDao.EntriesOf(r, playlistId);
    assert after == Filter(before, PlaylistDao.NotSong(songId));
    if PlaylistDao.IsSongInPlaylist(r, playlistId, x) {
      var e :| e in r.entries && e.playlistId == playlistId && e.songId == x;
      assert e in after;
      assert e in before;
    }
    if x != songId && PlaylistDao.IsSongInPlaylist(db, playlistId, x) {
      var e :| e in db.entries && e.playlistId == playlistId && e.songId == x;
      assert e in before;
      assert e in after;
    }
  }

  /** The remove action (`removeSongFromPlaylist(playlistId, song.id)`)
      takes the song off the screen, every copy of it at once, and leaves
      every other song of the playlist shown. */
  lemma RemoveHidesOnlyThatSong(db: PlaylistDao.PlaylistDb, playlistId: int, catalog: seq<Song>, song: Song)
    ensures var after := PlaylistSongs(PlaylistDao.RemoveSongFromPlaylist(db, playlistId, song.id), playlistId, catalog);
            forall s :: s in after <==> s in PlaylistSongs(db, playlistId, catalog) && s.id != song.id
  {
    forall x {
      RemoveMembership(db, playlistId, song.id, x);
    }
  }

  /** Removing from one playlist leaves every other playlist's screen as
      it was. */
  lemma RemoveLeavesOtherPlaylists(db: PlaylistDao.PlaylistDb, playlistId: int, other: int, catalog: seq<Song>, songId: int)
    requires other != playlistId
    ensures PlaylistSongs(PlaylistDao.RemoveSongFromPlaylist(db, playlistId, songId), other, catalog)
         == PlaylistSongs(db, other, catalog)
  {
    var r := PlaylistDao.RemoveSongFromPlaylist(db, playlistId, songId);
    assert PlaylistDao.EntriesOf(r, other) == PlaylistDao.EntriesOf(db, other);
  }
}
