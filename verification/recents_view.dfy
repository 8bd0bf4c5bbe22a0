/** `RecentsViewModel`: the recents screen shows the catalogue songs of the
    fifty most recent ids. */
module RecentsView {
  import opened Options
  import opened Model
  import opened Seqs
  import opened SongLookup

  const MaxRecents: nat := 50

  /** `recentIds.take(50).mapNotNull { id -> allSongs.find { it.id == id } }`. */
  function RecentSongs(recentIds: seq<int>, catalog: seq<Song>): (r: seq<Song>)
    ensures |r| <= MaxRecents
    ensures forall s :: s in r ==> s.id in Take(recentIds, MaxRecents)
    ensures forall s :: s in r ==> s in catalog && FindById(catalog, s.id) == Some(s)
    ensures forall id :: id in Take(recentIds, MaxRecents) && FindById(catalog, id).Some? ==>
      FindById(catalog, id).value in r
  {
    ResolveIds(catalog, Take(recentIds, MaxRecents))
  }

  /** Ids after the fiftieth never show, even when some of the first fifty
      have no song: a missing id leaves a gap rather than making room. */
  lemma LaterIdsIgnored(recentIds: seq<int>, later: seq<int>)
    requires |recentIds| >= MaxRecents
    ensures forall catalog :: RecentSongs(recentIds + later, catalog) == RecentSongs(recentIds, catalog)
  {
    assert Take(recentIds + later, MaxRecents) == Take(recentIds, MaxRecents);
  }

  /** The songs appear in the order of the ids. */
  lemma RecentSongsFollowIds(recentIds: seq<int>, catalog: seq<Song>, k: nat)
    requires k <= |recentIds| && k <= MaxRecents
    ensures RecentSongs(recentIds, catalog) ==
      ResolveIds(catalog, recentIds[..k]) + ResolveIds(catalog, Take(recentIds, MaxRecents)[k..])
  {
    var ids := Take(recentIds, MaxRecents);
    assert ids == recentIds[..k] + ids[k..];
    ResolveFollowsIds(catalog, recentIds[..k], ids[k..]);
  }
}
