/** Resolving stored song ids against the catalogue, as the recents view
    and the playlist screen do: `ids.mapNotNull { id -> allSongs.find { it.id == id } }`. */
module SongLookup {
  import opened Options
  import opened Model
  import opened Seqs

  function HasSongId(id: int): Song -> bool {
    (s: Song) => s.id == id
  }

  /** `allSongs.find { it.id == id }`: the first catalogue song with the id. */
  function FindById(catalog: seq<Song>, id: int): (r: Option<Song>)
    ensures r.None? <==> forall j :: 0 <= j < |catalog| ==> catalog[j].id != id
    ensures r.Some? ==> r.value in catalog && r.value.id == id
    ensures r.Some? ==> exists i :: 0 <= i < |catalog| && catalog[i] == r.value &&
                                    forall j :: 0 <= j < i ==> catalog[j].id != id
  {
    var r := Find(catalog, HasSongId(id));
    assert r.Some? ==> r.value.id == id;
    r
  }

  function Lookup(catalog: seq<Song>): int -> Option<Song> {
    (id: int) => FindById(catalog, id)
  }

  /** Each id in order, replaced by its song; ids with no song are dropped. */
  function ResolveIds(catalog: seq<Song>, ids: seq<int>): (r: seq<Song>)
    ensures |r| <= |ids|
    ensures forall s :: s in r ==> s in catalog && s.id in ids && FindById(catalog, s.id) == Some(s)
    ensures forall id :: id in ids && FindById(catalog, id).Some? ==> FindById(catalog, id).value in r
  {
    var r := MapNotNull(ids, Lookup(catalog));
    assert forall s :: s in r ==> exists id :: id in ids && FindById(catalog, id) == Some(s);
    r
  }

  /** The result follows the order of the ids. */
  lemma ResolveFollowsIds(catalog: seq<Song>, a: seq<int>, b: seq<int>)
    ensures ResolveIds(catalog, a + b) == ResolveIds(catalog, a) + ResolveIds(catalog, b)
  {
    MapNotNullConcat(a, b, Lookup(catalog));
  }

  /** One id resolves to its song, or to nothing. */
  lemma ResolveOne(catalog: seq<Song>, id: int)
    ensures ResolveIds(catalog, [id]) == if FindById(catalog, id).Some? then [FindById(catalog, id).value] else []
  {
    assert [id][1..] == [];
  }

  /** An id with no song contributes nothing: it is dropped, not replaced. */
  lemma ResolveDropsMissing(catalog: seq<Song>, a: seq<int>, id: int, b: seq<int>)
    requires FindById(catalog, id).None?
    ensures ResolveIds(catalog, a + [id] + b) == ResolveIds(catalog, a) + ResolveIds(catalog, b)
  {
    ResolveFollowsIds(catalog, a + [id], b);
    ResolveFollowsIds(catalog, a, [id]);
    ResolveOne(catalog, id);
  }

  /** A song appears once for every occurrence of its id. */
  lemma {:induction false} ResolveCopies(catalog: seq<Song>, ids: seq<int>, s: Song)
    requires FindById(catalog, s.id) == Some(s)
    ensures Count(ResolveIds(catalog, ids), s) == Count(ids, s.id)
    decreases |ids|
  {
    if |ids| > 0 {
      var id := ids[0];
      assert ids == [id] + ids[1..];
      ResolveFollowsIds(catalog, [id], ids[1..]);
      ResolveOne(catalog, id);
      ResolveCopies(catalog, ids[1..], s);
      if id != s.id && FindById(catalog, id).Some? {
        assert FindById(catalog, id).value.id == id;
      }
    }
  }
}
