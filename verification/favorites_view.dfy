/** `FavoritesViewModel`: the favourites screen shows the catalogue songs
    whose id is a favourite, in catalogue order. */
module FavoritesView {
  import opened Model
  import opened Seqs

  function IdIn(ids: seq<int>): Song -> bool {
    (s: Song) => s.id in ids
  }

  /** `allSongs.filter { it.id in favoriteIds }`. */
  function FavoriteSongs(catalog: seq<Song>, favoriteIds: seq<int>): (r: seq<Song>)
    ensures forall s :: s in r <==> s in catalog && s.id in favoriteIds
    ensures forall s: Song :: s.id in favoriteIds ==> Count(r, s) == Count(catalog, s)
    ensures multiset(r) <= multiset(catalog)
  {
    var r := Filter(catalog, IdIn(favoriteIds));
    forall s: Song | s.id in favoriteIds ensures Count(r, s) == Count(catalog, s) {
      FilterMultiplicity(catalog, IdIn(favoriteIds), s);
    }
    r
  }

  /** The result keeps catalogue order: it filters each part of the
      catalogue separately. */
  lemma FavoriteSongsKeepCatalogOrder(a: seq<Song>, b: seq<Song>, favoriteIds: seq<int>)
    ensures FavoriteSongs(a + b, favoriteIds) == FavoriteSongs(a, favoriteIds) + FavoriteSongs(b, favoriteIds)
  {
    FilterConcat(a, b, IdIn(favoriteIds));
  }

  /** Only which ids are favourites matters, not their order or repetition. */
  lemma FavoriteSongsIgnoreIdOrder(catalog: seq<Song>, ids1: seq<int>, ids2: seq<int>)
    requires forall x :: x in ids1 <==> x in ids2
    ensures FavoriteSongs(catalog, ids1) == FavoriteSongs(catalog, ids2)
  {
    FilterCongruent(catalog, IdIn(ids1), IdIn(ids2));
  }
}
