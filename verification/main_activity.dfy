/** `AppNavigation` in `MainActivity`: which routes show the search button,
    and how the id arguments of the detail routes are read. */
module MainActivity {
  import opened Options
  import opened Numeric
  import opened Text
  import opened Decimal

  /** The routes the navigation graph registers. */
  const Home: string := "home"
  const Songs: string := "songs"
  const Albums: string := "albums"
  const AlbumDetail: string := "albums/{albumId}"
  const Artists: string := "artists"
  const ArtistDetail: string := "artists/{artistId}"
  const Folders: string := "folders"
  const Playlists: string := "playlists"
  const PlaylistDetail: string := "playlists/{playlistId}"
  const Favorites: string := "favorites"
  const Recents: string := "recents"

  const Routes: seq<string> :=
    [Home, Songs, Albums, AlbumDetail, Artists, ArtistDetail, Folders, Playlists, PlaylistDetail, Favorites, Recents]

  /** `showSearchButton` as written, with the `"artists/"` test twice;
      a missing route (`null`) never shows it. */
  function ShowSearchButton(route: Option<string>): (b: bool)
    ensures route.None? ==> !b
  {
    route.Some? &&
    (|| route.value == Songs
     || route.value == Favorites
     || route.value == Recents
     || StartsWith(route.value, "artists/")
     || StartsWith(route.value, "albums/")
     || StartsWith(route.value, "artists/"))
  }

  /** The predicate with each test once: the screens that host a song list
      with search, by exact name or by prefix. */
  predicate SearchRoute(route: string) {
    route in {Songs, Favorites, Recents} || StartsWith(route, "artists/") || StartsWith(route, "albums/")
  }

  /** The repeated `"artists/"` clause changes nothing. */
  lemma DuplicateClauseIsRedundant(route: Option<string>)
    ensures ShowSearchButton(route) <==> route.Some? && SearchRoute(route.value)
  {
  }

  /** Of the registered routes, exactly the song list, favourites, recents
      and the album and artist detail screens show the button. */
  lemma RegisteredRoutes()
    ensures forall i :: 0 <= i < |Routes| ==>
      (ShowSearchButton(Some(Routes[i])) <==> Routes[i] in {Songs, Favorites, Recents, AlbumDetail, ArtistDetail})
  {
    assert StartsWith(AlbumDetail, "albums/");
    assert StartsWith(ArtistDetail, "artists/");
    forall r | r in [Home, Songs, Albums, Artists, Folders, Playlists, PlaylistDetail, Favorites, Recents]
      ensures !StartsWith(r, "albums/") && !StartsWith(r, "artists/")
    {
      if r == Albums {
        assert |r| == 6;
      } else if r == Artists {
        assert |r| == 7 && r[..7][1] != "albums/"[1];
      } else {
        FirstCharDiffers(r, "albums/");
        FirstCharDiffers(r, "artists/");
      }
    }
  }

  lemma FirstCharDiffers(s: string, prefix: string)
    requires |s| > 0 && |prefix| > 0 && s[0] != prefix[0]
    ensures !StartsWith(s, prefix)
  {
  }

  /** `arguments?.getString(..)?.toLongOrNull() ?: 0L`: the id a detail
      route passes on, 0 when the argument is missing or not a number. */
  function RouteArg(arg: Option<string>): (id: int)
    ensures IsLong(id)
    ensures arg.None? ==> id == 0
    ensures arg.Some? && ParseLong(arg.value).None? ==> id == 0
    ensures arg.Some? && ParseLong(arg.value).Some? ==> id == ParseLong(arg.value).value
  {
    if arg.None? then 0 else ParseLong(arg.value).GetOr(0)
  }

  /** An id written into the route comes back unchanged. */
  lemma RouteArgRoundTrip(id: int)
    requires IsLong(id)
    ensures RouteArg(Some(IntToDecimal(id))) == id
  {
    ParseLongOfDecimal(id);
  }

  /** Any character other than a digit after an optional sign makes the
      argument read as 0. */
  lemma NonNumericArgIsZero(s: string, i: int)
    requires 0 <= i < |s| && !IsDigit(s[i])
    requires i > 0 || (s[0] != '-' && s[0] != '+')
    ensures RouteArg(Some(s)) == 0
  {
    ParseLongRejectsNonDigit(s, i);
  }
}
