/** The app's records: the catalogue types (`Song`, `Album`, `Artist`,
    `Folder`), the playlist record, and the rows of the three Room tables.
    Kotlin `Long` ids and timestamps are `int`; `Uri` and `Bitmap` are
    opaque handles compared by identity. */
module Model {
  import opened Options

  /** An opaque content locator. */
  datatype Uri = Uri(handle: int)

  /** An opaque decoded image. */
  datatype Bitmap = Bitmap(handle: int)

  datatype Song = Song(
    id: int,
    title: string,
    artist: string,
    album: string,
    albumId: int,
    artistId: int,
    duration: int,
    uri: Uri,
    dateAdded: int,
    folderPath: string,
    artwork: Option<Bitmap>)

  datatype Album = Album(id: int, name: string, artist: string, songCount: int, year: int)

  datatype Artist = Artist(id: int, name: string, albumCount: int, trackCount: int)

  /** A folder of the catalogue with the number of songs directly in it. */
  datatype Folder = Folder(path: string, name: string, count: int)

  /** A row of `playlists`. */
  datatype Playlist = Playlist(id: int, name: string, createdAt: int)

  /** A row of `favorite_songs`; `id` is the auto-generated key. */
  datatype FavoriteSong = FavoriteSong(id: int, songId: int)

  /** A row of `recent_songs`; `id` is the auto-generated key. */
  datatype RecentSong = RecentSong(id: int, songId: int, playedAt: int)

  /** A row of `playlist_songs`; `id` is the auto-generated key. */
  datatype PlaylistSong = PlaylistSong(id: int, playlistId: int, songId: int)
}
