# vmusic core, modelled in Dafny

vmusic is an offline Android music player. It reads the device's audio
catalogue from MediaStore, plays it through a media3 controller, and keeps
three Room tables:

- favourite songs;
- recently played songs, one row per song with the time it was last played;
- playlists and their entries.

This project models the parts of the app that decide what the user sees
and what gets stored:

- **Tables.** The three DAOs act on in-memory tables. Each table is a
  sequence of rows plus the next key that SQLite's AUTOINCREMENT hands out.
  The repository that wraps the DAOs is modelled too.
- **Catalogue.** The MediaStore mapping from cursor rows to songs, albums,
  artists and folders, with its null defaults, folder grouping, filters and
  searches.
- **Sorting.** The ten catalogue sorts and the repository's four generic
  sorts. Each is a stable sort by key, and each is proved to be the only
  stable sort with its key.
- **Player.** The repository beside the media3 controller. The controller
  is an oracle whose reports are inputs; the repository's calls on it are a
  list of commands in the result.
- **Screens.** The shared song list (search, sort menu, click index); the
  recents, favourites, playlist and album screens; the player screen's
  clock; the navigation routes; the add-to-playlist dialog; and the
  launcher-icon switch.

Shared modules hold the rest:

- `Options`: an option type.
- `Numeric`: Kotlin `Long` range and truncating division.
- `Text`: ASCII case folding, the blank test over Kotlin's whitespace set (the Unicode spaces included), substring search.
- `Decimal`: printing and `toLongOrNull`.
- `Orders`: lexicographic order.
- `Seqs`: filter, count, find, `mapNotNull`, first-seen distinct.
- `Sorting`: stable insertion sort by key, and uniqueness of stable sorts.

Entities live in `Model`. Uris and bitmaps are opaque handles. Wherever the
app reads the clock, the time is a parameter (`now`).

## Model

| member | source | states |
|---|---|---|
| FavoriteDao.IsFavorite | app/src/main/java/mx/valdora/vmusic/data/dao/FavoriteDao.kt:21-22 | true exactly when some row carries the song id |
| FavoriteDao.AddFavorite | app/src/main/java/mx/valdora/vmusic/data/dao/FavoriteDao.kt:9-10 | appends one row under the next key to the song's rows, even if the song is already stored; other songs' rows and key order are kept |
| FavoriteDao.RemoveFavorite | app/src/main/java/mx/valdora/vmusic/data/dao/FavoriteDao.kt:12-13 | the song has no row left; other songs' rows, the key counter, key order and one-row-per-song are kept |
| FavoriteDao.ToggleFavorite | app/src/main/java/mx/valdora/vmusic/data/dao/FavoriteDao.kt:24-31 | flips whether the song is a favourite and touches no other song; keeps key order and one row per song |
| FavoriteDao.AddAbsentKeepsOneRow | app/src/main/java/mx/valdora/vmusic/data/dao/FavoriteDao.kt:24-31 | adding a song that is not yet a favourite keeps one row per song, which is why the toggle keeps it |
| FavoriteDao.ToggleTwiceRestoresRows | app/src/main/java/mx/valdora/vmusic/data/dao/FavoriteDao.kt:24-31 | toggling a non-favourite on and off gives back exactly the rows it started with |
| FavoriteDao.GetAllFavorites | app/src/main/java/mx/valdora/vmusic/data/dao/FavoriteDao.kt:15-16 | returns every row, as a permutation, since the query has no order |
| FavoriteDao.GetFavoriteSongIds | app/src/main/java/mx/valdora/vmusic/data/dao/FavoriteDao.kt:18-19 | one id per row: each song id appears exactly as many times as it has rows, so an id is listed exactly when that song is a favourite |
| RecentDao.AddRecentSong | app/src/main/java/mx/valdora/vmusic/data/dao/RecentDao.kt:9-10 | a row with a fresh key is added to the song's rows: the REPLACE conflict never fires on a new key; other songs untouched |
| RecentDao.RemoveRecentSong | app/src/main/java/mx/valdora/vmusic/data/dao/RecentDao.kt:21-22 | the song has no row left; other songs, the key counter and one-row-per-song are kept |
| RecentDao.ClearAllRecent | app/src/main/java/mx/valdora/vmusic/data/dao/RecentDao.kt:24-25 | no song has a row and the key counter is kept |
| RecentDao.UpdateRecentSong | app/src/main/java/mx/valdora/vmusic/data/dao/RecentDao.kt:27-31 | afterwards the song has exactly one row, stamped with the given time; other songs untouched; one row per song preserved |
| RecentDao.ReplayKeepsOneRowPerSong | app/src/main/java/mx/valdora/vmusic/data/dao/RecentDao.kt:27-31 | any sequence of plays recorded through the upsert keeps one row per song |
| RecentDao.ReplayLeavesOneRow | app/src/main/java/mx/valdora/vmusic/data/dao/RecentDao.kt:27-31 | every song played has exactly one row afterwards, whatever the table held |
| RecentDao.ReplayKeepsRows | app/src/main/java/mx/valdora/vmusic/data/dao/RecentDao.kt:27-31 | a song with one row keeps one row while other songs are played |
| RecentDao.GetAllRecentSongs | app/src/main/java/mx/valdora/vmusic/data/dao/RecentDao.kt:12-13 | a permutation of the rows with playedAt non-increasing |
| RecentDao.GetAllRecentSongsAsc | app/src/main/java/mx/valdora/vmusic/data/dao/RecentDao.kt:18-19 | a permutation of the rows with playedAt non-decreasing |
| RecentDao.GetRecentSongIds | app/src/main/java/mx/valdora/vmusic/data/dao/RecentDao.kt:15-16 | one id per row, newest first: the ids are the song ids of some permutation of the rows ordered by `playedAt` descending, so each song id appears exactly as many times as it has rows |
| RecentDao.RecentIdsMostRecentFirst | app/src/main/java/mx/valdora/vmusic/data/dao/RecentDao.kt:15-16 | with one row per song, the ids come out ordered from the most recent play to the oldest |
| PlaylistDao.GetPlaylistById | app/src/main/java/mx/valdora/vmusic/data/dao/PlaylistDao.kt:25-26 | a stored playlist with that key, and none exactly when no playlist has the key |
| PlaylistDao.GetPlaylistByIdUnique | app/src/main/java/mx/valdora/vmusic/data/dao/PlaylistDao.kt:25-26 | with ordered keys, every stored playlist is the one found under its key |
| PlaylistDao.CreatePlaylist | app/src/main/java/mx/valdora/vmusic/data/dao/PlaylistDao.kt:10-11 | returns the next key, which was unused and now finds the new playlist; lookups of other keys and the entries are unchanged |
| PlaylistDao.DeletePlaylistById | app/src/main/java/mx/valdora/vmusic/data/dao/PlaylistDao.kt:16-17 | removes exactly the playlists with that key, leaves every entry in place and keeps both key counters, so a deleted key is never issued again (AUTOINCREMENT) |
| PlaylistDao.DeletePlaylist | app/src/main/java/mx/valdora/vmusic/data/dao/PlaylistDao.kt:13-14 | deletes by the entity's primary key, with the same effect as deleting by id, both key counters kept |
| PlaylistDao.UpdatePlaylistName | app/src/main/java/mx/valdora/vmusic/data/dao/PlaylistDao.kt:19-20 | renames the playlists with that key, keeps every other field and row, and leaves the entries alone |
| PlaylistDao.GetAllPlaylists | app/src/main/java/mx/valdora/vmusic/data/dao/PlaylistDao.kt:22-23 | a permutation of the playlists with createdAt non-increasing |
| PlaylistDao.AddSongToPlaylist | app/src/main/java/mx/valdora/vmusic/data/dao/PlaylistDao.kt:28-29 | appends one entry under the next key to that playlist's entries, duplicate or not; other playlists untouched |
| PlaylistDao.IsSongInPlaylist | app/src/main/java/mx/valdora/vmusic/data/dao/PlaylistDao.kt:31-32 | true exactly when an entry pairs the playlist with the song |
| PlaylistDao.RemoveSongFromPlaylist | app/src/main/java/mx/valdora/vmusic/data/dao/PlaylistDao.kt:34-35 | every entry of the pair goes, other songs of the playlist and other playlists stay |
| PlaylistDao.GetSongIdsFromPlaylist | app/src/main/java/mx/valdora/vmusic/data/dao/PlaylistDao.kt:37-38 | one id per entry of the playlist: each song id appears exactly as many times as the playlist has entries for it |
| PlaylistDao.ClearPlaylist | app/src/main/java/mx/valdora/vmusic/data/dao/PlaylistDao.kt:40-41 | the playlist has no entries; other playlists' entries and the playlist rows are unchanged |
| PlaylistDao.DeleteLeavesEntries | app/src/main/java/mx/valdora/vmusic/data/dao/PlaylistDao.kt:16-17 | after deleting a playlist its song ids are still listed under its key |
| PlaylistDao.AddTwiceListsTwice | app/src/main/java/mx/valdora/vmusic/data/dao/PlaylistDao.kt:28-29 | adding a song already in the playlist makes it listed at least twice |
| Sorting.SortByAlphaAsc | app/src/main/java/mx/valdora/vmusic/data/repository/RoomRepository.kt:101-103 | a permutation ordered by lowercase key, keeping input order among equal keys |
| Sorting.SortByAlphaDesc | app/src/main/java/mx/valdora/vmusic/data/repository/RoomRepository.kt:105-107 | a permutation in reverse lowercase-key order, stable among equal keys |
| Sorting.SortByDateAsc | app/src/main/java/mx/valdora/vmusic/data/repository/RoomRepository.kt:109-111 | a permutation with non-decreasing key, stable among equal keys |
| Sorting.SortByDateDesc | app/src/main/java/mx/valdora/vmusic/data/repository/RoomRepository.kt:113-115 | a permutation with non-increasing key, stable among equal keys |
| Sorting.SortByAlphaAscUnique | app/src/main/java/mx/valdora/vmusic/data/repository/RoomRepository.kt:101-103 | any stable permutation sorted by the lowercase key equals the result, so the contract fixes it completely |
| Sorting.SortByAlphaDescUnique | app/src/main/java/mx/valdora/vmusic/data/repository/RoomRepository.kt:105-107 | the same uniqueness for the descending alphabetical sort |
| Sorting.SortByDateAscUnique | app/src/main/java/mx/valdora/vmusic/data/repository/RoomRepository.kt:109-111 | the same uniqueness for the ascending numeric sort |
| Sorting.SortByDateDescUnique | app/src/main/java/mx/valdora/vmusic/data/repository/RoomRepository.kt:113-115 | the same uniqueness for the descending numeric sort |
| RoomRepository.CreatePlaylist | app/src/main/java/mx/valdora/vmusic/data/repository/RoomRepository.kt:18-20 | a new playlist with the name and the given time is found under the returned key, which was unused; other keys unchanged |
| RoomRepository.DeletePlaylist | app/src/main/java/mx/valdora/vmusic/data/repository/RoomRepository.kt:22-24 | exactly the playlists with that key are gone, every entry stays (so its song ids are still listed) and both key counters are kept |
| RoomRepository.GetAllPlaylists | app/src/main/java/mx/valdora/vmusic/data/repository/RoomRepository.kt:26-28 | all playlists, newest first |
| RoomRepository.GetPlaylistById | app/src/main/java/mx/valdora/vmusic/data/repository/RoomRepository.kt:30-32 | the playlist with that key, or none exactly when no playlist has it |
| RoomRepository.AddSongToPlaylist | app/src/main/java/mx/valdora/vmusic/data/repository/RoomRepository.kt:34-36 | the entry (next entry key, playlist, song) is appended to that playlist's entries; other playlists' entries and the playlists are unchanged |
| RoomRepository.AddSongToPlaylistDuplicates | app/src/main/java/mx/valdora/vmusic/data/repository/RoomRepository.kt:34-36 | a song already present is listed at least twice after a second add |
| RoomRepository.RemoveSongFromPlaylist | app/src/main/java/mx/valdora/vmusic/data/repository/RoomRepository.kt:38-40 | the playlist's entries lose exactly those of the song; other playlists' entries and the playlists are unchanged |
| RoomRepository.GetSongsFromPlaylist | app/src/main/java/mx/valdora/vmusic/data/repository/RoomRepository.kt:42-44 | the DAO's list: one id per entry, each song as many times as the playlist has entries for it |
| RoomRepository.ClearPlaylist | app/src/main/java/mx/valdora/vmusic/data/repository/RoomRepository.kt:46-48 | the playlist lists no songs; other playlists list the same ids |
| RoomRepository.ToggleFavorite | app/src/main/java/mx/valdora/vmusic/data/repository/RoomRepository.kt:51-53 | flips the song's favourite status and no other song's, preserving one row per song |
| RoomRepository.AddFavorite | app/src/main/java/mx/valdora/vmusic/data/repository/RoomRepository.kt:55-57 | the row (next key, song) is appended to the song's rows, even if it already had one; other songs' rows are unchanged |
| RoomRepository.RemoveFavorite | app/src/main/java/mx/valdora/vmusic/data/repository/RoomRepository.kt:59-61 | the song is not a favourite; other songs' status is unchanged |
| RoomRepository.GetAllFavorites | app/src/main/java/mx/valdora/vmusic/data/repository/RoomRepository.kt:63-65 | all rows, in some order |
| RoomRepository.GetFavoriteSongIds | app/src/main/java/mx/valdora/vmusic/data/repository/RoomRepository.kt:67-69 | the DAO's list: one id per favourite row, each song as many times as it has rows |
| RoomRepository.IsFavorite | app/src/main/java/mx/valdora/vmusic/data/repository/RoomRepository.kt:71-73 | true exactly when a row carries the song |
| RoomRepository.AddRecentSong | app/src/main/java/mx/valdora/vmusic/data/repository/RoomRepository.kt:76-78 | goes through the upsert: the song has exactly one row, stamped now; others untouched |
| RoomRepository.GetAllRecentSongs | app/src/main/java/mx/valdora/vmusic/data/repository/RoomRepository.kt:80-82 | all rows, most recent first |
| RoomRepository.GetRecentSongIds | app/src/main/java/mx/valdora/vmusic/data/repository/RoomRepository.kt:84-86 | the DAO's list: the song ids of the rows ordered by `playedAt` descending, each song as many times as it has rows |
| RoomRepository.GetAllRecentSongsAsc | app/src/main/java/mx/valdora/vmusic/data/repository/RoomRepository.kt:88-90 | all rows, oldest first |
| RoomRepository.RemoveRecentSong | app/src/main/java/mx/valdora/vmusic/data/repository/RoomRepository.kt:92-94 | the song has no row; other songs untouched |
| RoomRepository.ClearAllRecent | app/src/main/java/mx/valdora/vmusic/data/repository/RoomRepository.kt:96-98 | the table is empty |
| SortUtils.SortSongsByAlphaAsc | app/src/main/java/mx/valdora/vmusic/data/util/SortUtils.kt:8 | a stable permutation of the songs by lowercase title, A to Z |
| SortUtils.SortSongsByAlphaDesc | app/src/main/java/mx/valdora/vmusic/data/util/SortUtils.kt:9 | a stable permutation by lowercase title, Z to A |
| SortUtils.SortSongsByDateAsc | app/src/main/java/mx/valdora/vmusic/data/util/SortUtils.kt:10 | a stable permutation by date added, oldest first |
| SortUtils.SortSongsByDateDesc | app/src/main/java/mx/valdora/vmusic/data/util/SortUtils.kt:11 | a stable permutation by date added, newest first |
| SortUtils.SortAlbumsByAlphaAsc | app/src/main/java/mx/valdora/vmusic/data/util/SortUtils.kt:13 | a stable permutation of the albums by lowercase name, A to Z |
| SortUtils.SortAlbumsByAlphaDesc | app/src/main/java/mx/valdora/vmusic/data/util/SortUtils.kt:14 | a stable permutation by lowercase name, Z to A |
| SortUtils.SortAlbumsByDateAsc | app/src/main/java/mx/valdora/vmusic/data/util/SortUtils.kt:15 | a stable permutation by year, earliest first |
| SortUtils.SortAlbumsByDateDesc | app/src/main/java/mx/valdora/vmusic/data/util/SortUtils.kt:16 | a stable permutation by year, latest first |
| SortUtils.SortArtistsByAlphaAsc | app/src/main/java/mx/valdora/vmusic/data/util/SortUtils.kt:18 | a stable permutation of the artists by lowercase name, A to Z |
| SortUtils.SortArtistsByAlphaDesc | app/src/main/java/mx/valdora/vmusic/data/util/SortUtils.kt:19 | a stable permutation by lowercase name, Z to A |
| SortUtils.SongsAlphaAscIdempotent | app/src/main/java/mx/valdora/vmusic/data/util/SortUtils.kt:8 | sorting an already sorted list by title changes nothing |
| Sorting.StableSortUnique | app/src/main/java/mx/valdora/vmusic/data/util/SortUtils.kt:8-19 | two stable permutations of one list sorted by the same key under a total order are equal |
| MediaStore.SongOfRow | app/src/main/java/mx/valdora/vmusic/data/repository/MediaStoreRepository.kt:49-63 | a null title, artist or album becomes "Unknown", "Unknown Artist" or "Unknown Album"; other columns are copied and the uri is the id's content uri |
| MediaStore.AlbumOfRow | app/src/main/java/mx/valdora/vmusic/data/repository/MediaStoreRepository.kt:91-99 | a null album name or artist becomes its default; the other columns are copied |
| MediaStore.ArtistOfRow | app/src/main/java/mx/valdora/vmusic/data/repository/MediaStoreRepository.kt:125-132 | a null artist name becomes "Unknown Artist"; the counts are copied |
| MediaStore.GetAllSongs | app/src/main/java/mx/valdora/vmusic/data/repository/MediaStoreRepository.kt:18-66 | one song per cursor row, in row order, each built from its own row's columns |
| MediaStore.FileName | app/src/main/java/mx/valdora/vmusic/data/repository/MediaStoreRepository.kt:143-146 | the longest suffix of the path without '/', which follows a '/' unless it is the whole path |
| MediaStore.CountPaths | app/src/main/java/mx/valdora/vmusic/data/repository/MediaStoreRepository.kt:139-142 | the grouping loop yields one entry per distinct path in first-seen order, each counting that path's occurrences |
| MediaStore.GetFolders | app/src/main/java/mx/valdora/vmusic/data/repository/MediaStoreRepository.kt:137-147 | one folder per distinct path in first-seen order, counting its songs and named by its last component; the counts add up to the number of songs |
| MediaStore.GetSongsByAlbum | app/src/main/java/mx/valdora/vmusic/data/repository/MediaStoreRepository.kt:149-151 | exactly the songs of the album, each as often as in the catalogue |
| MediaStore.GetSongsByArtist | app/src/main/java/mx/valdora/vmusic/data/repository/MediaStoreRepository.kt:153-155 | exactly the songs of the artist, each as often as in the catalogue |
| MediaStore.GetSongsByFolder | app/src/main/java/mx/valdora/vmusic/data/repository/MediaStoreRepository.kt:157-159 | exactly the songs in the folder, each as often as in the catalogue |
| MediaStore.FiltersKeepCatalogOrder | app/src/main/java/mx/valdora/vmusic/data/repository/MediaStoreRepository.kt:149-159 | the three filters distribute over concatenation, so they keep catalogue order |
| MediaStore.FolderCountMatchesFilter | app/src/main/java/mx/valdora/vmusic/data/repository/MediaStoreRepository.kt:137-159 | a folder's count equals the number of songs the folder filter returns for it |
| MediaStore.SearchSongs | app/src/main/java/mx/valdora/vmusic/data/repository/MediaStoreRepository.kt:186-193 | exactly the songs whose lowercased title, artist or album contains the lowercased query, each kept as often as the catalogue holds it, in catalogue order |
| MediaStore.SearchSongsEmptyKeepsAll | app/src/main/java/mx/valdora/vmusic/data/repository/MediaStoreRepository.kt:186-193 | an empty query returns the whole catalogue in order |
| MediaStore.SearchAlbums | app/src/main/java/mx/valdora/vmusic/data/repository/MediaStoreRepository.kt:195-201 | exactly the albums whose name or artist contains the query, ignoring case, each kept as often as the input holds it |
| MediaStore.SearchArtists | app/src/main/java/mx/valdora/vmusic/data/repository/MediaStoreRepository.kt:203-208 | exactly the artists whose name contains the query, ignoring case, each kept as often as the input holds it |
| MediaStore.SearchesKeepOrder | app/src/main/java/mx/valdora/vmusic/data/repository/MediaStoreRepository.kt:186-208 | the three searches distribute over concatenation, so they keep input order |
| MusicPlayer.LoadArtwork | app/src/main/java/mx/valdora/vmusic/player/MusicPlayerRepository.kt:226-241 | a song with artwork is returned as is; otherwise only its artwork changes, to what the lookup found |
| MusicPlayer.LoadArtworkIdempotent | app/src/main/java/mx/valdora/vmusic/player/MusicPlayerRepository.kt:226-241 | once artwork was found, loading again changes nothing |
| MusicPlayer.Play | app/src/main/java/mx/valdora/vmusic/player/MusicPlayerRepository.kt:93-109 | the queue is the one song, which becomes current with its artwork; setMediaItem, prepare, play are sent when connected; the song is recorded once; playing flag, position, duration and modes are kept |
| MusicPlayer.PlayQueue | app/src/main/java/mx/valdora/vmusic/player/MusicPlayerRepository.kt:111-129 | an empty list changes nothing; otherwise the list is the queue, the start song is current and recorded, and all items are sent with the start index; the other player fields are kept; nothing is sent when disconnected |
| MusicPlayer.Pause | app/src/main/java/mx/valdora/vmusic/player/MusicPlayerRepository.kt:131-133 | state unchanged; a pause is sent exactly when connected |
| MusicPlayer.Resume | app/src/main/java/mx/valdora/vmusic/player/MusicPlayerRepository.kt:135-137 | state unchanged; a play is sent exactly when connected |
| MusicPlayer.Seek | app/src/main/java/mx/valdora/vmusic/player/MusicPlayerRepository.kt:139-141 | the position is sent unclamped, and nothing when disconnected |
| MusicPlayer.OnIsPlayingChanged | app/src/main/java/mx/valdora/vmusic/player/MusicPlayerRepository.kt:71-73 | only the playing flag changes, to the reported value |
| MusicPlayer.Forward10 | app/src/main/java/mx/valdora/vmusic/player/MusicPlayerRepository.kt:153-158 | one seek to ten seconds on or to the duration, whichever is smaller |
| MusicPlayer.Rewind10 | app/src/main/java/mx/valdora/vmusic/player/MusicPlayerRepository.kt:160-165 | one seek to ten seconds back or to 0, whichever is larger |
| MusicPlayer.SkipsAreSeeks | app/src/main/java/mx/valdora/vmusic/player/MusicPlayerRepository.kt:139-165 | away from the clamps, forward10 and rewind10 are plain seeks by ten seconds |
| MusicPlayer.ForwardThenRewind | app/src/main/java/mx/valdora/vmusic/player/MusicPlayerRepository.kt:153-165 | inside the track, rewinding after forwarding returns to the start position |
| MusicPlayer.Poll | app/src/main/java/mx/valdora/vmusic/player/MusicPlayerRepository.kt:84-87 | copies the position and a duration clamped at 0; nothing else changes |
| MusicPlayer.RepeatConst | app/src/main/java/mx/valdora/vmusic/player/MusicPlayerRepository.kt:182-186 | each mode maps to one of media3's three repeat constants |
| MusicPlayer.RepeatConstRoundTrip | app/src/main/java/mx/valdora/vmusic/player/MusicPlayerRepository.kt:182-186 | the mode-to-constant map is a bijection onto the three constants |
| MusicPlayer.ToggleRepeat | app/src/main/java/mx/valdora/vmusic/player/MusicPlayerRepository.kt:175-187 | only the repeat mode changes, to a different mode, and its constant is sent |
| MusicPlayer.ToggleRepeatCycle | app/src/main/java/mx/valdora/vmusic/player/MusicPlayerRepository.kt:176-180 | three presses restore the state, two do not |
| MusicPlayer.ToggleShuffle | app/src/main/java/mx/valdora/vmusic/player/MusicPlayerRepository.kt:167-173 | only the shuffle mode changes, and the controller is told whether it is on |
| MusicPlayer.ToggleShuffleTwice | app/src/main/java/mx/valdora/vmusic/player/MusicPlayerRepository.kt:167-173 | two presses restore the state |
| MusicPlayer.UpdateCurrentSong | app/src/main/java/mx/valdora/vmusic/player/MusicPlayerRepository.kt:207-224 | no controller, no item or an index past the queue changes nothing; the same song with artwork is kept unrecorded; otherwise the queue song becomes current and is recorded |
| MusicPlayer.UpdateTwiceRecordsOnce | app/src/main/java/mx/valdora/vmusic/player/MusicPlayerRepository.kt:207-224 | a transition reported twice records the song once when artwork was found |
| MusicPlayer.UpdateWithoutArtworkRecordsAgain | app/src/main/java/mx/valdora/vmusic/player/MusicPlayerRepository.kt:215-222 | a song without artwork is recorded again on every repeated transition |
| MusicPlayer.PlayThenTransitionRecordsOnce | app/src/main/java/mx/valdora/vmusic/player/MusicPlayerRepository.kt:93-109 | play followed by the controller's transition records the song once when its artwork is found |
| MusicPlayer.SkipNext | app/src/main/java/mx/valdora/vmusic/player/MusicPlayerRepository.kt:143-146 | sends seekToNext when connected, then re-reads the current song from the controller's new report |
| MusicPlayer.SkipPrevious | app/src/main/java/mx/valdora/vmusic/player/MusicPlayerRepository.kt:148-151 | sends seekToPrevious when connected, then re-reads the current song |
| MusicPlayer.ToggleFavorite | app/src/main/java/mx/valdora/vmusic/player/MusicPlayerRepository.kt:189-195 | check-then-act flips whether the song is a favourite |
| MusicPlayer.ToggleFavoriteMatchesDao | app/src/main/java/mx/valdora/vmusic/player/MusicPlayerRepository.kt:189-195 | with nothing in between it equals the DAO's transactional toggle |
| MusicPlayer.PlayRecordsSong | app/src/main/java/mx/valdora/vmusic/player/MusicPlayerRepository.kt:201-205 | after play's recents write the song has exactly one row, stamped with the write time |
| Text.UnicodeSpacesAreBlank | app/src/main/java/mx/valdora/vmusic/ui/components/SongsList.kt:79 | `isBlank` holds for no-break, figure and ideographic spaces, and fails for zero-width space, the byte-order mark and any visible letter |
| SongsList.SearchFilter | app/src/main/java/mx/valdora/vmusic/ui/components/SongsList.kt:79-87 | a blank query keeps the list; otherwise exactly the songs whose title, artist or album contains it, ignoring case, each kept as often as the list holds it |
| SongsList.ApplySortOrder | app/src/main/java/mx/valdora/vmusic/ui/components/SongsList.kt:89-95 | a permutation, ordered as each of the four order names says, with songs of equal key kept in input order (a stable sort); an unknown name keeps the list |
| SongsList.ApplySortOrderUnique | app/src/main/java/mx/valdora/vmusic/ui/components/SongsList.kt:89-95 | any permutation that is ordered and stable as the order name asks is exactly the sorted list |
| SongsList.DateTiesKeepListOrder | app/src/main/java/mx/valdora/vmusic/ui/components/SongsList.kt:92-93 | two songs added in the same second keep their list order under both date orders |
| SongsList.FilteredSongs | app/src/main/java/mx/valdora/vmusic/ui/components/SongsList.kt:78-96 | the shown songs are exactly the inputs the query matches, with multiplicity, sorted stably by the chosen order relative to the filtered list; an unknown order keeps the filtered list |
| SongsList.SearchFilterMatchesCatalogSearch | app/src/main/java/mx/valdora/vmusic/ui/components/SongsList.kt:79-87 | for a non-blank query the list's filter equals the catalogue's search |
| SongsList.MenuOrdersAreKnown | app/src/main/java/mx/valdora/vmusic/ui/components/SongsList.kt:89-95 | every order the menu produces is one the list sorts by |
| SongsList.SearchButton | app/src/main/java/mx/valdora/vmusic/ui/components/SongsList.kt:35-41 | flips the search flag; closing clears the query, opening keeps it; the order is kept |
| SongsList.SearchButtonTwice | app/src/main/java/mx/valdora/vmusic/ui/components/SongsList.kt:35-41 | opening and closing leaves the state with an empty query |
| SongsList.OriginalIndex | app/src/main/java/mx/valdora/vmusic/ui/components/SongsList.kt:136-143 | the first index holding the song, or -1 when absent |
| SongsList.ClickIndexInRange | app/src/main/java/mx/valdora/vmusic/ui/components/SongsList.kt:136-143 | every shown row maps back to a valid index of the input holding the same song |
| SortMenu.AlfaClick | app/src/main/java/mx/valdora/vmusic/ui/components/SortDropdownMenu.kt:29-33 | gives "Alfa desc" exactly from "Alfa asc", otherwise "Alfa asc" |
| SortMenu.FechaClick | app/src/main/java/mx/valdora/vmusic/ui/components/SortDropdownMenu.kt:43-50 | gives "Fecha asc" exactly from "Fecha desc", otherwise "Fecha desc" |
| SortMenu.AlfaArrowTracksClick | app/src/main/java/mx/valdora/vmusic/ui/components/SortDropdownMenu.kt:29-38 | the arrow points north exactly when a press would sort Z to A, and flips on every press from an alphabetical order |
| SortMenu.Run | app/src/main/java/mx/valdora/vmusic/ui/components/SortDropdownMenu.kt:29-59 | after any press the order is one of the four names |
| SortMenu.AlfaOnlyStaysAlphabetic | app/src/main/java/mx/valdora/vmusic/ui/components/SortDropdownMenu.kt:29-33 | without the date item an alphabetical order stays alphabetical |
| SortMenu.AlfaParity | app/src/main/java/mx/valdora/vmusic/ui/components/SortDropdownMenu.kt:29-33 | from "Alfa asc", an even number of presses ends at "Alfa asc" and an odd number at "Alfa desc" |
| SongLookup.FindById | app/src/main/java/mx/valdora/vmusic/ui/viewmodel/RecentsViewModel.kt:31 | the first catalogue song with the id, or none exactly when no song has it |
| SongLookup.ResolveIds | app/src/main/java/mx/valdora/vmusic/ui/viewmodel/RecentsViewModel.kt:31 | at most one song per id, only found songs, and every id that has a song contributes it |
| SongLookup.ResolveFollowsIds | app/src/main/java/mx/valdora/vmusic/ui/viewmodel/RecentsViewModel.kt:31 | resolution distributes over concatenation, so songs follow the order of the ids |
| SongLookup.ResolveDropsMissing | app/src/main/java/mx/valdora/vmusic/ui/viewmodel/RecentsViewModel.kt:31 | an id with no song is dropped, not replaced |
| SongLookup.ResolveCopies | app/src/main/java/mx/valdora/vmusic/ui/screens/PlaylistDetailScreen.kt:52 | a song appears once per occurrence of its id |
| RecentsView.RecentSongs | app/src/main/java/mx/valdora/vmusic/ui/viewmodel/RecentsViewModel.kt:31 | at most fifty songs, all from the first fifty ids, and every one of those ids with a song contributes it |
| RecentsView.LaterIdsIgnored | app/src/main/java/mx/valdora/vmusic/ui/viewmodel/RecentsViewModel.kt:31 | ids after the fiftieth never show |
| RecentsView.RecentSongsFollowIds | app/src/main/java/mx/valdora/vmusic/ui/viewmodel/RecentsViewModel.kt:31 | the songs come in the order of the ids |
| FavoritesView.FavoriteSongs | app/src/main/java/mx/valdora/vmusic/ui/viewmodel/FavoritesViewModel.kt:31 | exactly the catalogue songs whose id is a favourite, with catalogue multiplicity |
| FavoritesView.FavoriteSongsKeepCatalogOrder | app/src/main/java/mx/valdora/vmusic/ui/viewmodel/FavoritesViewModel.kt:31 | the result keeps catalogue order |
| FavoritesView.FavoriteSongsIgnoreIdOrder | app/src/main/java/mx/valdora/vmusic/ui/viewmodel/FavoritesViewModel.kt:31 | only the set of favourite ids matters, not their order or repetition |
| PlaylistDetail.PlaylistSongs | app/src/main/java/mx/valdora/vmusic/ui/screens/PlaylistDetailScreen.kt:49-53 | at most one song per entry, and a song shows exactly when it is the catalogue's song for an id in the playlist |
| PlaylistDetail.PlaylistCopies | app/src/main/java/mx/valdora/vmusic/ui/screens/PlaylistDetailScreen.kt:52 | a song with k entries in the playlist's stored `playlist_songs` rows is shown k times |
| PlaylistDetail.RemoveMembership | app/src/main/java/mx/valdora/vmusic/ui/screens/PlaylistDetailScreen.kt:121-125 | after removal a song is in the playlist exactly when it was and is not the removed one |
| PlaylistDetail.RemoveHidesOnlyThatSong | app/src/main/java/mx/valdora/vmusic/ui/screens/PlaylistDetailScreen.kt:121-125 | the shown songs afterwards are those shown before except the removed song |
| PlaylistDetail.RemoveLeavesOtherPlaylists | app/src/main/java/mx/valdora/vmusic/ui/screens/PlaylistDetailScreen.kt:121-125 | other playlists list the same ids |
| SongActions.PlayOnClick | app/src/main/java/mx/valdora/vmusic/ui/screens/PlaylistDetailScreen.kt:106-110 | nothing is played exactly when the clicked song is the current one; otherwise the list is queued from the index |
| SongActions.ToggleBySnapshot | app/src/main/java/mx/valdora/vmusic/ui/screens/AlbumDetailScreen.kt:147-155 | decided by the displayed id list: listed songs are removed, others gain one row; no other song changes |
| SongActions.ToggleBySnapshotIsToggle | app/src/main/java/mx/valdora/vmusic/ui/screens/PlaylistDetailScreen.kt:111-119 | with an up-to-date list it equals the DAO's toggle |
| SongActions.StaleSnapshotDuplicates | app/src/main/java/mx/valdora/vmusic/ui/screens/PlaylistDetailScreen.kt:111-119 | with a stale list that misses a stored favourite, the song ends up stored twice |
| SongActions.ClickPlaysClickedSong | app/src/main/java/mx/valdora/vmusic/ui/screens/AlbumDetailScreen.kt:141-145 | a click on any shown row passes a valid index, and when it plays, the clicked song becomes current |
| PlayerScreen.MinutesSeconds | app/src/main/java/mx/valdora/vmusic/ui/screens/PlayerScreen.kt:297-298 | minutes times 60 plus seconds is the truncated second count; seconds lie in 0..59 for non-negative input |
| PlayerScreen.FormatTime | app/src/main/java/mx/valdora/vmusic/ui/screens/PlayerScreen.kt:296-300 | the label holds a colon; for non-negative input it is digits, a colon and exactly two digits |
| PlayerScreen.ParseFormatTime | app/src/main/java/mx/valdora/vmusic/ui/screens/PlayerScreen.kt:296-300 | reading the label back gives the whole number of seconds |
| PlayerScreen.SameSecondSameLabel | app/src/main/java/mx/valdora/vmusic/ui/screens/PlayerScreen.kt:296-300 | two times get the same label exactly when they fall in the same second |
| PlayerScreen.CentreButton | app/src/main/java/mx/valdora/vmusic/ui/screens/PlayerScreen.kt:222-224 | sends pause exactly when playing and play exactly when paused and connected; the state is unchanged |
| PlayerScreen.CentreButtonAlternates | app/src/main/java/mx/valdora/vmusic/ui/screens/PlayerScreen.kt:222-224 | once the player reports the change a press asked for, the next press asks for the opposite one |
| AlbumDetail.FormatDuration | app/src/main/java/mx/valdora/vmusic/ui/screens/AlbumDetailScreen.kt:171-176 | "---" exactly for a non-positive duration, otherwise the player's minutes:seconds label |
| AlbumDetail.FormatDurationReadsBack | app/src/main/java/mx/valdora/vmusic/ui/screens/AlbumDetailScreen.kt:171-176 | a positive duration reads back as its whole seconds; "---" reads back as nothing |
| AlbumDetail.SubSecondShowsZero | app/src/main/java/mx/valdora/vmusic/ui/screens/AlbumDetailScreen.kt:171-176 | a positive duration under a second shows "0:00", not "---" |
| MainActivity.ShowSearchButton | app/src/main/java/mx/valdora/vmusic/MainActivity.kt:87-92 | no route never shows the search button |
| MainActivity.DuplicateClauseIsRedundant | app/src/main/java/mx/valdora/vmusic/MainActivity.kt:87-92 | the repeated "artists/" test changes nothing: the button shows exactly on the intended route set |
| MainActivity.RegisteredRoutes | app/src/main/java/mx/valdora/vmusic/MainActivity.kt:140-159 | among the registered routes, the button shows exactly on songs, favourites, recents and the album and artist details |
| MainActivity.RouteArg | app/src/main/java/mx/valdora/vmusic/MainActivity.kt:144 | a Long: the parsed argument, or 0 when missing or not a number |
| MainActivity.RouteArgRoundTrip | app/src/main/java/mx/valdora/vmusic/MainActivity.kt:144 | a route built from an id reads back that id |
| MainActivity.NonNumericArgIsZero | app/src/main/java/mx/valdora/vmusic/MainActivity.kt:149 | an argument holding a non-digit after its sign opens id 0 |
| Decimal.ParseLongOfDecimal | app/src/main/java/mx/valdora/vmusic/MainActivity.kt:155 | toLongOrNull reads back every printed Long |
| IconManager.ChangeIcon | app/src/main/java/mx/valdora/vmusic/data/util/IconManager.kt:14-30 | writes each of the three aliases once, in order; only the chosen index is enabled, and none when it is out of range |
| IconManager.AliasesDistinct | app/src/main/java/mx/valdora/vmusic/data/util/IconManager.kt:8-12 | the three alias names are distinct |
| AddToPlaylist.ChoosePlaylist | app/src/main/java/mx/valdora/vmusic/ui/components/AddToPlaylistDialog.kt:61-69 | afterwards the song is in the playlist; an existing pair changes nothing, otherwise one entry is added and nothing else changes |
| AddToPlaylist.ChooseKeepsPairsUnique | app/src/main/java/mx/valdora/vmusic/ui/components/AddToPlaylistDialog.kt:62-67 | choosing a playlist never stores a pair twice |
| AddToPlaylist.ChooseIdempotent | app/src/main/java/mx/valdora/vmusic/ui/components/AddToPlaylistDialog.kt:62-67 | choosing the same playlist twice is the same as once |
| AddToPlaylist.CreateWithSong | app/src/main/java/mx/valdora/vmusic/ui/components/AddToPlaylistDialog.kt:100-113 | a blank name changes nothing and yields no id; otherwise a playlist with the name and time is created under the next key with one entry for the song; other playlists' lookups and entries are unchanged |
| AddToPlaylist.CreatedHoldsOnlyTheSong | app/src/main/java/mx/valdora/vmusic/ui/components/AddToPlaylistDialog.kt:103-108 | the new playlist lists exactly the one song |

## Left out

- media3 internals are not modelled. This covers the controller's own queue, wrap-around, end-of-queue and shuffle order, the session service and the listener registration (`initialize`, `release`). Their effect reaches the model only through the controller's reports.
- `startPositionUpdates` repeats its body every 100 ms. Only one pass of that body is modelled (`MusicPlayer.Poll`).
- `isFavorite` in MusicPlayerRepository.kt:197-199 forwards to the DAO's query and adds nothing (`FavoriteDao.IsFavorite`).
- `createMediaItem` keeps the uri, title, artist and album. The model records those four fields and not media3's builder.
- Cursor reading is not modelled: the queries, projections and column indices. The model starts from the row values.
- `File(data).parent` is not modelled. Each row's folder path is an input.
- Bitmap decoding (`getAlbumArt`, `getSongArt`) is not modelled. Its result is the `found` parameter.
- Kotlin's `lowercase()` is modelled as an ASCII fold, so MediaStore.SearchSongs, MediaStore.SearchAlbums and MediaStore.SearchArtists fold only A..Z.
- SongsList.SearchFilter: `contains(query, ignoreCase = true)` compares character by character with Unicode upper- and lower-casing, so the title "ÑANDÚ" matches the query "ñandú" in the app; the model folds only A..Z and does not match it. The gap carries into SongsList.FilteredSongs, and SongsList.SearchFilterMatchesCatalogSearch holds under the ASCII fold only.
- PlayerScreen.FormatTime and AlbumDetail.FormatDuration: `String.format("%d:%02d", ..)` prints with the device's default locale. The model assumes a locale whose digits are '0'..'9'; in, for example, Arabic or Persian locales the app prints other digits, and neither the digit clauses of these members nor PlayerScreen.ParseFormatTime and AlbumDetail.FormatDurationReadsBack describe it there.
- The `android.util.Log` calls in MusicPlayerRepository.kt and PlayerScreen.kt are left out; they write only to the log.
- Sorting.SortByAlphaAsc, Sorting.SortByAlphaDesc, SortUtils.SortSongsByAlphaAsc, SortUtils.SortSongsByAlphaDesc, SortUtils.SortAlbumsByAlphaAsc, SortUtils.SortAlbumsByAlphaDesc, SortUtils.SortArtistsByAlphaAsc, SortUtils.SortArtistsByAlphaDesc and SongsList.ApplySortOrder order strings by Unicode scalar value (`Orders.LexLe`). Kotlin's `String.compareTo` compares UTF-16 code units instead. The two orders differ only when a character above U+FFFF meets one in U+E000..U+FFFF: "😀" sorts before "Ａ" in Kotlin and after it here.
- All Compose layout is left out: drawing, animation, dialogs' visibility flags and navigation back-stack handling. The models keep only the decisions made in click handlers.
- Screens outside the named core are left out: home, albums, artists, folders, playlists list, settings. So are PreferencesManager and the view models' flow wiring and coroutine dispatch.
- The order of Room's Flow emissions, and races between background writes, are not modelled. Each write is one atomic step.
- Deleting a playlist does not remove its `playlist_songs` entries, because `PlaylistSong` declares no foreign key (`PlaylistDao.DeleteLeavesEntries`).
- RecentDao.GetAllRecentSongs: rows with equal `playedAt` may come out in any order, as SQL leaves ties unordered. The contract states only the ordering and the permutation. The same holds for RecentDao.GetAllRecentSongsAsc, PlaylistDao.GetAllPlaylists and the repository's forwards to them.
- PlaylistDao.GetSongIdsFromPlaylist: the query has no ORDER BY. The model lists the entries in insertion order, but the contracts promise only the contents and the count.
- FavoriteDao.GetAllFavorites: it has no ORDER BY either, so only the permutation is stated.
- AddToPlaylist.CreatedHoldsOnlyTheSong: it requires that no stored entry refers to a playlist key not yet issued. Entries are only ever written for keys the app already has.
- MusicPlayer.PlayQueue: it requires the start index to lie inside a non-empty list. The source indexes without a check and would throw. SongActions.ClickPlaysClickedSong shows that the screens always pass such an index.
- MainActivity.RouteArg: only '0'..'9' count as digits. Kotlin's `toLongOrNull` also accepts the other Unicode decimal digits, such as U+0663. The app builds every route argument with `Long.toString`, so only ASCII digits reach it.
- MainActivity.NonNumericArgIsZero: for the same reason it treats a non-ASCII decimal digit as a non-digit and yields 0, where `toLongOrNull` would read it.
- Kotlin `Long` overflow is not modelled for `forward10` (position + 10000) and `rewind10`. Integers are unbounded there; positions reported by the player are far from the limits.
