/** `MusicPlayerRepository`: the queue and transport state the app keeps
    beside the media3 controller. The controller is an oracle: what the app
    reads from it (current index, position, duration) is an input, and what
    the app tells it is a list of commands in the outcome. Writes to the
    recents table happen on a background dispatcher; the outcome lists the
    song ids handed to `saveToRecents`, in order. */
module MusicPlayer {
  import opened Options
  import opened Model
  import opened Numeric
  import FavoriteDao
  import RecentDao
  import Seqs

  datatype RepeatMode = RepeatOff | RepeatAll | RepeatOne

  datatype ShuffleMode = ShuffleOff | ShuffleOn

  /** media3 `Player.REPEAT_MODE_*`. */
  const RepeatModeOffConst: int := 0
  const RepeatModeOneConst: int := 1
  const RepeatModeAllConst: int := 2

  /** What `createMediaItem` keeps of a song. */
  datatype MediaItem = MediaItem(uri: Uri, title: string, artist: string, album: string)

  /** The calls the repository makes on the controller. */
  datatype Command =
    | SetMediaItem(item: MediaItem)
    | SetMediaItems(items: seq<MediaItem>, startIndex: int, startPosition: int)
    | Prepare
    | PlayCall
    | PauseCall
    | SeekTo(position: int)
    | SeekToNext
    | SeekToPrevious
    | SetShuffleModeEnabled(enabled: bool)
    | SetRepeatMode(mode: int)

  /** What the connected controller reports. `index` is `currentMediaItemIndex`,
      meaningful only when there is a current media item. */
  datatype ControllerView = ControllerView(hasCurrentItem: bool, index: nat, position: int, duration: int)

  /** The repository's own fields. */
  datatype PlayerState = PlayerState(
    queue: seq<Song>,
    current: Option<Song>,
    isPlaying: bool,
    position: int,
    duration: int,
    repeat: RepeatMode,
    shuffle: ShuffleMode)

  /** The new state, the controller calls made (none when no controller is
      connected), and the song ids sent to `saveToRecents`. */
  datatype Outcome = Outcome(state: PlayerState, commands: seq<Command>, recents: seq<int>)

  const Initial := PlayerState([], None, false, 0, 0, RepeatOff, ShuffleOff)

  function MediaItemOf(s: Song): MediaItem {
    MediaItem(s.uri, s.title, s.artist, s.album)
  }

  /** Commands are only issued through `controller?.…`. */
  function IfConnected(controller: Option<ControllerView>, commands: seq<Command>): (r: seq<Command>)
    ensures controller.None? ==> r == []
    ensures controller.Some? ==> r == commands
  {
    if controller.Some? then commands else []
  }

  // ---------------------------------------------------------------- artwork

  /** `loadArtwork`: a song that already has artwork is returned as is;
      otherwise `found` (the result of the MediaStore lookup) becomes its
      artwork, even when it is null. */
  function LoadArtwork(song: Song, found: Option<Bitmap>): (r: Song)
    ensures r == song.(artwork := r.artwork)
    ensures song.artwork.Some? ==> r == song
    ensures song.artwork.None? ==> r.artwork == found
  {
    if song.artwork.Some? then song else song.(artwork := found)
  }

  /** Loading twice changes nothing the first load did not, whatever the
      second lookup would return, once the first one found a picture. */
  lemma LoadArtworkIdempotent(song: Song, found: Option<Bitmap>, again: Option<Bitmap>)
    requires found.Some?
    ensures LoadArtwork(LoadArtwork(song, found), again) == LoadArtwork(song, found)
    ensures LoadArtwork(song, found).id == song.id
  {
  }

  // --------------------------------------------------------------- playback

  /** `play(song)`: the queue becomes just this song. */
  function Play(st: PlayerState, controller: Option<ControllerView>, song: Song, found: Option<Bitmap>): (o: Outcome)
    ensures o.state.queue == [song]
    ensures o.state.current.Some? && o.state.current.value == LoadArtwork(song, found)
    ensures o.state.current.value.id == song.id
    ensures o.recents == [song.id]
    ensures controller.Some? ==> o.commands == [SetMediaItem(MediaItemOf(o.state.current.value)), Prepare, PlayCall]
    ensures controller.None? ==> o.commands == []
    ensures o.state == st.(queue := [song], current := o.state.current)
  {
    var withArt := LoadArtwork(song, found);
    Outcome(
      st.(queue := [song], current := Some(withArt)),
      IfConnected(controller, [SetMediaItem(MediaItemOf(withArt)), Prepare, PlayCall]),
      [song.id])
  }

  /** `playQueue(songs, startIndex)`: an empty list is ignored; otherwise
      `songs[startIndex]` is read without a bounds check, so callers must
      pass an index inside the list. */
  function PlayQueue(st: PlayerState, controller: Option<ControllerView>, songs: seq<Song>, startIndex: int, found: Option<Bitmap>): (o: Outcome)
    requires |songs| == 0 || 0 <= startIndex < |songs|
    ensures |songs| == 0 ==> o == Outcome(st, [], [])
    ensures |songs| > 0 ==> && o.state.queue == songs
                            && o.state.current.Some?
                            && o.state.current.value == LoadArtwork(songs[startIndex], found)
                            && o.state.current.value.id == songs[startIndex].id
                            && o.recents == [songs[startIndex].id]
                            && o.state == st.(queue := songs, current := o.state.current)
    ensures controller.None? ==> o.commands == []
    ensures |songs| > 0 && controller.Some? ==>
      o.commands == [SetMediaItems(Seqs.Map(songs, MediaItemOf), startIndex, 0), Prepare, PlayCall]
  {
    if |songs| == 0 then Outcome(st, [], [])
    else
      var withArt := LoadArtwork(songs[startIndex], found);
      Outcome(
        st.(queue := songs, current := Some(withArt)),
        IfConnected(controller, [SetMediaItems(Seqs.Map(songs, MediaItemOf), startIndex, 0), Prepare, PlayCall]),
        [songs[startIndex].id])
  }

  /** `pause` and `resume` only forward to the controller. */
  function Pause(st: PlayerState, controller: Option<ControllerView>): (o: Outcome)
    ensures o.state == st && o.recents == []
    ensures controller.Some? <==> o.commands == [PauseCall]
  {
    Outcome(st, IfConnected(controller, [PauseCall]), [])
  }

  function Resume(st: PlayerState, controller: Option<ControllerView>): (o: Outcome)
    ensures o.state == st && o.recents == []
    ensures controller.Some? <==> o.commands == [PlayCall]
  {
    Outcome(st, IfConnected(controller, [PlayCall]), [])
  }

  /** The listener's `onIsPlayingChanged`. */
  function OnIsPlayingChanged(st: PlayerState, playing: bool): (r: PlayerState)
    ensures r.isPlaying == playing
    ensures r.(isPlaying := st.isPlaying) == st
  {
    st.(isPlaying := playing)
  }

  // ------------------------------------------------------------- seeking

  /** `forward10`: ten seconds on, but not past the reported duration. */
  function Forward10(controller: Option<ControllerView>): (cmds: seq<Command>)
    ensures controller.None? ==> cmds == []
    ensures controller.Some? ==> |cmds| == 1 && cmds[0].SeekTo?
    ensures controller.Some? ==>
      var target, c := cmds[0].position, controller.value;
      && target <= c.position + 10000
      && target <= c.duration
      && (target == c.position + 10000 || target == c.duration)
  {
    match controller
    case None => []
    case Some(c) => [SeekTo(Min(c.position + 10000, c.duration))]
  }

  /** `rewind10`: ten seconds back, but not before the start. */
  function Rewind10(controller: Option<ControllerView>): (cmds: seq<Command>)
    ensures controller.None? ==> cmds == []
    ensures controller.Some? ==> |cmds| == 1 && cmds[0].SeekTo?
    ensures controller.Some? ==>
      var target, c := cmds[0].position, controller.value;
      && target >= c.position - 10000
      && target >= 0
      && (target == c.position - 10000 || target == 0)
  {
    match controller
    case None => []
    case Some(c) => [SeekTo(Max(c.position - 10000, 0))]
  }

  /** `seekTo(position)`: forwarded unchanged, without clamping. */
  function Seek(controller: Option<ControllerView>, position: int): (cmds: seq<Command>)
    ensures controller.None? <==> cmds == []
    ensures controller.Some? ==> cmds == [SeekTo(position)]
  {
    IfConnected(controller, [SeekTo(position)])
  }

  /** Away from the end of the track `forward10` is a plain seek ten
      seconds on, and away from the start `rewind10` one ten seconds back. */
  lemma SkipsAreSeeks(c: ControllerView)
    ensures c.position + 10000 <= c.duration ==> Forward10(Some(c)) == Seek(Some(c), c.position + 10000)
    ensures c.position >= 10000 ==> Rewind10(Some(c)) == Seek(Some(c), c.position - 10000)
    ensures Forward10(None) == Rewind10(None) == Seek(None, c.position)
  {
  }

  /** Within the track, rewinding after forwarding comes back to the start
      position: neither clamp applies. */
  lemma ForwardThenRewind(c: ControllerView)
    requires 10000 <= c.position && c.position + 10000 <= c.duration
    ensures var fwd := Forward10(Some(c))[0].position;
      Rewind10(Some(c.(position := fwd)))[0].position == c.position
  {
  }

  /** The position poll: `currentPosition`, and `duration.coerceAtLeast(0)`
      (media3 reports an unknown duration as a negative constant). */
  function Poll(st: PlayerState, controller: Option<ControllerView>): (r: PlayerState)
    ensures controller.None? ==> r == st
    ensures controller.Some? ==> r.position == controller.value.position
    ensures controller.Some? ==> r.duration >= 0
    ensures controller.Some? && controller.value.duration >= 0 ==> r.duration == controller.value.duration
    ensures controller.Some? && controller.value.duration < 0 ==> r.duration == 0
    ensures r.(position := st.position, duration := st.duration) == st
  {
    match controller
    case None => st
    case Some(c) => st.(position := c.position, duration := Max(c.duration, 0))
  }

  // --------------------------------------------------------------- modes

  /** The mode after one press of the repeat button. */
  function NextRepeat(m: RepeatMode): RepeatMode {
    match m
    case RepeatOff => RepeatAll
    case RepeatAll => RepeatOne
    case RepeatOne => RepeatOff
  }

  /** The media3 constant sent for each mode. */
  function RepeatConst(m: RepeatMode): (k: int)
    ensures k in {RepeatModeOffConst, RepeatModeOneConst, RepeatModeAllConst}
  {
    match m
    case RepeatOff => RepeatModeOffConst
    case RepeatOne => RepeatModeOneConst
    case RepeatAll => RepeatModeAllConst
  }

  /** The inverse of `RepeatConst`. */
  function RepeatOfConst(k: int): (m: Option<RepeatMode>)
    ensures m.Some? <==> k in {RepeatModeOffConst, RepeatModeOneConst, RepeatModeAllConst}
  {
    if k == RepeatModeOffConst then Some(RepeatOff)
    else if k == RepeatModeOneConst then Some(RepeatOne)
    else if k == RepeatModeAllConst then Some(RepeatAll)
    else None
  }

  /** The modes and the constants correspond one to one. */
  lemma RepeatConstRoundTrip(m: RepeatMode, k: int)
    ensures RepeatOfConst(RepeatConst(m)) == Some(m)
    ensures RepeatOfConst(k).Some? ==> RepeatConst(RepeatOfConst(k).value) == k
  {
  }

  /** `toggleRepeat`: OFF → ALL → ONE → OFF, mirrored to the controller. */
  function ToggleRepeat(st: PlayerState, controller: Option<ControllerView>): (o: Outcome)
    ensures o.state == st.(repeat := o.state.repeat)
    ensures o.state.repeat != st.repeat
    ensures controller.Some? ==> o.commands == [SetRepeatMode(RepeatConst(o.state.repeat))]
    ensures controller.None? ==> o.commands == []
    ensures o.recents == []
  {
    var m := NextRepeat(st.repeat);
    Outcome(st.(repeat := m), IfConnected(controller, [SetRepeatMode(RepeatConst(m))]), [])
  }

  /** Three presses give the starting mode back; fewer never do. */
  lemma ToggleRepeatCycle(st: PlayerState, controller: Option<ControllerView>)
    ensures var once := ToggleRepeat(st, controller).state;
            var twice := ToggleRepeat(once, controller).state;
            && twice.repeat != st.repeat
            && ToggleRepeat(twice, controller).state == st
  {
  }

  /** `toggleShuffle`: OFF ↔ ON, mirrored to the controller as a boolean. */
  function ToggleShuffle(st: PlayerState, controller: Option<ControllerView>): (o: Outcome)
    ensures o.state == st.(shuffle := o.state.shuffle)
    ensures o.state.shuffle != st.shuffle
    ensures controller.Some? ==> o.commands == [SetShuffleModeEnabled(o.state.shuffle == ShuffleOn)]
    ensures controller.None? ==> o.commands == []
    ensures o.recents == []
  {
    var m := if st.shuffle == ShuffleOff then ShuffleOn else ShuffleOff;
    Outcome(st.(shuffle := m), IfConnected(controller, [SetShuffleModeEnabled(m == ShuffleOn)]), [])
  }

  /** Two presses are the identity on the state. */
  lemma ToggleShuffleTwice(st: PlayerState, controller: Option<ControllerView>)
    ensures ToggleShuffle(ToggleShuffle(st, controller).state, controller).state == st
  {
  }

  // -------------------------------------------------------- current song

  /** `updateCurrentSong`, run on every media-item transition: with no
      controller or no current item nothing happens; an index past the
      queue is ignored; the same song with artwork already loaded is kept
      without a recents write; otherwise the queue's song becomes current
      and is recorded. */
  function UpdateCurrentSong(st: PlayerState, controller: Option<ControllerView>, found: Option<Bitmap>): (o: Outcome)
    ensures o.commands == []
    ensures controller.None? || !controller.value.hasCurrentItem ==> o == Outcome(st, [], [])
    ensures controller.Some? && controller.value.hasCurrentItem && controller.value.index >= |st.queue| ==>
      o == Outcome(st, [], [])
    ensures controller.Some? && controller.value.hasCurrentItem && controller.value.index < |st.queue| ==>
      var q := st.queue[controller.value.index];
      if st.current.Some? && st.current.value.id == q.id && st.current.value.artwork.Some? then
        o == Outcome(st, [], [])
      else
        && o.state == st.(current := Some(LoadArtwork(q, found)))
        && o.recents == [q.id]
  {
    match controller
    case None => Outcome(st, [], [])
    case Some(c) =>
      if !c.hasCurrentItem || c.index >= |st.queue| then Outcome(st, [], [])
      else
        var q := st.queue[c.index];
        if st.current.Some? && st.current.value.id == q.id && st.current.value.artwork.Some? then
          Outcome(st, [], [])
        else
          Outcome(st.(current := Some(LoadArtwork(q, found))), [], [q.id])
  }

  /** A transition reported twice records the song once, provided its
      artwork was found the first time. */
  lemma UpdateTwiceRecordsOnce(st: PlayerState, c: ControllerView, found: Option<Bitmap>, again: Option<Bitmap>)
    requires c.hasCurrentItem && c.index < |st.queue|
    requires found.Some?
    ensures var first := UpdateCurrentSong(st, Some(c), found);
            UpdateCurrentSong(first.state, Some(c), again) == Outcome(first.state, [], [])
  {
  }

  /** A song for which no artwork exists is reloaded and recorded again on
      every repeated transition (unless the current song already shows
      artwork, which ends the check early). */
  lemma UpdateWithoutArtworkRecordsAgain(st: PlayerState, c: ControllerView)
    requires c.hasCurrentItem && c.index < |st.queue|
    requires st.queue[c.index].artwork.None?
    requires st.current.None? || st.current.value.artwork.None?
    ensures var first := UpdateCurrentSong(st, Some(c), None);
            var second := UpdateCurrentSong(first.state, Some(c), None);
            first.recents == second.recents == [st.queue[c.index].id]
  {
  }

  /** `play` followed by the controller's transition to the new item writes
      the song to recents once when its artwork is found. */
  lemma PlayThenTransitionRecordsOnce(st: PlayerState, c: ControllerView, song: Song, found: Option<Bitmap>, again: Option<Bitmap>)
    requires c.hasCurrentItem && c.index == 0
    requires found.Some?
    ensures var p := Play(st, Some(c), song, found);
            var u := UpdateCurrentSong(p.state, Some(c), again);
            p.recents + u.recents == [song.id]
  {
  }

  /** `skipNext` / `skipPrevious`: the platform player moves (its
      wrap-around and end-of-queue rules are its own), then the repository
      re-reads the current item from the controller's new report `after`. */
  function SkipNext(st: PlayerState, before: Option<ControllerView>, after: Option<ControllerView>, found: Option<Bitmap>): (o: Outcome)
    requires before.None? ==> after.None?
    ensures o.commands == IfConnected(before, [SeekToNext])
    ensures (o.state, o.recents) == (UpdateCurrentSong(st, after, found).state, UpdateCurrentSong(st, after, found).recents)
  {
    var u := UpdateCurrentSong(st, after, found);
    Outcome(u.state, IfConnected(before, [SeekToNext]), u.recents)
  }

  function SkipPrevious(st: PlayerState, before: Option<ControllerView>, after: Option<ControllerView>, found: Option<Bitmap>): (o: Outcome)
    requires before.None? ==> after.None?
    ensures o.commands == IfConnected(before, [SeekToPrevious])
    ensures (o.state, o.recents) == (UpdateCurrentSong(st, after, found).state, UpdateCurrentSong(st, after, found).recents)
  {
    var u := UpdateCurrentSong(st, after, found);
    Outcome(u.state, IfConnected(before, [SeekToPrevious]), u.recents)
  }

  // ------------------------------------------------------------ favourites

  /** The repository's own `toggleFavorite`: check, then remove or add, as
      two separate DAO calls. */
  function ToggleFavorite(t: FavoriteDao.FavoriteTable, songId: int): (r: FavoriteDao.FavoriteTable)
    ensures FavoriteDao.IsFavorite(r, songId) == !FavoriteDao.IsFavorite(t, songId)
  {
    if FavoriteDao.IsFavorite(t, songId) then FavoriteDao.RemoveFavorite(t, songId)
    else
      var r := FavoriteDao.AddFavorite(t, songId);
      assert FavoriteSong(t.nextId, songId) in FavoriteDao.RowsOf(r, songId);
      r
  }

  /** With nothing in between, it has the same effect as the DAO's
      transactional toggle. */
  lemma ToggleFavoriteMatchesDao(t: FavoriteDao.FavoriteTable, songId: int)
    ensures ToggleFavorite(t, songId) == FavoriteDao.ToggleFavorite(t, songId)
  {
  }

  // --------------------------------------------------------------- recents

  /** Performing the recents writes of an outcome, in order, at time `now`. */
  function SaveToRecents(t: RecentDao.RecentTable, writes: seq<int>, now: int): RecentDao.RecentTable
    decreases |writes|
  {
    if |writes| == 0 then t
    else SaveToRecents(RecentDao.UpdateRecentSong(t, writes[0], now), writes[1..], now)
  }

  /** After `play`, the played song has exactly one recents row, stamped with
      the time of the write. */
  lemma PlayRecordsSong(st: PlayerState, controller: Option<ControllerView>, song: Song, found: Option<Bitmap>,
                        t: RecentDao.RecentTable, now: int)
    ensures var r := SaveToRecents(t, Play(st, controller, song, found).recents, now);
            |RecentDao.RowsOf(r, song.id)| == 1 && RecentDao.RowsOf(r, song.id)[0].playedAt == now
  {
    var writes := Play(st, controller, song, found).recents;
    assert writes[1..] == [];
    var u := RecentDao.UpdateRecentSong(t, song.id, now);
    assert SaveToRecents(t, writes, now) == SaveToRecents(u, [], now) == u;
    assert RecentDao.RowsOf(u, song.id) == [RecentSong(t.nextId, song.id, now)];
  }
}
