/** `AlbumDetailScreen`: the album's song list shows each song's length as
    its secondary text. */
module AlbumDetail {
  import opened Options
  import opened Numeric
  import PlayerScreen

  const Unknown: string := "---"

  /** `formatDuration`: `"---"` for a length that is not positive,
      otherwise the same `"%d:%02d"` label as the player's clock. */
  function FormatDuration(millis: int): (r: string)
    ensures millis <= 0 <==> r == Unknown
    ensures millis > 0 ==> r == PlayerScreen.FormatTime(millis)
  {
    if millis <= 0 then Unknown else PlayerScreen.FormatTime(millis)
  }

  /** A positive length reads back as its whole seconds; "---" reads back
      as nothing. */
  lemma FormatDurationReadsBack(millis: int)
    requires IsLong(millis)
    ensures PlayerScreen.ParseTime(FormatDuration(millis)) == if millis <= 0 then None else Some(millis / 1000)
  {
    if millis > 0 {
      PlayerScreen.ParseFormatTime(millis);
    } else {
      assert ':' !in Unknown;
    }
  }

  /** Lengths under a second show as "0:00", not as "---". */
  lemma SubSecondShowsZero(millis: int)
    requires 0 < millis < 1000
    ensures FormatDuration(millis) == "0:00"
  {
    assert PlayerScreen.MinutesSeconds(millis) == (0, 0);
  }
}
