/** `PlayerScreen`: the elapsed/total time labels under the progress bar
    and the centre play/pause button. */
module PlayerScreen {
  import opened Options
  import opened Numeric
  import opened Decimal
  import opened Seqs
  import MusicPlayer

  /** Whole minutes and the seconds left over, both by the JVM's truncating
      division, so a negative time gives a non-positive pair. */
  function MinutesSeconds(millis: int): (ms: (int, int))
    ensures ms.0 * 60 + ms.1 == Quot(millis, 1000)
    ensures millis >= 0 ==> ms.0 >= 0 && 0 <= ms.1 < 60
    ensures millis < 0 ==> ms.0 <= 0 && -60 < ms.1 <= 0
  {
    var total := Quot(millis, 1000);
    (Quot(total, 60), Rem(total, 60))
  }

  /** `formatTime`: `"%d:%02d"` of the minutes and seconds. */
  function FormatTime(millis: int): (r: string)
    ensures ':' in r
    ensures millis >= 0 ==> var i := IndexOf(r, ':');
                            && |r| == i + 3
                            && (forall j :: 0 <= j < |r| && j != i ==> IsDigit(r[j]))
  {
    var ms := MinutesSeconds(millis);
    var d := IntToDecimal(ms.0);
    var p := Pad2(ms.1);
    var r := d + ":" + p;
    LabelShape(ms.0, ms.1);
    r
  }

  /** Seconds in `0..59` print as exactly two digits. */
  lemma Pad2TwoDigits(n: int)
    requires 0 <= n < 60
    ensures |Pad2(n)| == 2 && AllDigits(Pad2(n))
  {
    if n >= 10 {
      assert NatToDecimal(n) == NatToDecimal(n / 10) + [DigitChar(n % 10)];
    }
  }

  /** A label of non-negative minutes and seconds is digits, one colon,
      and two digits. */
  lemma LabelShape(m: int, sec: int)
    ensures var r := IntToDecimal(m) + ":" + Pad2(sec);
            && ':' in r
            && (m >= 0 && 0 <= sec < 60 ==>
                  var i := IndexOf(r, ':');
                  && |r| == i + 3
                  && (forall j :: 0 <= j < |r| && j != i ==> IsDigit(r[j])))
  {
    var d := IntToDecimal(m);
    var p := Pad2(sec);
    var r := d + ":" + p;
    ColonAfterNumber(m, p);
    assert r[|d|] == ':';
    if m >= 0 && 0 <= sec < 60 {
      Pad2TwoDigits(sec);
      assert AllDigits(d);
      assert forall j :: 0 <= j < |d| ==> r[j] == d[j];
      assert forall j :: |d| < j < |r| ==> r[j] == p[j - |d| - 1];
    }
  }

  /** The colon after a printed number is the first one. */
  lemma ColonAfterNumber(m: int, rest: string)
    ensures IndexOf(IntToDecimal(m) + ":" + rest, ':') == |IntToDecimal(m)|
  {
    var d := IntToDecimal(m);
    var s := d + ":" + rest;
    if m < 0 {
      assert forall j :: 0 <= j < |d| ==> s[j] == d[j] && d[j] != ':' by {
        assert forall j :: 1 <= j < |d| ==> d[j] == NatToDecimal(-m)[j - 1];
      }
    } else {
      assert forall j :: 0 <= j < |d| ==> s[j] == d[j] && d[j] != ':' by {
        assert AllDigits(d);
      }
    }
    assert s[|d|] == ':';
  }

  /** Reading a label back: the number before the first colon and the
      number after it, combined as minutes and seconds. */
  function ParseTime(s: string): (r: Option<int>)
    ensures r.Some? ==> ':' in s
  {
    var i := IndexOf(s, ':');
    if i < 0 then None
    else
      match (ParseLong(s[..i]), ParseLong(s[i + 1..]))
      case (Some(m), Some(sec)) => Some(m * 60 + sec)
      case _ => None
  }

  /** `%02d` reads back as the number it printed. */
  lemma ParsePad2(n: int)
    requires IsLong(n)
    ensures ParseLong(Pad2(n)) == Some(n)
  {
    if 0 <= n < 10 {
      var p := Pad2(n);
      assert p == ['0', DigitChar(n)];
      assert p[..1] == ['0'];
      assert DigitsValue(p[..1]) == 0 by { assert p[..1][..0] == []; }
    } else {
      ParseLongOfDecimal(n);
    }
  }

  lemma MinutesAreLong(millis: int)
    requires IsLong(millis)
    ensures IsLong(MinutesSeconds(millis).0) && IsLong(MinutesSeconds(millis).1)
  {
    var total := Quot(millis, 1000);
    assert -LongMax <= total <= LongMax;
  }

  /** The label gives back the whole seconds of the time it shows, for
      every `Long`, negative ones included. */
  lemma ParseFormatTime(millis: int)
    requires IsLong(millis)
    ensures ParseTime(FormatTime(millis)) == Some(Quot(millis, 1000))
  {
    var ms := MinutesSeconds(millis);
    MinutesAreLong(millis);
    var d := IntToDecimal(ms.0);
    var p := Pad2(ms.1);
    var s := d + ":" + p;
    assert FormatTime(millis) == s;
    ColonAfterNumber(ms.0, p);
    assert s[..|d|] == d;
    assert s[|d| + 1..] == p;
    ParseLongOfDecimal(ms.0);
    ParsePad2(ms.1);
  }

  /** Two times in the same second show the same label. */
  lemma SameSecondSameLabel(a: int, b: int)
    requires IsLong(a) && IsLong(b)
    ensures FormatTime(a) == FormatTime(b) <==> Quot(a, 1000) == Quot(b, 1000)
  {
    if FormatTime(a) == FormatTime(b) {
      ParseFormatTime(a);
      ParseFormatTime(b);
    }
  }

  /** The centre button: pause while playing, resume otherwise. */
  function CentreButton(st: MusicPlayer.PlayerState, controller: Option<MusicPlayer.ControllerView>): (o: MusicPlayer.Outcome)
    ensures o.state == st && o.recents == []
    ensures controller.Some? && st.isPlaying <==> o.commands == [MusicPlayer.PauseCall]
    ensures controller.Some? && !st.isPlaying <==> o.commands == [MusicPlayer.PlayCall]
  {
    if st.isPlaying then MusicPlayer.Pause(st, controller) else MusicPlayer.Resume(st, controller)
  }

  /** Once the player reports the change the first press asked for, the
      next press asks for the opposite. */
  lemma CentreButtonAlternates(st: MusicPlayer.PlayerState, controller: MusicPlayer.ControllerView)
    ensures var first := CentreButton(st, Some(controller)).commands;
            var next := CentreButton(MusicPlayer.OnIsPlayingChanged(st, !st.isPlaying), Some(controller)).commands;
            first != next && {first[0], next[0]} == {MusicPlayer.PauseCall, MusicPlayer.PlayCall}
  {
  }
}
