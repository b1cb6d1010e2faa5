/** The music page's track card: its play button plays that one track, and
    its duration label shows whole minutes and the remaining seconds. */
module TrackCard {
  import opened Common
  import opened Strings
  import opened PlayerContext
  import PlayerBar

  datatype CardTrack = CardTrack(id: int, title: string, artist: string, audioUrl: string,
    duration: Option<int>, releaseId: Option<int>)

  /** The track handed to the player; it carries no cover. */
  function ToPlayer(t: CardTrack): (r: Track)
    ensures r.id == t.id && r.title == t.title && r.artist == t.artist
    ensures r.audioUrl == t.audioUrl && r.coverImageUrl.None?
  {
    Track(t.id, t.title, t.artist, t.audioUrl, None, None)
  }

  /** `formatDuration`: "" for a missing or zero duration, otherwise
      `Math.floor(s / 60)`, ':' and `s % 60` padded to two characters. */
  function FormatDuration(seconds: Option<int>): (r: string)
    ensures seconds.None? || seconds.value == 0 <==> r == ""
  {
    if seconds.None? || seconds.value == 0 then ""
    else
      var s := seconds.value;
      IntToStr(s / 60) + ":" + PadStart(IntToStr(JsRem(s, 60)), 2, '0')
  }

  /** A positive duration reads back as "m:ss": its whole minutes and the
      seconds left over, below sixty. */
  lemma DurationReadsBack(s: int)
    requires s > 0
    ensures PlayerBar.ReadsAsClock(FormatDuration(Some(s)), s / 60, s % 60) && s % 60 < 60
  {
    assert JsRem(s, 60) == s % 60;
    PlayerBar.ClockTextReadsBack(s / 60, s % 60);
  }

  /** `handlePlay`. */
  method HandlePlay(p: Player, track: CardTrack)
    requires p.Valid()
    modifies p
    ensures p.Valid() && p.State() == PlayTrackSpec(old(p.State()), ToPlayer(track))
  {
    p.PlayTrack(ToPlayer(track));
  }
}
