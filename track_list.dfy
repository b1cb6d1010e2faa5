/** The release page's track table: clicking the current track pauses or
    resumes it; clicking another track loads the whole table into the queue
    and plays the clicked one. Durations show as m:ss, or "-" when unknown. */
module TrackList {
  import opened Common
  import opened Strings
  import opened PlayerContext
  import PlayerBar

  /** A row of the table, as the page loads it. */
  datatype ListTrack = ListTrack(id: int, title: string, artist: string, duration: Option<real>,
    audioUrl: string, trackNumber: int)

  /** The player's form of a row; every row gets the release's shared cover. */
  function ToPlayer(t: ListTrack, cover: Option<string>): (r: Track)
    ensures r.id == t.id && r.title == t.title && r.artist == t.artist
    ensures r.audioUrl == t.audioUrl && r.coverImageUrl == cover && r.waveformData.None?
  {
    Track(t.id, t.title, t.artist, t.audioUrl, cover, None)
  }

  /** `tracks.map(...)`: the whole table, in order. */
  function ToPlayerAll(ts: seq<ListTrack>, cover: Option<string>): (r: seq<Track>)
    ensures |r| == |ts|
    ensures forall i :: 0 <= i < |ts| ==> r[i] == ToPlayer(ts[i], cover)
  {
    seq(|ts|, i requires 0 <= i < |ts| => ToPlayer(ts[i], cover))
  }

  /** `currentTrack?.id === track.id`. */
  predicate IsCurrent(s: PlayerState, t: ListTrack) {
    s.currentTrack.Some? && s.currentTrack.value.id == t.id
  }

  /** The row's button shows the pause icon. */
  predicate ShowsPause(s: PlayerState, t: ListTrack) {
    IsCurrent(s, t) && s.isPlaying
  }

  /** The session after `handlePlay(track)`. */
  function HandlePlaySpec(s: PlayerState, tracks: seq<ListTrack>, track: ListTrack, cover: Option<string>): (r: PlayerState)
    ensures r.volume == s.volume && r.shuffle == s.shuffle && r.shuffledPlaylist == s.shuffledPlaylist
    ensures r.repeat == s.repeat
    ensures IsCurrent(s, track) ==> r.isPlaying != s.isPlaying && r.playlist == s.playlist
    ensures !IsCurrent(s, track) ==>
      (r.isPlaying && r.currentTrack == Some(ToPlayer(track, cover)) && |r.playlist| == |tracks|)
  {
    if IsCurrent(s, track) then s.(isPlaying := !s.isPlaying)
    else PlayTrackSpec(s.(playlist := ToPlayerAll(tracks, cover)), ToPlayer(track, cover))
  }

  /** Clicking the current track only flips play/pause; clicking it twice restores the session. */
  lemma ClickCurrentToggles(s: PlayerState, tracks: seq<ListTrack>, track: ListTrack, cover: Option<string>)
    requires IsCurrent(s, track)
    ensures var r := HandlePlaySpec(s, tracks, track, cover);
      r.playlist == s.playlist && r.currentTrack == s.currentTrack && r.isPlaying == !s.isPlaying
      && (ShowsPause(r, track) <==> !s.isPlaying)
      && HandlePlaySpec(r, tracks, track, cover) == s
  {
  }

  /** Clicking another track queues the whole table in order and plays the clicked row. */
  lemma ClickOtherPlays(s: PlayerState, tracks: seq<ListTrack>, track: ListTrack, cover: Option<string>)
    requires !IsCurrent(s, track)
    ensures var r := HandlePlaySpec(s, tracks, track, cover);
      r.playlist == ToPlayerAll(tracks, cover) && r.currentTrack == Some(ToPlayer(track, cover))
      && r.isPlaying && ShowsPause(r, track)
      && r.volume == s.volume && r.shuffle == s.shuffle && r.shuffledPlaylist == s.shuffledPlaylist
      && r.repeat == s.repeat
  {
  }

  /** `formatTime`: "-" for a missing or zero duration, otherwise the player bar's m:ss. */
  function ListTime(seconds: Option<real>): (r: string)
    ensures seconds.None? || seconds.value == 0.0 ==> r == "-"
    ensures seconds.Some? && seconds.value != 0.0 ==> |r| >= 4
  {
    if seconds.None? || seconds.value == 0.0 then "-" else PlayerBar.FormatTime(seconds.value)
  }

  /** A known positive duration reads back as its whole minutes and seconds. */
  lemma ListTimeReadsBack(seconds: real)
    requires seconds > 0.0
    ensures PlayerBar.ReadsAsClock(ListTime(Some(seconds)), Floor(seconds / 60.0), Floor(JsRemReal(seconds, 60.0)))
  {
    PlayerBar.FormatTimeRoundTrip(seconds);
  }

  /** `handlePlay`, driving the session. */
  method HandlePlay(p: Player, tracks: seq<ListTrack>, track: ListTrack, cover: Option<string>)
    requires p.Valid()
    modifies p
    ensures p.Valid() && p.State() == HandlePlaySpec(old(p.State()), tracks, track, cover)
  {
    if p.currentTrack.Some? && p.currentTrack.value.id == track.id {
      p.TogglePlay();
    } else {
      p.SetPlaylist(ToPlayerAll(tracks, cover));
      p.PlayTrack(ToPlayer(track, cover));
    }
  }
}
