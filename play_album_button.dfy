/** The release page's "Play Album" button: queue every track of the release,
    in order and with the release cover, and play the first; an empty release
    does nothing. */
module PlayAlbumButton {
  import opened Common
  import opened PlayerContext

  /** A track of the release, as the page loads it. */
  datatype AlbumTrack = AlbumTrack(id: int, title: string, artist: string, audioUrl: string, trackNumber: int)

  function ToPlayer(t: AlbumTrack, cover: Option<string>): (r: Track)
    ensures r.id == t.id && r.title == t.title && r.artist == t.artist
    ensures r.audioUrl == t.audioUrl && r.coverImageUrl == cover && r.waveformData.None?
  {
    Track(t.id, t.title, t.artist, t.audioUrl, cover, None)
  }

  /** `tracks.map(...)`. */
  function ToPlayerAll(ts: seq<AlbumTrack>, cover: Option<string>): (r: seq<Track>)
    ensures |r| == |ts|
    ensures forall i :: 0 <= i < |ts| ==> r[i] == ToPlayer(ts[i], cover)
  {
    seq(|ts|, i requires 0 <= i < |ts| => ToPlayer(ts[i], cover))
  }

  /** The session after `handlePlay`. */
  function PlayAlbumSpec(s: PlayerState, tracks: seq<AlbumTrack>, cover: Option<string>): (r: PlayerState)
    ensures r.volume == s.volume && r.shuffle == s.shuffle && r.shuffledPlaylist == s.shuffledPlaylist
    ensures r.repeat == s.repeat
    ensures tracks == [] ==> r == s
    ensures tracks != [] ==> |r.playlist| == |tracks| && r.isPlaying && r.currentTrack == Some(r.playlist[0])
  {
    if tracks == [] then s
    else
      var queued := ToPlayerAll(tracks, cover);
      PlayTrackSpec(s.(playlist := queued), queued[0])
  }

  /** An empty release changes nothing. */
  lemma EmptyAlbumNoop(s: PlayerState, cover: Option<string>)
    ensures PlayAlbumSpec(s, [], cover) == s
  {
  }

  /** Otherwise the queue is the release in order, ids kept and one shared
      cover, and its first track plays. */
  lemma PlayAlbumStarts(s: PlayerState, tracks: seq<AlbumTrack>, cover: Option<string>)
    requires tracks != []
    ensures var r := PlayAlbumSpec(s, tracks, cover);
      |r.playlist| == |tracks|
      && (forall i :: 0 <= i < |tracks| ==> r.playlist[i].id == tracks[i].id && r.playlist[i].coverImageUrl == cover)
      && r.currentTrack == Some(r.playlist[0]) && r.currentTrack.value.id == tracks[0].id
      && r.isPlaying
      && r.volume == s.volume && r.shuffle == s.shuffle && r.repeat == s.repeat
  {
  }

  /** `handlePlay`, driving the session. */
  method HandlePlay(p: Player, tracks: seq<AlbumTrack>, cover: Option<string>)
    requires p.Valid()
    modifies p
    ensures p.Valid() && p.State() == PlayAlbumSpec(old(p.State()), tracks, cover)
  {
    if |tracks| == 0 {
      return;
    }
    var queued := ToPlayerAll(tracks, cover);
    p.SetPlaylist(queued);
    p.PlayTrack(queued[0]);
  }
}
