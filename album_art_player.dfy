/** The clickable album cover: a click, or Enter or Space while it has
    focus, plays the release exactly as the "Play Album" button does (the
    component maps the tracks the same way and makes the same two calls). */
module AlbumArtPlayer {
  import opened Common
  import opened PlayerContext
  import opened PlayAlbumButton

  /** The keys that activate the cover. */
  predicate Activates(key: string) {
    key == "Enter" || key == " "
  }

  /** The session after a key press on the cover. */
  function KeySpec(s: PlayerState, tracks: seq<AlbumTrack>, cover: Option<string>, key: string): (r: PlayerState)
    ensures r.volume == s.volume && r.shuffle == s.shuffle && r.repeat == s.repeat
    ensures r != s ==> Activates(key) && tracks != []
    ensures Activates(key) && tracks != [] ==> r.isPlaying && |r.playlist| == |tracks|
  {
    if Activates(key) then PlayAlbumSpec(s, tracks, cover) else s
  }

  /** Enter and Space do exactly what a click does; any other key does nothing. */
  lemma KeyLikeClick(s: PlayerState, tracks: seq<AlbumTrack>, cover: Option<string>, key: string)
    ensures Activates(key) ==> KeySpec(s, tracks, cover, key) == PlayAlbumSpec(s, tracks, cover)
    ensures !Activates(key) ==> KeySpec(s, tracks, cover, key) == s
    ensures key == "Enter" || key == " " ==> KeySpec(s, tracks, cover, key).isPlaying == (tracks != [] || s.isPlaying)
  {
  }

  /** `handleClick`. */
  method HandleClick(p: Player, tracks: seq<AlbumTrack>, cover: Option<string>)
    requires p.Valid()
    modifies p
    ensures p.Valid() && p.State() == PlayAlbumSpec(old(p.State()), tracks, cover)
  {
    HandlePlay(p, tracks, cover);
  }

  /** The `onKeyDown` handler. */
  method HandleKey(p: Player, tracks: seq<AlbumTrack>, cover: Option<string>, key: string)
    requires p.Valid()
    modifies p
    ensures p.Valid() && p.State() == KeySpec(old(p.State()), tracks, cover, key)
  {
    if key == "Enter" || key == " " {
      HandleClick(p, tracks, cover);
    }
  }
}
