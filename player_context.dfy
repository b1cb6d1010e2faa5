/** The playback session shared by every player component: the current track,
    whether it plays, the volume, the play queue and its shuffled ordering, and
    the repeat mode. Each transition is specified by a function on a
    `PlayerState` value; the `Player` class holds the same state in fields and
    its methods are proved to follow those functions. `Math.random` is replaced
    by the sequence of draws it would have returned. */
module PlayerContext {
  import opened Common

  datatype Track = Track(
    id: int,
    title: string,
    artist: string,
    audioUrl: string,
    coverImageUrl: Option<string>,
    waveformData: Option<string>)

  datatype RepeatMode = Off | All | One

  datatype PlayerState = PlayerState(
    currentTrack: Option<Track>,
    isPlaying: bool,
    volume: real,
    playlist: seq<Track>,
    shuffle: bool,
    shuffledPlaylist: seq<Track>,
    repeat: RepeatMode)

  /** What the persisted session may hold; each part may be missing. */
  datatype SavedState = SavedState(
    volume: Option<real>,
    shuffle: Option<bool>,
    repeat: Option<RepeatMode>,
    playlist: Option<seq<Track>>,
    currentTrack: Option<Track>)

  const DefaultVolume: real := 0.8

  /** The shuffled ordering exists only while shuffle is on. */
  predicate Consistent(s: PlayerState) {
    !s.shuffle ==> s.shuffledPlaylist == []
  }

  // ----- hydration -----

  /** The state after mounting and restoring a saved session (if any). */
  function Hydrate(saved: Option<SavedState>): (r: PlayerState)
    ensures !r.isPlaying && r.shuffledPlaylist == [] && Consistent(r)
    ensures saved.None? ==> r == PlayerState(None, false, DefaultVolume, [], false, [], Off)
  {
    match saved
    case None => PlayerState(None, false, DefaultVolume, [], false, [], Off)
    case Some(p) =>
      PlayerState(p.currentTrack, false, p.volume.GetOr(DefaultVolume), p.playlist.GetOr([]),
                  p.shuffle.GetOr(false), [], p.repeat.GetOr(Off))
  }

  // ----- ids -----

  /** `findIndex(t => t.id === id)`: the first index holding `id`, or -1. */
  function FindIndexById(s: seq<Track>, id: int): (r: int)
    ensures -1 <= r < |s|
    ensures r >= 0 ==> s[r].id == id && forall j :: 0 <= j < r ==> s[j].id != id
    ensures r == -1 <==> forall j :: 0 <= j < |s| ==> s[j].id != id
  {
    if s == [] then -1
    else if s[0].id == id then 0
    else
      var k := FindIndexById(s[1..], id);
      if k == -1 then -1 else k + 1
  }

  predicate HasId(s: seq<Track>, id: int) {
    exists k :: 0 <= k < |s| && s[k].id == id
  }

  predicate DistinctIds(s: seq<Track>) {
    forall i, j :: 0 <= i < |s| && 0 <= j < |s| && s[i].id == s[j].id ==> i == j
  }

  /** In a list with distinct ids, the id of position `i` is found at `i`. */
  lemma FindDistinct(s: seq<Track>, i: nat)
    requires DistinctIds(s) && i < |s|
    ensures FindIndexById(s, s[i].id) == i
  {
    var r := FindIndexById(s, s[i].id);
    assert r != -1;
  }

  // ----- simple transitions -----

  /** `playTrack`: whatever was playing, `t` becomes current and plays. */
  function PlayTrackSpec(s: PlayerState, t: Track): (r: PlayerState)
    ensures r.currentTrack == Some(t) && r.isPlaying
    ensures r.(currentTrack := s.currentTrack, isPlaying := s.isPlaying) == s
  {
    s.(currentTrack := Some(t), isPlaying := true)
  }

  function NextRepeat(m: RepeatMode): (r: RepeatMode)
    ensures r != m
  {
    match m
    case Off => All
    case All => One
    case One => Off
  }

  /** Three presses of the repeat button bring back the original mode. */
  lemma RepeatCycle(m: RepeatMode)
    ensures NextRepeat(m) != NextRepeat(NextRepeat(m))
    ensures NextRepeat(NextRepeat(NextRepeat(m))) == m
  {
  }

  // ----- Fisher–Yates -----

  /** Every draw lies in [0, 1), as `Math.random` promises. */
  predicate Draws(rand: seq<real>) {
    forall k :: 0 <= k < |rand| ==> 0.0 <= rand[k] < 1.0
  }

  /** `Math.floor(u * (i + 1))`: an index in [0, i]. */
  function Pick(u: real, i: nat): (j: nat)
    requires 0.0 <= u < 1.0
    ensures j <= i
  {
    var n := (i + 1) as real;
    assert 0.0 <= u * n < n by {
      assert 0.0 <= u * n;
      assert (1.0 - u) * n > 0.0;
    }
    Floor(u * n)
  }

  function Swap(s: seq<Track>, i: nat, j: nat): (r: seq<Track>)
    requires i < |s| && j < |s|
    ensures |r| == |s|
  {
    s[i := s[j]][j := s[i]]
  }

  lemma SwapPermutes(s: seq<Track>, i: nat, j: nat)
    requires i < |s| && j < |s|
    ensures multiset(Swap(s, i, j)) == multiset(s)
  {
  }

  /** Each step's partner index lies at or before the step's position. */
  predicate Bounded(js: seq<nat>) {
    forall k :: 0 <= k < |js| ==> js[k] <= k
  }

  /** The partner index each step draws. */
  function Picks(rand: seq<real>): (js: seq<nat>)
    requires Draws(rand)
    ensures |js| == |rand| && Bounded(js)
  {
    seq(|rand|, k requires 0 <= k < |rand| => Pick(rand[k], k))
  }

  /** The list after the swaps for positions `i`, `i - 1`, …, 1 in that order,
      position `k` swapping with `js[k]`. */
  function Shuffled(s: seq<Track>, js: seq<nat>, i: nat): (r: seq<Track>)
    requires Bounded(js) && |js| == |s| && i < |s|
    ensures |r| == |s|
    decreases i
  {
    if i == 0 then s else Shuffled(Swap(s, i, js[i]), js, i - 1)
  }

  /** The copy that the shuffle loop produces; `rand[i]` is the draw made at step `i`. */
  function FisherYates(s: seq<Track>, rand: seq<real>): (r: seq<Track>)
    requires Draws(rand) && |rand| == |s|
    ensures |r| == |s|
  {
    if s == [] then [] else Shuffled(s, Picks(rand), |s| - 1)
  }

  lemma {:induction false} ShuffledPermutes(s: seq<Track>, js: seq<nat>, i: nat)
    requires Bounded(js) && |js| == |s| && i < |s|
    ensures multiset(Shuffled(s, js, i)) == multiset(s)
    decreases i
  {
    if i > 0 {
      var swapped := Swap(s, i, js[i]);
      ShuffledPermutes(swapped, js, i - 1);
      SwapPermutes(s, i, js[i]);
      assert Shuffled(s, js, i) == Shuffled(swapped, js, i - 1);
    }
  }

  /** The shuffled ordering is a permutation of the playlist. */
  lemma FisherYatesPermutes(s: seq<Track>, rand: seq<real>)
    requires Draws(rand) && |rand| == |s|
    ensures |FisherYates(s, rand)| == |s|
    ensures multiset(FisherYates(s, rand)) == multiset(s)
  {
    if s != [] {
      ShuffledPermutes(s, Picks(rand), |s| - 1);
    }
  }

  /** The shuffle loop on a copied array. */
  method Shuffle(s: seq<Track>, rand: seq<real>) returns (r: seq<Track>)
    requires Draws(rand) && |rand| == |s|
    ensures r == FisherYates(s, rand)
    ensures multiset(r) == multiset(s)
  {
    if s == [] {
      return [];
    }
    ghost var js := Picks(rand);
    ghost var target := FisherYates(s, rand);
    assert target == Shuffled(s, js, |s| - 1);
    var a := new Track[|s|](k requires 0 <= k < |s| => s[k]);
    ghost var cur := s;
    assert a[..] == cur;
    var i := |s| - 1;
    while i > 0
      invariant 0 <= i < |s| == a.Length == |cur|
      invariant a[..] == cur
      invariant Shuffled(cur, js, i) == target
      decreases i
    {
      var j := Pick(rand[i], i);
      assert j == js[i];
      var t := a[i];
      a[i] := a[j];
      a[j] := t;
      ShuffleStep(cur, js, i);
      cur := Swap(cur, i, j);
      assert a[..] == cur;
      i := i - 1;
    }
    assert Shuffled(cur, js, 0) == cur;
    r := a[..];
    FisherYatesPermutes(s, rand);
  }

  /** One iteration of the shuffle loop: swapping position `i` with its
      partner leaves the remaining steps to do. */
  lemma ShuffleStep(cur: seq<Track>, js: seq<nat>, i: nat)
    requires Bounded(js) && |js| == |cur| && 0 < i < |cur|
    ensures Shuffled(cur, js, i) == Shuffled(Swap(cur, i, js[i]), js, i - 1)
  {
  }

  // ----- ordering used for next/previous -----

  /** The shuffled list when shuffle is on and it is non-empty, else the playlist. */
  function ActiveOrder(s: PlayerState): (r: seq<Track>)
    ensures s.shuffle && s.shuffledPlaylist != [] ==> r == s.shuffledPlaylist
    ensures !(s.shuffle && s.shuffledPlaylist != []) ==> r == s.playlist
    ensures s.playlist != [] ==> r != []
  {
    if s.shuffle && |s.shuffledPlaylist| > 0 then s.shuffledPlaylist else s.playlist
  }

  /** The track `playNext` hands to `playTrack`, if any. */
  function NextPick(s: PlayerState): (r: Option<Track>)
  {
    if s.currentTrack.None? || |s.playlist| == 0 then None
    else
      var active := ActiveOrder(s);
      var i := FindIndexById(active, s.currentTrack.value.id);
      if s.repeat == One then s.currentTrack
      else if i == -1 || i == |active| - 1 then
        if s.repeat == All then Some(active[0]) else None
      else Some(active[i + 1])
  }

  /** The track `playPrev` hands to `playTrack`, if any. */
  function PrevPick(s: PlayerState): (r: Option<Track>)
  {
    if s.currentTrack.None? || |s.playlist| == 0 then None
    else
      var active := ActiveOrder(s);
      var i := FindIndexById(active, s.currentTrack.value.id);
      if s.repeat == One then s.currentTrack
      else if i <= 0 then
        if s.repeat == All then Some(active[|active| - 1]) else None
      else Some(active[i - 1])
  }

  /** `playNext`: the queue and the settings stay; if anything changes, the
      picked track plays, and it is the current one or a listed one. */
  function PlayNextSpec(s: PlayerState): (r: PlayerState)
    ensures r.(currentTrack := s.currentTrack, isPlaying := s.isPlaying) == s
    ensures r != s ==>
      (r.isPlaying && r.currentTrack.Some?
       && (r.currentTrack == s.currentTrack || r.currentTrack.value in ActiveOrder(s)))
  {
    match NextPick(s)
    case None => s
    case Some(t) => PlayTrackSpec(s, t)
  }

  /** `playPrev`: as `playNext`, towards the front of the ordering. */
  function PlayPrevSpec(s: PlayerState): (r: PlayerState)
    ensures r.(currentTrack := s.currentTrack, isPlaying := s.isPlaying) == s
    ensures r != s ==>
      (r.isPlaying && r.currentTrack.Some?
       && (r.currentTrack == s.currentTrack || r.currentTrack.value in ActiveOrder(s)))
  {
    match PrevPick(s)
    case None => s
    case Some(t) => PlayTrackSpec(s, t)
  }

  /** With no current track or an empty playlist, next and previous do nothing. */
  lemma NavigationIdle(s: PlayerState)
    requires s.currentTrack.None? || s.playlist == []
    ensures PlayNextSpec(s) == s && PlayPrevSpec(s) == s
  {
  }

  /** Under repeat "one" both directions replay the current track, listed or not. */
  lemma RepeatOneReplays(s: PlayerState)
    requires s.currentTrack.Some? && s.playlist != [] && s.repeat == One
    ensures PlayNextSpec(s) == PlayTrackSpec(s, s.currentTrack.value)
    ensures PlayPrevSpec(s) == PlayTrackSpec(s, s.currentTrack.value)
  {
  }

  /** `playNext` from an entry that is not the last one plays the entry after it. */
  lemma NextAdvances(s: PlayerState, i: nat)
    requires s.currentTrack.Some? && s.playlist != [] && s.repeat != One
    requires i + 1 < |ActiveOrder(s)| && ActiveOrder(s)[i].id == s.currentTrack.value.id
    requires forall j :: 0 <= j < i ==> ActiveOrder(s)[j].id != s.currentTrack.value.id
    ensures PlayNextSpec(s) == PlayTrackSpec(s, ActiveOrder(s)[i + 1])
  {
    assert FindIndexById(ActiveOrder(s), s.currentTrack.value.id) == i;
  }

  /** `playNext` when the current track is last or not listed: wrap under "all",
      and under "off" change nothing at all (playback is not stopped). */
  lemma NextAtEnd(s: PlayerState)
    requires s.currentTrack.Some? && s.playlist != [] && s.repeat != One
    requires var a := ActiveOrder(s); var id := s.currentTrack.value.id;
      (forall j :: 0 <= j < |a| ==> a[j].id != id)
      || (a[|a| - 1].id == id && forall j :: 0 <= j < |a| - 1 ==> a[j].id != id)
    ensures s.repeat == All ==> PlayNextSpec(s) == PlayTrackSpec(s, ActiveOrder(s)[0])
    ensures s.repeat == Off ==> PlayNextSpec(s) == s
  {
    var a := ActiveOrder(s);
    var i := FindIndexById(a, s.currentTrack.value.id);
    assert i == -1 || i == |a| - 1;
  }

  /** `playPrev` from an entry after the first plays the entry before it. */
  lemma PrevRetreats(s: PlayerState, i: nat)
    requires s.currentTrack.Some? && s.playlist != [] && s.repeat != One
    requires 0 < i < |ActiveOrder(s)| && ActiveOrder(s)[i].id == s.currentTrack.value.id
    requires forall j :: 0 <= j < i ==> ActiveOrder(s)[j].id != s.currentTrack.value.id
    ensures PlayPrevSpec(s) == PlayTrackSpec(s, ActiveOrder(s)[i - 1])
  {
    assert FindIndexById(ActiveOrder(s), s.currentTrack.value.id) == i;
  }

  /** `playPrev` at the first entry or when not listed: wrap to the last under
      "all", and under "off" change nothing. */
  lemma PrevAtStart(s: PlayerState)
    requires s.currentTrack.Some? && s.playlist != [] && s.repeat != One
    requires var a := ActiveOrder(s); var id := s.currentTrack.value.id;
      (forall j :: 0 <= j < |a| ==> a[j].id != id) || a[0].id == id
    ensures s.repeat == All ==> PlayPrevSpec(s) == PlayTrackSpec(s, ActiveOrder(s)[|ActiveOrder(s)| - 1])
    ensures s.repeat == Off ==> PlayPrevSpec(s) == s
  {
    var a := ActiveOrder(s);
    var i := FindIndexById(a, s.currentTrack.value.id);
    assert i <= 0;
  }

  /** `k` presses of "next". */
  function AdvanceNext(s: PlayerState, k: nat): PlayerState
    decreases k
  {
    if k == 0 then s else AdvanceNext(PlayNextSpec(s), k - 1)
  }

  /** Next and previous leave the ordering itself alone. */
  lemma NavigationKeepsOrder(s: PlayerState)
    ensures ActiveOrder(PlayNextSpec(s)) == ActiveOrder(s)
    ensures ActiveOrder(PlayPrevSpec(s)) == ActiveOrder(s)
    ensures PlayNextSpec(s).playlist == s.playlist && PlayPrevSpec(s).playlist == s.playlist
    ensures PlayNextSpec(s).repeat == s.repeat && PlayPrevSpec(s).repeat == s.repeat
  {
  }

  /** The position after `i` going round a ring of `n`. */
  function Succ(i: nat, n: nat): (r: nat)
    requires i < n
    ensures r < n
    ensures i + 1 < n ==> r == i + 1
  {
    if i + 1 == n then 0 else i + 1
  }

  /** Under repeat "all" with distinct ids, one press of "next" moves one place
      round the ordering. */
  lemma NextStep(s: PlayerState, i: nat)
    requires s.playlist != [] && s.repeat == All && DistinctIds(ActiveOrder(s))
    requires i < |ActiveOrder(s)| && s.currentTrack == Some(ActiveOrder(s)[i])
    ensures PlayNextSpec(s) == PlayTrackSpec(s, ActiveOrder(s)[Succ(i, |ActiveOrder(s)|)])
  {
    FindDistinct(ActiveOrder(s), i);
  }

  /** `k` places round a ring of `n` from position `i`. */
  function RingAdd(i: nat, k: nat, n: nat): (r: nat)
    requires i < n
    ensures r < n
    decreases k
  {
    if k == 0 then i else RingAdd(Succ(i, n), k - 1, n)
  }

  lemma {:induction false} RingForward(i: nat, k: nat, n: nat)
    requires i + k < n
    ensures RingAdd(i, k, n) == i + k
    decreases k
  {
    if k > 0 {
      RingForward(i + 1, k - 1, n);
    }
  }

  lemma {:induction false} RingCompose(i: nat, x: nat, y: nat, n: nat)
    requires i < n
    ensures RingAdd(i, x + y, n) == RingAdd(RingAdd(i, x, n), y, n)
    decreases x
  {
    if x > 0 {
      RingCompose(Succ(i, n), x - 1, y, n);
    }
  }

  /** Going `n` places round a ring of `n` comes back to the start. */
  lemma RingFull(i: nat, n: nat)
    requires i < n
    ensures RingAdd(i, n, n) == i
  {
    RingCompose(i, n - 1 - i, i + 1, n);
    RingForward(i, n - 1 - i, n);
    RingForward(0, i, n);
  }

  /** From position `i`, `k` presses of "next" reach position `i + k` round the
      ring of the active ordering. */
  lemma {:induction false} NextCycle(s: PlayerState, i: nat, k: nat)
    requires s.playlist != [] && s.repeat == All && DistinctIds(ActiveOrder(s))
    requires i < |ActiveOrder(s)| && s.currentTrack == Some(ActiveOrder(s)[i])
    ensures AdvanceNext(s, k).currentTrack == Some(ActiveOrder(s)[RingAdd(i, k, |ActiveOrder(s)|)])
    decreases k
  {
    if k > 0 {
      NextStep(s, i);
      NavigationKeepsOrder(s);
      NextCycle(PlayNextSpec(s), Succ(i, |ActiveOrder(s)|), k - 1);
    }
  }

  /** With repeat "all" and distinct ids, as many presses of "next" as there
      are tracks bring back the track playing at the start. */
  lemma NextFullCycle(s: PlayerState, i: nat)
    requires s.playlist != [] && s.repeat == All && DistinctIds(ActiveOrder(s))
    requires i < |ActiveOrder(s)| && s.currentTrack == Some(ActiveOrder(s)[i])
    ensures AdvanceNext(s, |ActiveOrder(s)|).currentTrack == s.currentTrack
  {
    NextCycle(s, i, |ActiveOrder(s)|);
    RingFull(i, |ActiveOrder(s)|);
  }

  /** Under repeat "all" with distinct ids, "previous" undoes "next". */
  lemma PrevUndoesNext(s: PlayerState, i: nat)
    requires s.playlist != [] && s.repeat == All && DistinctIds(ActiveOrder(s))
    requires i < |ActiveOrder(s)| && s.currentTrack == Some(ActiveOrder(s)[i])
    ensures PlayPrevSpec(PlayNextSpec(s)).currentTrack == s.currentTrack
  {
    var a := ActiveOrder(s);
    var n := |a|;
    NextStep(s, i);
    NavigationKeepsOrder(s);
    var next := PlayNextSpec(s);
    assert ActiveOrder(next) == a && next.repeat == All && next.playlist != [];
    PrevStep(next, Succ(i, n));
  }

  /** Under repeat "all" with distinct ids, one press of "previous" moves one
      place back round the ordering. */
  lemma PrevStep(s: PlayerState, i: nat)
    requires s.playlist != [] && s.repeat == All && DistinctIds(ActiveOrder(s))
    requires i < |ActiveOrder(s)| && s.currentTrack == Some(ActiveOrder(s)[i])
    ensures PlayPrevSpec(s) == PlayTrackSpec(s, ActiveOrder(s)[if i == 0 then |ActiveOrder(s)| - 1 else i - 1])
  {
    FindDistinct(ActiveOrder(s), i);
  }

  // ----- queue edits -----

  /** The tracks of `toAdd` whose id the queue `prev` does not already hold, in order. */
  function NewTracks(prev: seq<Track>, toAdd: seq<Track>): (r: seq<Track>)
    ensures |r| <= |toAdd|
    ensures forall k :: 0 <= k < |r| ==> !HasId(prev, r[k].id) && r[k] in toAdd
    ensures forall k :: 0 <= k < |toAdd| && !HasId(prev, toAdd[k].id) ==> toAdd[k] in r
  {
    if toAdd == [] then []
    else if HasId(prev, toAdd[0].id) then NewTracks(prev, toAdd[1..])
    else [toAdd[0]] + NewTracks(prev, toAdd[1..])
  }

  /** The filter works batch by batch: the new tracks of `a + b` are those of
      `a` followed by those of `b`, both judged against the same queue. */
  lemma {:induction false} NewTracksConcat(prev: seq<Track>, a: seq<Track>, b: seq<Track>)
    ensures NewTracks(prev, a + b) == NewTracks(prev, a) + NewTracks(prev, b)
    decreases |a|
  {
    if a != [] {
      assert (a + b)[0] == a[0] && (a + b)[1..] == a[1..] + b;
      NewTracksConcat(prev, a[1..], b);
    } else {
      assert a + b == b;
    }
  }

  /** One track is kept exactly when its id is not queued; with `NewTracksConcat`
      this fixes the order and keeps duplicates within a batch. */
  lemma NewTracksSingle(prev: seq<Track>, t: Track)
    ensures NewTracks(prev, [t]) == if HasId(prev, t.id) then [] else [t]
  {
    assert [t][1..] == [];
  }

  /** A batch holding one unqueued track twice appends it twice. */
  lemma NewTracksKeepsBatchDuplicates(prev: seq<Track>, t: Track)
    requires !HasId(prev, t.id)
    ensures NewTracks(prev, [t, t]) == [t, t]
  {
    NewTracksConcat(prev, [t], [t]);
    assert [t] + [t] == [t, t];
    NewTracksSingle(prev, t);
  }

  /** `addToQueue`: the old queue stays as a prefix and only unseen ids are appended. */
  function AddToQueueSpec(s: PlayerState, toAdd: seq<Track>): (r: PlayerState)
    ensures r == s.(playlist := r.playlist)
    ensures s.playlist <= r.playlist
    ensures forall k :: |s.playlist| <= k < |r.playlist| ==>
      !HasId(s.playlist, r.playlist[k].id) && r.playlist[k] in toAdd
    ensures forall k :: 0 <= k < |toAdd| ==> HasId(r.playlist, toAdd[k].id)
  {
    NewTracksCover(s.playlist, toAdd);
    s.(playlist := s.playlist + NewTracks(s.playlist, toAdd))
  }

  /** After appending the new tracks, every id of `toAdd` is queued. */
  lemma NewTracksCover(prev: seq<Track>, toAdd: seq<Track>)
    ensures forall k :: 0 <= k < |toAdd| ==> HasId(prev + NewTracks(prev, toAdd), toAdd[k].id)
  {
    var q := prev + NewTracks(prev, toAdd);
    forall k | 0 <= k < |toAdd|
      ensures HasId(q, toAdd[k].id)
    {
      if HasId(prev, toAdd[k].id) {
        var j :| 0 <= j < |prev| && prev[j].id == toAdd[k].id;
        assert q[j] == prev[j];
      } else {
        var n := NewTracks(prev, toAdd);
        var j :| 0 <= j < |n| && n[j] == toAdd[k];
        assert q[|prev| + j] == n[j];
      }
    }
  }

  lemma {:induction false} NewTracksNone(prev: seq<Track>, toAdd: seq<Track>)
    requires forall k :: 0 <= k < |toAdd| ==> HasId(prev, toAdd[k].id)
    ensures NewTracks(prev, toAdd) == []
  {
    if toAdd != [] {
      NewTracksNone(prev, toAdd[1..]);
    }
  }

  /** Re-adding tracks whose ids are all queued leaves the state as it was. */
  lemma AddPresentIsNoop(s: PlayerState, toAdd: seq<Track>)
    requires forall k :: 0 <= k < |toAdd| ==> HasId(s.playlist, toAdd[k].id)
    ensures AddToQueueSpec(s, toAdd) == s
  {
    NewTracksNone(s.playlist, toAdd);
  }

  /** Adding the same batch twice is the same as adding it once. */
  lemma AddToQueueIdempotent(s: PlayerState, toAdd: seq<Track>)
    ensures AddToQueueSpec(AddToQueueSpec(s, toAdd), toAdd) == AddToQueueSpec(s, toAdd)
  {
    var p := s.playlist;
    var p' := p + NewTracks(p, toAdd);
    forall k | 0 <= k < |toAdd|
      ensures HasId(p', toAdd[k].id)
    {
      if HasId(p, toAdd[k].id) {
        var m :| 0 <= m < |p| && p[m].id == toAdd[k].id;
        assert p'[m] == p[m];
      } else {
        var r := NewTracks(p, toAdd);
        assert toAdd[k] in r;
        var m :| 0 <= m < |r| && r[m] == toAdd[k];
        assert p'[|p| + m] == toAdd[k];
      }
    }
    AddPresentIsNoop(AddToQueueSpec(s, toAdd), toAdd);
  }

  /** The playlist with every entry of id `id` filtered out, order kept. */
  function WithoutId(s: seq<Track>, id: int): (r: seq<Track>)
    ensures |r| <= |s|
    ensures forall k :: 0 <= k < |r| ==> r[k].id != id
  {
    if s == [] then []
    else if s[0].id == id then WithoutId(s[1..], id)
    else [s[0]] + WithoutId(s[1..], id)
  }

  /** Every entry of another id is kept, as many times as it occurred. */
  lemma {:induction false} WithoutIdKeeps(s: seq<Track>, id: int, x: Track)
    requires x.id != id
    ensures multiset(WithoutId(s, id))[x] == multiset(s)[x]
  {
    if s != [] {
      assert s == [s[0]] + s[1..];
      WithoutIdKeeps(s[1..], id, x);
    }
  }

  /** Filtering splits over concatenation: relative order survives. */
  lemma {:induction false} WithoutIdConcat(a: seq<Track>, b: seq<Track>, id: int)
    ensures WithoutId(a + b, id) == WithoutId(a, id) + WithoutId(b, id)
  {
    if a == [] {
      assert a + b == b;
    } else {
      assert (a + b)[0] == a[0];
      assert (a + b)[1..] == a[1..] + b;
      WithoutIdConcat(a[1..], b, id);
    }
  }

  lemma {:induction false} WithoutAbsentId(s: seq<Track>, id: int)
    requires !HasId(s, id)
    ensures WithoutId(s, id) == s
  {
    if s != [] {
      assert s[0].id != id;
      WithoutAbsentId(s[1..], id);
    }
  }

  /** `removeTrack`: refused for the current track, otherwise a filter by id. */
  function RemoveTrackSpec(s: PlayerState, id: int): (r: PlayerState)
    ensures r == s.(playlist := r.playlist)
    ensures |r.playlist| <= |s.playlist|
    ensures s.currentTrack.Some? && s.currentTrack.value.id == id ==> r == s
  {
    if s.currentTrack.Some? && s.currentTrack.value.id == id then s
    else s.(playlist := WithoutId(s.playlist, id))
  }

  /** `removeTrack` of the current track changes nothing; of any other id it leaves
      no entry with that id and every other entry as often as before. */
  lemma RemoveTrackEffect(s: PlayerState, id: int)
    ensures s.currentTrack.Some? && s.currentTrack.value.id == id ==> RemoveTrackSpec(s, id) == s
    ensures !(s.currentTrack.Some? && s.currentTrack.value.id == id) ==>
      !HasId(RemoveTrackSpec(s, id).playlist, id)
    ensures forall x: Track :: x.id != id ==>
      multiset(RemoveTrackSpec(s, id).playlist)[x] == multiset(s.playlist)[x]
  {
    forall x: Track | x.id != id
      ensures multiset(RemoveTrackSpec(s, id).playlist)[x] == multiset(s.playlist)[x]
    {
      WithoutIdKeeps(s.playlist, id, x);
    }
  }

  /** The start index JavaScript's `splice` uses for `k` on a list of `len` entries. */
  function SpliceStart(k: int, len: nat): (r: nat)
    ensures r <= len
    ensures 0 <= k <= len ==> r == k
  {
    if k < 0 then (if len + k < 0 then 0 else len + k)
    else if k > len then len
    else k
  }

  function InsertAt(prev: seq<Track>, k: nat, t: Track): (r: seq<Track>)
    requires k <= |prev|
    ensures |r| == |prev| + 1 && r[k] == t
    ensures r[..k] == prev[..k] && r[k + 1..] == prev[k..]
  {
    prev[..k] + [t] + prev[k..]
  }

  /** Inserting adds exactly the one track. */
  lemma InsertAtAdds(prev: seq<Track>, k: nat, t: Track)
    requires k <= |prev|
    ensures multiset(InsertAt(prev, k, t)) == multiset(prev) + multiset{t}
  {
    assert prev == prev[..k] + prev[k..];
    assert multiset(prev) == multiset(prev[..k]) + multiset(prev[k..]);
  }

  /** Inserting at the end appends. */
  lemma InsertAtEnd(prev: seq<Track>, t: Track)
    ensures InsertAt(prev, |prev|, t) == prev + [t]
  {
    assert prev[|prev|..] == [];
  }

  /** `splice(from, 1)`: the list without its entry at `from`. */
  function RemoveAt(s: seq<Track>, from: nat): (r: seq<Track>)
    requires from < |s|
    ensures |r| == |s| - 1
    ensures forall k :: 0 <= k < from ==> r[k] == s[k]
    ensures forall k :: from <= k < |r| ==> r[k] == s[k + 1]
  {
    s[..from] + s[from + 1..]
  }

  /** Removing takes away exactly the one entry. */
  lemma RemoveAtDrops(s: seq<Track>, from: nat)
    requires from < |s|
    ensures multiset(RemoveAt(s, from)) + multiset{s[from]} == multiset(s)
  {
    assert s == s[..from] + [s[from]] + s[from + 1..];
  }

  /** `splice(from, 1)` followed by `splice(to, 0, removed)`. */
  function Reorder(s: seq<Track>, from: nat, to: int): (r: seq<Track>)
    requires from < |s|
    ensures |r| == |s|
    ensures r[SpliceStart(to, |s| - 1)] == s[from]
  {
    var u := RemoveAt(s, from);
    InsertAt(u, SpliceStart(to, |u|), s[from])
  }

  /** Taking an inserted entry out again gives back the list it went into. */
  lemma RemoveInserted(u: seq<Track>, k: nat, t: Track)
    requires k <= |u|
    ensures RemoveAt(InsertAt(u, k, t), k) == u
  {
    var w := InsertAt(u, k, t);
    assert w[..k] == u[..k] && w[k + 1..] == u[k..];
    assert u == u[..k] + u[k..];
  }

  /** The entries other than the moved one keep their relative order: taking
      the moved entry out of the result leaves what taking it out of `s` leaves. */
  lemma ReorderKeepsOthers(s: seq<Track>, from: nat, to: int)
    requires from < |s|
    ensures RemoveAt(Reorder(s, from, to), SpliceStart(to, |s| - 1)) == RemoveAt(s, from)
  {
    RemoveInserted(RemoveAt(s, from), SpliceStart(to, |s| - 1), s[from]);
  }

  /** Reordering moves one entry and loses or duplicates none. */
  lemma ReorderPermutes(s: seq<Track>, from: nat, to: int)
    requires from < |s|
    ensures multiset(Reorder(s, from, to)) == multiset(s)
  {
    var u := RemoveAt(s, from);
    RemoveAtDrops(s, from);
    InsertAtAdds(u, SpliceStart(to, |u|), s[from]);
  }

  /** `reorderTracks`: only the queue changes, by one move that keeps every entry. */
  function ReorderSpec(s: PlayerState, from: nat, to: int): (r: PlayerState)
    requires from < |s.playlist|
    ensures r == s.(playlist := r.playlist)
    ensures multiset(r.playlist) == multiset(s.playlist)
    ensures r.playlist[SpliceStart(to, |s.playlist| - 1)] == s.playlist[from]
  {
    ReorderPermutes(s.playlist, from, to);
    s.(playlist := Reorder(s.playlist, from, to))
  }

  /** Moving an entry within the part after position `c` leaves positions 0..c alone. */
  lemma ReorderKeepsPrefix(s: seq<Track>, from: nat, to: int, c: nat)
    requires c < from < |s| && c < to
    ensures Reorder(s, from, to)[..c + 1] == s[..c + 1]
  {
    var u := RemoveAt(s, from);
    var k := SpliceStart(to, |u|);
    assert k > c;
    assert u[..c + 1] == s[..c + 1];
    assert Reorder(s, from, to)[..c + 1] == InsertAt(u, k, s[from])[..k][..c + 1];
  }

  /** Where `playNextInQueue` puts its track: right after the current one, else at the end. */
  function InsertPos(prev: seq<Track>, cur: Option<Track>): (r: nat)
    ensures r <= |prev|
  {
    if cur.None? then |prev|
    else
      var i := FindIndexById(prev, cur.value.id);
      if i == -1 then |prev| else i + 1
  }

  /** `playNextInQueue`: only the queue changes, gaining the one entry `t`. */
  function PlayNextInQueueSpec(s: PlayerState, t: Track): (r: PlayerState)
    ensures r == s.(playlist := r.playlist)
    ensures |r.playlist| == |s.playlist| + 1
    ensures r.playlist[InsertPos(s.playlist, s.currentTrack)] == t
  {
    s.(playlist := InsertAt(s.playlist, InsertPos(s.playlist, s.currentTrack), t))
  }

  /** `playNextInQueue` adds exactly one entry, `t`, and removes nothing. */
  lemma PlayNextInQueueAdds(s: PlayerState, t: Track)
    ensures |PlayNextInQueueSpec(s, t).playlist| == |s.playlist| + 1
    ensures multiset(PlayNextInQueueSpec(s, t).playlist) == multiset(s.playlist) + multiset{t}
  {
    InsertAtAdds(s.playlist, InsertPos(s.playlist, s.currentTrack), t);
  }

  /** With the current track queued, `t` lands right after it and nothing
      up to the current track moves. */
  lemma PlayNextInQueueAfterCurrent(s: PlayerState, t: Track)
    requires s.currentTrack.Some? && HasId(s.playlist, s.currentTrack.value.id)
    ensures var i := FindIndexById(s.playlist, s.currentTrack.value.id);
      0 <= i && PlayNextInQueueSpec(s, t).playlist[i + 1] == t
      && PlayNextInQueueSpec(s, t).playlist[..i + 1] == s.playlist[..i + 1]
  {
    var i := FindIndexById(s.playlist, s.currentTrack.value.id);
    assert i != -1;
    assert InsertPos(s.playlist, s.currentTrack) == i + 1;
  }

  /** With no current track, or one that is not queued, `t` goes to the end. */
  lemma PlayNextInQueueAppends(s: PlayerState, t: Track)
    requires s.currentTrack.None? || !HasId(s.playlist, s.currentTrack.value.id)
    ensures PlayNextInQueueSpec(s, t).playlist == s.playlist + [t]
  {
    assert InsertPos(s.playlist, s.currentTrack) == |s.playlist|;
    InsertAtEnd(s.playlist, t);
  }

  /** `clearQueue`: only the current track, if any, stays queued. */
  function ClearQueueSpec(s: PlayerState): (r: PlayerState)
    ensures r == s.(playlist := r.playlist)
    ensures s.currentTrack.Some? ==> r.playlist == [s.currentTrack.value]
    ensures s.currentTrack.None? ==> r.playlist == []
  {
    s.(playlist := if s.currentTrack.Some? then [s.currentTrack.value] else [])
  }

  /** After clearing, the current track is still found, at the head of the
      queue, and clearing again changes nothing. */
  lemma ClearQueueKeepsCurrent(s: PlayerState)
    ensures ClearQueueSpec(ClearQueueSpec(s)) == ClearQueueSpec(s)
    ensures s.currentTrack.Some? ==>
      FindIndexById(ClearQueueSpec(s).playlist, s.currentTrack.value.id) == 0
  {
  }

  /** `toggleShuffle`: turning it on shuffles a copy of the playlist, turning it
      off drops the shuffled copy. */
  function ToggleShuffleSpec(s: PlayerState, rand: seq<real>): (r: PlayerState)
    requires Draws(rand) && |rand| == |s.playlist|
    ensures r.(shuffle := s.shuffle, shuffledPlaylist := s.shuffledPlaylist) == s
    ensures r.shuffle == !s.shuffle
    ensures r.shuffle ==> |r.shuffledPlaylist| == |s.playlist|
    ensures !r.shuffle ==> r.shuffledPlaylist == []
  {
    if s.shuffle then s.(shuffle := false, shuffledPlaylist := [])
    else s.(shuffle := true, shuffledPlaylist := FisherYates(s.playlist, rand))
  }

  /** The effect that re-shuffles when the playlist changes while shuffle is on. */
  function SyncShuffleSpec(s: PlayerState, rand: seq<real>): (r: PlayerState)
    requires Draws(rand) && |rand| == |s.playlist|
    ensures r.(shuffledPlaylist := s.shuffledPlaylist) == s
    ensures s.shuffle && s.playlist != [] ==> |r.shuffledPlaylist| == |s.playlist|
    ensures !(s.shuffle && s.playlist != []) ==> r == s
  {
    if s.shuffle && |s.playlist| > 0 then s.(shuffledPlaylist := FisherYates(s.playlist, rand))
    else s
  }

  /** Toggling shuffle keeps the state consistent; once on, the active ordering
      is a permutation of the playlist; once off, the playlist itself. */
  lemma ToggleShuffleEffect(s: PlayerState, rand: seq<real>)
    requires Consistent(s) && Draws(rand) && |rand| == |s.playlist|
    ensures Consistent(ToggleShuffleSpec(s, rand))
    ensures ToggleShuffleSpec(s, rand).shuffle == !s.shuffle
    ensures multiset(ActiveOrder(ToggleShuffleSpec(s, rand))) == multiset(s.playlist)
    ensures !s.shuffle ==> |ToggleShuffleSpec(s, rand).shuffledPlaylist| == |s.playlist|
    ensures s.shuffle ==> ActiveOrder(ToggleShuffleSpec(s, rand)) == s.playlist
  {
    FisherYatesPermutes(s.playlist, rand);
  }

  /** After the re-shuffle effect, a non-empty playlist with shuffle on is
      played in a permutation of itself. */
  lemma SyncShuffleEffect(s: PlayerState, rand: seq<real>)
    requires Consistent(s) && Draws(rand) && |rand| == |s.playlist|
    ensures Consistent(SyncShuffleSpec(s, rand))
    ensures s.playlist != [] ==> multiset(ActiveOrder(SyncShuffleSpec(s, rand))) == multiset(s.playlist)
  {
    FisherYatesPermutes(s.playlist, rand);
  }

  // ----- the session object -----

  class Player {
    var currentTrack: Option<Track>
    var isPlaying: bool
    var volume: real
    var playlist: seq<Track>
    var shuffle: bool
    var shuffledPlaylist: seq<Track>
    var repeat: RepeatMode

    function State(): PlayerState
      reads this
    {
      PlayerState(currentTrack, isPlaying, volume, playlist, shuffle, shuffledPlaylist, repeat)
    }

    ghost predicate Valid()
      reads this
    {
      Consistent(State())
    }

    /** Mounting the provider, then restoring the saved session; playback never resumes. */
    constructor (saved: Option<SavedState>)
      ensures Valid() && State() == Hydrate(saved)
      ensures !isPlaying
    {
      currentTrack, isPlaying, volume, playlist := None, false, DefaultVolume, [];
      shuffle, shuffledPlaylist, repeat := false, [], Off;
      if saved.Some? {
        var p := saved.value;
        if p.volume.Some? { volume := p.volume.value; }
        if p.shuffle.Some? { shuffle := p.shuffle.value; }
        if p.repeat.Some? { repeat := p.repeat.value; }
        if p.playlist.Some? { playlist := p.playlist.value; }
        if p.currentTrack.Some? { currentTrack := p.currentTrack; }
      }
    }

    method Stop()
      modifies this
      ensures State() == old(State()).(isPlaying := false)
    {
      isPlaying := false;
    }

    method PlayTrack(t: Track)
      requires Valid()
      modifies this
      ensures Valid() && State() == PlayTrackSpec(old(State()), t)
    {
      if currentTrack.Some? && currentTrack.value.id != t.id {
        Stop();
      }
      currentTrack := Some(t);
      isPlaying := true;
    }

    method TogglePlay()
      requires Valid()
      modifies this
      ensures Valid() && State() == old(State()).(isPlaying := !old(isPlaying))
    {
      isPlaying := !isPlaying;
    }

    /** The context stores the volume as given; clamping is the audio manager's job. */
    method SetVolume(v: real)
      requires Valid()
      modifies this
      ensures Valid() && State() == old(State()).(volume := v)
    {
      volume := v;
    }

    method ToggleShuffle(rand: seq<real>)
      requires Valid() && Draws(rand) && |rand| == |playlist|
      modifies this
      ensures Valid() && State() == ToggleShuffleSpec(old(State()), rand)
    {
      if !shuffle {
        shuffledPlaylist := Shuffle(playlist, rand);
      } else {
        shuffledPlaylist := [];
      }
      shuffle := !shuffle;
    }

    /** The effect React runs after every playlist change. */
    method SyncShuffle(rand: seq<real>)
      requires Valid() && Draws(rand) && |rand| == |playlist|
      modifies this
      ensures Valid() && State() == SyncShuffleSpec(old(State()), rand)
    {
      if shuffle && |playlist| > 0 {
        shuffledPlaylist := Shuffle(playlist, rand);
      }
    }

    method ToggleRepeat()
      requires Valid()
      modifies this
      ensures Valid() && State() == old(State()).(repeat := NextRepeat(old(repeat)))
    {
      if repeat == Off {
        repeat := All;
      } else if repeat == All {
        repeat := One;
      } else {
        repeat := Off;
      }
    }

    method PlayNext()
      requires Valid()
      modifies this
      ensures Valid() && State() == PlayNextSpec(old(State()))
    {
      if currentTrack.None? || |playlist| == 0 {
        return;
      }
      var active := if shuffle && |shuffledPlaylist| > 0 then shuffledPlaylist else playlist;
      var currentIndex := FindIndexById(active, currentTrack.value.id);
      if repeat == One {
        PlayTrack(currentTrack.value);
        return;
      }
      if currentIndex == -1 || currentIndex == |active| - 1 {
        if repeat == All {
          PlayTrack(active[0]);
        }
        return;
      }
      PlayTrack(active[currentIndex + 1]);
    }

    method PlayPrev()
      requires Valid()
      modifies this
      ensures Valid() && State() == PlayPrevSpec(old(State()))
    {
      if currentTrack.None? || |playlist| == 0 {
        return;
      }
      var active := if shuffle && |shuffledPlaylist| > 0 then shuffledPlaylist else playlist;
      var currentIndex := FindIndexById(active, currentTrack.value.id);
      if repeat == One {
        PlayTrack(currentTrack.value);
        return;
      }
      if currentIndex <= 0 {
        if repeat == All {
          PlayTrack(active[|active| - 1]);
        }
        return;
      }
      PlayTrack(active[currentIndex - 1]);
    }

    method SetPlaylist(tracks: seq<Track>)
      requires Valid()
      modifies this
      ensures Valid() && State() == old(State()).(playlist := tracks)
    {
      playlist := tracks;
    }

    method RemoveTrack(id: int)
      requires Valid()
      modifies this
      ensures Valid() && State() == RemoveTrackSpec(old(State()), id)
    {
      if currentTrack.Some? && currentTrack.value.id == id {
        return;
      }
      playlist := WithoutId(playlist, id);
    }

    method ReorderTracks(from: nat, to: int)
      requires Valid() && from < |playlist|
      modifies this
      ensures Valid() && State() == ReorderSpec(old(State()), from, to)
    {
      playlist := Reorder(playlist, from, to);
    }

    method PlayNextInQueue(t: Track)
      requires Valid()
      modifies this
      ensures Valid() && State() == PlayNextInQueueSpec(old(State()), t)
    {
      if currentTrack.None? {
        InsertAtEnd(playlist, t);
        playlist := playlist + [t];
        return;
      }
      var currentIndex := FindIndexById(playlist, currentTrack.value.id);
      if currentIndex == -1 {
        InsertAtEnd(playlist, t);
        playlist := playlist + [t];
        return;
      }
      playlist := InsertAt(playlist, currentIndex + 1, t);
    }

    method AddToQueue(toAdd: seq<Track>)
      requires Valid()
      modifies this
      ensures Valid() && State() == AddToQueueSpec(old(State()), toAdd)
    {
      playlist := playlist + NewTracks(playlist, toAdd);
    }

    method ClearQueue()
      requires Valid()
      modifies this
      ensures Valid() && State() == ClearQueueSpec(old(State()))
    {
      if currentTrack.Some? {
        playlist := [currentTrack.value];
      } else {
        playlist := [];
      }
    }
  }
}
