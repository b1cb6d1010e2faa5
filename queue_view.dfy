/** The queue panel: which entries are "upcoming", how a drag between two
    upcoming rows becomes a `reorderTracks` call on the whole playlist, and the
    number shown on each row. */
module QueueView {
  import opened Common
  import opened PlayerContext

  /** The current track's first position in the playlist, or -1. */
  function CurrentIndex(playlist: seq<Track>, cur: Option<Track>): (r: int)
    ensures -1 <= r < |playlist|
    ensures r >= 0 ==> cur.Some? && playlist[r].id == cur.value.id
    ensures r >= 0 ==> forall j :: 0 <= j < r ==> playlist[j].id != cur.value.id
    ensures r == -1 <==> cur.None? || !HasId(playlist, cur.value.id)
  {
    if cur.None? then -1 else FindIndexById(playlist, cur.value.id)
  }

  /** `playlist.slice(currentIndex + 1)`. */
  function Upcoming(playlist: seq<Track>, cur: Option<Track>): (r: seq<Track>)
    ensures |r| == |playlist| - CurrentIndex(playlist, cur) - 1
    ensures forall k :: 0 <= k < |r| ==> r[k] == playlist[CurrentIndex(playlist, cur) + 1 + k]
    ensures CurrentIndex(playlist, cur) == -1 ==> r == playlist
  {
    playlist[CurrentIndex(playlist, cur) + 1..]
  }

  /** The full-playlist position of upcoming row `row`. */
  function ActualIndex(ci: int, row: nat): int {
    ci + 1 + row
  }

  /** The number printed on upcoming row `row`: its full-playlist position plus one. */
  function DisplayNumber(playlist: seq<Track>, cur: Option<Track>, row: nat): (n: int)
    requires row < |Upcoming(playlist, cur)|
    ensures 1 <= n <= |playlist|
    ensures playlist[n - 1] == Upcoming(playlist, cur)[row]
  {
    ActualIndex(CurrentIndex(playlist, cur), row) + 1
  }

  /** The reorder a drop asks for, as (from, to) in the full playlist, or none. */
  function DropMove(ci: int, dragged: Option<nat>, over: Option<nat>): (m: Option<(int, int)>)
    ensures m.Some? <==> dragged.Some? && over.Some? && dragged.value != over.value
    ensures m.Some? ==> m.value.0 == ci + 1 + dragged.value && m.value.1 == ci + 1 + over.value
    ensures m.Some? ==> m.value.0 != m.value.1
  {
    if dragged.Some? && over.Some? && dragged.value != over.value then
      Some((ActualIndex(ci, dragged.value), ActualIndex(ci, over.value)))
    else None
  }

  /** The first position of `id` depends only on the prefix through that position. */
  lemma FindInPrefix(s: seq<Track>, t: seq<Track>, id: int, c: nat)
    requires c < |s| && c < |t| && s[..c + 1] == t[..c + 1]
    requires FindIndexById(s, id) == c
    ensures FindIndexById(t, id) == c
  {
    assert forall j :: 0 <= j <= c ==> t[j] == t[..c + 1][j] == s[..c + 1][j] == s[j];
    assert t[c].id == id;
    var r := FindIndexById(t, id);
    assert r != -1;
  }

  /** A drop maps rows of the upcoming list to positions inside the playlist. */
  lemma DropInRange(playlist: seq<Track>, cur: Option<Track>, row: nat)
    requires row < |Upcoming(playlist, cur)|
    ensures 0 <= ActualIndex(CurrentIndex(playlist, cur), row) < |playlist|
  {
  }

  /** Dropping one upcoming row onto another leaves the current track and every
      entry before it where they were. */
  lemma DropKeepsHead(playlist: seq<Track>, ci: nat, from: nat, to: int)
    requires ci < from < |playlist| && ci < to
    ensures Reorder(playlist, from, to)[..ci + 1] == playlist[..ci + 1]
  {
    ReorderKeepsPrefix(playlist, from, to, ci);
  }

  /** ... so a move between upcoming positions keeps the current index. */
  lemma DropKeepsCurrentIndex(playlist: seq<Track>, cur: Option<Track>, from: nat, to: int)
    requires CurrentIndex(playlist, cur) < from < |playlist| && CurrentIndex(playlist, cur) < to
    ensures CurrentIndex(Reorder(playlist, from, to), cur) == CurrentIndex(playlist, cur)
  {
    var ci := CurrentIndex(playlist, cur);
    var r := Reorder(playlist, from, to);
    if ci >= 0 {
      DropKeepsHead(playlist, ci, from, to);
      FindInPrefix(playlist, r, cur.value.id, ci);
    } else if cur.Some? {
      ReorderPermutes(playlist, from, to);
      AbsentStaysAbsent(playlist, r, cur.value.id);
    }
  }

  /** An id absent from a list is absent from every permutation of it. */
  lemma AbsentStaysAbsent(s: seq<Track>, r: seq<Track>, id: int)
    requires multiset(r) == multiset(s) && !HasId(s, id)
    ensures !HasId(r, id)
  {
    forall k | 0 <= k < |r|
      ensures r[k].id != id
    {
      assert r[k] in multiset(s);
    }
  }

  /** The drag state of the panel. */
  class QueuePanel {
    var draggedIndex: Option<nat>
    var dragOverIndex: Option<nat>

    constructor ()
      ensures draggedIndex.None? && dragOverIndex.None?
    {
      draggedIndex, dragOverIndex := None, None;
    }

    method DragStart(row: nat)
      modifies this
      ensures draggedIndex == Some(row) && dragOverIndex == old(dragOverIndex)
    {
      draggedIndex := Some(row);
    }

    method DragOver(row: nat)
      modifies this
      ensures dragOverIndex == Some(row) && draggedIndex == old(draggedIndex)
    {
      dragOverIndex := Some(row);
    }

    method DragLeave()
      modifies this
      ensures dragOverIndex.None? && draggedIndex == old(draggedIndex)
    {
      dragOverIndex := None;
    }

    /** `handleDragEnd`: reorder the player's playlist when two distinct rows
        were involved, then forget both rows. */
    method DragEnd(player: Player) returns (from: int, to: int)
      requires player.Valid()
      requires draggedIndex.Some? ==> draggedIndex.value < |Upcoming(player.playlist, player.currentTrack)|
      requires dragOverIndex.Some? ==> dragOverIndex.value < |Upcoming(player.playlist, player.currentTrack)|
      modifies this, player
      ensures draggedIndex.None? && dragOverIndex.None?
      ensures player.Valid()
      ensures old(DropMove(CurrentIndex(player.playlist, player.currentTrack), draggedIndex, dragOverIndex)).None? ==>
        player.State() == old(player.State()) && from == -1 && to == -1
      ensures old(DropMove(CurrentIndex(player.playlist, player.currentTrack), draggedIndex, dragOverIndex)).Some? ==>
        (from, to) == old(DropMove(CurrentIndex(player.playlist, player.currentTrack), draggedIndex, dragOverIndex)).value
      ensures old(DropMove(CurrentIndex(player.playlist, player.currentTrack), draggedIndex, dragOverIndex)).Some? ==>
        player.State() == old(player.State()).(playlist := Reorder(old(player.playlist), from, to))
    {
      var ci := CurrentIndex(player.playlist, player.currentTrack);
      from, to := -1, -1;
      if draggedIndex.Some? && dragOverIndex.Some? && draggedIndex.value != dragOverIndex.value {
        DropInRange(player.playlist, player.currentTrack, draggedIndex.value);
        from := ActualIndex(ci, draggedIndex.value);
        to := ActualIndex(ci, dragOverIndex.value);
        player.ReorderTracks(from, to);
      }
      draggedIndex := None;
      dragOverIndex := None;
    }
  }
}
