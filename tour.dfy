/** The tour page: the events, in the query's ascending date order, are
    split at the current time into upcoming and past; the past tab shows its
    events reversed in place, newest first. Dates are instants in
    milliseconds; a date string that does not parse is `None`, which every
    comparison rejects. The clock is a parameter. */
module Tour {
  import opened Common

  datatype Event = Event(id: int, venue: string, date: Option<int>)

  /** `new Date(event.date) >= now`; false for an unparseable date. */
  predicate OnOrAfter(e: Event, now: int) {
    e.date.Some? && e.date.value >= now
  }

  /** `new Date(event.date) < now`; false for an unparseable date. */
  predicate Before(e: Event, now: int) {
    e.date.Some? && e.date.value < now
  }

  /** `allEvents.filter(...)` for the upcoming tab. */
  function Upcoming(es: seq<Event>, now: int): (r: seq<Event>)
    ensures |r| <= |es|
    ensures forall e :: e in r ==> e in es && OnOrAfter(e, now)
    ensures forall e :: e in es && OnOrAfter(e, now) ==> e in r
  {
    if es == [] then []
    else (if OnOrAfter(es[0], now) then [es[0]] else []) + Upcoming(es[1..], now)
  }

  /** `allEvents.filter(...)` for the past tab, before reversal. */
  function Past(es: seq<Event>, now: int): (r: seq<Event>)
    ensures |r| <= |es|
    ensures forall e :: e in r ==> e in es && Before(e, now)
    ensures forall e :: e in es && Before(e, now) ==> e in r
  {
    if es == [] then []
    else (if Before(es[0], now) then [es[0]] else []) + Past(es[1..], now)
  }

  function Reversed(s: seq<Event>): (r: seq<Event>)
    ensures |r| == |s|
    ensures forall k :: 0 <= k < |s| ==> r[k] == s[|s| - 1 - k]
  {
    if s == [] then [] else Reversed(s[1..]) + [s[0]]
  }

  predicate AllDated(es: seq<Event>) {
    forall i :: 0 <= i < |es| ==> es[i].date.Some?
  }

  /** Both dates readable and `a`'s not later than `b`'s. */
  predicate NoLater(a: Event, b: Event) {
    a.date.Some? && b.date.Some? && a.date.value <= b.date.value
  }

  predicate Ascending(es: seq<Event>) {
    forall i, j :: 0 <= i < j < |es| ==> NoLater(es[i], es[j])
  }

  predicate Descending(es: seq<Event>) {
    forall i, j :: 0 <= i < j < |es| ==> NoLater(es[j], es[i])
  }

  /** With every date readable, the two tabs split the events and their counts add up. */
  lemma {:induction false} TabsPartition(es: seq<Event>, now: int)
    requires AllDated(es)
    ensures multiset(Upcoming(es, now)) + multiset(Past(es, now)) == multiset(es)
    ensures |Upcoming(es, now)| + |Past(es, now)| == |es|
  {
    if es != [] {
      TabsPartition(es[1..], now);
      assert es == [es[0]] + es[1..];
    }
  }

  /** An event dated exactly now is upcoming. */
  lemma NowIsUpcoming(e: Event, now: int)
    requires e.date == Some(now)
    ensures Upcoming([e], now) == [e] && Past([e], now) == []
  {
  }

  /** An event whose date does not parse is on neither tab. */
  lemma UnparseableHidden(es: seq<Event>, e: Event, now: int)
    requires e.date.None?
    ensures e !in Upcoming(es, now) && e !in Past(es, now)
  {
  }

  /** A filter of an ascending list is ascending. */
  lemma {:induction false} UpcomingAscending(es: seq<Event>, now: int)
    requires Ascending(es)
    ensures Ascending(Upcoming(es, now))
  {
    if es != [] {
      TailAscending(es);
      UpcomingAscending(es[1..], now);
      var rest := Upcoming(es[1..], now);
      forall e | e in rest
        ensures NoLater(es[0], e)
      {
        var i :| 0 <= i < |es[1..]| && es[1..][i] == e;
        assert es[i + 1] == e;
      }
      if OnOrAfter(es[0], now) {
        var r := Upcoming(es, now);
        assert r == [es[0]] + rest;
        forall i, j | 0 <= i < j < |r|
          ensures NoLater(r[i], r[j])
        {
          assert r[j] == rest[j - 1] && r[j] in rest;
          if i > 0 {
            assert r[i] == rest[i - 1];
          }
        }
      }
    }
  }

  /** A filter of an ascending list is ascending. */
  lemma {:induction false} PastAscending(es: seq<Event>, now: int)
    requires Ascending(es)
    ensures Ascending(Past(es, now))
  {
    if es != [] {
      TailAscending(es);
      PastAscending(es[1..], now);
      var rest := Past(es[1..], now);
      forall e | e in rest
        ensures NoLater(es[0], e)
      {
        var i :| 0 <= i < |es[1..]| && es[1..][i] == e;
        assert es[i + 1] == e;
      }
      if Before(es[0], now) {
        var r := Past(es, now);
        assert r == [es[0]] + rest;
        forall i, j | 0 <= i < j < |r|
          ensures NoLater(r[i], r[j])
        {
          assert r[j] == rest[j - 1] && r[j] in rest;
          if i > 0 {
            assert r[i] == rest[i - 1];
          }
        }
      }
    }
  }

  lemma TailAscending(es: seq<Event>)
    requires Ascending(es) && es != []
    ensures Ascending(es[1..])
  {
    var t := es[1..];
    forall i, j | 0 <= i < j < |t|
      ensures NoLater(t[i], t[j])
    {
      assert t[i] == es[i + 1] && t[j] == es[j + 1];
    }
  }

  /** Reversing an ascending list gives a descending one. */
  lemma ReversedDescending(s: seq<Event>)
    requires Ascending(s)
    ensures Descending(Reversed(s))
  {
    var r := Reversed(s);
    forall i, j | 0 <= i < j < |r|
      ensures NoLater(r[j], r[i])
    {
      assert r[i] == s[|s| - 1 - i] && r[j] == s[|s| - 1 - j];
    }
  }

  /** The past tab, for events in ascending date order, is newest first. */
  lemma PastNewestFirst(es: seq<Event>, now: int)
    requires Ascending(es)
    ensures Descending(Reversed(Past(es, now)))
  {
    PastAscending(es, now);
    ReversedDescending(Past(es, now));
  }

  /** `Array.prototype.reverse`, in place. */
  method Reverse(a: array<Event>)
    modifies a
    ensures a[..] == Reversed(old(a[..]))
  {
    var n := a.Length;
    var i := 0;
    while i < n / 2
      invariant 0 <= i <= n / 2
      invariant forall k :: 0 <= k < i ==> a[k] == old(a[n - 1 - k]) && a[n - 1 - k] == old(a[k])
      invariant forall k :: i <= k < n - i ==> a[k] == old(a[k])
    {
      a[i], a[n - 1 - i] := a[n - 1 - i], a[i];
      i := i + 1;
    }
  }

  /** The two tabs as `TourPage` renders them: upcoming as filtered, past
      filtered into a fresh array and then reversed in place. */
  method Tabs(events: seq<Event>, now: int) returns (upcoming: seq<Event>, past: array<Event>)
    ensures upcoming == Upcoming(events, now)
    ensures past[..] == Reversed(Past(events, now))
    ensures fresh(past)
  {
    upcoming := Upcoming(events, now);
    var p := Past(events, now);
    past := new Event[|p|](i requires 0 <= i < |p| => p[i]);
    assert past[..] == p;
    Reverse(past);
  }
}
