/** The guestbook: visitors submit a name and a message, which are checked
    and stored unapproved; the public listing shows approved entries and the
    moderation listing pending ones, newest first; moderators approve or
    delete entries by id. The clock and database failures are parameters. */
module Guestbook {
  import opened Common
  import opened Strings

  /** A row of the entries table; `createdAt` is the insertion time. */
  datatype Entry = Entry(id: nat, name: string, message: string, approved: bool, createdAt: int)

  const NameTooShort: string := "Name must be at least 2 characters"
  const MessageTooShort: string := "Message must be at least 5 characters"
  const NotAString: string := "Expected string, received null"
  const SubmitFailed: string := "Failed to submit entry"

  /** The first problem the form schema reports, name before message; a
      field missing from the form is not a string. Lengths are JavaScript
      lengths, in UTF-16 code units. */
  function Validate(name: Option<string>, message: Option<string>): (r: Option<string>)
    ensures r.None? <==> name.Some? && Utf16Length(name.value) >= 2 && message.Some? && Utf16Length(message.value) >= 5
    ensures name.None? ==> r == Some(NotAString)
    ensures name.Some? && Utf16Length(name.value) < 2 ==> r == Some(NameTooShort)
    ensures name.Some? && Utf16Length(name.value) >= 2 && message.None? ==> r == Some(NotAString)
    ensures name.Some? && Utf16Length(name.value) >= 2 && message.Some? && Utf16Length(message.value) < 5 ==>
      r == Some(MessageTooShort)
  {
    if name.None? then Some(NotAString)
    else if Utf16Length(name.value) < 2 then Some(NameTooShort)
    else if message.None? then Some(NotAString)
    else if Utf16Length(message.value) < 5 then Some(MessageTooShort)
    else None
  }

  /** A name of one character outside the Basic Multilingual Plane is two code
      units long and passes the two-character minimum; a one-letter name does not. */
  lemma AstralNameAccepted()
    ensures Validate(Some("\U{1F600}"), Some("hello")) == None
    ensures Validate(Some("a"), Some("hello")) == Some(NameTooShort)
  {
    assert Astral("\U{1F600}"[0]);
    assert Utf16Length("\U{1F600}") == 2 + Utf16Length("\U{1F600}"[1..]);
  }

  /** The entries with approval flag `approved`, newest first (`ORDER BY
      created_at DESC`, with entries kept in insertion order and
      `created_at` taken as increasing with it). SQL leaves the order of
      equal timestamps unspecified; the model fixes it as later insertions
      first. */
  function Listing(es: seq<Entry>, approved: bool): (r: seq<Entry>)
    ensures |r| <= |es|
  {
    if es == [] then []
    else
      var last := es[|es| - 1];
      (if last.approved == approved then [last] else []) + Listing(es[..|es| - 1], approved)
  }

  /** `UPDATE ... SET is_approved = 1 WHERE id = ?`. */
  function ApproveIn(es: seq<Entry>, id: nat): (r: seq<Entry>)
    ensures |r| == |es|
    ensures forall i :: 0 <= i < |es| ==> r[i] == if es[i].id == id then es[i].(approved := true) else es[i]
  {
    if es == [] then []
    else
      var last := es[|es| - 1];
      ApproveIn(es[..|es| - 1], id) + [if last.id == id then last.(approved := true) else last]
  }

  /** `DELETE ... WHERE id = ?`. */
  function DeleteIn(es: seq<Entry>, id: nat): (r: seq<Entry>)
    ensures |r| <= |es|
    ensures forall e :: e in r <==> e in es && e.id != id
  {
    if es == [] then []
    else
      var last := es[|es| - 1];
      DeleteIn(es[..|es| - 1], id) + (if last.id == id then [] else [last])
  }

  /** A listing holds exactly the entries with its flag. */
  lemma {:induction false} ListingMembers(es: seq<Entry>, approved: bool)
    ensures forall e :: e in Listing(es, approved) <==> e in es && e.approved == approved
  {
    if es != [] {
      var init := es[..|es| - 1];
      var last := es[|es| - 1];
      ListingMembers(init, approved);
      assert es == init + [last];
      assert Listing(es, approved) == (if last.approved == approved then [last] else []) + Listing(init, approved);
    }
  }

  /** The two listings split the table. */
  lemma {:induction false} ListingsPartition(es: seq<Entry>)
    ensures multiset(Listing(es, true)) + multiset(Listing(es, false)) == multiset(es)
  {
    if es != [] {
      var init := es[..|es| - 1];
      var last := es[|es| - 1];
      ListingsPartition(init);
      assert es == init + [last];
      assert multiset(es) == multiset(init) + multiset{last};
      if last.approved {
        assert Listing(es, true) == [last] + Listing(init, true);
        assert Listing(es, false) == Listing(init, false);
      } else {
        assert Listing(es, true) == Listing(init, true);
        assert Listing(es, false) == [last] + Listing(init, false);
      }
    }
  }

  predicate Chronological(es: seq<Entry>) {
    forall i, j :: 0 <= i < j < |es| ==> es[i].createdAt <= es[j].createdAt
  }

  predicate NewestFirst(es: seq<Entry>) {
    forall i, j :: 0 <= i < j < |es| ==> es[i].createdAt >= es[j].createdAt
  }

  /** When the rows were inserted in time order, each listing is newest first. */
  lemma {:induction false} ListingNewestFirst(es: seq<Entry>, approved: bool)
    requires Chronological(es)
    ensures NewestFirst(Listing(es, approved))
  {
    if es != [] {
      var init := es[..|es| - 1];
      var last := es[|es| - 1];
      assert Chronological(init);
      ListingNewestFirst(init, approved);
      ListingMembers(init, approved);
      var rest := Listing(init, approved);
      forall e | e in rest
        ensures e.createdAt <= last.createdAt
      {
        var i :| 0 <= i < |init| && init[i] == e;
        assert es[i] == e;
      }
      if last.approved == approved {
        var r := Listing(es, approved);
        assert r == [last] + rest;
        forall i, j | 0 <= i < j < |r|
          ensures r[i].createdAt >= r[j].createdAt
        {
          if i > 0 {
            assert r[i] == rest[i - 1] && r[j] == rest[j - 1];
          } else {
            assert r[j] == rest[j - 1];
            assert r[j] in rest;
          }
        }
      }
    }
  }

  /** Ids are unique. */
  predicate UniqueIds(es: seq<Entry>) {
    forall i, j :: 0 <= i < j < |es| ==> es[i].id != es[j].id
  }

  /** Approving moves the entry from the pending listing to the approved one
      and changes nothing else; approving twice is approving once. */
  lemma ApproveMoves(es: seq<Entry>, id: nat)
    ensures forall e :: e in Listing(ApproveIn(es, id), false) ==> e.id != id
    ensures forall e :: e in es && e.id == id ==> e.(approved := true) in Listing(ApproveIn(es, id), true)
    ensures forall e :: e in es && e.id != id ==> e in Listing(ApproveIn(es, id), e.approved)
    ensures ApproveIn(ApproveIn(es, id), id) == ApproveIn(es, id)
  {
    var r := ApproveIn(es, id);
    ListingMembers(r, true);
    ListingMembers(r, false);
    forall e | e in es
      ensures e.id == id ==> e.(approved := true) in r
      ensures e.id != id ==> e in r
    {
      var i :| 0 <= i < |es| && es[i] == e;
      assert r[i] == if e.id == id then e.(approved := true) else e;
    }
    var rr := ApproveIn(r, id);
    assert forall i :: 0 <= i < |r| ==> rr[i] == r[i];
  }

  /** Deleting removes the entry from both listings and keeps every other one listed. */
  lemma DeleteRemoves(es: seq<Entry>, id: nat, approved: bool)
    ensures forall e :: e in Listing(DeleteIn(es, id), approved) ==> e.id != id
    ensures forall e :: e in Listing(es, approved) && e.id != id ==> e in Listing(DeleteIn(es, id), approved)
  {
    ListingMembers(es, approved);
    ListingMembers(DeleteIn(es, id), approved);
  }

  /** A new entry heads the pending listing and the approved listing is unchanged. */
  lemma AppendShows(es: seq<Entry>, e: Entry)
    requires !e.approved
    ensures Listing(es + [e], false) == [e] + Listing(es, false)
    ensures Listing(es + [e], true) == Listing(es, true)
  {
    assert (es + [e])[..|es|] == es;
  }

  datatype Outcome = Success | Error(message: string)

  /** The entries table; `nextId` is the next autoincrement id. */
  class Book {
    var entries: seq<Entry>
    var nextId: nat

    ghost predicate Valid()
      reads this
    {
      UniqueIds(entries) && forall i :: 0 <= i < |entries| ==> entries[i].id < nextId
    }

    constructor ()
      ensures entries == [] && nextId == 1 && Valid()
    {
      entries, nextId := [], 1;
    }

    /** `submitGuestbookEntry`; `now` is the clock and `insertFails` a failing insert. */
    method Submit(name: Option<string>, message: Option<string>, now: int, insertFails: bool) returns (r: Outcome)
      requires Valid()
      modifies this
      ensures Valid()
      ensures Validate(name, message).Some? ==> r == Error(Validate(name, message).value) && entries == old(entries)
      ensures Validate(name, message).None? && insertFails ==> r == Error(SubmitFailed) && entries == old(entries)
      ensures Validate(name, message).None? && !insertFails ==>
        r == Success && entries == old(entries) + [Entry(old(nextId), name.value, message.value, false, now)]
    {
      var problem := Validate(name, message);
      if problem.Some? {
        return Error(problem.value);
      }
      if insertFails {
        return Error(SubmitFailed);
      }
      entries := entries + [Entry(nextId, name.value, message.value, false, now)];
      nextId := nextId + 1;
      r := Success;
    }

    /** `getGuestbookEntries`. */
    function Approved(): (r: seq<Entry>)
      reads this
      ensures forall e :: e in r <==> e in entries && e.approved
    {
      ListingMembers(entries, true);
      Listing(entries, true)
    }

    /** `getPendingGuestbookEntries`. */
    function Pending(): (r: seq<Entry>)
      reads this
      ensures forall e :: e in r <==> e in entries && !e.approved
    {
      ListingMembers(entries, false);
      Listing(entries, false)
    }

    /** `approveGuestbookEntry`; an unknown id changes nothing. */
    method Approve(id: nat, fails: bool) returns (r: Outcome)
      requires Valid()
      modifies this
      ensures Valid() && nextId == old(nextId)
      ensures fails ==> r == Error("Failed to approve entry") && entries == old(entries)
      ensures !fails ==> r == Success && entries == ApproveIn(old(entries), id)
    {
      if fails {
        return Error("Failed to approve entry");
      }
      entries := ApproveIn(entries, id);
      r := Success;
    }

    /** `deleteGuestbookEntry`; an unknown id changes nothing. */
    method Delete(id: nat, fails: bool) returns (r: Outcome)
      requires Valid()
      modifies this
      ensures Valid() && nextId == old(nextId)
      ensures fails ==> r == Error("Failed to delete entry") && entries == old(entries)
      ensures !fails ==> r == Success && entries == DeleteIn(old(entries), id)
    {
      if fails {
        return Error("Failed to delete entry");
      }
      DeleteKeepsUnique(entries, id);
      entries := DeleteIn(entries, id);
      r := Success;
    }
  }

  /** Deleting keeps the ids unique. */
  lemma {:induction false} DeleteKeepsUnique(es: seq<Entry>, id: nat)
    requires UniqueIds(es)
    ensures UniqueIds(DeleteIn(es, id))
  {
    if es != [] {
      var init := es[..|es| - 1];
      var last := es[|es| - 1];
      assert UniqueIds(init);
      DeleteKeepsUnique(init, id);
      if last.id != id {
        var d := DeleteIn(init, id);
        assert forall e :: e in d ==> e.id != last.id by {
          forall e | e in d
            ensures e.id != last.id
          {
            var i :| 0 <= i < |init| && init[i] == e;
            assert es[i] == e;
          }
        }
        var r := d + [last];
        forall i, j | 0 <= i < j < |r|
          ensures r[i].id != r[j].id
        {
          if j == |r| - 1 {
            assert r[i] in d;
          }
        }
      }
    }
  }
}
