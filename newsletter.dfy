/** The newsletter sign-up endpoint: reject an address without '@', reject
    an address already on the list, otherwise add it. The subscriber table
    is a set of addresses (its email column is unique); a failing insert is
    a parameter. */
module Newsletter {
  import opened Common
  import opened Strings

  datatype Response = InvalidEmail | AlreadySubscribed | Subscribed | Failed

  function Status(r: Response): int {
    match r
    case InvalidEmail => 400
    case AlreadySubscribed => 400
    case Subscribed => 200
    case Failed => 500
  }

  /** The error text of each refusal. */
  function Message(r: Response): string {
    match r
    case InvalidEmail => "Invalid email address"
    case AlreadySubscribed => "Email already subscribed"
    case Subscribed => "Successfully subscribed!"
    case Failed => "Failed to subscribe"
  }

  /** `!email || !email.includes("@")`: a missing or empty address, or one without '@'. */
  predicate Invalid(email: Option<string>)
    ensures Invalid(email) <==> email.None? || '@' !in email.value
  {
    if email.None? then true
    else AtSign(email.value); email.value == "" || !Contains(email.value, "@")
  }

  /** `includes("@")` holds exactly when some character is '@'. */
  lemma AtSign(s: string)
    ensures Contains(s, "@") <==> '@' in s
  {
    if '@' in s {
      var i :| 0 <= i < |s| && s[i] == '@';
      assert s[i..i + 1] == "@";
      ContainsAt(s, "@", i);
    }
    if Contains(s, "@") {
      var k := IndexOf(s, "@").value;
      assert s[k..k + 1] == "@";
      assert s[k] == '@';
    }
  }

  /** The outcome of one sign-up on a subscriber set: the new set and the response. */
  function Subscribe(subscribers: set<string>, email: Option<string>, insertFails: bool): (r: (set<string>, Response))
    ensures Invalid(email) <==> r.1 == InvalidEmail
    ensures !Invalid(email) && email.value in subscribers <==> r.1 == AlreadySubscribed
    ensures r.1 == Subscribed <==> !Invalid(email) && email.value !in subscribers && !insertFails
    ensures r.1 == Subscribed ==> r.0 == subscribers + {email.value}
    ensures r.1 != Subscribed ==> r.0 == subscribers
  {
    if Invalid(email) then (subscribers, InvalidEmail)
    else if email.value in subscribers then (subscribers, AlreadySubscribed)
    else if insertFails then (subscribers, Failed)
    else (subscribers + {email.value}, Subscribed)
  }

  /** The second sign-up of the same address fails and one copy stays on the list. */
  lemma SubscribeTwice(subscribers: set<string>, email: string)
    requires !Invalid(Some(email)) && email !in subscribers
    ensures var first := Subscribe(subscribers, Some(email), false);
      var second := Subscribe(first.0, Some(email), false);
      first.1 == Subscribed && second.1 == AlreadySubscribed && second.0 == first.0
      && email in second.0 && second.0 - {email} == subscribers
  {
  }

  /** Whatever the outcome, the list only grows, and by at most the given address. */
  lemma SubscribeOnlyAdds(subscribers: set<string>, email: Option<string>, insertFails: bool)
    ensures var after := Subscribe(subscribers, email, insertFails).0;
      subscribers <= after && (after - subscribers == {} || (email.Some? && after - subscribers == {email.value}))
  {
    var after := Subscribe(subscribers, email, insertFails).0;
    if after != subscribers {
      assert after - subscribers == {email.value};
    }
  }

  /** Duplicates are found by exact comparison: an address differing only in
      letter case is a new subscriber. */
  lemma CaseSensitive()
    ensures Subscribe({"a@x"}, Some("A@x"), false) == ({"a@x", "A@x"}, Subscribed)
  {
    assert "A@x"[1..2] == "@";
    assert OccursAt("A@x", "@", 1);
    ContainsAt("A@x", "@", 1);
    assert "A@x"[0] != "a@x"[0];
    assert "A@x" !in {"a@x"};
    assert !Invalid(Some("A@x"));
    assert {"a@x"} + {"A@x"} == {"a@x", "A@x"};
  }

  /** The subscriber table. */
  class List {
    var subscribers: set<string>

    constructor ()
      ensures subscribers == {}
    {
      subscribers := {};
    }

    /** `POST /api/newsletter`. */
    method Post(email: Option<string>, insertFails: bool) returns (r: Response)
      modifies this
      ensures (subscribers, r) == Subscribe(old(subscribers), email, insertFails)
    {
      if email.None? || email.value == "" || !Contains(email.value, "@") {
        return InvalidEmail;
      }
      if email.value in subscribers {
        return AlreadySubscribed;
      }
      if insertFails {
        return Failed;
      }
      subscribers := subscribers + {email.value};
      r := Subscribed;
    }
  }
}
