/** The request middleware: admin pages need a session cookie that decrypts,
    a signed-in visitor asking for the login page goes to the admin area, and
    everything else passes through. Session decryption is a parameter. */
module Middleware {
  import opened Common
  import opened Strings

  datatype Decision = RedirectToLogin | RedirectToAdmin | PassThrough

  /** A session cookie that is present and non-empty. */
  predicate HasSession(session: Option<string>) {
    session.Some? && session.value != ""
  }

  /** `middleware`; `decrypts(s)` says whether `decrypt(s)` yields a payload. */
  function Route(path: string, session: Option<string>, decrypts: string -> bool): (d: Decision)
    ensures StartsWith(path, "/admin") && !HasSession(session) ==> d == RedirectToLogin
    ensures StartsWith(path, "/admin") && HasSession(session) && !decrypts(session.value) ==> d == RedirectToLogin
    ensures path == "/login" && HasSession(session) && decrypts(session.value) ==> d == RedirectToAdmin
    ensures path == "/login" && !(HasSession(session) && decrypts(session.value)) ==> d == PassThrough
  {
    LoginIsNotAdmin();
    if StartsWith(path, "/admin") && (!HasSession(session) || !decrypts(session.value)) then RedirectToLogin
    else if path == "/login" && HasSession(session) && decrypts(session.value) then RedirectToAdmin
    else PassThrough
  }

  lemma LoginIsNotAdmin()
    ensures !StartsWith("/login", "/admin")
  {
    assert "/login"[..6][1] != "/admin"[1];
  }

  /** An admin page is only ever served with a session that decrypts. */
  lemma AdminNeedsValidSession(path: string, session: Option<string>, decrypts: string -> bool)
    requires StartsWith(path, "/admin")
    ensures Route(path, session, decrypts) == PassThrough <==> HasSession(session) && decrypts(session.value)
    ensures Route(path, session, decrypts) != RedirectToAdmin
  {
    LoginIsNotAdmin();
    assert path != "/login";
  }

  /** Paths that are neither admin pages nor the login page always pass through. */
  lemma OtherPathsPass(path: string, session: Option<string>, decrypts: string -> bool)
    requires !StartsWith(path, "/admin") && path != "/login"
    ensures Route(path, session, decrypts) == PassThrough
  {
  }

  /** Protection is a prefix test: a path such as `/administrator` is protected too. */
  lemma PrefixProtects(rest: string, decrypts: string -> bool)
    ensures Route("/admin" + rest, None, decrypts) == RedirectToLogin
  {
    assert ("/admin" + rest)[..6] == "/admin";
  }

  /** The paths the matcher sends to the middleware: `/admin`, `/admin/...` and `/login`. */
  predicate Matched(path: string) {
    path == "/admin" || StartsWith(path, "/admin/") || path == "/login"
  }

  /** Every matched path other than the login page is an admin page. */
  lemma MatchedIsGuarded(path: string)
    requires Matched(path) && path != "/login"
    ensures StartsWith(path, "/admin")
  {
    if StartsWith(path, "/admin/") {
      assert path[..6] == path[..7][..6];
    }
  }
}
