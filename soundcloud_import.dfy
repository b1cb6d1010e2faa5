/** The SoundCloud import page: find the track part of a SoundCloud link,
    read artist and title from the embed metadata, and add fetched tracks to
    the page's list one link at a time or from a pasted list of links. The
    embed metadata service is a parameter. */
module SoundCloudImport {
  import opened Common
  import opened Strings

  const Host: string := "soundcloud.com/"

  /** The length of the longest run of characters from `from` on that do not satisfy `stop`. */
  function RunLen(s: string, from: nat, stop: char -> bool): (n: nat)
    requires from <= |s|
    ensures from + n <= |s|
    ensures forall i :: from <= i < from + n ==> !stop(s[i])
    ensures from + n < |s| ==> stop(s[from + n])
    decreases |s| - from
  {
    if from == |s| || stop(s[from]) then 0 else 1 + RunLen(s, from + 1, stop)
  }

  function IsSlash(c: char): bool { c == '/' }
  function EndsSegment(c: char): bool { c == '/' || c == '?' }

  /** The match of `soundcloud\.com\/[^\/]+\/([^\/\?]+)` starting at an occurrence of the host. */
  function MatchAt(url: string, k: nat): (r: Option<string>)
    requires OccursAt(url, Host, k)
    ensures r.Some? ==> |r.value| > 0 && forall i :: 0 <= i < |r.value| ==> !EndsSegment(r.value[i])
  {
    var u := k + |Host|;
    var ul := RunLen(url, u, IsSlash);
    if ul == 0 || u + ul == |url| then None
    else
      var t := u + ul + 1;
      var tl := RunLen(url, t, EndsSegment);
      if tl == 0 then None else Some(url[t..t + tl])
  }

  /** The leftmost match at or after `k`. */
  function ExtractFrom(url: string, k: nat): (r: Option<string>)
    ensures r.Some? ==> |r.value| > 0 && forall i :: 0 <= i < |r.value| ==> !EndsSegment(r.value[i])
    ensures IndexOfFrom(url, Host, k).None? ==> r.None?
    decreases |url| - k
  {
    match IndexOfFrom(url, Host, k)
    case None => None
    case Some(j) =>
      var m := MatchAt(url, j);
      if m.Some? then m else ExtractFrom(url, j + 1)
  }

  /** `extractTrackId`: the track segment of the first well-formed
      `soundcloud.com/<user>/<track>` in the link, or none. */
  function ExtractTrackId(url: string): (r: Option<string>)
    ensures r.Some? ==> |r.value| > 0 && forall i :: 0 <= i < |r.value| ==> !EndsSegment(r.value[i])
    ensures !Contains(url, Host) ==> r.None?
  {
    ExtractFrom(url, 0)
  }

  /** At an occurrence of the host, the match is the segment after the user
      name, up to the next '/' or '?'. */
  lemma TrackSegment(prefix: string, user: string, track: string, tail: string)
    requires |user| > 0 && forall i :: 0 <= i < |user| ==> !IsSlash(user[i])
    requires |track| > 0 && forall i :: 0 <= i < |track| ==> !EndsSegment(track[i])
    requires tail == [] || EndsSegment(tail[0])
    ensures var url := prefix + Host + user + "/" + track + tail;
      OccursAt(url, Host, |prefix|) && MatchAt(url, |prefix|) == Some(track)
  {
    var head := prefix + Host;
    var mid := head + user + "/";
    var url := mid + track + tail;
    Infix(prefix, Host, user + "/" + track + tail);
    Regroup(head, user, "/", track, tail);
    Regroup(prefix, Host, user, "/" + track, tail);
    SegmentRun(url, head, user, "/" + track + tail, IsSlash);
    SegmentRun(url, mid, track, tail, EndsSegment);
    MatchAtRuns(url, |prefix|, |user|, |track|);
  }

  /** Two groupings of a five-part concatenation. */
  lemma Regroup(a: string, b: string, c: string, d: string, e: string)
    ensures a + b + c + d + e == (a + b) + (c + d + e)
    ensures a + b + c + (d + e) == a + b + (c + d + e)
  {
  }

  /** A segment of stop-free characters followed by a stop character or the end. */
  lemma SegmentRun(url: string, x: string, y: string, z: string, stop: char -> bool)
    requires url == x + y + z
    requires forall i :: 0 <= i < |y| ==> !stop(y[i])
    requires z == [] || stop(z[0])
    ensures RunLen(url, |x|, stop) == |y| && url[|x|..|x| + |y|] == y
  {
    Infix(x, y, z);
    if z != [] {
      assert url[|x| + |y|] == z[0];
    }
    RunExact(url, |x|, stop, |y|);
  }

  /** The match at an occurrence, given the lengths of the two runs after it. */
  lemma MatchAtRuns(url: string, k: nat, ul: nat, tl: nat)
    requires OccursAt(url, Host, k)
    requires 0 < ul && k + |Host| + ul < |url| && RunLen(url, k + |Host|, IsSlash) == ul
    requires 0 < tl && RunLen(url, k + |Host| + ul + 1, EndsSegment) == tl
    ensures MatchAt(url, k) == Some(url[k + |Host| + ul + 1..k + |Host| + ul + 1 + tl])
  {
  }

  /** Where the middle part of a concatenation sits. */
  lemma Infix(x: string, y: string, z: string)
    ensures (x + y + z)[|x|..|x| + |y|] == y
    ensures forall i :: 0 <= i < |y| ==> (x + y + z)[|x| + i] == y[i]
    ensures forall i :: 0 <= i < |z| ==> (x + y + z)[|x| + |y| + i] == z[i]
  {
  }

  /** A link `<prefix>soundcloud.com/<user>/<track>` gives its track, provided
      the host does not already occur earlier. */
  lemma TrackInAddress(prefix: string, user: string, track: string, tail: string)
    requires !Contains(prefix + "soundcloud.com", Host)
    requires |user| > 0 && forall i :: 0 <= i < |user| ==> !IsSlash(user[i])
    requires |track| > 0 && forall i :: 0 <= i < |track| ==> !EndsSegment(track[i])
    requires tail == [] || EndsSegment(tail[0])
    ensures ExtractTrackId(prefix + Host + user + "/" + track + tail) == Some(track)
  {
    var url := prefix + Host + user + "/" + track + tail;
    TrackSegment(prefix, user, track, tail);
    NoEarlierHost(prefix, url);
    FirstOccurrence(url, Host, |prefix|);
  }

  /** The host cannot start inside `prefix` when `prefix` followed by the host
      without its final '/' does not contain it. */
  lemma NoEarlierHost(prefix: string, url: string)
    requires !Contains(prefix + "soundcloud.com", Host)
    requires |prefix| + |Host| <= |url| && url[..|prefix| + |Host|] == prefix + Host
    ensures forall j :: 0 <= j < |prefix| ==> !OccursAt(url, Host, j)
  {
    var early := prefix + "soundcloud.com";
    assert url[..|early|] == early;
    NotContains(early, Host);
    forall j | 0 <= j < |prefix|
      ensures !OccursAt(url, Host, j)
    {
      assert j + |Host| <= |early|;
      assert url[j..j + |Host|] == early[j..j + |Host|];
      assert !OccursAt(early, Host, j);
    }
  }

  /** The ordinary share link `https://soundcloud.com/<user>/<track>`. */
  lemma OrdinaryLink(user: string, track: string)
    requires |user| > 0 && forall i :: 0 <= i < |user| ==> !IsSlash(user[i])
    requires |track| > 0 && forall i :: 0 <= i < |track| ==> !EndsSegment(track[i])
    ensures ExtractTrackId("https://" + Host + user + "/" + track) == Some(track)
  {
    var early := "https://soundcloud.com";
    assert "https://" + "soundcloud.com" == early;
    assert forall i :: 8 <= i < |early| ==> early[i] != '/';
    forall j | 0 <= j
      ensures !OccursAt(early, Host, j)
    {
      if j + |Host| <= |early| {
        assert early[j..j + |Host|][|Host| - 1] != Host[|Host| - 1];
      }
    }
    assert ("https://" + Host + user + "/" + track) == "https://" + Host + user + "/" + track + "";
    TrackInAddress("https://", user, track, "");
  }

  /** A run of `n` non-stop characters followed by a stop character or the end has length `n`. */
  lemma {:induction false} RunExact(s: string, from: nat, stop: char -> bool, n: nat)
    requires from + n <= |s|
    requires forall i :: from <= i < from + n ==> !stop(s[i])
    requires from + n == |s| || stop(s[from + n])
    ensures RunLen(s, from, stop) == n
    decreases n
  {
    if n > 0 {
      RunExact(s, from + 1, stop, n - 1);
    }
  }

  // ----- fetching one track -----

  /** What the embed metadata service answers: not ok, or the title attribute
      found in its HTML (if any) and its `title` field ("" when absent). */
  datatype OEmbed = NotOk | Embed(htmlTitle: Option<string>, dataTitle: string)

  datatype SoundCloudTrack = SoundCloudTrack(title: string, artist: string, duration: int, permalinkUrl: string)

  datatype Fetch = Fetched(track: SoundCloudTrack) | Failed(message: string)

  const InvalidUrl: string := "Invalid SoundCloud URL format"
  const FetchFailed: string := "Failed to fetch track information"

  /** The title before splitting: the HTML title, else the data title, else "Unknown Track". */
  function RawTitle(e: OEmbed): string
    requires e.Embed?
  {
    if e.htmlTitle.Some? then e.htmlTitle.value
    else if e.dataTitle != "" then e.dataTitle
    else "Unknown Track"
  }

  /** "Artist - Track" splitting: (artist, title). */
  function SplitTitle(title: string): (r: (string, string))
    ensures !Contains(title, " - ") ==> r == ("Unknown Artist", title)
  {
    var parts := Split(title, " - ");
    if |parts| > 1 then (Trim(parts[0]), Trim(Join(parts[1..], " - ")))
    else ("Unknown Artist", title)
  }

  /** With a separator, the artist is the trimmed text before the first " - "
      and the title the trimmed text after it, later separators included. */
  lemma SplitTitleAtFirst(title: string, k: nat)
    requires IndexOf(title, " - ") == Some(k)
    ensures SplitTitle(title) == (Trim(title[..k]), Trim(title[k + 3..]))
  {
    SplitFirst(title, " - ", k);
    SplitJoin(title[k + 3..], " - ");
  }

  /** `fetchSoundCloudTrack`, with the service's answer as a parameter. */
  function FetchTrack(url: string, answer: OEmbed): (r: Fetch)
    ensures ExtractTrackId(url).None? ==> r == Failed(InvalidUrl)
    ensures ExtractTrackId(url).Some? && answer.NotOk? ==> r == Failed(FetchFailed)
    ensures r.Fetched? ==> r.track.duration == 0 && r.track.permalinkUrl == url
    ensures r.Fetched? ==> (r.track.artist, r.track.title) == SplitTitle(RawTitle(answer))
  {
    if ExtractTrackId(url).None? then Failed(InvalidUrl)
    else if answer.NotOk? then Failed(FetchFailed)
    else
      var at := SplitTitle(RawTitle(answer));
      Fetched(SoundCloudTrack(at.1, at.0, 0, url))
  }

  // ----- the page -----

  /** The pasted text's lines, trimmed, blank ones dropped. */
  function UrlList(input: string): (r: seq<string>)
    ensures forall i :: 0 <= i < |r| ==> Clean(r[i])
  {
    NonBlank(Split(input, "\n"))
  }

  /** Non-blank and already trimmed. */
  predicate Clean(s: string) {
    s != "" && Trim(s) == s
  }

  function NonBlank(lines: seq<string>): (r: seq<string>)
    ensures forall i :: 0 <= i < |r| ==> Clean(r[i])
    ensures |r| <= |lines|
  {
    if lines == [] then []
    else if Trim(lines[0]) == "" then NonBlank(lines[1..])
    else
      TrimTwice(lines[0]);
      [Trim(lines[0])] + NonBlank(lines[1..])
  }

  /** Filtering works line by line: it distributes over concatenation. */
  lemma {:induction false} NonBlankConcat(a: seq<string>, b: seq<string>)
    ensures NonBlank(a + b) == NonBlank(a) + NonBlank(b)
  {
    if a != [] {
      assert (a + b)[1..] == a[1..] + b;
      NonBlankConcat(a[1..], b);
    } else {
      assert a + b == b;
    }
  }

  /** The first line of the pasted text contributes its trimmed self, or
      nothing when blank, ahead of the remaining lines. */
  lemma UrlListLine(line: string, rest: string)
    requires !Contains(line, "\n")
    ensures UrlList(line + "\n" + rest) == NonBlank([line]) + UrlList(rest)
  {
    var s := line + "\n" + rest;
    NotContains(line, "\n");
    forall j | 0 <= j < |line|
      ensures !OccursAt(s, "\n", j)
    {
      assert s[j..j + 1] == line[j..j + 1];
      assert !OccursAt(line, "\n", j);
    }
    assert s[|line|..|line| + 1] == "\n";
    FirstOccurrence(s, "\n", |line|);
    SplitFirst(s, "\n", |line|);
    assert s[..|line|] == line;
    assert s[|line| + 1..] == rest;
    var parts := Split(s, "\n");
    assert parts == [line] + parts[1..];
    NonBlankConcat([line], Split(rest, "\n"));
  }

  /** Text without a line break is one line. */
  lemma UrlListSingle(line: string)
    requires !Contains(line, "\n")
    ensures UrlList(line) == (if Trim(line) == "" then [] else [Trim(line)])
  {
    SplitNone(line, "\n");
    assert [line][1..] == [];
  }

  lemma TrimTwice(s: string)
    ensures Trim(Trim(s)) == Trim(s)
  {
    TrimShape(s);
    var t := Trim(s);
    if t != [] {
      assert TrimStart(t) == t;
    }
  }

  /** The tracks a bulk import gathers: the successful fetches, in input order. */
  function Successes(urls: seq<string>, answers: seq<OEmbed>): (r: seq<SoundCloudTrack>)
    requires |answers| == |urls|
    ensures |r| <= |urls|
  {
    if urls == [] then [] else Kept(urls[0], answers[0]) + Successes(urls[1..], answers[1..])
  }

  /** One link's contribution: its track when the fetch succeeds. */
  function Kept(url: string, answer: OEmbed): (r: seq<SoundCloudTrack>)
    ensures |r| <= 1
  {
    var f := FetchTrack(url, answer);
    if f.Fetched? then [f.track] else []
  }

  /** Every gathered track comes from one of the links and has duration 0. */
  lemma {:induction false} SuccessesFromUrls(urls: seq<string>, answers: seq<OEmbed>)
    requires |answers| == |urls|
    ensures forall t :: t in Successes(urls, answers) ==> t.permalinkUrl in urls && t.duration == 0
  {
    if urls != [] {
      SuccessesFromUrls(urls[1..], answers[1..]);
      var f := FetchTrack(urls[0], answers[0]);
      assert forall t :: t in Kept(urls[0], answers[0]) ==> t == f.track && f.Fetched?;
    }
  }

  /** Gathering works link by link: it distributes over concatenation. */
  lemma {:induction false} SuccessesConcat(u1: seq<string>, a1: seq<OEmbed>, u2: seq<string>, a2: seq<OEmbed>)
    requires |a1| == |u1| && |a2| == |u2|
    ensures Successes(u1 + u2, a1 + a2) == Successes(u1, a1) + Successes(u2, a2)
  {
    if u1 == [] {
      assert u1 + u2 == u2 && a1 + a2 == a2;
    } else {
      assert (u1 + u2)[1..] == u1[1..] + u2;
      assert (a1 + a2)[1..] == a1[1..] + a2;
      SuccessesConcat(u1[1..], a1[1..], u2, a2);
    }
  }

  /** A track is gathered exactly when some link's fetch produced it. */
  lemma {:induction false} SuccessesMember(urls: seq<string>, answers: seq<OEmbed>, t: SoundCloudTrack)
    requires |answers| == |urls|
    ensures t in Successes(urls, answers) <==>
      exists i :: 0 <= i < |urls| && FetchTrack(urls[i], answers[i]) == Fetched(t)
  {
    if urls != [] {
      SuccessesMember(urls[1..], answers[1..], t);
      if exists i :: 0 <= i < |urls| && FetchTrack(urls[i], answers[i]) == Fetched(t) {
        var i :| 0 <= i < |urls| && FetchTrack(urls[i], answers[i]) == Fetched(t);
        if i > 0 {
          assert FetchTrack(urls[1..][i - 1], answers[1..][i - 1]) == Fetched(t);
        }
      }
      if t in Successes(urls[1..], answers[1..]) {
        var i :| 0 <= i < |urls| - 1 && FetchTrack(urls[1..][i], answers[1..][i]) == Fetched(t);
        assert FetchTrack(urls[i + 1], answers[i + 1]) == Fetched(t);
      }
    }
  }

  /** When every answer fails, nothing is gathered. */
  lemma {:induction false} AllFailed(urls: seq<string>, answers: seq<OEmbed>)
    requires |answers| == |urls| && forall i :: 0 <= i < |answers| ==> answers[i].NotOk?
    ensures Successes(urls, answers) == []
  {
    if urls != [] {
      AllFailed(urls[1..], answers[1..]);
    }
  }

  const NoUrl: string := "Please enter a SoundCloud URL"
  const NoUrls: string := "Please enter at least one SoundCloud URL"
  const NothingImported: string := "No tracks were imported. Please check your URLs."

  class ImportPage {
    var input: string
    var tracks: seq<SoundCloudTrack>
    var error: Option<string>

    constructor ()
      ensures input == "" && tracks == [] && error.None?
    {
      input, tracks, error := "", [], None;
    }

    /** `handleImport`: the whole input is one link. */
    method Import(answer: OEmbed)
      modifies this
      ensures Trim(old(input)) == "" ==> error == Some(NoUrl) && tracks == old(tracks) && input == old(input)
      ensures Trim(old(input)) != "" && FetchTrack(old(input), answer).Fetched? ==>
        tracks == old(tracks) + [FetchTrack(old(input), answer).track] && input == "" && error.None?
      ensures Trim(old(input)) != "" && FetchTrack(old(input), answer).Failed? ==>
        error == Some(FetchTrack(old(input), answer).message) && tracks == old(tracks) && input == old(input)
    {
      var link := input;
      if Trim(link) == "" {
        error := Some(NoUrl);
        return;
      }
      var f := FetchTrack(link, answer);
      if f.Fetched? {
        tracks, input, error := tracks + [f.track], "", None;
      } else {
        error := Some(f.message);
      }
    }

    /** `handleBulkImport`: one link per line; `answers[i]` is the service's answer for the i-th link. */
    method BulkImport(answers: seq<OEmbed>)
      requires |answers| == |UrlList(input)|
      modifies this
      ensures UrlList(old(input)) == [] ==> error == Some(NoUrls) && tracks == old(tracks) && input == old(input)
      ensures UrlList(old(input)) != [] ==>
        var got := Successes(UrlList(old(input)), answers);
        if got != [] then tracks == old(tracks) + got && input == "" && error.None?
        else tracks == old(tracks) && input == old(input) && error == Some(NothingImported)
    {
      var urls := UrlList(input);
      if urls == [] {
        error := Some(NoUrls);
        return;
      }
      error := None;
      var imported := Gather(urls, answers);
      if imported != [] {
        tracks := tracks + imported;
        input := "";
      } else {
        error := Some(NothingImported);
      }
    }
  }

  lemma SuccessesStep(urls: seq<string>, answers: seq<OEmbed>, i: nat)
    requires |answers| == |urls| && i < |urls|
    ensures Successes(urls[i..], answers[i..]) == Kept(urls[i], answers[i]) + Successes(urls[i + 1..], answers[i + 1..])
  {
    assert urls[i..][1..] == urls[i + 1..] && answers[i..][1..] == answers[i + 1..];
  }

  /** The fetch loop, pushing each success. */
  method Gather(urls: seq<string>, answers: seq<OEmbed>) returns (imported: seq<SoundCloudTrack>)
    requires |answers| == |urls|
    ensures imported == Successes(urls, answers)
  {
    imported := [];
    var i := 0;
    while i < |urls|
      invariant 0 <= i <= |urls|
      invariant imported + Successes(urls[i..], answers[i..]) == Successes(urls, answers)
    {
      SuccessesStep(urls, answers, i);
      imported := imported + Kept(urls[i], answers[i]);
      i := i + 1;
    }
  }
}
