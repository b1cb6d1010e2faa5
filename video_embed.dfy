/** The video card's embed address: YouTube and Vimeo links become their
    player addresses, any other link is used as it is, and native videos play
    in a video element instead of a frame. */
module VideoEmbed {
  import opened Common
  import opened Strings

  const YouTubeEmbed: string := "https://www.youtube.com/embed/"
  const VimeoPlayer: string := "https://player.vimeo.com/video/"

  /** `url.split("v=")[1]?.split("&")[0]`, as a string ("" when there is no "v="). */
  function QueryId(url: string): (r: string)
    ensures !Contains(r, "&")
  {
    var parts := Split(url, "v=");
    if |parts| > 1 then
      SplitPieces(parts[1], "&");
      Split(parts[1], "&")[0]
    else ""
  }

  /** The YouTube video id: the query id when non-empty, otherwise the last path segment. */
  function YouTubeId(url: string): (r: string)
    ensures QueryId(url) != "" ==> r == QueryId(url)
    ensures QueryId(url) == "" ==> r == LastPiece(url, "/")
  {
    var q := QueryId(url);
    if q != "" then q else LastPiece(url, "/")
  }

  /** `getEmbedUrl`. */
  function EmbedUrl(url: string, platform: string): (r: string)
    ensures platform == "youtube" ==> r == YouTubeEmbed + YouTubeId(url)
    ensures platform == "vimeo" ==> r == VimeoPlayer + LastPiece(url, "/")
    ensures platform != "youtube" && platform != "vimeo" ==> r == url
  {
    if platform == "youtube" then YouTubeEmbed + YouTubeId(url)
    else if platform == "vimeo" then VimeoPlayer + LastPiece(url, "/")
    else url
  }

  /** The query id is the text right after the first "v=", up to the first "&",
      a later "v=" or the end of the link, and is empty when the link has no "v=". */
  lemma QueryIdShape(url: string)
    ensures var q := QueryId(url);
      !Contains(q, "&") && !Contains(q, "v=")
      && (IndexOf(url, "v=").None? ==> q == "")
      && (IndexOf(url, "v=").Some? ==>
            var rest := url[IndexOf(url, "v=").value + 2..];
            StartsWith(rest, q)
            && (|q| == |rest| || OccursAt(rest, "&", |q|) || OccursAt(rest, "v=", |q|)))
  {
    var o := IndexOf(url, "v=");
    if o.Some? {
      var k := o.value;
      var rest := url[k + 2..];
      SplitFirst(url, "v=", k);
      var parts := Split(url, "v=");
      assert parts[1] == Split(rest, "v=")[0];
      PieceIsPrefix(rest, "v=");
      PieceIsPrefix(parts[1], "&");
      SplitPieces(rest, "v=");
      var q := Split(parts[1], "&")[0];
      assert StartsWith(rest, parts[1]);
      assert rest[..|q|] == parts[1][..|q|];
      NoOccurrenceInPrefix(parts[1], q, "v=");
      if |q| < |parts[1]| {
        assert rest[|q|..|q| + 1] == parts[1][|q|..|q| + 1];
      }
    } else {
      SplitNone(url, "v=");
    }
  }

  /** The first piece of a split is a prefix of the string that ends at the
      string's end or at an occurrence of the separator. */
  lemma PieceIsPrefix(s: string, sep: string)
    requires |sep| > 0
    ensures StartsWith(s, Split(s, sep)[0])
    ensures |Split(s, sep)[0]| == |s| || OccursAt(s, sep, |Split(s, sep)[0]|)
  {
    var o := IndexOf(s, sep);
    if o.Some? {
      SplitFirst(s, sep, o.value);
    } else {
      SplitNone(s, sep);
    }
  }

  /** A prefix of a string without `p` is without `p`. */
  lemma NoOccurrenceInPrefix(s: string, q: string, p: string)
    requires StartsWith(s, q) && !Contains(s, p)
    ensures !Contains(q, p)
  {
    if Contains(q, p) {
      var j := IndexOf(q, p).value;
      assert s[..|q|][j..j + |p|] == s[j..j + |p|];
      ContainsAt(s, p, j);
    }
  }

  /** A watch link `…v=<id>&…` with a single "v=" embeds exactly `<id>`. */
  lemma WatchLink(url: string, k: nat, m: nat)
    requires IndexOf(url, "v=") == Some(k)
    requires !Contains(url[k + 2..], "v=")
    requires IndexOf(url[k + 2..], "&") == Some(m) && m > 0
    ensures EmbedUrl(url, "youtube") == YouTubeEmbed + url[k + 2..][..m]
  {
    var rest := url[k + 2..];
    SplitFirst(url, "v=", k);
    SplitNone(rest, "v=");
    var parts := Split(url, "v=");
    assert parts[1] == rest;
    SplitFirst(rest, "&", m);
    assert QueryId(url) == rest[..m];
  }

  /** How the card's dialog shows the video. */
  datatype Playback = NativeVideo(source: string) | Frame(source: string)

  function DialogPlayer(url: string, platform: string): (p: Playback)
    ensures p.NativeVideo? <==> platform == "native"
    ensures p.NativeVideo? ==> p.source == url
    ensures p.Frame? ==> p.source == EmbedUrl(url, platform)
  {
    if platform == "native" then NativeVideo(url) else Frame(EmbedUrl(url, platform))
  }

  /** A native video plays its own address. */
  lemma NativeKeepsUrl(url: string)
    ensures DialogPlayer(url, "native") == NativeVideo(url)
    ensures EmbedUrl(url, "native") == url
  {
  }
}
