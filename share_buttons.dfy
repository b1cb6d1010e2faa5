/** The share menu: the address shared is the window origin followed by the
    page path; each network's link carries it percent-encoded; the embed
    code frames it; native sharing falls back to copying it. The origin and
    whether the browser offers `navigator.share` are parameters. */
module ShareButtons {
  import opened Common
  import opened Strings

  // ----- encodeURIComponent -----

  /** The characters `encodeURIComponent` leaves as they are. */
  predicate Unreserved(c: char) {
    ('A' <= c <= 'Z') || ('a' <= c <= 'z') || ('0' <= c <= '9')
    || c == '-' || c == '_' || c == '.' || c == '!' || c == '~' || c == '*' || c == '\'' || c == '(' || c == ')'
  }

  predicate IsHexUpper(c: char) {
    ('0' <= c <= '9') || ('A' <= c <= 'F')
  }

  function HexDigit(n: nat): (c: char)
    requires n < 16
    ensures IsHexUpper(c)
  {
    if n < 10 then ('0' as int + n) as char else ('A' as int + n - 10) as char
  }

  /** `%XX` for one byte, upper-case hex. */
  function PercentByte(b: nat): (r: string)
    requires b < 256
    ensures |r| == 3 && r[0] == '%' && IsHexUpper(r[1]) && IsHexUpper(r[2])
  {
    ['%', HexDigit(b / 16), HexDigit(b % 16)]
  }

  /** The UTF-8 bytes of a character. */
  function Utf8(c: char): (bs: seq<nat>)
    ensures 1 <= |bs| <= 4
    ensures forall i :: 0 <= i < |bs| ==> bs[i] < 256
  {
    var n := c as int;
    if n < 0x80 then [n]
    else if n < 0x800 then [0xC0 + n / 64, 0x80 + n % 64]
    else if n < 0x10000 then [0xE0 + n / 4096, 0x80 + (n / 64) % 64, 0x80 + n % 64]
    else [0xF0 + n / 262144, 0x80 + (n / 4096) % 64, 0x80 + (n / 64) % 64, 0x80 + n % 64]
  }

  function PercentBytes(bs: seq<nat>): (r: string)
    requires forall i :: 0 <= i < |bs| ==> bs[i] < 256
    ensures |r| == 3 * |bs|
    ensures forall i :: 0 <= i < |r| ==> r[i] == '%' || IsHexUpper(r[i])
  {
    if bs == [] then [] else PercentByte(bs[0]) + PercentBytes(bs[1..])
  }

  /** In the output of `encodeURIComponent`: unreserved, '%' or a hex digit. */
  predicate EncodedChar(c: char) {
    Unreserved(c) || c == '%' || IsHexUpper(c)
  }

  /** `encodeURIComponent`. */
  function Encode(s: string): (r: string)
    ensures |r| >= |s|
    ensures forall i :: 0 <= i < |r| ==> EncodedChar(r[i])
  {
    if s == [] then []
    else (if Unreserved(s[0]) then [s[0]] else PercentBytes(Utf8(s[0]))) + Encode(s[1..])
  }

  /** The encoding leaves unreserved text alone. */
  lemma {:induction false} EncodeUnreserved(s: string)
    requires forall i :: 0 <= i < |s| ==> Unreserved(s[i])
    ensures Encode(s) == s
  {
    if s != [] {
      var t := s[1..];
      assert forall i :: 0 <= i < |t| ==> t[i] == s[i + 1];
      EncodeUnreserved(t);
      assert Encode(s) == [s[0]] + Encode(t);
      assert s == [s[0]] + t;
    }
  }

  /** A space is written as "%20". */
  lemma EncodeSpace()
    ensures Encode(" ") == "%20"
  {
    assert !Unreserved(' ');
    assert Utf8(' ') == [32];
    assert PercentByte(32) == ['%', HexDigit(2), HexDigit(0)];
    assert PercentBytes([32]) == PercentByte(32) + PercentBytes([]);
    assert Encode(" ") == PercentBytes([32]) + Encode([]);
  }

  function HexValue(c: char): (n: nat)
    requires IsHexUpper(c)
    ensures n < 16 && HexDigit(n) == c
  {
    if c <= '9' then c as int - '0' as int else c as int - 'A' as int + 10
  }

  /** Percent-decoding of single-byte escapes (`decodeURIComponent` on text
      whose escapes are all below 0x80). */
  function DecodeAscii(s: string): string
  {
    if s == [] then []
    else if |s| >= 3 && s[0] == '%' && IsHexUpper(s[1]) && IsHexUpper(s[2]) && HexValue(s[1]) < 8 then
      [(HexValue(s[1]) * 16 + HexValue(s[2])) as char] + DecodeAscii(s[3..])
    else [s[0]] + DecodeAscii(s[1..])
  }

  predicate IsAscii(s: string) {
    forall i :: 0 <= i < |s| ==> s[i] < 128 as char
  }

  /** The escape of a byte below 0x80 decodes back to that character. */
  lemma PercentByteDecodes(c: char, rest: string)
    requires c < 128 as char
    ensures DecodeAscii(PercentByte(c as int) + rest) == [c] + DecodeAscii(rest)
  {
    var n := c as int;
    var e := PercentByte(n) + rest;
    assert e[3..] == rest;
    assert HexValue(e[1]) == n / 16 && HexValue(e[2]) == n % 16;
  }

  /** Decoding the encoding of ASCII text gives the text back. */
  lemma {:induction false} EncodeRoundTrip(s: string)
    requires IsAscii(s)
    ensures DecodeAscii(Encode(s)) == s
  {
    if s != [] {
      var c := s[0];
      assert IsAscii(s[1..]);
      EncodeRoundTrip(s[1..]);
      if Unreserved(c) {
        var e := [c] + Encode(s[1..]);
        assert e[1..] == Encode(s[1..]);
        assert DecodeAscii(e) == [c] + DecodeAscii(Encode(s[1..]));
      } else {
        assert Utf8(c) == [c as int];
        assert PercentBytes(Utf8(c)) == PercentByte(c as int);
        PercentByteDecodes(c, Encode(s[1..]));
      }
      assert s == [c] + s[1..];
    }
  }

  /** Encoded text has no '&', so it cannot start a query parameter. */
  lemma EncodedNoAmp(s: string)
    ensures NoAmp(Encode(s))
  {
  }

  // ----- the links -----

  predicate NoAmp(s: string) {
    forall i :: 0 <= i < |s| ==> s[i] != '&'
  }

  /** `shareUrl`. */
  function ShareUrl(origin: string, url: string): (r: string)
    ensures |r| == |origin| + |url| && r[..|origin|] == origin && r[|origin|..] == url
  {
    origin + url
  }

  const TwitterBase: string := "https://twitter.com/intent/tweet?url="

  /** The Twitter link; the description parameter only when there is a description. */
  function TwitterLink(shareUrl: string, title: string, description: string): (r: string)
    ensures description == "" ==> r == TwitterBase + Encode(shareUrl) + "&text=" + Encode(title)
    ensures description != "" ==>
      r == TwitterBase + Encode(shareUrl) + "&text=" + Encode(title) + "&description=" + Encode(description)
  {
    TwitterBase + Encode(shareUrl) + "&text=" + Encode(title)
      + (if description != "" then "&description=" + Encode(description) else "")
  }

  /** The WhatsApp link: the encoded title, an encoded space, the encoded address. */
  function WhatsAppLink(shareUrl: string, title: string): (r: string)
    ensures EndsWith(r, "%20" + Encode(shareUrl))
    ensures StartsWith(r, "https://wa.me/?text=" + Encode(title))
  {
    var a := "https://wa.me/?text=" + Encode(title);
    var b := "%20" + Encode(shareUrl);
    assert a + b == "https://wa.me/?text=" + Encode(title) + "%20" + Encode(shareUrl);
    a + b
  }

  lemma TwitterBaseNoAmp()
    ensures NoAmp(TwitterBase)
  {
  }

  lemma NoAmpConcat(x: string, y: string)
    requires NoAmp(x) && NoAmp(y)
    ensures NoAmp(x + y)
  {
    assert forall i :: |x| <= i < |x + y| ==> (x + y)[i] == y[i - |x|];
  }

  /** With no '&' on either side of a single '&', a pattern starting with '&' can only occur there. */
  lemma SingleAmp(a: string, b: string, pat: string, j: nat)
    requires NoAmp(a) && NoAmp(b) && |pat| > 0 && pat[0] == '&'
    requires OccursAt(a + "&" + b, pat, j)
    ensures j == |a|
  {
    var s := a + "&" + b;
    OccurrenceChar(s, pat, 0, j);
    assert forall i :: 0 <= i < |a| ==> s[i] == a[i];
    assert forall i :: |a| < i < |s| ==> s[i] == b[i - |a| - 1];
  }

  /** Given a description, the Twitter link carries the description parameter. */
  lemma TwitterWithDescription(shareUrl: string, title: string, description: string)
    requires description != ""
    ensures Contains(TwitterLink(shareUrl, title, description), "&description=")
  {
    var pat := "&description=";
    var front := TwitterBase + Encode(shareUrl) + "&text=" + Encode(title);
    var link := front + pat + Encode(description);
    assert link == TwitterLink(shareUrl, title, description);
    assert link[|front|..|front| + |pat|] == pat;
    ContainsAt(link, pat, |front|);
  }

  /** Without a description, the text "&description=" appears nowhere in the link. */
  lemma TwitterWithoutDescription(shareUrl: string, title: string)
    ensures !Contains(TwitterLink(shareUrl, title, ""), "&description=")
  {
    var pat := "&description=";
    var a := TwitterBase + Encode(shareUrl);
    var b := "text=" + Encode(title);
    var link := a + "&" + b;
    assert link == TwitterLink(shareUrl, title, "");
    TwitterBaseNoAmp();
    EncodedNoAmp(shareUrl);
    EncodedNoAmp(title);
    NoAmpConcat(TwitterBase, Encode(shareUrl));
    assert NoAmp("text=");
    NoAmpConcat("text=", Encode(title));
    assert link[|a| + 1] == 't';
    forall j: nat
      ensures !OccursAt(link, pat, j)
    {
      if OccursAt(link, pat, j) {
        SingleAmp(a, b, pat, j);
        OccurrenceChar(link, pat, 1, j);
      }
    }
  }

  /** The Twitter link mentions a description exactly when one was given. */
  lemma TwitterDescriptionIff(shareUrl: string, title: string, description: string)
    ensures Contains(TwitterLink(shareUrl, title, description), "&description=") <==> description != ""
  {
    if description != "" {
      TwitterWithDescription(shareUrl, title, description);
    } else {
      TwitterWithoutDescription(shareUrl, title);
    }
  }

  /** The six network links (`shareLinks`). */
  datatype Links = Links(twitter: string, facebook: string, linkedin: string,
                         whatsapp: string, telegram: string, reddit: string)

  function ShareLinks(shareUrl: string, title: string, description: string): (l: Links)
    ensures l.twitter == TwitterLink(shareUrl, title, description)
    ensures l.whatsapp == WhatsAppLink(shareUrl, title)
  {
    var u := Encode(shareUrl);
    var t := Encode(title);
    Links(TwitterLink(shareUrl, title, description),
          "https://www.facebook.com/sharer/sharer.php?u=" + u,
          "https://www.linkedin.com/sharing/share-offsite/?url=" + u,
          WhatsAppLink(shareUrl, title),
          "https://t.me/share/url?url=" + u + "&text=" + t,
          "https://reddit.com/submit?url=" + u + "&title=" + t)
  }

  /** Every link carries the encoded address as its first parameter value
      (last, for WhatsApp). */
  lemma LinksCarryAddress(shareUrl: string, title: string, description: string)
    ensures var l := ShareLinks(shareUrl, title, description); var u := Encode(shareUrl);
      StartsWith(l.twitter, TwitterBase + u + "&text=")
      && l.facebook == "https://www.facebook.com/sharer/sharer.php?u=" + u
      && l.linkedin == "https://www.linkedin.com/sharing/share-offsite/?url=" + u
      && StartsWith(l.telegram, "https://t.me/share/url?url=" + u + "&text=")
      && StartsWith(l.reddit, "https://reddit.com/submit?url=" + u + "&title=")
      && EndsWith(l.whatsapp, "%20" + u)
  {
    TwitterCarriesAddress(shareUrl, title, description);
    var t := Encode(title);
    PrefixOfConcat("https://t.me/share/url?url=" + Encode(shareUrl) + "&text=", t);
    PrefixOfConcat("https://reddit.com/submit?url=" + Encode(shareUrl) + "&title=", t);
  }

  lemma TwitterCarriesAddress(shareUrl: string, title: string, description: string)
    ensures StartsWith(TwitterLink(shareUrl, title, description), TwitterBase + Encode(shareUrl) + "&text=")
  {
    var p := TwitterBase + Encode(shareUrl) + "&text=";
    var d := if description != "" then "&description=" + Encode(description) else "";
    assert TwitterLink(shareUrl, title, description) == p + (Encode(title) + d);
    PrefixOfConcat(p, Encode(title) + d);
  }

  /** The description only changes the Twitter link. */
  lemma OnlyTwitterReadsDescription(shareUrl: string, title: string, d1: string, d2: string)
    ensures ShareLinks(shareUrl, title, d1).(twitter := "") == ShareLinks(shareUrl, title, d2).(twitter := "")
  {
  }

  /** The outcome of `copyToClipboard`: the text is on the clipboard and the
      button shows "copied" (for two seconds), or an error notice. */
  datatype CopyOutcome = Copied(clipboard: string) | CopyFailed(notice: string)

  function CopyToClipboard(text: string, writeFails: bool): (r: CopyOutcome)
    ensures r.Copied? <==> !writeFails
    ensures r.Copied? ==> r.clipboard == text
    ensures r.CopyFailed? ==> r.notice == "Failed to copy to clipboard"
  {
    if writeFails then CopyFailed("Failed to copy to clipboard") else Copied(text)
  }

  const SrcPrefix: string := "<iframe src=\""

  /** Everything after the address: its closing quote and the other attributes. */
  const FrameRest: string := "\"" + " width=\"100%\" height=\"400\" frameborder=\"0\" allow=\"autoplay\"></iframe>"

  /** The embed code for the shared page. */
  function EmbedCode(shareUrl: string): (r: string)
    ensures var n := |SrcPrefix|; var m := n + |shareUrl|;
      |r| == m + |FrameRest| && r[..n] == SrcPrefix && r[n..m] == shareUrl && r[m..] == FrameRest
  {
    SrcPrefix + shareUrl + FrameRest
  }

  /** The `src` attribute as a reader of the markup finds it: up to the next quote. */
  function SrcOf(code: string): string {
    if StartsWith(code, SrcPrefix) then Split(code[|SrcPrefix|..], "\"")[0] else ""
  }

  /** The frame's source is exactly the shared address, provided the address has no quote in it. */
  lemma EmbedSrcIsShareUrl(shareUrl: string)
    requires forall i :: 0 <= i < |shareUrl| ==> shareUrl[i] != '"'
    ensures SrcOf(EmbedCode(shareUrl)) == shareUrl
  {
    var code := EmbedCode(shareUrl);
    assert code == SrcPrefix + (shareUrl + FrameRest);
    var rest := code[|SrcPrefix|..];
    assert rest == shareUrl + FrameRest;
    assert FrameRest[0] == '"';
    assert rest[|shareUrl|] == FrameRest[0];
    assert rest[|shareUrl|..|shareUrl| + 1] == "\"";
    assert OccursAt(rest, "\"", |shareUrl|);
    forall j: nat | j < |shareUrl|
      ensures !OccursAt(rest, "\"", j)
    {
      assert rest[j] == shareUrl[j];
    }
    assert IndexOf(rest, "\"") == Some(|shareUrl|);
    SplitFirst(rest, "\"", |shareUrl|);
    assert rest[..|shareUrl|] == shareUrl;
  }

  /** What the share button does. */
  datatype ShareAction = NativeShare(title: string, text: string, url: string) | CopyLink(copy: CopyOutcome)

  /** `handleNativeShare`: the browser's share sheet (text falls back to the
      title) when it exists, otherwise copying the shared address. */
  function HandleNativeShare(hasShare: bool, title: string, description: string, shareUrl: string, writeFails: bool): (a: ShareAction)
    ensures !hasShare ==> a.CopyLink? && (a.copy.Copied? <==> !writeFails) && (!writeFails ==> a.copy.clipboard == shareUrl)
    ensures hasShare ==> a.NativeShare? && a.url == shareUrl && a.title == title
    ensures hasShare ==> a.text == (if description != "" then description else title)
  {
    if hasShare then NativeShare(title, if description != "" then description else title, shareUrl)
    else CopyLink(CopyToClipboard(shareUrl, writeFails))
  }

  /** Whichever way the page is shared, what is handed on is the page's full
      address, which ends with the page path. */
  lemma ShareCarriesUrl(hasShare: bool, origin: string, url: string, title: string, description: string)
    ensures var a := HandleNativeShare(hasShare, title, description, ShareUrl(origin, url), false);
      var shared := if a.NativeShare? then a.url else a.copy.clipboard;
      (a.CopyLink? ==> a.copy.Copied?) && shared == origin + url && EndsWith(shared, url)
  {
    var s := ShareUrl(origin, url);
    assert s[|s| - |url|..] == url;
  }
}
