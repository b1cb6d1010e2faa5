/** The metadata debugging endpoint: look a release up by slug, clean the
    configured site address, and turn the release's cover image reference
    into an absolute https address. Environment variables and the release
    table are parameters. */
module DebugMeta {
  import opened Common
  import opened Strings

  const DefaultSite: string := "https://artist-portfolio.com"

  /** `a || b` on optional strings: the first one present and non-empty. */
  function OrElse(a: Option<string>, b: string): (r: string)
    ensures a.Some? && a.value != "" ==> r == a.value
    ensures !(a.Some? && a.value != "") ==> r == b
  {
    if a.Some? && a.value != "" then a.value else b
  }

  function IsQuote(c: char): bool { c == '"' || c == '\'' }

  /** The site address: base URL, else site URL, else the default, with every
      quote removed and surrounding white space trimmed. */
  function SiteUrl(baseUrl: Option<string>, siteUrlEnv: Option<string>): (r: string)
    ensures forall i :: 0 <= i < |r| ==> !IsQuote(r[i])
    ensures r != [] ==> !IsWs(r[0]) && !IsWs(r[|r| - 1])
  {
    var raw := OrElse(baseUrl, OrElse(siteUrlEnv, DefaultSite));
    var unquoted := RemoveAll(raw, IsQuote);
    TrimShape(unquoted);
    TrimKeeps(unquoted);
    Trim(unquoted)
  }

  /** A clean address without quotes or surrounding white space. */
  predicate CleanSite(s: string) {
    s != [] && !IsWs(s[0]) && !IsWs(s[|s| - 1]) && forall i :: 0 <= i < |s| ==> !IsQuote(s[i])
  }

  /** The default is used only when neither variable is set, and it is clean. */
  lemma SiteUrlDefault()
    ensures SiteUrl(None, None) == DefaultSite
  {
    assert OrElse(None, OrElse(None, DefaultSite)) == DefaultSite;
    assert CleanSite(DefaultSite);
    SiteUrlPrefersBase(DefaultSite, None);
  }

  /** A clean, non-empty base URL is used as it is, whatever the site URL says. */
  lemma SiteUrlPrefersBase(base: string, siteUrlEnv: Option<string>)
    requires CleanSite(base)
    ensures SiteUrl(Some(base), siteUrlEnv) == base
  {
    RemoveAllNone(base, IsQuote);
    TrimClean(base);
  }

  /** A missing or empty base URL falls back to the site URL, and then to the default. */
  lemma SiteUrlFallsBack(base: Option<string>, siteUrlEnv: Option<string>)
    requires base.None? || base.value == ""
    ensures SiteUrl(base, siteUrlEnv) == SiteUrl(siteUrlEnv, None)
  {
  }

  /** Quotes around the address are removed: `"\"https://a.b\""` reads as `https://a.b`. */
  lemma SiteUrlUnquotes(site: string, siteUrlEnv: Option<string>)
    requires CleanSite(site)
    ensures SiteUrl(Some("\"" + site + "\""), siteUrlEnv) == site
  {
    var q := "\"";
    var raw := q + site + q;
    assert raw != "" && raw[0] == '"';
    assert OrElse(Some(raw), OrElse(siteUrlEnv, DefaultSite)) == raw;
    RemoveAllConcat(q + site, q, IsQuote);
    RemoveAllConcat(q, site, IsQuote);
    RemoveAllNone(site, IsQuote);
    QuoteDropped();
    assert RemoveAll(raw, IsQuote) == site;
    TrimClean(site);
  }

  lemma QuoteDropped()
    ensures RemoveAll("\"", IsQuote) == ""
  {
    assert "\""[1..] == "";
  }

  /** Trimming only removes characters. */
  lemma TrimKeeps(s: string)
    ensures forall i :: 0 <= i < |Trim(s)| ==> Trim(s)[i] in s
  {
    InfixKeeps(s, TrimStart(s), Trim(s));
  }

  /** A prefix `b` of a suffix `a` of `s` holds only characters of `s`. */
  lemma InfixKeeps(s: string, a: string, b: string)
    requires |a| <= |s| && a == s[|s| - |a|..]
    requires |b| <= |a| && b == a[..|b|]
    ensures forall i :: 0 <= i < |b| ==> b[i] in s
  {
    forall i | 0 <= i < |b|
      ensures b[i] in s
    {
      assert b[i] == s[|s| - |a| + i];
    }
  }

  /** The site address with a leading `http://` made `https://`; the first
      `http://` anywhere is replaced when it does not start with `https://`. */
  function SecureBase(site: string): (r: string)
    ensures StartsWith(site, "https://") ==> r == site
    ensures StartsWith(site, "http://") ==> r == "https://" + site[7..]
  {
    if StartsWith(site, "https://") then
      SchemesDiffer(site);
      site
    else
      if StartsWith(site, "http://") then ReplaceFirstAtStart(site, "http://", "https://"); ReplaceFirst(site, "http://", "https://")
      else ReplaceFirst(site, "http://", "https://")
  }

  lemma SchemesDiffer(s: string)
    requires StartsWith(s, "https://")
    ensures !StartsWith(s, "http://")
  {
    assert s[..8][4] == 's';
    assert "http://"[4] == ':';
  }

  /** The absolute cover address, or none without a cover. */
  function ImageUrl(cover: Option<string>, site: string): (r: Option<string>)
    ensures r.None? <==> cover.None? || cover.value == ""
    ensures cover.Some? && StartsWith(cover.value, "https://") ==> r == cover
    ensures cover.Some? && StartsWith(cover.value, "http://") ==> r == Some("https://" + cover.value[7..])
    ensures cover.Some? && cover.value != "" && !StartsWith(cover.value, "http://") && !StartsWith(cover.value, "https://") ==>
      r == Some(SecureBase(site) + (if StartsWith(cover.value, "/") then cover.value else "/" + cover.value))
  {
    if cover.None? || cover.value == "" then None
    else
      var c := cover.value;
      if StartsWith(c, "http://") || StartsWith(c, "https://") then
        Some(SecureBase(c))
      else
        var path := if StartsWith(c, "/") then c else "/" + c;
        Some(SecureBase(site) + path)
  }

  /** With an http or https site address, every cover address is https. */
  lemma ImageAlwaysHttps(cover: Option<string>, site: string)
    requires StartsWith(site, "http://") || StartsWith(site, "https://")
    requires ImageUrl(cover, site).Some?
    ensures StartsWith(ImageUrl(cover, site).value, "https://")
  {
    var c := cover.value;
    var r := ImageUrl(cover, site).value;
    if !StartsWith(c, "http://") && !StartsWith(c, "https://") {
      var b := SecureBase(site);
      assert StartsWith(b, "https://");
      assert r[..8] == b[..8];
    }
  }

  datatype ReleaseRow = ReleaseRow(title: string, artist: string, slug: string, coverImageUrl: Option<string>)

  datatype Metadata = Metadata(siteUrl: string, releaseUrl: string, imageUrl: Option<string>,
    imageIsAbsolute: Option<bool>, imageIsHttps: Option<bool>)

  datatype Response = SlugRequired | ReleaseNotFound | Found(release: ReleaseRow, metadata: Metadata)

  function Status(r: Response): int {
    match r
    case SlugRequired => 400
    case ReleaseNotFound => 404
    case Found(_, _) => 200
  }

  /** `GET /api/debug-meta?slug=...`; `releases` maps a slug to its row. */
  function DebugMetaGet(slug: Option<string>, releases: map<string, ReleaseRow>,
                        baseUrl: Option<string>, siteUrlEnv: Option<string>): (r: Response)
    ensures (slug.None? || slug.value == "") <==> Status(r) == 400
    ensures Status(r) == 404 <==> slug.Some? && slug.value != "" && slug.value !in releases
    ensures r.Found? ==> (r.release == releases[slug.value]
      && r.metadata.siteUrl == SiteUrl(baseUrl, siteUrlEnv)
      && r.metadata.releaseUrl == SiteUrl(baseUrl, siteUrlEnv) + "/music/" + slug.value
      && r.metadata.imageUrl == ImageUrl(r.release.coverImageUrl, r.metadata.siteUrl))
  {
    if slug.None? || slug.value == "" then SlugRequired
    else if slug.value !in releases then ReleaseNotFound
    else
      var rel := releases[slug.value];
      var site := SiteUrl(baseUrl, siteUrlEnv);
      var img := ImageUrl(rel.coverImageUrl, site);
      Found(rel, Metadata(site, site + "/music/" + slug.value, img,
        if rel.coverImageUrl.Some? then Some(StartsWith(rel.coverImageUrl.value, "http")) else None,
        if img.Some? then Some(StartsWith(img.value, "https://")) else None))
  }
}
