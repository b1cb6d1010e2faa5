/** The "Embed" dialog of tracks and releases: the embed address and iframe
    code for a track, else for a release, and nothing at all without either;
    the preview frame's height. The window origin is a parameter ("" when
    rendered on the server). */
module EmbedPlayer {
  import opened Common
  import opened Strings

  /** A JavaScript number used as a condition: present and not 0. */
  predicate Truthy(id: Option<int>) {
    id.Some? && id.value != 0
  }

  /** The iframe markup for an embed address at a given height. */
  function IframeCode(url: string, height: string): string {
    "<iframe src=\"" + url + "\"" + " width=\"100%\" height=\"" + height
      + "\" frameborder=\"0\" allow=\"autoplay\" style=\"border-radius: 8px;\"></iframe>"
  }

  datatype Embed = Embed(url: string, code: string, height: string)

  /** `embedUrl`/`embedCode`, or none when the component renders nothing. */
  function EmbedFor(siteUrl: string, trackId: Option<int>, releaseId: Option<int>): (r: Option<Embed>)
    ensures r.None? <==> !Truthy(trackId) && !Truthy(releaseId)
    ensures Truthy(trackId) ==> r.value.url == siteUrl + "/embed/track/" + IntToStr(trackId.value) && r.value.height == "400"
    ensures !Truthy(trackId) && Truthy(releaseId) ==>
      r.value.url == siteUrl + "/embed/release/" + IntToStr(releaseId.value) && r.value.height == "600"
    ensures r.Some? ==> r.value.code == IframeCode(r.value.url, r.value.height)
  {
    if Truthy(trackId) then
      var url := siteUrl + "/embed/track/" + IntToStr(trackId.value);
      Some(Embed(url, IframeCode(url, "400"), "400"))
    else if Truthy(releaseId) then
      var url := siteUrl + "/embed/release/" + IntToStr(releaseId.value);
      Some(Embed(url, IframeCode(url, "600"), "600"))
    else None
  }

  /** The copied code begins with the embed address as its `src`. */
  lemma CodeEmbedsUrl(siteUrl: string, trackId: Option<int>, releaseId: Option<int>)
    requires EmbedFor(siteUrl, trackId, releaseId).Some?
    ensures var e := EmbedFor(siteUrl, trackId, releaseId).value;
      StartsWith(e.code, "<iframe src=\"" + e.url + "\"")
  {
    var e := EmbedFor(siteUrl, trackId, releaseId).value;
    SrcComesFirst(e.url, e.height);
  }

  /** The iframe markup starts with its `src` attribute. */
  lemma SrcComesFirst(url: string, height: string)
    ensures StartsWith(IframeCode(url, height), "<iframe src=\"" + url + "\"")
  {
    var p := "<iframe src=\"" + url + "\"";
    PrefixOfConcat(p, " width=\"100%\" height=\"" + height
      + "\" frameborder=\"0\" allow=\"autoplay\" style=\"border-radius: 8px;\"></iframe>");
    assert IframeCode(url, height) == p + (" width=\"100%\" height=\"" + height
      + "\" frameborder=\"0\" allow=\"autoplay\" style=\"border-radius: 8px;\"></iframe>");
  }

  /** An id of 0 counts as missing. */
  lemma ZeroIdIsMissing(siteUrl: string)
    ensures EmbedFor(siteUrl, Some(0), Some(0)).None?
    ensures EmbedFor(siteUrl, Some(0), Some(7)) == EmbedFor(siteUrl, None, Some(7))
  {
  }

  /** The preview frame's height as written: 600 whenever a release id is present. */
  function PreviewHeight(releaseId: Option<int>): (h: string)
    ensures Truthy(releaseId) <==> h == "600"
  {
    if Truthy(releaseId) then "600" else "400"
  }

  /** With both ids, the code embeds the track at 400 but the preview is 600 tall. */
  lemma PreviewMismatch(siteUrl: string)
    ensures EmbedFor(siteUrl, Some(1), Some(2)).value.height == "400"
    ensures PreviewHeight(Some(2)) == "600"
  {
  }

  /** The preview height that follows the chosen embed. */
  function PreviewHeightFixed(trackId: Option<int>, releaseId: Option<int>): (h: string)
    ensures EmbedFor("", trackId, releaseId).Some? ==> h == EmbedFor("", trackId, releaseId).value.height
  {
    if Truthy(trackId) then "400" else if Truthy(releaseId) then "600" else "400"
  }

  /** The corrected preview always matches the copied code, whatever the origin. */
  lemma PreviewMatchesCode(siteUrl: string, trackId: Option<int>, releaseId: Option<int>)
    requires EmbedFor(siteUrl, trackId, releaseId).Some?
    ensures PreviewHeightFixed(trackId, releaseId) == EmbedFor(siteUrl, trackId, releaseId).value.height
    ensures !Truthy(trackId) ==> PreviewHeightFixed(trackId, releaseId) == PreviewHeight(releaseId)
  {
  }
}
