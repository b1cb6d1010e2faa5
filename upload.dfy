/** The upload endpoint's decision: reject a missing, oversized or
    unrecognised file, otherwise name it after the clock and a random string
    and publish it under `/uploads/<type or misc>/`. Writing the file is not
    modelled; the clock and the random string are parameters. */
module Upload {
  import opened Common
  import opened Strings

  const MaxBytes: nat := 25 * 1024 * 1024

  const ImageTypes: seq<string> := ["image/jpeg", "image/png", "image/webp", "image/gif"]
  const AudioTypes: seq<string> := ["audio/mpeg", "audio/mp3", "audio/wav", "audio/wave", "audio/x-wav",
    "audio/ogg", "audio/flac", "audio/aac", "audio/m4a"]
  const VideoTypes: seq<string> := ["video/mp4", "video/webm"]
  const AudioExtensions: seq<string> := [".mp3", ".wav", ".ogg", ".flac", ".aac", ".m4a"]

  /** The last position of `c` in `s`, if any. */
  function LastIndexOf(s: string, c: char): (r: Option<nat>)
    ensures r.Some? ==> r.value < |s| && s[r.value] == c && forall j :: r.value < j < |s| ==> s[j] != c
    ensures r.None? ==> forall j :: 0 <= j < |s| ==> s[j] != c
  {
    if s == [] then None
    else if s[|s| - 1] == c then Some(|s| - 1)
    else LastIndexOf(s[..|s| - 1], c)
  }

  /** `name` without the '/' characters at its end; `path.extname` skips them. */
  function DropTrailingSlashes(name: string): (r: string)
    ensures |r| <= |name| && name[..|r|] == r
    ensures r == [] || r[|r| - 1] != '/'
    ensures forall j :: |r| <= j < |name| ==> name[j] == '/'
    ensures (forall j :: 0 <= j < |name| ==> name[j] == '/') ==> r == []
  {
    if name != [] && name[|name| - 1] == '/' then DropTrailingSlashes(name[..|name| - 1])
    else name
  }

  /** The extension of a name whose trailing '/' characters are already
      gone: from the last '.' of its last segment to the end, or "" when
      that segment has no '.', starts with its last '.' (a dot file such as
      ".env") or is "..". */
  function SegmentExt(stem: string): (r: string)
    ensures r == "" || (r[0] == '.' && EndsWith(stem, r) && forall j :: 1 <= j < |r| ==> r[j] != '.')
    ensures r != "" ==> EndsWith(LastPiece(stem, "/"), r) && |r| < |LastPiece(stem, "/")|
  {
    var base := LastPiece(stem, "/");
    match LastIndexOf(base, '.')
    case None => ""
    case Some(k) =>
      if k == 0 || base == ".." then ""
      else
        assert base[|base| - |base[k..]|..] == base[k..];
        SplitLastEnds(stem, "/");
        SuffixOfSuffix(stem, base, k);
        base[k..]
  }

  /** `path.extname` of a file name: trailing '/' characters are skipped, so
      the extension is that of the last non-empty segment. */
  function ExtName(name: string): (r: string)
    ensures r == "" || (r[0] == '.' && EndsWith(DropTrailingSlashes(name), r) && forall j :: 1 <= j < |r| ==> r[j] != '.')
    ensures r != "" ==> (EndsWith(LastPiece(DropTrailingSlashes(name), "/"), r)
      && |r| < |LastPiece(DropTrailingSlashes(name), "/")|)
  {
    SegmentExt(DropTrailingSlashes(name))
  }

  /** A trailing '/' does not change the extension: "x.mp3/" has ".mp3". */
  lemma ExtNameTrailingSlash(name: string)
    ensures ExtName(name + "/") == ExtName(name)
  {
    assert (name + "/")[..|name|] == name;
  }

  /** "x.mp3/" has the extension ".mp3", as `path.extname` gives it. */
  lemma ExtNameSlashedName()
    ensures ExtName("x.mp3/") == ".mp3"
  {
    var name := "x.mp3";
    assert name[1] == '.' && name[2] == 'm' && name[3] == 'p' && name[4] == '3';
    ExtNameAt(name, 1);
    ExtNameTrailingSlash(name);
    assert name + "/" == "x.mp3/";
  }

  /** A name made only of '/' characters has no extension. */
  lemma ExtNameAllSlashes(name: string)
    requires forall i :: 0 <= i < |name| ==> name[i] == '/'
    ensures ExtName(name) == ""
  {
    SplitNone([], "/");
  }

  lemma SuffixOfSuffix(s: string, t: string, k: nat)
    requires EndsWith(s, t) && k <= |t|
    ensures EndsWith(s, t[k..])
  {
    assert s[|s| - |t[k..]|..] == t[|t| - |t[k..]|..];
  }

  /** The last piece of a split is a suffix of the string. */
  lemma {:induction false} SplitLastEnds(s: string, sep: string)
    requires |sep| > 0
    ensures EndsWith(s, LastPiece(s, sep))
    decreases |s|
  {
    var o := IndexOf(s, sep);
    if o.None? {
      SplitNone(s, sep);
    } else {
      var k := o.value;
      SplitFirst(s, sep, k);
      SplitLastEnds(s[k + |sep|..], sep);
      var parts := Split(s, sep);
      var rest := Split(s[k + |sep|..], sep);
      assert parts[|parts| - 1] == rest[|rest| - 1];
      var p := LastPiece(s[k + |sep|..], sep);
      assert s[k + |sep|..][|s[k + |sep|..]| - |p|..] == s[|s| - |p|..];
    }
  }

  /** Leading dots do not hide an extension. */
  lemma ExtNameLeadingDots()
    ensures ExtName("..mp3") == ".mp3"
  {
    var name := "..mp3";
    assert name[1] == '.' && name[2] == 'm' && name[3] == 'p' && name[4] == '3';
    ExtNameAt(name, 1);
  }

  /** Only the last '.' starts the extension. */
  lemma ExtNameLastDot()
    ensures ExtName("song.tar.mp3") == ".mp3"
  {
    var name := "song.tar.mp3";
    assert name[8] == '.' && name[9] == 'm' && name[10] == 'p' && name[11] == '3';
    ExtNameAt(name, 8);
  }

  /** In a name without '/', the extension starts at the last '.' when that
      is not the first character. */
  lemma ExtNameAt(name: string, k: nat)
    requires forall i :: 0 <= i < |name| ==> name[i] != '/'
    requires 0 < k < |name| && name[k] == '.' && forall j :: k < j < |name| ==> name[j] != '.'
    requires name != ".."
    ensures ExtName(name) == name[k..]
  {
    assert DropTrailingSlashes(name) == name;
    NoSlashPiece(name);
    var o := LastIndexOf(name, '.');
    assert o == Some(k);
  }

  /** A dot file, "..", and a name without '.' have no extension. */
  lemma ExtNameNone()
    ensures ExtName(".mp3") == "" && ExtName("..") == "" && ExtName("song") == ""
  {
    assert DropTrailingSlashes(".mp3") == ".mp3";
    assert DropTrailingSlashes("..") == "..";
    assert DropTrailingSlashes("song") == "song";
    NoSlashPiece(".mp3");
    NoSlashPiece("..");
    NoSlashPiece("song");
    assert LastIndexOf(".mp3", '.') == Some(0);
  }

  /** A name without '/' is its own last segment. */
  lemma NoSlashPiece(s: string)
    requires forall i :: 0 <= i < |s| ==> s[i] != '/'
    ensures LastPiece(s, "/") == s
  {
    forall j | 0 <= j
      ensures !OccursAt(s, "/", j)
    {
      if j + 1 <= |s| {
        assert s[j..j + 1][0] == s[j];
      }
    }
    SplitNone(s, "/");
  }

  datatype FileInfo = FileInfo(name: string, mime: string, size: nat)

  datatype Response =
    | NoFile
    | TooLarge
    | InvalidType
    | Uploaded(url: string, filename: string, size: nat, mime: string)
    | UploadFailed

  function Status(r: Response): int {
    if r.Uploaded? then 200 else if r.UploadFailed? then 500 else 400
  }

  /** The MIME type or, for audio only, the lower-cased extension is recognised. */
  predicate Accepted(f: FileInfo)
    ensures Accepted(f) && f.mime !in ImageTypes && f.mime !in AudioTypes && f.mime !in VideoTypes ==>
      |ExtName(f.name)| >= 4 && EndsWith(DropTrailingSlashes(f.name), ExtName(f.name))
  {
    f.mime in ImageTypes || f.mime in AudioTypes || f.mime in VideoTypes
    || LowerAscii(ExtName(f.name)) in AudioExtensions
  }

  /** The upload sub-directory: the form's `type`, or "misc" when it is missing or empty. */
  function Dir(kind: Option<string>): (d: string)
    ensures d != ""
  {
    if kind.Some? && kind.value != "" then kind.value else "misc"
  }

  /** `POST /api/upload`; `timestamp` and `random` stand for the clock and the
      random string, `writeFails` for a directory or file write that throws,
      which the route's catch turns into "Upload failed". */
  function UploadPost(file: Option<FileInfo>, kind: Option<string>, timestamp: nat, random: string,
                      writeFails: bool): (r: Response)
    ensures file.None? <==> r == NoFile
    ensures file.Some? && file.value.size > MaxBytes ==> r == TooLarge
    ensures r.Uploaded? <==> !writeFails && file.Some? && file.value.size <= MaxBytes && Accepted(file.value)
    ensures r.UploadFailed? <==> writeFails && file.Some? && file.value.size <= MaxBytes && Accepted(file.value)
    ensures r.Uploaded? ==> r.filename == NatToStr(timestamp) + "-" + random + ExtName(file.value.name)
    ensures r.Uploaded? ==> r.url == "/uploads/" + Dir(kind) + "/" + r.filename
    ensures r.Uploaded? ==> r.size == file.value.size && r.mime == file.value.mime
  {
    if file.None? then NoFile
    else
      var f := file.value;
      if f.size > MaxBytes then TooLarge
      else if !Accepted(f) then InvalidType
      else if writeFails then UploadFailed
      else
        var filename := NatToStr(timestamp) + "-" + random + ExtName(f.name);
        Uploaded("/uploads/" + Dir(kind) + "/" + filename, filename, f.size, f.mime)
  }

  /** The size limit is inclusive. */
  lemma SizeLimitInclusive(f: FileInfo, kind: Option<string>, timestamp: nat, random: string, writeFails: bool)
    requires f.size == MaxBytes && Accepted(f)
    ensures UploadPost(Some(f), kind, timestamp, random, writeFails) != TooLarge
    ensures !writeFails ==> UploadPost(Some(f), kind, timestamp, random, writeFails).Uploaded?
  {
  }

  /** An image whose MIME type is not listed is rejected whatever its name says,
      unless the name carries an audio extension. */
  lemma UnlistedImageRejected(f: FileInfo, kind: Option<string>, timestamp: nat, random: string, writeFails: bool)
    requires StartsWith(f.mime, "image/") && f.mime !in ImageTypes
    requires LowerAscii(ExtName(f.name)) !in AudioExtensions
    requires f.size <= MaxBytes
    ensures UploadPost(Some(f), kind, timestamp, random, writeFails) == InvalidType
  {
    assert forall m :: m in AudioTypes ==> m[..6] == "audio/";
    assert forall m :: m in VideoTypes ==> m[..6] == "video/";
    assert f.mime[..6] == "image/";
  }

  /** The published file name keeps the original extension, case and all. */
  lemma NameKeepsExtension(f: FileInfo, kind: Option<string>, timestamp: nat, random: string, writeFails: bool)
    requires UploadPost(Some(f), kind, timestamp, random, writeFails).Uploaded?
    ensures EndsWith(UploadPost(Some(f), kind, timestamp, random, writeFails).url, ExtName(f.name))
    ensures StartsWith(UploadPost(Some(f), kind, timestamp, random, writeFails).url, "/uploads/" + Dir(kind) + "/")
  {
    var r := UploadPost(Some(f), kind, timestamp, random, writeFails);
    var e := ExtName(f.name);
    var folder := "/uploads/" + Dir(kind) + "/";
    var stem := NatToStr(timestamp) + "-" + random;
    assert r.url == folder + (stem + e);
    PrefixOfConcat(folder, stem + e);
    SuffixOfConcat(folder, stem + e);
    assert (stem + e)[|stem|..] == e;
    SuffixOfSuffix(r.url, stem + e, |stem|);
  }
}
