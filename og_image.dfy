/** The Open Graph image endpoint: the title and description come from the
    query string, fall back to site defaults when absent, and are cut to 100
    and 200 characters; any failure while rendering gives a plain 500. The
    query string arrives already split into decoded name/value pairs, and
    whether rendering throws is a parameter. */
module OgImage {
  import opened Common
  import opened Strings

  const DefaultTitle: string := "Artist Portfolio"
  const DefaultDescription: string := "Electronic Music Producer & Sound Designer"
  const TitleMax: nat := 100
  const DescriptionMax: nat := 200
  const Width: nat := 1200
  const Height: nat := 630
  const FailureText: string := "Failed to generate the image"

  type Query = seq<(string, string)>

  /** Pair `i` is the first one named `name`. */
  predicate FirstPair(q: Query, name: string, i: int) {
    0 <= i < |q| && q[i].0 == name && forall j :: 0 <= j < i ==> q[j].0 != name
  }

  /** `searchParams.get(name)`: the value of the first pair with that name. */
  function Get(q: Query, name: string): (r: Option<string>)
    ensures r.None? <==> forall i :: 0 <= i < |q| ==> q[i].0 != name
    ensures r.Some? ==> exists i :: FirstPair(q, name, i) && q[i].1 == r.value
  {
    if q == [] then None
    else if q[0].0 == name then Some(q[0].1)
    else
      var r := Get(q[1..], name);
      if r.Some? then
        var i :| FirstPair(q[1..], name, i) && q[1..][i].1 == r.value;
        assert FirstPair(q, name, i + 1);
        r
      else r
  }

  /** `s.slice(0, n)`, which counts UTF-16 code units: the longest prefix of
      whole characters that fits in `n` units. */
  function Slice(s: string, n: nat): (r: string)
    ensures |r| <= |s| && r == s[..|r|]
    ensures Utf16Length(r) <= n
    ensures |r| < |s| ==> Utf16Length(r) + Units(s[|r|]) > n
  {
    if s == [] || Units(s[0]) > n then ""
    else
      var t := Slice(s[1..], n - Units(s[0]));
      assert ([s[0]] + t)[1..] == t;
      [s[0]] + t
  }

  /** A text that fits is kept whole. */
  lemma {:induction false} SliceShort(s: string, n: nat)
    requires Utf16Length(s) <= n
    ensures Slice(s, n) == s
  {
    if s != [] {
      SliceShort(s[1..], n - Units(s[0]));
    }
  }

  /** On text without surrogate pairs the cut is at exactly `n` characters. */
  lemma {:induction false} SliceBmp(s: string, n: nat)
    requires forall i :: 0 <= i < |s| ==> !Astral(s[i])
    ensures Slice(s, n) == s[..MinInt(|s|, n)]
  {
    if s != [] && n > 0 {
      SliceBmp(s[1..], n - 1);
      assert s[..MinInt(|s|, n)] == [s[0]] + s[1..][..MinInt(|s| - 1, n - 1)];
    }
  }

  /** One text parameter: the default when the name is absent, otherwise the
      given value cut to `max` characters (an empty value stays empty). */
  function Param(q: Query, name: string, default: string, max: nat): (r: string)
    ensures Get(q, name).None? ==> r == default
    ensures Get(q, name).Some? ==> r == Slice(Get(q, name).value, max)
  {
    match Get(q, name)
    case None => default
    case Some(v) => Slice(v, max)
  }

  datatype Response = Image(title: string, description: string, width: nat, height: nat)
                    | Failure(status: nat, body: string)

  /** `GET /api/og`. */
  function Render(q: Query, renderFails: bool): (r: Response)
    ensures renderFails <==> r.Failure?
    ensures r.Failure? ==> r.status == 500 && r.body == FailureText
    ensures r.Image? ==> r.width == Width && r.height == Height
    ensures r.Image? ==> r.title == Param(q, "title", DefaultTitle, TitleMax)
    ensures r.Image? ==> r.description == Param(q, "description", DefaultDescription, DescriptionMax)
    ensures r.Image? ==> Utf16Length(r.title) <= TitleMax && Utf16Length(r.description) <= DescriptionMax
  {
    if renderFails then Failure(500, FailureText)
    else Image(Param(q, "title", DefaultTitle, TitleMax),
               Param(q, "description", DefaultDescription, DescriptionMax), Width, Height)
  }

  /** With no parameters the card shows the site defaults. */
  lemma NoParamsDefaults()
    ensures Render([], false) == Image(DefaultTitle, DefaultDescription, Width, Height)
  {
  }

  /** A parameter that is present but empty gives an empty text, not the default. */
  lemma EmptyIsNotAbsent(q: Query)
    requires Get(q, "title") == Some("")
    ensures Render(q, false).title == ""
    ensures Render(q, false).title != DefaultTitle
  {
  }

  /** A long title is cut to exactly its first hundred characters. */
  lemma LongTitleCut(q: Query)
    requires Get(q, "title").Some? && |Get(q, "title").value| >= TitleMax
    requires forall i :: 0 <= i < |Get(q, "title").value| ==> !Astral(Get(q, "title").value[i])
    ensures Render(q, false).title == Get(q, "title").value[..TitleMax]
  {
    SliceBmp(Get(q, "title").value, TitleMax);
  }

  /** A long description is cut to exactly its first two hundred characters,
      and a missing one is the default. */
  lemma DescriptionCut(q: Query)
    ensures Get(q, "description").None? ==> Render(q, false).description == DefaultDescription
    ensures var d := Get(q, "description");
      d.Some? && |d.value| >= DescriptionMax && (forall i :: 0 <= i < |d.value| ==> !Astral(d.value[i])) ==>
      Render(q, false).description == d.value[..DescriptionMax]
  {
    var d := Get(q, "description");
    if d.Some? && forall i :: 0 <= i < |d.value| ==> !Astral(d.value[i]) {
      SliceBmp(d.value, DescriptionMax);
    }
  }

  /** Cutting is idempotent, so feeding the shown title back gives the same card title. */
  lemma ParamStable(q: Query)
    ensures var t := Render(q, false).title; Render([("title", t)], false).title == t
  {
    SliceShort(Render(q, false).title, TitleMax);
  }

  /** A pair of code units counts twice and is never cut in half: two units
      hold "a" but not the pair that follows it. */
  lemma SliceKeepsPairs()
    ensures Slice("a\U{1F600}", 2) == "a" && Slice("a\U{1F600}", 3) == "a\U{1F600}"
  {
    assert Astral("a\U{1F600}"[1]);
    assert "a\U{1F600}"[1..] == "\U{1F600}";
    assert "\U{1F600}"[1..] == "";
  }

  /** Only the first value of a repeated parameter counts. */
  lemma FirstValueWins(a: string, b: string)
    ensures Render([("title", a), ("title", b)], false).title == Slice(a, TitleMax)
  {
  }
}
