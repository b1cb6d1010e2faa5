/** The gallery page's tabs: "all" holds every image in query order and each
    of "live", "studio" and "press" the images of exactly that category, in
    the same order; a tab without images shows a notice. */
module Gallery {
  datatype Image = Image(id: int, url: string, category: string)

  const Categories: seq<string> := ["all", "live", "studio", "press"]

  /** `allImages.filter((img) => img.category === cat)`. */
  function InCategory(images: seq<Image>, cat: string): (r: seq<Image>)
    ensures |r| <= |images|
    ensures forall x :: x in r <==> x in images && x.category == cat
  {
    if images == [] then []
    else (if images[0].category == cat then [images[0]] else []) + InCategory(images[1..], cat)
  }

  /** One step of the `reduce`: the tab for `cat`. */
  function Tab(images: seq<Image>, cat: string): (r: seq<Image>)
    ensures |r| <= |images|
    ensures cat == "all" ==> r == images
    ensures cat != "all" ==> forall x :: x in r <==> x in images && x.category == cat
  {
    if cat == "all" then images else InCategory(images, cat)
  }

  /** The `reduce` over `cats`, starting from `acc`. */
  function Build(cats: seq<string>, images: seq<Image>, acc: map<string, seq<Image>>): (r: map<string, seq<Image>>)
    ensures r.Keys == acc.Keys + set c | c in cats
    ensures forall c :: c in cats ==> r[c] == Tab(images, c)
    ensures forall c :: c in acc && c !in cats ==> r[c] == acc[c]
  {
    if cats == [] then acc
    else Build(cats[1..], images, acc[cats[0] := Tab(images, cats[0])])
  }

  /** `imagesByCategory`. */
  function ByCategory(images: seq<Image>): (r: map<string, seq<Image>>)
    ensures r.Keys == {"all", "live", "studio", "press"}
    ensures r["all"] == images
    ensures forall c :: c in r && c != "all" ==> r[c] == InCategory(images, c)
  {
    TabNames();
    Build(Categories, images, map[])
  }

  lemma TabNames()
    ensures (set c | c in Categories) == {"all", "live", "studio", "press"}
  {
    assert forall c :: c in Categories <==> c in {"all", "live", "studio", "press"};
  }

  /** Filtering commutes with cutting the list in two, so a tab keeps the query order. */
  lemma {:induction false} InCategoryOrder(images: seq<Image>, cat: string, k: nat)
    requires k <= |images|
    ensures InCategory(images, cat) == InCategory(images[..k], cat) + InCategory(images[k..], cat)
    decreases k
  {
    if k > 0 {
      assert images[1..][k - 1..] == images[k..];
      assert images[..k][1..] == images[1..][..k - 1];
      InCategoryOrder(images[1..], cat, k - 1);
    } else {
      assert images[..0] == [];
      assert images[0..] == images;
    }
  }

  /** An image whose category is not one of the tabs' (such as the default
      "general") is only under "all". */
  lemma OnlyUnderAll(images: seq<Image>, x: Image)
    requires x in images && x.category !in {"live", "studio", "press"}
    ensures x in ByCategory(images)["all"]
    ensures forall c :: c in ByCategory(images) && c != "all" ==> x !in ByCategory(images)[c]
  {
  }

  /** Every image of a tab category is under "all" and under its own tab. */
  lemma ListedTwice(images: seq<Image>, x: Image)
    requires x in images && x.category in {"live", "studio", "press"}
    ensures x in ByCategory(images)["all"] && x in ByCategory(images)[x.category]
  {
  }

  /** Whether the tab shows "No images in this category yet." */
  predicate ShowsEmptyNotice(images: seq<Image>, cat: string)
    requires cat in {"all", "live", "studio", "press"}
  {
    |ByCategory(images)[cat]| == 0
  }

  /** A category tab is empty exactly when no image has that category; "all" only when there are none. */
  lemma EmptyNotice(images: seq<Image>, cat: string)
    requires cat in {"live", "studio", "press"}
    ensures ShowsEmptyNotice(images, cat) <==> forall x :: x in images ==> x.category != cat
    ensures ShowsEmptyNotice(images, "all") <==> images == []
  {
    var t := ByCategory(images)[cat];
    if t != [] {
      assert t[0] in t;
    }
  }
}
