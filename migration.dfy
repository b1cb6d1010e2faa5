/** The database migration script: create the gallery and newsletter tables
    when absent, add the missing release, track and gallery columns, stop with
    status 1 when the releases or tracks table is missing, and give every
    existing release a unique slug when the slug column is first added. The
    schema is a map from table name to its column names. */
module Migration {
  import opened Common
  import opened Strings
  import opened BlogSlug

  /** The tables the script looks at; any other table is carried along untouched. */
  datatype TableName = Gallery | NewsletterSubscribers | Releases | Tracks | OtherTable(name: string)

  type Schema = map<TableName, set<string>>

  const GalleryColumns: set<string> := {"id", "image_url", "caption", "category", "display_order", "created_at"}
  const NewsletterColumns: set<string> := {"id", "email", "subscribed_at"}

  /** The columns any full run guarantees on a table that was present. */
  const ReleaseAdds: set<string> := {"type", "slug"}
  const TrackAdds: set<string> := {"artist", "bpm", "genre"}

  /** The gallery and newsletter tables, created when the start-up table list lacks them. */
  function CreateTables(t: Schema): (r: Schema)
    ensures r.Keys == t.Keys + {Gallery, NewsletterSubscribers}
    ensures forall n :: n in t ==> r[n] == t[n]
    ensures Gallery !in t ==> r[Gallery] == GalleryColumns
    ensures NewsletterSubscribers !in t ==> r[NewsletterSubscribers] == NewsletterColumns
  {
    var t1 := if Gallery !in t then t[Gallery := GalleryColumns] else t;
    if NewsletterSubscribers !in t then t1[NewsletterSubscribers := NewsletterColumns] else t1
  }

  /** `ALTER TABLE name ADD COLUMN` for each of `cols` the table lacks. */
  function WithColumns(t: Schema, name: TableName, cols: set<string>): (r: Schema)
    requires name in t
    ensures r.Keys == t.Keys
    ensures forall c :: c in r[name] <==> c in t[name] || c in cols
    ensures forall n :: n in t && n != name ==> r[n] == t[n]
  {
    t[name := t[name] + cols]
  }

  lemma WithColumnsTwice(t: Schema, name: TableName, a: set<string>, b: set<string>)
    requires name in t
    ensures WithColumns(WithColumns(t, name, a), name, b) == WithColumns(t, name, a + b)
  {
    assert t[name] + a + b == t[name] + (a + b);
  }

  /** The schema after a run on an existing file, and the exit status.
      The final gallery check uses the table list read at the start. */
  function MigrateSchema(t: Schema): (r: (Schema, int))
    ensures r.0.Keys == t.Keys + {Gallery, NewsletterSubscribers}
    ensures forall n :: n in t && n != Releases && n != Tracks && n != Gallery ==> r.0[n] == t[n]
    ensures Gallery !in t ==> r.0[Gallery] == GalleryColumns
    ensures NewsletterSubscribers !in t ==> r.0[NewsletterSubscribers] == NewsletterColumns
  {
    var t2 := CreateTables(t);
    if Releases !in t then (t2, 1)
    else
      var t3 := WithColumns(t2, Releases, ReleaseAdds);
      if Tracks !in t then (t3, 1)
      else
        var t4 := WithColumns(t3, Tracks, TrackAdds);
        var t5 := if Gallery in t then WithColumns(t4, Gallery, {"display_order"}) else t4;
        (t5, 0)
  }

  /** A run succeeds exactly when both the releases and the tracks table exist,
      and then every table the script touches has its columns. */
  lemma MigrateOutcome(t: Schema)
    ensures MigrateSchema(t).1 == 0 <==> Releases in t && Tracks in t
    ensures MigrateSchema(t).1 in {0, 1}
    ensures var r := MigrateSchema(t).0; Gallery in r && NewsletterSubscribers in r
    ensures var r := MigrateSchema(t).0; MigrateSchema(t).1 == 0 ==>
      ReleaseAdds <= r[Releases] && TrackAdds <= r[Tracks] && "display_order" in r[Gallery]
    ensures forall n :: n in t ==> n in MigrateSchema(t).0 && t[n] <= MigrateSchema(t).0[n]
  {
  }

  /** A missing releases table stops the run before any release or track change;
      only the two created tables are new. */
  lemma MissingReleasesStops(t: Schema)
    requires Releases !in t
    ensures MigrateSchema(t).1 == 1
    ensures forall n :: n in t ==> MigrateSchema(t).0[n] == t[n]
    ensures Releases !in MigrateSchema(t).0
    ensures Tracks in t ==> MigrateSchema(t).0[Tracks] == t[Tracks]
  {
  }

  /** A missing tracks table stops the run after the release columns. */
  lemma MissingTracksStops(t: Schema)
    requires Releases in t && Tracks !in t
    ensures MigrateSchema(t).1 == 1
    ensures MigrateSchema(t).0[Releases] == t[Releases] + ReleaseAdds
    ensures Tracks !in MigrateSchema(t).0
  {
  }

  /** Running the script again changes nothing and exits the same way. */
  lemma MigrateIdempotent(t: Schema)
    ensures MigrateSchema(MigrateSchema(t).0) == MigrateSchema(t)
  {
    var r := MigrateSchema(t).0;
    MigrateOutcome(t);
    if Releases in t && Tracks in t {
      assert r[Releases] + ReleaseAdds == r[Releases];
      assert r[Releases := r[Releases] + ReleaseAdds] == r;
      assert r[Tracks] + TrackAdds == r[Tracks];
      assert r[Tracks := r[Tracks] + TrackAdds] == r;
      assert r[Gallery] + {"display_order"} == r[Gallery];
      assert r[Gallery := r[Gallery] + {"display_order"}] == r;
    } else if Releases in t {
      assert r[Releases] + ReleaseAdds == r[Releases];
      assert r[Releases := r[Releases] + ReleaseAdds] == r;
    }
  }

  // ----- slugs for existing releases -----

  /** The `counter`-th candidate: the slug itself, then `slug-1`, `slug-2`, ... */
  function Candidate(base: string, k: nat): (r: string)
    ensures k == 0 ==> r == base
    ensures k > 0 ==> |r| > |base| + 1 && r[..|base| + 1] == base + "-"
  {
    if k == 0 then base else base + "-" + NatToStr(k)
  }

  /** Different counters give different candidates. */
  lemma CandidateInjective(base: string, j: nat, k: nat)
    requires j != k
    ensures Candidate(base, j) != Candidate(base, k)
  {
    if j > 0 && k > 0 && Candidate(base, j) == Candidate(base, k) {
      var p := |base| + 1;
      assert Candidate(base, j)[p..] == NatToStr(j);
      assert Candidate(base, k)[p..] == NatToStr(k);
      ParseNatToStr(j);
      ParseNatToStr(k);
    }
  }

  /** The uniqueness loop: the first candidate no row already carries. */
  method UniqueSlug(base: string, used: set<string>) returns (r: string, n: nat)
    ensures r == Candidate(base, n) && r !in used
    ensures forall k :: 0 <= k < n ==> Candidate(base, k) in used
  {
    r, n := base, 0;
    ghost var tried: set<string> := {};
    while r in used
      invariant r == Candidate(base, n)
      invariant forall k :: 0 <= k < n ==> Candidate(base, k) in used
      invariant tried <= used
      invariant forall x :: x in tried ==> exists k :: 0 <= k < n && x == Candidate(base, k)
      decreases used - tried
    {
      forall x | x in tried
        ensures x != r
      {
        var k :| 0 <= k < n && x == Candidate(base, k);
        CandidateInjective(base, k, n);
      }
      tried := tried + {r};
      n := n + 1;
      r := Candidate(base, n);
    }
  }

  /** Every candidate before the `n`-th is already in `prev`. */
  predicate Taken(prev: seq<string>, base: string, n: nat) {
    forall k :: 0 <= k < n ==> Candidate(base, k) in prev
  }

  /** The slug loop over the existing releases, in order: each release gets the
      first candidate of its title's slug that no earlier release received.
      Slugifying a title reads nothing but the title, so it is done for all
      rows first and the loop then works on the slugified titles. */
  method AssignSlugs(titles: seq<string>) returns (bases: seq<string>, slugs: seq<string>, counters: seq<nat>, updated: nat)
    ensures |bases| == |slugs| == |counters| == |titles| == updated
    ensures forall i :: 0 <= i < |titles| ==> bases[i] == Slug(titles[i])
    ensures forall i :: 0 <= i < |slugs| ==> slugs[i] == Candidate(bases[i], counters[i])
    ensures forall i, j :: 0 <= i < j < |slugs| ==> slugs[i] != slugs[j]
    ensures forall i :: 0 <= i < |slugs| ==> Taken(slugs[..i], bases[i], counters[i])
  {
    bases := seq(|titles|, i requires 0 <= i < |titles| => Slug(titles[i]));
    slugs, counters, updated := Deduplicate(bases);
  }

  /** The deduplicating loop itself, over the rows' slugs before deduplication. */
  method Deduplicate(bases: seq<string>) returns (slugs: seq<string>, counters: seq<nat>, updated: nat)
    ensures |slugs| == |counters| == |bases| == updated
    ensures Assigned(bases, slugs, counters)
  {
    slugs, counters, updated := [], [], 0;
    var used: set<string> := {};
    while updated < |bases|
      invariant updated <= |bases| && |slugs| == |counters| == updated
      invariant forall x :: x in used <==> x in slugs
      invariant Assigned(bases[..updated], slugs, counters)
    {
      var base := bases[updated];
      var s, n := UniqueSlug(base, used);
      AssignedStep(bases[..updated], slugs, counters, base, s, n);
      assert bases[..updated + 1] == bases[..updated] + [base];
      slugs, counters := slugs + [s], counters + [n];
      used := used + {s};
      updated := updated + 1;
    }
    assert bases[..updated] == bases;
  }

  /** What the slug loop has established for the rows it has seen, given each
      row's slug before deduplication. */
  predicate Assigned(bases: seq<string>, slugs: seq<string>, counters: seq<nat>)
    requires |slugs| == |counters| == |bases|
  {
    (forall i :: 0 <= i < |slugs| ==> slugs[i] == Candidate(bases[i], counters[i]))
    && (forall i, j :: 0 <= i < j < |slugs| ==> slugs[i] != slugs[j])
    && (forall i :: 0 <= i < |slugs| ==> Taken(slugs[..i], bases[i], counters[i]))
  }

  /** One more row keeps `Assigned`. */
  lemma AssignedStep(bases: seq<string>, slugs: seq<string>, counters: seq<nat>, base: string,
                     s: string, n: nat)
    requires |slugs| == |counters| == |bases| && Assigned(bases, slugs, counters)
    requires s == Candidate(base, n) && s !in slugs
    requires forall k :: 0 <= k < n ==> Candidate(base, k) in slugs
    ensures Assigned(bases + [base], slugs + [s], counters + [n])
  {
    Extend(slugs, s);
    var s' := slugs + [s];
    assert Taken(s'[..|slugs|], base, n);
  }

  /** Appending keeps every earlier prefix. */
  lemma Extend(slugs: seq<string>, s: string)
    ensures forall i :: 0 <= i <= |slugs| ==> (slugs + [s])[..i] == slugs[..i]
  {
    forall i | 0 <= i <= |slugs|
      ensures (slugs + [s])[..i] == slugs[..i]
    {
      assert forall k :: 0 <= k < i ==> (slugs + [s])[k] == slugs[k];
    }
  }

  /** Two runs of the slug loop over the same rows agree: each row's counter
      is the first one free, so the slugs are determined by the rows. */
  lemma AssignedUnique(bases: seq<string>, s1: seq<string>, c1: seq<nat>, s2: seq<string>, c2: seq<nat>)
    requires |s1| == |c1| == |bases| && |s2| == |c2| == |bases|
    requires Assigned(bases, s1, c1) && Assigned(bases, s2, c2)
    ensures s1 == s2
  {
    AssignedAgree(bases, s1, c1, s2, c2, |bases|);
    assert s1 == s1[..|bases|] && s2 == s2[..|bases|];
  }

  lemma {:induction false} AssignedAgree(bases: seq<string>, s1: seq<string>, c1: seq<nat>,
                                         s2: seq<string>, c2: seq<nat>, n: nat)
    requires |s1| == |c1| == |bases| && |s2| == |c2| == |bases| && n <= |bases|
    requires Assigned(bases, s1, c1) && Assigned(bases, s2, c2)
    ensures s1[..n] == s2[..n]
    decreases n
  {
    if n > 0 {
      var i := n - 1;
      AssignedAgree(bases, s1, c1, s2, c2, i);
      AssignedRow(bases, s1, c1, i);
      AssignedRow(bases, s2, c2, i);
      RowStep(s1, s2, bases[i], c1[i], c2[i], i);
    }
  }

  /** Agreement on the first `i` rows and the first-free rule at row `i`
      give agreement on the first `i + 1` rows. */
  lemma RowStep(s1: seq<string>, s2: seq<string>, base: string, c: nat, d: nat, i: nat)
    requires i < |s1| && i < |s2| && s1[..i] == s2[..i]
    requires s1[i] == Candidate(base, c) && Taken(s1[..i], base, c) && s1[i] !in s1[..i]
    requires s2[i] == Candidate(base, d) && Taken(s2[..i], base, d) && s2[i] !in s2[..i]
    ensures s1[..i + 1] == s2[..i + 1]
  {
    RowsAgree(s1[..i], base, c, d);
    PrefixStep(s1, i + 1);
    PrefixStep(s2, i + 1);
  }

  lemma PrefixStep(s: seq<string>, n: nat)
    requires 0 < n <= |s|
    ensures s[..n] == s[..n - 1] + [s[n - 1]]
  {
  }

  /** What the slug loop established for row `i`: its candidate, all earlier
      candidates taken before it, and its own slug fresh. */
  lemma AssignedRow(bases: seq<string>, s: seq<string>, c: seq<nat>, i: nat)
    requires |s| == |c| == |bases| && i < |s| && Assigned(bases, s, c)
    ensures s[i] == Candidate(bases[i], c[i]) && Taken(s[..i], bases[i], c[i]) && s[i] !in s[..i]
  {
    assert forall j :: 0 <= j < i ==> s[..i][j] == s[j];
  }

  /** Two free candidates, each with all earlier ones taken, have one counter. */
  lemma RowsAgree(prev: seq<string>, base: string, c: nat, d: nat)
    requires Candidate(base, c) !in prev && Taken(prev, base, c)
    requires Candidate(base, d) !in prev && Taken(prev, base, d)
    ensures c == d
  {
    FirstFree(prev, base, c, d);
    FirstFree(prev, base, d, c);
  }

  /** A free candidate comes no earlier than one whose predecessors are all taken. */
  lemma FirstFree(prev: seq<string>, base: string, c: nat, d: nat)
    requires Candidate(base, c) !in prev && Taken(prev, base, d)
    ensures c >= d
  {
  }

  datatype Release = Release(id: int, title: string, slug: Option<string>)

  /** The slug of each row's title, before deduplication. */
  function Bases(rows: seq<Release>): (r: seq<string>)
    ensures |r| == |rows| && forall i :: 0 <= i < |rows| ==> r[i] == Slug(rows[i].title)
  {
    seq(|rows|, i requires 0 <= i < |rows| => Slug(rows[i].title))
  }

  /** `after` is `before` with each row given the slug the loop assigns it:
      the first candidate of its title's slug not given to an earlier row. */
  predicate Slugged(before: seq<Release>, after: seq<Release>, counters: seq<nat>) {
    |after| == |before| == |counters|
    && (forall i :: 0 <= i < |after| ==> after[i].slug.Some? && after[i] == before[i].(slug := after[i].slug))
    && Assigned(Bases(before), SlugValues(after), counters)
  }

  /** The slugs of rows that all have one. */
  function SlugValues(rows: seq<Release>): (r: seq<string>)
    requires forall i :: 0 <= i < |rows| ==> rows[i].slug.Some?
    ensures |r| == |rows| && forall i :: 0 <= i < |rows| ==> rows[i].slug == Some(r[i])
  {
    seq(|rows|, i requires 0 <= i < |rows| => rows[i].slug.value)
  }

  /** The slugged rows are determined by the rows before: there is one outcome. */
  lemma SluggedUnique(before: seq<Release>, a1: seq<Release>, c1: seq<nat>, a2: seq<Release>, c2: seq<nat>)
    requires Slugged(before, a1, c1) && Slugged(before, a2, c2)
    ensures a1 == a2
  {
    AssignedUnique(Bases(before), SlugValues(a1), c1, SlugValues(a2), c2);
    forall i | 0 <= i < |a1|
      ensures a1[i] == a2[i]
    {
      assert a1[i].slug == Some(SlugValues(a1)[i]);
    }
  }

  /** The database file, when it exists. */
  class Database {
    var tables: Schema
    var releases: seq<Release>

    /** Rows have no slug before the slug column exists. */
    ghost predicate Valid()
      reads this
    {
      Releases in tables && "slug" !in tables[Releases] ==>
        forall i :: 0 <= i < |releases| ==> releases[i].slug.None?
    }

    constructor (tables: Schema, releases: seq<Release>)
      ensures this.tables == tables && this.releases == releases
    {
      this.tables, this.releases := tables, releases;
    }

    /** Gives every release the next free candidate of its title's slug. */
    method GenerateSlugs() returns (ghost counters: seq<nat>)
      modifies this
      ensures Slugged(old(releases), releases, counters)
      ensures tables == old(tables) && |releases| == |old(releases)|
      ensures forall i :: 0 <= i < |releases| ==> releases[i].id == old(releases)[i].id && releases[i].title == old(releases)[i].title
      ensures forall i :: 0 <= i < |releases| ==> releases[i].slug.Some?
      ensures forall i, j :: 0 <= i < j < |releases| ==> releases[i].slug != releases[j].slug
    {
      var rows := releases;
      var titles := seq(|rows|, i requires 0 <= i < |rows| => rows[i].title);
      var bases, slugs, cs, updated := AssignSlugs(titles);
      releases := seq(|rows|, i requires 0 <= i < |rows| => rows[i].(slug := Some(slugs[i])));
      counters := cs;
      assert bases == Bases(rows);
      assert slugs == SlugValues(releases);
    }

    /** Adds column `col` to table `name` unless it is there. */
    method AddColumn(name: TableName, col: string)
      requires name in tables
      modifies this
      ensures tables == WithColumns(old(tables), name, {col}) && releases == old(releases)
    {
      if col !in tables[name] {
        tables := tables[name := tables[name] + {col}];
      } else {
        assert tables[name] + {col} == tables[name];
        assert tables[name := tables[name]] == tables;
      }
    }

    /** The type and slug columns, with slugs for the existing rows when the
        slug column is new. */
    method AddReleaseColumns() returns (ghost counters: seq<nat>)
      requires Valid() && Releases in tables
      modifies this
      ensures Valid()
      ensures "slug" !in old(tables)[Releases] ==> Slugged(old(releases), releases, counters)
      ensures tables == WithColumns(old(tables), Releases, ReleaseAdds)
      ensures |releases| == |old(releases)|
      ensures forall i :: 0 <= i < |releases| ==> releases[i].id == old(releases)[i].id && releases[i].title == old(releases)[i].title
      ensures "slug" in old(tables)[Releases] ==> releases == old(releases)
      ensures "slug" !in old(tables)[Releases] ==>
        (forall i :: 0 <= i < |releases| ==> releases[i].slug.Some?)
        && (forall i, j :: 0 <= i < j < |releases| ==> releases[i].slug != releases[j].slug)
    {
      var columns := tables[Releases];
      AddColumn(Releases, "type");
      if "slug" !in columns {
        AddColumn(Releases, "slug");
        counters := GenerateSlugs();
      } else {
        counters := [];
        AddColumn(Releases, "slug");
      }
      WithColumnsTwice(old(tables), Releases, {"type"}, {"slug"});
      assert {"type"} + {"slug"} == ReleaseAdds;
    }

    /** The artist, bpm and genre columns. */
    method AddTrackColumns()
      requires Tracks in tables
      modifies this
      ensures tables == WithColumns(old(tables), Tracks, TrackAdds) && releases == old(releases)
    {
      AddColumn(Tracks, "artist");
      AddColumn(Tracks, "bpm");
      WithColumnsTwice(old(tables), Tracks, {"artist"}, {"bpm"});
      AddColumn(Tracks, "genre");
      WithColumnsTwice(old(tables), Tracks, {"artist", "bpm"}, {"genre"});
      assert {"artist"} + {"bpm"} == {"artist", "bpm"};
      assert {"artist", "bpm"} + {"genre"} == TrackAdds;
    }

    /** The gallery and newsletter tables, each created when the start-up list lacks it. */
    method CreateMissingTables()
      requires Valid()
      modifies this
      ensures Valid()
      ensures tables == CreateTables(old(tables)) && releases == old(releases)
    {
      var t := tables;
      if Gallery !in t {
        tables := tables[Gallery := GalleryColumns];
      }
      if NewsletterSubscribers !in t {
        tables := tables[NewsletterSubscribers := NewsletterColumns];
      }
    }

    /** One run of the script; `fileExists` is whether the database file is there. */
    method Migrate(fileExists: bool) returns (exitCode: int, ghost counters: seq<nat>)
      requires Valid()
      modifies this
      ensures Valid()
      ensures fileExists && Releases in old(tables) && "slug" !in old(tables)[Releases] ==>
        Slugged(old(releases), releases, counters)
      ensures !fileExists ==> exitCode == 0 && tables == old(tables) && releases == old(releases)
      ensures fileExists ==> (tables, exitCode) == MigrateSchema(old(tables))
      ensures |releases| == |old(releases)|
      ensures forall i :: 0 <= i < |releases| ==> releases[i].id == old(releases)[i].id && releases[i].title == old(releases)[i].title
      ensures !(fileExists && Releases in old(tables) && "slug" !in old(tables)[Releases]) ==> releases == old(releases)
      ensures fileExists && Releases in old(tables) && "slug" !in old(tables)[Releases] ==>
        (forall i :: 0 <= i < |releases| ==> releases[i].slug.Some?)
        && (forall i, j :: 0 <= i < j < |releases| ==> releases[i].slug != releases[j].slug)
    {
      counters := [];
      if !fileExists {
        return 0, counters;
      }
      var t := tables;
      CreateMissingTables();
      if Releases !in t {
        return 1, counters;
      }
      counters := AddReleaseColumns();
      if Tracks !in t {
        return 1, counters;
      }
      AddTrackColumns();
      if Gallery in t {
        AddColumn(Gallery, "display_order");
      }
      exitCode := 0;
    }
  }
}
