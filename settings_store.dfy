/** The site settings: a key/value table created and seeded with three
    defaults on first use, read one key or all keys at a time, and written
    one key or a batch of keys at a time, the batch in one transaction.
    Database failures are parameters. */
module SettingsStore {
  import opened Common

  type Settings = map<string, string>

  /** The seeded defaults; the hero image starts out empty. */
  const Defaults: Settings := map["site_title" := "Artist Portfolio", "contact_email" := "booking@artist.com", "hero_image" := ""]

  /** `getSetting`'s answer for a table: the stored value, or none when the
      key is missing or its value is empty (`result?.value || null`). */
  function Lookup(m: Settings, key: string): (r: Option<string>)
    ensures r.None? <==> key !in m || m[key] == ""
    ensures r.Some? ==> key in m && r.value == m[key]
  {
    if key in m && m[key] != "" then Some(m[key]) else None
  }

  /** `INSERT OR IGNORE` of the defaults: keys already present keep their values. */
  function Seed(m: Settings): (r: Settings)
    ensures r.Keys == m.Keys + Defaults.Keys
    ensures forall k :: k in m ==> r[k] == m[k]
    ensures forall k :: k in Defaults && k !in m ==> r[k] == Defaults[k]
  {
    Defaults + m
  }

  /** `INSERT OR REPLACE` of every entry of `m`: the batch wins, other keys stay. */
  function Override(base: Settings, m: Settings): (r: Settings)
    ensures r.Keys == base.Keys + m.Keys
    ensures forall k :: k in m ==> r[k] == m[k]
    ensures forall k :: k in base && k !in m ==> r[k] == base[k]
  {
    base + m
  }

  /** The table after `ensureSettingsTable`: seeded only when it did not exist. */
  function Ensured(created: bool, m: Settings): (r: Settings)
    ensures forall k :: k in m ==> k in r && r[k] == m[k]
    ensures created ==> r == m
    ensures !created ==> r.Keys == m.Keys + Defaults.Keys
  {
    if created then m else Seed(m)
  }

  /** A table created on first use holds exactly the defaults. */
  lemma FreshTableHoldsDefaults()
    ensures Ensured(false, map[]) == Defaults
    ensures Lookup(Ensured(false, map[]), "site_title") == Some("Artist Portfolio")
    ensures Lookup(Ensured(false, map[]), "contact_email") == Some("booking@artist.com")
    ensures Lookup(Ensured(false, map[]), "hero_image") == None
  {
    assert Defaults + map[] == Defaults;
  }

  /** Seeding never overwrites and seeding twice is seeding once. */
  lemma SeedIdempotent(m: Settings)
    ensures Seed(Seed(m)) == Seed(m)
    ensures forall k :: k in m ==> Lookup(Seed(m), k) == Lookup(m, k)
  {
    assert Seed(Seed(m)).Keys == Seed(m).Keys;
  }

  /** A one-entry batch is a single update. */
  lemma SingleEntryBatch(m: Settings, key: string, value: string)
    ensures Override(m, map[key := value]) == m[key := value]
  {
    assert Override(m, map[key := value]).Keys == m[key := value].Keys;
  }

  /** Writing a key changes that key's answer and no other. */
  lemma LookupAfterUpdate(m: Settings, key: string, value: string, other: string)
    ensures Lookup(m[key := value], key) == (if value == "" then None else Some(value))
    ensures other != key ==> Lookup(m[key := value], other) == Lookup(m, other)
  {
  }

  /** Two batches in a row are one batch of their union, the later one winning. */
  lemma OverrideTwice(m: Settings, a: Settings, b: Settings)
    ensures Override(Override(m, a), b) == Override(m, Override(a, b))
  {
    assert Override(Override(m, a), b).Keys == Override(m, Override(a, b)).Keys;
  }

  /** The transaction's loop on a working copy of the table: each entry is
      written in turn, stopping at the first write that fails. */
  method RunBatch(base: Settings, m: Settings, rejects: set<string>) returns (ok: bool, work: Settings)
    ensures ok <==> m.Keys !! rejects
    ensures ok ==> work == Override(base, m)
  {
    work := base;
    var todo := m.Keys;
    ok := true;
    while todo != {}
      invariant todo <= m.Keys
      invariant forall k :: k in m && k !in todo ==> k !in rejects
      invariant forall k :: k in work <==> k in base || (k in m && k !in todo)
      invariant forall k :: k in m && k !in todo ==> work[k] == m[k]
      invariant forall k :: k in base && (k !in m || k in todo) ==> work[k] == base[k]
      decreases |todo|
    {
      var k :| k in todo;
      if k in rejects {
        assert k in m.Keys * rejects;
        ok := false;
        return;
      }
      work := work[k := m[k]];
      todo := todo - {k};
    }
    SameMap(work, Override(base, m));
  }

  /** Two tables with the same keys and the same value under each key are equal. */
  lemma SameMap(a: Settings, b: Settings)
    requires forall k :: k in a <==> k in b
    requires forall k :: k in a ==> a[k] == b[k]
    ensures a == b
  {
    assert a.Keys == b.Keys;
  }

  /** The settings table; `created` says whether it exists. */
  class Store {
    var created: bool
    var settings: Settings

    ghost predicate Valid()
      reads this
    {
      !created ==> settings == map[]
    }

    constructor ()
      ensures !created && settings == map[] && Valid()
    {
      created, settings := false, map[];
    }

    /** `ensureSettingsTable`. */
    method EnsureTable()
      modifies this
      ensures created && settings == Ensured(old(created), old(settings))
      ensures old(Valid()) ==> Valid()
    {
      if !created {
        created := true;
        settings := Seed(settings);
      }
    }

    /** `getSetting`. */
    method Get(key: string) returns (r: Option<string>)
      modifies this
      ensures created && settings == Ensured(old(created), old(settings))
      ensures r == Lookup(settings, key)
    {
      EnsureTable();
      if key in settings && settings[key] != "" {
        r := Some(settings[key]);
      } else {
        r := None;
      }
    }

    /** `getAllSettings`: the rows folded into a fresh record. */
    method GetAll() returns (all: Settings)
      modifies this
      ensures created && settings == Ensured(old(created), old(settings))
      ensures all == settings
    {
      EnsureTable();
      var table := settings;
      all := map[];
      var rows := table.Keys;
      while rows != {}
        invariant rows <= table.Keys
        invariant forall k :: k in all <==> k in table && k !in rows
        invariant forall k :: k in all ==> all[k] == table[k]
        decreases |rows|
      {
        var k :| k in rows;
        all := all[k := table[k]];
        rows := rows - {k};
      }
      SameMap(all, table);
    }

    /** `updateSetting`; `fails` stands for a failing write. */
    method UpdateSetting(key: string, value: string, fails: bool) returns (ok: bool)
      modifies this
      ensures created && ok == !fails
      ensures settings == if fails then Ensured(old(created), old(settings))
                          else Ensured(old(created), old(settings))[key := value]
    {
      EnsureTable();
      if fails {
        return false;
      }
      settings := settings[key := value];
      ok := true;
    }

    /** `updateSettings`: every entry is written inside one transaction; a
        write to a key in `rejects` fails and rolls the whole batch back. */
    method UpdateSettings(m: Settings, rejects: set<string>) returns (ok: bool)
      modifies this
      ensures created && (ok <==> m.Keys !! rejects)
      ensures ok ==> settings == Override(Ensured(old(created), old(settings)), m)
      ensures !ok ==> settings == Ensured(old(created), old(settings))
    {
      EnsureTable();
      var work;
      ok, work := RunBatch(settings, m, rejects);
      if ok {
        settings := work;
      }
    }
  }
}
