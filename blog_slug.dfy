/** Blog post slugs: lower-case the title, drop every character that is not a
    word character, white space or '-', turn each white-space run into '-',
    squeeze hyphen runs to one '-', and trim. The post actions store the title
    with that slug and a 0/1 published flag. */
module BlogSlug {
  import opened Common
  import opened Strings

  /** `\w`: ASCII letters, digits and '_'. */
  predicate IsWordChar(c: char) {
    ('a' <= c <= 'z') || ('A' <= c <= 'Z') || IsDigit(c) || c == '_'
  }

  /** What a slug may contain: lower-case ASCII letters, digits, '_' and '-'. */
  predicate IsSlugChar(c: char) {
    ('a' <= c <= 'z') || IsDigit(c) || c == '_' || c == '-'
  }

  /** No two hyphens touch. */
  predicate NoDoubleHyphen(s: string) {
    forall i :: 0 <= i < |s| - 1 ==> !(s[i] == '-' && s[i + 1] == '-')
  }

  predicate IsSlug(s: string) {
    (forall i :: 0 <= i < |s| ==> IsSlugChar(s[i])) && NoDoubleHyphen(s)
  }

  /** `[^\w\s-]`: the characters the first replace deletes. */
  function Unwanted(c: char): bool {
    !(IsWordChar(c) || IsWs(c) || c == '-')
  }

  /** Drops the leading run of `c`. */
  function DropLeading(s: string, c: char): (r: string)
    ensures |r| <= |s| && r == s[|s| - |r|..]
    ensures r != [] ==> r[0] != c
    ensures (s == [] || s[0] != c) ==> r == s
  {
    if s != [] && s[0] == c then DropLeading(s[1..], c) else s
  }

  /** `replace(/\s+/g, "-")`. */
  function CollapseWs(s: string): (r: string)
    ensures NoWs(r)
    ensures NoWs(s) ==> r == s
    decreases |s|
  {
    if s == [] then ""
    else if IsWs(s[0]) then "-" + CollapseWs(TrimStart(s[1..]))
    else [s[0]] + CollapseWs(s[1..])
  }

  /** `replace(/--+/g, "-")`: every run of hyphens becomes one. */
  function CollapseHyphens(s: string): (r: string)
    ensures |r| <= |s|
    ensures s != [] ==> r != [] && (r[0] == '-' <==> s[0] == '-')
    decreases |s|
  {
    if s == [] then ""
    else if s[0] == '-' then "-" + CollapseHyphens(DropLeading(s[1..], '-'))
    else [s[0]] + CollapseHyphens(s[1..])
  }

  /** Hyphen collapsing only keeps characters it was given. */
  lemma {:induction false} CollapseHyphensChars(s: string)
    ensures forall c :: c in CollapseHyphens(s) ==> c in s
    decreases |s|
  {
    if s != [] {
      var t := if s[0] == '-' then DropLeading(s[1..], '-') else s[1..];
      CollapseHyphensChars(t);
      assert forall c :: c in t ==> c in s by {
        assert t == s[|s| - |t|..];
      }
      assert CollapseHyphens(s) == [s[0]] + CollapseHyphens(t);
    }
  }

  /** After hyphen collapsing no two hyphens touch. */
  lemma {:induction false} CollapseHyphensNoDouble(s: string)
    ensures NoDoubleHyphen(CollapseHyphens(s))
    decreases |s|
  {
    if s != [] {
      var t := if s[0] == '-' then DropLeading(s[1..], '-') else s[1..];
      CollapseHyphensNoDouble(t);
      var rest := CollapseHyphens(t);
      var r := CollapseHyphens(s);
      assert r == [s[0]] + rest;
      assert s[0] == '-' ==> rest == [] || rest[0] != '-';
      forall i | 0 <= i < |r| - 1
        ensures !(r[i] == '-' && r[i + 1] == '-')
      {
        assert r[i + 1] == rest[i];
        if i > 0 {
          assert r[i] == rest[i - 1];
        } else {
          assert r[0] == s[0];
        }
      }
    }
  }

  /** White-space collapsing keeps every other character it meets. */
  lemma {:induction false} CollapseWsChars(s: string, ok: char -> bool)
    requires forall i :: 0 <= i < |s| ==> ok(s[i]) || IsWs(s[i])
    ensures forall i :: 0 <= i < |CollapseWs(s)| ==> CollapseWs(s)[i] == '-' || ok(CollapseWs(s)[i])
    decreases |s|
  {
    if s != [] {
      var rest := if IsWs(s[0]) then TrimStart(s[1..]) else s[1..];
      assert rest == s[|s| - |rest|..];
      assert forall i :: 0 <= i < |rest| ==> rest[i] == s[|s| - |rest| + i];
      CollapseWsChars(rest, ok);
    }
  }

  /** A string with no hyphen run is left alone. */
  lemma {:induction false} CollapseHyphensNoRun(s: string)
    requires NoDoubleHyphen(s)
    ensures CollapseHyphens(s) == s
    decreases |s|
  {
    if s != [] {
      var t := s[1..];
      assert forall i :: 0 <= i < |t| ==> t[i] == s[i + 1];
      CollapseHyphensNoRun(t);
      if s[0] == '-' {
        assert t == [] || t[0] != '-';
        assert DropLeading(t, '-') == t;
      }
      assert CollapseHyphens(s) == [s[0]] + t;
      assert s == [s[0]] + t;
    }
  }

  /** `generateSlug`: always a slug, with no white space left. */
  function Slug(title: string): (r: string)
    ensures IsSlug(r) && NoWs(r)
  {
    SlugShape(title);
    Trim(CollapseHyphens(CollapseWs(RemoveAll(LowerAscii(title), Unwanted))))
  }

  /** Characters that survive the first two steps. */
  lemma {:induction false} KeptChars(title: string)
    ensures var k := RemoveAll(LowerAscii(title), Unwanted);
      forall i :: 0 <= i < |k| ==> IsSlugChar(k[i]) || IsWs(k[i])
  {
    var l := LowerAscii(title);
    var k := RemoveAll(l, Unwanted);
    forall i | 0 <= i < |k|
      ensures IsSlugChar(k[i]) || IsWs(k[i])
    {
      var j :| 0 <= j < |l| && l[j] == k[i];
      assert !IsUpperAscii(l[j]);
    }
  }

  /** Every character of a slug is `[a-z0-9_-]`, and no two hyphens touch. */
  lemma SlugShape(title: string)
    ensures var s := Trim(CollapseHyphens(CollapseWs(RemoveAll(LowerAscii(title), Unwanted))));
      IsSlug(s) && NoWs(s)
  {
    var k := RemoveAll(LowerAscii(title), Unwanted);
    KeptChars(title);
    var w := CollapseWs(k);
    CollapseWsChars(k, IsSlugChar);
    assert forall i :: 0 <= i < |w| ==> IsSlugChar(w[i]);
    var h := CollapseHyphens(w);
    CollapseHyphensChars(w);
    CollapseHyphensNoDouble(w);
    assert forall i :: 0 <= i < |h| ==> h[i] in w;
    assert NoWs(h);
    TrimNoWs(h);
  }

  /** A slug is its own slug. */
  lemma SlugIdempotent(title: string)
    ensures Slug(Slug(title)) == Slug(title)
  {
    var s := Slug(title);
    SlugShape(title);
    var l := LowerAscii(s);
    assert l == s by {
      forall i | 0 <= i < |s| ensures l[i] == s[i] { assert !IsUpperAscii(s[i]); }
    }
    RemoveNothing(s);
    assert CollapseWs(s) == s;
    CollapseHyphensNoRun(s);
    TrimNoWs(s);
  }

  /** Nothing is removed from a string of slug characters. */
  lemma {:induction false} RemoveNothing(s: string)
    requires forall i :: 0 <= i < |s| ==> IsSlugChar(s[i])
    ensures RemoveAll(s, Unwanted) == s
  {
    if s != [] {
      RemoveNothing(s[1..]);
    }
  }

  /** `trim` runs after white space is already gone, so edge hyphens stay:
      " a " becomes "-a-". */
  lemma EdgeHyphensSurvive(c: char)
    requires 'a' <= c <= 'z'
    ensures Slug([' ', c, ' ']) == ['-', c, '-']
  {
    var t := [' ', c, ' '];
    var h := ['-', c, '-'];
    EdgeKept(c, t);
    EdgeWs(c, t, h);
    EdgeHyphens(c, h);
    assert NoWs(h);
    TrimNoWs(h);
  }

  lemma EdgeKept(c: char, t: string)
    requires 'a' <= c <= 'z' && t == [' ', c, ' ']
    ensures RemoveAll(LowerAscii(t), Unwanted) == t
  {
    assert LowerAscii(t) == t;
    var t1, t2 := t[1..], t[2..];
    assert t1[1..] == t2 && t2[1..] == [];
    assert RemoveAll(t2, Unwanted) == t2;
    assert RemoveAll(t1, Unwanted) == t1;
  }

  lemma EdgeWs(c: char, t: string, h: string)
    requires 'a' <= c <= 'z' && t == [' ', c, ' '] && h == ['-', c, '-']
    ensures CollapseWs(t) == h
  {
    assert NoDoubleWs(t);
    CollapseWsSingles(t);
    assert CollapseWs(t)[0] == '-' && CollapseWs(t)[1] == c && CollapseWs(t)[2] == '-';
  }

  /** No two white-space characters touch. */
  predicate NoDoubleWs(s: string) {
    forall i :: 0 <= i < |s| - 1 ==> !(IsWs(s[i]) && IsWs(s[i + 1]))
  }

  /** The character white-space collapsing writes for a lone `c`. */
  function Hyphenated(c: char): char {
    if IsWs(c) then '-' else c
  }

  /** Where white space comes one character at a time, each becomes a hyphen. */
  lemma {:induction false} CollapseWsSingles(s: string)
    requires NoDoubleWs(s)
    ensures |CollapseWs(s)| == |s|
    ensures forall i :: 0 <= i < |s| ==> CollapseWs(s)[i] == Hyphenated(s[i])
    decreases |s|
  {
    if s != [] {
      var t := s[1..];
      assert forall i :: 0 <= i < |t| ==> t[i] == s[i + 1];
      assert NoDoubleWs(t);
      CollapseWsSingles(t);
      var rest := CollapseWs(t);
      CollapseWsLone(s);
      var r := CollapseWs(s);
      forall i | 0 <= i < |s|
        ensures r[i] == Hyphenated(s[i])
      {
        if i > 0 {
          assert r[i] == rest[i - 1] && s[i] == t[i - 1];
        }
      }
    }
  }

  /** A white-space character not followed by another is one hyphen. */
  lemma CollapseWsLone(s: string)
    requires s != [] && (|s| > 1 && IsWs(s[0]) ==> !IsWs(s[1]))
    ensures CollapseWs(s) == [Hyphenated(s[0])] + CollapseWs(s[1..])
  {
    if IsWs(s[0]) {
      assert TrimStart(s[1..]) == s[1..];
    }
  }

  lemma EdgeHyphens(c: char, h: string)
    requires 'a' <= c <= 'z' && h == ['-', c, '-']
    ensures CollapseHyphens(h) == h
  {
    assert NoDoubleHyphen(h);
    CollapseHyphensNoRun(h);
  }

  // ----- post actions -----

  /** The submitted form fields (`null` when absent). */
  datatype PostForm = PostForm(title: string, content: string, excerpt: string, coverImageUrl: string,
    tags: string, published: Option<string>)

  datatype PostRow = PostRow(title: string, slug: string, content: string, excerpt: string,
    coverImageUrl: string, tags: string, published: nat)

  /** The row `createPost` inserts and `updatePost` writes. */
  function PostFromForm(f: PostForm): (r: PostRow)
    ensures r.slug == Slug(f.title) && r.title == f.title
    ensures r.published == 1 <==> f.published == Some("true")
    ensures r.published <= 1
  {
    PostRow(f.title, Slug(f.title), f.content, f.excerpt, f.coverImageUrl, f.tags,
      if f.published == Some("true") then 1 else 0)
  }
}
