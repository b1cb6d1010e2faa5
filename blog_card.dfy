/** The blog card's reading-time estimate and tag row: minutes are the
    number of pieces the excerpt splits into on white-space runs, divided by
    two hundred and rounded up; at most three tags are shown. */
module BlogCard {
  import opened Common
  import opened Strings

  const WordsPerMinute: nat := 200

  /** The number of maximal runs of white space in `s`. */
  function WsRuns(s: string): (n: nat)
    ensures n <= |s|
    ensures NoWs(s) ==> n == 0
  {
    if s == [] then 0
    else if IsWs(s[0]) then 1 + WsRuns(TrimStart(s))
    else WsRuns(s[1..])
  }

  /** `content.split(/\s+/).length`: one more piece than there are white-space
      runs, so "" is one piece and edge white space adds an empty piece. */
  function WordCount(content: string): (n: nat)
    ensures n >= 1
  {
    1 + WsRuns(content)
  }

  /** White space only as single ' ' characters. */
  predicate SingleSpaced(s: string) {
    (forall i :: 0 <= i < |s| && IsWs(s[i]) ==> s[i] == ' ')
    && forall i :: 0 <= i < |s| - 1 ==> !(s[i] == ' ' && s[i + 1] == ' ')
  }

  /** On single-spaced text the white-space-run split agrees with `split(" ")`. */
  lemma {:induction false} WordCountSplit(s: string)
    requires SingleSpaced(s)
    ensures WordCount(s) == |Split(s, " ")|
    decreases |s|
  {
    match IndexOf(s, " ")
    case None =>
      SpaceFree(s, |s|);
      assert NoWs(s);
    case Some(k) =>
      assert s[k..k + 1] == " ";
      assert s[k] == ' ';
      SpaceFree(s, k);
      WsRunsSkip(s, k);
      AfterSpace(s, k);
      WordCountSplit(s[k + 1..]);
  }

  /** Before the first ' ' a single-spaced text has no white space. */
  lemma SpaceFree(s: string, k: nat)
    requires SingleSpaced(s) && k <= |s|
    requires forall j :: 0 <= j < k ==> !OccursAt(s, " ", j)
    ensures forall i :: 0 <= i < k ==> !IsWs(s[i])
  {
    forall i | 0 <= i < k
      ensures !IsWs(s[i])
    {
      if IsWs(s[i]) {
        assert s[i] == ' ';
        assert s[i..i + 1] == " ";
        assert OccursAt(s, " ", i);
      }
    }
  }

  /** A single ' ' is one white-space run, and what follows it is single-spaced again. */
  lemma AfterSpace(s: string, k: nat)
    requires SingleSpaced(s) && k < |s| && s[k] == ' '
    ensures WsRuns(s[k..]) == 1 + WsRuns(s[k + 1..])
    ensures SingleSpaced(s[k + 1..])
  {
    var rest := s[k + 1..];
    if rest != [] {
      assert rest[0] == s[k + 1];
      assert !IsWs(rest[0]);
    }
    assert s[k..][1..] == rest;
    assert TrimStart(s[k..]) == TrimStart(rest);
    assert forall i :: 0 <= i < |rest| ==> rest[i] == s[k + 1 + i];
  }

  /** Characters before any white space do not change the run count. */
  lemma {:induction false} WsRunsSkip(s: string, k: nat)
    requires k <= |s| && forall i :: 0 <= i < k ==> !IsWs(s[i])
    ensures WsRuns(s) == WsRuns(s[k..])
    decreases k
  {
    if k > 0 {
      assert s[1..][k - 1..] == s[k..];
      WsRunsSkip(s[1..], k - 1);
    }
  }

  /** `Math.ceil(words / 200)` for a non-negative word count. */
  function Minutes(words: nat): (m: nat)
    ensures WordsPerMinute * (m - 1) < words <= WordsPerMinute * m || (words == 0 && m == 0)
  {
    (words + WordsPerMinute - 1) / WordsPerMinute
  }

  /** `estimateReadingTime`. */
  function ReadingTime(content: string): (m: nat)
    ensures m >= 1
  {
    Minutes(WordCount(content))
  }

  /** Two hundred words take one minute and one more word takes two. */
  lemma MinuteBoundary()
    ensures Minutes(200) == 1 && Minutes(201) == 2 && Minutes(1) == 1
  {
  }

  /** More words never take less time. */
  lemma MinutesMonotone(a: nat, b: nat)
    requires a <= b
    ensures Minutes(a) <= Minutes(b)
  {
  }

  /** A text with no white space is one word. */
  lemma SingleWord(s: string)
    requires NoWs(s)
    ensures WordCount(s) == 1 && ReadingTime(s) == 1
  {
  }

  /** A leading white-space run counts as one more word. */
  lemma LeadingSpaceCounts(s: string)
    requires s == [] || !IsWs(s[0])
    ensures WordCount(" " + s) == WordCount(s) + 1
  {
    var u := " " + s;
    assert u[1..] == s;
    SkipLeadingWs(u, "");
    if s != [] {
      KeepFirst(s, "");
    }
    assert WsRuns(u) == 1 + WsRuns(s);
  }

  /** A trailing white-space run counts as one more word. */
  lemma {:induction false} TrailingSpaceCounts(s: string)
    requires s == [] || !IsWs(s[|s| - 1])
    ensures WordCount(s + " ") == WordCount(s) + 1
    decreases |s|
  {
    if s == [] {
      assert WsRuns(" ") == 1 + WsRuns(TrimStart(" "));
    } else if IsWs(s[0]) {
      var t := TrimStart(s);
      assert t != [] by {
        assert !IsWs(s[|s| - 1]);
      }
      TrimStartAppend(s, t);
      TrailingSpaceCounts(t);
    } else {
      assert (s + " ")[1..] == s[1..] + " ";
      TrailingSpaceCounts(s[1..]);
    }
  }

  /** Trimming a string that ends in a non-space keeps the appended space at the end. */
  lemma {:induction false} TrimStartAppend(s: string, t: string)
    requires t == TrimStart(s) && t != []
    ensures TrimStart(s + " ") == t + " "
    decreases |s|
  {
    if IsWs(s[0]) {
      TrimStartAppend(s[1..], t);
      SkipLeadingWs(s, " ");
    } else {
      KeepFirst(s, " ");
    }
  }

  /** A leading white-space character is trimmed whatever follows. */
  lemma SkipLeadingWs(s: string, tail: string)
    requires s != [] && IsWs(s[0])
    ensures TrimStart(s) == TrimStart(s[1..])
    ensures TrimStart(s + tail) == TrimStart(s[1..] + tail)
  {
    assert (s + tail)[1..] == s[1..] + tail;
  }

  /** A string starting with a non-space is not trimmed, whatever follows. */
  lemma KeepFirst(s: string, tail: string)
    requires s != [] && !IsWs(s[0])
    ensures TrimStart(s) == s && TrimStart(s + tail) == s + tail
  {
    assert (s + tail)[0] == s[0];
  }

  /** The tags the card shows: the first three. */
  function ShownTags(tags: seq<string>): (r: seq<string>)
    ensures |r| == MinInt(3, |tags|)
    ensures r == tags[..|r|]
  {
    if |tags| <= 3 then tags else tags[..3]
  }

  datatype Post = Post(title: string, slug: string, excerpt: string, content: string, tags: seq<string>)

  datatype CardView = CardView(href: string, minutes: nat, tags: seq<string>)

  /** What `BlogCard` shows: the estimate reads the excerpt, never the body. */
  function Card(post: Post): (v: CardView)
    ensures v.minutes == ReadingTime(post.excerpt) && v.minutes >= 1
    ensures |v.tags| <= 3 && |v.tags| <= |post.tags| && v.tags == post.tags[..|v.tags|]
    ensures v.href == "/blog/" + post.slug
  {
    CardView("/blog/" + post.slug, ReadingTime(post.excerpt), ShownTags(post.tags))
  }
}
