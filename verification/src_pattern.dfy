/** The search `re.search("src='([^']+)'", description).group(1)` that pulls the
    cover-art URL out of an item's HTML description. */
module SrcPattern {
  import opened Wrappers
  import Text

  /** The literal part of the pattern in front of the capture group. */
  const Opening: string := "src='"

  const Quote: char := '\''

  /** Index of the first quote at or after `j`, or `|d|` when there is none. */
  function QuoteFrom(d: string, j: nat): (k: nat)
    requires j <= |d|
    ensures j <= k <= |d|
    ensures k < |d| ==> d[k] == Quote
    ensures forall t :: j <= t < k ==> d[t] != Quote
    decreases |d| - j
  {
    if j == |d| || d[j] == Quote then j else QuoteFrom(d, j + 1)
  }

  /** The pattern matches with its `src='` at `i`: the greedy `[^']+` takes at
      least one character and is followed by a closing quote. Backtracking cannot
      help a failed attempt, since every shorter run is followed by a non-quote. */
  predicate MatchAt(d: string, i: int) {
    && Text.OccursAt(d, Opening, i)
    && var k := QuoteFrom(d, i + |Opening|);
       i + |Opening| < k < |d|
  }

  /** Group 1 of the match at `i`. */
  function Capture(d: string, i: int): (c: string)
    requires MatchAt(d, i)
    ensures |c| > 0 && Quote !in c
    ensures i + |Opening| + |c| < |d|
    ensures d[i + |Opening|..i + |Opening| + |c|] == c
    ensures d[i + |Opening| + |c|] == Quote
  {
    d[i + |Opening|..QuoteFrom(d, i + |Opening|)]
  }

  /** The leftmost match at or after `k`, as `re.search` scans start positions. */
  function FirstMatchFrom(d: string, k: nat): (r: Option<nat>)
    ensures r.Some? ==> k <= r.value && MatchAt(d, r.value)
    ensures r.Some? ==> forall j :: k <= j < r.value ==> !MatchAt(d, j)
    ensures r.None? ==> forall j :: k <= j ==> !MatchAt(d, j)
    decreases |d| - k
  {
    if k + |Opening| >= |d| then None
    else if MatchAt(d, k) then Some(k)
    else FirstMatchFrom(d, k + 1)
  }

  /** `re.search(...)`: the match object is modelled by the start of its `src='`. */
  function Search(d: string): (r: Option<nat>)
    ensures r.Some? <==> exists i :: MatchAt(d, i)
    ensures r.Some? ==> MatchAt(d, r.value) && forall j :: 0 <= j < r.value ==> !MatchAt(d, j)
  {
    FirstMatchFrom(d, 0)
  }

  /** `re.search(...).group(1)`, or `None` where Python would call `.group` on `None`. */
  function CoverOf(d: string): (r: Option<string>)
    ensures r.None? <==> forall i :: !MatchAt(d, i)
    ensures r.Some? ==> |r.value| > 0 && Quote !in r.value
    ensures r.Some? ==> exists i :: && MatchAt(d, i)
                                    && (forall j :: 0 <= j < i ==> !MatchAt(d, j))
                                    && r.value == Capture(d, i)
  {
    match Search(d)
    case None => None
    case Some(i) => Some(Capture(d, i))
  }

  /** A match needs its `src='`: a description without one has no cover. */
  lemma NoOpeningNoCover(d: string)
    requires !Text.Contains(d, Opening)
    ensures CoverOf(d).None?
  {
  }

  /** An `s` is where every match starts. */
  lemma NoMatchWithoutS(d: string, j: int)
    requires 0 <= j < |d| ==> d[j] != 's'
    ensures !MatchAt(d, j)
  {
  }

  /** The first quote at or after `j` is the one at `k` when none comes before. */
  lemma QuoteFromIs(d: string, j: nat, k: nat)
    requires j <= k < |d| && d[k] == Quote
    requires forall t :: j <= t < k ==> d[t] != Quote
    ensures QuoteFrom(d, j) == k
  {
  }

  /** `src='`, a non-empty quote-free run and a quote make a match capturing the run. */
  lemma MatchOfParts(d: string, i: nat, c: string)
    requires i + |Opening| + |c| < |d|
    requires d[i..i + |Opening|] == Opening
    requires d[i + |Opening|..i + |Opening| + |c|] == c
    requires d[i + |Opening| + |c|] == Quote
    requires |c| > 0 && Quote !in c
    ensures MatchAt(d, i) && Capture(d, i) == c
  {
    var j := i + |Opening|;
    var k := j + |c|;
    forall t | j <= t < k
      ensures d[t] != Quote
    {
      assert d[t] == d[j..k][t - j];
    }
    QuoteFromIs(d, j, k);
  }

  /** The match `re.search` reports is the leftmost one. */
  lemma LeftmostMatchIsCover(d: string, i: nat)
    requires MatchAt(d, i)
    requires forall j :: 0 <= j < i ==> !MatchAt(d, j)
    ensures CoverOf(d) == Some(Capture(d, i))
  {
    var m := Search(d).value;
    assert !(m < i) && !(i < m);
  }

  /** No match starts inside a prefix that has no `s`. */
  lemma NoMatchInPrefix(d: string, pre: string)
    requires pre <= d && 's' !in pre
    ensures forall j :: 0 <= j < |pre| ==> !MatchAt(d, j)
  {
    forall j | 0 <= j < |pre|
      ensures !MatchAt(d, j)
    {
      assert d[j] == pre[j];
      NoMatchWithoutS(d, j);
    }
  }

  /** When the text in front has no `s`, the cover is whatever lies between the
      first `src='` and the next quote. */
  lemma CoverOfParts(pre: string, c: string, post: string)
    requires 's' !in pre
    requires |c| > 0 && Quote !in c
    ensures CoverOf(pre + Opening + c + [Quote] + post) == Some(c)
  {
    var d := pre + Opening + c + [Quote] + post;
    var i := |pre|;
    assert pre <= d;
    assert d[i..i + |Opening|] == Opening;
    assert d[i + |Opening|..i + |Opening| + |c|] == c;
    assert d[i + |Opening| + |c|] == Quote;
    MatchOfParts(d, i, c);
    NoMatchInPrefix(d, pre);
    LeftmostMatchIsCover(d, i);
  }

  /** The example from the feed format: an `<img>` tag in the description. */
  lemma ImgTagExample(d: string)
    requires d == "<img src='http://x/a.jpg'/>"
    ensures CoverOf(d) == Some("http://x/a.jpg")
  {
    var pre, c, post := "<img ", "http://x/a.jpg", "/>";
    assert 's' !in pre;
    assert Quote !in c;
    assert pre + Opening + c + [Quote] + post == d;
    CoverOfParts(pre, c, post);
  }
}
