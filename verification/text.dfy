/** The pieces of Python's `str` that the plugin relies on: substring test (`in`),
    `str.count` and `str.replace`, all on non-overlapping, leftmost-first occurrences. */
module Text {
  import opened Wrappers

  /** `p` occurs in `s` starting at index `i`. */
  predicate OccursAt(s: string, p: string, i: int) {
    0 <= i && i + |p| <= |s| && s[i..i + |p|] == p
  }

  /** Python's `p in s`. */
  predicate Contains(s: string, p: string) {
    exists i | 0 <= i <= |s| - |p| :: OccursAt(s, p, i)
  }

  /** `i` is where the leftmost occurrence of `p` in `s` starts. */
  predicate FirstOccurrence(s: string, p: string, i: int) {
    OccursAt(s, p, i) && forall j :: 0 <= j < i ==> !OccursAt(s, p, j)
  }

  /** Index of the leftmost occurrence of `p` in `s` at or after `k`. */
  function IndexOfFrom(s: string, p: string, k: nat): (r: Option<nat>)
    ensures r.Some? ==> k <= r.value && OccursAt(s, p, r.value)
    ensures r.Some? ==> forall j :: k <= j < r.value ==> !OccursAt(s, p, j)
    ensures r.None? ==> forall j :: k <= j ==> !OccursAt(s, p, j)
    decreases |s| + 1 - k
  {
    if k + |p| > |s| then None
    else if s[k..k + |p|] == p then Some(k)
    else IndexOfFrom(s, p, k + 1)
  }

  /** The leftmost occurrence of `p`, where `count`, `replace` and `split` find
      their first match; `None` when there is none. */
  function IndexOf(s: string, p: string): (r: Option<nat>)
    ensures r.Some? <==> Contains(s, p)
    ensures r.Some? ==> FirstOccurrence(s, p, r.value)
  {
    var r := IndexOfFrom(s, p, 0);
    assert r.Some? ==> OccursAt(s, p, r.value) && 0 <= r.value <= |s| - |p|;
    r
  }

  /** Python's `s.count(p)` for a non-empty `p`: occurrences found left to right,
      each search resuming just after the previous match. */
  function Count(s: string, p: string): (n: nat)
    requires |p| > 0
    ensures n == 0 <==> !Contains(s, p)
    decreases |s|
  {
    match IndexOf(s, p)
    case None => 0
    case Some(i) => 1 + Count(s[i + |p|..], p)
  }

  /** Python's `s.replace(p, q, 1)`. */
  function ReplaceFirst(s: string, p: string, q: string): (r: string)
    ensures !Contains(s, p) ==> r == s
    ensures Contains(s, p) ==> exists i :: FirstOccurrence(s, p, i) && r == s[..i] + q + s[i + |p|..]
    ensures Contains(s, p) ==> |r| == |s| - |p| + |q|
  {
    match IndexOf(s, p)
    case None => s
    case Some(i) => s[..i] + q + s[i + |p|..]
  }

  /** Python's `s.replace(p, q)` for a non-empty `p`. */
  function ReplaceAll(s: string, p: string, q: string): (r: string)
    requires |p| > 0
    ensures !Contains(s, p) ==> r == s
    ensures Contains(s, p) ==> exists i :: FirstOccurrence(s, p, i) && i + |q| <= |r| && r[..i + |q|] == s[..i] + q
    decreases |s|
  {
    match IndexOf(s, p)
    case None => s
    case Some(i) => s[..i] + q + ReplaceAll(s[i + |p|..], p, q)
  }

  /** An occurrence in a suffix is an occurrence in the whole text, shifted. */
  lemma OccursInSuffix(s: string, p: string, d: nat, k: nat)
    requires d <= |s|
    ensures OccursAt(s[d..], p, k) <==> OccursAt(s, p, d + k)
  {
    if k + |p| <= |s| - d {
      assert s[d..][k..k + |p|] == s[d + k..d + k + |p|];
    }
  }

  /** An occurrence after the leftmost one is a later, non-overlapping occurrence. */
  lemma LaterFromSuffix(s: string, p: string, i: nat)
    requires FirstOccurrence(s, p, i) && Contains(s[i + |p|..], p)
    ensures exists j :: i + |p| <= j && OccursAt(s, p, j)
  {
    var d := i + |p|;
    var rest := s[d..];
    var k :| 0 <= k <= |rest| - |p| && OccursAt(rest, p, k);
    OccursInSuffix(s, p, d, k);
  }

  /** A non-overlapping occurrence after the leftmost one lies in what follows it. */
  lemma SuffixFromLater(s: string, p: string, i: nat, j: int)
    requires FirstOccurrence(s, p, i) && i + |p| <= j && OccursAt(s, p, j)
    ensures Contains(s[i + |p|..], p)
  {
    var d := i + |p|;
    OccursInSuffix(s, p, d, j - d);
    assert OccursAt(s[d..], p, j - d);
  }

  /** After the leftmost occurrence, another occurrence follows exactly when one
      starts at or after its end. */
  lemma OccurrenceAfterFirst(s: string, p: string, i: nat)
    requires FirstOccurrence(s, p, i)
    ensures Contains(s[i + |p|..], p) <==>
              exists i', j :: FirstOccurrence(s, p, i') && i' + |p| <= j && OccursAt(s, p, j)
  {
    if Contains(s[i + |p|..], p) {
      LaterFromSuffix(s, p, i);
    }
    if exists i', j :: FirstOccurrence(s, p, i') && i' + |p| <= j && OccursAt(s, p, j) {
      var i', j :| FirstOccurrence(s, p, i') && i' + |p| <= j && OccursAt(s, p, j);
      assert !(i' < i) && !(i < i');
      SuffixFromLater(s, p, i, j);
    }
  }

  /** `Count` is above one exactly when a second occurrence starts after the end
      of the leftmost one: occurrences overlapping the leftmost are not counted. */
  lemma CountAboveOne(s: string, p: string)
    requires |p| > 0
    ensures Count(s, p) > 1 <==> exists i, j :: FirstOccurrence(s, p, i) && i + |p| <= j && OccursAt(s, p, j)
  {
    match IndexOf(s, p)
    case None =>
    case Some(i) =>
      CountAfterFirst(s, p);
      OccurrenceAfterFirst(s, p, i);
  }

  /** `sep.join(parts)`. */
  function Join(parts: seq<string>, sep: string): string
    requires |parts| > 0
  {
    if |parts| == 1 then parts[0] else parts[0] + sep + Join(parts[1..], sep)
  }

  /** A piece `split` cuts off in front of a separator: the separator after it is
      the leftmost occurrence in `part + sep`. */
  predicate EndsAtFirst(part: string, sep: string) {
    FirstOccurrence(part + sep, sep, |part|)
  }

  /** The text in front of the leftmost occurrence is such a piece. */
  lemma HeadEndsAtFirst(s: string, p: string, i: int)
    requires FirstOccurrence(s, p, i)
    ensures EndsAtFirst(s[..i], p)
  {
    var t := s[..i] + p;
    var u := s[..i + |p|];
    assert t == u;
    assert u[i..i + |p|] == p;
    forall j | 0 <= j < i
      ensures !OccursAt(u, p, j)
    {
      assert u[j..j + |p|] == s[j..j + |p|];
      assert !OccursAt(s, p, j);
    }
  }

  /** Python's `s.split(p)` for a non-empty `p`: the pieces between the counted
      occurrences, each ending where the scan finds the next occurrence. */
  function Split(s: string, p: string): (parts: seq<string>)
    requires |p| > 0
    ensures |parts| == Count(s, p) + 1
    ensures Join(parts, p) == s
    ensures forall k :: 0 <= k < |parts| - 1 ==> EndsAtFirst(parts[k], p)
    ensures !Contains(parts[|parts| - 1], p)
    decreases |s|
  {
    match IndexOf(s, p)
    case None => [s]
    case Some(i) =>
      var rest := Split(s[i + |p|..], p);
      HeadEndsAtFirst(s, p, i);
      var parts := [s[..i]] + rest;
      assert parts[1..] == rest;
      assert s == s[..i] + p + s[i + |p|..];
      parts
  }

  /** Python's identity `s.replace(p, q) == q.join(s.split(p))`: the pieces between
      the counted occurrences are kept and every counted occurrence becomes `q`. */
  lemma {:induction false} ReplaceAllJoinsSplit(s: string, p: string, q: string)
    requires |p| > 0
    ensures ReplaceAll(s, p, q) == Join(Split(s, p), q)
    decreases |s|
  {
    match IndexOf(s, p)
    case None =>
    case Some(i) =>
      var rest := s[i + |p|..];
      ReplaceAllJoinsSplit(rest, p, q);
      var parts := Split(s, p);
      assert parts == [s[..i]] + Split(rest, p);
      assert parts[1..] == Split(rest, p);
  }

  /** The length changes by the difference of the two strings once per counted
      occurrence. */
  lemma {:induction false} ReplaceAllLength(s: string, p: string, q: string)
    requires |p| > 0
    ensures |ReplaceAll(s, p, q)| + Count(s, p) * |p| == |s| + Count(s, p) * |q|
    decreases |s|
  {
    if IndexOf(s, p).Some? {
      var i := IndexOf(s, p).value;
      var rest := s[i + |p|..];
      var m := Count(rest, p);
      assert Count(s, p) == m + 1;
      assert |ReplaceAll(s, p, q)| == i + |q| + |ReplaceAll(rest, p, q)|;
      ReplaceAllLength(rest, p, q);
      ProductStep(m, |p|);
      ProductStep(m, |q|);
    }
  }

  lemma ProductStep(m: nat, k: nat)
    ensures (1 + m) * k == k + m * k
  {
  }

  /** The defining step of `Count`, as a fact callers can use: the count of `s` is
      one more than the count of what follows the leftmost occurrence. */
  lemma CountAfterFirst(s: string, p: string)
    requires |p| > 0 && Contains(s, p)
    ensures IndexOf(s, p).Some?
    ensures Count(s[IndexOf(s, p).value + |p|..], p) == Count(s, p) - 1
  {
  }

  /** When `p` occurs exactly once, replacing all occurrences and replacing the
      first one agree. */
  lemma {:induction false} ReplaceAllOfSingle(s: string, p: string, q: string)
    requires |p| > 0 && Count(s, p) == 1
    ensures ReplaceAll(s, p, q) == ReplaceFirst(s, p, q)
  {
    var i := IndexOf(s, p).value;
    var rest := s[i + |p|..];
    assert Count(rest, p) == 0;
    assert ReplaceAll(rest, p, q) == rest;
    assert ReplaceAll(s, p, q) == s[..i] + q + rest;
  }

  /** A first character that `s` never contains rules out every occurrence. */
  lemma AbsentHead(s: string, p: string)
    requires |p| > 0 && p[0] !in s
    ensures !Contains(s, p)
  {
    forall i | 0 <= i <= |s| - |p|
      ensures !OccursAt(s, p, i)
    {
      assert s[i..i + |p|][0] == s[i];
    }
  }
}
