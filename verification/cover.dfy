/** `clean_album_cover`: undoing the doubled picture-folder prefix that the feed
    puts in front of some cover URLs. */
module Cover {
  import opened Wrappers
  import opened Text
  import Feed

  /** The folder prefix that some covers carry twice: the one literal
      `https://eco99fm.maariv.co.il/download/Sets/pictures/`, written as three
      pieces so that proofs about its individual characters stay cheap. */
  const Prefix: string := "https://" + "eco99fm.maariv.co.il" + "/download/Sets/pictures/"

  /** Category covers carry the prefix once, but wrongly. */
  const CategoriesMarker: string := "SetsCategories"

  /** `r` is `c` with the leftmost occurrence of `Prefix` cut out, and everything
      after that occurrence is kept as it was. The last conjunct is `Count`'s own
      defining step, spelled out so that callers see the remaining occurrences are
      exactly those after the cut. */
  ghost predicate StripsFirstPrefix(c: string, r: string) {
    exists i :: && FirstOccurrence(c, Prefix, i)
                && r == c[..i] + c[i + |Prefix|..]
                && Count(c[i + |Prefix|..], Prefix) == Count(c, Prefix) - 1
  }

  /** The rule is deliberately asymmetric: a doubled prefix loses its first copy;
      a single one is removed only from category covers; anything else is kept. */
  predicate Strips(c: string) {
    Count(c, Prefix) > 1 || (Count(c, Prefix) == 1 && Contains(c, CategoriesMarker))
  }

  /** `clean_album_cover(item)`: reads the record's cover and returns the cleaned
      URL; the record itself is a value and stays as it was. */
  function CleanAlbumCover(item: Feed.Record): (r: string)
    ensures !Strips(item.albumCover) ==> r == item.albumCover
    ensures Strips(item.albumCover) ==> StripsFirstPrefix(item.albumCover, r)
    ensures Strips(item.albumCover) ==> |r| == |item.albumCover| - |Prefix|
    ensures |r| <= |item.albumCover|
  {
    var c := item.albumCover;
    var n := Count(c, Prefix);
    if n > 1 then
      CountAfterFirst(c, Prefix);
      ReplaceFirst(c, Prefix, "")
    else if n == 1 && Contains(c, CategoriesMarker) then
      CountAfterFirst(c, Prefix);
      ReplaceAllOfSingle(c, Prefix, "");
      ReplaceAll(c, Prefix, "")
    else
      c
  }

  /** Cutting the prefix out joins the text on either side of it, and the join can
      spell the prefix again: a category cover `htt` + prefix + `ps://…` has one
      occurrence, and its cleaned form starts with the prefix. The cleaned URL is
      therefore not promised to be free of the prefix, only its two halves are. */
  lemma JoinCanRecreatePrefix(c: string)
    requires c == Prefix[..3] + Prefix + Prefix[3..] + CategoriesMarker + ".jpg"
    ensures Count(c, Prefix) == 1 && Contains(c, CategoriesMarker)
    ensures CleanAlbumCover(Feed.Record(c, "", "", Feed.NavTarget(Feed.Stream, ""))) == Prefix + CategoriesMarker + ".jpg"
  {
    var tail := Prefix[3..] + CategoriesMarker + ".jpg";
    WitnessCount(c, tail);
    WitnessMarker(c);
    assert Prefix[..3] + tail == Prefix + CategoriesMarker + ".jpg";
  }

  lemma WitnessCount(c: string, tail: string)
    requires tail == Prefix[3..] + CategoriesMarker + ".jpg"
    requires c == Prefix[..3] + Prefix + Prefix[3..] + CategoriesMarker + ".jpg"
    ensures IndexOf(c, Prefix) == Some(3) && c[3 + |Prefix|..] == tail
    ensures Count(c, Prefix) == 1
  {
    assert c == Prefix[..3] + Prefix + tail;
    PrefixStartsOnlyOnce(c, tail);
  }

  lemma WitnessMarker(c: string)
    requires c == Prefix[..3] + Prefix + Prefix[3..] + CategoriesMarker + ".jpg"
    ensures Contains(c, CategoriesMarker)
  {
    var k := |Prefix[..3] + Prefix + Prefix[3..]|;
    assert c[k..k + |CategoriesMarker|] == CategoriesMarker;
    assert OccursAt(c, CategoriesMarker, k);
  }

  /** The facts about the characters of the witness that the lemma above needs. */
  lemma PrefixStartsOnlyOnce(c: string, tail: string)
    requires tail == Prefix[3..] + CategoriesMarker + ".jpg"
    requires c == Prefix[..3] + Prefix + tail
    ensures FirstOccurrence(c, Prefix, 3)
    ensures !Contains(tail, Prefix)
  {
    assert 'h' !in Prefix[1..];
    assert 'h' !in CategoriesMarker + ".jpg";
    assert 'h' !in tail;
    AbsentHead(tail, Prefix);
    assert c[3..3 + |Prefix|] == Prefix;
    assert c[3] == 'h' && c[1] == 't' && c[2] == 't';
  }
}
