/** The records the plugin builds from a feed: `get_channels` and `get_playlists`.
    Fetching and parsing the RSS document is outside the model; an extraction
    starts from the parsed items of `rss/channel`. */
module Feed {
  import opened Wrappers
  import SrcPattern

  /** The feed listing every channel. */
  const ChannelIndexUrl: string := "http://eco99fm.maariv.co.il/RSS_MusicChannels_Index/"

  /** The `<enclosure>` element of an item; `url` is its `@url` attribute. */
  datatype Enclosure = Enclosure(url: Option<string>)

  /** One parsed `<item>`. A field is `None` when the element is missing, where
      Python's dictionary lookup raises `KeyError`. */
  datatype Item = Item(
    title: Option<string>,
    description: Option<string>,
    summary: Option<string>,    // `itunes:summary`
    link: Option<string>,
    enclosure: Option<Enclosure>,
    guid: Option<string>)

  /** The navigation modes a record can lead to. */
  datatype Mode = Playlist | Stream

  /** The `mode` value written into a navigation URL. */
  function ModeName(m: Mode): (s: string)
    ensures s == "playlist" || s == "stream"
  {
    match m
    case Playlist => "playlist"
    case Stream => "stream"
  }

  /** The `{mode, url}` query a record's navigation URL encodes. */
  datatype NavTarget = NavTarget(mode: Mode, url: string)

  /** A channel or playlist entry: the value stored under each index. */
  datatype Record = Record(albumCover: string, title: string, description: string, target: NavTarget)

  /** The exceptions an extraction can raise: a missing key, or `.group` on the
      `None` that a failed cover search returns. */
  datatype Error = KeyError(key: string) | NoCoverMatch(description: string)

  /** Which of the two extractions runs: channels lead to playlists, playlist
      items lead to streams. */
  datatype Kind = Channels | Playlists

  function ModeOf(kind: Kind): Mode {
    match kind
    case Channels => Playlist
    case Playlists => Stream
  }

  /** `item[key]`. */
  function Lookup(v: Option<string>, key: string): (r: Result<string, Error>)
    ensures v.Some? ==> r == Success(v.value)
    ensures v.None? ==> r == Failure(KeyError(key))
  {
    match v
    case Some(s) => Success(s)
    case None => Failure(KeyError(key))
  }

  /** The URL a record navigates to: `item['link']` for a channel,
      `item['enclosure']['@url']` for a playlist item. */
  function TargetUrl(item: Item, kind: Kind): Result<string, Error> {
    match kind
    case Channels => Lookup(item.link, "link")
    case Playlists =>
      match item.enclosure
      case None => Failure(KeyError("enclosure"))
      case Some(e) => Lookup(e.url, "@url")
  }

  /** The cover art found in a description: `re.search(...).group(1)`. */
  function CoverFrom(description: string): Result<string, Error> {
    match SrcPattern.CoverOf(description)
    case None => Failure(NoCoverMatch(description))
    case Some(c) => Success(c)
  }

  /** The record for one item, evaluating the fields in the order the dictionary
      literal does, so the first failing lookup is the one reported. */
  function MakeRecord(item: Item, kind: Kind): (r: Result<Record, Error>)
    ensures r.Success? <==> && item.description.Some?
                            && SrcPattern.CoverOf(item.description.value).Some?
                            && item.title.Some? && item.summary.Some?
                            && TargetUrl(item, kind).Success?
    ensures r.Success? ==> && r.value.albumCover == SrcPattern.CoverOf(item.description.value).value
                           && r.value.title == item.title.value
                           && r.value.description == item.summary.value
    ensures r.Success? && kind == Channels ==>
              r.value.target == NavTarget(Playlist, item.link.value)
    ensures r.Success? && kind == Playlists ==>
              r.value.target == NavTarget(Stream, item.enclosure.value.url.value)
    ensures item.description.None? ==> r == Failure(KeyError("description"))
    ensures item.description.Some? && SrcPattern.CoverOf(item.description.value).None? ==>
              r == Failure(NoCoverMatch(item.description.value))
    ensures item.description.Some? && SrcPattern.CoverOf(item.description.value).Some? && item.title.None? ==>
              r == Failure(KeyError("title"))
    ensures item.description.Some? && SrcPattern.CoverOf(item.description.value).Some? && item.title.Some?
            && item.summary.None? ==>
              r == Failure(KeyError("itunes:summary"))
    ensures item.description.Some? && SrcPattern.CoverOf(item.description.value).Some? && item.title.Some?
            && item.summary.Some? && kind == Channels && item.link.None? ==>
              r == Failure(KeyError("link"))
    ensures item.description.Some? && SrcPattern.CoverOf(item.description.value).Some? && item.title.Some?
            && item.summary.Some? && kind == Playlists && item.enclosure.None? ==>
              r == Failure(KeyError("enclosure"))
    ensures item.description.Some? && SrcPattern.CoverOf(item.description.value).Some? && item.title.Some?
            && item.summary.Some? && kind == Playlists && item.enclosure.Some? && item.enclosure.value.url.None? ==>
              r == Failure(KeyError("@url"))
  {
    var description :- Lookup(item.description, "description");
    var cover :- CoverFrom(description);
    var title :- Lookup(item.title, "title");
    var summary :- Lookup(item.summary, "itunes:summary");
    var url :- TargetUrl(item, kind);
    Success(Record(cover, title, summary, NavTarget(ModeOf(kind), url)))
  }

  /** The keys `1..n`. */
  function Indices(n: nat): (s: set<int>)
    ensures forall k :: k in s <==> 1 <= k <= n
  {
    if n == 0 then {} else Indices(n - 1) + {n}
  }

  lemma {:induction false} IndicesSize(n: nat)
    ensures |Indices(n)| == n
  {
    if n > 0 {
      var smaller := Indices(n - 1);
      IndicesSize(n - 1);
      assert n !in smaller;
      assert |smaller + {n}| == |smaller| + 1;
    }
  }

  /** The loop shared by `get_channels` and `get_playlists`: the dictionary that
      maps the 1-based position of every converted item to its record, or the
      exception raised by the first item whose conversion failed. */
  function IndexAll<R, E>(results: seq<Result<R, E>>): (r: Result<map<int, R>, E>)
    ensures r.Success? <==> forall i :: 0 <= i < |results| ==> results[i].Success?
    ensures r.Success? ==> r.value.Keys == Indices(|results|)
    ensures r.Success? ==> forall i :: 0 <= i < |results| ==> results[i] == Success(r.value[i + 1])
    ensures r.Failure? ==> exists i :: && 0 <= i < |results|
                                       && results[i] == Failure(r.error)
                                       && forall j :: 0 <= j < i ==> results[j].Success?
    decreases |results|
  {
    if |results| == 0 then Success(map[])
    else
      var n := |results|;
      var front := results[..n - 1];
      assert forall i :: 0 <= i < |front| ==> front[i] == results[i];
      match IndexAll(front)
      case Failure(e) => Failure(e)
      case Success(m) =>
        match results[n - 1]
        case Failure(e) => Failure(e)
        case Success(record) => Success(m[n := record])
  }

  /** `get_channels` / `get_playlists` after the feed is parsed: the lookup of
      `rss['rss']['channel']['item']` and the loop over it. Key `i` holds the record
      of the `i`-th item in document order, and an item that cannot be converted
      aborts the whole extraction rather than being skipped. The parser never
      yields an empty list, so an empty sequence stands for a feed without an
      `<item>` element, whose lookup raises `KeyError('item')`. */
  function Extract(items: seq<Item>, kind: Kind): (r: Result<map<int, Record>, Error>)
    ensures |items| == 0 ==> r == Failure(KeyError("item"))
    ensures r.Success? <==> |items| > 0 && forall i :: 0 <= i < |items| ==> MakeRecord(items[i], kind).Success?
    ensures r.Success? ==> r.value.Keys == Indices(|items|)
    ensures r.Success? ==> forall i :: 0 <= i < |items| ==> MakeRecord(items[i], kind) == Success(r.value[i + 1])
    ensures r.Failure? && |items| > 0 ==>
              exists i :: && 0 <= i < |items|
                          && MakeRecord(items[i], kind) == Failure(r.error)
                          && forall j :: 0 <= j < i ==> MakeRecord(items[j], kind).Success?
  {
    if |items| == 0 then Failure(KeyError("item"))
    else IndexAll(ConvertAll(items, kind))
  }

  /** Every item converted on its own, in document order. */
  function ConvertAll(items: seq<Item>, kind: Kind): (rs: seq<Result<Record, Error>>)
    ensures |rs| == |items|
    ensures forall i :: 0 <= i < |items| ==> rs[i] == MakeRecord(items[i], kind)
  {
    if |items| == 0 then [] else [MakeRecord(items[0], kind)] + ConvertAll(items[1..], kind)
  }

  /** `get_channels()`: the channel index feed at its fixed URL, one record per
      channel, each leading to the channel's own feed given by its `link`. */
  function GetChannels(fetch: string -> seq<Item>): (r: Result<map<int, Record>, Error>)
    ensures var items := fetch(ChannelIndexUrl);
            && (r.Success? <==> |items| > 0 && forall i :: 0 <= i < |items| ==> MakeRecord(items[i], Channels).Success?)
            && (|items| == 0 ==> r == Failure(KeyError("item")))
            && (r.Success? ==> r.value.Keys == Indices(|items|))
            && (r.Success? ==> forall i :: 0 <= i < |items| ==>
                  && MakeRecord(items[i], Channels) == Success(r.value[i + 1])
                  && r.value[i + 1].target == NavTarget(Playlist, items[i].link.value))
            && (r.Failure? && |items| > 0 ==>
                  exists i :: && 0 <= i < |items|
                              && MakeRecord(items[i], Channels) == Failure(r.error)
                              && forall j :: 0 <= j < i ==> MakeRecord(items[j], Channels).Success?)
  {
    Extract(fetch(ChannelIndexUrl), Channels)
  }

  /** `get_playlists(url)`: the feed at `url`, one record per item, each leading
      to the stream given by its enclosure URL. */
  function GetPlaylists(fetch: string -> seq<Item>, url: string): (r: Result<map<int, Record>, Error>)
    ensures var items := fetch(url);
            && (r.Success? <==> |items| > 0 && forall i :: 0 <= i < |items| ==> MakeRecord(items[i], Playlists).Success?)
            && (|items| == 0 ==> r == Failure(KeyError("item")))
            && (r.Success? ==> r.value.Keys == Indices(|items|))
            && (r.Success? ==> forall i :: 0 <= i < |items| ==>
                  && MakeRecord(items[i], Playlists) == Success(r.value[i + 1])
                  && r.value[i + 1].target == NavTarget(Stream, items[i].enclosure.value.url.value))
            && (r.Failure? && |items| > 0 ==>
                  exists i :: && 0 <= i < |items|
                              && MakeRecord(items[i], Playlists) == Failure(r.error)
                              && forall j :: 0 <= j < i ==> MakeRecord(items[j], Playlists).Success?)
  {
    Extract(fetch(url), Playlists)
  }

  /** A successful extraction holds exactly one record per item. */
  lemma ExtractSize(items: seq<Item>, kind: Kind)
    requires Extract(items, kind).Success?
    ensures |Extract(items, kind).value| == |items|
  {
    IndicesSize(|items|);
  }

  /** A playlist item's stream is its enclosure URL; its `guid` plays no part. */
  lemma PlaylistIgnoresGuid(item: Item, guid: Option<string>)
    ensures MakeRecord(item, Playlists) == MakeRecord(item.(guid := guid), Playlists)
  {
    var other := item.(guid := guid);
    assert other == Item(item.title, item.description, item.summary, item.link, item.enclosure, guid);
  }
}
