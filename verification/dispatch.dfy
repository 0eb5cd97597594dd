/** `main`: one invocation of the plugin, from the decoded query of its
    navigation URL to the host calls it makes. */
module Dispatch {
  import opened Wrappers
  import opened Feed
  import opened Menu

  /** The decoded query string, as `parse_qs` returns it: every key present maps
      to a non-empty list of values. */
  ghost predicate ParsedQuery(args: map<string, seq<string>>) {
    forall k :: k in args ==> |args[k]| > 0
  }

  /** What an invocation sets out to do. */
  datatype Plan =
    | ListChannels              // no `mode`: the root menu
    | ListPlaylist(feed: string) // `mode=playlist`: the items of one channel
    | Play(url: string)          // `mode=stream`: resolve a stream
    | Ignore                     // any other `mode`: nothing but the end of the listing

  /** The branch `main` takes. Reading `args['url']` in the playlist and stream
      branches raises `KeyError` when the query has no `url`. */
  function Decide(args: map<string, seq<string>>): (r: Result<Plan, Error>)
    requires ParsedQuery(args)
    ensures r == Success(ListChannels) <==> "mode" !in args
    ensures r.Failure? <==> && "mode" in args && "url" !in args
                            && (args["mode"][0] == "playlist" || args["mode"][0] == "stream")
    ensures r.Failure? ==> r.error == KeyError("url")
    ensures r.Success? && r.value.ListPlaylist? <==>
              "mode" in args && args["mode"][0] == "playlist" && "url" in args
    ensures r.Success? && r.value.ListPlaylist? ==> r.value.feed == args["url"][0]
    ensures r.Success? && r.value.Play? <==>
              "mode" in args && args["mode"][0] == "stream" && "url" in args
    ensures r.Success? && r.value.Play? ==> r.value.url == args["url"][0]
    ensures r == Success(Ignore) <==>
              "mode" in args && args["mode"][0] != "playlist" && args["mode"][0] != "stream"
  {
    if "mode" !in args then Success(ListChannels)
    else
      var mode := args["mode"][0];
      if mode == "playlist" then
        if "url" in args then Success(ListPlaylist(args["url"][0])) else Failure(KeyError("url"))
      else if mode == "stream" then
        if "url" in args then Success(Play(args["url"][0])) else Failure(KeyError("url"))
      else
        Success(Ignore)
  }

  /** `main()`: the host calls of one invocation, or the exception that aborts it
      before any call is made. `fetch` stands for downloading and parsing a feed;
      `fanart` for the add-on's fan-art path. */
  function Main(args: map<string, seq<string>>, fetch: string -> seq<Item>, fanart: string): (r: Result<seq<HostCall>, Error>)
    requires ParsedQuery(args)
    ensures r.Success? ==> |r.value| > 0 && r.value[|r.value| - 1] == EndOfDirectory
    ensures Decide(args).Failure? ==> r == Failure(Decide(args).error)
    ensures Decide(args) == Success(Ignore) ==> r == Success([EndOfDirectory])
    ensures Decide(args).Success? && Decide(args).value.Play? ==>
              r == Success([SetResolvedUrl(true, Decide(args).value.url), EndOfDirectory])
    ensures Decide(args) == Success(ListChannels) ==>
              (r.Success? <==> GetChannels(fetch).Success?)
    ensures Decide(args) == Success(ListChannels) && GetChannels(fetch).Failure? ==>
              r == Failure(GetChannels(fetch).error)
    ensures Decide(args) == Success(ListChannels) && GetChannels(fetch).Success? ==>
              && |GetChannels(fetch).value| == |fetch(ChannelIndexUrl)|
              && r == Success(BuildMenu(GetChannels(fetch).value, true, fanart) + [EndOfDirectory])
    ensures Decide(args).Success? && Decide(args).value.ListPlaylist? ==>
              (r.Success? <==> GetPlaylists(fetch, Decide(args).value.feed).Success?)
    ensures Decide(args).Success? && Decide(args).value.ListPlaylist? && GetPlaylists(fetch, Decide(args).value.feed).Failure? ==>
              r == Failure(GetPlaylists(fetch, Decide(args).value.feed).error)
    ensures Decide(args).Success? && Decide(args).value.ListPlaylist? && GetPlaylists(fetch, Decide(args).value.feed).Success? ==>
              && |GetPlaylists(fetch, Decide(args).value.feed).value| == |fetch(Decide(args).value.feed)|
              && r == Success(BuildMenu(GetPlaylists(fetch, Decide(args).value.feed).value, false, fanart) + [EndOfDirectory])
  {
    var plan :- Decide(args);
    match plan
    case ListChannels =>
      var channels :- GetChannels(fetch);
      ExtractSize(fetch(ChannelIndexUrl), Channels);
      Success(BuildMenu(channels, true, fanart) + [EndOfDirectory])
    case ListPlaylist(feed) =>
      var playlists :- GetPlaylists(fetch, feed);
      ExtractSize(fetch(feed), Playlists);
      Success(BuildMenu(playlists, false, fanart) + [EndOfDirectory])
    case Play(url) =>
      Success([SetResolvedUrl(true, url), EndOfDirectory])
    case Ignore =>
      Success([EndOfDirectory])
  }

  /** The query the host hands back when the user picks an entry: what `parse_qs`
      makes of `urlencode({'mode': …, 'url': …})`. Percent-encoding is taken to
      round-trip; `parse_qs` drops a key whose value is blank. */
  function QueryOf(t: NavTarget): (args: map<string, seq<string>>)
    ensures ParsedQuery(args)
    ensures "mode" in args && args["mode"] == [ModeName(t.mode)]
    ensures "url" in args <==> t.url != ""
    ensures "url" in args ==> args["url"] == [t.url]
  {
    if t.url == "" then map["mode" := [ModeName(t.mode)]]
    else map["mode" := [ModeName(t.mode)], "url" := [t.url]]
  }

  /** Picking a channel opens the playlist feed named by its `link`. */
  lemma ChannelOpensPlaylist(item: Item)
    requires MakeRecord(item, Channels).Success?
    requires item.link.value != ""
    ensures Decide(QueryOf(MakeRecord(item, Channels).value.target)) == Success(ListPlaylist(item.link.value))
  {
  }

  /** Picking a playlist item resolves its enclosure URL as a successful playback
      and then ends the listing. */
  lemma PlaylistItemPlays(item: Item, fetch: string -> seq<Item>, fanart: string)
    requires MakeRecord(item, Playlists).Success?
    requires item.enclosure.value.url.value != ""
    ensures Main(QueryOf(MakeRecord(item, Playlists).value.target), fetch, fanart)
            == Success([SetResolvedUrl(true, item.enclosure.value.url.value), EndOfDirectory])
  {
  }

  /** An entry whose URL is blank cannot be followed: its query loses `url`, and
      `main` raises `KeyError`. */
  lemma BlankUrlRaises(t: NavTarget, fetch: string -> seq<Item>, fanart: string)
    requires t.url == ""
    ensures Main(QueryOf(t), fetch, fanart) == Failure(KeyError("url"))
  {
  }

  /** A listing built from a successful extraction shows the items of the feed
      in document order, one entry per item, each with the item's record. */
  lemma ListingFollowsFeed(items: seq<Item>, kind: Kind, isFolder: bool, fanart: string)
    requires Extract(items, kind).Success?
    ensures var records := Extract(items, kind).value;
            && records.Keys == Indices(|records|)
            && var calls := BuildMenu(records, isFolder, fanart);
               && |calls[0].items| == |items|
               && forall i :: 0 <= i < |items| ==>
                    && MakeRecord(items[i], kind) == Success(records[i + 1])
                    && calls[0].items[i].target == records[i + 1].target
                    && calls[0].items[i].item.caption == records[i + 1].title
                    && calls[0].items[i].isFolder == isFolder
                    && calls[0].items[i].item.isPlayable == !isFolder
  {
    var records := Extract(items, kind).value;
    ExtractSize(items, kind);
    EntriesFollowRecords(records, isFolder, fanart);
  }

  /** The entries of a listing carry their records' targets and titles. */
  lemma EntriesFollowRecords(records: map<int, Record>, isFolder: bool, fanart: string)
    requires records.Keys == Indices(|records|)
    ensures var calls := BuildMenu(records, isFolder, fanart);
            forall i :: 0 <= i < |records| ==>
              && calls[0].items[i].target == records[i + 1].target
              && calls[0].items[i].item.caption == records[i + 1].title
              && calls[0].items[i].isFolder == isFolder
              && calls[0].items[i].item.isPlayable == !isFolder
  {
  }

  /** The root menu: one folder per item of the channel index, in document order,
      each leading to its channel's playlist feed; or, if the feed has no item or
      any item cannot be converted, no menu at all. */
  lemma RootMenuListsChannels(fetch: string -> seq<Item>, fanart: string)
    ensures var items := fetch(ChannelIndexUrl);
            var r := Main(map[], fetch, fanart);
            && (r.Success? <==> |items| > 0 && forall i :: 0 <= i < |items| ==> MakeRecord(items[i], Channels).Success?)
            && (r.Success? ==> && |r.value| == 3
                               && r.value[0].AddDirectoryItems?
                               && |r.value[0].items| == |items|
                               && r.value[1] == SetContent("musicvideos")
                               && r.value[2] == EndOfDirectory)
            && (r.Success? ==> forall i :: 0 <= i < |items| ==>
                  && r.value[0].items[i].target == NavTarget(Playlist, items[i].link.value)
                  && r.value[0].items[i].item.caption == items[i].title.value
                  && r.value[0].items[i].isFolder
                  && !r.value[0].items[i].item.isPlayable)
  {
    var items := fetch(ChannelIndexUrl);
    if GetChannels(fetch).Success? {
      ListingFollowsFeed(items, Channels, true, fanart);
    }
  }

  /** A channel's menu: one playable non-folder entry per item of its feed, in
      document order, each leading to the item's enclosure URL. */
  lemma PlaylistMenuListsStreams(feed: string, fetch: string -> seq<Item>, fanart: string)
    requires feed != ""
    ensures var items := fetch(feed);
            var r := Main(QueryOf(NavTarget(Playlist, feed)), fetch, fanart);
            && (r.Success? <==> |items| > 0 && forall i :: 0 <= i < |items| ==> MakeRecord(items[i], Playlists).Success?)
            && (r.Success? ==> && |r.value| == 3
                               && r.value[0].AddDirectoryItems?
                               && |r.value[0].items| == |items|
                               && r.value[1] == SetContent("musicvideos")
                               && r.value[2] == EndOfDirectory)
            && (r.Success? ==> forall i :: 0 <= i < |items| ==>
                  && r.value[0].items[i].target == NavTarget(Stream, items[i].enclosure.value.url.value)
                  && r.value[0].items[i].item.caption == items[i].title.value
                  && !r.value[0].items[i].isFolder
                  && r.value[0].items[i].item.isPlayable)
  {
    var items := fetch(feed);
    var args := QueryOf(NavTarget(Playlist, feed));
    assert Decide(args) == Success(ListPlaylist(feed));
    if GetPlaylists(fetch, feed).Success? {
      ListingFollowsFeed(items, Playlists, false, fanart);
    }
  }
}
