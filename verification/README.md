# eco99music plugin — Dafny model

A model of the logic of `plugin.audio.eco99music`, a media-center plugin that
lists the radio channels of an RSS feed, lists the streams of a chosen channel,
and hands a chosen stream to the host player. Everything between the host API
and the HTTP/XML library is pure data transformation, and that is what is
modelled:

- `Text` — the parts of Python's `str` the plugin uses: `p in s`, `s.count(p)`,
  `s.replace(p, q, 1)` and `s.replace(p, q)`, all on non-overlapping,
  leftmost-first occurrences. The leftmost-occurrence search they share is
  `Text.IndexOf`, and `Text.Split`/`Text.Join` (Python's `split` and `join`)
  give `replace` an independent description.
- `SrcPattern` — `re.search("src='([^']+)'", description).group(1)`, as a
  leftmost-match scanner returning `Option<string>`.
- `Feed` — parsed feed items (`Item`), the records built from them (`Record`,
  whose navigation target is the abstract pair `NavTarget(mode, url)`), and the
  loop shared by `get_channels` and `get_playlists` that keys records `1..N` in
  document order. Python's exceptions are `Result` failures: `KeyError` for a
  missing field, `NoCoverMatch` where `.group` is called on `None`.
- `Cover` — `clean_album_cover`, the asymmetric removal of the doubled
  `https://eco99fm.maariv.co.il/download/Sets/pictures/` prefix.
- `Menu` — `build_menu`: the directory listing and the host calls that submit it.
- `Dispatch` — `main`: the decision on the decoded `mode`, the host calls of one
  invocation, and what happens when the user follows an entry's navigation URL.

Host calls (`addDirectoryItems`, `setContent`, `setResolvedUrl`,
`endOfDirectory`) are values of `Menu.HostCall`; an invocation is the list of
calls it makes, or the exception that stops it before any call is made.
Downloading and parsing a feed is the parameter `fetch: string -> seq<Item>`,
and the fan-art path is the parameter `fanart`.

Two behaviours of the code that a reader might not expect, both stated in the
model:

- Cutting the prefix out of a cover URL joins the text on either side of it, and
  the join can spell the prefix again. `Cover.JoinCanRecreatePrefix` shows a URL
  with one prefix and `SetsCategories` that does not come out free of the
  prefix. By the same join, a URL with two prefixes need not come out with
  exactly one, although no lemma exhibits that case. What the code does
  guarantee is that the text before and after the removed copy is unchanged,
  and that is what `Cover.CleanAlbumCover` states.
- `parse_qs` drops blank values, so an entry whose URL is empty cannot be
  followed: `main` raises `KeyError('url')` (`Dispatch.BlankUrlRaises`).

## Model

| member | source | states |
|---|---|---|
| `Text.IndexOf` | addon.py:147 | the result is present exactly when the pattern occurs, and is then the leftmost occurrence |
| `Text.Count` | addon.py:144 | the count is zero exactly when the pattern does not occur |
| `Text.CountAboveOne` | addon.py:144-148 | the count is above one exactly when a second occurrence starts at or after the end of the leftmost one; occurrences overlapping the leftmost are not counted |
| `Text.Split` | addon.py:144-149 | the text is cut at exactly the counted occurrences: one more piece than the count, joining the pieces with the pattern gives the text back, each piece but the last ends where the scan finds the next occurrence, and the last piece has none |
| `Text.ReplaceFirst` | addon.py:147 | without an occurrence the text is unchanged; otherwise the leftmost occurrence, and only it, is replaced, changing the length by the difference of the two strings |
| `Text.ReplaceAll` | addon.py:149 | without an occurrence the text is unchanged; otherwise the text before the leftmost occurrence is kept and the occurrence is replaced |
| `Text.ReplaceAllJoinsSplit` | addon.py:149 | replacing all occurrences is joining the pieces of the split with the replacement: the text between counted occurrences is kept and every counted occurrence, left to right, becomes the replacement |
| `Text.ReplaceAllLength` | addon.py:149 | the length changes by the difference of the two strings once per counted occurrence |
| `Text.ReplaceAllOfSingle` | addon.py:148-149 | with exactly one occurrence, replacing all occurrences is the same as replacing the first |
| `SrcPattern.Capture` | addon.py:51 | the captured group is non-empty, quote-free, stands right after `src='` and is followed by a quote |
| `SrcPattern.Search` | addon.py:51 | a match is found exactly when one exists, and it is the leftmost |
| `SrcPattern.CoverOf` | addon.py:51 | no cover exactly when the pattern matches nowhere; otherwise the cover is the non-empty, quote-free group of the leftmost match |
| `SrcPattern.NoOpeningNoCover` | addon.py:80 | a description without `src='` has no cover |
| `SrcPattern.LeftmostMatchIsCover` | addon.py:51 | when no match starts before a match at `i`, the cover is the group captured at `i` |
| `SrcPattern.CoverOfParts` | addon.py:51 | after text with no `s`, the cover is exactly what lies between `src='` and the next quote |
| `SrcPattern.ImgTagExample` | addon.py:51 | `<img src='http://x/a.jpg'/>` yields `http://x/a.jpg` |
| `Feed.MakeRecord` | addon.py:49-58 | a record is built exactly when description, cover match, title, summary and target URL are all present; cover, title and description come from the match, `title` and `itunes:summary`; a channel leads to mode playlist with its `link`, a playlist item to mode stream with its enclosure `@url`; the error reported is the first failing step in the order of the dictionary literal: `KeyError('description')`, the failed match, `KeyError('title')`, `KeyError('itunes:summary')`, then `KeyError('link')` for a channel or `KeyError('enclosure')` / `KeyError('@url')` for a playlist item |
| `Feed.IndexAll` | addon.py:45-61 | success exactly when every item converts; keys are exactly `1..N` with key `i` holding item `i`; otherwise the error of the first failing item |
| `Feed.Extract` | addon.py:74-90 | a feed without items raises `KeyError('item')`; otherwise the same per feed item: keys `1..N` in document order, no item skipped, the first failing item's exception otherwise |
| `Feed.GetChannels` | addon.py:38-61 | the channel index URL is read; success exactly when it has items and all convert; keys `1..N` with key `i` the record of item `i`, leading to mode playlist with the item's `link`; otherwise the first failing item's exception |
| `Feed.GetPlaylists` | addon.py:64-90 | the given URL is read; success exactly when it has items and all convert; keys `1..N` with key `i` the record of item `i`, leading to mode stream with the item's enclosure URL; otherwise the first failing item's exception |
| `Feed.ExtractSize` | addon.py:45-60 | a successful extraction has as many records as the feed has items |
| `Feed.PlaylistIgnoresGuid` | addon.py:85 | a playlist record does not depend on the item's `guid` |
| `Cover.CleanAlbumCover` | addon.py:140-151 | unchanged with no prefix, or one prefix and no `SetsCategories`; otherwise exactly the leftmost prefix is cut out, the text after it keeps all other occurrences, and the result is shorter by the prefix length; never longer than the input |
| `Cover.JoinCanRecreatePrefix` | addon.py:148-149 | a category cover with one prefix can come out starting with the prefix, because the join recreates it |
| `Menu.BuildMenu` | addon.py:93-137 | one directory item per record in key order, each with the record's target and title, playable exactly when not a folder, genre `Podcast`, plot and outline from the description, thumb and poster both the cleaned cover, the given fan art; then content type `musicvideos` |
| `Dispatch.Decide` | addon.py:165-175 | no mode: channel list; mode `playlist` with a url: that playlist; mode `stream` with a url: play it; those two modes without a url: `KeyError('url')`; any other mode: nothing |
| `Dispatch.Main` | addon.py:163-176 | every completed invocation ends with end-of-directory; playing is a successful resolution of the url; an unknown mode only ends the directory; a listing succeeds exactly when its extraction does, and is then the menu built from the extracted records (folders for channels, playable entries for playlists) followed by end-of-directory, and otherwise fails with the extraction's exception |
| `Dispatch.QueryOf` | addon.py:23 | the decoded query of a navigation URL holds the mode, and holds the url exactly when it is not blank |
| `Dispatch.ChannelOpensPlaylist` | addon.py:54-57 | following a channel's entry lists the playlist feed named by its `link` |
| `Dispatch.PlaylistItemPlays` | addon.py:83-86 | following a playlist entry resolves its enclosure URL successfully and ends the directory |
| `Dispatch.BlankUrlRaises` | addon.py:171 | following an entry with a blank URL raises `KeyError('url')` |
| `Dispatch.ListingFollowsFeed` | addon.py:93-137 | a listing built from a successful extraction has one entry per feed item, in document order, each with that item's target and title, a folder exactly as asked and playable exactly when not a folder |
| `Dispatch.RootMenuListsChannels` | addon.py:167-169 | the root menu lists, in document order, one non-playable folder per channel item, titled by it and leading to its `link`, or nothing when the feed has no item or any item fails |
| `Dispatch.PlaylistMenuListsStreams` | addon.py:170-172 | a channel's menu lists, in document order, one playable non-folder entry per feed item leading to its enclosure URL, or nothing when the feed has no item or any item fails |

## Left out

- `get_rss` (addon.py:26-35): the HTTP request and the XML parsing are the
  parameter `fetch`, which yields the parsed `rss/channel/item` sequence; network
  and parse errors are not modelled.
- The `xmltodict` behaviour of returning a single `<item>` as a mapping rather than
  a list, and an empty element as `None` (which `re.search` would reject with
  `TypeError`): item fields are either strings or missing. As a result the model
  lists a feed of exactly one item, where the program iterates the mapping's
  keys and raises `TypeError` at `item['description']`.
- A feed without items: `fetch` yields the empty sequence, and the lookup of
  `rss['rss']['channel']['item']` raises `KeyError('item')`. A document missing
  `rss` or `channel` (another `KeyError`) and an empty `<channel/>` (a
  `TypeError`) are reported as that same `KeyError('item')`.
- Percent-encoding in `build_url` and `parse_qs`: navigation URLs are the abstract
  `NavTarget`, and `Dispatch.QueryOf` takes `urlencode` followed by `parse_qs` to
  give back the exact strings, except that a blank value is dropped. The route
  prefix `sys.argv[0]` is not modelled.
- Host objects and calls: `ListItem`, `setInfo`, `setArt`, `setProperty` are
  folded into `Menu.ListItem`; the calls themselves are `Menu.HostCall` values.
  The handle `ADDON_HANDLE` is not modelled.
- `os.path.join(ADDON_FOLDER, 'resources/media/fanart.jpg')` is the parameter
  `fanart`.
- `Text.Count`: Python's result for an empty pattern is not modelled; the plugin
  only counts the non-empty cover prefix.
- `Text.ReplaceAll`: Python's behaviour for an empty pattern is not modelled; the
  plugin only replaces the non-empty cover prefix.
- `Text.Split`: defined only for a non-empty separator, where Python raises
  `ValueError` for an empty one; it serves only to describe `replace`.
- `Dispatch.Decide`: requires the decoded query to be what `parse_qs` returns,
  every key holding at least one value, so `mode[0]` and `args['url'][0]` exist.
- Code that is commented out in the source (the `guid` alternative, the fan-art
  property, the `PlotOutline` property, `endOfDirectory` inside `build_menu`) is
  not modelled.
