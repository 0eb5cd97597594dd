/** `build_menu`: the directory listing handed to the host for a set of records.
    The host's list-item objects are modelled as plain values and its API calls
    as the `HostCall`s the plugin makes, in order. */
module Menu {
  import opened Feed
  import Cover

  /** The `infoLabels` passed to `setInfo`. */
  datatype InfoLabels = InfoLabels(title: string, genre: string, plot: string, plotOutline: string, mediaType: string)

  /** The artwork passed to `setArt`. */
  datatype Art = Art(thumb: string, poster: string, fanart: string)

  /** A host list item with everything the plugin sets on it; `caption` is the
      `label` it is constructed with. */
  datatype ListItem = ListItem(caption: string, isPlayable: bool, infoType: string, info: InfoLabels, art: Art)

  /** One `(url, list item, is_folder)` tuple of a directory listing; `target` is
      what the navigation URL encodes. */
  datatype DirectoryItem = DirectoryItem(target: NavTarget, item: ListItem, isFolder: bool)

  /** The calls the plugin makes into the host. */
  datatype HostCall =
    | AddDirectoryItems(items: seq<DirectoryItem>)
    | SetContent(content: string)
    | SetResolvedUrl(succeeded: bool, path: string)
    | EndOfDirectory

  /** `d` shows `record` the way every entry of a listing does: labelled and
      described by the record, playable exactly when it is not a folder, with
      `cover` as both thumbnail and poster and the add-on's own fan art. */
  predicate Shows(d: DirectoryItem, record: Record, cover: string, isFolder: bool, fanart: string) {
    && d.target == record.target
    && d.isFolder == isFolder
    && d.item.caption == record.title
    && d.item.isPlayable == !isFolder
    && d.item.infoType == "video"
    && d.item.info == InfoLabels(record.title, "Podcast", record.description, record.description, "musicvideo")
    && d.item.art == Art(cover, cover, fanart)
  }

  /** The body of the loop in `build_menu` for one record, given its cleaned
      cover; `fanart` is the path of `resources/media/fanart.jpg` inside the
      add-on folder. `Shows` is its specification: the entry is the one value
      that shows the record this way. */
  function Entry(record: Record, cover: string, isFolder: bool, fanart: string): (d: DirectoryItem)
    ensures Shows(d, record, cover, isFolder, fanart)
  {
    var info := InfoLabels(record.title, "Podcast", record.description, record.description, "musicvideo");
    DirectoryItem(record.target, ListItem(record.title, !isFolder, "video", info, Art(cover, cover, fanart)), isFolder)
  }

  /** The records under keys `1..n`, in key order: the order in which the
      extraction inserted them and in which a dictionary is iterated. */
  function InKeyOrder(records: map<int, Record>, n: nat): (rs: seq<Record>)
    requires forall k :: 1 <= k <= n ==> k in records
    ensures |rs| == n
    ensures forall i :: 0 <= i < n ==> rs[i] == records[i + 1]
  {
    if n == 0 then [] else InKeyOrder(records, n - 1) + [records[n]]
  }

  /** One entry per record, each with its cover cleaned by `clean`. `BuildMenu`
      always passes `Cover.CleanAlbumCover`; taking it as a parameter keeps the
      cleaning rule out of the proof of this loop. */
  function Entries(rs: seq<Record>, isFolder: bool, fanart: string, clean: Record -> string): (ds: seq<DirectoryItem>)
    ensures |ds| == |rs|
    ensures forall i :: 0 <= i < |rs| ==> ds[i] == Entry(rs[i], clean(rs[i]), isFolder, fanart)
  {
    if |rs| == 0 then []
    else [Entry(rs[0], clean(rs[0]), isFolder, fanart)] + Entries(rs[1..], isFolder, fanart, clean)
  }

  /** `build_menu(items, is_folder)`: one entry per record, in the order of the
      keys `1..N` in which the extraction inserted them, each showing the record
      with its cleaned cover, submitted in one batch and followed by the content
      type. */
  function BuildMenu(records: map<int, Record>, isFolder: bool, fanart: string): (calls: seq<HostCall>)
    requires records.Keys == Indices(|records|)
    ensures |calls| == 2 && calls[0].AddDirectoryItems? && calls[1] == SetContent("musicvideos")
    ensures |calls[0].items| == |records|
    ensures forall i :: 0 <= i < |records| ==>
              Shows(calls[0].items[i], records[i + 1], Cover.CleanAlbumCover(records[i + 1]), isFolder, fanart)
  {
    var rs := InKeyOrder(records, |records|);
    var ds := Entries(rs, isFolder, fanart, Cover.CleanAlbumCover);
    [AddDirectoryItems(ds), SetContent("musicvideos")]
  }
}
