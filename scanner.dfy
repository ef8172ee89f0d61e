/**
 * The whole channel scan: the public listing (optional), the playlist
 * listing, the playlist scan, and, when the public listing was fetched,
 * the reconciliation and the optional enrichment of the flagged records.
 */
module Scanner {
  import opened Wrappers
  import opened Dates
  import opened Records
  import opened Fetchers
  import opened Aggregator
  import opened Reconcile

  /** The result dict of `scan_channel`. */
  datatype ScanResult = ScanResult(
    channelUrl: string,
    scanDate: string,
    publicVideos: seq<Entry>,
    playlistVideos: seq<Video>,
    playlists: seq<Playlist>,
    potentiallyUnlisted: seq<Video>)

  /** `{v['id'] for v in public_videos}`. */
  function PublicIds(videos: seq<Entry>): (ids: set<string>)
    ensures forall k :: 0 <= k < |videos| ==> videos[k].id in ids
    ensures forall id :: id in ids ==> exists k :: 0 <= k < |videos| && videos[k].id == id
  {
    set k | 0 <= k < |videos| :: videos[k].id
  }

  /** What the extractor lists on the channel's videos tab. */
  function PublicListing(respond: seq<string> -> string, channelUrl: string, rt: Runtime): seq<Entry> {
    EntriesOf(Lines(respond(ChannelVideosArgs(channelUrl))), false, rt)
  }

  /** What the extractor lists on the channel's playlists tab. */
  function PlaylistListing(respond: seq<string> -> string, channelUrl: string): seq<Playlist> {
    PlaylistsOf(Lines(respond(ChannelPlaylistsArgs(channelUrl))))
  }

  /**
   * Where a kept playlist record ends: stored with its playlist, then,
   * when flagged, given the reason and, when details were asked for,
   * enriched.
   */
  function Outcome(f: Found, flagged: bool, detailed: bool, respond: seq<string> -> string, rt: Runtime)
    : (s: VideoState)
    ensures s.entry.id == f.entry.id && s.entry.title == f.entry.title && s.entry.url == f.entry.url
    ensures s.foundInPlaylist == Some(f.playlist)
    ensures s.reason == if flagged then Some(UnlistedReason) else None
    ensures !flagged || !detailed ==> s.entry == f.entry
  {
    var marked := Marked(Stored(f), !flagged);
    if flagged && detailed then Enriched(marked, respond, rt) else marked
  }

  /** The extractor invocations of a scan, in order. */
  function ScanQueries(channelUrl: string, includePublic: bool, playlists: seq<Playlist>, detailIds: seq<string>)
    : (queries: seq<seq<string>>)
    ensures |queries| == (if includePublic then 1 else 0) + 1 + |playlists| + |DetailQueries(detailIds)|
    ensures queries[0] == if includePublic then ChannelVideosArgs(channelUrl) else ChannelPlaylistsArgs(channelUrl)
  {
    (if includePublic then [ChannelVideosArgs(channelUrl)] else [])
      + [ChannelPlaylistsArgs(channelUrl)] + PlaylistQueries(playlists) + DetailQueries(detailIds)
  }

  /**
   * A scan that reconciles nothing, or is not asked for details, never
   * invokes the per-video query: every invocation lists a tab or a playlist.
   */
  lemma NoDetailsQueried(channelUrl: string, includePublic: bool, playlists: seq<Playlist>)
    ensures forall k :: 0 <= k < |ScanQueries(channelUrl, includePublic, playlists, [])| ==>
      ScanQueries(channelUrl, includePublic, playlists, [])[k][0] == "--flat-playlist"
    ensures forall id :: VideoDetailsArgs(id) !in ScanQueries(channelUrl, includePublic, playlists, [])
  {
    var head := (if includePublic then [ChannelVideosArgs(channelUrl)] else []) + [ChannelPlaylistsArgs(channelUrl)];
    var queries := ScanQueries(channelUrl, includePublic, playlists, []);
    assert queries == head + PlaylistQueries(playlists);
    forall k | 0 <= k < |queries|
      ensures queries[k][0] == "--flat-playlist"
    {
      if k >= |head| {
        assert queries[k] == PlaylistVideosArgs(playlists[k - |head|].url);
      }
    }
  }

  /**
   * Step 4 of `scan_channel` once the public listing is known: flag the
   * records whose id it does not hold and, if asked to and anything was
   * flagged, enrich them.
   */
  method Reconciliation(tool: Extractor, keys: seq<string>, table: map<string, Video>, publicIds: set<string>,
                        detailed: bool, rt: Runtime, ghost kept: seq<Found>)
    returns (unlisted: seq<Video>)
    requires Holds(keys, table, kept) && Injective(table) && Distinct(keys)
    modifies tool, table.Values
    ensures unlisted == Select(Values(keys, table), keys, publicIds)
    ensures tool.log == old(tool.log) + DetailQueries(if detailed then Select(keys, keys, publicIds) else [])
    ensures forall k :: 0 <= k < |keys| ==>
      Values(keys, table)[k].State() == Outcome(kept[k], keys[k] !in publicIds, detailed, tool.respond, rt)
  {
    unlisted := FlagUnlisted(keys, table, publicIds, kept);
    if detailed && unlisted != [] {
      EnrichUnlisted(tool, keys, table, publicIds, rt, kept, unlisted);
    } else if detailed {
      forall k | 0 <= k < |keys|
        ensures table[keys[k]].State() == Outcome(kept[k], false, true, tool.respond, rt)
      {
        assert table[keys[k]] !in unlisted;
      }
      assert Select(keys, keys, publicIds) == IdsOf(unlisted) == [];
    } else {
      forall k | 0 <= k < |keys|
        ensures table[keys[k]].State() == Outcome(kept[k], keys[k] !in publicIds, false, tool.respond, rt)
      {
      }
    }
  }

  /**
   * The flagging half of step 4: the records whose id the public listing
   * lacks, in table order, each given the reason; the others untouched.
   */
  method FlagUnlisted(keys: seq<string>, table: map<string, Video>, publicIds: set<string>, ghost kept: seq<Found>)
    returns (unlisted: seq<Video>)
    requires Holds(keys, table, kept) && Injective(table) && Distinct(keys)
    modifies table.Values
    ensures |kept| == |keys| && (forall k :: 0 <= k < |keys| ==> keys[k] in table)
    ensures unlisted == Select(Values(keys, table), keys, publicIds)
    ensures IdsOf(unlisted) == Select(keys, keys, publicIds)
    ensures forall k :: 0 <= k < |keys| ==> (table[keys[k]] in unlisted <==> keys[k] !in publicIds)
    ensures forall k :: 0 <= k < |keys| ==>
      table[keys[k]].State() == Marked(Stored(kept[k]), keys[k] in publicIds)
  {
    ghost var items := Values(keys, table);
    assert forall k :: 0 <= k < |keys| ==> items[k].State() == Stored(kept[k]);
    unlisted := IdentifyUnlisted(keys, table, publicIds);
    assert forall k :: 0 <= k < |keys| ==> items[k].id == keys[k];
    SelectIdsOf(items, keys, publicIds);
    FlaggedExactlyUnlisted(keys, table, publicIds);
  }

  /**
   * The enrichment branch of step 4: every flagged record of the table,
   * already given the reason, is enriched; the others keep their state.
   */
  method EnrichUnlisted(tool: Extractor, keys: seq<string>, table: map<string, Video>, publicIds: set<string>,
                        rt: Runtime, ghost kept: seq<Found>, unlisted: seq<Video>)
    requires |kept| == |keys| && (forall k :: 0 <= k < |keys| ==> keys[k] in table)
    requires Distinct(keys) && Injective(table) && unlisted == Select(Values(keys, table), keys, publicIds)
    requires forall k :: 0 <= k < |keys| ==> (table[keys[k]] in unlisted <==> keys[k] !in publicIds)
    requires forall k :: 0 <= k < |keys| ==>
      table[keys[k]].State() == Marked(Stored(kept[k]), keys[k] in publicIds)
    modifies tool, table.Values
    ensures tool.log == old(tool.log) + DetailQueries(old(IdsOf(unlisted)))
    ensures forall k :: 0 <= k < |keys| ==>
      Values(keys, table)[k].State() == Outcome(kept[k], keys[k] !in publicIds, true, tool.respond, rt)
  {
    ghost var items := Values(keys, table);
    ghost var marks := States(items);
    ValuesDistinct(keys, table);
    SelectDistinct(items, keys, publicIds);
    assert forall v :: v in unlisted ==> v in table.Values;
    EnrichFlagged(tool, items, unlisted, rt, marks);
    forall k | 0 <= k < |keys|
      ensures items[k].State() == Outcome(kept[k], keys[k] !in publicIds, true, tool.respond, rt)
    {
      assert items[k] == table[keys[k]];
    }
  }

  /**
   * The enrichment branch of step 4 over the records of the table: the
   * flagged ones are enriched, the others stay as they are.
   */
  method EnrichFlagged(tool: Extractor, ghost items: seq<Video>, unlisted: seq<Video>, rt: Runtime,
                       ghost marks: seq<VideoState>)
    requires |marks| == |items| && forall k :: 0 <= k < |items| ==> items[k].State() == marks[k]
    requires Distinct(unlisted) && forall v :: v in unlisted ==> v in items
    modifies tool, unlisted
    ensures tool.log == old(tool.log) + DetailQueries(old(IdsOf(unlisted)))
    ensures forall k :: 0 <= k < |items| ==>
      items[k].State() == if items[k] in unlisted then Enriched(marks[k], tool.respond, rt) else marks[k]
  {
    ghost var before := States(unlisted);
    FetchDetailedMetadata(tool, unlisted, rt);
    forall k | 0 <= k < |items| && items[k] in unlisted
      ensures items[k].State() == Enriched(marks[k], tool.respond, rt)
    {
      var j :| 0 <= j < |unlisted| && unlisted[j] == items[k];
      assert before[j] == marks[k];
    }
  }

  /**
   * Step 4 of `scan_channel` over the scanned table: its records in key
   * order, and, when the public listing was fetched, the reconciliation.
   */
  method Settle(tool: Extractor, keys: seq<string>, table: map<string, Video>, publicIds: set<string>,
                includePublic: bool, detailed: bool, rt: Runtime, ghost kept: seq<Found>)
    returns (videos: seq<Video>, unlisted: seq<Video>)
    requires Holds(keys, table, kept) && Injective(table) && Distinct(Ids(kept))
    modifies tool, table.Values
    ensures |videos| == |kept| && Distinct(videos)
    ensures forall v :: v in videos ==> v in table.Values
    ensures forall k :: 0 <= k < |kept| ==>
      videos[k].State() == Outcome(kept[k], includePublic && kept[k].entry.id !in publicIds, detailed, tool.respond, rt)
    ensures unlisted == if includePublic then Select(videos, Ids(kept), publicIds) else []
    ensures tool.log == old(tool.log)
      + DetailQueries(if includePublic && detailed then Select(Ids(kept), Ids(kept), publicIds) else [])
  {
    assert keys == Ids(kept);
    videos := Values(keys, table);
    ValuesDistinct(keys, table);
    if includePublic {
      unlisted := Reconciliation(tool, keys, table, publicIds, detailed, rt, kept);
    } else {
      unlisted := [];
      assert forall k :: 0 <= k < |keys| ==> videos[k].State() == Stored(kept[k]);
    }
  }

  /**
   * `scan_channel(channel_url, include_public, detailed)`. The scan date
   * is a parameter.
   */
  method ScanChannel(tool: Extractor, channelUrl: string, includePublic: bool, detailed: bool,
                     scanDate: string, rt: Runtime)
    returns (r: ScanResult)
    modifies tool
    ensures r.channelUrl == channelUrl && r.scanDate == scanDate
    ensures r.publicVideos == if includePublic then PublicListing(tool.respond, channelUrl, rt) else []
    ensures r.playlists == PlaylistListing(tool.respond, channelUrl)
    ensures var kept := Dedup(Stream(r.playlists, tool.respond, rt));
      var publicIds := PublicIds(r.publicVideos);
      && |r.playlistVideos| == |kept| && Distinct(r.playlistVideos)
      && (forall k :: 0 <= k < |kept| ==>
            r.playlistVideos[k].State()
              == Outcome(kept[k], includePublic && kept[k].entry.id !in publicIds, detailed, tool.respond, rt))
      && r.potentiallyUnlisted
           == (if includePublic then Select(r.playlistVideos, Ids(kept), publicIds) else [])
      && tool.log == old(tool.log) + ScanQueries(channelUrl, includePublic, r.playlists,
           if includePublic && detailed then Select(Ids(kept), Ids(kept), publicIds) else [])
    ensures forall v :: v in r.playlistVideos ==> fresh(v)
  {
    var publicVideos: seq<Entry> := [];
    var publicIds: set<string> := {};
    ghost var first: seq<seq<string>> := [];
    if includePublic {
      publicVideos := GetChannelVideos(tool, channelUrl, rt);
      publicIds := PublicIds(publicVideos);
      first := [ChannelVideosArgs(channelUrl)];
    }
    assert tool.log == old(tool.log) + first;
    var playlists := GetChannelPlaylists(tool, channelUrl);
    var keys, table := ScanAllPlaylists(tool, playlists, rt);
    ghost var kept := Dedup(Stream(playlists, tool.respond, rt));
    var playlistVideos, unlisted := Settle(tool, keys, table, publicIds, includePublic, detailed, rt, kept);
    ghost var start, listings := old(tool.log), [ChannelPlaylistsArgs(channelUrl)] + PlaylistQueries(playlists);
    AppendAssoc(start, first, [ChannelPlaylistsArgs(channelUrl)]);
    AppendAssoc(start, first + [ChannelPlaylistsArgs(channelUrl)], PlaylistQueries(playlists));
    AppendAssoc(first, [ChannelPlaylistsArgs(channelUrl)], PlaylistQueries(playlists));
    AppendAssoc(start, first + listings,
      DetailQueries(if includePublic && detailed then Select(Ids(kept), Ids(kept), publicIds) else []));
    r := ScanResult(channelUrl, scanDate, publicVideos, playlistVideos, playlists, unlisted);
  }
}
