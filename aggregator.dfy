/**
 * The playlist scan: every playlist is listed in turn, and each video id
 * met for the first time becomes one shared record, tagged with the title
 * of the playlist it was first seen in. Later sightings of the same id and
 * records without an id are dropped.
 */
module Aggregator {
  import opened Wrappers
  import opened Dates
  import opened Records
  import opened Fetchers

  /** A playlist video together with the title of the playlist listing it. */
  datatype Found = Found(entry: Entry, playlist: string)

  function Ids(fs: seq<Found>): seq<string> {
    seq(|fs|, k requires 0 <= k < |fs| => fs[k].entry.id)
  }

  /** `video['found_in_playlist'] = title` over one playlist's listing. */
  function Tagged(entries: seq<Entry>, title: string): seq<Found> {
    seq(|entries|, k requires 0 <= k < |entries| => Found(entries[k], title))
  }

  /** One tagged record per listed video: the video at the same position, carrying the playlist title. */
  lemma TaggedRecords(entries: seq<Entry>, title: string)
    ensures |Tagged(entries, title)| == |entries|
    ensures forall k :: 0 <= k < |entries| ==> Tagged(entries, title)[k] == Found(entries[k], title)
  {
  }

  lemma TaggedStep(entries: seq<Entry>, j: nat, title: string)
    requires j < |entries|
    ensures Tagged(entries[..j + 1], title) == Tagged(entries[..j], title) + [Found(entries[j], title)]
  {
  }

  /** What the extractor lists for one playlist. */
  function PlaylistEntries(respond: seq<string> -> string, p: Playlist, rt: Runtime): seq<Entry> {
    EntriesOf(Lines(respond(PlaylistVideosArgs(p.url))), true, rt)
  }

  /** Every playlist video, playlist after playlist, each in listing order. */
  function Stream(playlists: seq<Playlist>, respond: seq<string> -> string, rt: Runtime): seq<Found>
    decreases |playlists|
  {
    if playlists == [] then []
    else
      var p := playlists[|playlists| - 1];
      Stream(playlists[..|playlists| - 1], respond, rt) + Tagged(PlaylistEntries(respond, p, rt), p.title)
  }

  /** The extractor invocations of the scan: one listing per playlist, in order. */
  function PlaylistQueries(playlists: seq<Playlist>): (queries: seq<seq<string>>)
    ensures |queries| == |playlists|
    ensures forall k :: 0 <= k < |playlists| ==> queries[k] == PlaylistVideosArgs(playlists[k].url)
    decreases |playlists|
  {
    if playlists == [] then []
    else PlaylistQueries(playlists[..|playlists| - 1]) + [PlaylistVideosArgs(playlists[|playlists| - 1].url)]
  }

  /**
   * The records the scan keeps, in insertion order: a video is kept when its
   * id is non-empty and no kept record has that id yet.
   */
  function Dedup(s: seq<Found>): (d: seq<Found>)
    ensures Distinct(Ids(d))
    ensures forall k :: 0 <= k < |d| ==> d[k] in s && d[k].entry.id != ""
    ensures forall x :: x in s && x.entry.id != "" ==> x.entry.id in Ids(d)
    decreases |s|
  {
    if s == [] then []
    else
      var init, x := s[..|s| - 1], s[|s| - 1];
      var d := Dedup(init);
      if x.entry.id != "" && x.entry.id !in Ids(d) then
        assert Ids(d + [x]) == Ids(d) + [x.entry.id];
        d + [x]
      else d
  }

  lemma DedupStep(s: seq<Found>, x: Found)
    ensures Dedup(s + [x])
      == if x.entry.id != "" && x.entry.id !in Ids(Dedup(s)) then Dedup(s) + [x] else Dedup(s)
  {
    assert (s + [x])[..|s|] == s;
  }

  /** Position of the first element of `s` with id `id`, or `|s|` when there is none. */
  function IndexOfId(s: seq<Found>, id: string): (i: nat)
    ensures i <= |s|
    ensures i < |s| ==> s[i].entry.id == id
    ensures forall j :: 0 <= j < i ==> s[j].entry.id != id
    decreases |s|
  {
    if s == [] then 0
    else if s[0].entry.id == id then 0
    else 1 + IndexOfId(s[1..], id)
  }

  lemma {:induction false} IndexOfIdAppend(s: seq<Found>, x: Found, id: string)
    ensures IndexOfId(s + [x], id)
      == if IndexOfId(s, id) < |s| then IndexOfId(s, id) else if x.entry.id == id then |s| else |s| + 1
  {
    assert forall j :: 0 <= j < |s| ==> (s + [x])[j] == s[j];
    assert (s + [x])[|s|] == x;
  }

  /** Each element of `d` is the first element of `s` with its id. */
  ghost predicate FirstSightings(s: seq<Found>, d: seq<Found>) {
    forall k :: 0 <= k < |d| ==> IndexOfId(s, d[k].entry.id) < |s| && s[IndexOfId(s, d[k].entry.id)] == d[k]
  }

  /** The ids of `d` first occur in `s` in the order of `d`. */
  ghost predicate InDiscoveryOrder(s: seq<Found>, d: seq<Found>) {
    forall k1, k2 :: 0 <= k1 < k2 < |d| ==> IndexOfId(s, d[k1].entry.id) < IndexOfId(s, d[k2].entry.id)
  }

  /**
   * First discovery wins: each kept record is the first element of the
   * stream with its id, and the records are ordered by where their ids
   * first occur.
   */
  lemma {:induction false} DedupKeepsFirstSightings(s: seq<Found>)
    ensures FirstSightings(s, Dedup(s)) && InDiscoveryOrder(s, Dedup(s))
    decreases |s|
  {
    if s != [] {
      var init, x := s[..|s| - 1], s[|s| - 1];
      assert s == init + [x];
      DedupKeepsFirstSightings(init);
      DedupStep(init, x);
      FirstSightingsAppend(init, x, Dedup(init));
    }
  }

  lemma FirstSightingsAppend(init: seq<Found>, x: Found, d0: seq<Found>)
    requires d0 == Dedup(init)
    requires FirstSightings(init, d0) && InDiscoveryOrder(init, d0)
    ensures var d := if x.entry.id != "" && x.entry.id !in Ids(d0) then d0 + [x] else d0;
      FirstSightings(init + [x], d) && InDiscoveryOrder(init + [x], d)
  {
    SightingsSurviveAppend(init, x, d0);
    if x.entry.id != "" && x.entry.id !in Ids(d0) {
      forall j | 0 <= j < |init|
        ensures init[j].entry.id != x.entry.id
      {
        assert init[j] in init;
      }
      NewIdSightedLast(init, x, d0);
    }
  }

  /** Appending to the stream moves no first sighting of an id kept so far. */
  lemma SightingsSurviveAppend(init: seq<Found>, x: Found, d0: seq<Found>)
    requires FirstSightings(init, d0) && InDiscoveryOrder(init, d0)
    ensures forall k :: 0 <= k < |d0| ==> IndexOfId(init + [x], d0[k].entry.id) == IndexOfId(init, d0[k].entry.id)
    ensures FirstSightings(init + [x], d0) && InDiscoveryOrder(init + [x], d0)
  {
    var s := init + [x];
    forall k | 0 <= k < |d0|
      ensures IndexOfId(s, d0[k].entry.id) == IndexOfId(init, d0[k].entry.id)
    {
      IndexOfIdAppend(init, x, d0[k].entry.id);
    }
    assert forall j :: 0 <= j < |init| ==> s[j] == init[j];
  }

  /** A new id is first sighted at the end, after every id kept so far. */
  lemma NewIdSightedLast(init: seq<Found>, x: Found, d0: seq<Found>)
    requires forall j :: 0 <= j < |init| ==> init[j].entry.id != x.entry.id
    requires FirstSightings(init + [x], d0) && InDiscoveryOrder(init + [x], d0)
    requires forall k :: 0 <= k < |d0| ==> IndexOfId(init + [x], d0[k].entry.id) < |init|
    ensures FirstSightings(init + [x], d0 + [x]) && InDiscoveryOrder(init + [x], d0 + [x])
  {
    IndexOfIdAppend(init, x, x.entry.id);
    assert (init + [x])[|init|] == x;
    NewIdSighted(init + [x], d0, x);
    NewIdOrdered(init + [x], d0, x, |init|);
  }

  lemma NewIdSighted(s: seq<Found>, d0: seq<Found>, x: Found)
    requires FirstSightings(s, d0)
    requires IndexOfId(s, x.entry.id) < |s| && s[IndexOfId(s, x.entry.id)] == x
    ensures FirstSightings(s, d0 + [x])
  {
    var d := d0 + [x];
    assert forall k :: 0 <= k < |d0| ==> d[k] == d0[k];
  }

  lemma NewIdOrdered(s: seq<Found>, d0: seq<Found>, x: Found, n: nat)
    requires InDiscoveryOrder(s, d0)
    requires forall k :: 0 <= k < |d0| ==> IndexOfId(s, d0[k].entry.id) < n
    requires IndexOfId(s, x.entry.id) == n
    ensures InDiscoveryOrder(s, d0 + [x])
  {
    var d := d0 + [x];
    assert forall k :: 0 <= k < |d0| ==> d[k] == d0[k];
  }

  /** Deduplicating twice changes nothing. */
  lemma {:induction false} DedupIdempotent(s: seq<Found>)
    ensures Dedup(Dedup(s)) == Dedup(s)
  {
    DedupOfDistinct(Dedup(s));
  }

  lemma {:induction false} DedupOfDistinct(s: seq<Found>)
    requires Distinct(Ids(s))
    requires forall k :: 0 <= k < |s| ==> s[k].entry.id != ""
    ensures Dedup(s) == s
    decreases |s|
  {
    if s != [] {
      var init, x := s[..|s| - 1], s[|s| - 1];
      assert s == init + [x];
      assert Ids(init) == Ids(s)[..|s| - 1];
      DedupOfDistinct(init);
      DedupStep(init, x);
      assert x.entry.id !in Ids(init) by {
        forall k | 0 <= k < |init|
          ensures Ids(init)[k] != x.entry.id
        {
          assert Ids(s)[k] != Ids(s)[|s| - 1];
        }
      }
    }
  }

  /** The record stored for a kept video: its entry and the playlist it was first found in. */
  function Stored(f: Found): VideoState {
    VideoState(f.entry, Some(f.playlist), None)
  }

  /**
   * The dict `all_playlist_videos`, as its key order and its key-to-record
   * table, holds exactly the kept records `d`, in order.
   */
  ghost predicate Holds(keys: seq<string>, table: map<string, Video>, d: seq<Found>)
    reads table.Values
  {
    && keys == Ids(d)
    && (forall id :: id in table <==> id in keys)
    && (forall k :: 0 <= k < |d| ==> table[keys[k]].State() == Stored(d[k]))
  }

  /** Different keys name different record objects. */
  predicate Injective(table: map<string, Video>) {
    forall a, b :: a in table && b in table && a != b ==> table[a] != table[b]
  }

  /**
   * The inner loop of `_scan_all_playlists` over one playlist's listing:
   * tag each video, and store it when its id is new and non-empty.
   */
  method Merge(keys: seq<string>, table: map<string, Video>, batch: seq<Entry>, title: string,
               ghost before: seq<Found>)
    returns (keys': seq<string>, table': map<string, Video>)
    requires Holds(keys, table, Dedup(before)) && Injective(table)
    ensures Holds(keys', table', Dedup(before + Tagged(batch, title))) && Injective(table')
    ensures forall v :: v in table'.Values ==> v in table.Values || fresh(v)
  {
    keys', table' := keys, table;
    var j := 0;
    assert before + Tagged(batch[..0], title) == before;
    while j < |batch|
      invariant 0 <= j <= |batch|
      invariant Holds(keys', table', Dedup(before + Tagged(batch[..j], title))) && Injective(table')
      invariant forall v :: v in table'.Values ==> v in table.Values || fresh(v)
    {
      ghost var acc := before + Tagged(batch[..j], title);
      MergeStep(before, batch, j, title);
      keys', table' := Absorb(keys', table', batch[j], title, Dedup(acc));
      j := j + 1;
    }
    assert batch[..|batch|] == batch;
  }

  /** What the inner loop has seen grows by one tagged video per step, and the kept records with it. */
  lemma MergeStep(before: seq<Found>, batch: seq<Entry>, j: nat, title: string)
    requires j < |batch|
    ensures var acc, x := before + Tagged(batch[..j], title), Found(batch[j], title);
      Dedup(before + Tagged(batch[..j + 1], title))
        == if x.entry.id != "" && x.entry.id !in Ids(Dedup(acc)) then Dedup(acc) + [x] else Dedup(acc)
  {
    var acc, x := before + Tagged(batch[..j], title), Found(batch[j], title);
    TaggedStep(batch, j, title);
    assert before + Tagged(batch[..j + 1], title) == acc + [x];
    DedupStep(acc, x);
  }

  /**
   * One step of that loop: the video is tagged with the playlist title and
   * stored under its id unless the id is empty or already present.
   */
  method Absorb(keys: seq<string>, table: map<string, Video>, video: Entry, title: string, ghost d: seq<Found>)
    returns (keys': seq<string>, table': map<string, Video>)
    requires Holds(keys, table, d) && Injective(table)
    ensures var x := Found(video, title);
      Holds(keys', table', if video.id != "" && video.id !in Ids(d) then d + [x] else d)
    ensures Injective(table')
    ensures forall v :: v in table'.Values ==> v in table.Values || fresh(v)
  {
    keys', table' := keys, table;
    if video.id != "" && video.id !in table {
      var record := new Video(video);
      record.foundInPlaylist := Some(title);
      StoreNew(keys, table, d, Found(video, title), record);
      keys', table' := keys + [video.id], table[video.id := record];
    }
  }

  /** Storing a new record under a new key extends what the table holds by that record. */
  lemma StoreNew(keys: seq<string>, table: map<string, Video>, d: seq<Found>, x: Found, v: Video)
    requires Holds(keys, table, d) && x.entry.id !in table
    requires v.State() == Stored(x) && v !in table.Values
    ensures Holds(keys + [x.entry.id], table[x.entry.id := v], d + [x])
  {
    assert Ids(d + [x]) == Ids(d) + [x.entry.id];
    var table' := table[x.entry.id := v];
    forall k | 0 <= k < |d|
      ensures table'[keys[k]] == table[keys[k]]
    {
      assert keys[k] in table;
    }
  }

  /** One round of the outer loop of `_scan_all_playlists`: list the playlist, then merge its videos. */
  method ScanPlaylist(tool: Extractor, keys: seq<string>, table: map<string, Video>, playlist: Playlist,
                      rt: Runtime, ghost before: seq<Found>)
    returns (keys': seq<string>, table': map<string, Video>)
    modifies tool
    requires Holds(keys, table, Dedup(before)) && Injective(table)
    ensures tool.log == old(tool.log) + [PlaylistVideosArgs(playlist.url)]
    ensures Holds(keys', table', Dedup(before + Tagged(PlaylistEntries(tool.respond, playlist, rt), playlist.title)))
    ensures Injective(table')
    ensures forall v :: v in table'.Values ==> v in table.Values || fresh(v)
  {
    var videos := GetPlaylistVideos(tool, playlist.url, rt);
    keys', table' := Merge(keys, table, videos, playlist.title, before);
  }

  lemma AppendAssoc<T>(a: seq<T>, b: seq<T>, c: seq<T>)
    ensures (a + b) + c == a + (b + c)
  {
  }

  lemma ScanStep(playlists: seq<Playlist>, i: nat, respond: seq<string> -> string, rt: Runtime)
    requires i < |playlists|
    ensures Stream(playlists[..i + 1], respond, rt)
      == Stream(playlists[..i], respond, rt) + Tagged(PlaylistEntries(respond, playlists[i], rt), playlists[i].title)
    ensures PlaylistQueries(playlists[..i + 1]) == PlaylistQueries(playlists[..i]) + [PlaylistVideosArgs(playlists[i].url)]
  {
    assert playlists[..i + 1][..i] == playlists[..i];
  }

  /**
   * `_scan_all_playlists(playlists)`: one listing per playlist, in order;
   * the result holds the first sighting of every non-empty id of the whole
   * stream, each a new record tagged with its playlist.
   */
  method ScanAllPlaylists(tool: Extractor, playlists: seq<Playlist>, rt: Runtime)
    returns (keys: seq<string>, table: map<string, Video>)
    modifies tool
    ensures tool.log == old(tool.log) + PlaylistQueries(playlists)
    ensures Holds(keys, table, Dedup(Stream(playlists, tool.respond, rt))) && Injective(table)
    ensures forall v :: v in table.Values ==> fresh(v)
  {
    keys, table := [], map[];
    var i := 0;
    assert playlists[..0] == [];
    while i < |playlists|
      invariant 0 <= i <= |playlists|
      invariant tool.log == old(tool.log) + PlaylistQueries(playlists[..i])
      invariant Holds(keys, table, Dedup(Stream(playlists[..i], tool.respond, rt))) && Injective(table)
      invariant forall v :: v in table.Values ==> fresh(v)
    {
      ScanStep(playlists, i, tool.respond, rt);
      AppendAssoc(old(tool.log), PlaylistQueries(playlists[..i]), [PlaylistVideosArgs(playlists[i].url)]);
      keys, table := ScanPlaylist(tool, keys, table, playlists[i], rt, Stream(playlists[..i], tool.respond, rt));
      i := i + 1;
    }
    assert playlists[..|playlists|] == playlists;
  }
}
