/**
 * The two passes that follow the playlist scan: flagging the playlist
 * records whose id the channel's public listing does not hold, and
 * enriching the flagged records with the availability and upload date of
 * a per-video query. Both update the shared records in place.
 */
module Reconcile {
  import opened Wrappers
  import opened Text
  import opened Dates
  import opened Records
  import opened Fetchers
  import opened Aggregator

  /** The reason attached to every flagged record. */
  const UnlistedReason := "In playlist but not in public videos"

  /** The elements of `xs` whose id (at the same position of `ids`) is not public, in order. */
  function Select<T(==)>(xs: seq<T>, ids: seq<string>, publicIds: set<string>): (r: seq<T>)
    requires |xs| == |ids|
    ensures |r| <= |xs|
    ensures forall x :: x in r ==> x in xs
    decreases |xs|
  {
    if xs == [] then []
    else
      var n := |xs| - 1;
      Select(xs[..n], ids[..n], publicIds) + (if ids[n] in publicIds then [] else [xs[n]])
  }

  lemma SelectStep<T>(xs: seq<T>, ids: seq<string>, publicIds: set<string>, i: nat)
    requires |xs| == |ids| && i < |xs|
    ensures Select(xs[..i + 1], ids[..i + 1], publicIds)
      == Select(xs[..i], ids[..i], publicIds) + (if ids[i] in publicIds then [] else [xs[i]])
  {
    assert xs[..i + 1][..i] == xs[..i];
    assert ids[..i + 1][..i] == ids[..i];
  }

  /**
   * Selection distributes over concatenation: the selected elements keep
   * their order and their multiplicity.
   */
  lemma {:induction false} SelectAppend<T>(xs1: seq<T>, xs2: seq<T>, ids1: seq<string>, ids2: seq<string>,
                                           publicIds: set<string>)
    requires |xs1| == |ids1| && |xs2| == |ids2|
    ensures Select(xs1 + xs2, ids1 + ids2, publicIds)
      == Select(xs1, ids1, publicIds) + Select(xs2, ids2, publicIds)
    decreases |xs2|
  {
    if xs2 == [] {
      assert xs1 + xs2 == xs1 && ids1 + ids2 == ids1;
    } else {
      var n := |xs2| - 1;
      var xs, ids := xs1 + xs2, ids1 + ids2;
      assert xs[..|xs| - 1] == xs1 + xs2[..n];
      assert ids[..|ids| - 1] == ids1 + ids2[..n];
      SelectAppend(xs1, xs2[..n], ids1, ids2[..n], publicIds);
    }
  }

  /** An element is selected exactly when it sits at a position whose id is not public. */
  lemma {:induction false} SelectMembers<T>(xs: seq<T>, ids: seq<string>, publicIds: set<string>)
    requires |xs| == |ids|
    ensures forall k :: 0 <= k < |xs| && ids[k] !in publicIds ==> xs[k] in Select(xs, ids, publicIds)
    ensures forall x :: x in Select(xs, ids, publicIds) ==>
      exists k :: 0 <= k < |xs| && xs[k] == x && ids[k] !in publicIds
    decreases |xs|
  {
    if xs != [] {
      var n := |xs| - 1;
      SelectMembers(xs[..n], ids[..n], publicIds);
      assert forall k :: 0 <= k < n ==> xs[..n][k] == xs[k] && ids[..n][k] == ids[k];
    }
  }

  /** When every id is public nothing is flagged. */
  lemma {:induction false} SelectAllPublic<T>(xs: seq<T>, ids: seq<string>, publicIds: set<string>)
    requires |xs| == |ids|
    requires forall k :: 0 <= k < |ids| ==> ids[k] in publicIds
    ensures Select(xs, ids, publicIds) == []
    decreases |xs|
  {
    if xs != [] {
      var n := |xs| - 1;
      assert forall k :: 0 <= k < n ==> ids[..n][k] == ids[k];
      SelectAllPublic(xs[..n], ids[..n], publicIds);
    }
  }

  /** When no id is public everything is flagged, in order. */
  lemma {:induction false} SelectNonePublic<T>(xs: seq<T>, ids: seq<string>, publicIds: set<string>)
    requires |xs| == |ids|
    requires forall k :: 0 <= k < |ids| ==> ids[k] !in publicIds
    ensures Select(xs, ids, publicIds) == xs
    decreases |xs|
  {
    if xs != [] {
      var n := |xs| - 1;
      assert forall k :: 0 <= k < n ==> ids[..n][k] == ids[k];
      SelectNonePublic(xs[..n], ids[..n], publicIds);
      assert xs == xs[..n] + [xs[n]];
    }
  }

  /** Selecting from distinct elements gives distinct elements. */
  lemma {:induction false} SelectDistinct<T>(xs: seq<T>, ids: seq<string>, publicIds: set<string>)
    requires |xs| == |ids| && Distinct(xs)
    ensures Distinct(Select(xs, ids, publicIds))
    decreases |xs|
  {
    if xs != [] {
      var n := |xs| - 1;
      SelectDistinct(xs[..n], ids[..n], publicIds);
      assert xs[n] !in xs[..n];
    }
  }

  /** `list(d.values())` for the dict given by its key order and its table. */
  function Values(keys: seq<string>, table: map<string, Video>): (r: seq<Video>)
    requires forall k :: 0 <= k < |keys| ==> keys[k] in table
    ensures |r| == |keys|
    ensures forall k :: 0 <= k < |keys| ==> r[k] == table[keys[k]]
    ensures forall v :: v in r ==> v in table.Values
  {
    seq(|keys|, k requires 0 <= k < |keys| => table[keys[k]])
  }

  /**
   * A record of the table is flagged exactly when its key is not public:
   * different keys never share a record.
   */
  lemma FlaggedExactlyUnlisted(keys: seq<string>, table: map<string, Video>, publicIds: set<string>)
    requires forall k :: 0 <= k < |keys| ==> keys[k] in table
    requires Injective(table)
    ensures forall k :: 0 <= k < |keys| ==>
      (table[keys[k]] in Select(Values(keys, table), keys, publicIds) <==> keys[k] !in publicIds)
  {
    var vs := Values(keys, table);
    SelectMembers(vs, keys, publicIds);
    forall k | 0 <= k < |keys| && table[keys[k]] in Select(vs, keys, publicIds)
      ensures keys[k] !in publicIds
    {
      var j :| 0 <= j < |vs| && vs[j] == table[keys[k]] && keys[j] !in publicIds;
      assert table[keys[j]] == table[keys[k]];
    }
  }

  /** The states of a list of records. */
  function States(videos: seq<Video>): seq<VideoState>
    reads videos
  {
    seq(|videos|, k requires 0 <= k < |videos| reads videos => videos[k].State())
  }

  /** The records of a dict whose keys are distinct and whose keys never share a record are distinct. */
  lemma ValuesDistinct(keys: seq<string>, table: map<string, Video>)
    requires forall k :: 0 <= k < |keys| ==> keys[k] in table
    requires Distinct(keys) && Injective(table)
    ensures Distinct(Values(keys, table))
  {
  }

  /** A record as the reconciliation leaves it: flagged with the reason when its id is not public. */
  function Marked(s: VideoState, isPublic: bool): (r: VideoState)
    ensures r.entry == s.entry && r.foundInPlaylist == s.foundInPlaylist
    ensures r.reason == if isPublic then s.reason else Some(UnlistedReason)
  {
    if isPublic then s else s.(reason := Some(UnlistedReason))
  }

  /**
   * `_identify_unlisted_videos(all_playlist_videos, public_ids)`: in key
   * order, every record whose key is not public gets the reason and is
   * listed; the other records are left as they were.
   */
  method IdentifyUnlisted(keys: seq<string>, table: map<string, Video>, publicIds: set<string>)
    returns (flagged: seq<Video>)
    requires Distinct(keys) && (forall id :: id in table <==> id in keys) && Injective(table)
    modifies table.Values
    ensures flagged == Select(Values(keys, table), keys, publicIds)
    ensures var vs := Values(keys, table);
      forall k :: 0 <= k < |vs| ==> vs[k].State() == Marked(old(States(vs))[k], keys[k] in publicIds)
  {
    var items := Values(keys, table);
    ghost var before := States(items);
    ValuesDistinct(keys, table);
    flagged := [];
    var i := 0;
    while i < |keys|
      invariant 0 <= i <= |keys|
      invariant flagged == Select(items[..i], keys[..i], publicIds)
      invariant forall k :: 0 <= k < |items| ==>
        items[k].State() == if k < i then Marked(before[k], keys[k] in publicIds) else before[k]
    {
      flagged := FlagStep(items, keys, publicIds, i, flagged, before);
      i := i + 1;
    }
    assert items[..|keys|] == items;
    assert keys[..|keys|] == keys;
  }

  /** One round of the loop above: flag the `i`-th record and list it unless its key is public. */
  method FlagStep(items: seq<Video>, keys: seq<string>, publicIds: set<string>, i: nat,
                  flagged: seq<Video>, ghost before: seq<VideoState>)
    returns (flagged': seq<Video>)
    requires i < |items| == |keys| == |before| && Distinct(items)
    requires flagged == Select(items[..i], keys[..i], publicIds)
    requires forall k :: 0 <= k < |items| ==>
      items[k].State() == if k < i then Marked(before[k], keys[k] in publicIds) else before[k]
    modifies items[i]
    ensures flagged' == Select(items[..i + 1], keys[..i + 1], publicIds)
    ensures forall k :: 0 <= k < |items| ==>
      items[k].State() == if k < i + 1 then Marked(before[k], keys[k] in publicIds) else before[k]
  {
    SelectStep(items, keys, publicIds, i);
    var video := items[i];
    flagged' := flagged;
    if keys[i] !in publicIds {
      video.reason := Some(UnlistedReason);
      flagged' := flagged + [video];
    }
  }

  /** `video.update(details)` when the query gave a record; the record as it was otherwise. */
  function Refresh(s: VideoState, details: Option<Details>): (r: VideoState)
    ensures details.None? ==> r == s
    ensures details.Some? ==>
      r.entry.availability == details.value.availability && r.entry.uploadDate == details.value.uploadDate
    ensures r.(entry := r.entry.(availability := s.entry.availability, uploadDate := s.entry.uploadDate)) == s
  {
    match details
    case None => s
    case Some(d) => s.(entry := s.entry.(availability := d.availability, uploadDate := d.uploadDate))
  }

  /** What the per-video query answers for an id; a record without an id is never queried. */
  function DetailsFor(id: string, respond: seq<string> -> string, rt: Runtime): (d: Option<Details>)
    ensures d.Some? <==> id != "" && Contains(respond(VideoDetailsArgs(id)), Sep)
  {
    if id == "" then None else VideoDetails(respond(VideoDetailsArgs(id)), rt)
  }

  /**
   * The state a record ends in once the enrichment pass has visited it:
   * only its availability and upload date can change, and only when it
   * has an id and the query response holds a record.
   */
  function Enriched(s: VideoState, respond: seq<string> -> string, rt: Runtime): (r: VideoState)
    ensures r.entry.id == s.entry.id && r.entry.title == s.entry.title && r.entry.url == s.entry.url
    ensures r.foundInPlaylist == s.foundInPlaylist && r.reason == s.reason
    ensures s.entry.id == "" || !Contains(respond(VideoDetailsArgs(s.entry.id)), Sep) ==> r == s
  {
    Refresh(s, DetailsFor(s.entry.id, respond, rt))
  }

  /**
   * A record with an id whose query response holds a record takes field 2
   * of the response as availability ("unknown" when missing) and field 3,
   * normalized, as upload date.
   */
  lemma EnrichedTakesDetails(s: VideoState, respond: seq<string> -> string, rt: Runtime)
    requires s.entry.id != "" && Contains(respond(VideoDetailsArgs(s.entry.id)), Sep)
    ensures var parts := Split(Strip(respond(VideoDetailsArgs(s.entry.id))), Sep);
      && Enriched(s, respond, rt).entry.availability == FieldOr(parts, 2, "unknown")
      && Enriched(s, respond, rt).entry.uploadDate == FormatDate(FieldOr(parts, 3, NA), NA, rt)
  {
  }

  /** Visiting a record twice leaves it as one visit does. */
  lemma EnrichedIdempotent(s: VideoState, respond: seq<string> -> string, rt: Runtime)
    ensures Enriched(Enriched(s, respond, rt), respond, rt) == Enriched(s, respond, rt)
  {
    var r := Enriched(s, respond, rt);
    assert DetailsFor(r.entry.id, respond, rt) == DetailsFor(s.entry.id, respond, rt);
  }

  /** The ids of a list of records. */
  function IdsOf(videos: seq<Video>): seq<string>
    reads videos
  {
    seq(|videos|, k requires 0 <= k < |videos| reads videos => videos[k].id)
  }

  /** The ids of the records selected are the ids selected, when each record carries its own id. */
  lemma {:induction false} SelectIdsOf(videos: seq<Video>, ids: seq<string>, publicIds: set<string>)
    requires |videos| == |ids| && forall k :: 0 <= k < |ids| ==> videos[k].id == ids[k]
    ensures IdsOf(Select(videos, ids, publicIds)) == Select(ids, ids, publicIds)
    decreases |ids|
  {
    if ids != [] {
      var n := |ids| - 1;
      SelectIdsOf(videos[..n], ids[..n], publicIds);
    }
  }

  /** The per-video queries of the enrichment pass: one for each non-empty id, in order. */
  function DetailQueries(ids: seq<string>): (queries: seq<seq<string>>)
    ensures |queries| <= |ids|
    ensures (forall k :: 0 <= k < |ids| ==> ids[k] != "") ==>
      |queries| == |ids| && forall k :: 0 <= k < |ids| ==> queries[k] == VideoDetailsArgs(ids[k])
    decreases |ids|
  {
    if ids == [] then []
    else
      var n := |ids| - 1;
      assert forall k :: 0 <= k < n ==> ids[..n][k] == ids[k];
      DetailQueries(ids[..n]) + (if ids[n] == "" then [] else [VideoDetailsArgs(ids[n])])
  }

  lemma DetailQueriesStep(ids: seq<string>, i: nat)
    requires i < |ids|
    ensures DetailQueries(ids[..i + 1]) == DetailQueries(ids[..i]) + (if ids[i] == "" then [] else [VideoDetailsArgs(ids[i])])
  {
    assert ids[..i + 1][..i] == ids[..i];
  }

  /** Records without an id are never queried. */
  lemma {:induction false} DetailQueriesSkipEmpty(ids: seq<string>)
    requires forall k :: 0 <= k < |ids| ==> ids[k] == ""
    ensures DetailQueries(ids) == []
    decreases |ids|
  {
    if ids != [] {
      var n := |ids| - 1;
      assert forall k :: 0 <= k < n ==> ids[..n][k] == ids[k];
      DetailQueriesSkipEmpty(ids[..n]);
      assert DetailQueries(ids) == DetailQueries(ids[..n]);
    }
  }

  /** `found` holds, position by position, the answers `answer` gives for `ids`. */
  ghost predicate Answered(ids: seq<string>, found: seq<Option<Details>>, answer: string -> Option<Details>)
    decreases |ids|
  {
    && |found| == |ids|
    && (ids != [] ==>
         var n := |ids| - 1;
         Answered(ids[..n], found[..n], answer) && found[n] == answer(ids[n]))
  }

  lemma AnsweredStep(ids: seq<string>, i: nat, found: seq<Option<Details>>, d: Option<Details>,
                     answer: string -> Option<Details>)
    requires i < |ids| && Answered(ids[..i], found, answer) && d == answer(ids[i])
    ensures Answered(ids[..i + 1], found + [d], answer)
  {
    assert ids[..i + 1][..i] == ids[..i];
    assert (found + [d])[..i] == found;
  }

  lemma {:induction false} AnsweredAt(ids: seq<string>, found: seq<Option<Details>>, answer: string -> Option<Details>)
    requires Answered(ids, found, answer)
    ensures forall k :: 0 <= k < |ids| ==> found[k] == answer(ids[k])
    decreases |ids|
  {
    if ids != [] {
      var n := |ids| - 1;
      AnsweredAt(ids[..n], found[..n], answer);
      assert forall k :: 0 <= k < n ==> ids[..n][k] == ids[k] && found[..n][k] == found[k];
    }
  }

  /** One round of `_fetch_detailed_metadata`: query the record's id, if any, and apply the answer. */
  method EnrichOne(tool: Extractor, video: Video, rt: Runtime) returns (details: Option<Details>)
    modifies tool, video
    ensures details == DetailsFor(old(video.id), tool.respond, rt)
    ensures tool.log == old(tool.log) + (if old(video.id) == "" then [] else [VideoDetailsArgs(old(video.id))])
    ensures video.State() == Refresh(old(video.State()), details)
  {
    details := None;
    var id := video.id;
    if id != "" {
      details := GetVideoDetails(tool, id, rt);
      if details.Some? {
        video.availability, video.uploadDate := details.value.availability, details.value.uploadDate;
      }
    }
  }

  /**
   * That round over the whole list: the log gains the record's query, the
   * answer is recorded, and the records before `i + 1` are refreshed.
   */
  method EnrichStep(tool: Extractor, videos: seq<Video>, i: nat, rt: Runtime, ghost start: seq<seq<string>>,
                    ghost ids: seq<string>, ghost states: seq<VideoState>, ghost found: seq<Option<Details>>,
                    ghost answer: string -> Option<Details>)
    returns (details: Option<Details>)
    requires i < |videos| == |states| == |ids| && |found| == i && Distinct(videos)
    requires ids[i] == states[i].entry.id
    requires forall id {:trigger DetailsFor(id, tool.respond, rt)} :: answer(id) == DetailsFor(id, tool.respond, rt)
    requires tool.log == start + DetailQueries(ids[..i])
    requires Answered(ids[..i], found, answer)
    requires forall k :: 0 <= k < |videos| ==>
      videos[k].State() == if k < i then Refresh(states[k], found[k]) else states[k]
    modifies tool, videos[i]
    ensures tool.log == start + DetailQueries(ids[..i + 1])
    ensures Answered(ids[..i + 1], found + [details], answer)
    ensures forall k :: 0 <= k < |videos| ==>
      videos[k].State() == if k < i + 1 then Refresh(states[k], (found + [details])[k]) else states[k]
  {
    DetailQueriesStep(ids, i);
    AppendAssoc(start, DetailQueries(ids[..i]), if ids[i] == "" then [] else [VideoDetailsArgs(ids[i])]);
    details := EnrichOne(tool, videos[i], rt);
    AnsweredStep(ids, i, found, details, answer);
  }

  /**
   * `_fetch_detailed_metadata(videos)`: one query per record with an id,
   * in list order, and every record ends in its enriched state.
   */
  method FetchDetailedMetadata(tool: Extractor, videos: seq<Video>, rt: Runtime)
    requires Distinct(videos)
    modifies tool, videos
    ensures tool.log == old(tool.log) + DetailQueries(old(IdsOf(videos)))
    ensures forall k :: 0 <= k < |videos| ==>
      videos[k].State() == Enriched(old(States(videos))[k], tool.respond, rt)
  {
    ghost var ids := IdsOf(videos);
    ghost var states := States(videos);
    ghost var answer := id => DetailsFor(id, tool.respond, rt);
    ghost var found := EnrichAll(tool, videos, rt, ids, states, answer);
    AnsweredAt(ids, found, answer);
    forall k | 0 <= k < |videos|
      ensures videos[k].State() == Enriched(states[k], tool.respond, rt)
    {
      assert found[k] == DetailsFor(states[k].entry.id, tool.respond, rt);
    }
  }

  /** The loop of `_fetch_detailed_metadata`, recording the answer each record got. */
  method EnrichAll(tool: Extractor, videos: seq<Video>, rt: Runtime, ghost ids: seq<string>,
                   ghost states: seq<VideoState>, ghost answer: string -> Option<Details>)
    returns (ghost found: seq<Option<Details>>)
    requires Distinct(videos) && |ids| == |states| == |videos|
    requires forall k :: 0 <= k < |videos| ==> videos[k].State() == states[k] && ids[k] == states[k].entry.id
    requires forall id {:trigger DetailsFor(id, tool.respond, rt)} :: answer(id) == DetailsFor(id, tool.respond, rt)
    modifies tool, videos
    ensures tool.log == old(tool.log) + DetailQueries(ids)
    ensures Answered(ids, found, answer)
    ensures forall k :: 0 <= k < |videos| ==> videos[k].State() == Refresh(states[k], found[k])
  {
    found := [];
    var i := 0;
    while i < |videos|
      invariant 0 <= i <= |videos| && |found| == i
      invariant tool.log == old(tool.log) + DetailQueries(ids[..i])
      invariant Answered(ids[..i], found, answer)
      invariant forall k :: 0 <= k < |videos| ==>
        videos[k].State() == if k < i then Refresh(states[k], found[k]) else states[k]
    {
      var details := EnrichStep(tool, videos, i, rt, old(tool.log), ids, states, found, answer);
      found := found + [details];
      i := i + 1;
    }
    assert ids[..|videos|] == ids;
  }
}
