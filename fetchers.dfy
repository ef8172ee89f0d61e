/**
 * The listing fetchers: each runs the extractor with a fixed print template
 * and turns its standard output into records, one per line that holds the
 * field separator, in line order.
 */
module Fetchers {
  import opened Wrappers
  import opened Text
  import opened Dates
  import opened Records

  /**
   * The extractor (yt-dlp) as the scanner sees it: a response for each
   * argument list, and the log of every invocation in order. A timeout
   * reaches the scanner as an empty response.
   */
  class Extractor {
    const respond: seq<string> -> string
    var log: seq<seq<string>>

    constructor (respond: seq<string> -> string)
      ensures this.respond == respond && log == []
    {
      this.respond := respond;
      log := [];
    }

    /** `run_ytdlp(args)`: one invocation, recorded. */
    method Run(args: seq<string>) returns (output: string)
      modifies this
      ensures output == respond(args)
      ensures log == old(log) + [args]
    {
      output := respond(args);
      log := log + [args];
    }
  }

  // The print templates and the argument lists the four fetchers pass to the extractor.

  const PlaylistTemplate := "%(id)s|||%(title)s"
  const PlaylistVideoTemplate := "%(id)s|||%(title)s|||%(availability)s|||%(upload_date)s|||%(timestamp)s"
  const ChannelVideoTemplate := "%(id)s|||%(title)s|||%(upload_date)s|||%(timestamp)s"
  const DetailsTemplate := "%(id)s|||%(title)s|||%(availability)s|||%(upload_date)s"
  const ApproximateDate := "youtube:approximate_date"

  function ChannelPlaylistsArgs(channelUrl: string): seq<string> {
    ["--flat-playlist", "--print", PlaylistTemplate, TrimEnd(channelUrl, '/') + "/playlists"]
  }

  function PlaylistVideosArgs(playlistUrl: string): seq<string> {
    ["--flat-playlist", "--extractor-args", ApproximateDate, "--print", PlaylistVideoTemplate, playlistUrl]
  }

  function ChannelVideosArgs(channelUrl: string): seq<string> {
    ["--flat-playlist", "--extractor-args", ApproximateDate, "--print", ChannelVideoTemplate,
     TrimEnd(channelUrl, '/') + "/videos"]
  }

  function VideoDetailsArgs(videoId: string): seq<string> {
    ["--skip-download", "--print", DetailsTemplate, WatchUrlPrefix + videoId]
  }

  /** `output.strip().split('\n')`. */
  function Lines(output: string): (lines: seq<string>)
    ensures |lines| >= 1
  {
    Split(Strip(output), "\n")
  }

  /** The lines the fetch loops keep: those holding the separator, in order. */
  function RecordLines(lines: seq<string>): (kept: seq<string>)
    ensures |kept| <= |lines|
    ensures forall l :: l in kept ==> l in lines && Contains(l, Sep)
    decreases |lines|
  {
    if lines == [] then []
    else
      var init, line := lines[..|lines| - 1], lines[|lines| - 1];
      RecordLines(init) + (if Contains(line, Sep) then [line] else [])
  }

  /** Every line holding the separator is kept. */
  lemma {:induction false} RecordLinesComplete(lines: seq<string>, l: string)
    requires l in lines && Contains(l, Sep)
    ensures l in RecordLines(lines)
    decreases |lines|
  {
    var init := lines[..|lines| - 1];
    if l != lines[|lines| - 1] {
      assert lines == init + [lines[|lines| - 1]];
      RecordLinesComplete(init, l);
    }
  }

  /** Filtering commutes with concatenation: the kept lines stay in line order. */
  lemma {:induction false} RecordLinesAppend(a: seq<string>, b: seq<string>)
    ensures RecordLines(a + b) == RecordLines(a) + RecordLines(b)
    decreases |b|
  {
    if b == [] {
      assert a + b == a;
    } else {
      var b', line := b[..|b| - 1], b[|b| - 1];
      assert (a + b)[..|a + b| - 1] == a + b';
      RecordLinesAppend(a, b');
    }
  }

  /** The playlist record one line gives, if it holds the separator (`split('|||', 1)`). */
  function PlaylistOfLine(line: string): (p: Option<Playlist>)
    ensures p.Some? <==> Contains(line, Sep)
    ensures p.Some? ==> p.value.id + Sep + p.value.title == line && !Contains(p.value.id, Sep)
    ensures p.Some? ==> Find(line, Sep) == Some(|p.value.id|)
    ensures p.Some? ==> p.value.url == PlaylistUrlPrefix + p.value.id
  {
    match SplitFirst(line, Sep)
    case None => None
    case Some((id, title)) => Some(Playlist(id, title, PlaylistUrlPrefix + id))
  }

  /** The playlists read from a sequence of lines. */
  function PlaylistsOf(lines: seq<string>): (r: seq<Playlist>)
    ensures |r| <= |lines|
    ensures forall p :: p in r ==> exists line :: line in lines && PlaylistOfLine(line) == Some(p)
    decreases |lines|
  {
    if lines == [] then []
    else
      var init, line := lines[..|lines| - 1], lines[|lines| - 1];
      PlaylistsOf(init) + (match PlaylistOfLine(line) case Some(p) => [p] case None => [])
  }

  /** One playlist per kept line, in order, its id before the first separator and its title after it. */
  lemma {:induction false} PlaylistsOfRecordLines(lines: seq<string>)
    ensures |PlaylistsOf(lines)| == |RecordLines(lines)|
    ensures forall k :: 0 <= k < |PlaylistsOf(lines)| ==>
      Some(PlaylistsOf(lines)[k]) == PlaylistOfLine(RecordLines(lines)[k])
    decreases |lines|
  {
    if lines != [] {
      var init, line := lines[..|lines| - 1], lines[|lines| - 1];
      PlaylistsOfRecordLines(init);
      if Contains(line, Sep) {
        assert PlaylistsOf(lines) == PlaylistsOf(init) + [PlaylistOfLine(line).value];
        assert RecordLines(lines) == RecordLines(init) + [line];
      } else {
        assert PlaylistsOf(lines) == PlaylistsOf(init);
        assert RecordLines(lines) == RecordLines(init);
      }
    }
  }

  lemma PlaylistsOfStep(lines: seq<string>, i: nat)
    requires i < |lines|
    ensures PlaylistsOf(lines[..i + 1])
      == PlaylistsOf(lines[..i]) + (match PlaylistOfLine(lines[i]) case Some(p) => [p] case None => [])
  {
    assert lines[..i + 1][..i] == lines[..i];
  }

  /** The loop of `get_channel_playlists` over the lines of the extractor's output. */
  method ReadPlaylists(lines: seq<string>) returns (playlists: seq<Playlist>)
    ensures playlists == PlaylistsOf(lines)
  {
    playlists := [];
    var i := 0;
    while i < |lines|
      invariant 0 <= i <= |lines|
      invariant playlists == PlaylistsOf(lines[..i])
    {
      PlaylistsOfStep(lines, i);
      if Contains(lines[i], Sep) {
        var (id, title) := SplitFirst(lines[i], Sep).value;
        playlists := playlists + [Playlist(id, title, PlaylistUrlPrefix + id)];
      }
      i := i + 1;
    }
    assert lines[..|lines|] == lines;
  }

  /**
   * The entry one line gives in `get_playlist_videos` (with availability)
   * or `get_channel_videos` (without): only a line holding the separator
   * is split, and only a split with at least two fields is parsed.
   */
  function EntryOfLine(line: string, withAvailability: bool, rt: Runtime): (e: Option<Entry>)
    ensures e.Some? <==> Contains(line, Sep)
  {
    if Contains(line, Sep) then
      var parts := Split(line, Sep);
      if |parts| >= 2 then Some(ParseVideoEntry(parts, withAvailability, rt)) else None
    else None
  }

  /** The entries read from a sequence of lines. */
  function EntriesOf(lines: seq<string>, withAvailability: bool, rt: Runtime): (r: seq<Entry>)
    ensures |r| <= |lines|
    ensures forall e :: e in r ==> exists line :: line in lines && EntryOfLine(line, withAvailability, rt) == Some(e)
    decreases |lines|
  {
    if lines == [] then []
    else
      var init, line := lines[..|lines| - 1], lines[|lines| - 1];
      EntriesOf(init, withAvailability, rt)
        + (match EntryOfLine(line, withAvailability, rt) case Some(e) => [e] case None => [])
  }

  /** One entry per kept line, in order, parsed from that line's fields. */
  lemma {:induction false} EntriesOfRecordLines(lines: seq<string>, withAvailability: bool, rt: Runtime)
    ensures |EntriesOf(lines, withAvailability, rt)| == |RecordLines(lines)|
    ensures forall k :: 0 <= k < |RecordLines(lines)| ==>
      Some(EntriesOf(lines, withAvailability, rt)[k]) == EntryOfLine(RecordLines(lines)[k], withAvailability, rt)
    decreases |lines|
  {
    if lines != [] {
      var init, line := lines[..|lines| - 1], lines[|lines| - 1];
      EntriesOfRecordLines(init, withAvailability, rt);
      if Contains(line, Sep) {
        assert EntriesOf(lines, withAvailability, rt)
          == EntriesOf(init, withAvailability, rt) + [EntryOfLine(line, withAvailability, rt).value];
        assert RecordLines(lines) == RecordLines(init) + [line];
      } else {
        assert EntriesOf(lines, withAvailability, rt) == EntriesOf(init, withAvailability, rt);
        assert RecordLines(lines) == RecordLines(init);
      }
    }
  }

  /** Text without the separator yields no record at all (empty output included). */
  lemma NoSeparatorNoRecords(output: string)
    requires !Contains(output, Sep)
    ensures RecordLines(Lines(output)) == []
  {
    StripKeepsNoOccurrence(output);
    SplitFields(Strip(output), "\n");
    var lines := Lines(output);
    forall k | 0 <= k < |lines|
      ensures !Contains(lines[k], Sep)
    {
      if Contains(lines[k], Sep) {
        JoinKeepsOccurrence(lines, "\n", k);
      }
    }
    NoRecordLines(lines);
  }

  lemma {:induction false} NoRecordLines(lines: seq<string>)
    requires forall k :: 0 <= k < |lines| ==> !Contains(lines[k], Sep)
    ensures RecordLines(lines) == []
    decreases |lines|
  {
    if lines != [] {
      NoRecordLines(lines[..|lines| - 1]);
    }
  }

  /** Stripping whitespace cannot create the separator. */
  lemma StripKeepsNoOccurrence(s: string)
    requires !Contains(s, Sep)
    ensures !Contains(Strip(s), Sep)
  {
    var stripped := Strip(s);
    var a := SkipSpace(s, 0);
    if Contains(stripped, Sep) {
      OccursInSlice(s, a, a + |stripped|, Sep, Find(stripped, Sep).value);
    }
  }

  /** A field that holds `Sep` makes the joined text hold it. */
  lemma {:induction false} JoinKeepsOccurrence(parts: seq<string>, glue: string, k: nat)
    requires k < |parts| && Contains(parts[k], Sep)
    ensures Contains(Join(parts, glue), Sep)
    decreases |parts|
  {
    var j := Find(parts[k], Sep).value;
    if |parts| == 1 {
    } else if k == 0 {
      OccursInPrefix(parts[0], glue + Join(parts[1..], glue), Sep, j);
      assert Join(parts, glue) == parts[0] + (glue + Join(parts[1..], glue));
    } else {
      JoinKeepsOccurrence(parts[1..], glue, k - 1);
      var rest := Join(parts[1..], glue);
      var i := Find(rest, Sep).value;
      var head := parts[0] + glue;
      assert Join(parts, glue) == head + rest;
      assert (head + rest)[|head|..|head + rest|] == rest;
      OccursInSlice(head + rest, |head|, |head + rest|, Sep, i);
    }
  }

  lemma EntriesOfStep(lines: seq<string>, i: nat, withAvailability: bool, rt: Runtime)
    requires i < |lines|
    ensures EntriesOf(lines[..i + 1], withAvailability, rt)
      == EntriesOf(lines[..i], withAvailability, rt)
         + (match EntryOfLine(lines[i], withAvailability, rt) case Some(e) => [e] case None => [])
  {
    assert lines[..i + 1][..i] == lines[..i];
  }

  /**
   * The loop of `get_playlist_videos` / `get_channel_videos` over the lines
   * of the extractor's output: one record per kept line, in line order.
   */
  method ReadVideos(lines: seq<string>, withAvailability: bool, rt: Runtime) returns (videos: seq<Entry>)
    ensures videos == EntriesOf(lines, withAvailability, rt)
  {
    videos := [];
    var i := 0;
    assert lines[..0] == [];
    while i < |lines|
      invariant 0 <= i <= |lines|
      invariant videos == EntriesOf(lines[..i], withAvailability, rt)
    {
      EntriesOfStep(lines, i, withAvailability, rt);
      if Contains(lines[i], Sep) {
        var parts := Split(lines[i], Sep);
        if |parts| >= 2 {
          videos := videos + [ParseVideoEntry(parts, withAvailability, rt)];
        }
      }
      i := i + 1;
    }
    assert lines[..|lines|] == lines;
  }

  /** What `get_video_details` returns when the output holds a record. */
  datatype Details = Details(availability: string, uploadDate: string)

  /**
   * The parse in `get_video_details`: nothing unless the output holds the
   * separator; otherwise field 2 of the stripped output as availability
   * ("unknown" when missing) and field 3 normalized as the upload date.
   */
  function VideoDetails(output: string, rt: Runtime): (d: Option<Details>)
    ensures d.Some? <==> Contains(output, Sep)
    ensures d.Some? ==> var parts := Split(Strip(output), Sep);
      && d.value.availability == FieldOr(parts, 2, "unknown")
      && d.value.uploadDate == FormatDate(FieldOr(parts, 3, NA), NA, rt)
  {
    if Contains(output, Sep) then
      var parts := Split(Strip(output), Sep);
      var dateRaw := if |parts| > 3 then parts[3] else NA;
      Some(Details(if |parts| > 2 then parts[2] else "unknown", FormatDate(dateRaw, NA, rt)))
    else None
  }

  /** `get_channel_playlists(channel_url)`. */
  method GetChannelPlaylists(tool: Extractor, channelUrl: string) returns (playlists: seq<Playlist>)
    modifies tool
    ensures tool.log == old(tool.log) + [ChannelPlaylistsArgs(channelUrl)]
    ensures playlists == PlaylistsOf(Lines(tool.respond(ChannelPlaylistsArgs(channelUrl))))
  {
    var output := tool.Run(ChannelPlaylistsArgs(channelUrl));
    playlists := ReadPlaylists(Lines(output));
  }

  /** `get_playlist_videos(playlist_url)`. */
  method GetPlaylistVideos(tool: Extractor, playlistUrl: string, rt: Runtime) returns (videos: seq<Entry>)
    modifies tool
    ensures tool.log == old(tool.log) + [PlaylistVideosArgs(playlistUrl)]
    ensures videos == EntriesOf(Lines(tool.respond(PlaylistVideosArgs(playlistUrl))), true, rt)
  {
    var output := tool.Run(PlaylistVideosArgs(playlistUrl));
    videos := ReadVideos(Lines(output), true, rt);
  }

  /** `get_channel_videos(channel_url)`. */
  method GetChannelVideos(tool: Extractor, channelUrl: string, rt: Runtime) returns (videos: seq<Entry>)
    modifies tool
    ensures tool.log == old(tool.log) + [ChannelVideosArgs(channelUrl)]
    ensures videos == EntriesOf(Lines(tool.respond(ChannelVideosArgs(channelUrl))), false, rt)
  {
    var output := tool.Run(ChannelVideosArgs(channelUrl));
    videos := ReadVideos(Lines(output), false, rt);
  }

  /** `get_video_details(video_id)`. */
  method GetVideoDetails(tool: Extractor, videoId: string, rt: Runtime) returns (details: Option<Details>)
    modifies tool
    ensures tool.log == old(tool.log) + [VideoDetailsArgs(videoId)]
    ensures details == VideoDetails(tool.respond(VideoDetailsArgs(videoId)), rt)
  {
    var output := tool.Run(VideoDetailsArgs(videoId));
    details := VideoDetails(output, rt);
  }
}
