# yt-channel-scanner — a Dafny model of the scan core

`youtube_scanner.py` finds the videos of a YouTube channel that sit in its
public playlists but not on its public Videos tab ("potentially unlisted").
It drives the external extractor yt-dlp and works on the text yt-dlp prints:

1. optionally, it lists the channel's Videos tab;
2. it lists the channel's playlists;
3. it lists every playlist and keeps the first record of each non-empty
   video id, tagged with the title of the playlist it was found in;
4. when the Videos tab was listed, it flags every kept record whose id the
   tab lacks, giving it a reason. When asked for details, it runs one query
   per flagged record with an id and, when the answer holds a record,
   overwrites that record's availability and upload date in place.

The kept records are shared objects: the flagged list and the list of
playlist videos hold the same records. So the flag and the enrichment show
through both lists.

This project models that core:

- `Text`: the Python string operations used, written out (`in`,
  `split`, `split(sep, 1)`, `strip`, `rstrip`). `join` is not called by
  the scanner; it is written out only to state what a split gives back.
- `Dates`: `format_date`.
- `Records`:
  - the parsed entry, the playlist record, and the shared video record (a
    class);
  - `parse_video_entry`;
  - `format_video_line` with a parser for its line.
- `Fetchers`:
  - the extractor as an object that answers each argument list and logs
    every invocation;
  - the line-parsing loops of the four fetchers.
- `Aggregator`: `_scan_all_playlists`, as a loop over playlists and their
  videos that fills a key order and a key-to-record table, specified by a
  first-sighting-wins deduplication of the tagged video stream.
- `Reconcile`: `_identify_unlisted_videos` and
  `_fetch_detailed_metadata`, as loops that update the shared records in
  place, specified by functions on record snapshots.
- `Scanner`: `scan_channel`, with its gating on `include_public` and
  `detailed`. Its contract states the whole result and the extractor
  invocations made, in order.

All paths below are in the repository's `youtube_scanner.py`.

`format_date` takes only `date_raw` and `timestamp`. It converts any
timestamp that `int()` accepts, with no check that it is positive, and
`Dates.FormatDate` does the same.

## Model

| member | source | states |
|---|---|---|
| Text.Find | youtube_scanner.py:44 | `pat in s`: the leftmost index where the pattern occurs, and no occurrence before it; None exactly when it occurs nowhere |
| Text.Split | youtube_scanner.py:110 | `s.split(sep)` gives at least one field, and at least two exactly when `sep` occurs in `s` |
| Text.SplitFields | youtube_scanner.py:110 | the fields of a split join back into the text; no field holds the separator; every field but the last is cleanly closed by the separator after it; the first field ends at the leftmost separator |
| Text.SplitJoinsBack | youtube_scanner.py:110 | the fields of a split join back into the text, none holds the separator, and the first ends at the leftmost separator |
| Text.SplitFieldsDelimited | youtube_scanner.py:110 | every field of a split but the last is cleanly closed by the separator after it, so `SplitJoin` applies to the fields of any split |
| Text.SplitJoin | youtube_scanner.py:110 | splitting undoes joining when every field but the last is cleanly closed by the separator and the last holds none |
| Text.SplitFirst | youtube_scanner.py:45 | `split(sep, 1)` succeeds exactly when `sep` occurs; the head, `sep` and the tail rebuild the text; the head holds no `sep` and ends where the leftmost `sep` starts |
| Text.SplitFirstAgreesWithSplit | youtube_scanner.py:45 | the head of `split(sep, 1)` is the first field of `split(sep)`, and its tail joins the remaining fields back |
| Text.SkipSpace | youtube_scanner.py:43 | the leading whitespace `strip()` skips: all whitespace, stopping at the first other character |
| Text.TrimEndSpace | youtube_scanner.py:43 | `rstrip()` keeps a prefix, drops only whitespace, and leaves no trailing whitespace |
| Text.TrimEnd | youtube_scanner.py:35 | `rstrip('/')` keeps a prefix, drops only `/`, and leaves no trailing `/` |
| Text.Strip | youtube_scanner.py:43 | `strip()` is a slice of the text starting after the skipped leading whitespace |
| Text.StripDropsOnlySpace | youtube_scanner.py:43 | what `strip()` drops on both sides is whitespace only, and the kept slice neither starts nor ends with whitespace |
| Dates.FormatDate | youtube_scanner.py:55-64 | an 8-character date is cut into `YYYY-MM-DD` (removing the dashes gives it back); otherwise a present timestamp gives its local date, or "NA" when it is not an integer; otherwise the raw date, or "NA" when empty |
| Dates.CompactDateIgnoresTimestamp | youtube_scanner.py:57-58 | for an 8-character date neither the timestamp nor the runtime matters |
| Dates.FormatDateNonEmpty | youtube_scanner.py:55-64 | the result is never empty, unless the date conversion itself yields an empty string |
| Dates.NoCalendarValidation | youtube_scanner.py:57-58 | "20231399" becomes "2023-13-99": there is no calendar check |
| Records.Video.constructor | youtube_scanner.py:89-95 | a new record holds the five parsed keys and neither `found_in_playlist` nor `reason` |
| Records.ParseVideoEntry | youtube_scanner.py:75-95 | id and title are fields 0 and 1; url is the watch prefix plus the id; with availability, field 2 (or "unknown") and dates from fields 3 and 4; without it, "public" and dates from fields 2 and 3; missing date fields are "NA" |
| Records.PrintedVideoLineParsesBack | youtube_scanner.py:103-112 | a line printed with the playlist template splits back into its five fields and parses into the record they describe |
| Records.FormatVideoLine | youtube_scanner.py:67-72 | the links-file line starts with `[` and ends with a newline |
| Records.VideoLineRoundTrip | youtube_scanner.py:67-72 | the date, url and title are read back from the line, with "N/A" for a missing date and "" for a missing url or title (so a record without keys gives the parts of `[N/A]  - `), provided the date written holds no `]` and the url written no space |
| Records.LineRoundTrip | youtube_scanner.py:72 | the line `[date] url - title` reads back into its three parts under the same restrictions |
| Fetchers.Extractor.Run | youtube_scanner.py:16-21 | one invocation: the output is the tool's answer to the argument list, which is appended to the log |
| Fetchers.Lines | youtube_scanner.py:43 | `output.strip().split('\n')` has at least one line |
| Fetchers.RecordLines | youtube_scanner.py:108-109 | the kept lines are lines of the output that hold the separator |
| Fetchers.RecordLinesComplete | youtube_scanner.py:108-109 | every line holding the separator is kept |
| Fetchers.RecordLinesAppend | youtube_scanner.py:108-109 | filtering commutes with concatenation, so kept lines stay in line order |
| Fetchers.PlaylistOfLine | youtube_scanner.py:44-50 | a line gives a playlist exactly when it holds the separator; id and title split it at the leftmost separator (the id ends where the first `|||` starts) and rebuild it; url is the playlist prefix plus the id |
| Fetchers.PlaylistsOfRecordLines | youtube_scanner.py:42-50 | one playlist per kept line, in line order, each read from its line |
| Fetchers.PlaylistsOf | youtube_scanner.py:42-51 | the playlists read from the lines: no more than the lines, and each is the playlist of one of the lines |
| Fetchers.ReadPlaylists | youtube_scanner.py:42-52 | the loop of `get_channel_playlists` builds exactly the playlists of the lines |
| Fetchers.EntryOfLine | youtube_scanner.py:109-112 | a line gives a record exactly when it holds the separator |
| Fetchers.EntriesOfRecordLines | youtube_scanner.py:107-114 | one record per kept line, in line order, parsed from that line's fields |
| Fetchers.NoSeparatorNoRecords | youtube_scanner.py:107-114 | output without the separator, including the empty output of a timeout, yields no record |
| Fetchers.EntriesOf | youtube_scanner.py:107-113 | the records read from the lines: no more than the lines, and each is the record of one of the lines |
| Fetchers.ReadVideos | youtube_scanner.py:107-114 | the loop of `get_playlist_videos` / `get_channel_videos` builds exactly the records of the lines |
| Fetchers.VideoDetails | youtube_scanner.py:147-156 | details exist exactly when the output holds the separator; availability is field 2 of the stripped output (or "unknown"); the upload date is field 3 (or "NA"), normalized |
| Fetchers.GetChannelPlaylists | youtube_scanner.py:30-52 | one invocation with the playlists-tab arguments; the result is the playlists of its output |
| Fetchers.GetPlaylistVideos | youtube_scanner.py:98-114 | one invocation with the playlist arguments; the result is the records of its output, with availability |
| Fetchers.GetChannelVideos | youtube_scanner.py:117-136 | one invocation with the Videos-tab arguments; the result is the records of its output, without availability |
| Fetchers.GetVideoDetails | youtube_scanner.py:139-156 | one invocation with the watch-page arguments; the result is the details of its output |
| Aggregator.PlaylistQueries | youtube_scanner.py:163-167 | one listing per playlist, in playlist order, for that playlist's url |
| Aggregator.TaggedRecords | youtube_scanner.py:169-170 | tagging one playlist's listing gives one record per listed video, at the same position, carrying the playlist title |
| Aggregator.Dedup | youtube_scanner.py:169-173 | the kept ids are distinct and non-empty; every kept record comes from the stream; every non-empty id of the stream is kept |
| Aggregator.DedupKeepsFirstSightings | youtube_scanner.py:169-173 | first sighting wins: each kept record is the first one in the stream with its id, and the records are in the order their ids first occur |
| Aggregator.DedupIdempotent | youtube_scanner.py:172-173 | deduplicating the kept records again changes nothing |
| Aggregator.DedupOfDistinct | youtube_scanner.py:172-173 | a stream with distinct non-empty ids is kept whole |
| Aggregator.StoreNew | youtube_scanner.py:172-173 | storing a new record under a new key extends the key order and the table by that record |
| Aggregator.Absorb | youtube_scanner.py:170-173 | one video is tagged and stored under its id, unless the id is empty or already a key |
| Aggregator.Merge | youtube_scanner.py:169-173 | the inner loop leaves the table holding the deduplication of the stream so far plus this playlist's tagged videos |
| Aggregator.ScanPlaylist | youtube_scanner.py:166-173 | one listing of the playlist, then its videos merged into the table |
| Aggregator.ScanAllPlaylists | youtube_scanner.py:159-175 | one listing per playlist in order; the table holds the first sighting of every non-empty id, in discovery order, each as a new record tagged with its playlist's title |
| Reconcile.Select | youtube_scanner.py:183-190 | the flagged list is no longer than the records and holds only records |
| Reconcile.SelectAppend | youtube_scanner.py:185-188 | selection distributes over concatenation, so the flagged records keep the list's order and multiplicity |
| Reconcile.Values | youtube_scanner.py:234 | `list(d.values())`: one value per key, the value of each key at that key's position, all of them values of the table |
| Reconcile.SelectMembers | youtube_scanner.py:185-188 | a record is flagged exactly when it sits at a position whose id is not public |
| Reconcile.SelectAllPublic | youtube_scanner.py:185-188 | when every id is public, nothing is flagged |
| Reconcile.SelectNonePublic | youtube_scanner.py:185-188 | when no id is public, every record is flagged, in order |
| Reconcile.SelectDistinct | youtube_scanner.py:183-190 | flagging distinct records gives distinct records |
| Reconcile.FlaggedExactlyUnlisted | youtube_scanner.py:185-188 | a table record is in the flagged list exactly when its key is not public |
| Reconcile.ValuesDistinct | youtube_scanner.py:234 | the dict's values are distinct objects when keys never share a record |
| Reconcile.Marked | youtube_scanner.py:186-187 | flagging keeps the entry and the playlist title, and sets the reason exactly when the id is not public |
| Reconcile.IdentifyUnlisted | youtube_scanner.py:178-190 | returns the non-public records in key order; each of them gets the reason; every other record is unchanged |
| Reconcile.FlagStep | youtube_scanner.py:185-188 | one round: the record gets the reason and is listed when its key is not public |
| Reconcile.Refresh | youtube_scanner.py:204-205 | `video.update(details)`: without details the record is unchanged; with details it takes their availability and upload date, and nothing else changes |
| Reconcile.DetailsFor | youtube_scanner.py:201-203 | a record has details exactly when its id is non-empty and the query output holds the separator |
| Reconcile.Enriched | youtube_scanner.py:197-205 | enrichment changes only availability and upload date, and nothing at all when the id is empty or the output holds no record |
| Reconcile.EnrichedTakesDetails | youtube_scanner.py:147-155 | with an id and a record in the output, the new availability and upload date are fields 2 and 3 of the output |
| Reconcile.EnrichedIdempotent | youtube_scanner.py:204-205 | enriching a record twice leaves it as enriching once does |
| Reconcile.DetailQueries | youtube_scanner.py:201-203 | at most one query per record, and exactly one per record, in order, when every id is non-empty |
| Reconcile.DetailQueriesSkipEmpty | youtube_scanner.py:201-202 | records without an id are never queried |
| Reconcile.EnrichOne | youtube_scanner.py:201-205 | one record: query its id if any, and apply the answer when it holds a record |
| Reconcile.EnrichStep | youtube_scanner.py:197-205 | one round of the loop: the log gains this record's query, and records up to this one are enriched |
| Reconcile.EnrichAll | youtube_scanner.py:197-205 | the loop: one query per non-empty id in list order, and every record refreshed with its own answer |
| Reconcile.FetchDetailedMetadata | youtube_scanner.py:193-205 | the log gains exactly the detail queries of the records' ids, in order, and every record ends in its enriched state |
| Scanner.PublicIds | youtube_scanner.py:224 | the set holds exactly the ids of the public records |
| Scanner.Outcome | youtube_scanner.py:233-245 | a kept record keeps id, title and url and its playlist title; it has the reason exactly when flagged; its entry changes only when flagged and details were asked for |
| Scanner.ScanQueries | youtube_scanner.py:219-245 | the invocations of a scan: the Videos tab only when asked for, then the playlists tab, one listing per playlist, then the detail queries |
| Scanner.NoDetailsQueried | youtube_scanner.py:238-245 | without detail ids, no invocation is a per-video query; every one is a flat listing |
| Scanner.Reconciliation | youtube_scanner.py:238-245 | the flagged list is the non-public records in key order; details are queried only when asked for; each record ends in its outcome |
| Scanner.FlagUnlisted | youtube_scanner.py:239 | the non-public records are flagged and listed; the flagged ids are the non-public keys; the others are unchanged |
| Scanner.EnrichFlagged | youtube_scanner.py:244-245 | over any records containing the flagged list: the flagged ones end enriched and the others keep their state; the log gains one query per non-empty flagged id, in order |
| Scanner.EnrichUnlisted | youtube_scanner.py:244-245 | each flagged record of the table ends in its detailed outcome, and each unflagged one keeps its state; the log gains the queries of the flagged ids |
| Scanner.Settle | youtube_scanner.py:234-245 | the playlist videos are the table's distinct records in key order; the flagged list and the outcomes follow the gating |
| Scanner.ScanChannel | youtube_scanner.py:208-247 | the public records only when asked for; the listed playlists; one distinct new record per kept video, each in its outcome; flagged records only when asked for, and those are the playlist videos with non-public ids; the exact sequence of invocations |

## Left out

- Running yt-dlp (`run_ytdlp`): the subprocess, the 300-second timeout and `sys.exit(1)` when yt-dlp is missing are not modelled. The extractor is an object answering each argument list with a fixed output. A timeout reaches the scanner as the empty output, which `Fetchers.NoSeparatorNoRecords` covers.
- The extractor is assumed deterministic: the same argument list always gets the same output within one scan.
- `datetime.fromtimestamp(...).strftime` and `int()` are parameters (`Dates.Runtime`): an uninterpreted total date function and an abstract partial integer parser. The date function also stands for the "NA" answer given where `fromtimestamp` raises `ValueError`, which the code catches. The `OverflowError`/`OSError` that `fromtimestamp` can raise and the code does not catch are not modelled.
- `datetime.now()` for the scan date is a parameter of `ScanChannel`.
- `print_results`, `save_results`, `get_default_filename` and `main` are not modelled: console output, JSON and link-file writing, argument parsing. The line written per video is modelled by `FormatVideoLine`.
- Progress messages and the truncation of titles for display are not modelled.
- The `isinstance` / `dict(video)` checks in `_fetch_detailed_metadata` are not modelled: every record is a video record. A missing key read with `.get(k, '')` is the empty string.
- The fetchers return values (`Entry`); the record object is created when the aggregator first stores an id. Python tags each fetched dict with its playlist title before the duplicate check, but a dropped duplicate is never seen again, so the difference is not observable.
- FetchDetailedMetadata: requires the records it is given to be distinct objects. Its only caller passes the flagged records of a dict, which are distinct.

