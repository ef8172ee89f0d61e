/**
 * The records the scanner handles: a video entry as parsed from one output
 * line, a playlist, and the video record object that the aggregator,
 * the reconciliation pass and the enrichment pass share and update in place.
 */
module Records {
  import opened Wrappers
  import opened Text
  import opened Dates

  /** The field separator in every line the extractor prints. */
  const Sep := "|||"

  const WatchUrlPrefix := "https://www.youtube.com/watch?v="
  const PlaylistUrlPrefix := "https://www.youtube.com/playlist?list="

  /** The five keys `parse_video_entry` builds. */
  datatype Entry = Entry(id: string, title: string, url: string, availability: string, uploadDate: string)

  /** A playlist record; never changed after it is built. */
  datatype Playlist = Playlist(id: string, title: string, url: string)

  /** A snapshot of a video record: its entry keys plus the two keys added later, when present. */
  datatype VideoState = VideoState(entry: Entry, foundInPlaylist: Option<string>, reason: Option<string>)

  /** A video record (a Python dict shared by reference between result lists). */
  class Video {
    var id: string
    var title: string
    var url: string
    var availability: string
    var uploadDate: string
    var foundInPlaylist: Option<string>
    var reason: Option<string>

    /** A record fresh from a fetcher: the five parsed keys and nothing else. */
    constructor (e: Entry)
      ensures State() == VideoState(e, None, None)
    {
      id, title, url, availability, uploadDate := e.id, e.title, e.url, e.availability, e.uploadDate;
      foundInPlaylist, reason := None, None;
    }

    function State(): VideoState
      reads this
    {
      VideoState(Entry(id, title, url, availability, uploadDate), foundInPlaylist, reason)
    }
  }

  /** No two positions hold the same value (for objects: the same reference). */
  predicate Distinct<T(==)>(xs: seq<T>) {
    forall i, j :: 0 <= i < j < |xs| ==> xs[i] != xs[j]
  }

  /** `parts[i] if len(parts) > i else default`. */
  function FieldOr(parts: seq<string>, i: nat, default: string): string {
    if i < |parts| then parts[i] else default
  }

  /**
   * `parse_video_entry(parts, include_availability)`. With the flag the
   * availability is field 2 and the dates start at field 3; without it the
   * record is public and the dates start at field 2.
   */
  function ParseVideoEntry(parts: seq<string>, withAvailability: bool, rt: Runtime): (e: Entry)
    requires |parts| >= 2
    ensures e.id == parts[0] && e.title == parts[1] && e.url == WatchUrlPrefix + e.id
    ensures withAvailability ==> e.availability == FieldOr(parts, 2, "unknown")
    ensures !withAvailability ==> e.availability == "public"
    ensures var first := if withAvailability then 3 else 2;
      e.uploadDate == FormatDate(FieldOr(parts, first, NA), FieldOr(parts, first + 1, NA), rt)
  {
    var id, title := parts[0], parts[1];
    var availability := if withAvailability then (if |parts| > 2 then parts[2] else "unknown") else "public";
    var first := if withAvailability then 3 else 2;
    var dateRaw := if |parts| > first then parts[first] else NA;
    var timestamp := if |parts| > first + 1 then parts[first + 1] else NA;
    Entry(id, title, WatchUrlPrefix + id, availability, FormatDate(dateRaw, timestamp, rt))
  }

  /**
   * A line the extractor prints with the playlist template
   * `id|||title|||availability|||upload_date|||timestamp` is parsed back
   * into exactly the fields it was printed from, as long as each field is
   * cleanly closed by the separator.
   */
  lemma PrintedVideoLineParsesBack(id: string, title: string, availability: string,
                                   date: string, timestamp: string, rt: Runtime)
    requires Delimited(id, Sep) && Delimited(title, Sep) && Delimited(availability, Sep)
    requires Delimited(date, Sep) && !Contains(timestamp, Sep)
    ensures var parts := Split(Join([id, title, availability, date, timestamp], Sep), Sep);
      && parts == [id, title, availability, date, timestamp]
      && ParseVideoEntry(parts, true, rt)
         == Entry(id, title, WatchUrlPrefix + id, availability, FormatDate(date, timestamp, rt))
  {
    SplitJoin([id, title, availability, date, timestamp], Sep);
  }

  /** The text `format_video_line` writes to the links file for one record. */
  function FormatVideoLine(uploadDate: Option<string>, url: Option<string>, title: Option<string>): (line: string)
    ensures |line| >= 6 && line[0] == '[' && line[|line| - 1] == '\n'
  {
    "[" + uploadDate.UnwrapOr("N/A") + "] " + url.UnwrapOr("") + " - " + title.UnwrapOr("") + "\n"
  }

  /**
   * Reads a links-file line back into (date, url, title): the date runs to
   * the first "] ", the url to the first " - " after it.
   */
  function ParseVideoLine(line: string): Option<(string, string, string)> {
    if |line| < 2 || line[0] != '[' || line[|line| - 1] != '\n' then None
    else
      var body := line[1..|line| - 1];
      match SplitFirst(body, "] ")
      case None => None
      case Some((date, more)) =>
        match SplitFirst(more, " - ")
        case None => None
        case Some((url, title)) => Some((date, url, title))
  }

  predicate Avoids(s: string, c: char) {
    forall k :: 0 <= k < |s| ==> s[k] != c
  }

  /** When no character of `a` starts `pat`, the leftmost `pat` in `a + pat + rest` is right after `a`. */
  lemma FindAfterAvoiding(a: string, pat: string, rest: string)
    requires pat != [] && Avoids(a, pat[0])
    ensures Find(a + pat + rest, pat) == Some(|a|)
  {
    var s := a + pat + rest;
    assert s[|a|..|a| + |pat|] == pat;
    assert OccursAt(s, pat, |a|);
    forall j: nat | j < |a|
      ensures !OccursAt(s, pat, j)
    {
      assert s[j] == a[j];
    }
  }

  /**
   * The links-file line of a record gives back its date, url and title, with
   * "N/A" for a missing date and "" for a missing url or title, provided the
   * date written holds no ']' and the url written no space.
   */
  lemma VideoLineRoundTrip(uploadDate: Option<string>, url: Option<string>, title: Option<string>)
    requires Avoids(uploadDate.UnwrapOr("N/A"), ']') && Avoids(url.UnwrapOr(""), ' ')
    ensures ParseVideoLine(FormatVideoLine(uploadDate, url, title))
      == Some((uploadDate.UnwrapOr("N/A"), url.UnwrapOr(""), title.UnwrapOr("")))
  {
    var date, link, name := uploadDate.UnwrapOr("N/A"), url.UnwrapOr(""), title.UnwrapOr("");
    assert FormatVideoLine(uploadDate, url, title) == "[" + date + "] " + link + " - " + name + "\n";
    LineRoundTrip(date, link, name);
  }

  /** The written line `[date] url - title` reads back into its three parts. */
  lemma LineRoundTrip(date: string, link: string, name: string)
    requires Avoids(date, ']') && Avoids(link, ' ')
    ensures ParseVideoLine("[" + date + "] " + link + " - " + name + "\n") == Some((date, link, name))
  {
    var line := "[" + date + "] " + link + " - " + name + "\n";
    var body := line[1..|line| - 1];
    var more := link + " - " + name;
    assert body == date + "] " + more;
    FindAfterAvoiding(date, "] ", more);
    assert body[..|date|] == date && body[|date| + 2..] == more;
    FindAfterAvoiding(link, " - ", name);
    assert more[..|link|] == link && more[|link| + 3..] == name;
  }
}
