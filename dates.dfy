/**
 * The date normalizer: turns the raw `upload_date` and `timestamp` fields
 * printed by the extractor into one `YYYY-MM-DD` string or the marker "NA".
 */
module Dates {
  import opened Wrappers

  /**
   * The two pieces of the Python runtime the normalizer calls:
   * `int(text)` (None where it raises ValueError) and
   * `datetime.fromtimestamp(n).strftime("%Y-%m-%d")`, which depends on the
   * local time zone and is left uninterpreted. Where `fromtimestamp` raises
   * ValueError (a year past 9999, say) the scanner catches it and answers
   * "NA", so `localDate` stands for that answer too.
   */
  datatype Runtime = Runtime(parseInt: string -> Option<int>, localDate: int -> string)

  /** The "no value" marker the extractor prints and the scanner emits. */
  const NA := "NA"

  /** A field Python treats as present: truthy and not the "NA" marker. */
  predicate Present(field: string) {
    field != "" && field != NA
  }

  /** The compact `YYYYMMDD` form of a dashed `YYYY-MM-DD` string. */
  function Undash(date: string): string
    requires |date| == 10
  {
    date[..4] + date[5..7] + date[8..]
  }

  /**
   * `format_date(date_raw, timestamp)`. `None` arguments behave exactly as
   * empty strings (both are falsy), so the model takes strings.
   */
  function FormatDate(dateRaw: string, timestamp: string, rt: Runtime): (r: string)
    // An 8-character date is re-cut into YYYY-MM-DD; removing the dashes gives it back.
    ensures Present(dateRaw) && |dateRaw| == 8 ==>
      |r| == 10 && r[4] == '-' && r[7] == '-' && Undash(r) == dateRaw
    // Otherwise a present timestamp decides: its local date, or "NA" if it is no integer.
    ensures |dateRaw| != 8 && Present(timestamp) && rt.parseInt(timestamp).Some? ==>
      r == rt.localDate(rt.parseInt(timestamp).value)
    ensures |dateRaw| != 8 && Present(timestamp) && rt.parseInt(timestamp).None? ==> r == NA
    // Otherwise the raw date passes through, and an empty one becomes "NA".
    ensures |dateRaw| != 8 && !Present(timestamp) ==> r == (if dateRaw == "" then NA else dateRaw)
  {
    if Present(dateRaw) && |dateRaw| == 8 then
      var dashed := dateRaw[0..4] + "-" + dateRaw[4..6] + "-" + dateRaw[6..8];
      assert Undash(dashed) == dateRaw by {
        assert dashed[..4] == dateRaw[..4] && dashed[5..7] == dateRaw[4..6] && dashed[8..] == dateRaw[6..];
        assert dateRaw == dateRaw[..4] + dateRaw[4..6] + dateRaw[6..];
      }
      dashed
    else if Present(timestamp) then
      match rt.parseInt(timestamp)
      case Some(n) => rt.localDate(n)
      case None => NA
    else if dateRaw != "" then dateRaw
    else NA
  }

  /** For an 8-character date the timestamp and the runtime play no part. */
  lemma CompactDateIgnoresTimestamp(dateRaw: string, t1: string, t2: string, rt1: Runtime, rt2: Runtime)
    requires |dateRaw| == 8
    ensures FormatDate(dateRaw, t1, rt1) == FormatDate(dateRaw, t2, rt2)
  {
    var r1, r2 := FormatDate(dateRaw, t1, rt1), FormatDate(dateRaw, t2, rt2);
    assert r1 == r1[..4] + [r1[4]] + r1[5..7] + [r1[7]] + r1[8..];
    assert r2 == r2[..4] + [r2[4]] + r2[5..7] + [r2[7]] + r2[8..];
    assert r1[..4] == dateRaw[..4] == r2[..4];
    assert r1[5..7] == dateRaw[4..6] == r2[5..7];
    assert r1[8..] == dateRaw[6..] == r2[8..];
  }

  /** The result is empty only when the runtime's date conversion produced an empty string. */
  lemma FormatDateNonEmpty(dateRaw: string, timestamp: string, rt: Runtime)
    requires forall n :: rt.localDate(n) != ""
    ensures FormatDate(dateRaw, timestamp, rt) != ""
  {
  }

  /** No calendar check: month 13, day 99 pass through structurally. */
  lemma NoCalendarValidation(rt: Runtime)
    ensures FormatDate("20231399", NA, rt) == "2023-13-99"
  {
  }
}
