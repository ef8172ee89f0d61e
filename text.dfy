/**
 * The handful of Python string operations the scanner relies on, written out:
 * `pat in s`, `s.split(sep)`, `s.split(sep, 1)`, `s.strip()` and
 * `s.rstrip(c)`; `sep.join(parts)` is not called by the scanner and serves
 * only to state what a split gives back.
 */
module Text {
  import opened Wrappers

  /** `pat` occurs in `s` starting at index `i`. */
  predicate OccursAt(s: string, pat: string, i: nat) {
    i + |pat| <= |s| && s[i..i + |pat|] == pat
  }

  /** Leftmost index at or after `from` where `pat` occurs in `s`. */
  function FindFrom(s: string, pat: string, from: nat): (r: Option<nat>)
    ensures r.Some? ==> from <= r.value && OccursAt(s, pat, r.value)
    ensures r.Some? ==> forall j: nat :: from <= j < r.value ==> !OccursAt(s, pat, j)
    ensures r.None? ==> forall j: nat :: from <= j ==> !OccursAt(s, pat, j)
    decreases |s| - from
  {
    if from + |pat| > |s| then None
    else if s[from..from + |pat|] == pat then Some(from)
    else FindFrom(s, pat, from + 1)
  }

  /** Leftmost occurrence of `pat` in `s` (Python's `s.find(pat)`, with None for -1). */
  function Find(s: string, pat: string): (r: Option<nat>)
    ensures r.Some? ==> OccursAt(s, pat, r.value)
    ensures r.Some? ==> forall j: nat :: j < r.value ==> !OccursAt(s, pat, j)
    ensures r.None? ==> forall j: nat :: !OccursAt(s, pat, j)
  {
    FindFrom(s, pat, 0)
  }

  /** Python's `pat in s`. */
  predicate Contains(s: string, pat: string) {
    Find(s, pat).Some?
  }

  lemma OccursInPrefix(s: string, t: string, pat: string, j: nat)
    requires OccursAt(s, pat, j)
    ensures OccursAt(s + t, pat, j)
  {
    assert (s + t)[j..j + |pat|] == s[j..j + |pat|];
  }

  lemma OccursInSlice(s: string, a: nat, b: nat, pat: string, j: nat)
    requires a <= b <= |s|
    requires OccursAt(s[a..b], pat, j)
    ensures OccursAt(s, pat, a + j)
  {
    forall k | 0 <= k < |pat|
      ensures s[a + j..a + j + |pat|][k] == pat[k]
    {
      assert s[a..b][j..j + |pat|][k] == pat[k];
    }
  }

  /**
   * Once the leftmost occurrence lies wholly inside `s`, appending text
   * cannot move it.
   */
  lemma {:induction false} FindAppend(s: string, t: string, pat: string)
    requires Find(s, pat).Some?
    ensures Find(s + t, pat) == Find(s, pat)
  {
    var i := Find(s, pat).value;
    OccursInPrefix(s, t, pat, i);
    forall j: nat | j < i
      ensures !OccursAt(s + t, pat, j)
    {
      assert !OccursAt(s, pat, j);
      assert (s + t)[j..j + |pat|] == s[j..j + |pat|];
    }
  }

  /** Python's `sep.join(parts)`. */
  function Join(parts: seq<string>, sep: string): (r: string)
    decreases |parts|
  {
    if parts == [] then []
    else if |parts| == 1 then parts[0]
    else parts[0] + sep + Join(parts[1..], sep)
  }

  /**
   * Python's `s.split(sep)` for a non-empty separator: cut at the leftmost
   * occurrence, then go on splitting what follows it.
   */
  function Split(s: string, sep: string): (parts: seq<string>)
    requires sep != []
    ensures |parts| >= 1
    ensures Contains(s, sep) <==> |parts| >= 2
    decreases |s|
  {
    match Find(s, sep)
    case None => [s]
    case Some(i) => [s[..i]] + Split(s[i + |sep|..], sep)
  }

  /**
   * The fields of a split join back into the text, none of them holds the
   * separator, every field but the last is cleanly closed by the separator
   * that follows it, and with two fields or more the first ends where the
   * leftmost separator starts.
   */
  lemma SplitFields(s: string, sep: string)
    requires sep != []
    ensures Join(Split(s, sep), sep) == s
    ensures forall k :: 0 <= k < |Split(s, sep)| ==> !Contains(Split(s, sep)[k], sep)
    ensures forall k :: 0 <= k < |Split(s, sep)| - 1 ==> Delimited(Split(s, sep)[k], sep)
    ensures |Split(s, sep)| >= 2 ==> Find(s, sep) == Some(|Split(s, sep)[0]|)
  {
    SplitJoinsBack(s, sep);
    SplitFieldsDelimited(s, sep);
  }

  /** The fields of a split join back into the text and none of them holds the separator. */
  lemma {:induction false} SplitJoinsBack(s: string, sep: string)
    requires sep != []
    ensures Join(Split(s, sep), sep) == s
    ensures forall k :: 0 <= k < |Split(s, sep)| ==> !Contains(Split(s, sep)[k], sep)
    ensures |Split(s, sep)| >= 2 ==> Find(s, sep) == Some(|Split(s, sep)[0]|)
    decreases |s|
  {
    match Find(s, sep)
    case None =>
    case Some(i) =>
      var head, rest := s[..i], s[i + |sep|..];
      var parts, tail := Split(s, sep), Split(rest, sep);
      SplitJoinsBack(rest, sep);
      assert parts == [head] + tail;
      HeadAtLeftmost(s, sep, i);
      assert Join(parts, sep) == head + sep + Join(tail, sep);
      forall k | 1 <= k < |parts|
        ensures !Contains(parts[k], sep)
      {
        assert parts[k] == tail[k - 1];
      }
  }

  /** Every field of a split but the last is cleanly closed by the separator that follows it. */
  lemma {:induction false} SplitFieldsDelimited(s: string, sep: string)
    requires sep != []
    ensures forall k :: 0 <= k < |Split(s, sep)| - 1 ==> Delimited(Split(s, sep)[k], sep)
    decreases |s|
  {
    match Find(s, sep)
    case None =>
    case Some(i) =>
      var rest := s[i + |sep|..];
      var parts, tail := Split(s, sep), Split(rest, sep);
      assert parts == [s[..i]] + tail;
      SplitFieldsDelimited(rest, sep);
      HeadDelimited(s, sep, i);
      forall k | 1 <= k < |parts| - 1
        ensures Delimited(parts[k], sep)
      {
        assert parts[k] == tail[k - 1];
      }
  }

  /** The head cut at the leftmost occurrence is cleanly closed by the separator. */
  lemma HeadDelimited(s: string, sep: string, i: nat)
    requires sep != [] && Find(s, sep) == Some(i)
    ensures Delimited(s[..i], sep)
  {
    var hs := s[..i] + sep;
    assert s == hs + s[i + |sep|..] by { HeadAtLeftmost(s, sep, i); }
    assert hs[i..i + |sep|] == sep;
    assert OccursAt(hs, sep, i);
    match Find(hs, sep)
    case None =>
    case Some(j) =>
      if j < i {
        OccursInPrefix(hs, s[i + |sep|..], sep, j);
        assert false;
      }
  }

  /** Cutting at the leftmost occurrence: the head holds none, and head, separator and rest rebuild the text. */
  lemma HeadAtLeftmost(s: string, sep: string, i: nat)
    requires sep != [] && Find(s, sep) == Some(i)
    ensures !Contains(s[..i], sep)
    ensures s == s[..i] + sep + s[i + |sep|..]
  {
    forall j | OccursAt(s[..i], sep, j)
      ensures false
    {
      OccursInSlice(s, 0, i, sep, j);
    }
    assert s[i..i + |sep|] == sep;
  }

  /**
   * A field that the separator cleanly closes: gluing `sep` after `p`
   * puts the leftmost occurrence exactly at the end of `p`.
   */
  predicate Delimited(p: string, sep: string) {
    Find(p + sep, sep) == Some(|p|)
  }

  /**
   * Splitting undoes joining when every field but the last is cleanly
   * closed by the separator and the last holds none.
   */
  lemma {:induction false} SplitJoin(parts: seq<string>, sep: string)
    requires sep != [] && |parts| >= 1
    requires forall k :: 0 <= k < |parts| - 1 ==> Delimited(parts[k], sep)
    requires !Contains(parts[|parts| - 1], sep)
    ensures Split(Join(parts, sep), sep) == parts
  {
    if |parts| > 1 {
      var tail := parts[1..];
      assert Join(parts, sep) == (parts[0] + sep) + Join(tail, sep);
      SplitDelimitedHead(parts[0], sep, Join(tail, sep));
      assert tail[|tail| - 1] == parts[|parts| - 1];
      assert forall k :: 0 <= k < |tail| - 1 ==> tail[k] == parts[k + 1];
      SplitJoin(tail, sep);
    }
  }

  /** A cleanly closed head field comes off first, and the split goes on with what follows its separator. */
  lemma SplitDelimitedHead(p: string, sep: string, rest: string)
    requires sep != [] && Delimited(p, sep)
    ensures Split((p + sep) + rest, sep) == [p] + Split(rest, sep)
  {
    var whole := (p + sep) + rest;
    FindAppend(p + sep, rest, sep);
    SplitAt(whole, sep, |p|);
    assert whole[..|p|] == p;
    assert whole[|p| + |sep|..] == rest;
  }

  /** Splitting at a found separator: the head field, then the split of the rest. */
  lemma SplitAt(s: string, sep: string, i: nat)
    requires sep != [] && Find(s, sep) == Some(i)
    ensures Split(s, sep) == [s[..i]] + Split(s[i + |sep|..], sep)
  {
  }

  /**
   * Python's `s.split(sep, 1)` on a string that holds `sep`: the text
   * before the leftmost occurrence and everything after it.
   */
  function SplitFirst(s: string, sep: string): (r: Option<(string, string)>)
    requires sep != []
    ensures r.Some? <==> Contains(s, sep)
    ensures r.Some? ==> r.value.0 + sep + r.value.1 == s
    ensures r.Some? ==> !Contains(r.value.0, sep)
    ensures r.Some? ==> Find(s, sep) == Some(|r.value.0|)
  {
    var parts := Split(s, sep);
    SplitFields(s, sep);
    if |parts| >= 2 then
      var i := |parts[0]|;
      assert s[..i] + sep + s[i + |sep|..] == s by {
        assert OccursAt(s, sep, i);
      }
      Some((s[..i], s[i + |sep|..]))
    else None
  }

  /** The first field of `split(sep, 1)` is the first field of `split(sep)`; its second joins the rest back. */
  lemma SplitFirstAgreesWithSplit(s: string, sep: string)
    requires sep != [] && Contains(s, sep)
    ensures SplitFirst(s, sep).value.0 == Split(s, sep)[0]
    ensures SplitFirst(s, sep).value.1 == Join(Split(s, sep)[1..], sep)
  {
    var i := Find(s, sep).value;
    assert Split(s, sep)[1..] == Split(s[i + |sep|..], sep);
  }

  /** The code points Python's `str.strip()` removes (`str.isspace()`). */
  predicate IsSpace(c: char) {
    var n := c as int;
    || 9 <= n <= 13 || 28 <= n <= 32
    || n == 0x85 || n == 0xA0 || n == 0x1680
    || 0x2000 <= n <= 0x200A
    || n == 0x2028 || n == 0x2029 || n == 0x202F || n == 0x205F || n == 0x3000
  }

  /** The index of the first non-whitespace character at or after `i` (`|s|` when there is none). */
  function SkipSpace(s: string, i: nat): (j: nat)
    requires i <= |s|
    ensures i <= j <= |s|
    ensures forall k :: i <= k < j ==> IsSpace(s[k])
    ensures j < |s| ==> !IsSpace(s[j])
    decreases |s| - i
  {
    if i < |s| && IsSpace(s[i]) then SkipSpace(s, i + 1) else i
  }

  /** `s.rstrip()`. */
  function TrimEndSpace(s: string): (r: string)
    ensures |r| <= |s| && r == s[..|r|]
    ensures forall k :: |r| <= k < |s| ==> IsSpace(s[k])
    ensures r != [] ==> !IsSpace(r[|r| - 1])
    decreases |s|
  {
    if s != [] && IsSpace(s[|s| - 1]) then TrimEndSpace(s[..|s| - 1]) else s
  }

  /** `s.rstrip(c)`. */
  function TrimEnd(s: string, c: char): (r: string)
    ensures |r| <= |s| && r == s[..|r|]
    ensures forall k :: |r| <= k < |s| ==> s[k] == c
    ensures r != [] ==> r[|r| - 1] != c
    decreases |s|
  {
    if s != [] && s[|s| - 1] == c then TrimEnd(s[..|s| - 1], c) else s
  }

  /** `s.strip()`: `lstrip()` skips the leading whitespace, then `rstrip()` drops the trailing. */
  function Strip(s: string): (r: string)
    ensures var a := SkipSpace(s, 0);
      a + |r| <= |s| && r == s[a..a + |r|]
  {
    var a := SkipSpace(s, 0);
    var r := TrimEndSpace(s[a..]);
    SliceOfSuffix(s, a, |r|);
    r
  }

  lemma SliceOfSuffix(s: string, a: nat, n: nat)
    requires a + n <= |s|
    ensures s[a..][..n] == s[a..a + n]
  {
  }

  /**
   * What `strip()` drops, before and after the slice it keeps, is
   * whitespace only, and the slice neither starts nor ends with whitespace.
   */
  lemma StripDropsOnlySpace(s: string)
    ensures var a, r := SkipSpace(s, 0), Strip(s);
      && (forall k :: 0 <= k < a ==> IsSpace(s[k]))
      && (forall k :: a + |r| <= k < |s| ==> IsSpace(s[k]))
      && (r != [] ==> !IsSpace(r[0]) && !IsSpace(r[|r| - 1]))
  {
    var a := SkipSpace(s, 0);
    var t := s[a..];
    var r := Strip(s);
    assert r == TrimEndSpace(t);
    forall k | a + |r| <= k < |s|
      ensures IsSpace(s[k])
    {
      assert s[k] == t[k - a];
    }
  }
}
