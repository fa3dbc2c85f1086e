/** Python's `str.split(sep)`, `str.split(sep, 1)` and `sep.join(parts)` on
    strings, for a non-empty separator. Python scans left to right and cuts
    at the leftmost occurrence of `sep` at or after the current position,
    so occurrences never overlap. */
module PyStr {
  import opened Wrappers

  /** `sep` occurs in `s` starting at index `k`. */
  predicate OccursAt(s: string, sep: string, k: int)
  {
    0 <= k && k + |sep| <= |s| && s[k..k + |sep|] == sep
  }

  /** Python's `sep in s`. */
  predicate Contains(s: string, sep: string)
  {
    exists k :: 0 <= k <= |s| && OccursAt(s, sep, k)
  }

  /** Python's `s.find(sep, from)`: the leftmost occurrence at or after `from`. */
  function Find(s: string, sep: string, from: nat): (r: Option<nat>)
    decreases |s| - from
    ensures r.Some? ==> from <= r.value && OccursAt(s, sep, r.value)
    ensures r.Some? ==> forall j :: from <= j < r.value ==> !OccursAt(s, sep, j)
    ensures r.None? ==> forall j :: from <= j ==> !OccursAt(s, sep, j)
  {
    if from + |sep| > |s| then None
    else if s[from..from + |sep|] == sep then Some(from)
    else Find(s, sep, from + 1)
  }

  /** Python's `sep.join(parts)`: the first part, then `sep` right after it
      when more parts follow, and the last part at the end. */
  function Join(sep: string, parts: seq<string>): (r: string)
  {
    if |parts| == 0 then ""
    else if |parts| == 1 then parts[0]
    else parts[0] + sep + Join(sep, parts[1..])
  }

  lemma JoinCons(sep: string, head: string, tail: seq<string>)
    requires |tail| >= 1
    ensures Join(sep, [head] + tail) == head + sep + Join(sep, tail)
  {
    assert ([head] + tail)[1..] == tail;
  }

  /** The part of `s` before its first occurrence of `sep` contains no `sep`. */
  lemma PrefixBeforeFirstOccurrence(s: string, sep: string, k: nat)
    requires |sep| > 0 && k <= |s|
    requires forall j :: 0 <= j < k ==> !OccursAt(s, sep, j)
    ensures !Contains(s[..k], sep)
  {
    forall j | OccursAt(s[..k], sep, j)
      ensures false
    {
      assert s[..k][j..j + |sep|] == s[j..j + |sep|];
      assert OccursAt(s, sep, j);
    }
  }

  /** Cutting `s` at an occurrence of `sep` at `k`. */
  lemma CutAt(s: string, sep: string, k: nat)
    requires OccursAt(s, sep, k)
    ensures s == s[..k] + sep + s[k + |sep|..]
    ensures Contains(s, sep)
  {
    assert s[k..k + |sep|] == sep;
    assert s == s[..k] + s[k..k + |sep|] + s[k + |sep|..];
  }

  /** Python's `s.split(sep)`: the pieces between the successive leftmost
      occurrences of `sep`; joining them back with `sep` gives `s`, and no
      piece contains `sep`. `"".split(sep)` is `[""]`. */
  function Split(s: string, sep: string): (parts: seq<string>)
    requires |sep| > 0
    decreases |s|
    ensures |parts| >= 1
    ensures Join(sep, parts) == s
    ensures forall i :: 0 <= i < |parts| ==> !Contains(parts[i], sep)
    ensures |parts| == 1 <==> !Contains(s, sep)
    ensures |parts| > 1 ==> Find(s, sep, 0) == Some(|parts[0]|)
  {
    match Find(s, sep, 0)
    case None => [s]
    case Some(k) =>
      PrefixBeforeFirstOccurrence(s, sep, k);
      CutAt(s, sep, k);
      var rest := Split(s[k + |sep|..], sep);
      JoinCons(sep, s[..k], rest);
      [s[..k]] + rest
  }

  /** Python's `s.split(sep, 1)`: at most one cut, at the first occurrence. */
  function SplitOnce(s: string, sep: string): (parts: seq<string>)
    requires |sep| > 0
    ensures 1 <= |parts| <= 2
    ensures Join(sep, parts) == s
    ensures |parts| == 1 <==> !Contains(s, sep)
    ensures !Contains(parts[0], sep)
    ensures |parts| == 2 ==> Find(s, sep, 0) == Some(|parts[0]|)
  {
    match Find(s, sep, 0)
    case None => [s]
    case Some(k) =>
      PrefixBeforeFirstOccurrence(s, sep, k);
      CutAt(s, sep, k);
      [s[..k], s[k + |sep|..]]
  }
}
