/**
 * The Python string operations the PoE plugin relies on: `str.startswith`,
 * `str.split(sep)` with an explicit separator, and `sep.join(parts)`.
 */
module PyStr {
  import opened Wrappers

  /** `s.startswith(prefix)`: `s` agrees with `prefix` on every position of `prefix`. */
  predicate StartsWith(s: string, prefix: string)
    ensures StartsWith(s, prefix) <==> |prefix| <= |s| && forall i :: 0 <= i < |prefix| ==> s[i] == prefix[i]
  {
    |prefix| <= |s| && s[..|prefix|] == prefix
  }

  predicate EndsWith(s: string, suffix: string) {
    |suffix| <= |s| && s[|s| - |suffix|..] == suffix
  }

  /** `sep` occurs in `s` starting at index `i`. */
  predicate OccursAt(s: string, sep: string, i: nat) {
    i + |sep| <= |s| && s[i..i + |sep|] == sep
  }

  /** The lowest index at or after `from` where `sep` occurs in `s`. */
  function FindFrom(s: string, sep: string, from: nat): (r: Option<nat>)
    requires |sep| > 0
    decreases |s| - from
    ensures r.Some? ==> from <= r.value && OccursAt(s, sep, r.value)
    ensures r.Some? ==> forall j :: from <= j < r.value ==> !OccursAt(s, sep, j)
    ensures r.None? ==> forall j :: from <= j ==> !OccursAt(s, sep, j)
  {
    if from + |sep| > |s| then None
    else if s[from..from + |sep|] == sep then Some(from)
    else FindFrom(s, sep, from + 1)
  }

  /** `s.split(sep)`: the pieces between the leftmost non-overlapping occurrences of `sep`. */
  function Split(s: string, sep: string): (parts: seq<string>)
    requires |sep| > 0
    decreases |s|
    ensures |parts| >= 1
    ensures |parts| >= 2 <==> FindFrom(s, sep, 0).Some?
  {
    match FindFrom(s, sep, 0)
    case None => [s]
    case Some(i) => [s[..i]] + Split(s[i + |sep|..], sep)
  }

  /**
   * `sep.join(parts)`: no parts give the empty string; otherwise the result
   * begins with the first part and ends with the last.
   */
  function Join(parts: seq<string>, sep: string): (r: string)
    ensures |parts| == 0 ==> r == ""
    ensures |parts| >= 1 ==> StartsWith(r, parts[0]) && EndsWith(r, parts[|parts| - 1])
  {
    if |parts| == 0 then ""
    else if |parts| == 1 then parts[0]
    else
      var rest := Join(parts[1..], sep);
      var r := parts[0] + sep + rest;
      assert r[..|parts[0]|] == parts[0];
      assert r[|r| - |parts[|parts| - 1]|..] == rest[|rest| - |parts[|parts| - 1]|..];
      r
  }

  /** Joining a piece in front of at least one other piece puts a separator between them. */
  lemma JoinCons(head: string, tail: seq<string>, sep: string)
    requires |tail| >= 1
    ensures Join([head] + tail, sep) == head + sep + Join(tail, sep)
  {
  }

  /** Splitting at the first occurrence, at index `i`. */
  lemma SplitFirst(s: string, sep: string, i: nat)
    requires |sep| > 0 && FindFrom(s, sep, 0) == Some(i)
    ensures i + |sep| <= |s| && s == s[..i] + sep + s[i + |sep|..]
    ensures Split(s, sep) == [s[..i]] + Split(s[i + |sep|..], sep)
  {
    assert s[i..] == s[i..i + |sep|] + s[i + |sep|..];
    assert s == s[..i] + s[i..];
  }

  /** Joining the pieces of a split with the same separator gives back the string. */
  lemma {:induction false} SplitJoin(s: string, sep: string)
    requires |sep| > 0
    ensures Join(Split(s, sep), sep) == s
    decreases |s|
  {
    var found := FindFrom(s, sep, 0);
    if found.Some? {
      var i := found.value;
      var rest := s[i + |sep|..];
      SplitFirst(s, sep, i);
      SplitJoin(rest, sep);
      JoinCons(s[..i], Split(rest, sep), sep);
    }
  }

  /** The first occurrence of a one-character separator is the first index holding that character. */
  lemma FirstOccurrence(s: string, sep: string, k: nat)
    requires |sep| == 1 && k < |s| && s[k] == sep[0]
    requires forall j :: 0 <= j < k ==> s[j] != sep[0]
    ensures FindFrom(s, sep, 0) == Some(k)
  {
    assert s[k..k + 1] == sep;
    assert OccursAt(s, sep, k);
  }

  /** A string without the separator character is not split at all. */
  lemma NoOccurrence(s: string, sep: string)
    requires |sep| == 1 && sep[0] !in s
    ensures FindFrom(s, sep, 0) == None
    ensures Split(s, sep) == [s]
  {
  }

  /**
   * Splitting a join gives back the pieces when the separator is one
   * character that none of the pieces contains.
   */
  lemma {:induction false} JoinSplit(parts: seq<string>, sep: string)
    requires |sep| == 1 && |parts| >= 1
    requires forall i :: 0 <= i < |parts| ==> sep[0] !in parts[i]
    ensures Split(Join(parts, sep), sep) == parts
  {
    if |parts| == 1 {
      NoOccurrence(parts[0], sep);
    } else {
      var head, tail := parts[0], parts[1..];
      var rest := Join(tail, sep);
      var s := head + sep + rest;
      assert parts == [head] + tail;
      JoinCons(head, tail, sep);
      forall j | 0 <= j < |head| ensures s[j] != sep[0] {
        assert s[j] == head[j];
      }
      FirstOccurrence(s, sep, |head|);
      SplitFirst(s, sep, |head|);
      assert s[..|head|] == head && s[|head| + 1..] == rest;
      JoinSplit(tail, sep);
    }
  }
}
