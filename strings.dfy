/** The two Go library searches the core relies on: `bytes.IndexByte` (and
    `strings.Index` with a one-character separator) and `strings.SplitN`. */
module Strings {
  import opened Wrappers

  /** Index of the first occurrence of `x` in `s`; None stands for Go's -1. */
  function IndexOf<T(==)>(s: seq<T>, x: T): (r: Option<nat>)
    ensures r.None? <==> x !in s
    ensures r.Some? ==> r.value < |s| && s[r.value] == x && x !in s[..r.value]
  {
    if s == [] then None
    else if s[0] == x then Some(0)
    else match IndexOf(s[1..], x)
      case None => None
      case Some(i) =>
        assert s[..i + 1] == [s[0]] + s[1..][..i];
        Some(i + 1)
  }

  /** The parts glued back together with `sep` between neighbours. */
  function JoinWith<T>(parts: seq<seq<T>>, sep: T): seq<T>
  {
    if parts == [] then []
    else if |parts| == 1 then parts[0]
    else parts[0] + [sep] + JoinWith(parts[1..], sep)
  }

  /** `strings.SplitN(s, sep, n)` for a one-character separator and n >= 0:
      at most n parts, cut at the first n - 1 separators, the last part
      holding the unsplit rest. */
  function SplitN<T(==)>(s: seq<T>, sep: T, n: nat): (parts: seq<seq<T>>)
    ensures n == 0 ==> parts == []
    ensures n >= 1 ==> 1 <= |parts| <= n && JoinWith(parts, sep) == s
    ensures forall k :: 0 <= k < |parts| - 1 ==> sep !in parts[k]
    ensures 0 < |parts| < n ==> sep !in parts[|parts| - 1]
    decreases n
  {
    if n == 0 then []
    else if n == 1 then [s]
    else match IndexOf(s, sep)
      case None => [s]
      case Some(i) =>
        var rest := SplitN(s[i + 1..], sep, n - 1);
        SplitCons(s, sep, i, rest);
        [s[..i]] + rest
  }

  /** Cutting at the separator at `i` and splitting the rest gives parts that
      re-join to `s` and keep the separator out of all but the last part. */
  lemma SplitCons<T>(s: seq<T>, sep: T, i: nat, rest: seq<seq<T>>)
    requires i < |s| && s[i] == sep && sep !in s[..i]
    requires rest != [] && JoinWith(rest, sep) == s[i + 1..]
    requires forall k :: 0 <= k < |rest| - 1 ==> sep !in rest[k]
    ensures JoinWith([s[..i]] + rest, sep) == s
    ensures forall k :: 0 <= k < |rest| ==> sep !in ([s[..i]] + rest)[k]
  {
    JoinWithCons(s[..i], rest, sep);
    CutAt(s, i);
    forall k | 0 <= k < |rest| ensures sep !in ([s[..i]] + rest)[k] {
      if k > 0 { assert ([s[..i]] + rest)[k] == rest[k - 1]; }
    }
  }

  /** A sequence is the part before index `i`, the element at `i`, and the part after. */
  lemma CutAt<T>(s: seq<T>, i: nat)
    requires i < |s|
    ensures s == s[..i] + [s[i]] + s[i + 1..]
  {
    assert s == s[..i] + s[i..];
    assert s[i..] == [s[i]] + s[i + 1..];
  }

  lemma JoinWithCons<T>(head: seq<T>, tail: seq<seq<T>>, sep: T)
    requires tail != []
    ensures JoinWith([head] + tail, sep) == head + [sep] + JoinWith(tail, sep)
  {
    assert ([head] + tail)[1..] == tail;
  }
}
