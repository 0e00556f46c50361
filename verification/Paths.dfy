/** Slash-separated paths: splitting, joining, and what `filepath.Join` makes of the parts. */
module Paths {
  /** The first position of a character at or after `from`, or the length. */
  function IndexFrom(s: string, c: char, from: nat): (i: nat)
    requires from <= |s|
    ensures from <= i <= |s| && (i < |s| ==> s[i] == c)
    ensures forall j :: from <= j < i ==> s[j] != c
    decreases |s| - from
  {
    if from == |s| || s[from] == c then from else IndexFrom(s, c, from + 1)
  }

  /** strings.Split(s, sep) for a one-character separator. */
  function Split(s: string, sep: char): (parts: seq<string>)
    ensures parts != []
    decreases |s|
  {
    var i := IndexFrom(s, sep, 0);
    if i == |s| then [s] else [s[..i]] + Split(s[i + 1..], sep)
  }

  /** strings.Join(parts, sep). */
  function Join(parts: seq<string>, sep: char): string {
    if parts == [] then ""
    else if |parts| == 1 then parts[0]
    else parts[0] + [sep] + Join(parts[1..], sep)
  }

  lemma {:induction false} JoinSplit(s: string, sep: char)
    ensures Join(Split(s, sep), sep) == s
    ensures forall i :: 0 <= i < |Split(s, sep)| ==> sep !in Split(s, sep)[i]
    decreases |s|
  {
    var i := IndexFrom(s, sep, 0);
    assert sep !in s[..i];
    if i < |s| {
      JoinSplit(s[i + 1..], sep);
      assert Split(s, sep)[1..] == Split(s[i + 1..], sep);
      assert s == s[..i] + [sep] + s[i + 1..];
    } else {
      assert s[..i] == s;
    }
  }

  lemma FirstSeparator(first: string, sep: char, rest: string)
    requires sep !in first
    ensures var s := first + [sep] + rest;
            IndexFrom(s, sep, 0) == |first| && s[..|first|] == first && s[|first| + 1..] == rest
  {
    var s := first + [sep] + rest;
    assert forall j :: 0 <= j < |first| ==> s[j] == first[j] && s[j] in first;
    assert s[|first|] == sep;
  }

  lemma {:induction false} SplitJoin(parts: seq<string>, sep: char)
    requires parts != [] && forall i :: 0 <= i < |parts| ==> sep !in parts[i]
    ensures Split(Join(parts, sep), sep) == parts
    decreases |parts|
  {
    var s := Join(parts, sep);
    var i := IndexFrom(s, sep, 0);
    if |parts| == 1 {
      assert sep !in s;
      assert i == |s|;
    } else {
      var rest := Join(parts[1..], sep);
      assert s == parts[0] + [sep] + rest;
      FirstSeparator(parts[0], sep, rest);
      SplitJoin(parts[1..], sep);
    }
  }

  /** Splitting undoes joining exactly when no part contains the separator. */
  lemma SplitJoinExact(parts: seq<string>, sep: char)
    requires parts != []
    ensures Split(Join(parts, sep), sep) == parts <==> forall i :: 0 <= i < |parts| ==> sep !in parts[i]
  {
    if forall i :: 0 <= i < |parts| ==> sep !in parts[i] {
      SplitJoin(parts, sep);
    } else {
      JoinSplit(Join(parts, sep), sep);
    }
  }

  /** The segments of an absolute path in its shortest form. */
  type Path = seq<string>

  /** Going on from a directory segment by segment: `filepath.Join`, whose result is cleaned. */
  function Resolve(dir: Path, segments: seq<string>): Path
    decreases |segments|
  {
    if segments == [] then dir
    else if segments[0] == "" || segments[0] == "." then Resolve(dir, segments[1..])
    else if segments[0] == ".." then Resolve(if dir == [] then [] else dir[..|dir| - 1], segments[1..])
    else Resolve(dir + [segments[0]], segments[1..])
  }

  /** A segment that names a file or directory of its own. */
  predicate Ordinary(segment: string) {
    segment != "" && segment != "." && segment != ".."
  }

  predicate AllOrdinary(segments: seq<string>) {
    forall i :: 0 <= i < |segments| ==> Ordinary(segments[i])
  }

  lemma {:induction false} ResolveAppend(dir: Path, a: seq<string>, b: seq<string>)
    ensures Resolve(dir, a + b) == Resolve(Resolve(dir, a), b)
    decreases |a|
  {
    if a == [] {
      assert [] + b == b;
    } else {
      assert (a + b)[1..] == a[1..] + b;
      var next := if a[0] == "" || a[0] == "." then dir
                  else if a[0] == ".." then (if dir == [] then [] else dir[..|dir| - 1])
                  else dir + [a[0]];
      ResolveAppend(next, a[1..], b);
    }
  }

  lemma {:induction false} ResolveOrdinary(dir: Path, segments: seq<string>)
    requires AllOrdinary(segments)
    ensures Resolve(dir, segments) == dir + segments
    decreases |segments|
  {
    if segments != [] {
      ResolveOrdinary(dir + [segments[0]], segments[1..]);
      assert dir + [segments[0]] + segments[1..] == dir + segments;
    }
  }

  /** ".." goes up one directory, and stays at the top. */
  lemma ResolveUp(dir: Path, segment: string)
    requires Ordinary(segment)
    ensures Resolve(dir, [segment, ".."]) == dir && Resolve([], [".."]) == []
  {
    assert [segment, ".."][1..] == [".."] && [".."][1..] == [];
    assert (dir + [segment])[..|dir|] == dir;
    assert Resolve(dir + [segment], [".."]) == Resolve(dir, []);
  }

  /** The segments that are not empty. */
  function NonEmpty(segments: seq<string>): seq<string> {
    if segments == [] then []
    else (if segments[0] == "" then [] else [segments[0]]) + NonEmpty(segments[1..])
  }

  /** Without dot segments, cleaning drops the empty segments and nothing else. */
  lemma {:induction false} ResolveDropsEmpty(dir: Path, segments: seq<string>)
    requires forall i :: 0 <= i < |segments| ==> segments[i] != "." && segments[i] != ".."
    ensures Resolve(dir, segments) == dir + NonEmpty(segments)
    decreases |segments|
  {
    if segments != [] {
      ResolveDropsEmpty(if segments[0] == "" then dir else dir + [segments[0]], segments[1..]);
    }
  }

  lemma {:induction false} NonEmptyHas(segments: seq<string>, x: string)
    ensures x in NonEmpty(segments) <==> x in segments && x != ""
  {
    if segments != [] {
      NonEmptyHas(segments[1..], x);
      assert segments == [segments[0]] + segments[1..];
    }
  }

  lemma {:induction false} NonEmptyAppend(a: seq<string>, b: seq<string>)
    ensures NonEmpty(a + b) == NonEmpty(a) + NonEmpty(b)
  {
    if a == [] {
      assert [] + b == b;
    } else {
      assert (a + b)[1..] == a[1..] + b;
      NonEmptyAppend(a[1..], b);
    }
  }

  lemma IndexWithSuffix(s: string, sep: char, suffix: string)
    requires sep !in suffix
    ensures var i := IndexFrom(s, sep, 0); IndexFrom(s + suffix, sep, 0) == if i < |s| then i else |s + suffix|
  {
    var i, t := IndexFrom(s, sep, 0), s + suffix;
    assert forall k :: 0 <= k < |s| ==> t[k] == s[k];
    forall k | |s| <= k < |t| ensures t[k] != sep {
      assert t[k] == suffix[k - |s|];
    }
  }

  function WithLast(parts: seq<string>, suffix: string): seq<string>
    requires parts != []
  {
    parts[..|parts| - 1] + [parts[|parts| - 1] + suffix]
  }

  lemma WithLastCons(first: string, rest: seq<string>, suffix: string)
    requires rest != []
    ensures WithLast([first] + rest, suffix) == [first] + WithLast(rest, suffix)
  {
  }

  lemma CutSuffixed(s: string, suffix: string, i: nat)
    requires i < |s|
    ensures (s + suffix)[..i] == s[..i] && (s + suffix)[i + 1..] == s[i + 1..] + suffix
  {
  }

  /** Text without a separator ends up in the last segment. */
  lemma {:induction false} SplitSuffix(s: string, sep: char, suffix: string)
    requires sep !in suffix
    ensures Split(s + suffix, sep) == WithLast(Split(s, sep), suffix)
    decreases |s|
  {
    var i := IndexFrom(s, sep, 0);
    IndexWithSuffix(s, sep, suffix);
    if i < |s| {
      CutSuffixed(s, suffix, i);
      SplitSuffix(s[i + 1..], sep, suffix);
      WithLastCons(s[..i], Split(s[i + 1..], sep), suffix);
    }
  }

  lemma InTheMiddle(front: seq<string>, a: seq<string>, b: seq<string>, tail: seq<string>)
    ensures front + a + tail == front + b + tail ==> a == b
  {
    assert |front + a + tail| == |front| + |a| + |tail| && |front + b + tail| == |front| + |b| + |tail|;
    assert (front + a + tail)[|front|..|front| + |a|] == a && (front + b + tail)[|front|..|front| + |b|] == b;
  }
}
