/** How package coordinates become file names and paths, and back: npm tarballs, Helm charts and
    Maven paths. */
module NameCodecs {
  import opened Wrappers
  import opened Paths

  predicate HasPrefix(s: string, prefix: string) {
    |prefix| <= |s| && s[..|prefix|] == prefix
  }

  predicate HasSuffix(s: string, suffix: string) {
    |suffix| <= |s| && s[|s| - |suffix|..] == suffix
  }

  function TrimPrefix(s: string, prefix: string): string {
    if HasPrefix(s, prefix) then s[|prefix|..] else s
  }

  function TrimSuffix(s: string, suffix: string): string {
    if HasSuffix(s, suffix) then s[..|s| - |suffix|] else s
  }

  // ---------- npm ----------

  const TGZ := ".tgz"

  /** The name after the scope: "@scope/name" gives "name". */
  function Unscoped(name: string): string {
    var slash := IndexFrom(name, '/', 0);
    if HasPrefix(name, "@") && slash < |name| then name[slash + 1..] else name
  }

  function TarballName(packageName: string, version: string): string {
    Unscoped(packageName) + "-" + version + TGZ
  }

  function ExtractVersion(filename: string, packageName: string): Option<string> {
    var prefix := Unscoped(packageName) + "-";
    if !HasPrefix(filename, prefix) || !HasSuffix(filename, TGZ) then None
    else Some(TrimSuffix(TrimPrefix(filename, prefix), TGZ))
  }

  /** Extraction returns a version exactly when the file name is the tarball name of that
      version: the dash that ends the prefix keeps prefix and suffix from overlapping. */
  lemma ExtractVersionExact(filename: string, packageName: string, version: string)
    ensures ExtractVersion(filename, packageName) == Some(version) <==> filename == TarballName(packageName, version)
    ensures TarballName(packageName, version) == Unscoped(packageName) + "-" + version + ".tgz"
  {
    TarballNameParses(packageName, version);
    if ExtractVersion(filename, packageName).Some? {
      ParsedIsTarballName(filename, packageName);
      TarballNameParses(packageName, ExtractVersion(filename, packageName).value);
    }
  }

  /** A scope is cut off, and nothing else is. */
  lemma UnscopedExact(scope: string, name: string)
    ensures '/' !in scope ==> Unscoped("@" + scope + "/" + name) == name
    ensures (name == "" || name[0] != '@' || '/' !in name) ==> Unscoped(name) == name
  {
    if '/' !in scope {
      var full := "@" + scope + "/" + name;
      FirstSeparator("@" + scope, '/', name);
      assert full == ("@" + scope) + ['/'] + name;
    }
    if '/' !in name {
      assert IndexFrom(name, '/', 0) == |name|;
    }
  }

  lemma TarballNameParses(packageName: string, version: string)
    ensures ExtractVersion(TarballName(packageName, version), packageName) == Some(version)
  {
    var prefix := Unscoped(packageName) + "-";
    var name := TarballName(packageName, version);
    assert name == prefix + (version + TGZ);
    assert TrimPrefix(name, prefix) == version + TGZ;
    assert TrimSuffix(version + TGZ, TGZ) == version;
  }

  lemma ParsedIsTarballName(filename: string, packageName: string)
    requires ExtractVersion(filename, packageName).Some?
    ensures filename == TarballName(packageName, ExtractVersion(filename, packageName).value)
  {
    var prefix := Unscoped(packageName) + "-";
    DashNotInSuffix(filename, prefix);
    CutBothEnds(filename, prefix);
  }

  lemma CutBothEnds(filename: string, prefix: string)
    requires HasPrefix(filename, prefix) && HasSuffix(filename, TGZ) && |filename| >= |prefix| + 4
    ensures filename == prefix + TrimSuffix(TrimPrefix(filename, prefix), TGZ) + TGZ
  {
    var rest := TrimPrefix(filename, prefix);
    assert filename == prefix + rest;
    assert rest[|rest| - 4..] == filename[|filename| - 4..] == TGZ;
    assert rest == rest[..|rest| - 4] + TGZ;
  }

  /** A name that starts with a prefix ending in a dash and ends in ".tgz" has room for both. */
  lemma DashNotInSuffix(filename: string, prefix: string)
    requires prefix != "" && prefix[|prefix| - 1] == '-'
    requires HasPrefix(filename, prefix) && HasSuffix(filename, TGZ)
    ensures |filename| >= |prefix| + 4
  {
    var k := |prefix| - 1;
    assert filename[k] == filename[..|prefix|][k] == '-';
    var tail := filename[|filename| - 4..];
    assert forall i :: 0 <= i < 4 ==> tail[i] == TGZ[i] && tail[i] != '-';
    assert forall i :: |filename| - 4 <= i < |filename| ==> filename[i] == tail[i - (|filename| - 4)];
  }

  // ---------- Helm ----------

  function ChartFile(name: string, version: string): string {
    name + "-" + version + TGZ
  }

  /** The last position of a character, or -1. */
  function LastIndex(s: string, c: char): (i: int)
    ensures -1 <= i < |s| && (i >= 0 ==> s[i] == c)
    ensures forall j :: i < j < |s| ==> s[j] != c
  {
    if s == "" then -1
    else if s[|s| - 1] == c then |s| - 1
    else LastIndex(s[..|s| - 1], c)
  }

  function SplitChart(filename: string): Option<(string, string)> {
    if !HasSuffix(filename, TGZ) then None
    else
      var parts := TrimSuffix(filename, TGZ);
      var dash := LastIndex(parts, '-');
      if dash == -1 then None else Some((parts[..dash], parts[dash + 1..]))
  }

  /** The download handler recovers the coordinates a chart was stored under if and only if the
      version contains no dash. */
  lemma SplitChartExact(name: string, version: string)
    ensures SplitChart(ChartFile(name, version)) == Some((name, version)) <==> '-' !in version
    ensures ChartFile(name, version) == name + "-" + version + ".tgz"
  {
    var stem := name + "-" + version;
    assert ChartFile(name, version) == stem + TGZ;
    assert HasSuffix(stem + TGZ, TGZ) && TrimSuffix(stem + TGZ, TGZ) == stem;
    var dash := LastIndex(stem, '-');
    assert stem[|name|] == '-';
    if '-' !in version {
      assert forall j :: |name| < j < |stem| ==> stem[j] == version[j - |name| - 1] && stem[j] in version;
      assert dash == |name|;
      assert stem[..|name|] == name && stem[|name| + 1..] == version;
    } else {
      var k :| 0 <= k < |version| && version[k] == '-';
      assert stem[|name| + 1 + k] == '-';
      assert dash > |name|;
    }
  }

  /** Whatever it recovers, it never loses characters, and the version it reports has no dash. */
  lemma SplitChartRejoins(filename: string)
    requires SplitChart(filename).Some?
    ensures var (name, version) := SplitChart(filename).value; filename == ChartFile(name, version) && '-' !in version
  {
    var parts := TrimSuffix(filename, TGZ);
    var dash := LastIndex(parts, '-');
    assert filename == parts + TGZ;
    assert parts == parts[..dash] + "-" + parts[dash + 1..];
  }

  // ---------- Maven ----------

  datatype Coordinates = Coordinates(groupId: string, artifactId: string, version: string)

  /** Deployment reads the coordinates off a path of at least four segments. */
  function CoordinatesOf(path: seq<string>): Option<Coordinates> {
    if |path| < 4 then None
    else Some(Coordinates(Join(path[..|path| - 3], '.'), path[|path| - 3], path[|path| - 2]))
  }

  /** What the coordinates of a path are: of fewer than four segments none; otherwise the last
      three segments are artifact, version and file, and what comes before is the group. */
  lemma CoordinatesExact(group: seq<string>, artifactId: string, version: string, file: string)
    ensures CoordinatesOf(group + [artifactId, version, file])
      == if group == [] then None else Some(Coordinates(Join(group, '.'), artifactId, version))
  {
    assert (group + [artifactId, version, file])[..|group|] == group;
  }

  /** The directory a deployed file was written to, below the Maven directory. */
  function DeployDirectory(maven: Path, path: seq<string>): Path
    requires path != []
  {
    Resolve(maven, path[..|path| - 1])
  }

  /** The directory a deletion by coordinates removes. */
  function DeleteDirectory(maven: Path, c: Coordinates): Path {
    Resolve(maven, GroupPath(c) + [c.artifactId, c.version])
  }

  function GroupPath(c: Coordinates): seq<string> {
    Split(Replaced(c.groupId), '/')
  }

  /** strings.ReplaceAll(s, ".", "/"). */
  function Replaced(s: string): (r: string)
    ensures |r| == |s|
    ensures forall i :: 0 <= i < |s| ==> r[i] == if s[i] == '.' then '/' else s[i]
  {
    seq(|s|, i requires 0 <= i < |s| => if s[i] == '.' then '/' else s[i])
  }

  lemma {:induction false} ReplacedJoin(parts: seq<string>)
    requires forall i :: 0 <= i < |parts| ==> '.' !in parts[i]
    ensures Replaced(Join(parts, '.')) == Join(parts, '/')
  {
    if |parts| == 1 {
      assert forall i :: 0 <= i < |parts[0]| ==> parts[0][i] in parts[0];
    } else if |parts| > 1 {
      ReplacedJoin(parts[1..]);
      assert forall i :: 0 <= i < |parts[0]| ==> parts[0][i] in parts[0];
      assert Replaced(parts[0]) == parts[0];
      assert Join(parts, '.') == parts[0] + (['.'] + Join(parts[1..], '.'));
      assert Replaced(Join(parts, '.')) == Replaced(parts[0]) + ['/'] + Replaced(Join(parts[1..], '.'));
    }
  }

  lemma ReplacedTail(s: string, k: nat)
    requires k <= |s|
    ensures Replaced(s)[k..] == Replaced(s[k..])
  {
  }

  ghost predicate NoDots(parts: seq<string>) {
    forall i :: 0 <= i < |parts| ==> '.' !in parts[i]
  }

  lemma NoDotReplaced(s: string, k: nat)
    requires k <= |s|
    ensures '.' !in Replaced(s)[..k]
  {
    assert forall j :: 0 <= j < k ==> Replaced(s)[..k][j] == Replaced(s)[j];
  }

  lemma NoDotsCons(first: string, rest: seq<string>)
    requires '.' !in first && NoDots(rest)
    ensures NoDots([first] + rest)
  {
  }

  lemma {:induction false} NoDotInPieces(s: string)
    ensures NoDots(Split(Replaced(s), '/'))
    decreases |s|
  {
    var r := Replaced(s);
    var i := IndexFrom(r, '/', 0);
    NoDotReplaced(s, i);
    if i < |r| {
      ReplacedTail(s, i + 1);
      NoDotInPieces(s[i + 1..]);
      NoDotsCons(r[..i], Split(r[i + 1..], '/'));
    } else {
      assert r[..i] == r;
    }
  }

  /** Deleting the coordinates of a deployed file removes the directory it was written to exactly
      when no segment of its group contains a dot. */
  lemma DeleteFindsDeploy(maven: Path, path: seq<string>)
    requires |path| >= 4 && forall i :: 0 <= i < |path| ==> '/' !in path[i] && path[i] != "." && path[i] != ".."
    ensures DeleteDirectory(maven, CoordinatesOf(path).value) == DeployDirectory(maven, path)
      <==> forall i :: 0 <= i < |path| - 3 ==> '.' !in path[i]
  {
    var n := |path| - 3;
    var group, tail := path[..n], path[n..n + 2];
    var pieces := GroupPath(CoordinatesOf(path).value);
    NoDotInPieces(Join(group, '.'));
    assert path[..|path| - 1] == group + tail && [path[n], path[n + 1]] == tail;
    assert forall i :: 0 <= i < n ==> group[i] == path[i];
    CleanedWithTail(maven, group, tail);
    CleanedWithTail(maven, pieces, tail);
    if forall i :: 0 <= i < n ==> '.' !in path[i] {
      ReplacedJoin(group);
      SplitJoin(group, '/');
      assert pieces == group;
    } else {
      var i :| 0 <= i < n && '.' in path[i];
      assert group[i] == path[i];
      NonEmptyHas(group, path[i]);
      NonEmptyHas(pieces, path[i]);
      assert path[i] !in pieces;
      InTheMiddle(maven, NonEmpty(pieces), NonEmpty(group), NonEmpty(tail));
    }
  }

  lemma CleanedWithTail(maven: Path, front: seq<string>, tail: seq<string>)
    requires forall i :: 0 <= i < |front| ==> front[i] != "." && front[i] != ".."
    requires forall i :: 0 <= i < |tail| ==> tail[i] != "." && tail[i] != ".."
    ensures Resolve(maven, front + tail) == maven + NonEmpty(front) + NonEmpty(tail)
  {
    ResolveDropsEmpty(maven, front + tail);
    NonEmptyAppend(front, tail);
  }
}
