/** The root folder that the files of a torrent may share: finding, stripping and adding it. */
module RootFolders {
  import opened Strings
  import opened Paths
  import opened CleanPaths

  /** What the scan of `findRootFolder` returns from `paths` on, when it has `root` so far. */
  function RootScan(paths: seq<Path>, root: Path): Path
    decreases paths
  {
    if paths == [] then root
    else
      var items := Items(paths[0]);
      if |items| <= 1 then ""
      else if root == "" then RootScan(paths[1..], items[0])
      else if root != items[0] then ""
      else RootScan(paths[1..], root)
  }

  function RootFolder(paths: seq<Path>): Path {
    RootScan(paths, "")
  }

  /** QString::remove(0, n). */
  function RemovedFront(s: string, n: nat): string {
    if n <= |s| then s[n..] else ""
  }

  function Stripped(paths: seq<Path>): seq<Path> {
    var root := RootFolder(paths);
    if root == "" then paths
    else seq(|paths|, i requires 0 <= i < |paths| => RemovedFront(paths[i], |root| + 1))
  }

  function WithRoot(paths: seq<Path>, root: Path): seq<Path> {
    seq(|paths|, i requires 0 <= i < |paths| => Div(root, paths[i]))
  }

  /** `findRootFolder`. */
  method FindRootFolder(paths: seq<Path>) returns (root: Path)
    ensures root == RootFolder(paths)
  {
    root := "";
    for i := 0 to |paths|
      invariant RootScan(paths[i..], root) == RootFolder(paths)
    {
      assert paths[i..][0] == paths[i] && paths[i..][1..] == paths[i + 1..];
      var items := Items(paths[i]);
      if |items| <= 1 {
        return "";
      }
      if root == "" {
        root := items[0];
      } else if root != items[0] {
        return "";
      }
    }
  }

  /** `stripRootFolder`, in place. */
  method StripRootFolder(paths: array<Path>)
    modifies paths
    ensures paths[..] == Stripped(old(paths[..]))
  {
    hide RootFolder;
    hide RemovedFront;
    ghost var before := paths[..];
    var root := FindRootFolder(paths[..]);
    if root == "" {
      return;
    }
    for i := 0 to paths.Length
      invariant forall k | 0 <= k < i :: paths[k] == RemovedFront(before[k], |root| + 1)
      invariant forall k | i <= k < paths.Length :: paths[k] == before[k]
    {
      paths[i] := RemovedFront(paths[i], |root| + 1);
    }
  }

  /** `addRootFolder`, in place. */
  method AddRootFolder(paths: array<Path>, root: Path)
    modifies paths
    ensures paths[..] == WithRoot(old(paths[..]), root)
  {
    ghost var before := paths[..];
    for i := 0 to paths.Length
      invariant forall k | 0 <= k < i :: paths[k] == Div(root, before[k])
      invariant forall k | i <= k < paths.Length :: paths[k] == before[k]
    {
      paths[i] := Div(root, paths[i]);
    }
  }

  // ----- What the scan finds -----

  /** Every path lies below the folder `root`. */
  ghost predicate SharesRoot(paths: seq<Path>, root: Path) {
    && paths != [] && root != ""
    && forall i | 0 <= i < |paths| :: |Items(paths[i])| >= 2 && Items(paths[i])[0] == root
  }

  ghost predicate AllRelative(paths: seq<Path>) {
    forall i | 0 <= i < |paths| :: !IsAbsolute(paths[i])
  }

  lemma {:induction false} ScanKeepsRoot(paths: seq<Path>, root: Path)
    requires root != ""
    ensures RootScan(paths, root) ==
            if forall i | 0 <= i < |paths| :: |Items(paths[i])| >= 2 && Items(paths[i])[0] == root
            then root else ""
    decreases paths
  {
    if paths != [] {
      ScanKeepsRoot(paths[1..], root);
      assert forall i | 1 <= i < |paths| :: paths[i] == paths[1..][i - 1];
    }
  }

  lemma RelativeFirstItem(p: Path)
    requires !IsAbsolute(p) && |Items(p)| >= 2
    ensures Items(p)[0] != ""
  {
  }

  /** For relative paths the scan returns a folder exactly when all paths share it. */
  lemma RootFolderIffShared(paths: seq<Path>, root: Path)
    requires AllRelative(paths)
    ensures (RootFolder(paths) == root && root != "") <==> SharesRoot(paths, root)
  {
    if paths != [] && |Items(paths[0])| >= 2 {
      var first := Items(paths[0])[0];
      RelativeFirstItem(paths[0]);
      ScanKeepsRoot(paths[1..], first);
      assert forall i | 1 <= i < |paths| :: paths[i] == paths[1..][i - 1];
      assert SharesRoot(paths, root) ==> root == first;
    }
  }

  /** The list from its first relative path on. */
  function FromFirstRelative(paths: seq<Path>): seq<Path>
    decreases paths
  {
    if paths != [] && IsAbsolute(paths[0]) then FromFirstRelative(paths[1..]) else paths
  }

  /** For all lists: the scan passes over the absolute paths in front and then returns the folder all others share. */
  lemma {:induction false} RootFolderPassesAbsolute(paths: seq<Path>, root: Path)
    ensures (RootFolder(paths) == root && root != "") <==> SharesRoot(FromFirstRelative(paths), root)
    decreases paths
  {
    if paths != [] && IsAbsolute(paths[0]) {
      assert Items(paths[0])[0] == "" && |Items(paths[0])| >= 2;
      RootFolderPassesAbsolute(paths[1..], root);
    } else if paths != [] && |Items(paths[0])| >= 2 {
      RelativeFirstItem(paths[0]);
      ScanKeepsRoot(paths[1..], Items(paths[0])[0]);
      assert forall i | 1 <= i < |paths| :: paths[i] == paths[1..][i - 1];
    }
  }

  /** The scan returns exactly the folder that all paths share. */
  ghost predicate ScanIsExact(paths: seq<Path>) {
    forall root :: (RootFolder(paths) == root && root != "") <==> SharesRoot(paths, root)
  }

  /** It does unless an absolute path stands in front and the paths behind it share a folder. */
  lemma ScanIsExactIff(paths: seq<Path>)
    ensures ScanIsExact(paths) <==> paths == [] || !IsAbsolute(paths[0]) || RootFolder(paths[1..]) == ""
  {
    if paths != [] && IsAbsolute(paths[0]) {
      assert Items(paths[0])[0] == "" && |Items(paths[0])| >= 2;
      assert RootFolder(paths) == RootFolder(paths[1..]);
      if RootFolder(paths) != "" {
        assert !SharesRoot(paths, RootFolder(paths));
      }
    } else {
      forall root
        ensures (RootFolder(paths) == root && root != "") <==> SharesRoot(paths, root)
      {
        RootFolderPassesAbsolute(paths, root);
      }
    }
  }

  /** The smallest case of the other kind. */
  lemma AbsolutePathFoolsScan()
    ensures RootFolder(["/x", "a/b"]) == "a" && !SharesRoot(["/x", "a/b"], "a")
  {
    assert Items("/x")[0] == "";
    SplitConcat("a", "b", SEPARATOR);
    SplitFree("a", SEPARATOR);
    SplitFree("b", SEPARATOR);
    assert "a" + [SEPARATOR] + "b" == "a/b";
    SplitConcat("", "x", SEPARATOR);
    assert "" + [SEPARATOR] + "x" == "/x";
    SplitFree("", SEPARATOR);
    SplitFree("x", SEPARATOR);
    assert Items("/x") == ["", "x"] && Items("a/b") == ["a", "b"];
    var paths := ["/x", "a/b"];
    assert paths[1..] == ["a/b"];
    assert RootScan(["a/b"], "") == RootScan([], "a");
  }

  /** Relative paths that share no folder are left as they are. */
  lemma StripLeavesOthers(paths: seq<Path>)
    requires AllRelative(paths) && forall root :: !SharesRoot(paths, root)
    ensures Stripped(paths) == paths
  {
    RootFolderIffShared(paths, RootFolder(paths));
  }

  /** Stripping a shared root takes the first item off every path. */
  lemma StripTakesFirstItem(paths: seq<Path>, root: Path, i: nat)
    requires AllRelative(paths) && SharesRoot(paths, root) && i < |paths|
    ensures |Stripped(paths)| == |paths|
    ensures Stripped(paths)[i] == JoinItems(Items(paths[i])[1..])
    ensures paths[i] == root + [SEPARATOR] + Stripped(paths)[i]
  {
    RootFolderIffShared(paths, root);
    var items := Items(paths[i]);
    JoinSplit(paths[i], SEPARATOR);
    assert JoinItems(items) == items[0] + [SEPARATOR] + JoinItems(items[1..]);
  }
}
