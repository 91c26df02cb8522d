/**
 * The directory walk of the watched-folder worker: which directories one pass visits, and on behalf
 * of which watched folder.
 */
module WatchTree {
  import opened Options
  import opened Strings
  import opened Paths
  import opened CleanPaths
  import opened RelativePaths

  /** What the torrent library makes of a file, opaque here. */
  datatype Descriptor = Descriptor(id: string)

  datatype TorrentParams = TorrentParams(category: string, savePath: Path, useAutoTMM: Option<bool>)

  const DEFAULT_PARAMS := TorrentParams("", "", None)

  datatype FolderOptions = FolderOptions(params: TorrentParams, recursive: bool)

  const DEFAULT_OPTIONS := FolderOptions(DEFAULT_PARAMS, false)

  /** `load`: the result of loading a .torrent file; the rest: opening and parsing a .magnet file line by line. */
  datatype Content = Content(load: Option<Descriptor>, opens: bool, withinLimit: bool, lines: seq<Option<Descriptor>>)

  /** A directory as the directory iterators list it, in their order. */
  datatype Dir = Dir(files: seq<File>, subdirs: seq<Subdir>)
  datatype File = File(name: string, content: Content)
  datatype Subdir = Subdir(name: string, dir: Dir)

  /** Names are names, and no two subdirectories or files of a directory share one. */
  ghost predicate WellNamed(dir: Dir) {
    && (forall i | 0 <= i < |dir.files| :: IsName(dir.files[i].name))
    && (forall i, j | 0 <= i < j < |dir.files| :: dir.files[i].name != dir.files[j].name)
    && (forall i | 0 <= i < |dir.subdirs| :: IsName(dir.subdirs[i].name) && WellNamed(dir.subdirs[i].dir))
    && (forall i, j | 0 <= i < j < |dir.subdirs| :: dir.subdirs[i].name != dir.subdirs[j].name)
  }

  /** Following `names` from `dir` leads to the directory `sub`. */
  ghost predicate Leads(dir: Dir, names: seq<string>, sub: Dir)
    decreases |names|
  {
    if names == [] then sub == dir
    else exists i | 0 <= i < |dir.subdirs| :: dir.subdirs[i].name == names[0] && Leads(dir.subdirs[i].dir, names[1..], sub)
  }

  // ----- The walk -----

  /** A visited directory, by the names that lead to it from "/". */
  datatype Visit = Visit(names: seq<string>, dir: Dir)

  /** The visits of `processFolder` in order: first the folder itself, then its subdirectories unless they are watched. */
  function Walk(dir: Dir, names: seq<string>, recursive: bool, watched: set<Path>): seq<Visit>
    decreases dir
  {
    [Visit(names, dir)] + if recursive then WalkInto(dir.subdirs, names, watched) else []
  }

  function WalkInto(subdirs: seq<Subdir>, names: seq<string>, watched: set<Path>): seq<Visit>
    decreases subdirs
  {
    if subdirs == [] then []
    else
      var last := subdirs[|subdirs| - 1];
      WalkInto(subdirs[..|subdirs| - 1], names, watched)
      + if PathOf(names + [last.name]) in watched then [] else Walk(last.dir, names + [last.name], true, watched)
  }

  /** No watched folder lies below `w` on the way to `d`, which is at or below `w`. */
  predicate Unclaimed(w: seq<string>, d: seq<string>, watched: set<Path>) {
    w <= d && forall j | |w| < j <= |d| :: PathOf(d[..j]) !in watched
  }

  lemma {:induction false} WalkIff(dir: Dir, names: seq<string>, recursive: bool, watched: set<Path>, v: Visit)
    ensures v in Walk(dir, names, recursive, watched) <==>
            && names <= v.names
            && Leads(dir, v.names[|names|..], v.dir)
            && (v.names == names || (recursive && Unclaimed(names, v.names, watched)))
    decreases dir, 1
  {
    if recursive {
      WalkIntoIff(dir.subdirs, names, watched, v);
    }
    if names <= v.names && v.names != names {
      assert v.names[|names|..][0] == v.names[|names|];
      assert v.names[|names|..][1..] == v.names[|names| + 1..];
    }
  }

  /** Some entry of `subdirs` is the next step from `names` to the visit. */
  ghost predicate StepsInto(subdirs: seq<Subdir>, names: seq<string>, v: Visit)
    requires names < v.names
  {
    exists i | 0 <= i < |subdirs| ::
      subdirs[i].name == v.names[|names|] && Leads(subdirs[i].dir, v.names[|names| + 1..], v.dir)
  }

  lemma {:induction false} WalkIntoIff(subdirs: seq<Subdir>, names: seq<string>, watched: set<Path>, v: Visit)
    ensures v in WalkInto(subdirs, names, watched) <==>
            names < v.names && StepsInto(subdirs, names, v) && Unclaimed(names, v.names, watched)
    decreases subdirs, 0
  {
    if subdirs != [] {
      var n := |subdirs| - 1;
      var init, last := subdirs[..n], subdirs[n];
      var here := names + [last.name];
      WalkIntoIff(init, names, watched, v);
      WalkIff(last.dir, here, true, watched, v);
      if names < v.names {
        StepsIntoLast(subdirs, names, v);
        if v.names[|names|] == last.name {
          assert v.names[..|names| + 1] == here;
          UnclaimedStep(names, v.names, watched);
        }
      }
      assert here <= v.names <==> names < v.names && v.names[|names|] == last.name;
    }
  }

  lemma StepsIntoLast(subdirs: seq<Subdir>, names: seq<string>, v: Visit)
    requires subdirs != [] && names < v.names
    ensures var last := subdirs[|subdirs| - 1];
            StepsInto(subdirs, names, v) <==>
            StepsInto(subdirs[..|subdirs| - 1], names, v)
            || (v.names[|names|] == last.name && Leads(last.dir, v.names[|names| + 1..], v.dir))
  {
    var init := subdirs[..|subdirs| - 1];
    assert forall i | 0 <= i < |init| :: init[i] == subdirs[i];
    if StepsInto(subdirs, names, v) {
      var i :| 0 <= i < |subdirs| && subdirs[i].name == v.names[|names|] && Leads(subdirs[i].dir, v.names[|names| + 1..], v.dir);
      assert i < |init| ==> init[i].name == v.names[|names|];
    }
    if StepsInto(init, names, v) {
      var i :| 0 <= i < |init| && init[i].name == v.names[|names|] && Leads(init[i].dir, v.names[|names| + 1..], v.dir);
      assert subdirs[i].name == v.names[|names|];
    }
  }

  lemma UnclaimedStep(w: seq<string>, d: seq<string>, watched: set<Path>)
    requires w < d
    ensures var next := d[..|w| + 1];
            Unclaimed(w, d, watched) <==> PathOf(next) !in watched && Unclaimed(next, d, watched)
  {
  }

  // ----- One full pass over all watched folders -----

  lemma {:induction false} LeadsIsFunction(dir: Dir, names: seq<string>, a: Dir, b: Dir)
    requires WellNamed(dir) && Leads(dir, names, a) && Leads(dir, names, b)
    ensures a == b && WellNamed(a)
    decreases |names|
  {
    if names != [] {
      var i :| 0 <= i < |dir.subdirs| && dir.subdirs[i].name == names[0] && Leads(dir.subdirs[i].dir, names[1..], a);
      var j :| 0 <= j < |dir.subdirs| && dir.subdirs[j].name == names[0] && Leads(dir.subdirs[j].dir, names[1..], b);
      assert i == j;
      LeadsIsFunction(dir.subdirs[i].dir, names[1..], a, b);
    }
  }

  /** What lies below `w` is what the directory at `w` leads to. */
  lemma {:induction false} LeadsThrough(root: Dir, w: seq<string>, at: Dir, d: seq<string>, sub: Dir)
    requires WellNamed(root) && Leads(root, w, at) && w <= d
    ensures Leads(root, d, sub) <==> Leads(at, d[|w|..], sub)
    decreases |w|
  {
    if w == [] {
      assert d[0..] == d;
    } else {
      var i :| 0 <= i < |root.subdirs| && root.subdirs[i].name == w[0] && Leads(root.subdirs[i].dir, w[1..], at);
      LeadsThrough(root.subdirs[i].dir, w[1..], at, d[1..], sub);
      assert d[1..][|w[1..]|..] == d[|w|..];
      assert d[0] == w[0];
      assert Leads(root, d, sub) <==> Leads(root.subdirs[i].dir, d[1..], sub);
    }
  }

  /** `w` is the deepest watched folder at or above `d`. */
  ghost predicate Deepest(w: seq<string>, d: seq<string>, watched: set<Path>) {
    && w <= d && PathOf(w) in watched
    && forall u | u <= d && PathOf(u) in watched :: u <= w
  }

  lemma DeepestIffUnclaimed(w: seq<string>, d: seq<string>, watched: set<Path>)
    ensures Deepest(w, d, watched) <==> PathOf(w) in watched && Unclaimed(w, d, watched)
  {
    if Deepest(w, d, watched) {
      forall j | |w| < j <= |d|
        ensures PathOf(d[..j]) !in watched
      {
        assert d[..j] <= d && !(d[..j] <= w);
      }
    }
    if PathOf(w) in watched && Unclaimed(w, d, watched) {
      forall u | u <= d && PathOf(u) in watched
        ensures u <= w
      {
        assert u == d[..|u|] && w == d[..|w|];
        if |u| <= |w| {
          assert u == w[..|u|];
        }
      }
    }
  }

  /** `w` handles what lies in `d`. */
  ghost predicate Handles(w: seq<string>, d: seq<string>, folders: map<Path, FolderOptions>) {
    Deepest(w, d, folders.Keys) && (w == d || folders[PathOf(w)].recursive)
  }

  /** Tree partition: processing `w` visits exactly the existing directories that `w` handles. */
  lemma TreePartition(root: Dir, w: seq<string>, at: Dir, folders: map<Path, FolderOptions>, v: Visit)
    requires WellNamed(root) && Leads(root, w, at) && PathOf(w) in folders
    ensures v in Walk(at, w, folders[PathOf(w)].recursive, folders.Keys) <==>
            Leads(root, v.names, v.dir) && Handles(w, v.names, folders)
  {
    WalkIff(at, w, folders[PathOf(w)].recursive, folders.Keys, v);
    DeepestIffUnclaimed(w, v.names, folders.Keys);
    if w <= v.names {
      LeadsThrough(root, w, at, v.names, v.dir);
    }
    assert w <= w && Unclaimed(w, w, folders.Keys);
  }

  /** At most one watched folder handles a directory. */
  lemma HandlerIsUnique(w: seq<string>, u: seq<string>, d: seq<string>, folders: map<Path, FolderOptions>)
    requires Handles(w, d, folders) && Handles(u, d, folders)
    ensures w == u
  {
  }

  lemma DistinctConcat<T(!new)>(a: seq<T>, b: seq<T>)
    requires Distinct(a) && Distinct(b) && forall x | x in a :: x !in b
    ensures Distinct(a + b)
  {
    forall i, j | 0 <= i < j < |a + b|
      ensures (a + b)[i] != (a + b)[j]
    {
      if i < |a| <= j {
        assert (a + b)[i] in a && (a + b)[j] in b;
      }
    }
  }

  function NamesOf(visits: seq<Visit>): seq<seq<string>> {
    seq(|visits|, i requires 0 <= i < |visits| => visits[i].names)
  }

  /** A watched folder with the directory it names. */
  datatype WatchedRoot = WatchedRoot(names: seq<string>, dir: Dir)

  /** The visits of one pass over the watched folders, in this order. */
  function FullPass(order: seq<WatchedRoot>, folders: map<Path, FolderOptions>): seq<Visit>
    requires forall i | 0 <= i < |order| :: PathOf(order[i].names) in folders
    decreases |order|
  {
    if order == [] then []
    else
      var last := order[|order| - 1];
      FullPass(order[..|order| - 1], folders) + Walk(last.dir, last.names, folders[PathOf(last.names)].recursive, folders.Keys)
  }

  /** Each of `order` is a watched folder of the tree, listed once. */
  ghost predicate ValidOrder(order: seq<WatchedRoot>, root: Dir, folders: map<Path, FolderOptions>) {
    && (forall i | 0 <= i < |order| :: PathOf(order[i].names) in folders && Leads(root, order[i].names, order[i].dir))
    && (forall i, j | 0 <= i < j < |order| :: order[i].names != order[j].names)
  }

  ghost predicate HandledBySome(order: seq<WatchedRoot>, d: seq<string>, folders: map<Path, FolderOptions>) {
    exists i | 0 <= i < |order| :: Handles(order[i].names, d, folders)
  }

  lemma HandledByLast(order: seq<WatchedRoot>, d: seq<string>, folders: map<Path, FolderOptions>)
    requires order != []
    ensures var n := |order| - 1;
            HandledBySome(order, d, folders) <==> HandledBySome(order[..n], d, folders) || Handles(order[n].names, d, folders)
  {
    hide Handles;
    var n := |order| - 1;
    assert forall i | 0 <= i < n :: order[..n][i] == order[i];
    if HandledBySome(order, d, folders) {
      var i :| 0 <= i < |order| && Handles(order[i].names, d, folders);
      assert i < n ==> Handles(order[..n][i].names, d, folders);
    }
    if HandledBySome(order[..n], d, folders) {
      var i :| 0 <= i < n && Handles(order[..n][i].names, d, folders);
      assert Handles(order[i].names, d, folders);
    }
  }

  lemma {:induction false} FullPassIff(order: seq<WatchedRoot>, root: Dir, folders: map<Path, FolderOptions>, v: Visit)
    requires WellNamed(root) && ValidOrder(order, root, folders)
    ensures v in FullPass(order, folders) <==> Leads(root, v.names, v.dir) && HandledBySome(order, v.names, folders)
    decreases |order|
  {
    hide Walk;
    hide Leads;
    hide WellNamed;
    hide Handles;
    if order != [] {
      var n := |order| - 1;
      FullPassIff(order[..n], root, folders, v);
      TreePartition(root, order[n].names, order[n].dir, folders, v);
      HandledByLast(order, v.names, folders);
    }
  }

  lemma {:induction false} WalkDistinct(dir: Dir, names: seq<string>, recursive: bool, watched: set<Path>)
    requires WellNamed(dir)
    ensures Distinct(NamesOf(Walk(dir, names, recursive, watched)))
    decreases dir, 1
  {
    if recursive {
      WalkIntoDistinct(dir.subdirs, names, watched);
      var rest := WalkInto(dir.subdirs, names, watched);
      forall i | 0 <= i < |rest|
        ensures rest[i].names != names
      {
        WalkIntoIff(dir.subdirs, names, watched, rest[i]);
      }
      NamesOfConcat([Visit(names, dir)], rest);
    }
  }

  lemma {:induction false} WalkIntoDistinct(subdirs: seq<Subdir>, names: seq<string>, watched: set<Path>)
    requires forall i | 0 <= i < |subdirs| :: WellNamed(subdirs[i].dir)
    requires forall i, j | 0 <= i < j < |subdirs| :: subdirs[i].name != subdirs[j].name
    ensures Distinct(NamesOf(WalkInto(subdirs, names, watched)))
    decreases subdirs, 0
  {
    if subdirs != [] {
      var n := |subdirs| - 1;
      var init, last := subdirs[..n], subdirs[n];
      WalkIntoDistinct(init, names, watched);
      if PathOf(names + [last.name]) !in watched {
        var a, b := WalkInto(init, names, watched), Walk(last.dir, names + [last.name], true, watched);
        WalkDistinct(last.dir, names + [last.name], true, watched);
        forall i, j | 0 <= i < |a| && 0 <= j < |b|
          ensures a[i].names != b[j].names
        {
          WalkIntoIff(init, names, watched, a[i]);
          WalkIff(last.dir, names + [last.name], true, watched, b[j]);
          assert b[j].names[|names|] == last.name;
        }
        NamesOfConcat(a, b);
      } else {
        assert WalkInto(subdirs, names, watched) == WalkInto(init, names, watched);
      }
    }
  }

  lemma NamesOfConcat(a: seq<Visit>, b: seq<Visit>)
    requires Distinct(NamesOf(a)) && Distinct(NamesOf(b))
    requires forall i, j | 0 <= i < |a| && 0 <= j < |b| :: a[i].names != b[j].names
    ensures Distinct(NamesOf(a + b))
  {
    assert NamesOf(a + b) == NamesOf(a) + NamesOf(b);
    DistinctConcat(NamesOf(a), NamesOf(b));
  }

  /** One full pass visits no directory twice. */
  lemma {:induction false} FullPassDistinct(order: seq<WatchedRoot>, root: Dir, folders: map<Path, FolderOptions>)
    requires WellNamed(root) && ValidOrder(order, root, folders)
    ensures Distinct(NamesOf(FullPass(order, folders)))
    decreases |order|
  {
    hide Walk;
    hide Leads;
    hide WellNamed;
    hide Handles;
    if order != [] {
      var n := |order| - 1;
      var w := order[n];
      FullPassDistinct(order[..n], root, folders);
      LeadsIsFunction(root, w.names, w.dir, w.dir);
      WalkDistinct(w.dir, w.names, folders[PathOf(w.names)].recursive, folders.Keys);
      var a, b := FullPass(order[..n], folders), Walk(w.dir, w.names, folders[PathOf(w.names)].recursive, folders.Keys);
      forall i, j | 0 <= i < |a| && 0 <= j < |b|
        ensures a[i].names != b[j].names
      {
        FullPassIff(order[..n], root, folders, a[i]);
        TreePartition(root, w.names, w.dir, folders, b[j]);
        var k :| 0 <= k < n && Handles(order[..n][k].names, a[i].names, folders);
        assert order[..n][k] == order[k];
        if a[i].names == b[j].names {
          HandlerIsUnique(order[k].names, w.names, a[i].names, folders);
        }
      }
      NamesOfConcat(a, b);
    }
  }

  /** The paths of the files that a list of visits processes, in order. */
  function FilePaths(visits: seq<Visit>): seq<Path>
    decreases |visits|
  {
    if visits == [] then []
    else FilePaths(visits[..|visits| - 1]) + PathsIn(visits[|visits| - 1])
  }

  function PathsIn(v: Visit): seq<Path> {
    seq(|v.dir.files|, i requires 0 <= i < |v.dir.files| => PathOf(v.names + [v.dir.files[i].name]))
  }

  ghost predicate NamedVisit(v: Visit) {
    AllNames(v.names) && WellNamed(v.dir)
  }

  /** A path processed somewhere in the list is processed in the visit of the directory it lies in. */
  lemma {:induction false} FilePathsIff(visits: seq<Visit>, p: Path)
    ensures p in FilePaths(visits) <==> exists i | 0 <= i < |visits| :: p in PathsIn(visits[i])
    decreases |visits|
  {
    hide PathsIn;
    if visits != [] {
      var n := |visits| - 1;
      FilePathsIff(visits[..n], p);
      assert forall i | 0 <= i < n :: visits[..n][i] == visits[i];
    }
  }

  lemma {:induction false} FilePathsDistinct(visits: seq<Visit>)
    requires Distinct(NamesOf(visits)) && forall i | 0 <= i < |visits| :: NamedVisit(visits[i])
    ensures Distinct(FilePaths(visits))
    decreases |visits|
  {
    if visits != [] {
      var n := |visits| - 1;
      assert NamesOf(visits[..n]) == NamesOf(visits)[..n];
      FilePathsDistinct(visits[..n]);
      PathsInDistinct(visits[n]);
      forall p | p in FilePaths(visits[..n])
        ensures p !in PathsIn(visits[n])
      {
        FilePathsIff(visits[..n], p);
        var i :| 0 <= i < n && p in PathsIn(visits[..n][i]);
        assert NamesOf(visits)[i] != NamesOf(visits)[n];
        PathsInDisjoint(visits[i], visits[n], p);
      }
      DistinctConcat(FilePaths(visits[..n]), PathsIn(visits[n]));
    }
  }

  lemma PathsInDistinct(v: Visit)
    requires NamedVisit(v)
    ensures Distinct(PathsIn(v))
  {
    forall i, j | 0 <= i < j < |v.dir.files|
      ensures PathsIn(v)[i] != PathsIn(v)[j]
    {
      var a, b := v.names + [v.dir.files[i].name], v.names + [v.dir.files[j].name];
      assert a[|v.names|] != b[|v.names|];
      PathsDiffer(a, b);
    }
  }

  lemma PathsDiffer(a: seq<string>, b: seq<string>)
    requires AllNames(a) && AllNames(b) && a != b
    ensures PathOf(a) != PathOf(b)
  {
    if PathOf(a) == PathOf(b) {
      PathOfInjective(a, b);
    }
  }

  lemma PathsInDisjoint(v: Visit, u: Visit, p: Path)
    requires NamedVisit(v) && NamedVisit(u) && v.names != u.names && p in PathsIn(v)
    ensures p !in PathsIn(u)
  {
    var i :| 0 <= i < |v.dir.files| && p == PathsIn(v)[i];
    forall j | 0 <= j < |u.dir.files|
      ensures p != PathsIn(u)[j]
    {
      var a, b := v.names + [v.dir.files[i].name], u.names + [u.dir.files[j].name];
      assert a[..|a| - 1] == v.names && b[..|b| - 1] == u.names;
      PathsDiffer(a, b);
    }
  }

  lemma {:induction false} LeadsByNames(dir: Dir, names: seq<string>, sub: Dir)
    requires WellNamed(dir) && Leads(dir, names, sub)
    ensures AllNames(names) && WellNamed(sub)
    decreases |names|
  {
    if names != [] {
      var i :| 0 <= i < |dir.subdirs| && dir.subdirs[i].name == names[0] && Leads(dir.subdirs[i].dir, names[1..], sub);
      LeadsByNames(dir.subdirs[i].dir, names[1..], sub);
      assert names == [names[0]] + names[1..];
    }
  }

  lemma VisitIsNamed(root: Dir, v: Visit)
    requires WellNamed(root) && Leads(root, v.names, v.dir)
    ensures NamedVisit(v)
  {
    LeadsByNames(root, v.names, v.dir);
  }

  lemma WalkIsNamed(dir: Dir, names: seq<string>, recursive: bool, watched: set<Path>)
    requires AllNames(names) && WellNamed(dir)
    ensures forall v | v in Walk(dir, names, recursive, watched) :: NamedVisit(v)
  {
    forall v | v in Walk(dir, names, recursive, watched)
      ensures NamedVisit(v)
    {
      WalkIff(dir, names, recursive, watched, v);
      LeadsByNames(dir, v.names[|names|..], v.dir);
      assert v.names == names + v.names[|names|..];
    }
  }

  /** One full pass processes no file twice. */
  lemma NoFileTwice(order: seq<WatchedRoot>, root: Dir, folders: map<Path, FolderOptions>)
    requires WellNamed(root) && ValidOrder(order, root, folders)
    ensures Distinct(FilePaths(FullPass(order, folders)))
  {
    FullPassDistinct(order, root, folders);
    var visits := FullPass(order, folders);
    forall i | 0 <= i < |visits|
      ensures NamedVisit(visits[i])
    {
      FullPassIff(order, root, folders, visits[i]);
      LeadsByNames(root, visits[i].names, visits[i].dir);
    }
    FilePathsDistinct(visits);
  }

  /** A file of the tree is processed in a full pass exactly when some watched folder handles its directory. */
  lemma FileProcessedIff(order: seq<WatchedRoot>, root: Dir, folders: map<Path, FolderOptions>, d: Visit, k: nat)
    requires WellNamed(root) && ValidOrder(order, root, folders)
    requires Leads(root, d.names, d.dir) && k < |d.dir.files|
    ensures PathOf(d.names + [d.dir.files[k].name]) in FilePaths(FullPass(order, folders)) <==> HandledBySome(order, d.names, folders)
  {
    hide Walk;
    hide Leads;
    hide WellNamed;
    hide HandledBySome;
    var visits := FullPass(order, folders);
    var p := PathsIn(d)[k];
    VisitIsNamed(root, d);
    FullPassIff(order, root, folders, d);
    FilePathsIff(visits, p);
    if HandledBySome(order, d.names, folders) {
      var i :| 0 <= i < |visits| && visits[i] == d;
      assert p in PathsIn(visits[i]);
    }
    if p in FilePaths(visits) {
      var i :| 0 <= i < |visits| && p in PathsIn(visits[i]);
      FullPassIff(order, root, folders, visits[i]);
      VisitIsNamed(root, visits[i]);
      if visits[i].names != d.names {
        PathsInDisjoint(visits[i], d, p);
      }
    }
  }
}
