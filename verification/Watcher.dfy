/**
 * The watched-folder engine: the worker that looks into the folders, and the main-thread object that
 * posts its changes to the worker.
 */
module Watcher {
  import opened Options
  import opened Strings
  import opened Paths
  import opened CleanPaths
  import opened WatchTree
  import opened WatchedFiles
  import opened RetryTable

  /** QHash::value: the options of a watched folder, or default ones for any other path. */
  function OptionsOf(folders: map<Path, FolderOptions>, path: Path): FolderOptions {
    if path in folders then folders[path] else DEFAULT_OPTIONS
  }

  /** What one pass over the folders `order` makes of the worker's progress. */
  function HandlePass(p: Progress, order: seq<WatchedRoot>, folders: map<Path, FolderOptions>, autoByDefault: bool): Progress
    decreases |order|
  {
    if order == [] then p
    else
      var last := order[|order| - 1];
      var options := OptionsOf(folders, PathOf(last.names));
      HandleVisits(HandlePass(p, order[..|order| - 1], folders, autoByDefault), options.params, PathOf(last.names),
                   autoByDefault, Walk(last.dir, last.names, options.recursive, folders.Keys))
  }

  /** The files of one pass in the order they come up. */
  function PassJobs(order: seq<WatchedRoot>, folders: map<Path, FolderOptions>, autoByDefault: bool): seq<Job>
    decreases |order|
  {
    if order == [] then []
    else
      var last := order[|order| - 1];
      var options := OptionsOf(folders, PathOf(last.names));
      PassJobs(order[..|order| - 1], folders, autoByDefault)
      + Jobs(options.params, PathOf(last.names), autoByDefault, Walk(last.dir, last.names, options.recursive, folders.Keys))
  }

  /** The log of a pass is that of its files, one after the other. */
  lemma {:induction false} PassLogIs(p: Progress, order: seq<WatchedRoot>, root: Dir, folders: map<Path, FolderOptions>,
                                     autoByDefault: bool)
    requires WellNamed(root) && ValidOrder(order, root, folders)
    ensures HandlePass(p, order, folders, autoByDefault).log == p.log + Effects(PassJobs(order, folders, autoByDefault))
    decreases |order|
  {
    hide Walk;
    hide HandleVisits;
    hide Leads;
    hide WellNamed;
    hide Handles;
    hide NamedVisit;
    hide Jobs;
    hide PathOf;
    hide Effects;
    if order == [] {
      NoJobs();
    } else {
      var n := |order| - 1;
      var w := order[n];
      var options := folders[PathOf(w.names)];
      var visits := Walk(w.dir, w.names, options.recursive, folders.Keys);
      PassLogIs(p, order[..n], root, folders, autoByDefault);
      LeadsByNames(root, w.names, w.dir);
      WalkIsNamed(w.dir, w.names, options.recursive, folders.Keys);
      ScanLogIs(HandlePass(p, order[..n], folders, autoByDefault), options.params, PathOf(w.names), autoByDefault, visits);
      EffectsConcat(PassJobs(order[..n], folders, autoByDefault), Jobs(options.params, PathOf(w.names), autoByDefault, visits));
    }
  }

  lemma {:induction false} FilePathsConcat(a: seq<Visit>, b: seq<Visit>)
    ensures FilePaths(a + b) == FilePaths(a) + FilePaths(b)
    decreases |b|
  {
    hide PathsIn;
    if b == [] {
      assert a + b == a;
    } else {
      assert (a + b)[..|a + b| - 1] == a + b[..|b| - 1];
      FilePathsConcat(a, b[..|b| - 1]);
    }
  }

  lemma NoPaths()
    ensures JobPaths([]) == [] && FilePaths([]) == []
  {
  }

  lemma JobPathsConcat(a: seq<Job>, b: seq<Job>)
    ensures JobPaths(a + b) == JobPaths(a) + JobPaths(b)
  {
  }

  lemma {:induction false} PassPathsAre(order: seq<WatchedRoot>, folders: map<Path, FolderOptions>, autoByDefault: bool)
    requires forall i | 0 <= i < |order| :: PathOf(order[i].names) in folders
    ensures JobPaths(PassJobs(order, folders, autoByDefault)) == FilePaths(FullPass(order, folders))
    decreases |order|
  {
    hide Walk;
    hide Jobs;
    hide FilePaths;
    hide JobPaths;
    hide PathOf;
    if order == [] {
      NoPaths();
    } else {
      var n := |order| - 1;
      var w := order[n];
      var options := folders[PathOf(w.names)];
      var visits := Walk(w.dir, w.names, options.recursive, folders.Keys);
      PassPathsAre(order[..n], folders, autoByDefault);
      FilePathsConcat(FullPass(order[..n], folders), visits);
      JobPathsAre(options.params, PathOf(w.names), autoByDefault, visits);
      JobPathsConcat(PassJobs(order[..n], folders, autoByDefault), Jobs(options.params, PathOf(w.names), autoByDefault, visits));
    }
  }

  /** The file `k` of a directory that the watched folder `order[i]` handles, as a job of the pass. */
  function JobOf(w: seq<string>, d: Visit, k: nat, folders: map<Path, FolderOptions>, autoByDefault: bool): Job
    requires k < |d.dir.files|
  {
    Job(PathOf(d.names + [d.dir.files[k].name]), d.dir.files[k],
        ScanParams(OptionsOf(folders, PathOf(w)).params, PathOf(w), PathOf(d.names), autoByDefault))
  }

  lemma {:induction false} PassHasJob(order: seq<WatchedRoot>, i: nat, folders: map<Path, FolderOptions>, autoByDefault: bool,
                                      d: Visit, k: nat)
    requires i < |order| && k < |d.dir.files|
    requires d in Walk(order[i].dir, order[i].names, OptionsOf(folders, PathOf(order[i].names)).recursive, folders.Keys)
    ensures JobOf(order[i].names, d, k, folders, autoByDefault) in PassJobs(order, folders, autoByDefault)
    decreases |order|
  {
    hide Walk;
    hide Jobs;
    hide ScanParams;
    var n := |order| - 1;
    var w := order[i];
    var options := OptionsOf(folders, PathOf(w.names));
    if i == n {
      JobIsThere(options.params, PathOf(w.names), autoByDefault, Walk(w.dir, w.names, options.recursive, folders.Keys), d, k);
    } else {
      assert order[..n][i] == w;
      PassHasJob(order[..n], i, folders, autoByDefault, d, k);
    }
  }

  /**
   * One pass deals with a file it is responsible for exactly once, whichever order it goes in: the log
   * holds the effects of that file, with the parameters that the handling folder gives its directory, in
   * one piece; all the rest of the log is the effects of other files. So the file is handed over and
   * removed once if it can be taken, and left alone otherwise.
   */
  lemma PassTakesEachFileOnce(p: Progress, order: seq<WatchedRoot>, root: Dir, folders: map<Path, FolderOptions>,
                              autoByDefault: bool, i: nat, d: Visit, k: nat) returns (before: seq<Job>, after: seq<Job>)
    requires WellNamed(root) && ValidOrder(order, root, folders)
    requires Leads(root, d.names, d.dir) && k < |d.dir.files|
    requires i < |order| && Handles(order[i].names, d.names, folders)
    ensures var job := JobOf(order[i].names, d, k, folders, autoByDefault);
            var added := Effects(before) + JobEffects(job) + Effects(after);
            && HandlePass(p, order, folders, autoByDefault).log == p.log + added
            && job.path !in JobPaths(before) && job.path !in JobPaths(after)
            && Ends(added, job.path) == (if Takes(job.path, job.file) then 1 else 0)
            && JobEffects(job) == if Takes(job.path, job.file)
                                  then HandOvers(TorrentsIn(job.path, job.file), job.params) + [Removed(job.path)] else []
  {
    hide HandlePass;
    hide FullPass;
    hide PassJobs;
    hide FilePaths;
    hide Leads;
    hide WellNamed;
    hide Handles;
    hide Takes;
    hide Walk;
    hide JobOf;
    hide JobEffects;
    hide Ends;
    var jobs, job := PassJobs(order, folders, autoByDefault), JobOf(order[i].names, d, k, folders, autoByDefault);
    PassLogIs(p, order, root, folders, autoByDefault);
    PassPathsAre(order, folders, autoByDefault);
    NoFileTwice(order, root, folders);
    TreePartition(root, order[i].names, order[i].dir, folders, d);
    PassHasJob(order, i, folders, autoByDefault, d, k);
    var j :| 0 <= j < |jobs| && jobs[j] == job;
    EffectsAround(jobs, j);
    JobHandsOver(job);
    before, after := jobs[..j], jobs[j + 1..];
  }

  /** The effects of passing one row, its files taken in `order`. */
  function RowEffects(dir: Path, row: map<Path, nat>, order: seq<Path>, probes: Probes, params: TorrentParams,
                      autoByDefault: bool): seq<Effect>
    decreases |order|
  {
    if order == [] then []
    else
      var f := order[|order| - 1];
      RowEffects(dir, row, order[..|order| - 1], probes, params, autoByDefault)
      + if f in row then RetryEffects(dir, f, row[f], probes(f), params, autoByDefault) else []
  }

  /** A row of the table with an order of its files. */
  datatype RowOrder = RowOrder(dir: Path, files: seq<Path>)

  /** `order` lists exactly these keys, once each, as an iteration over a hash does. */
  ghost predicate Enumerates<T(!new)>(order: seq<T>, keys: set<T>) {
    Distinct(order) && forall x :: x in order <==> x in keys
  }

  function DirsOf(order: seq<RowOrder>): seq<Path> {
    seq(|order|, i requires 0 <= i < |order| => order[i].dir)
  }

  /** An order in which the retry pass may go over the table: every row once, every file of a row once. */
  ghost predicate EnumeratesTable(order: seq<RowOrder>, t: Table) {
    && (forall i | 0 <= i < |order| :: order[i].dir in t && Enumerates(order[i].files, t[order[i].dir].Keys))
    && Enumerates(DirsOf(order), t.Keys)
  }

  /** The effects of one retry pass that goes over the table in `order`. */
  function TableEffects(order: seq<RowOrder>, t: Table, probes: Probes, folders: map<Path, FolderOptions>, autoByDefault: bool): seq<Effect>
    decreases |order|
  {
    if order == [] then []
    else
      var r := order[|order| - 1];
      TableEffects(order[..|order| - 1], t, probes, folders, autoByDefault)
      + if r.dir in t then RowEffects(r.dir, t[r.dir], r.files, probes, OptionsOf(folders, r.dir).params, autoByDefault) else []
  }

  // Progress of the retry loops.

  ghost predicate PassedRow(row: map<Path, nat>, now: map<Path, nat>, left: set<Path>, probes: Probes) {
    && (forall f | f in now :: f in row && now[f] == if f in left then row[f] else row[f] + 1)
    && (forall f | f in row :: f in now <==> f in left || Stays(row[f], probes(f)))
  }

  lemma PassedRowEnd(row: map<Path, nat>, now: map<Path, nat>, probes: Probes)
    requires PassedRow(row, now, {}, probes)
    ensures now == PassRow(row, probes)
  {
  }

  lemma PassedRowStep(row: map<Path, nat>, now: map<Path, nat>, left: set<Path>, probes: Probes, file: Path)
    requires PassedRow(row, now, left, probes) && file in left && file in row
    ensures file in now && now[file] == row[file]
    ensures PassedRow(row, if Stays(row[file], probes(file)) then now[file := row[file] + 1] else now - {file}, left - {file}, probes)
  {
  }

  lemma EnumeratesOne<T(!new)>(order: seq<T>, keys: set<T>, x: T)
    requires Enumerates(order, keys) && x !in keys
    ensures Enumerates(order + [x], keys + {x})
  {
    assert (order + [x])[|order|] == x;
    assert forall y | y in order :: y in order + [x];
  }

  lemma EnumeratesNext<T(!new)>(order: seq<T>, all: set<T>, left: set<T>, x: T)
    requires Enumerates(order, all - left) && x in left && left <= all
    ensures Enumerates(order + [x], all - (left - {x}))
  {
    EnumeratesOne(order, all - left, x);
    assert all - left + {x} == all - (left - {x});
  }

  /** What the loop over one row keeps: the files outside `left` are done, in the order `order`. */
  ghost predicate RowLoop(dir: Path, row: map<Path, nat>, now: map<Path, nat>, left: set<Path>, order: seq<Path>,
                          probes: Probes, params: TorrentParams, autoByDefault: bool, effects: seq<Effect>)
  {
    && left <= row.Keys
    && PassedRow(row, now, left, probes)
    && Enumerates(order, row.Keys - left)
    && effects == RowEffects(dir, row, order, probes, params, autoByDefault)
  }

  lemma RowLoopStep(dir: Path, row: map<Path, nat>, now: map<Path, nat>, left: set<Path>, order: seq<Path>,
                    probes: Probes, params: TorrentParams, autoByDefault: bool, effects: seq<Effect>, file: Path)
    requires RowLoop(dir, row, now, left, order, probes, params, autoByDefault, effects) && file in left
    ensures file in now && now[file] == row[file]
    ensures RowLoop(dir, row, if Stays(row[file], probes(file)) then now[file := row[file] + 1] else now - {file},
                    left - {file}, order + [file], probes, params, autoByDefault,
                    effects + RetryEffects(dir, file, row[file], probes(file), params, autoByDefault))
  {
    PassedRowStep(row, now, left, probes, file);
    EnumeratesNext(order, row.Keys, left, file);
    assert (order + [file])[..|order + [file]| - 1] == order;
  }

  /** The table once the rows in `order` have been passed, each left out when nothing stays in it. */
  function AfterRows(t: Table, order: seq<Path>, probes: Probes): Table
    decreases |order|
  {
    if order == [] then t
    else
      var now, dir := AfterRows(t, order[..|order| - 1], probes), order[|order| - 1];
      var row := if dir in t then PassRow(t[dir], probes) else map[];
      if row == map[] then now - {dir} else now[dir := row]
  }

  lemma {:induction false} AfterRowsAt(t: Table, order: seq<Path>, probes: Probes, d: Path)
    requires d in t
    ensures var now := AfterRows(t, order, probes);
            && (d in now <==> d !in order || PassRow(t[d], probes) != map[])
            && (d in now ==> now[d] == if d in order then PassRow(t[d], probes) else t[d])
    decreases |order|
  {
    if order != [] {
      var n := |order| - 1;
      AfterRowsAt(t, order[..n], probes, d);
      assert d in order <==> d in order[..n] || d == order[n];
    }
  }

  lemma {:induction false} AfterRowsWithin(t: Table, order: seq<Path>, probes: Probes)
    ensures AfterRows(t, order, probes).Keys <= t.Keys
    decreases |order|
  {
    if order != [] {
      AfterRowsWithin(t, order[..|order| - 1], probes);
    }
  }

  /** Passing every row makes the pass over the table, in whichever order. */
  lemma AfterAllRows(t: Table, order: seq<Path>, probes: Probes)
    requires Enumerates(order, t.Keys)
    ensures AfterRows(t, order, probes) == PassTable(t, probes)
  {
    AfterRowsWithin(t, order, probes);
    forall d | d in t
      ensures d in AfterRows(t, order, probes) <==> d in PassTable(t, probes)
      ensures d in PassTable(t, probes) ==> AfterRows(t, order, probes)[d] == PassTable(t, probes)[d]
    {
      AfterRowsAt(t, order, probes, d);
    }
  }

  /** The orders seen so far cover the rows `done`, each once. */
  ghost predicate Covers(order: seq<RowOrder>, t: Table, done: set<Path>)
    decreases |order|
  {
    if order == [] then done == {}
    else
      var last := order[|order| - 1];
      && last.dir in t && Enumerates(last.files, t[last.dir].Keys)
      && last.dir in done && Covers(order[..|order| - 1], t, done - {last.dir})
  }

  lemma CoversOne(order: seq<RowOrder>, t: Table, done: set<Path>, dir: Path, files: seq<Path>)
    requires Covers(order, t, done) && dir in t && dir !in done && Enumerates(files, t[dir].Keys)
    ensures Covers(order + [RowOrder(dir, files)], t, done + {dir})
  {
    assert (order + [RowOrder(dir, files)])[..|order + [RowOrder(dir, files)]| - 1] == order;
    assert done + {dir} - {dir} == done;
  }

  lemma {:induction false} CoveredDirs(order: seq<RowOrder>, t: Table, done: set<Path>)
    requires Covers(order, t, done)
    ensures forall i | 0 <= i < |order| :: order[i].dir in t && Enumerates(order[i].files, t[order[i].dir].Keys)
    ensures Enumerates(DirsOf(order), done)
    decreases |order|
  {
    if order != [] {
      var n := |order| - 1;
      var last := order[n];
      CoveredDirs(order[..n], t, done - {last.dir});
      EnumeratesOne(DirsOf(order[..n]), done - {last.dir}, last.dir);
      assert DirsOf(order) == DirsOf(order[..n]) + [last.dir];
      assert done - {last.dir} + {last.dir} == done;
      assert forall i | 0 <= i < n :: order[i] == order[..n][i];
    }
  }

  /** A row still to be passed is as it was. */
  lemma RowUntouched(order: seq<RowOrder>, t: Table, left: set<Path>, probes: Probes, dir: Path)
    requires Covers(order, t, t.Keys - left) && dir in left && dir in t
    ensures var now := AfterRows(t, DirsOf(order), probes); dir in now && now[dir] == t[dir]
  {
    CoveredDirs(order, t, t.Keys - left);
    AfterRowsAt(t, DirsOf(order), probes, dir);
  }

  /** Passing one more row. */
  lemma RowDone(order: seq<RowOrder>, t: Table, left: set<Path>, dir: Path, files: seq<Path>, probes: Probes,
                folders: map<Path, FolderOptions>, autoByDefault: bool, start: seq<Effect>)
    requires Covers(order, t, t.Keys - left) && dir in left && dir in t && Enumerates(files, t[dir].Keys)
    ensures var longer, row := order + [RowOrder(dir, files)], PassRow(t[dir], probes);
            && Covers(longer, t, t.Keys - (left - {dir}))
            && start + TableEffects(longer, t, probes, folders, autoByDefault)
               == start + TableEffects(order, t, probes, folders, autoByDefault)
                  + RowEffects(dir, t[dir], files, probes, OptionsOf(folders, dir).params, autoByDefault)
            && AfterRows(t, DirsOf(longer), probes)
               == if row == map[] then AfterRows(t, DirsOf(order), probes) - {dir}
                  else AfterRows(t, DirsOf(order), probes)[dir := row]
  {
    hide RowEffects;
    hide Covers;
    hide Enumerates;
    CoversOne(order, t, t.Keys - left, dir, files);
    assert t.Keys - left + {dir} == t.Keys - (left - {dir});
    var longer := order + [RowOrder(dir, files)];
    assert longer[..|longer| - 1] == order;
    assert DirsOf(longer) == DirsOf(order) + [dir];
    assert DirsOf(longer)[..|DirsOf(longer)| - 1] == DirsOf(order);
  }

  lemma NoRowsDone(t: Table, probes: Probes, folders: map<Path, FolderOptions>, autoByDefault: bool)
    ensures Covers([], t, {}) && AfterRows(t, DirsOf([]), probes) == t
    ensures TableEffects([], t, probes, folders, autoByDefault) == []
  {
  }

  lemma AllRowsDone(order: seq<RowOrder>, t: Table, probes: Probes)
    requires Covers(order, t, t.Keys - {})
    ensures EnumeratesTable(order, t) && AfterRows(t, DirsOf(order), probes) == PassTable(t, probes)
  {
    assert t.Keys - {} == t.Keys;
    CoveredDirs(order, t, t.Keys);
    AfterAllRows(t, DirsOf(order), probes);
  }

  /** A folder is polled iff it is recursive or on a network file system; the OS watcher has the others it can watch. */
  ghost predicate Detects(folders: map<Path, FolderOptions>, polled: set<Path>, osWatched: set<Path>,
                          isNetworkFileSystem: Path -> bool, canWatch: Path -> bool) {
    && polled <= folders.Keys && osWatched <= folders.Keys
    && (forall p | p in folders :: p in polled <==> isNetworkFileSystem(p) || folders[p].recursive)
    && (forall p | p in folders :: p in osWatched <==> p !in polled && canWatch(p))
  }

  /** When every path can be watched, polling and OS watching split the watched folders between them. */
  lemma DetectionPartitions(folders: map<Path, FolderOptions>, polled: set<Path>, osWatched: set<Path>,
                            isNetworkFileSystem: Path -> bool, canWatch: Path -> bool)
    requires Detects(folders, polled, osWatched, isNetworkFileSystem, canWatch)
    ensures polled !! osWatched
    ensures (forall p | p in folders :: canWatch(p)) ==> polled + osWatched == folders.Keys
  {
  }

  lemma DetectsSet(folders: map<Path, FolderOptions>, polled: set<Path>, osWatched: set<Path>,
                   isNetworkFileSystem: Path -> bool, canWatch: Path -> bool,
                   path: Path, options: FolderOptions, newPolled: set<Path>, newOsWatched: set<Path>)
    requires Detects(folders, polled, osWatched, isNetworkFileSystem, canWatch)
    requires newPolled - {path} == polled - {path} && newOsWatched - {path} == osWatched - {path}
    requires path in newPolled <==> isNetworkFileSystem(path) || options.recursive
    requires path in newOsWatched <==> path !in newPolled && canWatch(path)
    ensures Detects(folders[path := options], newPolled, newOsWatched, isNetworkFileSystem, canWatch)
  {
    assert forall p | p != path :: p in newPolled <==> p in newPolled - {path};
    assert forall p | p != path :: p in polled <==> p in polled - {path};
    assert forall p | p != path :: p in newOsWatched <==> p in newOsWatched - {path};
    assert forall p | p != path :: p in osWatched <==> p in osWatched - {path};
  }

  /** How a folder is watched. */
  lemma DetectsHas(folders: map<Path, FolderOptions>, polled: set<Path>, osWatched: set<Path>,
                   isNetworkFileSystem: Path -> bool, canWatch: Path -> bool, path: Path)
    requires Detects(folders, polled, osWatched, isNetworkFileSystem, canWatch)
    ensures path in polled <==> path in folders && (isNetworkFileSystem(path) || folders[path].recursive)
    ensures path in osWatched <==> path in folders && path !in polled && canWatch(path)
  {
  }

  lemma DetectsRemove(folders: map<Path, FolderOptions>, polled: set<Path>, osWatched: set<Path>,
                      isNetworkFileSystem: Path -> bool, canWatch: Path -> bool, path: Path)
    requires Detects(folders, polled, osWatched, isNetworkFileSystem, canWatch)
    ensures Detects(folders - {path}, polled - {path}, osWatched - {path}, isNetworkFileSystem, canWatch)
  {
  }

  lemma TableRemove(t: Table, path: Path)
    requires ValidTable(t, MAX_FAILED_RETRIES)
    ensures ValidTable(t - {path}, MAX_FAILED_RETRIES)
  {
  }

  predicate AllRooted(paths: set<Path>) {
    forall p | p in paths :: IsClean(p) && IsAbsolute(p)
  }

  lemma OwnVisit(p: Progress, params: TorrentParams, folder: Path, autoByDefault: bool, v: Visit)
    ensures HandleVisits(p, params, folder, autoByDefault, [v]) ==
            HandleFiles(p, PathOf(v.names), ScanParams(params, folder, PathOf(v.names), autoByDefault), v.dir.files)
  {
    assert [v][..0] == [];
  }

  /** What the next subdirectory adds to the visits of a recursive walk. */
  lemma SubdirStep(p: Progress, params: TorrentParams, folder: Path, autoByDefault: bool,
                   own: seq<Visit>, subdirs: seq<Subdir>, i: nat, names: seq<string>, watched: set<Path>)
    requires i < |subdirs|
    ensures var before := HandleVisits(p, params, folder, autoByDefault, own + WalkInto(subdirs[..i], names, watched));
            var here := names + [subdirs[i].name];
            HandleVisits(p, params, folder, autoByDefault, own + WalkInto(subdirs[..i + 1], names, watched)) ==
            if PathOf(here) in watched then before
            else HandleVisits(before, params, folder, autoByDefault, Walk(subdirs[i].dir, here, true, watched))
  {
    var here := names + [subdirs[i].name];
    var a := WalkInto(subdirs[..i], names, watched);
    assert subdirs[..i + 1][..i] == subdirs[..i];
    if PathOf(here) in watched {
      assert WalkInto(subdirs[..i + 1], names, watched) == a;
    } else {
      var b := Walk(subdirs[i].dir, here, true, watched);
      assert own + WalkInto(subdirs[..i + 1], names, watched) == (own + a) + b;
      HandleVisitsConcat(p, params, folder, autoByDefault, own + a, b);
    }
  }

  /** The folders in `order` that exist, with their directories. */
  function RootsOf(order: seq<Path>, listing: Path -> Option<Dir>): seq<WatchedRoot>
    decreases |order|
  {
    if order == [] then []
    else
      var path := order[|order| - 1];
      RootsOf(order[..|order| - 1], listing)
      + match listing(path) { case Some(dir) => [WatchedRoot(CleanItems(path), dir)] case None => [] }
  }

  lemma HandleNothing(p: Progress, listing: Path -> Option<Dir>, folders: map<Path, FolderOptions>, autoByDefault: bool)
    ensures HandlePass(p, RootsOf([], listing), folders, autoByDefault) == p
  {
  }

  lemma HandleOneMore(p: Progress, order: seq<Path>, path: Path, listing: Path -> Option<Dir>, folders: map<Path, FolderOptions>,
                      autoByDefault: bool)
    requires IsClean(path) && IsAbsolute(path)
    ensures var before := HandlePass(p, RootsOf(order, listing), folders, autoByDefault);
            var options := OptionsOf(folders, path);
            HandlePass(p, RootsOf(order + [path], listing), folders, autoByDefault) ==
            match listing(path)
            case None => before
            case Some(dir) => HandleVisits(before, options.params, path, autoByDefault,
                                           Walk(dir, CleanItems(path), options.recursive, folders.Keys))
  {
    CleanAbsoluteIsPathOf(path);
    assert (order + [path])[..|order + [path]| - 1] == order;
    var front, all := RootsOf(order, listing), RootsOf(order + [path], listing);
    if listing(path).Some? {
      assert all[..|all| - 1] == front;
    } else {
      assert all == front;
    }
  }

  /** A poll of an existing tree goes over watched folders of that tree, so the partition results apply to it. */
  lemma {:induction false} PollIsValidOrder(order: seq<Path>, listing: Path -> Option<Dir>, root: Dir, folders: map<Path, FolderOptions>)
    requires Distinct(order) && forall i | 0 <= i < |order| :: order[i] in folders
    requires AllRooted(folders.Keys)
    requires forall names, dir :: listing(PathOf(names)) == Some(dir) ==> Leads(root, names, dir)
    ensures ValidOrder(RootsOf(order, listing), root, folders)
    ensures forall r | r in RootsOf(order, listing) :: PathOf(r.names) in order
    decreases |order|
  {
    if order != [] {
      var n := |order| - 1;
      var path := order[n];
      PollIsValidOrder(order[..n], listing, root, folders);
      CleanAbsoluteIsPathOf(path);
      var front, all := RootsOf(order[..n], listing), RootsOf(order, listing);
      forall i, j | 0 <= i < j < |all|
        ensures all[i].names != all[j].names
      {
        if j == |front| {
          assert front[i] in front;
          assert PathOf(all[i].names) in order[..n];
        }
      }
      forall r | r in all
        ensures PathOf(r.names) in order
      {
        if r in front {
          assert PathOf(r.names) in order[..n];
        }
      }
    }
  }

  class Worker {
    const isNetworkFileSystem: Path -> bool
    /** Whether the OS watcher can watch a path. */
    const canWatch: Path -> bool
    /** The session's default for automatic torrent management. */
    const autoByDefault: bool

    var watchedFolders: map<Path, FolderOptions>
    var polled: set<Path>
    var osWatched: set<Path>
    var watchTimerActive: bool
    var retryTimerActive: bool
    var failed: Table
    /** Folders with a single-shot timer pending. */
    var scheduled: seq<Path>
    var log: seq<Effect>

    /** Folders are watched in the right way, and the poll timer runs iff some folder is polled. */
    ghost predicate ValidDetection()
      reads this`watchedFolders, this`polled, this`osWatched, this`watchTimerActive
    {
      && AllRooted(watchedFolders.Keys)
      && Detects(watchedFolders, polled, osWatched, isNetworkFileSystem, canWatch)
      && (watchTimerActive <==> polled != {})
    }

    /** The retry timer runs iff some torrent is pending, and no torrent is retried more often than the limit. */
    ghost predicate ValidRetry()
      reads this`failed, this`retryTimerActive
    {
      && (retryTimerActive <==> failed != map[])
      && ValidTable(failed, MAX_FAILED_RETRIES)
    }

    ghost predicate Valid()
      reads this`watchedFolders, this`polled, this`osWatched, this`watchTimerActive, this`failed, this`retryTimerActive
    {
      ValidDetection() && ValidRetry()
    }

    constructor (isNetworkFileSystem: Path -> bool, canWatch: Path -> bool, autoByDefault: bool)
      ensures Valid()
      ensures watchedFolders == map[] && failed == map[] && log == [] && scheduled == []
      ensures this.isNetworkFileSystem == isNetworkFileSystem && this.canWatch == canWatch && this.autoByDefault == autoByDefault
    {
      this.isNetworkFileSystem := isNetworkFileSystem;
      this.canWatch := canWatch;
      this.autoByDefault := autoByDefault;
      watchedFolders, polled, osWatched, failed := map[], {}, {}, map[];
      watchTimerActive, retryTimerActive := false, false;
      scheduled, log := [], [];
    }

    method SetWatchedFolder(path: Path, options: FolderOptions)
      requires Valid() && IsClean(path) && IsAbsolute(path)
      modifies this`watchedFolders, this`polled, this`osWatched, this`watchTimerActive, this`scheduled
      ensures Valid()
      ensures watchedFolders == old(watchedFolders)[path := options]
      ensures scheduled == old(scheduled) + if path !in polled && (path !in old(watchedFolders) || path in old(polled)) then [path] else []
    {
      if path in watchedFolders {
        UpdateWatchedFolder(path, options);
      } else {
        AddWatchedFolder(path, options);
      }
    }

    method AddWatchedFolder(path: Path, options: FolderOptions)
      requires Valid() && IsClean(path) && IsAbsolute(path) && path !in watchedFolders
      modifies this`watchedFolders, this`polled, this`osWatched, this`watchTimerActive, this`scheduled
      ensures Valid()
      ensures watchedFolders == old(watchedFolders)[path := options]
      ensures scheduled == old(scheduled) + if path in polled then [] else [path]
    {
      hide IsClean;
      hide ValidTable;
      hide Detects;
      DetectsHas(watchedFolders, polled, osWatched, isNetworkFileSystem, canWatch, path);
      if isNetworkFileSystem(path) || options.recursive {
        polled := polled + {path};
        if !watchTimerActive {
          watchTimerActive := true;
        }
      } else {
        if canWatch(path) {
          osWatched := osWatched + {path};
        }
        scheduled := scheduled + [path];
      }
      DetectsSet(watchedFolders, old(polled), old(osWatched), isNetworkFileSystem, canWatch, path, options, polled, osWatched);
      watchedFolders := watchedFolders[path := options];
    }

    method UpdateWatchedFolder(path: Path, options: FolderOptions)
      requires Valid() && path in watchedFolders
      modifies this`watchedFolders, this`polled, this`osWatched, this`watchTimerActive, this`scheduled
      ensures Valid()
      ensures watchedFolders == old(watchedFolders)[path := options]
      ensures scheduled == old(scheduled) + if path !in polled && path in old(polled) then [path] else []
    {
      hide IsClean;
      hide ValidTable;
      hide Detects;
      DetectsHas(watchedFolders, polled, osWatched, isNetworkFileSystem, canWatch, path);
      var recursiveModeChanged := watchedFolders[path].recursive != options.recursive;
      if recursiveModeChanged && !isNetworkFileSystem(path) {
        if options.recursive {
          osWatched := osWatched - {path};
          polled := polled + {path};
          if !watchTimerActive {
            watchTimerActive := true;
          }
        } else {
          polled := polled - {path};
          if polled == {} {
            watchTimerActive := false;
          }
          if canWatch(path) {
            osWatched := osWatched + {path};
          }
          scheduled := scheduled + [path];
        }
      }
      DetectsSet(watchedFolders, old(polled), old(osWatched), isNetworkFileSystem, canWatch, path, options, polled, osWatched);
      watchedFolders := watchedFolders[path := options];
    }

    method RemoveWatchedFolder(path: Path)
      requires Valid()
      modifies this`watchedFolders, this`polled, this`osWatched, this`watchTimerActive, this`retryTimerActive, this`failed
      ensures Valid()
      ensures watchedFolders == old(watchedFolders) - {path}
      ensures failed == old(failed) - {path}
    {
      DetectsRemove(watchedFolders, polled, osWatched, isNetworkFileSystem, canWatch, path);
      TableRemove(failed, path);
      assert AllRooted((watchedFolders - {path}).Keys);
      watchedFolders := watchedFolders - {path};
      osWatched := osWatched - {path};
      polled := polled - {path};
      if polled == {} {
        watchTimerActive := false;
      }
      failed := failed - {path};
      if failed == map[] {
        retryTimerActive := false;
      }
    }

    function Done(): Progress
      reads this
    {
      Progress(log, failed)
    }

    method ProcessFile(dir: Path, params: TorrentParams, file: File)
      modifies this`log, this`failed
      ensures Done() == HandleFile(old(Done()), dir, params, file)
    {
      hide IsListed;
      hide HasExtension;
      hide Div;
      hide MagnetEffects;
      MagnetEnds(file.content.lines, params);
      if !IsListed(file.name) {
        return;
      }
      var path := Div(dir, file.name);
      if HasExtension(path, ".magnet") {
        if file.content.opens && file.content.withinLimit {
          var lines := file.content.lines;
          for i := 0 to |lines|
            invariant log == old(log) + MagnetEffects(lines[..i], params)
            invariant failed == old(failed)
          {
            MagnetStep(lines, i, params);
            if lines[i].Some? {
              log := log + [Found(lines[i].value, params)];
            }
          }
          log := log + [Removed(path)];
        }
      } else if file.content.load.Some? {
        log := log + [Found(file.content.load.value, params), Removed(path)];
      } else if !Tracked(failed, dir, path) {
        failed := failed[dir := (if dir in failed then failed[dir] else map[])[path := 0]];
      }
    }

    method ProcessFiles(dir: Path, params: TorrentParams, files: seq<File>)
      modifies this`log, this`failed
      ensures Done() == HandleFiles(old(Done()), dir, params, files)
    {
      for i := 0 to |files|
        invariant Done() == HandleFiles(old(Done()), dir, params, files[..i])
      {
        assert files[..i + 1][..i] == files[..i];
        ProcessFile(dir, params, files[i]);
      }
      assert files[..|files|] == files;
    }

    method ProcessFolder(dir: Dir, path: Path, watchedFolderPath: Path, options: FolderOptions)
      requires IsClean(path) && IsAbsolute(path) && WellNamed(dir)
      modifies this`log, this`failed
      ensures Done() == HandleVisits(old(Done()), options.params, watchedFolderPath, autoByDefault,
                                     Walk(dir, CleanItems(path), options.recursive, watchedFolders.Keys))
      decreases dir
    {
      hide HandleVisits;
      hide HandleFiles;
      hide ScanParams;
      hide IsClean;
      hide IsAbsolute;
      hide PathOf;
      hide Div;
      hide CleanItems;
      ghost var names := CleanItems(path);
      ghost var start := Done();
      CleanAbsoluteIsPathOf(path);
      ProcessFiles(path, ScanParams(options.params, watchedFolderPath, path, autoByDefault), dir.files);
      ghost var own := [Visit(names, dir)];
      ghost var watched := watchedFolders.Keys;
      OwnVisit(start, options.params, watchedFolderPath, autoByDefault, own[0]);
      if options.recursive {
        assert own + WalkInto(dir.subdirs[..0], names, watched) == own;
        for i := 0 to |dir.subdirs|
          invariant Done() == HandleVisits(start, options.params, watchedFolderPath, autoByDefault,
                                           own + WalkInto(dir.subdirs[..i], names, watched))
        {
          var subdir := dir.subdirs[i];
          var folderPath := Div(path, subdir.name);
          DivName(names, subdir.name);
          SubdirStep(start, options.params, watchedFolderPath, autoByDefault, own, dir.subdirs, i, names, watched);
          if folderPath !in watchedFolders {
            ProcessFolder(subdir.dir, folderPath, watchedFolderPath, options);
          }
        }
        assert dir.subdirs[..|dir.subdirs|] == dir.subdirs;
      } else {
        assert own == Walk(dir, names, false, watched);
      }
    }

    /** `listing` is the directory at `path`, if there is one; `path` need not be watched any more. */
    method ProcessWatchedFolder(path: Path, listing: Option<Dir>)
      requires ValidRetry() && IsClean(path) && IsAbsolute(path) && (listing.Some? ==> WellNamed(listing.value))
      modifies this`log, this`failed, this`retryTimerActive
      ensures ValidRetry()
      ensures var options := OptionsOf(watchedFolders, path);
              Done() == match listing
                        case None => old(Done())
                        case Some(dir) => HandleVisits(old(Done()), options.params, path, autoByDefault,
                                                       Walk(dir, CleanItems(path), options.recursive, watchedFolders.Keys))
    {
      var options := OptionsOf(watchedFolders, path);
      if listing.Some? {
        ghost var visits := Walk(listing.value, CleanItems(path), options.recursive, watchedFolders.Keys);
        ScanKeepsTable(Done(), options.params, path, autoByDefault, visits, MAX_FAILED_RETRIES);
        ghost var before := Done();
        ProcessFolder(listing.value, path, path, options);
        forall d | d in before.failed
          ensures d in failed
        {
          var f :| f in before.failed[d];
          ScanTracksExactly(before, options.params, path, autoByDefault, visits, d, f);
        }
      }
      if failed != map[] && !retryTimerActive {
        retryTimerActive := true;
      }
    }

    /** Polling: every polled folder is processed once, in some order. */
    method OnTimeout(listing: Path -> Option<Dir>) returns (ghost order: seq<Path>)
      requires Valid() && forall p | p in polled && listing(p).Some? :: WellNamed(listing(p).value)
      modifies this`log, this`failed, this`retryTimerActive
      ensures Valid()
      ensures Enumerates(order, polled)
      ensures Done() == HandlePass(old(Done()), RootsOf(order, listing), watchedFolders, autoByDefault)
    {
      hide IsClean;
      hide HandleVisits;
      hide HandlePass;
      hide Walk;
      hide WellNamed;
      order := [];
      var left := polled;
      assert polled - left == {};
      ghost var start := Done();
      HandleNothing(start, listing, watchedFolders, autoByDefault);
      while left != {}
        invariant ValidRetry() && left <= polled
        invariant Enumerates(order, polled - left)
        invariant Done() == HandlePass(start, RootsOf(order, listing), watchedFolders, autoByDefault)
        decreases left
      {
        var path :| path in left;
        EnumeratesNext(order, polled, left, path);
        HandleOneMore(start, order, path, listing, watchedFolders, autoByDefault);
        ProcessWatchedFolder(path, listing(path));
        order := order + [path];
        left := left - {path};
      }
      assert polled - left == polled;
    }

    /** The retry pass, and the decision whether another one is due. */
    method ProcessFailedTorrents(probes: Probes) returns (ghost order: seq<RowOrder>)
      requires Valid()
      modifies this`log, this`failed, this`retryTimerActive
      ensures Valid()
      ensures failed == PassTable(old(failed), probes)
      ensures EnumeratesTable(order, old(failed))
      ensures log == old(log) + TableEffects(order, old(failed), probes, watchedFolders, autoByDefault)
    {
      hide PassTable;
      hide TableEffects;
      hide EnumeratesTable;
      hide ValidTable;
      PassKeepsTable(failed, probes);
      order := ProcessRows(probes);
      retryTimerActive := failed != map[];
    }

    /** Goes over the table and within it over each row, erasing entries as it goes. */
    method ProcessRows(probes: Probes) returns (ghost order: seq<RowOrder>)
      modifies this`log, this`failed
      ensures failed == PassTable(old(failed), probes)
      ensures EnumeratesTable(order, old(failed))
      ensures log == old(log) + TableEffects(order, old(failed), probes, watchedFolders, autoByDefault)
    {
      hide PassTable;
      hide AfterRows;
      hide Covers;
      hide TableEffects;
      hide EnumeratesTable;
      ghost var t, start := failed, log;
      order := [];
      var left := failed.Keys;
      NoRowsDone(t, probes, watchedFolders, autoByDefault);
      assert t.Keys - left == {};
      while left != {}
        invariant left <= t.Keys
        invariant Covers(order, t, t.Keys - left)
        invariant failed == AfterRows(t, DirsOf(order), probes)
        invariant log == start + TableEffects(order, t, probes, watchedFolders, autoByDefault)
        decreases left
      {
        var dir :| dir in left;
        RowUntouched(order, t, left, probes, dir);
        var row, files := ProcessRow(dir, failed[dir], probes, OptionsOf(watchedFolders, dir).params);
        RowDone(order, t, left, dir, files, probes, watchedFolders, autoByDefault, start);
        failed := if row == map[] then failed - {dir} else failed[dir := row];
        order := order + [RowOrder(dir, files)];
        left := left - {dir};
      }
      AllRowsDone(order, t, probes);
    }

    /** One row of the retry pass, for the directory `dir`. */
    method ProcessRow(dir: Path, torrents: map<Path, nat>, probes: Probes, params: TorrentParams)
      returns (row: map<Path, nat>, ghost order: seq<Path>)
      modifies this`log
      ensures row == PassRow(torrents, probes)
      ensures Enumerates(order, torrents.Keys)
      ensures log == old(log) + RowEffects(dir, torrents, order, probes, params, autoByDefault)
    {
      hide RetryParams;
      hide MakePath;
      ghost var effects: seq<Effect> := [];
      row, order := torrents, [];
      var left := row.Keys;
      while left != {}
        invariant RowLoop(dir, torrents, row, left, order, probes, params, autoByDefault, effects)
        invariant log == old(log) + effects
        decreases left
      {
        var file :| file in left;
        RowLoopStep(dir, torrents, row, left, order, probes, params, autoByDefault, effects, file);
        var erase := RetryFile(dir, file, row[file], probes(file), params);
        effects := effects + RetryEffects(dir, file, row[file], probes(file), params, autoByDefault);
        row := if erase then row - {file} else row[file := row[file] + 1];
        order := order + [file];
        left := left - {file};
      }
      PassedRowEnd(torrents, row, probes);
      assert torrents.Keys - {} == torrents.Keys;
    }

    /** One entry; true when it is to be erased. */
    method RetryFile(dir: Path, file: Path, count: nat, probe: Probe, params: TorrentParams) returns (erase: bool)
      modifies this`log
      ensures log == old(log) + RetryEffects(dir, file, count, probe, params, autoByDefault)
      ensures erase == !Stays(count, probe)
    {
      match probe {
        case Missing =>
          return true;
        case Loads(torrent) =>
          log := log + [Found(torrent, RetryParams(params, dir, file, autoByDefault)), Removed(file)];
          return true;
        case Unreadable =>
          if count >= MAX_FAILED_RETRIES {
            log := log + [Renamed(file, MakePath(file + ".qbt_rejected"))];
            return true;
          }
          return false;
      }
    }
  }

  /**
   * Files recorded below a recursive folder are retried without its options: the directory they are
   * recorded under is not itself watched, so the retry looks up default options for it.
   */
  lemma SubfolderRetryForgetsOptions(root: Dir, w: seq<string>, at: Dir, folders: map<Path, FolderOptions>, v: Visit)
    requires WellNamed(root) && Leads(root, w, at) && PathOf(w) in folders
    requires v in Walk(at, w, folders[PathOf(w)].recursive, folders.Keys) && v.names != w
    ensures OptionsOf(folders, PathOf(v.names)) == DEFAULT_OPTIONS
  {
    TreePartition(root, w, at, folders, v);
    DeepestIffUnclaimed(w, v.names, folders.Keys);
    assert v.names[..|v.names|] == v.names;
  }

  /**
   * When the retry of an unreadable file has the parameters of its first attempt: never for a file
   * directly in the watched folder, and below it only for default parameters and a file named like the
   * directory it lies in.
   */
  lemma RetryKeepsParamsIff(root: Dir, w: seq<string>, at: Dir, folders: map<Path, FolderOptions>, v: Visit, name: string,
                            autoByDefault: bool)
    requires WellNamed(root) && Leads(root, w, at) && PathOf(w) in folders
    requires v in Walk(at, w, folders[PathOf(w)].recursive, folders.Keys) && IsName(name)
    requires IsClean(folders[PathOf(w)].params.savePath)
    ensures var params, dir := folders[PathOf(w)].params, PathOf(v.names);
            RetryParams(OptionsOf(folders, dir).params, dir, PathOf(v.names + [name]), autoByDefault)
            == ScanParams(params, PathOf(w), dir, autoByDefault)
            <==>
            && v.names == w + [name] && params.useAutoTMM == None && params.category == ""
            && (params.savePath == "" || (!autoByDefault && params.savePath == HERE))
  {
    hide Walk;
    hide RetryParams;
    hide ScanParams;
    hide IsClean;
    var params := folders[PathOf(w)].params;
    TreePartition(root, w, at, folders, v);
    VisitIsNamed(root, v);
    if v.names == w {
      RetryChangesParams(params, w, name, autoByDefault);
    } else {
      var below := v.names[|w|..];
      assert v.names == w + below && v.names[..|w|] == w;
      SubfolderRetryForgetsOptions(root, w, at, folders, v);
      RetryBelowKeepsParamsIff(params, w, below, name, autoByDefault);
    }
  }

  // ----- The main thread and its worker -----

  /** What the main thread posts to the worker's event loop. */
  datatype Closure = SetFolder(path: Path, options: FolderOptions) | RemoveFolder(path: Path)

  function ApplyClosure(folders: map<Path, FolderOptions>, c: Closure): map<Path, FolderOptions> {
    match c
    case SetFolder(path, options) => folders[path := options]
    case RemoveFolder(path) => folders - {path}
  }

  /** The posted closures run in the order they were posted. */
  function ApplyAll(folders: map<Path, FolderOptions>, posted: seq<Closure>): map<Path, FolderOptions>
    decreases |posted|
  {
    if posted == [] then folders else ApplyAll(ApplyClosure(folders, posted[0]), posted[1..])
  }

  lemma {:induction false} ApplyAllPost(folders: map<Path, FolderOptions>, posted: seq<Closure>, c: Closure)
    ensures ApplyAll(folders, posted + [c]) == ApplyClosure(ApplyAll(folders, posted), c)
    decreases |posted|
  {
    if posted != [] {
      assert (posted + [c])[1..] == posted[1..] + [c];
      ApplyAllPost(ApplyClosure(folders, posted[0]), posted[1..], c);
    }
  }

  predicate Rooted(c: Closure) {
    c.SetFolder? ==> IsClean(c.path) && IsAbsolute(c.path)
  }

  datatype SetResult = Done | EmptyPath | RelativePath

  /** The main thread's folders, what it has posted and the worker has not run yet, and the worker's folders. */
  datatype FolderState = FolderState(main: map<Path, FolderOptions>, posted: seq<Closure>, worker: map<Path, FolderOptions>)

  datatype Event = UserSets(path: Path, options: FolderOptions) | UserRemoves(path: Path) | WorkerRuns

  function CheckPath(path: Path): SetResult {
    if path == "" then EmptyPath else if !IsAbsolute(path) then RelativePath else Done
  }

  function Next(s: FolderState, e: Event): FolderState {
    match e
    case UserSets(path, options) =>
      if CheckPath(path) != Done then s
      else FolderState(s.main[path := options], s.posted + [SetFolder(path, options)], s.worker)
    case UserRemoves(path) =>
      if path !in s.main then s
      else FolderState(s.main - {path}, s.posted + [RemoveFolder(path)], s.worker)
    case WorkerRuns =>
      if s.posted == [] then s
      else FolderState(s.main, s.posted[1..], ApplyClosure(s.worker, s.posted[0]))
  }

  function RunEvents(s: FolderState, events: seq<Event>): FolderState
    decreases |events|
  {
    if events == [] then s else RunEvents(Next(s, events[0]), events[1..])
  }

  /** The worker is only behind: running what is posted brings it to the main thread's folders. */
  predicate InSync(s: FolderState) {
    ApplyAll(s.worker, s.posted) == s.main
  }

  lemma NextKeepsInSync(s: FolderState, e: Event)
    requires InSync(s)
    ensures InSync(Next(s, e))
  {
    match e
    case UserSets(path, options) => ApplyAllPost(s.worker, s.posted, SetFolder(path, options));
    case UserRemoves(path) => ApplyAllPost(s.worker, s.posted, RemoveFolder(path));
    case WorkerRuns =>
  }

  /** What the user asked for last about a folder: to watch it with options, or not to; nothing if never asked. */
  function LastRequest(events: seq<Event>, path: Path): Option<Option<FolderOptions>>
    decreases |events|
  {
    if events == [] then None
    else
      match events[|events| - 1]
      case UserSets(p, options) =>
        if p == path && p != "" && IsAbsolute(p) then Some(Some(options)) else LastRequest(events[..|events| - 1], path)
      case UserRemoves(p) =>
        if p == path then Some(None) else LastRequest(events[..|events| - 1], path)
      case WorkerRuns => LastRequest(events[..|events| - 1], path)
  }

  lemma {:induction false} RunEventsLast(s: FolderState, events: seq<Event>, e: Event)
    ensures RunEvents(s, events + [e]) == Next(RunEvents(s, events), e)
    decreases |events|
  {
    if events != [] {
      assert (events + [e])[0] == events[0] && (events + [e])[1..] == events[1..] + [e];
      RunEventsLast(Next(s, events[0]), events[1..], e);
    } else {
      assert [e][1..] == [] && events + [e] == [e];
    }
  }

  /** The main thread watches a folder exactly as the user asked last, and with nothing posted so does the worker. */
  lemma {:induction false} FoldersAreAsRequested(events: seq<Event>, path: Path)
    ensures var s := RunEvents(FolderState(map[], [], map[]), events);
            var request := LastRequest(events, path);
            && (path in s.main <==> request.Some? && request.value.Some?)
            && (path in s.main ==> s.main[path] == request.value.value)
            && (s.posted == [] ==> s.worker == s.main)
    decreases |events|
  {
    RunStaysInSync(FolderState(map[], [], map[]), events);
    if events != [] {
      var n := |events| - 1;
      FoldersAreAsRequested(events[..n], path);
      RunEventsLast(FolderState(map[], [], map[]), events[..n], events[n]);
      assert events == events[..n] + [events[n]];
    }
  }

  /** Main/worker refinement: in every run, and with nothing posted the two agree. */
  lemma {:induction false} RunStaysInSync(s: FolderState, events: seq<Event>)
    requires InSync(s)
    ensures InSync(RunEvents(s, events))
    ensures RunEvents(s, events).posted == [] ==> RunEvents(s, events).worker == RunEvents(s, events).main
    decreases |events|
  {
    if events != [] {
      NextKeepsInSync(s, events[0]);
      RunStaysInSync(Next(s, events[0]), events[1..]);
    }
  }

  /** Left alone, the worker catches up: once it has run everything posted it has the main thread's folders. */
  lemma {:induction false} WorkerCatchesUp(s: FolderState)
    requires InSync(s)
    ensures RunEvents(s, seq(|s.posted|, _ => WorkerRuns)) == FolderState(s.main, [], s.main)
    decreases |s.posted|
  {
    if s.posted != [] {
      NextKeepsInSync(s, WorkerRuns);
      WorkerCatchesUp(Next(s, WorkerRuns));
      assert seq(|s.posted|, _ => WorkerRuns)[1..] == seq(|s.posted| - 1, _ => WorkerRuns);
    }
  }

  class TorrentFilesWatcher {
    var watchedFolders: map<Path, FolderOptions>
    var posted: seq<Closure>
    const worker: Worker

    function Value(): FolderState
      reads this, worker
    {
      FolderState(watchedFolders, posted, worker.watchedFolders)
    }

    ghost predicate Valid()
      reads this, worker
    {
      && worker.Valid()
      && InSync(Value())
      && forall i | 0 <= i < |posted| :: Rooted(posted[i])
    }

    constructor (worker: Worker)
      requires worker.Valid() && worker.watchedFolders == map[]
      ensures Valid() && this.worker == worker && watchedFolders == map[] && posted == []
    {
      this.worker := worker;
      watchedFolders := map[];
      posted := [];
    }

    method SetWatchedFolder(path: Path, options: FolderOptions) returns (result: SetResult)
      requires Valid() && IsClean(path)
      modifies this`watchedFolders, this`posted
      ensures Valid() && result == CheckPath(path)
      ensures result == if path == "" then EmptyPath else if path[0] != '/' then RelativePath else Done
      ensures watchedFolders == if result == Done then old(watchedFolders)[path := options] else old(watchedFolders)
      ensures posted == old(posted) + if result == Done then [SetFolder(path, options)] else []
      ensures Value() == Next(old(Value()), UserSets(path, options))
    {
      NextKeepsInSync(Value(), UserSets(path, options));
      if path == "" {
        return EmptyPath;
      }
      if !IsAbsolute(path) {
        return RelativePath;
      }
      watchedFolders := watchedFolders[path := options];
      posted := posted + [SetFolder(path, options)];
      return Done;
    }

    method RemoveWatchedFolder(path: Path)
      requires Valid()
      modifies this`watchedFolders, this`posted
      ensures Valid()
      ensures Value() == Next(old(Value()), UserRemoves(path))
      ensures watchedFolders == old(watchedFolders) - {path}
      ensures posted == old(posted) + if path in old(watchedFolders) then [RemoveFolder(path)] else []
    {
      NextKeepsInSync(Value(), UserRemoves(path));
      if path in watchedFolders {
        watchedFolders := watchedFolders - {path};
        posted := posted + [RemoveFolder(path)];
      }
    }

    /** The worker's event loop takes the closure posted first and runs it. */
    method RunPosted()
      requires Valid() && posted != []
      modifies this`posted, worker
      ensures Valid()
      ensures Value() == Next(old(Value()), WorkerRuns)
    {
      NextKeepsInSync(Value(), WorkerRuns);
      var closure := posted[0];
      assert Rooted(closure);
      posted := posted[1..];
      match closure {
        case SetFolder(path, options) => worker.SetWatchedFolder(path, options);
        case RemoveFolder(path) => worker.RemoveWatchedFolder(path);
      }
    }
  }
}
