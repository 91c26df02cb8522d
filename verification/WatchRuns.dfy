/**
 * Whole runs of the watched-folder worker over files that come and go: folder passes and retry passes in
 * any order, where a file that is removed or renamed is gone from its place.
 */
module WatchRuns {
  import opened Options
  import opened Strings
  import opened Paths
  import opened CleanPaths
  import opened WatchTree
  import opened WatchedFiles
  import opened RetryTable
  import opened Watcher

  /** The files that are at their places, and the worker's progress. */
  datatype World = World(present: set<Path>, done: Progress)

  const START := World({}, Progress([], map[]))

  /**
   * A file arrives (anew) or is taken away by somebody else; the worker processes the folder `names`,
   * with whatever options and watched folders it has then; a retry pass; a folder's row is dropped.
   */
  datatype Event =
    | Arrives(f: Path)
    | Vanishes(f: Path)
    | FolderPass(dir: Dir, names: seq<string>, options: FolderOptions, watched: set<Path>)
    | RetryPass(order: seq<RowOrder>, probes: Probes, folders: map<Path, FolderOptions>)
    | FolderRemoved(path: Path)

  /** The files left at their places. */
  function Left(present: set<Path>, before: seq<Effect>, after: seq<Effect>): set<Path> {
    set f | f in present && Ends(after, f) == Ends(before, f)
  }

  function Next(w: World, e: Event, autoByDefault: bool): World {
    match e
    case Arrives(f) => w.(present := w.present + {f})
    case Vanishes(f) => w.(present := w.present - {f})
    case FolderPass(dir, names, options, watched) =>
      var done := HandleVisits(w.done, options.params, PathOf(names), autoByDefault, Walk(dir, names, options.recursive, watched));
      World(Left(w.present, w.done.log, done.log), done)
    case RetryPass(order, probes, folders) =>
      var log := w.done.log + TableEffects(order, w.done.failed, probes, folders, autoByDefault);
      World(Left(w.present, w.done.log, log), Progress(log, PassTable(w.done.failed, probes)))
    case FolderRemoved(path) => w.(done := w.done.(failed := w.done.failed - {path}))
  }

  /** Every listed file of the visited directories is there. */
  ghost predicate ShowsPresent(visits: seq<Visit>, present: set<Path>) {
    forall v, k | v in visits && 0 <= k < |v.dir.files| && IsListed(v.dir.files[k].name) :: PathsIn(v)[k] in present
  }

  /** Passes see the files that are there. */
  ghost predicate Legal(w: World, e: Event) {
    match e
    case Arrives(f) => f !in w.present
    case Vanishes(f) => f in w.present
    case FolderPass(dir, names, options, watched) =>
      AllNames(names) && WellNamed(dir) && ShowsPresent(Walk(dir, names, options.recursive, watched), w.present)
    case RetryPass(order, probes, _) =>
      EnumeratesTable(order, w.done.failed) && forall f :: probes(f).Missing? <==> f !in w.present
    case FolderRemoved(_) => true
  }

  function Run(w: World, events: seq<Event>, autoByDefault: bool): World
    decreases |events|
  {
    if events == [] then w else Run(Next(w, events[0], autoByDefault), events[1..], autoByDefault)
  }

  ghost predicate LegalRun(w: World, events: seq<Event>, autoByDefault: bool)
    decreases |events|
  {
    events == [] || (Legal(w, events[0]) && LegalRun(Next(w, events[0], autoByDefault), events[1..], autoByDefault))
  }

  function Arrivals(events: seq<Event>, f: Path): nat {
    if events == [] then 0 else (if events[0] == Arrives(f) then 1 else 0) + Arrivals(events[1..], f)
  }

  function Vanishings(events: seq<Event>, f: Path): nat {
    if events == [] then 0 else (if events[0] == Vanishes(f) then 1 else 0) + Vanishings(events[1..], f)
  }

  function Presence(present: set<Path>, f: Path): nat {
    if f in present then 1 else 0
  }

  // ----- Files are tracked under their own directory only -----

  /** The directory a file lies in. */
  function DirOf(f: Path): Path {
    var items := CleanItems(f);
    if items == [] then f else PathOf(items[..|items| - 1])
  }

  /** `f` is a file named in its directory by a name. */
  ghost predicate IsFile(f: Path) {
    exists names: seq<string>, name :: AllNames(names) && IsName(name) && f == PathOf(names + [name])
  }

  ghost predicate UnderOwnDir(t: Table) {
    forall d, f | Tracked(t, d, f) :: d == DirOf(f) && IsFile(f)
  }

  lemma DirOfFile(names: seq<string>, name: string)
    requires AllNames(names) && IsName(name)
    ensures DirOf(PathOf(names + [name])) == PathOf(names)
  {
    hide PathOf;
    hide CleanItems;
    DivName(names, name);
    assert (names + [name])[..|names|] == names;
  }

  lemma ScanTracksUnderOwnDir(p: Progress, params: TorrentParams, folder: Path, autoByDefault: bool, visits: seq<Visit>)
    requires UnderOwnDir(p.failed) && forall v | v in visits :: NamedVisit(v)
    ensures UnderOwnDir(HandleVisits(p, params, folder, autoByDefault, visits).failed)
  {
    hide HandleVisits;
    hide DirOf;
    hide IsFile;
    hide PathOf;
    hide Div;
    hide Fails;
    hide IsListed;
    var after := HandleVisits(p, params, folder, autoByDefault, visits).failed;
    forall d, f | Tracked(after, d, f)
      ensures d == DirOf(f) && IsFile(f)
    {
      ScanTracksExactly(p, params, folder, autoByDefault, visits, d, f);
      if !Tracked(p.failed, d, f) {
        var i :| 0 <= i < |visits| && d == PathOf(visits[i].names) && FailsAmong(visits[i].dir.files, d, f);
        FailingIsInDir(visits[i], f);
      }
    }
  }

  lemma FailingIsInDir(v: Visit, f: Path)
    requires NamedVisit(v) && FailsAmong(v.dir.files, PathOf(v.names), f)
    ensures DirOf(f) == PathOf(v.names) && IsFile(f)
  {
    hide PathOf;
    hide Div;
    hide DirOf;
    hide Fails;
    var k :| 0 <= k < |v.dir.files| && f == Div(PathOf(v.names), v.dir.files[k].name);
    DivName(v.names, v.dir.files[k].name);
    DirOfFile(v.names, v.dir.files[k].name);
  }

  lemma RetryTracksUnderOwnDir(t: Table, probes: Probes)
    requires UnderOwnDir(t)
    ensures UnderOwnDir(PassTable(t, probes))
  {
    hide PassTable;
    forall d, f | Tracked(PassTable(t, probes), d, f)
      ensures d == DirOf(f) && IsFile(f)
    {
      PassTracks(t, probes, d, f);
    }
  }

  // ----- What one pass takes away -----

  /** A folder pass takes a file away at most once, and only if it is there. */
  lemma FolderPassTakesOnce(p: Progress, dir: Dir, names: seq<string>, options: FolderOptions, watched: set<Path>,
                            autoByDefault: bool, present: set<Path>, f: Path)
    requires AllNames(names) && WellNamed(dir)
    requires ShowsPresent(Walk(dir, names, options.recursive, watched), present)
    ensures var visits := Walk(dir, names, options.recursive, watched);
            var after := HandleVisits(p, options.params, PathOf(names), autoByDefault, visits).log;
            Ends(p.log, f) <= Ends(after, f) <= Ends(p.log, f) + Presence(present, f)
  {
    hide Walk;
    hide HandleVisits;
    hide Jobs;
    hide Effects;
    hide Ends;
    hide Takes;
    hide WellNamed;
    hide NamedVisit;
    hide PathOf;
    hide ShowsPresent;
    hide FilePaths;
    var visits := Walk(dir, names, options.recursive, watched);
    var jobs := Jobs(options.params, PathOf(names), autoByDefault, visits);
    WalkIsNamed(dir, names, options.recursive, watched);
    WalkDistinct(dir, names, options.recursive, watched);
    FilePathsDistinct(visits);
    ScanLogIs(p, options.params, PathOf(names), autoByDefault, visits);
    JobPathsAre(options.params, PathOf(names), autoByDefault, visits);
    EndsConcat(p.log, Effects(jobs), f);
    if f !in present {
      AbsentIsNotTaken(options.params, PathOf(names), autoByDefault, visits, present, f);
    }
    TakenAtMostOnce(jobs, f);
  }

  lemma {:induction false} AbsentIsNotTaken(params: TorrentParams, folder: Path, autoByDefault: bool, visits: seq<Visit>,
                                            present: set<Path>, f: Path)
    requires ShowsPresent(visits, present) && f !in present
    ensures NoneTakes(Jobs(params, folder, autoByDefault, visits), f)
    ensures Ends(Effects(Jobs(params, folder, autoByDefault, visits)), f) == 0
    decreases |visits|
  {
    hide ScanParams;
    hide Effects;
    hide Ends;
    hide PathsIn;
    if visits != [] {
      var n := |visits| - 1;
      assert forall v | v in visits[..n] :: v in visits;
      AbsentIsNotTaken(params, folder, autoByDefault, visits[..n], present, f);
      assert visits[n] in visits;
    }
    EndsOnlyThere(Jobs(params, folder, autoByDefault, visits), f);
  }

  lemma TakenAtMostOnce(jobs: seq<Job>, f: Path)
    requires Distinct(JobPaths(jobs))
    ensures Ends(Effects(jobs), f) <= 1
  {
    hide Effects;
    hide Ends;
    hide Takes;
    if j :| 0 <= j < |jobs| && jobs[j].path == f {
      EffectsAround(jobs, j);
    } else {
      EndsOnlyThere(jobs, f);
    }
  }

  /** The retry takes the file away: it loads, or its retries have run out. */
  predicate RetryEnds(count: nat, probe: Probe) {
    !probe.Missing? && !Stays(count, probe)
  }

  lemma EntryEnds(dir: Path, file: Path, count: nat, probe: Probe, params: TorrentParams, autoByDefault: bool, f: Path)
    ensures Ends(RetryEffects(dir, file, count, probe, params, autoByDefault), f)
            == if file == f && RetryEnds(count, probe) then 1 else 0
  {
    hide RetryParams;
    hide MakePath;
    hide Ends;
    NothingEnds(f);
    match probe
    case Missing =>
    case Loads(torrent) =>
      var found := Found(torrent, RetryParams(params, dir, file, autoByDefault));
      EndOfOne([], found, f);
      EndOfOne([found], Removed(file), f);
      assert [] + [found] == [found];
      assert [found] + [Removed(file)] == [found, Removed(file)];
    case Unreadable =>
      var renamed := Renamed(file, MakePath(file + ".qbt_rejected"));
      EndOfOne([], renamed, f);
      assert [] + [renamed] == [renamed];
  }

  lemma {:induction false} RowEnds(dir: Path, row: map<Path, nat>, order: seq<Path>, probes: Probes, params: TorrentParams,
                                   autoByDefault: bool, f: Path)
    requires Distinct(order)
    ensures Ends(RowEffects(dir, row, order, probes, params, autoByDefault), f)
            == if f in order && f in row && RetryEnds(row[f], probes(f)) then 1 else 0
    decreases |order|
  {
    hide RetryEffects;
    hide RetryEnds;
    hide Ends;
    NothingEnds(f);
    if order != [] {
      var n := |order| - 1;
      var file := order[n];
      RowEnds(dir, row, order[..n], probes, params, autoByDefault, f);
      assert order == order[..n] + [file];
      if file in row {
        EntryEnds(dir, file, row[file], probes(file), params, autoByDefault, f);
        EndsConcat(RowEffects(dir, row, order[..n], probes, params, autoByDefault),
                   RetryEffects(dir, file, row[file], probes(file), params, autoByDefault), f);
      } else {
        EndsConcat(RowEffects(dir, row, order[..n], probes, params, autoByDefault), [], f);
      }
    }
  }

  /** A retry pass takes a file away exactly if it is tracked under its directory and the retry takes it, and then once. */
  lemma {:induction false} TableEnds(order: seq<RowOrder>, t: Table, probes: Probes, folders: map<Path, FolderOptions>,
                                     autoByDefault: bool, f: Path)
    requires UnderOwnDir(t) && Distinct(DirsOf(order))
    requires forall i | 0 <= i < |order| :: order[i].dir in t && Enumerates(order[i].files, t[order[i].dir].Keys)
    ensures Ends(TableEffects(order, t, probes, folders, autoByDefault), f)
            == if DirOf(f) in DirsOf(order) && Tracked(t, DirOf(f), f) && RetryEnds(t[DirOf(f)][f], probes(f)) then 1 else 0
    decreases |order|
  {
    hide RowEffects;
    hide RetryEnds;
    hide Ends;
    hide DirOf;
    NothingEnds(f);
    if order != [] {
      var n := |order| - 1;
      var r := order[n];
      var params := OptionsOf(folders, r.dir).params;
      DirsOneMore(order);
      TableEnds(order[..n], t, probes, folders, autoByDefault, f);
      RowEnds(r.dir, t[r.dir], r.files, probes, params, autoByDefault, f);
      EndsConcat(TableEffects(order[..n], t, probes, folders, autoByDefault),
                 RowEffects(r.dir, t[r.dir], r.files, probes, params, autoByDefault), f);
      assert f in r.files <==> Tracked(t, r.dir, f);
    }
  }

  lemma DirsOneMore(order: seq<RowOrder>)
    requires order != [] && Distinct(DirsOf(order))
    ensures var n := |order| - 1;
            && DirsOf(order) == DirsOf(order[..n]) + [order[n].dir]
            && Distinct(DirsOf(order[..n])) && order[n].dir !in DirsOf(order[..n])
            && forall i | 0 <= i < n :: order[..n][i] == order[i]
  {
    var n := |order| - 1;
    var dirs := DirsOf(order);
    assert DirsOf(order[..n]) == dirs[..n];
    forall i | 0 <= i < n
      ensures dirs[..n][i] != order[n].dir
    {
      assert dirs[i] != dirs[n];
    }
  }

  // ----- The balance of a file -----

  /** One event: a file at its place came there, and one that leaves its place is taken away once or vanishes. */
  lemma NextKeepsBalance(w: World, e: Event, autoByDefault: bool, f: Path)
    requires UnderOwnDir(w.done.failed) && Legal(w, e)
    ensures var v := Next(w, e, autoByDefault);
            && UnderOwnDir(v.done.failed)
            && Ends(v.done.log, f) + (if e == Vanishes(f) then 1 else 0) + Presence(v.present, f)
               == Ends(w.done.log, f) + (if e == Arrives(f) then 1 else 0) + Presence(w.present, f)
  {
    hide UnderOwnDir;
    hide Walk;
    hide HandleVisits;
    hide TableEffects;
    hide PassTable;
    hide WellNamed;
    hide ShowsPresent;
    hide EnumeratesTable;
    hide PathOf;
    hide Ends;
    match e
    case Arrives(_) =>
    case Vanishes(_) =>
    case FolderRemoved(path) => DropKeepsUnderOwnDir(w.done.failed, path);
    case FolderPass(dir, names, options, watched) =>
      FolderPassTakesOnce(w.done, dir, names, options, watched, autoByDefault, w.present, f);
      WalkIsNamed(dir, names, options.recursive, watched);
      ScanTracksUnderOwnDir(w.done, options.params, PathOf(names), autoByDefault, Walk(dir, names, options.recursive, watched));
    case RetryPass(order, probes, folders) =>
      RetryPassTakesOnce(w, order, probes, folders, autoByDefault, f);
      RetryTracksUnderOwnDir(w.done.failed, probes);
  }

  lemma DropKeepsUnderOwnDir(t: Table, path: Path)
    requires UnderOwnDir(t)
    ensures UnderOwnDir(t - {path})
  {
    assert forall d, f | Tracked(t - {path}, d, f) :: Tracked(t, d, f);
  }

  lemma RetryPassTakesOnce(w: World, order: seq<RowOrder>, probes: Probes, folders: map<Path, FolderOptions>,
                           autoByDefault: bool, f: Path)
    requires UnderOwnDir(w.done.failed) && EnumeratesTable(order, w.done.failed)
    requires probes(f).Missing? <==> f !in w.present
    ensures var after := w.done.log + TableEffects(order, w.done.failed, probes, folders, autoByDefault);
            Ends(w.done.log, f) <= Ends(after, f) <= Ends(w.done.log, f) + Presence(w.present, f)
  {
    hide TableEffects;
    hide DirOf;
    hide Ends;
    TableEnds(order, w.done.failed, probes, folders, autoByDefault, f);
    EndsConcat(w.done.log, TableEffects(order, w.done.failed, probes, folders, autoByDefault), f);
  }

  lemma {:induction false} RunKeepsBalance(w: World, events: seq<Event>, autoByDefault: bool, f: Path)
    requires UnderOwnDir(w.done.failed) && LegalRun(w, events, autoByDefault)
    ensures var v := Run(w, events, autoByDefault);
            Ends(v.done.log, f) + Vanishings(events, f) + Presence(v.present, f)
            == Ends(w.done.log, f) + Arrivals(events, f) + Presence(w.present, f)
    decreases |events|
  {
    hide UnderOwnDir;
    hide Legal;
    hide Next;
    hide Ends;
    if events != [] {
      NextKeepsBalance(w, events[0], autoByDefault, f);
      RunKeepsBalance(Next(w, events[0], autoByDefault), events[1..], autoByDefault, f);
    }
  }

  lemma JoinLonger(names: seq<string>, name: string, suffix: string)
    ensures JoinItems(names + [name]) + suffix == JoinItems(names + [name + suffix])
  {
    if names != [] {
      JoinConcat(names, [name], SEPARATOR);
      JoinConcat(names, [name + suffix], SEPARATOR);
    } else {
      assert names + [name] == [name] && names + [name + suffix] == [name + suffix];
    }
  }

  lemma RejectedName(name: string)
    requires IsName(name)
    ensures IsName(name + ".qbt_rejected") && !IsListed(name + ".qbt_rejected")
  {
    var rejected := name + ".qbt_rejected";
    assert rejected[|name| + 1] == 'q' && SEPARATOR !in ".qbt_rejected";
    assert rejected[|rejected| - 1] == 'd';
    EndsOtherwise(rejected, ".torrent");
    EndsOtherwise(rejected, ".magnet");
  }

  lemma EndsOtherwise(p: Path, ext: string)
    requires p != "" && ext != "" && ToLower(p[|p| - 1]) != ext[|ext| - 1]
    ensures !HasExtension(p, ext)
  {
    if |ext| <= |p| {
      assert p[|p| - |ext| + (|ext| - 1)] == p[|p| - 1];
    }
  }

  /** A rejected file has a name in the same directory that no pass lists. */
  lemma RejectedIsNotListed(names: seq<string>, name: string)
    requires AllNames(names) && IsName(name)
    ensures var rejected := name + ".qbt_rejected";
            && MakePath(PathOf(names + [name]) + ".qbt_rejected") == PathOf(names + [rejected])
            && IsName(rejected) && !IsListed(rejected)
  {
    hide MakePath;
    hide CleanItems;
    hide IsListed;
    hide JoinItems;
    var rejected := name + ".qbt_rejected";
    assert PathOf(names + [name]) + ".qbt_rejected" == [SEPARATOR] + (JoinItems(names + [name]) + ".qbt_rejected");
    RejectedName(name);
    JoinLonger(names, name, ".qbt_rejected");
    RenderedIsClean(names + [rejected], true);
  }

  // ----- Hand-overs -----

  /** What became of a file: its torrents handed over, with these parameters, and the file removed; or the file rejected. */
  datatype Outcome = Taken(file: Path, torrents: seq<Descriptor>, params: TorrentParams) | Rejected(file: Path)

  function EffectsOf(o: Outcome): seq<Effect> {
    match o
    case Taken(file, torrents, params) => HandOvers(torrents, params) + [Removed(file)]
    case Rejected(file) => [Renamed(file, file + ".qbt_rejected")]
  }

  /** The log that consists of these outcomes and nothing else. */
  function LogOf(outcomes: seq<Outcome>): seq<Effect>
    decreases |outcomes|
  {
    if outcomes == [] then [] else LogOf(outcomes[..|outcomes| - 1]) + EffectsOf(outcomes[|outcomes| - 1])
  }

  /** How many of the outcomes are those of `f`. */
  function OutcomesOf(outcomes: seq<Outcome>, f: Path): nat
    decreases |outcomes|
  {
    if outcomes == [] then 0
    else OutcomesOf(outcomes[..|outcomes| - 1], f) + if outcomes[|outcomes| - 1].file == f then 1 else 0
  }

  lemma {:induction false} LogOfConcat(a: seq<Outcome>, b: seq<Outcome>)
    ensures LogOf(a + b) == LogOf(a) + LogOf(b)
    decreases |b|
  {
    hide EffectsOf;
    if b == [] {
      assert a + b == a;
    } else {
      assert (a + b)[..|a + b| - 1] == a + b[..|b| - 1];
      LogOfConcat(a, b[..|b| - 1]);
    }
  }

  lemma LogOfOne(o: Outcome)
    ensures LogOf([o]) == EffectsOf(o) && LogOf([]) == []
  {
    assert [o][..0] == [];
  }

  lemma {:induction false} HandOversEndNothing(torrents: seq<Descriptor>, params: TorrentParams, f: Path)
    ensures Ends(HandOvers(torrents, params), f) == 0
    decreases |torrents|
  {
    if torrents != [] {
      var n := |torrents| - 1;
      assert HandOvers(torrents, params) == HandOvers(torrents[..n], params) + [Found(torrents[n], params)];
      HandOversEndNothing(torrents[..n], params, f);
      EndOfOne(HandOvers(torrents[..n], params), Found(torrents[n], params), f);
    }
  }

  lemma OutcomeEnds(o: Outcome, f: Path)
    ensures Ends(EffectsOf(o), f) == if o.file == f then 1 else 0
  {
    hide Ends;
    match o
    case Taken(file, torrents, params) =>
      HandOversEndNothing(torrents, params, f);
      EndOfOne(HandOvers(torrents, params), Removed(file), f);
    case Rejected(file) =>
      NothingEnds(f);
      EndOfOne([], Renamed(file, file + ".qbt_rejected"), f);
      assert [] + [Renamed(file, file + ".qbt_rejected")] == [Renamed(file, file + ".qbt_rejected")];
  }

  /** A file is taken away as often as it has an outcome. */
  lemma {:induction false} EndsAreOutcomes(outcomes: seq<Outcome>, f: Path)
    ensures Ends(LogOf(outcomes), f) == OutcomesOf(outcomes, f)
    decreases |outcomes|
  {
    hide Ends;
    hide EffectsOf;
    if outcomes == [] {
      NothingEnds(f);
    } else {
      var n := |outcomes| - 1;
      EndsAreOutcomes(outcomes[..n], f);
      OutcomeEnds(outcomes[n], f);
      EndsConcat(LogOf(outcomes[..n]), EffectsOf(outcomes[n]), f);
    }
  }

  /** The event shows the file with these torrents in it, and gives them these parameters; or shows it unreadable. */
  ghost predicate Shows(e: Event, o: Outcome, autoByDefault: bool) {
    match e
    case FolderPass(dir, names, options, watched) =>
      o.Taken? && exists v, k: nat | v in Walk(dir, names, options.recursive, watched) && k < |v.dir.files| ::
        ShowsFile(v, k, o, options.params, PathOf(names), autoByDefault)
    case RetryPass(order, probes, folders) =>
      (match o
       case Taken(file, torrents, params) =>
         probes(file).Loads? && torrents == [probes(file).torrent]
         && params == RetryParams(OptionsOf(folders, DirOf(file)).params, DirOf(file), file, autoByDefault)
       case Rejected(file) => probes(file).Unreadable?)
    case _ => false
  }

  ghost predicate ShowsFile(v: Visit, k: nat, o: Outcome, params: TorrentParams, folder: Path, autoByDefault: bool)
    requires o.Taken? && k < |v.dir.files|
  {
    var file := v.dir.files[k];
    && o.file == PathsIn(v)[k] && Takes(o.file, file) && o.torrents == TorrentsIn(o.file, file)
    && o.params == ScanParams(params, folder, PathOf(v.names), autoByDefault)
  }

  ghost predicate AllShown(e: Event, outcomes: seq<Outcome>, autoByDefault: bool) {
    forall o | o in outcomes :: Shows(e, o, autoByDefault)
  }

  /** The outcomes of these jobs. */
  function JobOutcomes(jobs: seq<Job>): seq<Outcome>
    decreases |jobs|
  {
    if jobs == [] then []
    else
      var job := jobs[|jobs| - 1];
      JobOutcomes(jobs[..|jobs| - 1])
      + if Takes(job.path, job.file) then [Taken(job.path, TorrentsIn(job.path, job.file), job.params)] else []
  }

  lemma {:induction false} JobLogIs(jobs: seq<Job>)
    ensures Effects(jobs) == LogOf(JobOutcomes(jobs))
    decreases |jobs|
  {
    hide JobEffects;
    hide Takes;
    hide TorrentsIn;
    hide LogOf;
    hide HandOvers;
    if jobs == [] {
      LogOfOne(Rejected(""));
    } else {
      var n := |jobs| - 1;
      var job, front := jobs[n], JobOutcomes(jobs[..n]);
      JobLogIs(jobs[..n]);
      JobHandsOver(job);
      var taken := Taken(job.path, TorrentsIn(job.path, job.file), job.params);
      LogOfOne(taken);
      LogOfConcat(front, [taken]);
      if !Takes(job.path, job.file) {
        assert Effects(jobs) == Effects(jobs[..n]) && JobOutcomes(jobs) == front;
      }
    }
  }

  lemma {:induction false} JobOfOutcome(jobs: seq<Job>, o: Outcome) returns (j: nat)
    requires o in JobOutcomes(jobs)
    ensures j < |jobs| && OutcomeOfJob(jobs[j], o)
    decreases |jobs|
  {
    hide Takes;
    hide TorrentsIn;
    var n := |jobs| - 1;
    if o in JobOutcomes(jobs[..n]) {
      j := JobOfOutcome(jobs[..n], o);
    } else {
      j := n;
    }
  }

  predicate OutcomeOfJob(job: Job, o: Outcome) {
    Takes(job.path, job.file) && o == Taken(job.path, TorrentsIn(job.path, job.file), job.params)
  }

  /** Every job of a list of visits is a file of one of them, with the parameters of its directory. */
  lemma {:induction false} JobComesFrom(params: TorrentParams, folder: Path, autoByDefault: bool, visits: seq<Visit>, job: Job)
    returns (v: Visit, k: nat)
    requires job in Jobs(params, folder, autoByDefault, visits)
    ensures v in visits && k < |v.dir.files|
    ensures job == Job(PathsIn(v)[k], v.dir.files[k], ScanParams(params, folder, PathOf(v.names), autoByDefault))
    decreases |visits|
  {
    hide ScanParams;
    var n := |visits| - 1;
    if job in Jobs(params, folder, autoByDefault, visits[..n]) {
      v, k := JobComesFrom(params, folder, autoByDefault, visits[..n], job);
    } else {
      v := visits[n];
      var jobs := JobsIn(v, ScanParams(params, folder, PathOf(v.names), autoByDefault));
      var i :| 0 <= i < |jobs| && jobs[i] == job;
      k := i;
    }
  }

  lemma FolderPassOutcomes(p: Progress, dir: Dir, names: seq<string>, options: FolderOptions, watched: set<Path>, autoByDefault: bool)
    returns (outcomes: seq<Outcome>)
    requires AllNames(names) && WellNamed(dir)
    ensures var visits := Walk(dir, names, options.recursive, watched);
            HandleVisits(p, options.params, PathOf(names), autoByDefault, visits).log == p.log + LogOf(outcomes)
    ensures AllShown(FolderPass(dir, names, options, watched), outcomes, autoByDefault)
  {
    hide Walk;
    hide HandleVisits;
    hide Jobs;
    hide Effects;
    hide WellNamed;
    hide NamedVisit;
    hide PathOf;
    hide LogOf;
    hide Takes;
    hide TorrentsIn;
    hide ScanParams;
    hide PathsIn;
    var visits := Walk(dir, names, options.recursive, watched);
    var jobs := Jobs(options.params, PathOf(names), autoByDefault, visits);
    WalkIsNamed(dir, names, options.recursive, watched);
    ScanLogIs(p, options.params, PathOf(names), autoByDefault, visits);
    JobLogIs(jobs);
    outcomes := JobOutcomes(jobs);
    forall o | o in outcomes
      ensures Shows(FolderPass(dir, names, options, watched), o, autoByDefault)
    {
      var j := JobOfOutcome(jobs, o);
      var v, k := JobComesFrom(options.params, PathOf(names), autoByDefault, visits, jobs[j]);
      assert ShowsFile(v, k, o, options.params, PathOf(names), autoByDefault);
    }
  }

  function EntryOutcome(dir: Path, file: Path, count: nat, probe: Probe, params: TorrentParams, autoByDefault: bool): seq<Outcome> {
    match probe
    case Missing => []
    case Loads(torrent) => [Taken(file, [torrent], RetryParams(params, dir, file, autoByDefault))]
    case Unreadable => if Stays(count, probe) then [] else [Rejected(file)]
  }

  lemma EntryOutcomeIs(dir: Path, file: Path, count: nat, probe: Probe, params: TorrentParams, autoByDefault: bool)
    requires IsFile(file)
    ensures RetryEffects(dir, file, count, probe, params, autoByDefault)
            == LogOf(EntryOutcome(dir, file, count, probe, params, autoByDefault))
  {
    hide RetryParams;
    hide MakePath;
    hide LogOf;
    LogOfOne(Rejected(file));
    RejectedKeepsPath(file);
    if probe.Loads? {
      var params' := RetryParams(params, dir, file, autoByDefault);
      LogOfOne(Taken(file, [probe.torrent], params'));
      assert HandOvers([probe.torrent], params') == [Found(probe.torrent, params')];
    }
  }

  lemma RejectedKeepsPath(file: Path)
    requires IsFile(file)
    ensures MakePath(file + ".qbt_rejected") == file + ".qbt_rejected"
  {
    hide MakePath;
    hide CleanItems;
    var names: seq<string>, name :| AllNames(names) && IsName(name) && file == PathOf(names + [name]);
    RejectedIsNotListed(names, name);
    JoinLonger(names, name, ".qbt_rejected");
    assert file + ".qbt_rejected" == [SEPARATOR] + (JoinItems(names + [name]) + ".qbt_rejected");
  }

  function RowOutcomes(dir: Path, row: map<Path, nat>, order: seq<Path>, probes: Probes, params: TorrentParams,
                       autoByDefault: bool): seq<Outcome>
    decreases |order|
  {
    if order == [] then []
    else
      var f := order[|order| - 1];
      RowOutcomes(dir, row, order[..|order| - 1], probes, params, autoByDefault)
      + if f in row then EntryOutcome(dir, f, row[f], probes(f), params, autoByDefault) else []
  }

  function TableOutcomes(order: seq<RowOrder>, t: Table, probes: Probes, folders: map<Path, FolderOptions>, autoByDefault: bool): seq<Outcome>
    decreases |order|
  {
    if order == [] then []
    else
      var r := order[|order| - 1];
      TableOutcomes(order[..|order| - 1], t, probes, folders, autoByDefault)
      + if r.dir in t then RowOutcomes(r.dir, t[r.dir], r.files, probes, OptionsOf(folders, r.dir).params, autoByDefault) else []
  }

  /** The outcomes of one row, whose files lie in its directory. */
  lemma {:induction false} RowOutcomesAre(dir: Path, row: map<Path, nat>, files: seq<Path>, order: seq<RowOrder>, probes: Probes,
                                          folders: map<Path, FolderOptions>, autoByDefault: bool)
    requires forall f | f in row :: dir == DirOf(f) && IsFile(f)
    ensures var params := OptionsOf(folders, dir).params;
            && RowEffects(dir, row, files, probes, params, autoByDefault)
               == LogOf(RowOutcomes(dir, row, files, probes, params, autoByDefault))
            && AllShown(RetryPass(order, probes, folders), RowOutcomes(dir, row, files, probes, params, autoByDefault), autoByDefault)
    decreases |files|
  {
    hide IsFile;
    hide DirOf;
    hide LogOf;
    hide RetryEffects;
    hide OptionsOf;
    hide RetryParams;
    var params := OptionsOf(folders, dir).params;
    if files == [] {
      LogOfOne(Rejected(dir));
    } else {
      var n := |files| - 1;
      var f := files[n];
      RowOutcomesAre(dir, row, files[..n], order, probes, folders, autoByDefault);
      if f in row {
        EntryOutcomeIs(dir, f, row[f], probes(f), params, autoByDefault);
        LogOfConcat(RowOutcomes(dir, row, files[..n], probes, params, autoByDefault),
                    EntryOutcome(dir, f, row[f], probes(f), params, autoByDefault));
      } else {
        assert RowEffects(dir, row, files, probes, params, autoByDefault)
               == RowEffects(dir, row, files[..n], probes, params, autoByDefault);
        assert RowOutcomes(dir, row, files, probes, params, autoByDefault)
               == RowOutcomes(dir, row, files[..n], probes, params, autoByDefault);
      }
    }
  }

  lemma {:induction false} TableOutcomesAre(order: seq<RowOrder>, all: seq<RowOrder>, t: Table, probes: Probes,
                                            folders: map<Path, FolderOptions>, autoByDefault: bool)
    requires UnderOwnDir(t)
    ensures TableEffects(order, t, probes, folders, autoByDefault)
            == LogOf(TableOutcomes(order, t, probes, folders, autoByDefault))
    ensures AllShown(RetryPass(all, probes, folders), TableOutcomes(order, t, probes, folders, autoByDefault), autoByDefault)
    decreases |order|
  {
    hide IsFile;
    hide DirOf;
    hide LogOf;
    hide RowEffects;
    hide RowOutcomes;
    hide OptionsOf;
    hide Shows;
    if order == [] {
      LogOfOne(Rejected(""));
    } else {
      var n := |order| - 1;
      var r := order[n];
      TableOutcomesAre(order[..n], all, t, probes, folders, autoByDefault);
      if r.dir in t {
        assert forall f | f in t[r.dir] :: Tracked(t, r.dir, f);
        RowOutcomesAre(r.dir, t[r.dir], r.files, all, probes, folders, autoByDefault);
        LogOfConcat(TableOutcomes(order[..n], t, probes, folders, autoByDefault),
                    RowOutcomes(r.dir, t[r.dir], r.files, probes, OptionsOf(folders, r.dir).params, autoByDefault));
      } else {
        assert TableEffects(order, t, probes, folders, autoByDefault)
               == TableEffects(order[..n], t, probes, folders, autoByDefault);
        assert TableOutcomes(order, t, probes, folders, autoByDefault)
               == TableOutcomes(order[..n], t, probes, folders, autoByDefault);
      }
    }
  }

  /** One event adds outcomes it shows, and nothing else, to the log. */
  lemma NextAddsOutcomes(w: World, e: Event, autoByDefault: bool) returns (outcomes: seq<Outcome>)
    requires UnderOwnDir(w.done.failed) && Legal(w, e)
    ensures Next(w, e, autoByDefault).done.log == w.done.log + LogOf(outcomes)
    ensures AllShown(e, outcomes, autoByDefault)
  {
    hide UnderOwnDir;
    hide Walk;
    hide HandleVisits;
    hide TableEffects;
    hide TableOutcomes;
    hide PassTable;
    hide WellNamed;
    hide ShowsPresent;
    hide EnumeratesTable;
    hide PathOf;
    hide LogOf;
    hide Shows;
    outcomes := [];
    LogOfOne(Rejected(""));
    match e
    case FolderPass(dir, names, options, watched) =>
      outcomes := FolderPassOutcomes(w.done, dir, names, options, watched, autoByDefault);
    case RetryPass(order, probes, folders) =>
      outcomes := TableOutcomes(order, w.done.failed, probes, folders, autoByDefault);
      TableOutcomesAre(order, order, w.done.failed, probes, folders, autoByDefault);
    case _ =>
  }

  /** Each outcome is shown by one of the events. */
  ghost predicate ShownBy(events: seq<Event>, outcomes: seq<Outcome>, autoByDefault: bool) {
    forall o | o in outcomes :: exists e | e in events :: Shows(e, o, autoByDefault)
  }

  lemma {:induction false} RunAddsOutcomes(w: World, events: seq<Event>, autoByDefault: bool) returns (outcomes: seq<Outcome>)
    requires UnderOwnDir(w.done.failed) && LegalRun(w, events, autoByDefault)
    ensures Run(w, events, autoByDefault).done.log == w.done.log + LogOf(outcomes)
    ensures ShownBy(events, outcomes, autoByDefault)
    decreases |events|
  {
    hide UnderOwnDir;
    hide Legal;
    hide Next;
    hide LogOf;
    hide Shows;
    if events == [] {
      LogOfOne(Rejected(""));
      outcomes := [];
    } else {
      var first := NextAddsOutcomes(w, events[0], autoByDefault);
      NextKeepsBalance(w, events[0], autoByDefault, "");
      var rest := RunAddsOutcomes(Next(w, events[0], autoByDefault), events[1..], autoByDefault);
      outcomes := first + rest;
      LogOfConcat(first, rest);
      forall o | o in outcomes
        ensures exists e | e in events :: Shows(e, o, autoByDefault)
      {
        if o in first {
          assert events[0] in events && Shows(events[0], o, autoByDefault);
        } else {
          var e :| e in events[1..] && Shows(e, o, autoByDefault);
          assert e in events;
        }
      }
    }
  }

  /**
   * In every run, however folder passes and retry passes follow on each other, the log consists of
   * outcomes: the torrents that some pass found in a file, all handed over before the file is removed, or
   * a file rejected. Arrivals of a file are balanced by its outcomes, its vanishing and its being there: a
   * file that came once is handed over or rejected at most once, and never both.
   */
  lemma EveryFileEndsOnce(events: seq<Event>, autoByDefault: bool, f: Path) returns (outcomes: seq<Outcome>)
    requires LegalRun(START, events, autoByDefault)
    ensures var v := Run(START, events, autoByDefault);
            && v.done.log == LogOf(outcomes) && ShownBy(events, outcomes, autoByDefault)
            && Arrivals(events, f) == OutcomesOf(outcomes, f) + Vanishings(events, f) + Presence(v.present, f)
            && (Arrivals(events, f) <= 1 ==> OutcomesOf(outcomes, f) <= 1)
  {
    hide ShownBy;
    hide LogOf;
    hide Ends;
    outcomes := RunAddsOutcomes(START, events, autoByDefault);
    RunKeepsBalance(START, events, autoByDefault, f);
    NothingEnds(f);
    EndsAreOutcomes(outcomes, f);
    assert [] + LogOf(outcomes) == LogOf(outcomes);
  }
}
