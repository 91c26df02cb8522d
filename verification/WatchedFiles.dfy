/**
 * What the worker does with the files it comes across: the parameters it adds a torrent with, the
 * effects on the session and the disk, and the entries it makes in the table of failed torrents.
 */
module WatchedFiles {
  import opened Options
  import opened Strings
  import opened Paths
  import opened CleanPaths
  import opened RelativePaths
  import opened WatchTree

  /** Directory to file to number of failed retries. */
  type Table = map<Path, map<Path, nat>>

  /** What an outsider sees: a torrent handed to the session, a file removed, a file renamed. */
  datatype Effect = Found(torrent: Descriptor, params: TorrentParams) | Removed(file: Path) | Renamed(from: Path, to: Path)

  datatype Progress = Progress(log: seq<Effect>, failed: Table)

  predicate Tracked(t: Table, dir: Path, file: Path) {
    dir in t && file in t[dir]
  }

  // ----- Parameters -----

  /** The parameters for something `below` a watched folder: its category or its save path is extended. */
  function Placed(params: TorrentParams, below: Path, autoByDefault: bool): TorrentParams {
    if params.useAutoTMM.GetOr(autoByDefault) then
      params.(category := if params.category == "" then below else params.category + "/" + below)
    else
      params.(savePath := Div(params.savePath, below))
  }

  /** First attempt: placed by the directory the file lies in. */
  function ScanParams(params: TorrentParams, watchedFolder: Path, dir: Path, autoByDefault: bool): TorrentParams {
    if dir == watchedFolder then params else Placed(params, RelativePathOf(watchedFolder, dir), autoByDefault)
  }

  /** Retry: placed by the file's own path, below the directory it was recorded under. */
  function RetryParams(params: TorrentParams, dir: Path, file: Path, autoByDefault: bool): TorrentParams {
    if file == dir then params else Placed(params, RelativePathOf(dir, file), autoByDefault)
  }

  /** A name below a save path makes a different save path. */
  lemma DivNameDiffers(savePath: Path, name: string)
    requires IsClean(savePath) && IsName(name)
    ensures Div(savePath, name) != savePath
  {
    if savePath != "" {
      CleanItemsNormal(savePath);
      CleanIffRendered(savePath);
      DivItems(savePath, name);
      SplitFree(name, SEPARATOR);
      NormaliseNames(CleanItems(savePath), [name], IsAbsolute(savePath));
      var items := CleanItems(savePath) + [name];
      RenderedIsClean(items, IsAbsolute(savePath));
      assert CleanItems(Div(savePath, name)) == items;
    }
  }

  /**
   * A file directly in a watched folder is never retried with the parameters of its first attempt: the
   * first uses the folder's own, the retry appends the file name to the category or the save path.
   */
  lemma RetryChangesParams(params: TorrentParams, folder: seq<string>, name: string, autoByDefault: bool)
    requires AllNames(folder) && IsName(name) && IsClean(params.savePath)
    ensures var file := PathOf(folder + [name]);
            var scan := ScanParams(params, PathOf(folder), PathOf(folder), autoByDefault);
            var retry := RetryParams(params, PathOf(folder), file, autoByDefault);
            && scan == params
            && retry == Placed(params, name, autoByDefault)
            && retry != scan
  {
    RelativePathBelow(folder, [name]);
    assert Render([name], false) == name;
    PathsDiffer(folder, folder + [name]);
    DivNameDiffers(params.savePath, name);
  }

  /** In a subdirectory the first attempt is placed by the names between the watched folder and the directory. */
  lemma ScanParamsBelow(params: TorrentParams, folder: seq<string>, below: seq<string>, autoByDefault: bool)
    requires AllNames(folder) && AllNames(below) && below != []
    ensures ScanParams(params, PathOf(folder), PathOf(folder + below), autoByDefault)
            == Placed(params, JoinItems(below), autoByDefault)
    ensures var placed := ScanParams(params, PathOf(folder), PathOf(folder + below), autoByDefault);
            && placed.useAutoTMM == params.useAutoTMM
            && if params.useAutoTMM == Some(true) || (params.useAutoTMM == None && autoByDefault) then
                 placed.savePath == params.savePath
                 && placed.category == (if params.category == "" then "" else params.category + "/") + JoinItems(below)
               else
                 placed.category == params.category && placed.savePath == Div(params.savePath, JoinItems(below))
  {
    RelativePathBelow(folder, below);
    PathsDiffer(folder, folder + below);
  }

  lemma JoinIsNameIff(below: seq<string>, name: string)
    requires AllNames(below) && below != [] && IsName(name)
    ensures JoinItems(below) == name <==> below == [name]
  {
    SplitJoin(below, SEPARATOR);
    SplitFree(name, SEPARATOR);
  }

  /** A save path extended by names is a single name only if it stands for the current directory. */
  lemma ExtendedIsNameIff(savePath: Path, below: seq<string>, name: string)
    requires IsClean(savePath) && AllNames(below) && below != [] && IsName(name)
    ensures Div(savePath, JoinItems(below)) == name <==> below == [name] && savePath in {"", HERE}
  {
    hide IsClean;
    JoinIsNameIff(below, name);
    if savePath != "" {
      var items, absolute := CleanItems(savePath) + below, IsAbsolute(savePath);
      ExtendedIs(savePath, below);
      assert name == Render([name], false);
      if Render(items, absolute) == name {
        assert !absolute;
        CleanItemsOfRender(items, absolute);
        CleanItemsOfRender([name], false);
        assert items == [name] && |below| == 1;
      }
      if below == [name] && savePath == HERE {
        SplitFree(HERE, SEPARATOR);
        assert Normalise([], [HERE], false) == Normalise(Push([], HERE, false), [], false);
      }
      CleanIffRendered(savePath);
    }
  }

  lemma ExtendedIs(savePath: Path, below: seq<string>)
    requires savePath != "" && AllNames(below) && below != []
    ensures IsNormal(CleanItems(savePath) + below, IsAbsolute(savePath))
    ensures Div(savePath, JoinItems(below)) == Render(CleanItems(savePath) + below, IsAbsolute(savePath))
  {
    SplitJoin(below, SEPARATOR);
    JoinStartsWithFirst(below);
    DivItems(savePath, JoinItems(below));
    NormaliseNames(CleanItems(savePath), below, IsAbsolute(savePath));
    CleanItemsNormal(savePath);
  }

  /**
   * A file below a watched folder is retried with default options. That gives the parameters of its first
   * attempt exactly when the folder's own are default ones, too, and the file has the name of the directory
   * it lies in, directly below the folder.
   */
  lemma RetryBelowKeepsParamsIff(params: TorrentParams, folder: seq<string>, below: seq<string>, name: string, autoByDefault: bool)
    requires AllNames(folder) && AllNames(below) && below != [] && IsName(name) && IsClean(params.savePath)
    ensures var dir := PathOf(folder + below);
            RetryParams(DEFAULT_PARAMS, dir, PathOf(folder + below + [name]), autoByDefault)
            == ScanParams(params, PathOf(folder), dir, autoByDefault)
            <==>
            && below == [name] && params.useAutoTMM == None && params.category == ""
            && (params.savePath == "" || (!autoByDefault && params.savePath == HERE))
  {
    hide IsClean;
    hide Div;
    ScanParamsBelow(params, folder, below, autoByDefault);
    RelativePathBelow(folder + below, [name]);
    assert Render([name], false) == name;
    PathsDiffer(folder + below, folder + below + [name]);
    JoinIsNameIff(below, name);
    ExtendedIsNameIff(params.savePath, below, name);
    DivFromNothing(name);
    if params.category != "" {
      assert (params.category + "/" + JoinItems(below))[|params.category|] == SEPARATOR;
    }
  }

  lemma DivFromNothing(name: string)
    ensures Div("", name) == name
  {
  }

  // ----- One pass over files -----

  function ToLower(c: char): char {
    if 'A' <= c <= 'Z' then c - 'A' + 'a' else c
  }

  /** Case-insensitive suffix test; `ext` is given in lower case. */
  predicate HasExtension(p: Path, ext: string) {
    |ext| <= |p| && forall i | 0 <= i < |ext| :: ToLower(p[|p| - |ext| + i]) == ext[i]
  }

  /** The name filter of the directory iterator. */
  predicate IsListed(name: string) {
    HasExtension(name, ".torrent") || HasExtension(name, ".magnet")
  }

  function MagnetEffects(lines: seq<Option<Descriptor>>, params: TorrentParams): seq<Effect>
    decreases |lines|
  {
    if lines == [] then []
    else
      MagnetEffects(lines[..|lines| - 1], params)
      + match lines[|lines| - 1] { case Some(torrent) => [Found(torrent, params)] case None => [] }
  }

  lemma MagnetStep(lines: seq<Option<Descriptor>>, i: nat, params: TorrentParams)
    requires i < |lines|
    ensures MagnetEffects(lines[..i + 1], params)
            == MagnetEffects(lines[..i], params) + if lines[i].Some? then [Found(lines[i].value, params)] else []
  {
    assert lines[..i + 1][..i] == lines[..i];
  }

  lemma MagnetEnds(lines: seq<Option<Descriptor>>, params: TorrentParams)
    ensures MagnetEffects(lines[..0], params) == [] && lines[..|lines|] == lines
  {
  }

  function FileEffects(path: Path, content: Content, params: TorrentParams): seq<Effect> {
    if HasExtension(path, ".magnet") then
      if content.opens && content.withinLimit then MagnetEffects(content.lines, params) + [Removed(path)] else []
    else
      match content.load
      case Some(torrent) => [Found(torrent, params), Removed(path)]
      case None => []
  }

  /** A listed .torrent file that does not load. */
  predicate Fails(path: Path, content: Content) {
    !HasExtension(path, ".magnet") && content.load.None?
  }

  /** A new entry starts at zero retries; an existing one is left alone. */
  function Track(t: Table, dir: Path, file: Path): Table {
    if Tracked(t, dir, file) then t
    else t[dir := (if dir in t then t[dir] else map[])[file := 0]]
  }

  function HandleFile(p: Progress, dir: Path, params: TorrentParams, file: File): Progress {
    var path := Div(dir, file.name);
    if !IsListed(file.name) then p
    else if Fails(path, file.content) then p.(failed := Track(p.failed, dir, path))
    else p.(log := p.log + FileEffects(path, file.content, params))
  }

  function HandleFiles(p: Progress, dir: Path, params: TorrentParams, files: seq<File>): Progress
    decreases |files|
  {
    if files == [] then p
    else HandleFile(HandleFiles(p, dir, params, files[..|files| - 1]), dir, params, files[|files| - 1])
  }

  /** All the visits of one `processFolder`, in order. */
  function HandleVisits(p: Progress, params: TorrentParams, folder: Path, autoByDefault: bool, visits: seq<Visit>): Progress
    decreases |visits|
  {
    if visits == [] then p
    else
      var v := visits[|visits| - 1];
      HandleFiles(HandleVisits(p, params, folder, autoByDefault, visits[..|visits| - 1]),
                  PathOf(v.names), ScanParams(params, folder, PathOf(v.names), autoByDefault), v.dir.files)
  }

  lemma {:induction false} HandleVisitsConcat(p: Progress, params: TorrentParams, folder: Path, autoByDefault: bool,
                                              a: seq<Visit>, b: seq<Visit>)
    ensures HandleVisits(p, params, folder, autoByDefault, a + b)
            == HandleVisits(HandleVisits(p, params, folder, autoByDefault, a), params, folder, autoByDefault, b)
    decreases |b|
  {
    if b == [] {
      assert a + b == a;
    } else {
      assert (a + b)[..|a + b| - 1] == a + b[..|b| - 1];
      HandleVisitsConcat(p, params, folder, autoByDefault, a, b[..|b| - 1]);
    }
  }

  // ----- What one pass adds to the table -----

  /** `path`, in the directory `dir` that holds `files`, is listed and does not load. */
  ghost predicate FailsAmong(files: seq<File>, dir: Path, path: Path) {
    exists i | 0 <= i < |files| ::
      IsListed(files[i].name) && path == Div(dir, files[i].name) && Fails(path, files[i].content)
  }

  ghost predicate FailsIn(visits: seq<Visit>, dir: Path, path: Path) {
    exists i | 0 <= i < |visits| :: dir == PathOf(visits[i].names) && FailsAmong(visits[i].dir.files, dir, path)
  }

  lemma FailsInLast(visits: seq<Visit>, dir: Path, path: Path)
    requires visits != []
    ensures var v := visits[|visits| - 1];
            FailsIn(visits, dir, path) <==>
            FailsIn(visits[..|visits| - 1], dir, path) || (dir == PathOf(v.names) && FailsAmong(v.dir.files, dir, path))
  {
    assert forall i | 0 <= i < |visits| - 1 :: visits[..|visits| - 1][i] == visits[i];
  }

  lemma {:induction false} FilesTrackExactly(p: Progress, dir: Path, params: TorrentParams, files: seq<File>, d: Path, f: Path)
    ensures var after := HandleFiles(p, dir, params, files).failed;
            && (Tracked(after, d, f) <==> Tracked(p.failed, d, f) || (d == dir && FailsAmong(files, dir, f)))
            && (Tracked(after, d, f) ==> after[d][f] == if Tracked(p.failed, d, f) then p.failed[d][f] else 0)
    decreases |files|
  {
    hide Fails;
    hide IsListed;
    hide FileEffects;
    hide Div;
    if files != [] {
      var n := |files| - 1;
      FilesTrackExactly(p, dir, params, files[..n], d, f);
      assert forall i | 0 <= i < n :: files[..n][i] == files[i];
      assert FailsAmong(files, dir, f) <==>
             FailsAmong(files[..n], dir, f)
             || (IsListed(files[n].name) && f == Div(dir, files[n].name) && Fails(f, files[n].content));
    }
  }

  /** One pass tracks exactly the unreadable files it meets, each under its own directory, and resets no count. */
  lemma {:induction false} ScanTracksExactly(p: Progress, params: TorrentParams, folder: Path, autoByDefault: bool,
                                             visits: seq<Visit>, d: Path, f: Path)
    ensures var after := HandleVisits(p, params, folder, autoByDefault, visits).failed;
            && (Tracked(after, d, f) <==> Tracked(p.failed, d, f) || FailsIn(visits, d, f))
            && (Tracked(after, d, f) ==> after[d][f] == if Tracked(p.failed, d, f) then p.failed[d][f] else 0)
    decreases |visits|
  {
    if visits != [] {
      var n := |visits| - 1;
      var v := visits[n];
      ScanTracksExactly(p, params, folder, autoByDefault, visits[..n], d, f);
      FilesTrackExactly(HandleVisits(p, params, folder, autoByDefault, visits[..n]), PathOf(v.names),
                        ScanParams(params, folder, PathOf(v.names), autoByDefault), v.dir.files, d, f);
      FailsInLast(visits, d, f);
    }
  }

  /** No directory is kept in the table without a file, and no count exceeds the limit. */
  ghost predicate ValidTable(t: Table, limit: nat) {
    forall d | d in t :: t[d] != map[] && forall f | f in t[d] :: t[d][f] <= limit
  }

  lemma {:induction false} FilesKeepTable(p: Progress, dir: Path, params: TorrentParams, files: seq<File>, limit: nat)
    requires ValidTable(p.failed, limit)
    ensures ValidTable(HandleFiles(p, dir, params, files).failed, limit)
    decreases |files|
  {
    if files != [] {
      var n := |files| - 1;
      FilesKeepTable(p, dir, params, files[..n], limit);
      var before, path := HandleFiles(p, dir, params, files[..n]).failed, Div(dir, files[n].name);
      assert path in (if dir in before then before[dir] else map[])[path := 0];
    }
  }

  lemma {:induction false} ScanKeepsTable(p: Progress, params: TorrentParams, folder: Path, autoByDefault: bool,
                                          visits: seq<Visit>, limit: nat)
    requires ValidTable(p.failed, limit)
    ensures ValidTable(HandleVisits(p, params, folder, autoByDefault, visits).failed, limit)
    decreases |visits|
  {
    if visits != [] {
      var n := |visits| - 1;
      var v := visits[n];
      ScanKeepsTable(p, params, folder, autoByDefault, visits[..n], limit);
      FilesKeepTable(HandleVisits(p, params, folder, autoByDefault, visits[..n]), PathOf(v.names),
                     ScanParams(params, folder, PathOf(v.names), autoByDefault), v.dir.files, limit);
    }
  }

  // ----- The log of a pass, file by file -----

  /** A file a pass comes across, with the parameters its directory gives. */
  datatype Job = Job(path: Path, file: File, params: TorrentParams)

  /** All the effects of one file: its torrents handed over, then the file removed; or nothing. */
  function JobEffects(job: Job): seq<Effect> {
    if IsListed(job.file.name) then FileEffects(job.path, job.file.content, job.params) else []
  }

  function Effects(jobs: seq<Job>): seq<Effect>
    decreases |jobs|
  {
    if jobs == [] then [] else Effects(jobs[..|jobs| - 1]) + JobEffects(jobs[|jobs| - 1])
  }

  function JobsIn(v: Visit, params: TorrentParams): seq<Job> {
    seq(|v.dir.files|, i requires 0 <= i < |v.dir.files| => Job(PathsIn(v)[i], v.dir.files[i], params))
  }

  function Jobs(params: TorrentParams, folder: Path, autoByDefault: bool, visits: seq<Visit>): seq<Job>
    decreases |visits|
  {
    if visits == [] then []
    else
      var v := visits[|visits| - 1];
      Jobs(params, folder, autoByDefault, visits[..|visits| - 1])
      + JobsIn(v, ScanParams(params, folder, PathOf(v.names), autoByDefault))
  }

  function JobPaths(jobs: seq<Job>): seq<Path> {
    seq(|jobs|, i requires 0 <= i < |jobs| => jobs[i].path)
  }

  lemma {:induction false} EffectsConcat(a: seq<Job>, b: seq<Job>)
    ensures Effects(a + b) == Effects(a) + Effects(b)
    decreases |b|
  {
    hide JobEffects;
    if b == [] {
      assert a + b == a;
    } else {
      assert (a + b)[..|a + b| - 1] == a + b[..|b| - 1];
      EffectsConcat(a, b[..|b| - 1]);
    }
  }

  /** One file: unlisted and unreadable ones add nothing. */
  lemma FileLogIs(p: Progress, dir: Path, params: TorrentParams, file: File)
    ensures HandleFile(p, dir, params, file).log == p.log + JobEffects(Job(Div(dir, file.name), file, params))
  {
    hide Div;
    hide IsListed;
    hide MagnetEffects;
  }

  lemma JobIs(v: Visit, params: TorrentParams, k: nat)
    requires NamedVisit(v) && k < |v.dir.files|
    ensures JobsIn(v, params)[k] == Job(Div(PathOf(v.names), v.dir.files[k].name), v.dir.files[k], params)
  {
    hide Div;
    DivName(v.names, v.dir.files[k].name);
    assert PathsIn(v)[k] == PathOf(v.names + [v.dir.files[k].name]);
  }

  lemma {:induction false} FilesLogIs(p: Progress, v: Visit, params: TorrentParams, n: nat)
    requires NamedVisit(v) && n <= |v.dir.files|
    ensures HandleFiles(p, PathOf(v.names), params, v.dir.files[..n]).log == p.log + Effects(JobsIn(v, params)[..n])
  {
    hide HandleFile;
    hide JobEffects;
    hide Div;
    hide PathOf;
    var jobs := JobsIn(v, params);
    if n > 0 {
      FilesLogIs(p, v, params, n - 1);
      var file := v.dir.files[n - 1];
      assert v.dir.files[..n][..n - 1] == v.dir.files[..n - 1];
      assert jobs[..n][..n - 1] == jobs[..n - 1] && jobs[..n][n - 1] == jobs[n - 1];
      FileLogIs(HandleFiles(p, PathOf(v.names), params, v.dir.files[..n - 1]), PathOf(v.names), params, file);
      JobIs(v, params, n - 1);
    } else {
      assert v.dir.files[..0] == [] && jobs[..0] == [];
    }
  }

  lemma NoJobs()
    ensures Effects([]) == []
  {
  }

  /** A pass adds to the log the effects of its files, one after the other in the order of the visits. */
  lemma {:induction false} ScanLogIs(p: Progress, params: TorrentParams, folder: Path, autoByDefault: bool, visits: seq<Visit>)
    requires forall i | 0 <= i < |visits| :: NamedVisit(visits[i])
    ensures HandleVisits(p, params, folder, autoByDefault, visits).log
            == p.log + Effects(Jobs(params, folder, autoByDefault, visits))
    decreases |visits|
  {
    hide HandleFiles;
    hide ScanParams;
    hide JobsIn;
    hide NamedVisit;
    hide PathOf;
    hide Effects;
    if visits == [] {
      NoJobs();
    } else {
      var n := |visits| - 1;
      var v := visits[n];
      var here := ScanParams(params, folder, PathOf(v.names), autoByDefault);
      assert forall i | 0 <= i < n :: visits[..n][i] == visits[i];
      ScanLogIs(p, params, folder, autoByDefault, visits[..n]);
      VisitLogIs(HandleVisits(p, params, folder, autoByDefault, visits[..n]), v, here);
      EffectsConcat(Jobs(params, folder, autoByDefault, visits[..n]), JobsIn(v, here));
    }
  }

  lemma VisitLogIs(p: Progress, v: Visit, params: TorrentParams)
    requires NamedVisit(v)
    ensures HandleFiles(p, PathOf(v.names), params, v.dir.files).log == p.log + Effects(JobsIn(v, params))
  {
    FilesLogIs(p, v, params, |v.dir.files|);
    assert v.dir.files[..|v.dir.files|] == v.dir.files;
    assert JobsIn(v, params)[..|v.dir.files|] == JobsIn(v, params);
  }

  lemma {:induction false} JobPathsAre(params: TorrentParams, folder: Path, autoByDefault: bool, visits: seq<Visit>)
    ensures JobPaths(Jobs(params, folder, autoByDefault, visits)) == FilePaths(visits)
    decreases |visits|
  {
    hide ScanParams;
    if visits != [] {
      var n := |visits| - 1;
      var v := visits[n];
      JobPathsAre(params, folder, autoByDefault, visits[..n]);
      assert JobPaths(JobsIn(v, ScanParams(params, folder, PathOf(v.names), autoByDefault))) == PathsIn(v);
    }
  }

  /** The file `k` of a visited directory is one of the jobs, with the parameters of that directory. */
  lemma {:induction false} JobIsThere(params: TorrentParams, folder: Path, autoByDefault: bool, visits: seq<Visit>, v: Visit, k: nat)
    requires v in visits && k < |v.dir.files|
    ensures Job(PathsIn(v)[k], v.dir.files[k], ScanParams(params, folder, PathOf(v.names), autoByDefault))
            in Jobs(params, folder, autoByDefault, visits)
    decreases |visits|
  {
    hide ScanParams;
    var n := |visits| - 1;
    if v == visits[n] {
      assert JobsIn(v, ScanParams(params, folder, PathOf(v.names), autoByDefault))[k].path == PathsIn(v)[k];
    } else {
      assert v in visits[..n];
      JobIsThere(params, folder, autoByDefault, visits[..n], v, k);
    }
  }

  // ----- What is handed over -----

  /** The torrents of the lines that can be parsed, in their order. */
  function Parsed(lines: seq<Option<Descriptor>>): seq<Descriptor> {
    if lines == [] then [] else (if lines[0].Some? then [lines[0].value] else []) + Parsed(lines[1..])
  }

  /** The torrents a file holds. */
  function TorrentsIn(path: Path, file: File): seq<Descriptor> {
    if HasExtension(path, ".magnet") then Parsed(file.content.lines)
    else if file.content.load.Some? then [file.content.load.value]
    else []
  }

  /** Each of these torrents goes to the session, with these parameters. */
  function HandOvers(torrents: seq<Descriptor>, params: TorrentParams): seq<Effect> {
    seq(|torrents|, i requires 0 <= i < |torrents| => Found(torrents[i], params))
  }

  lemma {:induction false} ParsedOneMore(lines: seq<Option<Descriptor>>)
    requires lines != []
    ensures var n := |lines| - 1;
            Parsed(lines) == Parsed(lines[..n]) + if lines[n].Some? then [lines[n].value] else []
    decreases |lines|
  {
    var n := |lines| - 1;
    if n > 0 {
      ParsedOneMore(lines[1..]);
      assert lines[1..][..n - 1] == lines[..n][1..];
    } else {
      assert lines[1..] == [] && lines[..0] == [];
    }
  }

  lemma {:induction false} MagnetHandsOver(lines: seq<Option<Descriptor>>, params: TorrentParams)
    ensures MagnetEffects(lines, params) == HandOvers(Parsed(lines), params)
    decreases |lines|
  {
    if lines != [] {
      MagnetHandsOver(lines[..|lines| - 1], params);
      ParsedOneMore(lines);
    }
  }

  /** A file that can be taken has all its torrents handed over, in order, and is then removed; any other has no effect at all. */
  lemma JobHandsOver(job: Job)
    ensures JobEffects(job) ==
            if Takes(job.path, job.file) then HandOvers(TorrentsIn(job.path, job.file), job.params) + [Removed(job.path)] else []
  {
    hide IsListed;
    hide HasExtension;
    hide MagnetEffects;
    MagnetHandsOver(job.file.content.lines, job.params);
  }

  // ----- Files by their names -----

  function Lower(s: string): string {
    seq(|s|, i requires 0 <= i < |s| => ToLower(s[i]))
  }

  lemma CapitalsAreSmall()
    ensures Lower("ABCDEFGHIJKLMNOPQRSTUVWXYZ") == "abcdefghijklmnopqrstuvwxyz"
    ensures Lower("abcdefghijklmnopqrstuvwxyz.") == "abcdefghijklmnopqrstuvwxyz."
  {
    var lower := Lower("ABCDEFGHIJKLMNOPQRSTUVWXYZ");
    forall i | 0 <= i < 26
      ensures lower[i] == "abcdefghijklmnopqrstuvwxyz"[i]
    {
      assert "ABCDEFGHIJKLMNOPQRSTUVWXYZ"[i] - 'A' + 'a' == "abcdefghijklmnopqrstuvwxyz"[i];
    }
  }

  /** A suffix test looks at the end of the path only, and not at the case of its letters. */
  lemma HasExtensionIff(front: string, tail: string, ext: string)
    requires |tail| == |ext|
    ensures HasExtension(front + tail, ext) <==> Lower(tail) == ext
  {
    var p := front + tail;
    assert forall i | 0 <= i < |ext| :: p[|p| - |ext| + i] == tail[i];
    if HasExtension(p, ext) {
      assert Lower(tail) == ext;
    }
    if Lower(tail) == ext {
      assert forall i | 0 <= i < |ext| :: ToLower(p[|p| - |ext| + i]) == Lower(tail)[i];
    }
  }

  lemma PathEndsInName(names: seq<string>, name: string) returns (front: string)
    ensures PathOf(names + [name]) == front + name
  {
    if names == [] {
      assert names + [name] == [name];
      front := [SEPARATOR];
    } else {
      JoinConcat(names, [name], SEPARATOR);
      front := [SEPARATOR] + JoinItems(names) + [SEPARATOR];
    }
  }

  lemma SameExtension(front: string, name: string, ext: string)
    requires |ext| <= |name|
    ensures HasExtension(front + name, ext) <==> HasExtension(name, ext)
  {
    var stem, tail := name[..|name| - |ext|], name[|name| - |ext|..];
    assert name == stem + tail && front + name == (front + stem) + tail;
    HasExtensionIff(stem, tail, ext);
    HasExtensionIff(front + stem, tail, ext);
  }

  /** The file `name` of the directory `names`, as a job. */
  function FileJob(names: seq<string>, name: string, content: Content, params: TorrentParams): Job {
    Job(PathOf(names + [name]), File(name, content), params)
  }

  lemma TorrentName(names: seq<string>, stem: string, tail: string)
    requires Lower(tail) == ".torrent"
    ensures IsListed(stem + tail) && !HasExtension(PathOf(names + [stem + tail]), ".magnet")
  {
    var name := stem + tail;
    HasExtensionIff(stem, tail, ".torrent");
    var front := PathEndsInName(names, name);
    assert name == (stem + tail[..1]) + tail[1..];
    assert Lower(tail)[1] == 't' && Lower(tail[1..])[0] == 't';
    SameExtension(front, name, ".magnet");
    HasExtensionIff(stem + tail[..1], tail[1..], ".magnet");
  }

  lemma MagnetName(names: seq<string>, stem: string, tail: string)
    requires Lower(tail) == ".magnet"
    ensures IsListed(stem + tail) && HasExtension(PathOf(names + [stem + tail]), ".magnet")
  {
    var name := stem + tail;
    HasExtensionIff(stem, tail, ".magnet");
    var front := PathEndsInName(names, name);
    SameExtension(front, name, ".magnet");
  }

  /** A .torrent file, in letters of any case: handed over and removed if it loads, left alone otherwise. */
  lemma TorrentFileIs(names: seq<string>, stem: string, tail: string, content: Content, params: TorrentParams)
    requires Lower(tail) == ".torrent"
    ensures var job := FileJob(names, stem + tail, content, params);
            JobEffects(job) == match content.load
                               case Some(torrent) => [Found(torrent, params), Removed(job.path)]
                               case None => []
  {
    hide IsListed;
    hide HasExtension;
    TorrentName(names, stem, tail);
  }

  /** A .magnet file: the torrents of its good lines handed over and the file removed, if it opens and is not too big. */
  lemma MagnetFileIs(names: seq<string>, stem: string, tail: string, content: Content, params: TorrentParams)
    requires Lower(tail) == ".magnet"
    ensures var job := FileJob(names, stem + tail, content, params);
            JobEffects(job) == if content.opens && content.withinLimit
                               then HandOvers(Parsed(content.lines), params) + [Removed(job.path)] else []
  {
    hide IsListed;
    hide HasExtension;
    MagnetName(names, stem, tail);
    MagnetHandsOver(content.lines, params);
  }

  lemma NoExtension(name: string, ext: string)
    requires |name| >= |ext| ==> Lower(name[|name| - |ext|..]) != ext
    ensures !HasExtension(name, ext)
  {
    if |name| >= |ext| {
      assert name == name[..|name| - |ext|] + name[|name| - |ext|..];
      HasExtensionIff(name[..|name| - |ext|], name[|name| - |ext|..], ext);
    }
  }

  /** Any other file is left alone. */
  lemma OtherFileIs(names: seq<string>, name: string, content: Content, params: TorrentParams)
    requires |name| >= 8 ==> Lower(name[|name| - 8..]) != ".torrent"
    requires |name| >= 7 ==> Lower(name[|name| - 7..]) != ".magnet"
    ensures JobEffects(FileJob(names, name, content, params)) == []
  {
    hide HasExtension;
    hide FileEffects;
    hide Lower;
    NoExtension(name, ".torrent");
    NoExtension(name, ".magnet");
  }

  /** A .torrent file that a pass comes across and that does not load is tracked afterwards, under its directory; no .magnet file comes to be. */
  lemma UnreadableIsTracked(p: Progress, params: TorrentParams, folder: Path, autoByDefault: bool, visits: seq<Visit>,
                            v: Visit, k: nat, stem: string, tail: string)
    requires v in visits && NamedVisit(v) && k < |v.dir.files| && v.dir.files[k].name == stem + tail
    ensures var after := HandleVisits(p, params, folder, autoByDefault, visits).failed;
            var dir, path := PathOf(v.names), PathOf(v.names + [stem + tail]);
            && (Lower(tail) == ".torrent" && v.dir.files[k].content.load.None? ==> Tracked(after, dir, path))
            && (Lower(tail) == ".magnet" && !Tracked(p.failed, dir, path) ==> !Tracked(after, dir, path))
  {
    hide IsListed;
    hide HasExtension;
    hide PathOf;
    hide Div;
    hide HandleVisits;
    var dir, path := PathOf(v.names), PathOf(v.names + [stem + tail]);
    ScanTracksExactly(p, params, folder, autoByDefault, visits, dir, path);
    DivName(v.names, stem + tail);
    if Lower(tail) == ".torrent" && v.dir.files[k].content.load.None? {
      TorrentName(v.names, stem, tail);
      assert FailsAmong(v.dir.files, dir, path);
    }
    if Lower(tail) == ".magnet" {
      MagnetName(v.names, stem, tail);
    }
  }

  // ----- What becomes of a file -----

  /** A listed file that is handed over and removed: a .torrent file that loads, a .magnet file that can be read. */
  predicate Takes(path: Path, file: File) {
    IsListed(file.name)
    && if HasExtension(path, ".magnet") then file.content.opens && file.content.withinLimit else file.content.load.Some?
  }

  /** The effect that takes the file away from its path. */
  predicate IsEndOf(e: Effect, f: Path) {
    e == Removed(f) || (e.Renamed? && e.from == f)
  }

  /** How often the file is taken away, by being handed over and removed or by being rejected. */
  function Ends(log: seq<Effect>, f: Path): nat
    decreases |log|
  {
    if log == [] then 0 else Ends(log[..|log| - 1], f) + if IsEndOf(log[|log| - 1], f) then 1 else 0
  }

  lemma {:induction false} EndsConcat(a: seq<Effect>, b: seq<Effect>, f: Path)
    ensures Ends(a + b, f) == Ends(a, f) + Ends(b, f)
    decreases |b|
  {
    if b == [] {
      assert a + b == a;
    } else {
      assert (a + b)[..|a + b| - 1] == a + b[..|b| - 1];
      EndsConcat(a, b[..|b| - 1], f);
    }
  }

  lemma {:induction false} MagnetEffectsEndNothing(lines: seq<Option<Descriptor>>, params: TorrentParams, f: Path)
    ensures Ends(MagnetEffects(lines, params), f) == 0
    decreases |lines|
  {
    if lines != [] {
      var n := |lines| - 1;
      MagnetEffectsEndNothing(lines[..n], params, f);
      if lines[n].Some? {
        EndOfOne(MagnetEffects(lines[..n], params), Found(lines[n].value, params), f);
      } else {
        assert MagnetEffects(lines, params) == MagnetEffects(lines[..n], params);
      }
    }
  }

  lemma EndOfOne(log: seq<Effect>, e: Effect, f: Path)
    ensures Ends(log + [e], f) == Ends(log, f) + if IsEndOf(e, f) then 1 else 0
  {
    assert (log + [e])[..|log|] == log;
  }

  /** A file that can be taken is taken away once, and no other with it. */
  lemma JobEnds(job: Job, f: Path)
    ensures Ends(JobEffects(job), f) == if job.path == f && Takes(f, job.file) then 1 else 0
  {
    hide IsListed;
    hide HasExtension;
    hide MagnetEffects;
    hide Ends;
    var content, removed := job.file.content, Removed(job.path);
    NothingEnds(f);
    if Takes(job.path, job.file) {
      if HasExtension(job.path, ".magnet") {
        MagnetEffectsEndNothing(content.lines, job.params, f);
        EndOfOne(MagnetEffects(content.lines, job.params), removed, f);
      } else {
        var found := Found(content.load.value, job.params);
        EndOfOne([], found, f);
        EndOfOne([found], removed, f);
        assert [] + [found] == [found];
        assert [found] + [removed] == [found, removed];
      }
    } else {
      assert JobEffects(job) == [];
    }
  }

  lemma NothingEnds(f: Path)
    ensures Ends([], f) == 0
  {
  }

  /** No file at that path can be taken. */
  ghost predicate NoneTakes(jobs: seq<Job>, f: Path) {
    forall j | 0 <= j < |jobs| && jobs[j].path == f :: !Takes(f, jobs[j].file)
  }

  /** A file that cannot be taken, or does not come up, is not taken away. */
  lemma {:induction false} EndsOnlyThere(jobs: seq<Job>, f: Path)
    requires NoneTakes(jobs, f)
    ensures Ends(Effects(jobs), f) == 0
    decreases |jobs|
  {
    hide JobEffects;
    hide Ends;
    if jobs == [] {
      NothingEnds(f);
    } else {
      var n := |jobs| - 1;
      assert forall j | 0 <= j < n :: jobs[..n][j] == jobs[j];
      EndsOnlyThere(jobs[..n], f);
      JobEnds(jobs[n], f);
      EndsConcat(Effects(jobs[..n]), JobEffects(jobs[n]), f);
    }
  }

  lemma EffectsAroundAre(jobs: seq<Job>, j: nat)
    requires j < |jobs|
    ensures Effects(jobs) == Effects(jobs[..j]) + JobEffects(jobs[j]) + Effects(jobs[j + 1..])
  {
    hide Effects;
    hide JobEffects;
    assert jobs == jobs[..j + 1] + jobs[j + 1..];
    EffectsConcat(jobs[..j + 1], jobs[j + 1..]);
    EffectsUpTo(jobs, j);
  }

  lemma EffectsUpTo(jobs: seq<Job>, j: nat)
    requires j < |jobs|
    ensures Effects(jobs[..j + 1]) == Effects(jobs[..j]) + JobEffects(jobs[j])
  {
    hide JobEffects;
    assert jobs[..j + 1][..j] == jobs[..j];
  }

  /** The effects of all jobs around one of them; when no path comes up twice, the others concern other files. */
  lemma EffectsAround(jobs: seq<Job>, j: nat)
    requires j < |jobs| && Distinct(JobPaths(jobs))
    ensures Effects(jobs) == Effects(jobs[..j]) + JobEffects(jobs[j]) + Effects(jobs[j + 1..])
    ensures jobs[j].path !in JobPaths(jobs[..j]) && jobs[j].path !in JobPaths(jobs[j + 1..])
    ensures Ends(Effects(jobs), jobs[j].path) == if Takes(jobs[j].path, jobs[j].file) then 1 else 0
  {
    hide JobEffects;
    hide Effects;
    hide Ends;
    hide Takes;
    var f, before, after := jobs[j].path, jobs[..j], jobs[j + 1..];
    EffectsAroundAre(jobs, j);
    OthersAround(jobs, j);
    assert forall i | 0 <= i < |before| :: JobPaths(before)[i] == before[i].path;
    assert forall i | 0 <= i < |after| :: JobPaths(after)[i] == after[i].path;
    EndsOnlyThere(before, f);
    EndsOnlyThere(after, f);
    JobEnds(jobs[j], f);
    EndsConcat(Effects(before) + JobEffects(jobs[j]), Effects(after), f);
    EndsConcat(Effects(before), JobEffects(jobs[j]), f);
  }

  lemma OthersAround(jobs: seq<Job>, j: nat)
    requires j < |jobs| && Distinct(JobPaths(jobs))
    ensures jobs[j].path !in JobPaths(jobs[..j]) && jobs[j].path !in JobPaths(jobs[j + 1..])
  {
    var paths, after := JobPaths(jobs), JobPaths(jobs[j + 1..]);
    forall i | 0 <= i < j
      ensures JobPaths(jobs[..j])[i] != jobs[j].path
    {
      assert JobPaths(jobs[..j])[i] == paths[i] && paths[j] == jobs[j].path;
    }
    forall i | 0 <= i < |after|
      ensures after[i] != jobs[j].path
    {
      assert after[i] == paths[j + 1 + i] && paths[j] == jobs[j].path;
    }
  }
}
