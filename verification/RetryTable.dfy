/**
 * The table of torrent files that did not load: what one retry pass makes of it, and what becomes of
 * every file over any number of passes.
 */
module RetryTable {
  import opened Options
  import opened Paths
  import opened CleanPaths
  import opened WatchTree
  import opened WatchedFiles

  const MAX_FAILED_RETRIES: nat := 5

  /** What a retry finds at a path. */
  datatype Probe = Missing | Unreadable | Loads(torrent: Descriptor)

  type Probes = Path -> Probe

  /** The file stays for another pass. */
  predicate Stays(count: nat, probe: Probe) {
    probe.Unreadable? && count < MAX_FAILED_RETRIES
  }

  function PassRow(row: map<Path, nat>, probes: Probes): map<Path, nat> {
    map f | f in row && Stays(row[f], probes(f)) :: row[f] + 1
  }

  /** The table after `processFailedTorrents`. */
  function PassTable(t: Table, probes: Probes): Table {
    map d | d in t && PassRow(t[d], probes) != map[] :: PassRow(t[d], probes)
  }

  /** The effects of one entry in one pass. */
  function RetryEffects(dir: Path, file: Path, count: nat, probe: Probe, params: TorrentParams, autoByDefault: bool): seq<Effect> {
    match probe
    case Missing => []
    case Loads(torrent) => [Found(torrent, RetryParams(params, dir, file, autoByDefault)), Removed(file)]
    case Unreadable => if count >= MAX_FAILED_RETRIES then [Renamed(file, MakePath(file + ".qbt_rejected"))] else []
  }

  /** Successive passes with nothing new tracked in between. */
  function Passes(t: Table, probes: seq<Probes>): Table
    decreases |probes|
  {
    if probes == [] then t else PassTable(Passes(t, probes[..|probes| - 1]), probes[|probes| - 1])
  }

  lemma PassTracks(t: Table, probes: Probes, d: Path, f: Path)
    ensures Tracked(PassTable(t, probes), d, f) <==> Tracked(t, d, f) && Stays(t[d][f], probes(f))
    ensures Tracked(PassTable(t, probes), d, f) ==> PassTable(t, probes)[d][f] == t[d][f] + 1
  {
    if Tracked(t, d, f) && Stays(t[d][f], probes(f)) {
      assert f in PassRow(t[d], probes);
    }
  }

  lemma PassKeepsTable(t: Table, probes: Probes)
    requires ValidTable(t, MAX_FAILED_RETRIES)
    ensures ValidTable(PassTable(t, probes), MAX_FAILED_RETRIES)
  {
  }

  ghost predicate AllUnreadable(probes: seq<Probes>, f: Path) {
    forall k | 0 <= k < |probes| :: probes[k](f).Unreadable?
  }

  lemma NothingUnreadable(f: Path)
    ensures AllUnreadable([], f)
  {
  }

  lemma AllUnreadableLast(probes: seq<Probes>, f: Path)
    requires probes != []
    ensures var n := |probes| - 1;
            AllUnreadable(probes, f) <==> AllUnreadable(probes[..n], f) && probes[n](f).Unreadable?
  {
    assert forall k | 0 <= k < |probes| - 1 :: probes[..|probes| - 1][k] == probes[k];
  }

  /**
   * The whole life of an entry: it is still there after some passes exactly when every one of them
   * found it unreadable and its retries have not run out; its count has then gone up once a pass.
   */
  lemma {:induction false} SurvivesIff(t: Table, probes: seq<Probes>, d: Path, f: Path)
    requires Tracked(t, d, f) ==> t[d][f] <= MAX_FAILED_RETRIES
    ensures var after := Passes(t, probes);
            && (Tracked(after, d, f) <==>
                Tracked(t, d, f) && t[d][f] + |probes| <= MAX_FAILED_RETRIES && AllUnreadable(probes, f))
            && (Tracked(after, d, f) ==> after[d][f] == t[d][f] + |probes|)
    decreases |probes|
  {
    hide PassTable;
    hide AllUnreadable;
    if probes == [] {
      NothingUnreadable(f);
    } else {
      var n := |probes| - 1;
      SurvivesIff(t, probes[..n], d, f);
      PassTracks(Passes(t, probes[..n]), probes[n], d, f);
      AllUnreadableLast(probes, f);
    }
  }

  lemma {:induction false} PassesKeepTable(t: Table, probes: seq<Probes>)
    requires ValidTable(t, MAX_FAILED_RETRIES)
    ensures ValidTable(Passes(t, probes), MAX_FAILED_RETRIES)
    decreases |probes|
  {
    if probes != [] {
      PassesKeepTable(t, probes[..|probes| - 1]);
    }
  }

  /** After six passes, one more than the retry limit, the table is empty, whatever the passes found. */
  lemma RetriesRunOut(t: Table, probes: seq<Probes>)
    requires ValidTable(t, MAX_FAILED_RETRIES) && |probes| >= 6
    ensures Passes(t, probes) == map[]
  {
    var after := Passes(t, probes);
    PassesKeepTable(t, probes);
    forall d | d in after
      ensures false
    {
      assert after[d] != map[];
      var f :| f in after[d];
      SurvivesIff(t, probes, d, f);
    }
  }

  /** One pass fewer does not do: an unreadable file newly tracked is still there. */
  lemma RetriesNotRunOutBefore(d: Path, f: Path, probes: seq<Probes>)
    requires |probes| == 5 && AllUnreadable(probes, f)
    ensures Passes(map[d := map[f := 0]], probes) != map[]
  {
    SurvivesIff(map[d := map[f := 0]], probes, d, f);
  }

  // ----- Every tracked file has one outcome -----

  /** Pass `k` takes the entry out of the table: the file is gone, taken or rejected. */
  predicate LeavesIn(t: Table, probes: seq<Probes>, d: Path, f: Path, k: nat)
    requires k < |probes|
  {
    var before := Passes(t, probes[..k]);
    Tracked(before, d, f) && !Stays(before[d][f], probes[k](f))
  }

  lemma LeavesInPrefix(t: Table, probes: seq<Probes>, n: nat, d: Path, f: Path, k: nat)
    requires k < n <= |probes|
    ensures LeavesIn(t, probes[..n], d, f, k) == LeavesIn(t, probes, d, f, k)
  {
    assert probes[..n][..k] == probes[..k];
  }

  /** The entry leaves in some pass. */
  ghost predicate Leaves(t: Table, probes: seq<Probes>, d: Path, f: Path) {
    exists k | 0 <= k < |probes| :: LeavesIn(t, probes, d, f, k)
  }

  lemma LeavesLast(t: Table, probes: seq<Probes>, d: Path, f: Path)
    requires probes != []
    ensures var n := |probes| - 1;
            Leaves(t, probes, d, f) <==> Leaves(t, probes[..n], d, f) || LeavesIn(t, probes, d, f, n)
  {
    var n := |probes| - 1;
    var front := probes[..n];
    if Leaves(t, probes, d, f) {
      var k: nat :| k < |probes| && LeavesIn(t, probes, d, f, k);
      if k < n {
        LeavesInPrefix(t, probes, n, d, f, k);
        assert LeavesIn(t, front, d, f, k);
      }
    }
    if Leaves(t, front, d, f) {
      var k: nat :| k < n && LeavesIn(t, front, d, f, k);
      LeavesInPrefix(t, probes, n, d, f, k);
      assert LeavesIn(t, probes, d, f, k);
    }
  }

  lemma {:induction false} GoneIffLeft(t: Table, probes: seq<Probes>, d: Path, f: Path)
    requires Tracked(t, d, f)
    ensures !Tracked(Passes(t, probes), d, f) <==> Leaves(t, probes, d, f)
    decreases |probes|
  {
    if probes != [] {
      var n := |probes| - 1;
      GoneIffLeft(t, probes[..n], d, f);
      PassTracks(Passes(t, probes[..n]), probes[n], d, f);
      LeavesLast(t, probes, d, f);
    }
  }

  /** A tracked file leaves in exactly one pass if it is no longer tracked at the end, and in none otherwise. */
  lemma OneOutcome(t: Table, probes: seq<Probes>, d: Path, f: Path, j: nat, k: nat)
    requires Tracked(t, d, f)
    ensures !Tracked(Passes(t, probes), d, f) <==> Leaves(t, probes, d, f)
    ensures j < |probes| && k < |probes| && LeavesIn(t, probes, d, f, j) && LeavesIn(t, probes, d, f, k) ==> j == k
  {
    GoneIffLeft(t, probes, d, f);
    if j < k < |probes| && LeavesIn(t, probes, d, f, j) {
      LeftIsGone(t, probes, d, f, j, k);
    }
    if k < j < |probes| && LeavesIn(t, probes, d, f, k) {
      LeftIsGone(t, probes, d, f, k, j);
    }
  }

  lemma LeftIsGone(t: Table, probes: seq<Probes>, d: Path, f: Path, j: nat, k: nat)
    requires j < k < |probes| && Tracked(t, d, f) && LeavesIn(t, probes, d, f, j)
    ensures !LeavesIn(t, probes, d, f, k)
  {
    LeavesInPrefix(t, probes, k, d, f, j);
    GoneIffLeft(t, probes[..k], d, f);
  }

  /** The pass in which a file leaves decides: it is handed over, or rejected, or had vanished; in every other pass nothing happens to it. */
  lemma EffectsOnlyOnLeaving(t: Table, probes: seq<Probes>, d: Path, f: Path, k: nat, params: TorrentParams, autoByDefault: bool)
    requires k < |probes| && Tracked(Passes(t, probes[..k]), d, f)
    ensures var count := Passes(t, probes[..k])[d][f];
            var effects := RetryEffects(d, f, count, probes[k](f), params, autoByDefault);
            && (effects != [] ==> LeavesIn(t, probes, d, f, k))
            && (LeavesIn(t, probes, d, f, k) && !probes[k](f).Missing? ==>
                  (Removed(f) in effects) != (exists to :: Renamed(f, to) in effects))
  {
    hide RetryParams;
    hide MakePath;
    hide PassTable;
    var count := Passes(t, probes[..k])[d][f];
    var effects := RetryEffects(d, f, count, probes[k](f), params, autoByDefault);
    if LeavesIn(t, probes, d, f, k) && probes[k](f).Unreadable? {
      assert effects[0] == Renamed(f, MakePath(f + ".qbt_rejected"));
    }
  }
}
