/**
 * Deferred deletion of .torrent files: the guards, and the managers that keep them by source until the
 * session reports what became of the torrent.
 */
module TorrentFileGuards {
  import opened Options
  import opened Paths

  type InfoHash = string

  datatype Mode = Never | IfAdded | Always

  /** A guard, with a running number, the source it was made for, and the torrent its file held then, if any. */
  datatype Guard = Guard(id: nat, source: string, hash: Option<InfoHash>, path: Path, mode: Mode, remove: bool, wasAdded: bool)

  /** What is observed: signals of the session for a source, and the end of guards. */
  datatype Entry =
    | ReportedAdded(source: string, hash: InfoHash)
    | ReportedFailed(source: string, hash: InfoHash)
    | Deleted(guard: Guard)
    | Kept(guard: Guard)

  /** With mode `Never` a guard is not given the path. */
  function NewGuard(id: nat, source: string, hash: Option<InfoHash>, path: Path, mode: Mode): Guard {
    Guard(id, source, hash, if mode != Never then path else "", mode, true, false)
  }

  /** The end of a guard. */
  function Ended(g: Guard): Entry {
    if g.remove && (g.wasAdded || g.mode == Always) && g.path != "" then Deleted(g) else Kept(g)
  }

  datatype State = State(sources: map<InfoHash, string>, guarded: map<string, Guard>, log: seq<Entry>, nextId: nat)

  /** How a source is given, with what loading the file yields. */
  datatype Kind = Url | Parsed(hash: InfoHash) | BadMagnet | File(path: Path, loads: Option<InfoHash>)

  datatype Event =
    | Add(source: string, kind: Kind, mode: Mode, duplicate: bool, accepted: bool)
    | AddByDialog(source: string, kind: Kind, mode: Mode, duplicate: bool)
    | DownloadFinished(source: string, loads: Option<InfoHash>, duplicate: bool, accepted: bool)
    | DialogAccepted(source: string, hash: InfoHash, doNotDelete: bool, accepted: bool)
    | DialogRejected(source: string)
    | SessionAdded(hash: InfoHash)
    | SessionFailed(hash: InfoHash)

  // ----- What each operation does -----

  function AddToSession(s: State, source: string, hash: InfoHash, accepted: bool): State {
    if accepted then s.(sources := s.sources[hash := source]) else s
  }

  function ProcessTorrent(s: State, source: string, hash: InfoHash, duplicate: bool, accepted: bool): State {
    if duplicate then s else AddToSession(s, source, hash, accepted)
  }

  /** A guard already kept for the source is replaced, which ends it. */
  function SetGuard(s: State, source: string, g: Guard): State {
    s.(guarded := s.guarded[source := g],
       log := s.log + if source in s.guarded then [Ended(s.guarded[source])] else [])
  }

  /** The guard taken for the source, changed by `mark`, ends. */
  function EndGuard(s: State, source: string, mark: Guard -> Guard): State {
    if source !in s.guarded then s
    else s.(guarded := s.guarded - {source}, log := s.log + [Ended(mark(s.guarded[source]))])
  }

  function MarkAdded(g: Guard): Guard {
    g.(wasAdded := true)
  }

  function Cancel(g: Guard): Guard {
    g.(remove := false)
  }

  function Unchanged(g: Guard): Guard {
    g
  }

  /** The manager without dialogs keeps the guard before the torrent goes to the session. */
  function AddFile(s: State, source: string, path: Path, loads: Option<InfoHash>, mode: Mode, duplicate: bool, accepted: bool): State {
    var g := NewGuard(s.nextId, source, loads, path, mode);
    var t := s.(nextId := s.nextId + 1);
    match loads
    case Some(hash) => ProcessTorrent(SetGuard(t, source, g), source, hash, duplicate, accepted)
    case None => t.(log := t.log + [Ended(g)])
  }

  /** The one with dialogs keeps it only once a dialog is open. */
  function AddFileByDialog(s: State, source: string, path: Path, loads: Option<InfoHash>, mode: Mode, duplicate: bool): State {
    var g := NewGuard(s.nextId, source, loads, path, mode);
    var t := s.(nextId := s.nextId + 1);
    if loads.Some? && !duplicate then SetGuard(t, source, g) else t.(log := t.log + [Ended(g)])
  }

  /** The session's signals take the source of the info-hash, and with it the guard. An empty source counts as none. */
  function Added(s: State, hash: InfoHash): State {
    if hash !in s.sources then s
    else
      var source, t := s.sources[hash], s.(sources := s.sources - {hash});
      if source == "" then t else EndGuard(t.(log := t.log + [ReportedAdded(source, hash)]), source, MarkAdded)
  }

  function Failed(s: State, hash: InfoHash): State {
    if hash !in s.sources then s
    else
      var source, t := s.sources[hash], s.(sources := s.sources - {hash});
      if source == "" then t else EndGuard(t.(log := t.log + [ReportedFailed(source, hash)]), source, Cancel)
  }

  /** The state after a report, written out. */
  lemma SignalStates(s: State, hash: InfoHash)
    requires hash in s.sources && s.sources[hash] != ""
    ensures var source := s.sources[hash];
            && Added(s, hash) == State(s.sources - {hash}, s.guarded - {source}, s.log + [ReportedAdded(source, hash)]
                 + (if source in s.guarded then [Ended(MarkAdded(s.guarded[source]))] else []), s.nextId)
            && Failed(s, hash) == State(s.sources - {hash}, s.guarded - {source}, s.log + [ReportedFailed(source, hash)]
                 + (if source in s.guarded then [Ended(Cancel(s.guarded[source]))] else []), s.nextId)
  {
    var source := s.sources[hash];
    if source !in s.guarded {
      assert s.guarded - {source} == s.guarded;
    }
  }

  function Next(s: State, e: Event): State {
    match e
    case Add(source, kind, mode, duplicate, accepted) =>
      if source == "" then s
      else (match kind
            case Parsed(hash) => ProcessTorrent(s, source, hash, duplicate, accepted)
            case File(path, loads) => AddFile(s, source, path, loads, mode, duplicate, accepted)
            case _ => s)
    case AddByDialog(source, kind, mode, duplicate) =>
      if source == "" || !kind.File? then s
      else AddFileByDialog(s, source, kind.path, kind.loads, mode, duplicate)
    case DownloadFinished(source, loads, duplicate, accepted) =>
      if loads.Some? then ProcessTorrent(s, source, loads.value, duplicate, accepted) else s
    case DialogAccepted(source, hash, doNotDelete, accepted) =>
      AddToSession(if doNotDelete then EndGuard(s, source, Cancel) else s, source, hash, accepted)
    case DialogRejected(source) => EndGuard(s, source, Unchanged)
    case SessionAdded(hash) => Added(s, hash)
    case SessionFailed(hash) => Failed(s, hash)
  }

  function Run(s: State, events: seq<Event>): State
    decreases |events|
  {
    if events == [] then s else Run(Next(s, events[0]), events[1..])
  }

  const START := State(map[], map[], [], 0)

  // ----- Safety over all runs -----

  /** A guard that is kept waits for its source, untouched. */
  predicate Waiting(g: Guard, source: string) {
    g.source == source && g.remove && !g.wasAdded && (g.mode == Never ==> g.path == "")
  }

  /** A deletion is in order: the mode allows it, and with `IfAdded` the session has just reported its source added. */
  ghost predicate Justified(log: seq<Entry>, i: nat)
    requires i < |log| && log[i].Deleted?
  {
    var g := log[i].guard;
    && g.mode != Never && g.path != "" && g.remove
    && (g.mode == IfAdded ==> i > 0 && log[i - 1].ReportedAdded? && log[i - 1].source == g.source)
  }

  predicate IsEnd(e: Entry) {
    e.Deleted? || e.Kept?
  }

  ghost predicate Safe(s: State) {
    && (forall source | source in s.guarded :: Waiting(s.guarded[source], source) && s.guarded[source].id < s.nextId)
    && (forall i | 0 <= i < |s.log| && s.log[i].Deleted? :: Justified(s.log, i))
  }

  /** No guard ends twice, and none that has ended is still kept. */
  ghost predicate EndsOnce(s: State) {
    && (forall a, b | a in s.guarded && b in s.guarded && s.guarded[a].id == s.guarded[b].id :: a == b)
    && (forall i | 0 <= i < |s.log| && IsEnd(s.log[i]) :: s.log[i].guard.id < s.nextId)
    && (forall i, a | 0 <= i < |s.log| && IsEnd(s.log[i]) && a in s.guarded :: s.log[i].guard.id != s.guarded[a].id)
    && (forall i, j | 0 <= i < j < |s.log| && IsEnd(s.log[i]) && IsEnd(s.log[j]) :: s.log[i].guard.id != s.log[j].guard.id)
  }

  /** Appending the end of a guard keeps the log in order if that end is. */
  lemma AppendKeepsJustified(log: seq<Entry>, e: Entry)
    requires forall i | 0 <= i < |log| && log[i].Deleted? :: Justified(log, i)
    requires e.Deleted? ==> Justified(log + [e], |log|)
    ensures forall i | 0 <= i < |log + [e]| && (log + [e])[i].Deleted? :: Justified(log + [e], i)
  {
    forall i | 0 <= i < |log| && log[i].Deleted?
      ensures Justified(log + [e], i)
    {
      assert Justified(log, i);
    }
  }

  lemma SetGuardKeepsSafe(s: State, source: string, g: Guard)
    requires Safe(s) && Waiting(g, source) && g.id < s.nextId
    ensures Safe(SetGuard(s, source, g))
  {
    if source in s.guarded {
      AppendKeepsJustified(s.log, Ended(s.guarded[source]));
    }
  }

  lemma EndGuardKeepsSafe(s: State, source: string, mark: Guard -> Guard)
    requires Safe(s)
    requires forall g | Waiting(g, source) :: var m := mark(g);
               m == g || m == Cancel(g) || (m == MarkAdded(g) && |s.log| > 0 && s.log[|s.log| - 1].ReportedAdded? && s.log[|s.log| - 1].source == source)
    ensures Safe(EndGuard(s, source, mark))
  {
    if source in s.guarded {
      AppendKeepsJustified(s.log, Ended(mark(s.guarded[source])));
    }
  }

  lemma AddToSessionKeepsSafe(s: State, source: string, hash: InfoHash, accepted: bool)
    requires Safe(s)
    ensures Safe(AddToSession(s, source, hash, accepted))
  {
  }

  /** A signal of the session for a pending info-hash: the report, then the end of the guard. */
  lemma SignalKeepsSafe(s: State, hash: InfoHash)
    requires Safe(s) && hash in s.sources
    ensures Safe(Next(s, SessionAdded(hash))) && Safe(Next(s, SessionFailed(hash)))
  {
    var source, rest := s.sources[hash], s.sources - {hash};
    AppendKeepsJustified(s.log, ReportedAdded(source, hash));
    EndGuardKeepsSafe(s.(sources := rest, log := s.log + [ReportedAdded(source, hash)]), source, MarkAdded);
    AppendKeepsJustified(s.log, ReportedFailed(source, hash));
    EndGuardKeepsSafe(s.(sources := rest, log := s.log + [ReportedFailed(source, hash)]), source, Cancel);
  }

  lemma NextKeepsSafe(s: State, e: Event)
    requires Safe(s)
    ensures Safe(Next(s, e))
  {
    hide Safe;
    match e
    case Add(source, kind, mode, duplicate, accepted) =>
      if source != "" {
        match kind {
          case Parsed(hash) => AddToSessionKeepsSafe(s, source, hash, accepted);
          case File(path, loads) =>
            AddingKeepsSafe(s, source, loads, path, mode);
            if loads.Some? {
              var g, t := NewGuard(s.nextId, source, loads, path, mode), s.(nextId := s.nextId + 1);
              AddToSessionKeepsSafe(SetGuard(t, source, g), source, loads.value, accepted);
            }
          case _ =>
        }
      }
    case AddByDialog(source, kind, mode, duplicate) =>
      if source != "" && kind.File? {
        AddingKeepsSafe(s, source, kind.loads, kind.path, mode);
      }
    case DownloadFinished(source, loads, duplicate, accepted) =>
      if loads.Some? {
        AddToSessionKeepsSafe(s, source, loads.value, accepted);
      }
    case DialogAccepted(source, hash, doNotDelete, accepted) =>
      EndGuardKeepsSafe(s, source, Cancel);
      AddToSessionKeepsSafe(if doNotDelete then EndGuard(s, source, Cancel) else s, source, hash, accepted);
    case DialogRejected(source) => EndGuardKeepsSafe(s, source, Unchanged);
    case SessionAdded(hash) =>
      if hash in s.sources {
        SignalKeepsSafe(s, hash);
      }
    case SessionFailed(hash) =>
      if hash in s.sources {
        SignalKeepsSafe(s, hash);
      }
  }

  /** Making a guard, and keeping it or ending it at once, are both safe. */
  lemma AddingKeepsSafe(s: State, source: string, loads: Option<InfoHash>, path: Path, mode: Mode)
    requires Safe(s)
    ensures var g, t := NewGuard(s.nextId, source, loads, path, mode), s.(nextId := s.nextId + 1);
            Safe(SetGuard(t, source, g)) && Safe(t.(log := t.log + [Ended(g)]))
  {
    var g, t := NewGuard(s.nextId, source, loads, path, mode), s.(nextId := s.nextId + 1);
    SetGuardKeepsSafe(t, source, g);
    AppendKeepsJustified(t.log, Ended(g));
  }

  /** Guard safety: in every run, deletions are only those the mode and the session's reports allow. */
  lemma {:induction false} RunIsSafe(s: State, events: seq<Event>)
    requires Safe(s)
    ensures Safe(Run(s, events))
    decreases |events|
  {
    if events != [] {
      NextKeepsSafe(s, events[0]);
      RunIsSafe(Next(s, events[0]), events[1..]);
    }
  }

  /** The number is not in use: no guard with it is kept and none has ended. */
  ghost predicate Unused(s: State, id: nat) {
    && id < s.nextId
    && (forall a | a in s.guarded :: s.guarded[a].id != id)
    && (forall i | 0 <= i < |s.log| && IsEnd(s.log[i]) :: s.log[i].guard.id != id)
  }

  lemma EndKeepsEndsOnce(s: State, e: Entry)
    requires EndsOnce(s) && (IsEnd(e) ==> Unused(s, e.guard.id))
    ensures EndsOnce(s.(log := s.log + [e]))
  {
  }

  lemma ReleaseMakesUnused(s: State, source: string)
    requires EndsOnce(s) && source in s.guarded && s.guarded[source].id < s.nextId
    ensures var t := s.(guarded := s.guarded - {source}); EndsOnce(t) && Unused(t, s.guarded[source].id)
  {
  }

  lemma EndGuardKeepsEndsOnce(s: State, source: string, mark: Guard -> Guard)
    requires Safe(s) && EndsOnce(s) && forall g :: mark(g).id == g.id
    ensures EndsOnce(EndGuard(s, source, mark))
    ensures source !in EndGuard(s, source, mark).guarded
    ensures forall id | Unused(s, id) :: Unused(EndGuard(s, source, mark), id)
  {
    if source in s.guarded {
      ReleaseMakesUnused(s, source);
      EndKeepsEndsOnce(s.(guarded := s.guarded - {source}), Ended(mark(s.guarded[source])));
    }
  }

  lemma AddingKeepsEndsOnce(s: State, source: string, loads: Option<InfoHash>, path: Path, mode: Mode)
    requires Safe(s) && EndsOnce(s)
    ensures var g, t := NewGuard(s.nextId, source, loads, path, mode), s.(nextId := s.nextId + 1);
            EndsOnce(SetGuard(t, source, g)) && EndsOnce(t.(log := t.log + [Ended(g)]))
  {
    hide EndsOnce;
    hide Safe;
    hide Unused;
    var g, t := NewGuard(s.nextId, source, loads, path, mode), s.(nextId := s.nextId + 1);
    NewNumberIsUnused(s);
    EndKeepsEndsOnce(t, Ended(g));
    EndGuardKeepsEndsOnce(t, source, Unchanged);
    var u := EndGuard(t, source, Unchanged);
    KeepUnused(u, source, g);
    assert u.guarded[source := g] == t.guarded[source := g];
    assert SetGuard(t, source, g) == u.(guarded := u.guarded[source := g]);
  }

  lemma NewNumberIsUnused(s: State)
    requires Safe(s) && EndsOnce(s)
    ensures var t := s.(nextId := s.nextId + 1); Safe(t) && EndsOnce(t) && Unused(t, s.nextId)
  {
  }

  lemma KeepUnused(s: State, source: string, g: Guard)
    requires EndsOnce(s) && source !in s.guarded && Unused(s, g.id)
    ensures EndsOnce(s.(guarded := s.guarded[source := g]))
  {
  }

  lemma ReportKeepsBoth(s: State, hash: InfoHash, e: Entry)
    requires Safe(s) && EndsOnce(s) && !IsEnd(e)
    ensures var t := s.(sources := s.sources - {hash}, log := s.log + [e]); Safe(t) && EndsOnce(t)
  {
    EndKeepsEndsOnce(s, e);
    AppendKeepsJustified(s.log, e);
  }

  lemma TakenSourceKeepsEndsOnce(s: State, hash: InfoHash)
    requires EndsOnce(s)
    ensures EndsOnce(s.(sources := s.sources - {hash}))
  {
  }

  lemma SignalKeepsEndsOnce(s: State, hash: InfoHash)
    requires Safe(s) && EndsOnce(s) && hash in s.sources
    ensures EndsOnce(Next(s, SessionAdded(hash))) && EndsOnce(Next(s, SessionFailed(hash)))
  {
    hide Safe;
    hide EndsOnce;
    hide Unused;
    var source, rest := s.sources[hash], s.sources - {hash};
    TakenSourceKeepsEndsOnce(s, hash);
    ReportKeepsBoth(s, hash, ReportedAdded(source, hash));
    ReportKeepsBoth(s, hash, ReportedFailed(source, hash));
    EndGuardKeepsEndsOnce(s.(sources := rest, log := s.log + [ReportedAdded(source, hash)]), source, MarkAdded);
    EndGuardKeepsEndsOnce(s.(sources := rest, log := s.log + [ReportedFailed(source, hash)]), source, Cancel);
  }

  lemma AddToSessionKeepsEndsOnce(s: State, source: string, hash: InfoHash, accepted: bool)
    requires EndsOnce(s)
    ensures EndsOnce(AddToSession(s, source, hash, accepted))
  {
  }

  lemma NextKeepsEndsOnce(s: State, e: Event)
    requires Safe(s) && EndsOnce(s)
    ensures EndsOnce(Next(s, e))
  {
    hide Safe;
    hide EndsOnce;
    match e
    case Add(source, kind, mode, duplicate, accepted) =>
      if source != "" {
        match kind {
          case Parsed(hash) => AddToSessionKeepsEndsOnce(s, source, hash, accepted);
          case File(path, loads) =>
            AddingKeepsEndsOnce(s, source, loads, path, mode);
            if loads.Some? {
              var g, t := NewGuard(s.nextId, source, loads, path, mode), s.(nextId := s.nextId + 1);
              AddToSessionKeepsEndsOnce(SetGuard(t, source, g), source, loads.value, accepted);
            }
          case _ =>
        }
      }
    case AddByDialog(source, kind, mode, duplicate) =>
      if source != "" && kind.File? {
        AddingKeepsEndsOnce(s, source, kind.loads, kind.path, mode);
      }
    case DownloadFinished(source, loads, duplicate, accepted) =>
      if loads.Some? {
        AddToSessionKeepsEndsOnce(s, source, loads.value, accepted);
      }
    case DialogAccepted(source, hash, doNotDelete, accepted) =>
      EndGuardKeepsEndsOnce(s, source, Cancel);
      AddToSessionKeepsEndsOnce(if doNotDelete then EndGuard(s, source, Cancel) else s, source, hash, accepted);
    case DialogRejected(source) => EndGuardKeepsEndsOnce(s, source, Unchanged);
    case SessionAdded(hash) =>
      if hash in s.sources {
        SignalKeepsEndsOnce(s, hash);
      }
    case SessionFailed(hash) =>
      if hash in s.sources {
        SignalKeepsEndsOnce(s, hash);
      }
  }

  lemma {:induction false} RunEndsOnce(s: State, events: seq<Event>)
    requires Safe(s) && EndsOnce(s)
    ensures EndsOnce(Run(s, events))
    decreases |events|
  {
    if events != [] {
      NextKeepsSafe(s, events[0]);
      NextKeepsEndsOnce(s, events[0]);
      RunEndsOnce(Next(s, events[0]), events[1..]);
    }
  }

  /** A report that a torrent was added consumes its entry and deletes the file exactly when a guard with a path waits for its source. */
  lemma AddedDeletesIff(s: State, hash: InfoHash)
    requires Safe(s)
    ensures var t := Next(s, SessionAdded(hash));
            && t.sources == s.sources - {hash} && s.log <= t.log
            && ((exists i :: |s.log| <= i < |t.log| && t.log[i].Deleted?) <==>
                hash in s.sources && s.sources[hash] != "" && s.sources[hash] in s.guarded && s.guarded[s.sources[hash]].path != "")
  {
    var t := Next(s, SessionAdded(hash));
    if hash in s.sources && s.sources[hash] != "" && s.sources[hash] in s.guarded {
      assert t.log[|s.log| + 1] == Ended(MarkAdded(s.guarded[s.sources[hash]]));
    }
  }

  /** A failure report consumes its entry and deletes nothing, whatever the mode. */
  lemma FailedDeletesNothing(s: State, hash: InfoHash)
    requires Safe(s)
    ensures var t := Next(s, SessionFailed(hash));
            && t.sources == s.sources - {hash} && s.log <= t.log
            && forall i | |s.log| <= i < |t.log| :: !t.log[i].Deleted?
  {
  }

  /** A dialog accepted with "do not delete" gives the file up for good: no guard for the source is left and none was acted on. */
  lemma DoNotDeleteKeepsFile(s: State, source: string, hash: InfoHash, accepted: bool)
    requires Safe(s)
    ensures var t := Next(s, DialogAccepted(source, hash, true, accepted));
            && source !in t.guarded && s.log <= t.log
            && forall i | |s.log| <= i < |t.log| :: !t.log[i].Deleted?
  {
  }

  // ----- Deletions that have to happen -----

  /** A guard with mode `Always` and a path that is not cancelled, and one whose torrent was added, does not end without deleting. */
  ghost predicate NoneSpared(log: seq<Entry>) {
    forall i | 0 <= i < |log| && IsEnd(log[i]) ::
      var g := log[i].guard;
      g.path != "" && g.remove && (g.mode == Always || g.wasAdded) ==> log[i].Deleted?
  }

  lemma AppendKeepsNoneSpared(log: seq<Entry>, g: Guard)
    requires NoneSpared(log)
    ensures NoneSpared(log + [Ended(g)])
  {
  }

  lemma NextKeepsNoneSpared(s: State, e: Event)
    requires NoneSpared(s.log)
    ensures NoneSpared(Next(s, e).log)
  {
    hide NoneSpared;
    hide Ended;
    assert s.log + [] == s.log;
    match e
    case Add(source, kind, mode, _, _) =>
      if source != "" && kind.File? {
        AppendKeepsNoneSpared(s.log, NewGuard(s.nextId, source, kind.loads, kind.path, mode));
        if source in s.guarded {
          AppendKeepsNoneSpared(s.log, s.guarded[source]);
        }
      }
    case AddByDialog(source, kind, mode, _) =>
      if source != "" && kind.File? {
        AppendKeepsNoneSpared(s.log, NewGuard(s.nextId, source, kind.loads, kind.path, mode));
        if source in s.guarded {
          AppendKeepsNoneSpared(s.log, s.guarded[source]);
        }
      }
    case DownloadFinished(_, _, _, _) =>
    case DialogAccepted(source, _, _, _) =>
      if source in s.guarded {
        AppendKeepsNoneSpared(s.log, Cancel(s.guarded[source]));
      }
    case DialogRejected(source) =>
      if source in s.guarded {
        AppendKeepsNoneSpared(s.log, s.guarded[source]);
      }
    case SessionAdded(hash) =>
      if hash in s.sources && s.sources[hash] != "" {
        ReportKeepsNoneSpared(s.log, ReportedAdded(s.sources[hash], hash));
        if s.sources[hash] in s.guarded {
          AppendKeepsNoneSpared(s.log + [ReportedAdded(s.sources[hash], hash)], MarkAdded(s.guarded[s.sources[hash]]));
        }
      }
    case SessionFailed(hash) =>
      if hash in s.sources && s.sources[hash] != "" {
        ReportKeepsNoneSpared(s.log, ReportedFailed(s.sources[hash], hash));
        if s.sources[hash] in s.guarded {
          AppendKeepsNoneSpared(s.log + [ReportedFailed(s.sources[hash], hash)], Cancel(s.guarded[s.sources[hash]]));
        }
      }
  }

  lemma ReportKeepsNoneSpared(log: seq<Entry>, e: Entry)
    requires NoneSpared(log) && !IsEnd(e)
    ensures NoneSpared(log + [e])
  {
  }

  /** In every run a guard that ends with mode `Always`, a path and no cancellation deletes its file. */
  lemma {:induction false} RunSparesNone(s: State, events: seq<Event>)
    requires NoneSpared(s.log)
    ensures NoneSpared(Run(s, events).log)
    decreases |events|
  {
    hide NoneSpared;
    hide Next;
    if events != [] {
      NextKeepsNoneSpared(s, events[0]);
      RunSparesNone(Next(s, events[0]), events[1..]);
    }
  }

  /** The guard that a file is given: it has the path unless the mode is `Never`. */
  ghost predicate IsFresh(g: Guard, source: string, path: Path, mode: Mode) {
    g.source == source && g.mode == mode && g.remove && !g.wasAdded && (mode != Never ==> g.path == path)
  }

  /** A file that does not load, or that the dialog manager finds a duplicate, is deleted at once with `Always`, and kept otherwise. */
  lemma UnusedFileFate(s: State, source: string, path: Path, mode: Mode, duplicate: bool, accepted: bool, hash: InfoHash)
    requires source != "" && path != ""
    ensures forall e | e in {Add(source, File(path, None), mode, duplicate, accepted), AddByDialog(source, File(path, None), mode, duplicate),
                             AddByDialog(source, File(path, Some(hash)), mode, true)} ::
              var t := Next(s, e);
              && t.guarded == s.guarded && |t.log| == |s.log| + 1 && t.log[..|s.log|] == s.log
              && IsEnd(t.log[|s.log|]) && IsFresh(t.log[|s.log|].guard, source, path, mode)
              && (t.log[|s.log|].Deleted? <==> mode == Always)
  {
  }

  /** A file that is used gets a guard of its own; the one before it, if any, ends, deleting its file with `Always`. */
  lemma UsedFileFate(s: State, source: string, path: Path, mode: Mode, hash: InfoHash, duplicate: bool, accepted: bool)
    requires Safe(s) && source != ""
    ensures forall e | e in {Add(source, File(path, Some(hash)), mode, duplicate, accepted), AddByDialog(source, File(path, Some(hash)), mode, false)} ::
              var t := Next(s, e);
              && source in t.guarded && IsFresh(t.guarded[source], source, path, mode)
              && t.log == s.log + (if source !in s.guarded then [] else
                                   var g := s.guarded[source];
                                   [if g.mode == Always && g.path != "" then Deleted(g) else Kept(g)])
  {
  }

  /** How the guard of a source ends, event by event. */
  lemma KeptGuardFate(s: State, source: string, hash: InfoHash, accepted: bool)
    requires Safe(s) && source != "" && source in s.guarded
    ensures var g := s.guarded[source];
            && Next(s, DialogRejected(source)).log == s.log + [if g.mode == Always && g.path != "" then Deleted(g) else Kept(g)]
            && Next(s, DialogAccepted(source, hash, true, accepted)).log == s.log + [Kept(g.(remove := false))]
            && Next(s, DialogAccepted(source, hash, false, accepted)).log == s.log
            && (hash in s.sources && s.sources[hash] == source ==>
                  && Next(s, SessionAdded(hash)).log == s.log + [ReportedAdded(source, hash)]
                     + [if g.path != "" then Deleted(g.(wasAdded := true)) else Kept(g.(wasAdded := true))]
                  && Next(s, SessionFailed(hash)).log == s.log + [ReportedFailed(source, hash), Kept(g.(remove := false))])
  {
    if hash in s.sources && s.sources[hash] == source {
      SignalStates(s, hash);
    }
  }

  /** An accepted file is deleted when its torrent is reported, with a dialog and without, unless the mode is `Never`. */
  lemma AddedFileIsDeleted(s: State, source: string, path: Path, mode: Mode, hash: InfoHash)
    requires Safe(s) && source != "" && path != "" && mode != Never
    ensures var plain := Next(s, Add(source, File(path, Some(hash)), mode, false, true));
            var dialog := Next(Next(s, AddByDialog(source, File(path, Some(hash)), mode, false)), DialogAccepted(source, hash, false, true));
            forall t | t in {plain, dialog} ::
              var log := Next(t, SessionAdded(hash)).log;
              |log| >= 2 && log[|log| - 2] == ReportedAdded(source, hash)
              && log[|log| - 1].Deleted? && log[|log| - 1].guard.path == path
  {
    var plain := Next(s, Add(source, File(path, Some(hash)), mode, false, true));
    var open := Next(s, AddByDialog(source, File(path, Some(hash)), mode, false));
    var dialog := Next(open, DialogAccepted(source, hash, false, true));
    UsedFileFate(s, source, path, mode, hash, false, true);
    assert plain.sources[hash] == source && dialog.sources[hash] == source && dialog.guarded == open.guarded;
    NextKeepsSafe(s, Add(source, File(path, Some(hash)), mode, false, true));
    NextKeepsSafe(s, AddByDialog(source, File(path, Some(hash)), mode, false));
    NextKeepsSafe(open, DialogAccepted(source, hash, false, true));
    KeptGuardFate(plain, source, hash, true);
    KeptGuardFate(dialog, source, hash, true);
  }

  // ----- Reports for the torrent in the file -----

  /** The last entry deletes a file that was made for another torrent than `hash`. */
  predicate DeletesOther(log: seq<Entry>, hash: InfoHash) {
    log != [] && log[|log| - 1].Deleted? && log[|log| - 1].guard.hash != Some(hash)
  }

  /**
   * An added report is one for the source. It deletes the file of another torrent exactly when a guard
   * with a path waits for that source and the file it was made for held another torrent.
   */
  lemma ReportDeletesOtherIff(s: State, hash: InfoHash)
    requires Safe(s)
    ensures var t := Next(s, SessionAdded(hash));
            |t.log| > |s.log| && DeletesOther(t.log, hash) <==>
            && hash in s.sources && s.sources[hash] != "" && s.sources[hash] in s.guarded
            && s.guarded[s.sources[hash]].path != "" && s.guarded[s.sources[hash]].hash != Some(hash)
  {
    if hash in s.sources && s.sources[hash] != "" {
      SignalStates(s, hash);
    }
  }

  /** Every pending info-hash of a guarded source is that of the guard's own torrent. */
  ghost predicate OwnPending(s: State) {
    forall h | h in s.sources && s.sources[h] in s.guarded :: s.guarded[s.sources[h]].hash == Some(h)
  }

  /** No other info-hash is pending for the source. */
  ghost predicate NoOtherPending(s: State, source: string, hash: InfoHash) {
    forall h | h in s.sources && s.sources[h] == source :: h == hash
  }

  /** A guard kept for the source, if any, is one for this torrent. */
  predicate GuardIsFor(s: State, source: string, hash: InfoHash) {
    source in s.guarded ==> s.guarded[source].hash == Some(hash)
  }

  /** What has to be checked before an event so that the invariant is kept. */
  ghost predicate KeepsOwn(s: State, e: Event) {
    match e
    case Add(source, kind, mode, duplicate, accepted) =>
      source == "" ||
      (match kind
       case Parsed(hash) => !duplicate && accepted ==> GuardIsFor(s, source, hash)
       case File(path, loads) => loads.Some? ==> NoOtherPending(s, source, loads.value)
       case _ => true)
    case AddByDialog(source, kind, mode, duplicate) =>
      source != "" && kind.File? && kind.loads.Some? && !duplicate ==> NoOtherPending(s, source, kind.loads.value)
    case DownloadFinished(source, loads, duplicate, accepted) =>
      loads.Some? && !duplicate && accepted ==> GuardIsFor(s, source, loads.value)
    case DialogAccepted(source, hash, doNotDelete, accepted) =>
      accepted && !doNotDelete ==> GuardIsFor(s, source, hash)
    case DialogRejected(_) => true
    case SessionAdded(_) => true
    case SessionFailed(_) => true
  }

  lemma AcceptKeepsOwnIff(s: State, source: string, hash: InfoHash)
    requires OwnPending(s)
    ensures OwnPending(AddToSession(s, source, hash, true)) <==> GuardIsFor(s, source, hash)
  {
    var t := AddToSession(s, source, hash, true);
    assert hash in t.sources && t.sources[hash] == source;
    assert forall h | h in t.sources && h != hash :: h in s.sources && t.sources[h] == s.sources[h];
  }

  lemma SetGuardKeepsOwnIff(s: State, source: string, g: Guard, hash: InfoHash, accepted: bool)
    requires OwnPending(s) && g.hash == Some(hash)
    ensures OwnPending(AddToSession(SetGuard(s, source, g), source, hash, accepted)) <==> NoOtherPending(s, source, hash)
  {
    var t := AddToSession(SetGuard(s, source, g), source, hash, accepted);
    assert t.guarded[source] == g;
    forall h | h in s.sources && h != hash
      ensures h in t.sources && t.sources[h] == s.sources[h]
    {
    }
  }

  lemma EndGuardKeepsOwn(s: State, source: string, mark: Guard -> Guard)
    requires OwnPending(s)
    ensures OwnPending(EndGuard(s, source, mark))
  {
  }

  /** For each event the check says exactly whether the invariant is kept. */
  lemma NextKeepsOwnIff(s: State, e: Event)
    requires OwnPending(s)
    ensures OwnPending(Next(s, e)) <==> KeepsOwn(s, e)
  {
    hide OwnPending;
    hide NoOtherPending;
    hide GuardIsFor;
    match e
    case Add(source, kind, mode, duplicate, accepted) =>
      if source != "" {
        match kind {
          case Parsed(hash) => AcceptKeepsOwnIff(s, source, hash);
          case File(path, loads) =>
            var g, t := NewGuard(s.nextId, source, loads, path, mode), s.(nextId := s.nextId + 1);
            OnlyLogAndNumber(s, t.nextId, t.log + [Ended(g)]);
            if loads.Some? {
              OnlyLogAndNumber(s, t.nextId, t.log);
              SetGuardKeepsOwnIff(t, source, g, loads.value, !duplicate && accepted);
            }
          case _ =>
        }
      }
    case AddByDialog(source, kind, mode, duplicate) =>
      if source != "" && kind.File? {
        var g, t := NewGuard(s.nextId, source, kind.loads, kind.path, mode), s.(nextId := s.nextId + 1);
        OnlyLogAndNumber(s, t.nextId, t.log + [Ended(g)]);
        if kind.loads.Some? {
          OnlyLogAndNumber(s, t.nextId, t.log);
          SetGuardKeepsOwnIff(t, source, g, kind.loads.value, false);
        }
      }
    case DownloadFinished(source, loads, duplicate, accepted) =>
      if loads.Some? {
        AcceptKeepsOwnIff(s, source, loads.value);
      }
    case DialogAccepted(source, hash, doNotDelete, accepted) =>
      EndGuardKeepsOwn(s, source, Cancel);
      AcceptKeepsOwnIff(if doNotDelete then EndGuard(s, source, Cancel) else s, source, hash);
      ReleasedIsFor(s, source, hash);
    case DialogRejected(source) => EndGuardKeepsOwn(s, source, Unchanged);
    case SessionAdded(hash) => SignalKeepsOwn(s, hash);
    case SessionFailed(hash) => SignalKeepsOwn(s, hash);
  }

  lemma OnlyLogAndNumber(s: State, nextId: nat, log: seq<Entry>)
    ensures var t := s.(nextId := nextId, log := log);
            && (OwnPending(t) <==> OwnPending(s))
            && forall source, hash :: NoOtherPending(t, source, hash) <==> NoOtherPending(s, source, hash)
  {
  }

  lemma ReleasedIsFor(s: State, source: string, hash: InfoHash)
    ensures GuardIsFor(EndGuard(s, source, Cancel), source, hash)
  {
  }

  lemma SignalKeepsOwn(s: State, hash: InfoHash)
    requires OwnPending(s)
    ensures OwnPending(Added(s, hash)) && OwnPending(Failed(s, hash))
  {
  }

  /** Every deletion with `IfAdded` follows directly on the report for the torrent the file was made for. */
  ghost predicate OwnReports(log: seq<Entry>) {
    forall i | 0 <= i < |log| && log[i].Deleted? && log[i].guard.mode == IfAdded ::
      i > 0 && log[i - 1].ReportedAdded? && log[i].guard.hash == Some(log[i - 1].hash)
  }

  ghost predicate AllKeepOwn(s: State, events: seq<Event>)
    decreases |events|
  {
    events == [] || (KeepsOwn(s, events[0]) && AllKeepOwn(Next(s, events[0]), events[1..]))
  }

  lemma AppendKeepsOwnReports(log: seq<Entry>, e: Entry)
    requires OwnReports(log) && (e.Deleted? && e.guard.mode == IfAdded ==>
               log != [] && log[|log| - 1].ReportedAdded? && e.guard.hash == Some(log[|log| - 1].hash))
    ensures OwnReports(log + [e])
  {
    assert forall i | 0 <= i < |log| :: (log + [e])[i] == log[i];
  }

  /** While the invariant holds, no event deletes another torrent's file. */
  lemma NextKeepsOwnReports(s: State, e: Event)
    requires Safe(s) && OwnPending(s) && OwnReports(s.log)
    ensures OwnReports(Next(s, e).log)
  {
    hide OwnReports;
    hide OwnPending;
    assert s.log + [] == s.log;
    match e
    case Add(source, kind, mode, _, _) =>
      if source != "" && kind.File? {
        AppendKeepsOwnReports(s.log, Ended(NewGuard(s.nextId, source, kind.loads, kind.path, mode)));
        if source in s.guarded {
          AppendKeepsOwnReports(s.log, Ended(s.guarded[source]));
        }
      }
    case AddByDialog(source, kind, mode, _) =>
      if source != "" && kind.File? {
        AppendKeepsOwnReports(s.log, Ended(NewGuard(s.nextId, source, kind.loads, kind.path, mode)));
        if source in s.guarded {
          AppendKeepsOwnReports(s.log, Ended(s.guarded[source]));
        }
      }
    case DownloadFinished(_, _, _, _) =>
    case DialogAccepted(source, _, _, _) =>
      if source in s.guarded {
        AppendKeepsOwnReports(s.log, Ended(Cancel(s.guarded[source])));
      }
    case DialogRejected(source) =>
      if source in s.guarded {
        AppendKeepsOwnReports(s.log, Ended(s.guarded[source]));
      }
    case SessionAdded(hash) =>
      if hash in s.sources && s.sources[hash] != "" {
        ReportKeepsOwnReports(s, hash);
      }
    case SessionFailed(hash) =>
      if hash in s.sources && s.sources[hash] != "" {
        ReportKeepsOwnReports(s, hash);
      }
  }

  lemma ReportKeepsOwnReports(s: State, hash: InfoHash)
    requires Safe(s) && OwnPending(s) && OwnReports(s.log) && hash in s.sources && s.sources[hash] != ""
    ensures OwnReports(Added(s, hash).log) && OwnReports(Failed(s, hash).log)
  {
    hide OwnReports;
    var source := s.sources[hash];
    SignalStates(s, hash);
    AppendKeepsOwnReports(s.log, ReportedAdded(source, hash));
    AppendKeepsOwnReports(s.log, ReportedFailed(source, hash));
    if source in s.guarded {
      AppendKeepsOwnReports(s.log + [ReportedAdded(source, hash)], Ended(MarkAdded(s.guarded[source])));
      AppendKeepsOwnReports(s.log + [ReportedFailed(source, hash)], Ended(Cancel(s.guarded[source])));
    }
  }

  /** In a run whose events all pass the check, `IfAdded` deletes only files of torrents just reported. */
  lemma {:induction false} RunDeletesOwn(s: State, events: seq<Event>)
    requires Safe(s) && OwnPending(s) && OwnReports(s.log) && AllKeepOwn(s, events)
    ensures var t := Run(s, events); Safe(t) && OwnPending(t) && OwnReports(t.log)
    decreases |events|
  {
    hide Safe;
    hide OwnPending;
    hide OwnReports;
    hide Next;
    hide KeepsOwn;
    if events != [] {
      NextKeepsSafe(s, events[0]);
      NextKeepsOwnIff(s, events[0]);
      NextKeepsOwnReports(s, events[0]);
      RunDeletesOwn(Next(s, events[0]), events[1..]);
    }
  }

  /** Where the invariant is broken for a guard with a path, the next report can delete the other torrent's file; elsewhere none can. */
  lemma NextReportCanDeleteOtherIff(s: State)
    requires Safe(s)
    ensures (exists h :: |Next(s, SessionAdded(h)).log| > |s.log| && DeletesOther(Next(s, SessionAdded(h)).log, h)) <==>
            exists h :: h in s.sources && s.sources[h] != "" && s.sources[h] in s.guarded
                        && s.guarded[s.sources[h]].path != "" && s.guarded[s.sources[h]].hash != Some(h)
  {
    hide Next;
    forall h
      ensures (|Next(s, SessionAdded(h)).log| > |s.log| && DeletesOther(Next(s, SessionAdded(h)).log, h)) <==>
              h in s.sources && s.sources[h] != "" && s.sources[h] in s.guarded
              && s.guarded[s.sources[h]].path != "" && s.guarded[s.sources[h]].hash != Some(h)
    {
      ReportDeletesOtherIff(s, h);
    }
  }

  /**
   * A run that fails the check: when a file is added again with other contents, the report for the first
   * torrent deletes it while the second is pending.
   */
  lemma ReportForEarlierTorrentDeletes(source: string, path: Path, first: InfoHash, second: InfoHash)
    requires source != "" && path != "" && first != second
    ensures var events := [Add(source, File(path, Some(first)), IfAdded, false, true),
                           Add(source, File(path, Some(second)), IfAdded, false, true),
                           SessionAdded(first)];
            var s := Run(START, events);
            second in s.sources && |s.log| == 3 && s.log[2].Deleted? && s.log[2].guard.path == path
  {
    var e1 := Add(source, File(path, Some(first)), IfAdded, false, true);
    var e2 := Add(source, File(path, Some(second)), IfAdded, false, true);
    var e3 := SessionAdded(first);
    var events := [e1, e2, e3];
    assert events[1..] == [e2, e3] && [e2, e3][1..] == [e3] && [e3][1..] == [];
    var s1 := Next(START, e1);
    var s2 := Next(s1, e2);
    var s3 := Next(s2, e3);
    assert s2.guarded == map[source := NewGuard(1, source, Some(second), path, IfAdded)];
    assert s2.log == [Kept(NewGuard(0, source, Some(first), path, IfAdded))];
    assert Run(START, events) == Run(s1, [e2, e3]) == Run(s2, [e3]) == Run(s3, []);
  }
}
