/** The managers that add torrents, with their guards as objects whose flags are set and whose end acts on them. */
module AddTorrentManagers {
  import opened Options
  import opened Paths
  import opened TorrentFileGuards

  class TorrentFileGuard {
    const id: nat
    const source: string
    const hash: Option<InfoHash>
    const path: Path
    const mode: Mode
    var remove: bool
    var wasAdded: bool

    function Value(): Guard
      reads this
    {
      Guard(id, source, hash, path, mode, remove, wasAdded)
    }

    /** Number, source and info-hash only serve to tell guards apart. */
    constructor (id: nat, source: string, hash: Option<InfoHash>, path: Path, mode: Mode)
      ensures Value() == NewGuard(id, source, hash, path, mode)
      ensures this.path == (if mode == Never then "" else path) && remove && !wasAdded
    {
      this.id, this.source, this.hash, this.mode := id, source, hash, mode;
      this.path := if mode != Never then path else "";
      remove, wasAdded := true, false;
    }

    method MarkAsAddedToSession()
      modifies this`wasAdded
      ensures Value() == MarkAdded(old(Value()))
    {
      wasAdded := true;
    }

    method SetAutoRemove(remove: bool)
      modifies this`remove
      ensures this.remove == remove && Value() == old(Value()).(remove := remove)
    {
      this.remove := remove;
    }

    /** Both destructors, the derived one first; the result says whether the file was removed. */
    method Destroy() returns (end: Entry)
      modifies this`remove
      ensures end == Ended(old(Value()))
      ensures end.Deleted? <==> path != "" && old(remove) && (old(wasAdded) || mode == Always)
    {
      var guard := Guard(id, source, hash, path, mode, remove, wasAdded);
      if !wasAdded && mode != Always {
        SetAutoRemove(false);
      }
      if remove && path != "" {
        return Deleted(guard);
      }
      return Kept(guard);
    }
  }

  class AddTorrentManager {
    var sourcesByInfoHash: map<InfoHash, string>
    var guardedTorrentFiles: map<string, TorrentFileGuard>
    var log: seq<Entry>
    var nextId: nat

    /** No guard is kept for two sources. */
    ghost predicate Valid()
      reads this`guardedTorrentFiles
    {
      forall a, b | a in guardedTorrentFiles && b in guardedTorrentFiles && guardedTorrentFiles[a] == guardedTorrentFiles[b] :: a == b
    }

    ghost function Guards(): (guards: map<string, Guard>)
      reads this`guardedTorrentFiles, guardedTorrentFiles.Values
      ensures guards.Keys == guardedTorrentFiles.Keys
    {
      map source | source in guardedTorrentFiles :: guardedTorrentFiles[source].Value()
    }

    ghost function Value(): State
      reads this, guardedTorrentFiles.Values
    {
      State(sourcesByInfoHash, Guards(), log, nextId)
    }

    constructor ()
      ensures Valid() && Value() == START
    {
      sourcesByInfoHash, guardedTorrentFiles, log, nextId := map[], map[], [], 0;
    }

    /** Takes the guard of a source out of the map, if there is one. */
    method Take(source: string) returns (guard: TorrentFileGuard?)
      requires Valid()
      modifies this`guardedTorrentFiles
      ensures Valid() && guardedTorrentFiles == old(guardedTorrentFiles) - {source}
      ensures guard == if source in old(guardedTorrentFiles) then old(guardedTorrentFiles)[source] else null
      ensures guard !in guardedTorrentFiles.Values
      ensures Guards() == old(Guards()) - {source}
      ensures guard != null ==> guard in old(guardedTorrentFiles.Values) && guard.Value() == old(Guards())[source]
    {
      guard := null;
      if source in guardedTorrentFiles {
        guard := guardedTorrentFiles[source];
        guardedTorrentFiles := guardedTorrentFiles - {source};
      }
    }

    method Insert(source: string, guard: TorrentFileGuard)
      requires Valid() && source !in guardedTorrentFiles && guard !in guardedTorrentFiles.Values
      modifies this`guardedTorrentFiles
      ensures Valid() && guardedTorrentFiles == old(guardedTorrentFiles)[source := guard]
      ensures Guards() == old(Guards())[source := guard.Value()]
    {
      guardedTorrentFiles := guardedTorrentFiles[source := guard];
    }

    /** The last reference to a guard goes. */
    method End(guard: TorrentFileGuard?)
      requires guard !in guardedTorrentFiles.Values
      modifies this`log, guard
      ensures Guards() == old(Guards())
      ensures log == old(log) + if guard == null then [] else [Ended(old(guard.Value()))]
    {
      if guard != null {
        var end := guard.Destroy();
        log := log + [end];
      }
    }

    /** Takes the guard of a source out of the map and ends it as it is. */
    method Release(source: string)
      requires Valid()
      modifies this`guardedTorrentFiles, this`log, guardedTorrentFiles.Values
      ensures Valid() && guardedTorrentFiles == old(guardedTorrentFiles) - {source}
      ensures Guards() == old(Guards()) - {source}
      ensures log == old(log) + if source in old(guardedTorrentFiles) then [Ended(old(Guards())[source])] else []
    {
      hide Ended;
      hide Guards;
      var guard := Take(source);
      End(guard);
    }

    method SetTorrentFileGuard(source: string, guard: TorrentFileGuard)
      requires Valid() && guard !in guardedTorrentFiles.Values
      modifies this`guardedTorrentFiles, this`log, guardedTorrentFiles.Values
      ensures Valid() && guardedTorrentFiles == old(guardedTorrentFiles)[source := guard]
      ensures Value() == SetGuard(old(Value()), source, guard.Value()) && guard.Value() == old(guard.Value())
    {
      hide Ended;
      hide Guards;
      ghost var before, value := Guards(), guard.Value();
      Release(source);
      Insert(source, guard);
      assert (before - {source})[source := value] == before[source := value];
    }

    method AddTorrentToSession(source: string, hash: InfoHash, accepted: bool) returns (result: bool)
      requires Valid()
      modifies this`sourcesByInfoHash
      ensures Valid() && result == accepted
      ensures Value() == AddToSession(old(Value()), source, hash, accepted)
    {
      result := accepted;
      if result {
        sourcesByInfoHash := sourcesByInfoHash[hash := source];
      }
    }

    method ProcessTorrent(source: string, hash: InfoHash, duplicate: bool, accepted: bool) returns (result: bool)
      requires Valid()
      modifies this`sourcesByInfoHash
      ensures Valid() && result == (!duplicate && accepted)
      ensures Value() == TorrentFileGuards.ProcessTorrent(old(Value()), source, hash, duplicate, accepted)
    {
      if duplicate {
        return false;
      }
      result := AddTorrentToSession(source, hash, accepted);
    }

    /** `addTorrent` of the manager without dialogs. */
    method AddTorrent(source: string, kind: Kind, mode: Mode, duplicate: bool, accepted: bool) returns (result: bool)
      requires Valid()
      modifies this, guardedTorrentFiles.Values
      ensures Valid()
      ensures Value() == Next(old(Value()), Add(source, kind, mode, duplicate, accepted))
      ensures result <==> source != "" && (kind.Url? || ((kind.Parsed? || (kind.File? && kind.loads.Some?)) && !duplicate && accepted))
    {
      hide Ended;
      hide Guards;
      if source == "" {
        return false;
      }
      match kind {
        case Url => return true;
        case Parsed(hash) => result := ProcessTorrent(source, hash, duplicate, accepted);
        case BadMagnet => return false;
        case File(path, loads) =>
          ghost var before := Value();
          var guard := new TorrentFileGuard(nextId, source, loads, path, mode);
          nextId := nextId + 1;
          assert Value() == before.(nextId := before.nextId + 1);
          if loads.Some? {
            SetTorrentFileGuard(source, guard);
            result := ProcessTorrent(source, loads.value, duplicate, accepted);
          } else {
            End(guard);
            result := false;
          }
      }
    }

    /** `addTorrent` of the manager with dialogs, when it shows one. */
    method AddTorrentByDialog(source: string, kind: Kind, mode: Mode, duplicate: bool) returns (result: bool)
      requires Valid()
      modifies this, guardedTorrentFiles.Values
      ensures Valid()
      ensures Value() == Next(old(Value()), AddByDialog(source, kind, mode, duplicate))
      ensures result <==> source != "" && (kind.Url? || ((kind.Parsed? || (kind.File? && kind.loads.Some?)) && !duplicate))
    {
      hide Ended;
      hide Guards;
      if source == "" {
        return false;
      }
      match kind {
        case Url => return true;
        case Parsed(hash) => return !duplicate;
        case BadMagnet => return false;
        case File(path, loads) =>
          ghost var before := Value();
          var guard := new TorrentFileGuard(nextId, source, loads, path, mode);
          nextId := nextId + 1;
          assert Value() == before.(nextId := before.nextId + 1);
          result := loads.Some? && !duplicate;
          if result {
            SetTorrentFileGuard(source, guard);
          } else {
            End(guard);
          }
      }
    }

    method OnDialogAccepted(source: string, hash: InfoHash, doNotDelete: bool, accepted: bool)
      requires Valid()
      modifies this, guardedTorrentFiles.Values
      ensures Valid()
      ensures Value() == Next(old(Value()), DialogAccepted(source, hash, doNotDelete, accepted))
    {
      hide Ended;
      hide Guards;
      if doNotDelete {
        var guard := Take(source);
        if guard != null {
          guard.SetAutoRemove(false);
        }
        End(guard);
      }
      var result := AddTorrentToSession(source, hash, accepted);
    }

    method OnDialogRejected(source: string)
      requires Valid()
      modifies this, guardedTorrentFiles.Values
      ensures Valid()
      ensures Value() == Next(old(Value()), DialogRejected(source))
    {
      hide Ended;
      hide Guards;
      Release(source);
    }

    method TakeSource(hash: InfoHash) returns (source: string)
      modifies this`sourcesByInfoHash
      ensures source == if hash in old(sourcesByInfoHash) then old(sourcesByInfoHash)[hash] else ""
      ensures sourcesByInfoHash == old(sourcesByInfoHash) - {hash}
    {
      source := if hash in sourcesByInfoHash then sourcesByInfoHash[hash] else "";
      sourcesByInfoHash := sourcesByInfoHash - {hash};
    }

    method OnSessionTorrentAdded(hash: InfoHash)
      requires Valid()
      modifies this, guardedTorrentFiles.Values
      ensures Valid()
      ensures Value() == Added(old(Value()), hash)
    {
      hide Ended;
      hide Guards;
      if hash in sourcesByInfoHash && sourcesByInfoHash[hash] != "" {
        SignalStates(Value(), hash);
      }
      var source := TakeSource(hash);
      if source != "" {
        FinishAdded(source, hash);
      }
    }

    method FinishAdded(source: string, hash: InfoHash)
      requires Valid()
      modifies this`guardedTorrentFiles, this`log, guardedTorrentFiles.Values
      ensures Valid()
      ensures Guards() == old(Guards()) - {source}
      ensures log == old(log) + [ReportedAdded(source, hash)] + if source in old(guardedTorrentFiles) then [Ended(MarkAdded(old(Guards())[source]))] else []
    {
      hide Ended;
      hide Guards;
      var guard := Take(source);
      if guard != null {
        guard.MarkAsAddedToSession();
      }
      log := log + [ReportedAdded(source, hash)];
      End(guard);
    }

    method OnSessionAddTorrentFailed(hash: InfoHash)
      requires Valid()
      modifies this, guardedTorrentFiles.Values
      ensures Valid()
      ensures Value() == Failed(old(Value()), hash)
    {
      hide Ended;
      hide Guards;
      if hash in sourcesByInfoHash && sourcesByInfoHash[hash] != "" {
        SignalStates(Value(), hash);
      }
      var source := TakeSource(hash);
      if source != "" {
        FinishFailed(source, hash);
      }
    }

    method FinishFailed(source: string, hash: InfoHash)
      requires Valid()
      modifies this`guardedTorrentFiles, this`log, guardedTorrentFiles.Values
      ensures Valid()
      ensures Guards() == old(Guards()) - {source}
      ensures log == old(log) + [ReportedFailed(source, hash)] + if source in old(guardedTorrentFiles) then [Ended(Cancel(old(Guards())[source]))] else []
    {
      hide Ended;
      hide Guards;
      var guard := Take(source);
      if guard != null {
        guard.SetAutoRemove(false);
      }
      log := log + [ReportedFailed(source, hash)];
      End(guard);
    }
  }
}
