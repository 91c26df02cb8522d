/** The in-memory settings with their dirty flag and save timer, and values cached in front of them. */
module Settings {
  import opened Options
  import opened SettingsDisk

  /** QHash::value on the settings, for a key that may be absent. */
  function Lookup(data: Snapshot, key: string): Option<Variant> {
    if key in data then Some(data[key]) else None
  }

  class SettingsStorage {
    var disk: Disk
    var data: Snapshot
    var dirty: bool
    var timerActive: bool
    /** The disk after every atomic step so far. */
    ghost var trace: seq<Disk>

    /** Unsaved changes wait for the timer; without any, the disk holds the valid entries. */
    ghost predicate Valid()
      reads this
    {
      && (dirty ==> timerActive)
      && (!dirty ==> Loaded(disk) == ValidPart(data))
    }

    /** `readNativeSettings`; `fault` concerns the removal or the renaming, whose results are not looked at. */
    constructor (disk: Disk, fault: Fault)
      ensures Valid() && !dirty
      ensures data == Loaded(disk)
      ensures trace == RecoverStates(disk, fault) && this.disk == Last(trace)
    {
      var d := disk;
      ghost var states := [d];
      if Entries(disk.newFile) != map[] {
        data := ValidPart(Entries(disk.newFile));
        d := RemoveFinal(d, fault);
        states := states + [d];
        d := Rename(d, fault);
        states := states + [d];
      } else {
        data := ValidPart(Entries(disk.finalFile));
      }
      this.disk, trace := d, states;
      dirty, timerActive := false, false;
      CrashInRecovery(disk, fault, |states| - 1);
      ValidPartIdempotent(Entries(disk.newFile));
      ValidPartIdempotent(Entries(disk.finalFile));
    }

    method LoadValue(key: string, defaultValue: Variant) returns (value: Variant)
      ensures value == Lookup(data, key).GetOr(defaultValue)
      ensures value == if key in data then data[key] else defaultValue
    {
      value := if key in data then data[key] else defaultValue;
    }

    /** Looking the key up inserts an invalid value for it before the comparison. */
    method StoreValue(key: string, value: Variant)
      requires Valid()
      modifies this`data, this`dirty, this`timerActive
      ensures Valid()
      ensures data == old(data)[key := value]
      ensures dirty <==> old(dirty) || Lookup(old(data), key).GetOr(Invalid) != value
    {
      ghost var before := data;
      if key !in data {
        data := data[key := Invalid];
      }
      assert ValidPart(data) == ValidPart(before);
      if data[key] != value {
        dirty := true;
        data := data[key := value];
        timerActive := true;
      }
    }

    method RemoveValue(key: string)
      requires Valid()
      modifies this`data, this`dirty, this`timerActive
      ensures Valid()
      ensures data == old(data) - {key}
      ensures dirty <==> old(dirty) || key in old(data)
    {
      if key in data {
        data := data - {key};
        dirty := true;
        timerActive := true;
      }
    }

    /** `writeNativeSettings`, one atomic disk step after the other. */
    method WriteNativeSettings(fault: Fault) returns (ok: bool)
      modifies this`disk, this`trace
      ensures disk == Written(old(disk), data, fault)
      ensures trace == old(trace) + WriteStates(old(disk), data, fault)[1..]
      ensures ok == WriteSucceeds(old(disk), data, fault)
    {
      ghost var start := trace;
      disk := Sync(disk, data, fault);
      trace := trace + [disk];
      if fault == SyncFails {
        disk := RemoveNew(disk);
        trace := trace + [disk];
        assert trace == start + [trace[|start|], disk];
        return false;
      }
      disk := RemoveFinal(disk, fault);
      trace := trace + [disk];
      ok := CanRename(disk, fault);
      disk := Rename(disk, fault);
      trace := trace + [disk];
      assert trace == start + [trace[|start|], trace[|start| + 1], disk];
    }

    /**
     * True only when something changed and was saved. Afterwards disk and memory agree unless stale
     * keys of a leftover file went into the save.
     */
    method Save(fault: Fault) returns (saved: bool)
      requires dirty || Loaded(disk) == ValidPart(data)
      modifies this`disk, this`trace, this`dirty, this`timerActive
      ensures saved == (old(dirty) && WriteSucceeds(old(disk), data, fault))
      ensures dirty == (old(dirty) && !saved)
      ensures dirty ==> timerActive
      ensures old(dirty) ==> disk == Written(old(disk), data, fault) && trace == old(trace) + WriteStates(old(disk), data, fault)[1..]
      ensures !old(dirty) ==> disk == old(disk) && trace == old(trace)
      ensures NoLeftover(old(disk)) ==> Valid()
      ensures NoLeftover(old(disk)) && RenameSafe(fault) ==> NoLeftover(disk)
    {
      if !dirty {
        return false;
      }
      saved := WriteNativeSettings(fault);
      if NoLeftover(old(disk)) {
        SaveWithoutLeftover(old(disk), data, fault);
      }
      if !saved {
        timerActive := true;
        return false;
      }
      dirty := false;
    }

    /** The single-shot timer goes off. */
    method OnTimer(fault: Fault)
      requires Valid() && timerActive
      modifies this`disk, this`trace, this`dirty, this`timerActive
      ensures NoLeftover(old(disk)) ==> Valid()
      ensures dirty ==> timerActive
      ensures NoLeftover(old(disk)) && RenameSafe(fault) ==> NoLeftover(disk)
      ensures old(dirty) && NoLeftover(old(disk)) && fault == NoFault && data != map[] ==> !dirty && Loaded(disk) == ValidPart(data)
    {
      timerActive := false;
      var saved := Save(fault);
    }
  }

  lemma ValidPartIdempotent(s: Snapshot)
    ensures ValidPart(ValidPart(s)) == ValidPart(s)
  {
  }

  lemma SaveWithoutLeftover(d: Disk, data: Snapshot, fault: Fault)
    requires NoLeftover(d)
    ensures WriteSucceeds(d, data, fault) ==> Loaded(Written(d, data, fault)) == ValidPart(data)
    ensures RenameSafe(fault) ==> NoLeftover(Written(d, data, fault))
    ensures fault == NoFault && data != map[] ==> WriteSucceeds(d, data, fault)
  {
    assert map[] + data == data;
  }

  // ----- Cached values -----

  /** How values of a type are stored and loaded; `decode` gets the stored variant, if any, and the default. */
  datatype Codec<!T> = Codec(encode: T -> Variant, decode: (Option<Variant>, T) -> T)

  /** Storing a value and loading it gives the value, whatever the default. */
  ghost predicate Lossless<T(!new)>(c: Codec<T>) {
    forall v: T, d: T :: c.decode(Some(c.encode(v)), d) == v
  }

  /** A setting that keeps its value at hand and passes changes on to the storage. */
  class CachedSettingValue<T(==, !new)> {
    const storage: SettingsStorage
    const key: string
    const defaultValue: T
    const codec: Codec<T>
    var cache: T

    /** The cache holds what loading the setting afresh gives. */
    ghost predicate Coherent()
      reads this, storage
    {
      cache == codec.decode(Lookup(storage.data, key), defaultValue)
    }

    constructor (storage: SettingsStorage, key: string, defaultValue: T, codec: Codec<T>)
      ensures this.storage == storage && this.key == key && this.defaultValue == defaultValue && this.codec == codec
      ensures Coherent()
    {
      this.storage := storage;
      this.key := key;
      this.defaultValue := defaultValue;
      this.codec := codec;
      cache := codec.decode(Lookup(storage.data, key), defaultValue);
    }

    /** An equal value is not written through. */
    method Assign(value: T)
      requires storage.Valid()
      modifies this`cache, storage`data, storage`dirty, storage`timerActive
      ensures storage.Valid() && cache == value
      ensures old(Coherent()) && Lossless(codec) ==> Coherent()
      ensures storage.data == if old(cache) == value then old(storage.data) else old(storage.data)[key := codec.encode(value)]
    {
      if cache == value {
        return;
      }
      storage.StoreValue(key, codec.encode(value));
      cache := value;
    }
  }

  /** What happens to the settings while a cached value is in use: its own assignments, and changes to other keys. */
  datatype Access<T> = Assigned(value: T) | Stored(other: string, variant: Variant) | Removed(other: string)

  datatype CacheState<T> = CacheState(data: Snapshot, cache: T)

  function AccessStep<T(==)>(s: CacheState<T>, key: string, codec: Codec<T>, a: Access<T>): CacheState<T> {
    match a
    case Assigned(value) =>
      if s.cache == value then s else CacheState(s.data[key := codec.encode(value)], value)
    case Stored(other, variant) => s.(data := s.data[other := variant])
    case Removed(other) => s.(data := s.data - {other})
  }

  function AccessRun<T(==)>(s: CacheState<T>, key: string, codec: Codec<T>, run: seq<Access<T>>): CacheState<T>
    decreases |run|
  {
    if run == [] then s else AccessRun(AccessStep(s, key, codec, run[0]), key, codec, run[1..])
  }

  /** Nobody but the cached value writes its key. */
  ghost predicate OnlyWriter<T(!new)>(key: string, run: seq<Access<T>>) {
    forall i | 0 <= i < |run| && !run[i].Assigned? :: run[i].other != key
  }

  /** A cached value that is its key's only writer always equals a fresh load. */
  lemma {:induction false} CacheEqualsFreshLoad<T(!new)>(s: CacheState<T>, key: string, defaultValue: T, codec: Codec<T>, run: seq<Access<T>>)
    requires Lossless(codec) && OnlyWriter(key, run)
    requires s.cache == codec.decode(Lookup(s.data, key), defaultValue)
    ensures var end := AccessRun(s, key, codec, run); end.cache == codec.decode(Lookup(end.data, key), defaultValue)
    decreases |run|
  {
    if run != [] {
      assert forall i | 0 <= i < |run| - 1 :: run[1..][i] == run[i + 1];
      CacheEqualsFreshLoad(AccessStep(s, key, codec, run[0]), key, defaultValue, codec, run[1..]);
    }
  }
}
