/**
 * The two settings files and the atomic disk steps by which settings are saved and recovered.
 *
 * "qBittorrent_new" is written first and then put in the place of "qBittorrent"; a program that finds
 * the former at its start takes it for the most recent settings.
 */
module SettingsDisk {
  import opened Options

  /** A stored value; the invalid one is what an unset QVariant writes. */
  datatype Variant = Invalid | Value(text: string)

  type Snapshot = map<string, Variant>

  datatype Disk = Disk(newFile: Option<Snapshot>, finalFile: Option<Snapshot>)

  function Entries(file: Option<Snapshot>): Snapshot {
    file.GetOr(map[])
  }

  /** Reading skips invalid values. */
  function ValidPart(s: Snapshot): Snapshot {
    map k | k in s && s[k] != Invalid :: s[k]
  }

  /** What a start of the program loads: the new file if it holds any key, otherwise the final one. */
  function Loaded(d: Disk): Snapshot {
    if Entries(d.newFile) != map[] then ValidPart(Entries(d.newFile)) else ValidPart(Entries(d.finalFile))
  }

  /** What can go wrong in one save: writing the new file, removing the final one, renaming. */
  datatype Fault = NoFault | SyncFails | RemoveFails | RenameFails

  // ----- Atomic steps -----

  /** Writing adds the entries to what the new file holds; with no entry to write nothing is touched. */
  function Sync(d: Disk, data: Snapshot, fault: Fault): Disk {
    if data == map[] || fault == SyncFails then d else d.(newFile := Some(Entries(d.newFile) + data))
  }

  function RemoveNew(d: Disk): Disk {
    d.(newFile := None)
  }

  function RemoveFinal(d: Disk, fault: Fault): Disk {
    if fault == RemoveFails then d else d.(finalFile := None)
  }

  /** Renaming needs a source and no target in its way. */
  predicate CanRename(d: Disk, fault: Fault) {
    fault != RenameFails && d.newFile.Some? && d.finalFile.None?
  }

  function Rename(d: Disk, fault: Fault): Disk {
    if CanRename(d, fault) then Disk(None, d.newFile) else d
  }

  /** The disk before `writeNativeSettings` and after each of its steps. */
  function WriteStates(d: Disk, data: Snapshot, fault: Fault): (states: seq<Disk>)
    ensures |states| >= 1 && states[0] == d
  {
    var synced := Sync(d, data, fault);
    if fault == SyncFails then [d, synced, RemoveNew(synced)]
    else
      var removed := RemoveFinal(synced, fault);
      [d, synced, removed, Rename(removed, fault)]
  }

  predicate WriteSucceeds(d: Disk, data: Snapshot, fault: Fault) {
    fault != SyncFails && CanRename(RemoveFinal(Sync(d, data, fault), fault), fault)
  }

  /** The disk before `readNativeSettings` and after each of its steps. */
  function RecoverStates(d: Disk, fault: Fault): (states: seq<Disk>)
    ensures |states| >= 1 && states[0] == d
  {
    if Entries(d.newFile) == map[] then [d]
    else
      var removed := RemoveFinal(d, fault);
      [d, removed, Rename(removed, fault)]
  }

  function Last(states: seq<Disk>): Disk
    requires states != []
  {
    states[|states| - 1]
  }

  /** The disk a write ends with. */
  function Written(d: Disk, data: Snapshot, fault: Fault): Disk {
    Last(WriteStates(d, data, fault))
  }

  predicate NoLeftover(d: Disk) {
    d.newFile == None
  }

  predicate RenameSafe(fault: Fault) {
    fault in {NoFault, SyncFails}
  }

  // ----- One save, one recovery -----

  /** Wherever a save is cut short, the next start loads the settings of before or those being written. */
  lemma CrashInWrite(d: Disk, data: Snapshot, fault: Fault, k: nat)
    requires NoLeftover(d) && RenameSafe(fault) && k < |WriteStates(d, data, fault)|
    ensures Loaded(WriteStates(d, data, fault)[k]) in {Loaded(d), ValidPart(data)}
    ensures k == |WriteStates(d, data, fault)| - 1 ==>
            && NoLeftover(WriteStates(d, data, fault)[k])
            && Loaded(WriteStates(d, data, fault)[k]) == if fault == NoFault then ValidPart(data) else Loaded(d)
  {
    if data != map[] {
      assert map[] + data == data;
    } else {
      assert ValidPart(data) == map[];
      assert ValidPart(map[]) == map[];
    }
  }

  /** Wherever a recovery is cut short, and whatever fails in it, the next start loads the same. */
  lemma CrashInRecovery(d: Disk, fault: Fault, k: nat)
    requires k < |RecoverStates(d, fault)|
    ensures Loaded(RecoverStates(d, fault)[k]) == Loaded(d)
    ensures RenameSafe(fault) && d.newFile != Some(map[]) ==> NoLeftover(Last(RecoverStates(d, fault)))
  {
  }

  // ----- The boundary: leftovers -----

  /** A save that goes through over a leftover writes exactly the data iff the leftover has no valid key of its own. */
  lemma StaleKeysIff(d: Disk, data: Snapshot)
    ensures Loaded(Written(d, data, NoFault)) == ValidPart(data) <==>
            forall k | k in Entries(d.newFile) && k !in data :: Entries(d.newFile)[k] == Invalid
  {
    var leftover, all := Entries(d.newFile), Entries(d.newFile) + data;
    assert Loaded(Written(d, data, NoFault)) == ValidPart(all);
    if ValidPart(all) == ValidPart(data) {
      forall k | k in leftover && k !in data
        ensures leftover[k] == Invalid
      {
        assert k in all && all[k] == leftover[k];
        assert k !in ValidPart(data);
      }
    }
  }

  /** A save whose writing fails keeps the loaded settings iff a leftover holds nothing else than the final file. */
  lemma FailedSyncIff(d: Disk, data: Snapshot)
    ensures Loaded(Written(d, data, SyncFails)) == Loaded(d) <==>
            Entries(d.newFile) == map[] || ValidPart(Entries(d.newFile)) == ValidPart(Entries(d.finalFile))
  {
  }

  /** Two faults lose everything: a rename that fails leaves the new file alone, and a failing write then removes it. */
  lemma RenameThenSyncFaultLosesAll(d: Disk, data: Snapshot, again: Snapshot)
    requires NoLeftover(d) && data != map[]
    ensures var after := Written(Written(d, data, RenameFails), again, SyncFails);
            Loaded(after) == map[] && after == Disk(None, None)
  {
    assert ValidPart(map[]) == map[];
  }

  /** One failing rename is enough for a removed setting to come back with the next save. */
  lemma RenameFaultRevivesKey(d: Disk, data: Snapshot, key: string)
    requires NoLeftover(d) && key in data && data[key] != Invalid
    ensures var after := Written(Written(d, data, RenameFails), data - {key}, NoFault);
            && WriteSucceeds(Written(d, data, RenameFails), data - {key}, NoFault)
            && key in Loaded(after) && Loaded(after)[key] == data[key]
  {
    var once := Written(d, data, RenameFails);
    assert map[] + data == data;
    assert once == Disk(Some(data), None);
    assert data + (data - {key}) == data;
  }

  /** When the old file cannot be removed the save reports failure; both files stay, and the next start finds the new settings. */
  lemma RemoveFaultKeepsBoth(d: Disk, data: Snapshot)
    requires NoLeftover(d) && d.finalFile.Some? && data != map[]
    ensures !WriteSucceeds(d, data, RemoveFails)
    ensures Written(d, data, RemoveFails) == Disk(Some(data), d.finalFile)
    ensures Loaded(Written(d, data, RemoveFails)) == ValidPart(data)
  {
    assert map[] + data == data;
  }

  /** With no setting left a save never reports success: there is no new file to rename. */
  lemma EmptySettingsNeverSaved(d: Disk, fault: Fault)
    requires NoLeftover(d)
    ensures !WriteSucceeds(d, map[], fault)
    ensures RenameSafe(fault) && fault != SyncFails ==> Loaded(Written(d, map[], fault)) == map[]
  {
    assert ValidPart(map[]) == map[];
  }

  // ----- Whole runs with crashes -----

  /**
   * A machine on which the program starts, changes settings, saves them and may be cut short after any
   * disk step. `saved` is the last snapshot saved completely, `pending` the one whose save was cut short.
   */
  datatype Machine = Machine(disk: Disk, running: bool, data: Snapshot, saved: Snapshot, pending: Option<Snapshot>)

  datatype Event =
    | Boot(steps: nat)                 // start; cut short when fewer steps are given than recovery has
    | Change(data: Snapshot)           // any changes to the settings in memory
    | Save(fault: Fault, steps: nat)   // save; cut short likewise
    | Crash

  function Next(m: Machine, e: Event): Machine {
    match e
    case Boot(steps) =>
      if m.running then m
      else
        var states := RecoverStates(m.disk, NoFault);
        if steps < |states| - 1 then m.(disk := states[steps])
        else Machine(Last(states), true, Loaded(m.disk), Loaded(m.disk), None)
    case Change(data) => if m.running then m.(data := data) else m
    case Save(fault, steps) =>
      if !m.running then m
      else
        var states := WriteStates(m.disk, m.data, fault);
        if steps < |states| - 1 then Machine(states[steps], false, m.data, m.saved, Some(ValidPart(m.data)))
        else m.(disk := Last(states), saved := if fault == NoFault then ValidPart(m.data) else m.saved)
    case Crash => m.(running := false)
  }

  function Run(m: Machine, events: seq<Event>): Machine
    decreases |events|
  {
    if events == [] then m else Run(Next(m, events[0]), events[1..])
  }

  /** The next start finds the last complete snapshot or the one being written. */
  ghost predicate CrashSafe(m: Machine) {
    && Loaded(m.disk) in {m.saved} + (match m.pending { case None => {} case Some(s) => {s} })
    && m.disk.newFile != Some(map[])
    && (m.running ==> NoLeftover(m.disk) && Loaded(m.disk) == m.saved && m.pending == None)
  }

  ghost predicate NoRenameFault(events: seq<Event>) {
    forall i | 0 <= i < |events| && events[i].Save? :: RenameSafe(events[i].fault)
  }

  lemma NextKeepsCrashSafe(m: Machine, e: Event)
    requires CrashSafe(m) && (e.Save? ==> RenameSafe(e.fault))
    ensures CrashSafe(Next(m, e))
  {
    match e
    case Boot(steps) =>
      if !m.running {
        var states := RecoverStates(m.disk, NoFault);
        CrashInRecovery(m.disk, NoFault, if steps < |states| then steps else |states| - 1);
        CrashInRecovery(m.disk, NoFault, |states| - 1);
      }
    case Save(fault, steps) =>
      if m.running {
        var states := WriteStates(m.disk, m.data, fault);
        CrashInWrite(m.disk, m.data, fault, if steps < |states| then steps else |states| - 1);
        CrashInWrite(m.disk, m.data, fault, |states| - 1);
      }
    case Change(data) =>
    case Crash =>
  }

  ghost predicate OnlyBootsAndCrashes(events: seq<Event>) {
    forall i | 0 <= i < |events| :: events[i].Boot? || events[i].Crash?
  }

  /** What has been saved completely is what every later start loads, however often starting is cut short. */
  lemma SavedIsLoaded(m: Machine, steps: nat, events: seq<Event>, enough: nat)
    requires CrashSafe(m) && m.running && steps >= 3 && OnlyBootsAndCrashes(events) && enough >= 2
    ensures var after := Run(Next(m, Save(NoFault, steps)), events);
            var started := Next(Next(after, Crash), Boot(enough));
            && Loaded(after.disk) == ValidPart(m.data)
            && started.running && started.data == ValidPart(m.data)
  {
    CrashInWrite(m.disk, m.data, NoFault, |WriteStates(m.disk, m.data, NoFault)| - 1);
    var saved := Next(m, Save(NoFault, steps));
    assert Loaded(saved.disk) == ValidPart(m.data);
    RunKeepsLoaded(saved, events);
    var after := Run(saved, events);
    CrashInRecovery(after.disk, NoFault, |RecoverStates(after.disk, NoFault)| - 1);
  }

  lemma {:induction false} RunKeepsLoaded(m: Machine, events: seq<Event>)
    requires OnlyBootsAndCrashes(events)
    ensures Loaded(Run(m, events).disk) == Loaded(m.disk)
    decreases |events|
  {
    if events != [] {
      BootKeepsLoaded(m, events[0]);
      assert forall i | 0 <= i < |events| - 1 :: events[1..][i] == events[i + 1];
      RunKeepsLoaded(Next(m, events[0]), events[1..]);
    }
  }

  lemma BootKeepsLoaded(m: Machine, e: Event)
    requires e.Boot? || e.Crash?
    ensures Loaded(Next(m, e).disk) == Loaded(m.disk)
  {
    if e.Boot? && !m.running {
      var states := RecoverStates(m.disk, NoFault);
      CrashInRecovery(m.disk, NoFault, if e.steps < |states| then e.steps else |states| - 1);
      CrashInRecovery(m.disk, NoFault, |states| - 1);
    }
  }

  /** Crash safety: over every run with crashes anywhere, as long as no rename fails. */
  lemma {:induction false} RunIsCrashSafe(m: Machine, events: seq<Event>)
    requires CrashSafe(m) && NoRenameFault(events)
    ensures CrashSafe(Run(m, events))
    decreases |events|
  {
    if events != [] {
      NextKeepsCrashSafe(m, events[0]);
      assert forall i | 0 <= i < |events| - 1 :: events[1..][i] == events[i + 1];
      RunIsCrashSafe(Next(m, events[0]), events[1..]);
    }
  }
}
