/**
 `ImportDB` and `restoreDatabaseBackup` (database/backup.go:218-312, 368-379): the live database is moved aside, the
 uploaded one takes its place and is migrated and opened, and on any error the old one is moved back. Which steps
 fail, and what migrating and opening write, is given beforehand.
 */
module ImportDatabase {
  import opened ImportFiles
  import opened Wrappers

  /** Errors before anything but the temporary file is touched. */
  datatype Problem = Format | NotSQLite | Seek | CreateTemp | Secure | Copy | Sync | CloseTemp | Check

  datatype Restored = Back | NotRenamed | NotReopened

  datatype ImportError =
    | Preparing(problem: Problem)
    | OldFallback
    | OldFallbackSidecars
    | Checkpointing
    | Closing
    | Sidecars
    | MovingAside
    | MovingIn(restored: Restored)
    | Migrating(restored: Restored)
    | Opening(restored: Restored)
    | Restarting

  datatype RestoreFaults = RestoreFaults(close: bool, main: bool, log: bool, index: bool, rename: bool, reopen: Init)

  datatype Faults = Faults(
    prepare: Option<Problem>, oldFallback: bool, oldFallbackLog: bool, oldFallbackIndex: bool, checkpoint: bool,
    close: bool, log: bool, index: bool, reopen: Init, moveAside: bool, moveIn: bool, migrate: bool,
    migrated: seq<string>, migratedLog: seq<string>, open: Init, restore: RestoreFaults, fallback: bool,
    fallbackLog: bool, cleanTemp: bool, restart: bool)

  predicate Prepared(x: Faults) {
    x.prepare.None? && !x.oldFallback && !x.oldFallbackLog && !x.oldFallbackIndex
  }

  /** The live database is closed and its log removed. */
  predicate Detached(x: Faults, handle: Handle) {
    (handle == NoHandle || (handle == Open && !x.checkpoint && !x.close)) && !x.log
  }

  /** Without a handle there is no checkpoint, and the changes in the log go with the log. */
  predicate LosesLog(x: Faults, f: Files, handle: Handle) {
    handle == NoHandle && f.live.log.changes != [] && !x.log
  }

  /** The live database has been moved to the fallback path. */
  predicate MovedAside(x: Faults, handle: Handle) {
    Detached(x, handle) && !x.index && !x.moveAside
  }

  predicate Restores(x: Faults) {
    x.moveIn || x.migrate || x.open.fails
  }

  /** What the uploaded database has in its log when the old one is to be moved back. */
  function LogLeft(x: Faults): seq<string> {
    if x.moveIn then []
    else if x.migrate || !x.open.late then x.migratedLog
    else if x.restore.close then x.migratedLog + x.open.changes
    else []
  }

  /** The old main file is moved back beside the log of the uploaded database. */
  predicate LeavesForeignLog(x: Faults) {
    Restores(x) && LogLeft(x) != [] && x.restore.log && !x.restore.rename
  }

  /** The database stands here in its main file alone. */
  ghost predicate Alone(s: Slot, id: nat, previous: seq<string>) {
    s.main.Some? && s.main.value.id == id && previous <= s.main.value.changes && s.log.changes == []
  }

  /** Whatever stands here, it is another database with its own log. */
  ghost predicate NothingOf(s: Slot, id: nat) {
    (s.main.Some? ==> s.main.value.id != id) && (s.log.changes != [] ==> LogFits(s))
  }

  /** A migration may rewrite the database and leave a log of its own. */
  function Migrated(s: Slot, changes: seq<string>, log: seq<string>): Slot
    requires s.main.Some?
  {
    Slot(Some(Main(s.main.value.id, changes)), Log(s.main.value.id, log))
  }

  class Importer {
    const disk: Disk

    constructor (disk: Disk)
      ensures this.disk == disk
    {
      this.disk := disk;
    }

    method MigrateDb(fails: bool, changes: seq<string>, log: seq<string>) returns (ok: bool)
      requires disk.files.live.main.Some?
      modifies disk`files, disk`history
      ensures ok == !fails
      ensures disk.Stepped(old(disk.files).(live := Migrated(old(disk.files).live, changes, log)))
    {
      ok := !fails;
      disk.Step(disk.files.(live := Migrated(disk.files.live, changes, log)));
    }

    /** Closes and removes the database at the live path as far as that works. */
    method DropLive(x: RestoreFaults, ghost id: nat, ghost kept: seq<string>)
      requires !disk.imported && Alone(disk.files.fallback, id, kept) && NothingOf(disk.files.live, id)
      modifies disk
      ensures !disk.imported && old(disk.history) <= disk.history && disk.SafeSince(|old(disk.history)|, id, kept)
      ensures disk.files.fallback == old(disk.files).fallback
      ensures disk.files.live.main.Some? ==> disk.files.live.main.value.id != id
      ensures
        var clean := old(disk.files).live.log.changes == [] || (old(disk.handle) == Open && !x.close) || !x.log;
        if clean then disk.files.live.log.changes == [] else disk.files.live.log.changes != [] && disk.files.live.log.of != id
    {
      var closed := disk.Close(x.close);
      disk.RemoveMain(Live, x.main);
      var removed := disk.RemoveSidecars(Live, x.log, x.index);
    }

    /** `restoreDatabaseBackup`: errors before the rename are ignored. */
    method Restore(x: RestoreFaults, ghost id: nat, ghost kept: seq<string>) returns (r: Restored)
      requires !disk.imported && Alone(disk.files.fallback, id, kept) && NothingOf(disk.files.live, id)
      modifies disk
      ensures (r == NotRenamed <==> x.rename) && old(disk.history) <= disk.history
      ensures x.rename ==>
        disk.SafeSince(|old(disk.history)|, id, kept) && Holds(disk.files.fallback, id, kept) && !Holds(disk.files.live, id, kept)
      ensures !x.rename ==>
        var clean := old(disk.files).live.log.changes == [] || (old(disk.handle) == Open && !x.close) || !x.log;
        (disk.SafeSince(|old(disk.history)|, id, kept) <==> clean) && (Holds(disk.files.live, id, kept) <==> clean)
    {
      DropLive(x, id, kept);
      var renamed := disk.Rename(Fallback, Live, x.rename);
      if !renamed {
        return NotRenamed;
      }
      assert Safe(disk.history[|disk.history| - 1], id, kept) <==> LogFits(disk.files.live);
      ghost var k := |disk.history| - 1;
      var reopened := disk.Initialize(x.reopen);
      assert Safe(disk.history[k], id, kept) <==> Holds(disk.files.live, id, kept);
      r := if reopened then Back else NotReopened;
    }

    /** Makes room at the fallback path. */
    method ClearFallback(x: Faults) returns (r: Option<ImportError>)
      requires !disk.imported
      modifies disk
      ensures r.Some? <==> x.oldFallback || x.oldFallbackLog || x.oldFallbackIndex
      ensures r.Some? ==> r.value != Restarting
      ensures r.None? ==> disk.files.fallback == Slot(None, NO_LOG)
      ensures !disk.imported && disk.handle == old(disk.handle) && old(disk.history) <= disk.history
      ensures disk.files.live == old(disk.files).live && disk.files.temp == old(disk.files).temp
      ensures forall k :: |old(disk.history)| <= k < |disk.history| ==> disk.history[k].live == old(disk.files).live
    {
      disk.RemoveMain(Fallback, x.oldFallback);
      if x.oldFallback {
        return Some(OldFallback);
      }
      var ok := disk.RemoveSidecars(Fallback, x.oldFallbackLog, x.oldFallbackIndex);
      r := if ok then None else Some(OldFallbackSidecars);
    }

    /** Folds the log into the main file and closes the database. */
    method CloseDown(x: Faults, ghost id: nat, ghost previous: seq<string>) returns (r: Option<ImportError>)
      requires !disk.imported && Holds(disk.files.live, id, previous)
      modifies disk
      ensures !disk.imported && old(disk.history) <= disk.history && disk.SafeSince(|old(disk.history)|, id, previous)
      ensures r.None? <==> old(disk.handle) == NoHandle || (old(disk.handle) == Open && !x.checkpoint && !x.close)
      ensures r.None? ==> disk.handle != Open
      ensures r.None? ==>
        disk.files == if old(disk.handle) == NoHandle then old(disk.files) else old(disk.files).(live := Folded(old(disk.files).live))
      ensures r.Some? ==> r.value != Restarting && Holds(disk.files.live, id, previous)
    {
      if disk.handle != NoHandle {
        var ok := disk.Checkpoint(x.checkpoint);
        if !ok {
          return Some(Checkpointing);
        }
      }
      FoldedOnce(old(disk.files).live);
      var ok := disk.Close(x.close);
      if !ok {
        var _ := disk.Initialize(x.reopen);
        return Some(Closing);
      }
      r := None;
    }

    /** Removes the log and moves the main file to the fallback path. */
    method MoveAside(x: Faults, ghost id: nat, ghost previous: seq<string>) returns (r: Option<ImportError>)
      requires !disk.imported && disk.handle != Open && Holds(disk.files.live, id, previous)
      requires previous == Content(disk.files.live) && disk.files.fallback == Slot(None, NO_LOG)
      modifies disk
      ensures !disk.imported && old(disk.history) <= disk.history
      ensures r.None? <==> !x.log && !x.index && !x.moveAside
      ensures r.Some? ==> r.value != Restarting
      ensures disk.SafeSince(|old(disk.history)|, id, previous) <==> x.log || old(disk.files).live.log.changes == []
      ensures r.Some? && (x.log || old(disk.files).live.log.changes == []) ==> Holds(disk.files.live, id, previous)
      ensures r.None? ==>
        && disk.files == Files(Slot(None, NO_LOG), Slot(old(disk.files).live.main, NO_LOG), old(disk.files).temp)
        && disk.handle == old(disk.handle)
    {
      var ok := disk.RemoveSidecars(Live, x.log, x.index);
      ghost var k := |disk.history| - 1;
      if !ok {
        var _ := disk.Initialize(x.reopen);
        r := Some(Sidecars);
      } else {
        ok := disk.Rename(Live, Fallback, x.moveAside);
        if !ok {
          var _ := disk.Initialize(x.reopen);
          r := Some(MovingAside);
        } else {
          r := None;
        }
      }
      assert Safe(disk.history[k], id, previous) <==> x.log || old(disk.files).live.log.changes == [];
    }

    /** Moves the uploaded database to the live path, migrates and opens it, or puts the old one back. */
    method BringIn(x: Faults, ghost id: nat, ghost kept: seq<string>) returns (r: Result<(), ImportError>)
      requires !disk.imported && disk.handle != Open && Alone(disk.files.fallback, id, kept)
      requires disk.files.live == Slot(None, NO_LOG)
      requires disk.files.temp.main.Some? && disk.files.temp.main.value.id != id
      modifies disk
      ensures old(disk.history) <= disk.history
      ensures disk.SafeSince(|old(disk.history)|, id, kept) <==> !LeavesForeignLog(x)
      ensures disk.imported || LeavesForeignLog(x) || Safe(disk.files, id, kept)
      ensures r.Err? && r.error != Restarting <==> Restores(x)
      ensures Restores(x) ==> (Holds(disk.files.live, id, kept) <==> !LeavesForeignLog(x) && !x.restore.rename)
      ensures !Restores(x) ==> Arrived(disk.files.live, old(disk.files).temp.main.value.id, x)
    {
      var ok := disk.Rename(Temp, Live, x.moveIn);
      if !ok {
        var restored := Restore(x.restore, id, kept);
        return Err(MovingIn(restored));
      }
      ok := MigrateDb(x.migrate, x.migrated, x.migratedLog);
      if !ok {
        var restored := Restore(x.restore, id, kept);
        return Err(Migrating(restored));
      }
      ok := disk.Initialize(x.open);
      if !ok {
        var restored := Restore(x.restore, id, kept);
        return Err(Opening(restored));
      }
      disk.imported := true;
      disk.RemoveMain(Fallback, x.fallback);
      ok := disk.RemoveSidecars(Fallback, x.fallbackLog, false);
      r := if x.restart then Err(Restarting) else Ok(());
    }

    /** From closing the live database on. */
    method ReplaceLive(x: Faults, ghost id: nat, ghost previous: seq<string>) returns (r: Result<(), ImportError>)
      requires !disk.imported && Holds(disk.files.live, id, previous) && previous == Content(disk.files.live)
      requires disk.files.fallback == Slot(None, NO_LOG) && disk.files.temp.main.Some? && disk.files.temp.main.value.id != id
      modifies disk
      ensures old(disk.history) <= disk.history
      ensures var lost := LosesLog(x, old(disk.files), old(disk.handle));
        var aside := MovedAside(x, old(disk.handle));
        && (disk.SafeSince(|old(disk.history)|, id, previous) <==> !lost && !(aside && LeavesForeignLog(x)))
        && (disk.imported || lost || (aside && LeavesForeignLog(x)) || Safe(disk.files, id, previous))
        && (r.Err? && r.error != Restarting && !lost ==>
            (Holds(disk.files.live, id, previous) <==> !(aside && (LeavesForeignLog(x) || x.restore.rename))))
        && (r.Err? && r.error != Restarting <==> !aside || Restores(x))
        && (aside && !Restores(x) ==> Arrived(disk.files.live, old(disk.files).temp.main.value.id, x))
    {
      var problem := CloseDown(x, id, previous);
      if problem.Some? {
        return Err(problem.value);
      }
      FoldedContent(old(disk.files).live);
      ghost var closed := disk.history;
      problem := MoveAside(x, id, previous);
      SafeParts(closed, disk.history, |old(disk.history)|, id, previous);
      if problem.Some? {
        return Err(problem.value);
      }
      ghost var moved := disk.history;
      r := BringIn(x, id, disk.files.fallback.main.value.changes);
      SafeParts(moved, disk.history, |old(disk.history)|, id, previous);
    }

    /** `ImportDB`. Whatever fails, up to the moment the imported database has been opened the previous content can
        be read at the live or the fallback path after every step, except that a log is lost when there is no open
        handle to fold it in, and that a log left behind by the imported database may spoil the restored one. An
        error return leaves the previous content at the live path unless the restoring rename itself fails. */
    method ImportDB(upload: seq<string>, x: Faults, ghost id: nat, ghost previous: seq<string>)
      returns (r: Result<(), ImportError>)
      requires !disk.imported && disk.history == [] && LogFits(disk.files.live)
      requires id == disk.files.live.main.value.id && previous == Content(disk.files.live)
      modifies disk
      ensures var lost := Prepared(x) && LosesLog(x, old(disk.files), old(disk.handle));
        var aside := Prepared(x) && MovedAside(x, old(disk.handle));
        && (disk.SafeSince(0, id, previous) <==> !lost && !(aside && LeavesForeignLog(x)))
        && (r.Err? && r.error != Restarting && !lost ==>
            (Holds(disk.files.live, id, previous) <==> !(aside && (LeavesForeignLog(x) || x.restore.rename))))
        && (r.Err? && r.error != Restarting <==> !aside || Restores(x))
      ensures r.Ok? || r.error == Restarting ==> Arrived(disk.files.live, NewId(old(disk.files)), x)
    {
      if x.prepare.Some? {
        return Err(Preparing(x.prepare.value));
      }
      disk.CreateTemp(upload);
      var problem := ClearFallback(x);
      assert disk.SafeSince(0, id, previous);
      ghost var cleared := disk.history;
      if problem.Some? {
        r := Err(problem.value);
      } else {
        r := ReplaceLive(x, id, previous);
      }
      SafeParts(cleared, disk.history, 0, id, previous);
      ghost var replaced := disk.history;
      disk.RemoveLog(Temp, false);
      disk.RemoveMain(Temp, x.cleanTemp);
      SafeParts(replaced, disk.history, 0, id, previous);
    }
  }

  // ---------------------------------------------------------------- the two exceptions

  /** A run without faults, but for those set in each example. */
  function Smooth(): Faults {
    var init := Init(false, false, []);
    Faults(None, false, false, false, false, false, false, false, init, false, false, false, [], [], init,
           RestoreFaults(false, false, false, false, false, init), false, false, false, false)
  }

  /** A database with one change in its main file and one in its log. */
  function Saved(): Files {
    Files(Slot(Some(Main(1, ["first"])), Log(1, ["second"])), Slot(None, NO_LOG), Slot(None, NO_LOG))
  }

  /** An import that finds no handle and cannot move the database aside: it returns an error, and the second change
      is gone. The panel opens its database before it serves imports, so there the handle is never missing. */
  method ImportWithoutHandle() returns (disk: Disk, r: Result<(), ImportError>)
    ensures fresh(disk) && r.Err? && r.error != Restarting
    ensures !disk.SafeSince(0, 1, ["first", "second"])
  {
    disk := new Disk(Saved(), NoHandle);
    var importer := new Importer(disk);
    assert Content(disk.files.live) == ["first", "second"];
    var x := Smooth().(moveAside := true);
    assert Prepared(x) && LosesLog(x, disk.files, disk.handle) && !MovedAside(x, disk.handle);
    r := importer.ImportDB(["uploaded"], x, 1, ["first", "second"]);
  }

  /** An import whose migration fails and leaves a log that cannot be removed: the old main file is moved back beside
      that log, and the old database cannot be read at the live path. */
  method ImportLeavingForeignLog() returns (disk: Disk, r: Result<(), ImportError>)
    ensures fresh(disk) && r.Err? && r.error != Restarting
    ensures !Holds(disk.files.live, 1, ["first", "second"])
  {
    disk := new Disk(Saved(), Open);
    var importer := new Importer(disk);
    assert Content(disk.files.live) == ["first", "second"];
    var x := Smooth();
    x := x.(migrate := true, migratedLog := ["migrated"], restore := x.restore.(log := true));
    assert Prepared(x) && MovedAside(x, disk.handle) && Restores(x) && LeavesForeignLog(x);
    r := importer.ImportDB(["uploaded"], x, 1, ["first", "second"]);
  }

  /** The uploaded database stands here as migrated and opened. */
  ghost predicate Arrived(s: Slot, id: nat, x: Faults) {
    LogFits(s) && s.main.value.id == id && Content(s) == x.migrated + x.migratedLog + x.open.changes
  }

  lemma FoldedContent(s: Slot)
    requires LogFits(s)
    ensures var t := Folded(s);
      && LogFits(t) && t.main.value.id == s.main.value.id && t.log == NO_LOG && Content(t) == Content(s) == t.main.value.changes
      && Holds(t, s.main.value.id, Content(s))
  {
  }
}
