/**
 The files that an import of a database touches, and the steps it takes on them (database/backup.go:218-379). A SQLite
 database is a main file and a write-ahead log beside it; its content is the changes in the main file followed by
 those in the log, provided the log was written for that main file.
 */
module ImportFiles {
  import opened Wrappers

  /** The three paths; the last is the temporary file of the upload. */
  datatype Path = Live | Fallback | Temp

  datatype Main = Main(id: nat, changes: seq<string>)

  /** A log of no changes stands for a missing one as well. */
  datatype Log = Log(of: nat, changes: seq<string>)

  datatype Slot = Slot(main: Option<Main>, log: Log)

  datatype Files = Files(live: Slot, fallback: Slot, temp: Slot)

  datatype Handle = NoHandle | Open | Closed

  /** What `InitDB` does besides opening: it may write, and it may fail early (no usable handle) or late. */
  datatype Init = Init(fails: bool, late: bool, changes: seq<string>)

  const NO_LOG := Log(0, [])

  function At(f: Files, p: Path): Slot {
    match p
    case Live => f.live
    case Fallback => f.fallback
    case Temp => f.temp
  }

  function With(f: Files, p: Path, s: Slot): Files {
    match p
    case Live => f.(live := s)
    case Fallback => f.(fallback := s)
    case Temp => f.(temp := s)
  }

  predicate LogFits(s: Slot) {
    s.main.Some? && (s.log.changes != [] ==> s.log.of == s.main.value.id)
  }

  function Content(s: Slot): seq<string>
    requires s.main.Some?
  {
    s.main.value.changes + s.log.changes
  }

  /** The database `id` with everything in `previous` can be read. */
  predicate Holds(s: Slot, id: nat, previous: seq<string>) {
    LogFits(s) && s.main.value.id == id && previous <= Content(s)
  }

  predicate Safe(f: Files, id: nat, previous: seq<string>) {
    Holds(f.live, id, previous) || Holds(f.fallback, id, previous)
  }

  ghost predicate AllSafe(history: seq<Files>, from: nat, id: nat, previous: seq<string>) {
    forall k :: from <= k < |history| ==> Safe(history[k], id, previous)
  }

  /** A history is safe if both its parts are. */
  lemma SafeParts(earlier: seq<Files>, history: seq<Files>, from: nat, id: nat, previous: seq<string>)
    requires from <= |earlier| && earlier <= history
    ensures AllSafe(history, from, id, previous) <==>
      AllSafe(earlier, from, id, previous) && AllSafe(history, |earlier|, id, previous)
  {
    assert forall k :: 0 <= k < |earlier| ==> history[k] == earlier[k];
  }

  /** The log moves into the main file it was written for. */
  function Folded(s: Slot): Slot {
    if LogFits(s) then Slot(Some(Main(s.main.value.id, Content(s))), NO_LOG) else s
  }

  lemma FoldedOnce(s: Slot)
    ensures Folded(Folded(s)) == Folded(s)
  {
    if LogFits(s) {
      assert Content(s) + [] == Content(s);
    }
  }

  /** New changes go to the log. A log that was there is taken for the database's own. */
  function Appended(s: Slot, newId: nat, changes: seq<string>): Slot {
    var main := if s.main.Some? then s.main.value else Main(newId, []);
    Slot(Some(main), Log(if s.log.changes != [] then s.log.of else main.id, s.log.changes + changes))
  }

  function NewId(f: Files): nat {
    (if f.live.main.Some? then f.live.main.value.id else 0) + (if f.fallback.main.Some? then f.fallback.main.value.id else 0) + 1
  }

  /** The files on disk and the package's database handle. `history` has the files after every step taken until the
      imported database has been opened. */
  class Disk {
    var files: Files
    var handle: Handle
    ghost var history: seq<Files>
    ghost var imported: bool

    constructor (files: Files, handle: Handle)
      ensures this.files == files && this.handle == handle && !imported && history == []
    {
      this.files, this.handle, this.imported, this.history := files, handle, false, [];
    }

    ghost predicate SafeSince(from: nat, id: nat, previous: seq<string>)
      reads this
    {
      AllSafe(history, from, id, previous)
    }

    /** One step: the files change, and what they are now is noted. */
    twostate predicate Stepped(f: Files)
      reads this
    {
      files == f && imported == old(imported) && history == old(history) + if imported then [] else [f]
    }

    method Step(f: Files)
      modifies `files, `history
      ensures Stepped(f)
    {
      files := f;
      history := history + if imported then [] else [files];
    }

    /** The uploaded file beside the live database. */
    method CreateTemp(upload: seq<string>)
      modifies `files, `history
      ensures Stepped(old(files).(temp := Slot(Some(Main(NewId(old(files)), upload)), NO_LOG)))
    {
      Step(files.(temp := Slot(Some(Main(NewId(files), upload)), NO_LOG)));
    }

    method RemoveMain(p: Path, fails: bool)
      modifies `files, `history
      ensures Stepped(if fails then old(files) else With(old(files), p, At(old(files), p).(main := None)))
    {
      Step(if fails then files else With(files, p, At(files, p).(main := None)));
    }

    method RemoveLog(p: Path, fails: bool)
      modifies `files, `history
      ensures Stepped(if fails then old(files) else With(old(files), p, At(old(files), p).(log := NO_LOG)))
    {
      Step(if fails then files else With(files, p, At(files, p).(log := NO_LOG)));
    }

    /** `removeSQLiteSidecars`: the log, then the shared-memory index, which carries no content. */
    method RemoveSidecars(p: Path, logFails: bool, indexFails: bool) returns (ok: bool)
      modifies `files, `history
      ensures Stepped(if logFails then old(files) else With(old(files), p, At(old(files), p).(log := NO_LOG)))
      ensures ok == (!logFails && !indexFails)
    {
      RemoveLog(p, logFails);
      ok := !logFails && !indexFails;
    }

    /** Moves the main file only, over whatever stands at the target. */
    method Rename(source: Path, target: Path, fails: bool) returns (ok: bool)
      requires source != target
      modifies `files, `history
      ensures ok == (!fails && At(old(files), source).main.Some?)
      ensures Stepped(if ok then Renamed(old(files), source, target) else old(files))
    {
      ok := !fails && At(files, source).main.Some?;
      Step(if ok then Renamed(files, source, target) else files);
    }

    /** `PRAGMA wal_checkpoint(TRUNCATE)` on the live database. */
    method Checkpoint(fails: bool) returns (ok: bool)
      modifies `files, `history
      ensures ok == (!fails && handle == Open)
      ensures Stepped(if ok then old(files).(live := Folded(old(files).live)) else old(files))
    {
      ok := !fails && handle == Open;
      Step(if ok then files.(live := Folded(files.live)) else files);
    }

    /** `closeCurrentDatabase`: the last connection takes the log with it. */
    method Close(fails: bool) returns (ok: bool)
      modifies `files, `history, `handle
      ensures ok == (old(handle) != Open || !fails)
      ensures handle == if old(handle) == Open && !fails then Closed else old(handle)
      ensures Stepped(if old(handle) == Open && !fails then old(files).(live := Folded(old(files).live)) else old(files))
    {
      ok := handle != Open || !fails;
      Step(if handle == Open && !fails then files.(live := Folded(files.live)) else files);
      handle := if handle == Open && !fails then Closed else handle;
    }

    /** `InitDB` on the live path: opens the database there, creating it if need be, and appends to it. */
    method Initialize(init: Init) returns (ok: bool)
      modifies `files, `history, `handle
      ensures ok == !init.fails
      ensures Stepped(if init.fails && !init.late then old(files)
                      else old(files).(live := Appended(old(files).live, NewId(old(files)), init.changes)))
      ensures handle == if init.fails && !init.late then old(handle) else Open
    {
      ok := !init.fails;
      if init.fails && !init.late {
        Step(files);
      } else {
        Step(files.(live := Appended(files.live, NewId(files), init.changes)));
        handle := Open;
      }
    }
  }

  function Renamed(f: Files, source: Path, target: Path): Files {
    With(With(f, target, At(f, target).(main := At(f, source).main)), source, At(f, source).(main := None))
  }
}
