/**
 The three-file state store.  A save is a fixed sequence of file-system operations; any of them may fail,
 and power may be lost between any two.  Reads of a complete file are assumed to succeed.
 */
module StateStore {
  import opened Common
  import opened Json
  import opened DeviceState

  /** `Torn` is a file whose writing was cut short: a strict prefix of a JSON object never parses. */
  datatype File = Absent | Torn | Document(value: Json)

  datatype Disk = Disk(primary: File, backup: File, temporary: File)

  const EMPTY_DISK := Disk(Absent, Absent, Absent)

  datatype LoadResult = Loaded(state: State) | Fresh | FailClosed

  function Read(f: File): Option<State> {
    if f.Document? && CheckDocument(f.value).Ok? then Some(CheckDocument(f.value).value) else None
  }

  function Load(d: Disk): LoadResult {
    if Read(d.primary).Some? then Loaded(Read(d.primary).value)
    else if Read(d.backup).Some? then Loaded(Read(d.backup).value)
    else if Read(d.temporary).Some? then Loaded(Read(d.temporary).value)
    else if d == EMPTY_DISK then Fresh
    else FailClosed
  }

  /** The operation a save performs next, or how it ended. */
  datatype SavePc = Opening | Writing | Removing | Retiring | Promoting | Restoring | Saved | Failed

  /**
   One operation; `ok` is false when the file system refuses it.  A rename needs its source, and onto an
   existing target it works only on file systems whose renames replace (not on CircuitPython's).
   */
  function SaveStep(d: Disk, pc: SavePc, doc: Json, ok: bool, clobbers: bool): (Disk, SavePc) {
    match pc
    case Opening =>
      if ok then (d.(temporary := Torn), Writing) else (d, Failed)
    case Writing =>
      if ok then (d.(temporary := Document(doc)), Removing) else (d, Failed)
    case Removing =>
      (if ok then d.(backup := Absent) else d, Retiring)
    case Retiring =>
      (if ok && d.primary != Absent && (d.backup == Absent || clobbers)
       then d.(backup := d.primary, primary := Absent) else d, Promoting)
    case Promoting =>
      if ok && d.temporary != Absent && (d.primary == Absent || clobbers)
      then (d.(primary := d.temporary, temporary := Absent), Saved) else (d, Restoring)
    case Restoring =>
      (if ok && d.backup != Absent && (d.primary == Absent || clobbers)
       then d.(primary := d.backup, backup := Absent) else d, Failed)
    case Saved => (d, Saved)
    case Failed => (d, Failed)
  }

  /** The first `n` operations of a save; once it has ended nothing more happens. */
  function RunSave(d: Disk, doc: Json, io: seq<bool>, n: nat, clobbers: bool): (Disk, SavePc)
    requires n <= |io|
  {
    if n == 0 then (d, Opening)
    else
      var (d', pc') := RunSave(d, doc, io, n - 1, clobbers);
      SaveStep(d', pc', doc, io[n - 1], clobbers)
  }

  /** A save cut short after `|io|` operations, or run to its end. */
  function SaveOutcome(d: Disk, doc: Json, io: seq<bool>, clobbers: bool): (Disk, SavePc) {
    RunSave(d, doc, io, |io|, clobbers)
  }

  /** A save's six operations, one by one. */
  lemma SixOperations(d: Disk, doc: Json, io: seq<bool>, clobbers: bool)
    requires |io| >= 6
    ensures var (d1, p1) := SaveStep(d, Opening, doc, io[0], clobbers);
            var (d2, p2) := SaveStep(d1, p1, doc, io[1], clobbers);
            var (d3, p3) := SaveStep(d2, p2, doc, io[2], clobbers);
            var (d4, p4) := SaveStep(d3, p3, doc, io[3], clobbers);
            var (d5, p5) := SaveStep(d4, p4, doc, io[4], clobbers);
            && RunSave(d, doc, io, 6, clobbers) == SaveStep(d5, p5, doc, io[5], clobbers)
            && RunSave(d, doc, io, 5, clobbers) == (d5, p5)
  {
    assert RunSave(d, doc, io, 1, clobbers) == SaveStep(d, Opening, doc, io[0], clobbers);
    var (d1, p1) := RunSave(d, doc, io, 1, clobbers);
    assert RunSave(d, doc, io, 2, clobbers) == SaveStep(d1, p1, doc, io[1], clobbers);
    var (d2, p2) := RunSave(d, doc, io, 2, clobbers);
    assert RunSave(d, doc, io, 3, clobbers) == SaveStep(d2, p2, doc, io[2], clobbers);
    var (d3, p3) := RunSave(d, doc, io, 3, clobbers);
    assert RunSave(d, doc, io, 4, clobbers) == SaveStep(d3, p3, doc, io[3], clobbers);
    var (d4, p4) := RunSave(d, doc, io, 4, clobbers);
    assert RunSave(d, doc, io, 5, clobbers) == SaveStep(d4, p4, doc, io[4], clobbers);
  }

  class JsonStateStore {
    var primary: File
    var backup: File
    var temporary: File
    const clobbers: bool

    constructor (disk: Disk, clobbers: bool)
      ensures Contents() == disk && this.clobbers == clobbers
    {
      primary, backup, temporary := disk.primary, disk.backup, disk.temporary;
      this.clobbers := clobbers;
    }

    function Contents(): Disk
      reads this
    {
      Disk(primary, backup, temporary)
    }

    method LoadState() returns (result: LoadResult)
      ensures result == Load(Contents())
    {
      var found := false;
      var paths := [primary, backup, temporary];
      for i := 0 to 3
        invariant found <==> exists j :: 0 <= j < i && paths[j] != Absent
        invariant forall j :: 0 <= j < i ==> Read(paths[j]).None?
      {
        if paths[i] != Absent {
          found := true;
          if paths[i].Document? {
            var state := ReadDocument(paths[i].value);
            if state.Ok? {
              assert Read(paths[i]) == Some(state.value);
              assert paths[0] == primary && paths[1] == backup && paths[2] == temporary;
              assert i > 0 ==> Read(paths[0]).None?;
              assert i > 1 ==> Read(paths[1]).None?;
              return Loaded(state.value);
            }
          }
        }
      }
      assert Read(paths[0]).None? && Read(paths[1]).None? && Read(paths[2]).None?;
      assert paths[0] == primary && paths[1] == backup && paths[2] == temporary;
      result := if found then FailClosed else Fresh;
    }

    /** Returns whether the save completed; a refused operation that the code does not swallow raises instead. */
    method Save(state: State, io: seq<bool>) returns (saved: bool)
      requires |io| == 6
      modifies this`primary, this`backup, this`temporary
      ensures SaveOutcome(old(Contents()), StateDocument(state), io, clobbers)
              == (Contents(), if saved then SavePc.Saved else Failed)
    {
      SixOperations(Contents(), StateDocument(state), io, clobbers);
      if !io[0] {
        return false;
      }
      temporary := Torn;
      if !io[1] {
        return false;
      }
      temporary := Document(StateDocument(state));
      if io[2] {
        backup := Absent;
      }
      if io[3] && primary != Absent && (backup == Absent || clobbers) {
        backup, primary := primary, Absent;
      }
      if io[4] && (primary == Absent || clobbers) {
        primary, temporary := temporary, Absent;
        return true;
      }
      if io[5] && backup != Absent && (primary == Absent || clobbers) {
        primary, backup := backup, Absent;
      }
      saved := false;
    }
  }

  /** Once a save has ended, nothing more happens. */
  lemma {:induction false} EndedStays(d: Disk, doc: Json, io: seq<bool>, n: nat, m: nat, clobbers: bool)
    requires n <= m <= |io|
    requires RunSave(d, doc, io, n, clobbers).1.Saved? || RunSave(d, doc, io, n, clobbers).1.Failed?
    ensures RunSave(d, doc, io, m, clobbers) == RunSave(d, doc, io, n, clobbers)
  {
    if n == m {
    } else {
      EndedStays(d, doc, io, n, m - 1, clobbers);
    }
  }

  const ALL_WORK := [true, true, true, true, true, true]

  /** The disk after a save in which every operation works. */
  function SavedDisk(d: Disk, state: State): Disk {
    Disk(Document(StateDocument(state)), d.primary, Absent)
  }

  lemma CompleteSave(d: Disk, state: State, clobbers: bool)
    ensures SaveOutcome(d, StateDocument(state), ALL_WORK, clobbers) == (SavedDisk(d, state), Saved)
  {
    SixOperations(d, StateDocument(state), ALL_WORK, clobbers);
  }

  // ---- one operation ----

  /** What the disk looks like while a save of `doc` is at `pc`. */
  predicate AtPc(d: Disk, pc: SavePc, doc: Json) {
    match pc
    case Opening => true
    case Writing => d.temporary == Torn
    case Removing => d.temporary == Document(doc)
    case Retiring => d.temporary == Document(doc)
    case Promoting => d.temporary == Document(doc)
    case Restoring => d.temporary == Document(doc)
    case Saved => d.primary == Document(doc)
    case Failed => true
  }

  /** A step that would put the backup over a primary that is still there. */
  predicate OverwritesPrimary(d: Disk, pc: SavePc, ok: bool, clobbers: bool) {
    pc == Restoring && ok && clobbers && d.primary != Absent && d.backup != Absent
  }

  /** Such a step, when the backup holds neither what would be loaded before it nor the state being saved. */
  predicate RollsBack(d: Disk, pc: SavePc, doc: Json, ok: bool, clobbers: bool) {
    && OverwritesPrimary(d, pc, ok, clobbers)
    && Read(d.backup).Some? && Loaded(Read(d.backup).value) != Load(d) && Read(d.backup) != Read(Document(doc))
  }

  /** What can be loaded after any single operation: what could be before, or the new state, or nothing. */
  lemma StepLoads(d: Disk, pc: SavePc, doc: Json, ok: bool, clobbers: bool)
    requires AtPc(d, pc, doc) && Read(Document(doc)).Some?
    ensures var (d', pc') := SaveStep(d, pc, doc, ok, clobbers);
            && AtPc(d', pc', doc)
            && (Load(d') in {Load(d), Loaded(Read(Document(doc)).value), FailClosed} <==>
                !RollsBack(d, pc, doc, ok, clobbers))
            && (pc'.Saved? && !pc.Saved? ==> Load(d') == Loaded(Read(Document(doc)).value))
            && (d != EMPTY_DISK ==> d' != EMPTY_DISK)
  {
  }

  // ---- whole saves ----

  /** No operation of this run brings an older state back. */
  ghost predicate KeepsState(d: Disk, doc: Json, io: seq<bool>, n: nat, clobbers: bool)
    requires n <= |io|
  {
    n == 0 ||
    (var at := RunSave(d, doc, io, n - 1, clobbers);
     KeepsState(d, doc, io, n - 1, clobbers) && !RollsBack(at.0, at.1, doc, io[n - 1], clobbers))
  }

  /** No operation of this run puts the backup over a primary that is still there. */
  ghost predicate SafeRun(d: Disk, doc: Json, io: seq<bool>, n: nat, clobbers: bool)
    requires n <= |io|
  {
    n == 0 ||
    (var at := RunSave(d, doc, io, n - 1, clobbers);
     SafeRun(d, doc, io, n - 1, clobbers) && !OverwritesPrimary(at.0, at.1, io[n - 1], clobbers))
  }

  ghost predicate SafeSave(d: Disk, doc: Json, io: seq<bool>, clobbers: bool) {
    SafeRun(d, doc, io, |io|, clobbers)
  }

  lemma {:induction false} RunLoads(d: Disk, doc: Json, io: seq<bool>, n: nat, clobbers: bool)
    requires n <= |io| && Read(Document(doc)).Some? && KeepsState(d, doc, io, n, clobbers)
    ensures var (d', pc') := RunSave(d, doc, io, n, clobbers);
            && AtPc(d', pc', doc)
            && Load(d') in {Load(d), Loaded(Read(Document(doc)).value), FailClosed}
            && (pc'.Saved? ==> Load(d') == Loaded(Read(Document(doc)).value))
            && (d != EMPTY_DISK ==> d' != EMPTY_DISK)
  {
    if n == 0 {
    } else {
      RunLoads(d, doc, io, n - 1, clobbers);
      var (d', pc') := RunSave(d, doc, io, n - 1, clobbers);
      StepLoads(d', pc', doc, io[n - 1], clobbers);
    }
  }

  /** Where a save is after its first operations; only the sixth can be the restoring rename. */
  lemma {:induction false} RestoresLast(d: Disk, doc: Json, io: seq<bool>, n: nat, clobbers: bool)
    requires n <= |io|
    ensures RunSave(d, doc, io, n, clobbers).1
            in {if n == 0 then Opening else if n == 1 then Writing else if n == 2 then Removing
                else if n == 3 then Retiring else if n == 4 then Promoting else if n == 5 then Restoring else Failed,
                Saved, Failed}
  {
    if n == 0 {
    } else {
      RestoresLast(d, doc, io, n - 1, clobbers);
    }
  }

  /** So whether a run is safe, or keeps the state, is decided by its sixth operation. */
  lemma {:induction false} SixthDecides(d: Disk, doc: Json, io: seq<bool>, n: nat, clobbers: bool)
    requires n <= |io|
    ensures n <= 5 ==> SafeRun(d, doc, io, n, clobbers)
    ensures n > 5 ==> (SafeRun(d, doc, io, n, clobbers) <==> SafeRun(d, doc, io, 6, clobbers))
    ensures n > 5 ==> (KeepsState(d, doc, io, n, clobbers) <==> KeepsState(d, doc, io, 6, clobbers))
    ensures SafeRun(d, doc, io, n, clobbers) ==> KeepsState(d, doc, io, n, clobbers)
  {
    if n == 0 {
    } else {
      RestoresLast(d, doc, io, n - 1, clobbers);
      SixthDecides(d, doc, io, n - 1, clobbers);
    }
  }

  /** Six operations end every save, one way or the other. */
  lemma SaveEnds(d: Disk, doc: Json, io: seq<bool>, clobbers: bool)
    requires |io| >= 6
    ensures SaveOutcome(d, doc, io, clobbers) == RunSave(d, doc, io, 6, clobbers)
    ensures SaveOutcome(d, doc, io, clobbers).1.Saved? || SaveOutcome(d, doc, io, clobbers).1.Failed?
  {
    RestoresLast(d, doc, io, 6, clobbers);
    EndedStays(d, doc, io, 6, |io|, clobbers);
  }

  /**
   Every way a save can end, on the disk.  It completes exactly when the new document could be written and promoted;
   then the old primary is the backup, if it could be renamed away.  A refused promotion is undone: a primary that
   had been renamed away is the primary again, if the restoring rename works.
   */
  lemma SaveExactly(d: Disk, doc: Json, io: seq<bool>, clobbers: bool)
    requires |io| >= 6
    ensures var (d', pc) := SaveOutcome(d, doc, io, clobbers);
            var backup := if io[2] then Absent else d.backup;
            var retired := io[3] && d.primary != Absent && (backup == Absent || clobbers);
            && (!io[0] ==> d' == d && pc == Failed)
            && (io[0] && !io[1] ==> d' == Disk(d.primary, d.backup, Torn) && pc == Failed)
            && (io[0] && io[1] ==>
                  && (pc == Saved <==> io[4] && (retired || d.primary == Absent || clobbers))
                  && (pc == Saved ==> d' == Disk(Document(doc), if retired then d.primary else backup, Absent))
                  && (pc != Saved ==>
                        && pc == Failed && d'.temporary == Document(doc)
                        && (retired && io[5] ==> d'.primary == d.primary && d'.backup == Absent)
                        && (retired && !io[5] ==> d'.primary == Absent && d'.backup == d.primary)
                        && (!retired && d.primary == Absent && io[5] ==> d'.primary == backup && d'.backup == Absent)
                        && (!retired && d.primary != Absent && !(io[5] && clobbers && backup != Absent) ==>
                              d'.primary == d.primary && d'.backup == backup)
                        && (!retired && d.primary == Absent && !io[5] ==>
                              d'.primary == Absent && d'.backup == backup)
                        && (!retired && d.primary != Absent && io[5] && clobbers && backup != Absent ==>
                              d'.primary == backup && d'.backup == Absent)))
  {
    SaveEnds(d, doc, io, clobbers);
    SixOperations(d, doc, io, clobbers);
  }

  /** A refused promotion that is undone leaves the old primary, and no backup. */
  lemma RefusedPromotionUndone(d: Disk, doc: Json, io: seq<bool>, clobbers: bool)
    requires |io| >= 6 && io[0] && io[1] && io[2] && io[3] && !io[4] && io[5] && d.primary != Absent
    ensures SaveOutcome(d, doc, io, clobbers) == (Disk(d.primary, Absent, Document(doc)), Failed)
  {
    SaveExactly(d, doc, io, clobbers);
  }

  /** The run in which the backup cannot be removed, the primary not retired, and the new file not promoted. */
  const RESTORING := [true, true, false, false, false, true]

  /** The disk of a save that has come to its restoring rename in just this way. */
  lemma BeforeRestoring(d: Disk, doc: Json, io: seq<bool>, clobbers: bool)
    requires |io| >= 6
    ensures var (d5, p5) := RunSave(d, doc, io, 5, clobbers);
            && (OverwritesPrimary(d5, p5, io[5], clobbers) <==>
                clobbers && d.primary != Absent && d.backup != Absent && RESTORING <= io)
            && (RESTORING <= io ==> d5 == d.(temporary := Document(doc)) && p5 == Restoring)
  {
    SixOperations(d, doc, io, clobbers);
    assert io[..6] == [io[0], io[1], io[2], io[3], io[4], io[5]];
    assert RESTORING <= io <==> io[..6] == RESTORING;
  }

  /**
   Exactly which saves put the backup over a primary: renames replace, both files exist, the backup cannot be
   removed, the primary cannot be retired, the new file cannot be promoted, and the restoring rename works.
   */
  lemma UnsafeExactly(d: Disk, doc: Json, io: seq<bool>, clobbers: bool)
    ensures !SafeSave(d, doc, io, clobbers) <==>
              clobbers && d.primary != Absent && d.backup != Absent && RESTORING <= io
  {
    SixthDecides(d, doc, io, |io|, clobbers);
    if |io| >= 6 {
      SixthDecides(d, doc, io, 5, clobbers);
      BeforeRestoring(d, doc, io, clobbers);
    }
  }

  /** Such a save, over a readable backup that is neither what was loadable nor the state being saved. */
  predicate BringsBack(d: Disk, state: State, io: seq<bool>, clobbers: bool) {
    && clobbers && d.primary != Absent && RESTORING <= io
    && Read(d.backup).Some? && Loaded(Read(d.backup).value) != Load(d) && Read(d.backup).value != state
  }

  /** Exactly which saves bring another state back than the one before, the one being saved, or none. */
  lemma RollsBackExactly(d: Disk, state: State, io: seq<bool>, clobbers: bool)
    requires Readable(state)
    ensures var (d', pc) := SaveOutcome(d, StateDocument(state), io, clobbers);
            && (Load(d') !in {Load(d), Loaded(state), FailClosed} <==> BringsBack(d, state, io, clobbers))
            && (BringsBack(d, state, io, clobbers) ==> pc.Failed? && Load(d') == Loaded(Read(d.backup).value))
    ensures KeepsState(d, StateDocument(state), io, |io|, clobbers) <==> !BringsBack(d, state, io, clobbers)
  {
    var doc := StateDocument(state);
    SaveReadRoundTrip(state);
    SixthDecides(d, doc, io, |io|, clobbers);
    if |io| >= 6 {
      SixthDecides(d, doc, io, 5, clobbers);
      BeforeRestoring(d, doc, io, clobbers);
      SaveEnds(d, doc, io, clobbers);
    }
    if !BringsBack(d, state, io, clobbers) {
      RunLoads(d, doc, io, |io|, clobbers);
    }
  }

  /** One such save: the backup's state comes back, however much older it is than the primary's. */
  lemma UnsafeRollsBack(d: Disk, doc: Json)
    requires d.primary != Absent && Read(d.backup).Some?
    ensures SaveOutcome(d, doc, RESTORING, true).1 == Failed
    ensures Load(SaveOutcome(d, doc, RESTORING, true).0) == Loaded(Read(d.backup).value)
  {
    SixOperations(d, doc, RESTORING, true);
  }

  /** After an interrupted or failed save, load gives the old state or the new one, or refuses; never Fresh. */
  lemma InterruptedSave(d: Disk, state: State, io: seq<bool>, clobbers: bool)
    requires Readable(state) && !BringsBack(d, state, io, clobbers)
    ensures var (d', pc) := SaveOutcome(d, StateDocument(state), io, clobbers);
            && Load(d') in {Load(d), Loaded(state), FailClosed}
            && (pc.Saved? ==> Load(d') == Loaded(state))
            && (d != EMPTY_DISK ==> !Load(d').Fresh?)
  {
    SaveReadRoundTrip(state);
    RollsBackExactly(d, state, io, clobbers);
    RunLoads(d, StateDocument(state), io, |io|, clobbers);
  }

  /** Once the new document is complete it stays on the disk, as the temporary file or as the primary. */
  lemma {:induction false} WrittenStays(d: Disk, doc: Json, io: seq<bool>, n: nat, clobbers: bool)
    requires 2 <= n <= |io| && io[0] && io[1]
    ensures var (d', pc') := RunSave(d, doc, io, n, clobbers);
            && !pc'.Opening? && !pc'.Writing?
            && (if pc'.Saved? then d'.primary == Document(doc) else d'.temporary == Document(doc))
  {
    if n == 2 {
      assert RunSave(d, doc, io, 1, clobbers) == SaveStep(d, Opening, doc, io[0], clobbers);
    } else {
      WrittenStays(d, doc, io, n - 1, clobbers);
    }
  }

  /**
   Exactly which saves lose everything: those that start with only the temporary file readable and are cut
   short, or refused, while rewriting it.
   */
  lemma LosesAllExactly(d: Disk, state: State, io: seq<bool>, clobbers: bool)
    requires Readable(state) && Load(d).Loaded?
    ensures Load(SaveOutcome(d, StateDocument(state), io, clobbers).0) == FailClosed <==>
              && Read(d.primary).None? && Read(d.backup).None?
              && |io| >= 1 && io[0] && (|io| == 1 || !io[1])
  {
    var doc := StateDocument(state);
    SaveReadRoundTrip(state);
    if |io| >= 2 && io[0] && io[1] {
      WrittenStays(d, doc, io, |io|, clobbers);
    } else if |io| >= 1 {
      assert RunSave(d, doc, io, 1, clobbers) == SaveStep(d, Opening, doc, io[0], clobbers);
      if io[0] && |io| >= 2 {
        assert RunSave(d, doc, io, 2, clobbers) == (d.(temporary := Torn), Failed);
        EndedStays(d, doc, io, 2, |io|, clobbers);
      } else if !io[0] {
        EndedStays(d, doc, io, 1, |io|, clobbers);
      }
    }
  }

  // ---- how many interruptions can be survived ----

  predicate ReadsBack(f: File) {
    Read(f).Some?
  }

  /** Where the best readable file lies: primary 3, backup 2, temporary 1, nowhere 0. */
  function Level(d: Disk): nat {
    if ReadsBack(d.primary) then 3 else if ReadsBack(d.backup) then 2 else if ReadsBack(d.temporary) then 1 else 0
  }

  /** The level kept at each point of a save that started at level `start`. */
  function Floor(pc: SavePc, start: nat): nat {
    match pc
    case Opening => start
    case Writing => if start == 1 then 0 else start
    case Removing => if start >= 2 then start else 1
    case Retiring => if start == 3 then 3 else 1
    case Promoting => if start == 3 then 2 else 1
    case Restoring => if start == 3 then 2 else 1
    case Saved => 3
    case Failed => if start == 0 then 0 else start - 1
  }

  ghost predicate KeepsLevel(at: (Disk, SavePc), doc: Json, start: nat) {
    AtPc(at.0, at.1, doc) && Level(at.0) >= Floor(at.1, start)
  }

  lemma StepLevel(at: (Disk, SavePc), doc: Json, ok: bool, clobbers: bool, start: nat)
    requires KeepsLevel(at, doc, start) && ReadsBack(Document(doc)) && start <= 3
    requires !OverwritesPrimary(at.0, at.1, ok, clobbers)
    ensures KeepsLevel(SaveStep(at.0, at.1, doc, ok, clobbers), doc, start)
  {
  }

  lemma {:induction false} RunLevel(d: Disk, doc: Json, io: seq<bool>, n: nat, clobbers: bool, start: nat)
    requires n <= |io| && ReadsBack(Document(doc)) && SafeRun(d, doc, io, n, clobbers)
    requires Level(d) >= start && start <= 3
    ensures KeepsLevel(RunSave(d, doc, io, n, clobbers), doc, start)
  {
    if n == 0 {
    } else {
      RunLevel(d, doc, io, n - 1, clobbers, start);
      StepLevel(RunSave(d, doc, io, n - 1, clobbers), doc, io[n - 1], clobbers, start);
    }
  }

  /** A save attempt: the state to write and the fate of its operations, cut short where power was lost. */
  datatype Attempt = Attempt(state: State, io: seq<bool>)

  function Outcome(d: Disk, attempt: Attempt, clobbers: bool): (Disk, SavePc) {
    SaveOutcome(d, StateDocument(attempt.state), attempt.io, clobbers)
  }

  function After(d: Disk, attempts: seq<Attempt>, clobbers: bool): Disk {
    if |attempts| == 0 then d
    else Outcome(After(d, attempts[..|attempts| - 1], clobbers), attempts[|attempts| - 1], clobbers).0
  }

  /** Attempts since the last completed one. */
  function Interrupted(d: Disk, attempts: seq<Attempt>, clobbers: bool): (n: nat)
    ensures n <= |attempts|
  {
    if |attempts| == 0 then 0
    else
      var earlier := attempts[..|attempts| - 1];
      if Outcome(After(d, earlier, clobbers), attempts[|attempts| - 1], clobbers).1.Saved? then 0
      else Interrupted(d, earlier, clobbers) + 1
  }

  ghost predicate AllReadable(attempts: seq<Attempt>) {
    forall i :: 0 <= i < |attempts| ==> Readable(attempts[i].state)
  }

  /** A save that puts an unreadable backup over a readable primary: the one kind that costs two levels at once. */
  predicate LosesTwo(d: Disk, io: seq<bool>, clobbers: bool) {
    clobbers && RESTORING <= io && ReadsBack(d.primary) && d.backup != Absent && !ReadsBack(d.backup)
  }

  /** Readable states, none of whose saves costs two levels. */
  ghost predicate GradualAttempts(d: Disk, attempts: seq<Attempt>, clobbers: bool) {
    |attempts| == 0 ||
    (var earlier, last := attempts[..|attempts| - 1], attempts[|attempts| - 1];
     && GradualAttempts(d, earlier, clobbers)
     && Readable(last.state)
     && !LosesTwo(After(d, earlier, clobbers), last.io, clobbers))
  }

  /** Readable states, none of whose saves brings an older state back. */
  ghost predicate FaithfulAttempts(d: Disk, attempts: seq<Attempt>, clobbers: bool) {
    |attempts| == 0 ||
    (var earlier, last := attempts[..|attempts| - 1], attempts[|attempts| - 1];
     && FaithfulAttempts(d, earlier, clobbers)
     && Readable(last.state)
     && !BringsBack(After(d, earlier, clobbers), last.state, last.io, clobbers))
  }

  lemma SavedReadsBack(state: State)
    requires Readable(state)
    ensures ReadsBack(Document(StateDocument(state)))
  {
    SaveReadRoundTrip(state);
  }

  lemma FloorBound(at: (Disk, SavePc), doc: Json, start: nat)
    requires start <= 3 && KeepsLevel(at, doc, start) && ReadsBack(Document(doc))
    ensures Level(at.0) >= (if at.1.Saved? then 3 else start - 1)
  {
  }

  /** What the restoring rename leaves when it puts the backup over the primary. */
  lemma RestoredDisk(d: Disk, doc: Json, io: seq<bool>)
    requires RESTORING <= io && d.primary != Absent && d.backup != Absent
    ensures SaveOutcome(d, doc, io, true) == (Disk(d.backup, Absent, Document(doc)), Failed)
  {
    SaveEnds(d, doc, io, true);
    BeforeRestoring(d, doc, io, true);
    assert io[..6] == RESTORING && io[5];
  }

  /** An attempt that completes restores every level; one that does not costs at most one, with one exception. */
  lemma AttemptLevelExactly(d: Disk, attempt: Attempt, clobbers: bool)
    requires Readable(attempt.state)
    ensures var at := Outcome(d, attempt, clobbers);
            Level(at.0) >= (if at.1.Saved? then 3 else Level(d) - 1) <==> !LosesTwo(d, attempt.io, clobbers)
  {
    var doc := StateDocument(attempt.state);
    SavedReadsBack(attempt.state);
    UnsafeExactly(d, doc, attempt.io, clobbers);
    if SafeSave(d, doc, attempt.io, clobbers) {
      RunLevel(d, doc, attempt.io, |attempt.io|, clobbers, Level(d));
      FloorBound(RunSave(d, doc, attempt.io, |attempt.io|, clobbers), doc, Level(d));
    } else {
      RestoredDisk(d, doc, attempt.io);
    }
  }

  /** A failed save whose restoring rename works costs nothing: what was loaded from the primary still is. */
  lemma RefusedPromotionCostsNothing(d: Disk, doc: Json, io: seq<bool>, clobbers: bool)
    requires |io| >= 6 && io[0] && io[1] && io[2] && io[3] && !io[4] && io[5] && ReadsBack(d.primary)
    ensures var d' := SaveOutcome(d, doc, io, clobbers).0; Level(d') == 3 && Load(d') == Load(d)
  {
    RefusedPromotionUndone(d, doc, io, clobbers);
  }

  /** Each interruption costs at most one level, each completed save restores them all. */
  lemma {:induction false} LevelAfter(d: Disk, attempts: seq<Attempt>, clobbers: bool)
    requires Level(d) == 3 && GradualAttempts(d, attempts, clobbers)
    ensures Level(After(d, attempts, clobbers)) + Interrupted(d, attempts, clobbers) >= 3
  {
    if |attempts| == 0 {
    } else {
      var earlier, last := attempts[..|attempts| - 1], attempts[|attempts| - 1];
      LevelAfter(d, earlier, clobbers);
      AttemptLevelExactly(After(d, earlier, clobbers), last, clobbers);
    }
  }

  /** No torn primary or backup: a disk that only saves have written to. */
  predicate Intact(d: Disk) {
    (d.primary == Absent || ReadsBack(d.primary)) && (d.backup == Absent || ReadsBack(d.backup))
  }

  lemma {:induction false} RunStaysIntact(d: Disk, doc: Json, io: seq<bool>, n: nat, clobbers: bool)
    requires Intact(d) && ReadsBack(Document(doc)) && n <= |io|
    ensures var (d', pc) := RunSave(d, doc, io, n, clobbers); Intact(d') && AtPc(d', pc, doc)
  {
    if n == 0 {
    } else {
      RunStaysIntact(d, doc, io, n - 1, clobbers);
    }
  }

  /** From such a disk no attempts at all cost more than a level each, whatever file operations are refused. */
  lemma {:induction false} IntactIsGradual(d: Disk, attempts: seq<Attempt>, clobbers: bool)
    requires Intact(d) && AllReadable(attempts)
    ensures GradualAttempts(d, attempts, clobbers) && Intact(After(d, attempts, clobbers))
  {
    if |attempts| == 0 {
    } else {
      var earlier, last := attempts[..|attempts| - 1], attempts[|attempts| - 1];
      IntactIsGradual(d, earlier, clobbers);
      SavedReadsBack(last.state);
      RunStaysIntact(After(d, earlier, clobbers), StateDocument(last.state), last.io, |last.io|, clobbers);
    }
  }

  /** What the last completed attempt left to load, or what there was to load before the first. */
  function LastCompleted(d: Disk, attempts: seq<Attempt>, clobbers: bool): LoadResult {
    var n := |attempts| - Interrupted(d, attempts, clobbers);
    if n == 0 then Load(d) else Loaded(attempts[n - 1].state)
  }

  /** A state of one of the attempts made since. */
  ghost predicate AttemptedSince(d: Disk, attempts: seq<Attempt>, clobbers: bool, result: LoadResult) {
    exists i :: |attempts| - Interrupted(d, attempts, clobbers) <= i < |attempts| && result == Loaded(attempts[i].state)
  }

  /** A state the last, interrupted attempt was not about stays one attempted since. */
  lemma SinceStays(d: Disk, attempts: seq<Attempt>, clobbers: bool, result: LoadResult)
    requires |attempts| > 0 && Interrupted(d, attempts, clobbers) > 0
    requires AttemptedSince(d, attempts[..|attempts| - 1], clobbers, result)
    ensures AttemptedSince(d, attempts, clobbers, result)
  {
    var earlier := attempts[..|attempts| - 1];
    var i :| |earlier| - Interrupted(d, earlier, clobbers) <= i < |earlier| && result == Loaded(earlier[i].state);
    assert attempts[i] == earlier[i];
  }

  ghost predicate Survives(d: Disk, attempts: seq<Attempt>, clobbers: bool, result: LoadResult) {
    || result == FailClosed || result == LastCompleted(d, attempts, clobbers)
    || AttemptedSince(d, attempts, clobbers, result)
  }

  /** One more attempt: what survived before it survives, or its own state does. */
  lemma SurvivesOneMore(d: Disk, attempts: seq<Attempt>, clobbers: bool, before: LoadResult)
    requires |attempts| > 0 && Interrupted(d, attempts, clobbers) > 0
    requires Survives(d, attempts[..|attempts| - 1], clobbers, before)
    ensures Survives(d, attempts, clobbers, before)
    ensures Survives(d, attempts, clobbers, Loaded(attempts[|attempts| - 1].state))
  {
    if AttemptedSince(d, attempts[..|attempts| - 1], clobbers, before) {
      SinceStays(d, attempts, clobbers, before);
    }
    assert |attempts| - Interrupted(d, attempts, clobbers) <= |attempts| - 1;
  }

  /** Which state survives any attempts: the last completed one, or one attempted since, if any does. */
  lemma {:induction false} SurvivingState(d: Disk, attempts: seq<Attempt>, clobbers: bool)
    requires FaithfulAttempts(d, attempts, clobbers)
    ensures Survives(d, attempts, clobbers, Load(After(d, attempts, clobbers)))
  {
    if |attempts| == 0 {
    } else {
      var earlier, last := attempts[..|attempts| - 1], attempts[|attempts| - 1];
      var before := After(d, earlier, clobbers);
      SurvivingState(d, earlier, clobbers);
      InterruptedSave(before, last.state, last.io, clobbers);
      if Interrupted(d, attempts, clobbers) > 0 {
        SurvivesOneMore(d, attempts, clobbers, Load(before));
      }
    }
  }

  /**
   From a valid primary, and as long as no three saves in a row were interrupted, a state is loaded: unless a
   save brought an older one back, the state last saved in full or one whose save has been tried since.
   */
  lemma TwoInterruptionsSurvived(d: Disk, attempts: seq<Attempt>, clobbers: bool)
    requires Read(d.primary).Some? && GradualAttempts(d, attempts, clobbers)
    requires Interrupted(d, attempts, clobbers) <= 2
    ensures var result := Load(After(d, attempts, clobbers));
            && result.Loaded?
            && (FaithfulAttempts(d, attempts, clobbers) ==>
                  result == LastCompleted(d, attempts, clobbers) || AttemptedSince(d, attempts, clobbers, result))
  {
    LevelAfter(d, attempts, clobbers);
    if FaithfulAttempts(d, attempts, clobbers) {
      SurvivingState(d, attempts, clobbers);
    }
  }

  /** A save in which everything works, cut short after one, three or four operations. */
  lemma FirstOperations(d: Disk, doc: Json, io: seq<bool>)
    requires 0 < |io| <= 4 && forall i :: 0 <= i < |io| ==> io[i]
    ensures |io| == 1 ==> SaveOutcome(d, doc, io, false).0 == Disk(d.primary, d.backup, Torn)
    ensures |io| == 3 ==> SaveOutcome(d, doc, io, false).0 == Disk(d.primary, Absent, Document(doc))
    ensures |io| == 4 && d.primary != Absent ==>
              SaveOutcome(d, doc, io, false).0 == Disk(Absent, d.primary, Document(doc))
  {
    assert RunSave(d, doc, io, 1, false) == (Disk(d.primary, d.backup, Torn), Writing);
    if |io| >= 3 {
      assert RunSave(d, doc, io, 2, false) == (Disk(d.primary, d.backup, Document(doc)), Removing);
      assert RunSave(d, doc, io, 3, false) == (Disk(d.primary, Absent, Document(doc)), Retiring);
    }
  }

  /** Three can be too many: power lost before a promotion, again before one, and then in the middle of a write. */
  lemma ThirdInterruptionCanLoseAll(d: Disk, a: State, b: State, c: State)
    requires d.primary != Absent
    ensures var attempts := [Attempt(a, [true, true, true, true]), Attempt(b, [true, true, true]), Attempt(c, [true])];
            Load(After(d, attempts, false)) == FailClosed
  {
    var x := Attempt(a, [true, true, true, true]);
    var y := Attempt(b, [true, true, true]);
    var z := Attempt(c, [true]);
    var d1 := Disk(Absent, d.primary, Document(StateDocument(a)));
    var d2 := Disk(Absent, Absent, Document(StateDocument(b)));
    FirstOperations(d, StateDocument(a), x.io);
    FirstOperations(d1, StateDocument(b), y.io);
    FirstOperations(d2, StateDocument(c), z.io);
    assert [x, y, z][..2] == [x, y] && [x, y][..1] == [x] && [x][..0] == [];
    assert After(d, [], false) == d;
    assert After(d, [x], false) == d1;
    assert After(d, [x, y], false) == d2;
    assert After(d, [x, y, z], false) == Disk(Absent, Absent, Torn);
  }
}
