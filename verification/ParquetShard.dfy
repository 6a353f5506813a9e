/** One Parquet worker: examples gather in memory, a full batch is written as one file and the checkpoint saved; the
    smallest files are merged at the end. */
module ParquetShard {
  import opened Wrappers
  import opened ShardFiles

  const MAX_RETRIES: nat := 10

  /** The closure variables of `process_shard`. */
  datatype Worker = Worker(fileIdx: nat, written: nat, filenames: seq<nat>, cursor: nat, pending: seq<Record>)

  datatype State = State(disk: Disk, worker: Option<Worker>)

  /** `load_and_restore` with nothing gathered. */
  function Started(disk: Disk): State {
    var c := Restored(disk);
    State(disk, Some(Worker(c.fileIdx, c.written, c.files, c.cursor, [])))
  }

  function Gathered(w: Worker, r: Record): Worker {
    w.(pending := w.pending + [r], cursor := w.cursor + 1)
  }

  /** `write_table` that got as far as `content`, before the checkpoint is saved. */
  function TableLeft(s: State, content: seq<Record>): State
    requires s.worker.Some?
  {
    s.(disk := s.disk.(files := s.disk.files[s.worker.value.fileIdx := content]))
  }

  function TableWritten(s: State): State
    requires s.worker.Some?
  {
    TableLeft(s, s.worker.value.pending)
  }

  /** `write_file` and the clearing of the gathered examples. */
  function FileWritten(s: State): State
    requires s.worker.Some?
  {
    var w := s.worker.value;
    var next := Worker(w.fileIdx + 1, w.written + |w.pending|, w.filenames + [w.fileIdx], w.cursor, []);
    State(Disk(TableWritten(s).disk.files, Some(Checkpoint(next.fileIdx, next.written, next.filenames, next.cursor))),
          Some(next))
  }

  /** A connection error or a kill may come while gathering, or inside a file write; the table is then left with any
      content, torn or whole. */
  datatype Step =
    | Start
    | Gather
    | WriteFile
    | ConnectionError
    | ErrorInWrite(torn: seq<Record>)
    | Kill
    | KillInWrite(torn: seq<Record>)

  function Next(s: State, step: Step, data: seq<Record>): Option<State> {
    match step
    case Start => if s.worker.None? then Some(Started(s.disk)) else None
    case Gather =>
      if s.worker.Some? && s.worker.value.cursor < |data|
      then Some(s.(worker := Some(Gathered(s.worker.value, data[s.worker.value.cursor])))) else None
    case WriteFile => if s.worker.Some? then Some(FileWritten(s)) else None
    case ConnectionError => if s.worker.Some? then Some(Started(s.disk)) else None
    case ErrorInWrite(torn) => if s.worker.Some? then Some(Started(TableLeft(s, torn).disk)) else None
    case Kill => if s.worker.Some? then Some(s.(worker := None)) else None
    case KillInWrite(torn) => if s.worker.Some? then Some(TableLeft(s, torn).(worker := None)) else None
  }

  /** The worker continues the checkpoint: its gathered examples are those consumed since. */
  ghost predicate Sound(s: State, data: seq<Record>) {
    && DiskOk(s.disk, data)
    && (s.worker.Some? ==>
        var c, w := Restored(s.disk), s.worker.value;
        && w.fileIdx == c.fileIdx && w.filenames == c.files && w.written == c.written
        && c.written <= w.cursor <= |data| && w.pending == data[c.written..w.cursor])
  }

  lemma GatherOk(s: State, data: seq<Record>)
    requires Sound(s, data) && s.worker.Some? && s.worker.value.cursor < |data|
    ensures Sound(s.(worker := Some(Gathered(s.worker.value, data[s.worker.value.cursor]))), data)
  {
    var c, w := Restored(s.disk), s.worker.value;
    assert data[c.written..w.cursor] + [data[w.cursor]] == data[c.written..w.cursor + 1];
  }

  lemma WriteFileOk(s: State, data: seq<Record>)
    requires Sound(s, data) && s.worker.Some?
    ensures Sound(FileWritten(s), data)
  {
    var w := s.worker.value;
    NextFileIsFree(s.disk, data, w.pending);
    FileFinished(TableWritten(s).disk, data, w.cursor);
    assert data[w.cursor..w.cursor] == [];
  }

  lemma StepKeepsSound(s: State, step: Step, data: seq<Record>)
    requires Sound(s, data) && Next(s, step, data).Some?
    ensures Sound(Next(s, step, data).value, data)
  {
    match step
    case Start =>
    case Gather => GatherOk(s, data);
    case WriteFile => WriteFileOk(s, data);
    case ConnectionError =>
    case ErrorInWrite(torn) => NextFileIsFree(s.disk, data, torn);
    case Kill =>
    case KillInWrite(torn) => NextFileIsFree(s.disk, data, torn);
  }

  function Run(s: State, steps: seq<Step>, data: seq<Record>): Option<State>
    decreases |steps|
  {
    if steps == [] then Some(s)
    else
      var s' := Next(s, steps[0], data);
      if s'.None? then None else Run(s'.value, steps[1..], data)
  }

  lemma {:induction false} RunKeepsSound(s: State, steps: seq<Step>, data: seq<Record>)
    requires Sound(s, data) && Run(s, steps, data).Some?
    ensures Sound(Run(s, steps, data).value, data)
    decreases |steps|
  {
    hide Sound, Next;
    if steps != [] {
      StepKeepsSound(s, steps[0], data);
      RunKeepsSound(Next(s, steps[0], data).value, steps[1..], data);
    }
  }

  /** Over every schedule of errors, kills and re-runs from an empty directory: the written files and the gathered
      examples are exactly the examples consumed, so a worker at the end with nothing left over has the whole shard. */
  lemma ExactlyOnce(steps: seq<Step>, data: seq<Record>)
    requires Run(State(Disk(map[], None), None), steps, data).Some?
    ensures var s := Run(State(Disk(map[], None), None), steps, data).value;
            && DiskOk(s.disk, data)
            && (s.worker.Some? ==>
                var w := s.worker.value;
                && w.cursor <= |data| && w.written + |w.pending| == w.cursor
                && Exist(s.disk.files, w.filenames)
                && Concat(s.disk.files, w.filenames) + w.pending == data[..w.cursor])
  {
    var init := State(Disk(map[], None), None);
    assert Sound(init, data);
    RunKeepsSound(init, steps, data);
    hide Run;
    var s := Run(init, steps, data).value;
    if s.worker.Some? {
      var c, w := Restored(s.disk), s.worker.value;
      assert data[..c.written] + data[c.written..w.cursor] == data[..w.cursor];
    }
  }

  // ---- How far an attempt gets ----

  /** What a table write does: succeed, or leave something behind and raise a connection error or another exception. */
  datatype Fault = NoFault | Caught(torn: seq<Record>) | Uncaught(torn: seq<Record>)

  datatype Ending = Finished | Failed | Crashed

  /** Record k is followed by a file write that succeeds. */
  predicate Saves(full: (nat, nat) -> bool, writes: (nat, nat) -> Fault, attempt: nat, k: nat) {
    full(attempt, k) && writes(attempt, k).NoFault?
  }

  /** The write behind record k raises. */
  predicate Breaks(full: (nat, nat) -> bool, writes: (nat, nat) -> Fault, attempt: nat, k: nat) {
    full(attempt, k) && !writes(attempt, k).NoFault?
  }

  /** An attempt that starts at record `from` gathers every record up to `end`, where the data end, a fetch fails, or the
      write behind the last record raises, and leaves its checkpoint at `to`, behind the last file it wrote. */
  ghost predicate Reaches(fails: (nat, nat) -> bool, full: (nat, nat) -> bool, writes: (nat, nat) -> Fault, size: nat,
                          attempt: nat, from: nat, to: nat, end: nat, result: Ending) {
    && from <= to <= end <= size
    && (forall k :: from <= k < end ==> !fails(attempt, k))
    && (forall k :: from <= k < end - 1 ==> !Breaks(full, writes, attempt, k))
    && (forall k :: to <= k < end ==> !Saves(full, writes, attempt, k))
    && (to > from ==> Saves(full, writes, attempt, to - 1))
    && var broken := from < end && Breaks(full, writes, attempt, end - 1);
       match result
       case Finished => !broken && !fails(attempt, end) && end == size
       case Failed => if broken then writes(attempt, end - 1).Caught? else fails(attempt, end)
       case Crashed => broken && writes(attempt, end - 1).Uncaught?
  }

  lemma EndOfData(fails: (nat, nat) -> bool, full: (nat, nat) -> bool, writes: (nat, nat) -> Fault, size: nat,
                  attempt: nat, from: nat, to: nat, end: nat)
    requires Reaches(fails, full, writes, size, attempt, from, to, end, Finished)
    ensures end == size
  {
  }

  lemma SoundParts(s: State, data: seq<Record>)
    requires Sound(s, data) && s.worker.Some?
    ensures DiskOk(s.disk, data) && Restored(s.disk).written <= s.worker.value.cursor <= |data|
  {
  }

  /** The attempts of a call: each starts where the one before left its checkpoint, all but the last met a connection
      error, and the last one did so only if it was the tenth. */
  ghost predicate Attempted(fails: (nat, nat) -> bool, full: (nat, nat) -> bool, writes: (nat, nat) -> Fault, size: nat,
                            starts: seq<nat>, ends: seq<nat>, last: Ending) {
    && 0 < |ends| <= MAX_RETRIES && |starts| == |ends| + 1
    && (forall a :: 0 <= a < |ends| ==>
         Reaches(fails, full, writes, size, a, starts[a], starts[a + 1], ends[a], if a < |ends| - 1 then Failed else last))
    && (last == Failed ==> |ends| == MAX_RETRIES)
  }

  // ---- process_shard on mutable state ----

  class ShardWorker {
    var files: map<nat, seq<Record>>
    var saved: Option<Checkpoint>
    var localFileIdx: nat
    var totalWritten: nat
    var filenames: seq<nat>
    var cursor: nat
    var fileExamples: seq<Record>

    constructor (disk: Disk)
      ensures this.Directory() == disk
    {
      files, saved := disk.files, disk.saved;
      localFileIdx, totalWritten, filenames, cursor, fileExamples := 0, 0, [], 0, [];
    }

    function Directory(): Disk
      reads this
    {
      Disk(files, saved)
    }

    function View(): State
      reads this
    {
      State(Directory(), Some(Worker(localFileIdx, totalWritten, filenames, cursor, fileExamples)))
    }

    method LoadAndRestore()
      modifies this
      ensures Directory() == old(Directory()) && View() == Started(Directory())
    {
      var c := if saved.Some? then saved.value else FRESH;
      localFileIdx, totalWritten, filenames, cursor := c.fileIdx, c.written, c.files, c.cursor;
      fileExamples := [];
    }

    /** `write_file`; when the table write raises, it leaves that file behind and changes nothing else. */
    method WriteFile(fault: Fault)
      modifies this
      ensures View() == match fault
                        case NoFault => FileWritten(old(View()))
                        case Caught(torn) => TableLeft(old(View()), torn)
                        case Uncaught(torn) => TableLeft(old(View()), torn)
    {
      files := files[localFileIdx := if fault.NoFault? then fileExamples else fault.torn];
      if !fault.NoFault? { return; }
      filenames := filenames + [localFileIdx];
      totalWritten := totalWritten + |fileExamples|;
      localFileIdx := localFileIdx + 1;
      saved := Some(Checkpoint(localFileIdx, totalWritten, filenames, cursor));
      fileExamples := [];
    }

    /** One turn of the loop: an example gathered and, when the file is full, the file written. */
    method AddExample(data: seq<Record>, full: bool, fault: Fault)
      requires Sound(View(), data) && cursor < |data|
      modifies this
      ensures cursor == old(cursor) + 1 && DiskOk(Directory(), data)
      ensures !(full && !fault.NoFault?) ==> Sound(View(), data)
      ensures Restored(Directory()).written ==
              if full && fault.NoFault? then cursor else old(Restored(Directory()).written)
    {
      hide DiskOk, Concat;
      GatherOk(View(), data);
      fileExamples := fileExamples + [data[cursor]];
      cursor := cursor + 1;
      if full {
        if fault.NoFault? { WriteFileOk(View(), data); } else { NextFileIsFree(Directory(), data, fault.torn); }
        WriteFile(fault);
      }
    }

    /** `for example in ds`, until the data ends, a connection error is caught, or a write raises something else. */
    method StreamExamples(data: seq<Record>, attempt: nat, fails: (nat, nat) -> bool, full: (nat, nat) -> bool,
                          writes: (nat, nat) -> Fault) returns (end: Ending)
      requires Sound(View(), data) && cursor == Restored(Directory()).written
      modifies this
      ensures DiskOk(Directory(), data) && (end == Finished ==> Sound(View(), data))
      ensures Reaches(fails, full, writes, |data|, attempt, old(cursor), Restored(Directory()).written, cursor, end)
    {
      hide DiskOk, Concat, Sound;
      SoundParts(View(), data);
      while !fails(attempt, cursor) && cursor < |data|
        invariant Sound(View(), data) && old(cursor) <= Restored(Directory()).written <= cursor <= |data|
        invariant forall k :: old(cursor) <= k < cursor ==> !fails(attempt, k) && !Breaks(full, writes, attempt, k)
        invariant forall k :: Restored(Directory()).written <= k < cursor ==> !Saves(full, writes, attempt, k)
        invariant var to := Restored(Directory()).written; to > old(cursor) ==> Saves(full, writes, attempt, to - 1)
        decreases |data| - cursor
      {
        var k := cursor;
        var fault := writes(attempt, k);
        AddExample(data, full(attempt, k), fault);
        if full(attempt, k) && fault.Caught? { return Failed; }
        if full(attempt, k) && fault.Uncaught? { return Crashed; }
      }
      SoundParts(View(), data);
      end := if fails(attempt, cursor) then Failed else Finished;
    }

    /** Runs until the shard is written, the retries are used up, or an exception escapes. `fails(attempt, k)` makes
        fetching record k raise a connection error in that attempt, `full(attempt, k)` ends a file after record k, and
        `writes(attempt, k)` says what that write does; the write of the rest, after the loop, is outside the handler. */
    method ProcessShard(data: seq<Record>, fails: (nat, nat) -> bool, full: (nat, nat) -> bool,
                        writes: (nat, nat) -> Fault) returns (end: Ending)
      requires DiskOk(Directory(), data)
      modifies this
      ensures DiskOk(Directory(), data)
      ensures end == Finished ==> totalWritten == |data| && Exist(files, filenames) && Concat(files, filenames) == data
      ensures end == Finished ==> Restored(Directory()).written == |data|
      ensures exists starts, ends, last ::
                && Attempted(fails, full, writes, |data|, starts, ends, last)
                && starts[0] == old(Restored(Directory()).written)
                && (end == last ||
                    (last == Finished && end == Crashed && starts[|ends|] < |data| &&
                     !writes(|ends| - 1, |data|).NoFault?))
                && (end != Finished ==> Restored(Directory()).written == starts[|ends|])
    {
      hide Reaches, Concat;
      ghost var starts, ends := [Restored(Directory()).written], [];
      LoadAndRestore();
      var attempt: nat := 0;
      while true
        invariant attempt < MAX_RETRIES && Sound(View(), data)
        invariant |ends| == attempt && |starts| == attempt + 1
        invariant starts[0] == old(Restored(Directory()).written)
        invariant cursor == starts[attempt] == Restored(Directory()).written
        invariant forall a :: 0 <= a < attempt ==>
                    Reaches(fails, full, writes, |data|, a, starts[a], starts[a + 1], ends[a], Failed)
        decreases MAX_RETRIES - attempt
      {
        end := StreamExamples(data, attempt, fails, full, writes);
        starts, ends := starts + [Restored(Directory()).written], ends + [cursor];
        assert Reaches(fails, full, writes, |data|, attempt, starts[attempt], starts[attempt + 1], ends[attempt], end);
        assert end != Failed || attempt == MAX_RETRIES - 1 ==>
            Attempted(fails, full, writes, |data|, starts, ends, end);
        if end == Crashed { return; }
        if end == Finished { break; }
        if attempt >= MAX_RETRIES - 1 { return; }
        LoadAndRestore();
        attempt := attempt + 1;
      }
      EndOfData(fails, full, writes, |data|, attempt, starts[attempt], starts[attempt + 1], cursor);
      if fileExamples != [] {
        var fault := writes(attempt, cursor);
        if fault.NoFault? { WriteFileOk(View(), data); } else { NextFileIsFree(Directory(), data, fault.torn); }
        WriteFile(fault);
        if !fault.NoFault? { return Crashed; }
      }
      assert data[..|data|] == data;
    }
  }
}
