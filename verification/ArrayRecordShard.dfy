/** One ArrayRecord worker: records stream into the open file; a full file is closed and the checkpoint saved; a
    connection error rolls back to the checkpoint. Which record fills a file, and which fetch fails, is arbitrary. */
module ArrayRecordShard {
  import opened Wrappers
  import opened ShardFiles

  const MAX_RETRIES: nat := 10

  /** The closure variables of `process_shard`. */
  datatype Worker = Worker(fileIdx: nat, written: nat, filenames: seq<nat>, cursor: nat)

  datatype State = State(disk: Disk, worker: Option<Worker>)

  function Opened(disk: Disk, w: Worker): State {
    State(disk.(files := disk.files[w.fileIdx := []]), Some(w.(filenames := w.filenames + [w.fileIdx])))
  }

  /** Loading the checkpoint and opening the file it numbers, which truncates that file. */
  function Started(disk: Disk): State {
    var c := Restored(disk);
    Opened(disk, Worker(c.fileIdx, c.written, c.files, c.cursor))
  }

  /** One record written to the open file. */
  function Wrote(s: State, data: seq<Record>): State
    requires s.worker.Some? && s.worker.value.cursor < |data| && s.worker.value.fileIdx in s.disk.files
  {
    var w := s.worker.value;
    State(s.disk.(files := s.disk.files[w.fileIdx := s.disk.files[w.fileIdx] + [data[w.cursor]]]),
          Some(w.(written := w.written + 1, cursor := w.cursor + 1)))
  }

  /** The full file closed, the checkpoint saved, the next file opened. */
  function Rotated(s: State): State
    requires s.worker.Some?
  {
    var w := s.worker.value.(fileIdx := s.worker.value.fileIdx + 1);
    Opened(s.disk.(saved := Some(Checkpoint(w.fileIdx, w.written, w.filenames, w.cursor))), w)
  }

  datatype Step = Start | Write | Rotate | ConnectionError | Kill(torn: seq<Record>)

  /** A step, None when not possible. A killed process leaves anything in the file it had open. */
  function Next(s: State, step: Step, data: seq<Record>): Option<State> {
    match step
    case Start => if s.worker.None? then Some(Started(s.disk)) else None
    case Write =>
      if s.worker.Some? && s.worker.value.cursor < |data| && s.worker.value.fileIdx in s.disk.files
      then Some(Wrote(s, data)) else None
    case Rotate => if s.worker.Some? then Some(Rotated(s)) else None
    case ConnectionError => if s.worker.Some? then Some(Started(s.disk)) else None
    case Kill(torn) =>
      if s.worker.Some?
      then Some(State(s.disk.(files := s.disk.files[s.worker.value.fileIdx := torn]), None)) else None
  }

  /** Worker and disk agree: the open file holds the records since the checkpoint. */
  ghost predicate Sound(s: State, data: seq<Record>) {
    && DiskOk(s.disk, data)
    && (s.worker.Some? ==>
        var c, w := Restored(s.disk), s.worker.value;
        && w.fileIdx == c.fileIdx && w.filenames == c.files + [w.fileIdx]
        && w.cursor == w.written && c.written <= w.written <= |data|
        && w.fileIdx in s.disk.files && s.disk.files[w.fileIdx] == data[c.written..w.written])
  }

  lemma StartOk(disk: Disk, data: seq<Record>)
    requires DiskOk(disk, data)
    ensures Sound(Started(disk), data)
  {
    NextFileIsFree(disk, data, []);
  }

  lemma WriteOk(s: State, data: seq<Record>)
    requires Sound(s, data) && s.worker.Some? && s.worker.value.cursor < |data|
    ensures Sound(Wrote(s, data), data)
  {
    var c, w := Restored(s.disk), s.worker.value;
    NextFileIsFree(s.disk, data, s.disk.files[w.fileIdx] + [data[w.cursor]]);
    assert data[c.written..w.written] + [data[w.cursor]] == data[c.written..w.written + 1];
  }

  lemma RotateOk(s: State, data: seq<Record>)
    requires Sound(s, data) && s.worker.Some?
    ensures Sound(Rotated(s), data)
  {
    FileFinished(s.disk, data, s.worker.value.written);
    var saved := Disk(s.disk.files, Rotated(s).disk.saved);
    NextFileIsFree(saved, data, []);
  }

  /** Every step of every run, kills included, keeps the disk right. */
  lemma StepKeepsOk(s: State, step: Step, data: seq<Record>)
    requires Sound(s, data) && Next(s, step, data).Some?
    ensures Sound(Next(s, step, data).value, data)
  {
    match step
    case Start => StartOk(s.disk, data);
    case Write => WriteOk(s, data);
    case Rotate => RotateOk(s, data);
    case ConnectionError => StartOk(s.disk, data);
    case Kill(torn) => NextFileIsFree(s.disk, data, torn);
  }

  function Run(s: State, steps: seq<Step>, data: seq<Record>): Option<State>
    decreases |steps|
  {
    if steps == [] then Some(s)
    else
      var s' := Next(s, steps[0], data);
      if s'.None? then None else Run(s'.value, steps[1..], data)
  }

  lemma {:induction false} RunKeepsOk(s: State, steps: seq<Step>, data: seq<Record>)
    requires Sound(s, data) && Run(s, steps, data).Some?
    ensures Sound(Run(s, steps, data).value, data)
    decreases |steps|
  {
    hide Sound, Next;
    if steps != [] {
      StepKeepsOk(s, steps[0], data);
      RunKeepsOk(Next(s, steps[0], data).value, steps[1..], data);
    }
  }

  /** Exactly once: from an empty directory, under any schedule of errors, kills and re-runs, the checkpointed files hold
      exactly the first `written` records, no later file exists, and a worker that reached the end lists files that
      hold the whole shard in order. */
  lemma ExactlyOnce(steps: seq<Step>, data: seq<Record>)
    requires Run(State(Disk(map[], None), None), steps, data).Some?
    ensures var s := Run(State(Disk(map[], None), None), steps, data).value;
            var c := Restored(s.disk);
            && c.written <= |data|
            && Exist(s.disk.files, c.files) && Concat(s.disk.files, c.files) == data[..c.written]
            && (forall k :: k in s.disk.files ==> k <= c.fileIdx)
            && (s.worker.Some? && s.worker.value.cursor == |data| ==>
                Exist(s.disk.files, s.worker.value.filenames) && Concat(s.disk.files, s.worker.value.filenames) == data)
  {
    hide Run, Concat;
    var init := State(Disk(map[], None), None);
    NothingYet(data);
    RunKeepsOk(init, steps, data);
    var s := Run(init, steps, data).value;
    if s.worker.Some? {
      ListedFiles(s, data);
      assert data[..|data|] == data;
    }
  }

  lemma NothingYet(data: seq<Record>)
    ensures Sound(State(Disk(map[], None), None), data)
  {
  }

  /** The files a worker lists hold exactly the records it has consumed. */
  lemma ListedFiles(s: State, data: seq<Record>)
    requires Sound(s, data) && s.worker.Some?
    ensures Exist(s.disk.files, s.worker.value.filenames)
    ensures Concat(s.disk.files, s.worker.value.filenames) == data[..s.worker.value.cursor]
  {
    var c, w := Restored(s.disk), s.worker.value;
    ConcatSnoc(s.disk.files, c.files, w.fileIdx);
    assert data[..c.written] + data[c.written..w.written] == data[..w.written];
  }

  // ---- How far an attempt gets ----

  /** An attempt that starts at record `from` fetches every record up to `end`, where a fetch fails or the data end, and
      leaves its checkpoint at `to`, right behind the last record that filled a file. */
  ghost predicate Reaches(fails: (nat, nat) -> bool, full: (nat, nat) -> bool, size: nat, attempt: nat, from: nat, to: nat,
                          end: nat) {
    && from <= to <= end <= size
    && (forall k :: from <= k < end ==> !fails(attempt, k)) && (fails(attempt, end) || end == size)
    && (forall k :: to <= k < end ==> !full(attempt, k)) && (to > from ==> full(attempt, to - 1))
  }

  lemma StartsAtCheckpoint(disk: Disk, data: seq<Record>)
    requires DiskOk(disk, data)
    ensures var s := Started(disk);
            Restored(s.disk) == Restored(disk) && s.worker.Some? && s.worker.value.cursor == Restored(disk).written
  {
  }

  lemma EndOfData(fails: (nat, nat) -> bool, full: (nat, nat) -> bool, size: nat, attempt: nat, from: nat, to: nat, end: nat)
    requires Reaches(fails, full, size, attempt, from, to, end) && !fails(attempt, end)
    ensures end == size
  {
  }

  /** The attempts of a call: each starts where the one before left its checkpoint, all but the last met a failing fetch,
      and there are ten of them unless one got to the end of the data. */
  ghost predicate Attempted(fails: (nat, nat) -> bool, full: (nat, nat) -> bool, size: nat, starts: seq<nat>,
                            ends: seq<nat>, done: bool) {
    && 0 < |ends| <= MAX_RETRIES && |starts| == |ends| + 1
    && (forall a :: 0 <= a < |ends| ==> Reaches(fails, full, size, a, starts[a], starts[a + 1], ends[a]))
    && (forall a :: 0 <= a < |ends| ==> (fails(a, ends[a]) <==> a < |ends| - 1 || !done))
    && (!done ==> |ends| == MAX_RETRIES)
  }

  // ---- process_shard on mutable state ----

  /** The worker's variables and its output directory. */
  class ShardWorker {
    var files: map<nat, seq<Record>>
    var saved: Option<Checkpoint>
    var localFileIdx: nat
    var totalWritten: nat
    var filenames: seq<nat>
    var cursor: nat
    var writerOpen: bool

    constructor (disk: Disk)
      ensures this.Directory() == disk && !writerOpen
    {
      files, saved := disk.files, disk.saved;
      localFileIdx, totalWritten, filenames, cursor, writerOpen := 0, 0, [], 0, false;
    }

    function Directory(): Disk
      reads this
    {
      Disk(files, saved)
    }

    function View(): State
      reads this
    {
      State(Directory(), if writerOpen then Some(Worker(localFileIdx, totalWritten, filenames, cursor)) else None)
    }

    method LoadAndRestore()
      modifies this`localFileIdx, this`totalWritten, this`filenames, this`cursor
      ensures Checkpoint(localFileIdx, totalWritten, filenames, cursor) == Restored(Directory())
    {
      var c := if saved.Some? then saved.value else FRESH;
      localFileIdx, totalWritten, filenames, cursor := c.fileIdx, c.written, c.files, c.cursor;
    }

    method OpenWriter()
      requires !writerOpen
      modifies this`files, this`filenames, this`writerOpen
      ensures View() == Opened(old(Directory()), Worker(localFileIdx, totalWritten, old(filenames), cursor))
    {
      files := files[localFileIdx := []];
      filenames := filenames + [localFileIdx];
      writerOpen := true;
    }

    method SaveCheckpoint()
      modifies this`saved
      ensures saved == Some(Checkpoint(localFileIdx, totalWritten, filenames, cursor))
    {
      saved := Some(Checkpoint(localFileIdx, totalWritten, filenames, cursor));
    }

    /** One example; `full` says whether the file reached its size. */
    method WriteExample(data: seq<Record>, full: bool)
      requires writerOpen && cursor < |data| && localFileIdx in files
      modifies this
      ensures View() == if full then Rotated(Wrote(old(View()), data)) else Wrote(old(View()), data)
    {
      files := files[localFileIdx := files[localFileIdx] + [data[cursor]]];
      cursor, totalWritten := cursor + 1, totalWritten + 1;
      if full {
        writerOpen := false;
        localFileIdx := localFileIdx + 1;
        SaveCheckpoint();
        OpenWriter();
      }
    }

    method Restart()
      requires !writerOpen
      modifies this
      ensures writerOpen && View() == Started(old(Directory()))
    {
      LoadAndRestore();
      OpenWriter();
    }

    /** `for example in ds`, until the data or the connection ends. */
    method StreamExamples(data: seq<Record>, attempt: nat, fails: (nat, nat) -> bool, full: (nat, nat) -> bool)
      returns (failed: bool)
      requires writerOpen && Sound(View(), data)
      modifies this
      requires cursor == Restored(Directory()).written
      ensures writerOpen && Sound(View(), data) && (failed <==> fails(attempt, cursor))
      ensures Reaches(fails, full, |data|, attempt, old(cursor), Restored(Directory()).written, cursor)
    {
      hide DiskOk, Concat;
      while !fails(attempt, cursor) && cursor < |data|
        invariant writerOpen && Sound(View(), data)
        invariant old(cursor) <= Restored(Directory()).written <= cursor <= |data|
        invariant forall k :: old(cursor) <= k < cursor ==> !fails(attempt, k)
        invariant forall k :: Restored(Directory()).written <= k < cursor ==> !full(attempt, k)
        invariant var to := Restored(Directory()).written; to > old(cursor) ==> full(attempt, to - 1)
        decreases |data| - cursor
      {
        WriteOk(View(), data);
        RotateOk(Wrote(View(), data), data);
        WriteExample(data, full(attempt, cursor));
      }
      failed := fails(attempt, cursor);
    }

    /** Runs until the shard is written or the retries are used up. `fails(attempt, k)` makes fetching record k raise a
        connection error in that attempt, `full(attempt, k)` ends a file after record k. */
    method ProcessShard(data: seq<Record>, fails: (nat, nat) -> bool, full: (nat, nat) -> bool) returns (done: bool)
      requires !writerOpen && DiskOk(Directory(), data)
      modifies this
      ensures DiskOk(Directory(), data) && !writerOpen
      ensures done ==> totalWritten == |data| && Exist(files, filenames) && Concat(files, filenames) == data
      ensures exists starts, ends ::
                && Attempted(fails, full, |data|, starts, ends, done)
                && starts[0] == old(Restored(Directory()).written)
                && starts[|ends|] == Restored(Directory()).written
    {
      hide DiskOk, Reaches, Concat, Started;
      ghost var starts, ends := [Restored(Directory()).written], [];
      StartOk(Directory(), data);
      StartsAtCheckpoint(Directory(), data);
      Restart();
      var attempt: nat := 0;
      while true
        invariant attempt < MAX_RETRIES && writerOpen && Sound(View(), data)
        invariant |ends| == attempt && |starts| == attempt + 1
        invariant starts[0] == old(Restored(Directory()).written)
        invariant cursor == starts[attempt] == Restored(Directory()).written
        invariant forall a :: 0 <= a < attempt ==>
                    Reaches(fails, full, |data|, a, starts[a], starts[a + 1], ends[a]) && fails(a, ends[a])
        decreases MAX_RETRIES - attempt
      {
        var failed := StreamExamples(data, attempt, fails, full);
        starts, ends := starts + [Restored(Directory()).written], ends + [cursor];
        assert Reaches(fails, full, |data|, attempt, starts[attempt], starts[attempt + 1], ends[attempt]);
        if !failed {
          ListedFiles(View(), data);
          EndOfData(fails, full, |data|, attempt, starts[attempt], starts[attempt + 1], cursor);
          assert data[..|data|] == data;
        }
        assert !failed || attempt == MAX_RETRIES - 1 ==> Attempted(fails, full, |data|, starts, ends, !failed);
        writerOpen := false;
        if !failed { return true; }
        if attempt >= MAX_RETRIES - 1 { return false; }
        StartOk(Directory(), data);
        StartsAtCheckpoint(Directory(), data);
        Restart();
        attempt := attempt + 1;
      }
    }
  }
}
