/** Numbered files of one worker, and the checkpoint that names the finished ones. */
module ShardFiles {
  import opened Wrappers
  import opened Sequences

  type Record = string

  /** File number, records written, finished files and the dataset cursor, saved together. */
  datatype Checkpoint = Checkpoint(fileIdx: nat, written: nat, files: seq<nat>, cursor: nat)

  /** The output directory: file contents by number, and the checkpoint file. */
  datatype Disk = Disk(files: map<nat, seq<Record>>, saved: Option<Checkpoint>)

  const FRESH := Checkpoint(0, 0, [], 0)

  /** `load_and_restore`: the saved state, or the initial one. */
  function Restored(disk: Disk): Checkpoint {
    if disk.saved.Some? then disk.saved.value else FRESH
  }

  ghost predicate Exist(files: map<nat, seq<Record>>, names: seq<nat>) {
    forall i :: 0 <= i < |names| ==> names[i] in files
  }

  /** The contents of the named files, one after the other. */
  function Concat(files: map<nat, seq<Record>>, names: seq<nat>): seq<Record>
    requires Exist(files, names)
  {
    if names == [] then []
    else
      assert Exist(files, names[..|names| - 1]);
      Concat(files, names[..|names| - 1]) + files[names[|names| - 1]]
  }

  /** The finished files are 0, 1, ... below the saved number and hold exactly the first `written` records; no file with
      a greater number exists. */
  ghost predicate DiskOk(disk: Disk, data: seq<Record>) {
    var c := Restored(disk);
    && c.cursor == c.written <= |data|
    && c.files == Upto(c.fileIdx)
    && Exist(disk.files, c.files)
    && Concat(disk.files, c.files) == data[..c.written]
    && forall k :: k in disk.files ==> k <= c.fileIdx
  }

  lemma {:induction false} ConcatSame(a: map<nat, seq<Record>>, b: map<nat, seq<Record>>, names: seq<nat>)
    requires Exist(a, names) && forall i :: 0 <= i < |names| ==> names[i] in b && b[names[i]] == a[names[i]]
    ensures Exist(b, names) && Concat(b, names) == Concat(a, names)
  {
    if names != [] {
      var front := names[..|names| - 1];
      assert forall i :: 0 <= i < |front| ==> front[i] == names[i];
      ConcatSame(a, b, front);
    }
  }

  lemma ConcatSnoc(files: map<nat, seq<Record>>, names: seq<nat>, name: nat)
    requires Exist(files, names) && name in files
    ensures Exist(files, names + [name]) && Concat(files, names + [name]) == Concat(files, names) + files[name]
  {
    assert (names + [name])[..|names|] == names;
  }

  /** Whatever happens to the file numbered as the checkpoint's next one, the checkpoint stays right. */
  lemma NextFileIsFree(disk: Disk, data: seq<Record>, content: seq<Record>)
    requires DiskOk(disk, data)
    ensures DiskOk(disk.(files := disk.files[Restored(disk).fileIdx := content]), data)
  {
    var c := Restored(disk);
    ConcatSame(disk.files, disk.files[c.fileIdx := content], c.files);
  }

  /** Finishing the next file and saving the checkpoint keeps the disk right. */
  lemma FileFinished(disk: Disk, data: seq<Record>, upto: nat)
    requires DiskOk(disk, data) && Restored(disk).written <= upto <= |data|
    requires var c := Restored(disk); c.fileIdx in disk.files && disk.files[c.fileIdx] == data[c.written..upto]
    ensures var c := Restored(disk);
            DiskOk(Disk(disk.files, Some(Checkpoint(c.fileIdx + 1, upto, c.files + [c.fileIdx], upto))), data)
  {
    var c := Restored(disk);
    ConcatSnoc(disk.files, c.files, c.fileIdx);
    assert Upto(c.fileIdx + 1) == Upto(c.fileIdx) + [c.fileIdx];
    assert data[..c.written] + data[c.written..upto] == data[..upto];
  }
}
