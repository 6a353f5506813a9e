/** Merging the smallest files into one, so that a wanted number of files remains. */
module ParquetMerge {
  import opened Sequences
  import opened ShardFiles

  ghost predicate Ascending(names: seq<nat>, size: nat -> nat) {
    forall i, j :: 0 <= i < j < |names| ==> size(names[i]) <= size(names[j])
  }

  // ---- sorted(..., key=size) ----

  function Insert(names: seq<nat>, n: nat, size: nat -> nat): seq<nat> {
    if names == [] || size(names[|names| - 1]) <= size(n) then names + [n]
    else Insert(names[..|names| - 1], n, size) + [names[|names| - 1]]
  }

  function SortBySize(names: seq<nat>, size: nat -> nat): seq<nat> {
    if names == [] then [] else Insert(SortBySize(names[..|names| - 1], size), names[|names| - 1], size)
  }

  lemma {:induction false} InsertOrder(names: seq<nat>, n: nat, size: nat -> nat)
    requires Distinct(names) && n !in names && Ascending(names, size)
    ensures var r := Insert(names, n, size);
            && |r| == |names| + 1 && (forall x :: x in r <==> x in names || x == n)
            && Distinct(r) && Ascending(r, size)
  {
    if names != [] && size(names[|names| - 1]) > size(n) {
      var front, last := names[..|names| - 1], names[|names| - 1];
      assert names == front + [last];
      InsertOrder(front, n, size);
      var r := Insert(front, n, size);
      forall i | 0 <= i < |r| ensures r[i] != last && size(r[i]) <= size(last) {
        assert r[i] in r;
        if r[i] in front { var k :| 0 <= k < |front| && front[k] == r[i]; }
      }
    }
  }

  lemma {:induction false} InsertRows(names: seq<nat>, n: nat, size: nat -> nat, files: map<nat, seq<Record>>)
    requires Exist(files, names) && n in files
    ensures Exist(files, Insert(names, n, size))
    ensures multiset(Concat(files, Insert(names, n, size))) == multiset(Concat(files, names)) + multiset(files[n])
  {
    if names == [] || size(names[|names| - 1]) <= size(n) {
      ConcatSnoc(files, names, n);
    } else {
      var front, last := names[..|names| - 1], names[|names| - 1];
      InsertRows(front, n, size, files);
      ConcatSnoc(files, Insert(front, n, size), last);
      hide Insert;
    }
  }

  /** Sorting by size keeps the files and their rows. */
  lemma {:induction false} SortFacts(names: seq<nat>, size: nat -> nat, files: map<nat, seq<Record>>)
    requires Exist(files, names) && Distinct(names)
    ensures var r := SortBySize(names, size);
            && |r| == |names| && (forall x :: x in r <==> x in names)
            && Distinct(r) && Ascending(r, size) && Exist(files, r)
            && multiset(Concat(files, r)) == multiset(Concat(files, names))
  {
    if names != [] {
      var front, last := names[..|names| - 1], names[|names| - 1];
      assert names == front + [last];
      SortFacts(front, size, files);
      ConcatSnoc(files, front, last);
      InsertOrder(SortBySize(front, size), last, size);
      InsertRows(SortBySize(front, size), last, size, files);
      hide Concat, Insert, Ascending, Distinct;
    }
  }

  lemma {:induction false} ConcatSplit(files: map<nat, seq<Record>>, a: seq<nat>, b: seq<nat>)
    requires Exist(files, a) && Exist(files, b)
    ensures Exist(files, a + b) && Concat(files, a + b) == Concat(files, a) + Concat(files, b)
  {
    if b == [] {
      assert a + b == a;
    } else {
      var front, last := b[..|b| - 1], b[|b| - 1];
      assert b == front + [last] && a + b == a + front + [last];
      ConcatSplit(files, a, front);
      ConcatSnoc(files, a + front, last);
      ConcatSnoc(files, front, last);
      hide Concat;
      assert Concat(files, a) + (Concat(files, front) + files[last]) == Concat(files, a) + Concat(files, front) + files[last];
    }
  }

  // ---- The merge ----

  /** The number of smallest files that become one. */
  function MergeCount(have: nat, want: nat): nat
    requires have > want
  {
    have - want + 1
  }

  method MergeSmallest(before: map<nat, seq<Record>>, names: seq<nat>, numFiles: nat, size: nat -> nat, merged: nat)
    returns (files: map<nat, seq<Record>>, all: seq<nat>)
    requires Exist(before, names) && Distinct(names) && numFiles > 0 && merged !in before
    ensures Exist(files, all) && Distinct(all)
    ensures |all| == if |names| > numFiles then numFiles else |names|
    ensures multiset(Concat(files, all)) == multiset(Concat(before, names))
    ensures |names| <= numFiles ==> files == before && all == names
    ensures |names| > numFiles ==> merged in files && merged in all
    ensures forall x :: x in before && x !in names ==> x in files && files[x] == before[x]
    ensures forall x :: x in files ==> x == merged || (x in before && files[x] == before[x])
    ensures forall x, y :: x in names && x !in files && y in names && y in files ==> size(x) <= size(y)
  {
    if |names| <= numFiles { return before, names; }
    hide Concat, SortBySize, Ascending;
    var infos := SortBySize(names, size);
    SortFacts(names, size, before);
    var n := MergeCount(|names|, numFiles);
    files, all := MergeFirst(before, infos, n, merged);
    MergedAreSmallest(names, infos, n, size);
  }

  /** Writes the first n files as one and deletes them. */
  method MergeFirst(before: map<nat, seq<Record>>, infos: seq<nat>, n: nat, merged: nat)
    returns (files: map<nat, seq<Record>>, all: seq<nat>)
    requires Exist(before, infos) && Distinct(infos) && n <= |infos| && merged !in before
    ensures all == infos[n..] + [merged] && Exist(files, all) && Distinct(all)
    ensures multiset(Concat(files, all)) == multiset(Concat(before, infos))
    ensures forall x :: x in files <==> x == merged || (x in before && x !in infos[..n])
    ensures forall x :: x in files && x != merged ==> files[x] == before[x]
  {
    hide Concat;
    var toMerge, remain := infos[..n], infos[n..];
    assert infos == toMerge + remain && Exist(before, toMerge) && Exist(before, remain);
    ConcatSplit(before, toMerge, remain);
    files := DeleteFiles(before[merged := Concat(before, toMerge)], toMerge);
    all := remain + [merged];
    forall i | 0 <= i < |remain| ensures remain[i] !in toMerge && remain[i] != merged {
      assert remain[i] == infos[n + i];
    }
    ConcatSame(before, files, remain);
    assert merged !in toMerge;
    ConcatSnoc(files, remain, merged);
  }

  /** The first n names in size order are no larger than the others. */
  lemma MergedAreSmallest(names: seq<nat>, infos: seq<nat>, n: nat, size: nat -> nat)
    requires n <= |infos| && Ascending(infos, size) && forall x :: x in names ==> x in infos
    ensures forall x, y :: x in infos[..n] && y in names && y !in infos[..n] ==> size(x) <= size(y)
  {
    PrefixHolds(infos, n);
    forall x, y | x in infos[..n] && y in names && y !in infos[..n] ensures size(x) <= size(y) {
      var i :| 0 <= i < n && infos[i] == x;
      var j :| 0 <= j < |infos| && infos[j] == y;
    }
  }

  lemma PrefixHolds(s: seq<nat>, n: nat)
    requires n <= |s|
    ensures forall k :: 0 <= k < n ==> s[k] in s[..n]
  {
    forall k | 0 <= k < n ensures s[k] in s[..n] { assert s[..n][k] == s[k]; }
  }

  method DeleteFiles(before: map<nat, seq<Record>>, names: seq<nat>) returns (files: map<nat, seq<Record>>)
    ensures forall x :: x in files <==> x in before && x !in names
    ensures forall x :: x in files ==> files[x] == before[x]
  {
    files := before;
    for k := 0 to |names|
      invariant forall x :: x in files <==> x in before && x !in names[..k]
      invariant forall x :: x in files ==> files[x] == before[x]
    {
      files := files - {names[k]};
    }
    assert names[..|names|] == names;
  }

  /** The directory when the merge was interrupted after deleting the first j merged files. */
  ghost function Interrupted(before: map<nat, seq<Record>>, infos: seq<nat>, n: nat, merged: nat, j: nat): map<nat, seq<Record>>
    requires Exist(before, infos) && j <= n <= |infos|
  {
    assert Exist(before, infos[..n]);
    before[merged := Concat(before, infos[..n])] - (set x | x in infos[..j])
  }

  /** Interrupting the merge loses no row: the merged file and the files not merged hold them all. But from the first
      deletion on, the names in the checkpoints no longer all exist, so a re-run cannot start from them. */
  lemma InterruptedMerge(before: map<nat, seq<Record>>, infos: seq<nat>, n: nat, merged: nat, j: nat)
    requires Exist(before, infos) && Distinct(infos) && j <= n <= |infos| && merged !in before
    ensures var files, left := Interrupted(before, infos, n, merged, j), infos[n..] + [merged];
            && Exist(files, left) && multiset(Concat(files, left)) == multiset(Concat(before, infos))
            && (Exist(files, infos) <==> j == 0)
  {
    hide Concat;
    var toMerge, remain := infos[..n], infos[n..];
    assert infos == toMerge + remain && Exist(before, toMerge) && Exist(before, remain);
    ConcatSplit(before, toMerge, remain);
    var files := Interrupted(before, infos, n, merged, j);
    MergedIsNew(before, infos, merged);
    forall i | 0 <= i < |remain| ensures remain[i] in files && files[remain[i]] == before[remain[i]] {
      assert remain[i] == infos[n + i];
      NotBefore(infos, j, n + i);
    }
    ConcatSame(before, files, remain);
    MergedStays(infos, merged, j);
    ConcatSnoc(files, remain, merged);
    if j > 0 {
      assert infos[..j][0] == infos[0];
    } else {
      assert infos[..0] == [];
    }
  }

  lemma MergedIsNew(before: map<nat, seq<Record>>, infos: seq<nat>, merged: nat)
    requires Exist(before, infos) && merged !in before
    ensures merged !in infos
  {
  }

  lemma MergedStays(infos: seq<nat>, merged: nat, j: nat)
    requires merged !in infos && j <= |infos|
    ensures merged !in infos[..j]
  {
  }

  lemma NotBefore(infos: seq<nat>, j: nat, i: nat)
    requires Distinct(infos) && j <= i < |infos|
    ensures infos[i] !in infos[..j]
  {
  }
}
