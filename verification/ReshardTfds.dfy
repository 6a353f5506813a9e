/** Resharding record files with parallel workers that take no locks: record g goes to shard g mod the shard count, and
    worker w reads the records g with g mod the worker count equal to w. */
module ReshardTfds {
  import opened Arithmetic

  // ---- Counting residues ----

  /** How many indices below n leave remainder r. */
  function Count(n: nat, m: nat, r: nat): nat
    requires m > 0
  {
    if n == 0 then 0 else Count(n - 1, m, r) + if (n - 1) % m == r then 1 else 0
  }

  lemma {:induction false} CountFormula(n: nat, m: nat, r: nat)
    requires r < m
    ensures Count(n, m, r) == n / m + if r < n % m then 1 else 0
  {
    if n == 0 { DivModUnique(0, m, 0); } else { CountFormula(n - 1, m, r); DivModStep(n - 1, m); }
  }

  /** There are as many indices i * m + r below n as indices below n with remainder r. */
  lemma IndexInRange(n: nat, m: nat, r: nat, i: nat)
    requires r < m && i < Count(n, m, r)
    ensures i * m + r < n
  {
    CountFormula(n, m, r);
    DivMod(n, m);
    if i < n / m { MulGap(i, n / m, m); }
  }

  lemma IndicesInRange(n: nat, m: nat, r: nat)
    requires r < m
    ensures forall i: nat :: i < Count(n, m, r) ==> i * m + r < n
  {
    forall i: nat | i < Count(n, m, r) ensures i * m + r < n { IndexInRange(n, m, r, i); }
  }

  // ---- One worker ----

  /** `ds.shard(numWorkers, w)`. */
  function WorkerData<R>(records: seq<R>, numWorkers: nat, w: nat): (r: seq<R>)
    requires w < numWorkers
    ensures |r| == Count(|records|, numWorkers, w)
    ensures forall i: nat :: i < |r| ==> i * numWorkers + w < |records| && r[i] == records[i * numWorkers + w]
  {
    IndicesInRange(|records|, numWorkers, w);
    seq(Count(|records|, numWorkers, w), i requires 0 <= i < Count(|records|, numWorkers, w) =>
      records[i * numWorkers + w])
  }

  /** The records worker w has sent to shard t after its first i records, in order. */
  function Sent<R>(ds: seq<R>, numWorkers: nat, w: nat, shards: nat, t: nat, i: nat): seq<R>
    requires i <= |ds| && shards > 0
  {
    if i == 0 then []
    else
      Sent(ds, numWorkers, w, shards, t, i - 1) +
      if ((i - 1) * numWorkers + w) % shards == t then [ds[i - 1]] else []
  }

  /** A worker's writers hold exactly the non-empty shards it reached, each with the records sent to it. */
  ghost predicate Written<R>(files: map<nat, seq<R>>, ds: seq<R>, numWorkers: nat, w: nat, shards: nat, i: nat)
    requires i <= |ds| && shards > 0
  {
    forall t: nat ::
      if t in files then t < shards && files[t] != [] && files[t] == Sent(ds, numWorkers, w, shards, t, i)
      else Sent(ds, numWorkers, w, shards, t, i) == []
  }

  method ReshardRawBytesWorker<R>(w: nat, numWorkers: nat, ds: seq<R>, totalShards: nat)
    returns (files: map<nat, seq<R>>, shardLengths: map<nat, nat>)
    requires w < numWorkers && totalShards > 0
    ensures Written(files, ds, numWorkers, w, totalShards, |ds|)
    ensures shardLengths.Keys == files.Keys && forall t :: t in files ==> shardLengths[t] == |files[t]|
  {
    files, shardLengths := map[], map[];
    for i := 0 to |ds|
      invariant Written(files, ds, numWorkers, w, totalShards, i)
      invariant shardLengths.Keys == files.Keys && forall t :: t in files ==> shardLengths[t] == |files[t]|
    {
      var iGlobal := i * numWorkers + w;
      var target := iGlobal % totalShards;
      ghost var before := files;
      if target !in files {
        files, shardLengths := files[target := []], shardLengths[target := 0];
      }
      files := files[target := files[target] + [ds[i]]];
      shardLengths := shardLengths[target := shardLengths[target] + 1];
      forall t: nat
        ensures if t in files
                then t < totalShards && files[t] != [] && files[t] == Sent(ds, numWorkers, w, totalShards, t, i + 1)
                else Sent(ds, numWorkers, w, totalShards, t, i + 1) == []
      {
        assert Sent(ds, numWorkers, w, totalShards, t, i + 1) ==
               Sent(ds, numWorkers, w, totalShards, t, i) + if t == target then [ds[i]] else [];
      }
    }
  }

  // ---- What a shard should hold ----

  /** The records below n whose index leaves remainder t, in order. */
  function Residue<R>(records: seq<R>, n: nat, m: nat, t: nat): (r: seq<R>)
    requires n <= |records| && m > 0
    ensures |r| == Count(n, m, t)
  {
    if n == 0 then [] else Residue(records, n - 1, m, t) + if (n - 1) % m == t then [records[n - 1]] else []
  }

  /** With a divisor as worker count, one worker alone sends shard t all its records, and the others none. */
  lemma {:induction false} SentIsResidue<R>(records: seq<R>, n: nat, numWorkers: nat, w: nat, shards: nat, t: nat)
    requires n <= |records| && w < numWorkers && t < shards && shards % numWorkers == 0
    ensures Count(n, numWorkers, w) <= |WorkerData(records, numWorkers, w)|
    ensures Sent(WorkerData(records, numWorkers, w), numWorkers, w, shards, t, Count(n, numWorkers, w)) ==
            if t % numWorkers == w then Residue(records, n, shards, t) else []
  {
    CountGrows(n, |records|, numWorkers, w);
    if n > 0 {
      SentIsResidue(records, n - 1, numWorkers, w, shards, t);
      SentStep(records, n - 1, numWorkers, w, shards, t);
    }
  }

  lemma SentStep<R>(records: seq<R>, g: nat, numWorkers: nat, w: nat, shards: nat, t: nat)
    requires g < |records| && w < numWorkers && t < shards && shards % numWorkers == 0
    requires Count(g + 1, numWorkers, w) <= |WorkerData(records, numWorkers, w)|
    ensures var ds := WorkerData(records, numWorkers, w);
            Sent(ds, numWorkers, w, shards, t, Count(g + 1, numWorkers, w)) ==
            Sent(ds, numWorkers, w, shards, t, Count(g, numWorkers, w)) +
            if t % numWorkers == w && g % shards == t then [records[g]] else []
  {
    ResidueOfDivisor(g, shards, numWorkers);
    if g % numWorkers == w {
      CountFormula(g, numWorkers, w);
      DivMod(g, numWorkers);
      var i := g / numWorkers;
      assert i * numWorkers + w == g && Count(g, numWorkers, w) == i;
      assert WorkerData(records, numWorkers, w)[i] == records[g];
    }
  }

  lemma {:induction false} CountGrows(a: nat, b: nat, m: nat, r: nat)
    requires a <= b && m > 0
    ensures Count(a, m, r) <= Count(b, m, r)
  {
    if a < b { CountGrows(a, b - 1, m, r); }
  }

  // ---- The worker count ----

  /** The largest divisor of the shard count not above the requested number of workers. */
  method AdjustWorkers(requested: nat, shards: nat) returns (numWorkers: nat)
    requires requested > 0
    ensures 0 < numWorkers <= requested && shards % numWorkers == 0
    ensures forall d :: numWorkers < d <= requested ==> shards % d != 0
  {
    numWorkers := requested;
    if shards % numWorkers != 0 {
      var i := requested;
      while i > 0
        invariant 0 < i <= requested
        invariant forall d :: i < d <= requested ==> shards % d != 0
      {
        if shards % i == 0 {
          numWorkers := i;
          break;
        }
        assert i > 1;
        i := i - 1;
      }
    }
  }

  /** Two different workers would write one shard, for records x and y. */
  ghost predicate Collide(x: nat, y: nat, numWorkers: nat, shards: nat)
    requires numWorkers > 0 && shards > 0
  {
    x % shards == y % shards && x % numWorkers != y % numWorkers
  }

  /** With more records than shards, the workers keep out of each other's files exactly when their number divides the
      shard count. */
  lemma NoCollisionIff(records: nat, numWorkers: nat, shards: nat)
    requires numWorkers > 0 && shards > 0 && records > shards
    ensures (forall x: nat, y: nat :: x < records && y < records ==> !Collide(x, y, numWorkers, shards))
            <==> shards % numWorkers == 0
  {
    if shards % numWorkers == 0 {
      forall x: nat, y: nat | x < records && y < records ensures !Collide(x, y, numWorkers, shards) {
        ResidueOfDivisor(x, shards, numWorkers);
        ResidueOfDivisor(y, shards, numWorkers);
      }
    } else {
      DivModUnique(1, shards, 0);
      DivModUnique(0, shards, 0);
      DivModUnique(0, numWorkers, 0);
      assert Collide(0, shards, numWorkers, shards);
    }
  }

  // ---- A whole split ----

  /** Total of the first k entries. */
  function Sum(a: seq<nat>): nat {
    if a == [] then 0 else Sum(a[..|a| - 1]) + a[|a| - 1]
  }

  ghost predicate RightShard<R>(records: seq<R>, shards: nat, t: nat, files: map<nat, seq<R>>)
    requires shards > 0
  {
    (if t in files then files[t] else []) == Residue(records, |records|, shards, t)
  }

  /** The only worker that writes shard t. */
  function Owner(t: nat, numWorkers: nat): nat
    requires numWorkers > 0
  {
    t % numWorkers
  }

  /** A worker's files are its own shards, complete. */
  lemma WorkerShards<R>(records: seq<R>, numWorkers: nat, w: nat, shards: nat, files: map<nat, seq<R>>)
    requires w < numWorkers && shards > 0 && shards % numWorkers == 0
    requires var ds := WorkerData(records, numWorkers, w); Written(files, ds, numWorkers, w, shards, |ds|)
    ensures forall t: nat :: t in files ==> t < shards && Owner(t, numWorkers) == w
    ensures forall t: nat :: t < shards && Owner(t, numWorkers) == w ==> RightShard(records, shards, t, files)
  {
    forall t: nat | t < shards
      ensures t in files ==> Owner(t, numWorkers) == w
      ensures Owner(t, numWorkers) == w ==> RightShard(records, shards, t, files)
    {
      SentIsResidue(records, |records|, numWorkers, w, shards, t);
    }
  }

  lemma AllOwned(numWorkers: nat)
    requires numWorkers > 0
    ensures forall t: nat :: Owner(t, numWorkers) < numWorkers
  {
  }

  /** Runs every worker and merges their results with `dict.update`; no worker's file is ever overwritten. */
  method ReshardSplit<R>(records: seq<R>, requested: nat, shards: nat)
    returns (files: map<nat, seq<R>>, shardLengths: seq<nat>)
    requires requested > 0 && shards > 0
    ensures |shardLengths| == shards
    ensures forall t: nat :: t < shards ==>
              RightShard(records, shards, t, files) && shardLengths[t] == Count(|records|, shards, t)
    ensures forall t :: t in files ==> t < shards
  {
    var numWorkers := AdjustWorkers(requested, shards);
    var all: map<nat, nat> := map[];
    files := map[];
    for w := 0 to numWorkers
      invariant all.Keys == files.Keys && forall t :: t in files ==> all[t] == |files[t]|
      invariant forall t: nat :: t in files ==> t < shards && Owner(t, numWorkers) < w
      invariant forall t: nat :: t < shards && Owner(t, numWorkers) < w ==> RightShard(records, shards, t, files)
    {
      hide Owner, Written, Residue;
      var ds := WorkerData(records, numWorkers, w);
      var part, lengths := ReshardRawBytesWorker(w, numWorkers, ds, shards);
      WorkerShards(records, numWorkers, w, shards, part);
      assert files.Keys !! part.Keys;
      files, all := files + part, all + lengths;
    }
    AllOwned(numWorkers);
    shardLengths := seq(shards, t requires 0 <= t < shards => if t in all then all[t] else 0);
  }

  /** Shard lengths differ by at most one and add up to the number of records. */
  lemma LengthsBalanced(n: nat, shards: nat, a: seq<nat>)
    requires shards > 0 && |a| == shards && forall t :: 0 <= t < shards ==> a[t] == Count(n, shards, t)
    ensures Sum(a) == n
    ensures forall t, u :: 0 <= t < shards && 0 <= u < shards ==> a[t] <= a[u] + 1
  {
    forall t | 0 <= t < shards ensures n / shards <= a[t] <= n / shards + 1 {
      CountFormula(n, shards, t);
    }
    SumOfCounts(n, shards, a);
  }

  lemma {:induction false} SumOfCounts(n: nat, shards: nat, a: seq<nat>)
    requires shards > 0 && |a| == shards && forall t :: 0 <= t < shards ==> a[t] == Count(n, shards, t)
    ensures Sum(a) == n
  {
    if n == 0 {
      SumOfZeros(a);
    } else {
      var b := seq(shards, t requires 0 <= t < shards => Count(n - 1, shards, t));
      SumOfCounts(n - 1, shards, b);
      assert a == b[(n - 1) % shards := b[(n - 1) % shards] + 1];
      SumUpdate(b, (n - 1) % shards);
    }
  }

  lemma {:induction false} SumOfZeros(a: seq<nat>)
    requires forall t :: 0 <= t < |a| ==> a[t] == 0
    ensures Sum(a) == 0
  {
    if a != [] { SumOfZeros(a[..|a| - 1]); }
  }

  lemma {:induction false} SumUpdate(a: seq<nat>, k: nat)
    requires k < |a|
    ensures Sum(a[k := a[k] + 1]) == Sum(a) + 1
  {
    var b := a[k := a[k] + 1];
    if k < |a| - 1 {
      SumUpdate(a[..|a| - 1], k);
      assert b[..|a| - 1] == a[..|a| - 1][k := a[k] + 1];
    } else {
      assert b[..|a| - 1] == a[..|a| - 1];
    }
  }
}
