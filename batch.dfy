/**
 * Batch driver (main): list the surface files, split them into contiguous
 * chunks across an array job's tasks, and keep the results of the files
 * that were processed successfully.
 */
module Batch {
  import opened Wrappers
  import SubjectNaming

  /** A hemisphere surface: the name ends in left.surf.gii or right.surf.gii. */
  predicate IsSurfaceFile(name: string)
  {
    SubjectNaming.EndsWith(name, "left.surf.gii") || SubjectNaming.EndsWith(name, "right.surf.gii")
  }

  /** The list comprehension over the directory listing. */
  function SurfaceFiles(listing: seq<string>): (files: seq<string>)
    ensures |files| <= |listing|
    ensures forall f :: f in files <==> f in listing && IsSurfaceFile(f)
  {
    if |listing| == 0 then []
    else
      var rest := SurfaceFiles(listing[..|listing| - 1]);
      assert listing == listing[..|listing| - 1] + [listing[|listing| - 1]];
      if IsSurfaceFile(listing[|listing| - 1]) then rest + [listing[|listing| - 1]] else rest
  }

  /** Filtering keeps listing order: the files of a concatenated listing are the concatenated files. */
  lemma {:induction false} SurfaceFilesAppend(a: seq<string>, b: seq<string>)
    ensures SurfaceFiles(a + b) == SurfaceFiles(a) + SurfaceFiles(b)
  {
    if |b| > 0 {
      var n := |b|;
      assert (a + b)[..|a + b| - 1] == a + b[..n - 1];
      SurfaceFilesAppend(a, b[..n - 1]);
    } else {
      assert a + b == a;
    }
  }

  /** len(all_files) // n_tasks, plus one when the division leaves a remainder. */
  function ChunkSize(numFiles: nat, numTasks: nat): (size: nat)
    requires numTasks > 0
    ensures size * numTasks >= numFiles
    ensures size > 0 ==> (size - 1) * numTasks < numFiles
  {
    numFiles / numTasks + (if numFiles % numTasks > 0 then 1 else 0)
  }

  /** start_idx and end_idx of one task. */
  function ChunkBounds(numFiles: nat, numTasks: nat, taskId: nat): (bounds: (nat, nat))
    requires numTasks > 0
    ensures bounds.1 <= numFiles
    ensures bounds.0 == taskId * ChunkSize(numFiles, numTasks)
  {
    var size := ChunkSize(numFiles, numTasks);
    (taskId * size, if (taskId + 1) * size < numFiles then (taskId + 1) * size else numFiles)
  }

  /** all_files[start:end] for non-negative bounds, as Python slices it. */
  function Slice<T>(xs: seq<T>, start: nat, end: nat): (s: seq<T>)
    ensures start <= end <= |xs| ==> s == xs[start..end]
    ensures end <= start ==> s == []
  {
    var hi := if end <= |xs| then end else |xs|;
    var lo := if start <= hi then start else hi;
    xs[lo..hi]
  }

  /** The files one task processes. */
  function Chunk(files: seq<string>, numTasks: nat, taskId: nat): seq<string>
    requires numTasks > 0
  {
    var bounds := ChunkBounds(|files|, numTasks, taskId);
    Slice(files, bounds.0, bounds.1)
  }

  /** Index k falls in the range of task `taskId`. */
  predicate InChunk(numFiles: nat, numTasks: nat, taskId: nat, k: nat)
    requires numTasks > 0
  {
    var bounds := ChunkBounds(numFiles, numTasks, taskId);
    bounds.0 <= k < bounds.1
  }

  lemma InChunkIff(numFiles: nat, numTasks: nat, t: nat, k: nat)
    requires numTasks > 0
    ensures var size := ChunkSize(numFiles, numTasks);
      InChunk(numFiles, numTasks, t, k) <==> t * size <= k < (t + 1) * size && k < numFiles
  {
  }

  lemma DivBounds(k: nat, size: nat)
    requires size > 0
    ensures (k / size) * size <= k < (k / size + 1) * size
  {
    assert k == (k / size) * size + k % size;
  }

  /**
   * The tasks 0..n_tasks-1 partition the file indices: each index lies in
   * the range of exactly one task.
   */
  lemma ChunksPartition(numFiles: nat, numTasks: nat, k: nat)
    requires numTasks > 0 && k < numFiles
    ensures InChunk(numFiles, numTasks, k / ChunkSize(numFiles, numTasks), k)
    ensures k / ChunkSize(numFiles, numTasks) < numTasks
    ensures forall t: nat :: t < numTasks && InChunk(numFiles, numTasks, t, k) ==> t == k / ChunkSize(numFiles, numTasks)
  {
    var size := ChunkSize(numFiles, numTasks);
    var owner := k / size;
    DivBounds(k, size);
    InChunkIff(numFiles, numTasks, owner, k);
    if owner >= numTasks {
      MulMonotone(numTasks, owner, size);
      assert false;
    }
    forall t: nat | t < numTasks && InChunk(numFiles, numTasks, t, k)
      ensures t == owner
    {
      InChunkIff(numFiles, numTasks, t, k);
      if t < owner {
        MulMonotone(t + 1, owner, size);
      } else if t > owner {
        MulMonotone(owner + 1, t, size);
      }
    }
  }

  lemma MulMonotone(a: nat, b: nat, c: nat)
    requires a <= b
    ensures a * c <= b * c
  {
  }

  function Concat<T>(parts: seq<seq<T>>): seq<T>
  {
    if |parts| == 0 then [] else Concat(parts[..|parts| - 1]) + parts[|parts| - 1]
  }

  /** The chunks of tasks 0..count-1, in task order. */
  function Chunks(files: seq<string>, numTasks: nat, count: nat): (chunks: seq<seq<string>>)
    requires numTasks > 0
    ensures |chunks| == count
  {
    if count == 0 then [] else Chunks(files, numTasks, count - 1) + [Chunk(files, numTasks, count - 1)]
  }

  /** min(x, numFiles): where a chunk boundary lands in the file list. */
  function Clamp(x: nat, numFiles: nat): nat
  {
    if x <= numFiles then x else numFiles
  }

  /** Task t's chunk runs from t * size to (t + 1) * size, clipped to the list. */
  lemma ChunkIsSlice(files: seq<string>, numTasks: nat, t: nat)
    requires numTasks > 0
    ensures var size := ChunkSize(|files|, numTasks);
      Chunk(files, numTasks, t) == files[Clamp(t * size, |files|)..Clamp((t + 1) * size, |files|)]
  {
    var size := ChunkSize(|files|, numTasks);
    assert t * size <= (t + 1) * size;
  }

  /** The first `count` chunks, laid end to end, are the files before task count's start. */
  lemma {:induction false} ChunksPrefix(files: seq<string>, numTasks: nat, count: nat)
    requires numTasks > 0
    ensures Concat(Chunks(files, numTasks, count)) == files[..Clamp(count * ChunkSize(|files|, numTasks), |files|)]
  {
    if count > 0 {
      var size := ChunkSize(|files|, numTasks);
      var t := count - 1;
      ChunksPrefix(files, numTasks, t);
      ChunkIsSlice(files, numTasks, t);
      var chunks := Chunks(files, numTasks, count);
      assert chunks[..t] == Chunks(files, numTasks, t);
      assert (t + 1) * size == count * size;
      var p := Clamp(t * size, |files|);
      var q := Clamp(count * size, |files|);
      assert files[..p] + files[p..q] == files[..q];
    }
  }

  /** Laid end to end in task order, the chunks of all tasks are exactly the file list. */
  lemma ChunksCoverFiles(files: seq<string>, numTasks: nat)
    requires numTasks > 0
    ensures Concat(Chunks(files, numTasks, numTasks)) == files
  {
    ChunksPrefix(files, numTasks, numTasks);
    assert numTasks * ChunkSize(|files|, numTasks) >= |files|;
  }

  /** The results kept from a sequence of processing outcomes: the present ones, in order. */
  function Collected<R>(outcomes: seq<Option<R>>): seq<R>
  {
    if |outcomes| == 0 then []
    else
      var rest := Collected(outcomes[..|outcomes| - 1]);
      match outcomes[|outcomes| - 1]
      case Some(r) => rest + [r]
      case None => rest
  }

  lemma {:induction false} CollectedAppend<R>(a: seq<Option<R>>, b: seq<Option<R>>)
    ensures Collected(a + b) == Collected(a) + Collected(b)
  {
    if |b| > 0 {
      var n := |b|;
      assert (a + b)[..|a + b| - 1] == a + b[..n - 1];
      CollectedAppend(a, b[..n - 1]);
    } else {
      assert a + b == a;
    }
  }

  /** A kept result was produced by some file, and no more results than files are kept. */
  lemma {:induction false} CollectedFromOutcomes<R>(outcomes: seq<Option<R>>)
    ensures |Collected(outcomes)| <= |outcomes|
    ensures forall r :: r in Collected(outcomes) ==> Some(r) in outcomes
    ensures forall r :: Some(r) in outcomes ==> r in Collected(outcomes)
  {
    if |outcomes| > 0 {
      var pre := outcomes[..|outcomes| - 1];
      CollectedFromOutcomes(pre);
      assert outcomes == pre + [outcomes[|outcomes| - 1]];
      assert forall o :: o in pre ==> o in outcomes;
    }
  }

  function MapOver<R>(files: seq<string>, process: string -> Option<R>): (outcomes: seq<Option<R>>)
    ensures |outcomes| == |files|
    ensures forall i :: 0 <= i < |files| ==> outcomes[i] == process(files[i])
  {
    seq(|files|, i requires 0 <= i < |files| => process(files[i]))
  }

  /**
   * The processing loop: run the per-file analysis on each file in order and
   * append every result that is not None.
   */
  method ProcessFiles<R>(files: seq<string>, process: string -> Option<R>) returns (results: seq<R>)
    ensures results == Collected(MapOver(files, process))
  {
    results := [];
    var i := 0;
    while i < |files|
      invariant 0 <= i <= |files|
      invariant results == Collected(MapOver(files[..i], process))
    {
      var result := process(files[i]);
      assert MapOver(files[..i + 1], process) == MapOver(files[..i], process) + [result];
      CollectedAppend(MapOver(files[..i], process), [result]);
      if result.Some? {
        results := results + [result.value];
      }
      i := i + 1;
    }
    assert files[..i] == files;
  }

  /** Concatenation of the collected results of each chunk. */
  function CollectedByTask<R>(files: seq<string>, numTasks: nat, count: nat, process: string -> Option<R>): seq<R>
    requires numTasks > 0
  {
    if count == 0 then []
    else CollectedByTask(files, numTasks, count - 1, process)
           + Collected(MapOver(Chunk(files, numTasks, count - 1), process))
  }

  lemma {:induction false} MapOverConcat<R>(parts: seq<seq<string>>, process: string -> Option<R>)
    ensures Collected(MapOver(Concat(parts), process))
         == (if |parts| == 0 then [] else Collected(MapOver(Concat(parts[..|parts| - 1]), process))
                                          + Collected(MapOver(parts[|parts| - 1], process)))
  {
    if |parts| > 0 {
      var a := Concat(parts[..|parts| - 1]);
      var b := parts[|parts| - 1];
      assert MapOver(a + b, process) == MapOver(a, process) + MapOver(b, process);
      CollectedAppend(MapOver(a, process), MapOver(b, process));
    }
  }

  /**
   * Array mode and local mode agree: the results of tasks 0..n_tasks-1 put
   * together, in task order, are the results of processing every file.
   */
  lemma {:induction false} ArrayModeMatchesLocalMode<R>(files: seq<string>, numTasks: nat, process: string -> Option<R>)
    requires numTasks > 0
    ensures CollectedByTask(files, numTasks, numTasks, process) == Collected(MapOver(files, process))
  {
    ChunksCoverFiles(files, numTasks);
    CollectedByTaskConcat(files, numTasks, numTasks, process);
  }

  lemma {:induction false} CollectedByTaskConcat<R>(files: seq<string>, numTasks: nat, count: nat, process: string -> Option<R>)
    requires numTasks > 0
    ensures CollectedByTask(files, numTasks, count, process)
         == Collected(MapOver(Concat(Chunks(files, numTasks, count)), process))
  {
    var parts := Chunks(files, numTasks, count);
    MapOverConcat(parts, process);
    if count > 0 {
      CollectedByTaskConcat(files, numTasks, count - 1, process);
      assert parts[..count - 1] == Chunks(files, numTasks, count - 1);
    }
  }

  /**
   * main's two modes over the directory listing: without an array task
   * (task id, task count) every surface file is processed; with one, only
   * that task's chunk. A task count of 0 fails in the chunk-size division.
   */
  method RunBatch<R>(listing: seq<string>, arrayTask: Option<(nat, nat)>, process: string -> Option<R>)
    returns (outcome: Result<seq<R>>)
    ensures arrayTask.None? ==> outcome == Success(Collected(MapOver(SurfaceFiles(listing), process)))
    ensures arrayTask.Some? && arrayTask.value.1 == 0 ==> outcome == Failure(ZeroDivision)
    ensures arrayTask.Some? && arrayTask.value.1 > 0 ==>
      outcome == Success(Collected(MapOver(Chunk(SurfaceFiles(listing), arrayTask.value.1, arrayTask.value.0), process)))
  {
    var allFiles := SurfaceFiles(listing);
    if arrayTask.None? {
      var results := ProcessFiles(allFiles, process);
      return Success(results);
    }
    var (taskId, numTasks) := arrayTask.value;
    if numTasks == 0 {
      return Failure(ZeroDivision);
    }
    var bounds := ChunkBounds(|allFiles|, numTasks, taskId);
    var results := ProcessFiles(Slice(allFiles, bounds.0, bounds.1), process);
    outcome := Success(results);
  }
}
