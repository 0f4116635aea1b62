/** The set-up part of the threaded Leibniz pi program: the guard on the two
    counts read from the user, and the loop that fills one ThreadData record
    per worker thread with its band of series terms. The counts and the loop
    variables are C ints, modelled as 32-bit integers so that the absence of
    overflow in `start + base_size + 1` is part of what is proved. */
module PiWorkload {
  import opened BandPartition

  /** A C `int`. */
  newtype int32 = x: int | -0x8000_0000 <= x <= 0x7fff_ffff

  /** What the program does after reading its two counts: go on to create the
      threads, or leave `main` with an exit code. */
  datatype Verdict = Proceed | Exit(code: int)

  /** The input check: a non-positive thread count or iteration count ends the
      program with exit code 1 before any band is computed. */
  function CheckInputs(numIterations: int, numThreads: int): (v: Verdict)
    ensures v.Proceed? <==> numIterations > 0 && numThreads > 0
    ensures v.Exit? ==> v.code == 1
  {
    if numThreads <= 0 || numIterations <= 0 then Exit(1) else Proceed
  }

  /** Runs the input check and, when it passes, the partition loop that writes
      one band per thread into a fresh `thread_data` array, carrying the end of
      each band over as the start of the next. */
  method DivideWorkload(numIterations: int32, numThreads: int32) returns (verdict: Verdict, threadData: array<Band>)
    ensures verdict == CheckInputs(numIterations as int, numThreads as int)
    ensures verdict.Exit? ==> threadData.Length == 0
    ensures verdict.Proceed? ==>
              threadData.Length == numThreads as int &&
              threadData[..] == Partition(numIterations as int, numThreads as int)
    ensures forall i :: 0 <= i < threadData.Length ==>
              0 <= threadData[i].start <= threadData[i].end <= numIterations as int
  {
    verdict := CheckInputs(numIterations as int, numThreads as int);
    if verdict.Exit? {
      threadData := new Band[0];
      return;
    }
    ghost var n: nat, t: nat := numIterations as int, numThreads as int;

    var baseSize := numIterations / numThreads;
    var remainder := numIterations % numThreads;
    threadData := new Band[numThreads];

    var start: int32 := 0;
    var i: int32 := 0;
    while i < numThreads
      invariant 0 <= i <= numThreads
      invariant start as int == Boundary(n, t, i as int)
      invariant forall j :: 0 <= j < i as int ==> threadData[j] == Band(Boundary(n, t, j), Boundary(n, t, j + 1))
    {
      BoundaryWithinRange(n, t, i as int + 1);
      var end := start + baseSize + (if i < remainder then 1 else 0);
      threadData[i] := Band(start as int, end as int);
      start := end;
      i := i + 1;
    }

    forall j | 0 <= j < t
      ensures 0 <= threadData[j].start <= threadData[j].end <= n
    {
      BoundaryWithinRange(n, t, j);
      BoundaryWithinRange(n, t, j + 1);
    }
  }
}
