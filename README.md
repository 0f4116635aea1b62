# Threaded Leibniz pi: work partition

The program `Task2/task2.c` approximates pi with the Leibniz series. It reads
two counts from the user: `num_iterations`, the number of series terms, and
`num_threads`. It refuses a count that is not positive. It then splits the term
indices `[0, num_iterations)` into `num_threads` contiguous half-open bands
`[start, end)`, one `ThreadData` record per thread. Every band gets
`base_size = num_iterations / num_threads` terms. The first
`remainder = num_iterations % num_threads` bands get one extra term. Each band
starts where the previous one ended.

This project models that input check and that partition, and proves that the
bands cover the term range exactly once.

- `partition.dfy` (module `BandPartition`) holds the partition as pure
  functions over unbounded integers. `Boundary(n, t, k)` is the value of the
  loop's running `start` after `k` passes, and `Partition(n, t)` is the
  sequence of bands. The lemmas about them are in the same file.
- `task2.dfy` (module `PiWorkload`) holds the input check, `CheckInputs`. It
  also holds the imperative loop, `DivideWorkload`, which writes the bands into
  an array. In that loop the counts and the running variables are 32-bit C
  `int`s (the `int32` newtype), so the model also proves that
  `start + base_size + 1` never overflows.

C's `/` and `%` truncate toward zero and Dafny's are Euclidean. Both operands
are positive once the check has passed, so the two agree.

The thread count is not clamped to the number of terms. When there are more
threads than terms, the surplus threads get empty bands.

## Model

| member | source | states |
|---|---|---|
| PiWorkload.CheckInputs | NMC/C_FINAL_ASSESMENT/C_FINAL_ASSESMENT/Task2/task2.c:34-37 | The program goes on exactly when both the iteration count and the thread count are positive; otherwise it exits with code 1. |
| PiWorkload.DivideWorkload | NMC/C_FINAL_ASSESMENT/C_FINAL_ASSESMENT/Task2/task2.c:34-51 | A rejected input computes no band. An accepted input fills an array of exactly `num_threads` records equal to `Partition(n, t)`, with every start and end inside `[0, num_iterations]`. No 32-bit intermediate overflows. |
| BandPartition.BoundaryClosedForm | NMC/C_FINAL_ASSESMENT/C_FINAL_ASSESMENT/Task2/task2.c:43-51 | After `k` passes the running `start` equals `k * base_size + min(k, remainder)`. |
| BandPartition.LastBoundary | NMC/C_FINAL_ASSESMENT/C_FINAL_ASSESMENT/Task2/task2.c:43-51 | After all `num_threads` passes the running `start` equals `num_iterations`. |
| BandPartition.BoundaryMonotone | NMC/C_FINAL_ASSESMENT/C_FINAL_ASSESMENT/Task2/task2.c:46-51 | The running `start` never decreases from one pass to a later one. |
| BandPartition.BoundaryWithinRange | NMC/C_FINAL_ASSESMENT/C_FINAL_ASSESMENT/Task2/task2.c:46-51 | Every value the running `start` takes lies in `[0, num_iterations]`. |
| BandPartition.PartitionShape | NMC/C_FINAL_ASSESMENT/C_FINAL_ASSESMENT/Task2/task2.c:43-51 | There are `num_threads` bands. The first starts at 0 and each later one starts where the previous one ended. Band `i` has size `base_size + 1` if `i < remainder`, else `base_size`. Its start is `i * base_size + min(i, remainder)`. The last band ends at `num_iterations`. |
| BandPartition.SizesBalanced | NMC/C_FINAL_ASSESMENT/C_FINAL_ASSESMENT/Task2/task2.c:43-49 | For bands `i <= j`, band `j` is no larger than band `i`, and band `i` is at most one term larger. |
| BandPartition.BandsOrdered | NMC/C_FINAL_ASSESMENT/C_FINAL_ASSESMENT/Task2/task2.c:46-51 | An earlier band ends no later than a later band starts, so bands do not overlap. |
| BandPartition.OwnerFrom | NMC/C_FINAL_ASSESMENT/C_FINAL_ASSESMENT/Task2/task2.c:46-51 | Scanning from band `from`, whose start is at most `k`, finds a band at or after `from` that contains term `k < num_iterations`. |
| BandPartition.Owner | NMC/C_FINAL_ASSESMENT/C_FINAL_ASSESMENT/Task2/task2.c:17 | Every term `k` in `[0, num_iterations)` is summed by some thread: it returns a band index whose range contains `k`. |
| BandPartition.CoveredExactlyOnce | NMC/C_FINAL_ASSESMENT/C_FINAL_ASSESMENT/Task2/task2.c:43-51 | A term lies in some band if and only if it is in `[0, num_iterations)`, and it never lies in two bands. |
| BandPartition.MoreThreadsThanTerms | NMC/C_FINAL_ASSESMENT/C_FINAL_ASSESMENT/Task2/task2.c:43-49 | With more threads than terms, `base_size` is 0. Band `i` is `[i, i+1)` for the first `num_iterations` threads. Every later band is the empty `[num_iterations, num_iterations)`. |

## Left out

- The Leibniz term sum in `calculate_pi` (`task2.c:13-23`) and the final `pi *= 4.0` (line 67): double-precision floating point. The partition lemmas capture the structural fact about them: the union of the ranges the threads iterate over is exactly `[0, num_iterations)`, with no term summed twice.
- The `result` field of `ThreadData`, its reset to `0.0` (line 50) and its accumulation after the joins (line 63): floating-point values whose summation order depends on the joins. `Band` models only the `start` and `end` fields.
- `pthread_create`, `pthread_join` and `pthread_exit`, and the exit with code 1 when creating a thread fails (lines 53-56, 61-64): concurrency and foreign library calls. `DivideWorkload` computes the bands only, not the thread creation that the source interleaves with the same loop.
- `scanf`, `printf` and `fprintf` (lines 29-32, 35, 54, 70): console I/O. The two counts become the parameters of `DivideWorkload`. A `scanf` that fails to parse leaves the variables uninitialised, and the model does not cover that case.
- The variable-length arrays `threads` and `thread_data` live on the stack (lines 40-41). A very large thread count can overflow the stack, and the model does not cover that; the model allocates `threadData` as an ordinary array.
