# Remedy → TrueSight Intelligence bulk ingestion, modelled in Dafny

The program reads incident and change tickets from a BMC Remedy server and
pushes them as events to TrueSight Intelligence. This model covers the part of
`App.java` that has real control flow:

- **Module selection** (`Selection`). `main` compares each command-line
  argument with `incident`/`incidents` and `change`/`changes`, ignoring case
  the way Java's `String.equalsIgnoreCase` does. This sets two flags. The
  incident run is then started before the change run.
- **The ingestion run** (`Ingestion`). This is `readAndIngestIncidents`, and
  also `readAndIngestChanges`, which is the same code over the change form. The
  run logs in. It then reads windows of `chunkSize` tickets starting at
  `startFrom = 1`. It stops once `nMatches <= startFrom + chunkSize`, using the
  `startFrom` from before the increment. Each page is pushed after `startFrom`
  has been advanced. Any exception ends the loop and is caught. The `finally`
  block logs out only when `login()` returned true.
- **The dispatch in `main`** (`App.Launch`). The selected runs happen in order.
  A rejected configuration calls `System.exit(0)`, so no later run happens.

The outside world is one `Ingestion.Backend` value. It holds what `login()`
does (returns true, returns false, or throws). It holds the reply to the n-th
`readRemedyTickets` call: a page of events and the `nMatches` value, or an
exception. It also says whether the n-th `pushBulkEventsToTSI` call throws.
The classes `RemedyReader` and `TsiHttpClient` record the calls made on them.
`ReadAndIngest` creates both objects, as the source does. It is proved to
produce exactly the `Trace` that the recursive specification `Run` gives: the
reads issued, the batches pushed, the logouts, and the exception caught. The
lemmas in `IngestionFacts` are about `Run`.

`nMatches` is held in a Java `int`, so the reported total never exceeds
2^31 − 1. With unbounded integers, that bound makes the loop terminate when
`chunkSize ≥ 1`, and `INT_MAX − startFrom` is the `decreases` measure of both
the method and `Loop`. The Java loop does not have this guarantee, because
`startFrom + chunkSize` is 32-bit `int` arithmetic (see "## Left out").

Three behaviours of the code are worth stating outright:

- The stop test is `nMatches <= startFrom + chunkSize`, not
  `startFrom + chunkSize - 1`. So with a stable total `M`, the number of reads
  is the least `K ≥ 1` with `M ≤ 1 + K·chunkSize`. That is not `ceil(M / chunkSize)`:
  with `chunkSize = 10` and `M = 11` there is one read. When
  `M = 1 + K·chunkSize`, record `M` is never in a window read
  (`IngestionFacts.SteadyCoverage`, `IngestionFacts.BoundaryRecordSkipped`).
  Whether this loses a record depends on how `RemedyReader` maps `startFrom`
  onto the server's 0-based first-retrieve index. That class is not part of
  this model, so the lemma states the window arithmetic only.
- An exception from `pushBulkEventsToTSI` is caught by the same `catch` as a
  read failure. So a failed push ends the loop, and no further read is made.
- A configuration that fails to parse or validate calls `System.exit(0)`.
  If the incident configuration is rejected, the change run never starts.
  An exception thrown inside a run's `try` block (App.java:99-121 for
  incidents, 161-184 for changes), by contrast, is caught inside that run, and
  the next run still starts.

## Model

| member | source | states |
|---|---|---|
| Selection.ScanArguments | src/main/java/com/bmc/truesight/remedy/App.java:50-57 | After the loop over the arguments, `readIncidents` is set iff some argument equals `incident` or `incidents` ignoring case. `readChange` is set iff some argument equals `change` or `changes` ignoring case. |
| Selection.Plan | src/main/java/com/bmc/truesight/remedy/App.java:59-64 | The runs started contain the incident run iff incidents were asked for, and the change run iff changes were asked for. Each runs at most once, and the incident run comes first. |
| Selection.SelectionDependsOnlyOnModuleNames | src/main/java/com/bmc/truesight/remedy/App.java:50-57 | Two argument lists that contain the same module-name arguments select the same runs. So the order of arguments, repeated arguments and any other argument have no effect. |
| Selection.IgnoreCaseIsLowerCaseEquality | src/main/java/com/bmc/truesight/remedy/App.java:51-54 | For ASCII arguments, the case-ignoring comparison with a lower-case module name is the same as comparing the argument's lower case with that name. |
| Selection.ModuleNameSpellings | src/main/java/com/bmc/truesight/remedy/App.java:51-54 | `INCIDENTS`, `Incident`, `ıncident` (dotless i) and `changeſ` (long s) select a module. `incidentss`, `chang` and `change` do not select incidents. |
| App.Launch | src/main/java/com/bmc/truesight/remedy/App.java:59-93 | The runs performed follow the plan, in order. Each run's trace is `Run` for its own form and configuration. The process exits iff a planned module's configuration is rejected, and then that module and every later one are skipped. |
| Ingestion.Loop | src/main/java/com/bmc/truesight/remedy/App.java:109-119 | The loop reads at least once, and its first read is the window at `startFrom`. It pushes one batch per read, or one fewer when the last read threw. It never logs out. |
| Ingestion.Run | src/main/java/com/bmc/truesight/remedy/App.java:99-126 | Logout happens exactly once iff `login()` returned true, on every exit path. If login throws, there are no reads, no pushes and no logout. If login returns false, the loop still runs from window 1. |
| Ingestion.ReadAndPush | src/main/java/com/bmc/truesight/remedy/App.java:103-121 | The loop's reads, pushes and caught exception, recorded on the reader and client objects, are exactly those of `Loop` from `startFrom = 1`. |
| Ingestion.RemedyReader.constructor | src/main/java/com/bmc/truesight/remedy/App.java:97 | A new reader for the given form has made no reads and no logouts. |
| Ingestion.RemedyReader.Login | src/main/java/com/bmc/truesight/remedy/App.java:101 | `login()` returns true, returns false or throws, as the backend decides. |
| Ingestion.RemedyReader.ReadRemedyTickets | src/main/java/com/bmc/truesight/remedy/App.java:110 | The call is recorded as a read of window `(startFrom, chunkSize)` on the reader's form. Its reply is the backend's reply to that numbered read. |
| Ingestion.RemedyReader.Logout | src/main/java/com/bmc/truesight/remedy/App.java:124 | `logout()` adds one logout and leaves the recorded reads unchanged. |
| Ingestion.TsiHttpClient.constructor | src/main/java/com/bmc/truesight/remedy/App.java:98 | A new client has pushed nothing. |
| Ingestion.TsiHttpClient.PushBulkEventsToTSI | src/main/java/com/bmc/truesight/remedy/App.java:118 | The batch is recorded as the next push, and the call returns normally iff the backend accepts that numbered push. |
| Ingestion.ReadAndIngest | src/main/java/com/bmc/truesight/remedy/App.java:96-126 | Building the reader and the client, logging in, looping and logging out in `finally` produces exactly the trace `Run` specifies. |
| IngestionFacts.LoopWindows | src/main/java/com/bmc/truesight/remedy/App.java:110-117 | The k-th read of a loop entered at `startFrom` asks for `startFrom + k·chunkSize` with the fixed `chunkSize`. |
| IngestionFacts.RunWindows | src/main/java/com/bmc/truesight/remedy/App.java:103-117 | The k-th read (from 0) asks for the window starting at `1 + k·chunkSize` with the fixed `chunkSize`. Successive windows are increasing and do not overlap. |
| IngestionFacts.LoopStopRule | src/main/java/com/bmc/truesight/remedy/App.java:109-121 | From any window `n`, the loop ends at the first reply that throws, whose push throws, or whose total is at most the pre-increment `startFrom + chunkSize`. |
| IngestionFacts.StopRule | src/main/java/com/bmc/truesight/remedy/App.java:113-121 | The last read is the first reply that ends the loop, and every earlier reply let it continue. The exception caught is that reply's read or push failure, or none. |
| IngestionFacts.FirstEndIsLast | src/main/java/com/bmc/truesight/remedy/App.java:109-121 | If reply `k` is the first to end the loop, exactly `k + 1` reads are issued. A failed read there leaves `k` pushes. A failed push there leaves `k + 1` pushes and no further read. |
| IngestionFacts.LoopPushes | src/main/java/com/bmc/truesight/remedy/App.java:110-118 | From window `n` on, the i-th push carries the events of reply `n + i`, and that reply was a page. |
| IngestionFacts.PushesAreReadPages | src/main/java/com/bmc/truesight/remedy/App.java:110-118 | The i-th push carries the events of the i-th reply, and that reply was a page. Conversely, every read whose reply was a page has its push. So every page read successfully is pushed once, in read order. |
| IngestionFacts.SteadyReadCount | src/main/java/com/bmc/truesight/remedy/App.java:109-119 | With a stable total `M` and no failures, the number of reads is the least `K ≥ 1` with `M ≤ 1 + K·chunkSize`. Every page is pushed and nothing is caught. |
| IngestionFacts.SmallTotalOneRead | src/main/java/com/bmc/truesight/remedy/App.java:113-115 | A stable total of at most `1 + chunkSize`, zero included, costs exactly one read of window 1 and one push. |
| IngestionFacts.ThreeWindowsFor120By50 | src/main/java/com/bmc/truesight/remedy/App.java:109-119 | With 120 matches and chunks of 50, the reads are the windows at 1, 51 and 101. |
| IngestionFacts.CoveredPositions | src/main/java/com/bmc/truesight/remedy/App.java:110-117 | The windows read cover exactly the positions `1 .. K·chunkSize`, where `K` is the number of reads. |
| IngestionFacts.SteadyCoverage | src/main/java/com/bmc/truesight/remedy/App.java:113-117 | With a stable total `M`, every position below `M` is read. Position `M` is read iff `M ≤ K·chunkSize`, so it is missed when `M = 1 + K·chunkSize`. |
| IngestionFacts.BoundaryRecordSkipped | src/main/java/com/bmc/truesight/remedy/App.java:113-115 | With `chunkSize + 1` matches, one read is made, and position `chunkSize + 1` is in no window read. |

## Left out

- The interactive prompt read with a `Scanner` when no argument is given. It is console I/O. `App.Launch` requires a non-empty argument list.
- Locating, parsing and validating the template files (`ConfigParser`, `ConfigValidator`). They are file I/O, and their code is not part of this model. Their result is an `App.Setup`: rejected, which means `System.exit(0)`, or a chunk size and a backend. A positive chunk size is taken as given (`App.WellConfigured`).
- The bodies of `RemedyReader.login`, `readRemedyTickets` and `logout`, and of `TsiHttpClient.pushBulkEventsToTSI`. These are network clients whose code is not part of this model. The members `Ingestion.RemedyReader.Login`, `ReadRemedyTickets` and `Logout` and `Ingestion.TsiHttpClient.PushBulkEventsToTSI` only record each call and take its result from `Ingestion.Backend`, indexed by call number.
- The statements before each `try` (App.java:96-98 and 158-160): `getConfiguration()`, `new RemedyReader(...)` and `new TsiHttpClient(config)`. The model treats them as never throwing. In the code, an unchecked exception there leaves `main`, and no later run starts.
- A `logout()` that throws inside `finally`. That exception would leave the method, and `main` as well. The model's logout always returns.
- Logging and `printStackTrace`. The loop's `iteration` counter only feeds a log line. It is kept in `ReadAndPush`, where it equals the number of reads plus one.
- Java `int` overflow of `startFrom + chunkSize` (App.java:113) and of `startFrom = startFrom + chunkSize` (App.java:117). The model uses unbounded integers for these and keeps only the bound on `nMatches`. So the termination of `Ingestion.Loop` and `Ingestion.ReadAndPush` holds for unbounded integers, not for the Java code. Suppose a window starts within `chunkSize` below `INT_MAX`, and every reply reports more matches than that start, say `nMatches = INT_MAX` with `chunkSize = 1000` and `startFrom = 2147483001`. Then in Java the sum wraps to a negative number, the stop test fails, `startFrom` wraps to a negative window, and the loop goes on.
- Selection.ToUpper: case mapping is modelled only for the characters whose upper or lower case is an ASCII letter. That is exact for comparisons against the ASCII module names, which are the only comparisons the code makes.
