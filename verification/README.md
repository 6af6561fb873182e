# of-watchdog in Dafny

This project models the concurrent heart of the OpenFaaS of-watchdog and proves what it guarantees in every run:

* **Serializing fork mode** (`byte_streams.dfy`, `pipe_machine.dfy`, `pipe_proofs.dfy`, `pipe_limits.dfy`,
  `serializing_fork_runner.dfy`). The stdin writer, the stdout reader, the error collector, the stderr log pump, the
  child process and the bounded kernel pipes between them form a machine that takes one atomic step at a time. The child
  is any deterministic program with finitely many actions: a tree that reads one byte (or end of file), prints one byte
  on stdout or stderr, or exits. The environment may kill it (execution timeout) or break the stdout read at any time.
  `PipeSession` is the same machine as an object whose methods are the goroutines.
* **Life cycle and graceful shutdown** (`lifecycle.dfy`, `lifecycle_proofs.dfy`, `health.dfy`, `watchdog.dfy`). The main,
  signal and listener goroutines share the accepting flag, the lock file and the channel `idleConnsClosed`, while
  instrumented requests run through the server, under a discrete clock. Each shared access is a step of its own. Time
  passes only when no goroutine is due. `Process` is the machine as an object.
* **Request instrumentation** (`metrics.dfy`). Any number of requests interleave through compare-and-swap, increment,
  handler (return or panic), duration, counter, first-request sample and deferred decrement. The life cycle contains this
  machine, so the drain reads the very gauge it maintains.
* **Log pumps** (`logging.dfy`). A line scanner that works in place on one fixed buffer, and an unlimited line reader,
  over a pipe that hands out arbitrary chunks; both are proved against one specification of the whole stream.
* **HTTP mode** (`http_runner.dfy`, `response_writer.dfy`). Header forwarding on mutable maps of arrays, so that sharing
  of slices is visible, and the single status line of a proxied request.
* **Configuration** (`config.dfy`). From the environment list to the settings and the command line.

What the proofs brought to light:

* The stderr pump of the buffered log mode stops reading at the first line that does not fit its buffer. A child that goes
  on writing to stderr then blocks on the full pipe, and the request hangs until the child is killed. Left alone,
  `pipeToProcess` returns exactly if the stderr output is at most what the pump takes plus one pipe full.
* A failing stdout read can hang the request as well, because nobody empties that pipe any more: exactly if the child's
  stdout is longer than the pipe. It hangs in `wg.Wait` while there is input left that the child has not asked for, and
  otherwise, its error lost, in `cmd.Wait`.
* A single pipe error may go unnoticed by the caller, since the collector appends after the rendezvous. Left alone, the
  answer to a call that comes back is a matter of chance whenever the child leaves input unread, and only then: 200 or
  500 if the child exits successfully.
* A failed stdout read can likewise go unnoticed and send 200 with truncated stdout, even if the child reads all of its
  input: exactly if the child exits successfully after printing something, its stderr fits, and what it leaves unread
  fits the stdin pipe.
* With an interval of zero or less for health checks, a shutdown never gets past its tick.
* A signal that arrives before the lock is published can be overwritten: if the store of 0 comes before the store of 1,
  the watchdog reports healthy while it shuts down.
* A listener that fails when the tick of a shutdown is due can make the channel be closed twice, which panics. Earlier
  failures are harmless.
* In HTTP mode a forked server that dies of the forwarded SIGTERM ends the process at once, without draining.
* The repository's README says the health endpoint is true once the process has started when no lock file is in use. The
  code looks for the lock file regardless: with `suppress_lock` it answers 200 only if a file was left over from before.
  The model follows the code.
* A whole number of seconds above 9223372036 wraps around in 64 bits.

Assumptions on what is not part of this model: an unbuffered channel send completes together with its receive; a pipe has
a positive capacity and signals end of file or a broken pipe when its other end has exited; `Shutdown` closes the
listener at once and returns at some time at which no handler runs, or when its context ends; handlers start only while
the listener is open; an ended context stays ended. `dafny verify dfyconfig.toml` checks everything.

## Model

| member | source | states |
|---|---|---|
| PipeProofs.StepKeepsInv | executor/serializing_fork_runner.go:134-178 | every step of every goroutine, child, pump and environment keeps the invariant: no output byte lost, doubled or reordered; collector at most one error behind |
| PipeProofs.StuckIffDeadlocked | executor/serializing_fork_runner.go:134-178 | before `wg.Wait` returns, a state with nothing to do is exactly one in which the child waits for room in an output pipe that nobody empties any more |
| PipeLimits.HangsIff | executor/serializing_fork_runner.go:134-178 | over all schedules, kills, failing reads and early exits, a call of `pipeToProcess` can hang if and only if the child's stderr does not fit, or its stdout exceeds the stdout pipe and the input it has not asked for by then exceeds the stdin pipe |
| PipeProofs.OverflowNeverReturns | executor/serializing_fork_runner.go:119-125 | if stderr does not fit, no schedule returns unless the child is killed or the stdout read fails |
| PipeLimits.FinishedRunHasReturned | executor/serializing_fork_runner.go:118-125 | a run that has nothing more to do has returned: if undisturbed, exactly if stderr fits; whatever happens, if the call cannot hang by `HangsIff`; always after a kill; within a number of steps known at the start |
| PipeLimits.StderrIsLogged | executor/serializing_fork_runner.go:119 | in a finished run, the log of a child that has exited holds its stderr as far as the pump takes it |
| PipeLimits.CallHangsIff | executor/serializing_fork_runner.go:118-129 | including `cmd.Wait`, a call can hang if and only if stderr does not fit or stdout is longer than its pipe: a read error that is lost leaves the caller waiting for a child that nobody listens to |
| PipeLimits.KillEndsTheCall | executor/serializing_fork_runner.go:82-88 | every hang can be ended by killing the child: every run that then goes on for as long as it can has returned |
| PipeProofs.EveryStepDescends | executor/serializing_fork_runner.go:134-178 | a natural-number measure falls at every step |
| PipeProofs.RunsAreBounded | executor/serializing_fork_runner.go:134-178 | no run is longer than the measure of its first state |
| PipeProofs.ReturnedData | executor/serializing_fork_runner.go:164-177 | without a failing stdout read, the result is the child's complete stdout with its deterministic exit status; a kill leaves a prefix |
| PipeProofs.PrintedIsReturned | executor/serializing_fork_runner.go:164-177 | without a failing stdout read, whatever the child has printed on stdout at any moment is in the result, even if it is killed afterwards |
| PipeProofs.ScheduleIndependence | executor/serializing_fork_runner.go:152-177 | any two schedules return the same data and see the same exit status, also when the child leaves stdin unread |
| PipeProofs.AtMostOneErrorLost | executor/serializing_fork_runner.go:141-177 | the returned errors are a prefix of the delivered ones, short of at most the last; one is delivered per failed direction; two failures are never overlooked |
| PipeProofs.WriteFailsOnlyOnUnreadInput | executor/serializing_fork_runner.go:152-158 | the stdin write fails only if the child leaves input unread or is killed |
| PipeProofs.EarlyExitFailsTheWrite | executor/serializing_fork_runner.go:152-161 | a child that has exited gets no more input: a writer with some left fails, and its error is delivered before the return |
| PipeLimits.SingleErrorIsARace | executor/serializing_fork_runner.go:141-177 | every call whose child leaves input unread, and whose stderr fits, has two undisturbed runs in which the write fails: in one the error is lost, in the other it is returned |
| PipeLimits.ChattyChildHangs | executor/serializing_fork_runner.go:119-122 | a concrete call that gets stuck without any mishap, its stderr being too long for log buffer and pipe |
| PipeProofs.DrainedIsFirstStop | executor/logging.go:42-57 | the pump takes the stream up to the first point where an unfinished line fills the buffer, and no further |
| SerializingFork.DrainsAllIff | executor/logging.go:42-57 | the pump takes everything exactly if all lines fit the buffer |
| SerializingFork.ScannerTakesDrained | executor/logging.go:42-57 | the machine's byte-wise pump takes exactly what the scanner takes out of the pipe under any chunking |
| SerializingFork.FittingLinesNeverHang | executor/serializing_fork_runner.go:119-122 | unlimited lines, or lines that all fit, rule the stderr deadlock out |
| SerializingFork.PipeSession.WriterStep | executor/serializing_fork_runner.go:152-161 | the writer goroutine, step by step, changes the shared state as the machine does |
| SerializingFork.PipeSession.ReaderStep | executor/serializing_fork_runner.go:164-173 | the reader goroutine, likewise |
| SerializingFork.PipeSession.CollectorStep | executor/serializing_fork_runner.go:141-146 | the collector's append, a step after the rendezvous |
| SerializingFork.PipeSession.PipeToProcess | executor/serializing_fork_runner.go:134-178 | under every scheduler the session runs until it returns or is stuck, and terminates |
| SerializingFork.PipeSession.Wait | executor/serializing_fork_runner.go:127 | after the return the session runs on until the child has exited or nothing moves, leaving what was returned as it is |
| SerializingFork.ReadBody | executor/serializing_fork_runner.go:93-108 | the whole body, or its first Content-Length bytes if that is positive and smaller; fails exactly if the body breaks before that |
| SerializingFork.AllOrNothing | executor/serializing_fork_runner.go:91-129 | in every interleaving, success means a successful exit and, provided reading stdout does not fail, the complete stdout, else the beginning of it; a killed child always fails; provided the read does not fail, a child that reads all its input succeeds exactly if it exits successfully |
| SerializingFork.TruncatedSuccessIff | executor/serializing_fork_runner.go:122-129 | a call can succeed with less than the child's stdout if and only if the child exits successfully, its stderr fits, it prints something, and what it leaves unread fits the stdin pipe: a failed stdout read whose error is lost |
| SerializingFork.OutcomeIsFixedIff | executor/serializing_fork_runner.go:91-129 | the undisturbed answer is the same in every interleaving if and only if the child reads all of its input (or the call never comes back); a successful child whose stderr fits always succeeds exactly under that condition |
| SerializingFork.TwoFailuresAlwaysReported | executor/serializing_fork_runner.go:122-125 | if both directions fail the call returns a pipe error |
| SerializingFork.FirstErrorReported | executor/serializing_fork_runner.go:122-129 | the reported error has happened: a pipe error is the one delivered first and belongs to a direction that failed, an exit error means no pipe error was noticed and the child did not exit successfully |
| SerializingFork.SerializeFunction | executor/serializing_fork_runner.go:74-130 | which error is returned: body, start, then the pipe error delivered first, then the exit; undisturbed, a return exactly if stderr fits; under any disturbance, a return if stdout fits its pipe as well |
| SerializingFork.Run | executor/serializing_fork_runner.go:37-70 | one status: 200 only after a successful exit, with the whole stdout provided reading it does not fail or the call cannot lose output by `TruncatedSuccessIff`, else with the beginning of it; or 500 with only the text of an error that has happened, of several pipe errors the first delivered |
| Metrics.StepKeepsInv | metrics/metrics.go:72-92 | every step of every request keeps gauge, counter, histograms and flag equal to the numbers of requests in the corresponding phases |
| Metrics.Conservation | metrics/metrics.go:72-92 | the gauge is the number of requests between increment and deferred decrement, never negative; no request is lost; the counter counts the handlers that returned normally and got there |
| Metrics.ExactlyOneFirstRequest | metrics/metrics.go:79-91 | one winner once anyone has tried, the first to execute the compare-and-swap; at most one sample, present exactly if the winner passed its observation |
| Metrics.Http.TryMarkFirstRequest | metrics/http.go:89-91 | the compare-and-swap and its effect |
| Metrics.Http.Inc | metrics/metrics.go:83 | the gauge goes up for this request, which has not been in it before |
| Metrics.Http.Dec | metrics/metrics.go:84 | the gauge goes down for this request, after a return or a panic |
| Metrics.Http.RecordDuration | metrics/metrics.go:76-77 | one duration per handler that returned |
| Metrics.Http.CountRequest | metrics/metrics.go:76-77 | one count per handler that returned, after its duration |
| Metrics.Http.Handle | metrics/metrics.go:86-91 | a handler that returns leaves one duration, one count and, for the winner, one sample; a panic leaves none |
| Metrics.Http.ObserveFirstRequest | metrics/metrics.go:89-91 | the sample is taken only for the winner |
| Metrics.Http.InstrumentHandler | metrics/metrics.go:72-93 | one request on its own is a run of the machine: gauge restored even after a panic, counter and histograms only after a return |
| LifecycleProofs.StepKeepsInv | pkg/watchdog.go:197-286 | every step of the three goroutines, the requests and the clock keeps the timing, channel, lock and drain invariants |
| LifecycleProofs.TimedShutdown | pkg/watchdog.go:211-247 | triggered at t, the listener stays open until t+h, and the process has exited, after `Shutdown` returned, by t+h+max(w,0), whatever requests arrive |
| LifecycleProofs.NoTickNoShutdown | pkg/watchdog.go:225-226 | with h <= 0 an undisturbed process never shuts down |
| LifecycleProofs.ShutdownNeverWaits | pkg/watchdog.go:211-283 | a triggered process always has a step of its own, or the clock, to take |
| LifecycleProofs.ShutdownIsForced | pkg/watchdog.go:211-283 | after the trigger, a process that still lives has taken fewer than `Rank` steps besides requests |
| LifecycleProofs.ExitIsForced | pkg/watchdog.go:211-283 | with h > 0, a triggered run that can go on only from outside has ended, after at most `Rank` steps besides requests; undisturbed, it has exited after `Shutdown` returned, by t+h+max(w,0) |
| LifecycleProofs.LeadsToExit | pkg/watchdog.go:211-283 | with h > 0, from every undisturbed living state after the trigger, a regular exit in time can be reached by the process's own steps, whatever requests are running |
| LifecycleProofs.DrainGuarantee | pkg/watchdog.go:228-247 | a handler still running at exit was running when `Shutdown` began and has run for at least the write timeout; if none does, the gauge is 0 at exit |
| LifecycleProofs.StartedAtArrival | pkg/watchdog.go:110 | the time a request counts from is that of its arrival, in all later states |
| LifecycleProofs.SingleCloseAndOrderedExit | pkg/watchdog.go:247-283 | a panic means that listener and shutdown have both closed; main passes its wait only after exactly one of them has |
| LifecycleProofs.DoubleCloseIff | pkg/watchdog.go:247-255 | a listener that fails by itself can lead to a second close if and only if it fails when the tick of a shutdown is due, whatever requests are running |
| LifecycleProofs.EarlyFailureClosesOnce | pkg/watchdog.go:223-257 | after a failure before the tick is due, or without a tick, no later state has panicked |
| LifecycleProofs.PanicMeansLateFailure | pkg/watchdog.go:223-257 | in every run that panics, the listener failed by itself once the tick was due |
| LifecycleProofs.ChildDeathAbortsDrain | executor/http_runner.go:94-110 | a run in which the forked server's death ends the process with a handler running |
| LifecycleProofs.EarlySignalIsOverwritten | pkg/watchdog.go:203-276 | a run that is accepting, with its lock file, after the shutdown goroutine has marked it unhealthy |
| Health.HealthIsLinearizable | pkg/watchdog.go:705-718 | health and readiness handlers answer, in every branch, as if they had read flag and lock file at one moment between the two reads; 200 exactly if accepting with the lock present at that moment |
| Health.HealthyOnceStarted | pkg/watchdog.go:259-276 | before any signal, health answers 200, and readiness does not refuse with 503, exactly from the moment at which the flag is published; with the lock suppressed, only if a lock file was left over |
| Health.SharedStateIsHistory | pkg/watchdog.go:172-181 | the flag is what the last store made it, the lock file what the last write or successful removal made it; nothing else touches them |
| Health.FlagAfterStoreZero | pkg/watchdog.go:172-181 | after the store of 0 the flag is 1 if and only if the store of 1 came later |
| Health.UnhealthyIsPermanent | pkg/watchdog.go:172-181 | checks that begin after the store of 0 answer 503 until exit if the store of 1 came first, and exactly when they do otherwise |
| Health.LockStaysRemoved | pkg/watchdog.go:177-180 | a removed lock file stays away unless it had not been written yet |
| Health.SuppressedLockHealth | pkg/watchdog.go:271-276 | with the lock suppressed and no lock file left over, health is refused throughout, signal or not; with one, an unsignalled process is healthy once it has published the flag |
| Watchdog.Process.MainStep | pkg/watchdog.go:259-283 | publishing the lock and the wait |
| Watchdog.Process.SignalStep | pkg/watchdog.go:203-248 | the shutdown goroutine |
| Watchdog.Process.ListenerStep | pkg/watchdog.go:251-257 | the listener goroutine: a failure of its own closes the channel |
| Watchdog.Process.ServeStep | pkg/watchdog.go:110 | a request's step changes the metrics alone, and its start time at arrival |
| Watchdog.Process.CloseIdleConns | pkg/watchdog.go:247-255 | a second close panics |
| Watchdog.Process.ListenUntilShutdown | pkg/watchdog.go:197-286 | under every scheduler that does not stop, a process that has not used up the limit on its requests' steps and on its time before the signal has come to its end; a regular exit is in time and after the drain |
| Watchdog.ServeHealth | pkg/watchdog.go:705-725 | 405 exactly for methods other than GET, 200 with body OK exactly if the flag is read as set and the file is found, else 503 |
| Watchdog.ServeReady | pkg/readiness.go:41-88 | for each of 405, 503, 429, 500, 200 and the proxied check, exactly when it is the answer |
| Logging.LinesRoundTrip | executor/logging.go:42-57 | splitting a stream into lines loses nothing |
| Logging.LinesAreProper | executor/logging.go:42-57 | no line contains a newline and only the last may be unterminated |
| Logging.Scanner.Scan | executor/logging.go:44-47 | for every chunking, hands out the next line without its carriage return exactly if it fits |
| Logging.LineReader.ReadString | executor/logging.go:62-72 | for every chunking, the bytes up to and including the next newline, or all that is left together with an error |
| Logging.BufferedTextsAreLeading | executor/logging.go:42-57 | what is logged are the texts of the leading lines that fit, all up to the first misfit, each without the carriage return it may end in |
| Logging.EntriesLog | executor/logging.go:48-52 | with the prefix, an entry is name, colon, space and text; without, the text |
| Logging.PipeBuffered | executor/logging.go:42-57 | for every chunking, logs the lines up to the first misfit, each as `name: text` or as the bare text; without prefix the log is the input exactly if its lines are plain; reports a too long token exactly if there is a misfit or no buffer; leaves the rest in the pipe unread |
| Logging.PipeUnbuffered | executor/logging.go:61-78 | for every chunking, logs exactly the terminated lines, each with or without the name; without prefix the log is the input up to its last newline, byte for byte |
| Logging.UnbufferedIsTerminatedPrefix | executor/logging.go:61-78 | without prefix, the unbuffered log is byte for byte the input up to its last newline |
| Logging.TerminatedPrefixIsLongest | executor/logging.go:64-72 | that prefix is empty or ends in a newline, and no longer one does |
| Logging.BufferedIsExactIff | executor/logging.go:42-57 | without prefix, the buffered log is the input exactly if all lines are terminated, fit and have no trailing carriage return |
| Logging.ModesAgree | executor/logging.go:42-78 | on clean streams both modes reproduce the input, and with prefix and time stamps they write the same log |
| Logging.NeverFullIffAllFit | executor/logging.go:43-45 | the buffer never fills up with one line exactly if all lines fit |
| Logging.BindLoggingPipe | executor/logging.go:21-38 | the sign of the buffer size selects the mode, with its log in entries and in bytes |
| HttpRunner.Header.Set | executor/http_runner.go:141 | one value in a slice of its own under the canonical key, all other keys untouched |
| HttpRunner.CloneSlice | executor/http_runner.go:257-258 | the same strings in a new array |
| HttpRunner.CopyHeaders | executor/http_runner.go:255-261 | destination overlaid by source in any iteration order, every slice fresh and unshared |
| HttpRunner.SetFirstValues | executor/http_runner.go:139-142 | under every canonical form of an incoming key stands the first value found under that form, or the empty string, in a slice of its own, and nothing else |
| HttpRunner.ForwardHeaders | executor/http_runner.go:139-145 | upstream headers are the incoming ones plus an empty value for each canonical form that is not itself a key; equal to the incoming ones exactly if there is no such form; no slice shared |
| HttpRunner.OverlayIff | executor/http_runner.go:139-145 | what the two loops leave behind, and when that is exactly the incoming headers |
| HttpRunner.RequestContext.Err | executor/http_runner.go:176-188 | deadline and client may end the context at any moment, for good |
| HttpRunner.Run | executor/http_runner.go:117-235 | one status: the upstream's, or after a failed call 504 exactly if the context has ended and else 500; the last fallback is unreachable; an error return has written nothing |
| HttpRunner.ServeProxied | pkg/watchdog.go:624-652 | exactly one status line per request |
| Configuration.LookupIsLast | config/config.go:232-248 | the value of a key is that of its last well-formed entry, cut at the first equals sign |
| Configuration.MapEnv | config/config.go:232-248 | the map holds exactly these values |
| Configuration.GetDuration | config/config.go:252-276 | the key's last entry as whole seconds, else, if it is no such number, by the duration format, else the default; the default without an entry |
| Configuration.New | config/config.go:109-228 | which settings and which errors; `function_process` overrides `fprocess`; write timeout (never 0), default 30 s, and health interval, default the write timeout, as whole seconds or in the duration format |
| Configuration.SecondsAreExactIff | config/config.go:263-269 | whole seconds are exact exactly up to 9223372036 |
| Configuration.ProcessRoundTrip | config/config.go:93-101 | command and arguments joined with spaces give the configured string; no part has a space |
| Configuration.JoinRoundTrip | config/config.go:93-101 | space-free parts joined are taken apart into the same parts |

## Left out

- Tearing of the racy read of the `errors` slice header: `Return` reads it in one step.
- A child whose output depends on how its input is cut into reads, a child that closes a pipe before it exits, and descendants that keep its pipes open.
- Loss of log output when `cmd.Wait` closes the stderr pipe: the pump may read on after the exit.
- What stands in a log header (time stamps) and the watchdog's own log lines; a header is any bytes that may depend on the position of the entry.
- Reads that return data together with an error, or nothing without one.
- Watchdog.Process.ListenUntilShutdown: limits the steps of requests and the steps before the signal, because an unsignalled process runs for ever; the steps of a shutdown with a positive interval are not limited.
- SerializingFork.Outcome: a timeout that strikes after a successful exit and before the exit is collected makes `cmd.Wait` return the context's error; here a child that has exited can no longer be killed, and the call succeeds.
- Durations of steps: the goroutines' own steps take no time, so bounds hold up to scheduling delays. Watchdog.Process keeps the metrics as a value; their in-place form is Metrics.Http.
- Shutdown's polling and idle connections, handlers that start on connections accepted before the listener closed, and health probes as requests that `Shutdown` waits for.
- Which handlers are wrapped by instrumentation, JWT and the concurrency limiter (`Start`), and the limiter's admission bound: the limiter is only asked whether it is full.
- The ready timestamp gauge, the metrics server, labels and values of the histograms.
- The standard library's reverse proxy path, streaming, static and in-process modes, `getTimeout`, the upstream client, response headers such as `X-Duration-Seconds`.
- `getEnvironment` and `WriterCounter`: single passes without interplay.
- Configuration.New: the remaining settings are one lookup each; `strconv.Atoi`, `time.ParseDuration` and the mode table are parameters.
