# pgcapture: the PostgreSQL logical-replication source

This project models `PGXSource` of pgcapture, the component that reads a
PostgreSQL logical-replication stream and sends decoded change events
downstream. The model covers five parts of `pkg/source/postgres.go`:

- **Start position.** `Capture` chooses where replication starts and seeds
  `ackLsn` with that position.
- **The `fetching` loop.** This is the core of the model. The loop does
  four things:
  - it sends standby status updates every five seconds, and at once when a
    keepalive asks for a reply;
  - it receives messages until the report deadline;
  - it decodes XLogData records, tracks the commit time of the current
    transaction, drops ignorable changes, and refreshes the schema before
    it forwards a DDL change;
  - it sends each remaining change with the checkpoint
    `WALStart + len(WALData)` and the current commit time.
- **Checkpoint and lifecycle methods.** The consumer calls `Commit` and
  `Stop`. The loop goroutine calls `committedLSN`, for each status update,
  and `cleanup`, as its last deferred call.
- **`PGTime2Time`.** It converts PostgreSQL timestamps (microseconds since
  2000-01-01 UTC) into Go time values.
- **The replication parameters.** The plugin arguments that `Capture`
  passes to START_REPLICATION are kept as a constant.

Modules:

- `GoInt` (`goint.dfy`): Go's `uint64` and `int64` wrap-around, the
  conversion `int64(x)` of a `uint64`, and Go's truncating `/` and `%`.
- `PgTime` (`pgtime.dfy`): Go's `time.Unix` normalisation and
  `PGTime2Time` with its constants.
- `Replication` (`replication.dfy`): the values involved. These are
  checkpoints, decoded messages, change events, WAL records, backend
  messages, consumer calls, and the start-position choice.
- `FetchLoop` (`fetchloop.dfy`): the fetch loop as a pure state machine.
  - `Step` is one pass of the loop body and `Run` is the loop over a finite
    sequence of iterations.
  - Each `Iteration` bundles what one pass learns from outside: the
    consumer's Commit and Stop calls that land before it, the two clock
    readings, and the outcomes of the send, receive, parse, decode and
    schema-refresh calls.
  - The lemmas state what the loop forwards, in which order, with which
    checkpoint, when it reports and when it ends.
- `Source` (`source.dfy`): the class `PgxSource`.
  - Its fields are the ones the Go struct updates in place (`replConn`,
    `setupConn`, `commitTime`, `ackLsn`, `stopped`, `stop`). Three more
    fields stand for things outside the struct: `changes` and
    `changesClosed` are the output channel, and `fatal` is the process
    ending in `log.Fatalf`.
  - Its methods are `Capture`, `Commit`, `CommittedLsn`, `Stop` and
    `Cleanup`, plus the loop goroutine: `Fetching`, with its loop body
    split into `FetchOnce`, `ReceiveOnce` and `HandleXLogData`, and
    `CaptureLoop`.
  - Each loop method is proved equal to the matching `FetchLoop` function,
    so every property proved about the state machine holds for the class.

Clock readings are integer nanoseconds since the Unix epoch. The zero
`time.Time{}` is the tick of 0001-01-01, so it is earlier than any clock
reading. The output channel is the field `changes`, a sequence the loop
appends to. The calls the loop makes (status update, decode, schema
refresh, send) are recorded in the ghost field `trace`, so their order can
be stated.

A reader might expect some of the following to go otherwise; the model
follows the code:

- **Shutdown order.** The deferred calls of the capture goroutine run in
  reverse order: `close(changes)`, then `close(stop)`, then `cleanup`. A
  caller blocked in `Stop` is therefore released before the connections are
  closed, not after them. `CaptureLoop` states this order.
- **Fatal errors.** When the loop returns an error, `log.Fatalf` ends the
  process, so none of the deferred calls run. `CaptureLoop` then leaves the
  channels open and the connections set.
- **Connection leak.** `Capture` does not close the replication connection
  when `IdentifySystem` or `StartReplication` fails. The field keeps the
  connection.
- **Constant name.** The Go constant `nsInSecond` is 1000, which is
  nanoseconds per microsecond. It is named `NsInMicro` here.

## Model

| member | source | states |
|---|---|---|
| GoInt.WrapU64 | pkg/source/postgres.go:161 | the `uint64` sum is the mathematical sum when it fits, and congruent to it modulo 2^64 always |
| GoInt.I64OfU64 | pkg/source/postgres.go:212 | `int64(ts)` is `ts` below 2^63 and `ts - 2^64` from 2^63 on |
| GoInt.Quo | pkg/source/postgres.go:213 | Go's `/` truncates toward zero: the remainder left has the sign of the dividend and is smaller than the divisor |
| GoInt.Rem | pkg/source/postgres.go:213 | Go's `%` satisfies `Quo(a, b) * b + Rem(a, b) == a`, with the sign of `a` |
| PgTime.Unix | pkg/source/postgres.go:213 | `time.Unix(sec, nsec)` gives nanoseconds in [0, 1e9), denotes the same instant, and keeps in-range arguments unchanged |
| PgTime.PGTime2Time | pkg/source/postgres.go:211-218 | the result is normalised and denotes `micro * 1000` nanoseconds since the Unix epoch, where `micro` is the `int64` offset from 1970 |
| PgTime.PGTimeOfZero | pkg/source/postgres.go:211-218 | timestamp 0 is 946684800 s, 0 ns (2000-01-01 UTC) |
| PgTime.PGTimeOfOneSecond | pkg/source/postgres.go:211-218 | timestamp 1000000 is 946684801 s, 0 ns |
| PgTime.PGTimeExact | pkg/source/postgres.go:211-218 | while `micro` fits in `int64`, the nanoseconds are in [0, 1e9) and a multiple of 1000, and `sec*1e6 + nsec/1000 == 946684800e6 + ts` |
| PgTime.PGTimeMonotone | pkg/source/postgres.go:211-218 | a later timestamp converts to a time that is not earlier, over the timestamps that do not overflow |
| PgTime.PGTimeOfMaxUint64 | pkg/source/postgres.go:212-213 | the largest `uint64` turns negative in `int64(ts)` and converts to one microsecond before 2000-01-01 |
| Replication.StartPosition | pkg/source/postgres.go:73-80 | a nonzero checkpoint LSN is the start position exactly; a zero one gives the server's `XLogPos` |
| Replication.EndLsn | pkg/source/postgres.go:159-165 | the checkpoint LSN is `WALStart + len(WALData)` when it fits, and congruent to it modulo 2^64 always |
| Replication.PluginArg | pkg/source/postgres.go:203-208 | a plugin argument is the option name, a space, and the value in single quotes |
| Replication.PgLogicalParamsAreOptions | pkg/source/postgres.go:202-209 | the START_REPLICATION arguments are the six options: protocol version 1 as min and max, startup-parameter format 1, binary base types wanted, base-types major version 906, big-endian |
| Replication.EndLsnPastRecord | pkg/source/postgres.go:161 | without wrap-around the checkpoint is at or past the record's start, and strictly past it when the record has data |
| FetchLoop.ApplyCalls | pkg/source/postgres.go:174-187 | the consumer's Commit and Stop calls change only `ackLsn` and the stop flag; the flag is set iff it was set or a Stop call came |
| FetchLoop.LastCommitWins | pkg/source/postgres.go:174-176 | after a sequence of calls, `ackLsn` holds the LSN of the last Commit, with no monotonicity check |
| FetchLoop.NoCommitKeepsAck | pkg/source/postgres.go:174-180 | without a Commit call, `ackLsn` keeps its value |
| FetchLoop.HandleRecord | pkg/source/postgres.go:141-165 | the XLogData branch ends the loop iff decode fails, or a non-ignorable DDL change's refresh fails, and then with the decoder's or the refresh's own error; otherwise it sends exactly the forwarded change with the commit time after a Begin; it never reports or decodes again |
| FetchLoop.Dispatch | pkg/source/postgres.go:115-170 | a receive ends the loop iff the message is fatal, and then with the failing call's own error (`MessageError`: receive, keepalive parse, XLogData parse, decode, refresh); NonCopyData gives "unexpected message"; a reply-requesting keepalive sets the report time to the zero time; otherwise the schedule is unchanged |
| FetchLoop.Step | pkg/source/postgres.go:104-171 | one pass: a status update carrying the last committed LSN is the first call iff the report is due; the stop flag ends the loop only right after a sent update; a failed update ends it with the send's own error; otherwise fatal messages and nothing else end it, with their own error; what is sent and the new report time |
| FetchLoop.Run | pkg/source/postgres.go:100-172 | the loop over a finite input returns at an iteration inside the input or is still waiting |
| FetchLoop.StepEnds | pkg/source/postgres.go:105-123 | a pass returns nil only after a due status update carrying the committed LSN was sent with the stop flag set; it returns an error only as the failed update's error or a fatal message's own error |
| FetchLoop.RunEnds | pkg/source/postgres.go:100-172 | a run returns nil only when the last call made is a status update with the committed LSN, the stop flag is set and the report was rescheduled; an error only as the failed update's or fatal message's own error |
| FetchLoop.RunForwards | pkg/source/postgres.go:145-165 | the loop sends exactly the changes of the iterations it completes, and leaves the commit time those iterations produce |
| FetchLoop.ForwardedPositions | pkg/source/postgres.go:145-165 | each forwarding iteration's change sits at its rank among forwarding iterations, with checkpoint `WALStart + len(WALData)` and the commit time after it; the count of changes is the count of forwarding iterations |
| FetchLoop.RunSendsInInputOrder | pkg/source/postgres.go:145-165 | over a run, the output grows by exactly the changes of the completed iterations, in input order, each with its record's end LSN and current commit time |
| FetchLoop.ForwardedLsnFrom | pkg/source/postgres.go:159-165 | every sent checkpoint LSN is the record end of some forwarding iteration |
| FetchLoop.ForwardedLsnsNonDecreasing | pkg/source/postgres.go:159-165 | when the records end at non-decreasing positions, the sent checkpoint LSNs are non-decreasing |
| FetchLoop.SilentIterations | pkg/source/postgres.go:118-151 | timeouts, keepalives, unknown CopyData, nil decode results and ignorable changes send nothing and leave the commit time alone |
| FetchLoop.CommitTimeWithoutBegin | pkg/source/postgres.go:147-148 | without a Begin the commit time is unchanged |
| FetchLoop.CommitTimeOfLatestBegin | pkg/source/postgres.go:147-148 | the commit time is `PGTime2Time` of the most recent Begin's commit time |
| FetchLoop.ReplyRequestForcesReport | pkg/source/postgres.go:105-106 | after a keepalive that asks for a reply, the next iteration sends a status update with the last committed LSN |
| FetchLoop.DispatchCalls | pkg/source/postgres.go:137-165 | a receive makes no call or the calls of one XLogData message: decode, then maybe one refresh, then maybe a send |
| FetchLoop.StepCalls | pkg/source/postgres.go:104-165 | one pass makes an optional status update and then the calls of at most one XLogData message |
| FetchLoop.AppendKeepsRefreshFirst | pkg/source/postgres.go:141-165 | appending one pass's calls keeps every DDL change directly preceded by its decode and one refresh, and every other change by its decode |
| FetchLoop.AppendKeepsRefreshTied | pkg/source/postgres.go:152-165 | appending one pass's calls keeps every refresh directly after a decode and directly before the send of its DDL change |
| FetchLoop.AppendIterationCalls | pkg/source/postgres.go:141-165 | both ordering invariants survive one pass, and no refresh is left waiting when the loop continues |
| FetchLoop.HandleRecordSends | pkg/source/postgres.go:145-165 | the XLogData branch appends to the output exactly the changes its send calls carry |
| FetchLoop.DispatchSends | pkg/source/postgres.go:115-170 | the receive appends to the output exactly the changes its send calls carry |
| FetchLoop.StepSends | pkg/source/postgres.go:104-171 | one pass appends to the output exactly the changes its send calls carry |
| FetchLoop.StepKeepsOrder | pkg/source/postgres.go:104-171 | one pass keeps the call-order invariant and keeps the output equal to the changes the send calls carried |
| FetchLoop.RunKeepsOrder | pkg/source/postgres.go:100-172 | over a whole run, each DDL change is sent right after exactly one refresh, which follows its decode; a failed refresh is the last call; and the output is exactly the changes sent, in call order, so every DDL change in the output had its refresh first |
| Source.PgxSource.constructor | pkg/source/postgres.go:18-35 | a fresh source after Setup: no replication connection, `ackLsn` 0, no stop channel, nothing sent |
| Source.PgxSource.Capture | pkg/source/postgres.go:61-98 | connect, identify and start-replication errors are returned in order; START_REPLICATION is requested at the start position with the plugin arguments; on success `ackLsn` is that position, `stop` is open, and the output channel and the call record start empty, so the call-order invariants of `RunKeepsOrder` hold for each new session |
| Source.PgxSource.Commit | pkg/source/postgres.go:174-176 | `ackLsn` becomes the checkpoint's LSN unconditionally |
| Source.PgxSource.CommittedLsn | pkg/source/postgres.go:178-180 | the write position reported is the last stored `ackLsn` |
| Source.PgxSource.Stop | pkg/source/postgres.go:182-187 | the stop flag is set; the caller blocks exactly when the stop channel exists and is still open |
| Source.PgxSource.Cleanup | pkg/source/postgres.go:189-198 | each set connection is closed once and cleared, so a second call closes nothing |
| Source.PgxSource.DeliverCalls | pkg/source/postgres.go:174-187 | the consumer's calls applied one by one leave the state `ApplyCalls` describes |
| Source.PgxSource.FetchOnce | pkg/source/postgres.go:104-171 | one pass of the loop body on the object's fields is `Step` |
| Source.PgxSource.ReceiveOnce | pkg/source/postgres.go:115-170 | the receive and message switch on the fields is `Dispatch` |
| Source.PgxSource.HandleXLogData | pkg/source/postgres.go:137-165 | the XLogData case on the fields is `HandleRecord` |
| Source.PgxSource.Fetching | pkg/source/postgres.go:100-172 | the loop on the fields ends as `Run` ends and leaves the state `Run` computes |
| Source.PgxSource.CaptureLoop | pkg/source/postgres.go:88-95 | on an error the process ends with nothing closed; on a clean return the output channel closes, then `stop`, then each connection; no replication is requested |
| Source.PgxSource.Finish | pkg/source/postgres.go:89-94 | after the loop: an error sets `fatal` and closes nothing; a nil return closes the output channel, then `stop`, then each connection; still running changes nothing |

## Left out

- `Setup` (pkg/source/postgres.go:37-59) is not modelled. It is connection set-up, SQL and schema loading through foreign libraries. It swallows the `InstallExtension` error by returning nil. The constructor stands for its outcome.
- The pgx, pgconn and pglogrepl calls are not re-implemented: Connect, IdentifySystem, StartReplication, ReceiveMessage, SendStandbyStatusUpdate, ParsePrimaryKeepaliveMessage and ParseXLogData. Their outcomes are inputs (`Iteration`, and the parameters of `Capture`), and their errors are opaque `Foreign` codes.
- The decoder, `decode.Ignore`, `decode.IsDDL` and `RefreshType` are not part of this model. A decode yields nothing, a Begin with its commit timestamp, a row change with its ignorable and DDL flags, or another message kind.
- The goroutine, channel capacity and blocking, and the atomics are not modelled as concurrency. Consumer calls interleave only between loop passes, as the `calls` of each iteration. The output channel is a sequence without backpressure.
- Source.PgxSource.Stop: returns whether the caller would block instead of waiting for the channel to close.
- Logging (`log.Println`) is not modelled. `log.Fatalf` is modelled only as the end of the process (the field `fatal`).
- A CopyData message with an empty body makes `msg.Data[0]` panic in the source. The model has no such message: every CopyData is a keepalive, an XLogData or an unknown tag.
- Wall-clock time is integer nanosecond ticks supplied by each iteration. The report deadline given to `ReceiveMessage` shows only as the `TimedOut` outcome.
- The loop runs over a finite input: `Run` and `Fetching` end in `Waiting` when the input is used up, which stands for a loop still running.
- The slot's output-plugin name `OutputPlugin` (pkg/source/postgres.go:200) is not modelled: only `Setup` uses it, to create the slot (pkg/source/postgres.go:55).
- `SetupConnStr` and `CreateSlot` are not modelled: only `Setup` uses them.
- `ReplConnStr` is not modelled: it matters only through the outcome of the connect call, which is `Capture`'s `connect` parameter.
- The `decoder` and `schema` fields are not modelled: they matter only through each `Iteration`'s decode and refresh outcomes.
