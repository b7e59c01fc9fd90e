/** The values the capture source handles: checkpoints, decoded messages,
    the change events it forwards, the replication protocol messages it
    receives, and the fixed start-up configuration of a replication session. */
module Replication {
  import opened Wrappers
  import opened GoInt
  import opened PgTime

  /** A WAL position, a `uint64` byte offset. */
  type LSN = U64

  /** Errors that end the fetch loop. Errors of the foreign collaborators
      (receive, parse, decode, status update, schema refresh) are opaque. */
  datatype Error = UnexpectedMessage | Foreign(code: nat)

  /** A resumable position and the commit time of the transaction it belongs to. */
  datatype Checkpoint = Checkpoint(lsn: LSN, time: Time)

  /** What the logical decoder makes of one WAL record. `Ignore` and `IsDDL`
      of the decoder are the two flags of a row change; every other kind
      (commit, relation, ...) is `OtherKind`. */
  datatype Decoded =
    | Begin(commitTime: U64)
    | RowChange(ignorable: bool, ddl: bool, body: seq<Byte>)
    | OtherKind(body: seq<Byte>)

  /** A DDL change that is not ignored: it needs a schema refresh. */
  predicate IsSchemaChange(m: Decoded) {
    m.RowChange? && !m.ignorable && m.ddl
  }

  /** A change event handed downstream on the output channel. */
  datatype Change = Change(checkpoint: Checkpoint, message: Decoded)

  /** An XLogData payload: the WAL position of the record and its bytes. */
  datatype WalRecord = WalRecord(walStart: LSN, walData: seq<Byte>)

  /** The checkpoint LSN of a record: its start plus its length, in `uint64`. */
  function EndLsn(r: WalRecord): (lsn: LSN)
    ensures r.walStart + |r.walData| < TwoTo64 ==> lsn == r.walStart + |r.walData|
    ensures (r.walStart + |r.walData| - lsn) % TwoTo64 == 0
  {
    WrapU64(r.walStart + |r.walData|)
  }

  /** Without wrap-around, resuming from a record's checkpoint starts after
      the whole record: never at or before its own start when it has data. */
  lemma EndLsnPastRecord(r: WalRecord)
    requires r.walStart + |r.walData| < TwoTo64
    ensures EndLsn(r) >= r.walStart
    ensures |r.walData| > 0 ==> EndLsn(r) > r.walStart
  {
  }

  /** A backend message as the fetch loop tells them apart: CopyData tagged
      'k' (primary keepalive) and 'w' (XLogData) with the outcome of parsing
      their bodies, CopyData with any other tag, and every other message. */
  datatype Message =
    | Keepalive(replyRequested: Result<bool, Error>)
    | XLogData(record: Result<WalRecord, Error>)
    | UnknownCopyData
    | NonCopyData

  /** The outcome of one `ReceiveMessage` call bounded by the report deadline. */
  datatype Receive = TimedOut | ReceiveFailed(err: Error) | Received(msg: Message)

  /** A call by the consumer goroutine that lands between two iterations. */
  datatype ConsumerCall = CommitCall(cp: Checkpoint) | StopCall

  /** Everything one iteration of the fetch loop learns from outside: the
      consumer calls that land before it, the clock at the report check and
      after a report, and the outcomes of the foreign calls it may make. An
      outcome the iteration does not reach is not looked at. */
  datatype Iteration = Iteration(
    calls: seq<ConsumerCall>,
    now: int,
    sendResult: Outcome<Error>,
    later: int,
    recv: Receive,
    decodeResult: Result<Option<Decoded>, Error>,
    refreshResult: Outcome<Error>)

  /** Observable calls the fetch loop makes, in order. */
  datatype Event =
    | StatusSent(writePosition: LSN)
    | DecodeCalled
    | SchemaRefreshed
    | ChangeSent(change: Change)

  /** The position replication starts from: the checkpoint's LSN when it is
      nonzero, otherwise the server's current WAL position. */
  function StartPosition(cp: Checkpoint, xLogPos: LSN): (start: LSN)
    ensures cp.lsn != 0 ==> start == cp.lsn
    ensures cp.lsn == 0 ==> start == xLogPos
  {
    if cp.lsn != 0 then cp.lsn else xLogPos
  }

  /** The plugin arguments of START_REPLICATION; the decoder relies on them. */
  const PgLogicalParams: seq<string> := [
    "min_proto_version '1'",
    "max_proto_version '1'",
    "startup_params_format '1'",
    "\"binary.want_binary_basetypes\" '1'",
    "\"binary.basetypes_major_version\" '906'",
    "\"binary.bigendian\" '1'"
  ]
  /** One plugin argument: an option name and its single-quoted value. */
  function PluginArg(name: string, value: string): (arg: string)
    ensures |arg| == |name| + |value| + 3
    ensures arg[..|name|] == name && arg[|name| + 2..|arg| - 1] == value
    ensures arg[|name|..|name| + 2] == " '" && arg[|arg| - 1] == '\''
  {
    name + " '" + value + "'"
  }

  /** The arguments ask for protocol version 1 with the startup parameters
      of format 1, and for binary base types of PostgreSQL 9.6 in big-endian
      order. */
  lemma PgLogicalParamsAreOptions()
    ensures PgLogicalParams == [
      PluginArg("min_proto_version", "1"),
      PluginArg("max_proto_version", "1"),
      PluginArg("startup_params_format", "1"),
      PluginArg("\"binary.want_binary_basetypes\"", "1"),
      PluginArg("\"binary.basetypes_major_version\"", "906"),
      PluginArg("\"binary.bigendian\"", "1")]
  {
    assert PluginArg("min_proto_version", "1") == PgLogicalParams[0];
    assert PluginArg("max_proto_version", "1") == PgLogicalParams[1];
    assert PluginArg("startup_params_format", "1") == PgLogicalParams[2];
    assert PluginArg("\"binary.want_binary_basetypes\"", "1") == PgLogicalParams[3];
    assert PluginArg("\"binary.basetypes_major_version\"", "906") == PgLogicalParams[4];
    assert PluginArg("\"binary.bigendian\"", "1") == PgLogicalParams[5];
  }
}
