/** The capture source object: the fields it keeps between calls and its
    methods, with the fetch loop proved against the state machine of
    module FetchLoop. Connections, the server and the decoder are outside;
    their answers are parameters. */
module Source {
  import opened Wrappers
  import opened GoInt
  import opened PgTime
  import opened Replication
  import opened FetchLoop

  /** An open connection: the control connection (`*pgx.Conn`) or the
      replication connection (`*pgconn.PgConn`). */
  datatype Conn = Conn(id: nat)

  /** The `stop` channel: not made yet, open, or closed by the loop goroutine. */
  datatype StopChannel = NoChannel | Open | Closed

  /** The START_REPLICATION request Capture sends. */
  datatype StartRequest = StartRequest(slot: string, lsn: LSN, pluginArgs: seq<string>)

  /** What the loop goroutine does on its way out, in order. */
  datatype ShutdownStep = ChangesClosed | StopClosed | ConnClosed(conn: Conn)

  /** Whether one pass of the loop body goes round again or returns. */
  datatype Verdict = GoOn | Return(err: Option<Error>)

  /** The close calls that cleanup makes for one connection field. */
  function CloseSteps(c: Option<Conn>): seq<ShutdownStep> {
    if c.Some? then [ConnClosed(c.value)] else []
  }

  class PgxSource {
    const replSlot: string

    var setupConn: Option<Conn>
    var replConn: Option<Conn>
    var commitTime: Time
    var ackLsn: LSN
    var stopped: bool
    var stop: StopChannel
    /** Everything sent on the output channel Capture made, and whether it is closed. */
    var changes: seq<Change>
    var changesClosed: bool
    /** The error `log.Fatalf` ended the process with, if it did. */
    var fatal: Option<Error>

    /** The calls the fetch loop made to the server, the decoder's schema
        loader and the output channel. */
    ghost var trace: seq<Event>
    /** The START_REPLICATION requests sent. */
    ghost var startRequests: seq<StartRequest>
    /** What the loop goroutine did on its way out. */
    ghost var shutdown: seq<ShutdownStep>

    /** A source after Setup: `setupConn` is the control connection it opened. */
    constructor (replSlot: string, setupConn: Option<Conn>)
      ensures this.replSlot == replSlot && this.setupConn == setupConn && replConn == None
      ensures commitTime == ZeroTime && ackLsn == 0 && !stopped && stop == NoChannel
      ensures changes == [] && !changesClosed && fatal == None
      ensures trace == [] && startRequests == [] && shutdown == []
    {
      this.replSlot := replSlot;
      this.setupConn := setupConn;
      replConn := None;
      commitTime := ZeroTime;
      ackLsn := 0;
      stopped := false;
      stop := NoChannel;
      changes := [];
      changesClosed := false;
      fatal := None;
      trace := [];
      startRequests := [];
      shutdown := [];
    }

    /** The state the fetch loop works on, with its local `nextReportTime`. */
    ghost function View(nextReport: int): LoopState
      reads this`commitTime, this`ackLsn, this`stopped, this`changes, this`trace
    {
      LoopState(nextReport, commitTime, ackLsn, stopped, changes, trace)
    }

    /** Capture: connect, identify the server, start replication at the
        checkpoint or at the server's position, and seed `ackLsn` with it.
        The goroutine it starts is CaptureLoop; each session starts with a
        new output channel and no calls made, so the loop's invariants hold
        at its start. */
    method Capture(cp: Checkpoint, connect: Result<Conn, Error>, identify: Result<LSN, Error>,
                   start: Outcome<Error>)
      returns (err: Option<Error>)
      modifies this`replConn, this`ackLsn, this`stop, this`changes, this`changesClosed,
               this`startRequests, this`trace
      ensures replConn == if connect.Success? then Some(connect.value) else None
      ensures err.None? <==> connect.Success? && identify.Success? && start.Pass?
      ensures connect.Failure? ==> err == Some(connect.error)
      ensures connect.Success? && identify.Failure? ==> err == Some(identify.error)
      ensures connect.Success? && identify.Success? && start.Fail? ==> err == Some(start.error)
      ensures startRequests == old(startRequests) +
        if connect.Success? && identify.Success?
        then [StartRequest(replSlot, StartPosition(cp, identify.value), PgLogicalParams)]
        else []
      ensures err.None? ==>
        (ackLsn == StartPosition(cp, identify.value) && stop == Open && changes == [] && !changesClosed &&
         trace == [])
      ensures err.Some? ==>
        (ackLsn == old(ackLsn) && stop == old(stop) && changes == old(changes) &&
         changesClosed == old(changesClosed) && trace == old(trace))
      ensures err.None? ==> WellOrdered(trace) && Settled(trace) && Sent(trace) == changes
    {
      match connect {
        case Failure(e) =>
          replConn := None;
          return Some(e);
        case Success(c) =>
          replConn := Some(c);
      }
      if identify.Failure? {
        return Some(identify.error);
      }
      var requestLsn := StartPosition(cp, identify.value);
      startRequests := startRequests + [StartRequest(replSlot, requestLsn, PgLogicalParams)];
      if start.Fail? {
        return Some(start.error);
      }
      ackLsn := requestLsn;
      stop := Open;
      changes, changesClosed := [], false;
      trace := [];
      err := None;
    }

    /** Commit: stores the checkpoint's LSN, with no check against the value
        it replaces. */
    method Commit(cp: Checkpoint)
      modifies this`ackLsn
      ensures ackLsn == cp.lsn
    {
      ackLsn := cp.lsn;
    }

    /** committedLSN: the LSN of the last Commit, or the start position. */
    function CommittedLsn(): (lsn: LSN)
      reads this
      ensures lsn == ackLsn
    {
      ackLsn
    }

    /** Stop: sets the flag; the caller then blocks until the loop goroutine
        closes `stop`, unless Capture never made it or it is closed already. */
    method Stop() returns (blocks: bool)
      modifies this`stopped
      ensures stopped
      ensures blocks == (stop == Open)
    {
      stopped := true;
      blocks := stop == Open;
    }

    /** cleanup: closes each connection that is still set and clears it, so
        that a second call closes nothing. */
    method Cleanup()
      modifies this`setupConn, this`replConn, this`shutdown
      ensures setupConn == None && replConn == None
      ensures shutdown == old(shutdown) + CloseSteps(old(setupConn)) + CloseSteps(old(replConn))
    {
      if setupConn.Some? {
        shutdown := shutdown + [ConnClosed(setupConn.value)];
        setupConn := None;
      }
      if replConn.Some? {
        shutdown := shutdown + [ConnClosed(replConn.value)];
        replConn := None;
      }
    }

    /** The consumer's Commit and Stop calls that land between two passes
        of the loop body. */
    method DeliverCalls(calls: seq<ConsumerCall>, ghost nextReport: int)
      modifies this`ackLsn, this`stopped
      ensures View(nextReport) == ApplyCalls(old(View(nextReport)), calls)
    {
      var k := 0;
      while k < |calls|
        invariant 0 <= k <= |calls|
        invariant View(nextReport) == ApplyCalls(old(View(nextReport)), calls[..k])
      {
        ghost var before := View(nextReport);
        match calls[k] {
          case CommitCall(cp) => Commit(cp);
          case StopCall => var _ := Stop();
        }
        assert View(nextReport) == ApplyCall(before, calls[k]);
        ApplyCallsExtend(old(View(nextReport)), calls, k);
        k := k + 1;
      }
      assert calls[..k] == calls;
    }

    /** One pass of the body of fetching's `for` loop: the consumer's calls
        that land first, the report check, then the receive. */
    method FetchOnce(it: Iteration, nextReportTime: int) returns (next: int, verdict: Verdict)
      modifies this`commitTime, this`ackLsn, this`stopped, this`changes, this`trace
      ensures var r := Step(old(View(nextReportTime)), it);
        View(next) == r.state && (verdict.GoOn? <==> r.Next?) &&
        (verdict.Return? ==> r.err == verdict.err)
    {
      DeliverCalls(it.calls, nextReportTime);
      next := nextReportTime;
      if it.now > next {
        trace := trace + [StatusSent(CommittedLsn())];
        if it.sendResult.Fail? {
          return next, Return(Some(it.sendResult.error));
        }
        next := it.later + ReportInterval;
        if stopped {
          return next, Return(None);
        }
      }
      next, verdict := ReceiveOnce(it, next);
    }

    /** The receive and the switch on the message kind. */
    method ReceiveOnce(it: Iteration, nextReportTime: int) returns (next: int, verdict: Verdict)
      modifies this`commitTime, this`changes, this`trace
      ensures var r := Dispatch(old(View(nextReportTime)), it);
        View(next) == r.state && (verdict.GoOn? <==> r.Next?) &&
        (verdict.Return? ==> r.err == verdict.err)
    {
      next, verdict := nextReportTime, GoOn;
      match it.recv {
        case TimedOut =>
        case ReceiveFailed(e) =>
          verdict := Return(Some(e));
        case Received(msg) =>
          match msg {
            case NonCopyData =>
              verdict := Return(Some(UnexpectedMessage));
            case UnknownCopyData =>
            case Keepalive(reply) =>
              if reply.Failure? {
                verdict := Return(Some(reply.error));
              } else if reply.value {
                next := ZeroTick;
              }
            case XLogData(record) =>
              if record.Failure? {
                verdict := Return(Some(record.error));
              } else {
                trace := trace + [DecodeCalled];
                verdict := HandleXLogData(it, record.value, next);
              }
          }
      }
    }

    /** The XLogData case: decode, track the commit time, drop ignorable
        changes, refresh the schema before a DDL change, send the change. */
    method HandleXLogData(it: Iteration, xld: WalRecord, ghost nextReportTime: int)
      returns (verdict: Verdict)
      requires it.recv == Received(XLogData(Success(xld)))
      modifies this`commitTime, this`changes, this`trace
      ensures var r := HandleRecord(old(View(nextReportTime)), xld, it);
        View(nextReportTime) == r.state && (verdict.GoOn? <==> r.Next?) &&
        (verdict.Return? ==> r.err == verdict.err)
    {
      if it.decodeResult.Failure? {
        return Return(Some(it.decodeResult.error));
      }
      verdict := GoOn;
      var m := it.decodeResult.value;
      if m.Some? {
        var forward := true;
        match m.value {
          case Begin(ct) =>
            commitTime := PGTime2Time(ct);
          case RowChange(ignorable, ddl, _) =>
            if ignorable {
              forward := false;
            } else if ddl {
              trace := trace + [SchemaRefreshed];
              if it.refreshResult.Fail? {
                return Return(Some(it.refreshResult.error));
              }
            }
          case OtherKind(_) =>
        }
        if forward {
          var c := Change(Checkpoint(EndLsn(xld), commitTime), m.value);
          changes := changes + [c];
          trace := trace + [ChangeSent(c)];
        }
      }
    }

    /** fetching: the loop over the iterations in `inputs`, starting with
        the first report due one interval after `now0`. */
    method Fetching(now0: int, inputs: seq<Iteration>) returns (end: LoopEnd)
      modifies this`commitTime, this`ackLsn, this`stopped, this`changes, this`trace
      ensures var r := Run(old(View(now0 + ReportInterval)), inputs, 0);
        end == r.end && View(r.state.nextReport) == r.state
    {
      var nextReportTime := now0 + ReportInterval;
      ghost var s0 := View(nextReportTime);
      var i := 0;
      while i < |inputs|
        invariant 0 <= i <= |inputs|
        invariant Run(s0, inputs, 0) == Run(View(nextReportTime), inputs, i)
      {
        var verdict;
        nextReportTime, verdict := FetchOnce(inputs[i], nextReportTime);
        if verdict.Return? {
          return Exited(verdict.err, i);
        }
        i := i + 1;
      }
      end := Waiting;
    }

    /** The goroutine Capture starts: the fetch loop, then, when it returns
        nil, the deferred close of the output channel, close of `stop` and
        cleanup, in that order. When it returns an error, `log.Fatalf` ends
        the process and no deferred call runs. */
    method CaptureLoop(now0: int, inputs: seq<Iteration>) returns (end: LoopEnd)
      requires stop == Open && !changesClosed && fatal.None?
      modifies this`commitTime, this`ackLsn, this`stopped, this`changes, this`trace,
               this`changesClosed, this`stop, this`fatal, this`setupConn, this`replConn,
               this`shutdown
      ensures var r := Run(old(View(now0 + ReportInterval)), inputs, 0);
        end == r.end && View(r.state.nextReport) == r.state
      ensures end.Waiting? ==>
        stop == Open && !changesClosed && fatal.None? &&
        setupConn == old(setupConn) && replConn == old(replConn) && shutdown == old(shutdown)
      ensures end.Exited? && end.err.Some? ==>
        fatal == end.err && stop == Open && !changesClosed &&
        setupConn == old(setupConn) && replConn == old(replConn) && shutdown == old(shutdown)
      ensures end.Exited? && end.err.None? ==>
        fatal.None? && changesClosed && stop == Closed &&
        setupConn == None && replConn == None &&
        shutdown == old(shutdown) + [ChangesClosed, StopClosed] +
          CloseSteps(old(setupConn)) + CloseSteps(old(replConn))
      ensures startRequests == old(startRequests)
    {
      end := Fetching(now0, inputs);
      Finish(end);
    }

    /** What the goroutine does once the loop has returned `end`. */
    method Finish(end: LoopEnd)
      requires stop == Open && !changesClosed && fatal.None?
      modifies this`changesClosed, this`stop, this`fatal, this`setupConn, this`replConn,
               this`shutdown
      ensures end.Waiting? ==>
        stop == Open && !changesClosed && fatal.None? &&
        setupConn == old(setupConn) && replConn == old(replConn) && shutdown == old(shutdown)
      ensures end.Exited? && end.err.Some? ==>
        fatal == end.err && stop == Open && !changesClosed &&
        setupConn == old(setupConn) && replConn == old(replConn) && shutdown == old(shutdown)
      ensures end.Exited? && end.err.None? ==>
        fatal.None? && changesClosed && stop == Closed &&
        setupConn == None && replConn == None &&
        shutdown == old(shutdown) + [ChangesClosed, StopClosed] +
          CloseSteps(old(setupConn)) + CloseSteps(old(replConn))
    {
      if end.Exited? {
        if end.err.Some? {
          fatal := end.err;
        } else {
          changesClosed := true;
          shutdown := shutdown + [ChangesClosed];
          stop := Closed;
          shutdown := shutdown + [StopClosed];
          Cleanup();
        }
      }
    }
  }
}
