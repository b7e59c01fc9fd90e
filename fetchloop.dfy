/** The fetch loop of the capture source as a state machine over a finite
    sequence of iterations. `Step` is one pass of the loop body, `Run` the
    loop; the lemmas state what the loop forwards, when it reports and when
    it ends. */
module FetchLoop {
  import opened Wrappers
  import opened GoInt
  import opened PgTime
  import opened Replication

  /** `time.Second * 5`; clock ticks are nanoseconds since the Unix epoch. */
  const ReportInterval: int := 5_000_000_000

  /** Go's zero `time.Time{}` as a tick: earlier than any real clock reading. */
  const ZeroTick: int := -62135596800 * 1_000_000_000

  /** The loop's state: the local `nextReportTime`, the fields `commitTime`,
      `ackLsn` and `stopped`, the changes sent on the output channel, and
      the calls made so far. */
  datatype LoopState = LoopState(
    nextReport: int,
    commitTime: Time,
    ackLsn: LSN,
    stopped: bool,
    out: seq<Change>,
    trace: seq<Event>)

  /** One pass of the loop body either goes round again or returns. */
  datatype StepResult = Next(state: LoopState) | Exit(state: LoopState, err: Option<Error>)

  /** How a run over a finite input ends: still waiting for input, or
      returned from the loop at iteration `at`. */
  datatype LoopEnd = Waiting | Exited(err: Option<Error>, at: nat)

  datatype RunResult = RunResult(state: LoopState, end: LoopEnd)

  // ---------------------------------------------------------------------
  // Calls of the consumer goroutine: Commit stores the LSN, Stop the flag.

  function ApplyCall(s: LoopState, c: ConsumerCall): LoopState {
    match c
    case CommitCall(cp) => s.(ackLsn := cp.lsn)
    case StopCall => s.(stopped := true)
  }

  /** The state after the consumer's calls, applied in order. */
  function ApplyCalls(s: LoopState, calls: seq<ConsumerCall>): (r: LoopState)
    ensures r == s.(ackLsn := r.ackLsn, stopped := r.stopped)
    ensures r.stopped == (s.stopped || StopCall in calls)
    decreases |calls|
  {
    if calls == [] then s
    else
      var init := calls[..|calls| - 1];
      assert calls == init + [calls[|calls| - 1]];
      ApplyCall(ApplyCalls(s, init), calls[|calls| - 1])
  }

  /** Commit is last-write-wins: `ackLsn` holds the LSN of the last Commit,
      whatever the earlier ones stored. */
  lemma {:induction false} LastCommitWins(s: LoopState, calls: seq<ConsumerCall>, i: nat)
    requires i < |calls| && calls[i].CommitCall?
    requires forall j :: i < j < |calls| ==> !calls[j].CommitCall?
    ensures ApplyCalls(s, calls).ackLsn == calls[i].cp.lsn
    decreases |calls|
  {
    var init := calls[..|calls| - 1];
    if i < |calls| - 1 {
      assert init[i] == calls[i];
      assert forall j :: i < j < |init| ==> init[j] == calls[j];
      LastCommitWins(s, init, i);
    }
  }

  /** Without a Commit, `ackLsn` keeps its value. */
  lemma {:induction false} NoCommitKeepsAck(s: LoopState, calls: seq<ConsumerCall>)
    requires forall j :: 0 <= j < |calls| ==> !calls[j].CommitCall?
    ensures ApplyCalls(s, calls).ackLsn == s.ackLsn
    decreases |calls|
  {
    if calls != [] {
      var init := calls[..|calls| - 1];
      assert forall j :: 0 <= j < |init| ==> init[j] == calls[j];
      NoCommitKeepsAck(s, init);
    }
  }

  /** Applying one more call of the sequence. */
  lemma ApplyCallsExtend(s: LoopState, calls: seq<ConsumerCall>, k: nat)
    requires k < |calls|
    ensures ApplyCalls(s, calls[..k + 1]) == ApplyCall(ApplyCalls(s, calls[..k]), calls[k])
  {
    assert calls[..k + 1][..k] == calls[..k];
  }

  // ---------------------------------------------------------------------
  // One pass of the loop body.

  /** The report check at the top of the loop fires. */
  predicate ReportDue(s: LoopState, it: Iteration) {
    it.now > s.nextReport
  }

  /** The loop returns at the report check: the status update failed, or it
      was sent and the stop flag was set. */
  predicate EndsAtReport(s: LoopState, it: Iteration) {
    ReportDue(s, it) && (it.sendResult.Fail? || ApplyCalls(s, it.calls).stopped)
  }

  /** The message an iteration hands to the decoder, decoded, when the
      decoder returns one. */
  function DecodedBy(it: Iteration): Option<Decoded> {
    if it.recv.Received? && it.recv.msg.XLogData? && it.recv.msg.record.Success?
       && it.decodeResult.Success?
    then it.decodeResult.value
    else None
  }

  /** Conditions of the received message that end the loop with an error. */
  predicate FatalMessage(it: Iteration) {
    match it.recv
    case TimedOut => false
    case ReceiveFailed(_) => true
    case Received(msg) =>
      match msg
      case NonCopyData => true
      case UnknownCopyData => false
      case Keepalive(reply) => reply.Failure?
      case XLogData(record) =>
        record.Failure? || it.decodeResult.Failure? ||
        (DecodedBy(it).Some? && IsSchemaChange(DecodedBy(it).value) && it.refreshResult.Fail?)
  }

  /** The error a fatal message ends the loop with: the failing call's own
      error, or "unexpected message" for a message that is not CopyData. */
  function MessageError(it: Iteration): Error
    requires FatalMessage(it)
  {
    match it.recv
    case TimedOut => UnexpectedMessage
    case ReceiveFailed(e) => e
    case Received(msg) =>
      match msg
      case NonCopyData => UnexpectedMessage
      case UnknownCopyData => UnexpectedMessage
      case Keepalive(reply) => reply.error
      case XLogData(record) =>
        if record.Failure? then record.error
        else if it.decodeResult.Failure? then it.decodeResult.error
        else it.refreshResult.error
  }

  /** An iteration that does not end the loop forwards a change exactly when
      the decoder returned a message that is not an ignorable row change. */
  predicate Forwards(it: Iteration) {
    DecodedBy(it).Some? && !(DecodedBy(it).value.RowChange? && DecodedBy(it).value.ignorable)
  }

  /** The commit time after an iteration: a Begin sets it, nothing else does. */
  function TimeAfter(t: Time, it: Iteration): Time {
    if DecodedBy(it).Some? && DecodedBy(it).value.Begin?
    then PGTime2Time(DecodedBy(it).value.commitTime)
    else t
  }

  /** The change an iteration forwards under commit time `t`. */
  function ChangeOf(it: Iteration, t: Time): Change
    requires Forwards(it)
  {
    Change(Checkpoint(EndLsn(it.recv.msg.record.value), t), DecodedBy(it).value)
  }

  /** Sends the change for record `rec` and message `m` on the output channel. */
  function Send(s: LoopState, rec: WalRecord, m: Decoded): LoopState {
    var c := Change(Checkpoint(EndLsn(rec), s.commitTime), m);
    s.(out := s.out + [c], trace := s.trace + [ChangeSent(c)])
  }

  /** The XLogData branch, after `Decode` has been called. */
  function HandleRecord(s: LoopState, rec: WalRecord, it: Iteration): (r: StepResult)
    requires it.recv == Received(XLogData(Success(rec)))
    ensures r.state == s.(commitTime := r.state.commitTime, out := r.state.out, trace := r.state.trace)
    ensures |s.trace| <= |r.state.trace| && r.state.trace[..|s.trace|] == s.trace
    ensures forall k :: |s.trace| <= k < |r.state.trace| ==> !r.state.trace[k].StatusSent? && !r.state.trace[k].DecodeCalled?
    ensures r.Exit? ==> r.err.Some?
    ensures r.Exit? <==> it.decodeResult.Failure? || (DecodedBy(it).Some? && IsSchemaChange(DecodedBy(it).value) && it.refreshResult.Fail?)
    ensures it.decodeResult.Failure? ==> r == Exit(s, Some(it.decodeResult.error))
    ensures r.Exit? && it.decodeResult.Success? ==> it.refreshResult.Fail? && r.err == Some(it.refreshResult.error)
    ensures r.Exit? ==> r.state.out == s.out && r.state.commitTime == s.commitTime
    ensures r.Next? ==> r.state.commitTime == TimeAfter(s.commitTime, it)
    ensures r.Next? ==> r.state.out == s.out + (if Forwards(it) then [ChangeOf(it, TimeAfter(s.commitTime, it))] else [])
  {
    match it.decodeResult
    case Failure(e) => Exit(s, Some(e))
    case Success(None) => Next(s)
    case Success(Some(m)) =>
      match m
      case Begin(ct) => Next(Send(s.(commitTime := PGTime2Time(ct)), rec, m))
      case RowChange(ignorable, ddl, _) =>
        if ignorable then Next(s)
        else if ddl then
          var s1 := s.(trace := s.trace + [SchemaRefreshed]);
          match it.refreshResult
          case Fail(e) => Exit(s1, Some(e))
          case Pass => Next(Send(s1, rec, m))
        else Next(Send(s, rec, m))
      case OtherKind(_) => Next(Send(s, rec, m))
  }

  /** The receive and the switch on the message kind. */
  function Dispatch(s: LoopState, it: Iteration): (r: StepResult)
    ensures r.state.ackLsn == s.ackLsn && r.state.stopped == s.stopped
    ensures |s.trace| <= |r.state.trace| && r.state.trace[..|s.trace|] == s.trace
    ensures |s.trace| < |r.state.trace| ==> r.state.trace[|s.trace|] == DecodeCalled
    ensures r.Exit? ==> r.err.Some?
    ensures r.Exit? <==> FatalMessage(it)
    ensures r.Exit? ==> FatalMessage(it) && r.err == Some(MessageError(it))
    ensures it.recv == Received(NonCopyData) ==> r == Exit(s, Some(UnexpectedMessage))
    ensures r.Exit? ==> r.state.out == s.out && r.state.commitTime == s.commitTime
    ensures r.Next? ==> r.state.commitTime == TimeAfter(s.commitTime, it)
    ensures r.Next? ==> r.state.out == s.out + (if Forwards(it) then [ChangeOf(it, TimeAfter(s.commitTime, it))] else [])
    ensures r.Next? && it.recv == Received(Keepalive(Success(true))) ==> r.state.nextReport == ZeroTick
    ensures r.Next? && it.recv != Received(Keepalive(Success(true))) ==> r.state.nextReport == s.nextReport
  {
    match it.recv
    case TimedOut => Next(s)
    case ReceiveFailed(e) => Exit(s, Some(e))
    case Received(msg) =>
      match msg
      case NonCopyData => Exit(s, Some(UnexpectedMessage))
      case UnknownCopyData => Next(s)
      case Keepalive(Failure(e)) => Exit(s, Some(e))
      case Keepalive(Success(reply)) =>
        if reply then Next(s.(nextReport := ZeroTick)) else Next(s)
      case XLogData(Failure(e)) => Exit(s, Some(e))
      case XLogData(Success(rec)) => HandleRecord(s.(trace := s.trace + [DecodeCalled]), rec, it)
  }

  /** One pass of the loop body. */
  function Step(s: LoopState, it: Iteration): (r: StepResult)
    // the consumer's calls are the only writers of ackLsn and the stop flag
    ensures r.state.ackLsn == ApplyCalls(s, it.calls).ackLsn
    ensures r.state.stopped == ApplyCalls(s, it.calls).stopped
    // calls are only appended; a status update, carrying the last committed
    // LSN, is the first call exactly when the report is due
    ensures |s.trace| <= |r.state.trace| && r.state.trace[..|s.trace|] == s.trace
    ensures ReportDue(s, it) <==> |s.trace| < |r.state.trace| && r.state.trace[|s.trace|].StatusSent?
    ensures ReportDue(s, it) ==> r.state.trace[|s.trace|] == StatusSent(ApplyCalls(s, it.calls).ackLsn)
    // the stop flag ends the loop only right after a status update was sent
    ensures r.Exit? && r.err.None? <==> ReportDue(s, it) && it.sendResult.Pass? && ApplyCalls(s, it.calls).stopped
    // the fatal conditions, and nothing else, end the loop with an error
    ensures EndsAtReport(s, it) ==> r.Exit?
    ensures !EndsAtReport(s, it) ==> (r.Exit? <==> FatalMessage(it))
    ensures !EndsAtReport(s, it) && it.recv == Received(NonCopyData) ==> r == Exit(r.state, Some(UnexpectedMessage))
    // each ends with the failing call's own error
    ensures ReportDue(s, it) && it.sendResult.Fail? ==> r == Exit(r.state, Some(it.sendResult.error))
    ensures !EndsAtReport(s, it) && r.Exit? ==> FatalMessage(it) && r.err == Some(MessageError(it))
    // what is forwarded, with which checkpoint
    ensures r.Exit? ==> r.state.out == s.out && r.state.commitTime == s.commitTime
    ensures r.Next? ==> r.state.commitTime == TimeAfter(s.commitTime, it)
    ensures r.Next? ==> r.state.out == s.out + (if Forwards(it) then [ChangeOf(it, TimeAfter(s.commitTime, it))] else [])
    // the report schedule: a keepalive asking for a reply makes the next report due at once
    ensures r.Next? && it.recv == Received(Keepalive(Success(true))) ==> r.state.nextReport == ZeroTick
    ensures r.Next? && it.recv != Received(Keepalive(Success(true))) ==>
      r.state.nextReport == if ReportDue(s, it) then it.later + ReportInterval else s.nextReport
  {
    var s1 := ApplyCalls(s, it.calls);
    if it.now > s1.nextReport then
      var s2 := s1.(trace := s1.trace + [StatusSent(s1.ackLsn)]);
      match it.sendResult
      case Fail(e) => Exit(s2, Some(e))
      case Pass =>
        var s3 := s2.(nextReport := it.later + ReportInterval);
        if s3.stopped then Exit(s3, None) else Dispatch(s3, it)
    else
      Dispatch(s1, it)
  }

  // ---------------------------------------------------------------------
  // The loop over a finite input.

  /** The loop run from iteration `i` of `its` until it returns or the input
      is used up. */
  function Run(s: LoopState, its: seq<Iteration>, i: nat): (r: RunResult)
    requires i <= |its|
    ensures r.end.Exited? ==> i <= r.end.at < |its|
    decreases |its| - i
  {
    if i == |its| then RunResult(s, Waiting)
    else
      match Step(s, its[i])
      case Next(s') => Run(s', its, i + 1)
      case Exit(s', e) => RunResult(s', Exited(e, i))
  }

  /** The iterations a run completed without returning. */
  function Completed(r: RunResult, its: seq<Iteration>): nat {
    if r.end.Waiting? then |its| else r.end.at
  }

  /** How one pass returns: nil only right after a due status update,
      carrying the committed LSN, was sent with the stop flag set; an error
      only as the failed update's error or a fatal message's own error. */
  lemma StepEnds(s: LoopState, it: Iteration)
    requires Step(s, it).Exit?
    ensures var r := Step(s, it);
      r.err.None? ==>
        ReportDue(s, it) && it.sendResult.Pass? && r.state.stopped &&
        r.state.nextReport == it.later + ReportInterval &&
        r.state.trace == s.trace + [StatusSent(r.state.ackLsn)]
    ensures var r := Step(s, it);
      r.err.Some? ==>
        (it.sendResult.Fail? && r.err == Some(it.sendResult.error)) ||
        (FatalMessage(it) && r.err == Some(MessageError(it)))
  {
  }

  /** How a run returns, stated at the iteration it returns in. */
  lemma {:induction false} RunEnds(s: LoopState, its: seq<Iteration>, i: nat)
    requires i <= |its|
    ensures var r := Run(s, its, i);
      r.end.Exited? && r.end.err.None? ==>
        its[r.end.at].sendResult.Pass? && r.state.stopped &&
        r.state.nextReport == its[r.end.at].later + ReportInterval &&
        |r.state.trace| > 0 && r.state.trace[|r.state.trace| - 1] == StatusSent(r.state.ackLsn)
    ensures var r := Run(s, its, i);
      r.end.Exited? && r.end.err.Some? ==>
        (its[r.end.at].sendResult.Fail? && r.end.err == Some(its[r.end.at].sendResult.error)) ||
        (FatalMessage(its[r.end.at]) && r.end.err == Some(MessageError(its[r.end.at])))
    decreases |its| - i
  {
    if i < |its| {
      var st := Step(s, its[i]);
      if st.Next? {
        RunEnds(st.state, its, i + 1);
      } else {
        StepEnds(s, its[i]);
      }
    }
  }

  // ---------------------------------------------------------------------
  // What a run forwards: a reference definition over the iterations alone.

  /** The changes forwarded by iterations none of which ends the loop,
      starting from commit time `t`. */
  function Forwarded(t: Time, its: seq<Iteration>): seq<Change>
    decreases |its|
  {
    if its == [] then []
    else
      var t' := TimeAfter(t, its[0]);
      (if Forwards(its[0]) then [ChangeOf(its[0], t')] else []) + Forwarded(t', its[1..])
  }

  /** The commit time after iterations none of which ends the loop. */
  function CommitTimeAfter(t: Time, its: seq<Iteration>): Time
    decreases |its|
  {
    if its == [] then t else CommitTimeAfter(TimeAfter(t, its[0]), its[1..])
  }

  /** How many of the iterations forward a change. */
  function CountForwards(its: seq<Iteration>): nat
    decreases |its|
  {
    if its == [] then 0 else (if Forwards(its[0]) then 1 else 0) + CountForwards(its[1..])
  }

  /** What a run from iteration `i` forwards and the commit time it leaves. */
  predicate ForwardsCompleted(s: LoopState, its: seq<Iteration>, i: nat)
    requires i <= |its|
  {
    var r := Run(s, its, i);
    i <= Completed(r, its) <= |its| &&
    r.state.out == s.out + Forwarded(s.commitTime, its[i..Completed(r, its)]) &&
    r.state.commitTime == CommitTimeAfter(s.commitTime, its[i..Completed(r, its)])
  }

  /** The loop forwards exactly the changes of the iterations it completes,
      and leaves the commit time of the last Begin among them. */
  lemma {:induction false} RunForwards(s: LoopState, its: seq<Iteration>, i: nat)
    requires i <= |its|
    ensures ForwardsCompleted(s, its, i)
    decreases |its| - i
  {
    if i < |its| {
      var st := Step(s, its[i]);
      if st.Next? {
        RunForwards(st.state, its, i + 1);
        ForwardsAfterNext(s, its, i);
      } else {
        ForwardsAfterExit(s, its, i);
      }
    }
  }

  lemma ForwardsAfterNext(s: LoopState, its: seq<Iteration>, i: nat)
    requires i < |its| && Step(s, its[i]).Next?
    requires ForwardsCompleted(Step(s, its[i]).state, its, i + 1)
    ensures ForwardsCompleted(s, its, i)
  {
    var s' := Step(s, its[i]).state;
    var t' := TimeAfter(s.commitTime, its[i]);
    var r := Run(s', its, i + 1);
    var n := Completed(r, its);
    var sent := if Forwards(its[i]) then [ChangeOf(its[i], t')] else [];
    assert Run(s, its, i) == r;
    assert s'.out == s.out + sent && s'.commitTime == t';
    assert r.state.out == s'.out + Forwarded(t', its[i + 1..n]);
    UnfoldSlice(s.commitTime, its, i, n);
    ConcatAssociates(s.out, sent, Forwarded(t', its[i + 1..n]));
  }

  lemma ConcatAssociates<T>(a: seq<T>, b: seq<T>, c: seq<T>)
    ensures a + b + c == a + (b + c)
  {
  }

  lemma ForwardsAfterExit(s: LoopState, its: seq<Iteration>, i: nat)
    requires i < |its| && Step(s, its[i]).Exit?
    ensures ForwardsCompleted(s, its, i)
  {
    assert its[i..i] == [];
  }

  /** `Forwarded` and `CommitTimeAfter` over `its[i..n]` take `its[i]` first. */
  lemma UnfoldSlice(t: Time, its: seq<Iteration>, i: nat, n: nat)
    requires i < n <= |its|
    ensures var t' := TimeAfter(t, its[i]);
      Forwarded(t, its[i..n]) ==
        (if Forwards(its[i]) then [ChangeOf(its[i], t')] else []) + Forwarded(t', its[i + 1..n]) &&
      CommitTimeAfter(t, its[i..n]) == CommitTimeAfter(t', its[i + 1..n])
  {
    assert its[i..n][0] == its[i];
    assert its[i..n][1..] == its[i + 1..n];
  }

  /** Order and content of the forwarded changes: the iteration `j` that
      forwards is the `CountForwards(its[..j])`-th change, its checkpoint
      LSN is the end of its WAL record and its time the commit time after
      it; nothing else is forwarded. */
  lemma {:induction false} ForwardedPositions(t: Time, its: seq<Iteration>)
    decreases |its|
    ensures |Forwarded(t, its)| == CountForwards(its)
    ensures forall j :: 0 <= j < |its| && Forwards(its[j]) ==>
      CountForwards(its[..j]) < |Forwarded(t, its)| &&
      Forwarded(t, its)[CountForwards(its[..j])] == ChangeOf(its[j], CommitTimeAfter(t, its[..j + 1]))
  {
    if its != [] {
      var t' := TimeAfter(t, its[0]);
      ForwardedPositions(t', its[1..]);
      forall j | 0 <= j < |its| && Forwards(its[j])
        ensures CountForwards(its[..j]) < |Forwarded(t, its)|
        ensures Forwarded(t, its)[CountForwards(its[..j])] == ChangeOf(its[j], CommitTimeAfter(t, its[..j + 1]))
      {
        if j == 0 {
          assert its[..0] == [];
          assert its[..1][0] == its[0];
          assert its[..1][1..] == [];
        } else {
          assert its[..j][0] == its[0];
          assert its[..j][1..] == its[1..][..j - 1];
          assert its[..j + 1][0] == its[0];
          assert its[..j + 1][1..] == its[1..][..j];
          assert its[1..][j - 1] == its[j];
        }
      }
    }
  }

  /** Every change the loop sends is the change of an iteration it
      completed, in input order: checkpoint LSN = WALStart + len(WALData),
      time = the commit time after that iteration. */
  lemma RunSendsInInputOrder(s: LoopState, its: seq<Iteration>)
    ensures var r := Run(s, its, 0); var n := Completed(r, its);
      n <= |its| &&
      |r.state.out| == |s.out| + CountForwards(its[..n]) &&
      r.state.out[..|s.out|] == s.out &&
      forall j :: 0 <= j < n && Forwards(its[j]) ==>
        |s.out| + CountForwards(its[..j]) < |r.state.out| &&
        r.state.out[|s.out| + CountForwards(its[..j])] ==
          ChangeOf(its[j], CommitTimeAfter(s.commitTime, its[..j + 1]))
  {
    var r := Run(s, its, 0);
    RunForwards(s, its, 0);
    var n := Completed(r, its);
    assert its[0..n] == its[..n];
    ForwardedPositions(s.commitTime, its[..n]);
    forall j | 0 <= j < n && Forwards(its[j])
      ensures |s.out| + CountForwards(its[..j]) < |r.state.out|
      ensures r.state.out[|s.out| + CountForwards(its[..j])] ==
        ChangeOf(its[j], CommitTimeAfter(s.commitTime, its[..j + 1]))
    {
      assert its[..n][j] == its[j];
      assert its[..n][..j] == its[..j];
      assert its[..n][..j + 1] == its[..j + 1];
    }
  }

  /** The checkpoint LSN of the record an iteration forwards. */
  function RecordEnd(it: Iteration): LSN
    requires Forwards(it)
  {
    EndLsn(it.recv.msg.record.value)
  }

  /** Every forwarded checkpoint LSN is the end of a forwarding iteration's record. */
  lemma {:induction false} ForwardedLsnFrom(t: Time, its: seq<Iteration>, k: nat)
    requires k < |Forwarded(t, its)|
    ensures exists j :: (0 <= j < |its| && Forwards(its[j]) &&
                         Forwarded(t, its)[k].checkpoint.lsn == RecordEnd(its[j]))
    decreases |its|
  {
    var t' := TimeAfter(t, its[0]);
    if Forwards(its[0]) && k == 0 {
      assert Forwarded(t, its)[0].checkpoint.lsn == RecordEnd(its[0]);
    } else {
      var k' := if Forwards(its[0]) then k - 1 else k;
      assert Forwarded(t, its)[k] == Forwarded(t', its[1..])[k'];
      ForwardedLsnFrom(t', its[1..], k');
      var j :| 0 <= j < |its[1..]| && Forwards(its[1..][j]) &&
        Forwarded(t', its[1..])[k'].checkpoint.lsn == RecordEnd(its[1..][j]);
      assert its[1..][j] == its[j + 1];
    }
  }

  /** When the server's records end at non-decreasing positions, the
      checkpoint LSNs the loop forwards are non-decreasing. */
  lemma {:induction false} ForwardedLsnsNonDecreasing(t: Time, its: seq<Iteration>)
    requires forall i, j :: 0 <= i < j < |its| && Forwards(its[i]) && Forwards(its[j]) ==>
      RecordEnd(its[i]) <= RecordEnd(its[j])
    ensures forall a, b :: 0 <= a < b < |Forwarded(t, its)| ==>
      Forwarded(t, its)[a].checkpoint.lsn <= Forwarded(t, its)[b].checkpoint.lsn
    decreases |its|
  {
    if its != [] {
      var t' := TimeAfter(t, its[0]);
      var rest := Forwarded(t', its[1..]);
      forall i, j | 0 <= i < j < |its[1..]| && Forwards(its[1..][i]) && Forwards(its[1..][j])
        ensures RecordEnd(its[1..][i]) <= RecordEnd(its[1..][j])
      {
        assert its[1..][i] == its[i + 1] && its[1..][j] == its[j + 1];
      }
      ForwardedLsnsNonDecreasing(t', its[1..]);
      if Forwards(its[0]) {
        var all := Forwarded(t, its);
        assert all == [ChangeOf(its[0], t')] + rest;
        forall a, b | 0 <= a < b < |all|
          ensures all[a].checkpoint.lsn <= all[b].checkpoint.lsn
        {
          if a == 0 {
            ForwardedLsnFrom(t', its[1..], b - 1);
            var j :| 0 <= j < |its[1..]| && Forwards(its[1..][j]) &&
              rest[b - 1].checkpoint.lsn == RecordEnd(its[1..][j]);
            assert its[1..][j] == its[j + 1];
          } else {
            assert all[a] == rest[a - 1] && all[b] == rest[b - 1];
          }
        }
      }
    }
  }

  /** Nothing is sent for a receive timeout, a keepalive, a CopyData message
      with an unknown tag, a record the decoder returns nothing for, or a
      row change the decoder marks ignorable. */
  lemma SilentIterations(s: LoopState, it: Iteration)
    requires
      || it.recv.TimedOut?
      || (it.recv.Received? && (it.recv.msg.Keepalive? || it.recv.msg.UnknownCopyData?))
      || (it.recv.Received? && it.recv.msg.XLogData? &&
          (it.decodeResult == Success(None) ||
           (it.decodeResult.Success? && it.decodeResult.value.Some? &&
            it.decodeResult.value.value.RowChange? && it.decodeResult.value.value.ignorable)))
    ensures Step(s, it).state.out == s.out
    ensures Step(s, it).state.commitTime == s.commitTime
  {
  }

  /** The iteration decodes a transaction Begin. */
  predicate BeginsAt(it: Iteration) {
    DecodedBy(it).Some? && DecodedBy(it).value.Begin?
  }

  /** With no Begin among the iterations, the commit time is left as it was. */
  lemma {:induction false} CommitTimeWithoutBegin(t: Time, its: seq<Iteration>)
    requires forall k :: 0 <= k < |its| ==> !BeginsAt(its[k])
    ensures CommitTimeAfter(t, its) == t
    decreases |its|
  {
    if its != [] {
      assert !BeginsAt(its[0]);
      CommitTimeWithoutBegin(TimeAfter(t, its[0]), its[1..]);
    }
  }

  /** The commit time is the converted commit time of the most recent Begin. */
  lemma {:induction false} CommitTimeOfLatestBegin(t: Time, its: seq<Iteration>, i: nat)
    requires i < |its| && BeginsAt(its[i])
    requires forall k :: i < k < |its| ==> !BeginsAt(its[k])
    ensures CommitTimeAfter(t, its) == PGTime2Time(DecodedBy(its[i]).value.commitTime)
    decreases |its|
  {
    if i == 0 {
      CommitTimeWithoutBegin(TimeAfter(t, its[0]), its[1..]);
    } else {
      CommitTimeOfLatestBegin(TimeAfter(t, its[0]), its[1..], i - 1);
    }
  }

  /** A keepalive that asks for a reply makes the very next iteration send a
      status update carrying the last committed LSN. */
  lemma ReplyRequestForcesReport(s: LoopState, it: Iteration, next: Iteration)
    requires Step(s, it).Next? && it.recv == Received(Keepalive(Success(true)))
    requires next.now > ZeroTick
    ensures var s' := Step(s, it).state;
      ReportDue(s', next) &&
      Step(s', next).state.trace[|s'.trace|] == StatusSent(ApplyCalls(s', next.calls).ackLsn)
  {
  }

  // ---------------------------------------------------------------------
  // The order of the loop's calls: decode, schema refresh, send.

  /** Every change sent directly follows the decode of its record, with
      exactly one schema refresh in between when it is a DDL change and
      none otherwise. */
  predicate RefreshPrecedesDdl(tr: seq<Event>) {
    forall k {:trigger tr[k]} :: 0 <= k < |tr| && tr[k].ChangeSent? ==>
      if IsSchemaChange(tr[k].change.message)
      then 2 <= k && tr[k - 1] == SchemaRefreshed && tr[k - 2] == DecodeCalled
      else 1 <= k && tr[k - 1] == DecodeCalled
  }

  /** Every schema refresh directly follows a decode and is directly followed
      by sending that DDL change, unless it is the last call made. */
  predicate RefreshOnlyForDdl(tr: seq<Event>) {
    forall k {:trigger tr[k]} :: 0 <= k < |tr| && tr[k] == SchemaRefreshed ==>
      1 <= k && tr[k - 1] == DecodeCalled &&
      (k + 1 < |tr| ==> tr[k + 1].ChangeSent? && IsSchemaChange(tr[k + 1].change.message))
  }

  predicate WellOrdered(tr: seq<Event>) {
    RefreshPrecedesDdl(tr) && RefreshOnlyForDdl(tr)
  }

  /** No refresh is waiting for its change to be sent. */
  predicate Settled(tr: seq<Event>) {
    tr == [] || tr[|tr| - 1] != SchemaRefreshed
  }

  /** The calls an XLogData message leads to: a decode, then possibly a
      refresh (the last call when it fails) and a send. */
  predicate DecodeBlock(ext: seq<Event>, ended: bool) {
    ext == [DecodeCalled] ||
    (|ext| == 2 && ext[0] == DecodeCalled && ext[1].ChangeSent? && !IsSchemaChange(ext[1].change.message)) ||
    (ext == [DecodeCalled, SchemaRefreshed] && ended) ||
    (|ext| == 3 && ext[0] == DecodeCalled && ext[1] == SchemaRefreshed &&
     ext[2].ChangeSent? && IsSchemaChange(ext[2].change.message))
  }

  lemma DispatchCalls(s: LoopState, it: Iteration)
    ensures var r := Dispatch(s, it);
      |s.trace| <= |r.state.trace| &&
      r.state.trace == s.trace + r.state.trace[|s.trace|..] &&
      (r.state.trace[|s.trace|..] == [] || DecodeBlock(r.state.trace[|s.trace|..], r.Exit?))
  {
    var r := Dispatch(s, it);
    assert r.state.trace == s.trace + r.state.trace[|s.trace|..];
  }

  /** The calls of one iteration: an optional status update, then nothing
      or the calls of one XLogData message. */
  lemma StepCalls(s: LoopState, it: Iteration)
    ensures var r := Step(s, it); var k := |s.trace| + (if ReportDue(s, it) then 1 else 0);
      k <= |r.state.trace| &&
      r.state.trace[..k] == s.trace + (if ReportDue(s, it) then [StatusSent(ApplyCalls(s, it.calls).ackLsn)] else []) &&
      (r.state.trace[k..] == [] || DecodeBlock(r.state.trace[k..], r.Exit?))
  {
    var r := Step(s, it);
    var s1 := ApplyCalls(s, it.calls);
    if it.now > s1.nextReport {
      var s2 := s1.(trace := s1.trace + [StatusSent(s1.ackLsn)]);
      if it.sendResult.Pass? && !s2.stopped {
        var s3 := s2.(nextReport := it.later + ReportInterval);
        assert r == Dispatch(s3, it);
        DispatchCalls(s3, it);
      }
    } else {
      assert r == Dispatch(s1, it);
      DispatchCalls(s1, it);
    }
  }

  /** Appending one iteration's calls keeps each DDL change preceded by its
      decode and refresh. */
  lemma AppendKeepsRefreshFirst(tr: seq<Event>, pre: seq<Event>, ext: seq<Event>, ended: bool)
    requires RefreshPrecedesDdl(tr)
    requires pre == [] || (|pre| == 1 && pre[0].StatusSent?)
    requires ext == [] || DecodeBlock(ext, ended)
    ensures RefreshPrecedesDdl(tr + pre + ext)
  {
    var all := tr + pre + ext;
    var m := |tr| + |pre|;
    assert forall k :: 0 <= k < |tr| ==> all[k] == tr[k];
    assert forall k :: m <= k < |all| ==> all[k] == ext[k - m];
    forall k | 0 <= k < |all| && all[k].ChangeSent?
      ensures if IsSchemaChange(all[k].change.message)
              then 2 <= k && all[k - 1] == SchemaRefreshed && all[k - 2] == DecodeCalled
              else 1 <= k && all[k - 1] == DecodeCalled
    {
      if k < |tr| {
        assert all[k] == tr[k];
        if IsSchemaChange(tr[k].change.message) {
          assert 2 <= k && tr[k - 1] == SchemaRefreshed && tr[k - 2] == DecodeCalled;
          assert all[k - 1] == tr[k - 1] && all[k - 2] == tr[k - 2];
        } else {
          assert 1 <= k && tr[k - 1] == DecodeCalled;
          assert all[k - 1] == tr[k - 1];
        }
      } else if k >= m {
        var j := k - m;
        assert ext[j].ChangeSent?;
        assert 1 <= j && all[k - 1] == ext[j - 1];
        if IsSchemaChange(all[k].change.message) {
          assert j == 2 && all[k - 2] == ext[0];
        } else {
          assert j == 1;
        }
      }
    }
  }

  /** Appending one iteration's calls keeps every refresh tied to a DDL change. */
  lemma AppendKeepsRefreshTied(tr: seq<Event>, pre: seq<Event>, ext: seq<Event>, ended: bool)
    requires RefreshOnlyForDdl(tr) && Settled(tr)
    requires pre == [] || (|pre| == 1 && pre[0].StatusSent?)
    requires ext == [] || DecodeBlock(ext, ended)
    ensures RefreshOnlyForDdl(tr + pre + ext)
  {
    var all := tr + pre + ext;
    var m := |tr| + |pre|;
    assert forall k :: 0 <= k < |tr| ==> all[k] == tr[k];
    assert forall k :: m <= k < |all| ==> all[k] == ext[k - m];
    forall k | 0 <= k < |all| && all[k] == SchemaRefreshed
      ensures 1 <= k && all[k - 1] == DecodeCalled
      ensures k + 1 < |all| ==> all[k + 1].ChangeSent? && IsSchemaChange(all[k + 1].change.message)
    {
      if k < |tr| {
        assert tr[k] == SchemaRefreshed;
        assert k + 1 < |tr|;
      } else if k >= m {
        var j := k - m;
        assert ext[j] == SchemaRefreshed;
        assert j == 1 && all[k - 1] == ext[0];
        if k + 1 < |all| {
          assert all[k + 1] == ext[2];
        }
      }
    }
  }

  lemma AppendIterationCalls(tr: seq<Event>, pre: seq<Event>, ext: seq<Event>, ended: bool)
    requires WellOrdered(tr) && Settled(tr)
    requires pre == [] || (|pre| == 1 && pre[0].StatusSent?)
    requires ext == [] || DecodeBlock(ext, ended)
    ensures WellOrdered(tr + pre + ext)
    ensures !ended ==> Settled(tr + pre + ext)
  {
    AppendKeepsRefreshFirst(tr, pre, ext, ended);
    AppendKeepsRefreshTied(tr, pre, ext, ended);
  }

  /** The changes a sequence of calls sends on the output channel, in order. */
  function Sent(tr: seq<Event>): seq<Change>
    decreases |tr|
  {
    if tr == [] then []
    else Sent(tr[..|tr| - 1]) + (if tr[|tr| - 1].ChangeSent? then [tr[|tr| - 1].change] else [])
  }

  lemma SentSnoc(tr: seq<Event>, e: Event)
    ensures Sent(tr + [e]) == Sent(tr) + (if e.ChangeSent? then [e.change] else [])
  {
    assert (tr + [e])[..|tr|] == tr;
  }

  /** The XLogData branch appends to the output exactly the changes its
      send calls carry. */
  lemma HandleRecordSends(s: LoopState, rec: WalRecord, it: Iteration)
    requires it.recv == Received(XLogData(Success(rec)))
    ensures var r := HandleRecord(s, rec, it);
      |s.out| <= |r.state.out| && Sent(r.state.trace) == Sent(s.trace) + r.state.out[|s.out|..]
  {
    var r := HandleRecord(s, rec, it);
    if r.state.trace == s.trace {
      assert r.state.out == s.out;
    } else if r.state.trace == s.trace + [SchemaRefreshed] {
      SentSnoc(s.trace, SchemaRefreshed);
      assert r.state.out == s.out;
    } else {
      var m := it.decodeResult.value.value;
      var c := Change(Checkpoint(EndLsn(rec), r.state.commitTime), m);
      assert r.state.out == s.out + [c];
      assert r.state.out[|s.out|..] == [c];
      if IsSchemaChange(m) {
        assert r.state.trace == s.trace + [SchemaRefreshed] + [ChangeSent(c)];
        SentSnoc(s.trace, SchemaRefreshed);
        SentSnoc(s.trace + [SchemaRefreshed], ChangeSent(c));
      } else {
        assert r.state.trace == s.trace + [ChangeSent(c)];
        SentSnoc(s.trace, ChangeSent(c));
      }
    }
  }

  /** The receive appends to the output exactly the changes its send calls carry. */
  lemma DispatchSends(s: LoopState, it: Iteration)
    ensures var r := Dispatch(s, it);
      |s.out| <= |r.state.out| && Sent(r.state.trace) == Sent(s.trace) + r.state.out[|s.out|..]
  {
    var r := Dispatch(s, it);
    if it.recv.Received? && it.recv.msg.XLogData? && it.recv.msg.record.Success? {
      var s' := s.(trace := s.trace + [DecodeCalled]);
      HandleRecordSends(s', it.recv.msg.record.value, it);
      SentSnoc(s.trace, DecodeCalled);
    } else {
      assert r.state.out == s.out && r.state.trace == s.trace;
    }
  }

  /** One pass appends to the output exactly the changes its send calls carry. */
  lemma StepSends(s: LoopState, it: Iteration)
    ensures var r := Step(s, it);
      |s.out| <= |r.state.out| && Sent(r.state.trace) == Sent(s.trace) + r.state.out[|s.out|..]
  {
    var r := Step(s, it);
    var s1 := ApplyCalls(s, it.calls);
    assert s1.trace == s.trace && s1.out == s.out;
    if it.now > s1.nextReport {
      var s2 := s1.(trace := s1.trace + [StatusSent(s1.ackLsn)]);
      SentSnoc(s1.trace, StatusSent(s1.ackLsn));
      var s3 := s2.(nextReport := it.later + ReportInterval);
      if it.sendResult.Fail? {
        assert r.state == s2;
      } else if s2.stopped {
        assert r.state == s3;
      } else {
        assert r == Dispatch(s3, it);
        DispatchSends(s3, it);
      }
    } else {
      assert r == Dispatch(s1, it);
      DispatchSends(s1, it);
    }
  }

  /** One iteration keeps the order of the calls, and the output holds
      exactly the changes the send calls carried. */
  lemma StepKeepsOrder(s: LoopState, it: Iteration)
    requires WellOrdered(s.trace) && Settled(s.trace) && Sent(s.trace) == s.out
    ensures WellOrdered(Step(s, it).state.trace)
    ensures Step(s, it).Next? ==> Settled(Step(s, it).state.trace)
    ensures Sent(Step(s, it).state.trace) == Step(s, it).state.out
  {
    StepSends(s, it);
    var r := Step(s, it);
    StepCalls(s, it);
    var k := |s.trace| + (if ReportDue(s, it) then 1 else 0);
    var pre, ext := r.state.trace[|s.trace|..k], r.state.trace[k..];
    assert r.state.trace == s.trace + pre + ext;
    AppendIterationCalls(s.trace, pre, ext, r.Exit?);
    assert r.state.out == s.out + r.state.out[|s.out|..];
  }

  /** A whole run keeps the order of the calls: for each DDL change, exactly
      one schema refresh happens after its decode and before it is sent, and
      before anything else is decoded; and the output holds exactly the
      changes sent, in the order of the calls. */
  lemma {:induction false} RunKeepsOrder(s: LoopState, its: seq<Iteration>, i: nat)
    requires i <= |its|
    requires WellOrdered(s.trace) && Settled(s.trace) && Sent(s.trace) == s.out
    ensures WellOrdered(Run(s, its, i).state.trace)
    ensures Run(s, its, i).end.Waiting? ==> Settled(Run(s, its, i).state.trace)
    ensures Sent(Run(s, its, i).state.trace) == Run(s, its, i).state.out
    decreases |its| - i
  {
    if i < |its| {
      StepKeepsOrder(s, its[i]);
      if Step(s, its[i]).Next? {
        RunKeepsOrder(Step(s, its[i]).state, its, i + 1);
      }
    }
  }
}
