/**
 * The copy phase of `uvstreamer` (copy.go): the per-table state machine that
 * runs catch-up, reads the table's snapshot batch by batch, fast-forwards to
 * the snapshot's position, emits FIELD, ROW and LASTPK events, and finally the
 * completion marker; and the loop over the copy queue.
 *
 * The external readers are inputs. A `TableRun` scripts everything the
 * readers and the context do while one table is copied: the catch-up
 * reader's batches and how catch-up ends, the snapshot batches and the
 * snapshot reader's own result, the fast-forward reader's batches, and the
 * callback at which the context is found cancelled, if any.
 */
module CopyPhase {
  import opened Wrappers
  import opened Mysql
  import opened Sqltypes
  import opened Binlogdata
  import opened Uvstreamer

  // ---------------------------------------------------------------------------
  // Cursor conversions (getLastPKFromQR, getQRFromLastPK)

  /**
   * getLastPKFromQR: the single row of a cursor result, nil for any other
   * number of rows. A nil result is taken to have no rows.
   */
  function GetLastPKFromQR(qr: Option<QueryResult>): (pk: Option<seq<Value>>)
    ensures pk.Some? <==> qr.Some? && |qr.value.rows| == 1
  {
    if qr.Some? && |qr.value.rows| == 1 then Some(MakeRowTrusted(qr.value.rows[0])) else None
  }

  /** getQRFromLastPK: a one-row result holding the cursor values. */
  function GetQRFromLastPK(fields: seq<Field>, lastPK: seq<Value>): (qr: QueryResult)
    ensures qr.fields == fields && |qr.rows| == 1 && |qr.rows[0].lengths| == |lastPK|
  {
    QueryResult(fields, [RowToProto3(lastPK)])
  }

  /** A cursor stored with getQRFromLastPK is read back unchanged by getLastPKFromQR. */
  lemma LastPKRoundTrip(fields: seq<Field>, lastPK: seq<Value>)
    ensures GetLastPKFromQR(Some(GetQRFromLastPK(fields, lastPK))) == Some(lastPK)
  {
    RowRoundTrip(lastPK);
  }

  /**
   * The cursor result built from a batch (`ResultToProto3` of
   * `CustomProto3ToResult`): the batch's fields and its last-PK row, decoded
   * and encoded again.
   */
  function BatchCursor(b: RowsResponse): QueryResult
  {
    GetQRFromLastPK(b.fields, MakeRowTrusted(b.lastpk))
  }

  /** A stored batch cursor resumes the snapshot read at the batch's decoded last-PK row. */
  lemma BatchCursorResumes(b: RowsResponse)
    ensures GetLastPKFromQR(Some(BatchCursor(b))) == Some(MakeRowTrusted(b.lastpk))
  {
    LastPKRoundTrip(b.fields, MakeRowTrusted(b.lastpk));
  }

  // ---------------------------------------------------------------------------
  // Scripted inputs

  /** The batches a live-tail reader delivers and the result it ends with after them. */
  datatype LiveRun = LiveRun(batches: seq<seq<VEvent>>, tail: Outcome)

  /** How catchup's supervising loop ends: lag reached, the reader ended by itself, or the context was cancelled. */
  datatype CatchupEnd = LagReached | ReaderFinished | Canceled

  datatype TableRun = TableRun(
    catchup: LiveRun,
    catchupEnd: CatchupEnd,
    rows: seq<RowsResponse>,
    rowsTail: Outcome,
    fastForward: LiveRun,
    cancelAt: Option<nat>)

  /** A table run in which every reader ends at once without error. */
  const IdleRun := TableRun(LiveRun([], Ok), ReaderFinished, [], Ok, LiveRun([], Ok), None)

  function RunAt(runs: seq<TableRun>, i: nat): TableRun
  {
    if i < |runs| then runs[i] else IdleRun
  }

  /**
   * The context is done when callback `k` checks it (`k` callbacks have run
   * before) iff the cancellation came at or before that point.
   */
  predicate DoneAt(cancelAt: Option<nat>, k: nat)
  {
    cancelAt.Some? && cancelAt.value <= k
  }

  // ---------------------------------------------------------------------------
  // catchup and fastForward (the readers abstracted)

  /**
   * catchup: a pipeline reader from the current position with no stop
   * position. Reaching the lag target cancels it and returns nil; the reader
   * ending by itself returns its error, or EOF when it had none; cancellation
   * of the surrounding context returns EOF.
   */
  function Catchup(s: State, run: LiveRun, end: CatchupEnd): (r: Step)
    ensures r.st.plans == s.plans && r.st.tablesToCopy == s.tablesToCopy
    ensures r.st.fields == s.fields && r.st.stopPos == s.stopPos
  {
    var c := StartLiveReader(s, ThroughPipeline, "", run.batches, run.tail);
    match end
    case LagReached => Step(c.st, Ok)
    case ReaderFinished => Step(c.st, if c.out == Ok then Eof else c.out)
    case Canceled => Step(c.st, Eof)
  }

  /**
   * fastForward: set the stop position to the snapshot's and run a pipeline
   * reader from the current position until the pipeline signals the stop.
   */
  function FastForward(s: State, stopPos: string, run: LiveRun): (r: Step)
    ensures r.st.plans == s.plans && r.st.tablesToCopy == s.tablesToCopy
    ensures r.st.fields == s.fields && r.st.stopPos == DecodeOrZero(stopPos)
  {
    StartLiveReader(s.(stopPos := DecodeOrZero(stopPos)), ThroughPipeline, "", run.batches, run.tail)
  }

  // ---------------------------------------------------------------------------
  // Events of the copy phase

  /** sendFieldEvent: BEGIN and the FIELD event, whose send error is ignored, then the snapshot position. */
  function SendFieldEvent(s: State, gtid: string, fe: FieldEvent): Step
  {
    var r := Send(s, Direct, [Begin, FieldEv(fe)]);
    SetPosition(r.st, gtid, true)
  }

  /** One ROW event per row, inserting that row into the table. */
  function RowEvents(t: string, rows: seq<Row>): (evs: seq<VEvent>)
    ensures |evs| == |rows|
    ensures forall i :: 0 <= i < |rows| ==> evs[i] == RowEv(RowEvent(t, [RowChange(None, Some(rows[i]))]))
  {
    if rows == [] then [] else [RowEv(RowEvent(t, [RowChange(None, Some(rows[0]))]))] + RowEvents(t, rows[1..])
  }

  /** The batch sendEventsForRows sends: the ROW events, the cursor, COMMIT. */
  function RowsBatch(t: string, rows: seq<Row>, qr: QueryResult): seq<VEvent>
  {
    RowEvents(t, rows) + [LastPK(LastPKEvent(TableLastPK(t, Some(qr)), false)), Commit]
  }

  function SendEventsForRows(s: State, t: string, rows: seq<Row>, qr: QueryResult): Step
  {
    Send(s, Direct, RowsBatch(t, rows, qr))
  }

  // ---------------------------------------------------------------------------
  // The StreamRows callback of copyTable

  /** Fast-forward to the snapshot, insist on landing exactly on it, then publish it. */
  function FastForwardTo(s: State, gtid: string, run: LiveRun): (r: Step)
    ensures s.readers <= r.st.readers
    ensures r.st.plans == s.plans && r.st.tablesToCopy == s.tablesToCopy && r.st.fields == s.fields
  {
    var f := FastForward(s, gtid, run);
    if f.out != Ok then f
    else if EncodePosition(f.st.pos) != gtid then Step(f.st, Fail(FastForwardMismatch))
    else SetPosition(f.st, gtid, false)
  }

  /** Whether the first batch's snapshot is ahead of a non-zero current position. */
  predicate NeedsFastForward(pos: Position, gtid: string)
  {
    !IsZero(pos) && !AtLeast(pos, DecodeOrZero(gtid))
  }

  /** The part of the callback run while no fields are cached: the first batch of the table. */
  function FirstBatch(s: State, t: string, b: RowsResponse, ff: LiveRun): (r: Step)
    ensures s.readers <= r.st.readers
    ensures r.st.plans == s.plans && r.st.tablesToCopy == s.tablesToCopy
  {
    if |b.fields| == 0 then Step(s, Fail(MissingFieldEvent))
    else
      var f := if NeedsFastForward(s.pos, b.gtid) then FastForwardTo(s, b.gtid, ff) else Step(s, Ok);
      if f.out != Ok then f
      else SendFieldEvent(f.st.(fields := Some(b.fields), pkfields := b.pkfields), b.gtid, FieldEvent(t, b.fields))
  }

  /** Plans `b` are plans `a` with at most the copy cursor of `t` changed. */
  predicate SameButCursor(a: map<string, TablePlan>, b: map<string, TablePlan>, t: string)
  {
    && a.Keys == b.Keys
    && (forall u :: u in a && u != t ==> b[u] == a[u])
    && (t in a ==>
          && b[t].rule == a[t].rule
          && b[t].tablePK.Some? == a[t].tablePK.Some?
          && (a[t].tablePK.Some? ==> b[t].tablePK.value.tableName == a[t].tablePK.value.tableName))
  }

  /** The callback StreamRows calls with each batch; `canceled` is whether the context is done. */
  function OnRows(s: State, t: string, b: RowsResponse, canceled: bool, ff: LiveRun): (r: Step)
    requires t in s.plans && s.plans[t].tablePK.Some?
    ensures r.st.tablesToCopy == s.tablesToCopy && SameButCursor(s.plans, r.st.plans, t)
    ensures s.readers <= r.st.readers
  {
    if canceled then Step(s, Eof)
    else
      var f := if s.fields.None? then FirstBatch(s, t, b, ff) else Step(s, Ok);
      if f.out != Ok then f
      else if |b.rows| == 0 then f
      else
        var qr := BatchCursor(b);
        var w := SendEventsForRows(f.st, t, b.rows, qr);
        if w.out != Ok then w
        else Step(SetCopyState(w.st, t, qr), Ok)
  }

  /** The state after StreamRows, its result, and how many callbacks it made. */
  datatype Streamed = Streamed(st: State, out: Outcome, calls: nat)

  /**
   * StreamRows over the scripted batches from callback `k` on: EOF from the
   * callback ends the read cleanly, any other error ends it with that error,
   * and after the last batch the reader's own result is returned.
   */
  function StreamRowsLoop(s: State, t: string, batches: seq<RowsResponse>, k: nat, tail: Outcome,
                          cancelAt: Option<nat>, ff: LiveRun): (r: Streamed)
    requires t in s.plans && s.plans[t].tablePK.Some?
    ensures r.st.tablesToCopy == s.tablesToCopy && SameButCursor(s.plans, r.st.plans, t)
    ensures k <= r.calls <= k + |batches|
    ensures s.readers <= r.st.readers
    decreases |batches|
  {
    if batches == [] then Streamed(s, tail, k)
    else
      var c := OnRows(s, t, batches[0], DoneAt(cancelAt, k), ff);
      if c.out == Eof then Streamed(c.st, Ok, k + 1)
      else if c.out.Fail? then Streamed(c.st, c.out, k + 1)
      else StreamRowsLoop(c.st, t, batches[1..], k + 1, tail, cancelAt, ff)
  }

  /**
   * copyTable: read the snapshot from the stored cursor; after a clean read,
   * a cancelled context is an error, and otherwise the table is complete.
   */
  function CopyTable(s: State, t: string, run: TableRun): (r: Step)
    requires |s.tablesToCopy| > 0 && t in s.plans && s.plans[t].tablePK.Some?
    ensures r.out == Ok ==> r.st.tablesToCopy == s.tablesToCopy[1..] && r.st.plans == s.plans - {t}
    ensures r.out != Ok ==> r.st.tablesToCopy == s.tablesToCopy && SameButCursor(s.plans, r.st.plans, t)
  {
    var plan := s.plans[t];
    var s1 := s.(readers := s.readers + [RowSnapshot(t, plan.rule.filter, GetLastPKFromQR(plan.tablePK.value.lastpk))]);
    var l := StreamRowsLoop(s1, t, run.rows, 0, run.rowsTail, run.cancelAt, run.fastForward);
    if l.out != Ok then Step(l.st, l.out)
    else if DoneAt(run.cancelAt, l.calls) then Step(l.st, Fail(ContextCanceled))
    else
      var c := CopyComplete(l.st, t);
      CopyCompleteSpec(l.st, t);
      c
  }

  /** catchupAndCopy: catch up first when a position is known, then copy the table afresh. */
  function CatchupAndCopy(s: State, t: string, run: TableRun): (r: Step)
    requires |s.tablesToCopy| > 0 && t in s.plans && s.plans[t].tablePK.Some?
    ensures r.out == Ok ==> r.st.tablesToCopy == s.tablesToCopy[1..] && r.st.plans == s.plans - {t}
    ensures r.out != Ok ==> r.st.tablesToCopy == s.tablesToCopy && SameButCursor(s.plans, r.st.plans, t)
  {
    var c := if !IsZero(s.pos) then Catchup(s, run.catchup, run.catchupEnd) else Step(s, Ok);
    if c.out != Ok then c
    else CopyTable(c.st.(fields := None), t, run)
  }

  /** The queue/plan invariant survives one table's catchupAndCopy on the queue head. */
  lemma CatchupAndCopyValid(s: State, run: TableRun)
    requires Valid(s) && |s.tablesToCopy| > 0
    ensures Valid(CatchupAndCopy(s, s.tablesToCopy[0], run).st)
  {
    var r := CatchupAndCopy(s, s.tablesToCopy[0], run);
    if r.out == Ok {
      DropHeadValid(s, r.st);
    } else {
      KeepQueueValid(s, r.st);
    }
  }

  /** Dropping the queue head together with its plan keeps the invariant. */
  lemma DropHeadValid(s: State, s2: State)
    requires Valid(s) && |s.tablesToCopy| > 0
    requires s2.tablesToCopy == s.tablesToCopy[1..] && s2.plans == s.plans - {s.tablesToCopy[0]}
    ensures Valid(s2)
  {
    var q := s.tablesToCopy;
    var t := q[0];
    assert t !in q[1..] by {
      forall j | 0 <= j < |q[1..]| ensures q[1..][j] != t {
        assert q[0] != q[j + 1];
      }
    }
    forall u | u in s2.plans && s2.plans[u].tablePK.Some?
      ensures u in s2.tablesToCopy
    {
      assert u in q && u != q[0];
      var j :| 0 <= j < |q| && q[j] == u;
      assert q[1..][j - 1] == u;
    }
  }

  /** Keeping the queue and changing only the payload of one table's cursor keeps the invariant. */
  lemma KeepQueueValid(s: State, s2: State)
    requires Valid(s) && |s.tablesToCopy| > 0
    requires s2.tablesToCopy == s.tablesToCopy && SameButCursor(s.plans, s2.plans, s.tablesToCopy[0])
    ensures Valid(s2)
  {
  }

  /** copy: catchupAndCopy the queue head until the queue is empty or a table fails. */
  function CopyLoop(s: State, runs: seq<TableRun>, i: nat): (r: Step)
    requires Valid(s)
    ensures Valid(r.st)
    ensures r.out == Ok ==> r.st.tablesToCopy == []
    decreases |s.tablesToCopy|
  {
    if |s.tablesToCopy| == 0 then Step(s, Ok)
    else
      var r := CatchupAndCopy(s, s.tablesToCopy[0], RunAt(runs, i));
      CatchupAndCopyValid(s, RunAt(runs, i));
      if r.out != Ok then r
      else CopyLoop(r.st, runs, i + 1)
  }

  /**
   * Stream: resolve the start position, copy the queued tables when there are
   * plans, then replicate from the reached position with the plain send,
   * bounded by the stop position.
   */
  function Stream(s: State, current: Option<Position>, runs: seq<TableRun>, live: LiveRun): Step
    requires Valid(s)
  {
    var r := Init(s, current);
    InitSpec(s, current);
    SetStreamPositionSpec(s, current);
    if r.out != Ok then r
    else
      var c := if |r.st.plans| > 0 then CopyLoop(r.st, runs, 0) else Step(r.st, Ok);
      if c.out != Ok then c
      else StartLiveReader(c.st, Plain, EncodePosition(c.st.stopPos), live.batches, live.tail)
  }

  // ---------------------------------------------------------------------------
  // Properties

  /**
   * catchup starts one unbounded pipeline reader at the current position and
   * returns nil only when the lag target was reached; cancellation is EOF.
   * It sends nothing itself and changes neither plans, queue nor stop position.
   */
  lemma CatchupSpec(s: State, run: LiveRun, end: CatchupEnd)
    ensures var r := Catchup(s, run, end);
      && r.st.readers == s.readers + [LiveTail(EncodePosition(s.pos), "")]
      && AppendedBy(s.sent, r.st.sent, Pipeline)
      && (r.out == Ok <==> end == LagReached)
      && (end == Canceled ==> r.out == Eof)
  {
  }

  /**
   * fastForward records the snapshot position as the stop position, which
   * nothing resets afterwards, and starts one pipeline reader at the current
   * position; the reader never reports EOF to its caller.
   */
  lemma FastForwardSpec(s: State, stopPos: string, run: LiveRun)
    ensures var r := FastForward(s, stopPos, run);
      && r.st.stopPos == DecodeOrZero(stopPos)
      && r.st.readers == s.readers + [LiveTail(EncodePosition(s.pos), "")]
      && AppendedBy(s.sent, r.st.sent, Pipeline)
      && r.out != Eof
  {
  }

  /**
   * When a fast-forward was needed and its reader ended cleanly, the callback
   * goes on exactly when the position landed on the snapshot's gtid, and then
   * the following setPosition neither sends nor changes anything; landing
   * anywhere else is a FastForwardMismatch.
   */
  lemma FastForwardToSpec(s: State, gtid: string, run: LiveRun)
    requires NeedsFastForward(s.pos, gtid)
    ensures var f := FastForward(s, gtid, run);
      var r := FastForwardTo(s, gtid, run);
      && r.st == f.st
      && (f.out != Ok ==> r.out == f.out)
      && (f.out == Ok ==> (r.out == Ok <==> EncodePosition(f.st.pos) == gtid))
      && (f.out == Ok && EncodePosition(f.st.pos) != gtid ==> r.out == Fail(FastForwardMismatch))
  {
    var f := FastForward(s, gtid, run);
    if f.out == Ok && EncodePosition(f.st.pos) == gtid {
      DecodeEncode(f.st.pos);
      SetPositionSpec(f.st, gtid, false);
    }
  }

  /**
   * The first batch of a table: without fields it is a MissingFieldEvent and
   * nothing happens; a fast-forward reader is started exactly when the
   * position is non-zero and behind the snapshot; when the batch is accepted
   * the fields are cached and the position is the snapshot's.
   */
  lemma FirstBatchSpec(s: State, t: string, b: RowsResponse, ff: LiveRun)
    requires s.fields.None?
    ensures var r := FirstBatch(s, t, b, ff);
      && (|b.fields| == 0 ==> r == Step(s, Fail(MissingFieldEvent)))
      && (|b.fields| > 0 ==>
            r.st.readers == if NeedsFastForward(s.pos, b.gtid)
              then s.readers + [LiveTail(EncodePosition(s.pos), "")]
              else s.readers)
      && (r.st.fields.Some? ==> r.st.fields == Some(b.fields) && r.st.pkfields == b.pkfields)
      && (r.out == Ok ==> r.st.fields == Some(b.fields) && DecodePosition(b.gtid) == Some(r.st.pos))
  {
    var r := FirstBatch(s, t, b, ff);
    if |b.fields| > 0 {
      var f := if NeedsFastForward(s.pos, b.gtid) then FastForwardTo(s, b.gtid, ff) else Step(s, Ok);
      if NeedsFastForward(s.pos, b.gtid) {
        FastForwardToSpec(s, b.gtid, ff);
        FastForwardSpec(s, b.gtid, ff);
      }
      if f.out == Ok {
        var s2 := f.st.(fields := Some(b.fields), pkfields := b.pkfields);
        var m := Send(s2, Direct, [Begin, FieldEv(FieldEvent(t, b.fields))]);
        SetPositionSpec(m.st, b.gtid, true);
      }
    }
  }

  /**
   * One callback: a done context ends the read with EOF and nothing changed.
   * Otherwise the table's cursor moves to the batch's cursor exactly when the
   * callback returns nil for a batch with rows, after the ROW/LASTPK/COMMIT
   * batch was sent; every other outcome leaves the plans as they were.
   */
  lemma OnRowsSpec(s: State, t: string, b: RowsResponse, canceled: bool, ff: LiveRun)
    requires t in s.plans && s.plans[t].tablePK.Some?
    ensures var r := OnRows(s, t, b, canceled, ff);
      && (canceled ==> r == Step(s, Eof))
      && r.st.plans == (if r.out == Ok && |b.rows| > 0 then SetCopyState(s, t, BatchCursor(b)).plans else s.plans)
      && (r.out == Ok && |b.rows| > 0 ==>
            && r.st.plans[t].tablePK.value.lastpk == Some(BatchCursor(b))
            && r.st.sent[|r.st.sent| - 1] == SendCall(Direct, RowsBatch(t, b.rows, BatchCursor(b))))
      && (!canceled && s.fields.Some? && |b.rows| == 0 ==> r == Step(s, Ok))
  {
  }

  /** sendEventsForRows: one send of len(rows)+2 events, the ROWs in order, then the cursor and COMMIT. */
  lemma SendEventsForRowsSpec(s: State, t: string, rows: seq<Row>, qr: QueryResult)
    ensures var r := SendEventsForRows(s, t, rows, qr);
      && r.out == ReplyAt(s.replies, |s.sent|)
      && |r.st.sent| == |s.sent| + 1 && r.st.sent[..|s.sent|] == s.sent
      && var call := r.st.sent[|s.sent|];
      && call.path == Direct && |call.events| == |rows| + 2
      && (forall i :: 0 <= i < |rows| ==> call.events[i] == RowEv(RowEvent(t, [RowChange(None, Some(rows[i]))])))
      && call.events[|rows|] == LastPK(LastPKEvent(TableLastPK(t, Some(qr)), false))
      && call.events[|rows| + 1] == Commit
      && r.st == s.(sent := r.st.sent)
  {
    var evs := RowsBatch(t, rows, qr);
    assert forall i :: 0 <= i < |rows| ==> evs[i] == RowEvents(t, rows)[i];
  }

  /**
   * sendFieldEvent always sends BEGIN and FIELD, whatever that send returns,
   * and then reports what setPosition reports.
   */
  lemma SendFieldEventSpec(s: State, gtid: string, fe: FieldEvent)
    ensures var r := SendFieldEvent(s, gtid, fe);
      var m := s.(sent := s.sent + [SendCall(Direct, [Begin, FieldEv(fe)])]);
      && |r.st.sent| > |s.sent| && r.st.sent[..|s.sent| + 1] == m.sent
      && r == SetPosition(m, gtid, true)
  {
    var m := s.(sent := s.sent + [SendCall(Direct, [Begin, FieldEv(fe)])]);
    var r := SetPosition(m, gtid, true);
    SetPositionSpec(m, gtid, true);
    assert r.st.sent[..|s.sent| + 1] == m.sent;
  }

  /** A callback that finds the context done stops the snapshot read cleanly with nothing changed. */
  lemma StreamRowsCanceled(s: State, t: string, batches: seq<RowsResponse>, k: nat, tail: Outcome,
                           cancelAt: Option<nat>, ff: LiveRun)
    requires t in s.plans && s.plans[t].tablePK.Some?
    requires DoneAt(cancelAt, k) && |batches| > 0
    ensures StreamRowsLoop(s, t, batches, k, tail, cancelAt, ff) == Streamed(s, Ok, k + 1)
  {
  }

  /**
   * When the last callback StreamRows made found the context done, the read
   * ended cleanly: the callback's EOF is not an error of the read.
   */
  lemma {:induction false} StreamRowsEndsWhenDone(s: State, t: string, batches: seq<RowsResponse>, k: nat, tail: Outcome,
                                                  cancelAt: Option<nat>, ff: LiveRun)
    requires t in s.plans && s.plans[t].tablePK.Some?
    ensures var r := StreamRowsLoop(s, t, batches, k, tail, cancelAt, ff);
      r.calls > k && DoneAt(cancelAt, r.calls - 1) ==> r.out == Ok
    decreases |batches|
  {
    if batches != [] {
      var c := OnRows(s, t, batches[0], DoneAt(cancelAt, k), ff);
      StreamRowsStep(s, t, batches, k, tail, cancelAt, ff);
      if c.out == Ok {
        var rest := StreamRowsLoop(c.st, t, batches[1..], k + 1, tail, cancelAt, ff);
        StreamRowsEndsWhenDone(c.st, t, batches[1..], k + 1, tail, cancelAt, ff);
        assert rest.calls == k + 1 ==> !DoneAt(cancelAt, k);
      }
    }
  }

  /** One callback of StreamRows: EOF or an error ends the read there, nil goes on with the next batch. */
  lemma StreamRowsStep(s: State, t: string, batches: seq<RowsResponse>, k: nat, tail: Outcome,
                       cancelAt: Option<nat>, ff: LiveRun)
    requires t in s.plans && s.plans[t].tablePK.Some? && batches != []
    ensures var c := OnRows(s, t, batches[0], DoneAt(cancelAt, k), ff);
      var r := StreamRowsLoop(s, t, batches, k, tail, cancelAt, ff);
      && (DoneAt(cancelAt, k) ==> c.out == Eof)
      && (c.out != Ok ==> r.calls == k + 1 && (r.out == Ok <==> c.out == Eof))
      && (c.out == Ok ==>
            var rest := StreamRowsLoop(c.st, t, batches[1..], k + 1, tail, cancelAt, ff);
            r.out == rest.out && r.calls == rest.calls)
  {
  }

  /**
   * A context found done by a callback: copyTable returns the context error
   * and never calls copyComplete, so no completion marker is sent after the
   * read, and the table stays queued with its plan and its cursor.
   */
  lemma CopyTableCanceled(s: State, t: string, run: TableRun)
    requires |s.tablesToCopy| > 0 && t in s.plans && s.plans[t].tablePK.Some?
    ensures var plan := s.plans[t];
      var s1 := s.(readers := s.readers + [RowSnapshot(t, plan.rule.filter, GetLastPKFromQR(plan.tablePK.value.lastpk))]);
      var l := StreamRowsLoop(s1, t, run.rows, 0, run.rowsTail, run.cancelAt, run.fastForward);
      var r := CopyTable(s, t, run);
      l.calls > 0 && DoneAt(run.cancelAt, l.calls - 1) ==>
        && r.out == Fail(ContextCanceled)
        && r.st.sent == l.st.sent
        && r.st.tablesToCopy == s.tablesToCopy
        && t in r.st.plans && r.st.plans[t].tablePK.Some?
  {
    var plan := s.plans[t];
    var s1 := s.(readers := s.readers + [RowSnapshot(t, plan.rule.filter, GetLastPKFromQR(plan.tablePK.value.lastpk))]);
    StreamRowsEndsWhenDone(s1, t, run.rows, 0, run.rowsTail, run.cancelAt, run.fastForward);
  }

  /**
   * A context cancelled before the first batch: copyTable returns the context
   * error without sending anything, and plans and queue are kept for a resume.
   */
  lemma CopyTableCanceledAtStart(s: State, t: string, run: TableRun)
    requires |s.tablesToCopy| > 0 && t in s.plans && s.plans[t].tablePK.Some?
    requires run.cancelAt == Some(0) && (|run.rows| > 0 || run.rowsTail == Ok)
    ensures var r := CopyTable(s, t, run);
      && r.out == Fail(ContextCanceled)
      && r.st.sent == s.sent && r.st.plans == s.plans && r.st.tablesToCopy == s.tablesToCopy
  {
  }

  /**
   * A snapshot reader that delivers no batch and ends cleanly, with the
   * context live: copyTable sends the completion marker as its only event, so
   * the consumer gets no FIELD event for that table.
   */
  lemma CopyTableWithoutBatches(s: State, t: string, run: TableRun)
    requires |s.tablesToCopy| > 0 && t in s.plans && s.plans[t].tablePK.Some?
    requires run.rows == [] && run.rowsTail == Ok && !DoneAt(run.cancelAt, 0)
    ensures var r := CopyTable(s, t, run);
      && r.st.sent == s.sent + [SendCall(Direct, CompletionEvents(t))]
      && r.out == ReplyAt(s.replies, |s.sent|)
      && (r.out == Ok ==> r.st.plans == s.plans - {t} && r.st.tablesToCopy == s.tablesToCopy[1..])
  {
    var plan := s.plans[t];
    var s1 := s.(readers := s.readers + [RowSnapshot(t, plan.rule.filter, GetLastPKFromQR(plan.tablePK.value.lastpk))]);
    CopyCompleteSpec(s1, t);
  }

  /**
   * A downstream EOF in reply to a batch's rows ends the snapshot read
   * cleanly, so the table is completed although the remaining batches were
   * never read and its cursor was not advanced.
   */
  lemma DownstreamEofCompletesTable(s: State, t: string, run: TableRun, b: RowsResponse)
    requires |s.tablesToCopy| > 0 && t in s.plans && s.plans[t].tablePK.Some?
    requires s.fields.None? && |run.rows| > 0 && run.rows[0] == b && run.cancelAt.None?
    requires |b.fields| > 0 && |b.rows| > 0
    requires !NeedsFastForward(s.pos, b.gtid) && DecodePosition(b.gtid) == Some(s.pos) && b.gtid != ""
    requires ReplyAt(s.replies, |s.sent| + 1) == Eof
    ensures var r := CopyTable(s, t, run);
      && r.st.sent == s.sent + [SendCall(Direct, [Begin, FieldEv(FieldEvent(t, b.fields))]),
                                SendCall(Direct, RowsBatch(t, b.rows, BatchCursor(b))),
                                SendCall(Direct, CompletionEvents(t))]
      && r.out == ReplyAt(s.replies, |s.sent| + 2)
      && (r.out == Ok ==> r.st.plans == s.plans - {t} && r.st.tablesToCopy == s.tablesToCopy[1..])
  {
    var plan := s.plans[t];
    var s1 := s.(readers := s.readers + [RowSnapshot(t, plan.rule.filter, GetLastPKFromQR(plan.tablePK.value.lastpk))]);
    var m := Send(s1.(fields := Some(b.fields), pkfields := b.pkfields), Direct, [Begin, FieldEv(FieldEvent(t, b.fields))]);
    assert SetPosition(m.st, b.gtid, true) == Step(m.st, Ok);
    var c := OnRows(s1, t, b, false, run.fastForward);
    assert c.out == Eof;
    assert StreamRowsLoop(s1, t, run.rows, 0, run.rowsTail, run.cancelAt, run.fastForward) == Streamed(c.st, Ok, 1);
  }

  /**
   * catchupAndCopy runs catchup exactly when the position is non-zero: the
   * first reader it starts is then the unbounded pipeline reader at the
   * current position, and otherwise the table's snapshot reader, resuming
   * from the stored cursor.
   */
  lemma CatchupAndCopyReaders(s: State, t: string, run: TableRun)
    requires |s.tablesToCopy| > 0 && t in s.plans && s.plans[t].tablePK.Some?
    ensures var r := CatchupAndCopy(s, t, run);
      && |r.st.readers| > |s.readers| && r.st.readers[..|s.readers|] == s.readers
      && r.st.readers[|s.readers|] ==
           if !IsZero(s.pos) then LiveTail(EncodePosition(s.pos), "")
           else RowSnapshot(t, s.plans[t].rule.filter, GetLastPKFromQR(s.plans[t].tablePK.value.lastpk))
  {
    var r := CatchupAndCopy(s, t, run);
    var c := if !IsZero(s.pos) then Catchup(s, run.catchup, run.catchupEnd) else Step(s, Ok);
    if !IsZero(s.pos) {
      CatchupSpec(s, run.catchup, run.catchupEnd);
    }
    if c.out == Ok {
      var s3 := c.st.(fields := None);
      CopyTableReaders(s3, t, run);
      var p := s3.readers + [RowSnapshot(t, s3.plans[t].rule.filter, GetLastPKFromQR(s3.plans[t].tablePK.value.lastpk))];
      assert p <= r.st.readers;
      assert r.st.readers[..|s.readers|] == p[..|s.readers|];
      assert r.st.readers[|s.readers|] == p[|s.readers|];
    }
  }

  /** copyTable starts the table's snapshot reader from its stored cursor before anything else. */
  lemma CopyTableReaders(s: State, t: string, run: TableRun)
    requires |s.tablesToCopy| > 0 && t in s.plans && s.plans[t].tablePK.Some?
    ensures s.readers + [RowSnapshot(t, s.plans[t].rule.filter, GetLastPKFromQR(s.plans[t].tablePK.value.lastpk))]
              <= CopyTable(s, t, run).st.readers
  {
    var plan := s.plans[t];
    var s1 := s.(readers := s.readers + [RowSnapshot(t, plan.rule.filter, GetLastPKFromQR(plan.tablePK.value.lastpk))]);
    var l := StreamRowsLoop(s1, t, run.rows, 0, run.rowsTail, run.cancelAt, run.fastForward);
    CopyCompleteSpec(l.st, t);
  }

  /** The queue `a` is what is left of `b` after dropping some of its head entries. */
  predicate IsSuffix(a: seq<string>, b: seq<string>)
  {
    |a| <= |b| && a == b[|b| - |a|..]
  }

  /**
   * copy: the queue only shrinks from the front, and it is empty exactly when
   * copy returns nil, so the first failing table's entry is still queued;
   * after a full copy no plan has a cursor left.
   */
  lemma {:induction false} CopyLoopQueue(s: State, runs: seq<TableRun>, i: nat)
    requires Valid(s)
    ensures var r := CopyLoop(s, runs, i);
      && IsSuffix(r.st.tablesToCopy, s.tablesToCopy)
      && (r.out == Ok <==> r.st.tablesToCopy == [])
      && (r.out == Ok ==> forall u :: u in r.st.plans ==> r.st.plans[u].tablePK.None?)
    decreases |s.tablesToCopy|
  {
    var r := CopyLoop(s, runs, i);
    var q := s.tablesToCopy;
    if |q| > 0 {
      var c := CatchupAndCopy(s, q[0], RunAt(runs, i));
      CopyLoopStep(s, runs, i);
      if c.out == Ok {
        CopyLoopQueue(c.st, runs, i + 1);
        assert c.st.tablesToCopy == q[1..];
        assert r.st.tablesToCopy == q[1..][|q[1..]| - |r.st.tablesToCopy|..];
      } else {
        assert q[|q| - |q|..] == q;
      }
    }
    CopyLoopCleared(r.st, r.out == Ok);
  }

  /** One round of copy: a failing head table ends it, a copied one goes on with the rest. */
  lemma CopyLoopStep(s: State, runs: seq<TableRun>, i: nat)
    requires Valid(s) && |s.tablesToCopy| > 0
    ensures var c := CatchupAndCopy(s, s.tablesToCopy[0], RunAt(runs, i));
      && Valid(c.st)
      && (c.out != Ok ==> CopyLoop(s, runs, i) == c)
      && (c.out == Ok ==> CopyLoop(s, runs, i) == CopyLoop(c.st, runs, i + 1))
  {
    CatchupAndCopyValid(s, RunAt(runs, i));
  }

  /** A valid state with an empty queue has no plan holding a TableLastPK. */
  lemma CopyLoopCleared(s: State, done: bool)
    requires Valid(s) && (done ==> s.tablesToCopy == [])
    ensures done ==> forall u :: u in s.plans ==> s.plans[u].tablePK.None?
  {
    if done {
      forall u | u in s.plans ensures s.plans[u].tablePK.None? {
        assert u !in s.tablesToCopy;
      }
    }
  }

  /**
   * copy leaves the plans of tables that were never queued untouched, and a
   * table it took off the queue has no plan any more.
   */
  lemma {:induction false} CopyLoopPlans(s: State, runs: seq<TableRun>, i: nat)
    requires Valid(s)
    ensures var r := CopyLoop(s, runs, i);
      && r.st.plans.Keys <= s.plans.Keys
      && (forall u :: u in s.plans && u !in s.tablesToCopy ==> u in r.st.plans && r.st.plans[u] == s.plans[u])
      && (forall u :: u in s.tablesToCopy && u !in r.st.tablesToCopy ==> u !in r.st.plans)
    decreases |s.tablesToCopy|
  {
    var r := CopyLoop(s, runs, i);
    if |s.tablesToCopy| > 0 {
      var q := s.tablesToCopy;
      var t := q[0];
      var c := CatchupAndCopy(s, t, RunAt(runs, i));
      CopyLoopStep(s, runs, i);
      if c.out == Ok {
        CopyLoopPlans(c.st, runs, i + 1);
        assert c.st.tablesToCopy == q[1..];
        forall u | u in q && u !in r.st.tablesToCopy
          ensures u !in r.st.plans
        {
          if u != t {
            var j :| 0 <= j < |q| && q[j] == u;
            assert q[1..][j - 1] == u;
          }
        }
      }
    }
  }

  lemma QueuedTablesHavePlans(s: State)
    requires Valid(s)
    ensures s.tablesToCopy != [] ==> |s.plans| > 0
  {
    if s.tablesToCopy != [] {
      assert s.tablesToCopy[0] in s.plans;
    }
  }

  /**
   * Stream returns nil only after every queued table was copied, with no plan
   * left holding a cursor, and then replication ran from exactly the position
   * the streamer ended at, bounded by its stop position.
   */
  lemma StreamSpec(s: State, current: Option<Position>, runs: seq<TableRun>, live: LiveRun)
    requires Valid(s)
    ensures var r := Stream(s, current, runs, live);
      && (Init(s, current).out != Ok ==> r == Init(s, current))
      && (r.out == Ok ==>
            && r.st.tablesToCopy == []
            && (forall u :: u in r.st.plans ==> r.st.plans[u].tablePK.None?)
            && |r.st.readers| > 0
            && r.st.readers[|r.st.readers| - 1] == LiveTail(EncodePosition(r.st.pos), EncodePosition(r.st.stopPos)))
  {
    var r0 := Init(s, current);
    InitSpec(s, current);
    SetStreamPositionSpec(s, current);
    if r0.out == Ok {
      if |r0.st.plans| > 0 {
        CopyLoopQueue(r0.st, runs, 0);
      } else {
        QueuedTablesHavePlans(r0.st);
      }
    }
  }

  // ---------------------------------------------------------------------------
  // Where the stop position comes from

  /** `p` is the decoded snapshot position of one of the batches `rows`. */
  predicate SnapshotOf(rows: seq<RowsResponse>, p: Position)
  {
    exists i :: 0 <= i < |rows| && p == DecodeOrZero(rows[i].gtid)
  }

  /** `p` is `from`, or the snapshot position of a batch of one of the runs `lo` to `hi - 1`. */
  predicate StopFrom(from: Position, runs: seq<TableRun>, lo: nat, hi: nat, p: Position)
  {
    p == from || exists j: nat :: lo <= j < hi && SnapshotOf(RunAt(runs, j).rows, p)
  }

  /** The first batch sets the stop position to its snapshot's exactly when it fast-forwards. */
  lemma FirstBatchStopPos(s: State, t: string, b: RowsResponse, ff: LiveRun)
    ensures FirstBatch(s, t, b, ff).st.stopPos ==
      if |b.fields| > 0 && NeedsFastForward(s.pos, b.gtid) then DecodeOrZero(b.gtid) else s.stopPos
  {
  }

  /** One callback changes the stop position only by fast-forwarding on the table's first batch. */
  lemma OnRowsStopPos(s: State, t: string, b: RowsResponse, canceled: bool, ff: LiveRun)
    requires t in s.plans && s.plans[t].tablePK.Some?
    ensures OnRows(s, t, b, canceled, ff).st.stopPos ==
      if !canceled && s.fields.None? && |b.fields| > 0 && NeedsFastForward(s.pos, b.gtid)
      then DecodeOrZero(b.gtid) else s.stopPos
  {
    FirstBatchStopPos(s, t, b, ff);
  }

  /** After StreamRows the stop position is the old one or the snapshot position of a batch. */
  lemma {:induction false} StreamRowsStopPos(s: State, t: string, batches: seq<RowsResponse>, k: nat, tail: Outcome,
                                             cancelAt: Option<nat>, ff: LiveRun)
    requires t in s.plans && s.plans[t].tablePK.Some?
    ensures var r := StreamRowsLoop(s, t, batches, k, tail, cancelAt, ff);
      r.st.stopPos == s.stopPos || SnapshotOf(batches, r.st.stopPos)
    decreases |batches|
  {
    if batches != [] {
      var c := OnRows(s, t, batches[0], DoneAt(cancelAt, k), ff);
      StreamRowsStopStep(s, t, batches, k, tail, cancelAt, ff);
      if c.out == Ok {
        var rest := StreamRowsLoop(c.st, t, batches[1..], k + 1, tail, cancelAt, ff);
        StreamRowsStopPos(c.st, t, batches[1..], k + 1, tail, cancelAt, ff);
        if rest.st.stopPos != c.st.stopPos {
          var i :| 0 <= i < |batches[1..]| && rest.st.stopPos == DecodeOrZero(batches[1..][i].gtid);
          assert batches[1..][i] == batches[i + 1];
        }
      }
    }
  }

  /** One callback of StreamRows on the stop position: it is kept or set to the batch's snapshot, then carried on. */
  lemma StreamRowsStopStep(s: State, t: string, batches: seq<RowsResponse>, k: nat, tail: Outcome,
                           cancelAt: Option<nat>, ff: LiveRun)
    requires t in s.plans && s.plans[t].tablePK.Some? && batches != []
    ensures var c := OnRows(s, t, batches[0], DoneAt(cancelAt, k), ff);
      var r := StreamRowsLoop(s, t, batches, k, tail, cancelAt, ff);
      && (c.st.stopPos == s.stopPos || c.st.stopPos == DecodeOrZero(batches[0].gtid))
      && (c.out != Ok ==> r.st.stopPos == c.st.stopPos)
      && (c.out == Ok ==> r.st.stopPos == StreamRowsLoop(c.st, t, batches[1..], k + 1, tail, cancelAt, ff).st.stopPos)
  {
    OnRowsStopPos(s, t, batches[0], DoneAt(cancelAt, k), ff);
  }

  /** After copyTable the stop position is the old one or the snapshot position of one of its batches. */
  lemma CopyTableStopPos(s: State, t: string, run: TableRun)
    requires |s.tablesToCopy| > 0 && t in s.plans && s.plans[t].tablePK.Some?
    ensures var r := CopyTable(s, t, run);
      r.st.stopPos == s.stopPos || SnapshotOf(run.rows, r.st.stopPos)
  {
    var plan := s.plans[t];
    var s1 := s.(readers := s.readers + [RowSnapshot(t, plan.rule.filter, GetLastPKFromQR(plan.tablePK.value.lastpk))]);
    StreamRowsStopPos(s1, t, run.rows, 0, run.rowsTail, run.cancelAt, run.fastForward);
  }

  /** catchup leaves the stop position alone, so catchupAndCopy sets it only through copyTable. */
  lemma CatchupAndCopyStopPos(s: State, t: string, run: TableRun)
    requires |s.tablesToCopy| > 0 && t in s.plans && s.plans[t].tablePK.Some?
    ensures var r := CatchupAndCopy(s, t, run);
      r.st.stopPos == s.stopPos || SnapshotOf(run.rows, r.st.stopPos)
  {
    var c := if !IsZero(s.pos) then Catchup(s, run.catchup, run.catchupEnd) else Step(s, Ok);
    if c.out == Ok {
      CopyTableStopPos(c.st.(fields := None), t, run);
    }
  }

  /**
   * After copy the stop position is the one it started with or the snapshot
   * position of a batch of one of the tables it copied: it is never reset.
   */
  lemma {:induction false} CopyLoopStopPos(s: State, runs: seq<TableRun>, i: nat)
    requires Valid(s)
    ensures StopFrom(s.stopPos, runs, i, i + |s.tablesToCopy|, CopyLoop(s, runs, i).st.stopPos)
    decreases |s.tablesToCopy|
  {
    var q := s.tablesToCopy;
    if |q| > 0 {
      var c := CatchupAndCopy(s, q[0], RunAt(runs, i));
      CopyLoopStep(s, runs, i);
      CatchupAndCopyStopPos(s, q[0], RunAt(runs, i));
      if c.out == Ok {
        CopyLoopStopPos(c.st, runs, i + 1);
        assert |c.st.tablesToCopy| == |q| - 1;
      }
    }
  }

  /**
   * When Stream returns nil, the stop position bounding its replication reader
   * is the one the streamer started with or the snapshot position of a batch
   * of one of the queued tables.
   */
  lemma StreamStopPos(s: State, current: Option<Position>, runs: seq<TableRun>, live: LiveRun)
    requires Valid(s)
    ensures var r := Stream(s, current, runs, live);
      r.out == Ok ==> StopFrom(s.stopPos, runs, 0, |s.tablesToCopy|, r.st.stopPos)
  {
    var r0 := Init(s, current);
    InitSpec(s, current);
    SetStreamPositionSpec(s, current);
    if r0.out == Ok && |r0.st.plans| > 0 {
      CopyLoopStopPos(r0.st, runs, 0);
    }
  }

  // ---------------------------------------------------------------------------
  // A position that moves back

  /**
   * The first batch of a table adopts its snapshot position even when that is
   * strictly behind the current position: no fast-forward runs, and once both
   * sends are accepted the position has moved back.
   */
  lemma FirstBatchMovesBack(s: State, t: string, b: RowsResponse, ff: LiveRun)
    requires |b.fields| > 0 && b.gtid != "" && DecodePosition(b.gtid).Some?
    requires AtLeast(s.pos, DecodeOrZero(b.gtid)) && !Equal(DecodeOrZero(b.gtid), s.pos)
    requires ReplyAt(s.replies, |s.sent| + 1) == Ok
    ensures var r := FirstBatch(s, t, b, ff);
      && r.out == Ok && r.st.readers == s.readers
      && r.st.pos == DecodeOrZero(b.gtid) && !AtLeast(r.st.pos, s.pos)
  {
    var s2 := s.(fields := Some(b.fields), pkfields := b.pkfields);
    var m := Send(s2, Direct, [Begin, FieldEv(FieldEvent(t, b.fields))]);
    assert |m.st.sent| == |s.sent| + 1;
  }
}
