/**
 * The `uvstreamer` object itself: its fields are updated in place by its
 * methods, as in uvstreamer.go and copy.go. Every method is proved to leave
 * the object in the state, and to return the error, that the transition
 * function of the same name in Uvstreamer or CopyPhase computes from the state
 * before the call; what those functions promise is proved there.
 *
 * The external readers (the live-tail readers and the row-snapshot reader)
 * are the two delivery loops RunLiveReader and StreamRows, which hand
 * scripted batches to the streamer's callbacks in order.
 */
module Streamer {
  import opened Wrappers
  import opened Mysql
  import opened Sqltypes
  import opened Binlogdata
  import opened Strings
  import opened Uvstreamer
  import opened CopyPhase

  class UVStreamer {
    var startPos: string
    var plans: map<string, TablePlan>
    var tablesToCopy: seq<string>
    var fields: Option<seq<Field>>
    var pkfields: seq<Field>
    var pos: Position
    var stopPos: Position
    /** Every batch handed to the consumer's send, in order. */
    var sent: seq<SendCall>
    /** Every external reader started, in order. */
    var readers: seq<ReaderCall>
    /** What the consumer's send returns, call by call. */
    var replies: seq<Outcome>

    function Abs(): State
      reads this
    {
      State(startPos, plans, tablesToCopy, fields, pkfields, pos, stopPos, sent, readers, replies)
    }

    /** The object is now in the state `r` describes and `err` is the error `r` returns. */
    predicate Performs(r: Step, err: Outcome)
      reads this
    {
      Abs() == r.st && err == r.out
    }

    /** newUVStreamer: a plan per rule, then the TableLastPKs attached and queued, then the queue sorted. */
    constructor (startPos: string, rules: seq<Rule>, pks: seq<TableLastPK>, replies: seq<Outcome>)
      requires forall pk :: pk in pks ==> pk.tableName in RuleMatches(rules)
      ensures Abs() == NewState(startPos, rules, pks, replies)
    {
      var m: map<string, TablePlan> := map[];
      var queue: seq<string> := [];
      if |pks| > 0 {
        var i := 0;
        while i < |rules|
          invariant 0 <= i <= |rules|
          invariant AddRules(m, rules[i..]) == AddRules(map[], rules)
        {
          assert rules[i..][1..] == rules[i + 1..];
          m := m[rules[i].tableMatch := TablePlan(None, rules[i])];
          i := i + 1;
        }
        assert rules[i..] == [];
        AddRulesFacts(map[], rules);
        ghost var base := m;
        var j := 0;
        while j < |pks|
          invariant 0 <= j <= |pks|
          invariant m.Keys == base.Keys
          invariant AddTablePKs(m, pks[j..]) == AddTablePKs(base, pks)
          invariant |queue| == j && forall k :: 0 <= k < j ==> queue[k] == pks[k].tableName
        {
          assert pks[j..][1..] == pks[j + 1..];
          var name := pks[j].tableName;
          assert pks[j] in pks;
          m := m[name := m[name].(tablePK := Some(pks[j]))];
          queue := queue + [name];
          j := j + 1;
        }
        assert pks[j..] == [];
        assert queue == TableNames(pks);
        queue := SortStrings(queue);
      }
      this.startPos := startPos;
      plans := m;
      tablesToCopy := queue;
      fields := None;
      pkfields := [];
      pos := Zero;
      stopPos := Zero;
      sent := [];
      readers := [];
      this.replies := replies;
    }

    // -------------------------------------------------------------------------
    // The consumer's send and the filtering pipeline

    /** One call of the consumer's send, made through `path`. */
    method Send(path: Path, evs: seq<VEvent>) returns (err: Outcome)
      modifies this
      ensures Performs(Uvstreamer.Send(old(Abs()), path, evs), err)
    {
      err := ReplyAt(replies, |sent|);
      sent := sent + [SendCall(path, evs)];
    }

    /** filterEvents, as the loop over the batch it is in the source. */
    method FilterEvents(evs: seq<VEvent>) returns (evs2: seq<VEvent>)
      ensures evs2 == Uvstreamer.FilterEvents(plans, evs)
    {
      if |plans| == 0 {
        return evs;
      }
      evs2 := [];
      var i := 0;
      while i < |evs|
        invariant 0 <= i <= |evs|
        invariant evs2 + FilterLoop(plans, evs[i..]) == FilterLoop(plans, evs)
      {
        var shouldSend := ShouldSendEvent(evs[i]);
        assert evs[i..][1..] == evs[i + 1..];
        ghost var rest := FilterLoop(plans, evs[i + 1..]);
        if shouldSend {
          assert FilterLoop(plans, evs[i..]) == [evs[i]] + rest;
          evs2 := evs2 + [evs[i]];
        } else {
          assert FilterLoop(plans, evs[i..]) == rest;
        }
        i := i + 1;
      }
      assert evs[i..] == [];
    }

    /** The switch in filterEvents' loop, for one event. */
    method ShouldSendEvent(ev: VEvent) returns (shouldSend: bool)
      ensures shouldSend == ShouldSend(plans, ev)
    {
      shouldSend := false;
      var tableName := "";
      match ev {
        case RowEv(re) => tableName := re.tableName;
        case FieldEv(fe) => tableName := fe.tableName;
        case Heartbeat => shouldSend := false;
        case _ => shouldSend := true;
      }
      if !shouldSend && tableName != "" {
        shouldSend := true;
        if tableName in plans && plans[tableName].tablePK.None? {
          shouldSend := false;
        }
      }
    }

    /** send2: filter when there are plans, send, then follow the forwarded GTIDs up to the stop position. */
    method Send2(evs: seq<VEvent>) returns (err: Outcome)
      modifies this
      ensures Performs(Uvstreamer.Send2(old(Abs()), evs), err)
    {
      if |evs| == 0 {
        return Ok;
      }
      var evs2: seq<VEvent> := [];
      if |plans| > 0 {
        evs2 := FilterEvents(evs);
      }
      err := Send(Pipeline, evs2);
      if err.Fail? {
        return;
      }
      ghost var err1 := err;
      var p := pos;
      var i := 0;
      while i < |evs2|
        invariant 0 <= i <= |evs2|
        invariant TrackGtids(evs2[i..], p, stopPos, err) == TrackGtids(evs2, pos, stopPos, err1)
      {
        assert evs2[i..][1..] == evs2[i + 1..];
        if evs2[i].Gtid? {
          p := DecodeOrZero(evs2[i].gtid);
          if !IsZero(stopPos) && AtLeast(p, stopPos) {
            err := Eof;
          }
        }
        i := i + 1;
      }
      assert evs2[i..] == [];
      pos := p;
    }

    /**
     * A live-tail reader started at the current position with stop position
     * `stop`, delivering `batches` to send2 or to the plain send.
     */
    method RunLiveReader(sink: Sink, stop: string, batches: seq<seq<VEvent>>, tail: Outcome) returns (err: Outcome)
      modifies this
      ensures Performs(StartLiveReader(old(Abs()), sink, stop, batches, tail), err)
    {
      readers := readers + [LiveTail(EncodePosition(pos), stop)];
      ghost var s0 := Abs();
      var i := 0;
      while i < |batches|
        invariant 0 <= i <= |batches|
        invariant LiveReader(Abs(), sink, batches[i..], tail) == LiveReader(s0, sink, batches, tail)
      {
        assert batches[i..][1..] == batches[i + 1..];
        var e;
        if sink == ThroughPipeline {
          e := Send2(batches[i]);
        } else {
          e := Send(Replication, batches[i]);
        }
        if e == Eof {
          return Ok;
        }
        if e.Fail? {
          return e;
        }
        i := i + 1;
      }
      assert batches[i..] == [];
      // the reader itself never ends with EOF; see LiveReader
      err := if tail == Eof then Ok else tail;
    }

    // -------------------------------------------------------------------------
    // Start position

    method SendEventsForCurrentPos() returns (err: Outcome)
      modifies this
      ensures Performs(Uvstreamer.SendEventsForCurrentPos(old(Abs())), err)
    {
      err := Send(Direct, [Gtid(EncodePosition(pos)), Other]);
      if err != Ok {
        err := Fail(Wrapped(err, pos));
      }
    }

    /** setStreamPosition; `current` is what the database reports as its position, None on failure. */
    method SetStreamPosition(current: Option<Position>) returns (err: Outcome)
      modifies this
      ensures Performs(Uvstreamer.SetStreamPosition(old(Abs()), current), err)
    {
      if startPos != "" {
        if current.None? {
          return Fail(NoCurrentPosition);
        }
        if startPos == "current" {
          pos := current.value;
          var ignored := SendEventsForCurrentPos();
          return Ok;
        }
        var p := DecodePosition(startPos);
        if p.None? {
          return Fail(MalformedPosition);
        }
        if !AtLeast(current.value, p.value) {
          return Fail(PositionAhead);
        }
        pos := p.value;
      }
      return Ok;
    }

    method Init(current: Option<Position>) returns (err: Outcome)
      modifies this
      ensures Performs(Uvstreamer.Init(old(Abs()), current), err)
    {
      err := SetStreamPosition(current);
      if err != Ok {
        return;
      }
      if IsZero(pos) && |plans| == 0 {
        return Fail(MissingResumeInput);
      }
    }

    // -------------------------------------------------------------------------
    // Copy bookkeeping and positions

    method SetCopyState(t: string, qr: QueryResult)
      requires t in plans && plans[t].tablePK.Some?
      modifies this
      ensures Abs() == Uvstreamer.SetCopyState(old(Abs()), t, qr)
    {
      var plan := plans[t];
      plans := plans[t := plan.(tablePK := Some(plan.tablePK.value.(lastpk := Some(qr))))];
    }

    method CopyComplete(t: string) returns (err: Outcome)
      requires |tablesToCopy| > 0
      modifies this
      ensures Performs(Uvstreamer.CopyComplete(old(Abs()), t), err)
    {
      err := Send(Direct, [Begin, LastPK(LastPKEvent(TableLastPK(t, None), true)), Commit]);
      if err != Ok {
        return;
      }
      plans := plans - {t};
      tablesToCopy := tablesToCopy[1..];
    }

    method SetPosition(gtid: string, isInTx: bool) returns (err: Outcome)
      modifies this
      ensures Performs(Uvstreamer.SetPosition(old(Abs()), gtid, isInTx), err)
    {
      if gtid == "" {
        return Fail(EmptyGtid);
      }
      var p := DecodePosition(gtid);
      if p.None? {
        return Fail(MalformedPosition);
      }
      if Equal(p.value, pos) {
        return Ok;
      }
      var evs: seq<VEvent> := [];
      if !isInTx {
        evs := evs + [Begin];
      }
      evs := evs + [Gtid(gtid)];
      if !isInTx {
        evs := evs + [Commit];
      }
      assert evs == PositionFrame(gtid, isInTx);
      err := Send(Direct, evs);
      if err != Ok {
        return;
      }
      pos := p.value;
    }

    // -------------------------------------------------------------------------
    // The copy phase (copy.go)

    method Catchup(run: LiveRun, end: CatchupEnd) returns (err: Outcome)
      modifies this
      ensures Performs(CopyPhase.Catchup(old(Abs()), run, end), err)
    {
      var e := RunLiveReader(ThroughPipeline, "", run.batches, run.tail);
      match end {
        case LagReached => err := Ok;
        case ReaderFinished => err := if e == Ok then Eof else e;
        case Canceled => err := Eof;
      }
    }

    method FastForward(target: string, run: LiveRun) returns (err: Outcome)
      modifies this
      ensures Performs(CopyPhase.FastForward(old(Abs()), target, run), err)
    {
      stopPos := DecodeOrZero(target);
      err := RunLiveReader(ThroughPipeline, "", run.batches, run.tail);
    }

    method SendFieldEvent(gtid: string, fe: FieldEvent) returns (err: Outcome)
      modifies this
      ensures Performs(CopyPhase.SendFieldEvent(old(Abs()), gtid, fe), err)
    {
      var ignored := Send(Direct, [Begin, FieldEv(fe)]);
      err := SetPosition(gtid, true);
    }

    /** sendEventsForRows: one ROW event per row, built in a loop, then the cursor and COMMIT. */
    method SendEventsForRows(t: string, rows: seq<Row>, qr: QueryResult) returns (err: Outcome)
      modifies this
      ensures Performs(CopyPhase.SendEventsForRows(old(Abs()), t, rows, qr), err)
    {
      var evs: seq<VEvent> := [];
      var i := 0;
      while i < |rows|
        invariant 0 <= i <= |rows| && |evs| == i
        invariant forall k :: 0 <= k < i ==> evs[k] == RowEv(RowEvent(t, [RowChange(None, Some(rows[k]))]))
        invariant Abs() == old(Abs())
      {
        evs := evs + [RowEv(RowEvent(t, [RowChange(None, Some(rows[i]))]))];
        i := i + 1;
      }
      assert evs == RowEvents(t, rows);
      evs := evs + [LastPK(LastPKEvent(TableLastPK(t, Some(qr)), false))];
      evs := evs + [Commit];
      assert evs == RowsBatch(t, rows, qr);
      err := Send(Direct, evs);
    }

    /** The fast-forward of the callback: run to the snapshot position, check it was hit, publish it. */
    method FastForwardTo(gtid: string, ff: LiveRun) returns (err: Outcome)
      modifies this
      ensures Performs(CopyPhase.FastForwardTo(old(Abs()), gtid, ff), err)
    {
      err := FastForward(gtid, ff);
      if err != Ok {
        return;
      }
      if EncodePosition(pos) != gtid {
        return Fail(FastForwardMismatch);
      }
      err := SetPosition(gtid, false);
    }

    /** The part of the callback run while no fields are cached. */
    method FirstBatch(t: string, b: RowsResponse, ff: LiveRun) returns (err: Outcome)
      modifies this
      ensures Performs(CopyPhase.FirstBatch(old(Abs()), t, b, ff), err)
    {
      if |b.fields| == 0 {
        return Fail(MissingFieldEvent);
      }
      if NeedsFastForward(pos, b.gtid) {
        err := FastForwardTo(b.gtid, ff);
        if err != Ok {
          return;
        }
      }
      fields := Some(b.fields);
      pkfields := b.pkfields;
      err := SendFieldEvent(b.gtid, FieldEvent(t, b.fields));
    }

    /** The callback copyTable gives StreamRows; `canceled` is whether the context is done. */
    method OnRows(t: string, b: RowsResponse, canceled: bool, ff: LiveRun) returns (err: Outcome)
      requires t in plans && plans[t].tablePK.Some?
      modifies this
      ensures Performs(CopyPhase.OnRows(old(Abs()), t, b, canceled, ff), err)
    {
      if canceled {
        return Eof;
      }
      if fields.None? {
        err := FirstBatch(t, b, ff);
        if err != Ok {
          return;
        }
      }
      if |b.rows| == 0 {
        return Ok;
      }
      var qr := BatchCursor(b);
      err := SendEventsForRows(t, b.rows, qr);
      if err != Ok {
        return;
      }
      SetCopyState(t, qr);
      err := Ok;
    }

    /**
     * The row-snapshot reader: hands `batches` to the callback in order, the
     * context found cancelled from callback `cancelAt` on. Returns the error
     * and the number of callbacks made.
     */
    method StreamRows(t: string, batches: seq<RowsResponse>, tail: Outcome, cancelAt: Option<nat>, ff: LiveRun)
      returns (err: Outcome, calls: nat)
      requires t in plans && plans[t].tablePK.Some?
      modifies this
      ensures var r := StreamRowsLoop(old(Abs()), t, batches, 0, tail, cancelAt, ff);
        Abs() == r.st && err == r.out && calls == r.calls
    {
      ghost var s0 := Abs();
      var i := 0;
      while i < |batches|
        invariant 0 <= i <= |batches|
        invariant t in plans && plans[t].tablePK.Some?
        invariant StreamRowsLoop(Abs(), t, batches[i..], i, tail, cancelAt, ff)
               == StreamRowsLoop(s0, t, batches, 0, tail, cancelAt, ff)
      {
        assert batches[i..][1..] == batches[i + 1..];
        var e := OnRows(t, batches[i], DoneAt(cancelAt, i), ff);
        if e == Eof {
          return Ok, i + 1;
        }
        if e.Fail? {
          return e, i + 1;
        }
        i := i + 1;
      }
      assert batches[i..] == [];
      return tail, i;
    }

    method CopyTable(t: string, run: TableRun) returns (err: Outcome)
      requires |tablesToCopy| > 0 && t in plans && plans[t].tablePK.Some?
      modifies this
      ensures Performs(CopyPhase.CopyTable(old(Abs()), t, run), err)
    {
      var plan := plans[t];
      var lastPK := GetLastPKFromQR(plan.tablePK.value.lastpk);
      readers := readers + [RowSnapshot(t, plan.rule.filter, lastPK)];
      var calls;
      err, calls := StreamRows(t, run.rows, run.rowsTail, run.cancelAt, run.fastForward);
      if err != Ok {
        return;
      }
      if DoneAt(run.cancelAt, calls) {
        return Fail(ContextCanceled);
      }
      err := CopyComplete(t);
    }

    method CatchupAndCopy(t: string, run: TableRun) returns (err: Outcome)
      requires |tablesToCopy| > 0 && t in plans && plans[t].tablePK.Some?
      modifies this
      ensures Performs(CopyPhase.CatchupAndCopy(old(Abs()), t, run), err)
    {
      if !IsZero(pos) {
        err := Catchup(run.catchup, run.catchupEnd);
        if err != Ok {
          return;
        }
      }
      fields := None;
      err := CopyTable(t, run);
    }

    /** copy: `runs[i]` scripts the readers of the i-th table taken off the queue. */
    method Copy(runs: seq<TableRun>) returns (err: Outcome)
      requires Valid(Abs())
      modifies this
      ensures Performs(CopyLoop(old(Abs()), runs, 0), err)
      ensures Valid(Abs())
    {
      ghost var s0 := Abs();
      var i := 0;
      while |tablesToCopy| > 0
        invariant Valid(Abs())
        invariant CopyLoop(Abs(), runs, i) == CopyLoop(s0, runs, 0)
        decreases |tablesToCopy|
      {
        var t := tablesToCopy[0];
        ghost var before := Abs();
        CatchupAndCopyValid(before, RunAt(runs, i));
        err := CatchupAndCopy(t, RunAt(runs, i));
        if err != Ok {
          return;
        }
        i := i + 1;
      }
      err := Ok;
    }

    /** Stream: resolve the start position, copy the queued tables, then replicate. */
    method Stream(current: Option<Position>, runs: seq<TableRun>, live: LiveRun) returns (err: Outcome)
      requires Valid(Abs())
      modifies this
      ensures Performs(CopyPhase.Stream(old(Abs()), current, runs, live), err)
    {
      ghost var s0 := Abs();
      InitSpec(s0, current);
      SetStreamPositionSpec(s0, current);
      err := Init(current);
      if err != Ok {
        return;
      }
      if |plans| > 0 {
        err := Copy(runs);
        if err != Ok {
          return;
        }
      }
      err := RunLiveReader(Plain, EncodePosition(stopPos), live.batches, live.tail);
    }
  }
}
