/**
 * The order of what the copy phase sends to the consumer by itself (path
 * Direct, as opposed to what catch-up and fast-forward readers forward through
 * the pipeline): while one table is copied, no ROW event comes before the
 * table's FIELD event, the FIELD event is sent at most once, and the
 * completion marker is sent at most once, and exactly once when the table is
 * finished.
 */
module CopyEvents {
  import opened Wrappers
  import opened Sqltypes
  import opened Binlogdata
  import opened Mysql
  import opened Uvstreamer
  import opened CopyPhase

  // ---------------------------------------------------------------------------
  // The directly sent events

  /** The events of the calls the streamer made itself, in order. */
  function DirectEvents(calls: seq<SendCall>): seq<VEvent>
  {
    if calls == [] then []
    else (if calls[0].path == Direct then calls[0].events else []) + DirectEvents(calls[1..])
  }

  lemma {:induction false} DirectEventsAppend(a: seq<SendCall>, b: seq<SendCall>)
    ensures DirectEvents(a + b) == DirectEvents(a) + DirectEvents(b)
  {
    if a != [] {
      DirectEventsAppend(a[1..], b);
      assert (a + b)[0] == a[0] && (a + b)[1..] == a[1..] + b;
      var head := if a[0].path == Direct then a[0].events else [];
      assert DirectEvents(a + b) == head + (DirectEvents(a[1..]) + DirectEvents(b));
    } else {
      assert a + b == b;
    }
  }

  lemma {:induction false} DirectEventsNone(calls: seq<SendCall>)
    requires forall k :: 0 <= k < |calls| ==> calls[k].path != Direct
    ensures DirectEvents(calls) == []
  {
    if calls != [] {
      DirectEventsNone(calls[1..]);
    }
  }

  /** The events sent directly between two points of the log. */
  function NewDirect(before: seq<SendCall>, after: seq<SendCall>): seq<VEvent>
    requires before <= after
  {
    DirectEvents(after[|before|..])
  }

  lemma NewDirectNothing(a: seq<SendCall>)
    ensures NewDirect(a, a) == []
  {
    assert a[|a|..] == [];
  }

  lemma NewDirectSplit(a: seq<SendCall>, b: seq<SendCall>, c: seq<SendCall>)
    requires a <= b && b <= c
    ensures a <= c
    ensures NewDirect(a, c) == NewDirect(a, b) + NewDirect(b, c)
  {
    assert c[|a|..] == b[|a|..] + c[|b|..];
    DirectEventsAppend(b[|a|..], c[|b|..]);
  }

  /** One send adds its batch when the streamer makes it and nothing otherwise. */
  lemma NewDirectSend(s: State, path: Path, evs: seq<VEvent>)
    ensures s.sent <= Send(s, path, evs).st.sent
    ensures NewDirect(s.sent, Send(s, path, evs).st.sent) == if path == Direct then evs else []
  {
    var after := Send(s, path, evs).st.sent;
    assert after[|s.sent|..] == [SendCall(path, evs)];
    assert DirectEvents([SendCall(path, evs)]) == (if path == Direct then evs else []) + DirectEvents([]);
  }

  /** Calls made only by a reader add no direct event. */
  lemma NewDirectByReader(a: seq<SendCall>, b: seq<SendCall>, path: Path)
    requires AppendedBy(a, b, path) && path != Direct
    ensures a <= b && NewDirect(a, b) == []
  {
    var tail := b[|a|..];
    forall k | 0 <= k < |tail| ensures tail[k].path != Direct {
      assert tail[k] == b[|a| + k];
    }
    DirectEventsNone(tail);
  }

  // ---------------------------------------------------------------------------
  // Measures over an event sequence

  function FieldCount(evs: seq<VEvent>): nat
  {
    if evs == [] then 0 else (if evs[0].FieldEv? then 1 else 0) + FieldCount(evs[1..])
  }

  predicate IsCompletion(e: VEvent)
  {
    e.LastPK? && e.lastPKEvent.completed
  }

  function CompletionCount(evs: seq<VEvent>): nat
  {
    if evs == [] then 0 else (if IsCompletion(evs[0]) then 1 else 0) + CompletionCount(evs[1..])
  }

  /** No ROW event comes before the first FIELD event. */
  predicate RowsAfterField(evs: seq<VEvent>)
  {
    if evs == [] then true
    else if evs[0].FieldEv? then true
    else if evs[0].RowEv? then false
    else RowsAfterField(evs[1..])
  }

  lemma {:induction false} MeasuresAppend(a: seq<VEvent>, b: seq<VEvent>)
    ensures FieldCount(a + b) == FieldCount(a) + FieldCount(b)
    ensures CompletionCount(a + b) == CompletionCount(a) + CompletionCount(b)
    ensures RowsAfterField(a + b) == (RowsAfterField(a) && (FieldCount(a) > 0 || RowsAfterField(b)))
  {
    if a != [] {
      MeasuresAppend(a[1..], b);
      assert (a + b)[0] == a[0] && (a + b)[1..] == a[1..] + b;
    } else {
      assert a + b == b;
    }
  }

  /** Events that are neither FIELD, nor ROW, nor LASTPK: position frames and the like. */
  predicate Quiet(evs: seq<VEvent>)
  {
    forall i :: 0 <= i < |evs| ==> !evs[i].FieldEv? && !evs[i].RowEv? && !evs[i].LastPK?
  }

  /** Events that are neither ROW nor LASTPK: nothing about any row is sent. */
  predicate NoRowsOrCursor(evs: seq<VEvent>)
  {
    forall i :: 0 <= i < |evs| ==> !evs[i].RowEv? && !evs[i].LastPK?
  }

  lemma NoRowsOrCursorAppend(a: seq<VEvent>, b: seq<VEvent>)
    requires NoRowsOrCursor(a) && NoRowsOrCursor(b)
    ensures NoRowsOrCursor(a + b)
  {
    forall i | 0 <= i < |a + b| ensures !(a + b)[i].RowEv? && !(a + b)[i].LastPK? {
      if i >= |a| {
        assert (a + b)[i] == b[i - |a|];
      }
    }
  }

  /** Events that are neither FIELD nor a completion marker. */
  predicate Unmarked(evs: seq<VEvent>)
  {
    forall i :: 0 <= i < |evs| ==> !evs[i].FieldEv? && !IsCompletion(evs[i])
  }

  lemma {:induction false} UnmarkedMeasures(evs: seq<VEvent>)
    requires Unmarked(evs)
    ensures FieldCount(evs) == 0 && CompletionCount(evs) == 0
  {
    if evs != [] {
      UnmarkedMeasures(evs[1..]);
    }
  }

  lemma {:induction false} QuietMeasures(evs: seq<VEvent>)
    requires Quiet(evs)
    ensures FieldCount(evs) == 0 && CompletionCount(evs) == 0 && RowsAfterField(evs)
  {
    if evs != [] {
      QuietMeasures(evs[1..]);
    }
  }

  lemma QuietAppend(a: seq<VEvent>, b: seq<VEvent>)
    requires Quiet(a) && Quiet(b)
    ensures Quiet(a + b)
  {
  }

  lemma CompletionMeasures(t: string)
    ensures FieldCount(CompletionEvents(t)) == 0
    ensures CompletionCount(CompletionEvents(t)) == 1
    ensures RowsAfterField(CompletionEvents(t))
  {
    var evs := CompletionEvents(t);
    assert evs[1..][1..][1..] == [];
    assert Quiet(evs[1..][1..]);
    QuietMeasures(evs[1..][1..]);
  }

  lemma FieldBatchMeasures(fe: FieldEvent, rest: seq<VEvent>)
    requires Quiet(rest)
    ensures var evs := [Begin, FieldEv(fe)] + rest;
      FieldCount(evs) == 1 && CompletionCount(evs) == 0 && RowsAfterField(evs)
  {
    QuietMeasures(rest);
    var head := [Begin, FieldEv(fe)];
    assert head[1..][1..] == [];
    MeasuresAppend(head, rest);
  }

  // ---------------------------------------------------------------------------
  // What each step sends directly

  lemma SetPositionEvents(s: State, gtid: string, isInTx: bool)
    ensures s.sent <= SetPosition(s, gtid, isInTx).st.sent
    ensures Quiet(NewDirect(s.sent, SetPosition(s, gtid, isInTx).st.sent))
  {
    var r := SetPosition(s, gtid, isInTx);
    if r.st.sent == s.sent {
      NewDirectNothing(s.sent);
    } else {
      assert gtid != "" && DecodePosition(gtid).Some? && !Equal(DecodePosition(gtid).value, s.pos);
      NewDirectSend(s, Direct, PositionFrame(gtid, isInTx));
    }
  }

  lemma FastForwardToEvents(s: State, gtid: string, run: LiveRun)
    ensures s.sent <= FastForwardTo(s, gtid, run).st.sent
    ensures Quiet(NewDirect(s.sent, FastForwardTo(s, gtid, run).st.sent))
  {
    var f := FastForward(s, gtid, run);
    var s1 := s.(stopPos := DecodeOrZero(gtid));
    var s2 := s1.(readers := s1.readers + [LiveTail(EncodePosition(s1.pos), "")]);
    assert f == LiveReader(s2, ThroughPipeline, run.batches, run.tail);
    NewDirectByReader(s.sent, f.st.sent, Pipeline);
    if f.out == Ok && EncodePosition(f.st.pos) == gtid {
      SetPositionEvents(f.st, gtid, false);
      NewDirectSplit(s.sent, f.st.sent, FastForwardTo(s, gtid, run).st.sent);
    }
  }

  lemma SendFieldEventEvents(s: State, gtid: string, fe: FieldEvent)
    ensures var r := SendFieldEvent(s, gtid, fe);
      && s.sent <= r.st.sent && r.st.fields == s.fields
      && var evs := NewDirect(s.sent, r.st.sent);
      FieldCount(evs) == 1 && CompletionCount(evs) == 0 && RowsAfterField(evs) && NoRowsOrCursor(evs)
  {
    var m := Send(s, Direct, [Begin, FieldEv(fe)]);
    NewDirectSend(s, Direct, [Begin, FieldEv(fe)]);
    SetPositionEvents(m.st, gtid, true);
    var r := SendFieldEvent(s, gtid, fe);
    NewDirectSplit(s.sent, m.st.sent, r.st.sent);
    FieldBatchMeasures(fe, NewDirect(m.st.sent, r.st.sent));
    NoRowsOrCursorAppend([Begin, FieldEv(fe)], NewDirect(m.st.sent, r.st.sent));
  }

  /**
   * The first batch sends the FIELD event, exactly once, iff it caches the
   * fields; a first batch that returns nil has cached them.
   */
  lemma FirstBatchEvents(s: State, t: string, b: RowsResponse, ff: LiveRun)
    requires s.fields.None?
    ensures var r := FirstBatch(s, t, b, ff);
      && s.sent <= r.st.sent
      && (r.out == Ok ==> r.st.fields.Some?)
      && var evs := NewDirect(s.sent, r.st.sent);
      && CompletionCount(evs) == 0 && RowsAfterField(evs) && NoRowsOrCursor(evs)
      && FieldCount(evs) == (if r.st.fields.Some? then 1 else 0)
  {
    var r := FirstBatch(s, t, b, ff);
    if |b.fields| == 0 {
      NewDirectNothing(s.sent);
    } else {
      var f := if NeedsFastForward(s.pos, b.gtid) then FastForwardTo(s, b.gtid, ff) else Step(s, Ok);
      if NeedsFastForward(s.pos, b.gtid) {
        FastForwardToEvents(s, b.gtid, ff);
      } else {
        NewDirectNothing(s.sent);
      }
      QuietMeasures(NewDirect(s.sent, f.st.sent));
      if f.out == Ok {
        var s2 := f.st.(fields := Some(b.fields), pkfields := b.pkfields);
        SendFieldEventEvents(s2, b.gtid, FieldEvent(t, b.fields));
        NewDirectSplit(s.sent, s2.sent, r.st.sent);
        MeasuresAppend(NewDirect(s.sent, s2.sent), NewDirect(s2.sent, r.st.sent));
        NoRowsOrCursorAppend(NewDirect(s.sent, s2.sent), NewDirect(s2.sent, r.st.sent));
      }
    }
  }

  lemma RowsBatchUnmarked(t: string, rows: seq<Row>, qr: QueryResult)
    ensures Unmarked(RowsBatch(t, rows, qr))
  {
    var evs := RowsBatch(t, rows, qr);
    forall i | 0 <= i < |evs| ensures !evs[i].FieldEv? && !IsCompletion(evs[i]) {
      if i < |rows| {
        assert evs[i] == RowEvents(t, rows)[i];
      }
    }
  }

  /** One callback: FIELD only while no fields are cached, and no completion marker. */
  lemma OnRowsEvents(s: State, t: string, b: RowsResponse, canceled: bool, ff: LiveRun)
    requires t in s.plans && s.plans[t].tablePK.Some?
    ensures var r := OnRows(s, t, b, canceled, ff);
      && s.sent <= r.st.sent
      && var evs := NewDirect(s.sent, r.st.sent);
      && CompletionCount(evs) == 0
      && (s.fields.Some? ==> r.st.fields.Some? && FieldCount(evs) == 0)
      && (s.fields.None? ==> RowsAfterField(evs) && FieldCount(evs) == (if r.st.fields.Some? then 1 else 0))
  {
    var r := OnRows(s, t, b, canceled, ff);
    if canceled {
      NewDirectNothing(s.sent);
    } else {
      var f := if s.fields.None? then FirstBatch(s, t, b, ff) else Step(s, Ok);
      if s.fields.None? {
        FirstBatchEvents(s, t, b, ff);
      } else {
        NewDirectNothing(s.sent);
      }
      if f.out == Ok && |b.rows| > 0 {
        var qr := BatchCursor(b);
        var w := SendEventsForRows(f.st, t, b.rows, qr);
        NewDirectSend(f.st, Direct, RowsBatch(t, b.rows, qr));
        assert r.st.sent == w.st.sent;
        RowsBatchUnmarked(t, b.rows, qr);
        UnmarkedMeasures(RowsBatch(t, b.rows, qr));
        NewDirectSplit(s.sent, f.st.sent, w.st.sent);
        MeasuresAppend(NewDirect(s.sent, f.st.sent), RowsBatch(t, b.rows, qr));
      }
    }
  }

  /**
   * A batch without rows makes the callback send no ROW and no LASTPK event
   * (at most the FIELD event and position frames of a first batch), and,
   * whatever it returns, leaves every cursor as it was.
   */
  lemma OnRowsWithoutRows(s: State, t: string, b: RowsResponse, canceled: bool, ff: LiveRun)
    requires t in s.plans && s.plans[t].tablePK.Some? && |b.rows| == 0
    ensures var r := OnRows(s, t, b, canceled, ff);
      && s.sent <= r.st.sent && NoRowsOrCursor(NewDirect(s.sent, r.st.sent))
      && r.st.plans == s.plans
  {
    if canceled || s.fields.Some? {
      NewDirectNothing(s.sent);
    } else {
      FirstBatchEvents(s, t, b, ff);
    }
  }

  /** The whole snapshot read keeps the callback's guarantees. */
  lemma {:induction false} StreamRowsEvents(s: State, t: string, batches: seq<RowsResponse>, k: nat, tail: Outcome,
                                            cancelAt: Option<nat>, ff: LiveRun)
    requires t in s.plans && s.plans[t].tablePK.Some?
    ensures var r := StreamRowsLoop(s, t, batches, k, tail, cancelAt, ff);
      && s.sent <= r.st.sent
      && var evs := NewDirect(s.sent, r.st.sent);
      && CompletionCount(evs) == 0
      && (s.fields.Some? ==> r.st.fields.Some? && FieldCount(evs) == 0)
      && (s.fields.None? ==> RowsAfterField(evs) && FieldCount(evs) == (if r.st.fields.Some? then 1 else 0))
    decreases |batches|
  {
    var r := StreamRowsLoop(s, t, batches, k, tail, cancelAt, ff);
    if batches == [] {
      NewDirectNothing(s.sent);
    } else {
      var c := OnRows(s, t, batches[0], DoneAt(cancelAt, k), ff);
      OnRowsEvents(s, t, batches[0], DoneAt(cancelAt, k), ff);
      if c.out == Ok {
        StreamRowsEvents(c.st, t, batches[1..], k + 1, tail, cancelAt, ff);
        NewDirectSplit(s.sent, c.st.sent, r.st.sent);
        MeasuresAppend(NewDirect(s.sent, c.st.sent), NewDirect(c.st.sent, r.st.sent));
      }
    }
  }

  // ---------------------------------------------------------------------------
  // The field cache

  /** A first batch that does not fail has cached the fields: fast-forward never returns EOF. */
  lemma FirstBatchCachesFields(s: State, t: string, b: RowsResponse, ff: LiveRun)
    requires s.fields.None?
    ensures var r := FirstBatch(s, t, b, ff);
      !r.out.Fail? ==> r.st.fields.Some?
  {
    if |b.fields| > 0 {
      var f := if NeedsFastForward(s.pos, b.gtid) then FastForwardTo(s, b.gtid, ff) else Step(s, Ok);
      if NeedsFastForward(s.pos, b.gtid) {
        FastForwardToSpec(s, b.gtid, ff);
        FastForwardSpec(s, b.gtid, ff);
      }
      if f.out == Ok {
        var s2 := f.st.(fields := Some(b.fields), pkfields := b.pkfields);
        SendFieldEventEvents(s2, b.gtid, FieldEvent(t, b.fields));
      }
    }
  }

  /** A callback that found the context live and did not fail leaves the fields cached. */
  lemma OnRowsCachesFields(s: State, t: string, b: RowsResponse, ff: LiveRun)
    requires t in s.plans && s.plans[t].tablePK.Some?
    ensures var r := OnRows(s, t, b, false, ff);
      !r.out.Fail? ==> r.st.fields.Some?
  {
    if s.fields.None? {
      FirstBatchCachesFields(s, t, b, ff);
    }
  }

  /**
   * A snapshot read that delivered a batch while the context was live and did
   * not fail leaves the fields cached.
   */
  lemma StreamRowsCachesFields(s: State, t: string, batches: seq<RowsResponse>, k: nat, tail: Outcome,
                               cancelAt: Option<nat>, ff: LiveRun)
    requires t in s.plans && s.plans[t].tablePK.Some?
    requires |batches| > 0 && !DoneAt(cancelAt, k)
    ensures var r := StreamRowsLoop(s, t, batches, k, tail, cancelAt, ff);
      !r.out.Fail? ==> r.st.fields.Some?
  {
    var c := OnRows(s, t, batches[0], false, ff);
    OnRowsCachesFields(s, t, batches[0], ff);
    if c.out == Ok {
      StreamRowsEvents(c.st, t, batches[1..], k + 1, tail, cancelAt, ff);
    }
  }

  /**
   * copyTable of a table started with no cached fields: at most one FIELD
   * event and no ROW before it; at most one completion marker, and when the
   * table completes, exactly one, sent last, preceded by exactly one FIELD
   * event whenever the snapshot reader delivered a batch.
   */
  lemma CopyTableEvents(s: State, t: string, run: TableRun)
    requires |s.tablesToCopy| > 0 && t in s.plans && s.plans[t].tablePK.Some?
    requires s.fields.None?
    ensures var r := CopyTable(s, t, run);
      && s.sent <= r.st.sent
      && var evs := NewDirect(s.sent, r.st.sent);
      && FieldCount(evs) <= 1 && RowsAfterField(evs)
      && CompletionCount(evs) <= 1
      && (r.out == Ok ==>
            && CompletionCount(evs) == 1
            && r.st.sent[|r.st.sent| - 1] == SendCall(Direct, CompletionEvents(t)))
      && (r.out == Ok && |run.rows| > 0 ==> FieldCount(evs) == 1)
  {
    var r := CopyTable(s, t, run);
    var plan := s.plans[t];
    var s1 := s.(readers := s.readers + [RowSnapshot(t, plan.rule.filter, GetLastPKFromQR(plan.tablePK.value.lastpk))]);
    var l := StreamRowsLoop(s1, t, run.rows, 0, run.rowsTail, run.cancelAt, run.fastForward);
    StreamRowsEvents(s1, t, run.rows, 0, run.rowsTail, run.cancelAt, run.fastForward);
    if l.out == Ok && !DoneAt(run.cancelAt, l.calls) {
      if |run.rows| > 0 {
        StreamRowsCachesFields(s1, t, run.rows, 0, run.rowsTail, run.cancelAt, run.fastForward);
      }
      var m := Send(l.st, Direct, CompletionEvents(t));
      NewDirectSend(l.st, Direct, CompletionEvents(t));
      assert r.st.sent == m.st.sent;
      CompletionMeasures(t);
      NewDirectSplit(s.sent, l.st.sent, m.st.sent);
      MeasuresAppend(NewDirect(s.sent, l.st.sent), CompletionEvents(t));
    }
  }

  /**
   * catchupAndCopy, whatever fields a previous table left cached: the
   * catch-up reader sends nothing directly, and the table's events keep the
   * order above.
   */
  lemma CatchupAndCopyEvents(s: State, t: string, run: TableRun)
    requires |s.tablesToCopy| > 0 && t in s.plans && s.plans[t].tablePK.Some?
    ensures var r := CatchupAndCopy(s, t, run);
      && s.sent <= r.st.sent
      && var evs := NewDirect(s.sent, r.st.sent);
      && FieldCount(evs) <= 1 && RowsAfterField(evs)
      && CompletionCount(evs) <= 1
      && (r.out == Ok ==>
            && CompletionCount(evs) == 1
            && r.st.sent[|r.st.sent| - 1] == SendCall(Direct, CompletionEvents(t)))
      && (r.out == Ok && |run.rows| > 0 ==> FieldCount(evs) == 1)
  {
    var r := CatchupAndCopy(s, t, run);
    var c := if !IsZero(s.pos) then Catchup(s, run.catchup, run.catchupEnd) else Step(s, Ok);
    if !IsZero(s.pos) {
      var s2 := s.(readers := s.readers + [LiveTail(EncodePosition(s.pos), "")]);
      var live := LiveReader(s2, ThroughPipeline, run.catchup.batches, run.catchup.tail);
      assert c.st == live.st;
      NewDirectByReader(s.sent, c.st.sent, Pipeline);
    } else {
      NewDirectNothing(s.sent);
    }
    if c.out == Ok {
      var s3 := c.st.(fields := None);
      CopyTableEvents(s3, t, run);
      NewDirectSplit(s.sent, s3.sent, r.st.sent);
      MeasuresAppend(NewDirect(s.sent, s3.sent), NewDirect(s3.sent, r.st.sent));
      QuietMeasures(NewDirect(s.sent, s3.sent));
    }
  }
}
