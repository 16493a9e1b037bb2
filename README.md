# uvstreamer: a verified model of the vstreamer copy orchestrator

This project models `uvstreamer`, the part of the vitess tablet's vstreamer
(go/vt/vttablet/tabletserver/vstreamer, in uvstreamer.go and copy.go) that
drives a resumable copy of a set of tables into one ordered event stream for a
consumer. It works in three phases:

- It resolves a start position.
- For each queued table, in sorted order, it:
  - catches up on the binlog;
  - reads the table's snapshot batch by batch;
  - fast-forwards the live stream to the snapshot's position when the snapshot is ahead;
  - emits FIELD, ROW and LASTPK cursor events, then the completion marker;
  - drops the table from its plans and its queue.
- It then hands over to live replication from the position it reached.

The model is in two layers:

- **Transition functions.** `Uvstreamer` (uvstreamer.go) and `CopyPhase`
  (copy.go) give every operation as a function from the streamer's state to
  the new state and the Go `error` it returns. `Outcome` is nil, `io.EOF`, or a
  `Failure`. The lemmas beside these functions state what the code promises.
- **The object itself.** `Streamer.UVStreamer` is a class with the streamer's
  fields. Its methods update those fields in place, with the source's loops.
  Each method is proved to produce exactly the state and error the
  corresponding transition function computes.

`CopyEvents` proves how the events of one table's copy are ordered. It looks
only at what the streamer sends by itself, not at what readers forward
through the pipeline.

How the environment is represented:

- **The consumer's `send`.** The state keeps a log of every batch sent. Each
  entry is tagged with the path that sent it:
  - `Direct`: the streamer itself;
  - `Pipeline`: `send2`, used by catch-up and fast-forward;
  - `Replication`: the final reader, which gets the plain `send`.

  The k-th call returns the k-th scripted reply, and nil once the script runs out.
- **The external readers.** These are inputs. A live-tail reader, `LiveRun`,
  is a list of batches plus the result it ends with. A `TableRun` scripts
  everything the readers and the context do while one table is copied:
  - the catch-up batches, and how catch-up ends (lag reached, the reader ended, or cancellation);
  - the snapshot batches and the snapshot reader's own result;
  - the fast-forward batches;
  - the callback at which the context is found cancelled.

  Every reader started is logged with its arguments.
- **Positions.** `mysql.Position` is a transaction counter with a canonical
  decimal text form; the zero position is `""`. `IsZero`, `Equal` and
  `AtLeast` act on the counter. The streamer relies on one round trip:
  decoding the encoding of a position gives that position back
  (`Mysql.DecodeEncode`). It does not rely on the reverse. copy.go:222
  compares `EncodePosition(uvs.pos)` with the batch's gtid as text, because a
  GTID text and the encoding of its decoded position can differ. So the
  contracts about setPosition, setStreamPosition and the first batch state
  the adopted position as the one the gtid decodes to, not as a position
  whose text is the gtid.
- **Rows.** A row is a list of NULL-or-bytes values. Its wire form keeps the
  lengths apart from the concatenated bytes, as `querypb.Row` does.

## Where the code behaves other than one might expect

The model follows the code in each case below.

- **Which events `filterEvents` drops.** One would expect `filterEvents` to
  drop the ROW and FIELD events of tables that are queued but not yet
  started, whose rows the copy will send itself.
  - The code drops them for tables whose plan has no TableLastPK at all: tables
    with a rule but no copy. It also drops them when the table name is empty.
  - The events of a queued table that has not started pass through.
  - `Uvstreamer.FilterEventsSpec` states the code's rule.
- **The queue/plan invariant.** The comment on the `plans` field
  (uvstreamer.go:58) says it holds the tables remaining to be fully copied,
  which would make the queue exactly the tables whose plan is still present.
  - In the code, plans are also kept for rules without a TableLastPK, and those
    are never queued.
  - The invariant that holds and is proved (`Uvstreamer.Valid`) is that the
    queue holds exactly the tables whose plan carries a TableLastPK.
- **The stop position is never reset.** `fastForward` sets the stop position
  and nothing resets it. The final replication reader is therefore bounded by
  the last snapshot position any fast-forward aimed at.
  - `CopyPhase.FastForwardSpec` states that fastForward sets it.
  - `CopyPhase.OnRowsStopPos` states that a callback changes it only by
    fast-forwarding on a table's first batch.
  - `CopyPhase.StreamRowsStopPos`, `CopyPhase.CopyTableStopPos`,
    `CopyPhase.CatchupAndCopyStopPos` and `CopyPhase.CopyLoopStopPos` state
    that afterwards it is the old one or the snapshot position of a batch
    that was read.
  - `CopyPhase.StreamStopPos` and `CopyPhase.StreamSpec` together state that
    the final reader is bounded by the starting stop position or by such a
    snapshot position.
- **A downstream EOF completes the table.** An EOF from the consumer in reply
  to a batch of rows makes the callback return EOF. The row-snapshot reader
  (`vse.StreamRows`) is not part of this model; taking it to end cleanly when
  its callback returns EOF, as it does for the callback's own EOF on a done
  context, the snapshot read ends without error. The table is then
  completed and dequeued, although its remaining batches were never read.
  - `CopyPhase.DownstreamEofCompletesTable` shows this.
- **A table can complete without a FIELD event.** When the snapshot reader
  delivers no batch at all and ends cleanly, copyTable sends the completion
  marker alone. Whenever it delivers a batch, a completed table's events hold
  exactly one FIELD event before the marker.
  - `CopyPhase.CopyTableWithoutBatches` and `CopyEvents.CopyTableEvents` state this.
- **The position can move back.** The first batch of every table sets the
  position to the snapshot's position, even when the snapshot is behind the
  current position and no fast-forward ran.
  - `CopyPhase.FirstBatchMovesBack` shows this: with a snapshot strictly
    behind the current position and both sends accepted, no reader starts and
    the new position is strictly behind the old one.

## Model

| member | source | states |
|---|---|---|
| Mysql.DecodeEncode | go/vt/vttablet/tabletserver/vstreamer/copy.go:216-222 | decoding the encoding of a position gives that position back |
| Mysql.EncodeDecode | go/vt/vttablet/tabletserver/vstreamer/uvstreamer.go:225-233 | a text that decodes to a position is that position's encoding; this holds of the model's canonical decimal codec only, and no other contract uses it |
| Mysql.EncodeInjective | go/vt/vttablet/tabletserver/vstreamer/copy.go:222-224 | two positions with the same encoding are equal, so comparing encodings compares positions |
| Sqltypes.RowRoundTrip | go/vt/vttablet/tabletserver/vstreamer/copy.go:175-193 | a row converted to its wire form and back is unchanged |
| Strings.SortStringsCorrect | go/vt/vttablet/tabletserver/vstreamer/uvstreamer.go:120 | the sorted queue is ordered and holds exactly the input names, each as often as given |
| Strings.SortStringsNoDuplicates | go/vt/vttablet/tabletserver/vstreamer/uvstreamer.go:120 | sorting names without repeats gives names without repeats |
| Uvstreamer.NewStateQueue | go/vt/vttablet/tabletserver/vstreamer/uvstreamer.go:106-120 | construction makes the queue the sorted list of the TableLastPK names; position, stop position and field cache start empty and nothing has been sent or started |
| Uvstreamer.NewStateWithoutTablePKs | go/vt/vttablet/tabletserver/vstreamer/uvstreamer.go:106 | without TableLastPKs there are no plans and no queue, whatever the rules |
| Uvstreamer.NewStatePlans | go/vt/vttablet/tabletserver/vstreamer/uvstreamer.go:107-119 | there is one plan per rule Match holding that rule; each TableLastPK table's plan carries a TableLastPK for it; every other rule's plan has a nil TableLastPK |
| Uvstreamer.NewStateCursors | go/vt/vttablet/tabletserver/vstreamer/uvstreamer.go:116-119 | with distinct TableLastPK names, each table's plan carries exactly its own TableLastPK |
| Uvstreamer.NewStateValid | go/vt/vttablet/tabletserver/vstreamer/uvstreamer.go:106-120 | a fresh streamer satisfies the queue/plan invariant: sorted, no repeats, exactly the tables whose plan carries a TableLastPK |
| Uvstreamer.FilterEventsSpec | go/vt/vttablet/tabletserver/vstreamer/uvstreamer.go:130-165 | with plans, the result is an order-preserving subsequence of the input; each event occurs as often as in the input if it passes the switch, else not at all; HEARTBEAT never survives; a ROW or FIELD event survives iff its table name is non-empty and its plan, if any, has a TableLastPK |
| Uvstreamer.Send2Spec | go/vt/vttablet/tabletserver/vstreamer/uvstreamer.go:168-195 | an empty batch returns nil and changes nothing; otherwise there is exactly one send of the filtered batch (empty without plans); a non-EOF error comes back with the position unchanged; otherwise the position becomes the last forwarded GTID (unchanged without one), and the result is EOF iff the consumer said EOF or a forwarded GTID reached the non-zero stop position |
| Uvstreamer.Send2WithoutPlans | go/vt/vttablet/tabletserver/vstreamer/uvstreamer.go:179-183 | without plans, send2 sends an empty batch and keeps the position, whatever the batch held |
| Uvstreamer.Send2StopsAtStopPos | go/vt/vttablet/tabletserver/vstreamer/uvstreamer.go:187-194 | when the adopted position reaches a non-zero stop position, send2 returns EOF |
| Uvstreamer.LiveReader | go/vt/vttablet/tabletserver/vstreamer/uvstreamer.go:187-195 | a live reader only appends to the send log, all through the path it was given; it moves the position only through send2; it never reports EOF |
| Uvstreamer.SendEventsForCurrentPosSpec | go/vt/vttablet/tabletserver/vstreamer/uvstreamer.go:198-210 | one send of [GTID(current position), OTHER] and nothing else changed; nil iff the consumer accepted it; never EOF, since any other reply comes back wrapped with the position |
| Uvstreamer.SetStreamPositionSpec | go/vt/vttablet/tabletserver/vstreamer/uvstreamer.go:198-234 | no start position changes nothing; without a source position it is an error; "current" adopts the source position and sends [GTID, OTHER] even when that send fails; a malformed or not-yet-reached explicit position is an error with nothing sent; any other explicit position is adopted as the position it decodes to; plans, queue and stop position never change |
| Uvstreamer.InitSpec | go/vt/vttablet/tabletserver/vstreamer/uvstreamer.go:244-252 | init fails exactly when resolution fails, or when it leaves a zero position with no plans; it then returns MissingResumeInput |
| Uvstreamer.CopyCompleteSpec | go/vt/vttablet/tabletserver/vstreamer/uvstreamer.go:300-322 | exactly one send of BEGIN, LASTPK (completed, nil cursor, this table) and COMMIT; only when it returns nil are the plan deleted and the queue head dropped, which keeps the invariant; any error, EOF included, leaves plans and queue as they were |
| Uvstreamer.SetPositionSpec | go/vt/vttablet/tabletserver/vstreamer/uvstreamer.go:325-355 | an empty gtid is an error, and so is a malformed one, with nothing sent; a gtid Equal to the position is a no-op; otherwise there is one send of [GTID] in a transaction or [BEGIN, GTID, COMMIT] outside one, and the position moves only when that send returns nil; on nil, the position is the one the gtid decodes to |
| CopyPhase.GetLastPKFromQR | go/vt/vttablet/tabletserver/vstreamer/copy.go:175-184 | the cursor is present iff the result has exactly one row |
| CopyPhase.GetQRFromLastPK | go/vt/vttablet/tabletserver/vstreamer/copy.go:186-193 | the result has the given fields and exactly one row, with one length per cursor value |
| CopyPhase.LastPKRoundTrip | go/vt/vttablet/tabletserver/vstreamer/copy.go:175-193 | getLastPKFromQR(getQRFromLastPK(f, pk)) == pk |
| CopyPhase.BatchCursorResumes | go/vt/vttablet/tabletserver/vstreamer/copy.go:248-252 | the cursor stored after a batch makes the next snapshot read resume at that batch's last-PK row |
| CopyPhase.CatchupSpec | go/vt/vttablet/tabletserver/vstreamer/copy.go:76-117 | catchup starts one unbounded pipeline reader at the current position; it returns nil iff the lag target was reached; cancellation gives EOF |
| CopyPhase.FastForwardSpec | go/vt/vttablet/tabletserver/vstreamer/copy.go:281-287 | the stop position becomes the decoded snapshot position; one pipeline reader starts at the current position with no stop of its own; it sends only through the pipeline and never returns EOF |
| CopyPhase.FastForwardToSpec | go/vt/vttablet/tabletserver/vstreamer/copy.go:217-227 | after a fast-forward, a reader error is passed on; otherwise the callback goes on iff the position encodes to the snapshot gtid, and any other position gives FastForwardMismatch |
| CopyPhase.FirstBatchSpec | go/vt/vttablet/tabletserver/vstreamer/copy.go:212-241 | a first batch without fields is an error with nothing changed; a fast-forward reader starts iff the position is non-zero and behind the snapshot; an accepted batch caches its fields and leaves the position at the one the snapshot gtid decodes to |
| CopyPhase.OnRowsSpec | go/vt/vttablet/tabletserver/vstreamer/copy.go:205-261 | a done context returns EOF with nothing changed; the table's cursor moves to the batch's cursor only when a batch with rows returns nil, and that batch's ROW/LASTPK/COMMIT send is then the last send; every other outcome leaves the plans alone |
| CopyPhase.SendEventsForRowsSpec | go/vt/vttablet/tabletserver/vstreamer/copy.go:137-173 | exactly one send of len(rows)+2 events: one insert ROW per row, in order, for this table; then LASTPK (not completed) with the given cursor; then COMMIT |
| CopyPhase.SendFieldEventSpec | go/vt/vttablet/tabletserver/vstreamer/copy.go:119-134 | BEGIN and FIELD are always sent first, and the error of that send is ignored; the result is setPosition(gtid, in transaction) from there |
| CopyPhase.StreamRowsCanceled | go/vt/vttablet/tabletserver/vstreamer/copy.go:206-210 | a callback that finds the context done ends the snapshot read cleanly with nothing changed |
| CopyPhase.CopyTableCanceledAtStart | go/vt/vttablet/tabletserver/vstreamer/copy.go:263-271 | a context cancelled before the first batch makes copyTable return the context error with nothing sent and plans and queue kept |
| CopyPhase.StreamRowsEndsWhenDone | go/vt/vttablet/tabletserver/vstreamer/copy.go:205-211 | when the last callback found the context done, the snapshot read ended without error |
| CopyPhase.CopyTableCanceled | go/vt/vttablet/tabletserver/vstreamer/copy.go:205-271 | a context found done by any callback makes copyTable return the context error without calling copyComplete: nothing is sent after the read, and the table stays queued with its plan and cursor |
| CopyPhase.CopyTableWithoutBatches | go/vt/vttablet/tabletserver/vstreamer/copy.go:262-278 | a snapshot reader that delivers no batch and ends cleanly, with the context live, makes copyTable send the completion marker as its only event |
| CopyPhase.DownstreamEofCompletesTable | go/vt/vttablet/tabletserver/vstreamer/copy.go:205-278 | a consumer EOF in reply to the rows of the first batch still completes the table: FIELD, rows, then the completion marker are sent |
| CopyPhase.Catchup | go/vt/vttablet/tabletserver/vstreamer/copy.go:76-117 | catch-up changes neither plans, queue, field cache nor stop position |
| CopyPhase.FastForward | go/vt/vttablet/tabletserver/vstreamer/copy.go:281-287 | the stop position becomes the decoded snapshot position; plans, queue and field cache are kept |
| CopyPhase.RowEvents | go/vt/vttablet/tabletserver/vstreamer/copy.go:139-151 | one insert ROW event per row, in input order, for this table |
| CopyPhase.FastForwardTo | go/vt/vttablet/tabletserver/vstreamer/copy.go:217-227 | the fast-forward step only adds readers and keeps plans, queue and field cache |
| CopyPhase.FirstBatch | go/vt/vttablet/tabletserver/vstreamer/copy.go:212-241 | the first-batch step only adds readers and keeps plans and queue |
| CopyPhase.OnRows | go/vt/vttablet/tabletserver/vstreamer/copy.go:205-262 | the callback keeps the queue and changes at most this table's cursor, keeping its rule and its TableLastPK |
| CopyPhase.StreamRowsLoop | go/vt/vttablet/tabletserver/vstreamer/copy.go:205-262 | the snapshot read keeps the queue, changes at most this table's cursor, and makes at most one callback per batch |
| CopyPhase.CopyTable | go/vt/vttablet/tabletserver/vstreamer/copy.go:195-279 | nil means the table's plan is gone and the queue lost its head; any other result keeps the queue, and the plans differ at most in this table's cursor |
| CopyPhase.CatchupAndCopy | go/vt/vttablet/tabletserver/vstreamer/copy.go:62-74 | the same guarantee as copyTable for the whole step, catch-up included |
| CopyPhase.CatchupAndCopyReaders | go/vt/vttablet/tabletserver/vstreamer/copy.go:62-74 | catchup runs iff the position is non-zero: the first reader started is then the unbounded pipeline reader, and otherwise the table's snapshot reader from its stored cursor |
| CopyPhase.CatchupAndCopyValid | go/vt/vttablet/tabletserver/vstreamer/copy.go:62-74 | one table's catchupAndCopy on the queue head keeps the queue/plan invariant |
| CopyPhase.CopyLoop | go/vt/vttablet/tabletserver/vstreamer/copy.go:49-60 | copy keeps the queue/plan invariant and returns nil only with an empty queue |
| CopyPhase.CopyLoopQueue | go/vt/vttablet/tabletserver/vstreamer/copy.go:49-60 | the queue only loses entries at its front; it is empty iff copy returns nil, so the failing table stays queued; after a full copy no plan holds a TableLastPK |
| CopyPhase.CopyLoopPlans | go/vt/vttablet/tabletserver/vstreamer/copy.go:49-60 | plans of tables that were never queued are untouched, no plan is added, and a table taken off the queue has no plan |
| CopyPhase.QueuedTablesHavePlans | go/vt/vttablet/tabletserver/vstreamer/uvstreamer.go:259-266 | under the invariant a non-empty queue means there are plans, so Stream never skips queued tables |
| CopyPhase.StreamSpec | go/vt/vttablet/tabletserver/vstreamer/uvstreamer.go:255-271 | an init error is returned as it is; nil means every queued table was copied, no plan holds a TableLastPK, and replication last started from the reached position bounded by the stop position |
| CopyPhase.FirstBatchStopPos | go/vt/vttablet/tabletserver/vstreamer/copy.go:212-241 | the first batch sets the stop position to its snapshot position exactly when it has fields and needs a fast-forward, otherwise the stop position is unchanged |
| CopyPhase.OnRowsStopPos | go/vt/vttablet/tabletserver/vstreamer/copy.go:205-262 | a callback changes the stop position only when the context is not done, no fields are cached, the batch has fields and a fast-forward is needed, and then to the batch's snapshot position |
| CopyPhase.StreamRowsStopPos | go/vt/vttablet/tabletserver/vstreamer/copy.go:205-262 | after StreamRows the stop position is the one before it or the snapshot position of one of the batches |
| CopyPhase.CopyTableStopPos | go/vt/vttablet/tabletserver/vstreamer/copy.go:195-279 | after copyTable the stop position is the one before it or the snapshot position of one of the table's batches |
| CopyPhase.CatchupAndCopyStopPos | go/vt/vttablet/tabletserver/vstreamer/copy.go:62-74 | catchupAndCopy changes the stop position only as copyTable does |
| CopyPhase.CopyLoopStopPos | go/vt/vttablet/tabletserver/vstreamer/copy.go:49-60 | after copy the stop position is the starting one or the snapshot position of a batch of one of the queued tables' runs; it is never reset |
| CopyPhase.StreamStopPos | go/vt/vttablet/tabletserver/vstreamer/uvstreamer.go:255-271 | when Stream returns nil its stop position is the starting one or the snapshot position of a batch of a queued table |
| CopyPhase.FirstBatchMovesBack | go/vt/vttablet/tabletserver/vstreamer/copy.go:212-241 | a first batch whose valid snapshot position is strictly behind the current position starts no fast-forward and, with both sends accepted, leaves the position strictly behind where it was |
| CopyEvents.SetPositionEvents | go/vt/vttablet/tabletserver/vstreamer/uvstreamer.go:325-355 | setPosition directly sends no FIELD, ROW or LASTPK event |
| CopyEvents.FastForwardToEvents | go/vt/vttablet/tabletserver/vstreamer/copy.go:217-227 | a fast-forward directly sends no FIELD, ROW or LASTPK event: all the reader sends goes through the pipeline |
| CopyEvents.SendFieldEventEvents | go/vt/vttablet/tabletserver/vstreamer/copy.go:119-134 | sendFieldEvent directly sends exactly one FIELD event, before any ROW, with no ROW, LASTPK or completion marker |
| CopyEvents.FirstBatchEvents | go/vt/vttablet/tabletserver/vstreamer/copy.go:212-241 | the first batch sends the FIELD event exactly once iff it caches the fields, with no ROW, LASTPK or completion marker; nil means the fields are cached |
| CopyEvents.RowsBatchUnmarked | go/vt/vttablet/tabletserver/vstreamer/copy.go:137-173 | a rows batch holds no FIELD event and no completion marker |
| CopyEvents.OnRowsEvents | go/vt/vttablet/tabletserver/vstreamer/copy.go:205-261 | one callback never sends a completion marker; with cached fields it sends no FIELD; without, it sends FIELD at most once and no ROW before it |
| CopyEvents.OnRowsWithoutRows | go/vt/vttablet/tabletserver/vstreamer/copy.go:243-246 | a batch without rows makes the callback send no ROW and no LASTPK event, and leaves every plan as it was |
| CopyEvents.StreamRowsEvents | go/vt/vttablet/tabletserver/vstreamer/copy.go:205-262 | the whole snapshot read keeps the callback's guarantee: at most one FIELD event, before any ROW, and no completion marker |
| CopyEvents.FirstBatchCachesFields | go/vt/vttablet/tabletserver/vstreamer/copy.go:212-241 | a first batch that returns nil or EOF has cached the fields, because a fast-forward never returns EOF |
| CopyEvents.OnRowsCachesFields | go/vt/vttablet/tabletserver/vstreamer/copy.go:205-261 | a callback that found the context live and did not fail leaves the fields cached |
| CopyEvents.StreamRowsCachesFields | go/vt/vttablet/tabletserver/vstreamer/copy.go:205-262 | a snapshot read that delivered a batch to a live context and did not fail leaves the fields cached |
| CopyEvents.CopyTableEvents | go/vt/vttablet/tabletserver/vstreamer/copy.go:195-279 | copying a table with no cached fields sends at most one FIELD event, no ROW before it, and at most one completion marker; when the table completes, exactly one marker, sent last, and exactly one FIELD event before it whenever the snapshot reader delivered a batch |
| CopyEvents.CatchupAndCopyEvents | go/vt/vttablet/tabletserver/vstreamer/copy.go:62-74 | because fields are reset before copyTable, the same order holds whatever the previous table left cached, exactly one FIELD before the marker included; catch-up sends nothing directly |
| Streamer.UVStreamer.constructor | go/vt/vttablet/tabletserver/vstreamer/uvstreamer.go:87-123 | the two construction loops and the sort build exactly the state NewState describes |
| Streamer.UVStreamer.Send | go/vt/vttablet/tabletserver/vstreamer/uvstreamer.go:183 | the call is appended to the send log and returns the scripted reply |
| Streamer.UVStreamer.FilterEvents | go/vt/vttablet/tabletserver/vstreamer/uvstreamer.go:130-166 | the loop returns exactly the filtered batch that Uvstreamer.FilterEvents specifies (the batch itself when there are no plans), and changes nothing |
| Streamer.UVStreamer.ShouldSendEvent | go/vt/vttablet/tabletserver/vstreamer/uvstreamer.go:139-157 | the switch on one event decides exactly as Uvstreamer.ShouldSend: a ROW or FIELD event passes unless its table name is empty or its plan holds no TableLastPK, a heartbeat never passes, any other event always does |
| Streamer.UVStreamer.Send2 | go/vt/vttablet/tabletserver/vstreamer/uvstreamer.go:168-196 | the in-place GTID loop leaves the fields and result that Uvstreamer.Send2 specifies |
| Streamer.UVStreamer.RunLiveReader | go/vt/vttablet/tabletserver/vstreamer/copy.go:284-286 | the reader is logged with its start and stop positions, and delivering its batches ends as Uvstreamer.StartLiveReader says |
| Streamer.UVStreamer.SendEventsForCurrentPos | go/vt/vttablet/tabletserver/vstreamer/uvstreamer.go:198-210 | the object ends in the state, and returns the wrapped error, of Uvstreamer.SendEventsForCurrentPos |
| Streamer.UVStreamer.SetStreamPosition | go/vt/vttablet/tabletserver/vstreamer/uvstreamer.go:212-234 | the object ends in the state, and returns the error, of Uvstreamer.SetStreamPosition |
| Streamer.UVStreamer.Init | go/vt/vttablet/tabletserver/vstreamer/uvstreamer.go:244-252 | the object ends in the state, and returns the error, of Uvstreamer.Init |
| Streamer.UVStreamer.SetCopyState | go/vt/vttablet/tabletserver/vstreamer/uvstreamer.go:283-286 | only the table's cursor is replaced |
| Streamer.UVStreamer.CopyComplete | go/vt/vttablet/tabletserver/vstreamer/uvstreamer.go:300-323 | the object ends in the state, and returns the error, of Uvstreamer.CopyComplete |
| Streamer.UVStreamer.SetPosition | go/vt/vttablet/tabletserver/vstreamer/uvstreamer.go:325-355 | the object ends in the state, and returns the error, of Uvstreamer.SetPosition |
| Streamer.UVStreamer.Catchup | go/vt/vttablet/tabletserver/vstreamer/copy.go:76-117 | the object ends in the state, and returns the error, of CopyPhase.Catchup |
| Streamer.UVStreamer.SendFieldEvent | go/vt/vttablet/tabletserver/vstreamer/copy.go:119-134 | the object ends in the state, and returns the error, of CopyPhase.SendFieldEvent |
| Streamer.UVStreamer.SendEventsForRows | go/vt/vttablet/tabletserver/vstreamer/copy.go:137-173 | the loop builds exactly the rows batch, and the object ends as CopyPhase.SendEventsForRows says |
| Streamer.UVStreamer.FastForward | go/vt/vttablet/tabletserver/vstreamer/copy.go:281-287 | the object ends in the state, and returns the error, of CopyPhase.FastForward |
| Streamer.UVStreamer.FastForwardTo | go/vt/vttablet/tabletserver/vstreamer/copy.go:217-227 | the object ends in the state, and returns the error, of CopyPhase.FastForwardTo |
| Streamer.UVStreamer.FirstBatch | go/vt/vttablet/tabletserver/vstreamer/copy.go:212-241 | the object ends in the state, and returns the error, of CopyPhase.FirstBatch |
| Streamer.UVStreamer.OnRows | go/vt/vttablet/tabletserver/vstreamer/copy.go:205-262 | the callback ends in the state, and returns the error, of CopyPhase.OnRows |
| Streamer.UVStreamer.StreamRows | go/vt/vttablet/tabletserver/vstreamer/copy.go:205-262 | the delivery loop ends in the state, with the error and callback count, of CopyPhase.StreamRowsLoop |
| Streamer.UVStreamer.CopyTable | go/vt/vttablet/tabletserver/vstreamer/copy.go:195-279 | the object ends in the state, and returns the error, of CopyPhase.CopyTable |
| Streamer.UVStreamer.CatchupAndCopy | go/vt/vttablet/tabletserver/vstreamer/copy.go:62-74 | the object ends in the state, and returns the error, of CopyPhase.CatchupAndCopy |
| Streamer.UVStreamer.Copy | go/vt/vttablet/tabletserver/vstreamer/copy.go:49-60 | the while loop over the shrinking queue ends as CopyPhase.CopyLoop says and keeps the queue/plan invariant |
| Streamer.UVStreamer.Stream | go/vt/vttablet/tabletserver/vstreamer/uvstreamer.go:255-271 | the object ends in the state, and returns the error, of CopyPhase.Stream |

## Left out

- Lag tracking (`lastTimestampNs`, `setSecondsBehindMaster`,
  `getSecondsBehindMaster`, the mutex) is left out, because it depends on the
  wall clock. How catch-up ends is an input instead.
- The body of `catchup` (goroutine, channel, ticker, `select`) is left out,
  because its point is concurrency. The catch-up reader runs to the end of
  its scripted batches, and then the scripted ending decides the result.
- The external readers are scripted batch lists, not code: the live-tail
  reader (`newVStreamer(...).Stream()`), the row-snapshot reader
  (`vse.StreamRows`), and the database connection behind `currentPosition`,
  which becomes an optional input. They are assumed to stop cleanly when the
  callback returns EOF.
- Replies from the consumer's `send` are a script, one reply per call.
- LiveReader: the live-tail reader is assumed never to return `io.EOF` by
  itself, so a scripted EOF ending after its last batch is read as nil. An
  EOF reaches the caller only from the consumer's reply. `FastForwardSpec`
  (`r.out != Eof`), `FirstBatchCachesFields` and the exactly-one-FIELD
  clauses of `CopyTableEvents` and `CatchupAndCopyEvents` rest on this.
- `wrapError` is not part of this model. Its result is a `Wrapped` failure
  that carries the original error and the position; the message text is not
  modelled.
- EncodeDecode: the text round trip holds only because the model's decoder
  accepts canonical decimals alone; a real GTID-set codec does not promise it,
  and no other contract in the model depends on it.
- GTID-set positions are reduced to a counter with a decimal text form.
  `AtLeast` is therefore a total order here, while the real one is a preorder.
- `sqltypes` value types are not modelled. A value is NULL or raw bytes, and
  `pkfields` is cached but not used to type the cursor. A nil cursor result is
  read as a result with no rows.
- `SetVSchema`, `Cancel`, `sendTestEvent` (test mode only) and logging are
  left out, because they have no stated effect on the stream.
- py/vtproto/vttest_pb2.py is left out, because it holds only generated
  protobuf descriptors.
- Context cancellation is a callback index. A cancellation that arrives
  after copyTable's final check is not modelled, because it has no effect on
  copyTable.
