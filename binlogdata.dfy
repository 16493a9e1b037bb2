/**
 * The `binlogdatapb` messages the streamer reads and writes, and the Go
 * `error` values it returns.
 */
module Binlogdata {
  import opened Wrappers
  import opened Sqltypes
  import Mysql

  /** A `binlogdatapb.Rule`: the table name it matches (`Match`) and its filter query. */
  datatype Rule = Rule(tableMatch: string, filter: string)

  /** A `binlogdatapb.TableLastPK`: a table and its copy cursor, nil before the first batch. */
  datatype TableLastPK = TableLastPK(tableName: string, lastpk: Option<QueryResult>)

  datatype RowChange = RowChange(before: Option<Row>, after: Option<Row>)

  datatype RowEvent = RowEvent(tableName: string, rowChanges: seq<RowChange>)

  datatype FieldEvent = FieldEvent(tableName: string, fields: seq<Field>)

  datatype LastPKEvent = LastPKEvent(tableLastPK: TableLastPK, completed: bool)

  /** A `binlogdatapb.VEvent`, one constructor per event type with its payload. */
  datatype VEvent =
    | Gtid(gtid: string)
    | Begin
    | Commit
    | Rollback
    | Ddl(statement: string)
    | Other
    | RowEv(rowEvent: RowEvent)
    | FieldEv(fieldEvent: FieldEvent)
    | Heartbeat
    | Vgtid
    | Journal
    | Version
    | LastPK(lastPKEvent: LastPKEvent)

  /** A `binlogdatapb.VStreamRowsResponse`: one batch of the row-snapshot reader. */
  datatype RowsResponse = RowsResponse(
    fields: seq<Field>,
    pkfields: seq<Field>,
    gtid: string,
    rows: seq<Row>,
    lastpk: Row)

  /** The errors the streamer produces or passes on. */
  datatype Failure =
    | Downstream(code: nat)       // returned by the consumer's send
    | Reader(code: nat)           // returned by an external reader itself
    | NoCurrentPosition           // "could not obtain current position"
    | MalformedPosition           // "could not decode position"
    | PositionAhead               // "requested position ... is ahead of current position"
    | MissingResumeInput          // "Stream needs a position or a table to copy"
    | EmptyGtid                   // "empty gtid passed to setPosition"
    | MissingFieldEvent           // "expecting field event first"
    | FastForwardMismatch         // "position after fastforward was ... but stopPos was ..."
    | ContextCanceled             // ctx.Err() after cancellation
    | Wrapped(cause: Outcome, at: Mysql.Position)  // wrapError(err, pos): "stream error @ pos: err"

  /** A Go `error`: nil, `io.EOF`, or any other error. */
  datatype Outcome = Ok | Eof | Fail(failure: Failure)
}
