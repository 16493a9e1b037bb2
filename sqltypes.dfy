/**
 * The slice of `sqltypes` and `querypb` that the copy phase touches: column
 * descriptors, SQL values, and the wire form of a row, in which the lengths of
 * the values (-1 for NULL) are kept apart from their concatenated bytes.
 * Value types are not modelled: a value is NULL or its raw bytes.
 */
module Sqltypes {
  /** A `querypb.Field`: a column name and its type name. */
  datatype Field = Field(name: string, typ: string)

  /** A `sqltypes.Value`. */
  datatype Value = Null | Bytes(raw: string)

  /** A `querypb.Row`. */
  datatype Row = Row(lengths: seq<int>, values: string)

  /** A `querypb.QueryResult`. */
  datatype QueryResult = QueryResult(fields: seq<Field>, rows: seq<Row>)

  /** `sqltypes.RowToProto3`: one length per value, the non-NULL bytes concatenated in order. */
  function RowToProto3(row: seq<Value>): (r: Row)
    ensures |r.lengths| == |row|
  {
    if row == [] then Row([], "")
    else
      var rest := RowToProto3(row[1..]);
      match row[0]
      case Null => Row([-1] + rest.lengths, rest.values)
      case Bytes(b) => Row([|b|] + rest.lengths, b + rest.values)
  }

  /**
   * `sqltypes.MakeRowTrusted`: split the bytes back by the lengths. A length
   * that overruns the bytes takes what is left (the library would panic).
   */
  function MakeRowTrusted(row: Row): (vals: seq<Value>)
    ensures |vals| == |row.lengths|
    decreases |row.lengths|
  {
    if row.lengths == [] then []
    else if row.lengths[0] < 0 then [Null] + MakeRowTrusted(Row(row.lengths[1..], row.values))
    else
      var n := if row.lengths[0] <= |row.values| then row.lengths[0] else |row.values|;
      [Bytes(row.values[..n])] + MakeRowTrusted(Row(row.lengths[1..], row.values[n..]))
  }

  /** Converting a row to its wire form and back is lossless. */
  lemma {:induction false} RowRoundTrip(row: seq<Value>)
    ensures MakeRowTrusted(RowToProto3(row)) == row
  {
    if row != [] {
      RowRoundTrip(row[1..]);
      var rest := RowToProto3(row[1..]);
      match row[0]
      case Null =>
        assert RowToProto3(row) == Row([-1] + rest.lengths, rest.values);
        assert ([-1] + rest.lengths)[1..] == rest.lengths;
      case Bytes(b) =>
        assert RowToProto3(row) == Row([|b|] + rest.lengths, b + rest.values);
        assert ([|b|] + rest.lengths)[1..] == rest.lengths;
        assert (b + rest.values)[..|b|] == b;
        assert (b + rest.values)[|b|..] == rest.values;
    }
  }
}
