/**
 * The tables the two scripts pass around (pandas DataFrames), restricted to
 * the columns the demo generator writes except the floating-point metric_D:
 * date, user_id, variant, metric_C and conversions.
 */
module Frames {
  import opened Calendar

  /** One generated record; `variant` is the text written to the column. */
  datatype Row = Row(date: Date, userId: string, variant: string, metricC: int, conversions: int)

  /** A DataFrame: its row labels (`index`) and its rows, in order. */
  datatype Frame = Frame(index: seq<int>, rows: seq<Row>)

  /** The labels of a default RangeIndex: 0, 1, ..., n - 1. */
  function RangeIndex(n: nat): (labels: seq<int>)
    ensures |labels| == n
    ensures forall k :: 0 <= k < n ==> labels[k] == k
  {
    seq(n, k => k)
  }

  /** `pd.DataFrame(records)`: the records, in order, labelled 0 .. n - 1. */
  function FromRecords(records: seq<Row>): (f: Frame)
    ensures f.rows == records
    ensures |f.index| == |records| && forall k :: 0 <= k < |records| ==> f.index[k] == k
  {
    Frame(RangeIndex(|records|), records)
  }
}
