/**
  The result records of the typing library (`@keybr/result`), reduced to what the
  practice session reads and writes: a finished lesson's record, its per-character
  histogram, and the sink that completed lessons are appended to.
*/
module Results {
  import opened Unicode
  import opened Preferences
  import opened TextInputs

  /** One entry of a record's per-character breakdown. */
  datatype HistogramSample = HistogramSample(codePoint: CodePoint, hitCount: nat, missCount: nat)

  /** An immutable record of one completed lesson. */
  datatype Result = Result(
    layout: Layout,
    textType: TextType,
    timeStamp: int,
    stats: Stats,
    histogram: seq<HistogramSample>)

  /** `Result.fromStats`: the record keeps the layout, text type, timestamp and
      statistics it is given; the per-character histogram is derived from the
      statistics by the result library and is left unconstrained here. */
  method FromStats(layout: Layout, textType: TextType, timeStamp: int, stats: Stats) returns (r: Result)
    ensures r.layout == layout && r.textType == textType
    ensures r.timeStamp == timeStamp && r.stats == stats
  {
    var histogram: seq<HistogramSample> := *;
    r := Result(layout, textType, timeStamp, stats, histogram);
  }

  /** The caller-supplied `appendResult` callback. Everything it receives is
      recorded, in order, in the ghost `log`. */
  class ResultSink {
    ghost var log: seq<Result>

    constructor ()
      ensures log == []
    {
      log := [];
    }

    method Append(result: Result)
      modifies this
      ensures log == old(log) + [result]
    {
      log := log + [result];
    }
  }
}
