/** Values shared by the bar store and by the code that feeds it. */
module Types {

  datatype Option<+T> = None | Some(value: T) {
    function GetOr(default: T): T {
      match this
      case Some(v) => v
      case None => default
    }
  }

  datatype Result<+T, +E> = Ok(value: T) | Err(error: E)

  /** Two price bases exist: exchange prices for ETFs, bid/ask mid prices for FX. */
  datatype Basis = NativeOhlc | BidAskMid

  datatype Ohlc = Ohlc(open: real, high: real, low: real, close: real) {
    /** Every price is positive, and high and low bound the other three. */
    predicate Valid() {
      && 0.0 < open && 0.0 < high && 0.0 < low && 0.0 < close
      && open <= high && low <= high && close <= high
      && low <= open && low <= close
    }
  }

  /** One quote side of a bar. ETF bars carry no quote sides. */
  datatype Side = Side(open: Option<real>, high: Option<real>, low: Option<real>, close: Option<real>)

  const NO_SIDE := Side(None, None, None, None)

  /** The fifteen fields that decide whether two observations of a bar agree. */
  datatype Content = Content(
    ohlc: Ohlc,
    bid: Side,
    ask: Side,
    volume: Option<real>,
    tradingState: Option<string>,
    isComplete: bool)

  /** A normalised bar. Times are whole seconds since the epoch; the payload hash is opaque. */
  datatype Bar = Bar(
    time: int,
    content: Content,
    basis: Basis,
    dataVersion: Option<int>,
    delayedByMinutes: Option<int>,
    retrievedAt: int,
    payload: string)

  predicate StrictlyIncreasing(times: seq<int>) {
    forall i, j :: 0 <= i < j < |times| ==> times[i] < times[j]
  }

  function Times(bars: seq<Bar>): (ts: seq<int>)
    ensures |ts| == |bars|
    ensures forall i :: 0 <= i < |bars| ==> ts[i] == bars[i].time
  {
    seq(|bars|, i requires 0 <= i < |bars| => bars[i].time)
  }
}
