/**
 Values shared by every part of the model: options, results, sides, candles.

 Prices are `real`, times are integer milliseconds.
 */
module Market {

  datatype Option<+T> = None | Some(value: T)

  /** A Python call that either returns a value or raises. */
  datatype Result<+T> = Ok(value: T) | Raised(error: string)

  datatype Direction = Bullish | Bearish

  /** The supported timeframes; settings refuse any other. */
  datatype Timeframe = M15 | H1 | H4 | D1 {
    function DurationMs(): (ms: int)
      ensures ms > 0
    {
      match this
      case M15 => 900_000
      case H1 => 3_600_000
      case H4 => 14_400_000
      case D1 => 86_400_000
    }
  }

  /** One pair and one timeframe: the key of every per-series dictionary. */
  datatype SeriesKey = SeriesKey(symbol: string, timeframe: Timeframe)

  datatype CandleRecord = CandleRecord(
    key: SeriesKey, openTime: int, closeTime: int,
    open: real, high: real, low: real, close: real, volume: real, isClosed: bool)
  {
    /** The checks of `Candle.__post_init__`. */
    predicate Consistent() {
      && openTime <= closeTime
      && open <= high && close <= high
      && low <= open && low <= close
      && 0.0 <= volume
    }
  }

  /** Only consistent candles can be constructed. */
  type Candle = c: CandleRecord | c.Consistent()
    witness CandleRecord(SeriesKey("", M15), 0, 0, 0.0, 0.0, 0.0, 0.0, 0.0, true)

  /** A candle with positive prices, as the signal engine needs (it divides by them). */
  type PricedCandle = c: Candle | 0.0 < c.low
    witness CandleRecord(SeriesKey("", M15), 0, 0, 1.0, 1.0, 1.0, 1.0, 0.0, true)

  function Abs(x: real): real { if x < 0.0 then -x else x }

  function Sum(xs: seq<real>): real {
    if xs == [] then 0.0 else xs[0] + Sum(xs[1..])
  }

  /** Every value lies between two limits. */
  ghost predicate Between(values: seq<real>, low: real, high: real) {
    forall i :: 0 <= i < |values| ==> low <= values[i] <= high
  }

  function Max(x: real, y: real): real { if x < y then y else x }

  function Min(x: real, y: real): real { if y < x then y else x }

  /** Sort key for `key=lambda item: item.open_time`. */
  function OpenTimeOf(c: Candle): real { c.openTime as real }

  predicate ClosedCandle(c: Candle) { c.isClosed }
}
