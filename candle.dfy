/** The column names of an intraday candle table and the three column lists
    the reader builds from them (class CANDLE of google/intra.py). */
module Candle {

  const DATE: string := "Date"
  const OPEN: string := "Open"
  const HIGH: string := "High"
  const LOW: string := "Low"
  const CLOSE: string := "Close"
  const VOLUME: string := "Volume"

  /** No column name occurs twice. */
  predicate Distinct(names: seq<string>)
  {
    forall i, j | 0 <= i < j < |names| :: names[i] != names[j]
  }

  /** The four price columns, in table order. */
  function LstPrice(): (r: seq<string>)
    ensures |r| == 4 && Distinct(r)
    ensures VOLUME !in r && DATE !in r
  {
    [OPEN, HIGH, LOW, CLOSE]
  }

  /** The columns of the decoded table: the prices followed by the volume. */
  function Lst(): (r: seq<string>)
    ensures r == LstPrice() + [VOLUME]
    ensures Distinct(r) && DATE !in r
  {
    [OPEN, HIGH, LOW, CLOSE, VOLUME]
  }

  /** The columns of a raw provider row: the date token first, then the candle. */
  function LstAll(): (r: seq<string>)
    ensures r == [DATE] + Lst()
    ensures Distinct(r)
  {
    [DATE, OPEN, HIGH, LOW, CLOSE, VOLUME]
  }
}
