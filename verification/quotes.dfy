/**
 What a venue decoder makes of one raw message, and the two numeric helpers
 both venues share: `parsePrice` and the mid price `(bid + ask) / 2`.
 */
module Quotes {
  import opened Json

  /** The fate of one message: a mid price sent on the channel, a message
      skipped (the loop reads the next one), or a run-time panic. Nothing in
      the reader recovers from a panic, so it ends the whole process. */
  datatype Outcome = Price(mid: real) | Skip | Crash

  /** `parsePrice`: the parsed value, or 0 when the library reports an error. */
  function ParsePrice(p: Parsers, priceStr: string): (price: real)
    ensures p.parseFloat(priceStr).None? ==> price == 0.0
    ensures p.parseFloat(priceStr).Some? ==> price == p.parseFloat(priceStr).value
    ensures price != 0.0 ==> p.parseFloat(priceStr) == Some(price)
  {
    match p.parseFloat(priceStr)
    case Some(v) => v
    case None => 0.0
  }

  /** The average of bid and ask, as both venues compute it. */
  function Mid(bid: real, ask: real): real
  {
    (bid + ask) / 2.0
  }

  /** The mid lies between the two prices it averages, whichever is larger. */
  lemma MidBetween(bid: real, ask: real)
    ensures bid <= ask ==> bid <= Mid(bid, ask) <= ask
    ensures ask <= bid ==> ask <= Mid(bid, ask) <= bid
    ensures bid < ask ==> bid < Mid(bid, ask) < ask
  {
  }

  /** The mid of two positive prices is positive. */
  lemma MidPositive(bid: real, ask: real)
    requires bid > 0.0 && ask > 0.0
    ensures Mid(bid, ask) > 0.0
  {
  }
}
