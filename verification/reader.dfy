/**
 The `readPrices` loop for one venue. Each read either delivers a raw
 message or fails; a failed read ends the loop, a decoded price is sent on
 the channel, a skipped message is dropped, and a panic in a decoder ends
 the reader (and, since nothing recovers it, the whole process). The venue
 is chosen by name; a name other than "Binance" or "Kraken" matches no
 branch, so every message is dropped.

 The reads are given as a finite sequence of events. When the sequence runs
 out without a failed read or a panic the run is `Pending`: the loop would
 block in the next read.
 */
module Reader {
  import opened Json
  import opened Quotes
  import Binance
  import Kraken

  /** One call of `client.ReadMessage()`. */
  datatype Event = Msg(message: string) | ReadError

  /** Why the loop stopped. */
  datatype Stop = ReadFailed | Crashed | Pending

  /** The prices sent on the channel, in order, and why the loop stopped. */
  datatype Run = Run(prices: seq<real>, stop: Stop)

  /** The `switch exchange` of the loop body. */
  function DecodeFor(p: Parsers, exchange: string, message: string): (r: Outcome)
    ensures exchange != "Binance" && exchange != "Kraken" ==> r == Skip
    ensures exchange == "Binance" ==> !r.Crash?
    ensures exchange == "Kraken" && r.Price? ==> r.mid > 0.0
  {
    if exchange == "Binance" then Binance.Decode(p, message)
    else if exchange == "Kraken" then Kraken.Decode(p, message)
    else Skip
  }

  /** The loop of `readPrices` over the given reads. */
  function ReadPrices(p: Parsers, exchange: string, events: seq<Event>): (r: Run)
    ensures |r.prices| <= |events|
    ensures r.stop == ReadFailed ==> ReadError in events
    ensures r.stop == Pending ==> ReadError !in events
    decreases |events|
  {
    if |events| == 0 then Run([], Pending)
    else match events[0]
      case ReadError => Run([], ReadFailed)
      case Msg(message) =>
        match DecodeFor(p, exchange, message)
        case Crash => Run([], Crashed)
        case Skip => ReadPrices(p, exchange, events[1..])
        case Price(mid) =>
          var rest := ReadPrices(p, exchange, events[1..]);
          Run([mid] + rest.prices, rest.stop)
  }

  /** A read that ends the loop: a failed read, or a message whose decoder
      panics. */
  predicate Halts(p: Parsers, exchange: string, e: Event)
  {
    e.ReadError? || DecodeFor(p, exchange, e.message).Crash?
  }

  /** The position of the first read that ends the loop, or the number of
      reads when none does. */
  function StopIndex(p: Parsers, exchange: string, events: seq<Event>): (k: nat)
    ensures k <= |events|
    ensures forall i :: 0 <= i < k ==> !Halts(p, exchange, events[i])
    ensures k < |events| ==> Halts(p, exchange, events[k])
    decreases |events|
  {
    if |events| == 0 || Halts(p, exchange, events[0]) then 0
    else 1 + StopIndex(p, exchange, events[1..])
  }

  /** The mids of the messages that decode to a price, in read order. */
  function PricesOf(p: Parsers, exchange: string, events: seq<Event>): (prices: seq<real>)
    ensures |prices| <= |events|
    decreases |events|
  {
    if |events| == 0 then []
    else
      var rest := PricesOf(p, exchange, events[1..]);
      if events[0].Msg? && DecodeFor(p, exchange, events[0].message).Price?
      then [DecodeFor(p, exchange, events[0].message).mid] + rest
      else rest
  }

  /** The stop reason the read at the stop index implies. */
  function StopReason(p: Parsers, exchange: string, events: seq<Event>, k: nat): Stop
    requires k <= |events|
  {
    if k == |events| then Pending
    else if events[k].ReadError? then ReadFailed
    else Crashed
  }

  /** The loop sends exactly the prices of the messages read before the first
      read that ends it, in order, and stops for that read's reason. */
  lemma {:induction false} ReadPricesSpec(p: Parsers, exchange: string, events: seq<Event>)
    ensures ReadPrices(p, exchange, events)
            == Run(PricesOf(p, exchange, events[..StopIndex(p, exchange, events)]),
                   StopReason(p, exchange, events, StopIndex(p, exchange, events)))
    decreases |events|
  {
    if |events| > 0 && !Halts(p, exchange, events[0]) {
      var k := StopIndex(p, exchange, events);
      ReadPricesSpec(p, exchange, events[1..]);
      assert events[1..][..k - 1] == events[..k][1..];
    }
  }

  /** Reading in two stretches: the second stretch is read only when the
      first one neither failed nor panicked. */
  lemma {:induction false} ReadPricesAppend(p: Parsers, exchange: string, first: seq<Event>, second: seq<Event>)
    ensures ReadPrices(p, exchange, first + second)
            == (var r1 := ReadPrices(p, exchange, first);
                if r1.stop == Pending
                then Run(r1.prices + ReadPrices(p, exchange, second).prices, ReadPrices(p, exchange, second).stop)
                else r1)
    decreases |first|
  {
    if |first| > 0 {
      assert (first + second)[0] == first[0];
      assert (first + second)[1..] == first[1..] + second;
      ReadPricesAppend(p, exchange, first[1..], second);
    } else {
      assert first + second == second;
    }
  }

  /** Nothing after a failed read is read: whatever follows it, the run is the
      run up to and including that read, which did not end pending. */
  lemma NothingReadAfterError(p: Parsers, exchange: string, before: seq<Event>, after: seq<Event>)
    ensures ReadPrices(p, exchange, before + [ReadError] + after) == ReadPrices(p, exchange, before + [ReadError])
    ensures ReadPrices(p, exchange, before + [ReadError]).stop != Pending
  {
    ReadPricesAppend(p, exchange, before, [ReadError]);
    ReadPricesAppend(p, exchange, before + [ReadError], after);
  }

  /** A skipped message never stops the loop and leaves no trace: removing it
      from the reads changes nothing. */
  lemma SkippedMessageIgnored(p: Parsers, exchange: string, before: seq<Event>, message: string, after: seq<Event>)
    requires DecodeFor(p, exchange, message) == Skip
    ensures ReadPrices(p, exchange, before + [Msg(message)] + after) == ReadPrices(p, exchange, before + after)
  {
    ReadPricesAppend(p, exchange, before + [Msg(message)], after);
    ReadPricesAppend(p, exchange, before, [Msg(message)]);
    ReadPricesAppend(p, exchange, before, after);
  }

  /** An exchange name that matches neither branch sends nothing and never
      panics; the loop still reads until a read fails. */
  lemma {:induction false} UnknownExchangeSendsNothing(p: Parsers, exchange: string, events: seq<Event>)
    requires exchange != "Binance" && exchange != "Kraken"
    ensures ReadPrices(p, exchange, events).prices == []
    ensures ReadPrices(p, exchange, events).stop == (if ReadError in events then ReadFailed else Pending)
    decreases |events|
  {
    if |events| > 0 && events[0].Msg? {
      UnknownExchangeSendsNothing(p, exchange, events[1..]);
      assert ReadError in events <==> ReadError in events[1..];
    }
  }

  /** Every price the Kraken reader sends is positive. */
  lemma {:induction false} KrakenPricesPositive(p: Parsers, events: seq<Event>)
    ensures forall i :: 0 <= i < |ReadPrices(p, "Kraken", events).prices| ==> ReadPrices(p, "Kraken", events).prices[i] > 0.0
    decreases |events|
  {
    if |events| > 0 && events[0].Msg? {
      KrakenPricesPositive(p, events[1..]);
    }
  }

  /** The Binance reader never panics: it runs until a read fails or the reads
      run out. */
  lemma {:induction false} BinanceNeverCrashes(p: Parsers, events: seq<Event>)
    ensures ReadPrices(p, "Binance", events).stop != Crashed
    decreases |events|
  {
    if |events| > 0 && events[0].Msg? {
      BinanceNeverCrashes(p, events[1..]);
    }
  }
}
