/**
 The Kraken branch of the reader and its helper `parseKrakenPrices`.

 Object messages carrying an "event" other than "ticker" are control frames
 and are skipped. Otherwise only a message whose first character is '[' is
 looked at: it must be an array whose element 1 is an object, and the bid
 and ask are the first entries of the arrays under "b" and "a" in that
 object. A mid is sent only when both are strictly positive. Two operations
 are unguarded and panic: indexing an empty message, and asserting that the
 first entry under "b" or "a" is a string.
 */
module Kraken {
  import opened Json
  import opened Quotes

  /** What `parseKrakenPrices` returns, or `Panic` when one of its unchecked
      string assertions fails. */
  datatype TickerPrices = BidAsk(bid: real, ask: real) | Panic

  /** The price under one key of the ticker object: 0 when the key is
      missing, not an array, or an empty array; `parsePrice` of the first
      entry when that entry is a string; None when it is anything else
      (the unchecked assertion panics). */
  function LevelPrice(p: Parsers, ticker: map<string, Json>, key: string): (r: Option<real>)
    ensures r.None? <==> BadHead(ticker, key)
    ensures forall v :: HeadPrice(p, ticker, key, v) ==> r == Some(v)
    ensures r.Some? && r.value != 0.0 ==>
              key in ticker && ticker[key].JArray? && |ticker[key].items| > 0 && ticker[key].items[0].JString?
              && p.parseFloat(ticker[key].items[0].str) == Some(r.value)
  {
    if key in ticker && ticker[key].JArray? && |ticker[key].items| > 0 then
      match ticker[key].items[0]
      case JString(s) => Some(ParsePrice(p, s))
      case _ => None
    else
      Some(0.0)
  }

  /** `parseKrakenPrices`: the bid is read before the ask, so a bad bid entry
      panics before the ask is looked at; either way the call panics. */
  function ParseKrakenPrices(p: Parsers, ticker: map<string, Json>): (r: TickerPrices)
    ensures r.Panic? <==> LevelPrice(p, ticker, "b").None? || LevelPrice(p, ticker, "a").None?
    ensures r.BidAsk? ==> Some(r.bid) == LevelPrice(p, ticker, "b") && Some(r.ask) == LevelPrice(p, ticker, "a")
  {
    match LevelPrice(p, ticker, "b")
    case None => Panic
    case Some(bid) =>
      match LevelPrice(p, ticker, "a")
      case None => Panic
      case Some(ask) => BidAsk(bid, ask)
  }

  /** An object (or `null`, which leaves a nil map) whose "event" is
      "subscriptionStatus": the subscription acknowledgement. */
  predicate IsSubscriptionStatus(raw: Option<map<string, Json>>)
  {
    raw.Some? && "event" in raw.value && raw.value["event"] == JString("subscriptionStatus")
  }

  /** An object whose "event" is anything but the string "ticker". */
  predicate IsOtherEvent(raw: Option<map<string, Json>>)
  {
    raw.Some? && "event" in raw.value && raw.value["event"] != JString("ticker")
  }

  /** One message through the Kraken branch of `readPrices`. */
  function Decode(p: Parsers, message: string): (r: Outcome)
    ensures r.Price? ==> r.mid > 0.0
    ensures r.Price? ==> |message| > 0 && message[0] == '['
    ensures r.Price? ==> p.unmarshal(message).Some? && p.unmarshal(message).value.JArray?
    ensures r.Crash? ==> |message| == 0 || message[0] == '['
  {
    var parsed := p.unmarshal(message);
    var raw := UnmarshalMap(parsed);
    if IsSubscriptionStatus(raw) then Skip
    else if IsOtherEvent(raw) then Skip
    else if |message| == 0 then Crash
    else if message[0] != '[' then Skip
    else match UnmarshalSlice(parsed)
      case None => Skip
      case Some(rawArray) =>
        if |rawArray| < 2 then Skip
        else match rawArray[1]
          case JObject(tickerData) =>
            (match ParseKrakenPrices(p, tickerData)
             case Panic => Crash
             case BidAsk(bid, ask) =>
               if bid > 0.0 && ask > 0.0 then
                 MidPositive(bid, ask);
                 Price(Mid(bid, ask))
               else Skip)
          case _ => Skip
  }

  /** A control frame, stated on the decoded document: an object with an
      "event" that is not the string "ticker" ("subscriptionStatus",
      "heartbeat", "systemStatus", a non-string, ...). */
  predicate IsControlFrame(parsed: Option<Json>)
  {
    parsed.Some? && parsed.value.JObject? && "event" in parsed.value.fields
    && parsed.value.fields["event"] != JString("ticker")
  }

  /** The first entry of the array under `key` is a string the float parser
      reads as `price`. */
  predicate HeadPrice(p: Parsers, ticker: map<string, Json>, key: string, price: real)
  {
    && key in ticker && ticker[key].JArray? && |ticker[key].items| > 0 && ticker[key].items[0].JString?
    && p.parseFloat(ticker[key].items[0].str) == Some(price)
  }

  /** The first entry of the array under `key` exists and is not a string. */
  predicate BadHead(ticker: map<string, Json>, key: string)
  {
    key in ticker && ticker[key].JArray? && |ticker[key].items| > 0 && !ticker[key].items[0].JString?
  }

  /** A ticker frame as the branch accepts it, stated on the decoded document:
      a message starting with '[' that is an array whose element 1 is an
      object `t`, the first entries under `t["b"]` and `t["a"]` are strings
      the float parser reads as `bid` and `ask`, and both are positive. */
  predicate IsTicker(p: Parsers, message: string, bid: real, ask: real)
  {
    && |message| > 0 && message[0] == '['
    && match p.unmarshal(message)
       case Some(JArray(items)) =>
         && |items| >= 2
         && items[1].JObject?
         && HeadPrice(p, items[1].fields, "b", bid)
         && HeadPrice(p, items[1].fields, "a", ask)
         && bid > 0.0 && ask > 0.0
       case _ => false
  }

  /** A message on which the branch panics, stated on the decoded document:
      not a control frame, and either empty, or a '['-message that is an
      array whose element 1 is an object with a non-string first entry under
      "b" or under "a". */
  predicate Panics(p: Parsers, message: string)
  {
    && !IsControlFrame(p.unmarshal(message))
    && (|| |message| == 0
        || (&& message[0] == '['
            && match p.unmarshal(message)
               case Some(JArray(items)) =>
                 |items| >= 2 && items[1].JObject? && (BadHead(items[1].fields, "b") || BadHead(items[1].fields, "a"))
               case _ => false))
  }

  /** The map-decoding step classifies control frames exactly as
      `IsControlFrame` does; `null` carries no event. */
  lemma ControlFrameIff(parsed: Option<Json>)
    ensures IsSubscriptionStatus(UnmarshalMap(parsed)) || IsOtherEvent(UnmarshalMap(parsed)) <==> IsControlFrame(parsed)
  {
  }

  /** Control frames are skipped, whatever else they contain. */
  lemma ControlFrameSkipped(p: Parsers, message: string)
    requires IsControlFrame(p.unmarshal(message))
    ensures Decode(p, message) == Skip
  {
  }

  /** The decoder emits a price exactly for the messages `IsTicker` describes,
      and the price is their mid. */
  lemma DecodePriceIff(p: Parsers, message: string)
    ensures forall bid, ask :: IsTicker(p, message, bid, ask) ==> Decode(p, message) == Price(Mid(bid, ask))
    ensures Decode(p, message).Price? ==>
              exists bid, ask :: IsTicker(p, message, bid, ask) && Decode(p, message).mid == Mid(bid, ask)
  {
  }

  /** The decoder panics exactly on the messages `Panics` describes. */
  lemma CrashIff(p: Parsers, message: string)
    ensures Decode(p, message) == Crash <==> Panics(p, message)
  {
  }

  /** Every mid the branch sends lies between the bid and the ask it came from,
      and is positive. */
  lemma MidWithinQuote(p: Parsers, message: string, bid: real, ask: real)
    requires IsTicker(p, message, bid, ask)
    ensures Decode(p, message) == Price(Mid(bid, ask))
    ensures 0.0 < Decode(p, message).mid
    ensures bid <= ask ==> bid <= Decode(p, message).mid <= ask
    ensures ask <= bid ==> ask <= Decode(p, message).mid <= bid
  {
    DecodePriceIff(p, message);
    MidBetween(bid, ask);
    MidPositive(bid, ask);
  }

  /** An object message, including one with "event" equal to "ticker", never
      yields a price; unless it is empty, it is skipped. */
  lemma ObjectMessageSkipped(p: Parsers, message: string)
    requires p.unmarshal(message).Some? && p.unmarshal(message).value.JObject?
    requires |message| > 0
    ensures Decode(p, message) == Skip
  {
  }

  /** A missing, non-array or empty "b" or "a", a price that does not parse
      or parses to zero, or a negative bid or ask yields no price. */
  lemma MissingPriceSkipped(p: Parsers, message: string, items: seq<Json>, t: map<string, Json>)
    requires |message| > 0
    requires p.unmarshal(message) == Some(JArray(items))
    requires |items| >= 2 && items[1] == JObject(t)
    requires !BadHead(t, "b") && !BadHead(t, "a")
    requires LevelPrice(p, t, "b") == Some(0.0) || LevelPrice(p, t, "a") == Some(0.0)
             || (exists bid :: HeadPrice(p, t, "b", bid) && bid < 0.0)
             || (exists ask :: HeadPrice(p, t, "a", ask) && ask < 0.0)
    ensures Decode(p, message) == Skip
  {
  }

  /** The empty message panics at its first index, given that the library
      rejects empty input as the real JSON decoder does. */
  lemma EmptyMessageCrashes(p: Parsers)
    requires p.unmarshal([]) == None
    ensures Decode(p, []) == Crash
  {
  }

  /** A number as the first entry under "b" panics, whatever "a" holds. */
  lemma NonStringBidCrashes(p: Parsers, message: string, t: map<string, Json>, rest: seq<Json>)
    requires |message| > 0 && message[0] == '['
    requires p.unmarshal(message) == Some(JArray([JNumber("0"), JObject(t)] + rest))
    requires "b" in t && t["b"] == JArray([JNumber("100.5")])
    ensures Decode(p, message) == Crash
  {
  }
}
