/**
 The Binance branch of the reader: subscription acknowledgements are
 recognised first, then the message must be a JSON object whose top-level
 "b" and "a" are strings that parse to non-zero prices; the result is their
 mid price. The branch never panics.
 */
module Binance {
  import opened Json
  import opened Quotes

  /** `json.Unmarshal` into `BinanceResponse` succeeds with `ID == 1`. Only an
      object can fill the struct (`null` leaves `ID` at 0, anything else is an
      error), and the `int` field accepts the literal `1` and nothing else
      equal to one (`1.0` and `1e0` are errors for an `int`). */
  predicate IsSubscriptionAck(parsed: Option<Json>)
  {
    && parsed.Some?
    && parsed.value.JObject?
    && "id" in parsed.value.fields
    && parsed.value.fields["id"] == JNumber("1")
  }

  /** One message through the Binance branch of `readPrices`. */
  function Decode(p: Parsers, message: string): (r: Outcome)
    ensures !r.Crash?
    ensures IsSubscriptionAck(p.unmarshal(message)) ==> r == Skip
    ensures r.Price? ==> p.unmarshal(message).Some? && p.unmarshal(message).value.JObject?
  {
    var parsed := p.unmarshal(message);
    if IsSubscriptionAck(parsed) then Skip
    else match UnmarshalMap(parsed)
      case None => Skip
      case Some(raw) =>
        var bidStr, askStr := StringField(raw, "b"), StringField(raw, "a");
        if bidStr.None? || askStr.None? then Skip
        else
          var bid, ask := ParsePrice(p, bidStr.value), ParsePrice(p, askStr.value);
          if bid == 0.0 || ask == 0.0 then Skip
          else Price(Mid(bid, ask))
  }

  /** A quote as the Binance branch accepts it, stated on the decoded
      document: an object that is not an acknowledgement, whose top-level
      "b" and "a" are strings the float parser reads as `bid` and `ask`,
      neither of them zero. */
  predicate IsTicker(p: Parsers, message: string, bid: real, ask: real)
  {
    match p.unmarshal(message)
    case Some(JObject(f)) =>
      && !("id" in f && f["id"] == JNumber("1"))
      && "b" in f && f["b"].JString? && p.parseFloat(f["b"].str) == Some(bid)
      && "a" in f && f["a"].JString? && p.parseFloat(f["a"].str) == Some(ask)
      && bid != 0.0 && ask != 0.0
    case _ => false
  }

  /** The decoder emits a price exactly for the messages `IsTicker` describes,
      and the price is their mid. */
  lemma DecodePriceIff(p: Parsers, message: string)
    ensures forall bid, ask :: IsTicker(p, message, bid, ask) ==> Decode(p, message) == Price(Mid(bid, ask))
    ensures Decode(p, message).Price? ==>
              exists bid, ask :: IsTicker(p, message, bid, ask) && Decode(p, message).mid == Mid(bid, ask)
  {
  }

  /** Everything that is not such a ticker is skipped; nothing crashes. */
  lemma SkipIff(p: Parsers, message: string)
    ensures Decode(p, message) == Skip <==> forall bid, ask :: !IsTicker(p, message, bid, ask)
  {
    DecodePriceIff(p, message);
  }

  /** The acknowledgement test runs first: an object with `"id": 1` is skipped
      even when it also carries valid "b" and "a". */
  lemma AckWinsOverPrices(p: Parsers, message: string, f: map<string, Json>)
    requires p.unmarshal(message) == Some(JObject(f))
    requires "id" in f && f["id"] == JNumber("1")
    ensures Decode(p, message) == Skip
    ensures forall bid, ask :: !IsTicker(p, message, bid, ask)
  {
  }

  /** A message that is not an object, or whose top-level "b" or "a" is
      missing or not a string, yields no price. */
  lemma ShapeRequired(p: Parsers, message: string)
    requires
      || !(p.unmarshal(message).Some? && p.unmarshal(message).value.JObject?)
      || StringField(p.unmarshal(message).value.fields, "b").None?
      || StringField(p.unmarshal(message).value.fields, "a").None?
    ensures Decode(p, message) == Skip
  {
  }

  /** The price rule, for an object that is not an acknowledgement and has
      string "b" and "a": a parse failure or an exact zero on either side
      skips the message; any other pair, negative prices included, is
      emitted as its mid. */
  lemma PriceRule(p: Parsers, message: string, f: map<string, Json>, bidStr: string, askStr: string)
    requires p.unmarshal(message) == Some(JObject(f))
    requires !("id" in f && f["id"] == JNumber("1"))
    requires "b" in f && f["b"] == JString(bidStr)
    requires "a" in f && f["a"] == JString(askStr)
    ensures p.parseFloat(bidStr).None? || p.parseFloat(askStr).None? ==> Decode(p, message) == Skip
    ensures p.parseFloat(bidStr) == Some(0.0) || p.parseFloat(askStr) == Some(0.0) ==> Decode(p, message) == Skip
    ensures forall bid, ask :: p.parseFloat(bidStr) == Some(bid) && p.parseFloat(askStr) == Some(ask) && bid != 0.0 && ask != 0.0
              ==> Decode(p, message) == Price(Mid(bid, ask))
  {
  }

  /** Only zero is rejected: a bid of -1 and an ask of 1 pass both checks and
      send a mid of 0. */
  lemma OppositeSignsGiveZeroMid(p: Parsers, message: string)
    requires p.unmarshal(message) == Some(JObject(map["b" := JString("-1"), "a" := JString("1")]))
    requires p.parseFloat("-1") == Some(-1.0) && p.parseFloat("1") == Some(1.0)
    ensures Decode(p, message) == Price(0.0)
  {
  }

  /** A top-level ticker: bid 100.5 and ask 100.7 give a mid of 100.6. */
  lemma TopLevelQuote(p: Parsers, message: string)
    requires p.unmarshal(message) == Some(JObject(map["b" := JString("100.5"), "a" := JString("100.7")]))
    requires p.parseFloat("100.5") == Some(100.5) && p.parseFloat("100.7") == Some(100.7)
    ensures Decode(p, message) == Price(100.6)
  {
  }

  /** Prices nested under "data", as Binance's combined streams send them,
      are not looked for: such a message is skipped. */
  lemma NestedDataSkipped(p: Parsers, message: string, data: Json)
    requires p.unmarshal(message) == Some(JObject(map["data" := data]))
    ensures Decode(p, message) == Skip
  {
  }
}
