# Quote decoding in the HFT arbitrage service

This project models, in Dafny, the part of the Go service that turns raw
WebSocket messages from two exchanges into mid prices: the `readPrices` loop
of `ArbitrageService` with its Binance and Kraken branches, and the helpers
`parseKrakenPrices` and `parsePrice` (all in
`internal/services/arbitrage.go`).

For each message the loop runs a chain of checks. A message either becomes
one mid price `(bid + ask) / 2`, which is sent on the venue's channel, or it
is skipped, or it panics. A failed read ends the loop.

- `json.dfy` (module `Json`): the decoded JSON value and the two library
  calls. `json.Unmarshal` into `interface{}` and `strconv.ParseFloat` are the
  function-typed fields of `Parsers`. The decoder fails on text that is not
  JSON, and also on any number literal outside the float64 range. Nothing
  else constrains them, so every property holds whatever text the library
  accepts. Numbers keep their literal text. This
  lets the `ID int` field of `BinanceResponse` be modelled exactly: only the
  literal `1` decodes to `ID == 1`. Go rejects `1.0` or `1e0` for an `int`.
  `UnmarshalMap` and `UnmarshalSlice` model unmarshalling into
  `map[string]interface{}` and `[]interface{}` on top of that decoding. Both
  accept `null` and leave a nil map or slice. Decoding into
  `BinanceResponse` skips unknown keys instead of converting them. It can
  therefore succeed where the generic decoding fails on an out-of-range
  number. The Binance branch skips such a message on both routes, so the
  model treats the two the same.
- `quotes.dfy` (module `Quotes`): the per-message `Outcome`
  (`Price(mid) | Skip | Crash`), `parsePrice` and the mid.
- `binance.dfy` (module `Binance`): the Binance branch.
- `kraken.dfy` (module `Kraken`): the Kraken branch and `parseKrakenPrices`.
- `reader.dfy` (module `Reader`): the loop. `ReadPrices` is a fold over a
  finite sequence of reads, each either `Msg(message)` or `ReadError`. It
  returns the prices sent, in order, and why the loop stopped. A loop that
  runs out of reads is `Pending`: the real loop would block in its next read.

Every decoder has an independent declarative description of what it
accepts: `IsTicker`, plus `Panics` for Kraken. Lemmas prove that the decoder
matches that description in both directions. The loop likewise has a
declarative description: the prices of the messages read before the first
failed read or panic (`StopIndex`, `PricesOf`). `ReadPricesSpec` proves the
fold equal to it.

## Behaviour worth knowing

- There is no arbitrage decision in the code. `cmd/main.go:32` passes a
  threshold to `NewArbitrageService`, but the constructor at
  arbitrage.go:41 takes only the two clients. `Start` (arbitrage.go:49-76)
  only logs the prices it receives, and no spread is compared anywhere.
- The unused `BinanceTickerMessage` type (arbitrage.go:10-16) nests `b` and
  `a` under `data`. The Binance branch reads them at the top level instead
  (arbitrage.go:114-115). A message with the prices nested under `"data"` is
  skipped (`Binance.NestedDataSkipped`).
- Binance rejects only an exact zero (arbitrage.go:126). It sends negative
  mids, and a mid of 0 for bid -1 and ask 1
  (`Binance.OppositeSignsGiveZeroMid`). Kraken requires both prices to be
  strictly positive (arbitrage.go:177).
- The Kraken branch panics in two places: on an empty message, at
  `message[0]` (arbitrage.go:157), and when the first entry under `"b"` or
  `"a"` is not a string, at the unchecked `.(string)` (arbitrage.go:193,
  196). See `Kraken.CrashIff`. Nothing recovers the panic, so it ends the
  whole process, not just the Kraken reader.

## Model

| member | source | states |
|---|---|---|
| Quotes.ParsePrice | internal/services/arbitrage.go:203-210 | a successful parse returns the parsed value and a parse error gives 0, so 0 is the only value that can hide a failure |
| Quotes.MidBetween | internal/services/arbitrage.go:133 | the average `(bid + ask) / 2` lies between bid and ask, strictly when they differ |
| Quotes.MidPositive | internal/services/arbitrage.go:177-178 | the mid of two positive prices is positive |
| Binance.Decode | internal/services/arbitrage.go:92-138 | the Binance branch never panics, skips every subscription acknowledgement, and sends a price only for a JSON object |
| Binance.DecodePriceIff | internal/services/arbitrage.go:104-137 | a price is sent exactly when the message is a non-acknowledgement object whose top-level string "b" and "a" parse to non-zero prices, and the price is their mid |
| Binance.SkipIff | internal/services/arbitrage.go:96-129 | every message that is not such a ticker is skipped |
| Binance.AckWinsOverPrices | internal/services/arbitrage.go:96-101 | an object with "id" equal to 1 is skipped even when it carries valid "b" and "a" |
| Binance.ShapeRequired | internal/services/arbitrage.go:104-120 | a message that is not an object, or lacks a string top-level "b" or "a", is skipped |
| Binance.PriceRule | internal/services/arbitrage.go:123-137 | an unparsable or zero bid or ask skips the message; any other pair, negative prices included, sends its mid |
| Binance.OppositeSignsGiveZeroMid | internal/services/arbitrage.go:124-137 | bid -1 and ask 1 pass the zero check and send a mid of 0 |
| Binance.TopLevelQuote | internal/services/arbitrage.go:112-137 | top-level "b" 100.5 and "a" 100.7 send 100.6 |
| Binance.NestedDataSkipped | internal/services/arbitrage.go:112-120 | prices nested under "data" are not found and the message is skipped |
| Kraken.LevelPrice | internal/services/arbitrage.go:192-197 | reading one side panics exactly when the first entry of its array is not a string; a string first entry that parses yields its parsed value; a non-zero price is always the parse of that first entry |
| Kraken.ParseKrakenPrices | internal/services/arbitrage.go:188-200 | the call panics when either side panics, and otherwise returns both sides' prices, 0 for a missing or empty array |
| Kraken.Decode | internal/services/arbitrage.go:140-182 | every mid sent by the Kraken branch is positive and comes from a message starting with '[' that decodes to an array; a panic happens only on an empty or '['-initial message |
| Kraken.ControlFrameIff | internal/services/arbitrage.go:141-154 | the two event checks together skip exactly the objects whose "event" is anything but the string "ticker"; `null` carries no event |
| Kraken.ControlFrameSkipped | internal/services/arbitrage.go:142-153 | "subscriptionStatus" and every other non-ticker event are skipped |
| Kraken.DecodePriceIff | internal/services/arbitrage.go:156-181 | a price is sent exactly for a '['-message that is an array whose element 1 is an object with positive string-parsed first entries under "b" and "a", and the price is their mid |
| Kraken.CrashIff | internal/services/arbitrage.go:157-197 | the branch panics exactly on a non-control message that is empty, or an array ticker whose first "b" or "a" entry is not a string |
| Kraken.MidWithinQuote | internal/services/arbitrage.go:176-181 | the mid sent lies between the bid and the ask and is positive |
| Kraken.ObjectMessageSkipped | internal/services/arbitrage.go:141-162 | a non-empty object message, including one with "event" equal to "ticker", never yields a price |
| Kraken.MissingPriceSkipped | internal/services/arbitrage.go:176-199 | a missing, non-array or empty price array, a price that does not parse or parses to zero, or a negative bid or ask yields no price |
| Kraken.EmptyMessageCrashes | internal/services/arbitrage.go:157 | an empty message panics when the library rejects empty input |
| Kraken.NonStringBidCrashes | internal/services/arbitrage.go:192-193 | a number as the first "b" entry panics, whatever "a" holds |
| Reader.DecodeFor | internal/services/arbitrage.go:91-183 | an exchange name other than "Binance" or "Kraken" skips every message; the Binance branch never panics; the Kraken branch sends only positive mids |
| Reader.ReadPrices | internal/services/arbitrage.go:79-185 | at most one price is sent per read; the loop stops on a failed read only when a read failed, and ends pending only when no read failed |
| Reader.ReadPricesSpec | internal/services/arbitrage.go:82-183 | the loop sends, in read order, exactly the prices of the messages read before the first failed read or panic, and stops for that read's reason |
| Reader.ReadPricesAppend | internal/services/arbitrage.go:82-87 | later reads happen only when the earlier ones neither failed nor panicked, and their prices follow the earlier ones |
| Reader.NothingReadAfterError | internal/services/arbitrage.go:83-87 | nothing after a failed read is read or sent |
| Reader.SkippedMessageIgnored | internal/services/arbitrage.go:96-153 | a skipped message neither stops the loop nor changes what it sends |
| Reader.UnknownExchangeSendsNothing | internal/services/arbitrage.go:91-183 | with an unknown exchange name nothing is sent and the loop runs until a read fails |
| Reader.KrakenPricesPositive | internal/services/arbitrage.go:176-181 | every price the Kraken reader sends is positive |
| Reader.BinanceNeverCrashes | internal/services/arbitrage.go:92-138 | the Binance reader never panics |

## Left out

- WebSocket clients (`binance_client.go`, `kraken_client.go`): dialling, ping/pong handling, subscription messages and the `btcusdt` to `XBT/USD` rename are network I/O. Reads enter the model as a given sequence of events.
- `Start` (arbitrage.go:49-76): a `select` loop over two channels that only logs. Concurrency and the blocking channel send are not modelled. A sent price is appended to the output.
- Process wiring (`cmd/main.go`, `market_data.go`) and the `ExchangeClient` interface carry no logic. The interface also lacks the `ReadMessage` method that the loop calls.
- The second `parsePrice` in `utils.go` has the same zero-on-error behaviour. It is modelled once, from arbitrage.go.
- `json.Unmarshal` and `strconv.ParseFloat` are parameters, not implementations. Float semantics are not modelled: NaN and infinities, and rounding of `(bid + ask) / 2`. Prices are reals.
- Binance.IsSubscriptionAck: Go matches struct field names case-insensitively, so keys such as "ID" or "Id" also fill `BinanceResponse.ID`. The model checks only the key "id".
- Binance.IsSubscriptionAck: repeated keys are not modelled. The model sees only the last value of each key, as the generic decoding keeps it. The struct decoding treats a later `null` for "id" as a no-op, and it keeps an earlier decode error even after a later "id" decodes. So `{"id":1,"id":null,"b":"1","a":"2"}` is an acknowledgement in Go but sends 1.5 in the model. And `{"id":1.5,"id":1,"b":"1","a":"2"}` sends 1.5 in Go but is skipped in the model.
- All logging, and the unused `BinanceTickerMessage` and `KrakenTickerMessage` types.
- The loop over an endless connection is modelled over a finite sequence of reads. A run that exhausts the sequence is reported as `Pending`, not as an end of stream.
- A panic ends the whole Go process, because no `recover` exists in `readPrices` or in the goroutines of `Start` (arbitrage.go:54-65). The model ends only the panicking reader's run (`Crashed`). It does not model the other reader being stopped too.
- Messages are `[]byte` in Go (`kraken_client.go:75-77`) but strings in the model. Payloads that are not valid UTF-8 cannot be represented.
