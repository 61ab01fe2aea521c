# NZXT Hue+ wire protocol, modelled in Dafny

This project models the core of `hueplus`, a Node.js driver for the NZXT Hue+
RGB LED controller (`src/index.ts`). The controller is reached over a serial
port. Two pieces of that file carry the device's protocol, and both are
modelled here:

- **The LED colour payload and frame encoder.** The `HuePlus` object keeps a
  120-entry colour payload: 40 LEDs of three bytes each, stored **green,
  red, blue**. `setLEDColour`, `setAllLEDColours` and `resetAllLEDColours`
  overwrite it in place after range checks. `update(channel, mode)` sends it
  behind the header `0x4B, channel, mode, 0x01, 0x02` as one 125-byte write,
  and only once the driver is connected.
- **The connection handshake.** After the port opens, `connect` starts a ping
  timer that writes the probe `0xC0` every tick and sends one probe at once.
  The first inbound chunk stops the timer and sends `0x8D 0x01`. After that,
  a chunk starting with `0xC0` is answered with `0x8C 0x00`. Otherwise a
  chunk ending in `0x56` marks the driver connected.

Modules, in dependency order:

| file | module | contents |
|---|---|---|
| base.dfy | `Base` | octets (`Byte`), `Option`, the driver's errors, `Result`, `Outcome` (returned or threw) |
| hex.dfy | `Hex` | `toString(16)`, the `Number("0x..")` parse, `replace("0x", "")`, `hexBufferEquals` |
| colour.dfy | `Colour` | JavaScript numbers as integer-or-NaN, `Colour`, `decColourToHex`, the octet `Buffer.from` makes of the `"0x.."` strings the driver builds |
| payload.dfy | `Payload` | the payload operations as functions on a 120-byte sequence, with their lemmas |
| frame.dfy | `Frame` | channel and mode codes, the 125-byte frame, its parser and the round trip |
| handshake.dfy | `Handshake` | the handshake as a state machine (`Step`, `Run`) and the lemmas about whole event traces |
| driver.dfy | `Driver` | class `HuePlus` (payload `array`, `connected`, the port as a log of written bytes) and class `DataHandler` (one `connect` call's timer flag, `sentInitData` and data handler), proved against the modules above |

Representation choices:

- The source keeps payload entries and header bytes as strings such as
  `"0xff"`, which `Buffer.from` turns into octets when they are sent. The
  model stores the octet each string becomes. `Colour.DecColourToHex`
  produces the string exactly as the source does and proves that its octet
  equals the input: there is no clamping.
- `hexBufferEquals` compares text: the byte's `toString(16)` against the
  literal with `0x` removed. `Hex.HexBufferEqualsByte` proves that this is a
  byte comparison for literals written without leading zeros, such as the
  two the handler uses (`"0xc0"`, `"0x56"`).
  `Hex.HexBufferEqualsPaddedLiteral` shows that a literal whose digits start
  with `0` matches only the byte 0 written as `"0x0"`, so a padded literal
  like `"0x0c"` matches no byte.
- A thrown exception is an `Outcome` of `Failed(error)`. A timer tick and an
  inbound chunk are events delivered one at a time.

`setLEDColour` is not atomic: it converts and stores green, red and blue one
at a time (src/index.ts:251-253), so an invalid red or blue throws after the
slot's earlier bytes have been written. `setAllLEDColours` then throws at
slot 0 and its loop stops (see `Payload.SetLEDColourPartialWrite` and
`Payload.SetAllLEDColoursInvalid`).

## Model

| member | source | states |
|---|---|---|
| `Hex.ParseToHex` | src/index.ts:41 | parsing the base-16 text `toString(16)` prints gives the number back |
| `Hex.ToHex` | src/index.ts:41 | `toString(16)` is never empty and starts with `0` only for zero (no leading zeros); `Hex.ParseToHex` gives its inverse |
| `Hex.Replace0x` | src/index.ts:47 | `replace("0x", "")` never lengthens its argument; `Hex.Replace0xFirst` and `Hex.Replace0xAbsent` say what it removes |
| `Hex.Replace0xFirst` | src/index.ts:47 | when the first `"0x"` starts at position i, exactly those two characters are removed and the rest is kept in order |
| `Hex.Replace0xAbsent` | src/index.ts:47 | a string without `"0x"` is returned unchanged |
| `Hex.HexBufferEquals` | src/index.ts:45-48 | when the test holds, the literal's digits denote the indexed byte; `Hex.HexBufferEqualsByte` gives the converse for unpadded literals |
| `Hex.ToHexInjective` | src/index.ts:47 | two numbers print the same base-16 text if and only if they are equal |
| `Hex.HexBufferEqualsByte` | src/index.ts:45-48 | for a literal `"0x"` + `toString(16)` of v, `hexBufferEquals` holds exactly when the indexed byte equals v |
| `Hex.HexBufferEqualsPaddedLiteral` | src/index.ts:47 | the comparison is textual: `"0x0"` followed by digits d matches exactly when the byte is 0 and d is empty, so `"0x0c"` matches no byte; `"0xc"` matches 0x0C |
| `Colour.DecColourToHex` | src/index.ts:39-42 | succeeds exactly for non-NaN values in 0..255 and otherwise throws the range error; on success the string reaches the wire (src/index.ts:141) as the input value itself |
| `Colour.WireByte` | src/index.ts:141 | `Buffer.from` turns a `"0x.."` element whose digits do not parse into 0 and one whose value fits a byte into that value |
| `Colour.WireByteOfHex` | src/index.ts:141 | the text `"0x"` + `toString(16)` of a natural reaches the wire as that natural modulo 256 (for naturals a JavaScript number holds exactly; the driver passes only 0..255) |
| `Payload.Zeros` | src/index.ts:73-119 | the initial payload is 120 zero bytes |
| `Payload.SetLEDColour` | src/index.ts:248-254 | the payload keeps length 120; the call returns normally exactly when the index is in 0..39 and all three components are valid; otherwise it throws the index error for a bad index and the colour error for a bad colour |
| `Payload.SetLEDColourWritesSlot` | src/index.ts:251-253 | a successful call puts green, red and blue at 3i, 3i+1 and 3i+2 and changes no other byte |
| `Payload.SetLEDColourRejectsIndex` | src/index.ts:249 | an index below 0, above 39 or NaN throws before any write |
| `Payload.SetLEDColourPartialWrite` | src/index.ts:251-253 | a bad colour throws after writing the slot's components that precede the first bad one, in the order green, red, blue |
| `Payload.SetAllUpToValid` | src/index.ts:257-261 | with a valid colour, after n loop steps the first n slots hold the colour and the rest are untouched |
| `Payload.SetAllLEDColoursUniform` | src/index.ts:257-261 | with a valid colour the payload becomes 40 repetitions of [green, red, blue] |
| `Payload.SetAllUpToStops` | src/index.ts:257-261 | once a `setLEDColour` call in the loop has thrown, no later slot is written |
| `Payload.SetAllLEDColours` | src/index.ts:257-261 | the payload keeps length 120; the loop returns normally exactly when the colour is valid, and otherwise throws the colour error (never the index error); `Payload.SetAllLEDColoursUniform` and `Payload.SetAllLEDColoursInvalid` give the payload |
| `Payload.SetAllLEDColoursInvalid` | src/index.ts:257-261 | with an invalid colour the loop throws at slot 0, leaving exactly what the failed `setLEDColour(0, c)` left |
| `Payload.ResetAllLEDColours` | src/index.ts:264-268 | the payload keeps length 120 and the call returns normally; `Payload.ResetAllLEDColoursZeros` gives its contents |
| `Payload.ResetAllLEDColoursZeros` | src/index.ts:264-268 | `resetAllLEDColours` returns normally and leaves 120 zero bytes |
| `Frame.ChannelOf` | src/index.ts:29-36 | a channel byte decodes exactly when it is 0x00, 0x01 or 0x02, and to the channel with that code |
| `Frame.ModeOf` | src/index.ts:21-26 | a mode byte decodes exactly when it is 0x00 or 0x07, and to the mode with that code |
| `Frame.BuildFrame` | src/index.ts:281-288 | the frame is the five header bytes followed by the payload verbatim; `Frame.FrameLayout` gives the header bytes and `Frame.ParseFrameOfFrame` its inverse |
| `Frame.FrameLayout` | src/index.ts:281-288 | the frame is 125 bytes: 0x4B, channel, mode, 0x01, 0x02, then the payload verbatim |
| `Frame.ParseFrameOfFrame` | src/index.ts:281-288 | channel, mode and payload are recovered from every frame |
| `Frame.FrameOfParseFrame` | src/index.ts:281-288 | every byte sequence that parses as a frame is the frame of what it parses to |
| `Frame.RedOnBothChannels` | src/index.ts:305-308 | all LEDs red, sent to both channels in fixed mode: channel 0x00, mode 0x00, payload 40 × [0x00, 0xFF, 0x00] |
| `Handshake.Opened` | src/index.ts:192-198 | once the port is open the ping timer runs, `sentInitData` is false and exactly one probe 0xC0 has been written; `connected` keeps its value |
| `Handshake.ProbeLiteral` | src/index.ts:226 | the handler's `"0xc0"` test is "first byte equals 0xC0" |
| `Handshake.ReadyLiteral` | src/index.ts:234 | the handler's `"0x56"` test is "last byte equals 0x56" |
| `Handshake.Step` | src/index.ts:192-241 | one timer tick or chunk: a tick changes no flag and writes 0xC0 exactly while the timer runs; the first chunk clears the timer, sets `sentInitData` and writes 0x8D 0x01; a later chunk keeps the timer, writes 0x8C 0x00 exactly when it starts with 0xC0 and otherwise nothing; the timer, once cleared, never restarts; `connected` becomes true exactly when it was or the chunk is a later one that does not start with 0xC0 and ends with 0x56 |
| `Handshake.RunAfterInit` | src/index.ts:225-240 | after the init command, the timer stays stopped; the only bytes written are one 0x8C 0x00 per chunk starting with 0xC0; `connected` ends true exactly when it was true or some chunk not starting with 0xC0 ends with 0x56 |
| `Handshake.RunTicksThen` | src/index.ts:192-196 | while the timer runs, n ticks write n probes 0xC0 and leave the state unchanged for the events that follow |
| `Handshake.RunFromFirstData` | src/index.ts:204-223 | the first chunk, whatever it holds, stops the timer, sets `sentInitData`, writes 0x8D 0x01 and does not set `connected` |
| `Handshake.EventsShape` | src/index.ts:192-241 | every sequence of ticks and chunks is either ticks only or n ticks, a first chunk and later events, so the two lemmas below cover all of them |
| `Handshake.Connect` | src/index.ts:182-198 | the first byte `connect` writes is the probe 0xC0, and a connected driver stays connected; `Handshake.ConnectTrace` and `Handshake.ConnectBeforeData` give its closed form |
| `Handshake.ConnectBeforeData` | src/index.ts:192-198 | before any data arrives, exactly one 0xC0 has been written plus one per tick, and nothing else changes |
| `Handshake.ConnectTrace` | src/index.ts:192-241 | whole handshake with a first chunk after n ticks: n + 1 probes, then 0x8D 0x01 exactly once, then 0x8C 0x00 per later chunk starting with 0xC0; the timer stays stopped; `connected` ends true exactly when it was already true or a later chunk not starting with 0xC0 ends with 0x56 |
| `Handshake.ConnectedStays` | src/index.ts:233-240 | over any run of events, `connected` never goes back to false |
| `Handshake.TypicalHandshake` | src/index.ts:192-241 | chunks [1], [0xC0], then a burst ending in 0x56: the port sees 0xC0, 0x8D 0x01, 0x8C 0x00 and the driver ends connected with the timer stopped |
| `Driver.HuePlus.constructor` | src/index.ts:73-122 | a new driver has an all-zero 120-byte payload, is not connected and has written nothing |
| `Driver.HuePlus.Send` | src/index.ts:139-155 | a write appends exactly the given bytes to what the port has seen |
| `Driver.HuePlus.Ping` | src/index.ts:158-161 | a ping writes the single byte 0xC0 |
| `Driver.HuePlus.Connect` | src/index.ts:182-198 | an open failure rejects and writes nothing; otherwise a fresh handler starts in the opened state, `connected` is unchanged, and one 0xC0 is written |
| `Driver.HuePlus.SetLEDColour` | src/index.ts:248-254 | the in-place array update leaves exactly the payload and outcome of `Payload.SetLEDColour` |
| `Driver.HuePlus.SetAllLEDColours` | src/index.ts:257-261 | the loop leaves exactly the payload and outcome of forty `setLEDColour` calls in order, stopping at the first throw |
| `Driver.HuePlus.ResetAllLEDColours` | src/index.ts:264-268 | the payload becomes 120 zero bytes |
| `Driver.HuePlus.Update` | src/index.ts:275-288 | not connected: rejects and writes nothing; connected: writes the frame of the current payload in one write, and the payload is untouched |
| `Driver.DataHandler.constructor` | src/index.ts:192-198 | a new handler has its ping interval set and `sentInitData` false |
| `Driver.DataHandler.Tick` | src/index.ts:192-195 | a timer tick is exactly one `Handshake.Step` on a tick event |
| `Driver.DataHandler.OnData` | src/index.ts:200-241 | the handler, using `hexBufferEquals` as the source does, performs exactly one `Handshake.Step` on the chunk: the same new flags and the same bytes written |
| `Driver.HandshakeThenUpdate` | src/index.ts:299-308 | the `test()` scenario on a new driver: with the device answering [1], [0xC0] and then a chunk ending in 0x56, the driver ends connected and the port has seen exactly 0xC0, 0x8D 0x01, 0x8C 0x00 followed by the frame for both channels in fixed mode with every LED red |

## Left out

- Serial I/O: constructing the `SerialPort` and its baud rate, `open`, `write`/`drain`, `close` and `resetPort`/`flush` are not modelled. Whether `open` fails is a parameter of `Driver.HuePlus.Connect`. A write always succeeds and appends to the log `sent`. `disconnect` only closes the port, so it is not modelled either.
- Driver.HuePlus.Update: does not model a rejected write or the `waitPeriod` (300 ms) sleep after a successful one. The `mode` argument has no default: callers pass `Fixed` explicitly.
- Timers: the 3000 ms interval period is not modelled. A timer tick is an abstract event (`Driver.DataHandler.Tick`), and clearing the interval is the flag `pinging` becoming false.
- Promises and interleaving: events are delivered strictly one after another. In the source `sentInitData` is set only after the awaited write, so two overlapping chunks could both take the init branch. That case is not modelled. For a single `connect` on a new driver, the promise resolving is represented by `connected` becoming true.
- Console logging, including the warning for a first byte other than 1, which changes no state.
- A second `connect` on the same driver is not modelled. `disconnect` (src/index.ts:164-179) never clears `connected`, so a second call would start with `connected` already true while its promise still waits for its own 0x56 chunk, and each call adds another "data" listener that is never removed, so later chunks would run through every handler installed so far. `Handshake.Connect` and `Driver.HuePlus.Connect` accept `connected` already true but then do not say when that call's promise resolves.
- The `test()` driver at the end of the file, apart from the scenario restated by `Frame.RedOnBothChannels` and `Driver.HandshakeThenUpdate`.
- JavaScript coercions: colour components and LED indices are integers or NaN (`Colour.JsNumber`). Fractional numbers and infinities are not modelled. Inbound chunks are never empty (`Handshake.Chunk`), since the port never delivers an empty one. A later empty chunk would throw inside `hexBufferEquals`.
- Colour.WireByte: models `Number` only for `"0x"` followed by hexadecimal digits worth at most 2^53, with no white space; the driver only builds `"0x"` plus one or two digits. The white-space trimming of `Number`, its rounding of longer literals, and `Number` of other strings are not modelled.
