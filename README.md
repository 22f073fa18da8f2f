# Embedded32 J1939 SDK — a verified model of the codec and the client

Embedded32 ships two SDKs, one in C and one in Python, that speak SAE J1939
over CAN. Each SDK has two parts:

- a **codec**. It splits a 29-bit extended CAN identifier into priority,
  PGN, source and destination address, and builds one back. It names a
  PGN from a ten-entry registry and decodes the payload of seven PGNs
  (EEC1, ET1, ETC1, Proprietary Transmission Status, Request, Engine
  Control Command, DM1) into named signals. It also encodes payloads and
  frames.
- a **client**. It holds a source address and a connected flag, keeps a
  table of PGN subscriptions, sends Request, raw and engine-control
  frames, and dispatches each received frame to the handlers subscribed
  to its PGN.

The model follows the source file by file:

| file | module | form |
|---|---|---|
| `bits.dfy` | `Bits` | bitwise or on naturals, little-endian byte helpers |
| `j1939.dfy` | `J1939` | PGN and address constants, the parsed-identifier record, the C error codes |
| `c_codec.dfy` | `CCodec` | `e32_codec.c`: pure identifier codec; the C frame and message structs as classes over arrays, filled in place |
| `c_client.dfy` | `CClient` | `e32_j1939.c`: the client as a class with a 16-slot subscription array updated in place |
| `py_format.dfy` | `PyFormat` | Python's `f"{x:04X}"` and `str(x)` for integers, each with a reader that recovers the number |
| `py_codec.dfy` | `PyCodec` | `codec.py`: pure functions; `encode_pgn_data`'s bytearray as a method over an array |
| `py_client.dfy` | `PyClient` | `client.py`: the client as a class whose handler dict is a `map<int, set<HandlerId>>` field |

Modelling conventions:

- A C `|` of shifted fields is the recursive `Bits.Or` on naturals. Where
  the fields do not overlap, a lemma turns it into a sum. Shifts and masks
  are `/` and `%`. Dafny's `/` and `%` are Euclidean, so they agree with
  Python's `>>` and `&` with a positive mask, negative integers included.
- Speeds (`raw * 0.125`) are exact reals. Every such product is exact in
  the source too, because the raw value is at most 16 bits.
- A Python exception is a `Failure` value carrying the exception's class
  and message. Handler callables, C function pointers and user-data
  pointers are opaque numbers, compared by identity.
- The clock (`time.time()`) is a parameter `now`. A transport's `send` is
  an append to the client's `sent` list. The C send operations return the
  frame they would hand to the transport.

Two behaviours of the source worth stating:

- **C dispatch fans out.** `e32_j1939_dispatch_frame` calls every active
  slot whose PGN matches, in slot order. It does not stop at the first
  match. `CClient.Client.DispatchFrame` returns that whole list of calls.
  `CClient.OffThenDispatch` shows what this means for unsubscribing:
  `e32_j1939_off_pgn` deactivates only the first matching slot, so a PGN
  with two subscribers still reaches the second one
  (`embedded32-sdk-c/src/e32_j1939.c:318-324`).
- **EEC1 torque** is the unsigned byte minus 125, in both SDKs, so it
  ranges over -125..130. It is not the byte read as signed
  (`embedded32-sdk-c/src/e32_codec.c:182-190`).

## Model

| member | source | states |
|---|---|---|
| CCodec.ParseId | embedded32-sdk-c/src/e32_codec.c:41-70 | every field fits its width: priority below 8, addresses one byte, PGN 16 bits |
| CCodec.ParseIdSpec | embedded32-sdk-c/src/e32_codec.c:41-70 | priority is bits 26-28 and the source address is bits 0-7; PF below 240 gives a PDU1 PGN with PS as destination, otherwise a PDU2 PGN with PS in its low byte and destination 0xFF |
| CCodec.BuildId | embedded32-sdk-c/src/e32_codec.c:72-96 | the identifier fits in 29 bits |
| CCodec.BuildIdSpec | embedded32-sdk-c/src/e32_codec.c:72-96 | the identifier is priority mod 8 at bit 26, the PGN's PF at bit 16, the destination (PDU1) or the PGN's low byte (PDU2) at bit 8, plus the source address |
| CCodec.IdLayout | embedded32-sdk-c/src/e32_codec.c:85-93 | each of the four fields reads back from its own bits, and the two data-page bits are clear |
| CCodec.ParseFields | embedded32-sdk-c/src/e32_codec.c:41-70 | an identifier assembled from four fields parses to exactly those fields, PDU1 or PDU2 by its PF |
| CCodec.IdOr | embedded32-sdk-c/src/e32_codec.c:82-93 | or-ing the four shifted fields equals their sum |
| CCodec.ParseBuild | embedded32-sdk-c/src/e32_codec.c:41-96 | parsing a built identifier returns priority mod 8, the source address, and for PDU1 the PGN rounded down to PF<<8 with the destination, for PDU2 the PGN with destination 0xFF |
| CCodec.BuildParse | embedded32-sdk-c/src/e32_codec.c:41-96 | every 29-bit identifier with clear EDP and DP bits is rebuilt exactly from its parse |
| CCodec.BuildIgnoresDestination | embedded32-sdk-c/src/e32_codec.c:85-91 | for a PDU2 PGN the destination argument has no effect |
| CCodec.PgnDatabaseDistinct | embedded32-sdk-c/src/e32_codec.c:23-35 | no PGN appears twice in the name table |
| CCodec.FindName | embedded32-sdk-c/src/e32_codec.c:102-110 | the first entry with the PGN gives the name; no entry gives "Unknown" |
| CCodec.GetPgnNameSpec | embedded32-sdk-c/src/e32_codec.c:102-110 | each of the ten registered PGNs gets its own table name; every other PGN gets "Unknown" |
| CCodec.Dm1Spn | embedded32-sdk-c/src/e32_codec.c:226 | the 19-bit SPN has bytes 2-3 as its low 16 bits and the top three bits of byte 4 above them |
| CCodec.DecodeSpns | embedded32-sdk-c/src/e32_codec.c:181-235 | at most three signals; none for an empty payload or a PGN outside the seven decoded ones |
| CCodec.DecodeSpnsRanges | embedded32-sdk-c/src/e32_codec.c:181-235 | each integer signal lies in its range: torque -125..130, coolant -40..215, gear and lamp status one byte, requested PGN 24 bits, target RPM 16 bits, SPN 19 bits, FMI 5 bits |
| CCodec.Dm1Layout | embedded32-sdk-c/src/e32_codec.c:223-229 | a DM1 payload packed from lamp status, SPN and FMI decodes back to exactly those three values |
| CCodec.CanFrame.constructor | embedded32-sdk-c/src/e32_codec.c:253 | a zeroed frame: identifier, length, timestamp and eight data bytes all zero |
| CCodec.CanFrame.Reset | embedded32-sdk-c/src/e32_codec.c:253 | every field and all eight data bytes are zero again, in the same buffer |
| CCodec.Message.constructor | embedded32-sdk-c/src/e32_codec.c:160 | a message with no signals and no raw bytes |
| CCodec.Message.Clear | embedded32-sdk-c/src/e32_codec.c:159-160 | every signal slot and raw byte is zero again |
| CCodec.Message.SetHeader | embedded32-sdk-c/src/e32_codec.c:166-171 | the header fields are those of the parsed identifier, the name and the frame timestamp |
| CCodec.Message.CopyRaw | embedded32-sdk-c/src/e32_codec.c:173-175 | the first dlc raw bytes are the frame's and the rest stay zero |
| CCodec.Message.AddSpn | embedded32-sdk-c/src/e32_codec.c:116-144 | below eight signals the signal is appended; at eight it is dropped silently |
| CCodec.DecodeFrame | embedded32-sdk-c/src/e32_codec.c:150-238 | always Ok; the message carries the parsed header, the table name, the frame timestamp, the first dlc bytes zero-padded, and exactly the signals the PGN's rule gives |
| CCodec.AppendSignals | embedded32-sdk-c/src/e32_codec.c:181-235 | the signals appended are exactly the PGN's decoding rule applied to the payload |
| CCodec.AppendEec1 | embedded32-sdk-c/src/e32_codec.c:182-190 | the EEC1 rule: engine speed then torque, each only when its bytes are present |
| CCodec.AppendEtc1 | embedded32-sdk-c/src/e32_codec.c:198-207 | the ETC1 and proprietary rule: output shaft speed then gear, each only when its bytes are present |
| CCodec.AppendEngineControl | embedded32-sdk-c/src/e32_codec.c:216-221 | the engine control rule: target RPM and enable flag from three bytes |
| CCodec.AppendDm1 | embedded32-sdk-c/src/e32_codec.c:223-230 | the DM1 rule: lamp status, SPN and FMI from five bytes |
| CCodec.RequestPayload | embedded32-sdk-c/src/e32_codec.c:259-261 | three bytes holding the requested PGN's low 24 bits little-endian |
| CCodec.EngineControlPayload | embedded32-sdk-c/src/e32_codec.c:278-285 | target RPM little-endian, enable as 0 or 1, the fault flags, then four 0xFF bytes |
| CCodec.EncodeRequest | embedded32-sdk-c/src/e32_codec.c:244-262 | a Request frame at priority 6 to the destination, length 3, extended, the payload then zeros |
| CCodec.EncodeEngineControl | embedded32-sdk-c/src/e32_codec.c:264-286 | an Engine Control Command frame at priority 6 to 0xFF, length 8, extended |
| CCodec.WriteRequest | embedded32-sdk-c/src/e32_codec.c:259-261 | the zeroed payload gets the Request bytes and keeps five zeros after them |
| CCodec.WriteEngineControl | embedded32-sdk-c/src/e32_codec.c:278-285 | the payload is exactly the engine control bytes |
| CCodec.RequestRoundTrip | embedded32-sdk-c/src/e32_codec.c:209-213 | an encoded Request parses to PGN 0xEA00 with its addresses and decodes to the requested PGN mod 2^24 |
| CCodec.EngineControlRoundTrip | embedded32-sdk-c/src/e32_codec.c:216-221 | an encoded engine command parses back to its header and decodes to its target RPM and enable flag |
| CClient.ActiveCount | embedded32-sdk-c/src/e32_j1939.c:21-36 | the number of active slots, never more than the table size |
| CClient.FirstFree | embedded32-sdk-c/src/e32_j1939.c:144-151 | every slot before it is active and the slot at it is free |
| CClient.FirstMatch | embedded32-sdk-c/src/e32_j1939.c:164-170 | no slot before it is active with the PGN and the slot at it is |
| CClient.Matching | embedded32-sdk-c/src/e32_j1939.c:318-324 | at most one call per slot |
| CClient.ActiveCountUpdate | embedded32-sdk-c/src/e32_j1939.c:144-170 | rewriting one slot changes the active count by its change of flag |
| CClient.FullIffCounted | embedded32-sdk-c/src/e32_j1939.c:144-155 | no slot is free exactly when every slot is counted as active |
| CClient.MatchingMember | embedded32-sdk-c/src/e32_j1939.c:318-324 | a call is made exactly when some active slot with the PGN holds that handler and user data |
| CClient.MatchingEmpty | embedded32-sdk-c/src/e32_j1939.c:318-324 | dispatch calls nothing exactly when off_pgn would find no slot |
| CClient.MatchingAfterOff | embedded32-sdk-c/src/e32_j1939.c:164-170 | deactivating the first matching slot removes exactly the first call of the dispatch |
| CClient.OffThenDispatch | embedded32-sdk-c/src/e32_j1939.c:158-173 | after off_pgn the dispatch makes one call fewer, and none only when one slot had the PGN |
| CClient.SubscribeThenDispatch | embedded32-sdk-c/src/e32_j1939.c:132-156 | a slot filled by on_pgn is called by the next dispatch of its PGN |
| CClient.Client.constructor | embedded32-sdk-c/src/e32_j1939.c:57-59 | the configuration is copied, the client is disconnected and every slot is empty |
| CClient.Client.Connect | embedded32-sdk-c/src/e32_j1939.c:76-93 | AlreadyConnected when connected, otherwise Ok and connected |
| CClient.Client.Disconnect | embedded32-sdk-c/src/e32_j1939.c:95-114 | always Ok and disconnected; a connected client's subscriptions are all cleared |
| CClient.Client.OnPgn | embedded32-sdk-c/src/e32_j1939.c:132-156 | InvalidParam for a null handler, NoMemory with all slots active, otherwise Ok with the first free slot filled and the count one higher; on error nothing changes |
| CClient.Client.OffPgn | embedded32-sdk-c/src/e32_j1939.c:158-173 | always Ok; the first matching slot is deactivated and the count lowered, or nothing changes when none matches |
| CClient.Client.RequestPgn | embedded32-sdk-c/src/e32_j1939.c:179-202 | NotConnected when disconnected, otherwise a Request frame from the client's address at priority 6 to the destination: dlc 3, extended, timestamp 0, payload the PGN's three low bytes then zeros |
| CClient.Client.SendRaw | embedded32-sdk-c/src/e32_j1939.c:208-238 | InvalidParam for length 0 or above 8, then NotConnected; otherwise a frame with the given header and the first len bytes |
| CClient.Client.SendEngineControl | embedded32-sdk-c/src/e32_j1939.c:240-261 | NotConnected when disconnected, otherwise the engine-control frame from the client's address at priority 6 to 0xFF: dlc 8, extended, timestamp 0, payload the encoded command |
| CClient.Client.DispatchFrame | embedded32-sdk-c/src/e32_j1939.c:309-325 | a fresh message carries the parsed header, the table name, the frame timestamp, the first dlc bytes zero-padded and the PGN's signals; every active slot with its PGN is called once with its user data, in slot order, and all calls receive that message |
| CClient.Client.CallsFor | embedded32-sdk-c/src/e32_j1939.c:318-324 | the scan collects one call per active slot with the PGN, in slot order |
| CClient.Create | embedded32-sdk-c/src/e32_j1939.c:42-63 | InvalidParam for a source address above 0xFD, otherwise a fresh disconnected client |
| PyFormat.Format04X | embedded32-sdk-python/src/embedded32/codec.py:104 | at least four characters, a leading minus exactly for negatives, hexadecimal digits after it |
| PyFormat.Format04XRoundTrip | embedded32-sdk-python/src/embedded32/codec.py:104 | the text reads back to the number, negative or not |
| PyFormat.Format04XInjective | embedded32-sdk-python/src/embedded32/codec.py:104 | different PGNs never get the same text |
| PyFormat.Decimal | embedded32-sdk-python/src/embedded32/client.py:55 | a leading minus exactly for negatives, decimal digits after it |
| PyFormat.DecimalRoundTrip | embedded32-sdk-python/src/embedded32/client.py:55 | the text reads back to the number |
| PyCodec.ParseJ1939Id | embedded32-sdk-python/src/embedded32/codec.py:34-67 | every field fits its width, for any Python integer |
| PyCodec.ParseAgrees | embedded32-sdk-python/src/embedded32/codec.py:34-67 | on 32-bit identifiers the Python parse equals the C parse |
| PyCodec.ParseIgnoresHighBits | embedded32-sdk-python/src/embedded32/codec.py:34-67 | bits above 28 do not affect the parse |
| PyCodec.BuildJ1939Id | embedded32-sdk-python/src/embedded32/codec.py:70-92 | the identifier is at least the source address |
| PyCodec.BuildAgrees | embedded32-sdk-python/src/embedded32/codec.py:70-92 | with byte addresses the Python identifier equals the C one for the PGN mod 2^32 and priority mod 8 |
| PyCodec.BuildFits | embedded32-sdk-python/src/embedded32/codec.py:70-92 | with byte addresses the identifier fits in 29 bits |
| PyCodec.ParseBuild | embedded32-sdk-python/src/embedded32/codec.py:34-92 | parsing a built identifier gives back priority mod 8, the source address, and the PDU1 or PDU2 PGN and destination |
| PyCodec.BuildWideSource | embedded32-sdk-python/src/embedded32/codec.py:80-92 | an unchecked source address of 2^29 or more yields an identifier of 29 bits or more |
| PyCodec.BuildWideDestination | embedded32-sdk-python/src/embedded32/codec.py:80-92 | an unchecked destination 0x100+d with an even PDU1 PF parses as PGN (PF+1)<<8 to destination d |
| PyCodec.RegistriesAgree | embedded32-sdk-python/src/embedded32/codec.py:16-27 | every entry of the C table is in the Python registry with the same name and length |
| PyCodec.RegistryCovered | embedded32-sdk-python/src/embedded32/codec.py:16-27 | the Python registry lists no PGN that the C table lacks |
| PyCodec.GetPgnNameAgrees | embedded32-sdk-python/src/embedded32/codec.py:99-104 | registered PGNs get the C name; others get "Unknown (0x….)" where C says "Unknown", and the number reads back from the text |
| PyCodec.UnknownNamesDistinct | embedded32-sdk-python/src/embedded32/codec.py:99-104 | two unregistered PGNs with the same name are the same PGN |
| PyCodec.DecodeSpns | embedded32-sdk-python/src/embedded32/codec.py:111-152 | no signals for an empty payload or a PGN outside the seven decoded ones |
| PyCodec.DecodeAgreesWithC | embedded32-sdk-python/src/embedded32/codec.py:111-152 | apart from Request and Engine Control Command, the Python signals are the C signals as a dict |
| PyCodec.RequestDiffersFromC | embedded32-sdk-python/src/embedded32/codec.py:133-136 | both SDKs decode no Request from a short payload; Python gives the requested PGN as "0x" plus its hex text |
| PyCodec.EngineControlDiffersFromC | embedded32-sdk-python/src/embedded32/codec.py:138-144 | Python adds faultFlags and overheat to the C signals when byte 3 is present and not 0xFF |
| PyCodec.PgnPayload | embedded32-sdk-python/src/embedded32/codec.py:159-193 | three bytes for Request and eight otherwise; errors are only the byte-range ValueError and the float TypeError; unknown PGNs give eight 0xFF |
| PyCodec.Store | embedded32-sdk-python/src/embedded32/codec.py:165-191 | a bytearray store: ValueError and no change outside 0..255, otherwise that one byte set |
| PyCodec.EncodePgnData | embedded32-sdk-python/src/embedded32/codec.py:159-193 | the bytes or the exception match the payload function |
| PyCodec.FillRequest | embedded32-sdk-python/src/embedded32/codec.py:165-168 | the three low bytes of the requested PGN, little-endian |
| PyCodec.FillEngineControl | embedded32-sdk-python/src/embedded32/codec.py:170-179 | ValueError for fault flags outside 0..255, otherwise target RPM, enable, flags and four 0xFF bytes |
| PyCodec.FillEec1 | embedded32-sdk-python/src/embedded32/codec.py:181-188 | ValueError for a torque byte outside 0..255, otherwise 0xF0, 0xFF, torque and the speed bytes |
| PyCodec.FillEt1 | embedded32-sdk-python/src/embedded32/codec.py:190-191 | ValueError for a coolant byte outside 0..255, otherwise that byte then seven 0xFF |
| PyCodec.EngineControlRoundTrip | embedded32-sdk-python/src/embedded32/codec.py:170-179 | a command with a 16-bit target RPM and fault flags in 0..255 encodes without error and decodes back to its target RPM and enable flag; fault flags and the overheat bit (flags bit 0) come back exactly when the flags are not 0xFF, which the decoder reads as absent |
| PyCodec.Et1RoundTrip | embedded32-sdk-python/src/embedded32/codec.py:190-191 | a coolant temperature in -40..215 decodes back; any other raises ValueError |
| PyCodec.Eec1RoundTrip | embedded32-sdk-python/src/embedded32/codec.py:181-188 | a torque in -125..130 decodes back and the speed comes back truncated to eighths mod 2^16; any other torque raises ValueError |
| PyCodec.Eec1SpeedExact | embedded32-sdk-python/src/embedded32/codec.py:181-188 | a speed that is a whole number of eighths below 8192 comes back exactly |
| PyCodec.RequestRoundTrip | embedded32-sdk-python/src/embedded32/codec.py:163-168 | a float requested PGN raises TypeError; an integer one encodes and decodes to its low 24 bits in both SDKs |
| PyCodec.DecodeFrame | embedded32-sdk-python/src/embedded32/codec.py:200-216 | the PGN, source, destination and priority are the C parser's fields of the identifier's low 29 bits; the name is the registry's name for that PGN; the signals are `DecodeSpns` of the PGN and the data; the raw bytes are the frame's; the timestamp is the frame's unless that is 0.0, when it is the clock reading |
| PyCodec.EncodeFrame | embedded32-sdk-python/src/embedded32/codec.py:219-237 | the encoder's exception, or an extended frame with the built identifier, the payload and the clock reading |
| PyCodec.FrameRoundTrip | embedded32-sdk-python/src/embedded32/codec.py:200-237 | decoding an encoded frame gives back PGN, name, source, priority, destination and signals |
| PyClient.Subscribe | embedded32-sdk-python/src/embedded32/client.py:125-129 | the handler is registered under the PGN and no PGN is left with an empty set |
| PyClient.Unsubscribe | embedded32-sdk-python/src/embedded32/client.py:133-138 | a missing PGN is left alone, the handler is gone, and no PGN is left with an empty set |
| PyClient.SubscribeSpec | embedded32-sdk-python/src/embedded32/client.py:125-129 | the registered pairs afterwards are those before plus the new pair |
| PyClient.UnsubscribeSpec | embedded32-sdk-python/src/embedded32/client.py:133-138 | the registered pairs afterwards are those before minus the removed pair |
| PyClient.SubscribeIdempotent | embedded32-sdk-python/src/embedded32/client.py:125-129 | subscribing the same handler twice equals subscribing it once |
| PyClient.UnsubscribeIdempotent | embedded32-sdk-python/src/embedded32/client.py:133-138 | calling unsubscribe twice equals calling it once |
| PyClient.UnsubscribeUndoesSubscribe | embedded32-sdk-python/src/embedded32/client.py:125-140 | unsubscribe restores the dict exactly when the subscription added a new handler |
| PyClient.Client.constructor | embedded32-sdk-python/src/embedded32/client.py:57-67 | the configuration is stored; no transport, not connected, no handlers |
| PyClient.Client.Connect | embedded32-sdk-python/src/embedded32/client.py:69-84 | RuntimeError "Already connected" when connected, otherwise a transport and connected |
| PyClient.Client.Disconnect | embedded32-sdk-python/src/embedded32/client.py:86-100 | nothing when not connected, otherwise transport dropped, disconnected and all handlers cleared |
| PyClient.Client.OnPgn | embedded32-sdk-python/src/embedded32/client.py:102-146 | the handler is subscribed and the returned closure remembers PGN and handler |
| PyClient.Client.CallUnsubscribe | embedded32-sdk-python/src/embedded32/client.py:133-140 | the closure removes its handler from its PGN |
| PyClient.Client.RequestPgn | embedded32-sdk-python/src/embedded32/client.py:148-181 | RuntimeError "Not connected" with nothing sent, otherwise one Request frame at priority 6 with the PGN's low three bytes |
| PyClient.Client.SendPgn | embedded32-sdk-python/src/embedded32/client.py:183-213 | RuntimeError "Not connected", or the encoder's exception, with nothing sent; otherwise the encoded frame at priority 6 is sent |
| PyClient.Client.HandleFrame | embedded32-sdk-python/src/embedded32/client.py:223-240 | the frame is decoded and each handler of the PGN's set is called exactly once; a handler that raises does not stop the others |
| PyClient.NewClient | embedded32-sdk-python/src/embedded32/client.py:38-67 | ValueError naming the address unless 0 <= address <= 0xFD, otherwise a fresh disconnected client with no handlers |
| PyClient.InvalidAddressReadBack | embedded32-sdk-python/src/embedded32/client.py:54-55 | the refused address reads back from the error message |
| PyClient.RequestMatchesEncoder | embedded32-sdk-python/src/embedded32/client.py:165-171 | request_pgn's payload equals the codec's Request payload, and its frame parses as a Request between the right addresses |

## Left out

- NULL pointer arguments in C: Dafny references are never null, so these checks have no counterpart. `e32_decode_frame` (`e32_codec.c:155`), `e32_j1939_create` (`e32_j1939.c:44`), `connect` (:78), `disconnect` (:97), `on_pgn` (:139), `off_pgn` (:160), `request_pgn` (:185), `send_raw` (:217), `send_engine_control` (:245) and `poll` (:269) return `E32_ERR_INVALID_PARAM`. `e32_parse_j1939_id` (`e32_codec.c:43`), `e32_encode_request` (:251), `e32_encode_engine_control` (:270), `e32_j1939_destroy` (`e32_j1939.c:67`) and `dispatch_frame` (:311) return without doing anything. `is_connected` returns false (:118) and `get_source_address` returns 0xFF (:124).
- `e32_j1939_destroy`, `malloc` failure in `e32_j1939_create`, `e32_j1939_is_connected`, `e32_j1939_get_source_address`, `e32_j1939_poll` and the transport handle in C, plus `is_connected`, `get_source_address`, `__enter__` and `__exit__` in Python: these are plain accessors, allocation or the platform transport, and add nothing to the codec or subscription logic.
- CCodec.DecodeFrame: a frame length above 8 is excluded by its precondition. The C `memcpy` would then overrun the eight-byte buffer.
- PyCodec.BuildJ1939Id: for a negative source address or destination, Python's `|` on negative integers is not modelled, so addresses are naturals. The results for unchecked wide addresses are stated in BuildWideSource and BuildWideDestination.
- PyCodec.Eec1RoundTrip: `int(rpm / 0.125)` is computed on exact reals. Python floats agree for whole-number speeds below 2^53. Other float inputs may round differently in Python.
- PyClient.Client.HandleFrame: the loop visits a set's handlers in an unspecified order, standing in for Python set iteration order. A handler is an identity. Whether it raises is an input, and what it does when called is not modelled.
- PyClient.Client.HandleFrame: `decode_frame` cannot raise for a well-formed frame, so the outer `except` is not modelled.
- PyClient.Client.Connect: `_create_transport` and `_detect_transport` always produce a virtual transport. Transport selection and the transport's own state are not modelled.
- Python default arguments: Dafny has none, so every argument is explicit. `build_j1939_id` and `encode_frame` default `priority` to 6 and `destination_address` to 0xFF (`codec.py:73-74`, `codec.py:223-224`), so `build_j1939_id(pgn, sa)` is `BuildJ1939Id(pgn, sa, 6, 0xFF)`. `request_pgn` and `send_pgn` default `destination` to 0xFF (`client.py:148`, `client.py:187`).
- PyCodec.DecodeSpns: the result is a Dafny `map`, so the insertion order of the Python `dict` (the order in which the signals were added) is not modelled.
- The Python client's `threading.Lock` and `_log`: locking and debug printing are left out.
- `time.time()` is a parameter. The timestamp the C client would read from the transport is left out.
