# edgex-go core, modelled in Dafny

This project models the core of `edgex-go`, a small edge-computing framework.
In it, nodes exchange framed messages over MQTT topics under `$EdgeX/`:

- Triggers publish events.
- Endpoints answer control requests over gRPC.

The drivers built on these pieces are modelled as well:

- the DongKong access-control board driver (its 64-byte command frame, its AT commands and its event trigger);
- a socket-client endpoint;
- a socket-server trigger;
- a serial-port configuration reader.

The shared utilities are modelled too: the little-endian byte reader/writer, the raw message wrapper, the topic builders, the name checks and the expiring cache.

Every operation is a pure function over immutable values. The network, MQTT publishing, the clock and the library calls the core makes are represented by their outcomes, which the functions take as inputs:

- a dial that failed;
- a publish that returned an error;
- the bytes a read returned;
- whether the handler or the deadline finished first.

Go's fixed-width integers are subset types over `int`, and Go's truncating conversions are written out as `%`.

Modules, following the source files:

- `Wrappers`, `Ints`, `Strings`, `Decimal`: shared vocabulary. `Decimal` covers `%d` formatting and `strconv.ParseInt`.
- `ByteRW`: `bytes_rw.go`.
- `Messages`: `message.go`, with the UTF-8 encoding of Go's `[]byte(string)`.
- `MqttMatch`: MQTT 3.1.1 topic-filter matching (sections 4.7.1.2, 4.7.1.3 and 4.7.2 of the MQTT 3.1.1 standard). Subscriptions are delivered by this matching.
- `Topics`, `NameCheck`: `topics.go` and `check.go`.
- `Events`: `extra/events.go`.
- `Sequence`, `Endpoint`, `Trigger`: the sequence-id counter, `endpoint.go` and `trigger.go`.
- `DkCommand`, `VendorDkCommand`: `dongkong/command.go` and `vendors/dongkong/command.go`.
- `DkAtCommands`: `dongkong/endpoint/command.go`.
- `DkTrigger`: `dongkong/trigger/main.go`.
- `SockClient`, `SocketEndpoint`: `socket/endpoint/client.go`, `socket/endpoint/main.go` and `socket/socket_endpoint.go`.
- `SerialConfig`: `serial/utils.go`.
- `SocketServer`: `network/socket-server.go`.
- `ExpiringMap`: `sharedmap.go`.

In the code modelled here:

- Request and reply topics carry a sequence-id level (`$EdgeX/requests/{executor}/{seq}/{caller}`).
- Topic listeners use `+` wildcards.
- Endpoints are reached over gRPC.
- There are no pending-call tables.
- Triggers publish on one topic with `SendEventMessage`.

## Model

| member | source | states |
|---|---|---|
| ByteRW.LeRoundTrip | bytes_rw.go:55-65 | reading back the `n` little-endian bytes of any value below 256^n gives the value |
| ByteRW.LeBytesOfValue | bytes_rw.go:99-115 | any byte string is the little-endian encoding of its own value, so encoding is onto |
| ByteRW.LeByteAt | bytes_rw.go:99-115 | byte `k` of a little-endian encoding is digit `k` of the value in base 256 |
| ByteRW.DecodeEncode | bytes_rw.go:55-65 | decoding in either byte order undoes encoding in that order |
| ByteRW.EncodeDecode | bytes_rw.go:99-115 | encoding in either byte order undoes decoding in that order |
| ByteRW.ByteReader.GetByte | bytes_rw.go:38-41 | consumes the first unread byte; an exhausted reader answers 0 and stays empty |
| ByteRW.ByteReader.GetBytesSize | bytes_rw.go:47-53 | answers exactly `size` bytes: the unread prefix, zero-padded when the data runs out; consumes what it read |
| ByteRW.ByteReader.GetUint16 | bytes_rw.go:55-57 | the value of the next 2 bytes in the reader's order |
| ByteRW.ByteReader.GetUint32 | bytes_rw.go:59-61 | the value of the next 4 bytes in the reader's order |
| ByteRW.ByteReader.GetUint64 | bytes_rw.go:63-65 | the value of the next 8 bytes in the reader's order |
| ByteRW.ByteReader.Reset | bytes_rw.go:18-20 | nothing is left to read; the order is kept |
| ByteRW.WrapByteReader | bytes_rw.go:29-36 | the reader reads the given frame from its start, in the given order |
| ByteRW.ByteWriter.PutByte | bytes_rw.go:91-93 | appends one byte and changes nothing else |
| ByteRW.ByteWriter.PutBytes | bytes_rw.go:95-97 | appends the bytes after the existing content, which is kept |
| ByteRW.ByteWriter.PutUint16 | bytes_rw.go:99-103 | appends 2 bytes that decode back to the value; the earlier content is kept |
| ByteRW.ByteWriter.PutUint32 | bytes_rw.go:105-109 | appends 4 bytes that decode back to the value; the earlier content is kept |
| ByteRW.ByteWriter.PutUint64 | bytes_rw.go:111-115 | appends 8 bytes that decode back to the value; the earlier content is kept |
| ByteRW.ByteWriter.Reset | bytes_rw.go:18-20 | the writer's content is emptied; the order is kept |
| ByteRW.NewByteWriter | bytes_rw.go:74-76 | a writer starts empty |
| ByteRW.WrapByteWriter | bytes_rw.go:78-80 | a wrapped writer starts with the given slice as content, so writes go after it |
| ByteRW.PutAllAppends | bytes_rw.go:91-119 | any series of puts appends the concatenation of the items' encodings |
| ByteRW.GetItem | bytes_rw.go:38-65 | reading an item from its own encoding returns it and leaves the rest unread |
| ByteRW.GetAllEncoded | bytes_rw.go:38-65 | reading a series of items from their encodings returns them all |
| ByteRW.WriteThenRead | bytes_rw.go:29-119 | whatever a fresh writer writes, a reader over its bytes reads back, item by item |
| ByteRW.WrappedWriterKeepsPrefix | bytes_rw.go:78-80 | writing through a wrapped slice leaves the slice's bytes in front of everything written |
| Messages.NewMessageBytes | message.go:20-34 | a message's bytes are exactly the given bytes and its size their count |
| Messages.NewMessageString | message.go:28-30 | a text message is the message of the text's UTF-8 bytes, 1 to 4 bytes per character |
| Messages.Utf8Append | message.go:28-30 | encoding a concatenation concatenates the encodings |
| Messages.Utf8Ascii | message.go:28-30 | ASCII text is sent byte for byte |
| Messages.DecodeUtf8 | message.go:28-30 | the UTF-8 decoder recovers every text from its encoding |
| Messages.NewMessageStringInjective | message.go:28-34 | different texts give different messages |
| Events.DirectName | extra/events.go:33-39 | "IN" exactly for the byte 'I'; every other direction byte is "OUT" |
| Decimal.FormatNat | topics.go:29-31 | `%d` of a natural is non-empty decimal digits with no leading zero |
| Decimal.DigitsOfFormat | topics.go:29-31 | the digits `%d` prints have the printed number as their value |
| Decimal.FormatNatInjective | topics.go:29-31 | different numbers print differently |
| Decimal.ParseInt | dongkong/endpoint/command.go:116-118 | only an optional sign followed by decimal digits parses, and only into the int64 range |
| Decimal.ParseFormat | dongkong/endpoint/command.go:116-118 | every int64 printed with `%d` parses back to itself |
| Decimal.ParseRejectsNonDigit | dongkong/endpoint/command.go:116-118 | a character other than a digit after the first position makes the parse fail |
| NameCheck.CheckNameFormat | check.go:9-14 | a name is accepted exactly when it is non-empty and has no '/'; then it is returned unchanged |
| NameCheck.CheckRequired | check.go:16-34 | fails exactly for the empty string, the empty string list and nil, carrying the message |
| MqttMatch.MatchSingleLevels | topics.go:33-35 | a filter without '#' matches exactly the topics with as many levels, each level equal or '+' |
| MqttMatch.MatchMultiLevel | topics.go:12-17 | a filter ending in '#' matches exactly the topics that extend its prefix level by level |
| Topics.CheckTopic | topics.go:49-53 | rejects exactly the topics that start with '/' |
| Topics.TopicOfEvents | topics.go:19-22 | the events topic, or the error of a topic starting with '/' |
| Topics.TopicOfValues | topics.go:24-27 | the values topic, or the error of a topic starting with '/' |
| Topics.TopicOfRepliesFilter | topics.go:41-43 | the filter for one reply is the very topic that reply is sent on |
| Topics.TopicSpelling | topics.go:19-57 | every builder spells its topic as the format string in the source does |
| Topics.FilterSpelling | topics.go:12-17 | the three '#' filter constants are the `$EdgeX` topics of their channel followed by '#' |
| Topics.RequestSendLevels | topics.go:29-31 | a request topic splits into root, "requests", executor, sequence id, caller |
| Topics.RepliesSendLevels | topics.go:37-39 | a reply topic splits into root, "replies", caller, sequence id, executor |
| Topics.MatchTopic | topics.go:33-47 | a `$EdgeX` filter matches a topic exactly when its levels match the topic's levels |
| Topics.RequestRouting | topics.go:29-35 | a node's request subscription receives a request exactly when the executor level matches its name |
| Topics.RepliesRouting | topics.go:37-47 | a caller's reply subscription receives a reply exactly when the caller level matches its name |
| Topics.RequestIsolation | topics.go:29-35 | with wildcard-free names, a node receives exactly the requests addressed to it |
| Topics.RepliesIsolation | topics.go:37-47 | with wildcard-free names, a caller receives exactly the replies addressed to it |
| Topics.WildcardNameListensToOthers | check.go:9-14 | the name check accepts "+", and a node named "+" receives requests meant for "door" |
| Topics.OfflineMatched | topics.go:14 | every offline last-will topic is delivered to the offline '#' subscription |
| Topics.EventsAndValuesMatched | topics.go:15-27 | every events or values topic is delivered to its channel's '#' subscription |
| Topics.PrefixMatched | topics.go:14-16 | a '#' filter matches every topic that extends its prefix |
| Sequence.Next | endpoint.go:70-73 | the next id is below MaxUint32; it is the successor below MaxUint32-1 and wraps to 0 from there |
| Sequence.AdvanceNext | endpoint.go:70-73 | issuing one id and then k more is issuing k+1 |
| Sequence.AdvanceModular | trigger.go:58-61 | from any id below MaxUint32 the counter counts modulo MaxUint32 |
| Sequence.IdsDistinct | trigger.go:58-61 | fewer than MaxUint32 successive calls never repeat an id |
| Endpoint.NextSequenceId | endpoint.go:70-73 | stores and returns the next id and keeps the node name |
| Endpoint.NextMessage | endpoint.go:75-77 | a data message from this node carries the freshly issued id |
| Endpoint.Execute | endpoint.go:158-187 | a frame failing the check is refused unchanged; a ping is answered with a pong carrying a fresh id; a data message runs the handler and answers its frames, or the timeout error when the deadline comes first; anything else is UNKNOWN_MESSAGE; only pings advance the counter |
| Endpoint.ExecuteAll | endpoint.go:148-187 | one reply per call, and the node name is kept |
| Endpoint.ExecuteAllCountsPings | endpoint.go:158-168 | over a run of calls the counter advances once per accepted ping and for nothing else |
| Trigger.NextSequenceId | trigger.go:58-61 | stores and returns the next id; nothing else changes |
| Trigger.NextMessage | trigger.go:63-65 | a data message from this trigger carries the freshly issued id |
| Trigger.SendEventMessage | trigger.go:96-108 | publishes on the trigger's topic with its QoS and retain flag a message with a fresh id; fails exactly when the publish completed with an error, with the error behind the Chinese failure message |
| Trigger.SendAll | trigger.go:96-108 | one publication per event |
| Trigger.SendAllNumbers | trigger.go:96-108 | the i-th of a run of publications carries the id i+1 steps on, all on the trigger's topic |
| Trigger.SendAllDistinctIds | trigger.go:58-61 | within a run shorter than MaxUint32 no two publications share an id |
| DkCommand.Command.Bytes | dongkong/command.go:43-54 | the 64-byte frame: magic, function id, reserved, serial number, data, sequence id, extra at their little-endian offsets |
| DkCommand.NewCommand0 | dongkong/command.go:57-67 | every field is taken as given |
| DkCommand.NewCommand | dongkong/command.go:70-79 | a command with the DongKong magic, zero reserved field and zero extra bytes |
| DkCommand.ParseCommand | dongkong/command.go:82-106 | fails exactly on frames that are not 64 bytes long, naming the length; otherwise the fields are read from their offsets |
| DkCommand.ParseBytes | dongkong/command.go:43-106 | parsing a command's frame gives back the command |
| DkCommand.BytesParse | dongkong/command.go:43-106 | every 64-byte frame parses, and the parsed command serialises back to the same frame |
| DkCommand.RoundTripTwice | dongkong/command.go:43-106 | serialising, parsing and serialising again gives the same frame |
| VendorDkCommand.Command.Bytes | vendors/dongkong/command.go:59-70 | the 64-byte frame; with `SameWireFormat`, laid out as in the other copy (`DkCommand`) |
| VendorDkCommand.NewCommand0 | vendors/dongkong/command.go:73-83 | every field is taken as given, and the accessors return them |
| VendorDkCommand.NewCommand | vendors/dongkong/command.go:86-95 | a command with the DongKong magic, zero reserved field and zero extra bytes |
| VendorDkCommand.ParseCommand | vendors/dongkong/command.go:98-122 | fails exactly on frames that are not 64 bytes long; otherwise the fields are read from their offsets |
| VendorDkCommand.SameWireFormat | vendors/dongkong/command.go:59-70 | every command serialises to the same 64 bytes as the other copy (`DkCommand`) does for the same fields: same offsets, same little-endian order |
| VendorDkCommand.SameParse | vendors/dongkong/command.go:98-122 | both copies accept exactly the same frames and read the same fields out of them |
| VendorDkCommand.ParseBytes | vendors/dongkong/command.go:59-122 | parsing a command's frame gives back the command |
| VendorDkCommand.BytesParse | vendors/dongkong/command.go:59-122 | every 64-byte frame parses and serialises back to itself |
| DkAtCommands.Request | dongkong/endpoint/command.go:24-27 | a request frame is 64 bytes carrying the function id, board serial number and data with zero sequence id |
| DkAtCommands.Block | dongkong/endpoint/command.go:27 | a short byte list becomes a 32-byte data block, zero-padded |
| DkAtCommands.GetIntAt | dongkong/endpoint/command.go:104-114 | the default when the argument is missing or does not parse; otherwise the parsed value truncated to 32 bits |
| DkAtCommands.GetIntAtFormat | dongkong/endpoint/command.go:104-114 | a printed uint32 argument is read back as itself |
| DkAtCommands.DateAt | dongkong/endpoint/command.go:91-100 | the default unless the argument exists, is 8 characters long and parses; then the parsed value truncated to 32 bits |
| DkAtCommands.DateAtFormat | dongkong/endpoint/command.go:91-100 | a printed date is read back exactly when it prints as 8 characters |
| DkAtCommands.GetDateAt | dongkong/endpoint/command.go:91-102 | the BCD encoding of the date chosen |
| DkAtCommands.OpenData | dongkong/endpoint/command.go:27 | the remote-open data block holds the switch id's low byte, then zeros |
| DkAtCommands.Open | dongkong/endpoint/command.go:18-29 | fails exactly when the switch id does not parse, naming it; otherwise a remote-open request whose first data byte is the switch id's low byte and whose other data bytes are zero |
| DkAtCommands.Delay | dongkong/endpoint/command.go:30-49 | fails on an unparsable switch id first, then on unparsable seconds, naming the argument; otherwise a switch-delay request with the switch id's low byte, online control mode and the seconds' low byte |
| DkAtCommands.DelayData | dongkong/endpoint/command.go:43-47 | the delay data block holds the switch id, the always-online mode and the seconds, each truncated to a byte, then zeros |
| DkAtCommands.DelayRequest | dongkong/endpoint/command.go:40-47 | the delay request frame has exactly the delay data layout |
| DkAtCommands.AddPayload | dongkong/endpoint/command.go:57-64 | the payload written is the card as 4 little-endian bytes, the start and end dates, then the four door bytes |
| DkAtCommands.Fit | dongkong/endpoint/command.go:56 | the payload copied into the 32-byte data block, zero-padded |
| DkAtCommands.AddAsWritten | dongkong/endpoint/command.go:51-67 | as written: fails exactly when the card does not parse; otherwise the request's data block is all zeros |
| DkAtCommands.DeleteAsWritten | dongkong/endpoint/command.go:72-82 | as written: fails exactly when the card does not parse; otherwise the request's data block is all zeros |
| DkAtCommands.CardLostAsWritten | dongkong/endpoint/command.go:56-58 | for card "1" the frames sent by ADD and DELETE carry the card as 0, not 1 |
| DkAtCommands.Add | dongkong/endpoint/command.go:51-67 | corrected: fails exactly when the card does not parse; otherwise the data block holds the written payload |
| DkAtCommands.Delete | dongkong/endpoint/command.go:72-82 | corrected: fails exactly when the card does not parse; otherwise the data block starts with the card's little-endian bytes and is zero after them |
| DkAtCommands.AddLayout | dongkong/endpoint/command.go:57-64 | the corrected ADD data holds the card at 0..4, the dates at 4..12 and the doors at 12..16 |
| DkAtCommands.DeleteCarriesCard | dongkong/endpoint/command.go:72-82 | the corrected DELETE for a printed card sends that card |
| DkAtCommands.Clear | dongkong/endpoint/command.go:85-88 | always succeeds with a card-clear request whose data is the 55 AA AA 55 mark then zeros |
| DkAtCommands.Lookup | dongkong/endpoint/command.go:17-89 | exactly the six registered names resolve; every registered arity equals the number of arguments the handler reads |
| DkAtCommands.Run | dongkong/endpoint/command.go:17-89 | every successful command is a 64-byte frame addressed to the board's serial number; ADD, ADD0 and DELETE fail exactly on an unparsable card, naming it; through the registry as written their data block is all zero, and with the corrected handlers it holds the ADD payload or the card |
| DkAtCommands.RunVariants | dongkong/endpoint/command.go:17-89 | the as-written and corrected registries run OPEN, DELAY and CLEAR alike and fail on the same arguments with the same error |
| DkTrigger.DeviceName | dongkong/trigger/main.go:84 | the device address is TRIGGER/serial/door/direction |
| DkTrigger.DeviceNameLevels | dongkong/trigger/main.go:84 | the device address splits into its four levels |
| DkTrigger.DeviceNameInjective | dongkong/trigger/main.go:84 | different board, door or direction give different device addresses |
| DkTrigger.DecodeEvent | dongkong/trigger/main.go:66-80 | the card is data bytes 0..4, 7 timestamp bytes are skipped, the index is bytes 11..15, then type, state, door, direction and reason |
| DkTrigger.EventData | dongkong/trigger/main.go:66-80 | the data block a board writes for an event has that layout |
| DkTrigger.DecodeEventData | dongkong/trigger/main.go:66-80 | decoding the data block of an event gives the event back |
| DkTrigger.OnData | dongkong/trigger/main.go:45-91 | a frame is rejected for its size, then its function id, then its serial number, with the matching reply; otherwise the body published is that of the event decoded from the frame's data block (card, index, type, state, door and reason at their frame offsets, and the direction byte's name) under the device address of its door and direction, and the reply reports the publish outcome |
| DkTrigger.BoardStateDelivered | dongkong/trigger/main.go:45-91 | a board-state frame from the configured board is published with its event's body (every field as sent, the direction by name) under its device address, and acknowledged |
| DkTrigger.Body | dongkong/trigger/main.go:68-80 | the JSON body carries every decoded field as it is, except the direction, which it carries as "IN" exactly for 'I' and as "OUT" otherwise |
| DkTrigger.SameBody | dongkong/trigger/main.go:68-80 | two events have the same body exactly when they agree on every field but the direction and their directions have the same name |
| DkTrigger.DirectionByName | dongkong/trigger/main.go:77-86 | frames that differ only in a non-'I' direction byte publish the same message |
| DkTrigger.MakeReaderInfo | dongkong/trigger/main.go:135-142 | a reader's name is its device address, its description names door and direction, and its command is "AT" |
| DkTrigger.FillDoorsAsWritten | dongkong/trigger/main.go:112-117 | as written: filling a 4-slot table writes slot 2i+1 and fails on the first index past the end |
| DkTrigger.DoorTableOutOfBounds | dongkong/trigger/main.go:112-117 | as written, the reader table of 4 slots is indexed out of range |
| DkTrigger.DoorTable | dongkong/trigger/main.go:112-117 | corrected: 8 slots, with the IN reader of door i+1 at 2i and the OUT reader at 2i+1 |
| DkTrigger.DoorTableNamesDistinct | dongkong/trigger/main.go:112-117 | the 8 announced readers have 8 distinct names |
| SockClient.StateCode | socket/endpoint/client.go:12-16 | disconnected, connecting and connected are 0, 1 and 2 |
| SockClient.WithMessage | socket/endpoint/client.go:95-97 | the message is put in front of the cause's text, and the result is no network error |
| SockClient.NewSockClient | socket/endpoint/client.go:44-54 | starts connecting with no connection, using the first options or the zero options, which are not valid |
| SockClient.ConnectTcp | socket/endpoint/client.go:165-184 | connected exactly when resolve and dial succeed; a resolve error as it is; a dial error behind "TCP dial failed" |
| SockClient.Open | socket/endpoint/client.go:69-107 | the options are kept; the client becomes connected exactly by a successful UDP dial or a successful TCP dial without auto-reconnect; a TCP client with auto-reconnect answers nil at once; errors are wrapped per network; an unknown network is reported by name |
| SockClient.Close | socket/endpoint/client.go:110-117 | always disconnected; the connection's close error when there is a connection, nil otherwise |
| SockClient.CheckSocketState | socket/endpoint/client.go:158-163 | as written it demotes to connecting on every result that is not a temporary network error, nil included; corrected only on a real error |
| SockClient.Send | socket/endpoint/client.go:132-141 | refused with "not ready" unless connected; never reports more than it was given; a deadline error writes nothing; the state can only stay or drop to connecting |
| SockClient.Receive | socket/endpoint/client.go:120-129 | refused with "not ready" unless connected; never fills more than the buffer; the state can only stay or drop to connecting |
| SockClient.Execute | socket/endpoint/client.go:144-156 | a client that is not connected is refused as not ready; an answer is exactly the bytes read; an error is the not-ready error or one of the deadline, write or read errors unchanged, the send's errors first; the options and connection are kept, and the state never rises |
| SockClient.ExecuteSucceeds | socket/endpoint/client.go:144-156 | corrected: execution succeeds exactly when connected with a clean exchange, answering the bytes read and staying connected |
| SockClient.ExecuteFailsAsWritten | socket/endpoint/client.go:139-163 | as written, no execution ever succeeds; a clean exchange ends in "not ready" |
| SockClient.UdpExchangeAsWritten | socket/endpoint/client.go:93-163 | a freshly opened UDP client is refused as written and answers the device's bytes when corrected |
| SockClient.ErrorDemotion | socket/endpoint/client.go:186-192 | a connected client stays connected after an error exactly when it is a timeout or temporary network error |
| SockClient.ClosedRefuses | socket/endpoint/client.go:110-156 | after Close every execution is refused as not ready |
| SockClient.OnlyOpenConnects | socket/endpoint/client.go:120-156 | sending, receiving and executing never move a client into connected |
| SocketEndpoint.SplitTarget | socket/endpoint/main.go:34-39 | "tcp" and the whole target without "://"; otherwise the text before the first "://", and the text after it up to the next "://" or, when there is none, to the end |
| SocketEndpoint.FirstSeparator | socket/endpoint/main.go:36-38 | in network + "://" + address with a "://"-free network, the first "://" is the one written |
| SocketEndpoint.SplitTargetRoundTrip | socket/endpoint/main.go:34-39 | a target written as network://address splits back into the two |
| SocketEndpoint.SplitTargetPieces | socket/endpoint/main.go:34-39 | the network never contains "://" |
| SocketEndpoint.IsBroadcast | socket/endpoint/main.go:19-21 | the endpoint broadcasts exactly when `Broadcast` is configured true; absent, it does not |
| SocketEndpoint.DefaultExecutes | socket/endpoint/main.go:21-68 | an endpoint without a `Broadcast` key executes every message and answers the device's bytes or "EX=ERR:" and the error's text |
| SocketEndpoint.ClientOptions | socket/endpoint/main.go:40-50 | network and address from the target, a 1024-byte buffer, one-second timeouts, auto-reconnect and keep-alive every three seconds by default; a buffer size wraps like `uint(...)` |
| SocketEndpoint.BareTargetOpensLater | socket/endpoint/main.go:34-50 | a bare host:port target is a TCP client with auto-reconnect whose Open answers nil at once |
| SocketEndpoint.Reply | socket/endpoint/main.go:55-66 | a text reply decodes back to its text; a raw reply is the device's bytes |
| SocketEndpoint.Broadcast | socket/endpoint/main.go:53-60 | "EX=OK:BROADCAST" exactly when a connected client wrote the whole message without error; a send error answers "EX=ERR:" and that error's text (the not-ready, deadline or write error), and a short write answers "EX=ERR:WRITE_NOT_FINISHED"; a clean send leaves the client connecting as written, and unchanged with the corrected state check |
| SocketEndpoint.BroadcastTwice | socket/endpoint/main.go:53-60 | as written, after a successful broadcast the next one is refused with "EX=ERR:Client connection is not ready" |
| SocketEndpoint.Serve | socket/endpoint/main.go:52-69 | a broadcast endpoint only sends; otherwise the reply is the execution's bytes, or "EX=ERR:" and the execution error's text; as written, every reply is an "EX=ERR:" text; corrected: the reply is the device's bytes exactly when a connected client had a clean exchange, and an "EX=ERR:" text otherwise |
| SocketEndpoint.ServeAsWritten | socket/endpoint/main.go:61-67 | as written, a connected client with a clean exchange answers "EX=ERR:Client connection is not ready" and is left connecting; corrected, it answers the device's bytes and stays connected |
| SocketEndpoint.LegacyServe | socket/socket_endpoint.go:49-56 | the device's bytes as they are, or a message decoding to "ERR:" and the error text |
| SerialConfig.ParseParity | serial/utils.go:15-30 | a parity other than none is chosen only by its letter or word in any case; every letter or word chooses its own parity |
| SerialConfig.LowerThenUpper | serial/utils.go:16 | a lower-cased keyword is upper-cased back to itself |
| SerialConfig.ParityNamesRead | serial/utils.go:15-30 | every parity is read from its letter, its word and its lower-case word |
| SerialConfig.GetSerialConfig | serial/utils.go:14-39 | port, baud and timeout as given; data and stop bits truncated to a byte; the parsed parity |
| SocketServer.ParseLoadBalance | network/socket-server.go:33-43 | round-robin and least-connections exactly for their lower-cased names; anything else is random |
| SocketServer.ServerSettings | network/socket-server.go:31-44 | one loop by default; a policy other than random only with more than one loop |
| SocketServer.OnData | network/socket-server.go:46-52 | the packet is published as received and acknowledged with "OK\r\n" whatever the publish outcome |
| SocketServer.PolicyNames | network/socket-server.go:33-43 | policy names match in any case, and only when spelled exactly |
| ExpiringMap.NewExpiringMap | sharedmap.go:17-22 | a new cache is empty |
| ExpiringMap.Add | sharedmap.go:26-44 | succeeds exactly for an absent key, changing nothing otherwise; stores the value, with an expiry timeout after now only for a positive timeout, and keeps every other entry |
| ExpiringMap.Get | sharedmap.go:47-62 | the value exactly for a present, unexpired key, changing nothing; an expired entry answers nothing and is deleted |
| ExpiringMap.Del | sharedmap.go:65-69 | removes the key and keeps every other entry |
| ExpiringMap.AddThenGet | sharedmap.go:26-62 | a value added under a fresh key is read back until its timeout has passed and never after |
| ExpiringMap.ExpiredGetFreesKey | sharedmap.go:26-62 | after an expired read the key can be added again |
| ExpiringMap.OtherKeysUntouched | sharedmap.go:26-69 | add, get and delete on one key leave every other entry unchanged |

## Left out

- Network, MQTT, gRPC, serial and event-loop I/O: the outcome of each call is an input (`DialOutcome`, `WriteOutcome`, `ReadOutcome`, `PublishOutcome`, publish errors). Startup, Shutdown, connection retries and inspect/alive tickers are not modelled.
- Concurrency: `execLock`, the endpoint's serial-execution lock and the cache's mutex. Which of the handler goroutine and the caller's deadline finishes first is an input (`Race`).
- The auto-reconnect goroutine of `SockClient.Open`: it reads the state once before its loop, so it never sees a later change. It is concurrent and timer-driven.
- The message frame codec (`NewMessageWithId`, `CheckMessage`, `ParseMessage`, `newControlMessageWithId`) and the node-message constructors of the API that `socket/endpoint/main.go` uses are not part of this model. Messages are records of their header fields and body, and the result of checking a frame is an input.
- `topicOfTriggerEvents` is not part of this model: a trigger's publish topic is a field of its state.
- `bcd.FromUint32` is a parameter of the board (`Board.bcd`).
- The card function ids (`FunIdCardAdd`, `FunIdCardDel`, `FunIdCardClear`) appear in no modelled file: they are parameters (`CardFuncIds`). The other `dongk` constants used by the AT commands and the trigger are the `Dk`-prefixed constants of `dongkong/command.go`.
- The direction names `dongk.DirectName`, `dongk.DirectIn` and `dongk.DirectOut` used by the trigger are defined in no modelled file: they are taken to be those of `extra/events.go` ('I' and 'O', named "IN" and "OUT"), `Events.DirectName` and its constants.
- The `go-at` registry: parsing `AT+NAME=args` and enforcing `AddX` arities. `Lookup` records each name's handler and arity.
- DkAtCommands.Add: requires one argument. `ADD0` is registered without an arity check, so with no arguments the source panics on `args[0]`, which is not modelled.
- DkAtCommands.Open, DkAtCommands.Delay and DkAtCommands.Delete require the arguments their `AddX` arity guarantees.
- JSON encoding (`jsonx`) and `hex.EncodeToString`: a published event body (`DkTrigger.EventBody`) and a reader description are records of their JSON fields; the body carries the direction by name, as the JSON does, and the card by its raw bytes where the JSON has their hex.
- `value.Of` conversions: `MustInt64` panics on non-numbers, and an absent key's `String()` is "". The configuration records hold values already converted. An absent key is `None` where the source applies a default.
- DkTrigger.OnData: logs are not modelled, and `publishErr` stands for the text of the error `Triggered` returns.
- SocketEndpoint.Broadcast: the message's `Size()` in the API that `socket/endpoint/main.go` uses is an input. Whether it counts only the body is not determined by the modelled files.
- ExpiringMap.Add: the expiry `now + timeout` is exact, with no overflow of Go's time arithmetic, and the zero time is `None`.
- `strings.ToUpper`/`ToLower` handle ASCII letters plus the four runes whose case mapping lands in ASCII. That is all a comparison with an ASCII keyword can observe.
- SockClient accessors `SetOptions`, `Options` and `BufferSize` only read or replace the options record.
- SockClient.Close: a failed TCP dial still stores a typed nil connection, so `Close` then returns the connection's close error (the `closeErr` input) instead of nil.

## Findings

| source | as written | input that shows it | evidently intended | confidence | as-written member | corrected member |
|---|---|---|---|---|---|---|
| dongkong/trigger/main.go:112-117 | the reader table has 4 slots, but the loop writes slots i and 2i+1 | startup: at i = 2 the loop writes slot 5 of 4 (earlier, slot 1 was overwritten) | 8 slots (`deviceCount`): IN reader of door i+1 at 2i, OUT reader at 2i+1 | high, not executed | DkTrigger.DoorTableOutOfBounds | DkTrigger.DoorTable |
| dongkong/endpoint/command.go:56-79 | `WrapByteWriter(data[:])` appends after the 32 zero bytes instead of filling them, so `data` stays zero | `AT+ADD=1` or `AT+DELETE=1`: the frame's card field is 0, not 1 | the card, dates and doors written into the data block | high, not executed | DkAtCommands.CardLostAsWritten | DkAtCommands.AddLayout |
| socket/endpoint/client.go:139-163 | `checkSocketState(nil)` demotes to connecting, because nil is no temporary network error | any `Execute` on a connected client with a clean exchange answers "Client connection is not ready" | demote only on a real, non-temporary error | high, not executed | SockClient.ExecuteFailsAsWritten | SockClient.ExecuteSucceeds |
| check.go:9-14 | a name is only checked for '/', so the MQTT wildcards '+' and '#' pass | a node named "+" subscribes to `$EdgeX/requests/+/+/+` and receives requests addressed to "door" | names free of '+' and '#' too, so that each node receives only its own requests | medium, not executed | Topics.WildcardNameListensToOthers | Topics.RequestIsolation |
