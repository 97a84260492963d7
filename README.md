# Turion, modelled in Dafny

Turion replaces the closed `libBambuSource` plug-in that Bambu Studio and
OrcaSlicer load to watch a Bambu Lab printer's camera over the local
network, and ships Python tools that drive the printer over MQTT. This
project models the core of both halves and proves properties of the model.

* **The camera library.** This is the Rust crate `libturion_source`.
  * `Settings` parses the `bambu:///local/<host>.?key=value&...` URL that
    the slicer passes to `Bambu_Create`.
  * `CameraProtocol` models the 80-byte start/stop command packet, built in
    place over fixed arrays, and the 16-byte frame header.
  * `Tunnel` models the `LocalTunnel` state machine (`open`, `start`,
    `close`, `read_sample`) over a model of the decrypted TLS byte stream,
    and the `BambuSample` buffer hand-over.
  * `Api` models the `extern "C"` entry points and their integer return
    codes.
* **The Python tools.**
  * `Mqtt` models the `BambuMQTT` client: sequence numbers, the request
    messages, and the routing of incoming messages to the reply queue or to
    the status callback.
  * `Server` models the OctoPrint-compatible upload server: the `X-Api-Key`
    parser, the SD-card URI, and the HTTP status a print request gets.
  * `Print3mf` models the `turion_print_3mf.py` script: the AMS defaulting,
    the start-reply handling, the state tracker and the exit code.
  * `RemoteCamera` models `turion_remote_camera.py`: the login packet and
    the frame reception loop.

Shared modules:
* `Bytes`: little-endian `u32`, `i32` reinterpretation, UTF-8.
* `Text`: `split`/`join`, substring search, `basename`, `str(int)`,
  Python's `int()`, Rust's `u16` parse.
* `Json`: decoded JSON payloads and Python truthiness.
* `Wrappers`: `Option` and `Result`.

Conventions:
* A Rust panic (`unwrap` on `None`, `assert!`, a failing `copy_from_slice`)
  is an explicit `Panic` error value. Across `extern "C"` it aborts the
  process, which `Api` reports as `Aborted`.
* A Python exception is a `None`/`Raised` outcome.
* Network, TLS, clocks and the MQTT broker are parameters or small classes
  (`Connection`, `CameraSocket`) whose reads may return any non-empty chunk.

## Model

Source paths are relative to the repository root.

| member | source | states |
|---|---|---|
| Bytes.I32ToU32 | tools/libturion_source/src/lib.rs:182 | `req_type as u32` keeps a non-negative value and adds 2^32 to a negative one |
| Bytes.U32ToI32 | tools/libturion_source/src/lib.rs:149-164 | reading a `u32` word as the header's `i32` field gives an `i32` whose `as u32` is the word again |
| Bytes.I32RoundTrip | tools/libturion_source/src/lib.rs:182 | `as u32` then back to `i32` is the identity on `i32` |
| Bytes.WrapToI32 | tools/libturion_source/src/lib.rs:369 | `data.len() as i32` lies in the `i32` range and equals the length when that is below 2^31 |
| Bytes.FromLE32OfLE32 | tools/libturion_source/src/lib.rs:156-164 | decoding the 4 little-endian bytes of a word gives the word back |
| Bytes.LE32OfFromLE32 | tools/libturion_source/src/lib.rs:156-164 | every 4 bytes are the little-endian encoding of the word they decode to |
| Bytes.PackWords | tools/libturion_source/src/lib.rs:197-201 | the in-memory image of `n` `u32` words is `4n` bytes |
| Bytes.UnpackPackWords | tools/turion_remote_camera/turion_remote_camera.py:21-27 | `struct.unpack("IIII")` of `struct.pack("IIII", ...)` gives the words back |
| Bytes.PackUnpackWords | tools/turion_remote_camera/turion_remote_camera.py:57 | any byte string of a length divisible by 4 is the packing of the words it unpacks to |
| Bytes.PackWordsAt | tools/libturion_source/src/lib.rs:197-201 | word `i` sits at bytes `4i..4i+4`, little-endian |
| Bytes.Utf8Char | tools/libturion_source/src/lib.rs:188-189 | a character encodes to 1 to 4 bytes, exactly 1 for ASCII, and a non-NUL character never starts with a 0 byte |
| Bytes.Utf8 | tools/turion_remote_camera/turion_remote_camera.py:38-39 | an encoded string is at least as long as the string |
| Bytes.Utf8OfAscii | tools/libturion_source/src/lib.rs:188-189 | an ASCII string encodes byte for byte to its code points |
| Text.Split | tools/bambu_mqtt/server.py:15-16 | `split` yields at least one piece, `[""]` for the empty string |
| Text.SplitPiecesAvoidSep | tools/bambu_mqtt/server.py:15-16 | no piece of a split contains the separator |
| Text.JoinSplit | tools/bambu_mqtt/server.py:15-16 | joining the pieces with the separator gives the string back |
| Text.SplitJoin | tools/bambu_mqtt/server.py:15-16 | splitting a join of separator-free pieces gives the pieces back |
| Text.SplitCons | tools/libturion_source/src/lib.rs:65 | a separator-free head followed by the separator splits off as the first piece |
| Text.SplitPair | tools/bambu_mqtt/server.py:16-18 | `key=val` with no `=` in either side splits into exactly `[key, val]` |
| Text.SplitNoSep | tools/bambu_mqtt/server.py:33 | a string without the separator splits into itself alone |
| Text.Find | tools/libturion_source/src/lib.rs:47-51 | `find(".?")` returns the first position where the pattern occurs, and `None` only when it occurs nowhere |
| Text.BaseName | tools/bambu_mqtt/turion_print_3mf.py:25 | `os.path.basename` is a slash-free suffix of the path, preceded by `/` when shorter than the path |
| Text.DigitChar | tools/bambu_mqtt/bambu_mqtt.py:165 | each digit has a character whose value is that digit |
| Text.NatToString | tools/bambu_mqtt/bambu_mqtt.py:165 | `str(n)` is a non-empty digit string without a leading zero (except `"0"`) |
| Text.DecimalValueOfNatToString | tools/bambu_mqtt/bambu_mqtt.py:165 | the decimal value of `str(n)` is `n` |
| Text.NatToStringInjective | tools/bambu_mqtt/bambu_mqtt.py:84-88 | distinct sequence numbers give distinct `sequence_id` strings |
| Text.ParseU16 | tools/libturion_source/src/lib.rs:78 | `parse::<u16>` succeeds only with a value up to 65535 |
| Text.ParseU16OfNatToString | tools/libturion_source/src/lib.rs:78 | every port number written in decimal parses back to itself |
| Text.StripLeft | tools/bambu_mqtt/server.py:37 | `int()` skips leading whitespace: the result is a suffix that does not start with a space |
| Text.StripRight | tools/bambu_mqtt/server.py:37 | `int()` skips trailing whitespace: the result is a prefix that does not end with a space |
| Text.RemoveUnderscores | tools/bambu_mqtt/server.py:37 | dropping `_` from digits and underscores leaves only digits, and leaves a string without `_` unchanged |
| Text.PyInt | tools/bambu_mqtt/server.py:37 | `int(s)` succeeds only when something remains after stripping whitespace |
| Text.PyIntOfEmpty | tools/bambu_mqtt/server.py:33-37 | `int("")` raises |
| Text.PyIntOfIntToString | tools/bambu_mqtt/server.py:37 | `int(str(i)) == i` for every integer |
| Text.PyIntOfDigits | tools/bambu_mqtt/server.py:37 | a non-empty digit string parses to its decimal value |
| Text.PyIntOfNegDigits | tools/bambu_mqtt/server.py:37 | `-` followed by digits parses to the negated decimal value |
| Json.Get | tools/bambu_mqtt/bambu_mqtt.py:107 | `dict.get` finds a value exactly when the key is present, and the value it finds is the one stored under the key; the message routing and the state tracker read their fields through it |
| Settings.FromUrl | tools/libturion_source/src/lib.rs:42-100 | the parsing loop returns the result of the specification function `FromUrlSpec`, including every error |
| Settings.FromUrlSpec | tools/libturion_source/src/lib.rs:42-100 | `from_url` as a value: the schema and `.?` checks, the query entries applied in order, and the `unwrap`s of user, password and port; its properties are the lemmas below |
| Settings.RejectsOtherSchemas | tools/libturion_source/src/lib.rs:43-45 | a URL not starting with `bambu:///local/` is refused with "Invalid schema" |
| Settings.RejectsMissingQueryMarker | tools/libturion_source/src/lib.rs:47-51 | a URL without `.?` after the schema is refused with "Invalid url" |
| Settings.HostnameBeforeFirstMarker | tools/libturion_source/src/lib.rs:47-53 | an accepted URL is the schema, the hostname and `.?`, and the hostname holds no earlier `.?` |
| Settings.QueryKeepsLastValue | tools/libturion_source/src/lib.rs:65-83 | each recognised key gets the value of its last entry in the query |
| Settings.UnknownKeyIgnored | tools/libturion_source/src/lib.rs:79-81 | an entry with an unknown key changes nothing |
| Settings.BadPortRejected | tools/libturion_source/src/lib.rs:78 | the first port that is not a `u16` makes the whole URL fail with that parse error |
| Settings.ErrorPersists | tools/libturion_source/src/lib.rs:65-83 | once an entry fails, the loop returns that error whatever follows |
| Settings.FromUrlOfToUrl | tools/libturion_source/src/lib.rs:42-100 | a settings value whose fields contain no separators is parsed back from its own URL |
| Settings.ExampleUrl | tools/libturion_source/src/lib.rs:597-606 | the URL of the unit test parses to host `127.0.0.1`, port 1234, user `elysia`, password `ego` |
| CameraProtocol.Padded | tools/libturion_source/src/lib.rs:176-192 | a credential copied into a zeroed 32-byte field keeps its bytes and is zero after them |
| CameraProtocol.CmdPacketBytes | tools/libturion_source/src/lib.rs:175-201 | the bytes of `CameraCmdPacket::new(...).as_bytes()`: 80 bytes, with the zero-padded user name at offsets 16-48 and the password at 48-80; `CmdPacketLayout` gives the header words |
| CameraProtocol.CmdPacketLayout | tools/libturion_source/src/lib.rs:166-201 | the packet is 80 bytes: `0x40` for a start packet (else 0), the request type, two zero words, then the padded user and password |
| CameraProtocol.CmdPacketInjective | tools/libturion_source/src/lib.rs:175-201 | for NUL-free credentials, different commands give different packets |
| CameraProtocol.UnpaddedPadded | tools/libturion_source/src/lib.rs:191-192 | the credential can be read back from its zero-padded field |
| CameraProtocol.CameraCmdPacket.constructor | tools/libturion_source/src/lib.rs:175-195 | the arrays hold the command words and the padded credentials, and the packet's bytes are `CmdPacketBytes` |
| CameraProtocol.CameraCmdPacket.AsBytes | tools/libturion_source/src/lib.rs:197-201 | the byte view has `size_of::<CameraCmdPacket>()` = 80 bytes |
| CameraProtocol.HeaderFromBytes | tools/libturion_source/src/lib.rs:156-164 | reinterpreting 16 bytes gives a header whose `itrack` and `flags` are `i32` |
| CameraProtocol.HeaderToBytes | tools/libturion_source/src/lib.rs:147-154 | a header occupies 16 bytes |
| CameraProtocol.HeaderFromToBytes | tools/libturion_source/src/lib.rs:156-164 | a header written out and read back is the same header |
| CameraProtocol.HeaderToFromBytes | tools/libturion_source/src/lib.rs:156-164 | every 16 bytes are the image of the header they are read as |
| CameraProtocol.HeaderFrameLen | tools/libturion_source/src/lib.rs:150 | the frame length is the little-endian word in the first 4 bytes |
| Tunnel.ReservedCapacity | tools/libturion_source/src/lib.rs:536 | `reserve(n)` on an empty byte vector gives a capacity of at least `n`, exactly `n` when `n` is 0 or at least 8 |
| Tunnel.EventSet | tools/libturion_source/src/lib.rs:249-260 | the poll interest is writable exactly when TLS wants to write, and readable when it wants to read or does not want to write |
| Tunnel.Connection.constructor | tools/libturion_source/src/lib.rs:230-247 | a new connection has nothing buffered, the stream open, nothing written |
| Tunnel.Connection.Deliver | tools/libturion_source/src/lib.rs:289-321 | the event pump appends decrypted bytes and records how the peer ended the stream, the first end being final |
| Tunnel.Connection.WriteAll | tools/libturion_source/src/lib.rs:211-219 | `write_all` appends the bytes to what is sent and leaves the input side alone |
| Tunnel.Connection.Read | tools/libturion_source/src/lib.rs:221-225 | a read takes a prefix of at most `max` bytes; with nothing buffered it gives 0 exactly after a `close_notify`, `UnexpectedEof` exactly after a cut-off stream, `WouldBlock` exactly while the stream is open |
| Tunnel.Connection.ReadExact | tools/libturion_source/src/lib.rs:527-532 | `read_exact` is the specification `ReadExactSpec`: the bytes, `UnexpectedEof` after the peer ended the stream, cleanly or not, `WouldBlock` while it is open, consuming what was buffered |
| Tunnel.ReadExactSpec | tools/libturion_source/src/lib.rs:527-532 | `read_exact(n)` succeeds exactly when n bytes are buffered, returning the first n and leaving the rest; otherwise it drops what was buffered and fails with `WouldBlock` exactly while the stream is open, else `UnexpectedEof`; the peer's end is kept |
| Tunnel.FilledSampleRoundTrip | tools/libturion_source/src/lib.rs:361-388 | a sample handed a frame holds exactly its bytes with `size` = length, and destroying it empties it |
| Tunnel.BambuSample.constructor | tools/libturion_source/src/lib.rs:352-358 | the sample's fields are the given values |
| Tunnel.BambuSample.Reset | tools/libturion_source/src/lib.rs:503-513 | the first read zeroes the caller's sample |
| Tunnel.BambuSample.SetBuffer | tools/libturion_source/src/lib.rs:361-376 | the sample takes the header's `itrack` and `flags`, the data and its length, decode time 0 |
| Tunnel.BambuSample.DestroyBuffer | tools/libturion_source/src/lib.rs:378-388 | a positive-size sample is emptied; otherwise nothing changes |
| Tunnel.LocalTunnel.constructor | tools/libturion_source/src/lib.rs:392-400 | a new tunnel keeps its settings and has no connection, no request type, no state and no owned sample |
| Tunnel.LocalTunnel.Open | tools/libturion_source/src/lib.rs:410-444 | a second open is refused and changes nothing; otherwise the dial's outcome decides, and success gives a fresh connection in state `Initial` |
| Tunnel.LocalTunnel.Start | tools/libturion_source/src/lib.rs:446-470 | succeeds exactly when connected, not yet started, credentials fit and the pump succeeds; the start packet is written first; success moves to `ProcessStream` and records the request type |
| Tunnel.LocalTunnel.Close | tools/libturion_source/src/lib.rs:472-495 | succeeds exactly when connected, started, credentials fit and the pump succeeds; writes the stop packet with the stored request type; success returns to `Initial` |
| Tunnel.LocalTunnel.ReadSample | tools/libturion_source/src/lib.rs:497-590 | the new state, sample, stream and result are those of the specification `ReadSampleSpec` |
| Tunnel.ReadSampleSpec | tools/libturion_source/src/lib.rs:497-590 | one `read_sample` call as a value: the refusals, the header read into `ReceivingSample` with the reserved capacity, the hand-over of a complete frame, and the receive step, each reporting `Interrupted` to move on |
| Tunnel.ReceiveSpec | tools/libturion_source/src/lib.rs:562-582 | the bytes kept plus the bytes expected are unchanged and the bytes taken are the front of the stream; no error exactly when nothing more is expected; otherwise `WouldBlock` exactly while the stream is open and the failed `assert!` exactly after a `close_notify` |
| Tunnel.StartResult | tools/libturion_source/src/lib.rs:446-470 | `start` succeeds exactly when connected, not started, the credentials fit and the pump succeeds, and panics exactly when connected, not started and a credential is over 32 bytes |
| Tunnel.CloseResult | tools/libturion_source/src/lib.rs:472-495 | `close` succeeds exactly when connected, started, the credentials fit and the pump succeeds, and panics exactly when connected, started and a credential is over 32 bytes |
| Tunnel.Receive | tools/libturion_source/src/lib.rs:562-582 | the receive loop gives `ReceiveSpec`: it appends what is buffered up to `remaining`, and short of that ends in `WouldBlock` while the stream is open, in `UnexpectedEof` through `?` after a cut-off stream, and in the failed `assert!` after a `close_notify` |
| Tunnel.DialResult | tools/libturion_source/src/lib.rs:428-438 | opening succeeds exactly when name resolution, connection and handshake all succeed |
| Tunnel.ReadSampleKeepsAccounting | tools/libturion_source/src/lib.rs:536-541 | while a frame is received, the bytes kept plus the bytes still expected equal the reserved capacity |
| Tunnel.ReadSampleResults | tools/libturion_source/src/lib.rs:497-590 | a read succeeds exactly when a complete frame is waiting, and then hands it over; every failed read leaves an empty owned sample; on a healthy started stream a failure is `Interrupted` or `WouldBlock` |
| Tunnel.FrameDelivery | tools/libturion_source/src/lib.rs:521-555 | a frame of 8 bytes or more that has fully arrived is handed over on the third read, preceded by two `Interrupted` results |
| Tunnel.ShortFrameTakesNextBytes | tools/libturion_source/src/lib.rs:536-540 | a frame of 1 to 7 bytes is received as 8, taking the first bytes that follow it |
| Tunnel.EmptyFrameDelivery | tools/libturion_source/src/lib.rs:548-555 | a zero-length frame gives an empty sample on the second read |
| Tunnel.PartialHeaderDropped | tools/libturion_source/src/lib.rs:527-532 | a header that has only partly arrived is consumed and lost, and the stream stays in `ProcessStream` |
| Api.StatusCode | tools/libturion_source/src/api.rs:65-71 | 0 on success, -1 on an error, abort on a panic |
| Api.ReadSampleCode | tools/libturion_source/src/api.rs:193-207 | 0 on success, 2 for `WouldBlock` or `Interrupted`, -1 for other errors, abort on a panic |
| Api.CreateCode | tools/libturion_source/src/api.rs:36-48 | 0 for a parsed URL, 4 for a refused one, abort on a panic |
| Api.StreamTypeFor | tools/libturion_source/src/api.rs:142-148 | video selects stream type `0x3000`, otherwise 0 |
| Api.Create | tools/libturion_source/src/api.rs:30-49 | a handle exists exactly when the code is 0, and then holds the parsed settings in a fresh tunnel with no connection, state, request type or owned sample |
| Api.Open | tools/libturion_source/src/api.rs:58-72 | -1 for a null handle, otherwise the tunnel's open outcome as a code; on 0 a fresh connection in state `Initial`, otherwise connection and state unchanged; settings, request type and sample ownership always unchanged |
| Api.Close | tools/libturion_source/src/api.rs:75-85 | nothing for a null handle; otherwise the call aborts exactly when `close` panics; a successful close has written the stop packet for the recorded type and returned the stream to `Initial`; a failed one changes no state |
| Api.GetStreamCount | tools/libturion_source/src/api.rs:88-95 | -1 for a null handle, else 1 |
| Api.GetStreamInfo | tools/libturion_source/src/api.rs:98-122 | -1 and no write for a null handle; otherwise the fixed 1280x720 stream description and 0 |
| Api.StartStreamEx | tools/libturion_source/src/api.rs:125-139 | -1 for a null handle; otherwise `StatusCode` of `start`'s result: 0 exactly when it succeeds, -1 exactly when it fails without a panic, abort on a panic; success records the stream type, failure keeps state and type, and the start packet is written once the credentials fit |
| Api.StartStream | tools/libturion_source/src/api.rs:142-148 | `Bambu_StartStreamEx` with the type `StreamTypeFor(video)`: the same code conditions, the start packet for that type, the type recorded on success, state and type kept on failure |
| Api.SendMessage | tools/libturion_source/src/api.rs:151-164 | always -1 |
| Api.RecvMessage | tools/libturion_source/src/api.rs:167-180 | always -1 |
| Api.ReadSample | tools/libturion_source/src/api.rs:183-208 | -1 for a null handle, otherwise the tunnel's read outcome mapped by `ReadSampleCode`, with the new state, sample ownership, sample and stream of `ReadSampleSpec`; connection, settings, request type and written bytes unchanged |
| Api.FrameDeliveryCodes | tools/libturion_source/src/api.rs:193-207 | the slicer sees 2, 2, then 0 with the frame for a complete frame of 8 bytes or more |
| Api.HealthyStreamNeverFails | tools/libturion_source/src/api.rs:193-207 | on a started stream that is open and whose pump succeeds, `Bambu_ReadSample` returns only 0 or 2 |
| Api.EndMidFrameCodes | tools/libturion_source/src/lib.rs:562-582 | a stream that ends in the middle of a frame gives -1 when cut off, aborts after a `close_notify`, and gives 2 while still open |
| Mqtt.RawGcodeMessage | tools/bambu_mqtt/bambu_mqtt.py:162-170 | a `gcode_line` request carries the sequence number, the G-code and user id `"0"` |
| Mqtt.GcodeFileMessage | tools/bambu_mqtt/bambu_mqtt.py:174-181 | a `gcode_file` request carries the sequence number and the URL |
| Mqtt.ControlMessage | tools/bambu_mqtt/bambu_mqtt.py:226-268 | a stop, pause or resume request carries the sequence number, the command and an empty parameter |
| Mqtt.AmsArray | tools/bambu_mqtt/bambu_mqtt.py:219 | the AMS mapping is sent element by element |
| Mqtt.ProjectMessage | tools/bambu_mqtt/bambu_mqtt.py:200-202 | a project request carries the sequence number |
| Mqtt.ProjectMessagePlate | tools/bambu_mqtt/bambu_mqtt.py:203-204 | a project request asks for `project_file` with `Metadata/plate_<n>.gcode` |
| Mqtt.ProjectMessageAms | tools/bambu_mqtt/bambu_mqtt.py:219-220 | the mapping is passed through and the AMS is used exactly when the mapping is non-empty |
| Mqtt.ProjectMessageOptions | tools/bambu_mqtt/bambu_mqtt.py:211-214 | the URL and time-lapse flag are passed through; the bed type is always `textured_plate` |
| Mqtt.ProjectMessageCalibration | tools/bambu_mqtt/bambu_mqtt.py:215-218 | the bed-levelling, flow, vibration and layer-inspection flags are passed through |
| Mqtt.ProjectMessageIds | tools/bambu_mqtt/bambu_mqtt.py:205-206 | the project and profile ids are `"0"` |
| Mqtt.ProjectMessageTaskIds | tools/bambu_mqtt/bambu_mqtt.py:207-208 | the task and subtask ids are `"0"` |
| Mqtt.ProjectMessageBlanks | tools/bambu_mqtt/bambu_mqtt.py:209-212 | the subtask name, the file and `md5` are empty |
| Mqtt.ProjectMessageFields | tools/bambu_mqtt/bambu_mqtt.py:197-222 | the request has exactly the listed keys; the computed task name is not sent |
| Mqtt.SequenceIdsDistinguish | tools/bambu_mqtt/bambu_mqtt.py:84-88 | requests with different sequence numbers differ |
| Mqtt.Classify | tools/bambu_mqtt/bambu_mqtt.py:106-108 | the `is_push_status` test: a truthy `print` dictionary whose `command` is `push_status`, or `None` where `.get` raises on a non-dictionary |
| Mqtt.OnMessageSpec | tools/bambu_mqtt/bambu_mqtt.py:99-119 | the handler as a value: the connection signal on the first status report of a connect, replies queued, status reports to the callback; its properties are the lemmas below |
| Mqtt.OnMessageKeepsCoherent | tools/bambu_mqtt/bambu_mqtt.py:99-119 | routing a message keeps the client invariant: one published request per sequence number, at most one connection signal |
| Mqtt.RepliesQueuedInOrder | tools/bambu_mqtt/bambu_mqtt.py:114-115 | replies that are not status reports are queued in arrival order and nothing else changes |
| Mqtt.TelemetryReachesCallback | tools/bambu_mqtt/bambu_mqtt.py:116-119 | status reports go to the registered callback with its userdata, in order, or are dropped without one; the reply queue is untouched |
| Mqtt.ConnectSignalledOnce | tools/bambu_mqtt/bambu_mqtt.py:110-112 | during a connect, the first status report signals the connection once, however many follow |
| Mqtt.TelemetryKeepsSignal | tools/bambu_mqtt/bambu_mqtt.py:110-112 | outside a connect, status reports leave the connection signal alone |
| Mqtt.RepliesFirstInFirstOut | tools/bambu_mqtt/bambu_mqtt.py:154-160 | successive requests get the queued replies in order, and every request is published |
| Mqtt.PublishWithReplySpec | tools/bambu_mqtt/bambu_mqtt.py:154-160 | the message is recorded as published, and the reply is the oldest queued message, removed from the queue; nothing else changes |
| Mqtt.BambuMQTT.constructor | tools/bambu_mqtt/bambu_mqtt.py:49-74 | a new client has sequence number 0, empty queues, no callback |
| Mqtt.BambuMQTT.SetPushStatusUpdateCallback | tools/bambu_mqtt/bambu_mqtt.py:76-82 | only the callback and the userdata change |
| Mqtt.BambuMQTT.NextSequenceId | tools/bambu_mqtt/bambu_mqtt.py:84-88 | returns the current sequence number and increments it |
| Mqtt.BambuMQTT.OnMessage | tools/bambu_mqtt/bambu_mqtt.py:99-119 | the new state is `OnMessageSpec`; a message that makes the handler raise changes nothing |
| Mqtt.BambuMQTT.BeginConnect | tools/bambu_mqtt/bambu_mqtt.py:121-125 | `connect` marks the client as connecting |
| Mqtt.BambuMQTT.FinishConnect | tools/bambu_mqtt/bambu_mqtt.py:126 | `conn_state.get()` takes the connection signal |
| Mqtt.BambuMQTT.Publish | tools/bambu_mqtt/bambu_mqtt.py:151-152 | the message is appended to what is published |
| Mqtt.BambuMQTT.PublishWithReply | tools/bambu_mqtt/bambu_mqtt.py:154-160 | publishes, then returns the oldest queued reply and removes it |
| Mqtt.BambuMQTT.RunRawGcode | tools/bambu_mqtt/bambu_mqtt.py:162-172 | takes a sequence number and publishes the `gcode_line` request with reply |
| Mqtt.BambuMQTT.PrintGcode | tools/bambu_mqtt/bambu_mqtt.py:174-183 | takes a sequence number and publishes the `gcode_file` request with reply |
| Mqtt.BambuMQTT.PrintProject | tools/bambu_mqtt/bambu_mqtt.py:185-224 | takes a sequence number and publishes the `project_file` request with reply |
| Mqtt.BambuMQTT.StopPrint | tools/bambu_mqtt/bambu_mqtt.py:237-246 | takes a sequence number and publishes `stop` with reply |
| Mqtt.BambuMQTT.PausePrint | tools/bambu_mqtt/bambu_mqtt.py:248-257 | takes a sequence number and publishes `pause` with reply |
| Mqtt.BambuMQTT.ResumePrint | tools/bambu_mqtt/bambu_mqtt.py:259-268 | takes a sequence number and publishes `resume` with reply |
| Mqtt.BambuMQTT.StopPrintNoReply | tools/bambu_mqtt/bambu_mqtt.py:226-235 | takes a sequence number and publishes `stop` without touching the reply queue |
| Server.ParseXApiKey | tools/bambu_mqtt/server.py:12-39 | the parsing loops give the specification `ParseXApiKeySpec`: refusal, exception, or the configuration |
| Server.Configure | tools/bambu_mqtt/server.py:26-32 | the configuration keeps the entries, host, password and mapping, and takes the user and the bed type from their entries or the defaults `bblp` and `auto` |
| Server.ParseXApiKeyIntended | tools/bambu_mqtt/server.py:12-39 | intended: refuses exactly the headers the parser as written refuses, and every configuration it accepts has a non-empty host and password |
| Server.ParseXApiKeySpec | tools/bambu_mqtt/server.py:12-39 | `parse_x_api_key` as a value: refusal of a bad entry or missing credentials, the exception of a bad mapping, or the configuration; its properties are the lemmas below |
| Server.CollectHeader | tools/bambu_mqtt/server.py:13-21 | the entry loop yields the dictionary `CollectEntries` describes, or `None` at the first entry that is not one `key=value` |
| Server.ParseMapping | tools/bambu_mqtt/server.py:35-37 | the mapping loop yields `int` of every item in order, or `None` when one raises |
| Server.MalformedEntryRejected | tools/bambu_mqtt/server.py:15-19 | any `;` entry that is not exactly one `key=value` makes the header invalid |
| Server.EmptyHeaderRejected | tools/bambu_mqtt/server.py:15-19 | an empty header is invalid |
| Server.LastEntryWins | tools/bambu_mqtt/server.py:21 | a key is present exactly when some entry names it, and then it holds its last value |
| Server.ConfigureDefaults | tools/bambu_mqtt/server.py:26-32 | without the key: user `bblp`, bed type `auto`, no time-lapse, and levelling, flow and vibration calibration and layer inspection on; with the key, each of these five flags is true exactly when its value is the string `true` |
| Server.MissingCredentialsRejected | tools/bambu_mqtt/server.py:23-24 | a header without a non-empty host and password is refused |
| Server.ParseIntsPointwise | tools/bambu_mqtt/server.py:36-37 | when every item parses, the mapping is those integers in order |
| Server.IntStrings | tools/bambu_mqtt/server.py:33 | the mapping written out is `str` of each slot in order |
| Server.AmsMappingRoundTrip | tools/bambu_mqtt/server.py:33-37 | a non-empty comma-joined list of integers parses back to that list |
| Server.EmptyMappingRaises | tools/bambu_mqtt/server.py:33-37 | an empty `ams_mapping` raises `ValueError` |
| Server.MissingAmsMappingRaises | tools/bambu_mqtt/server.py:33-37 | as written, a valid header without `ams_mapping` raises |
| Server.IntendedDefaultsToNoMapping | tools/bambu_mqtt/server.py:33-37 | intended: such a header gives an empty mapping |
| Server.IntendedAgreesWithMapping | tools/bambu_mqtt/server.py:33-37 | the intended parser agrees with the written one whenever a mapping is given |
| Server.HeaderRoundTrip | tools/bambu_mqtt/server.py:15-21 | a header written from plain pairs parses to the map of those pairs, last pair winning |
| Server.CollectPairs | tools/bambu_mqtt/server.py:15-21 | entries that split into the given pairs collect into the map of those pairs |
| Server.UploadUriUnderCard | tools/bambu_mqtt/server.py:107-110 | the URI is `file:///sdcard/`, the path without a leading `/`, `/`, then the file name |
| Server.UploadUriIgnoresLeadingSlash | tools/bambu_mqtt/server.py:107-110 | a path with or without a leading `/` gives the same URI |
| Server.UploadUri | tools/bambu_mqtt/server.py:107-110 | the two f-strings of the SD-card URI, chosen by a leading `/`; `UploadUriUnderCard` states what they build |
| Server.BodyArgument | tools/bambu_mqtt/server.py:67 | `get_body_argument`: the default when absent, a 400 when not UTF-8, otherwise the last value with control characters blanked and whitespace stripped |
| Server.PostResponse | tools/bambu_mqtt/server.py:43-50 | `prepare` as written, then `PostBody`: 401 for a missing or refused header, 500 when the parser raises |
| Server.PostBody | tools/bambu_mqtt/server.py:66-139 | `post` as written, in the order of its checks: the command, the path decoding, the file, saving, the extension, the upload, the print call that always raises, then 204 |
| Server.UndecodableArgumentsFail | tools/bambu_mqtt/server.py:67-75 | a `command` that is not UTF-8 gets 400, and a `path` that is not UTF-8 gets 500 before the file is looked at, as written and as intended |
| Server.PaddedSelectAccepted | tools/bambu_mqtt/server.py:67-70 | the command is stripped before the comparison, so ` select` followed by a newline selects |
| Server.IntendedPrintStatus | tools/bambu_mqtt/server.py:120-139 | intended: 204 for an upload or an accepted print, 419 for a print the printer refused |
| Server.IntendedStatusIsHonest | tools/bambu_mqtt/server.py:43-139 | intended: every answer is 204 or an error status, and 204 exactly for a completed upload or accepted print |
| Server.PostStatusIntended | tools/bambu_mqtt/server.py:43-139 | intended: `prepare` then `post` answer 204, 400, 401, 419, 500 or 503, and 401 exactly for a missing or refused header |
| Server.PostBodyStatusIntended | tools/bambu_mqtt/server.py:66-139 | intended: `post` answers 204, 400, 419, 500 or 503, and 419 only for a print request the connected printer refused |
| Server.PrintRequestAlwaysFails | tools/bambu_mqtt/server.py:122-133 | as written, a print request that passes every check gets 500 where 204 is intended |
| Server.UnsupportedCommandAnswers200 | tools/bambu_mqtt/server.py:70-72 | as written, an unsupported command gets status 200 with a 503 page |
| Server.IntendedAgrees | tools/bambu_mqtt/server.py:12-39 | wherever the written parser does not raise, the intended one gives the same refusal or configuration |
| Server.AsWrittenAgreesOtherwise | tools/bambu_mqtt/server.py:43-139 | apart from the three findings, the error page written is the intended status, and a success is 204 in both |
| Print3mf.BaseNameAfterSlash | tools/bambu_mqtt/turion_print_3mf.py:25 | the base name of `dir/name` is `name` |
| Print3mf.PrinterUrlOfPath | tools/bambu_mqtt/turion_print_3mf.py:24-26 | the printer URL is `ftp://sdcard/` plus the file's base name, with or without a directory |
| Print3mf.PrinterUrl | tools/bambu_mqtt/turion_print_3mf.py:24-26 | the URL is `ftp://sdcard/` followed by a slash-free tail of the local path |
| Print3mf.BaseNameWithoutSlash | tools/bambu_mqtt/turion_print_3mf.py:25 | a name without `/` is its own base name |
| Print3mf.ResolveAmsMapping | tools/bambu_mqtt/turion_print_3mf.py:27-33 | a given mapping is kept; without one, `--use-ams` gives `[0, 1, 2, 3]` and otherwise none; the result is empty exactly when neither is given |
| Print3mf.UsesAmsWhenAsked | tools/bambu_mqtt/turion_print_3mf.py:27-33 | the request uses the AMS exactly when a mapping or `--use-ams` was given |
| Print3mf.StartDecisionFor | tools/bambu_mqtt/turion_print_3mf.py:94-103 | tracking follows exactly a `success` result; a missing result raises |
| Print3mf.HandleStartReply | tools/bambu_mqtt/turion_print_3mf.py:94-103 | a refused start publishes a stop and takes its reply; otherwise the client is untouched |
| Print3mf.StateTracker.constructor | tools/bambu_mqtt/turion_print_3mf.py:49-50 | tracking starts on, with exit code 0 |
| Print3mf.StateTracker.OnStatus | tools/bambu_mqtt/turion_print_3mf.py:53-86 | the new tracking state and client state are those of `TrackSpec`: a stop only on a print error, callback removed when tracking ends; nothing changes when it raises |
| Print3mf.TrackSpec | tools/bambu_mqtt/turion_print_3mf.py:53-86 | one tracker call as a value: quiet reports ignored, a raise for a non-dictionary or an unformattable error, a stop and code 1 on an error, code 0 on `FINISH`; its properties are the lemmas below |
| Print3mf.QuietReportIgnored | tools/bambu_mqtt/turion_print_3mf.py:57-60 | a report without a truthy `print` changes nothing |
| Print3mf.PrintErrorStops | tools/bambu_mqtt/turion_print_3mf.py:73-78 | a numeric print error stops the print and ends tracking with code 1, or 0 if the same report says `FINISH` |
| Print3mf.FinishWins | tools/bambu_mqtt/turion_print_3mf.py:80-86 | a `FINISH` report ends tracking with code 0 and unregisters the callback |
| Print3mf.TrackingOnlyEnds | tools/bambu_mqtt/turion_print_3mf.py:53-86 | tracking never resumes; ending it unregisters the callback; a stop is sent only for a print error |
| Print3mf.TelemetryRaisesOnlyOnOddError | tools/bambu_mqtt/turion_print_3mf.py:63-74 | on a status report the tracker raises exactly when the print error is nonzero and not an integer |
| Print3mf.TrackAllEnds | tools/bambu_mqtt/turion_print_3mf.py:105-109 | when tracking ends, some report was a `FINISH` (code 0) or a print error (code 1) |
| Print3mf.TrackAll | tools/bambu_mqtt/turion_print_3mf.py:53-106 | the tracker over the reports until it stops: while it still tracks, the state is unchanged; a changed state has stopped tracking with exit code 0 or 1 |
| Print3mf.ExitCode | tools/bambu_mqtt/turion_print_3mf.py:89-109 | the exit code from the start reply and every report delivered since the tracker was registered before the request, or `None` while the script waits |
| Print3mf.StaleFinishExitsAtOnce | tools/bambu_mqtt/turion_print_3mf.py:80-92 | a `FINISH` report delivered before the start reply already ends tracking, so an accepted print exits 0 at once |
| Print3mf.ExitCodes | tools/bambu_mqtt/turion_print_3mf.py:92-109 | the script exits with 0 or 1, and with 0 only after a successful start and a `FINISH` report |
| RemoteCamera.HeaderPacket | tools/turion_remote_camera/turion_remote_camera.py:18-28 | `struct.pack("IIII", ...)` as four little-endian words, or `None` where it raises; `HeaderPacketRoundTrip` states its properties |
| RemoteCamera.LoginPacket | tools/turion_remote_camera/turion_remote_camera.py:31-41 | the header `(0x40, 0x3000, 0, 0)` and the two `32s` credential fields; `LoginHeader` and `LoginIsStartPacket` state its properties |
| RemoteCamera.HeaderPacketRoundTrip | tools/turion_remote_camera/turion_remote_camera.py:18-28 | `struct.pack("IIII")` succeeds exactly when all four words fit in 32 bits, and then unpacks to them |
| RemoteCamera.Fixed32 | tools/turion_remote_camera/turion_remote_camera.py:36-40 | a `32s` field is 32 bytes |
| RemoteCamera.Fixed32Contents | tools/turion_remote_camera/turion_remote_camera.py:36-40 | `32s` pads short strings with zeros and truncates long ones |
| RemoteCamera.LoginHeader | tools/turion_remote_camera/turion_remote_camera.py:31-41 | the login packet is 80 bytes and starts with header `(0x40, 0x3000, 0, 0)` |
| RemoteCamera.LoginIsStartPacket | tools/turion_remote_camera/turion_remote_camera.py:31-41 | with credentials of at most 32 bytes, the login packet is the library's start packet for stream `0x3000` |
| RemoteCamera.LoginTruncatesCredentials | tools/turion_remote_camera/turion_remote_camera.py:36-40 | a user name over 32 bytes is cut to its first 32 bytes |
| RemoteCamera.CameraSocket.Write | tools/turion_remote_camera/turion_remote_camera.py:76 | written bytes are appended to what is sent |
| RemoteCamera.CameraSocket.Read | tools/turion_remote_camera/turion_remote_camera.py:48 | a read returns 1 to `n` bytes from the front of the stream |
| RemoteCamera.RecvFullSize | tools/turion_remote_camera/turion_remote_camera.py:44-52 | returns exactly the next `size` bytes of the stream and consumes them |
| RemoteCamera.NextFrame | tools/turion_remote_camera/turion_remote_camera.py:55-59 | a frame consumes its 16-byte header, its payload, and nothing more |
| RemoteCamera.HandlePacket | tools/turion_remote_camera/turion_remote_camera.py:55-61 | writes the next frame's payload to standard output and consumes that frame |
| RemoteCamera.UnframeStep | tools/turion_remote_camera/turion_remote_camera.py:78-79 | `n` rounds of the loop are one frame followed by `n - 1` rounds |
| RemoteCamera.Run | tools/turion_remote_camera/turion_remote_camera.py:74-79 | sends the login packet, then writes the payloads of the first `count` frames in order |
| RemoteCamera.Pump | tools/turion_remote_camera/turion_remote_camera.py:78-79 | the loop writes the payloads of the next `count` frames in order and sends nothing |
| RemoteCamera.NextFrameOfEncoded | tools/turion_remote_camera/turion_remote_camera.py:55-61 | a header followed by its payload is read back as that payload |
| RemoteCamera.UnframeEncoded | tools/turion_remote_camera/turion_remote_camera.py:74-79 | a stream of encoded frames is read back as their payloads, in order, leaving what follows |

## Left out

- TLS (rustls, Python `ssl`), sockets, `mio` polling, DNS and the TLS handshake are left out. `Dial` stands for the outcome of `open`'s connection steps. A `pump` parameter stands for the outcome of `process_events`. `Connection` and `CameraSocket` stand for the decrypted byte stream.
- Concurrency is left out. The paho delivery thread, the tornado event loop and the blocking `queue.get` are modelled as sequential steps. `PublishWithReply` requires a reply already queued, where the source blocks until one arrives.
- `Bambu_Destroy`, `Bambu_SetLogger`, `Bambu_Init`, `Bambu_Deinit`, `Bambu_GetLastErrorMsg`, `Bambu_GetDuration` and `Bambu_FreeLogMsg` are left out. They are no-ops or only drop the box.
- Raw pointers, `Box::leak` and the `Vec` memory hand-over are left out. `BambuSample` holds the bytes as a sequence.
- `probe_serial_number`, `bambu_sftp.py`, `fake_serv.py`, `main.c` and the `simple_test.rs` binary are not part of this model.
- Console output (`print`, `eprintln!`), `argparse`, `time.sleep`, `IndexHandler.get` and writing the uploaded file to disk are left out. Saving and uploading are the flags in `Effects`.
- JSON floats and nested parsing are left out. `Json.Value` is an already decoded payload.
- `to_string_lossy` on the C string is left out. `Bambu_Create` receives a Dafny string.
- `int()` and the stripping of `get_body_argument` treat only ASCII spaces as whitespace, and `int()` only ASCII digits as digits. Python also accepts Unicode whitespace and digits.
- Server.PostBody: the `print` argument is compared as raw bytes, and the request's arguments arrive already split into their last values; tornado's form parsing is not modelled.
- Write errors of the TLS writer are left out. `write_all` into rustls' buffer is taken to succeed.
- RemoteCamera.RecvFullSize: requires that the printer sends at least `size` more bytes. At end of stream the script spins forever, and that is not modelled.
- RemoteCamera.Run: models the first `count` rounds of the endless `while True` loop.
- Tunnel.LocalTunnel.ReadSample: a frame of 1 to 7 bytes is received as 8 bytes, because `reserve` rounds the capacity up. This source behaviour is modelled as written and shown by `Tunnel.ShortFrameTakesNextBytes`.
- Tunnel.LocalTunnel.ReadSample: a header that arrives in pieces is lost, as `Tunnel.PartialHeaderDropped` shows. This is also modelled as written.
- Settings.FromUrl: the `unwrap`s of a missing user, password or port are modelled as a `Panic` result, not as preconditions.
- Server: `UploadUri` uses the uploaded file's name as given, while the SFTP upload uses its base name. The SFTP side is not part of this model.
- Print3mf: the `reason` lookup after a refused start may raise. The exit status is 1 either way, so only that is modelled.

## Findings

| source | as written | input that shows it | evidently intended | confidence | as-written member | corrected member |
|---|---|---|---|---|---|---|
| tools/bambu_mqtt/server.py:33-37 | `res.get("ams_mapping", "").split(",")` gives `[""]` when the key is absent, and `int("")` raises `ValueError`, so the request fails with 500 | the header `host=h;pass=p` | no mapping means an empty mapping | medium, not executed | Server.MissingAmsMappingRaises | Server.IntendedDefaultsToNoMapping |
| tools/bambu_mqtt/server.py:122-133 | `print_project` is called with ten positional arguments, including `bed_type`, but takes nine after `self`, so `TypeError` gives 500 for every print request | a valid `.3mf` upload with `print=true` that the printer accepts | 204 when the printer accepts the print, 419 when it refuses | medium, not executed | Server.PrintRequestAlwaysFails | Server.IntendedPrintStatus |
| tools/bambu_mqtt/server.py:70-72 | `write_error(n)` called directly writes the error page but leaves the status at 200 (also at lines 77-79 and 90-92) | `command=cancel` with a valid header | the response status is `n`, as `send_error(n)` would set | medium, not executed | Server.UnsupportedCommandAnswers200 | Server.IntendedStatusIsHonest |
