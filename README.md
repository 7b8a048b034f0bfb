# gqrx-node remote-control client, modelled in Dafny

The library is a Node.js client for the remote-control port of the gqrx
software-defined-radio receiver. The daemon speaks a rigctld-style text
protocol: the client writes one command line (`F 145000000`, `M FM 10000`,
`u RECORD`, …). A set command answers with a report line such as `RPRT 0`,
whose second word is the status code. A get command answers with the value
itself. Everything lives in one class, `Client` (index.js):

- a guard on the socket's `pending` flag: `connect` only while pending,
  `sendCommand` only once connected;
- `sendCommand`, which writes the command text verbatim (no terminator) and
  settles with the first data chunk, trimmed, or with the socket's error;
- the facade methods, each of which builds one command line, replaces any
  failure of `sendCommand` with its own fixed message, and reads the reply
  (report code, raw text, lines, words or the flag "1");
- `setMode`, which checks the mode against a table of seven demodulators and
  sends the mode with that table's passband;
- `quit`, which writes `q\n` and destroys the socket.

The project has three modules:

- `Text` (text.dfy): the string operations the client relies on. These are
  JavaScript's `split` with a one-character separator and its inverse `Join`,
  `trim`, and the decimal text a template literal gives an integer. Each one
  is specified by what it means, not by how it computes.
- `Protocol` (protocol.dfy): `parseResponse`, the preset table, the command
  lines and the readers of get-command replies, as pure functions with lemmas
  about them.
- `Gqrx` (client.dfy): `class Client`. The socket is a `pending` field plus a
  ghost log `written` of every string handed to `socket.write`. The event the
  socket delivers after a write, a data chunk or an error, is a parameter of
  each call. Every method states its new `pending`, the exact text appended to
  the log, and its result.

The guard is a two-state machine. A client starts pending. `Connect` makes it
connected. In Node.js a destroyed socket reports `pending` again. `Quit`
destroys the socket, so the model returns to pending. A socket also emits
`'error'` only after it has been destroyed, so a command that settles with a
socket error returns the model to pending as well. While pending,
`SendCommand` fails with "Not connected" and writes nothing, and `Connect` is
accepted. Once connected, `Connect` fails with "Already connected".

index.js pairs each write with the next data or error event through one-shot
listeners; it has no queue, no timeout and no reassembly of replies.

## Model

| member | source | states |
|---|---|---|
| Protocol.ParseResponse | index.js:4-8 | a reply reports success exactly when its second space-separated word is "0": a space ends the first word, a '0' follows, then the end of the reply or another space; with no space, or any other second word, it is failure |
| Protocol.SecondWordIsZero | index.js:5-7 | the second piece of the reply's split on spaces is "0" exactly when the reply has a zero code after its first space |
| Protocol.ReportCodeExamples | index.js:4-8 | "RPRT 0" succeeds; "RPRT 1", "RPRT" and the empty reply fail |
| Protocol.PresetFor | index.js:82-94 | the `!presets[mode]` test accepts exactly the seven modes AM, FM, WFM, WFM_ST, LSB, USB, CW and yields that mode's table passband, which is never zero |
| Protocol.PresetCommandWords | index.js:98-110 | for every known mode, setMode writes "M", the mode and the decimal text of its preset as three space-separated words, and that text denotes the table's value |
| Protocol.FrequencyCommand | index.js:61 | the line "F <freq>"; FrequencyCommandWords states what it carries |
| Protocol.FrequencyCommandWords | index.js:61 | "F <freq>" with a space-free frequency splits back into "F" and the frequency |
| Protocol.ModeCommand | index.js:110 | the line "M <mode> <passband>"; ModeCommandWords states what it carries |
| Protocol.PresetCommand | index.js:98-110 | setMode's line for a known mode, with the preset formatted in decimal; PresetCommandWords states what it carries |
| Protocol.SquelchCommand | index.js:174 | the line "L SQL <level>"; SquelchCommandWords states what it carries |
| Protocol.RecordCommand | index.js:198 | the line "U RECORD <status>"; RecordCommandWords states what it carries |
| Protocol.LnbCommand | index.js:273 | the line "LNB_LO <freq>"; LnbCommandWords states what it carries |
| Protocol.LnbCommandWords | index.js:273 | "LNB_LO <freq>" with a space-free frequency splits back into "LNB_LO" and the frequency |
| Protocol.ModeCommandWords | index.js:110 | "M <mode> <passband>" with space-free arguments splits back into "M", the mode and the passband |
| Protocol.SquelchCommandWords | index.js:174 | "L SQL <level>" with a space-free level splits back into "L", "SQL" and the level |
| Protocol.RecordCommandWords | index.js:198 | "U RECORD <status>" with a space-free status splits back into "U", "RECORD" and the status |
| Protocol.RecordCommandTexts | index.js:212-218 | startRecording's status 1, formatted as `${1}`, gives "U RECORD 1" and stopRecording's 0 gives "U RECORD 0" |
| Protocol.ModeAndBandwidthOf | index.js:127-131 | the mode is the reply's first line and a prefix of it; the bandwidth is absent exactly when the reply has no newline; otherwise it is the whole second line: after the mode and a newline it runs to the end of the reply or to the next newline |
| Protocol.ModeAndBandwidthRoundTrip | index.js:127-131 | a reply made of a mode line and a bandwidth line is read back as that mode and that bandwidth |
| Protocol.ModeAndBandwidthIgnoresRest | index.js:127 | a mode line and a bandwidth line followed by a newline and anything else are read back as that mode and that bandwidth; further lines are ignored |
| Protocol.AvailableModesOf | index.js:143 | the reply split on spaces: at least one name, none containing a space, and joined with spaces they give back the reply |
| Protocol.AvailableModesRoundTrip | index.js:143 | a space-separated list of space-free mode names is read back as the same list in the same order |
| Protocol.RecordingFlag | index.js:209 | the `=== '1'` comparison; RecordingFlagOfLine states how it reads status lines |
| Protocol.RecordingFlagOfLine | index.js:206-210 | a status chunk "1" followed by any whitespace counts as recording after trimming; "0" followed by whitespace does not |
| Text.Split | index.js:5 | `split` yields at least one piece, no piece contains the separator, and joining the pieces with the separator gives back the input |
| Text.SplitJoin | index.js:143 | splitting the join of separator-free pieces gives back exactly those pieces, so the pieces of a split are unique |
| Text.SplitAtFirst | index.js:5 | the first piece of a split is the text before the first separator, and the rest is the split of the text after it |
| Text.Trim | index.js:42 | `trim` never lengthens its input and leaves no whitespace at either end of the result |
| Text.TrimIsSlice | index.js:42 | `trim` returns a slice of its input and removes only whitespace, on either side of that slice |
| Text.TrimPadded | index.js:42 | a text without whitespace at its ends, padded with any whitespace on both sides, trims back to exactly that text |
| Text.TrimTrailing | index.js:42 | a reply followed by a line ending or other trailing whitespace trims back to exactly the reply |
| Text.TrimUnpadded | index.js:42 | a reply with no whitespace at its ends is left unchanged by `trim` |
| Text.TrimIdempotent | index.js:42 | trimming an already trimmed reply changes nothing |
| Text.NatToDecimal | index.js:110 | the text a template literal gives a non-negative integer: setMode's preset passband here, and the `${1}` and `${0}` of startRecording and stopRecording at index.js:198; DecimalRoundTrip states what it denotes |
| Text.DecimalRoundTrip | index.js:110 | the decimal text of a non-negative integer is a non-empty run of digits with no leading zero that denotes that integer |
| Gqrx.Settle | index.js:34-53 | sendCommand settles with "Not connected" while pending; once connected, with the socket's own error, or with a text no longer than the data chunk and with no whitespace at its ends |
| Gqrx.Report | index.js:170-179 | a set command fails exactly when its exchange failed, always with the method's fixed message, and otherwise returns the reply's report code |
| Gqrx.Raw | index.js:244-254 | a get command fails exactly when its exchange failed, always with the method's fixed message, and otherwise returns the reply text unchanged |
| Gqrx.FailuresAreReplaced | index.js:170-179 | neither the "Not connected" guard error nor a socket error reaches a facade method's caller; the caller sees the method's own message |
| Gqrx.Client.constructor | index.js:11-17 | a new client holds its host and port (default localhost:7356) and starts pending with nothing written |
| Gqrx.Client.Connect | index.js:19-32 | connect fails with "Already connected" unless the socket is pending; either way the socket ends up connected, and nothing is written |
| Gqrx.Client.SendCommand | index.js:34-54 | while pending: "Not connected" and nothing written; once connected: the command is appended verbatim to the written log and the result is the trimmed chunk, or the socket's error, after which the destroyed socket is pending again |
| Gqrx.Client.SetFrequency | index.js:56-67 | writes "F <freq>" when connected; result is the report code, or "Failed to set frequency" |
| Gqrx.Client.GetFrequency | index.js:69-79 | writes "f" when connected; result is the reply text, or "Failed to get frequency" |
| Gqrx.Client.SetMode | index.js:81-104 | an unknown mode gives "Invalid mode" with nothing written; a known one writes "M <mode> <preset>" when connected, and the result is the report code or "Failed to set mode" |
| Gqrx.Client.SetModeAndPassband | index.js:106-116 | writes "M <mode> <passband>" when connected; result is the report code, or "Failed to set mode and passband" |
| Gqrx.Client.GetModeAndPassband | index.js:118-132 | writes "m" when connected; result is line 1 and line 2 of the reply, or "Failed to get mode and bandwidth" |
| Gqrx.Client.GetAvailableModes | index.js:134-144 | writes "M ?" when connected; result is the reply split on spaces, or "Failed to get available modes" |
| Gqrx.Client.GetSignalStrength | index.js:146-156 | writes "l STRENGTH" when connected; result is the reply text, or "Failed to get signal strength" |
| Gqrx.Client.GetSquelch | index.js:158-168 | writes "l SQL" when connected; result is the reply text, or "Failed to get squelch" |
| Gqrx.Client.SetSquelch | index.js:170-180 | writes "L SQL <level>" when connected; result is the report code, or "Failed to set squelch" |
| Gqrx.Client.GetRecordingStatus | index.js:182-192 | writes "u RECORD" when connected; result is the reply text, or "Failed to get recording status" |
| Gqrx.Client.SetRecordingStatus | index.js:194-204 | writes "U RECORD <status>" when connected; result is the report code, or "Failed to set recording status" |
| Gqrx.Client.IsRecording | index.js:206-210 | writes "u RECORD" when connected; true exactly when the trimmed reply is "1"; a failed read surfaces as "Failed to get recording status" |
| Gqrx.Client.StartRecording | index.js:212-214 | writes "U RECORD 1" when connected, with setRecordingStatus's result |
| Gqrx.Client.StopRecording | index.js:216-218 | writes "U RECORD 0" when connected, with setRecordingStatus's result |
| Gqrx.Client.TriggerAos | index.js:220-230 | writes "AOS" when connected; result is the report code, or "Failed to trigger AOS" |
| Gqrx.Client.TriggerLos | index.js:232-242 | writes "LOS" when connected; result is the report code, or "Failed to trigger LOS" |
| Gqrx.Client.GetVersion | index.js:244-254 | writes "_" when connected; result is the reply text, or "Failed to get version" |
| Gqrx.Client.GetLnb | index.js:256-266 | writes "LNB_LO" when connected; result is the reply text, or "Failed to get LNB" |
| Gqrx.Client.SetLnb | index.js:268-279 | writes "LNB_LO <freq>" when connected; result is the report code, or the getter's message "Failed to get LNB" |
| Gqrx.Client.Quit | index.js:281-284 | writes "q\n" whatever the state, then the destroyed socket is pending again |
| Gqrx.ConnectionLifecycle | index.js:22-37 | on a fresh client a command is refused with "Not connected"; connect succeeds once and then fails with "Already connected"; a command then goes through; after quit, commands are refused again |
| Gqrx.ErrorLifecycle | index.js:22-47 | after a socket error the failed command reports its method's message, the next command is refused with "Not connected", and connect is accepted again |

## Left out

- The socket itself, the `connect` callback and the `EventEmitter` wiring
  (index.js:16, 26-31, 40-51) are I/O. The first event after a write is a
  parameter. Which data chunk pairs with which command depends on event
  timing, so it is not modelled.
- Gqrx.Client.Connect: models a connection attempt that succeeds. When the
  attempt fails, the source's promise never settles, and the model does not
  capture that.
- Gqrx.Client.SetFrequency: does not model `mhz * 1000000` (floating point).
  The frequency is taken as its already formatted text.
- Gqrx.Client.SetLnb: does not model `mhz * 1000000` (floating point). The
  frequency is taken as its already formatted text.
- Gqrx.Client.GetFrequency: returns the reply text. The source then applies
  `parseInt(...) / 1000000.0`, which is floating point and not modelled.
- Gqrx.Client.GetSignalStrength: returns the reply text. The source then
  applies `parseFloat`, which is not modelled.
- Gqrx.Client.GetSquelch: returns the reply text. The source then applies
  `parseFloat`, which is not modelled.
- Gqrx.Client.SetSquelch: the level is taken as its already formatted text,
  because the source formats a float.
- Gqrx.Client.SetRecordingStatus: the status is taken as its already
  formatted text, because the source formats any value with `${status}`.
  StartRecording and StopRecording format their integers 1 and 0.
- Gqrx.Client.SetModeAndPassband: the passband is taken as its already
  formatted text. Only `setMode`'s integer presets are formatted by the model.
- Text.Trim: the whitespace set is space, tab, carriage return and line feed.
  JavaScript's `trim` also removes other Unicode spaces and line terminators.
- Protocol.PresetFor: the presets are a finite map of the seven own keys. In
  JavaScript, `!presets[mode]` also lets through inherited keys such as
  `toString`, and non-string modes are not modelled.
- Gqrx.Client.Quit: `written` records the calls to `socket.write`. It does not
  record the bytes delivered, so a `q\n` written on a socket that never
  connected is still logged.
- examples/scanner.js and example.js are demonstration drivers: an endless
  polling loop with `sleep`, a float comparison of squelch and strength, and
  console output. They are not part of this model.
