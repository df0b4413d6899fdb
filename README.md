# Prometheus MIDI controller: the serial-to-MIDI bridge in Dafny

Prometheus turns a microcontroller's faders into MIDI. The board prints one line
`"<pin>,<value>\n"` per reading on a serial port. The bridge splits the line at
commas, parses the pin and the value as `u8`, looks the pin up in a routing table
(pin 18 → CC 1, 19 → CC 11, 20 → CC 2, 21 → CC 3), and sends one Control Change on MIDI
channel 1. The program has two bridges:

- a terminal bridge (`src/main.rs`). The operator may retype the four controller numbers
  before it starts, and stops it with a flag that the loop checks at each read timeout.
- a GUI bridge (`src/ui.rs`). Its serial thread also stores each fader's last value in one of
  four slots shown by sliders. A WebSocket handler, `process_message`, turns browser
  messages into Control Change, Note-On or Pitch-Bend frames.

Modules:

- `Base`: `byte`, `u16`, `Option` and `Result`.
- `Strings`: the three Rust library operations the bridge relies on:
  - `str::split` on one character;
  - `u8::from_str` (an optional `+`, at least one ASCII digit, at most 255);
  - the UTF-8 test of `String::from_utf8` (Table 3-7 of section 3.9 of the Unicode Standard).
- `Faders`: the default routing table of `src/faders.rs`.
- `Midi`:
  - the frames the bridge sends;
  - `ClientMessage` (`src/midi.rs:34-40`);
  - the MIDI output connection, as the class `MidiSink` with an append-only log that
    refuses every frame when the device is absent.
- `Bridge`: the decode step and the route step that both serial loops share (the same code
  appears in both files). Every `unwrap` that can fail is an explicit `Failure` value.
- `Cli`:
  - `src/main.rs`'s own copy of the table;
  - `faders_term_settings`, modelled as the class `Faders` with the in-place
    `TermSettings` method;
  - the `run` loop, as the method `Run` proved against the spec function `RunFrom`.
- `Ui`:
  - the four observed slots, as the class `FaderValues`;
  - the serial thread, as the method `SerialThread` proved against `ThreadFrom`;
  - `process_message`, as the method `ProcessMessage` proved against `Dispatch`.

Reads, the stop flag and the state of the MIDI connection are inputs:
- A loop is run over a finite sequence of `read_line` results. `ReadOk(text)` completes a line.
  `ReadErr(kind, text)` keeps the partial text in `my_str`, as `read_line` does.
- The stop flag is given with each read, meaning the value a timeout would see.
- A panic ends the loop with status `Panicked(failure)` (terminal) or `Crashed(failure)`
  (GUI thread).

What the code does at the edges:
- A line that does not decode panics; it is not dropped. So does a pin missing from the
  table, and so does a failed send.
- Values are not range-checked to 0..127. Serial values up to 255, and `value as u8` from the
  browser, are passed on unchanged.
- There is no change detection. A repeated line is sent again.
- The value field is sliced by bytes, `&value[0..value.len() - 1]`. When its last character is
  ASCII the slice drops exactly that character. When the field is empty, or its last
  character takes more than one byte, the slice panics. Extra fields are ignored, except that
  a value no longer at the end of the line loses a digit.

## Model

| member | source | states |
|---|---|---|
| Faders.Get | src/main.rs:174 | `pins.get(&pin)`: the pin's controller when the pin is in the table, and nothing otherwise |
| Faders.Default | src/faders.rs:9-13 | the default table routes exactly pins 18, 19, 20, 21, each to a 7-bit controller (≤ 127) |
| Faders.DefaultEntries | src/faders.rs:11 | the entries are 18 → 1, 19 → 11, 20 → 2, 21 → 3 |
| Faders.DefaultUnrouted | src/faders.rs:11 | the lookup of any pin outside 18..21 yields no entry |
| Faders.DefaultDistinctControllers | src/faders.rs:11 | no two pins share a controller |
| Cli.DefaultPins | src/main.rs:21-27 | the copy of the table in main.rs equals the one in faders.rs |
| Cli.Faders.Default | src/main.rs:21-27 | a new terminal table is the default table |
| Strings.Split | src/main.rs:170 | `split(",")` yields one more piece than there are commas, and no piece contains a comma |
| Strings.JoinSplit | src/main.rs:170 | splitting loses nothing: joining the pieces with commas gives back the line |
| Strings.SplitJoin | src/main.rs:170 | comma-free pieces joined with commas split back into the same pieces |
| Strings.SplitFirst | src/main.rs:170 | the first piece runs to the first comma, and the rest is split on its own |
| Strings.SplitNoSeparator | src/main.rs:170 | text without a comma is a single piece |
| Strings.ParseU8 | src/main.rs:171-173 | `u8::from_str`: an optional `+`, then one or more ASCII digits whose value is at most 255; anything else, including an empty string or a trailing newline, is an error |
| Strings.ParseShowDecimal | src/main.rs:171 | a printed number parses back to itself exactly when it is ≤ 255; larger ones are rejected, not truncated |
| Strings.ShowDecimalHasNoComma | src/main.rs:170 | a printed number is never cut by the comma split |
| Bridge.Decode | src/main.rs:170-173 | one line's decode: split at commas, then the pieces are decoded by DecodePieces |
| Bridge.DecodePieces | src/main.rs:171-173 | the pin parse of the first piece, then the missing second piece, then the byte slice that drops the value's last character, then the value parse, each an error in that order |
| Bridge.Route | src/main.rs:174-175 | a decoded line's pin is looked up in the table; the result is the Control Change on channel 1 to its controller, or the decode error, or the unrouted pin |
| Bridge.ParseExamples | src/main.rs:171-173 | `u8` parsing accepts "18", "+18", "007" and rejects "", "256", "18\n", "10\r" |
| Bridge.DecodeShowLine | src/main.rs:170-173 | every line "p,v\n" the board prints for u8 values p and v decodes to exactly (p, v) |
| Bridge.DecodeFields | src/main.rs:170-173 | decode in terms of the line's shape: which failure comes first, and that the value is the second piece minus its last character, parsed |
| Bridge.DecodeNeedsComma | src/main.rs:170-172 | a line without a comma fails at the pin parse or for want of the value piece |
| Bridge.DecodeIgnoresExtraFields | src/main.rs:170-173 | pieces after the second do not affect the result |
| Bridge.DecodeEmptyLine | src/main.rs:165-171 | the empty line of end of input fails at the pin parse |
| Bridge.DecodeNoCommaExamples | src/main.rs:170-172 | "18\n" fails at the pin parse; "18" fails for want of a value piece |
| Bridge.DecodeEmptyValueExamples | src/main.rs:172-173 | "18,\n" fails at the value parse; "18," fails at the slice |
| Bridge.DecodeOverflowExamples | src/main.rs:171-173 | a pin or value of 256 fails |
| Bridge.DecodeCrLfExample | src/main.rs:173 | only one character is dropped, so a "\r\n" ending fails at the value parse |
| Bridge.DecodeNoNewlineExample | src/main.rs:173 | "18,10" without a newline reads value 1 |
| Bridge.DecodeExtraFieldExample | src/main.rs:170-173 | "18,10,5\n" reads value 1 |
| Bridge.DecodeSignAndZerosExample | src/main.rs:171-173 | "+18,007\n" reads (18, 7) |
| Bridge.RouteRouted | src/main.rs:174-175 | a printed line of a routed pin becomes the Control Change on channel 1 with controller `pins[p]` and value v |
| Bridge.RouteCases | src/main.rs:170-175 | routing succeeds if and only if the line decodes and its pin is in the table; otherwise it fails with the decode error or with the unrouted pin |
| Bridge.RouteDefault | src/main.rs:174-175 | with the default table only pins 18..21 produce a frame, always to a controller ≤ 127 |
| Cli.ParseFields | src/main.rs:135-138 | when all pieces parse there is one value per piece |
| Cli.ParseFieldsSpec | src/main.rs:135-138 | either every piece parses and the values are theirs, in order, or the reported piece is the first that does not parse |
| Cli.ParseFieldsFirstFailure | src/main.rs:135-138 | conversely, the failure reported is exactly the first piece that is not a u8 |
| Cli.ParseFourPieces | src/main.rs:135-138 | the four parses, spelled out: the first failing piece is reported, else the four values in order |
| Cli.OverrideFourPieces | src/main.rs:133-142 | on four pieces the first unparsable piece aborts with the table untouched; otherwise the four values are written in order |
| Cli.Written | src/main.rs:139-142 | the table after the four writes in order: every written pin is in it, and no other pin is added |
| Cli.AssignAllPresent | src/main.rs:139-142 | when every pin written exists, the override succeeds and the table is the writes applied in order |
| Cli.AssignAbortsAfterWrites | src/main.rs:139-142 | when pin k is the first missing one, `get_mut(..).unwrap()` panics there; the writes before it stay in place and no later write happens |
| Cli.Assign | src/main.rs:139-142 | the writes keep the table's pin set, and they succeed exactly when every written pin is present |
| Cli.Override | src/main.rs:130-146 | the override never changes which pins are routed |
| Cli.OverrideAccept | src/main.rs:130-131 | answering "y" keeps the table |
| Cli.OverrideWrongCount | src/main.rs:133-145 | input that does not split into exactly four pieces keeps the table |
| Cli.OverrideParsesBeforeWriting | src/main.rs:135-142 | if any of the four pieces fails to parse, nothing is written |
| Cli.OverrideFourValues | src/main.rs:133-142 | four u8 pieces overwrite pins 18, 19, 20, 21, in that order |
| Cli.ParseFourFields | src/main.rs:135-138 | four parsable pieces give their four values in order |
| Cli.ShowOverrideSplits | src/main.rs:133 | typed "a,b,c,d" splits into the four printed numbers |
| Cli.OverrideDefault | src/main.rs:117-147 | typing four numbers reassigns the default table to exactly those controllers |
| Cli.Faders.TermSettings | src/main.rs:117-147 | the in-place override leaves the table and the outcome of Override, with the same pin set |
| Cli.Step | src/main.rs:165-185 | one loop iteration: a completed line is decoded, routed and sent, or it panics; a timeout with the stop flag set stops the loop; any other read error keeps going with the partial line |
| Cli.RunFrom | src/main.rs:164-187 | the loop: iterations over the reads until it stops, panics, or the reads run out |
| Cli.StepStopsOnlyOnFlaggedTimeout | src/main.rs:179-185 | one iteration leaves the loop cleanly if and only if a read timed out with the stop flag set |
| Cli.StepPending | src/main.rs:165-169 | `my_str` is cleared after a successful read only; a failed read keeps it and appends to it |
| Cli.StepOtherError | src/main.rs:179-185 | a non-timeout read error neither stops the loop nor sends anything |
| Cli.StepLine | src/main.rs:167-178 | a completed line sends exactly one Control Change on channel 1 with the routed controller and decoded value, or it fails and sends nothing |
| Cli.StepUnrouted | src/main.rs:174 | a line of an unrouted pin fails at the lookup and sends nothing |
| Cli.RunStopsOnlyAtFlaggedTimeout | src/main.rs:164-187 | a run ends `Stopped` only if some read timed out with the stop flag set |
| Cli.RunExtendsLog | src/main.rs:175-177 | frames already sent stay sent; the log only grows |
| Cli.RunOneFramePerLine | src/main.rs:164-187 | at most one frame per completed line, and exactly one per line while the loop keeps running |
| Cli.RunSendsRoutedControlChanges | src/main.rs:174-177 | the loop sends nothing but Control Changes on channel 1 to controllers of the table |
| Cli.RunFirstLine | src/main.rs:165-177 | the first printed line of a routed pin is sent, and the loop moves on to the next line |
| Cli.StepShownLine | src/main.rs:167-177 | a printed line of a routed pin sends its frame and clears `my_str` |
| Cli.RunSendsEveryLine | src/main.rs:164-187 | printed lines of routed pins each send their Control Change, in order |
| Cli.RunRepeatsIdenticalLines | src/main.rs:164-187 | the printed lines a, b, a of routed pins send three frames, the repeated line again: there is no change detection |
| Cli.RunJoinsLineAcrossTimeout | src/main.rs:165-185 | a line cut by a timeout is completed by the next read and sent once |
| Cli.RunEndOfInput | src/main.rs:165-171 | at end of input the empty line panics at the pin parse, and nothing is sent |
| Cli.Run | src/main.rs:149-189 | the loop's result and its sent frames are exactly those of RunFrom, starting from an empty `my_str`; the connection state is left as it was |
| Midi.MidiSink.Send | src/main.rs:177 | a send appends the frame to the log if connected; otherwise it fails and changes nothing |
| Midi.WireRoundTrip | src/main.rs:175-176 | under the assumed MIDI 1.0 layout, every frame whose fields fit their MIDI sizes is read back from its bytes |
| Midi.PitchBendDataBytes | src/ui.rs:407-413 | a 14-bit pitch bend is sent as a low 7-bit part then a high 7-bit part (assumed layout) |
| Midi.PitchBendCentre | src/ui.rs:407-413 | the centre value 8192 on channel 1 is E0 00 40 (assumed layout) |
| Ui.Observe | src/ui.rs:201-223 | the `match arduino_pin` that stores the value in f1, f2, f3 or f4 for pins 18 to 21, and in no slot for any other pin |
| Ui.ObserveOwnSlot | src/ui.rs:201-223 | a value for pin 18/19/20/21 sets only f1/f2/f3/f4 respectively, and the other three slots keep their values |
| Ui.ObserveOtherPin | src/ui.rs:222 | a value for any other pin changes no slot |
| Ui.FaderValues.constructor | src/ui.rs:63-66 | the four slots start at 0 |
| Ui.FaderValues.Store | src/ui.rs:201-223 | storing updates the slots exactly as Observe says |
| Ui.StartShowsLastSent | src/ui.rs:63-66 | zeroed slots agree with an empty log |
| Ui.ThreadStep | src/ui.rs:190-238 | one iteration of the thread: decode, look up the pin, store the slot, then send; a timeout continues and any other read error ends the thread |
| Ui.ThreadFrom | src/ui.rs:189-240 | the thread's loop over the reads until it ends, crashes or the reads run out |
| Ui.ThreadStepUnrouted | src/ui.rs:200 | an unrouted pin fails at the lookup, before any slot update or send |
| Ui.ThreadStepRouted | src/ui.rs:200-230 | a routed line stores its value in its pin's slot, then sends one Control Change on channel 1 with `pins[pin]`; a refused send leaves the slot already updated |
| Ui.ThreadStepTimeout | src/ui.rs:233-234 | a timeout keeps the partial line and continues, and nothing else changes |
| Ui.ThreadStepOtherError | src/ui.rs:235-237 | any other read error ends the thread without storing or sending |
| Ui.ThreadEndsOnlyOnOtherError | src/ui.rs:189-240 | the thread ends cleanly only if some read failed with something other than a timeout |
| Ui.StepsAgree | src/ui.rs:190-231 | for a line or a timeout, the thread's iteration and the terminal loop's iteration send the same frame and fail the same way |
| Ui.ThreadAgreesWithCli | src/ui.rs:189-240 | until a non-timeout error, the thread sends exactly the frames the terminal loop sends for the same reads |
| Ui.ThreadSendsEveryLine | src/ui.rs:224-230 | printed lines of routed pins each send their Control Change, in order; repeats are sent again |
| Ui.StepShowsLastSent | src/ui.rs:200-230 | with the default table and a live connection, one iteration keeps each slot equal to the last value sent to its fader's controller |
| Ui.ThreadSlotsShowLastSent | src/ui.rs:189-240 | the same holds over a whole run |
| Ui.SerialThread | src/ui.rs:185-241 | the thread's exit status, slots and sent frames are exactly those of ThreadFrom; the connection state is left as it was |
| Ui.ClientFrames | src/ui.rs:389-414 | a client message yields at most one frame |
| Ui.ClientControlChange | src/ui.rs:389-397 | "cc" sends one Control Change on channel 1 to `cc_value` carrying `value mod 256` |
| Ui.ClientNoteOn | src/ui.rs:398-406 | "note" sends one Note-On on channel 1 for note `value mod 256` at velocity 127 |
| Ui.ClientPitchBend | src/ui.rs:407-414 | "pitch" sends one Pitch-Bend on channel 1 carrying the u16 value |
| Ui.ClientUnknownType | src/ui.rs:389-414 | any other `midi_type` sends nothing |
| Ui.ClientChannelIgnored | src/ui.rs:389-414 | the message's `channel` field never affects the frames; every frame is on channel 1 |
| Ui.ClientValueTruncated | src/ui.rs:393 | `value as u8` truncates (300 is sent as 44) rather than clamping |
| Ui.Dispatch | src/ui.rs:385-447 | the frames and the flow of each kind of WebSocket message, or the failing unwrap |
| Ui.DispatchCases | src/ui.rs:385-447 | only Close returns Break; only a parsed Text sends, at most one frame; failures are exactly an unparsable Text or non-UTF-8 Binary |
| Ui.DispatchBinary | src/ui.rs:416-425 | Binary fails exactly when its bytes are not UTF-8; ASCII always passes |
| Strings.ValidUtf8 | src/ui.rs:417 | the well-formed byte sequences of Table 3-7 of the Unicode Standard, which `String::from_utf8` accepts |
| Strings.AsciiIsValidUtf8 | src/ui.rs:417 | plain ASCII bytes are accepted by `String::from_utf8` |
| Strings.Utf8Examples | src/ui.rs:417 | a lone continuation byte, an overlong form and a surrogate are refused; two- and four-byte characters are accepted |
| Ui.ProcessMessage | src/ui.rs:384-448 | sends the frames Dispatch names, then returns its flow; an unwrap failure or refused send is returned as the error |

## Left out

- Device setup: `src/serial.rs`, `MidiSettings`, `midi_term_settings`, `serial_term_settings` and `connect`. These are calls into the serialport and midir crates.
- The GUI (`App::update`, the window bar), and `context.request_repaint()` in the serial thread: egui rendering.
- Ui.StepShowsLastSent and Ui.ThreadSlotsShowLastSent: each slot is also bound to an interactive slider (`src/ui.rs:248-265`). Dragging a slider overwrites its slot and sends no MIDI. These two lemmas hold only while the serial thread is the slots' only writer; the sliders' writes are not modelled.
- Cli.Run and Ui.SerialThread: the MIDI connection is either present for the whole run or absent for the whole run (`live`, read from `sink.connected` at the start). In the source a send can fail after earlier sends succeeded, for example when the device is unplugged during the run. The model cannot express that: in a run every send succeeds, or the first send fails and the loop panics there.
- The HTTP/WebSocket server, `ws_message` and `handle_socket`: async networking. `process_message` is modelled on one already-received message.
- JSON parsing with serde: a Text message carries the `ClientMessage` that parsing produced, or None when parsing fails.
- Threads and locks: the spawned quitting thread, `thread.join`, the `AtomicBool`, and the `Arc<Mutex<_>>` around the slots and the connection. The stop flag is an input at each read. Mutex poisoning is not modelled, so `lock().unwrap()` never fails here.
- The `println!`/`dbg!` output and the terminal prompts: the operator's answer to the override prompt is an input string.
- MIDI byte encoding: it happens in the midi_control crate, which is not part of this model. `Midi.WireBytes` is the MIDI 1.0 Channel Voice layout, taken as an assumption; the bridge does not mask or range-check data bytes.
- Midi.WireBytes: the assumed layout is meaningful for pitch bends up to 0x3FFF only. A `u16` bend from the browser of 0x4000 or more gives a second data byte of `bend / 128`, 128 or more, which is not a MIDI data byte; what midi_control sends for such a value is not modelled.
- The loops of the source run forever. Here they run over a finite sequence of read results, and a run that uses them all up ends with status `Running` or `Reading`.
- Cli.Run and Ui.SerialThread: the text read is a string of Unicode characters, not a byte stream. A read that splits a multi-byte character is not modelled, and `read_line`'s UTF-8 error is just one of the non-timeout errors.
- `app/src/components/Element.js`: this is browser code, and its pitch-bend scaling is floating point.
