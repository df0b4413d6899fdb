/**
 * The GUI bridge of src/ui.rs: the serial reader thread, which decodes and routes lines like
 * the terminal bridge and also shows the last value of each fader in one of four observed
 * slots, and `process_message`, which turns a browser message into at most one MIDI frame.
 */
module Ui {
  import opened Base
  import opened Strings
  import Routing = Faders
  import opened Midi
  import opened Bridge
  import Cli

  // ---------------------------------------------------------------------------
  // The observed slots f1value..f4value (ui.rs:44-47, 63-66, 201-223)
  // ---------------------------------------------------------------------------

  /** The values the four sliders show, one per fader pin. */
  datatype Slots = Slots(f1: byte, f2: byte, f3: byte, f4: byte)

  /** `App::new` puts every slot at 0. */
  const Zero: Slots := Slots(0, 0, 0, 0)

  /** The fader pin whose value slot `k` shows: f1 is pin 18, ..., f4 is pin 21. */
  function SlotPin(k: nat): byte
    requires k < 4
  {
    18 + k
  }

  /** Slot `k` (0 for f1, ..., 3 for f4). */
  function Slot(slots: Slots, k: nat): byte
    requires k < 4
  {
    if k == 0 then slots.f1 else if k == 1 then slots.f2 else if k == 2 then slots.f3 else slots.f4
  }

  /** `match arduino_pin { 18 => *f1 = v, 19 => *f2 = v, 20 => *f3 = v, 21 => *f4 = v, _ => () }`. */
  function Observe(slots: Slots, pin: byte, v: byte): Slots
  {
    if pin == 18 then slots.(f1 := v)
    else if pin == 19 then slots.(f2 := v)
    else if pin == 20 then slots.(f3 := v)
    else if pin == 21 then slots.(f4 := v)
    else slots
  }

  /** A value for pin 18..21 lands in that pin's own slot, and no other slot changes. */
  lemma ObserveOwnSlot(slots: Slots, pin: byte, v: byte, k: nat)
    requires k < 4
    ensures Slot(Observe(slots, pin, v), k) == if pin == SlotPin(k) then v else Slot(slots, k)
  {
  }

  /** A value for any other pin changes no slot at all. */
  lemma ObserveOtherPin(slots: Slots, pin: byte, v: byte)
    requires pin < 18 || pin > 21
    ensures Observe(slots, pin, v) == slots
  {
  }

  /**
   * `f1value`..`f4value`, each an `Arc<Mutex<u8>>` shared between the serial thread, which
   * writes them, and the sliders, which show them.
   */
  class FaderValues {
    var f1: byte
    var f2: byte
    var f3: byte
    var f4: byte

    /** ui.rs:63-66: every slot starts at 0. */
    constructor ()
      ensures Snapshot() == Zero
    {
      f1, f2, f3, f4 := 0, 0, 0, 0;
    }

    function Snapshot(): Slots
      reads this
    {
      Slots(f1, f2, f3, f4)
    }

    /** The `match arduino_pin` of the serial thread: store `v` in the slot of `pin`, if it has one. */
    method Store(pin: byte, v: byte)
      modifies this
      ensures Snapshot() == Observe(old(Snapshot()), pin, v)
    {
      if pin == 18 {
        f1 := v;
      } else if pin == 19 {
        f2 := v;
      } else if pin == 20 {
        f3 := v;
      } else if pin == 21 {
        f4 := v;
      }
    }
  }

  // ---------------------------------------------------------------------------
  // The serial reader thread (ui.rs:185-241)
  // ---------------------------------------------------------------------------

  /** `Ended` is the `break` on a read error other than a timeout; `Crashed` is a failed `unwrap`. */
  datatype ThreadStatus = Reading | Ended | Crashed(failure: Failure)

  /** The thread's state: `my_str`, the observed slots, the frames sent so far, and whether it goes on. */
  datatype ThreadState = ThreadState(pending: string, slots: Slots, sent: seq<Frame>, status: ThreadStatus)

  /**
   * One iteration of the thread's loop. A line is decoded, its pin looked up (an unrouted pin
   * fails here, before anything else), its value stored in the pin's slot, and only then the
   * Control Change sent. A timeout goes round again; any other read error leaves the loop.
   */
  function ThreadStep(pins: Routing.Pins, live: bool, s: ThreadState, r: ReadResult): ThreadState
  {
    match r
    case ReadOk(appended) =>
      (match Decode(s.pending + appended)
       case Err(e) => ThreadState("", s.slots, s.sent, Crashed(e))
       case Ok(sample) =>
         match Routing.Get(pins, sample.pin)
         case None => ThreadState("", s.slots, s.sent, Crashed(PinUnrouted(sample.pin)))
         case Some(cc) =>
           var slots := Observe(s.slots, sample.pin, sample.value);
           if live then ThreadState("", slots, s.sent + [ControlChange(Ch1, cc, sample.value)], s.status)
           else ThreadState("", slots, s.sent, Crashed(SendFailed)))
    case ReadErr(kind, appended) =>
      ThreadState(s.pending + appended, s.slots, s.sent, if kind == TimedOut then s.status else Ended)
  }

  /** The thread run over the results, until they run out or the loop leaves. */
  function ThreadFrom(pins: Routing.Pins, live: bool, s: ThreadState, results: seq<ReadResult>): ThreadState
    decreases |results|
  {
    if s.status != Reading || results == [] then s
    else ThreadFrom(pins, live, ThreadStep(pins, live, s, results[0]), results[1..])
  }

  /** An unrouted pin fails at the lookup: no slot changes and nothing is sent. */
  lemma ThreadStepUnrouted(pins: Routing.Pins, live: bool, s: ThreadState, appended: string)
    requires Decode(s.pending + appended).Ok? && Decode(s.pending + appended).value.pin !in pins
    ensures ThreadStep(pins, live, s, ReadOk(appended)) ==
      ThreadState("", s.slots, s.sent, Crashed(PinUnrouted(Decode(s.pending + appended).value.pin)))
  {
  }

  /**
   * A routed line stores its value in its pin's slot and sends one Control Change on channel 1
   * with the table's controller; if the connection refuses it, the slot is already updated.
   */
  lemma ThreadStepRouted(pins: Routing.Pins, live: bool, s: ThreadState, appended: string)
    requires Decode(s.pending + appended).Ok? && Decode(s.pending + appended).value.pin in pins
    ensures var sample := Decode(s.pending + appended).value;
      var n := ThreadStep(pins, live, s, ReadOk(appended));
      n.pending == "" && n.slots == Observe(s.slots, sample.pin, sample.value) &&
      n.sent == (if live then s.sent + [ControlChange(Ch1, pins[sample.pin], sample.value)] else s.sent) &&
      n.status == (if live then s.status else Crashed(SendFailed))
  {
  }

  /** A timeout keeps the partial line and goes on; nothing else changes. */
  lemma ThreadStepTimeout(pins: Routing.Pins, live: bool, s: ThreadState, appended: string)
    ensures ThreadStep(pins, live, s, ReadErr(TimedOut, appended)) ==
      ThreadState(s.pending + appended, s.slots, s.sent, s.status)
  {
  }

  /** Any other read error ends the thread without sending or storing anything. */
  lemma ThreadStepOtherError(pins: Routing.Pins, live: bool, s: ThreadState, appended: string)
    ensures var n := ThreadStep(pins, live, s, ReadErr(OtherError, appended));
      n.status == Ended && n.slots == s.slots && n.sent == s.sent
  {
  }

  /** If the thread ends cleanly, some read reported an error other than a timeout. */
  lemma {:induction false} ThreadEndsOnlyOnOtherError(pins: Routing.Pins, live: bool, s: ThreadState, results: seq<ReadResult>)
    requires s.status == Reading
    requires ThreadFrom(pins, live, s, results).status == Ended
    ensures exists i :: 0 <= i < |results| && results[i].ReadErr? && results[i].kind == OtherError
    decreases |results|
  {
    var n := ThreadStep(pins, live, s, results[0]);
    if n.status == Ended {
      assert results[0].ReadErr? && results[0].kind == OtherError;
    } else {
      ThreadEndsOnlyOnOtherError(pins, live, n, results[1..]);
      var i :| 0 <= i < |results[1..]| && results[1..][i].ReadErr? && results[1..][i].kind == OtherError;
      assert results[i + 1] == results[1..][i];
    }
  }

  // The thread and the terminal loop send the same frames for the same lines.

  /** The results as the terminal loop sees them, with the stop flag never set. */
  function AsTicks(results: seq<ReadResult>): (ticks: seq<Cli.Tick>)
    ensures |ticks| == |results|
    ensures forall i :: 0 <= i < |results| ==> ticks[i] == Cli.Tick(results[i], false)
  {
    if results == [] then [] else [Cli.Tick(results[0], false)] + AsTicks(results[1..])
  }

  predicate NoOtherError(results: seq<ReadResult>)
  {
    forall i :: 0 <= i < |results| ==> !(results[i].ReadErr? && results[i].kind == OtherError)
  }

  /** A thread state and a terminal-loop state that agree on everything the two loops share. */
  predicate Agree(u: ThreadState, c: Cli.State)
  {
    u.pending == c.pending && u.sent == c.sent &&
    match u.status
    case Reading => c.status == Cli.Running
    case Ended => false
    case Crashed(e) => c.status == Cli.Panicked(e)
  }

  lemma StepsAgree(pins: Routing.Pins, live: bool, u: ThreadState, c: Cli.State, r: ReadResult)
    requires Agree(u, c) && u.status == Reading
    requires !(r.ReadErr? && r.kind == OtherError)
    ensures Agree(ThreadStep(pins, live, u, r), Cli.Step(pins, live, c, Cli.Tick(r, false)))
  {
    if r.ReadOk? {
      RouteCases(pins, u.pending + r.appended);
    }
  }

  /**
   * As long as no read fails with anything but a timeout, the thread sends exactly the frames
   * the terminal loop sends and fails exactly where it fails; only the slots are extra.
   */
  lemma {:induction false} ThreadAgreesWithCli(pins: Routing.Pins, live: bool, u: ThreadState, c: Cli.State, results: seq<ReadResult>)
    requires Agree(u, c) && NoOtherError(results)
    ensures Agree(ThreadFrom(pins, live, u, results), Cli.RunFrom(pins, live, c, AsTicks(results)))
    decreases |results|
  {
    if u.status == Reading && results != [] {
      var ticks := AsTicks(results);
      assert ticks[1..] == AsTicks(results[1..]);
      StepsAgree(pins, live, u, c, results[0]);
      ThreadAgreesWithCli(pins, live, ThreadStep(pins, live, u, results[0]), Cli.Step(pins, live, c, ticks[0]), results[1..]);
    }
  }

  /** One complete printed line per sample. */
  function LineReads(samples: seq<Sample>): (results: seq<ReadResult>)
    ensures AsTicks(results) == Cli.LineTicks(samples)
    ensures NoOtherError(results)
  {
    if samples == [] then [] else [ReadOk(ShowLine(samples[0]))] + LineReads(samples[1..])
  }

  /**
   * Every well-formed line of a routed pin sends its Control Change, once per line and in order:
   * a repeated line is sent again (there is no deduplication).
   */
  lemma ThreadSendsEveryLine(pins: Routing.Pins, slots: Slots, sent: seq<Frame>, samples: seq<Sample>)
    requires forall i :: 0 <= i < |samples| ==> samples[i].pin in pins
    ensures var n := ThreadFrom(pins, true, ThreadState("", slots, sent, Reading), LineReads(samples));
      n.status == Reading && n.sent == sent + Cli.RoutedFrames(pins, samples)
  {
    Cli.RunSendsEveryLine(pins, sent, samples);
    ThreadAgreesWithCli(pins, true, ThreadState("", slots, sent, Reading), Cli.State("", sent, Cli.Running), LineReads(samples));
  }

  // What the sliders show.

  /** The value of the last Control Change sent to controller `cc`, or 0 if there was none. */
  function LastValue(sent: seq<Frame>, cc: byte): byte
  {
    if sent == [] then 0
    else if sent[|sent| - 1].ControlChange? && sent[|sent| - 1].control == cc then sent[|sent| - 1].value
    else LastValue(sent[..|sent| - 1], cc)
  }

  /** With the default table each slot shows the value last sent to its pin's controller. */
  predicate ShowsLastSent(slots: Slots, sent: seq<Frame>)
  {
    forall k :: 0 <= k < 4 ==> Slot(slots, k) == LastValue(sent, Routing.Default()[SlotPin(k)])
  }

  lemma LastValueAppend(sent: seq<Frame>, f: Frame, cc: byte)
    ensures LastValue(sent + [f], cc) ==
      if f.ControlChange? && f.control == cc then f.value else LastValue(sent, cc)
  {
    assert (sent + [f])[..|sent|] == sent;
  }

  lemma StepShowsLastSent(s: ThreadState, r: ReadResult)
    requires s.status == Reading && ShowsLastSent(s.slots, s.sent)
    ensures ShowsLastSent(ThreadStep(Routing.Default(), true, s, r).slots, ThreadStep(Routing.Default(), true, s, r).sent)
  {
    if r.ReadOk? && Decode(s.pending + r.appended).Ok? {
      var sample := Decode(s.pending + r.appended).value;
      if sample.pin in Routing.Default() {
        var f := ControlChange(Ch1, Routing.Default()[sample.pin], sample.value);
        ThreadStepRouted(Routing.Default(), true, s, r.appended);
        forall k | 0 <= k < 4
          ensures Slot(Observe(s.slots, sample.pin, sample.value), k) ==
            LastValue(s.sent + [f], Routing.Default()[SlotPin(k)])
        {
          ObserveOwnSlot(s.slots, sample.pin, sample.value, k);
          LastValueAppend(s.sent, f, Routing.Default()[SlotPin(k)]);
          if sample.pin != SlotPin(k) {
            Routing.DefaultDistinctControllers(sample.pin, SlotPin(k));
          }
        }
      }
    }
  }

  /**
   * While the MIDI connection accepts frames, the thread started with the default table and
   * zeroed slots keeps every slot equal to the last value it sent to that fader's controller.
   */
  lemma {:induction false} ThreadSlotsShowLastSent(s: ThreadState, results: seq<ReadResult>)
    requires ShowsLastSent(s.slots, s.sent)
    ensures var n := ThreadFrom(Routing.Default(), true, s, results); ShowsLastSent(n.slots, n.sent)
    decreases |results|
  {
    if s.status == Reading && results != [] {
      StepShowsLastSent(s, results[0]);
      ThreadSlotsShowLastSent(ThreadStep(Routing.Default(), true, s, results[0]), results[1..]);
    }
  }

  lemma StartShowsLastSent()
    ensures ShowsLastSent(Zero, [])
  {
  }

  /**
   * The thread body over a given sequence of read results, with the table, the slots and the
   * MIDI connection it shares with the window. `my_str` starts empty; the slots, the frames
   * sent and the way the loop ends are exactly those of ThreadFrom.
   */
  method SerialThread(results: seq<ReadResult>, pins: Routing.Pins, values: FaderValues, sink: MidiSink)
    returns (status: ThreadStatus)
    modifies values, sink
    ensures var final := ThreadFrom(pins, old(sink.connected), ThreadState("", old(values.Snapshot()), [], Reading), results);
      status == final.status && values.Snapshot() == final.slots && sink.log == old(sink.log) + final.sent
    ensures sink.connected == old(sink.connected)
  {
    ghost var live := sink.connected;
    ghost var log0 := sink.log;
    ghost var start := ThreadState("", values.Snapshot(), [], Reading);
    var myStr := "";
    status := Reading;
    var i := 0;
    assert sink.log[|log0|..] == [];
    while i < |results|
      invariant 0 <= i <= |results|
      invariant sink.connected == live
      invariant |log0| <= |sink.log| && sink.log[..|log0|] == log0
      invariant ThreadFrom(pins, live, ThreadState(myStr, values.Snapshot(), sink.log[|log0|..], Reading), results[i..]) ==
                ThreadFrom(pins, live, start, results)
    {
      ghost var before := ThreadState(myStr, values.Snapshot(), sink.log[|log0|..], Reading);
      var read := results[i];
      assert results[i..][1..] == results[i + 1..];
      match read {
        case ReadOk(appended) =>
          myStr := myStr + appended;
          var line := myStr;
          myStr := "";
          var decoded := Decode(line);
          if decoded.Err? {
            status := Crashed(decoded.error);
            break;
          }
          var cc := Routing.Get(pins, decoded.value.pin);
          if cc.None? {
            status := Crashed(PinUnrouted(decoded.value.pin));
            break;
          }
          values.Store(decoded.value.pin, decoded.value.value);
          var ok := sink.Send(ControlChange(Ch1, cc.value, decoded.value.value));
          if !ok {
            status := Crashed(SendFailed);
            break;
          }
          assert sink.log[|log0|..] == before.sent + [ControlChange(Ch1, cc.value, decoded.value.value)];
        case ReadErr(kind, appended) =>
          myStr := myStr + appended;
          if kind != TimedOut {
            status := Ended;
            break;
          }
      }
      i := i + 1;
    }
    assert sink.log == log0 + sink.log[|log0|..];
  }

  // ---------------------------------------------------------------------------
  // process_message (ui.rs:384-448)
  // ---------------------------------------------------------------------------

  datatype CloseFrame = CloseFrame(code: u16, reason: string)

  /**
   * A WebSocket message as axum delivers it. The JSON text of a `Text` message is given by
   * what `serde_json::from_str` makes of it: a ClientMessage, or None when it does not parse.
   */
  datatype Message =
    | Text(payload: Option<ClientMessage>)
    | Binary(data: seq<byte>)
    | Ping(data: seq<byte>)
    | Pong(data: seq<byte>)
    | Close(frame: Option<CloseFrame>)

  /** `ControlFlow<(), ()>`. */
  datatype Flow = Continue | Break

  /** The `unwrap`s of process_message. */
  datatype RemoteFailure = PayloadUnparsable | BinaryNotUtf8 | RemoteSendFailed

  /**
   * The frames for one client message: three independent `if`s on `midi_type`, each sending
   * on channel 1 whatever `channel` says. `value as u8` keeps the low eight bits.
   */
  function ClientFrames(m: ClientMessage): (frames: seq<Frame>)
    ensures |frames| <= 1
  {
    (if m.midiType == "cc" then [ControlChange(Ch1, m.ccValue, m.value % 256)] else []) +
    (if m.midiType == "note" then [NoteOn(Ch1, m.value % 256, 127)] else []) +
    (if m.midiType == "pitch" then [PitchBend(Ch1, m.value)] else [])
  }

  /**
   * What process_message does with a message before it touches the MIDI connection: the
   * frames to send and the flow to return, or the `unwrap` that fails first.
   */
  function Dispatch(msg: Message): Result<(seq<Frame>, Flow), RemoteFailure>
  {
    match msg
    case Text(payload) =>
      (match payload
       case None => Err(PayloadUnparsable)
       case Some(m) => Ok((ClientFrames(m), Continue)))
    case Binary(data) => if ValidUtf8(data) then Ok(([], Continue)) else Err(BinaryNotUtf8)
    case Ping(_) => Ok(([], Continue))
    case Pong(_) => Ok(([], Continue))
    case Close(_) => Ok(([], Break))
  }

  /** `"cc"`: one Control Change on channel 1 to `cc_value`, carrying `value mod 256`. */
  lemma ClientControlChange(m: ClientMessage)
    requires m.midiType == "cc"
    ensures ClientFrames(m) == [ControlChange(Ch1, m.ccValue, m.value % 256)]
  {
  }

  /** `"note"`: one Note-On on channel 1 for note `value mod 256` at velocity 127. */
  lemma ClientNoteOn(m: ClientMessage)
    requires m.midiType == "note"
    ensures ClientFrames(m) == [NoteOn(Ch1, m.value % 256, 127)]
  {
  }

  /** `"pitch"`: one Pitch-Bend on channel 1 carrying the whole `u16` value. */
  lemma ClientPitchBend(m: ClientMessage)
    requires m.midiType == "pitch"
    ensures ClientFrames(m) == [PitchBend(Ch1, m.value)]
  {
  }

  /** Any other `midi_type` sends nothing. */
  lemma ClientUnknownType(m: ClientMessage)
    requires m.midiType != "cc" && m.midiType != "note" && m.midiType != "pitch"
    ensures ClientFrames(m) == []
  {
  }

  /** The `channel` field never matters: every frame goes to channel 1. */
  lemma ClientChannelIgnored(m: ClientMessage, channel: byte)
    ensures ClientFrames(m.(channel := channel)) == ClientFrames(m)
    ensures forall i :: 0 <= i < |ClientFrames(m)| ==> ClientFrames(m)[i].channel == Ch1
  {
  }

  /** `value as u8` truncates: a "cc" value of 300 is sent as 44, not clamped to 127. */
  lemma ClientValueTruncated(cc: byte)
    ensures ClientFrames(ClientMessage("cc", 5, cc, 300)) == [ControlChange(Ch1, cc, 44)]
    ensures ClientFrames(ClientMessage("note", 5, cc, 256 + 60)) == [NoteOn(Ch1, 60, 127)]
  {
  }

  /**
   * Only Close breaks the receive loop; only a parsed Text message sends anything, and never
   * more than one frame; Binary, Ping and Pong go on without sending.
   */
  lemma DispatchCases(msg: Message)
    ensures Dispatch(msg).Ok? ==> (Dispatch(msg).value.1 == Break <==> msg.Close?)
    ensures Dispatch(msg).Ok? ==> |Dispatch(msg).value.0| <= 1
    ensures Dispatch(msg).Ok? && Dispatch(msg).value.0 != [] ==> msg.Text? && msg.payload.Some?
    ensures Dispatch(msg).Err? <==>
      (msg.Text? && msg.payload.None?) || (msg.Binary? && !ValidUtf8(msg.data))
  {
  }

  /** A Binary message fails exactly when its bytes are not UTF-8; ASCII always passes. */
  lemma DispatchBinary(data: seq<byte>)
    ensures Dispatch(Binary(data)) == if ValidUtf8(data) then Ok(([], Continue)) else Err(BinaryNotUtf8)
    ensures (forall i :: 0 <= i < |data| ==> data[i] < 0x80) ==> Dispatch(Binary(data)) == Ok(([], Continue))
  {
    if forall i :: 0 <= i < |data| ==> data[i] < 0x80 {
      AsciiIsValidUtf8(data);
    }
  }

  /**
   * `process_message` with the shared MIDI connection: sends the frames Dispatch names, then
   * returns its flow. A failed unwrap is returned as the error instead; a refused send
   * changes nothing in the log.
   */
  method ProcessMessage(msg: Message, sink: MidiSink) returns (r: Result<Flow, RemoteFailure>)
    modifies sink
    ensures Dispatch(msg).Err? ==> r == Err(Dispatch(msg).error) && sink.log == old(sink.log)
    ensures Dispatch(msg).Ok? ==>
      var (frames, flow) := Dispatch(msg).value;
      if frames == [] || old(sink.connected) then r == Ok(flow) && sink.log == old(sink.log) + frames
      else r == Err(RemoteSendFailed) && sink.log == old(sink.log)
    ensures sink.connected == old(sink.connected)
  {
    match msg {
      case Text(payload) =>
        if payload.None? {
          return Err(PayloadUnparsable);
        }
        var m := payload.value;
        if m.midiType == "cc" {
          var ok := sink.Send(ControlChange(Ch1, m.ccValue, m.value % 256));
          if !ok {
            return Err(RemoteSendFailed);
          }
        }
        if m.midiType == "note" {
          var ok := sink.Send(NoteOn(Ch1, m.value % 256, 127));
          if !ok {
            return Err(RemoteSendFailed);
          }
        }
        if m.midiType == "pitch" {
          var ok := sink.Send(PitchBend(Ch1, m.value));
          if !ok {
            return Err(RemoteSendFailed);
          }
        }
      case Binary(data) =>
        if !ValidUtf8(data) {
          return Err(BinaryNotUtf8);
        }
      case Close(_) =>
        return Ok(Break);
      case Pong(_) =>
      case Ping(_) =>
    }
    r := Ok(Continue);
  }
}
