/**
 * The terminal bridge of src/main.rs: its own copy of the routing table, the terminal
 * override of the four controller numbers, and the `run` loop that turns serial lines into
 * Control Changes until the operator's stop flag is seen at a read timeout.
 */
module Cli {
  import opened Base
  import opened Strings
  import Routing = Faders
  import opened Midi
  import opened Bridge

  // ---------------------------------------------------------------------------
  // The routing table (main.rs:17-27) and its terminal override (main.rs:117-147)
  // ---------------------------------------------------------------------------

  /** main.rs keeps its own `Faders::default()`; it is the same table as src/faders.rs. */
  function DefaultPins(): (pins: Routing.Pins)
    ensures pins == Routing.Default()
  {
    map[18 := 1, 19 := 11, 20 := 2, 21 := 3]
  }

  /** The pins the four override values go to, in input order. */
  const OverridePins: seq<byte> := [18, 19, 20, 21]

  datatype OverrideFailure = FieldUnparsable(index: nat) | PinMissing(pin: byte)

  /** How `faders_term_settings` ends; `Aborted` is one of its `unwrap`s failing. */
  datatype OverrideOutcome = Accepted | WrongFieldCount | Reassigned | Aborted(failure: OverrideFailure)

  /** Parses every piece as a `u8`, or reports the first piece that does not parse. */
  function ParseFields(fields: seq<string>): (r: Result<seq<byte>, nat>)
    ensures r.Ok? ==> |r.value| == |fields|
  {
    if fields == [] then Ok([])
    else
      match ParseU8(fields[0])
      case None => Err(0)
      case Some(v) =>
        match ParseFields(fields[1..])
        case Err(i) => Err(i + 1)
        case Ok(vs) => Ok([v] + vs)
  }

  /**
   * ParseFields succeeds with the value of every piece, in order, or names the first piece
   * that is not a `u8`, all earlier pieces having parsed.
   */
  lemma {:induction false} ParseFieldsSpec(fields: seq<string>)
    ensures var r := ParseFields(fields);
      r.Ok? ==> |r.value| == |fields| && forall i :: 0 <= i < |fields| ==> ParseU8(fields[i]) == Some(r.value[i])
    ensures var r := ParseFields(fields);
      r.Err? ==> (r.error < |fields| && ParseU8(fields[r.error]).None? &&
                  forall i :: 0 <= i < r.error ==> ParseU8(fields[i]).Some?)
    decreases |fields|
  {
    if fields != [] && ParseU8(fields[0]).Some? {
      var rest := fields[1..];
      ParseFieldsSpec(rest);
      assert forall i :: 0 <= i < |rest| ==> rest[i] == fields[i + 1];
    }
  }

  /** Conversely, the error is exactly the first piece that does not parse. */
  lemma {:induction false} ParseFieldsFirstFailure(fields: seq<string>, k: nat)
    requires k < |fields| && ParseU8(fields[k]).None?
    requires forall i :: 0 <= i < k ==> ParseU8(fields[i]).Some?
    ensures ParseFields(fields) == Err(k)
    decreases k
  {
    if k > 0 {
      var rest := fields[1..];
      assert ParseU8(fields[0]).Some?;
      assert forall i :: 0 <= i < k - 1 ==> rest[i] == fields[i + 1];
      ParseFieldsFirstFailure(rest, k - 1);
    }
  }

  /**
   * `*faders.pins.get_mut(&k).unwrap() = v` for each key in turn: an existing entry is
   * overwritten; a missing key panics, leaving the earlier assignments in place.
   */
  function Assign(pins: Routing.Pins, keys: seq<byte>, values: seq<byte>): (r: (OverrideOutcome, Routing.Pins))
    requires |keys| == |values|
    ensures r.1.Keys == pins.Keys
    ensures r.0 == Reassigned || r.0.Aborted?
    ensures r.0 == Reassigned <==> forall i :: 0 <= i < |keys| ==> keys[i] in pins
  {
    if keys == [] then (Reassigned, pins)
    else if keys[0] !in pins then (Aborted(PinMissing(keys[0])), pins)
    else Assign(pins[keys[0] := values[0]], keys[1..], values[1..])
  }

  /** The table after the writes `keys[i] := values[i]`, in order, ignoring whether the keys exist. */
  function Written(pins: Routing.Pins, keys: seq<byte>, values: seq<byte>): (r: Routing.Pins)
    requires |keys| == |values|
    ensures forall i :: 0 <= i < |keys| ==> keys[i] in r
    ensures forall p :: p in pins ==> p in r
    ensures forall p :: p in r && p !in pins ==> p in keys
    decreases |keys|
  {
    if keys == [] then pins else Written(pins[keys[0] := values[0]], keys[1..], values[1..])
  }

  /** When every key exists, the assignments are exactly the writes, in order. */
  lemma {:induction false} AssignAllPresent(pins: Routing.Pins, keys: seq<byte>, values: seq<byte>)
    requires |keys| == |values|
    requires forall i :: 0 <= i < |keys| ==> keys[i] in pins
    ensures Assign(pins, keys, values) == (Reassigned, Written(pins, keys, values))
    decreases |keys|
  {
    if keys != [] {
      var rest := keys[1..];
      assert forall i :: 0 <= i < |rest| ==> rest[i] == keys[i + 1];
      AssignAllPresent(pins[keys[0] := values[0]], rest, values[1..]);
    }
  }

  /**
   * When key k is the first one missing, the unwrap panics there: the writes to the keys before
   * it have taken effect, and no later one has.
   */
  lemma {:induction false} AssignAbortsAfterWrites(pins: Routing.Pins, keys: seq<byte>, values: seq<byte>, k: nat)
    requires |keys| == |values| && k < |keys|
    requires keys[k] !in pins
    requires forall i :: 0 <= i < k ==> keys[i] in pins
    ensures Assign(pins, keys, values) == (Aborted(PinMissing(keys[k])), Written(pins, keys[..k], values[..k]))
    decreases k
  {
    if k > 0 {
      var rest := keys[1..];
      assert keys[0] in pins && keys[0] != keys[k];
      assert forall i :: 0 <= i < k - 1 ==> rest[i] == keys[i + 1];
      AssignAbortsAfterWrites(pins[keys[0] := values[0]], rest, values[1..], k - 1);
      assert keys[..k][1..] == rest[..k - 1];
      assert values[..k][1..] == values[1..][..k - 1];
    }
  }

  /**
   * The effect of `faders_term_settings` on the table: "y" accepts it as it is; otherwise the
   * input must split into exactly four pieces, all four must parse as `u8` before anything is
   * written, and then they are written to pins 18, 19, 20 and 21 in that order.
   */
  function Override(pins: Routing.Pins, input: string): (r: (OverrideOutcome, Routing.Pins))
    ensures r.1.Keys == pins.Keys
  {
    if input == "y" then (Accepted, pins)
    else
      var fields := Split(input, ',');
      if |fields| != 4 then (WrongFieldCount, pins)
      else
        match ParseFields(fields)
        case Err(i) => (Aborted(FieldUnparsable(i)), pins)
        case Ok(values) => Assign(pins, OverridePins, values)
  }

  /** Answering "y" keeps the table. */
  lemma OverrideAccept(pins: Routing.Pins)
    ensures Override(pins, "y") == (Accepted, pins)
  {
  }

  /** ParseFields on four pieces, spelled out. */
  lemma ParseFourPieces(f: seq<string>)
    requires |f| == 4
    ensures ParseFields(f) ==
      if ParseU8(f[0]).None? then Err(0)
      else if ParseU8(f[1]).None? then Err(1)
      else if ParseU8(f[2]).None? then Err(2)
      else if ParseU8(f[3]).None? then Err(3)
      else Ok([ParseU8(f[0]).value, ParseU8(f[1]).value, ParseU8(f[2]).value, ParseU8(f[3]).value])
  {
    if ParseU8(f[0]).None? {
      ParseFieldsFirstFailure(f, 0);
    } else if ParseU8(f[1]).None? {
      ParseFieldsFirstFailure(f, 1);
    } else if ParseU8(f[2]).None? {
      ParseFieldsFirstFailure(f, 2);
    } else if ParseU8(f[3]).None? {
      ParseFieldsFirstFailure(f, 3);
    } else {
      ParseFourFields(f, ParseU8(f[0]).value, ParseU8(f[1]).value, ParseU8(f[2]).value, ParseU8(f[3]).value);
    }
  }

  /**
   * Override on four pieces, spelled out: the first piece that is not a `u8` aborts with the
   * table untouched; otherwise the four values are assigned in order.
   */
  lemma OverrideFourPieces(pins: Routing.Pins, input: string)
    requires input != "y" && |Split(input, ',')| == 4
    ensures var f := Split(input, ',');
      Override(pins, input) ==
        if ParseU8(f[0]).None? then (Aborted(FieldUnparsable(0)), pins)
        else if ParseU8(f[1]).None? then (Aborted(FieldUnparsable(1)), pins)
        else if ParseU8(f[2]).None? then (Aborted(FieldUnparsable(2)), pins)
        else if ParseU8(f[3]).None? then (Aborted(FieldUnparsable(3)), pins)
        else Assign(pins, OverridePins, [ParseU8(f[0]).value, ParseU8(f[1]).value, ParseU8(f[2]).value, ParseU8(f[3]).value])
  {
    ParseFourPieces(Split(input, ','));
  }

  /** One assignment: a missing key aborts with the table as it is; a present one is overwritten first. */
  lemma AssignStep(pins: Routing.Pins, keys: seq<byte>, values: seq<byte>)
    requires |keys| == |values| && keys != []
    ensures Assign(pins, keys, values) ==
      if keys[0] in pins then Assign(pins[keys[0] := values[0]], keys[1..], values[1..])
      else (Aborted(PinMissing(keys[0])), pins)
  {
  }

  /** Anything but four comma-separated pieces leaves the table as it was. */
  lemma OverrideWrongCount(pins: Routing.Pins, input: string)
    requires input != "y" && Count(input, ',') != 3
    ensures Override(pins, input) == (WrongFieldCount, pins)
  {
  }

  /** Nothing is written unless all four pieces parse. */
  lemma OverrideParsesBeforeWriting(pins: Routing.Pins, input: string, i: nat)
    requires input != "y" && |Split(input, ',')| == 4
    requires i < 4 && ParseU8(Split(input, ',')[i]).None?
    ensures Override(pins, input).1 == pins
    ensures Override(pins, input).0.Aborted? && Override(pins, input).0.failure.FieldUnparsable?
  {
    ParseFieldsSpec(Split(input, ','));
  }

  /** Four `u8` pieces overwrite the controllers of pins 18, 19, 20, 21, in that order. */
  lemma OverrideFourValues(pins: Routing.Pins, input: string, a: byte, b: byte, c: byte, d: byte)
    requires input != "y"
    requires 18 in pins && 19 in pins && 20 in pins && 21 in pins
    requires |Split(input, ',')| == 4
    requires ParseU8(Split(input, ',')[0]) == Some(a) && ParseU8(Split(input, ',')[1]) == Some(b)
    requires ParseU8(Split(input, ',')[2]) == Some(c) && ParseU8(Split(input, ',')[3]) == Some(d)
    ensures Override(pins, input) == (Reassigned, pins[18 := a][19 := b][20 := c][21 := d])
  {
    var fields := Split(input, ',');
    ParseFourFields(fields, a, b, c, d);
    var values := [a, b, c, d];
    var p1 := pins[18 := a];
    var p2 := p1[19 := b];
    var p3 := p2[20 := c];
    assert Assign(pins, OverridePins, values) == Assign(p1, OverridePins[1..], values[1..]);
    assert Assign(p1, OverridePins[1..], values[1..]) == Assign(p2, OverridePins[2..], values[2..]);
    assert Assign(p2, OverridePins[2..], values[2..]) == Assign(p3, OverridePins[3..], values[3..]);
    assert Assign(p3, OverridePins[3..], values[3..]) == Assign(p3[21 := d], [], []);
  }

  lemma ParseFourFields(fields: seq<string>, a: byte, b: byte, c: byte, d: byte)
    requires |fields| == 4
    requires ParseU8(fields[0]) == Some(a) && ParseU8(fields[1]) == Some(b)
    requires ParseU8(fields[2]) == Some(c) && ParseU8(fields[3]) == Some(d)
    ensures ParseFields(fields) == Ok([a, b, c, d])
  {
    var r := ParseFields(fields);
    ParseFieldsSpec(fields);
    assert forall i :: 0 <= i < 4 ==> ParseU8(fields[i]).Some?;
    assert r.Ok? && |r.value| == 4;
    assert ParseU8(fields[0]) == Some(r.value[0]) && ParseU8(fields[1]) == Some(r.value[1]);
    assert ParseU8(fields[2]) == Some(r.value[2]) && ParseU8(fields[3]) == Some(r.value[3]);
    assert r.value == [a, b, c, d];
  }

  /** The four values written as the operator types them, "a,b,c,d". */
  function ShowOverride(a: byte, b: byte, c: byte, d: byte): string
  {
    ShowDecimal(a) + [','] + ShowDecimal(b) + [','] + ShowDecimal(c) + [','] + ShowDecimal(d)
  }

  /** The typed text splits back into the four printed numbers. */
  lemma ShowOverrideSplits(a: byte, b: byte, c: byte, d: byte)
    ensures Split(ShowOverride(a, b, c, d), ',') ==
      [ShowDecimal(a), ShowDecimal(b), ShowDecimal(c), ShowDecimal(d)]
  {
    var sa, sb, sc, sd := ShowDecimal(a), ShowDecimal(b), ShowDecimal(c), ShowDecimal(d);
    ShowDecimalHasNoComma(a);
    ShowDecimalHasNoComma(b);
    ShowDecimalHasNoComma(c);
    ShowDecimalHasNoComma(d);
    var t3 := sc + [','] + sd;
    var t2 := sb + [','] + t3;
    assert ShowOverride(a, b, c, d) == sa + [','] + t2;
    SplitNoSeparator(sd, ',');
    SplitFirst(sc, ',', sd);
    SplitFirst(sb, ',', t3);
    SplitFirst(sa, ',', t2);
  }

  /** Typing four numbers reassigns the default table completely, keeping its pins. */
  lemma OverrideDefault(a: byte, b: byte, c: byte, d: byte)
    ensures Override(DefaultPins(), ShowOverride(a, b, c, d)) ==
      (Reassigned, map[18 := a, 19 := b, 20 := c, 21 := d])
  {
    var input := ShowOverride(a, b, c, d);
    ShowOverrideSplits(a, b, c, d);
    ParseShowDecimal(a);
    ParseShowDecimal(b);
    ParseShowDecimal(c);
    ParseShowDecimal(d);
    assert |input| >= 7;
    OverrideFourValues(DefaultPins(), input, a, b, c, d);
    assert DefaultPins()[18 := a][19 := b][20 := c][21 := d] == map[18 := a, 19 := b, 20 := c, 21 := d];
  }

  /** `struct Faders` of main.rs: the routing table the terminal override edits in place. */
  class Faders {
    var pins: Routing.Pins

    /** `Faders::default()` (main.rs:21-27). */
    constructor Default()
      ensures pins == DefaultPins()
    {
      pins := DefaultPins();
    }

    /**
     * `faders_term_settings` with the operator's `input` already read: the outcome and the
     * new table are those of Override; the set of routed pins never changes.
     */
    method TermSettings(input: string) returns (r: OverrideOutcome)
      modifies this
      ensures (r, pins) == Override(old(pins), input)
      ensures pins.Keys == old(pins).Keys
    {
      if input == "y" {
        return Accepted;
      }
      var fields := Split(input, ',');
      if |fields| != 4 {
        return WrongFieldCount;
      }
      OverrideFourPieces(pins, input);
      var first := ParseU8(fields[0]);
      if first.None? {
        return Aborted(FieldUnparsable(0));
      }
      var second := ParseU8(fields[1]);
      if second.None? {
        return Aborted(FieldUnparsable(1));
      }
      var third := ParseU8(fields[2]);
      if third.None? {
        return Aborted(FieldUnparsable(2));
      }
      var fourth := ParseU8(fields[3]);
      if fourth.None? {
        return Aborted(FieldUnparsable(3));
      }
      ghost var values := [first.value, second.value, third.value, fourth.value];
      ghost var goal := Override(pins, input);
      AssignStep(pins, OverridePins, values);
      if 18 !in pins {
        return Aborted(PinMissing(18));
      }
      pins := pins[18 := first.value];
      assert goal == Assign(pins, OverridePins[1..], values[1..]);
      AssignStep(pins, OverridePins[1..], values[1..]);
      if 19 !in pins {
        return Aborted(PinMissing(19));
      }
      pins := pins[19 := second.value];
      assert goal == Assign(pins, OverridePins[2..], values[2..]);
      AssignStep(pins, OverridePins[2..], values[2..]);
      if 20 !in pins {
        return Aborted(PinMissing(20));
      }
      pins := pins[20 := third.value];
      assert goal == Assign(pins, OverridePins[3..], values[3..]);
      AssignStep(pins, OverridePins[3..], values[3..]);
      if 21 !in pins {
        return Aborted(PinMissing(21));
      }
      pins := pins[21 := fourth.value];
      assert goal == Assign(pins, [], []);
      r := Reassigned;
    }
  }

  // ---------------------------------------------------------------------------
  // The serial loop of `run` (main.rs:149-189)
  // ---------------------------------------------------------------------------

  /** One turn of the loop: what `read_line` reported, and the stop flag as a timeout would see it. */
  datatype Tick = Tick(read: ReadResult, stop: bool)

  /** `Stopped` is the `break` on a timeout with the flag set; `Panicked` is a failed `unwrap`. */
  datatype Status = Running | Stopped | Panicked(failure: Failure)

  /** The loop's state: the `my_str` accumulator, the frames sent so far, and whether it goes on. */
  datatype State = State(pending: string, sent: seq<Frame>, status: Status)

  const Start: State := State("", [], Running)

  /**
   * One iteration. On `Ok` the accumulated line is taken, `my_str` is cleared, and the line is
   * decoded, routed and sent (`live` says whether the MIDI connection accepts it). On `Err` the
   * partial text stays in `my_str`; a timeout with the stop flag set leaves the loop.
   */
  function Step(pins: Routing.Pins, live: bool, s: State, t: Tick): State
  {
    match t.read
    case ReadOk(appended) =>
      (match Route(pins, s.pending + appended)
       case Err(e) => State("", s.sent, Panicked(e))
       case Ok(f) => if live then State("", s.sent + [f], s.status) else State("", s.sent, Panicked(SendFailed)))
    case ReadErr(kind, appended) =>
      State(s.pending + appended, s.sent, if kind == TimedOut && t.stop then Stopped else s.status)
  }

  /** The loop run over the ticks, until they run out or the loop leaves. */
  function RunFrom(pins: Routing.Pins, live: bool, s: State, ticks: seq<Tick>): State
    decreases |ticks|
  {
    if s.status != Running || ticks == [] then s
    else RunFrom(pins, live, Step(pins, live, s, ticks[0]), ticks[1..])
  }

  /** The number of `Ok` reads among the ticks: the lines the loop is handed. */
  function CountLines(ticks: seq<Tick>): nat
  {
    if ticks == [] then 0 else (if ticks[0].read.ReadOk? then 1 else 0) + CountLines(ticks[1..])
  }

  /** A step leaves the loop cleanly exactly on a timeout that finds the stop flag set. */
  lemma StepStopsOnlyOnFlaggedTimeout(pins: Routing.Pins, live: bool, s: State, t: Tick)
    requires s.status == Running
    ensures Step(pins, live, s, t).status == Stopped <==>
      (t.read.ReadErr? && t.read.kind == TimedOut && t.stop)
  {
  }

  /** `my_str` is cleared by a successful read and only then; an error keeps and extends it. */
  lemma StepPending(pins: Routing.Pins, live: bool, s: State, t: Tick)
    ensures Step(pins, live, s, t).pending ==
      if t.read.ReadOk? then "" else s.pending + t.read.appended
  {
  }

  /** A read error other than a timeout neither stops the loop nor sends anything. */
  lemma StepOtherError(pins: Routing.Pins, live: bool, s: State, appended: string, stop: bool)
    ensures Step(pins, live, s, Tick(ReadErr(OtherError, appended), stop)) ==
      State(s.pending + appended, s.sent, s.status)
  {
  }

  /**
   * A completed line sends exactly one Control Change on channel 1, with the routed controller
   * and the decoded value, or fails and sends nothing.
   */
  lemma StepLine(pins: Routing.Pins, live: bool, s: State, appended: string, stop: bool)
    requires s.status == Running
    ensures var n := Step(pins, live, s, Tick(ReadOk(appended), stop));
      var line := s.pending + appended;
      (n.status == Running &&
       Decode(line).Ok? && Decode(line).value.pin in pins && live &&
       n.sent == s.sent + [ControlChange(Ch1, pins[Decode(line).value.pin], Decode(line).value.value)])
      ||
      (n.status.Panicked? && n.sent == s.sent)
  {
    RouteCases(pins, s.pending + appended);
  }

  /** A line of an unrouted pin sends nothing and ends the loop at the table lookup. */
  lemma StepUnrouted(pins: Routing.Pins, live: bool, s: State, appended: string, stop: bool)
    requires Decode(s.pending + appended).Ok? && Decode(s.pending + appended).value.pin !in pins
    ensures Step(pins, live, s, Tick(ReadOk(appended), stop)) ==
      State("", s.sent, Panicked(PinUnrouted(Decode(s.pending + appended).value.pin)))
  {
    RouteCases(pins, s.pending + appended);
  }

  /** If a run ends `Stopped`, some tick was a timeout that found the stop flag set. */
  lemma {:induction false} RunStopsOnlyAtFlaggedTimeout(pins: Routing.Pins, live: bool, s: State, ticks: seq<Tick>)
    requires s.status == Running
    requires RunFrom(pins, live, s, ticks).status == Stopped
    ensures exists i :: 0 <= i < |ticks| && ticks[i].read.ReadErr? && ticks[i].read.kind == TimedOut && ticks[i].stop
    decreases |ticks|
  {
    var n := Step(pins, live, s, ticks[0]);
    if n.status == Stopped {
      StepStopsOnlyOnFlaggedTimeout(pins, live, s, ticks[0]);
      assert ticks[0].read.ReadErr? && ticks[0].read.kind == TimedOut && ticks[0].stop;
    } else {
      RunStopsOnlyAtFlaggedTimeout(pins, live, n, ticks[1..]);
      var i :| 0 <= i < |ticks[1..]| && ticks[1..][i].read.ReadErr? && ticks[1..][i].read.kind == TimedOut && ticks[1..][i].stop;
      assert ticks[i + 1] == ticks[1..][i];
    }
  }

  /** Sent frames are only appended: the log of a state is a prefix of every later one. */
  lemma {:induction false} RunExtendsLog(pins: Routing.Pins, live: bool, s: State, ticks: seq<Tick>)
    ensures var n := RunFrom(pins, live, s, ticks); |s.sent| <= |n.sent| && n.sent[..|s.sent|] == s.sent
    decreases |ticks|
  {
    if s.status == Running && ticks != [] {
      var n := Step(pins, live, s, ticks[0]);
      RunExtendsLog(pins, live, n, ticks[1..]);
      assert |s.sent| <= |n.sent| && n.sent[..|s.sent|] == s.sent;
    }
  }

  /**
   * At most one frame per line; and a run that is still going when the ticks run out has sent
   * exactly one frame for every line, repeated lines included (there is no change detection).
   */
  lemma {:induction false} RunOneFramePerLine(pins: Routing.Pins, live: bool, s: State, ticks: seq<Tick>)
    requires s.status == Running
    ensures |RunFrom(pins, live, s, ticks).sent| <= |s.sent| + CountLines(ticks)
    ensures RunFrom(pins, live, s, ticks).status == Running ==>
      |RunFrom(pins, live, s, ticks).sent| == |s.sent| + CountLines(ticks)
    decreases |ticks|
  {
    if ticks != [] {
      var n := Step(pins, live, s, ticks[0]);
      if ticks[0].read.ReadOk? {
        StepLine(pins, live, s, ticks[0].read.appended, ticks[0].stop);
      }
      assert |n.sent| <= |s.sent| + (if ticks[0].read.ReadOk? then 1 else 0);
      assert n.status == Running ==> |n.sent| == |s.sent| + (if ticks[0].read.ReadOk? then 1 else 0);
      if n.status == Running {
        RunOneFramePerLine(pins, live, n, ticks[1..]);
      }
    }
  }

  /** Whatever reaches the MIDI port from this loop is a Control Change on channel 1 to a routed controller. */
  ghost predicate RoutedControlChanges(pins: Routing.Pins, sent: seq<Frame>)
  {
    forall i :: 0 <= i < |sent| ==>
      sent[i].ControlChange? && sent[i].channel == Ch1 && sent[i].control in pins.Values
  }

  lemma {:induction false} RunSendsRoutedControlChanges(pins: Routing.Pins, live: bool, s: State, ticks: seq<Tick>)
    requires RoutedControlChanges(pins, s.sent)
    ensures RoutedControlChanges(pins, RunFrom(pins, live, s, ticks).sent)
    decreases |ticks|
  {
    if s.status == Running && ticks != [] {
      var n := Step(pins, live, s, ticks[0]);
      if ticks[0].read.ReadOk? {
        StepLine(pins, live, s, ticks[0].read.appended, ticks[0].stop);
        if n.sent != s.sent {
          var line := s.pending + ticks[0].read.appended;
          assert pins[Decode(line).value.pin] in pins.Values;
        }
      }
      assert RoutedControlChanges(pins, n.sent);
      RunSendsRoutedControlChanges(pins, live, n, ticks[1..]);
    }
  }

  /** One tick per sample, each a complete line as the microcontroller prints it. */
  function LineTicks(samples: seq<Sample>): seq<Tick>
  {
    if samples == [] then [] else [Tick(ReadOk(ShowLine(samples[0])), false)] + LineTicks(samples[1..])
  }

  /** The Control Change each routed sample should produce, in order. */
  function RoutedFrames(pins: Routing.Pins, samples: seq<Sample>): seq<Frame>
    requires forall i :: 0 <= i < |samples| ==> samples[i].pin in pins
  {
    if samples == [] then []
    else [ControlChange(Ch1, pins[samples[0].pin], samples[0].value)] + RoutedFrames(pins, samples[1..])
  }

  /**
   * Every well-formed line of a routed pin is sent, in order, once per line: repeating a line
   * repeats the Control Change (there is no change detection).
   */
  lemma {:induction false} RunSendsEveryLine(pins: Routing.Pins, sent: seq<Frame>, samples: seq<Sample>)
    requires forall i :: 0 <= i < |samples| ==> samples[i].pin in pins
    ensures RunFrom(pins, true, State("", sent, Running), LineTicks(samples)) ==
      State("", sent + RoutedFrames(pins, samples), Running)
    decreases |samples|
  {
    if samples == [] {
      assert sent + [] == sent;
    } else {
      var f := ControlChange(Ch1, pins[samples[0].pin], samples[0].value);
      var rest := samples[1..];
      assert forall i :: 0 <= i < |rest| ==> rest[i] == samples[i + 1];
      RunFirstLine(pins, sent, samples);
      RunSendsEveryLine(pins, sent + [f], rest);
      assert RoutedFrames(pins, samples) == [f] + RoutedFrames(pins, rest);
      assert sent + [f] + RoutedFrames(pins, rest) == sent + RoutedFrames(pins, samples);
    }
  }

  /** The first printed line of a routed pin is sent, and the loop goes on with the others. */
  lemma RunFirstLine(pins: Routing.Pins, sent: seq<Frame>, samples: seq<Sample>)
    requires samples != [] && samples[0].pin in pins
    ensures RunFrom(pins, true, State("", sent, Running), LineTicks(samples)) ==
      RunFrom(pins, true, State("", sent + [ControlChange(Ch1, pins[samples[0].pin], samples[0].value)], Running),
        LineTicks(samples[1..]))
  {
    var ticks := LineTicks(samples);
    assert ticks[1..] == LineTicks(samples[1..]);
    StepShownLine(pins, sent, samples[0]);
  }

  lemma StepShownLine(pins: Routing.Pins, sent: seq<Frame>, sample: Sample)
    requires sample.pin in pins
    ensures Step(pins, true, State("", sent, Running), Tick(ReadOk(ShowLine(sample)), false)) ==
      State("", sent + [ControlChange(Ch1, pins[sample.pin], sample.value)], Running)
  {
    RouteRouted(pins, sample);
    assert "" + ShowLine(sample) == ShowLine(sample);
  }

  /**
   * The lines of samples a, b, a, for routed pins: three Control Changes, the repeated line
   * sent again rather than suppressed.
   */
  lemma RunRepeatsIdenticalLines(pins: Routing.Pins, a: Sample, b: Sample)
    requires a.pin in pins && b.pin in pins
    ensures var fa, fb := ControlChange(Ch1, pins[a.pin], a.value), ControlChange(Ch1, pins[b.pin], b.value);
      RunFrom(pins, true, Start, LineTicks([a, b, a])) == State("", [fa, fb, fa], Running)
  {
    var fa, fb := ControlChange(Ch1, pins[a.pin], a.value), ControlChange(Ch1, pins[b.pin], b.value);
    var samples := [a, b, a];
    RunSendsEveryLine(pins, [], samples);
    assert [] + RoutedFrames(pins, samples) == RoutedFrames(pins, samples);
    assert [a][1..] == [];
    assert RoutedFrames(pins, [a]) == [fa];
    assert [b, a][1..] == [a];
    assert RoutedFrames(pins, [b, a]) == [fb, fa];
    assert samples[1..] == [b, a];
  }

  lemma ShowLineExamples()
    ensures ShowLine(Sample(18, 10)) == "18,10\n"
    ensures ShowLine(Sample(19, 64)) == "19,64\n"
    ensures ShowLine(Sample(20, 5)) == "20,5\n"
  {
    assert ShowDecimal(18) == "18" && ShowDecimal(10) == "10";
    assert ShowDecimal(19) == "19" && ShowDecimal(64) == "64";
    assert ShowDecimal(20) == "20" && ShowDecimal(5) == "5";
  }

  /** A line cut by a timeout is kept in `my_str` and completed by the next read. */
  lemma RunJoinsLineAcrossTimeout()
    ensures RunFrom(DefaultPins(), true, Start,
      [Tick(ReadErr(TimedOut, "18,"), false), Tick(ReadOk("10\n"), false)]) ==
      State("", [ControlChange(Ch1, 1, 10)], Running)
  {
    ShowLineExamples();
    assert ("" + "18,") + "10\n" == "18,10\n";
    RouteRouted(DefaultPins(), Sample(18, 10));
    var s1 := Step(DefaultPins(), true, Start, Tick(ReadErr(TimedOut, "18,"), false));
    assert s1 == State("18,", [], Running);
  }

  /** End of input: `read_line` keeps returning `Ok` with nothing, and the empty line panics. */
  lemma RunEndOfInput(stop: bool)
    ensures RunFrom(DefaultPins(), true, Start, [Tick(ReadOk(""), stop)]) == State("", [], Panicked(PinUnparsable))
  {
    DecodeEmptyLine();
  }

  /**
   * `run` over a given sequence of read results. The stop flag is the one the quitting thread
   * sets; here each tick says what a timeout would find in it. The serial text, the sent frames
   * and the way the loop ends are exactly those of RunFrom, starting with an empty `my_str`.
   */
  method Run(ticks: seq<Tick>, faders: Faders, sink: MidiSink) returns (status: Status)
    modifies sink
    ensures var final := RunFrom(faders.pins, old(sink.connected), Start, ticks);
      status == final.status && sink.log == old(sink.log) + final.sent
    ensures sink.connected == old(sink.connected)
  {
    ghost var live := sink.connected;
    ghost var log0 := sink.log;
    var myStr := "";
    status := Running;
    var i := 0;
    assert sink.log[|log0|..] == [];
    while i < |ticks|
      invariant 0 <= i <= |ticks|
      invariant sink.connected == live
      invariant |log0| <= |sink.log| && sink.log[..|log0|] == log0
      invariant RunFrom(faders.pins, live, State(myStr, sink.log[|log0|..], Running), ticks[i..]) ==
                RunFrom(faders.pins, live, Start, ticks)
    {
      ghost var before := State(myStr, sink.log[|log0|..], Running);
      var tick := ticks[i];
      assert ticks[i..][1..] == ticks[i + 1..];
      match tick.read {
        case ReadOk(appended) =>
          myStr := myStr + appended;
          var line := myStr;
          myStr := "";
          var decoded := Decode(line);
          if decoded.Err? {
            status := Panicked(decoded.error);
            break;
          }
          var cc := Routing.Get(faders.pins, decoded.value.pin);
          if cc.None? {
            status := Panicked(PinUnrouted(decoded.value.pin));
            break;
          }
          var ok := sink.Send(ControlChange(Ch1, cc.value, decoded.value.value));
          if !ok {
            status := Panicked(SendFailed);
            break;
          }
          assert sink.log[|log0|..] == before.sent + [ControlChange(Ch1, cc.value, decoded.value.value)];
        case ReadErr(kind, appended) =>
          myStr := myStr + appended;
          if kind == TimedOut && tick.stop {
            status := Stopped;
            break;
          }
      }
      i := i + 1;
    }
    assert sink.log == log0 + sink.log[|log0|..];
  }
}
