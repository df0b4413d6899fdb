/**
 * The serial line protocol shared by both bridges: one line `"<pin>,<value>\n"` becomes one
 * sample, and a routed sample becomes one Control Change on channel 1. The same code appears
 * in src/main.rs (`run`) and in the serial thread of src/ui.rs; it is defined once here.
 */
module Bridge {
  import opened Base
  import opened Strings
  import opened Faders
  import opened Midi

  /** One decoded serial line. */
  datatype Sample = Sample(pin: byte, value: byte)

  /** The `unwrap` that fails while a line is handled; each one ends the loop that hit it. */
  datatype Failure =
    | PinUnparsable          // message_values[0].parse().unwrap()
    | ValueFieldMissing      // message_values[1] on a line without a comma
    | ValueSliceInvalid      // &value[0..value.len() - 1] on an empty field or a multi-byte last character
    | ValueUnparsable        // the shortened value field's .parse().unwrap()
    | PinUnrouted(pin: byte) // faders.pins.get(&pin).unwrap()
    | SendFailed             // midi.send(..).unwrap()

  /**
   * The decode step: split the line on ',', parse the first piece as the pin, drop the last
   * character of the second piece (meant to be the newline) and parse the rest as the value.
   * Further pieces are ignored.
   */
  function Decode(line: string): Result<Sample, Failure>
  {
    DecodePieces(Split(line, ','))
  }

  /**
   * The decode step on the pieces of the line. The slice of the value piece is by bytes, so
   * it only works when the last character is a single byte (ASCII); otherwise it panics.
   */
  function DecodePieces(fields: seq<string>): Result<Sample, Failure>
    requires |fields| >= 1
  {
    match ParseU8(fields[0])
    case None => Err(PinUnparsable)
    case Some(pin) =>
      if |fields| < 2 then Err(ValueFieldMissing)
      else
        var value := fields[1];
        if value == [] || value[|value| - 1] as int >= 0x80 then Err(ValueSliceInvalid)
        else
          match ParseU8(value[..|value| - 1])
          case None => Err(ValueUnparsable)
          case Some(v) => Ok(Sample(pin, v))
  }

  /** Decode then look the pin up: main.rs builds `control_change(Channel::Ch1, *cc, value)`. */
  function Route(pins: Pins, line: string): Result<Frame, Failure>
  {
    match Decode(line)
    case Err(e) => Err(e)
    case Ok(s) =>
      match Get(pins, s.pin)
      case None => Err(PinUnrouted(s.pin))
      case Some(cc) => Ok(ControlChange(Ch1, cc, s.value))
  }

  /** The line the microcontroller prints for a sample. */
  function ShowLine(s: Sample): string
  {
    ShowDecimal(s.pin) + [','] + ShowDecimal(s.value) + ['\n']
  }

  /** Format round trip: every printed sample decodes to itself. */
  lemma DecodeShowLine(s: Sample)
    ensures Decode(ShowLine(s)) == Ok(s)
  {
    var a, b := ShowDecimal(s.pin), ShowDecimal(s.value) + ['\n'];
    ShowDecimalHasNoComma(s.pin);
    ShowDecimalHasNoComma(s.value);
    assert ',' !in b;
    SplitFirst(a, ',', b);
    SplitNoSeparator(b, ',');
    assert ShowLine(s) == a + [','] + b;
    assert b[..|b| - 1] == ShowDecimal(s.value);
    ParseShowDecimal(s.pin);
    ParseShowDecimal(s.value);
  }

  /**
   * Decode in terms of the shape of the line, without Split: the pin text `a` runs to the first
   * comma, the value text `b` to the next comma or the end, and whatever follows is ignored.
   */
  lemma DecodeFields(a: string, b: string, rest: string)
    requires ',' !in a && ',' !in b
    requires rest == [] || rest[0] == ','
    ensures ParseU8(a).None? ==> Decode(a + [','] + b + rest) == Err(PinUnparsable)
    ensures ParseU8(a).Some? && (b == [] || b[|b| - 1] as int >= 0x80) ==>
      Decode(a + [','] + b + rest) == Err(ValueSliceInvalid)
    ensures ParseU8(a).Some? && b != [] && b[|b| - 1] as int < 0x80 ==>
      Decode(a + [','] + b + rest) ==
        match ParseU8(b[..|b| - 1])
        case None => Err(ValueUnparsable)
        case Some(v) => Ok(Sample(ParseU8(a).value, v))
  {
    var fields := Split(a + [','] + b + rest, ',');
    SplitAfterFirst(a, b, rest);
    assert fields[0] == a && |fields| >= 2 && fields[1] == b;
  }

  /** The pieces of such a line start with `a` and `b`. */
  lemma SplitAfterFirst(a: string, b: string, rest: string)
    requires ',' !in a && ',' !in b
    requires rest == [] || rest[0] == ','
    ensures var fields := Split(a + [','] + b + rest, ',');
      |fields| >= 2 && fields[0] == a && fields[1] == b
  {
    assert a + [','] + b + rest == a + [','] + (b + rest);
    SplitFirst(a, ',', b + rest);
    if rest == [] {
      assert b + rest == b;
      SplitNoSeparator(b, ',');
    } else {
      assert b + rest == b + [','] + rest[1..];
      SplitFirst(b, ',', rest[1..]);
    }
  }

  /** The same for a line of exactly two pieces. */
  lemma DecodeTwoPieces(a: string, b: string)
    requires ',' !in a && ',' !in b
    ensures ParseU8(a).None? ==> Decode(a + [','] + b) == Err(PinUnparsable)
    ensures ParseU8(a).Some? && (b == [] || b[|b| - 1] as int >= 0x80) ==>
      Decode(a + [','] + b) == Err(ValueSliceInvalid)
    ensures ParseU8(a).Some? && b != [] && b[|b| - 1] as int < 0x80 ==>
      Decode(a + [','] + b) ==
        match ParseU8(b[..|b| - 1])
        case None => Err(ValueUnparsable)
        case Some(v) => Ok(Sample(ParseU8(a).value, v))
  {
    DecodeFields(a, b, []);
    assert a + [','] + b + [] == a + [','] + b;
  }

  /** Without a comma there is no value field, and the line fails. */
  lemma DecodeNeedsComma(line: string)
    requires ',' !in line
    ensures Decode(line) == if ParseU8(line).None? then Err(PinUnparsable) else Err(ValueFieldMissing)
  {
    SplitNoSeparator(line, ',');
  }

  /** Pieces after the second are not looked at: `"p,v,x"` decodes like `"p,v"`. */
  lemma DecodeIgnoresExtraFields(a: string, b: string, extra: string)
    requires ',' !in a && ',' !in b
    ensures Decode(a + [','] + b + [','] + extra) == Decode(a + [','] + b)
  {
    DecodeFields(a, b, [',']  + extra);
    DecodeFields(a, b, []);
    assert a + [','] + b + [','] + extra == a + [','] + b + ([','] + extra);
    assert a + [','] + b + [] == a + [','] + b;
  }

  /** End of input: `read_line` returns `Ok` with nothing read, and the empty line fails. */
  lemma DecodeEmptyLine()
    ensures Decode("") == Err(PinUnparsable)
  {
    SplitNoSeparator("", ',');
  }

  /** `u8::from_str` on the texts the examples below meet. */
  lemma ParseEighteen()
    ensures ParseU8("18") == Some(18) && ParseU8("+18") == Some(18)
  {
    assert ShowDecimal(18) == "18";
    ParseShowDecimal(18);
    assert "+18"[1..] == "18";
  }

  lemma ParseSmallExamples()
    ensures ParseU8("1") == Some(1) && ParseU8("007") == Some(7) && ParseU8("") == None
  {
    assert ShowDecimal(1) == "1";
    ParseShowDecimal(1);
    assert "007"[..2] == "00" && "00"[..1] == "0" && "0"[..0] == "";
  }

  lemma ParseRejectExamples()
    ensures ParseU8("256") == None && ParseU8("18\n") == None && ParseU8("10\r") == None
  {
    assert ShowDecimal(256) == "256";
    ParseShowDecimal(256);
    assert !IsDigit("18\n"[2]);
    assert !IsDigit("10\r"[2]);
  }

  lemma ParseExamples()
    ensures ParseU8("18") == Some(18) && ParseU8("+18") == Some(18)
    ensures ParseU8("1") == Some(1) && ParseU8("007") == Some(7)
    ensures ParseU8("") == None && ParseU8("256") == None
    ensures ParseU8("18\n") == None && ParseU8("10\r") == None
  {
    ParseEighteen();
    ParseSmallExamples();
    ParseRejectExamples();
  }

  // The example lines below are written as their pieces joined by the comma.

  /** Without a comma the newline stays on the pin text; without a newline the value field is missing. */
  lemma DecodeNoCommaExamples()
    ensures Decode("18\n") == Err(PinUnparsable)
    ensures Decode("18") == Err(ValueFieldMissing)
  {
    ParseExamples();
    DecodeNeedsComma("18\n");
    DecodeNeedsComma("18");
  }

  /** An empty value fails: at the parse when only the newline was there, at the slice when nothing was. */
  lemma DecodeEmptyValueExamples()
    ensures Decode("18" + "," + "\n") == Err(ValueUnparsable)
    ensures Decode("18" + "," + "") == Err(ValueSliceInvalid)
  {
    ParseExamples();
    DecodeTwoPieces("18", "\n");
    DecodeTwoPieces("18", "");
  }

  /** Numbers above 255 are parse errors, not truncated. */
  lemma DecodeOverflowExamples()
    ensures Decode("256" + "," + "1\n") == Err(PinUnparsable)
    ensures Decode("18" + "," + "256\n") == Err(ValueUnparsable)
  {
    ParseExamples();
    DecodeTwoPieces("256", "1\n");
    assert "256\n"[..3] == "256";
    DecodeTwoPieces("18", "256\n");
  }

  /** Exactly one character is dropped from the value: a "\r\n" ending leaves the '\r'. */
  lemma DecodeCrLfExample()
    ensures Decode("18" + "," + "10\r\n") == Err(ValueUnparsable)
  {
    ParseExamples();
    assert "10\r\n"[..3] == "10\r";
    DecodeTwoPieces("18", "10\r\n");
  }

  /** Without a newline the last digit is dropped instead. */
  lemma DecodeNoNewlineExample()
    ensures Decode("18" + "," + "10") == Ok(Sample(18, 1))
  {
    ParseExamples();
    assert "10"[..1] == "1";
    DecodeTwoPieces("18", "10");
  }

  /** A third piece is ignored, and the value, no longer at the end of the line, loses a digit. */
  lemma DecodeExtraFieldExample()
    ensures Decode("18" + "," + "10" + ",5\n") == Ok(Sample(18, 1))
  {
    ParseExamples();
    assert "10"[..1] == "1";
    DecodeFields("18", "10", ",5\n");
  }

  /** `u8::from_str` takes a leading '+' and leading zeros. */
  lemma DecodeSignAndZerosExample()
    ensures Decode("+18" + "," + "007\n") == Ok(Sample(18, 7))
  {
    ParseExamples();
    assert "007\n"[..3] == "007";
    DecodeTwoPieces("+18", "007\n");
  }

  /** A routed sample becomes exactly one Control Change on channel 1 with the table's controller. */
  lemma RouteRouted(pins: Pins, s: Sample)
    requires s.pin in pins
    ensures Route(pins, ShowLine(s)) == Ok(ControlChange(Ch1, pins[s.pin], s.value))
  {
    DecodeShowLine(s);
  }

  /** Route succeeds exactly for decodable lines of routed pins, and fails with the decode error otherwise. */
  lemma RouteCases(pins: Pins, line: string)
    ensures Route(pins, line).Ok? <==> Decode(line).Ok? && Decode(line).value.pin in pins
    ensures Decode(line).Err? ==> Route(pins, line) == Err(Decode(line).error)
    ensures Decode(line).Ok? && Decode(line).value.pin !in pins ==>
      Route(pins, line) == Err(PinUnrouted(Decode(line).value.pin))
    ensures Route(pins, line).Ok? ==>
      Route(pins, line).value == ControlChange(Ch1, pins[Decode(line).value.pin], Decode(line).value.value)
  {
  }

  /** With the default table only pins 18..21 get through, and always to a 7-bit controller. */
  lemma RouteDefault(line: string)
    ensures Route(Default(), line).Ok? ==>
      18 <= Decode(line).value.pin <= 21 && Route(Default(), line).value.control <= 127
  {
  }

  /** What one `read_line` call reports. */
  datatype ErrorKind = TimedOut | OtherError

  /**
   * One `reader.read_line(&mut my_str)`. On `Ok` the appended text completes the line (it
   * ends with '\n', or is whatever was left at end of input, possibly nothing). On `Err` the
   * text read before the error is still appended to `my_str` and waits for the rest of the line.
   */
  datatype ReadResult = ReadOk(appended: string) | ReadErr(kind: ErrorKind, appended: string)
}
