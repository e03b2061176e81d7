/**
 * The status-byte classifier and field extraction of `decode_midi_message`:
 * MIDI 1.0 channel voice messages, whose status byte carries the message kind
 * in its upper nibble and the channel in its lower nibble.
 */
module Midi {

  /** An unsigned 8-bit value (`u8`). */
  type Byte = x: int | 0 <= x < 256

  /** The eight arms of the match on the status byte, catch-all included. */
  datatype Kind =
    | NoteOffStatus
    | NoteOnStatus
    | PolyPressureStatus
    | ControlChangeStatus
    | ProgramChangeStatus
    | ChannelPressureStatus
    | PitchBendStatus
    | UnknownStatus

  /** The match arms of the source, tried in order on the range each one names. */
  function Classify(status: Byte): (k: Kind)
    ensures k == UnknownStatus <==> status < 0x80 || 0xEF < status
  {
    if 0x80 <= status <= 0x8F then NoteOffStatus
    else if 0x90 <= status <= 0x9F then NoteOnStatus
    else if 0xA0 <= status <= 0xAF then PolyPressureStatus
    else if 0xB0 <= status <= 0xBF then ControlChangeStatus
    else if 0xC0 <= status <= 0xCF then ProgramChangeStatus
    else if 0xD0 <= status <= 0xDF then ChannelPressureStatus
    else if 0xE0 <= status <= 0xEF then PitchBendStatus
    else UnknownStatus
  }

  /** The table of channel voice messages, indexed by the upper nibble of the status byte. */
  function KindOfNibble(hi: int): Kind
  {
    if hi == 8 then NoteOffStatus
    else if hi == 9 then NoteOnStatus
    else if hi == 10 then PolyPressureStatus
    else if hi == 11 then ControlChangeStatus
    else if hi == 12 then ProgramChangeStatus
    else if hi == 13 then ChannelPressureStatus
    else if hi == 14 then PitchBendStatus
    else UnknownStatus
  }

  /** The upper nibble of a channel voice kind; the inverse of KindOfNibble. */
  function Nibble(k: Kind): (hi: int)
    requires k != UnknownStatus
    ensures 8 <= hi <= 14 && KindOfNibble(hi) == k
  {
    match k
    case NoteOffStatus => 8
    case NoteOnStatus => 9
    case PolyPressureStatus => 10
    case ControlChangeStatus => 11
    case ProgramChangeStatus => 12
    case ChannelPressureStatus => 13
    case PitchBendStatus => 14
  }

  /** The range match of the source selects the same kind as the upper nibble does. */
  lemma ClassifyByUpperNibble(status: Byte)
    ensures Classify(status) == KindOfNibble(status / 16)
  {
  }

  /** The channel a status byte addresses, `status & 0x0F`: its low nibble. */
  function Channel(status: Byte): (c: Byte)
    ensures c < 16
    ensures c == status % 16 && status == 16 * (status / 16) + c
  {
    ((status as bv8) & 0x0F) as int
  }

  /**
   * How many bytes a message of kind `k` must hold: the highest index the
   * source reads in that arm, plus one (the catch-all reads only the status).
   */
  function RequiredLength(k: Kind): (n: nat)
    ensures 1 <= n <= 3
    ensures n == 1 <==> k == UnknownStatus
    ensures n == 2 <==> k == ProgramChangeStatus || k == ChannelPressureStatus
  {
    match k
    case ProgramChangeStatus => 2
    case ChannelPressureStatus => 2
    case UnknownStatus => 1
    case _ => 3
  }

  /** A classified message with the fields the source reports for it. */
  datatype Message =
    | NoteOff(channel: Byte, note: Byte, velocity: Byte)
    | NoteOn(channel: Byte, note: Byte, velocity: Byte)
    | PolyPressure(channel: Byte, note: Byte, pressure: Byte)
    | ControlChange(channel: Byte, controller: Byte, value: Byte)
    | ProgramChange(channel: Byte, program: Byte)
    | ChannelPressure(channel: Byte, pressure: Byte)
    | PitchBend(channel: Byte, lsb: Byte, msb: Byte)
    | Unknown(bytes: seq<Byte>)

  /**
   * The outcome of decoding: an empty message is ignored, a message too short
   * for its kind is an InvalidEvent (where the source indexes out of bounds).
   */
  datatype Decoded =
    | Empty
    | Event(msg: Message)
    | InvalidEvent(status: Byte, length: nat)

  function KindOf(msg: Message): Kind
  {
    match msg
    case NoteOff(_, _, _) => NoteOffStatus
    case NoteOn(_, _, _) => NoteOnStatus
    case PolyPressure(_, _, _) => PolyPressureStatus
    case ControlChange(_, _, _) => ControlChangeStatus
    case ProgramChange(_, _) => ProgramChangeStatus
    case ChannelPressure(_, _) => ChannelPressureStatus
    case PitchBend(_, _, _) => PitchBendStatus
    case Unknown(_) => UnknownStatus
  }

  function Decode(message: seq<Byte>): (d: Decoded)
    ensures d.Empty? <==> |message| == 0
    ensures d.InvalidEvent? <==> 0 < |message| < RequiredLength(Classify(message[0]))
    ensures d.Event? ==> KindOf(d.msg) == Classify(message[0])
  {
    if |message| == 0 then Empty
    else
      var status := message[0];
      var kind := Classify(status);
      if |message| < RequiredLength(kind) then InvalidEvent(status, |message|)
      else
        var c := Channel(status);
        match kind
        case NoteOffStatus => Event(NoteOff(c, message[1], message[2]))
        case NoteOnStatus => Event(NoteOn(c, message[1], message[2]))
        case PolyPressureStatus => Event(PolyPressure(c, message[1], message[2]))
        case ControlChangeStatus => Event(ControlChange(c, message[1], message[2]))
        case ProgramChangeStatus => Event(ProgramChange(c, message[1]))
        case ChannelPressureStatus => Event(ChannelPressure(c, message[1]))
        case PitchBendStatus => Event(PitchBend(c, message[1], message[2]))
        case UnknownStatus => Event(Unknown(message))
  }

  /** A message some byte sequence decodes to: a channel fits the low nibble, an unknown message starts with a non-voice status. */
  predicate WellFormed(msg: Message)
  {
    match msg
    case Unknown(bytes) => |bytes| > 0 && Classify(bytes[0]) == UnknownStatus
    case _ => msg.channel < 16
  }

  /** The status byte of a channel voice message: kind in the upper nibble, channel in the lower. */
  function StatusByte(k: Kind, channel: Byte): Byte
    requires k != UnknownStatus && channel < 16
  {
    16 * Nibble(k) + channel
  }

  /** The shortest byte sequence of a message, the reference the decoder is checked against. */
  function Encode(msg: Message): (bytes: seq<Byte>)
    requires WellFormed(msg)
    ensures |bytes| == (if msg.Unknown? then |msg.bytes| else RequiredLength(KindOf(msg)))
  {
    match msg
    case NoteOff(c, note, velocity) => [StatusByte(NoteOffStatus, c), note, velocity]
    case NoteOn(c, note, velocity) => [StatusByte(NoteOnStatus, c), note, velocity]
    case PolyPressure(c, note, pressure) => [StatusByte(PolyPressureStatus, c), note, pressure]
    case ControlChange(c, controller, value) => [StatusByte(ControlChangeStatus, c), controller, value]
    case ProgramChange(c, program) => [StatusByte(ProgramChangeStatus, c), program]
    case ChannelPressure(c, pressure) => [StatusByte(ChannelPressureStatus, c), pressure]
    case PitchBend(c, lsb, msb) => [StatusByte(PitchBendStatus, c), lsb, msb]
    case Unknown(bytes) => bytes
  }

  /** Status byte round trip: the classifier and the channel extraction recover kind and channel. */
  lemma StatusByteRoundTrip(k: Kind, channel: Byte)
    requires k != UnknownStatus && channel < 16
    ensures Classify(StatusByte(k, channel)) == k
    ensures Channel(StatusByte(k, channel)) == channel
  {
    var s := StatusByte(k, channel);
    assert s / 16 == Nibble(k);
    ClassifyByUpperNibble(s);
  }

  /** Decoding the encoding of a well-formed message gives that message back. */
  lemma DecodeEncode(msg: Message)
    requires WellFormed(msg)
    ensures Decode(Encode(msg)) == Event(msg)
  {
    if !msg.Unknown? {
      StatusByteRoundTrip(KindOf(msg), msg.channel);
    }
  }

  /**
   * Every decoded message is well formed and is read from the front of the
   * input: the bytes after the ones its kind needs are ignored.
   */
  lemma EncodeDecode(message: seq<Byte>)
    requires Decode(message).Event?
    ensures WellFormed(Decode(message).msg)
    ensures |Encode(Decode(message).msg)| <= |message|
    ensures Encode(Decode(message).msg) == message[..|Encode(Decode(message).msg)|]
  {
    var status := message[0];
    var kind := Classify(status);
    if kind != UnknownStatus {
      var c := Channel(status);
      assert status / 16 == Nibble(kind) by {
        ClassifyByUpperNibble(status);
      }
      assert StatusByte(kind, c) == status;
    }
  }

  /** Worked examples: Note On, Note Off, Pitch Bend (reported as its two data bytes) and the empty message. */
  lemma DecodeExamples()
    ensures Decode([0x90, 60, 100]) == Event(NoteOn(0, 60, 100))
    ensures Decode([0x80, 60, 0]) == Event(NoteOff(0, 60, 0))
    ensures Decode([0xE0, 0, 64]) == Event(PitchBend(0, 0, 64))
    ensures Decode([0x93, 60]) == InvalidEvent(0x93, 2)
    ensures Decode([]) == Empty
  {
  }
}
