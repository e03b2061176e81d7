/**
 * `decode_midi_message`: a raw message is classified and, when it is a Note
 * Off or a Note On, handed to the synthesizer; every other message is only
 * reported. Messages are applied one at a time, in arrival order.
 */
module Dispatch {
  import Midi
  import Voices
  import Synth

  datatype Option<T> = None | Some(value: T)

  /** The effect of one message on the voice table. */
  function Step(s: Voices.VoiceState, message: seq<Midi.Byte>): (t: Voices.VoiceState)
    ensures |message| == 0 || !(0x80 <= message[0] <= 0x9F) ==> t == s
    ensures forall n :: n in s.sinks && (|message| < 2 || n != message[1]) ==> n in t.sinks && t.sinks[n] == s.sinks[n]
    ensures forall n :: n in t.sinks && (|message| < 2 || n != message[1]) ==> n in s.sinks
    ensures s.nextId <= t.nextId && s.log <= t.log
  {
    match Midi.Decode(message)
    case Event(NoteOff(_, note, _)) => Voices.NoteOff(s, note)
    case Event(NoteOn(_, note, velocity)) => Voices.NoteOn(s, note, velocity)
    case _ => s
  }

  /**
   * Decodes `message` and applies it to `synth`; the decoded message stands
   * for what the source reports.
   */
  method DecodeMidiMessage(synth: Synth.Synthesizer, message: seq<Midi.Byte>) returns (d: Midi.Decoded)
    requires synth.Valid()
    modifies synth
    ensures synth.Valid()
    ensures d == Midi.Decode(message)
    ensures synth.State() == Step(old(synth.State()), message)
  {
    d := Midi.Decode(message);
    match d
    case Event(NoteOff(_, note, _)) =>
      synth.NoteOff(note);
    case Event(NoteOn(_, note, velocity)) =>
      synth.NoteOn(note, velocity);
    case _ =>
  }

  /** An empty message changes nothing. */
  lemma EmptyMessageIsNoOp(s: Voices.VoiceState)
    ensures Midi.Decode([]) == Midi.Empty
    ensures Step(s, []) == s
  {
  }

  /**
   * A status byte in 0x80..0x8F releases the note of the second byte and
   * nothing else; the channel reported is the low nibble, below 16.
   */
  lemma NoteOffDispatch(s: Voices.VoiceState, message: seq<Midi.Byte>)
    requires |message| >= 3 && 0x80 <= message[0] <= 0x8F
    ensures Midi.Decode(message) == Midi.Event(Midi.NoteOff(message[0] % 16, message[1], message[2]))
    ensures Midi.Decode(message).msg.channel < 16
    ensures Step(s, message) == Voices.NoteOff(s, message[1])
  {
  }

  /**
   * A status byte in 0x90..0x9F plays the note of the second byte, whatever
   * the velocity, zero included: a zero velocity is not a release.
   */
  lemma NoteOnDispatch(s: Voices.VoiceState, message: seq<Midi.Byte>)
    requires |message| >= 3 && 0x90 <= message[0] <= 0x9F
    ensures Midi.Decode(message) == Midi.Event(Midi.NoteOn(message[0] % 16, message[1], message[2]))
    ensures Step(s, message) == Voices.NoteOn(s, message[1], message[2])
    ensures message[1] in Step(s, message).sinks
  {
  }

  /** A status byte outside 0x80..0x9F (Pitch Bend and the catch-all included) leaves the table as it is. */
  lemma OtherMessagesAreNoOps(s: Voices.VoiceState, message: seq<Midi.Byte>)
    requires |message| > 0 && !(0x80 <= message[0] <= 0x9F)
    ensures Step(s, message) == s
  {
  }

  /** A message too short for its status byte is an InvalidEvent and leaves the table as it is. */
  lemma TruncatedMessageIsInvalid(s: Voices.VoiceState, message: seq<Midi.Byte>)
    requires 0 < |message| < Midi.RequiredLength(Midi.Classify(message[0]))
    ensures Midi.Decode(message) == Midi.InvalidEvent(message[0], |message|)
    ensures Step(s, message) == s
  {
  }

  lemma StepPreservesValid(s: Voices.VoiceState, message: seq<Midi.Byte>)
    requires Voices.Valid(s)
    ensures Voices.Valid(Step(s, message))
  {
    match Midi.Decode(message)
    case Event(NoteOff(_, note, _)) => Voices.NoteOffReleases(s, note);
    case Event(NoteOn(_, note, velocity)) => Voices.NoteOnReplaces(s, note, velocity);
    case _ =>
  }

  /** The messages of a stream applied in order. */
  function Run(s: Voices.VoiceState, messages: seq<seq<Midi.Byte>>): (t: Voices.VoiceState)
    ensures messages == [] ==> t == s
    ensures s.nextId <= t.nextId && s.log <= t.log
    decreases |messages|
  {
    if messages == [] then s
    else Step(Run(s, messages[..|messages| - 1]), messages[|messages| - 1])
  }

  /** After any stream of messages the table keeps its invariant: at most one live handle per note, none leaked. */
  lemma {:induction false} RunPreservesValid(s: Voices.VoiceState, messages: seq<seq<Midi.Byte>>)
    requires Voices.Valid(s)
    ensures Voices.Valid(Run(s, messages))
    decreases |messages|
  {
    if messages != [] {
      RunPreservesValid(s, messages[..|messages| - 1]);
      StepPreservesValid(Run(s, messages[..|messages| - 1]), messages[|messages| - 1]);
    }
  }

  /** Whether a message switches `note` on (Some(true)), off (Some(false)) or leaves it alone (None). */
  function Switch(message: seq<Midi.Byte>, note: Midi.Byte): Option<bool>
  {
    if |message| >= 3 && 0x80 <= message[0] <= 0x9F && message[1] == note
    then Some(message[0] >= 0x90)
    else None
  }

  /** The last switch for `note` in a stream, if any. */
  function LastSwitch(messages: seq<seq<Midi.Byte>>, note: Midi.Byte): Option<bool>
    decreases |messages|
  {
    if messages == [] then None
    else
      match Switch(messages[|messages| - 1], note)
      case Some(on) => Some(on)
      case None => LastSwitch(messages[..|messages| - 1], note)
  }

  lemma StepSounding(s: Voices.VoiceState, message: seq<Midi.Byte>, note: Midi.Byte)
    ensures note in Step(s, message).sinks <==>
      match Switch(message, note)
      case Some(on) => on
      case None => note in s.sinks
  {
  }

  /**
   * After a stream of messages a note is sounding exactly when the last Note On
   * or Note Off for it was a Note On, or, if there was none, when it was
   * sounding before.
   */
  lemma {:induction false} RunSounding(s: Voices.VoiceState, messages: seq<seq<Midi.Byte>>, note: Midi.Byte)
    ensures note in Run(s, messages).sinks <==>
      match LastSwitch(messages, note)
      case Some(on) => on
      case None => note in s.sinks
    decreases |messages|
  {
    if messages != [] {
      var init := messages[..|messages| - 1];
      RunSounding(s, init, note);
      StepSounding(Run(s, init), messages[|messages| - 1], note);
    }
  }

  /**
   * Note On 60, Note On 64, Note Off 60 on a new synthesizer leaves exactly
   * note 64 sounding, by the last-switch characterisation of the table.
   */
  lemma TwoNotesOneReleased(note: Midi.Byte)
    ensures note in Run(Voices.Initial(), [[0x90, 60, 100], [0x90, 64, 100], [0x80, 60, 0]]).sinks <==> note == 64
  {
    var messages: seq<seq<Midi.Byte>> := [[0x90, 60, 100], [0x90, 64, 100], [0x80, 60, 0]];
    RunSounding(Voices.Initial(), messages, note);
    assert messages[..2][..1][..0] == [];
    assert LastSwitch(messages[..2][..1], note) == if note == 60 then Some(true) else None;
    assert LastSwitch(messages[..2], note) == if note == 64 then Some(true) else if note == 60 then Some(true) else None;
    assert LastSwitch(messages, note) == if note == 60 then Some(false) else if note == 64 then Some(true) else None;
  }
}
