# midi-rs: MIDI decoder and voice table, modelled in Dafny

midi-rs is a small MIDI synthesizer. A callback receives raw MIDI messages from
an input port. `decode_midi_message` classifies each message by its status byte,
as defined for the channel voice messages of the MIDI 1.0 Detailed
Specification. Note Off and Note On go to a `Synthesizer`. All other messages are
only printed. The `Synthesizer` keeps a `HashMap` from note number to a playback
sink that plays a sine wave at that note's frequency.

The model has four modules:

- `Midi` (Midi.dfy) holds the status-byte classifier, the channel extraction and
  the decoding of a byte sequence into a typed message. It is pure.
  - `Encode` is a reference encoder. The decoder is proved against it in both
    directions.
  - `KindOfNibble` is the upper-nibble table. The range match of the source is
    proved equal to it.
- `Voices` (Voices.dfy) holds the voice table as a value `VoiceState`:
  - the map from note to handle;
  - the counter that gives each new handle its identity;
  - a ghost record of every handle created, stopped or dropped.

  `NoteOn` and `NoteOff` are the pure specifications of the two mutating
  methods. `Valid` is the table's invariant: the live handles are exactly the
  handles in the map, each entry plays its own note's tone, and identities are
  never reused. The module proves that both operations keep the invariant and
  gives their exact effect.
- `Synth` (Synth.dfy) holds the `Synthesizer` class. Its map field is updated in
  place by the methods `NoteOn` and `NoteOff`. Each method's postcondition ties
  the new fields to the `Voices` function of the old fields. `ReplaceNote` is a
  client that shows, from the method contracts alone, that two Note Ons for one
  note leave one live handle.
- `Dispatch` (Dispatch.dfy) holds the method `DecodeMidiMessage` and `Step`, its
  effect on the table.
  - It proves the properties of each status range: empty message, Note Off,
    Note On with any velocity, every other kind, truncated message.
  - `Run` applies a stream of messages in order. It keeps the invariant.
  - After a stream, a note is sounding exactly when the last Note On or Note
    Off for it was a Note On. `LastSwitch` is the independent reference for
    this.

Behaviour of the code that the model keeps as it is:

- The code keeps no pitch-bend state. A Pitch Bend message (0xE0..0xEF) is
  only printed, and the model reports its lsb and msb bytes as the code does.
  `OtherMessagesAreNoOps` proves that Pitch Bend leaves the table unchanged.
- A Note On with velocity 0 is a Note On, not a Note Off, although MIDI 1.0
  lets senders use it as a release. `NoteOnDispatch` proves the note is
  sounding afterwards.
- The code indexes message bytes without a length check. A message shorter than
  its status byte needs (3 bytes for 0x80..0xBF and 0xE0..0xEF, 2 for
  0xC0..0xDF) makes the code panic. The panic happens in the argument list of
  the `println!`, before any synthesizer call. The model returns
  `InvalidEvent` and leaves the table unchanged.

## Model

| member | source | states |
|---|---|---|
| `Midi.Classify` | src/main.rs:61-109 | Every status byte falls into exactly one arm (it is a total function). The catch-all arm is taken exactly for bytes outside 0x80..0xEF. |
| `Midi.ClassifyByUpperNibble` | src/main.rs:62-108 | The source's range match picks the same kind as the MIDI 1.0 upper-nibble table: 8 Note Off, 9 Note On, 10 Poly Pressure, 11 Control Change, 12 Program Change, 13 Channel Pressure, 14 Pitch Bend. |
| `Midi.Channel` | src/main.rs:65 | The reported channel `status & 0x0F` is below 16. It is the low nibble: status = 16 * upper nibble + channel. |
| `Midi.RequiredLength` | src/main.rs:62-108 | Each arm reads a fixed number of bytes: 3 for Note Off, Note On, Poly Pressure, Control Change and Pitch Bend; 2 for Program Change and Channel Pressure. Only the catch-all needs just the status byte. |
| `Midi.Decode` | src/main.rs:56-109 | An empty message gives `Empty`. A message is an `InvalidEvent` exactly when it is shorter than its arm reads. A decoded message has the kind its status byte selects. |
| `Midi.StatusByteRoundTrip` | src/main.rs:61-65 | A status byte built from a kind and a channel below 16 is classified as that kind, and its channel is read back. |
| `Midi.DecodeEncode` | src/main.rs:56-109 | Decoding the encoding of a well-formed message gives the same message back. |
| `Midi.EncodeDecode` | src/main.rs:56-109 | Every decoded message is well formed. Its encoding is a prefix of the input: bytes after those its arm reads are ignored. |
| `Midi.DecodeExamples` | src/main.rs:71-107 | `[0x90,60,100]` decodes to Note On (channel 0, note 60, velocity 100). `[0x80,60,0]` decodes to Note Off. `[0xE0,0,64]` decodes to Pitch Bend with lsb 0 and msb 64. `[0x93,60]` is invalid. `[]` is empty. |
| `Voices.MidiNoteToFreq` | src/main.rs:139-141 | The tone of a note, as semitones above A4; defined by its body. Its contract says the tone is A4 exactly when the note is 69, and lies between 69 semitones below and 186 above A4. Injectivity is proved in `MidiNoteToFreqInjective`. |
| `Voices.Initial` | src/main.rs:118-123 | A new synthesizer has an empty table and no live handle, and the invariant holds. |
| `Voices.MidiNoteToFreqInjective` | src/main.rs:139-141 | The tone depends on the note alone, and distinct notes get distinct tones. |
| `Voices.AtMostOneLivePerNote` | src/main.rs:114 | Under the invariant, two live handles playing the same note's tone are the same handle. |
| `Voices.HandlesDistinct` | src/main.rs:114 | No handle is stored under two notes. |
| `Voices.NoteOnReplaces` | src/main.rs:125-130 | After note_on, `note` maps to a handle that was not live before and that plays the note's tone. The other entries are unchanged. The previous handle for `note` is no longer live. The invariant is kept. |
| `Voices.NoteOn` | src/main.rs:125-130 | The state after note_on: `note` maps to a new handle playing its tone, the other entries are unchanged, the identity counter advances and the event record only grows. Freshness and the invariant are proved in `NoteOnReplaces`. |
| `Voices.NoteOnIgnoresVelocity` | src/main.rs:125-129 | The velocity has no effect on the table. |
| `Voices.NoteOffReleases` | src/main.rs:132-136 | After note_off, `note` is absent and every other entry is unchanged. A handle is stopped exactly when one was stored under `note`; otherwise the state is unchanged. The invariant is kept. |
| `Voices.NoteOff` | src/main.rs:132-136 | The state after note_off: `note` is absent, the other entries are unchanged and the record only grows. Without an entry for `note` the state is unchanged. The invariant is proved in `NoteOffReleases`. |
| `Voices.NoteOffIdempotent` | src/main.rs:132-136 | Calling note_off twice for the same note equals calling it once. |
| `Voices.LiveFromLog` | src/main.rs:127-129 | Every live handle was created by a recorded event. |
| `Synth.Synthesizer.constructor` | src/main.rs:118-123 | `new` starts with an empty voice table that satisfies the invariant. |
| `Synth.Synthesizer.NoteOn` | src/main.rs:125-130 | The in-place insert makes the fields equal to `Voices.NoteOn` of the old fields. The new handle was not live before, and the other entries are unchanged. |
| `Synth.Synthesizer.NoteOff` | src/main.rs:132-136 | The in-place remove-and-stop makes the fields equal to `Voices.NoteOff` of the old fields. `note` is absent and the other entries are unchanged. |
| `Dispatch.DecodeMidiMessage` | src/main.rs:56-110 | It decodes the message and applies exactly `Step` to the synthesizer, keeping its invariant. |
| `Dispatch.Step` | src/main.rs:56-110 | The effect of one message on the table. An empty message, or a status outside 0x80..0x9F, changes nothing. Only the entry of the note in the second byte can change: every other entry is kept, and no other note is added. |
| `Dispatch.EmptyMessageIsNoOp` | src/main.rs:57-59 | An empty message decodes to nothing and changes nothing. |
| `Dispatch.NoteOffDispatch` | src/main.rs:62-70 | A 3-byte message with status 0x80..0x8F is Note Off on channel `status % 16` (below 16). Its only effect is `note_off(message[1])`. |
| `Dispatch.NoteOnDispatch` | src/main.rs:71-79 | A 3-byte message with status 0x90..0x9F is Note On. Its only effect is `note_on(message[1], message[2])`. The note sounds afterwards, also at velocity 0. |
| `Dispatch.OtherMessagesAreNoOps` | src/main.rs:80-108 | Status bytes outside 0x80..0x9F leave the table unchanged. This covers 0xA0..0xEF (Pitch Bend included) and the catch-all. |
| `Dispatch.TruncatedMessageIsInvalid` | src/main.rs:62-107 | A message shorter than its arm reads is an `InvalidEvent` and leaves the table unchanged. |
| `Dispatch.StepPreservesValid` | src/main.rs:56-110 | Every message keeps the table's invariant. |
| `Dispatch.Run` | src/main.rs:36-39 | The messages of a stream applied one at a time, in arrival order. An empty stream changes nothing. The identity counter never goes back and the event record only grows. |
| `Dispatch.RunPreservesValid` | src/main.rs:36-39 | Messages applied one at a time, in arrival order, keep the invariant over any stream: at most one live handle per note and no leaked handle. |
| `Dispatch.StepSounding` | src/main.rs:62-79 | After one message, a note sounds exactly when the message was a Note On for it, or when it sounded before and the message was no Note Off for it. |
| `Dispatch.RunSounding` | src/main.rs:62-79 | After any stream, a note sounds exactly when the last Note On or Note Off for it was a Note On. If there was none, it sounds exactly when it sounded before the stream. |
| `Dispatch.TwoNotesOneReleased` | src/main.rs:125-136 | Note On 60, Note On 64, Note Off 60 on a new synthesizer leaves exactly note 64 sounding. |

## Left out

- `main` (src/main.rs:7-54) is left out. It enumerates ports, opens the connection and the audio output stream, and waits on the console. This is I/O.
- The `println!` output is left out. The `Decoded` value returned by `DecodeMidiMessage` stands for what is printed.
- The rodio `Sink`, `SineWave` and `OutputStreamHandle` are foreign library code. A handle is a value `Handle(id, tone)`. The counter `nextId` stands for the identity of a newly allocated sink. The synthesizer's `stream_handle` field is not modelled.
- Dropping a replaced sink is recorded as a `Dropped` event and the handle is no longer live. That rodio's `Drop` stops the sound is library behaviour and is not modelled.
- The `unwrap()` on `Sink::try_new` (src/main.rs:127) can panic when no sink can be allocated. This failure comes from the audio library and is not modelled: `NoteOn` always succeeds.
- `Voices.MidiNoteToFreq`: the f32 `powf` arithmetic is left out. The model's tone is the exact offset in semitones from A4 (note − 69), which stands for 440 · 2^((note − 69)/12) Hz. The only property stated is that the tone depends on the note alone and is injective.
- Truncated messages panic in the source. What the input library does with the callback after the panic is not modelled. `Run` simply goes on with the next message.
- The callback's cross-thread closure (src/main.rs:36-39) is concurrency and is left out. Messages are applied one at a time.
- Tearing down the synthesizer, which drops every remaining sink, is not modelled.
- Data bytes are not restricted to 0..127. The source does not check them either.
