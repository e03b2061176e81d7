/**
 * `Synthesizer`: the object that owns one playback handle per sounding note.
 * Its map field is updated in place by `NoteOn` and `NoteOff`; every method
 * keeps the fields equal to a Voices.VoiceState and says which one.
 */
module Synth {
  import Midi
  import Voices

  class Synthesizer {
    /** The voice table: note number to the handle playing it. */
    var sinks: map<Midi.Byte, Voices.Handle>
    /** The identity the next handle gets (stands for allocating a new sink). */
    var nextId: nat
    /** Every handle created, stopped and dropped, in order. */
    ghost var log: seq<Voices.SinkEvent>

    ghost function State(): Voices.VoiceState
      reads this
    {
      Voices.VoiceState(sinks, nextId, log)
    }

    ghost predicate Valid()
      reads this
    {
      Voices.Valid(State())
    }

    /** A new synthesizer has an empty voice table. */
    constructor ()
      ensures Valid() && State() == Voices.Initial()
      ensures sinks == map[]
    {
      sinks := map[];
      nextId := 0;
      log := [];
    }

    /**
     * Creates a handle playing the note's tone and stores it under `note`,
     * dropping the handle stored there before; the velocity is not used.
     */
    method NoteOn(note: Midi.Byte, velocity: Midi.Byte)
      requires Valid()
      modifies this
      ensures Valid()
      ensures State() == Voices.NoteOn(old(State()), note, velocity)
      ensures note in sinks && sinks[note] !in Voices.Live(old(log))
      ensures forall n :: n in old(sinks) && n != note ==> n in sinks && sinks[n] == old(sinks)[n]
    {
      ghost var before := State();
      var frequency := Voices.MidiNoteToFreq(note);
      var sink := Voices.Handle(nextId, frequency);
      nextId := nextId + 1;
      log := log + [Voices.Created(sink)];
      if note in sinks {
        log := log + [Voices.Dropped(sinks[note])];
      }
      sinks := sinks[note := sink];
      Voices.NoteOnReplaces(before, note, velocity);
    }

    /** Removes and stops the handle stored under `note`; does nothing if there is none. */
    method NoteOff(note: Midi.Byte)
      requires Valid()
      modifies this
      ensures Valid()
      ensures State() == Voices.NoteOff(old(State()), note)
      ensures note !in sinks
      ensures forall n :: n in sinks <==> n in old(sinks) && n != note
      ensures forall n :: n in sinks ==> sinks[n] == old(sinks)[n]
    {
      ghost var before := State();
      if note in sinks {
        var sink := sinks[note];
        sinks := sinks - {note};
        log := log + [Voices.Stopped(sink)];
      }
      Voices.NoteOffReleases(before, note);
    }
  }

  /**
   * A second `note_on` for a sounding note leaves one live handle for it:
   * the first handle is no longer live and the second plays the note's tone.
   */
  method ReplaceNote(velocity1: Midi.Byte, velocity2: Midi.Byte)
  {
    var synth := new Synthesizer();
    synth.NoteOn(60, velocity1);
    var first := synth.sinks[60];
    synth.NoteOn(60, velocity2);
    var second := synth.sinks[60];
    assert first != second;
    assert synth.sinks.Keys == {60};
    assert first !in Voices.Live(synth.log);
    forall h | h in Voices.Live(synth.log) && h.tone == Voices.MidiNoteToFreq(60)
      ensures h == second
    {
      Voices.AtMostOneLivePerNote(synth.State(), h, second);
    }
  }
}
