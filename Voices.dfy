/**
 * The voice table of `Synthesizer` as a value: the map from note number to
 * playback handle, the allocator of fresh handles, and a ghost record of every
 * handle created, stopped and dropped. The class in module Synth keeps its
 * fields equal to one of these states.
 */
module Voices {
  import Midi

  /**
   * A pitch of twelve-tone equal temperament, `semitonesFromA4` above A4; it
   * stands for 440 * 2^(semitonesFromA4 / 12) Hz, which is not computed here.
   */
  datatype Pitch = Pitch(semitonesFromA4: int)

  /** The pitch of `midi_note_to_freq`; it depends on the note number alone. */
  function MidiNoteToFreq(note: Midi.Byte): (p: Pitch)
    ensures -69 <= p.semitonesFromA4 < 256 - 69
    ensures p.semitonesFromA4 == 0 <==> note == 69
  {
    Pitch(note as int - 69)
  }

  /** Distinct notes sound at distinct pitches. */
  lemma MidiNoteToFreqInjective(a: Midi.Byte, b: Midi.Byte)
    ensures MidiNoteToFreq(a) == MidiNoteToFreq(b) ==> a == b
  {
  }

  /** An opaque playback handle (a sink playing a sine wave): its identity and its tone. */
  datatype Handle = Handle(id: nat, tone: Pitch)

  /** What happens to a handle: it is created, stopped by note-off, or dropped by replacement. */
  datatype SinkEvent =
    | Created(handle: Handle)
    | Stopped(handle: Handle)
    | Dropped(handle: Handle)

  datatype VoiceState = VoiceState(sinks: map<Midi.Byte, Handle>, nextId: nat, log: seq<SinkEvent>)

  /** The live handles after one event, given those before it. */
  function AfterEvent(live: set<Handle>, e: SinkEvent): set<Handle>
  {
    match e
    case Created(h) => live + {h}
    case Stopped(h) => live - {h}
    case Dropped(h) => live - {h}
  }

  /** The handles created and neither stopped nor dropped since, by the record of events. */
  function Live(log: seq<SinkEvent>): set<Handle>
    decreases |log|
  {
    if log == [] then {} else AfterEvent(Live(log[..|log| - 1]), log[|log| - 1])
  }

  lemma LiveAppend(log: seq<SinkEvent>, e: SinkEvent)
    ensures Live(log + [e]) == AfterEvent(Live(log), e)
  {
    assert (log + [e])[..|log|] == log;
  }

  /**
   * The invariant of the voice table: the live handles are exactly the
   * handles in the table, each entry plays its own note's tone, and every
   * handle ever recorded was allocated before `nextId`.
   */
  ghost predicate Valid(s: VoiceState)
  {
    && s.sinks.Values == Live(s.log)
    && (forall n :: n in s.sinks ==> s.sinks[n].tone == MidiNoteToFreq(n))
    && AllocatedBefore(s.log, s.nextId)
  }

  /** The table of a new synthesizer. */
  function Initial(): (s: VoiceState)
    ensures Valid(s) && s.sinks == map[] && Live(s.log) == {}
  {
    VoiceState(map[], 0, [])
  }

  /**
   * `note_on`: a new handle playing the note's tone is created and stored
   * under `note`; the handle it replaces, if any, is dropped. The velocity is
   * accepted and not used.
   */
  function NoteOn(s: VoiceState, note: Midi.Byte, velocity: Midi.Byte): (t: VoiceState)
    ensures note in t.sinks && t.sinks[note].tone == MidiNoteToFreq(note)
    ensures t.sinks.Keys == s.sinks.Keys + {note}
    ensures forall n :: n in s.sinks && n != note ==> t.sinks[n] == s.sinks[n]
    ensures t.nextId == s.nextId + 1 && s.log <= t.log
  {
    var h := Handle(s.nextId, MidiNoteToFreq(note));
    var dropped := if note in s.sinks then [Dropped(s.sinks[note])] else [];
    VoiceState(s.sinks[note := h], s.nextId + 1, s.log + [Created(h)] + dropped)
  }

  /** `note_off`: the handle stored under `note`, if any, is removed and stopped. */
  function NoteOff(s: VoiceState, note: Midi.Byte): (t: VoiceState)
    ensures t.sinks.Keys == s.sinks.Keys - {note}
    ensures forall n :: n in t.sinks ==> t.sinks[n] == s.sinks[n]
    ensures t.nextId == s.nextId && s.log <= t.log
    ensures note !in s.sinks ==> t == s
  {
    if note in s.sinks then
      VoiceState(s.sinks - {note}, s.nextId, s.log + [Stopped(s.sinks[note])])
    else s
  }

  /** A note under which a handle in the table is stored. */
  lemma KeyOf(m: map<Midi.Byte, Handle>, h: Handle) returns (n: Midi.Byte)
    requires h in m.Values
    ensures n in m && m[n] == h
  {
    n :| n in m && m[n] == h;
  }

  /** At most one live handle per note: two live handles with the same tone are the same handle. */
  lemma AtMostOneLivePerNote(s: VoiceState, h1: Handle, h2: Handle)
    requires Valid(s)
    requires h1 in Live(s.log) && h2 in Live(s.log) && h1.tone == h2.tone
    ensures h1 == h2
  {
    var n1 := KeyOf(s.sinks, h1);
    var n2 := KeyOf(s.sinks, h2);
    MidiNoteToFreqInjective(n1, n2);
  }

  /** No two notes share a handle. */
  lemma HandlesDistinct(s: VoiceState, n1: Midi.Byte, n2: Midi.Byte)
    requires Valid(s) && n1 in s.sinks && n2 in s.sinks && n1 != n2
    ensures s.sinks[n1] != s.sinks[n2]
  {
    MidiNoteToFreqInjective(n1, n2);
  }

  /** Every handle of the record was allocated before `nextId`. */
  ghost predicate AllocatedBefore(log: seq<SinkEvent>, nextId: nat)
  {
    forall i :: 0 <= i < |log| ==> log[i].handle.id < nextId
  }

  lemma AllocatedBeforeAppend(log: seq<SinkEvent>, nextId: nat, extra: seq<SinkEvent>, nextId': nat)
    requires AllocatedBefore(log, nextId) && nextId <= nextId' && AllocatedBefore(extra, nextId')
    ensures AllocatedBefore(log + extra, nextId')
  {
    forall i | 0 <= i < |log + extra| ensures (log + extra)[i].handle.id < nextId' {
      if i < |log| {
        assert (log + extra)[i] == log[i];
      } else {
        assert (log + extra)[i] == extra[i - |log|];
      }
    }
  }

  /**
   * After `note_on`, `note` maps to a handle that was not live before and
   * plays the note's tone; every other entry is unchanged; the replaced handle,
   * if any, is no longer live, and the invariant still holds.
   */
  lemma NoteOnReplaces(s: VoiceState, note: Midi.Byte, velocity: Midi.Byte)
    requires Valid(s)
    ensures var t := NoteOn(s, note, velocity);
      && Valid(t)
      && note in t.sinks && t.sinks[note] !in Live(s.log)
      && t.sinks[note].tone == MidiNoteToFreq(note)
      && t.sinks.Keys == s.sinks.Keys + {note}
      && (forall n :: n in s.sinks && n != note ==> t.sinks[n] == s.sinks[n])
      && Live(t.log) == Live(s.log) - (if note in s.sinks then {s.sinks[note]} else {}) + {t.sinks[note]}
  {
    var t := NoteOn(s, note, velocity);
    var h := Handle(s.nextId, MidiNoteToFreq(note));
    var created := s.log + [Created(h)];
    LiveAppend(s.log, Created(h));
    assert h !in Live(s.log) by {
      if h in Live(s.log) {
        LiveHasId(s, h);
      }
    }
    var old' := if note in s.sinks then {s.sinks[note]} else {};
    if note in s.sinks {
      LiveAppend(created, Dropped(s.sinks[note]));
      assert t.log == created + [Dropped(s.sinks[note])];
      assert s.sinks[note] != h;
    } else {
      assert t.log == created;
    }
    assert Live(t.log) == Live(s.log) - old' + {h};
    assert t.sinks.Values == s.sinks.Values - old' + {h} by {
      forall v | v in t.sinks.Values ensures v in s.sinks.Values - old' + {h} {
        var n := KeyOf(t.sinks, v);
        if n != note {
          assert v == s.sinks[n];
          if note in s.sinks { HandlesDistinct(s, n, note); }
        }
      }
      forall v | v in s.sinks.Values - old' + {h} ensures v in t.sinks.Values {
        if v != h {
          var n := KeyOf(s.sinks, v);
          assert t.sinks[n] == v;
        } else {
          assert t.sinks[note] == h;
        }
      }
    }
    forall n | n in t.sinks ensures t.sinks[n].tone == MidiNoteToFreq(n) {
      if n != note {
        assert t.sinks[n] == s.sinks[n];
      }
    }
    var extra := [Created(h)] + if note in s.sinks then [Dropped(s.sinks[note])] else [];
    if note in s.sinks {
      LiveHasId(s, s.sinks[note]);
    }
    assert AllocatedBefore(extra, t.nextId);
    AllocatedBeforeAppend(s.log, s.nextId, extra, t.nextId);
    assert t.log == s.log + extra;
  }

  /** Every live handle was allocated before `nextId`. */
  lemma LiveHasId(s: VoiceState, h: Handle)
    requires AllocatedBefore(s.log, s.nextId)
    requires h in Live(s.log)
    ensures h.id < s.nextId
  {
    var i := LiveFromLog(s.log, h);
    assert s.log[i].handle == h;
  }

  /** A live handle was created by some recorded event. */
  lemma {:induction false} LiveFromLog(log: seq<SinkEvent>, h: Handle) returns (i: nat)
    requires h in Live(log)
    ensures i < |log| && log[i] == Created(h)
    decreases |log|
  {
    var init := log[..|log| - 1];
    if log[|log| - 1] == Created(h) {
      i := |log| - 1;
    } else {
      i := LiveFromLog(init, h);
      assert log[i] == init[i];
    }
  }

  /**
   * After `note_off`, `note` is absent and every other entry is unchanged; a
   * handle is stopped exactly when one was stored under `note`, and the
   * invariant still holds.
   */
  lemma NoteOffReleases(s: VoiceState, note: Midi.Byte)
    requires Valid(s)
    ensures var t := NoteOff(s, note);
      && Valid(t)
      && t.sinks.Keys == s.sinks.Keys - {note}
      && (forall n :: n in t.sinks ==> t.sinks[n] == s.sinks[n])
      && t.nextId == s.nextId
      && Live(t.log) == Live(s.log) - (if note in s.sinks then {s.sinks[note]} else {})
      && (if note in s.sinks then t.log == s.log + [Stopped(s.sinks[note])] else t == s)
  {
    var t := NoteOff(s, note);
    if note in s.sinks {
      var h := s.sinks[note];
      LiveAppend(s.log, Stopped(h));
      assert t.sinks.Values == s.sinks.Values - {h} by {
        forall v | v in s.sinks.Values - {h} ensures v in t.sinks.Values {
          var n := KeyOf(s.sinks, v);
          assert t.sinks[n] == v;
        }
        forall v | v in t.sinks.Values ensures v in s.sinks.Values - {h} {
          var n := KeyOf(t.sinks, v);
          HandlesDistinct(s, n, note);
        }
      }
      forall n | n in t.sinks ensures t.sinks[n] == s.sinks[n] && t.sinks[n].tone == MidiNoteToFreq(n) {
      }
      LiveHasId(s, h);
      AllocatedBeforeAppend(s.log, s.nextId, [Stopped(h)], t.nextId);
    }
  }

  /** A second `note_off` for the same note changes nothing: calling it twice equals calling it once. */
  lemma NoteOffIdempotent(s: VoiceState, note: Midi.Byte)
    ensures NoteOff(NoteOff(s, note), note) == NoteOff(s, note)
  {
  }

  /** The velocity has no effect on the table. */
  lemma NoteOnIgnoresVelocity(s: VoiceState, note: Midi.Byte, v1: Midi.Byte, v2: Midi.Byte)
    ensures NoteOn(s, note, v1) == NoteOn(s, note, v2)
  {
  }
}
