/** The `Synth` and `Sequencer` objects themselves. Their methods change
    their fields step by step, as the Python classes do, and each one's
    contract ties the new fields (and what it returns or raises) to the
    function of the old fields that `Routing` or `Scheduling` defines, so
    that everything proved there holds of the objects. The two classes
    refer to each other (a sequencer drives its synthesizer, and the
    synthesizer calls back into the sequencer while it generates), so they
    share this module. */
module Playback {
  import opened Common
  import opened Native
  import opened Routing
  import opened Scheduling
  import StableSort

  /** `Synth`: the SoundFonts it has loaded, the next id it hands out, the
      channel-to-SoundFont map, the calls made on the native SoundFont
      objects so far, and the sequencer called back from `generate`. */
  class Synth {
    const renderer: Renderer
    const gain: real
    const samplerate: int
    var soundfonts: seq<nat>
    var nextSfid: nat
    var channel: map<int, nat>
    var calls: seq<RendererCall>
    var callback: Sequencer?

    /** The bookkeeping fields as one registry value. */
    function State(): Registry
      reads this
    {
      Registry(soundfonts, nextSfid, channel, calls)
    }

    /** The clock of the sequencer called back from `generate`, if any. */
    function ClockOf(): Option<Clock>
      reads this, callback
    {
      if callback == null then None else Some(callback.Now())
    }

    /** A new synthesizer has nothing loaded, no channel bound and no callback. */
    constructor(renderer: Renderer, gain: real := 0.0, samplerate: int := 44100)
      ensures this.renderer == renderer && this.gain == gain && this.samplerate == samplerate
      ensures State() == EMPTY && callback == null
    {
      this.renderer := renderer;
      this.gain := gain;
      this.samplerate := samplerate;
      soundfonts := [];
      nextSfid := 0;
      channel := map[];
      calls := [];
      callback := null;
    }

    /** `sfload`: create the native SoundFont (which raises when the source
        does not load), configure it, register it under the next id and
        bind every unbound channel to it. */
    method SfLoad(source: Source, gain: real := 0.0, maxVoices: int := 256) returns (r: Result<nat>)
      modifies this`soundfonts, this`nextSfid, this`channel, this`calls
      ensures Outcome(State(), r) == Routing.SfLoad(renderer, old(State()), source, gain, maxVoices, this.gain, samplerate)
    {
      if !renderer.loads(calls, source) {
        return Err(RuntimeError(LoadError(source)));
      }
      var sfid := nextSfid;
      calls := calls + [Load(sfid, source), SetOutput(sfid, StereoInterleaved, samplerate, this.gain + gain),
                        SetMaxVoices(sfid, maxVoices)];
      nextSfid := nextSfid + 1;
      soundfonts := soundfonts + [sfid];
      for chan := 0 to MAX_CHANNELS
        invariant channel == Claim(old(channel), sfid, chan)
        modifies this`channel
      {
        if chan !in channel {
          channel := channel[chan := sfid];
        }
      }
      return Ok(sfid);
    }

    /** `sfunload`: drop the SoundFont and every channel bound to it. */
    method SfUnload(sfid: int) returns (r: Result<()>)
      modifies this`soundfonts, this`channel
      ensures Outcome(State(), r) == Routing.SfUnload(old(State()), sfid)
    {
      if sfid !in soundfonts {
        return Err(SoundFontException(INVALID_SFID));
      }
      soundfonts := Without(soundfonts, sfid);
      channel := map c | c in channel && channel[c] != sfid :: channel[c];
      return Ok(());
    }

    /** One native call that can report failure, logged either way. */
    method Call(call: RendererCall, error: string) returns (r: Result<()>)
      modifies this`calls
      ensures Outcome(State(), r) == Checked(renderer, old(State()), call, error)
    {
      var accepted := renderer.accepts(calls, call);
      calls := calls + [call];
      r := if accepted then Ok(()) else Err(RuntimeError(error));
    }

    /** `program_select`: bind the channel, then set its bank and preset. */
    method ProgramSelect(chan: int, sfid: int, bank: int, preset: int, drums: bool := false) returns (r: Result<()>)
      modifies this`channel, this`calls
      ensures Outcome(State(), r) == Routing.ProgramSelect(renderer, old(State()), chan, sfid, bank, preset, drums)
    {
      if sfid !in soundfonts {
        return Err(SoundFontException(INVALID_SFID));
      }
      channel := channel[chan := sfid];
      r := Call(SetBank(sfid, chan, bank), "Error in channel_set_bank");
      if r.Err? {
        return;
      }
      r := Call(SetPresetNumber(sfid, chan, preset, drums), "Error in channel_set_preset_number");
    }

    /** `program_unset`. */
    method ProgramUnset(chan: int) returns (r: Result<()>)
      modifies this`channel
      ensures Outcome(State(), r) == Routing.ProgramUnset(old(State()), chan)
    {
      if chan !in channel {
        return Err(SoundFontException(UNASSIGNED));
      }
      channel := channel - {chan};
      return Ok(());
    }

    /** Look up the channel's SoundFont (`_get_sfid`, then `_get_soundfont`)
        and make `call` on it. */
    method Route(chan: int, call: nat -> RendererCall, error: Option<string>) returns (r: Result<()>)
      modifies this`calls
      ensures Outcome(State(), r) == Routed(renderer, old(State()), chan, call, error)
    {
      if chan !in channel {
        return Err(SoundFontException(UNASSIGNED));
      }
      var sfid := channel[chan];
      if sfid !in soundfonts {
        return Err(SoundFontException(INVALID_SFID));
      }
      if error.None? {
        calls := calls + [call(sfid)];
        return Ok(());
      }
      r := Call(call(sfid), error.value);
    }

    /** `program_change`. */
    method ProgramChange(chan: int, preset: int, drums: bool := false) returns (r: Result<()>)
      modifies this`calls
      ensures Outcome(State(), r) == Routing.ProgramChange(renderer, old(State()), chan, preset, drums)
    {
      r := Route(chan, (s: nat) => SetPresetNumber(s, chan, preset, drums), Some("Error in channel_set_preset_number"));
    }

    /** `program_info`: reads, changes nothing. */
    method ProgramInfo(chan: int) returns (r: Result<(nat, int, int)>)
      ensures r == Routing.ProgramInfo(renderer, State(), chan)
    {
      if chan !in channel {
        return Err(SoundFontException(UNASSIGNED));
      }
      var sfid := channel[chan];
      if sfid !in soundfonts {
        return Err(SoundFontException(INVALID_SFID));
      }
      var bank := renderer.presetBank(calls, sfid, chan);
      var preset := renderer.presetNumber(calls, sfid, chan);
      return Ok((sfid, bank, preset));
    }

    /** `sfpreset_name`: reads, changes nothing. */
    method SfPresetName(sfid: int, bank: int, preset: int) returns (r: Result<Option<string>>)
      ensures r == Routing.SfPresetName(renderer, State(), sfid, bank, preset)
    {
      if sfid !in soundfonts {
        return Err(SoundFontException(INVALID_SFID));
      }
      var name := StringNoneIfNull(renderer.presetName(calls, sfid, bank, preset));
      if name == NONE_NAME {
        return Ok(None);
      }
      return Ok(Some(name));
    }

    /** `noteon`. */
    method NoteOn(chan: int, key: int, velocity: int) returns (r: Result<bool>)
      modifies this`calls
      ensures Outcome(State(), r) == Routing.NoteOn(renderer, old(State()), chan, key, velocity)
    {
      if key < 0 || key > 127 {
        return Ok(false);
      }
      if velocity < 0 || velocity > 127 {
        return Ok(false);
      }
      if chan !in channel {
        return Ok(false);
      }
      var o := Route(chan, (s: nat) => ChannelNoteOn(s, chan, key, velocity as real / 127.0), Some("Error in channel_note_on"));
      r := if o.Err? then Err(o.error) else Ok(true);
    }

    /** `noteoff`. */
    method NoteOff(chan: int, key: int) returns (r: Result<bool>)
      modifies this`calls
      ensures Outcome(State(), r) == Routing.NoteOff(old(State()), chan, key)
    {
      if key < 0 || key > 127 {
        return Ok(false);
      }
      if chan !in channel {
        return Ok(false);
      }
      var o := Route(chan, (s: nat) => ChannelNoteOff(s, chan, key), None);
      r := if o.Err? then Err(o.error) else Ok(true);
    }

    /** `control_change`. */
    method ControlChange(chan: int, controller: int, value: int) returns (r: Result<()>)
      modifies this`calls
      ensures Outcome(State(), r) == Routing.ControlChange(renderer, old(State()), chan, controller, value)
    {
      r := Route(chan, (s: nat) => MidiControl(s, chan, controller, value), Some("Error in channel_midi_control"));
    }

    /** `set_tuning`. */
    method SetTuning(chan: int, tuning: real) returns (r: Result<()>)
      modifies this`calls
      ensures Outcome(State(), r) == SetChannelTuning(renderer, old(State()), chan, tuning)
    {
      r := Route(chan, (s: nat) => RendererCall.SetTuning(s, chan, tuning), Some("Error in channel_set_tuning"));
    }

    /** `pitchbend`. */
    method PitchBend(chan: int, value: int) returns (r: Result<()>)
      modifies this`calls
      ensures Outcome(State(), r) == Routing.PitchBend(renderer, old(State()), chan, value)
    {
      r := Route(chan, (s: nat) => SetPitchWheel(s, chan, value), Some("Error in channel_set_pitch_wheel"));
    }

    /** `pitchbend_range`. */
    method PitchBendRange(chan: int, semitones: real) returns (r: Result<()>)
      modifies this`calls
      ensures Outcome(State(), r) == Routing.PitchBendRange(renderer, old(State()), chan, semitones)
    {
      r := Route(chan, (s: nat) => SetPitchRange(s, chan, semitones), Some("Error in channel_set_pitch_range"));
    }

    /** `control_change(chan, controller, 0)` for channels 0 to 15 in turn;
        the first that raises ends the loop. */
    method Broadcast(controller: int) returns (r: Result<()>)
      modifies this`calls
      ensures Outcome(State(), r) == Routing.Broadcast(renderer, old(State()), controller, 0)
    {
      for chan := 0 to MAX_CHANNELS
        invariant Routing.Broadcast(renderer, old(State()), controller, 0)
               == Routing.Broadcast(renderer, State(), controller, chan)
      {
        r := ControlChange(chan, controller, 0);
        if r.Err? {
          return;
        }
      }
      return Ok(());
    }

    /** `notes_off`. */
    method NotesOff(chan: Option<int> := None) returns (r: Result<()>)
      modifies this`calls
      ensures Outcome(State(), r) == Routing.NotesOff(renderer, old(State()), chan)
    {
      if chan.None? {
        r := Broadcast(123);
      } else {
        r := ControlChange(chan.value, 123, 0);
      }
    }

    /** `sounds_off`. */
    method SoundsOff(chan: Option<int> := None) returns (r: Result<()>)
      modifies this`calls
      ensures Outcome(State(), r) == Routing.SoundsOff(renderer, old(State()), chan)
    {
      if chan.None? {
        r := Broadcast(120);
      } else {
        r := ControlChange(chan.value, 120, 0);
      }
    }

    /** `generate_simple`: every SoundFont renders into the buffer in load
        order, the first replacing what is there and the rest mixing. */
    method GenerateSimple(samples: int, buffer: Option<ByteView> := None) returns (r: Result<ByteView>)
      modifies this`calls
      ensures Outcome(State(), r) == Routing.GenerateSimple(old(State()), samples, buffer)
    {
      if buffer.None? && samples < 0 {
        return Err(ValueError("negative count"));
      }
      var view := if buffer.Some? then buffer.value else ByteView(0, samples * FRAME_BYTES);
      var mix := false;
      var i := 0;
      assert soundfonts[0..] == soundfonts;
      while i < |soundfonts|
        invariant 0 <= i <= |soundfonts| && mix == (i > 0)
        invariant RenderAll(old(State()), soundfonts, view, false) == RenderAll(State(), soundfonts[i..], view, mix)
      {
        assert soundfonts[i..][1..] == soundfonts[i + 1..];
        var frames := RenderFrames(ByteBuffer(view.length), StereoInterleaved);
        if frames.Err? {
          return Err(frames.error);
        }
        calls := calls + [RenderFloat(soundfonts[i], view.start, frames.value, mix)];
        mix := true;
        i := i + 1;
      }
      return Ok(view);
    }

    /** One pass of `generate`'s loop at frame `generated`: ask the
        sequencer how far time may advance, at most the duration of the
        frames left, and render that many frames into the next part of
        `view`. */
    method RenderPass(samples: int, view: ByteView, generated: int, ghost pass: PassFn, ghost p: Pass)
      returns (frames: int, error: Option<Error>)
      requires callback != null ==> callback.synth == this
      requires Agrees(pass, SendVia(renderer), samplerate, samples, view)
      requires p == pass(State(), ClockOf(), generated)
      modifies this`calls, callback
      ensures State() == p.registry && ClockOf() == p.clock && error == p.error
      ensures callback != null ==> callback.data == old(callback.data)
      ensures p.slice.Some? ==> frames == p.slice.value.frames
    {
      assert p == NextPass(SendVia(renderer), samplerate, samples, view, State(), ClockOf(), generated);
      if samplerate == 0 {
        return 0, Some(ZeroDivisionError);
      }
      var delta0 := (samples - generated) as real / samplerate as real;
      var delta := delta0;
      if callback != null {
        var advanced := callback.Process(delta0);
        if advanced.Err? {
          return 0, Some(advanced.error);
        }
        delta := Min(advanced.value, delta0);
      }
      frames := FrameCount(delta, samplerate);
      var pos := generated * FRAME_BYTES;
      var rendered := GenerateSimple(frames, Some(PySlice(view, pos, pos + frames * FRAME_BYTES)));
      error := if rendered.Err? then Some(rendered.error) else None;
    }

    /** `generate`: allocate the buffer when none is given (a negative
        size raises `ValueError`), then fill it. */
    method Generate(samples: int, buffer: Option<ByteView> := None) returns (r: Result<ByteView>)
      requires callback != null ==> callback.synth == this
      modifies this`calls, callback
      ensures var g := Scheduling.Generate(SendVia(renderer), old(State()), old(ClockOf()), samplerate, samples, buffer);
        State() == g.registry && ClockOf() == g.clock && r == g.result
      ensures callback != null ==> callback.data == old(callback.data)
    {
      if buffer.None? && samples < 0 {
        return Err(ValueError("negative count"));
      }
      var view := if buffer.Some? then buffer.value else ByteView(0, samples * FRAME_BYTES);
      r := Fill(samples, view);
    }

    /** One pass of `generate`'s loop: the loop from the state it leaves
        and the frames it reached ends as the loop from the state before;
        a pass that fails ends the loop with its error. */
    method FillStep(samples: int, view: ByteView, generated: int, ghost pass: PassFn, ghost g0: Generated)
      returns (frames: int, error: Option<Error>)
      requires callback != null ==> callback.synth == this
      requires Progressive(pass, samples) && Agrees(pass, SendVia(renderer), samplerate, samples, view)
      requires generated < samples
      requires Ending(GenerateLoop(pass, State(), ClockOf(), samples, generated, view)) == g0
      modifies this`calls, callback
      ensures error.Some? ==> State() == g0.registry && ClockOf() == g0.clock && Err(error.value) == g0.result
      ensures error.None? ==> Ending(GenerateLoop(pass, State(), ClockOf(), samples, generated + frames, view)) == g0
      ensures error.None? ==> 0 <= frames && (frames == 0 ==> Pending(ClockOf()) < old(Pending(ClockOf())))
      ensures callback != null ==> callback.data == old(callback.data)
    {
      ghost var reg, clock := State(), ClockOf();
      LoopStep(pass, reg, clock, samples, generated, view);
      ghost var p := pass(reg, clock, generated);
      frames, error := RenderPass(samples, view, generated, pass, p);
      if error.None? {
        LoopAdvance(pass, reg, clock, samples, generated, view, p, g0);
      }
    }

    /** The loop of `generate`: alternate between asking the sequencer how
        far time may advance and rendering that many frames into the next
        part of `view`, until `samples` frames are done. The callback is a
        sequencer driving this synthesizer. */
    method Fill(samples: int, view: ByteView) returns (r: Result<ByteView>)
      requires callback != null ==> callback.synth == this
      modifies this`calls, callback
      ensures var g := Scheduling.Generate(SendVia(renderer), old(State()), old(ClockOf()), samplerate, samples, Some(view));
        State() == g.registry && ClockOf() == g.clock && r == g.result
      ensures callback != null ==> callback.data == old(callback.data)
    {
      PassWitness(SendVia(renderer), samplerate, samples, view);
      ghost var pass :| Progressive(pass, samples) && Agrees(pass, SendVia(renderer), samplerate, samples, view);
      LoopAgrees(pass, SendVia(renderer), samplerate, samples, view, State(), ClockOf());
      ghost var g0 := Ending(GenerateLoop(pass, State(), ClockOf(), samples, 0, view));
      var generated := 0;
      while generated < samples
        invariant Ending(GenerateLoop(pass, State(), ClockOf(), samples, generated, view)) == g0
        invariant callback != null ==> callback.data == old(callback.data)
        decreases samples - generated, Pending(ClockOf())
      {
        var frames, error := FillStep(samples, view, generated, pass, g0);
        if error.Some? {
          return Err(error.value);
        }
        generated := generated + frames;
      }
      return Ok(view);
    }
  }

  /** The loop of `Sequencer.midi_load_memory`: each record in turn is
      offset by `time` in place and handed to the filter, and the ones
      whose verdict is not `== True` are collected, in order. */
  method Offset(records: seq<Record>, time: real, filter: Option<Record -> Filtered<Record>>)
    returns (data: seq<Record>, kept: seq<Record>)
    ensures data == Items(Touch(records, time, filter))
    ensures kept == Survivors(Touch(records, time, filter), EqualsTrue)
  {
    ghost var touched := Touch(records, time, filter);
    data := records;
    kept := [];
    for i := 0 to |records|
      invariant |data| == |records|
      invariant forall j :: 0 <= j < i ==> data[j] == touched[j].item
      invariant kept == Survivors(touched[..i], EqualsTrue)
    {
      var event := records[i].(t := records[i].t + time);
      var verdict := NoneValue;
      if filter.Some? {
        var f := filter.value(event);
        event, verdict := f.item, f.verdict;
      }
      data := data[i := event];
      assert touched[..i + 1] == touched[..i] + [touched[i]];
      SurvivorsAppend(touched[..i], [touched[i]], EqualsTrue);
      if !EqualsTrue(verdict) {
        kept := kept + [event];
      }
    }
    assert touched[..|records|] == touched;
  }

  /** `Sequencer`: its time in seconds, its queue of records in time order,
      and the records of the last MIDI data it loaded. */
  class Sequencer {
    const synth: Synth
    var time: real
    var events: seq<Record>
    var data: seq<Record>

    /** The clock as one value. */
    function Now(): Clock
      reads this
    {
      Clock(time, events)
    }

    /** A new sequencer starts at time 0 with an empty queue and makes
        itself the synthesizer's callback. */
    constructor(synth: Synth)
      modifies synth`callback
      ensures this.synth == synth && Now() == Clock(0.0, []) && data == [] && synth.callback == this
    {
      this.synth := synth;
      time := 0.0;
      events := [];
      data := [];
      new;
      synth.callback := this;
    }

    /** `midi_load_memory` on what the MIDI decoder made of the bytes: decode
        to records, offset each by the current time and hand it to the
        filter, then queue the survivors sorted by time. */
    method MidiLoadMemory(parsed: Option<seq<Message>>, filter: Option<Record -> Filtered<Record>> := None)
      returns (r: Result<()>)
      modifies this`data, this`events
      ensures parsed.None? ==> r == Err(RuntimeError("Could not load MIDI data")) && Now() == old(Now()) && data == old(data)
      ensures parsed.Some? ==> r == Ok(()) && Schedule(data, events) == SequencerLoad(Decoded(parsed.value), time, filter)
    {
      var decoded := Native.MidiLoadMemory(parsed);
      if decoded.Err? {
        return Err(decoded.error);
      }
      var records := decoded.value;
      var kept;
      data, kept := Offset(records, time, filter);
      events := StableSort.Sort(kept, RecordTime);
      return Ok(());
    }

    /** `send`: hand one record to the synthesizer operation its type names. */
    method Send(event: Record) returns (r: Result<()>)
      modifies synth`calls
      ensures Outcome(synth.State(), r) == Scheduling.Send(synth.renderer, old(synth.State()), event)
    {
      if event.kind == NOTE_ON {
        var key := Field(event, "key");
        if key.Err? {
          return Err(key.error);
        }
        var velocity := Field(event, "velocity");
        if velocity.Err? {
          return Err(velocity.error);
        }
        var played := synth.NoteOn(event.channel, key.value, velocity.value);
        r := if played.Err? then Err(played.error) else Ok(());
      } else if event.kind == NOTE_OFF {
        var key := Field(event, "key");
        if key.Err? {
          return Err(key.error);
        }
        var released := synth.NoteOff(event.channel, key.value);
        r := if released.Err? then Err(released.error) else Ok(());
      } else if event.kind == CONTROL_CHANGE {
        var control := Field(event, "control");
        if control.Err? {
          return Err(control.error);
        }
        var value := Field(event, "control_value");
        if value.Err? {
          return Err(value.error);
        }
        r := synth.ControlChange(event.channel, control.value, value.value);
      } else if event.kind == PROGRAM_CHANGE {
        var program := Field(event, "program");
        if program.Err? {
          return Err(program.error);
        }
        r := synth.ProgramChange(event.channel, program.value, false);
      } else if event.kind == PITCH_BEND {
        var bend := Field(event, "pitch_bend");
        if bend.Err? {
          return Err(bend.error);
        }
        r := synth.PitchBend(event.channel, bend.value);
      } else {
        r := Ok(());
      }
    }

    /** `process(delta)`: send every due record from the head of the queue,
        then advance time by at most `delta`. */
    method Process(delta: real) returns (r: Result<real>)
      modifies this`time, this`events, synth`calls
      ensures Processed(synth.State(), Now(), r)
           == Scheduling.Process(SendVia(synth.renderer), old(synth.State()), old(Now()), delta)
    {
      while events != []
        invariant Scheduling.Process(SendVia(synth.renderer), old(synth.State()), old(Now()), delta)
               == Scheduling.Process(SendVia(synth.renderer), synth.State(), Now(), delta)
        decreases |events|
      {
        var event := events[0];
        if event.t > time {
          var trueDelta := Min(delta, event.t - time);
          time := time + trueDelta;
          return Ok(trueDelta);
        }
        events := events[1..];
        var sent := Send(event);
        if sent.Err? {
          return Err(sent.error);
        }
      }
      time := time + delta;
      return Ok(delta);
    }
  }
}
