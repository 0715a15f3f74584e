/** The C++ binding layer: the MIDI message type codes, the conversion of
    the decoder's message list into dictionary records (keeping the tempo
    in force), the checks `SoundFont::render` makes on the buffer it is
    handed, and the sentinel string that stands for a missing preset name.
    The decoder itself (TML) and the synthesizer (TinySoundFont) are not
    modelled: the decoder's output is an input here, and rendering is a
    logged call elsewhere. */
module Native {
  import opened Common

  // MIDI message type codes, as the binding exports them.
  const NOTE_OFF: int := 0x80
  const NOTE_ON: int := 0x90
  const KEY_PRESSURE: int := 0xA0
  const CONTROL_CHANGE: int := 0xB0
  const PROGRAM_CHANGE: int := 0xC0
  const CHANNEL_PRESSURE: int := 0xD0
  const PITCH_BEND: int := 0xE0
  const SET_TEMPO: int := 0x51

  /** The tempo recorded with each record. A tempo message whose value is
      zero microseconds per beat gives an infinite bpm (a C++ double
      division by zero). */
  datatype Bpm = Bpm(perMinute: real) | InfiniteBpm

  const INITIAL_BPM: Bpm := Bpm(10.0)

  /** One message of the decoder's linked list, as its accessors read it:
      `time` in milliseconds and `tempo` the value the decoder reports for
      a SET_TEMPO message, in microseconds per beat. */
  datatype Message = Message(
    time: nat, kind: int, channel: int,
    key: int, velocity: int, keyPressure: int,
    control: int, controlValue: int, program: int,
    channelPressure: int, pitchBend: int, tempo: nat)

  /** The payload keys a record dictionary carries, by message type. */
  datatype Payload =
    | NoteFields(key: int, velocity: int)
    | KeyPressureFields(key: int, keyPressure: int)
    | ControlFields(control: int, controlValue: int)
    | ProgramFields(program: int)
    | ChannelPressureFields(channelPressure: int)
    | PitchBendFields(pitchBend: int)
    | NoFields

  /** A record dictionary: the keys `t`, `type`, `channel` and `bpm` are
      always present; `payload` gives the type-specific keys; `persistent`
      is the optional `"persistent"` key, which conversion never sets but a
      filter may. */
  datatype Record = Record(
    t: real, kind: int, channel: int, payload: Payload, bpm: Bpm,
    persistent: Option<PyValue>)

  /** `record[name]` for a payload key: the value, or `KeyError` when the
      dictionary has no such key. */
  function Field(r: Record, name: string): (v: Result<int>)
    ensures v.Err? ==> v.error == KeyError(name)
  {
    match r.payload
    case NoteFields(key, velocity) =>
      if name == "key" then Ok(key) else if name == "velocity" then Ok(velocity) else Err(KeyError(name))
    case KeyPressureFields(key, pressure) =>
      if name == "key" then Ok(key) else if name == "key_pressure" then Ok(pressure) else Err(KeyError(name))
    case ControlFields(control, value) =>
      if name == "control" then Ok(control) else if name == "control_value" then Ok(value) else Err(KeyError(name))
    case ProgramFields(program) =>
      if name == "program" then Ok(program) else Err(KeyError(name))
    case ChannelPressureFields(pressure) =>
      if name == "channel_pressure" then Ok(pressure) else Err(KeyError(name))
    case PitchBendFields(bend) =>
      if name == "pitch_bend" then Ok(bend) else Err(KeyError(name))
    case NoFields => Err(KeyError(name))
  }

  /** The payload the conversion attaches to a message of each type. */
  function PayloadOf(m: Message): Payload {
    if m.kind == NOTE_OFF || m.kind == NOTE_ON then NoteFields(m.key, m.velocity)
    else if m.kind == KEY_PRESSURE then KeyPressureFields(m.key, m.keyPressure)
    else if m.kind == CONTROL_CHANGE then ControlFields(m.control, m.controlValue)
    else if m.kind == PROGRAM_CHANGE then ProgramFields(m.program)
    else if m.kind == CHANNEL_PRESSURE then ChannelPressureFields(m.channelPressure)
    else if m.kind == PITCH_BEND then PitchBendFields(m.pitchBend)
    else NoFields
  }

  /** The bpm a SET_TEMPO message sets: 60e6 divided by its microseconds per beat. */
  function TempoBpm(microsecondsPerBeat: nat): Bpm {
    if microsecondsPerBeat == 0 then InfiniteBpm
    else Bpm(60000000.0 / microsecondsPerBeat as real)
  }

  /** The bpm in force once `m` has been read, when `current` was in force before. */
  function BpmAfter(m: Message, current: Bpm): Bpm {
    if m.kind == SET_TEMPO then TempoBpm(m.tempo) else current
  }

  /** The bpm stamped on the record of message `i`. */
  function BpmAt(msgs: seq<Message>, i: nat): Bpm
    requires i < |msgs|
  {
    BpmAfter(msgs[i], if i == 0 then INITIAL_BPM else BpmAt(msgs, i - 1))
  }

  /** The record built for one message, given the bpm in force. */
  function RecordOf(m: Message, bpm: Bpm): Record {
    Record(m.time as real * 0.001, m.kind, m.channel, PayloadOf(m), bpm, None)
  }

  /** A record carries exactly the payload keys of its message type, with the
      values the message holds; SET_TEMPO and unknown types carry none. */
  lemma RecordFields(m: Message, bpm: Bpm)
    ensures var r := RecordOf(m, bpm);
      && r.t == m.time as real * 0.001 && r.kind == m.kind && r.channel == m.channel
      && r.bpm == bpm && r.persistent == None
      && (Field(r, "key").Ok? <==> m.kind in {NOTE_ON, NOTE_OFF, KEY_PRESSURE})
      && (Field(r, "key").Ok? ==> Field(r, "key").value == m.key)
      && (Field(r, "velocity").Ok? <==> m.kind in {NOTE_ON, NOTE_OFF})
      && (Field(r, "velocity").Ok? ==> Field(r, "velocity").value == m.velocity)
      && (Field(r, "key_pressure").Ok? <==> m.kind == KEY_PRESSURE)
      && (Field(r, "key_pressure").Ok? ==> Field(r, "key_pressure").value == m.keyPressure)
      && (Field(r, "control").Ok? <==> m.kind == CONTROL_CHANGE)
      && (Field(r, "control").Ok? ==> Field(r, "control").value == m.control)
      && (Field(r, "control_value").Ok? <==> m.kind == CONTROL_CHANGE)
      && (Field(r, "control_value").Ok? ==> Field(r, "control_value").value == m.controlValue)
      && (Field(r, "program").Ok? <==> m.kind == PROGRAM_CHANGE)
      && (Field(r, "program").Ok? ==> Field(r, "program").value == m.program)
      && (Field(r, "channel_pressure").Ok? <==> m.kind == CHANNEL_PRESSURE)
      && (Field(r, "channel_pressure").Ok? ==> Field(r, "channel_pressure").value == m.channelPressure)
      && (Field(r, "pitch_bend").Ok? <==> m.kind == PITCH_BEND)
      && (Field(r, "pitch_bend").Ok? ==> Field(r, "pitch_bend").value == m.pitchBend)
  {
  }

  /** The bpm on record `i` is that of the last SET_TEMPO message at or
      before `i`, and the initial 10 bpm when there is none. */
  lemma {:induction false} BpmIsLastTempo(msgs: seq<Message>, i: nat)
    requires i < |msgs|
    ensures (forall j :: 0 <= j <= i ==> msgs[j].kind != SET_TEMPO) ==> BpmAt(msgs, i) == INITIAL_BPM
    ensures forall j :: 0 <= j <= i && msgs[j].kind == SET_TEMPO
                        && (forall l :: j < l <= i ==> msgs[l].kind != SET_TEMPO)
                        ==> BpmAt(msgs, i) == TempoBpm(msgs[j].tempo)
  {
    if i > 0 {
      BpmIsLastTempo(msgs, i - 1);
    }
  }

  /** The records of a whole message list: one per message, in list order. */
  function Decoded(msgs: seq<Message>): (rs: seq<Record>)
    ensures |rs| == |msgs|
    ensures forall i :: 0 <= i < |msgs| ==> rs[i] == RecordOf(msgs[i], BpmAt(msgs, i))
  {
    seq(|msgs|, i requires 0 <= i < |msgs| => RecordOf(msgs[i], BpmAt(msgs, i)))
  }

  lemma DecodedPointwise(msgs: seq<Message>, rs: seq<Record>)
    requires |rs| == |msgs|
    requires forall i :: 0 <= i < |msgs| ==> rs[i] == RecordOf(msgs[i], BpmAt(msgs, i))
    ensures rs == Decoded(msgs)
  {
  }

  /** `midi_load_memory`: a null parse raises; otherwise one record per
      message, in list order, each stamped with the bpm in force. */
  method MidiLoadMemory(parsed: Option<seq<Message>>) returns (r: Result<seq<Record>>)
    ensures parsed.None? ==> r == Err(RuntimeError("Could not load MIDI data"))
    ensures parsed.Some? ==> r == Ok(Decoded(parsed.value))
  {
    if parsed.None? {
      return Err(RuntimeError("Could not load MIDI data"));
    }
    var msgs := parsed.value;
    var result: seq<Record> := [];
    var currentBpm := INITIAL_BPM;
    var pos := 0;
    while pos < |msgs|
      invariant 0 <= pos <= |msgs|
      invariant |result| == pos
      invariant forall i :: 0 <= i < pos ==> result[i] == RecordOf(msgs[i], BpmAt(msgs, i))
      invariant currentBpm == if pos == 0 then INITIAL_BPM else BpmAt(msgs, pos - 1)
    {
      var m := msgs[pos];
      if m.kind == SET_TEMPO {
        currentBpm := TempoBpm(m.tempo);
      }
      result := result + [RecordOf(m, currentBpm)];
      pos := pos + 1;
    }
    DecodedPointwise(msgs, result);
    return Ok(result);
  }

  /** The synthesizer's output layouts; every soundfont the Python layer
      loads is set to stereo interleaved. */
  datatype OutputMode = StereoInterleaved | StereoUnweaved | Mono

  /** The channels per frame: one in mono, two in both stereo layouts. */
  function OutputChannels(mode: OutputMode): (n: nat)
    ensures n == 1 <==> mode == Mono
    ensures n == 1 || n == 2
  {
    if mode == Mono then 1 else 2
  }

  /** What the buffer protocol reports about a buffer: its format code
      (`"B"` for unsigned char, `"f"` for float32), dimension and shape. */
  datatype BufferInfo = BufferInfo(format: string, ndim: nat, shape: seq<nat>)

  const BYTE_FORMAT := "B"
  const FLOAT_FORMAT := "f"

  /** A one-dimensional byte buffer of `length` bytes. */
  function ByteBuffer(length: nat): BufferInfo {
    BufferInfo(BYTE_FORMAT, 1, [length])
  }

  /** The bytes of one frame in a byte buffer: a 4-byte float per channel. */
  function FrameSize(mode: OutputMode): (n: nat)
    ensures n == 4 * OutputChannels(mode)
  {
    if mode == Mono then 4 else 8
  }

  /** The message for a float buffer whose rows do not hold one value per channel. */
  function ChannelSizeError(mode: OutputMode): string {
    "Incompatible buffer length, channel size must be " + if mode == Mono then "1 for mono" else "2 for stereo"
  }

  /** The number of frames `SoundFont::render` renders into `info`, or the
      error it raises. */
  function RenderFrames(info: BufferInfo, mode: OutputMode): (r: Result<int>)
    requires |info.shape| == info.ndim
    ensures r.Err? ==> r.error.RuntimeError?
    ensures r.Ok? ==> info.format == (if info.ndim == 1 then BYTE_FORMAT else FLOAT_FORMAT)
  {
    if info.ndim == 1 then
      if info.format != BYTE_FORMAT then Err(RuntimeError("Incompatible buffer format, must be unsigned char"))
      else if info.shape[0] % FrameSize(mode) != 0 then Err(RuntimeError("Buffer length does not divide evenly into sample frames"))
      else Ok(info.shape[0] / FrameSize(mode))
    else if info.format != FLOAT_FORMAT then Err(RuntimeError("Incompatible buffer format, must be float32"))
    else if info.ndim != 2 then Err(RuntimeError("Incompatible buffer dimension, must be 1 dimensional bytearray or 2 dimensional of size (samples, channels)"))
    else if info.shape[1] != OutputChannels(mode) then Err(RuntimeError(ChannelSizeError(mode)))
    else Ok(info.shape[0])
  }

  /** A one-dimensional buffer is accepted exactly when it is a byte buffer
      whose length is a whole number of frames, and then the frames fill it. */
  lemma RenderFramesOneDimensional(info: BufferInfo, mode: OutputMode)
    requires info.ndim == 1 && |info.shape| == 1
    ensures RenderFrames(info, mode).Ok?
        <==> info.format == BYTE_FORMAT && info.shape[0] % (4 * OutputChannels(mode)) == 0
    ensures RenderFrames(info, mode).Ok? ==>
      RenderFrames(info, mode).value >= 0 && RenderFrames(info, mode).value * 4 * OutputChannels(mode) == info.shape[0]
  {
    var n := FrameSize(mode);
    assert info.shape[0] == (info.shape[0] / n) * n + info.shape[0] % n;
  }

  /** Any other buffer is checked for float32 format first, then for two
      dimensions. */
  lemma RenderFramesFloatChecks(info: BufferInfo, mode: OutputMode)
    requires info.ndim != 1 && |info.shape| == info.ndim
    ensures info.format != FLOAT_FORMAT ==> RenderFrames(info, mode) == Err(RuntimeError("Incompatible buffer format, must be float32"))
    ensures info.format == FLOAT_FORMAT && info.ndim != 2 ==> RenderFrames(info, mode).Err?
  {
  }

  /** Any other buffer is accepted exactly when it is a two-dimensional
      float32 buffer with one column per output channel, and then renders
      one frame per row. */
  lemma RenderFramesTwoDimensional(info: BufferInfo, mode: OutputMode)
    requires info.ndim != 1 && |info.shape| == info.ndim
    ensures RenderFrames(info, mode).Ok? <==> info.format == FLOAT_FORMAT && info.ndim == 2 && info.shape[1] == OutputChannels(mode)
    ensures RenderFrames(info, mode).Ok? ==> RenderFrames(info, mode) == Ok(info.shape[0])
  {
  }

  /** A byte buffer sized for `frames` frames renders exactly `frames` frames. */
  lemma {:induction false} RenderFramesOfByteBuffer(frames: nat, mode: OutputMode)
    ensures RenderFrames(ByteBuffer(frames * 4 * OutputChannels(mode)), mode) == Ok(frames)
  {
    var n := FrameSize(mode);
    assert frames * 4 * OutputChannels(mode) == frames * n;
    assert (frames * n) % n == 0 && (frames * n) / n == frames by {
      if mode == Mono {
        assert (frames * 4) % 4 == 0;
      } else {
        assert (frames * 8) % 8 == 0;
      }
    }
  }

  /** `string_none_if_nullptr`: a missing name becomes the text `"<None>"`. */
  const NONE_NAME := "<None>"

  function StringNoneIfNull(s: Option<string>): (r: string)
    ensures s.Some? ==> r == s.value
    ensures s.None? ==> r == NONE_NAME
  {
    if s.Some? then s.value else NONE_NAME
  }
}
