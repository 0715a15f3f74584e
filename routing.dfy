/** The instrument registry and channel router of `Synth`: which SoundFonts
    are loaded under which ids, which SoundFont each MIDI channel plays
    through, and the calls each operation makes on the native synthesizer.

    The synthesizer is modelled as a log of the calls made on it (each
    tagged with the id of the SoundFont object it was made on) and a
    `Renderer` of oracle functions that answer, from the calls made so far,
    whether a call succeeds and what a query returns. Each operation is a
    function from the old registry to an `Outcome`: the new registry and
    the value returned or the exception raised. The `Synth` class runs
    these same steps on its fields. */
module Routing {
  import opened Common
  import opened Native

  /** The channels `sfload`, `notes_off` and `sounds_off` range over. */
  const MAX_CHANNELS: int := 16

  /** Bytes per stereo float32 frame: two channels of four bytes. */
  const FRAME_BYTES: int := 8

  const INVALID_SFID := "Invalid SoundFont id"
  const UNASSIGNED := "Invalid channel (channel not assigned)"

  /** What `sfload` is handed: a file name or the SoundFont's bytes. */
  datatype Source = FileName(name: string) | Bytes(data: seq<bv8>)

  /** One call on a native SoundFont object, tagged with its id. */
  datatype RendererCall =
    | Load(sfid: nat, source: Source)
    | SetOutput(sfid: nat, mode: OutputMode, samplerate: int, gainDb: real)
    | SetMaxVoices(sfid: nat, maxVoices: int)
    | SetBank(sfid: nat, chan: int, bank: int)
    | SetPresetNumber(sfid: nat, chan: int, preset: int, drums: bool)
    | ChannelNoteOn(sfid: nat, chan: int, key: int, velocity: real)
    | ChannelNoteOff(sfid: nat, chan: int, key: int)
    | MidiControl(sfid: nat, chan: int, controller: int, value: int)
    | SetTuning(sfid: nat, chan: int, tuning: real)
    | SetPitchWheel(sfid: nat, chan: int, wheel: int)
    | SetPitchRange(sfid: nat, chan: int, range: real)
    | RenderFloat(sfid: nat, offset: int, frames: int, mix: bool)

  /** The native library's answers, as functions of the calls made so far:
      whether a source loads, whether a call that can fail succeeds, and the
      preset queries. */
  datatype Renderer = Renderer(
    loads: (seq<RendererCall>, Source) -> bool,
    accepts: (seq<RendererCall>, RendererCall) -> bool,
    presetBank: (seq<RendererCall>, nat, int) -> int,
    presetNumber: (seq<RendererCall>, nat, int) -> int,
    presetName: (seq<RendererCall>, nat, int, int) -> Option<string>)

  /** The bookkeeping fields of `Synth`: the ids of the loaded SoundFonts in
      insertion order (the order a Python dict iterates in), the next id to
      hand out, the channel-to-id map, and the calls made so far. */
  datatype Registry = Registry(
    soundfonts: seq<nat>, nextSfid: nat, channel: map<int, nat>, calls: seq<RendererCall>)

  /** The registry after an operation, and what it returned or raised. */
  datatype Outcome<T> = Outcome(registry: Registry, result: Result<T>)

  /** A view into a one-dimensional byte buffer: `length` bytes from byte `start`. */
  datatype ByteView = ByteView(start: nat, length: nat)

  /** The invariant the registry keeps: ids are loaded in increasing order,
      every id used so far is below `nextSfid`, and every channel is bound
      to a loaded SoundFont. */
  predicate Valid(reg: Registry) {
    && Increasing(reg.soundfonts)
    && (forall i :: 0 <= i < |reg.soundfonts| ==> reg.soundfonts[i] < reg.nextSfid)
    && Bound(reg)
    && (forall i :: 0 <= i < |reg.calls| ==> reg.calls[i].sfid < reg.nextSfid)
  }

  /** Every bound channel is bound to a loaded SoundFont. */
  predicate Bound(reg: Registry) {
    forall c :: c in reg.channel ==> reg.channel[c] in reg.soundfonts
  }

  /** The empty registry of a new `Synth`. */
  const EMPTY: Registry := Registry([], 0, map[], [])

  lemma EmptyValid()
    ensures Valid(EMPTY)
  {
  }

  /** `_get_soundfont`: the SoundFont loaded under `sfid`, or the exception. */
  function GetSoundfont(reg: Registry, sfid: int): (r: Result<nat>)
    ensures r.Ok? <==> sfid in reg.soundfonts
    ensures r.Ok? ==> r.value == sfid
    ensures r.Err? ==> r.error == SoundFontException(INVALID_SFID)
  {
    if sfid in reg.soundfonts then Ok(sfid as nat) else Err(SoundFontException(INVALID_SFID))
  }

  /** `_get_sfid`: the id bound to `chan`, or the exception. */
  function GetSfid(reg: Registry, chan: int): (r: Result<nat>)
    ensures r.Ok? <==> chan in reg.channel
    ensures r.Ok? ==> r.value == reg.channel[chan]
    ensures r.Err? ==> r.error == SoundFontException(UNASSIGNED)
  {
    if chan in reg.channel then Ok(reg.channel[chan]) else Err(SoundFontException(UNASSIGNED))
  }

  /** A native call that throws `RuntimeError(error)` when it reports failure. */
  function Checked(ren: Renderer, reg: Registry, call: RendererCall, error: string): (o: Outcome<()>)
    ensures o.registry == reg.(calls := reg.calls + [call])
    ensures o.result.Ok? <==> ren.accepts(reg.calls, call)
    ensures o.result.Err? ==> o.result.error == RuntimeError(error)
  {
    var logged := reg.(calls := reg.calls + [call]);
    if ren.accepts(reg.calls, call) then Outcome(logged, Ok(())) else Outcome(logged, Err(RuntimeError(error)))
  }

  // ---------------------------------------------------------------------
  // Loading and unloading
  // ---------------------------------------------------------------------

  /** The message of the `RuntimeError` a failed load raises. */
  function LoadError(source: Source): string {
    match source
    case FileName(name) => "Could not load SoundFont file: " + name
    case Bytes(_) => "Could not load SoundFont from bytes"
  }

  /** The channel map after binding every unbound channel below `n` to `sfid`. */
  function Claim(channel: map<int, nat>, sfid: nat, n: int): (m: map<int, nat>)
    ensures forall c :: c in channel ==> c in m && m[c] == channel[c]
    ensures forall c :: 0 <= c < n && c !in channel ==> c in m && m[c] == sfid
    ensures forall c :: c in m ==> c in channel || 0 <= c < n
  {
    if n <= 0 then channel
    else
      var m := Claim(channel, sfid, n - 1);
      if n - 1 in channel then m else m[n - 1 := sfid]
  }

  /** `sfload`: load the SoundFont, set it to stereo interleaved output at
      the synthesizer's samplerate with the summed gain, limit its voices,
      register it under the next id and bind every unbound channel 0..15
      to it; the new id is returned. A source that does not load raises and
      changes nothing. */
  function SfLoad(ren: Renderer, reg: Registry, source: Source, gain: real, maxVoices: int,
                  synthGain: real, samplerate: int): (o: Outcome<nat>)
    ensures o.result.Ok? <==> ren.loads(reg.calls, source)
    ensures o.result.Err? ==> o.registry == reg && o.result.error == RuntimeError(LoadError(source))
    ensures o.result.Ok? ==>
      && o.result.value == reg.nextSfid
      && o.registry.nextSfid == reg.nextSfid + 1
      && o.registry.soundfonts == reg.soundfonts + [o.result.value]
      && o.registry.channel == Claim(reg.channel, o.result.value, MAX_CHANNELS)
      && o.registry.calls == reg.calls + [Load(o.result.value, source),
           SetOutput(o.result.value, StereoInterleaved, samplerate, synthGain + gain),
           SetMaxVoices(o.result.value, maxVoices)]
  {
    if !ren.loads(reg.calls, source) then Outcome(reg, Err(RuntimeError(LoadError(source))))
    else
      var sfid := reg.nextSfid;
      var calls := reg.calls + [Load(sfid, source),
                                SetOutput(sfid, StereoInterleaved, samplerate, synthGain + gain),
                                SetMaxVoices(sfid, maxVoices)];
      Outcome(Registry(reg.soundfonts + [sfid], sfid + 1, Claim(reg.channel, sfid, MAX_CHANNELS), calls), Ok(sfid))
  }

  /** Handles are never reused: the id `sfload` hands out is above every id
      loaded now and every id any earlier call was made on, including the
      ids of SoundFonts unloaded since. */
  lemma SfLoadFresh(ren: Renderer, reg: Registry, source: Source, gain: real, maxVoices: int,
                    synthGain: real, samplerate: int)
    requires Valid(reg)
    ensures var o := SfLoad(ren, reg, source, gain, maxVoices, synthGain, samplerate);
      o.result.Ok? ==>
        && (forall i :: 0 <= i < |reg.soundfonts| ==> reg.soundfonts[i] < o.result.value)
        && (forall i :: 0 <= i < |reg.calls| ==> reg.calls[i].sfid < o.result.value)
        && Valid(o.registry)
  {
    var o := SfLoad(ren, reg, source, gain, maxVoices, synthGain, samplerate);
    if o.result.Ok? {
      var r := o.registry;
      forall c | c in r.channel ensures r.channel[c] in r.soundfonts {
        if c in reg.channel {
          assert reg.channel[c] in reg.soundfonts;
        } else {
          assert r.soundfonts[|r.soundfonts| - 1] == o.result.value;
        }
      }
    }
  }

  /** `sfload` binds exactly the unbound channels 0..15 and leaves every
      existing binding as it was. */
  lemma SfLoadChannels(ren: Renderer, reg: Registry, source: Source, gain: real, maxVoices: int,
                       synthGain: real, samplerate: int, c: int)
    ensures var o := SfLoad(ren, reg, source, gain, maxVoices, synthGain, samplerate);
      o.result.Ok? ==>
        && (c in o.registry.channel <==> c in reg.channel || 0 <= c < MAX_CHANNELS)
        && (c in reg.channel ==> o.registry.channel[c] == reg.channel[c])
        && (c !in reg.channel && 0 <= c < MAX_CHANNELS ==> o.registry.channel[c] == o.result.value)
  {
  }

  /** `s` without the item `x`, in order. */
  function Without(s: seq<nat>, x: int): (r: seq<nat>)
    ensures forall y :: y in r <==> y in s && y != x
    ensures |r| <= |s|
  {
    if s == [] then []
    else if s[0] == x then Without(s[1..], x)
    else [s[0]] + Without(s[1..], x)
  }

  /** `s` is strictly increasing. */
  predicate Increasing(s: seq<nat>) {
    forall i, j :: 0 <= i < j < |s| ==> s[i] < s[j]
  }

  lemma {:induction false} WithoutIncreasing(s: seq<nat>, x: int)
    requires Increasing(s)
    ensures Increasing(Without(s, x))
  {
    if s != [] {
      WithoutIncreasing(s[1..], x);
      var rest := Without(s[1..], x);
      forall y | y in rest ensures s[0] < y {
        var k :| 0 <= k < |s[1..]| && s[1..][k] == y;
        assert s[k + 1] == y;
      }
      if s[0] != x {
        var r := [s[0]] + rest;
        forall i, j | 0 <= i < j < |r| ensures r[i] < r[j] {
          assert r[j] == rest[j - 1];
          assert rest[j - 1] in rest;
          if i > 0 {
            assert r[i] == rest[i - 1];
            assert rest[i - 1] < rest[j - 1];
          } else {
            assert r[i] == s[0];
            assert s[0] < rest[j - 1];
          }
        }
        assert Without(s, x) == r;
      }
    }
  }

  /** The channel map without the channels bound to `sfid`. */
  function Unbind(channel: map<int, nat>, sfid: int): (m: map<int, nat>)
    ensures forall c :: c in m <==> c in channel && channel[c] != sfid
    ensures forall c :: c in m ==> m[c] == channel[c]
  {
    map c | c in channel && channel[c] != sfid :: channel[c]
  }

  /** `sfunload`: an unknown id raises and changes nothing; otherwise the
      SoundFont is removed and exactly the channels bound to it are cleared. */
  function SfUnload(reg: Registry, sfid: int): (o: Outcome<()>)
    ensures o.result.Err? <==> sfid !in reg.soundfonts
    ensures o.result.Err? ==> o.registry == reg && o.result.error == SoundFontException(INVALID_SFID)
    ensures o.result.Ok? ==>
      && (forall y :: y in o.registry.soundfonts <==> y in reg.soundfonts && y != sfid)
      && (forall c :: c in o.registry.channel <==> c in reg.channel && reg.channel[c] != sfid)
      && (forall c :: c in o.registry.channel ==> o.registry.channel[c] == reg.channel[c])
      && o.registry.nextSfid == reg.nextSfid && o.registry.calls == reg.calls
  {
    var sf := GetSoundfont(reg, sfid);
    if sf.Err? then Outcome(reg, Err(sf.error))
    else Outcome(reg.(soundfonts := Without(reg.soundfonts, sfid), channel := Unbind(reg.channel, sfid)), Ok(()))
  }

  lemma SfUnloadValid(reg: Registry, sfid: int)
    requires Valid(reg)
    ensures Valid(SfUnload(reg, sfid).registry)
  {
    WithoutIncreasing(reg.soundfonts, sfid);
    var r := SfUnload(reg, sfid).registry;
    forall i | 0 <= i < |r.soundfonts| ensures r.soundfonts[i] < r.nextSfid {
      assert r.soundfonts[i] in reg.soundfonts;
    }
  }

  /** Unloading twice fails the second time and leaves the registry as the
      first unload left it. */
  lemma SfUnloadTwice(reg: Registry, sfid: int)
    requires SfUnload(reg, sfid).result.Ok?
    ensures var once := SfUnload(reg, sfid).registry;
      SfUnload(once, sfid) == Outcome(once, Err(SoundFontException(INVALID_SFID)))
  {
  }

  // ---------------------------------------------------------------------
  // Programs
  // ---------------------------------------------------------------------

  /** `program_select`: an unknown id raises before `channel` is touched;
      otherwise `chan` is bound to `sfid` and then the bank and preset are
      set, either of which may raise (the binding stays). */
  function ProgramSelect(ren: Renderer, reg: Registry, chan: int, sfid: int, bank: int, preset: int,
                         drums: bool): (o: Outcome<()>)
    ensures sfid !in reg.soundfonts ==> o == Outcome(reg, Err(SoundFontException(INVALID_SFID)))
    ensures sfid in reg.soundfonts ==>
      && o.registry.channel == reg.channel[chan := sfid]
      && o.registry.soundfonts == reg.soundfonts && o.registry.nextSfid == reg.nextSfid
    ensures sfid in reg.soundfonts && !ren.accepts(reg.calls, SetBank(sfid, chan, bank)) ==>
      && o.registry.calls == reg.calls + [SetBank(sfid, chan, bank)]
      && o.result == Err(RuntimeError("Error in channel_set_bank"))
    ensures sfid in reg.soundfonts && ren.accepts(reg.calls, SetBank(sfid, chan, bank)) ==>
      && o.registry.calls == reg.calls + [SetBank(sfid, chan, bank), SetPresetNumber(sfid, chan, preset, drums)]
      && (o.result.Ok? <==> ren.accepts(reg.calls + [SetBank(sfid, chan, bank)], SetPresetNumber(sfid, chan, preset, drums)))
      && (o.result.Err? ==> o.result.error == RuntimeError("Error in channel_set_preset_number"))
  {
    var sf := GetSoundfont(reg, sfid);
    if sf.Err? then Outcome(reg, Err(sf.error))
    else
      var bound := reg.(channel := reg.channel[chan := sf.value]);
      var o := Checked(ren, bound, SetBank(sf.value, chan, bank), "Error in channel_set_bank");
      if o.result.Err? then o
      else Checked(ren, o.registry, SetPresetNumber(sf.value, chan, preset, drums), "Error in channel_set_preset_number")
  }

  lemma ProgramSelectValid(ren: Renderer, reg: Registry, chan: int, sfid: int, bank: int, preset: int, drums: bool)
    requires Valid(reg)
    ensures Valid(ProgramSelect(ren, reg, chan, sfid, bank, preset, drums).registry)
  {
    if sfid in reg.soundfonts {
      var k :| 0 <= k < |reg.soundfonts| && reg.soundfonts[k] == sfid;
      assert sfid < reg.nextSfid;
    }
  }

  /** `program_unset`: an unbound channel raises; otherwise only that
      binding is removed. */
  function ProgramUnset(reg: Registry, chan: int): (o: Outcome<()>)
    ensures chan !in reg.channel ==> o == Outcome(reg, Err(SoundFontException(UNASSIGNED)))
    ensures chan in reg.channel ==>
      o.result.Ok? && o.registry.channel.Keys == reg.channel.Keys - {chan}
      && (forall c :: c in o.registry.channel ==> o.registry.channel[c] == reg.channel[c])
      && o.registry.(channel := reg.channel) == reg
  {
    if chan !in reg.channel then Outcome(reg, Err(SoundFontException(UNASSIGNED)))
    else Outcome(reg.(channel := reg.channel - {chan}), Ok(()))
  }

  /** A per-channel call: find the channel's SoundFont and make `call` on
      it. `error` is the message of the `RuntimeError` the native call
      throws on failure, or `None` for a call that cannot fail. */
  function Routed(ren: Renderer, reg: Registry, chan: int, call: nat -> RendererCall,
                  error: Option<string>): (o: Outcome<()>)
    ensures o.registry.soundfonts == reg.soundfonts && o.registry.channel == reg.channel
    ensures o.registry.nextSfid == reg.nextSfid
  {
    var sfid := GetSfid(reg, chan);
    if sfid.Err? then Outcome(reg, Err(sfid.error))
    else
      var sf := GetSoundfont(reg, sfid.value);
      if sf.Err? then Outcome(reg, Err(sf.error))
      else if error.None? then Outcome(reg.(calls := reg.calls + [call(sf.value)]), Ok(()))
      else Checked(ren, reg, call(sf.value), error.value)
  }

  /** On a valid registry a per-channel call raises "channel not assigned"
      exactly when `chan` is unbound, changing nothing; otherwise it makes
      one call, on the channel's SoundFont, and fails only if that call
      reports failure. */
  lemma RoutedEffect(ren: Renderer, reg: Registry, chan: int, call: nat -> RendererCall, error: Option<string>)
    requires Bound(reg)
    ensures var o := Routed(ren, reg, chan, call, error);
      && (chan !in reg.channel ==> o == Outcome(reg, Err(SoundFontException(UNASSIGNED))))
      && (chan in reg.channel ==>
            && o.registry == reg.(calls := reg.calls + [call(reg.channel[chan])])
            && (o.result.Ok? <==> error.None? || ren.accepts(reg.calls, call(reg.channel[chan])))
            && (o.result.Err? ==> error.Some? && o.result.error == RuntimeError(error.value)))
  {
  }

  /** A per-channel call keeps the registry valid when the call it makes is
      on the channel's SoundFont. */
  lemma RoutedValid(ren: Renderer, reg: Registry, chan: int, call: nat -> RendererCall, error: Option<string>)
    requires Valid(reg)
    requires forall s: nat :: call(s).sfid == s
    ensures Valid(Routed(ren, reg, chan, call, error).registry)
  {
    if chan in reg.channel {
      var s := reg.channel[chan];
      var k :| 0 <= k < |reg.soundfonts| && reg.soundfonts[k] == s;
      assert call(s).sfid < reg.nextSfid;
    }
  }

  /** The id bound to `chan`, or 0 when it is unbound (then no call is made). */
  function SfidOf(reg: Registry, chan: int): nat {
    if chan in reg.channel then reg.channel[chan] else 0
  }

  /** What a per-channel operation that can fail does: an unbound channel
      raises "channel not assigned" and a channel bound to an unloaded id
      raises "Invalid SoundFont id", both changing nothing; otherwise `call`
      is logged on the channel's SoundFont and the operation raises
      `RuntimeError(message)` exactly when the library rejects it. */
  predicate ChannelCall(ren: Renderer, reg: Registry, chan: int, o: Outcome<()>, call: RendererCall, message: string) {
    && (chan !in reg.channel ==> o == Outcome(reg, Err(SoundFontException(UNASSIGNED))))
    && (chan in reg.channel && reg.channel[chan] !in reg.soundfonts ==>
          o == Outcome(reg, Err(SoundFontException(INVALID_SFID))))
    && (chan in reg.channel && reg.channel[chan] in reg.soundfonts ==>
          && o.registry == reg.(calls := reg.calls + [call])
          && (o.result.Ok? <==> ren.accepts(reg.calls, call))
          && (o.result.Err? ==> o.result.error == RuntimeError(message)))
  }

  /** `program_change`: set the channel's preset on its SoundFont. */
  function ProgramChange(ren: Renderer, reg: Registry, chan: int, preset: int, drums: bool): (o: Outcome<()>)
    ensures ChannelCall(ren, reg, chan, o, SetPresetNumber(SfidOf(reg, chan), chan, preset, drums),
                        "Error in channel_set_preset_number")
  {
    Routed(ren, reg, chan, (s: nat) => SetPresetNumber(s, chan, preset, drums), Some("Error in channel_set_preset_number"))
  }

  /** `program_info`: the channel's id with the bank and preset number its
      SoundFont reports; an unbound channel raises. */
  function ProgramInfo(ren: Renderer, reg: Registry, chan: int): (r: Result<(nat, int, int)>)
    ensures r.Ok? <==> chan in reg.channel && reg.channel[chan] in reg.soundfonts
    ensures chan !in reg.channel ==> r == Err(SoundFontException(UNASSIGNED))
    ensures r.Ok? ==> r.value == (reg.channel[chan], ren.presetBank(reg.calls, reg.channel[chan], chan),
                                  ren.presetNumber(reg.calls, reg.channel[chan], chan))
  {
    var sfid :- GetSfid(reg, chan);
    var sf :- GetSoundfont(reg, sfid);
    Ok((sfid, ren.presetBank(reg.calls, sf, chan), ren.presetNumber(reg.calls, sf, chan)))
  }

  /** `sfpreset_name`: the preset's name, with the native layer's `"<None>"`
      sentinel turned back into `None`. */
  function SfPresetName(ren: Renderer, reg: Registry, sfid: int, bank: int, preset: int): (r: Result<Option<string>>)
    ensures r.Err? <==> sfid !in reg.soundfonts
    ensures r.Err? ==> r.error == SoundFontException(INVALID_SFID)
  {
    var sf :- GetSoundfont(reg, sfid);
    var name := StringNoneIfNull(ren.presetName(reg.calls, sf, bank, preset));
    if name == NONE_NAME then Ok(None) else Ok(Some(name))
  }

  /** The sentinel round trip: a missing preset comes back as `None`, and a
      present name comes back unchanged unless it is literally `"<None>"`,
      which cannot be told apart from a missing one. */
  lemma PresetNameRoundTrip(ren: Renderer, reg: Registry, sfid: int, bank: int, preset: int)
    requires sfid in reg.soundfonts
    ensures var native := ren.presetName(reg.calls, sfid, bank, preset);
      && (native.None? ==> SfPresetName(ren, reg, sfid, bank, preset) == Ok(None))
      && (native.Some? && native.value != NONE_NAME ==> SfPresetName(ren, reg, sfid, bank, preset) == Ok(native))
      && (native == Some(NONE_NAME) ==> SfPresetName(ren, reg, sfid, bank, preset) == Ok(None))
  {
  }

  // ---------------------------------------------------------------------
  // Notes and per-channel controls
  // ---------------------------------------------------------------------

  /** `noteon`: an out-of-range key or velocity, or an unbound channel,
      returns `False` with no native call; otherwise the note goes to the
      channel's SoundFont with velocity scaled to 0..1 and `True` is
      returned (or the native failure raised). */
  function NoteOn(ren: Renderer, reg: Registry, chan: int, key: int, velocity: int): (o: Outcome<bool>)
    ensures o.registry.soundfonts == reg.soundfonts && o.registry.channel == reg.channel
    ensures o.registry.nextSfid == reg.nextSfid
    ensures o.result == Ok(true) ==> 0 <= key <= 127
  {
    if key < 0 || key > 127 then Outcome(reg, Ok(false))
    else if velocity < 0 || velocity > 127 then Outcome(reg, Ok(false))
    else if chan !in reg.channel then Outcome(reg, Ok(false))
    else
      var o := Routed(ren, reg, chan, (s: nat) => ChannelNoteOn(s, chan, key, velocity as real / 127.0),
                      Some("Error in channel_note_on"));
      Outcome(o.registry, if o.result.Err? then Err(o.result.error) else Ok(true))
  }

  /** The guards of `noteon`, both ways: it returns `False` without touching
      anything exactly when the key or velocity is out of 0..127 or the
      channel is unbound; otherwise it makes exactly one call. */
  lemma NoteOnEffect(ren: Renderer, reg: Registry, chan: int, key: int, velocity: int)
    requires Valid(reg)
    ensures var o := NoteOn(ren, reg, chan, key, velocity);
      && (o == Outcome(reg, Ok(false)) <==> !(0 <= key <= 127 && 0 <= velocity <= 127 && chan in reg.channel))
      && (0 <= key <= 127 && 0 <= velocity <= 127 && chan in reg.channel ==>
            var call := ChannelNoteOn(reg.channel[chan], chan, key, velocity as real / 127.0);
            && o.registry == reg.(calls := reg.calls + [call])
            && (o.result == Ok(true) <==> ren.accepts(reg.calls, call))
            && (o.result.Err? ==> o.result.error == RuntimeError("Error in channel_note_on")))
  {
    if 0 <= key <= 127 && 0 <= velocity <= 127 && chan in reg.channel {
      RoutedEffect(ren, reg, chan, (s: nat) => ChannelNoteOn(s, chan, key, velocity as real / 127.0), Some("Error in channel_note_on"));
      var o := NoteOn(ren, reg, chan, key, velocity);
      assert |o.registry.calls| == |reg.calls| + 1;
    }
  }

  /** `noteoff`: like `noteon`, checking only the key and the channel; the
      native note-off cannot fail. */
  function NoteOff(reg: Registry, chan: int, key: int): (o: Outcome<bool>)
    ensures o.registry.soundfonts == reg.soundfonts && o.registry.channel == reg.channel
    ensures o.registry.nextSfid == reg.nextSfid
  {
    if key < 0 || key > 127 then Outcome(reg, Ok(false))
    else if chan !in reg.channel then Outcome(reg, Ok(false))
    else
      var o := Routed(Renderer((_, _) => true, (_, _) => true, (_, _, _) => 0, (_, _, _) => 0, (_, _, _, _) => None),
                      reg, chan, (s: nat) => ChannelNoteOff(s, chan, key), None);
      Outcome(o.registry, if o.result.Err? then Err(o.result.error) else Ok(true))
  }

  lemma NoteOffEffect(reg: Registry, chan: int, key: int)
    requires Valid(reg)
    ensures var o := NoteOff(reg, chan, key);
      && (o == Outcome(reg, Ok(false)) <==> !(0 <= key <= 127 && chan in reg.channel))
      && (0 <= key <= 127 && chan in reg.channel ==>
            o == Outcome(reg.(calls := reg.calls + [ChannelNoteOff(reg.channel[chan], chan, key)]), Ok(true)))
  {
    if 0 <= key <= 127 && chan in reg.channel {
      var o := NoteOff(reg, chan, key);
      assert |o.registry.calls| == |reg.calls| + 1;
    }
  }

  /** `control_change`: a MIDI controller change on the channel's SoundFont. */
  function ControlChange(ren: Renderer, reg: Registry, chan: int, controller: int, value: int): (o: Outcome<()>)
    ensures ChannelCall(ren, reg, chan, o, MidiControl(SfidOf(reg, chan), chan, controller, value), "Error in channel_midi_control")
  {
    Routed(ren, reg, chan, (s: nat) => MidiControl(s, chan, controller, value), Some("Error in channel_midi_control"))
  }

  /** `set_tuning`. */
  function SetChannelTuning(ren: Renderer, reg: Registry, chan: int, tuning: real): (o: Outcome<()>)
    ensures ChannelCall(ren, reg, chan, o, SetTuning(SfidOf(reg, chan), chan, tuning), "Error in channel_set_tuning")
  {
    Routed(ren, reg, chan, (s: nat) => SetTuning(s, chan, tuning), Some("Error in channel_set_tuning"))
  }

  /** `pitchbend`. */
  function PitchBend(ren: Renderer, reg: Registry, chan: int, value: int): (o: Outcome<()>)
    ensures ChannelCall(ren, reg, chan, o, SetPitchWheel(SfidOf(reg, chan), chan, value), "Error in channel_set_pitch_wheel")
  {
    Routed(ren, reg, chan, (s: nat) => SetPitchWheel(s, chan, value), Some("Error in channel_set_pitch_wheel"))
  }

  /** `pitchbend_range`. */
  function PitchBendRange(ren: Renderer, reg: Registry, chan: int, semitones: real): (o: Outcome<()>)
    ensures ChannelCall(ren, reg, chan, o, SetPitchRange(SfidOf(reg, chan), chan, semitones), "Error in channel_set_pitch_range")
  {
    Routed(ren, reg, chan, (s: nat) => SetPitchRange(s, chan, semitones), Some("Error in channel_set_pitch_range"))
  }

  /** The controller calls a broadcast makes on channels `from` up to `to`. */
  function Controls(channel: map<int, nat>, controller: int, from: int, to: int): (r: seq<RendererCall>)
    requires 0 <= from <= to
    requires forall c :: from <= c < to ==> c in channel
    ensures |r| == to - from
    ensures forall i :: 0 <= i < to - from ==> r[i] == MidiControl(channel[from + i], from + i, controller, 0)
  {
    seq(to - from, i requires 0 <= i < to - from => MidiControl(channel[from + i], from + i, controller, 0))
  }

  lemma {:induction false} ControlsCons(channel: map<int, nat>, controller: int, from: int, to: int)
    requires 0 <= from < to
    requires forall c :: from <= c < to ==> c in channel
    ensures Controls(channel, controller, from, to)
         == [MidiControl(channel[from], from, controller, 0)] + Controls(channel, controller, from + 1, to)
  {
    var r := Controls(channel, controller, from, to);
    var t := [MidiControl(channel[from], from, controller, 0)] + Controls(channel, controller, from + 1, to);
    assert |r| == |t|;
    forall i | 0 <= i < |r| ensures r[i] == t[i] {
      if i > 0 {
        assert t[i] == Controls(channel, controller, from + 1, to)[i - 1];
      }
    }
  }

  /** Controller `controller` with value 0 to channels `from`..15 in order,
      stopping at the first that raises. */
  function Broadcast(ren: Renderer, reg: Registry, controller: int, from: nat): (o: Outcome<()>)
    ensures o.registry.soundfonts == reg.soundfonts && o.registry.channel == reg.channel
    ensures o.registry.nextSfid == reg.nextSfid
    decreases MAX_CHANNELS - from
  {
    if from >= MAX_CHANNELS then Outcome(reg, Ok(()))
    else
      var o := ControlChange(ren, reg, from, controller, 0);
      if o.result.Err? then o else Broadcast(ren, o.registry, controller, from + 1)
  }

  /** Every channel from `from` up to `to` is bound to a loaded SoundFont,
      and the library accepts the controller call on each, given the calls
      the broadcast made on the channels before it. */
  predicate AcceptedUpTo(ren: Renderer, reg: Registry, controller: int, from: nat, to: int) {
    && (forall c :: from <= c < to ==> c in reg.channel && reg.channel[c] in reg.soundfonts)
    && (forall c :: from <= c < to ==>
          ren.accepts(reg.calls + Controls(reg.channel, controller, from, c), MidiControl(reg.channel[c], c, controller, 0)))
  }

  /** The log after the calls on channels `from` up to `to` is the log
      after the call on `from` followed by the calls on the rest. */
  lemma ControlsShift(reg: Registry, controller: int, from: nat, to: int)
    requires from < to && forall c :: from <= c < to ==> c in reg.channel
    ensures reg.calls + Controls(reg.channel, controller, from, to)
         == (reg.calls + [MidiControl(reg.channel[from], from, controller, 0)]) + Controls(reg.channel, controller, from + 1, to)
  {
    ControlsCons(reg.channel, controller, from, to);
    AppendAssoc(reg.calls, [MidiControl(reg.channel[from], from, controller, 0)],
                Controls(reg.channel, controller, from + 1, to));
  }

  /** Channels `from` up to `to` are accepted exactly when `from` is and,
      after its call, the channels after it are. */
  lemma AcceptedShift(ren: Renderer, reg: Registry, controller: int, from: nat, to: int)
    requires from < to && from in reg.channel
    ensures var next := reg.(calls := reg.calls + [MidiControl(reg.channel[from], from, controller, 0)]);
      AcceptedUpTo(ren, reg, controller, from, to) <==>
        (&& reg.channel[from] in reg.soundfonts
         && ren.accepts(reg.calls, MidiControl(reg.channel[from], from, controller, 0))
         && AcceptedUpTo(ren, next, controller, from + 1, to))
  {
    var next := reg.(calls := reg.calls + [MidiControl(reg.channel[from], from, controller, 0)]);
    assert Controls(reg.channel, controller, from, from) == [];
    assert reg.calls + [] == reg.calls;
    if forall c :: from <= c < to ==> c in reg.channel {
      forall c | from < c < to
        ensures reg.calls + Controls(reg.channel, controller, from, c) == next.calls + Controls(reg.channel, controller, from + 1, c)
      {
        ControlsShift(reg, controller, from, c);
      }
    }
  }

  /** A broadcast that completes has found every channel from `from` on
      bound to a loaded SoundFont, had each controller call accepted, and
      made exactly those calls, in channel order. */
  lemma {:induction false} BroadcastOk(ren: Renderer, reg: Registry, controller: int, from: nat)
    requires from <= MAX_CHANNELS
    ensures var o := Broadcast(ren, reg, controller, from);
      o.result.Ok? ==>
        && AcceptedUpTo(ren, reg, controller, from, MAX_CHANNELS)
        && o.registry.calls == reg.calls + Controls(reg.channel, controller, from, MAX_CHANNELS)
    decreases MAX_CHANNELS - from
  {
    var o := Broadcast(ren, reg, controller, from);
    if from < MAX_CHANNELS && o.result.Ok? {
      var step := ControlChange(ren, reg, from, controller, 0);
      BroadcastOk(ren, step.registry, controller, from + 1);
      AcceptedShift(ren, reg, controller, from, MAX_CHANNELS);
      ControlsShift(reg, controller, from, MAX_CHANNELS);
    }
  }

  /** Conversely, when every channel from `from` on is bound to a loaded
      SoundFont and every controller call is accepted, the broadcast
      completes, having made exactly those calls. */
  lemma {:induction false} BroadcastCompletes(ren: Renderer, reg: Registry, controller: int, from: nat)
    requires from <= MAX_CHANNELS && AcceptedUpTo(ren, reg, controller, from, MAX_CHANNELS)
    ensures Broadcast(ren, reg, controller, from)
         == Outcome(reg.(calls := reg.calls + Controls(reg.channel, controller, from, MAX_CHANNELS)), Ok(()))
    decreases MAX_CHANNELS - from
  {
    if from < MAX_CHANNELS {
      var step := ControlChange(ren, reg, from, controller, 0);
      AcceptedShift(ren, reg, controller, from, MAX_CHANNELS);
      BroadcastCompletes(ren, step.registry, controller, from + 1);
      ControlsShift(reg, controller, from, MAX_CHANNELS);
    } else {
      assert Controls(reg.channel, controller, from, MAX_CHANNELS) == [];
      assert reg.(calls := reg.calls + []) == reg;
    }
  }

  /** A broadcast succeeds exactly when every call is accepted, and then it
      has made one controller call per channel, in channel order. */
  lemma BroadcastEffect(ren: Renderer, reg: Registry, controller: int, from: nat)
    requires from <= MAX_CHANNELS
    ensures var o := Broadcast(ren, reg, controller, from);
      && (o.result.Ok? <==> AcceptedUpTo(ren, reg, controller, from, MAX_CHANNELS))
      && (o.result.Ok? ==> o.registry == reg.(calls := reg.calls + Controls(reg.channel, controller, from, MAX_CHANNELS)))
  {
    BroadcastOk(ren, reg, controller, from);
    if AcceptedUpTo(ren, reg, controller, from, MAX_CHANNELS) {
      BroadcastCompletes(ren, reg, controller, from);
    }
  }

  /** When the first channel whose call fails, `gap`, is bound to a loaded
      SoundFont, the library rejected its call: the broadcast raises that
      call's `RuntimeError` after the calls on the channels before it and
      that call itself. */
  lemma {:induction false} BroadcastRejected(ren: Renderer, reg: Registry, controller: int, from: nat, gap: nat)
    requires from <= gap < MAX_CHANNELS && AcceptedUpTo(ren, reg, controller, from, gap)
    requires gap in reg.channel && reg.channel[gap] in reg.soundfonts
    requires !ren.accepts(reg.calls + Controls(reg.channel, controller, from, gap), MidiControl(reg.channel[gap], gap, controller, 0))
    ensures Broadcast(ren, reg, controller, from)
         == Outcome(reg.(calls := reg.calls + Controls(reg.channel, controller, from, gap + 1)),
                    Err(RuntimeError("Error in channel_midi_control")))
    decreases gap - from
  {
    ControlsShift(reg, controller, from, gap + 1);
    if from < gap {
      var step := ControlChange(ren, reg, from, controller, 0);
      AcceptedShift(ren, reg, controller, from, gap);
      ControlsShift(reg, controller, from, gap);
      BroadcastRejected(ren, step.registry, controller, from + 1, gap);
    } else {
      assert Controls(reg.channel, controller, from + 1, gap + 1) == [];
      assert Controls(reg.channel, controller, from, gap) == [];
      assert reg.calls + [] == reg.calls;
    }
  }

  /** When the first channel whose call fails, `gap`, is unbound or bound
      to an unloaded id, the broadcast raises the lookup's
      `SoundFontException` after the calls on the channels before it. */
  lemma {:induction false} BroadcastStopsAtUnbound(ren: Renderer, reg: Registry, controller: int, from: nat, gap: nat)
    requires from <= gap < MAX_CHANNELS && AcceptedUpTo(ren, reg, controller, from, gap)
    requires gap !in reg.channel || reg.channel[gap] !in reg.soundfonts
    ensures Broadcast(ren, reg, controller, from)
         == Outcome(reg.(calls := reg.calls + Controls(reg.channel, controller, from, gap)),
                    Err(SoundFontException(if gap !in reg.channel then UNASSIGNED else INVALID_SFID)))
    decreases gap - from
  {
    if from < gap {
      var step := ControlChange(ren, reg, from, controller, 0);
      AcceptedShift(ren, reg, controller, from, gap);
      ControlsShift(reg, controller, from, gap);
      BroadcastStopsAtUnbound(ren, step.registry, controller, from + 1, gap);
    } else {
      assert Controls(reg.channel, controller, from, gap) == [];
      assert reg.(calls := reg.calls + []) == reg;
    }
  }

  /** `notes_off`: controller 123 ("all notes off") to one channel, or to all sixteen. */
  function NotesOff(ren: Renderer, reg: Registry, chan: Option<int>): (o: Outcome<()>)
    ensures chan.Some? ==>
      ChannelCall(ren, reg, chan.value, o, MidiControl(SfidOf(reg, chan.value), chan.value, 123, 0), "Error in channel_midi_control")
    ensures chan.None? ==>
      && (o.result.Ok? <==> AcceptedUpTo(ren, reg, 123, 0, MAX_CHANNELS))
      && (o.result.Ok? ==> o.registry == reg.(calls := reg.calls + Controls(reg.channel, 123, 0, MAX_CHANNELS)))
  {
    if chan.None? then
      BroadcastEffect(ren, reg, 123, 0);
      Broadcast(ren, reg, 123, 0)
    else ControlChange(ren, reg, chan.value, 123, 0)
  }

  /** `sounds_off`: controller 120 ("all sound off") to one channel, or to all sixteen. */
  function SoundsOff(ren: Renderer, reg: Registry, chan: Option<int>): (o: Outcome<()>)
    ensures chan.Some? ==>
      ChannelCall(ren, reg, chan.value, o, MidiControl(SfidOf(reg, chan.value), chan.value, 120, 0), "Error in channel_midi_control")
    ensures chan.None? ==>
      && (o.result.Ok? <==> AcceptedUpTo(ren, reg, 120, 0, MAX_CHANNELS))
      && (o.result.Ok? ==> o.registry == reg.(calls := reg.calls + Controls(reg.channel, 120, 0, MAX_CHANNELS)))
  {
    if chan.None? then
      BroadcastEffect(ren, reg, 120, 0);
      Broadcast(ren, reg, 120, 0)
    else ControlChange(ren, reg, chan.value, 120, 0)
  }

  // ---------------------------------------------------------------------
  // Rendering
  // ---------------------------------------------------------------------

  /** `memoryview[a:b]` on a one-dimensional view, with Python's clamping
      of out-of-range and negative bounds. */
  function PySlice(view: ByteView, a: int, b: int): (r: ByteView)
    ensures r.length <= view.length
    ensures 0 <= a <= b <= view.length ==> r == ByteView(view.start + a, b - a)
  {
    var lo := if a < 0 then (if a + view.length < 0 then 0 else a + view.length) else if a > view.length then view.length else a;
    var hi := if b < 0 then (if b + view.length < 0 then 0 else b + view.length) else if b > view.length then view.length else b;
    ByteView(view.start + lo, if hi < lo then 0 else hi - lo)
  }

  /** `soundfont.render(buffer, mix)` on each SoundFont of `sfids` in turn;
      every one after the first mixes into what is there. */
  function RenderAll(reg: Registry, sfids: seq<nat>, view: ByteView, mix: bool): (o: Outcome<()>)
    ensures o.registry.soundfonts == reg.soundfonts && o.registry.channel == reg.channel
    ensures o.registry.nextSfid == reg.nextSfid
    decreases |sfids|
  {
    if sfids == [] then Outcome(reg, Ok(()))
    else
      var frames := RenderFrames(ByteBuffer(view.length), StereoInterleaved);
      if frames.Err? then Outcome(reg, Err(frames.error))
      else RenderAll(reg.(calls := reg.calls + [RenderFloat(sfids[0], view.start, frames.value, mix)]), sfids[1..], view, true)
  }

  /** The render calls of a whole pass: SoundFont `sfids[i]` renders the
      view's frames, replacing for the first and mixing for the others. */
  function RenderCalls(sfids: seq<nat>, view: ByteView, mix: bool): (r: seq<RendererCall>)
    ensures |r| == |sfids|
    ensures forall i :: 0 <= i < |sfids| ==>
      r[i] == RenderFloat(sfids[i], view.start, view.length / FRAME_BYTES, if i == 0 then mix else true)
  {
    seq(|sfids|, i requires 0 <= i < |sfids| =>
      RenderFloat(sfids[i], view.start, view.length / FRAME_BYTES, if i == 0 then mix else true))
  }

  /** A byte view renders its whole frames, and raises when it holds a
      partial one. */
  lemma ByteViewFrames(length: nat)
    ensures RenderFrames(ByteBuffer(length), StereoInterleaved)
         == if length % FRAME_BYTES == 0 then Ok(length / FRAME_BYTES)
            else Err(RuntimeError("Buffer length does not divide evenly into sample frames"))
  {
  }

  lemma AppendAssoc<T>(a: seq<T>, b: seq<T>, c: seq<T>)
    ensures a + b + c == a + (b + c)
  {
  }

  lemma {:induction false} RenderCallsCons(sfids: seq<nat>, view: ByteView, mix: bool)
    requires sfids != []
    ensures RenderCalls(sfids, view, mix)
         == [RenderFloat(sfids[0], view.start, view.length / FRAME_BYTES, mix)] + RenderCalls(sfids[1..], view, true)
  {
    var r := RenderCalls(sfids, view, mix);
    var t := [RenderFloat(sfids[0], view.start, view.length / FRAME_BYTES, mix)] + RenderCalls(sfids[1..], view, true);
    assert |r| == |t|;
    forall i | 0 <= i < |r| ensures r[i] == t[i] {
      if i > 0 {
        assert t[i] == RenderCalls(sfids[1..], view, true)[i - 1];
      }
    }
  }

  /** A render pass fails, changing nothing, exactly when some SoundFont is
      loaded and the view is not a whole number of stereo frames; otherwise
      it renders the view's frames once per SoundFont, in order. */
  lemma {:induction false} RenderAllEffect(reg: Registry, sfids: seq<nat>, view: ByteView, mix: bool)
    ensures var o := RenderAll(reg, sfids, view, mix);
      && (o.result.Err? <==> sfids != [] && view.length % FRAME_BYTES != 0)
      && (o.result.Err? ==>
            o.registry == reg && o.result.error == RuntimeError("Buffer length does not divide evenly into sample frames"))
      && (o.result.Ok? ==> o.registry == reg.(calls := reg.calls + RenderCalls(sfids, view, mix)))
    decreases |sfids|
  {
    if sfids != [] {
      ByteViewFrames(view.length);
      if view.length % FRAME_BYTES == 0 {
        var call := RenderFloat(sfids[0], view.start, view.length / FRAME_BYTES, mix);
        var next := reg.(calls := reg.calls + [call]);
        assert RenderAll(reg, sfids, view, mix) == RenderAll(next, sfids[1..], view, true);
        RenderAllEffect(next, sfids[1..], view, true);
        RenderCallsCons(sfids, view, mix);
        AppendAssoc(reg.calls, [call], RenderCalls(sfids[1..], view, true));
      }
    } else {
      assert RenderCalls(sfids, view, mix) == [];
      assert reg.(calls := reg.calls + []) == reg;
    }
  }

  /** `generate_simple`: allocate a fresh buffer of `samples` frames when
      none is given (a negative size raises `ValueError`), then render
      every loaded SoundFont into it, in load order. */
  function GenerateSimple(reg: Registry, samples: int, buffer: Option<ByteView>): (o: Outcome<ByteView>)
    ensures o.registry.soundfonts == reg.soundfonts && o.registry.channel == reg.channel
    ensures o.registry.nextSfid == reg.nextSfid
    ensures buffer.None? && samples < 0 ==> o == Outcome(reg, Err(ValueError("negative count")))
    ensures o.result.Ok? ==> o.result.value == if buffer.Some? then buffer.value else ByteView(0, samples * FRAME_BYTES)
  {
    if buffer.None? && samples < 0 then Outcome(reg, Err(ValueError("negative count")))
    else
      var view := if buffer.Some? then buffer.value else ByteView(0, samples * FRAME_BYTES);
      var o := RenderAll(reg, reg.soundfonts, view, false);
      Outcome(o.registry, if o.result.Err? then Err(o.result.error) else Ok(view))
  }

  /** A fresh buffer holds `samples` stereo frames, and every loaded
      SoundFont renders all of them: the first replacing, the rest mixing. */
  lemma GenerateSimpleFresh(reg: Registry, samples: nat)
    ensures GenerateSimple(reg, samples, None)
         == Outcome(reg.(calls := reg.calls + RenderCalls(reg.soundfonts, ByteView(0, samples * FRAME_BYTES), false)),
                    Ok(ByteView(0, samples * FRAME_BYTES)))
    ensures forall i :: 0 <= i < |reg.soundfonts| ==>
      RenderCalls(reg.soundfonts, ByteView(0, samples * FRAME_BYTES), false)[i].frames == samples
  {
    var view := ByteView(0, samples * FRAME_BYTES);
    assert view.length % FRAME_BYTES == 0 && view.length / FRAME_BYTES == samples;
    RenderAllEffect(reg, reg.soundfonts, view, false);
  }
}
