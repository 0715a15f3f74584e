# tinysoundfont-pybind: scheduling and routing core in Dafny

tinysoundfont-pybind puts a Python interface on the TinySoundFont
synthesizer and the TinyMidiLoader MIDI decoder. This project models the
part of it that decides *what happens when*, and proves properties of
that model:

- **`Synth`'s registry and router** (`synth.py`): SoundFonts are loaded
  under increasing ids. Unbound channels are claimed on load. Channels are
  bound with `program_select` and unbound with `program_unset`. Every
  channel operation (notes, controllers, pitch bend, tuning, program
  change) is routed to the SoundFont bound to the channel, with the
  library's error cases. The two broadcasts `notes_off` and `sounds_off`
  send controller 123 and controller 120. Rendering (`generate_simple`)
  asks every loaded SoundFont to render into the same buffer, mixing
  after the first.
- **Sample-accurate scheduling**: `Sequencer.process` fires every due
  event and advances time by at most the step it was offered.
  `Synth.generate` alternates three things until the requested frames
  are filled:
  - it asks the sequencer how far it may go;
  - it rounds that to frames;
  - it renders that slice of the buffer.
- **MIDI decoding and event loading**: the native `midi_load_memory`
  (`main.cpp`) turns each decoded message into a record. A record
  carries the payload keys of its type and the tempo in force.
  `Sequencer.midi_load_memory` and `midi.load_memory` (`midi/__init__.py`)
  offset every event, filter it, and sort the survivors stably by time.
  `event_from_dict` turns a record into an `Event` with an action.
- **Native helpers of `main.cpp`**: the `MidiMessageType` codes, the
  buffer checks and frame count of `SoundFont::render`, and the
  `"<None>"` sentinel of `string_none_if_nullptr` / `get_preset_name`.

## How the model is organised

- `common.dfy` (`Common`): the results of Python operations. A result is
  either a value or a raised exception. The module also defines Python
  truthiness, `== True`, and the "keep what the filter did not delete"
  list `Survivors`.
- `stable_sort.dfy` (`StableSort`): `list.sort(key=...)` as a stable
  insertion sort. It is proved sorted, a permutation, and stable.
- `native.dfy` (`Native`): the `MidiMessageType` codes, the records and
  bpm tracking of `midi_load_memory`, and `SoundFont::render`'s buffer
  validation.
- `midi_events.dfy` (`MidiEvents`): `Action`, `Event`, `event_from_dict`
  and `load_memory`.
- `routing.dfy` (`Routing`): each `Synth` operation as a function from
  the registry to an `Outcome`. An `Outcome` holds the new registry and
  what the operation returned or raised. The registry holds:
  - the loaded ids, in dict order;
  - the next id;
  - the channel map;
  - the log of calls made on the native SoundFont objects.
- `scheduling.dfy` (`Scheduling`): `send`, `process`, the sequencer's
  load step, and `generate`'s loop as functions, with the lemmas that
  give them meaning.
- `playback.dfy` (`Playback`): the `Synth` and `Sequencer` classes, with
  fields their methods update. Each method's postcondition ties its new
  fields and its result to the corresponding function of the old fields,
  so everything proved in `Routing` and `Scheduling` holds of the objects.

### The native library

TinySoundFont and TinyMidiLoader are not part of this model. The native
library appears in two forms:

- A `Renderer` value answers four questions from the log of calls made
  so far:
  - whether a SoundFont source loads;
  - whether a call that can fail succeeds;
  - the preset bank/number of a channel;
  - a preset's name.
- The MIDI decoder's output is an input list of `Message`s, or `None`
  when decoding fails.

### Where the code is followed over its documentation

- The comment at `synth.py:424` says the frame count is rounded up to
  keep making progress. Line 425 computes `int(delta * samplerate + 0.999)`,
  so a remainder below a thousandth of a frame is dropped, and a pass can
  render no frames at all. The model follows line 425 (`Scheduling.FrameCount`),
  and `Scheduling.StepProgress` shows the loop still terminates.
- The docstrings at `midi/__init__.py:155-157` and `200-202` say persistent
  events stay queued after playing, "allowing for seeking back". The
  `Sequencer` in `sequencer.py` has no seeking, and
  `process` (`sequencer.py:108-112`) pops every due event whatever its
  `persistent` field says. The flag is only stored, by `event_from_dict`
  and `load_memory`, and the model stores it the same way.
- `__main__.py:60`, `test/example_drums.py:13` and
  `test/example_midi_filter.py:18` call `seq.is_empty()`, which
  `sequencer.py` does not define. Those calls would raise
  `AttributeError`. The model has no such query.
- `sequencer.py:11` imports `midi_load_memory` from the extension module,
  but `main.cpp:311` registers the function as `_midi_load_memory`. The
  model takes the sequencer's decoder to be that registered function.

## Model

| member | source | states |
|---|---|---|
| Common.Survivors | src/tinysoundfont/sequencer.py:50-55 | The kept items are no more than the filtered ones, and each kept item is a filtered item whose verdict does not ask for deletion |
| Common.SurvivorsAppend | src/tinysoundfont/sequencer.py:47-55 | Filtering a concatenation is filtering each part and concatenating, which is how the per-event loop builds its list |
| Common.SurvivorsKeep | src/tinysoundfont/sequencer.py:53-55 | An item whose verdict does not delete it is among the survivors |
| Common.SurvivorsAll | src/tinysoundfont/midi/__init__.py:177-182 | When no verdict deletes (no filter), the survivors are exactly the items, in order |
| StableSort.SortIsSorted | src/tinysoundfont/sequencer.py:56 | `events.sort(key=t)` leaves the events in non-decreasing time order |
| StableSort.SortIsPermutation | src/tinysoundfont/sequencer.py:56 | The sort neither drops, duplicates nor invents events (same multiset) |
| StableSort.SortIsStable | src/tinysoundfont/midi/__init__.py:183 | For every time value, the events at that time keep their input order (Python's sort is stable) |
| StableSort.SortOfSorted | src/tinysoundfont/sequencer.py:56 | Sorting events already in time order changes nothing |
| StableSort.Sort | src/tinysoundfont/sequencer.py:56 | The sorted list is as long as its input |
| Native.Field | src/tinysoundfont/sequencer.py:82-98 | Reading a record key the record lacks raises `KeyError` naming that key |
| Native.RecordFields | src/_tinysoundfont/main.cpp:244-289 | A decoded record has time×0.001, the type and channel of its message, the bpm given, and exactly the payload keys of its type with the message's values; tempo and unknown messages have no payload keys |
| Native.BpmIsLastTempo | src/_tinysoundfont/main.cpp:243-286 | The bpm stamped on a record is 10.0 when no tempo message came at or before it, and otherwise 60e6/(microseconds per beat) of the last tempo message at or before it |
| Native.MidiLoadMemory | src/_tinysoundfont/main.cpp:233-292 | Undecodable data raises `RuntimeError("Could not load MIDI data")`; otherwise the loop with its running `current_bpm` returns exactly `Decoded` of the messages |
| Native.OutputChannels | src/_tinysoundfont/main.cpp:105 | Mono renders one channel, every other mode two |
| Native.RenderFramesOneDimensional | src/_tinysoundfont/main.cpp:106-116 | A 1-D buffer renders iff it is unsigned char and its length divides into 4-byte frames per channel, and then the frame count times the frame size is its length |
| Native.RenderFramesFloatChecks | src/_tinysoundfont/main.cpp:118-123 | A buffer that is not 1-D must be float32 (else the float32 error) and 2-D (else an error) |
| Native.RenderFramesTwoDimensional | src/_tinysoundfont/main.cpp:118-128 | A buffer that is not 1-D renders iff it is float32, 2-D, and has as many columns as output channels, and then it renders one frame per row |
| Native.RenderFramesOfByteBuffer | src/_tinysoundfont/main.cpp:106-116 | A byte buffer of exactly `frames` frames renders exactly `frames` frames |
| Native.RenderFrames | src/_tinysoundfont/main.cpp:102-129 | The only exception a render raises is `RuntimeError`, and an accepted buffer is unsigned char when it is 1-D and float32 otherwise |
| Native.StringNoneIfNull | src/_tinysoundfont/main.cpp:31-33 | A present name is returned unchanged; a null name becomes the sentinel `"<None>"` |
| MidiEvents.EventFromDict | src/tinysoundfont/midi/__init__.py:93-140 | For each of the five supported types: the conversion succeeds iff the record has every payload key the type reads, and then yields exactly that type's action built from those keys, with the record's time and channel, persistent iff the record has a non-None `persistent`; otherwise it raises `KeyError` naming the first missing key in reading order; every other type gives `None` |
| MidiEvents.EventOfDecodedRecord | src/tinysoundfont/midi/__init__.py:101-140 | A decoded record of a supported message becomes the event of that message's action, time and channel, non-persistent; other messages become `None` |
| MidiEvents.ConversionsSnoc | src/tinysoundfont/midi/__init__.py:169-173 | Converting one more record either propagates its `KeyError`, skips it (`None`), or appends its event |
| MidiEvents.ConversionsOfDecoded | src/tinysoundfont/midi/__init__.py:168-173 | Converting the records of any decoded MIDI data never raises |
| MidiEvents.ConversionsPrefixOk | src/tinysoundfont/midi/__init__.py:169-173 | If converting all records succeeds, converting any prefix succeeds (the loop never hits an error midway) |
| MidiEvents.Conversions | src/tinysoundfont/midi/__init__.py:168-173 | The converted events are no more than the records, and the only failure is a `KeyError` |
| MidiEvents.Loaded | src/tinysoundfont/midi/__init__.py:168-184 | `load_memory` of records returns no more events than records, and fails iff converting them fails, with a `KeyError` |
| MidiEvents.LoadedOrder | src/tinysoundfont/midi/__init__.py:168-184 | `load_memory`'s list is in time order, is a permutation of the events the filter did not delete by truthiness, and keeps equal-time events in their order |
| MidiEvents.LoadedWithoutFilter | src/tinysoundfont/midi/__init__.py:168-184 | Without a filter every converted event is loaded, shifted and stamped with the requested `persistent` |
| MidiEvents.TouchedSnoc | src/tinysoundfont/midi/__init__.py:170-182 | One more event adds its filtered form to the result unless its verdict is truthy |
| MidiEvents.LoadMemory | src/tinysoundfont/midi/__init__.py:143-184 | Undecodable data raises the decoder's `RuntimeError`; otherwise the convert/offset/filter loop and sort returns `Loaded` of the decoded records, and never fails |
| Routing.EmptyValid | src/tinysoundfont/synth.py:44-57 | A new synthesizer's registry satisfies the registry invariant |
| Routing.GetSoundfont | src/tinysoundfont/synth.py:34-37 | Succeeds iff the id is loaded; otherwise raises `SoundFontException("Invalid SoundFont id")` |
| Routing.GetSfid | src/tinysoundfont/synth.py:39-42 | Succeeds iff the channel is bound, returning its id; otherwise raises `SoundFontException("Invalid channel (channel not assigned)")` |
| Routing.Checked | src/_tinysoundfont/main.cpp:138-148 | A native call is logged, and it raises `RuntimeError` with its message iff the library rejects it |
| Routing.Claim | src/tinysoundfont/synth.py:92-94 | Bound channels keep their binding; every unbound channel in 0..15 is bound to the new id; no other channel appears |
| Routing.SfLoad | src/tinysoundfont/synth.py:81-95 | Succeeds iff the source loads; on failure nothing changes and the message depends on file or bytes; on success it returns the next id, increments it, appends it to the loaded ids, claims unbound channels, and logs load, `set_output(StereoInterleaved, samplerate, synth gain + gain)` and `set_max_voices` |
| Routing.SfLoadFresh | src/tinysoundfont/synth.py:88-90 | The id handed out is larger than every loaded id and every id in the call log, and the registry invariant is kept |
| Routing.SfLoadChannels | src/tinysoundfont/synth.py:92-94 | After a load, a channel is bound iff it was bound before or is in 0..15; old bindings are kept and new ones go to the new id |
| Routing.Without | src/tinysoundfont/synth.py:108 | Removing an id keeps exactly the other ids |
| Routing.WithoutIncreasing | src/tinysoundfont/synth.py:108 | Removing an id keeps the loaded ids in increasing (insertion) order |
| Routing.SfUnload | src/tinysoundfont/synth.py:107-114 | Raises iff the id is not loaded, changing nothing; otherwise it removes the id and unbinds exactly its channels, leaving the rest alone |
| Routing.SfUnloadValid | src/tinysoundfont/synth.py:107-114 | Unloading keeps the registry invariant (no channel is left bound to an unloaded id) |
| Routing.SfUnloadTwice | src/tinysoundfont/synth.py:107-114 | Unloading the same id a second time raises "Invalid SoundFont id" and changes nothing |
| Routing.ProgramSelect | src/tinysoundfont/synth.py:136-139 | An unloaded id raises "Invalid SoundFont id" and changes nothing. Otherwise the channel is bound to the id and the bank is set. A rejected bank raises "Error in channel_set_bank" with only that call logged. An accepted bank is followed by the preset call, and the result succeeds iff the library accepts that call, else raises "Error in channel_set_preset_number" |
| Routing.ProgramSelectValid | src/tinysoundfont/synth.py:136-139 | Selecting keeps the registry invariant |
| Routing.ProgramUnset | src/tinysoundfont/synth.py:148-150 | An unbound channel raises and changes nothing; otherwise exactly that channel is unbound |
| Routing.RoutedEffect | src/tinysoundfont/synth.py:168-170 | A channel operation on an unbound channel raises "channel not assigned" and changes nothing; otherwise it logs the call on the bound SoundFont and fails iff the library rejects it, with the call's own message |
| Routing.RoutedValid | src/tinysoundfont/synth.py:168-170 | A routed channel operation keeps the registry invariant |
| Routing.Routed | src/tinysoundfont/synth.py:168-170 | A routed channel operation never changes the loaded ids, the next id or the bindings |
| Routing.ProgramChange | src/tinysoundfont/synth.py:168-170 | An unbound channel raises "channel not assigned" and a channel bound to an unloaded id raises "Invalid SoundFont id", changing nothing; otherwise the preset call is logged on the bound SoundFont and succeeds iff the library accepts it, else raises "Error in channel_set_preset_number" |
| Routing.ControlChange | src/tinysoundfont/synth.py:303-305 | The same three cases for the controller call, whose rejection raises "Error in channel_midi_control" |
| Routing.SetChannelTuning | src/tinysoundfont/synth.py:313-315 | The same three cases for the tuning call, whose rejection raises "Error in channel_set_tuning" |
| Routing.PitchBend | src/tinysoundfont/synth.py:326-328 | The same three cases for the pitch-wheel call, whose rejection raises "Error in channel_set_pitch_wheel" |
| Routing.PitchBendRange | src/tinysoundfont/synth.py:339-341 | The same three cases for the pitch-range call, whose rejection raises "Error in channel_set_pitch_range" |
| Routing.NotesOff | src/tinysoundfont/synth.py:263-267 | With a channel, the three cases of `ControlChange` for controller 123. Without one, success iff all sixteen channels are bound to loaded SoundFonts and accept the call, and then exactly one controller-123 call per channel is logged, in order |
| Routing.SoundsOff | src/tinysoundfont/synth.py:278-282 | The same as `NotesOff`, for controller 120 |
| Routing.ProgramInfo | src/tinysoundfont/synth.py:183-187 | Succeeds iff the channel is bound to a loaded id, returning that id with the bank and preset number the SoundFont reports; an unbound channel raises |
| Routing.SfPresetName | src/tinysoundfont/synth.py:206-210 | Raises iff the id is not loaded |
| Routing.PresetNameRoundTrip | src/tinysoundfont/synth.py:206-210 | A real name comes back as itself; a missing name, which the native side turns into `"<None>"`, comes back as `None` |
| Routing.NoteOn | src/tinysoundfont/synth.py:223-232 | Bindings are unchanged, and a note that played has a key in 0..127 |
| Routing.NoteOnEffect | src/tinysoundfont/synth.py:223-232 | Returns `False` without effect iff key or velocity is outside 0..127 or the channel is unbound; otherwise logs the note with velocity/127 and returns `True` iff the library accepts it, raising "Error in channel_note_on" otherwise |
| Routing.NoteOff | src/tinysoundfont/synth.py:245-252 | Bindings and ids are unchanged |
| Routing.NoteOffEffect | src/tinysoundfont/synth.py:245-252 | Returns `False` without effect iff key is outside 0..127 or the channel is unbound; otherwise logs the note-off and returns `True` |
| Routing.ControlsCons | src/tinysoundfont/synth.py:263-267 | A broadcast's calls are the first channel's call followed by the rest |
| Routing.Broadcast | src/tinysoundfont/synth.py:263-267 | Bindings and ids are unchanged |
| Routing.BroadcastOk | src/tinysoundfont/synth.py:263-267 | A broadcast that completes found every channel from the start bound to a loaded SoundFont and had each controller call accepted, and it logged exactly one controller call per channel, in channel order |
| Routing.BroadcastCompletes | src/tinysoundfont/synth.py:263-267 | Conversely, when every channel is bound to a loaded SoundFont and each successive controller call is accepted, the broadcast succeeds, having logged exactly one call per channel in order |
| Routing.BroadcastEffect | src/tinysoundfont/synth.py:263-267 | A broadcast succeeds iff every channel is bound to a loaded SoundFont and every call is accepted, and it then leaves the registry with exactly those calls appended |
| Routing.BroadcastRejected | src/tinysoundfont/synth.py:263-267 | When the first failing channel is bound but the library rejects its call, the broadcast raises "Error in channel_midi_control" after logging the calls on the channels before it and the rejected call |
| Routing.BroadcastStopsAtUnbound | src/tinysoundfont/synth.py:278-282 | When the first failing channel is unbound, or bound to an unloaded id, the broadcast raises "channel not assigned" (or "Invalid SoundFont id") after logging the calls on the channels before it |
| Routing.PySlice | src/tinysoundfont/synth.py:429 | A memoryview slice is never longer than the view, and an in-range slice is the expected sub-view |
| Routing.ByteViewFrames | src/_tinysoundfont/main.cpp:106-116 | A byte view renders its length/8 stereo frames iff its length is a multiple of 8, else the "does not divide evenly" error |
| Routing.RenderCallsCons | src/tinysoundfont/synth.py:452-456 | The render calls are the first SoundFont's call with the caller's mix flag, then the rest mixing |
| Routing.RenderAllEffect | src/tinysoundfont/synth.py:452-457 | Rendering fails iff some SoundFont is loaded and the view is not whole frames, changing nothing; otherwise it logs exactly the render calls |
| Routing.RenderAll | src/tinysoundfont/synth.py:452-456 | Rendering never changes the loaded ids, the next id or the bindings |
| Routing.GenerateSimple | src/tinysoundfont/synth.py:448-457 | Bindings are unchanged; no buffer and a negative count raises `ValueError("negative count")`; success returns the given buffer or a fresh one of `samples*8` bytes |
| Routing.GenerateSimpleFresh | src/tinysoundfont/synth.py:448-457 | With no buffer, each loaded SoundFont renders all `samples` frames into the fresh buffer, which is returned |
| Scheduling.Discard | src/tinysoundfont/sequencer.py:84-86 | Ignoring an operation's return value keeps its effect and its exception |
| Scheduling.Send | src/tinysoundfont/sequencer.py:81-98 | Sending never changes bindings or ids |
| Scheduling.SendDispatch | src/tinysoundfont/sequencer.py:82-98 | NOTE_ON, NOTE_OFF, CONTROL_CHANGE, PROGRAM_CHANGE (not drums) and PITCH_BEND go to the matching synthesizer operation with the record's fields; every other type does nothing |
| Scheduling.SendMissingKey | src/tinysoundfont/sequencer.py:83-84 | A NOTE_ON record without note fields raises `KeyError` and changes nothing |
| Scheduling.SendValid | src/tinysoundfont/sequencer.py:82-98 | Sending changes only the call log and keeps the registry invariant |
| Scheduling.DueCount | src/tinysoundfont/sequencer.py:108-112 | The due prefix: records up to it are at or before the time, and the one after it is later |
| Scheduling.Process | src/tinysoundfont/sequencer.py:100-124 | The queue never grows; time advances by exactly the value returned, and not at all when a send raises |
| Scheduling.ProcessReturns | src/tinysoundfont/sequencer.py:100-124 | A `process` that returns has sent exactly the due records in order and popped them; it returns `delta` on an emptied queue, and otherwise `min(delta, head.t - time)` |
| Scheduling.ProcessRaises | src/tinysoundfont/sequencer.py:117-120 | A `process` that raises popped some due records, sent all but the last successfully, and the last one's send raised |
| Scheduling.ProcessRange | src/tinysoundfont/sequencer.py:114-124 | For a non-negative `delta` the advance is between 0 and `delta`; a negative `delta` is returned as is |
| Scheduling.ProcessCursor | src/tinysoundfont/sequencer.py:108-116 | After `process` returns, no queued record lies before the new time |
| Scheduling.ProcessPending | src/tinysoundfont/sequencer.py:112-116 | When `process` returns less than asked, the work left in the queue drops |
| Scheduling.SequencerLoad | src/tinysoundfont/sequencer.py:45-57 | `data` holds one record per loaded record, the queue holds no more, and every queued record is in `data` |
| Scheduling.SequencerLoadMeaning | src/tinysoundfont/sequencer.py:45-57 | The new queue is in time order, is a permutation of the records whose verdict is not `== True`, and keeps equal-time records in load order |
| Scheduling.SequencerLoadMembers | src/tinysoundfont/sequencer.py:45-57 | A record is queued iff some loaded record became it through the offset and filter with a verdict not `== True` |
| Scheduling.SortMembers | src/tinysoundfont/sequencer.py:56 | Sorting keeps exactly the same members |
| Scheduling.SequencerLoadUnfiltered | src/tinysoundfont/sequencer.py:45-57 | Without a filter, `data` is every record offset by the time, and the queue is that list sorted |
| Scheduling.Trunc | src/tinysoundfont/synth.py:425 | Python's `int()` on a real truncates toward zero |
| Scheduling.FrameCount | src/tinysoundfont/synth.py:424-425 | For a non-negative duration the frame count `f` is non-negative with `f - 0.999 <= delta*sr < f + 0.001`: it rounds up, except that a remainder below a thousandth of a frame is dropped |
| Scheduling.FramesOfPart | src/tinysoundfont/synth.py:419-425 | A duration within the remaining time rounds to at most the remaining frames, and to none only when it is shorter than the remaining time |
| Scheduling.FramesOfWhole | src/tinysoundfont/synth.py:419-425 | The full remaining duration rounds to exactly the remaining frames |
| Scheduling.StepProgress | src/tinysoundfont/synth.py:419-425 | Each pass renders between 0 and the remaining frames, and renders none only when the sequencer's pending work drops, so the loop terminates |
| Scheduling.NextPassProgresses | src/tinysoundfont/synth.py:418-430 | A pass starts at the frames already generated and makes progress in that sense |
| Scheduling.NextPassTimed | src/tinysoundfont/synth.py:419-425 | A pass renders `FrameCount` of its seconds, and the sequencer's time advances by those seconds |
| Scheduling.NextPassPlaced | src/tinysoundfont/synth.py:427-429 | A pass renders into bytes `g*8` up to `(g+frames)*8` of the buffer |
| Scheduling.PassViaFacts | src/tinysoundfont/synth.py:418-430 | Every pass of `generate` progresses, is timed, and is placed when the buffer holds the request |
| Scheduling.LoopStep | src/tinysoundfont/synth.py:418-430 | One iteration: a pass that raises ends the loop with its error, and otherwise the loop continues from the frames just rendered |
| Scheduling.LoopAdvance | src/tinysoundfont/synth.py:418-430 | After a pass without error, the rest of the loop ends as the whole loop does |
| Scheduling.LoopsAgree | src/tinysoundfont/synth.py:418-430 | The loop depends only on what each pass does |
| Scheduling.LoopAgrees | src/tinysoundfont/synth.py:414-431 | Running the loop with any pass agreeing with `generate`'s ends as `generate` does |
| Scheduling.LoopTiles | src/tinysoundfont/synth.py:418-430 | The slices of a completed loop follow one another and cover exactly the requested frames |
| Scheduling.LoopClock | src/tinysoundfont/synth.py:419-425 | With a sequencer, a completed loop advanced its time by exactly the seconds rendered, each slice rounded by `FrameCount` |
| Scheduling.LoopOffsets | src/tinysoundfont/synth.py:427-429 | Each slice is rendered into the bytes of its own frames |
| Scheduling.GenerateLoop | src/tinysoundfont/synth.py:417-431 | A completed loop returns the buffer it was given |
| Scheduling.Generate | src/tinysoundfont/synth.py:399-431 | A completed `generate` returns the buffer it was given or, with none, a fresh view of `samples*8` bytes for a non-negative count |
| Scheduling.GenerateMeaning | src/tinysoundfont/synth.py:414-431 | A completed `generate` returns the buffer (given or fresh); its slices tile the request; the sequencer's time advanced by exactly the seconds rendered; and, when the buffer holds the request, every slice went to its own frames |
| Scheduling.GenerateWithoutCallback | src/tinysoundfont/synth.py:418-430 | Without a sequencer at a positive samplerate the whole request is one slice |
| Scheduling.GenerateZeroSamplerate | src/tinysoundfont/synth.py:419 | A zero samplerate raises `ZeroDivisionError` before anything is asked or rendered |
| Scheduling.GenerateNothing | src/tinysoundfont/synth.py:414-418 | A request for no or negative frames renders nothing: a given buffer is returned, and a missing one is allocated (raising `ValueError` for a negative count) |
| Playback.Synth.constructor | src/tinysoundfont/synth.py:44-57 | A new synthesizer has nothing loaded, no binding, next id 0 and no callback |
| Playback.Synth.SfLoad | src/tinysoundfont/synth.py:81-95 | The fields change as `Routing.SfLoad` says, through the channel-claiming loop |
| Playback.Synth.SfUnload | src/tinysoundfont/synth.py:107-114 | The fields change as `Routing.SfUnload` says |
| Playback.Synth.ProgramSelect | src/tinysoundfont/synth.py:136-139 | The fields change and the result is as `Routing.ProgramSelect` says, including the bank-rejected and preset-rejected errors |
| Playback.Synth.ProgramUnset | src/tinysoundfont/synth.py:148-150 | The fields change as `Routing.ProgramUnset` says |
| Playback.Synth.ProgramChange | src/tinysoundfont/synth.py:168-170 | The call log changes as `Routing.ProgramChange` says |
| Playback.Synth.ProgramInfo | src/tinysoundfont/synth.py:183-187 | Returns `Routing.ProgramInfo` of the current fields |
| Playback.Synth.SfPresetName | src/tinysoundfont/synth.py:206-210 | Returns `Routing.SfPresetName` of the current fields |
| Playback.Synth.NoteOn | src/tinysoundfont/synth.py:223-232 | The call log changes as `Routing.NoteOn` says |
| Playback.Synth.NoteOff | src/tinysoundfont/synth.py:245-252 | The call log changes as `Routing.NoteOff` says |
| Playback.Synth.ControlChange | src/tinysoundfont/synth.py:303-305 | The call log changes as `Routing.ControlChange` says |
| Playback.Synth.SetTuning | src/tinysoundfont/synth.py:313-315 | The call log changes as `Routing.SetChannelTuning` says |
| Playback.Synth.PitchBend | src/tinysoundfont/synth.py:326-328 | The call log changes as `Routing.PitchBend` says |
| Playback.Synth.PitchBendRange | src/tinysoundfont/synth.py:339-341 | The call log changes as `Routing.PitchBendRange` says |
| Playback.Synth.Broadcast | src/tinysoundfont/synth.py:263-267 | The loop over channels 0 to 15, stopping at the first that raises, leaves the call log and result as `Routing.Broadcast` says |
| Playback.Synth.NotesOff | src/tinysoundfont/synth.py:263-267 | Controller 123 goes to one channel or, looping, to all sixteen, as `Routing.NotesOff` says, so `BroadcastEffect` holds of the object |
| Playback.Synth.SoundsOff | src/tinysoundfont/synth.py:278-282 | Controller 120 goes to one channel or, looping, to all sixteen, as `Routing.SoundsOff` says, so `BroadcastEffect` holds of the object |
| Playback.Synth.GenerateSimple | src/tinysoundfont/synth.py:448-457 | The render loop over the loaded SoundFonts changes the call log as `Routing.GenerateSimple` says |
| Playback.Synth.RenderPass | src/tinysoundfont/synth.py:419-429 | One pass on the fields, including the callback into the sequencer, leaves the registry, the sequencer's time and queue, and the error as the pass of `Scheduling.Generate` does; the sequencer's `data` is unchanged |
| Playback.Synth.FillStep | src/tinysoundfont/synth.py:418-430 | One iteration keeps the loop's eventual outcome, a pass of no frames lowers the sequencer's pending work, and the sequencer's `data` is unchanged |
| Playback.Synth.Fill | src/tinysoundfont/synth.py:417-431 | The `while generated < samples` loop leaves the registry, the sequencer's time and queue, and the result as `Scheduling.Generate` on the given buffer, and leaves the sequencer's `data` unchanged |
| Playback.Synth.Generate | src/tinysoundfont/synth.py:399-431 | `generate` leaves the registry, the sequencer's time and queue, and the result as `Scheduling.Generate` says, so `GenerateMeaning` holds of the object; the sequencer's `data` is unchanged |
| Playback.Offset | src/tinysoundfont/sequencer.py:47-55 | The in-place offset-and-filter loop leaves `data` as the touched records and collects exactly the survivors of `== True` |
| Playback.Sequencer.constructor | src/tinysoundfont/sequencer.py:22-29 | A new sequencer is at time 0 with an empty queue and is the synthesizer's callback |
| Playback.Sequencer.MidiLoadMemory | src/tinysoundfont/sequencer.py:31-57 | Undecodable data raises and changes nothing; otherwise `data` and the queue become `SequencerLoad` of the decoded records at the current time |
| Playback.Sequencer.Send | src/tinysoundfont/sequencer.py:76-98 | The synthesizer's fields change as `Scheduling.Send` says |
| Playback.Sequencer.Process | src/tinysoundfont/sequencer.py:100-124 | The pop-and-send loop leaves time, queue and synthesizer as `Scheduling.Process` says, so `ProcessReturns`, `ProcessRange` and the rest hold of the object |

## Left out

- Audio output (`Synth.start`/`stop`, `synth.py:343-397`): PyAudio streams and their callback thread are I/O and concurrency.
- The DSP of TinySoundFont and the parsing of TinyMidiLoader: these are foreign code. The model sees SoundFont behaviour through the `Renderer` oracle, and the MIDI decoder's output as an input list of messages (`None` when decoding fails). The audio samples written into the buffer are not modelled; the model logs which render calls were made on which bytes.
- File loading (`Sequencer.midi_load`, `midi.load`, and the load from a file name of `SoundFont`): these read a file and then do what the memory versions do. A file name is kept as a `Source`, and whether it loads is up to the oracle.
- Floating point: times, delta values, gains and bpm are exact reals. The `0.001f` single-precision time factor and the float32 rounding of velocity/127 are not modelled.
- C `int` widths: channel, key and controller values are unbounded integers.
- Scheduling.FrameCount: the bound is stated for non-negative durations only. A negative duration arises only with a negative samplerate and is covered by `Trunc`'s contract.
- Buffers: only one-dimensional byte views (`ByteView`) are passed to `generate` and `generate_simple`. `SoundFont::render`'s checks on other buffer shapes are modelled separately (`Native.RenderFrames` and its lemmas).
- MidiEvents.EventFromDict: a dict without `t`, `channel` or `type` raises `KeyError` (`midi/__init__.py:101-104`, and `sequencer.py:82,109` for the sequencer's reads). A `Record` always has those three fields, so the model cannot express that case.
- Filters are modelled as pure functions from a record (or event) to the filtered record and a verdict. A filter that raises, deletes keys or keeps state is not captured.
- Playback.Synth.Generate: the callback is assumed to be a `Sequencer` whose synthesizer is this one, or no callback at all. Any other Python callable is left out.
- Playback.Sequencer.constructor: `data` starts as an empty list. Python leaves the attribute unset until the first load, so reading it earlier would raise `AttributeError`.
- A Python dict of SoundFonts is modelled as an insertion-ordered sequence of ids. The SoundFont objects themselves are identified by their ids in the call log.
- The copy constructor and destructor of `SoundFont` (`main.cpp:58-70`) and the other thin native wrappers not called from `synth.py` are not part of this model.
- `sequencer.py:10-14` imports and the module-level `tinysoundfont/__init__.py` re-exports are not modelled.
