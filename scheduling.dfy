/** Sample-accurate event scheduling: what `Sequencer.send`,
    `Sequencer.process` and `Sequencer.midi_load_memory` do to the
    sequencer's clock and queue and to the synthesizer, and what
    `Synth.generate` does when it alternates between asking the sequencer
    how far time may advance and rendering that many frames.

    Each operation is a function of the old state; the `Sequencer` and
    `Synth` classes run the same steps on their fields. */
module Scheduling {
  import opened Common
  import opened Native
  import opened Routing
  import StableSort

  /** The sequencer's state: its time in seconds and its queue of records. */
  datatype Clock = Clock(time: real, events: seq<Record>)

  function Min(a: real, b: real): (m: real)
    ensures m <= a && m <= b && (m == a || m == b)
  {
    if a <= b then a else b
  }

  function RecordTime(r: Record): real { r.t }

  // ---------------------------------------------------------------------
  // send
  // ---------------------------------------------------------------------

  /** An operation whose return value `send` ignores. */
  function Discard<T>(o: Outcome<T>): (d: Outcome<()>)
    ensures d.registry == o.registry && d.result.Err? == o.result.Err?
    ensures d.result.Err? ==> d.result.error == o.result.error
  {
    Outcome(o.registry, if o.result.Err? then Err(o.result.error) else Ok(()))
  }

  /** `Sequencer.send`: hand a record to the synthesizer operation its type
      names; the synthesizer's exceptions, and the `KeyError` of a missing
      payload key, propagate. */
  function Send(ren: Renderer, reg: Registry, rec: Record): (o: Outcome<()>)
    ensures o.registry.soundfonts == reg.soundfonts && o.registry.channel == reg.channel
    ensures o.registry.nextSfid == reg.nextSfid
  {
    if rec.kind == NOTE_ON then
      var key := Field(rec, "key");
      if key.Err? then Outcome(reg, Err(key.error)) else
      var velocity := Field(rec, "velocity");
      if velocity.Err? then Outcome(reg, Err(velocity.error)) else
      Discard(NoteOn(ren, reg, rec.channel, key.value, velocity.value))
    else if rec.kind == NOTE_OFF then
      var key := Field(rec, "key");
      if key.Err? then Outcome(reg, Err(key.error)) else
      Discard(NoteOff(reg, rec.channel, key.value))
    else if rec.kind == CONTROL_CHANGE then
      var control := Field(rec, "control");
      if control.Err? then Outcome(reg, Err(control.error)) else
      var value := Field(rec, "control_value");
      if value.Err? then Outcome(reg, Err(value.error)) else
      ControlChange(ren, reg, rec.channel, control.value, value.value)
    else if rec.kind == PROGRAM_CHANGE then
      var program := Field(rec, "program");
      if program.Err? then Outcome(reg, Err(program.error)) else
      ProgramChange(ren, reg, rec.channel, program.value, false)
    else if rec.kind == PITCH_BEND then
      var bend := Field(rec, "pitch_bend");
      if bend.Err? then Outcome(reg, Err(bend.error)) else
      PitchBend(ren, reg, rec.channel, bend.value)
    else Outcome(reg, Ok(()))
  }

  /** The dispatch table of `send`: each of the five handled types goes to
      its synthesizer operation with the record's channel and payload;
      key pressure, channel pressure, tempo and unknown types do nothing. */
  lemma SendDispatch(ren: Renderer, reg: Registry, rec: Record)
    ensures rec.kind == NOTE_ON && rec.payload.NoteFields? ==>
      Send(ren, reg, rec) == Discard(NoteOn(ren, reg, rec.channel, rec.payload.key, rec.payload.velocity))
    ensures rec.kind == NOTE_OFF && rec.payload.NoteFields? ==>
      Send(ren, reg, rec) == Discard(NoteOff(reg, rec.channel, rec.payload.key))
    ensures rec.kind == CONTROL_CHANGE && rec.payload.ControlFields? ==>
      Send(ren, reg, rec) == ControlChange(ren, reg, rec.channel, rec.payload.control, rec.payload.controlValue)
    ensures rec.kind == PROGRAM_CHANGE && rec.payload.ProgramFields? ==>
      Send(ren, reg, rec) == ProgramChange(ren, reg, rec.channel, rec.payload.program, false)
    ensures rec.kind == PITCH_BEND && rec.payload.PitchBendFields? ==>
      Send(ren, reg, rec) == PitchBend(ren, reg, rec.channel, rec.payload.pitchBend)
    ensures rec.kind !in {NOTE_ON, NOTE_OFF, CONTROL_CHANGE, PROGRAM_CHANGE, PITCH_BEND} ==>
      Send(ren, reg, rec) == Outcome(reg, Ok(()))
  {
  }

  /** A record whose payload lacks a key its type needs raises `KeyError`
      before any call is made. */
  lemma SendMissingKey(ren: Renderer, reg: Registry, rec: Record)
    requires rec.kind == NOTE_ON && !rec.payload.NoteFields?
    ensures Send(ren, reg, rec).registry == reg && Send(ren, reg, rec).result.Err?
    ensures Send(ren, reg, rec).result.error.KeyError?
  {
  }

  /** What the sequencer does with one record it sends. The scheduling
      below is stated for any such step; the sequencer's own is `Send`. */
  type Sender = (Registry, Record) -> Outcome<()>

  function SendVia(ren: Renderer): Sender {
    (reg: Registry, rec: Record) => Send(ren, reg, rec)
  }

  /** Sending changes only the call log, and keeps the registry valid. */
  lemma SendValid(ren: Renderer, reg: Registry, rec: Record)
    requires Valid(reg)
    ensures Valid(Send(ren, reg, rec).registry)
    ensures Send(ren, reg, rec).registry.(calls := reg.calls) == reg
  {
    if rec.kind in {NOTE_ON, NOTE_OFF, CONTROL_CHANGE, PROGRAM_CHANGE, PITCH_BEND} {
      var chan := rec.channel;
      if chan in reg.channel {
        var s := reg.channel[chan];
        var k :| 0 <= k < |reg.soundfonts| && reg.soundfonts[k] == s;
        assert s < reg.nextSfid;
      }
    }
  }

  /** Every record sent in order, stopping at the first that raises. */
  function SendAll(send: Sender, reg: Registry, es: seq<Record>): Outcome<()>
    decreases |es|
  {
    if es == [] then Outcome(reg, Ok(()))
    else
      var o := send(reg, es[0]);
      if o.result.Err? then o else SendAll(send, o.registry, es[1..])
  }

  // ---------------------------------------------------------------------
  // process
  // ---------------------------------------------------------------------

  /** The state after `process`, and what it returned or raised. */
  datatype Processed = Processed(registry: Registry, clock: Clock, result: Result<real>)

  /** `Sequencer.process(delta)`: pop and send every head record that is
      due (`t <= time`); at the first that is not, advance time by the
      smaller of `delta` and the wait for it and return that; once the
      queue is empty, advance by `delta` and return it. A send that raises
      propagates, with the record already popped and time unchanged. */
  function Process(send: Sender, reg: Registry, clock: Clock, delta: real): (p: Processed)
    ensures |p.clock.events| <= |clock.events|
    ensures p.result.Ok? ==> p.clock.time == clock.time + p.result.value
    ensures p.result.Err? ==> p.clock.time == clock.time
    decreases |clock.events|
  {
    if clock.events == [] then Processed(reg, Clock(clock.time + delta, []), Ok(delta))
    else if clock.events[0].t > clock.time then
      var td := Min(delta, clock.events[0].t - clock.time);
      Processed(reg, Clock(clock.time + td, clock.events), Ok(td))
    else
      var sent := send(reg, clock.events[0]);
      var rest := Clock(clock.time, clock.events[1..]);
      if sent.result.Err? then Processed(sent.registry, rest, Err(sent.result.error))
      else Process(send, sent.registry, rest, delta)
  }

  /** The number of records at the front of `es` that are due at `time`. */
  function DueCount(time: real, es: seq<Record>): (k: nat)
    ensures k <= |es|
    ensures forall i :: 0 <= i < k ==> es[i].t <= time
    ensures k < |es| ==> es[k].t > time
  {
    if es == [] || es[0].t > time then 0 else 1 + DueCount(time, es[1..])
  }

  /** What `process` does when it returns, stated without its loop: it
      sends exactly the due prefix of the queue, in queue order, and keeps
      the rest of the queue as it was; it returns `delta` if nothing is
      left, or else the smaller of `delta` and the wait for the new head. */
  lemma {:induction false} ProcessReturns(send: Sender, reg: Registry, clock: Clock, delta: real)
    requires Process(send, reg, clock, delta).result.Ok?
    ensures var p := Process(send, reg, clock, delta);
      var k := DueCount(clock.time, clock.events);
      && SendAll(send, reg, clock.events[..k]) == Outcome(p.registry, Ok(()))
      && p.clock.events == clock.events[k..]
      && p.result.value == (if k == |clock.events| then delta else Min(delta, clock.events[k].t - clock.time))
    decreases |clock.events|
  {
    var es := clock.events;
    if es != [] && es[0].t <= clock.time {
      var sent := send(reg, es[0]);
      var rest := Clock(clock.time, es[1..]);
      assert sent.result.Ok?;
      assert Process(send, reg, clock, delta) == Process(send, sent.registry, rest, delta);
      ProcessReturns(send, sent.registry, rest, delta);
      var k := DueCount(clock.time, es);
      assert k == 1 + DueCount(clock.time, es[1..]);
      assert es[..k][0] == es[0];
      assert es[..k][1..] == es[1..][..k - 1];
      assert es[1..][k - 1..] == es[k..];
    } else {
      assert es[..0] == [];
    }
  }

  /** What `process` does when a send raises: the records up to and
      including the failing one are gone, the failing one was due, all
      before it were sent successfully, and the failing send's state and
      error are what `process` leaves and raises. */
  lemma {:induction false} ProcessRaises(send: Sender, reg: Registry, clock: Clock, delta: real)
    requires Process(send, reg, clock, delta).result.Err?
    ensures var p := Process(send, reg, clock, delta);
      var m := |clock.events| - |p.clock.events|;
      && 1 <= m <= DueCount(clock.time, clock.events)
      && p.clock.events == clock.events[m..]
      && SendAll(send, reg, clock.events[..m - 1]).result.Ok?
      && send(SendAll(send, reg, clock.events[..m - 1]).registry, clock.events[m - 1])
         == Outcome(p.registry, Err(p.result.error))
    decreases |clock.events|
  {
    var es := clock.events;
    assert es != [] && es[0].t <= clock.time;
    var sent := send(reg, es[0]);
    var rest := Clock(clock.time, es[1..]);
    if sent.result.Ok? {
      var p := Process(send, reg, clock, delta);
      assert p == Process(send, sent.registry, rest, delta);
      ProcessRaises(send, sent.registry, rest, delta);
      var m := |es| - |p.clock.events|;
      assert DueCount(clock.time, es) == 1 + DueCount(clock.time, es[1..]);
      assert es[..m - 1][0] == es[0];
      assert es[..m - 1][1..] == es[1..][..m - 2];
      assert es[1..][m - 1..] == es[m..];
      assert es[1..][m - 2] == es[m - 1];
    } else {
      assert es[..0] == [];
    }
  }

  /** For a non-negative `delta` the return value lies in `[0, delta]`; for
      a negative one it is `delta` itself. */
  lemma {:induction false} ProcessRange(send: Sender, reg: Registry, clock: Clock, delta: real)
    ensures var p := Process(send, reg, clock, delta);
      p.result.Ok? ==>
        && (delta >= 0.0 ==> 0.0 <= p.result.value <= delta)
        && (delta < 0.0 ==> p.result.value == delta)
    decreases |clock.events|
  {
    if clock.events != [] && clock.events[0].t <= clock.time {
      var sent := send(reg, clock.events[0]);
      if sent.result.Ok? {
        ProcessRange(send, sent.registry, Clock(clock.time, clock.events[1..]), delta);
      }
    }
  }

  /** The cursor never passes a pending record: after `process` returns,
      the head of the queue is not before the new time. */
  lemma {:induction false} ProcessCursor(send: Sender, reg: Registry, clock: Clock, delta: real)
    ensures var p := Process(send, reg, clock, delta);
      p.result.Ok? && p.clock.events != [] ==> p.clock.events[0].t >= p.clock.time
    decreases |clock.events|
  {
    if clock.events != [] && clock.events[0].t <= clock.time {
      var sent := send(reg, clock.events[0]);
      if sent.result.Ok? {
        ProcessCursor(send, sent.registry, Clock(clock.time, clock.events[1..]), delta);
      }
    }
  }

  /** A measure of the work left in the queue: each queued record, plus
      one while the head still has to be waited for. */
  function Pending(clock: Option<Clock>): nat {
    if clock.None? then 0
    else |clock.value.events| + (if clock.value.events != [] && clock.value.events[0].t > clock.value.time then 1 else 0)
  }

  /** When `process` returns less than it was asked for, it stopped at a
      record it then reached, so the work left drops: this is what makes
      `generate` terminate when a slice rounds down to no frames. */
  lemma {:induction false} ProcessPending(send: Sender, reg: Registry, clock: Clock, delta: real)
    ensures var p := Process(send, reg, clock, delta);
      p.result.Ok? && p.result.value < delta ==> Pending(Some(p.clock)) < Pending(Some(clock))
    decreases |clock.events|
  {
    if clock.events != [] && clock.events[0].t <= clock.time {
      var sent := send(reg, clock.events[0]);
      if sent.result.Ok? {
        ProcessPending(send, sent.registry, Clock(clock.time, clock.events[1..]), delta);
      }
    }
  }

  // ---------------------------------------------------------------------
  // midi_load_memory on the sequencer
  // ---------------------------------------------------------------------

  /** What the filter makes of a record; without a filter nothing is deleted. */
  function ApplyFilter(filter: Option<Record -> Filtered<Record>>, r: Record): Filtered<Record> {
    if filter.Some? then filter.value(r) else Filtered(r, NoneValue)
  }

  /** Every record offset by the sequencer's time and handed to the filter. */
  function Touch(records: seq<Record>, time: real, filter: Option<Record -> Filtered<Record>>): (r: seq<Filtered<Record>>)
    ensures |r| == |records|
    ensures forall i :: 0 <= i < |records| ==> r[i] == ApplyFilter(filter, records[i].(t := records[i].t + time))
  {
    seq(|records|, i requires 0 <= i < |records| => ApplyFilter(filter, records[i].(t := records[i].t + time)))
  }

  /** The records as the filter left them, deleted or not. */
  function Items(fs: seq<Filtered<Record>>): (r: seq<Record>)
    ensures |r| == |fs| && forall i :: 0 <= i < |fs| ==> r[i] == fs[i].item
  {
    seq(|fs|, i requires 0 <= i < |fs| => fs[i].item)
  }

  /** The sequencer's `data` and new queue after loading `records` at `time`. */
  datatype Schedule = Schedule(data: seq<Record>, events: seq<Record>)

  /** `Sequencer.midi_load_memory` on decoded records: each record's `t` is
      offset by the current time, the filter may modify it, a verdict
      `== True` deletes it; the survivors, stably sorted by `t`, become the
      whole queue. `data` keeps every record as the filter left it. */
  function SequencerLoad(records: seq<Record>, time: real, filter: Option<Record -> Filtered<Record>>): (s: Schedule)
    ensures |s.data| == |records| && |s.events| <= |records|
    ensures forall x :: x in s.events ==> x in s.data
  {
    var touched := Touch(records, time, filter);
    var kept := Survivors(touched, EqualsTrue);
    assert forall x :: x in StableSort.Sort(kept, RecordTime) ==> x in Items(touched) by {
      forall x | x in StableSort.Sort(kept, RecordTime) ensures x in Items(touched) {
        SortMembers(kept, x);
        var i :| 0 <= i < |touched| && touched[i].item == x && !EqualsTrue(touched[i].verdict);
        assert Items(touched)[i] == x;
      }
    }
    Schedule(Items(touched), StableSort.Sort(kept, RecordTime))
  }

  /** The new queue is in time order, holds exactly the records the filter
      did not delete (as many times as they occur), keeps records with
      equal times in load order, and does not depend on the old queue. */
  lemma SequencerLoadMeaning(records: seq<Record>, time: real, filter: Option<Record -> Filtered<Record>>, k: real)
    ensures var s := SequencerLoad(records, time, filter);
      var kept := Survivors(Touch(records, time, filter), EqualsTrue);
      && StableSort.SortedBy(s.events, RecordTime)
      && multiset(s.events) == multiset(kept)
      && StableSort.WithKey(s.events, RecordTime, k) == StableSort.WithKey(kept, RecordTime, k)
  {
    var kept := Survivors(Touch(records, time, filter), EqualsTrue);
    StableSort.SortIsSorted(kept, RecordTime);
    StableSort.SortIsPermutation(kept, RecordTime);
    StableSort.SortIsStable(kept, RecordTime, k);
  }

  /** A record is queued exactly when some loaded record, offset and
      filtered, became it without a `True` verdict. */
  lemma SequencerLoadMembers(records: seq<Record>, time: real, filter: Option<Record -> Filtered<Record>>, x: Record)
    ensures var touched := Touch(records, time, filter);
      x in SequencerLoad(records, time, filter).events <==>
        exists i :: 0 <= i < |records| && touched[i].item == x && !EqualsTrue(touched[i].verdict)
  {
    var touched := Touch(records, time, filter);
    var kept := Survivors(touched, EqualsTrue);
    SortMembers(kept, x);
    if i :| 0 <= i < |records| && touched[i].item == x && !EqualsTrue(touched[i].verdict) {
      SurvivorsKeep(touched, EqualsTrue, i);
    }
  }

  lemma SortMembers(s: seq<Record>, x: Record)
    ensures x in StableSort.Sort(s, RecordTime) <==> x in s
  {
    StableSort.SortIsPermutation(s, RecordTime);
    assert x in StableSort.Sort(s, RecordTime) <==> x in multiset(StableSort.Sort(s, RecordTime));
    assert x in s <==> x in multiset(s);
  }

  /** Without a filter every record is queued, offset by the time: `data`
      is the offset records and the queue is their stable sort. */
  lemma SequencerLoadUnfiltered(records: seq<Record>, time: real)
    ensures var s := SequencerLoad(records, time, None);
      && |s.data| == |records|
      && (forall i :: 0 <= i < |records| ==> s.data[i] == records[i].(t := records[i].t + time))
      && s.events == StableSort.Sort(s.data, RecordTime)
  {
    var touched := Touch(records, time, None);
    SurvivorsAll(touched, EqualsTrue);
    assert Survivors(touched, EqualsTrue) == Items(touched);
  }

  // ---------------------------------------------------------------------
  // generate
  // ---------------------------------------------------------------------

  /** Python's `int(x)` on a float: truncation toward zero. */
  function Trunc(x: real): (n: int)
    ensures x >= 0.0 ==> n as real <= x < n as real + 1.0
    ensures x < 0.0 ==> n as real - 1.0 < x <= n as real
  {
    if x >= 0.0 then x.Floor else -((-x).Floor)
  }

  /** The frames `generate` renders for a slice of `delta` seconds:
      `int(delta * samplerate + 0.999)`. */
  function FrameCount(delta: real, samplerate: int): (f: int)
    /* For a non-negative duration the count rounds up, except that a
       remainder below a thousandth of a frame is dropped. */
    ensures delta * samplerate as real >= 0.0 ==>
      f >= 0 && f as real - 0.999 <= delta * samplerate as real < f as real + 0.001
  {
    Trunc(delta * samplerate as real + 0.999)
  }

  /** One pass of the loop: where it starts (in frames), the seconds it was
      allowed to advance, the frames it rendered and the view it rendered into. */
  datatype Slice = Slice(start: int, delta: real, frames: int, view: ByteView)

  /** The state after `generate`, what it returned or raised, and its passes. */
  datatype Generated = Generated(registry: Registry, clock: Option<Clock>, result: Result<ByteView>, slices: seq<Slice>)

  /** The sequencer callback, if any: `process(delta)` on the clock; without
      one, time may advance by the whole `delta`. */
  function Callback(send: Sender, reg: Registry, clock: Option<Clock>, delta: real): (p: Processed)
    requires clock.Some?
  {
    Process(send, reg, clock.value, delta)
  }

  lemma {:induction false} RealDivMul(a: real, b: real)
    requires b != 0.0
    ensures (a / b) * b == a
  {
  }

  lemma {:induction false} RealMulMono(a: real, b: real, c: real)
    requires a <= b && c > 0.0
    ensures a * c <= b * c
  {
  }

  /** Part `d` of a slice of `delta0` seconds that is `remaining` frames
      long renders between none and all of them, and none only when `d`
      falls short of the whole slice. */
  lemma {:induction false} FramesOfPart(d: real, delta0: real, samplerate: int, remaining: int)
    requires samplerate > 0 && remaining > 0 && delta0 * samplerate as real == remaining as real
    requires 0.0 <= d <= delta0
    ensures 0 <= FrameCount(d, samplerate) <= remaining
    ensures FrameCount(d, samplerate) == 0 ==> d < delta0
  {
    RealMulMono(d, delta0, samplerate as real);
    RealMulMono(0.0, d, samplerate as real);
  }

  /** A slice whose seconds make exactly `remaining` frames renders them all. */
  lemma FramesOfWhole(d: real, samplerate: int, remaining: int)
    requires remaining >= 0 && d * samplerate as real == remaining as real
    ensures FrameCount(d, samplerate) == remaining
  {
    assert d * samplerate as real + 0.999 == remaining as real + 0.999;
  }

  /** One pass makes progress: it renders between one frame and the rest,
      or it renders nothing and the sequencer's pending work dropped. */
  lemma StepProgress(send: Sender, reg: Registry, clock: Option<Clock>, samplerate: int, remaining: int)
    requires remaining > 0 && samplerate != 0
    ensures var delta0 := remaining as real / samplerate as real;
      var r := if clock.None? then Ok(delta0) else Callback(send, reg, clock, delta0).result;
      var next := if clock.None? then None else Some(Callback(send, reg, clock, delta0).clock);
      r.Ok? ==>
        var frames := FrameCount(Min(r.value, delta0), samplerate);
        && 0 <= frames <= remaining
        && (frames == 0 ==> Pending(next) < Pending(clock))
  {
    var delta0 := remaining as real / samplerate as real;
    RealDivMul(remaining as real, samplerate as real);
    var r := if clock.None? then Ok(delta0) else Callback(send, reg, clock, delta0).result;
    if clock.Some? {
      ProcessRange(send, reg, clock.value, delta0);
      ProcessPending(send, reg, clock.value, delta0);
    }
    if r.Ok? {
      if samplerate > 0 {
        assert delta0 > 0.0;
        assert Min(r.value, delta0) == r.value;
        FramesOfPart(r.value, delta0, samplerate, remaining);
      } else {
        assert delta0 < 0.0;
        assert Min(r.value, delta0) == delta0;
        FramesOfWhole(delta0, samplerate, remaining);
      }
    }
  }

  /** One pass of `generate`'s loop, and where it stopped: the pass raised
      before rendering (no slice), the render raised (a slice), or the pass
      completed (a slice and no error). */
  datatype Pass = Pass(registry: Registry, clock: Option<Clock>, error: Option<Error>, slice: Option<Slice>)

  /** One pass of `generate`'s loop at frame `generated` of a request for
      `samples` frames: compute the duration of the frames still to do (a
      zero samplerate raises `ZeroDivisionError` here), ask the sequencer
      how far time may advance, at most that, and render that many frames,
      rounded as `FrameCount` does, into the next part of the buffer. */
  function NextPass(send: Sender, samplerate: int, samples: int, buffer: ByteView,
                    reg: Registry, clock: Option<Clock>, generated: int): Pass
  {
    if samplerate == 0 then Pass(reg, clock, Some(ZeroDivisionError), None)
    else
      var delta0 := (samples - generated) as real / samplerate as real;
      var step := if clock.None? then Processed(reg, Clock(0.0, []), Ok(delta0)) else Callback(send, reg, clock, delta0);
      var next := if clock.None? then None else Some(step.clock);
      if step.result.Err? then Pass(step.registry, next, Some(step.result.error), None)
      else
        var delta := Min(step.result.value, delta0);
        var frames := FrameCount(delta, samplerate);
        var view := PySlice(buffer, generated * FRAME_BYTES, generated * FRAME_BYTES + frames * FRAME_BYTES);
        var rendered := GenerateSimple(step.registry, frames, Some(view));
        Pass(rendered.registry, next, if rendered.result.Err? then Some(rendered.result.error) else None,
             Some(Slice(generated, delta, frames, view)))
  }

  /** A pass from the state of the loop and the frames done so far. The
      loop below is stated for any pass; `generate`'s own is `NextPass`. */
  type PassFn = (Registry, Option<Clock>, int) -> Pass

  function PassVia(send: Sender, samplerate: int, samples: int, buffer: ByteView): PassFn {
    (reg: Registry, clock: Option<Clock>, generated: int) => NextPass(send, samplerate, samples, buffer, reg, clock, generated)
  }

  /** A pass at frame `generated` makes progress: it starts there and
      renders between none and all of the frames left, and it renders none
      only when the sequencer's pending work drops. It keeps the sequencer
      attached or absent. */
  predicate Progresses(p: Pass, clock: Option<Clock>, generated: int, samples: int) {
    && (p.slice.None? ==> p.error.Some?)
    && p.clock.Some? == clock.Some?
    && (p.slice.Some? ==>
          && p.slice.value.start == generated
          && 0 <= p.slice.value.frames <= samples - generated
          && (p.slice.value.frames == 0 ==> Pending(p.clock) < Pending(clock)))
  }

  ghost predicate Progressive(pass: PassFn, samples: int) {
    forall reg: Registry, clock: Option<Clock>, generated: int :: generated < samples ==>
      Progresses(pass(reg, clock, generated), clock, generated, samples)
  }

  /** A pass renders its seconds rounded as `FrameCount` does and, with a
      sequencer attached, advances the sequencer's time by those seconds. */
  predicate PassTimed(p: Pass, clock: Option<Clock>, samplerate: int) {
    p.slice.Some? ==>
      && p.slice.value.frames == FrameCount(p.slice.value.delta, samplerate)
      && (clock.Some? && p.clock.Some? ==> p.clock.value.time == clock.value.time + p.slice.value.delta)
  }

  ghost predicate Timed(pass: PassFn, samplerate: int) {
    forall reg: Registry, clock: Option<Clock>, generated: int :: PassTimed(pass(reg, clock, generated), clock, samplerate)
  }

  /** A pass renders into the bytes of its own frames of `buffer`. */
  predicate PassPlaced(p: Pass, buffer: ByteView) {
    p.slice.Some? ==>
      && p.slice.value.view.start == buffer.start + p.slice.value.start * FRAME_BYTES
      && p.slice.value.view.length == p.slice.value.frames * FRAME_BYTES
  }

  ghost predicate Placing(pass: PassFn, samples: int, buffer: ByteView) {
    forall reg: Registry, clock: Option<Clock>, generated: int :: 0 <= generated < samples ==>
      PassPlaced(pass(reg, clock, generated), buffer)
  }

  lemma NextPassProgresses(send: Sender, samplerate: int, samples: int, buffer: ByteView,
                           reg: Registry, clock: Option<Clock>, generated: int)
    requires generated < samples
    ensures Progresses(NextPass(send, samplerate, samples, buffer, reg, clock, generated), clock, generated, samples)
  {
    if samplerate != 0 {
      StepProgress(send, reg, clock, samplerate, samples - generated);
    }
  }

  lemma NextPassTimed(send: Sender, samplerate: int, samples: int, buffer: ByteView,
                      reg: Registry, clock: Option<Clock>, generated: int)
    ensures PassTimed(NextPass(send, samplerate, samples, buffer, reg, clock, generated), clock, samplerate)
  {
    if samplerate != 0 && clock.Some? {
      var delta0 := (samples - generated) as real / samplerate as real;
      var step := Callback(send, reg, clock, delta0);
      ProcessRange(send, reg, clock.value, delta0);
      if step.result.Ok? {
        assert Min(step.result.value, delta0) == step.result.value;
      }
    }
  }

  lemma NextPassPlaced(send: Sender, samplerate: int, samples: int, buffer: ByteView,
                       reg: Registry, clock: Option<Clock>, generated: int)
    requires 0 <= generated < samples && buffer.length >= samples * FRAME_BYTES
    ensures PassPlaced(NextPass(send, samplerate, samples, buffer, reg, clock, generated), buffer)
  {
    NextPassProgresses(send, samplerate, samples, buffer, reg, clock, generated);
  }

  /** `generate`'s own pass makes progress. */
  lemma PassViaProgressive(send: Sender, samplerate: int, samples: int, buffer: ByteView)
    ensures Progressive(PassVia(send, samplerate, samples, buffer), samples)
  {
    var pass := PassVia(send, samplerate, samples, buffer);
    forall reg: Registry, clock: Option<Clock>, generated: int | generated < samples
      ensures Progresses(pass(reg, clock, generated), clock, generated, samples)
    {
      NextPassProgresses(send, samplerate, samples, buffer, reg, clock, generated);
    }
  }

  /** `generate`'s own pass makes progress, is timed and, in a buffer with
      room for the whole request, is placed. */
  lemma PassViaFacts(send: Sender, samplerate: int, samples: int, buffer: ByteView)
    ensures Progressive(PassVia(send, samplerate, samples, buffer), samples)
    ensures Timed(PassVia(send, samplerate, samples, buffer), samplerate)
    ensures buffer.length >= samples * FRAME_BYTES ==> Placing(PassVia(send, samplerate, samples, buffer), samples, buffer)
  {
    var pass := PassVia(send, samplerate, samples, buffer);
    PassViaProgressive(send, samplerate, samples, buffer);
    forall reg: Registry, clock: Option<Clock>, generated: int
      ensures PassTimed(pass(reg, clock, generated), clock, samplerate)
    {
      NextPassTimed(send, samplerate, samples, buffer, reg, clock, generated);
    }
    if buffer.length >= samples * FRAME_BYTES {
      forall reg: Registry, clock: Option<Clock>, generated: int | 0 <= generated < samples
        ensures PassPlaced(pass(reg, clock, generated), buffer)
      {
        NextPassPlaced(send, samplerate, samples, buffer, reg, clock, generated);
      }
    }
  }

  /** `generate`'s loop from `generated` frames on, pass after pass until
      `samples` frames are done or a pass raises. */
  function GenerateLoop(pass: PassFn, reg: Registry, clock: Option<Clock>, samples: int,
                        generated: int, buffer: ByteView): (g: Generated)
    requires Progressive(pass, samples)
    ensures g.result.Ok? ==> g.result.value == buffer
    decreases if generated < samples then samples - generated else 0, Pending(clock)
  {
    if generated >= samples then Generated(reg, clock, Ok(buffer), [])
    else
      var p := pass(reg, clock, generated);
      assert Progresses(p, clock, generated, samples);
      if p.slice.None? then Generated(p.registry, p.clock, Err(p.error.value), [])
      else if p.error.Some? then Generated(p.registry, p.clock, Err(p.error.value), [p.slice.value])
      else
        var rest := GenerateLoop(pass, p.registry, p.clock, samples, generated + p.slice.value.frames, buffer);
        rest.(slices := [p.slice.value] + rest.slices)
  }

  /** What the loop leaves and returns, without the record of its passes. */
  function Ending(g: Generated): (e: Generated)
    ensures e.registry == g.registry && e.clock == g.clock && e.result == g.result && e.slices == []
  {
    g.(slices := [])
  }

  /** One step of the loop: a pass that raises ends it with the pass's
      state and error; a pass that completes leaves the rest of the loop
      to run from the frames it reached. */
  lemma LoopStep(pass: PassFn, reg: Registry, clock: Option<Clock>, samples: int, generated: int, buffer: ByteView)
    requires Progressive(pass, samples) && generated < samples
    ensures var p := pass(reg, clock, generated);
      var e := Ending(GenerateLoop(pass, reg, clock, samples, generated, buffer));
      && Progresses(p, clock, generated, samples)
      && (p.error.Some? ==> e == Generated(p.registry, p.clock, Err(p.error.value), []))
      && (p.error.None? ==>
            e == Ending(GenerateLoop(pass, p.registry, p.clock, samples, generated + p.slice.value.frames, buffer)))
  {
    var p := pass(reg, clock, generated);
    assert Progresses(p, clock, generated, samples);
  }

  /** A pass that completes leaves the rest of the loop to run from the
      state it reached and the frames it rendered. */
  lemma LoopAdvance(pass: PassFn, reg: Registry, clock: Option<Clock>, samples: int, generated: int,
                    buffer: ByteView, p: Pass, g0: Generated)
    requires Progressive(pass, samples) && generated < samples
    requires p == pass(reg, clock, generated) && p.error.None?
    requires Ending(GenerateLoop(pass, reg, clock, samples, generated, buffer)) == g0
    ensures p.slice.Some?
    ensures Ending(GenerateLoop(pass, p.registry, p.clock, samples, generated + p.slice.value.frames, buffer)) == g0
  {
    LoopStep(pass, reg, clock, samples, generated, buffer);
  }

  /** `pass` is `generate`'s own pass, stated pass by pass. */
  ghost predicate Agrees(pass: PassFn, send: Sender, samplerate: int, samples: int, buffer: ByteView) {
    forall reg: Registry, clock: Option<Clock>, generated: int
      {:trigger NextPass(send, samplerate, samples, buffer, reg, clock, generated)} ::
      pass(reg, clock, generated) == NextPass(send, samplerate, samples, buffer, reg, clock, generated)
  }

  lemma PassWitness(send: Sender, samplerate: int, samples: int, buffer: ByteView)
    ensures exists pass :: Progressive(pass, samples) && Agrees(pass, send, samplerate, samples, buffer)
  {
    var pass := PassVia(send, samplerate, samples, buffer);
    PassViaProgressive(send, samplerate, samples, buffer);
    assert Agrees(pass, send, samplerate, samples, buffer);
  }

  /** Loops over passes that agree at every point are the same loop. */
  lemma {:induction false} LoopsAgree(pass1: PassFn, pass2: PassFn, reg: Registry, clock: Option<Clock>,
                                      samples: int, generated: int, buffer: ByteView)
    requires Progressive(pass1, samples) && Progressive(pass2, samples)
    requires forall r: Registry, c: Option<Clock>, g: int :: pass1(r, c, g) == pass2(r, c, g)
    ensures GenerateLoop(pass1, reg, clock, samples, generated, buffer)
         == GenerateLoop(pass2, reg, clock, samples, generated, buffer)
    decreases if generated < samples then samples - generated else 0, Pending(clock)
  {
    if generated < samples {
      var p := pass1(reg, clock, generated);
      assert Progresses(p, clock, generated, samples);
      if p.slice.Some? && p.error.None? {
        LoopsAgree(pass1, pass2, p.registry, p.clock, samples, generated + p.slice.value.frames, buffer);
      }
    }
  }

  /** The loop over a pass that agrees with `generate`'s own is `generate`'s loop. */
  lemma LoopAgrees(pass: PassFn, send: Sender, samplerate: int, samples: int, buffer: ByteView,
                   reg: Registry, clock: Option<Clock>)
    requires Progressive(pass, samples) && Agrees(pass, send, samplerate, samples, buffer)
    ensures Ending(GenerateLoop(pass, reg, clock, samples, 0, buffer))
         == Ending(Generate(send, reg, clock, samplerate, samples, Some(buffer)))
  {
    var own := PassVia(send, samplerate, samples, buffer);
    PassViaProgressive(send, samplerate, samples, buffer);
    forall r: Registry, c: Option<Clock>, g: int ensures pass(r, c, g) == own(r, c, g) {
      assert pass(r, c, g) == NextPass(send, samplerate, samples, buffer, r, c, g);
    }
    LoopsAgree(pass, own, reg, clock, samples, 0, buffer);
  }

  /** `Synth.generate(samples, buffer)`: a missing buffer is allocated with
      room for `samples` stereo frames (a negative size raises
      `ValueError`), and the loop fills it from frame 0. */
  function Generate(send: Sender, reg: Registry, clock: Option<Clock>, samplerate: int,
                    samples: int, buffer: Option<ByteView>): (g: Generated)
    ensures g.result.Ok? && buffer.Some? ==> g.result.value == buffer.value
    ensures g.result.Ok? && buffer.None? ==> samples >= 0 && g.result.value == ByteView(0, samples * FRAME_BYTES)
  {
    if buffer.None? && samples < 0 then Generated(reg, clock, Err(ValueError("negative count")), [])
    else
      var view := if buffer.Some? then buffer.value else ByteView(0, samples * FRAME_BYTES);
      PassViaProgressive(send, samplerate, samples, view);
      GenerateLoop(PassVia(send, samplerate, samples, view), reg, clock, samples, 0, view)
  }

  /** The frames of a run of passes. */
  function TotalFrames(slices: seq<Slice>): int {
    if slices == [] then 0 else slices[0].frames + TotalFrames(slices[1..])
  }

  /** The seconds of a run of passes. */
  function TotalDelta(slices: seq<Slice>): real {
    if slices == [] then 0.0 else slices[0].delta + TotalDelta(slices[1..])
  }

  /** The passes follow one another from frame `from`: each starts where
      the previous one ended. */
  predicate Contiguous(slices: seq<Slice>, from: int) {
    slices == [] || (slices[0].start == from && Contiguous(slices[1..], from + slices[0].frames))
  }

  /** Every pass renders no more frames than are left after its start. */
  predicate WithinRequest(slices: seq<Slice>, samples: int) {
    slices == [] || (0 <= slices[0].frames <= samples - slices[0].start && WithinRequest(slices[1..], samples))
  }

  /** Every pass renders its seconds rounded as `FrameCount` does. */
  predicate Rounded(slices: seq<Slice>, samplerate: int) {
    slices == [] || (slices[0].frames == FrameCount(slices[0].delta, samplerate) && Rounded(slices[1..], samplerate))
  }

  /** Every pass renders into the bytes of its own frames of `buffer`. */
  predicate Placed(slices: seq<Slice>, buffer: ByteView) {
    slices == []
    || (&& slices[0].view.start == buffer.start + slices[0].start * FRAME_BYTES
        && slices[0].view.length == slices[0].frames * FRAME_BYTES
        && Placed(slices[1..], buffer))
  }

  /** Contiguous passes, pass by pass: pass `i` starts after the frames of
      all passes before it. */
  lemma {:induction false} ContiguousAt(slices: seq<Slice>, from: int, i: nat)
    requires Contiguous(slices, from) && i < |slices|
    ensures slices[i].start == from + TotalFrames(slices[..i])
  {
    if i == 0 {
      assert slices[..0] == [];
    } else {
      ContiguousAt(slices[1..], from + slices[0].frames, i - 1);
      TotalFramesPrefix(slices, i);
      assert slices[1..][i - 1] == slices[i];
    }
  }

  /** The other passes' properties, pass by pass. */
  lemma {:induction false} PassesAt(slices: seq<Slice>, samples: int, samplerate: int, buffer: ByteView, i: nat)
    requires i < |slices|
    ensures WithinRequest(slices, samples) ==> 0 <= slices[i].frames <= samples - slices[i].start
    ensures Rounded(slices, samplerate) ==> slices[i].frames == FrameCount(slices[i].delta, samplerate)
    ensures Placed(slices, buffer) ==>
      && slices[i].view.start == buffer.start + slices[i].start * FRAME_BYTES
      && slices[i].view.length == slices[i].frames * FRAME_BYTES
  {
    if i > 0 {
      PassesAt(slices[1..], samples, samplerate, buffer, i - 1);
      assert slices[1..][i - 1] == slices[i];
    }
  }

  lemma {:induction false} TotalFramesPrefix(slices: seq<Slice>, i: nat)
    requires 0 < i <= |slices|
    ensures TotalFrames(slices[..i]) == slices[0].frames + TotalFrames(slices[1..][..i - 1])
  {
    assert slices[..i][1..] == slices[1..][..i - 1];
  }

  /** The passes tile the frames from `from` to `samples` without gap or
      overlap, each within the frames still left. */
  predicate Tiled(slices: seq<Slice>, from: int, samples: int) {
    && TotalFrames(slices) == samples - from
    && Contiguous(slices, from)
    && WithinRequest(slices, samples)
  }

  /** When `generate` completes, its passes tile the request from `from`. */
  predicate TiledIfOk(g: Generated, from: int, samples: int) {
    g.result.Ok? ==> Tiled(g.slices, from, samples)
  }

  /** A pass at `from` within the request, followed by passes that tile the
      rest, tiles the request from `from`. */
  lemma TiledStep(g: Generated, sl: Slice, rest: Generated, from: int, samples: int)
    requires g == rest.(slices := [sl] + rest.slices)
    requires sl.start == from && 0 <= sl.frames <= samples - from
    requires TiledIfOk(rest, from + sl.frames, samples)
    ensures TiledIfOk(g, from, samples)
  {
    assert ([sl] + rest.slices)[1..] == rest.slices;
  }

  /** A completed loop fills the buffer exactly: its passes tile the
      frames from `generated` to `samples` without gap or overlap, each
      within the frames still left. */
  lemma {:induction false} LoopTiles(pass: PassFn, reg: Registry, clock: Option<Clock>, samples: int,
                                     generated: int, buffer: ByteView)
    requires Progressive(pass, samples) && generated <= samples
    ensures TiledIfOk(GenerateLoop(pass, reg, clock, samples, generated, buffer), generated, samples)
    decreases samples - generated, Pending(clock)
  {
    var g := GenerateLoop(pass, reg, clock, samples, generated, buffer);
    if generated < samples && g.result.Ok? {
      var p := pass(reg, clock, generated);
      assert Progresses(p, clock, generated, samples);
      assert p.slice.Some? && p.error.None?;
      var sl := p.slice.value;
      var rest := GenerateLoop(pass, p.registry, p.clock, samples, generated + sl.frames, buffer);
      assert g == rest.(slices := [sl] + rest.slices);
      LoopTiles(pass, p.registry, p.clock, samples, generated + sl.frames, buffer);
      TiledStep(g, sl, rest, generated, samples);
    }
  }

  /** When the loop completes with a sequencer attached, the sequencer's
      time has advanced by the seconds of all passes, each rounded as
      `FrameCount` does. */
  predicate ClockedIfOk(g: Generated, clock: Clock, samplerate: int) {
    g.result.Ok? ==>
      && g.clock.Some?
      && g.clock.value.time == clock.time + TotalDelta(g.slices)
      && Rounded(g.slices, samplerate)
  }

  lemma ClockedStep(g: Generated, sl: Slice, rest: Generated, clock: Clock, next: Clock, samplerate: int)
    requires g == rest.(slices := [sl] + rest.slices)
    requires next.time == clock.time + sl.delta && sl.frames == FrameCount(sl.delta, samplerate)
    requires ClockedIfOk(rest, next, samplerate)
    ensures ClockedIfOk(g, clock, samplerate)
  {
    assert ([sl] + rest.slices)[1..] == rest.slices;
  }

  lemma {:induction false} LoopClock(pass: PassFn, reg: Registry, clock: Option<Clock>, samplerate: int,
                                     samples: int, generated: int, buffer: ByteView)
    requires Progressive(pass, samples) && Timed(pass, samplerate)
    requires clock.Some? && generated <= samples
    ensures ClockedIfOk(GenerateLoop(pass, reg, clock, samples, generated, buffer), clock.value, samplerate)
    decreases samples - generated, Pending(clock)
  {
    var g := GenerateLoop(pass, reg, clock, samples, generated, buffer);
    if generated < samples && g.result.Ok? {
      var p := pass(reg, clock, generated);
      assert Progresses(p, clock, generated, samples);
      assert PassTimed(p, clock, samplerate);
      assert p.slice.Some? && p.error.None?;
      var sl := p.slice.value;
      var rest := GenerateLoop(pass, p.registry, p.clock, samples, generated + sl.frames, buffer);
      assert g == rest.(slices := [sl] + rest.slices);
      LoopClock(pass, p.registry, p.clock, samplerate, samples, generated + sl.frames, buffer);
      ClockedStep(g, sl, rest, clock.value, p.clock.value, samplerate);
    }
  }

  lemma PlacedStep(slices: seq<Slice>, sl: Slice, rest: seq<Slice>, buffer: ByteView)
    requires slices == [sl] + rest
    requires sl.view.start == buffer.start + sl.start * FRAME_BYTES && sl.view.length == sl.frames * FRAME_BYTES
    requires Placed(rest, buffer)
    ensures Placed(slices, buffer)
  {
    assert slices[1..] == rest;
  }

  /** Every pass of the loop, including one whose render raised, renders
      into the bytes of its own frames of the buffer. */
  lemma {:induction false} LoopOffsets(pass: PassFn, reg: Registry, clock: Option<Clock>, samples: int,
                                       generated: int, buffer: ByteView)
    requires Progressive(pass, samples) && Placing(pass, samples, buffer)
    requires 0 <= generated <= samples
    ensures Placed(GenerateLoop(pass, reg, clock, samples, generated, buffer).slices, buffer)
    decreases samples - generated, Pending(clock)
  {
    var g := GenerateLoop(pass, reg, clock, samples, generated, buffer);
    if generated < samples {
      var p := pass(reg, clock, generated);
      assert Progresses(p, clock, generated, samples);
      assert PassPlaced(p, buffer);
      if p.slice.Some? {
        var sl := p.slice.value;
        if p.error.None? {
          var rest := GenerateLoop(pass, p.registry, p.clock, samples, generated + sl.frames, buffer);
          assert g == rest.(slices := [sl] + rest.slices);
          LoopOffsets(pass, p.registry, p.clock, samples, generated + sl.frames, buffer);
          PlacedStep(g.slices, sl, rest.slices, buffer);
        } else {
          PlacedStep(g.slices, sl, [], buffer);
        }
      }
    }
  }

  /** What a completed `generate` of a non-negative number of frames did:
      it returns the buffer, fresh or given; its passes tile the frames of
      the request; with a sequencer attached, the sequencer's time advanced
      by exactly the seconds rendered, each pass rounded as `FrameCount`
      does; and when the buffer holds the request, in particular when it is
      fresh, every pass rendered into the bytes of its own frames. */
  lemma GenerateMeaning(send: Sender, reg: Registry, clock: Option<Clock>, samplerate: int,
                        samples: int, buffer: Option<ByteView>)
    requires samples >= 0
    ensures var g := Generate(send, reg, clock, samplerate, samples, buffer);
      var view := if buffer.Some? then buffer.value else ByteView(0, samples * FRAME_BYTES);
      && (g.result.Ok? ==> g.result.value == view)
      && TiledIfOk(g, 0, samples)
      && (clock.Some? ==> ClockedIfOk(g, clock.value, samplerate))
      && (view.length >= samples * FRAME_BYTES ==> Placed(g.slices, view))
  {
    var view := if buffer.Some? then buffer.value else ByteView(0, samples * FRAME_BYTES);
    var pass := PassVia(send, samplerate, samples, view);
    PassViaFacts(send, samplerate, samples, view);
    LoopTiles(pass, reg, clock, samples, 0, view);
    if clock.Some? {
      LoopClock(pass, reg, clock, samplerate, samples, 0, view);
    }
    if view.length >= samples * FRAME_BYTES {
      LoopOffsets(pass, reg, clock, samples, 0, view);
    }
  }

  /** Without a sequencer, at a positive samplerate, the whole request is
      rendered in one pass. */
  lemma GenerateWithoutCallback(send: Sender, reg: Registry, samplerate: int, samples: int, buffer: ByteView)
    requires samplerate > 0 && samples > 0
    ensures var g := Generate(send, reg, None, samplerate, samples, Some(buffer));
      |g.slices| == 1 && g.slices[0].start == 0 && g.slices[0].frames == samples
  {
    var delta0 := samples as real / samplerate as real;
    RealDivMul(samples as real, samplerate as real);
    FramesOfWhole(delta0, samplerate, samples);
    var pass := PassVia(send, samplerate, samples, buffer);
    PassViaFacts(send, samplerate, samples, buffer);
    var p := pass(reg, None, 0);
    assert p == NextPass(send, samplerate, samples, buffer, reg, None, 0);
    assert p.slice.Some? && p.slice.value.frames == samples;
    var g := GenerateLoop(pass, reg, None, samples, 0, buffer);
    assert Generate(send, reg, None, samplerate, samples, Some(buffer)) == g;
    if p.error.None? {
      var rest := GenerateLoop(pass, p.registry, p.clock, samples, samples, buffer);
      assert rest.slices == [];
      assert g.slices == [p.slice.value] + rest.slices;
    }
  }

  /** A zero samplerate raises `ZeroDivisionError` as soon as there is
      anything to render, before the sequencer is asked or anything is
      rendered. */
  lemma GenerateZeroSamplerate(send: Sender, reg: Registry, clock: Option<Clock>, samples: int, buffer: Option<ByteView>)
    requires samples > 0
    ensures Generate(send, reg, clock, 0, samples, buffer) == Generated(reg, clock, Err(ZeroDivisionError), [])
  {
    var view := if buffer.Some? then buffer.value else ByteView(0, samples * FRAME_BYTES);
    assert PassVia(send, 0, samples, view)(reg, clock, 0) == Pass(reg, clock, Some(ZeroDivisionError), None);
  }

  /** A request for no frames or a negative number of them renders nothing
      and leaves the sequencer alone: with a buffer it is returned as it
      is, without one the allocation raises `ValueError` when the count is
      negative. */
  lemma GenerateNothing(send: Sender, reg: Registry, clock: Option<Clock>, samplerate: int,
                        samples: int, buffer: Option<ByteView>)
    requires samples <= 0
    ensures var g := Generate(send, reg, clock, samplerate, samples, buffer);
      && g.registry == reg && g.clock == clock && g.slices == []
      && (buffer.Some? ==> g.result == Ok(buffer.value))
      && (buffer.None? ==> g.result == if samples < 0 then Err(ValueError("negative count")) else Ok(ByteView(0, 0)))
  {
  }
}
