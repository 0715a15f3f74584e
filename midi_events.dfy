/** The typed event layer: the closed sum of the five actions the
    synthesizer understands, the `Event` record, the conversion of a record
    dictionary into an event, and `load_memory`, which converts, offsets,
    stamps, filters and stably sorts a whole decoded file. */
module MidiEvents {
  import opened Common
  import opened Native
  import StableSort

  /** The five actions, with the dataclasses' defaults. */
  datatype Action =
    | NoteOn(key: int, velocity: int := 0)
    | NoteOff(key: int)
    | ControlChange(control: int, controlValue: int)
    | ProgramChange(program: int)
    | PitchBend(pitchBend: int := 8192)

  /** An event: an action at absolute time `t` on a channel. */
  datatype Event = Event(action: Action, t: real := 0.0, channel: int := 0, persistent: bool := true)

  function TimeOf(e: Event): real { e.t }

  /** The message types that have an action. */
  predicate Supported(kind: int) {
    kind in {NOTE_ON, NOTE_OFF, CONTROL_CHANGE, PROGRAM_CHANGE, PITCH_BEND}
  }

  /** Whether a record asks for a persistent event: it has the key and its
      value is not `None`. */
  predicate Persistent(item: Record) {
    item.persistent.Some? && item.persistent.value != NoneValue
  }

  /** `event_from_dict`: the event of a record, `None` for a type without an
      action, or the `KeyError` of the first payload key its type reads
      that the record lacks. */
  function EventFromDict(item: Record): (r: Result<Option<Event>>)
    ensures r.Ok? && r.value.Some? ==>
      && Supported(item.kind)
      && r.value.value.t == item.t && r.value.value.channel == item.channel
      && r.value.value.persistent == Persistent(item)
    ensures !Supported(item.kind) ==> r == Ok(None)
    ensures r.Err? ==> r.error.KeyError?
    ensures item.kind == NOTE_ON ==>
      && (r.Ok? <==> Field(item, "key").Ok? && Field(item, "velocity").Ok?)
      && (r.Ok? ==> r.value == Some(Event(NoteOn(Field(item, "key").value, Field(item, "velocity").value),
                                          item.t, item.channel, Persistent(item))))
      && (r.Err? ==> r.error == KeyError(if Field(item, "key").Err? then "key" else "velocity"))
    ensures item.kind == NOTE_OFF ==>
      && (r.Ok? <==> Field(item, "key").Ok?)
      && (r.Ok? ==> r.value == Some(Event(NoteOff(Field(item, "key").value), item.t, item.channel, Persistent(item))))
      && (r.Err? ==> r.error == KeyError("key"))
    ensures item.kind == CONTROL_CHANGE ==>
      && (r.Ok? <==> Field(item, "control").Ok? && Field(item, "control_value").Ok?)
      && (r.Ok? ==> r.value == Some(Event(ControlChange(Field(item, "control").value, Field(item, "control_value").value),
                                          item.t, item.channel, Persistent(item))))
      && (r.Err? ==> r.error == KeyError(if Field(item, "control").Err? then "control" else "control_value"))
    ensures item.kind == PROGRAM_CHANGE ==>
      && (r.Ok? <==> Field(item, "program").Ok?)
      && (r.Ok? ==> r.value == Some(Event(ProgramChange(Field(item, "program").value), item.t, item.channel, Persistent(item))))
      && (r.Err? ==> r.error == KeyError("program"))
    ensures item.kind == PITCH_BEND ==>
      && (r.Ok? <==> Field(item, "pitch_bend").Ok?)
      && (r.Ok? ==> r.value == Some(Event(PitchBend(Field(item, "pitch_bend").value), item.t, item.channel, Persistent(item))))
      && (r.Err? ==> r.error == KeyError("pitch_bend"))
  {
    var persistent := Persistent(item);
    if item.kind == NOTE_ON then
      var key :- Field(item, "key");
      var velocity :- Field(item, "velocity");
      Ok(Some(Event(NoteOn(key, velocity), item.t, item.channel, persistent)))
    else if item.kind == NOTE_OFF then
      var key :- Field(item, "key");
      Ok(Some(Event(NoteOff(key), item.t, item.channel, persistent)))
    else if item.kind == CONTROL_CHANGE then
      var control :- Field(item, "control");
      var value :- Field(item, "control_value");
      Ok(Some(Event(ControlChange(control, value), item.t, item.channel, persistent)))
    else if item.kind == PROGRAM_CHANGE then
      var program :- Field(item, "program");
      Ok(Some(Event(ProgramChange(program), item.t, item.channel, persistent)))
    else if item.kind == PITCH_BEND then
      var bend :- Field(item, "pitch_bend");
      Ok(Some(Event(PitchBend(bend), item.t, item.channel, persistent)))
    else Ok(None)
  }

  /** The action a decoded message of a supported type stands for. */
  function ActionOf(m: Message): Action
    requires Supported(m.kind)
  {
    if m.kind == NOTE_ON then NoteOn(m.key, m.velocity)
    else if m.kind == NOTE_OFF then NoteOff(m.key)
    else if m.kind == CONTROL_CHANGE then ControlChange(m.control, m.controlValue)
    else if m.kind == PROGRAM_CHANGE then ProgramChange(m.program)
    else PitchBend(m.pitchBend)
  }

  /** Converting a record the binding produced never raises: it yields the
      message's action (a note-off drops its velocity) with the message's
      time in seconds and channel, not persistent; key and channel
      pressure, tempo and unknown types yield `None`. */
  lemma EventOfDecodedRecord(m: Message, bpm: Bpm)
    ensures EventFromDict(RecordOf(m, bpm)) ==
      if Supported(m.kind) then Ok(Some(Event(ActionOf(m), m.time as real * 0.001, m.channel, false)))
      else Ok(None)
  {
  }

  /** The events converted from `raw`, skipping the records without an
      action; the first `KeyError` is raised. */
  function Conversions(raw: seq<Record>): (r: Result<seq<Event>>)
    ensures r.Ok? ==> |r.value| <= |raw|
    ensures r.Err? ==> r.error.KeyError?
  {
    if raw == [] then Ok([])
    else
      var init :- Conversions(raw[..|raw| - 1]);
      var last :- EventFromDict(raw[|raw| - 1]);
      if last.None? then Ok(init) else Ok(init + [last.value])
  }

  /** One more record extends the conversions by its event, if it has one. */
  lemma ConversionsSnoc(raw: seq<Record>, i: nat, converted: seq<Event>)
    requires i < |raw| && Conversions(raw[..i]) == Ok(converted)
    ensures EventFromDict(raw[i]).Err? ==> Conversions(raw[..i + 1]) == Err(EventFromDict(raw[i]).error)
    ensures EventFromDict(raw[i]) == Ok(None) ==> Conversions(raw[..i + 1]) == Ok(converted)
    ensures EventFromDict(raw[i]).Ok? && EventFromDict(raw[i]).value.Some? ==>
              Conversions(raw[..i + 1]) == Ok(converted + [EventFromDict(raw[i]).value.value])
  {
    assert raw[..i + 1][..i] == raw[..i];
  }

  /** The conversions of a decoded file never raise. */
  lemma ConversionsOfDecoded(msgs: seq<Message>)
    ensures Conversions(Decoded(msgs)).Ok?
  {
    var raw := Decoded(msgs);
    forall i | 0 <= i < |raw| ensures EventFromDict(raw[i]).Ok? {
      EventOfDecodedRecord(msgs[i], BpmAt(msgs, i));
    }
    ConversionsOk(raw);
  }

  /** Records that each convert convert together. */
  lemma {:induction false} ConversionsOk(raw: seq<Record>)
    requires forall i :: 0 <= i < |raw| ==> EventFromDict(raw[i]).Ok?
    ensures Conversions(raw).Ok?
  {
    if raw != [] {
      var init := raw[..|raw| - 1];
      assert forall i :: 0 <= i < |init| ==> init[i] == raw[i];
      ConversionsOk(init);
    }
  }

  lemma {:induction false} ConversionsPrefixOk(raw: seq<Record>, n: nat)
    requires n <= |raw| && Conversions(raw).Ok?
    ensures Conversions(raw[..n]).Ok?
  {
    if n < |raw| {
      var init := raw[..|raw| - 1];
      assert Conversions(init).Ok?;
      assert init[..n] == raw[..n];
      ConversionsPrefixOk(init, n);
    } else {
      assert raw[..n] == raw;
    }
  }

  /** An event offset by `deltaTime` and stamped with the `persistent` argument. */
  function Stamp(e: Event, deltaTime: real, persistent: bool): (s: Event)
    ensures s.t == e.t + deltaTime && s.persistent == persistent
    ensures s.action == e.action && s.channel == e.channel
  {
    e.(t := e.t + deltaTime, persistent := persistent)
  }

  /** What the filter makes of a stamped event; without a filter nothing is deleted. */
  function Apply(filter: Option<Event -> Filtered<Event>>, e: Event): Filtered<Event> {
    if filter.Some? then filter.value(e) else Filtered(e, NoneValue)
  }

  /** Every event stamped, then handed to the filter, in order. */
  function Touched(es: seq<Event>, deltaTime: real, filter: Option<Event -> Filtered<Event>>, persistent: bool): (r: seq<Filtered<Event>>)
    ensures |r| == |es|
    ensures forall i :: 0 <= i < |es| ==> r[i] == Apply(filter, Stamp(es[i], deltaTime, persistent))
  {
    seq(|es|, i requires 0 <= i < |es| => Apply(filter, Stamp(es[i], deltaTime, persistent)))
  }

  /** What `load_memory` returns for the records `raw`: the events the
      filter does not delete (by truthiness), stably sorted by time. */
  function Loaded(raw: seq<Record>, deltaTime: real, filter: Option<Event -> Filtered<Event>>, persistent: bool): (r: Result<seq<Event>>)
    ensures r.Ok? ==> |r.value| <= |raw|
    ensures r.Err? <==> Conversions(raw).Err?
    ensures r.Err? ==> r.error.KeyError?
  {
    var es :- Conversions(raw);
    Ok(StableSort.Sort(Survivors(Touched(es, deltaTime, filter, persistent), Truthy), TimeOf))
  }

  /** The loaded events are in non-decreasing time order, are exactly the
      events the filter kept, and events at equal times keep their order. */
  lemma LoadedOrder(raw: seq<Record>, deltaTime: real, filter: Option<Event -> Filtered<Event>>, persistent: bool, k: real)
    requires Loaded(raw, deltaTime, filter, persistent).Ok?
    ensures var out := Loaded(raw, deltaTime, filter, persistent).value;
      var kept := Survivors(Touched(Conversions(raw).value, deltaTime, filter, persistent), Truthy);
      && StableSort.SortedBy(out, TimeOf)
      && multiset(out) == multiset(kept)
      && StableSort.WithKey(out, TimeOf, k) == StableSort.WithKey(kept, TimeOf, k)
  {
    var kept := Survivors(Touched(Conversions(raw).value, deltaTime, filter, persistent), Truthy);
    StableSort.SortIsSorted(kept, TimeOf);
    StableSort.SortIsPermutation(kept, TimeOf);
    StableSort.SortIsStable(kept, TimeOf, k);
  }

  /** Without a filter every converted event is kept, offset by `deltaTime`
      and carrying the `persistent` argument. */
  lemma {:induction false} LoadedWithoutFilter(raw: seq<Record>, deltaTime: real, persistent: bool)
    requires Loaded(raw, deltaTime, None, persistent).Ok?
    ensures var es := Conversions(raw).value;
      var out := Loaded(raw, deltaTime, None, persistent).value;
      && multiset(out) == multiset(seq(|es|, i requires 0 <= i < |es| => Stamp(es[i], deltaTime, persistent)))
      && forall e :: e in out ==> e.persistent == persistent
  {
    var es := Conversions(raw).value;
    var touched := Touched(es, deltaTime, None, persistent);
    SurvivorsAll(touched, Truthy);
    var kept := Survivors(touched, Truthy);
    var stamped := seq(|es|, i requires 0 <= i < |es| => Stamp(es[i], deltaTime, persistent));
    assert kept == stamped;
    StableSort.SortIsPermutation(kept, TimeOf);
    var out := Loaded(raw, deltaTime, None, persistent).value;
    forall e | e in out ensures e.persistent == persistent {
      assert e in multiset(out);
      assert e in multiset(stamped);
    }
  }

  /** Handing one more event to the filter extends the survivors by it
      exactly when the filter's verdict is falsy. */
  lemma TouchedSnoc(es: seq<Event>, e: Event, deltaTime: real, filter: Option<Event -> Filtered<Event>>, persistent: bool)
    ensures var f := Apply(filter, Stamp(e, deltaTime, persistent));
      Survivors(Touched(es + [e], deltaTime, filter, persistent), Truthy)
        == Survivors(Touched(es, deltaTime, filter, persistent), Truthy) + (if Truthy(f.verdict) then [] else [f.item])
  {
    var f := Apply(filter, Stamp(e, deltaTime, persistent));
    assert Touched(es + [e], deltaTime, filter, persistent) == Touched(es, deltaTime, filter, persistent) + [f];
    SurvivorsAppend(Touched(es, deltaTime, filter, persistent), [f], Truthy);
  }

  /** `load_memory`: decode, convert each record (skipping those without an
      action), offset and stamp it, let the filter modify or delete it, and
      return the survivors stably sorted by time. */
  method LoadMemory(parsed: Option<seq<Message>>, deltaTime: real := 0.0,
                    filter: Option<Event -> Filtered<Event>> := None, persistent: bool := true)
    returns (r: Result<seq<Event>>)
    ensures parsed.None? ==> r == Err(RuntimeError("Could not load MIDI data"))
    ensures parsed.Some? ==> r == Loaded(Decoded(parsed.value), deltaTime, filter, persistent) && r.Ok?
  {
    var midiData :- Native.MidiLoadMemory(parsed);
    ConversionsOfDecoded(parsed.value);
    var events: seq<Event> := [];
    ghost var converted: seq<Event> := [];
    for i := 0 to |midiData|
      invariant Conversions(midiData[..i]) == Ok(converted)
      invariant events == Survivors(Touched(converted, deltaTime, filter, persistent), Truthy)
    {
      ConversionsPrefixOk(midiData, i + 1);
      ConversionsSnoc(midiData, i, converted);
      var item := EventFromDict(midiData[i]);
      // the binding's records always carry their type's keys
      assert item.Ok?;
      if item.value.None? {
        continue;
      }
      var event := item.value.value;
      TouchedSnoc(converted, event, deltaTime, filter, persistent);
      converted := converted + [event];
      // offset by the time delta and stamp; the filter may modify the
      // event, and a truthy verdict deletes it
      var outcome := Apply(filter, Stamp(event, deltaTime, persistent));
      if !Truthy(outcome.verdict) {
        events := events + [outcome.item];
      }
    }
    assert midiData[..|midiData|] == midiData;
    events := StableSort.Sort(events, TimeOf);
    return Ok(events);
  }
}
