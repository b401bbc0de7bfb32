/** The enter/exit part of julesv1/src/systems/RegionSystem.ts `update`: for
    one subject, a RegionEnter per region it has entered, in the new
    membership's order, then a RegionExit per region it has left, in the old
    membership's order, each published on the level's event bus. */
module RegionEvents {
  import opened Events
  import opened RegionRules
  import opened SeqUtil

  /** The RegionEnter events: one per id of `after` missing from `before`. */
  method EmitEnters(bus: EventBus, id: string, before: seq<string>, after: seq<string>)
    modifies bus`trace
    ensures bus.trace == old(bus.trace) + Dispatch(bus.listeners, EnterNotices(id, Entered(before, after)), Source)
  {
    ghost var listeners := bus.listeners;
    ghost var emitted: seq<Delivery> := [];
    var i := 0;
    while i < |after|
      invariant 0 <= i <= |after|
      invariant bus.trace == old(bus.trace) + emitted
      invariant emitted == Dispatch(listeners, EnterNotices(id, Entered(before, after[..i])), Source)
    {
      EnteredStep(before, after, i);
      if after[i] !in before {
        ghost var d := Deliveries(HandlersIn(listeners, "RegionEnter"), "RegionEnter", RegionChange(id, after[i]), Source);
        EnterNoticesStep(id, Entered(before, after[..i]), after[i]);
        DispatchStep(listeners, EnterNotices(id, Entered(before, after[..i])), Notice("RegionEnter", RegionChange(id, after[i])));
        bus.Emit("RegionEnter", RegionChange(id, after[i]), Source);
        AppendAssociative(old(bus.trace), emitted, d);
        emitted := emitted + d;
      }
      i := i + 1;
    }
    assert after[..|after|] == after;
  }

  /** The RegionExit events: one per id of `before` missing from `after`. */
  method EmitExits(bus: EventBus, id: string, before: seq<string>, after: seq<string>)
    modifies bus`trace
    ensures bus.trace == old(bus.trace) + Dispatch(bus.listeners, ExitNotices(id, Entered(after, before)), Source)
  {
    ghost var listeners := bus.listeners;
    ghost var emitted: seq<Delivery> := [];
    var i := 0;
    while i < |before|
      invariant 0 <= i <= |before|
      invariant bus.trace == old(bus.trace) + emitted
      invariant emitted == Dispatch(listeners, ExitNotices(id, Entered(after, before[..i])), Source)
    {
      EnteredStep(after, before, i);
      if before[i] !in after {
        ghost var d := Deliveries(HandlersIn(listeners, "RegionExit"), "RegionExit", RegionChange(id, before[i]), Source);
        ExitNoticesStep(id, Entered(after, before[..i]), before[i]);
        DispatchStep(listeners, ExitNotices(id, Entered(after, before[..i])), Notice("RegionExit", RegionChange(id, before[i])));
        bus.Emit("RegionExit", RegionChange(id, before[i]), Source);
        AppendAssociative(old(bus.trace), emitted, d);
        emitted := emitted + d;
      }
      i := i + 1;
    }
    assert before[..|before|] == before;
  }

  /** The enters followed by the exits are the subject's events, in order. */
  lemma SubjectTrace(t0: seq<Delivery>, listeners: map<string, seq<HandlerId>>, id: string, before: seq<string>, after: seq<string>)
    ensures (t0 + Dispatch(listeners, EnterNotices(id, Entered(before, after)), Source)) + Dispatch(listeners, ExitNotices(id, Entered(after, before)), Source)
      == t0 + Dispatch(listeners, SubjectNotices(id, before, after), Source)
  {
    var a := Dispatch(listeners, EnterNotices(id, Entered(before, after)), Source);
    var b := Dispatch(listeners, ExitNotices(id, Entered(after, before)), Source);
    DispatchAppend(listeners, EnterNotices(id, Entered(before, after)), ExitNotices(id, Entered(after, before)), Source);
    AppendAssociative(t0, a, b);
  }

  /** Publishing a second batch after a first extends the trace by both, in order. */
  lemma DispatchExtends(t0: seq<Delivery>, listeners: map<string, seq<HandlerId>>, a: seq<Notice>, b: seq<Notice>)
    ensures (t0 + Dispatch(listeners, a, Source)) + Dispatch(listeners, b, Source) == t0 + Dispatch(listeners, a + b, Source)
  {
    DispatchAppend(listeners, a, b, Source);
    AppendAssociative(t0, Dispatch(listeners, a, Source), Dispatch(listeners, b, Source));
  }
}
