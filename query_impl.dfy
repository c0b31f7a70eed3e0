/** The query engine as the source runs it: handlers that append to an event
    list, a group handler that walks its steps in a loop, and a root query
    that prunes and rewrites the arcs of the events it returns. Each method
    is proved to compute the corresponding function of module Query. */
module QueryImpl {
  import opened Rational
  import opened Pattern
  import opened Steps
  import opened Query

  /** queryArc. */
  method QueryArc(p: Pattern, phase: real, duration: real, routing: Routing) returns (events: seq<Event>)
    requires WellFormed(p) && phase >= 0.0
    ensures events == Queried(p, phase, duration, routing)
  {
    var start := phase;
    var end := start + duration;
    var adjusted := AdjustPhase(phase, PhaseIncr(p), end);
    var all := ProcessPattern(p, duration, adjusted, None, None, NoOptions, false, None, routing);
    events := RelativeArcs(InWindow(all, start, end), start);
  }

  /** The arc rewrite of queryArc: every kept event's arc is made relative to
      `start`, one event at a time. */
  method RelativeArcs(kept: seq<Event>, start: real) returns (events: seq<Event>)
    ensures events == ShiftedBack(kept, start)
  {
    events := kept;
    for i := 0 to |events|
      invariant |events| == |kept|
      invariant forall j :: 0 <= j < i ==> events[j] == ShiftedBack(kept, start)[j]
      invariant forall j :: i <= j < |events| ==> events[j] == kept[j]
    {
      events := events[i := Event(events[i].value, Arc(events[i].arc.start - start, events[i].arc.end - start))];
    }
  }

  /** processPattern: dispatch on the node type, then remap when asked. */
  method ProcessPattern(p: Pattern, duration: real, phase: real, phaseIncr: Option<real>,
                        override: Option<real>, options: IndexOptions, remap: bool,
                        parent: Option<Tag>, routing: Routing) returns (events: seq<Event>)
    requires WellFormed(p) && phase >= 0.0
    requires ValidIncr(phaseIncr) && ValidIncr(override) && ValidOptions(options)
    ensures events == Processed(p, duration, phase, phaseIncr, override, options, remap, parent, routing)
    decreases p, 2
  {
    var start := if ShouldReset(p.Type(), parent) then 0.0 else phase;
    var dur := if phaseIncr.Some? then duration / phaseIncr.value else duration;
    match p {
      case Number(_) => events := LeafHandler([], p, start, dur);
      case Str(_) => events := LeafHandler([], p, start, dur);
      case Group(_) => events := GroupHandler([], p, start, dur, override, options, routing);
      case Polymeter(_, _) => events := PolymeterHandler([], p, start, dur, routing);
    }
    assert events == Handled(p, start, dur, override, options, routing);
    if remap {
      var incr := if phaseIncr.Some? then phaseIncr.value else PhaseIncr(p);
      events := Remapped(events, phase, incr);
    }
  }

  /** The number and string handlers: one event over the whole window,
      appended after the events already in `state`. */
  method LeafHandler(state: seq<Event>, p: Pattern, phase: real, duration: real) returns (r: seq<Event>)
    requires p.Number? || p.Str?
    ensures |r| == |state| + 1 && r[..|state|] == state
    ensures r[|state|] == Event(Payload(p), Arc(phase, phase + duration))
  {
    r := state + [Event(Payload(p), Arc(phase, phase + duration))];
  }

  /** The group handler. */
  method GroupHandler(state: seq<Event>, g: Pattern, phase0: real, duration: real,
                      override: Option<real>, options: IndexOptions, routing: Routing) returns (r: seq<Event>)
    requires g.Group? && WellFormed(g) && phase0 >= 0.0 && ValidIncr(override) && ValidOptions(options)
    ensures r == state + GroupEvents(g, phase0, duration, override, options, routing)
    decreases g, 1
  {
    var start := phase0;
    var end := start + duration;
    var incr := if override.None? then PhaseIncr(g) else override.value;
    var eventList: seq<Event> := [];
    var phase := phase0;
    while phase < end
      invariant phase >= 0.0
      invariant eventList + GroupSteps(g, incr, options, phase, end, routing) == GroupSteps(g, incr, options, start, end, routing)
      decreases StepsLeft(phase, end, incr)
    {
      var events := GroupStep(g, incr, options, phase, end, routing);
      GroupLoopStep(g, incr, options, start, phase, end, eventList, routing);
      ghost var next := NextPhase(phase, incr, end);
      eventList := eventList + events;
      if Mod(phase, incr) == 0.0 {
        phase := AdvancePhase(phase, incr, end);
      } else {
        phase := phase + (incr - Mod(phase, incr));
      }
      assert phase == next;
    }
    assert GroupSteps(g, incr, options, phase, end, routing) == [];
    assert eventList == GroupSteps(g, incr, options, start, end, routing);
    eventList := InWindow(eventList, start, end);
    r := state + eventList;
  }

  /** One iteration of the group loop: the events of the member selected
      at `phase`, over the step clipped at `end`. */
  method GroupStep(g: Pattern, incr: real, options: IndexOptions, phase: real, end: real, routing: Routing)
    returns (events: seq<Event>)
    requires g.Group? && WellFormed(g) && incr > 0.0 && phase >= 0.0 && ValidOptions(options)
    ensures events == StepEvents(g, incr, options, phase, end, routing)
    decreases g, 0
  {
    var member := g.values[GetIndex(options, |g.values|, phase)];
    var dur := CalculateDuration(phase, incr, end);
    if !Direct(member, routing) {
      events := ProcessPattern(member, dur, phase, Some(incr), None, NoOptions, ShouldRemap(member), Some(GroupTag), routing);
    } else {
      events := [Event(Payload(member), Arc(phase, phase + dur))];
    }
  }

  /** The polymeter handler. */
  method PolymeterHandler(state: seq<Event>, p: Pattern, phase: real, duration: real, routing: Routing) returns (r: seq<Event>)
    requires p.Polymeter? && WellFormed(p) && phase >= 0.0
    ensures r == state + PolymeterEvents(p, phase, duration, routing)
    decreases p, 1
  {
    assert WellFormed(p.left);
    var incr := 1.0 / |p.left.values| as real;
    var left := ProcessPattern(p.left, duration, phase, None, Some(incr), NoOptions, false, Some(PolymeterTag), routing);
    var right := ProcessPattern(p.right, duration, phase, None, Some(incr), Options(true, incr), false, Some(PolymeterTag), routing);
    r := state + left + right;
  }
}
