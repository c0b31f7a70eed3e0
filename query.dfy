/** The query engine as functions of the pattern tree and the query window:
    what the root query, the dispatcher and each handler return. The methods
    of module QueryImpl are proved to compute exactly these. */
module Query {
  import opened Rational
  import opened Pattern
  import opened Steps

  const GroupTag: Tag := Tagged("group")
  const PolymeterTag: Tag := Tagged("polymeter")

  /** A step size passed down the traversal is positive when present. */
  predicate ValidIncr(incr: Option<real>) {
    incr.Some? ==> incr.value > 0.0
  }

  /** The events whose start lies in [lo, hi), in their original order. */
  function InWindow(events: seq<Event>, lo: real, hi: real): (r: seq<Event>)
    ensures |r| <= |events|
    ensures forall i :: 0 <= i < |r| ==> lo <= r[i].arc.start < hi
  {
    if events == [] then []
    else
      (if lo <= events[0].arc.start < hi then [events[0]] else []) + InWindow(events[1..], lo, hi)
  }

  /** The filter keeps exactly the events that start inside the window. */
  lemma {:induction false} InWindowMembers(events: seq<Event>, lo: real, hi: real)
    ensures forall e :: e in InWindow(events, lo, hi) <==> e in events && lo <= e.arc.start < hi
  {
    if events != [] {
      InWindowMembers(events[1..], lo, hi);
      assert events == [events[0]] + events[1..];
    }
  }

  /** An arc moved `offset` earlier. */
  function Earlier(a: Arc, offset: real): Arc {
    Arc(a.start - offset, a.end - offset)
  }

  /** Every arc moved `offset` earlier. */
  function ShiftedBack(events: seq<Event>, offset: real): seq<Event> {
    seq(|events|, i requires 0 <= i < |events| => Event(events[i].value, Earlier(events[i].arc, offset)))
  }

  /** Every arc mapped from a sub-pattern's local time into its parent's. */
  function Remapped(events: seq<Event>, phase: real, incr: real): seq<Event>
    requires phase >= 0.0 && incr > 0.0
  {
    seq(|events|, i requires 0 <= i < |events| =>
      Event(events[i].value, GetMappedArc(events[i].arc, phase, incr)))
  }

  /** processPattern: run the node's handler (from phase 0 when the reset
      heuristic fires, over `duration / phaseIncr` when a step size is
      passed), then remap the arcs into the caller's time when asked. */
  function Processed(p: Pattern, duration: real, phase: real, phaseIncr: Option<real>,
                     override: Option<real>, options: IndexOptions, remap: bool,
                     parent: Option<Tag>, routing: Routing): seq<Event>
    requires WellFormed(p) && phase >= 0.0
    requires ValidIncr(phaseIncr) && ValidIncr(override) && ValidOptions(options)
    decreases p, 5
  {
    var start := if ShouldReset(p.Type(), parent) then 0.0 else phase;
    var dur := if phaseIncr.Some? then duration / phaseIncr.value else duration;
    var events := Handled(p, start, dur, override, options, routing);
    if remap then
      var incr := if phaseIncr.Some? then phaseIncr.value else PhaseIncr(p);
      Remapped(events, phase, incr)
    else events
  }

  /** The handler of each node type. */
  function Handled(p: Pattern, phase: real, duration: real, override: Option<real>,
                   options: IndexOptions, routing: Routing): seq<Event>
    requires WellFormed(p) && phase >= 0.0 && ValidIncr(override) && ValidOptions(options)
    decreases p, 4
  {
    match p
    case Number(_) => [Event(Payload(p), Arc(phase, phase + duration))]
    case Str(_) => [Event(Payload(p), Arc(phase, phase + duration))]
    case Group(_) => GroupEvents(p, phase, duration, override, options, routing)
    case Polymeter(_, _) => PolymeterEvents(p, phase, duration, routing)
  }

  /** The group handler: the events of its steps from `phase` to
      `phase + duration`, keeping those that start inside that window. */
  function GroupEvents(g: Pattern, phase: real, duration: real, override: Option<real>,
                       options: IndexOptions, routing: Routing): (r: seq<Event>)
    requires g.Group? && WellFormed(g) && phase >= 0.0 && ValidIncr(override) && ValidOptions(options)
    ensures forall i :: 0 <= i < |r| ==> phase <= r[i].arc.start < phase + duration
    decreases g, 3
  {
    var end := phase + duration;
    var incr := if override.None? then PhaseIncr(g) else override.value;
    InWindow(GroupSteps(g, incr, options, phase, end, routing), phase, end)
  }

  /** The group loop from `phase` on: the events of each step, until `end`. */
  function GroupSteps(g: Pattern, incr: real, options: IndexOptions, phase: real, end: real, routing: Routing): seq<Event>
    requires g.Group? && WellFormed(g) && incr > 0.0 && phase >= 0.0 && ValidOptions(options)
    decreases g, 1, StepsLeft(phase, end, incr)
  {
    if phase >= end then []
    else
      NextPhaseProgress(phase, incr, end);
      StepEvents(g, incr, options, phase, end, routing) + GroupSteps(g, incr, options, NextPhase(phase, incr, end), end, routing)
  }

  /** The group loop is one step followed by the loop from the next phase. */
  lemma GroupStepsUnfold(g: Pattern, incr: real, options: IndexOptions, phase: real, end: real, routing: Routing)
    requires g.Group? && WellFormed(g) && incr > 0.0 && phase >= 0.0 && ValidOptions(options)
    requires phase < end
    ensures NextPhase(phase, incr, end) > phase
    ensures GroupSteps(g, incr, options, phase, end, routing)
         == StepEvents(g, incr, options, phase, end, routing) + GroupSteps(g, incr, options, NextPhase(phase, incr, end), end, routing)
  {
    NextPhaseProgress(phase, incr, end);
  }

  /** A loop iteration keeps "events so far, then the loop from here, is the
      loop from the start". */
  lemma GroupLoopStep(g: Pattern, incr: real, options: IndexOptions, start: real, phase: real, end: real,
                      done: seq<Event>, routing: Routing)
    requires g.Group? && WellFormed(g) && incr > 0.0 && start >= 0.0 && phase >= 0.0 && ValidOptions(options)
    requires phase < end
    requires done + GroupSteps(g, incr, options, phase, end, routing) == GroupSteps(g, incr, options, start, end, routing)
    ensures NextPhase(phase, incr, end) > phase
    ensures StepsLeft(NextPhase(phase, incr, end), end, incr) < StepsLeft(phase, end, incr)
    ensures (done + StepEvents(g, incr, options, phase, end, routing)) + GroupSteps(g, incr, options, NextPhase(phase, incr, end), end, routing)
         == GroupSteps(g, incr, options, start, end, routing)
  {
    NextPhaseProgress(phase, incr, end);
    GroupStepsUnfold(g, incr, options, phase, end, routing);
  }

  /** One step of the group loop: the member selected at `phase` covers the
      step (clipped at `end`); it is emitted directly when `routing` says so, and
      queried as a sub-pattern otherwise. */
  function StepEvents(g: Pattern, incr: real, options: IndexOptions, phase: real, end: real, routing: Routing): seq<Event>
    requires g.Group? && WellFormed(g) && incr > 0.0 && phase >= 0.0 && ValidOptions(options)
    decreases g, 0
  {
    var member := g.values[GetIndex(options, |g.values|, phase)];
    var dur := CalculateDuration(phase, incr, end);
    if !Direct(member, routing) then
      Processed(member, dur, phase, Some(incr), None, NoOptions, ShouldRemap(member), Some(GroupTag), routing)
    else
      [Event(Payload(member), Arc(phase, phase + dur))]
  }

  /** The polymeter handler: both branches over the same window at the left
      branch's step; the right branch selects members by step count. */
  function PolymeterEvents(p: Pattern, phase: real, duration: real, routing: Routing): seq<Event>
    requires p.Polymeter? && WellFormed(p) && phase >= 0.0
    decreases p, 3
  {
    assert WellFormed(p.left);
    var incr := 1.0 / |p.left.values| as real;
    var left := Processed(p.left, duration, phase, None, Some(incr), NoOptions, false, Some(PolymeterTag), routing);
    var right := Processed(p.right, duration, phase, None, Some(incr), Options(true, incr), false, Some(PolymeterTag), routing);
    left + right
  }

  /** queryArc: the events of the window [phase, phase + duration), queried
      from the step boundary at or before `phase`, kept when they start
      inside the window, with arcs relative to `phase`. */
  function Queried(p: Pattern, phase: real, duration: real, routing: Routing): (r: seq<Event>)
    requires WellFormed(p) && phase >= 0.0
    ensures forall i :: 0 <= i < |r| ==> 0.0 <= r[i].arc.start < duration
  {
    var end := phase + duration;
    var adjusted := AdjustPhase(phase, PhaseIncr(p), end);
    var kept := InWindow(Processed(p, duration, adjusted, None, None, NoOptions, false, None, routing), phase, end);
    ShiftedBack(kept, phase)
  }
}
