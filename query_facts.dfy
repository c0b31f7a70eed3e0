/** What the query engine produces for the shapes the language is built from:
    flat groups, nested groups, polymeters and bare leaves, queried from a
    step boundary or from the middle of a step. */
module QueryFacts {
  import opened Rational
  import opened Pattern
  import opened Steps
  import opened Query

  /** Every member is a leaf, so it carries a value. */
  predicate Leaves(vs: seq<Pattern>) {
    forall i :: 0 <= i < |vs| ==> vs[i].Number? || vs[i].Str?
  }

  /** Every member is a leaf whose value the group loop emits directly. */
  predicate AllDirect(vs: seq<Pattern>, routing: Routing) {
    Leaves(vs) && forall i :: 0 <= i < |vs| ==> Direct(vs[i], routing)
  }

  /** The k-th step of a group of step `incr` in absolute time:
      [k * incr, (k + 1) * incr), clipped at `end`. */
  function StepSpan(incr: real, k: nat, end: real): Arc {
    Arc(Multiple(k, incr), Min(Multiple(k + 1, incr), end))
  }

  /** The event of the k-th step of a flat group in absolute time: member
      k mod n over the k-th step. */
  function StepEvent(vs: seq<Pattern>, incr: real, k: nat, end: real): Event
    requires |vs| > 0 && Leaves(vs)
  {
    Event(Payload(vs[k % |vs|]), StepSpan(incr, k, end))
  }

  /** The i-th event of a query of a flat group that starts at step j, in
      time relative to the query: member (j + i) mod n over the i-th step,
      clipped at the query's duration. */
  function QueryEvent(vs: seq<Pattern>, incr: real, j: nat, i: nat, duration: real): Event
    requires |vs| > 0 && Leaves(vs)
  {
    Event(Payload(vs[(j + i) % |vs|]), StepSpan(incr, i, duration))
  }

  /** Filtering a list whose starts all lie in the window keeps all of it. */
  lemma {:induction false} InWindowKeepsAll(events: seq<Event>, lo: real, hi: real)
    requires forall i :: 0 <= i < |events| ==> lo <= events[i].arc.start < hi
    ensures InWindow(events, lo, hi) == events
  {
    if events != [] {
      InWindowKeepsAll(events[1..], lo, hi);
    }
  }

  /** The step at an aligned phase of a flat group, under options that select
      member k mod n at step k, is that member over the clipped step. */
  lemma {:induction false} AlignedStep(g: Pattern, incr: real, options: IndexOptions, j: nat, end: real, routing: Routing)
    requires g.Group? && WellFormed(g) && AllDirect(g.values, routing) && incr > 0.0
    requires StepIndexed(options, |g.values|, incr)
    requires Multiple(j, incr) < end
    ensures ValidOptions(options)
    ensures StepEvents(g, incr, options, Multiple(j, incr), end, routing) == [StepEvent(g.values, incr, j, end)]
  {
    GetIndexAtStep(options, |g.values|, incr, j);
    MultipleNext(j, incr);
  }

  /** From an aligned phase before `end`, the group loop of a flat group is
      the event of this step followed by the loop from the next step
      boundary, or by nothing when that boundary reaches `end`. */
  lemma {:induction false} AlignedLoopStep(g: Pattern, incr: real, options: IndexOptions, j: nat, end: real, routing: Routing)
    requires g.Group? && WellFormed(g) && AllDirect(g.values, routing) && incr > 0.0
    requires StepIndexed(options, |g.values|, incr)
    requires Multiple(j, incr) < end
    ensures ValidOptions(options)
    ensures StepsLeft(Multiple(j + 1, incr), end, incr) < StepsLeft(Multiple(j, incr), end, incr)
    ensures Multiple(j + 1, incr) < end ==>
      GroupSteps(g, incr, options, Multiple(j, incr), end, routing)
        == [StepEvent(g.values, incr, j, end)] + GroupSteps(g, incr, options, Multiple(j + 1, incr), end, routing)
    ensures end <= Multiple(j + 1, incr) ==>
      GroupSteps(g, incr, options, Multiple(j, incr), end, routing) == [StepEvent(g.values, incr, j, end)]
  {
    var phase := Multiple(j, incr);
    AlignedStep(g, incr, options, j, end, routing);
    GroupStepsUnfold(g, incr, options, phase, end, routing);
    NextPhaseProgress(phase, incr, end);
    MultipleIsAligned(j, incr);
    MultipleNext(j, incr);
    if Multiple(j + 1, incr) < end {
      assert NextPhase(phase, incr, end) == Multiple(j + 1, incr);
    } else {
      assert NextPhase(phase, incr, end) == end;
      assert StepsLeft(Multiple(j + 1, incr), end, incr) == 0;
    }
  }

  /** `r` is the run of step events of a flat group from step j: its i-th
      event is that of step j + i, and each of those steps starts before
      `end`. */
  predicate StepRun(r: seq<Event>, vs: seq<Pattern>, incr: real, j: nat, end: real)
    requires |vs| > 0 && Leaves(vs)
  {
    forall i {:trigger r[i]} :: 0 <= i < |r| ==> r[i] == StepEvent(vs, incr, j + i, end) && Multiple(j + i, incr) < end
  }

  lemma {:induction false} ConsStepRun(r: seq<Event>, vs: seq<Pattern>, incr: real, j: nat, end: real)
    requires |vs| > 0 && Leaves(vs)
    requires Multiple(j, incr) < end && StepRun(r, vs, incr, j + 1, end)
    ensures StepRun([StepEvent(vs, incr, j, end)] + r, vs, incr, j, end)
  {
    var r' := [StepEvent(vs, incr, j, end)] + r;
    forall i | 0 <= i < |r'|
      ensures r'[i] == StepEvent(vs, incr, j + i, end) && Multiple(j + i, incr) < end
    {
      if i > 0 {
        assert r'[i] == r[i - 1];
        assert j + 1 + (i - 1) == j + i;
      }
    }
    assert StepRun(r', vs, incr, j, end);
  }

  /** The group loop of a flat group from step j: its i-th event is the
      event of step j + i, every step starts before `end`, and the steps
      run up to `end`. */
  lemma {:induction false} FlatGroupSteps(g: Pattern, incr: real, options: IndexOptions, j: nat, end: real, routing: Routing)
    requires g.Group? && WellFormed(g) && AllDirect(g.values, routing) && incr > 0.0
    requires StepIndexed(options, |g.values|, incr)
    ensures ValidOptions(options)
    ensures var r := GroupSteps(g, incr, options, Multiple(j, incr), end, routing);
      StepRun(r, g.values, incr, j, end) && end <= Multiple(j + |r|, incr)
    decreases StepsLeft(Multiple(j, incr), end, incr)
  {
    GetIndexAtStep(options, |g.values|, incr, j);
    if Multiple(j, incr) < end {
      AlignedLoopStep(g, incr, options, j, end, routing);
      if Multiple(j + 1, incr) < end {
        FlatGroupSteps(g, incr, options, j + 1, end, routing);
        var rest := GroupSteps(g, incr, options, Multiple(j + 1, incr), end, routing);
        ConsStepRun(rest, g.values, incr, j, end);
        assert j + 1 + |rest| == j + (1 + |rest|);
      } else {
        ConsStepRun([], g.values, incr, j, end);
        assert [StepEvent(g.values, incr, j, end)] + [] == [StepEvent(g.values, incr, j, end)];
      }
    }
  }

  /** `r` is a query result of a flat group started at step j: its i-th
      event is QueryEvent i, and each of those events starts before
      `duration`. */
  predicate QueryRun(r: seq<Event>, vs: seq<Pattern>, incr: real, j: nat, duration: real)
    requires |vs| > 0 && Leaves(vs)
  {
    forall i {:trigger r[i]} :: 0 <= i < |r| ==>
      r[i] == QueryEvent(vs, incr, j, i, duration) && Multiple(i, incr) < duration
  }

  /** `r` is a whole query result of a flat group started at step j: its
      events are the query events, each starting before `duration`, and
      they reach `duration`, so no step of the window is left out. */
  predicate FlatQueryResult(r: seq<Event>, vs: seq<Pattern>, incr: real, j: nat, duration: real)
    requires |vs| > 0 && Leaves(vs)
  {
    QueryRun(r, vs, incr, j, duration) && duration <= Multiple(|r|, incr)
  }

  /** The event of step j + i moved back by j steps is query event i. */
  lemma {:induction false} ShiftedStepEvent(vs: seq<Pattern>, incr: real, j: nat, i: nat, end: real)
    requires |vs| > 0 && Leaves(vs)
    ensures var e := StepEvent(vs, incr, j + i, end);
      Event(e.value, Earlier(e.arc, Multiple(j, incr))) == QueryEvent(vs, incr, j, i, end - Multiple(j, incr))
  {
    StepSpanShift(incr, j, i, end);
  }

  /** Step j + i moved back by j steps is step i, clipped at the
      correspondingly earlier end. */
  lemma {:induction false} StepSpanShift(incr: real, j: nat, i: nat, end: real)
    ensures Earlier(StepSpan(incr, j + i, end), Multiple(j, incr)) == StepSpan(incr, i, end - Multiple(j, incr))
  {
    var a := StepSpan(incr, j + i, end);
    var b := StepSpan(incr, i, end - Multiple(j, incr));
    MultipleAdd(j, i, incr);
    ClippedEndShift(incr, j, i, end);
    assert a.start - Multiple(j, incr) == b.start;
    assert a.end - Multiple(j, incr) == b.end;
  }

  lemma {:induction false} ClippedEndShift(incr: real, j: nat, i: nat, end: real)
    ensures Min(Multiple(j + i + 1, incr), end) - Multiple(j, incr) == Min(Multiple(i + 1, incr), end - Multiple(j, incr))
  {
    MultipleAdd(j, i, incr);
    MultipleNext(j + i, incr);
    MultipleNext(i, incr);
    MinShift(Multiple(j + i + 1, incr), end, Multiple(j, incr));
  }

  lemma {:induction false} MinShift(a: real, b: real, c: real)
    ensures Min(a, b) - c == Min(a - c, b - c)
  {
  }

  /** Each step of a run from step j starts between step j and `end`. */
  lemma {:induction false} StepRunStarts(r: seq<Event>, vs: seq<Pattern>, incr: real, j: nat, end: real)
    requires |vs| > 0 && Leaves(vs) && incr > 0.0 && StepRun(r, vs, incr, j, end)
    ensures forall i :: 0 <= i < |r| ==> Multiple(j, incr) <= r[i].arc.start < end
  {
    forall i | 0 <= i < |r|
      ensures Multiple(j, incr) <= r[i].arc.start < end
    {
      assert r[i] == StepEvent(vs, incr, j + i, end) && Multiple(j + i, incr) < end;
      MultipleAdd(j, i, incr);
    }
  }

  /** Moving a run of step events from step j back by j steps gives the
      query events relative to step j. */
  lemma {:induction false} ShiftedStepRun(r: seq<Event>, vs: seq<Pattern>, incr: real, j: nat, end: real)
    requires |vs| > 0 && Leaves(vs) && incr > 0.0 && StepRun(r, vs, incr, j, end)
    ensures QueryRun(ShiftedBack(r, Multiple(j, incr)), vs, incr, j, end - Multiple(j, incr))
  {
    forall i | 0 <= i < |r|
      ensures ShiftedBack(r, Multiple(j, incr))[i] == QueryEvent(vs, incr, j, i, end - Multiple(j, incr))
      ensures Multiple(i, incr) < end - Multiple(j, incr)
    {
      ShiftedStepAt(r[i], vs, incr, j, i, end);
    }
  }

  /** One event of such a run, moved back. */
  lemma {:induction false} ShiftedStepAt(e: Event, vs: seq<Pattern>, incr: real, j: nat, i: nat, end: real)
    requires |vs| > 0 && Leaves(vs)
    requires e == StepEvent(vs, incr, j + i, end) && Multiple(j + i, incr) < end
    ensures Event(e.value, Earlier(e.arc, Multiple(j, incr))) == QueryEvent(vs, incr, j, i, end - Multiple(j, incr))
    ensures Multiple(i, incr) < end - Multiple(j, incr)
  {
    MultipleAdd(j, i, incr);
    ShiftedStepEvent(vs, incr, j, i, end);
  }

  /** A query of a group runs the group loop from the step boundary at or
      before `phase` for `duration` (not up to the end of the window), keeps
      what starts inside the window, and moves it back by `phase`. */
  lemma {:induction false} GroupQuery(vs: seq<Pattern>, phase: real, duration: real, routing: Routing)
    requires WellFormed(Group(vs)) && phase >= 0.0
    ensures var incr := PhaseIncr(Group(vs));
      var adjusted := AdjustPhase(phase, incr, phase + duration);
      Queried(Group(vs), phase, duration, routing)
        == ShiftedBack(InWindow(InWindow(GroupSteps(Group(vs), incr, NoOptions, adjusted, adjusted + duration, routing),
                                         adjusted, adjusted + duration),
                                phase, phase + duration), phase)
  {
    var g := Group(vs);
    var incr := PhaseIncr(g);
    var adjusted := AdjustPhase(phase, incr, phase + duration);
    assert !ShouldReset(g.Type(), None);
    assert Processed(g, duration, adjusted, None, None, NoOptions, false, None, routing)
        == Handled(g, adjusted, duration, None, NoOptions, routing);
    assert Handled(g, adjusted, duration, None, NoOptions, routing) == GroupEvents(g, adjusted, duration, None, NoOptions, routing);
  }

  /** Events filtered twice to the window [phase, phase + duration) and
      moved back to `phase`. */
  function WindowQuery(events: seq<Event>, phase: real, duration: real): seq<Event> {
    var end := phase + duration;
    ShiftedBack(InWindow(InWindow(events, phase, end), phase, end), phase)
  }

  /** A run of step events from step j that reaches the end of the window
      [step j, step j + duration), filtered to that window and moved back to
      step j: the query events from step j, one per step of the window. */
  lemma {:induction false} RunQuery(steps: seq<Event>, vs: seq<Pattern>, incr: real, j: nat, duration: real)
    requires |vs| > 0 && Leaves(vs) && incr > 0.0
    requires StepRun(steps, vs, incr, j, Multiple(j, incr) + duration)
    requires Multiple(j, incr) + duration <= Multiple(j + |steps|, incr)
    ensures FlatQueryResult(WindowQuery(steps, Multiple(j, incr), duration), vs, incr, j, duration)
  {
    var phase := Multiple(j, incr);
    var end := phase + duration;
    var shifted := ShiftedBack(steps, phase);
    RunInWindow(steps, vs, incr, j, duration);
    ShiftedStepRun(steps, vs, incr, j, end);
    assert end - phase == duration;
    assert QueryRun(shifted, vs, incr, j, duration);
    MultipleAdd(j, |steps|, incr);
    assert duration <= Multiple(|shifted|, incr);
  }

  /** A run of step events from step j lies inside the window from step j,
      so filtering it to that window, once or twice, keeps all of it, and
      the window query only moves it back. */
  lemma {:induction false} RunInWindow(steps: seq<Event>, vs: seq<Pattern>, incr: real, j: nat, duration: real)
    requires |vs| > 0 && Leaves(vs) && incr > 0.0
    requires StepRun(steps, vs, incr, j, Multiple(j, incr) + duration)
    ensures WindowQuery(steps, Multiple(j, incr), duration) == ShiftedBack(steps, Multiple(j, incr))
  {
    var phase := Multiple(j, incr);
    StepRunStarts(steps, vs, incr, j, phase + duration);
    InWindowKeepsAll(steps, phase, phase + duration);
  }

  /** The group loop of a group from `phase` over `duration`, filtered to
      that window (once by the group handler and once by the root query)
      and moved back to `phase`. */
  function LoopQuery(vs: seq<Pattern>, incr: real, phase: real, duration: real, routing: Routing): seq<Event>
    requires WellFormed(Group(vs)) && incr > 0.0 && phase >= 0.0
  {
    WindowQuery(GroupSteps(Group(vs), incr, NoOptions, phase, phase + duration, routing), phase, duration)
  }

  /** From a step boundary, a query of a group is its group loop from that
      boundary, filtered to the window and moved back to its start. */
  lemma {:induction false} AlignedGroupQuery(vs: seq<Pattern>, phase: real, duration: real, routing: Routing)
    requires WellFormed(Group(vs)) && phase >= 0.0 && Mod(phase, PhaseIncr(Group(vs))) == 0.0
    ensures Queried(Group(vs), phase, duration, routing) == LoopQuery(vs, PhaseIncr(Group(vs)), phase, duration, routing)
  {
    var g := Group(vs);
    var incr := PhaseIncr(g);
    assert AdjustPhase(phase, incr, phase + duration) == phase;
    assert !ShouldReset(g.Type(), None);
    assert Processed(g, duration, phase, None, None, NoOptions, false, None, routing)
        == Handled(g, phase, duration, None, NoOptions, routing);
    assert Handled(g, phase, duration, None, NoOptions, routing) == GroupEvents(g, phase, duration, None, NoOptions, routing);
  }

  /** The group loop of a flat group from step j, filtered to the window
      [step j, step j + duration) and moved back to step j: the query events
      from step j, one per step of the window. */
  lemma {:induction false} FlatLoopQuery(vs: seq<Pattern>, incr: real, j: nat, duration: real, routing: Routing)
    requires WellFormed(Group(vs)) && AllDirect(vs, routing) && incr > 0.0
    requires StepIndexed(NoOptions, |vs|, incr)
    ensures FlatQueryResult(LoopQuery(vs, incr, Multiple(j, incr), duration, routing), vs, incr, j, duration)
  {
    FlatGroupSteps(Group(vs), incr, NoOptions, j, Multiple(j, incr) + duration, routing);
    RunQuery(GroupSteps(Group(vs), incr, NoOptions, Multiple(j, incr), Multiple(j, incr) + duration, routing), vs, incr, j, duration);
  }

  /** How many times the group loop (queryArc.js:171) runs over a window
      of `duration`: ceil(duration / incr), none for an empty window. */
  function StepCount(incr: real, duration: real): nat
    requires incr > 0.0
  {
    if duration <= 0.0 then 0
    else if Mod(duration, incr) == 0.0 then Quotient(duration, incr)
    else Quotient(duration, incr) + 1
  }

  /** StepCount is the one count whose steps start before `duration` and
      reach it. */
  lemma {:induction false} StepCountUnique(incr: real, duration: real, m: nat)
    requires incr > 0.0
    ensures m == StepCount(incr, duration) <==>
      (m > 0 ==> Multiple(m - 1, incr) < duration) && duration <= Multiple(m, incr)
  {
    var n := StepCount(incr, duration);
    if duration > 0.0 {
      var q := Quotient(duration, incr);
      MultipleNext(q, incr);
      if q > 0 {
        MultipleNext(q - 1, incr);
      }
      assert n > 0 && Multiple(n - 1, incr) < duration <= Multiple(n, incr);
      if m > 0 {
        MultipleOrder(m - 1, n, incr);
        MultipleOrder(m, n - 1, incr);
      }
    } else if m > 0 {
      MultipleOrder(m - 1, 0, incr);
    }
  }

  /** The reference result of a query of a flat group from step j: one event
      per step that starts before `duration`, the i-th being member
      (j + i) mod n over the i-th step, clipped at `duration`. */
  function FlatEvents(vs: seq<Pattern>, incr: real, j: nat, duration: real): (r: seq<Event>)
    requires |vs| > 0 && Leaves(vs) && incr > 0.0
    ensures |r| == StepCount(incr, duration)
    ensures forall i :: 0 <= i < |r| ==> r[i] == QueryEvent(vs, incr, j, i, duration)
  {
    seq(StepCount(incr, duration), i requires 0 <= i => QueryEvent(vs, incr, j, i, duration))
  }

  /** A whole query result is the reference result. */
  lemma {:induction false} FlatResultIsFlatEvents(r: seq<Event>, vs: seq<Pattern>, incr: real, j: nat, duration: real)
    requires |vs| > 0 && Leaves(vs) && incr > 0.0
    requires FlatQueryResult(r, vs, incr, j, duration)
    ensures r == FlatEvents(vs, incr, j, duration)
  {
    if |r| > 0 {
      var last := r[|r| - 1];
      assert Multiple(|r| - 1, incr) < duration;
    }
    StepCountUnique(incr, duration, |r|);
  }

  /** The group loop of a flat group from step j, filtered to its window and
      moved back to step j, is the reference result. */
  lemma {:induction false} FlatLoopEvents(vs: seq<Pattern>, incr: real, j: nat, duration: real, routing: Routing)
    requires WellFormed(Group(vs)) && AllDirect(vs, routing) && incr == PhaseIncr(Group(vs))
    ensures LoopQuery(vs, incr, Multiple(j, incr), duration, routing) == FlatEvents(vs, incr, j, duration)
  {
    FlatLoopQuery(vs, incr, j, duration, routing);
    FlatResultIsFlatEvents(LoopQuery(vs, incr, Multiple(j, incr), duration, routing), vs, incr, j, duration);
  }

  /** A query of a flat group of n members from a step boundary j/n: one
      event per step that starts inside the window, none omitted and none
      repeated, the i-th being member (j + i) mod n over [i/n, (i+1)/n)
      clipped at the duration. */
  lemma {:induction false} FlatGroupQuery(vs: seq<Pattern>, j: nat, duration: real, routing: Routing)
    requires WellFormed(Group(vs)) && AllDirect(vs, routing)
    ensures var incr := PhaseIncr(Group(vs));
      Queried(Group(vs), Multiple(j, incr), duration, routing) == FlatEvents(vs, incr, j, duration)
  {
    MultipleIsAligned(j, PhaseIncr(Group(vs)));
    AlignedGroupQuery(vs, Multiple(j, PhaseIncr(Group(vs))), duration, routing);
    FlatLoopEvents(vs, PhaseIncr(Group(vs)), j, duration, routing);
  }
}
