/** Whole query results for the shapes the language is written in: a flat
    group over whole cycles, a bare leaf, a polymeter of two flat groups and
    a group with a nested group, each queried from the start of a cycle. */
module QueryCases {
  import opened Rational
  import opened Pattern
  import opened Steps
  import opened Query
  import opened QueryFacts

  /** Moving arcs back by nothing leaves them as they are. */
  lemma ShiftedBackByZero(events: seq<Event>)
    ensures ShiftedBack(events, 0.0) == events
  {
    forall i | 0 <= i < |events|
      ensures ShiftedBack(events, 0.0)[i] == events[i]
    {
    }
  }

  /** The window filter works element by element, so it distributes over
      concatenation. */
  lemma {:induction false} InWindowConcat(a: seq<Event>, b: seq<Event>, lo: real, hi: real)
    ensures InWindow(a + b, lo, hi) == InWindow(a, lo, hi) + InWindow(b, lo, hi)
  {
    if a != [] {
      assert (a + b)[1..] == a[1..] + b;
      InWindowConcat(a[1..], b, lo, hi);
    } else {
      assert a + b == b;
    }
  }

  /** c whole cycles of a group of n members hold exactly c * n steps, each
      a whole step. */
  lemma {:induction false} CycleSteps(vs: seq<Pattern>, c: nat, k: nat)
    requires WellFormed(Group(vs)) && k < c * |vs|
    ensures StepCount(PhaseIncr(Group(vs)), c as real) == c * |vs|
    ensures StepSpan(PhaseIncr(Group(vs)), k, c as real)
         == Arc(Multiple(k, PhaseIncr(Group(vs))), Multiple(k + 1, PhaseIncr(Group(vs))))
  {
    var incr := PhaseIncr(Group(vs));
    var n := |vs|;
    MultipleOfMultiple(c, n, incr);
    MultipleOfWhole(c, 1);
    assert Multiple(c * n, incr) == c as real;
    MultipleOrder(c * n - 1, c * n, incr);
    MultipleOrder(k + 1, c * n, incr);
    StepCountUnique(incr, c as real, c * n);
  }

  /** Event k of a query of a flat group of n members over c whole cycles
      from the start: member k mod n over [k/n, (k+1)/n). */
  lemma {:induction false} CycleEvent(vs: seq<Pattern>, c: nat, k: nat, routing: Routing)
    requires WellFormed(Group(vs)) && AllDirect(vs, routing) && k < c * |vs|
    ensures var r := Queried(Group(vs), 0.0, c as real, routing);
      var incr := PhaseIncr(Group(vs));
      && |r| == c * |vs|
      && r[k] == Event(Payload(vs[k % |vs|]), Arc(Multiple(k, incr), Multiple(k + 1, incr)))
  {
    var incr := PhaseIncr(Group(vs));
    FlatGroupQuery(vs, 0, c as real, routing);
    assert Multiple(0, incr) == 0.0;
    CycleSteps(vs, c, k);
    assert Queried(Group(vs), 0.0, c as real, routing)[k] == QueryEvent(vs, incr, 0, k, c as real);
  }

  /** A query of a flat group of n members over c whole cycles from the
      start: c * n events, the k-th being member k mod n over
      [k/n, (k+1)/n), so the cycle repeats identically. */
  lemma {:induction false} WholeCycles(vs: seq<Pattern>, c: nat, routing: Routing)
    requires WellFormed(Group(vs)) && AllDirect(vs, routing)
    ensures var r := Queried(Group(vs), 0.0, c as real, routing);
      var incr := PhaseIncr(Group(vs));
      && |r| == c * |vs|
      && forall k :: 0 <= k < |r| ==>
        r[k] == Event(Payload(vs[k % |vs|]), Arc(Multiple(k, incr), Multiple(k + 1, incr)))
  {
    var incr := PhaseIncr(Group(vs));
    var r := Queried(Group(vs), 0.0, c as real, routing);
    if c * |vs| > 0 {
      CycleEvent(vs, c, 0, routing);
    } else {
      FlatGroupQuery(vs, 0, c as real, routing);
      assert Multiple(0, incr) == 0.0;
      assert c == 0;
      assert StepCount(incr, c as real) == 0;
    }
    forall k | 0 <= k < |r|
      ensures r[k] == Event(Payload(vs[k % |vs|]), Arc(Multiple(k, incr), Multiple(k + 1, incr)))
    {
      CycleEvent(vs, c, k, routing);
    }
  }

  /** A group of two leaves [a b], such as [0 1], over two cycles: a, b,
      a, b on [0, 1/2), [1/2, 1), [1, 3/2), [3/2, 2). */
  lemma TwoCyclesExample(vs: seq<Pattern>, routing: Routing)
    requires |vs| == 2 && WellFormed(Group(vs)) && AllDirect(vs, routing)
    ensures Queried(Group(vs), 0.0, 2.0, routing)
         == [Event(Payload(vs[0]), Arc(0.0, 0.5)), Event(Payload(vs[1]), Arc(0.5, 1.0)),
             Event(Payload(vs[0]), Arc(1.0, 1.5)), Event(Payload(vs[1]), Arc(1.5, 2.0))]
  {
    var r := Queried(Group(vs), 0.0, 2.0, routing);
    assert PhaseIncr(Group(vs)) == 0.5;
    assert Multiple(1, 0.5) == 0.5 && Multiple(2, 0.5) == 1.0;
    assert Multiple(3, 0.5) == 1.5 && Multiple(4, 0.5) == 2.0;
    CycleEvent(vs, 2, 0, routing);
    CycleEvent(vs, 2, 1, routing);
    CycleEvent(vs, 2, 2, routing);
    CycleEvent(vs, 2, 3, routing);
    FourEvents(r, r[0], r[1], r[2], r[3]);
  }

  lemma TwoEvents(r: seq<Event>, e0: Event, e1: Event)
    requires |r| == 2 && r[0] == e0 && r[1] == e1
    ensures r == [e0, e1]
  {
  }

  lemma FourEvents(r: seq<Event>, e0: Event, e1: Event, e2: Event, e3: Event)
    requires |r| == 4 && r[0] == e0 && r[1] == e1 && r[2] == e2 && r[3] == e3
    ensures r == [e0, e1, e2, e3]
  {
  }

  /** A group queried as a sub-pattern that restarts at phase 0 yields what
      a query of it from the start of a cycle does. */
  lemma {:induction false} RestartedGroup(vs: seq<Pattern>, duration: real, routing: Routing)
    requires WellFormed(Group(vs))
    ensures GroupEvents(Group(vs), 0.0, duration, None, NoOptions, routing) == Queried(Group(vs), 0.0, duration, routing)
  {
    var g := Group(vs);
    var events := GroupEvents(g, 0.0, duration, None, NoOptions, routing);
    assert AdjustPhase(0.0, PhaseIncr(g), duration) == 0.0;
    assert !ShouldReset(g.Type(), None);
    assert Processed(g, duration, 0.0, None, None, NoOptions, false, None, routing) == events;
    InWindowKeepsAll(events, 0.0, 0.0 + duration);
    ShiftedBackByZero(events);
  }

  /** A bare number or string: one event over the whole window when the
      window starts on a cycle boundary and is not empty, and nothing
      otherwise, since the leaf's event starts at the boundary before the
      window. */
  lemma LeafQuery(p: Pattern, phase: real, duration: real, routing: Routing)
    requires (p.Number? || p.Str?) && phase >= 0.0
    ensures Queried(p, phase, duration, routing)
         == if Mod(phase, 1.0) == 0.0 && duration > 0.0 then [Event(Payload(p), Arc(0.0, duration))] else []
  {
    var adjusted := AdjustPhase(phase, 1.0, phase + duration);
    assert !ShouldReset(p.Type(), None);
    assert Processed(p, duration, adjusted, None, None, NoOptions, false, None, routing)
        == [Event(Payload(p), Arc(adjusted, adjusted + duration))];
    if adjusted != phase {
      assert Mod(phase, 1.0) != 0.0;
    }
  }

  /** A group inside a group's step restarts at phase 0, is queried over
      the step's length measured in steps, and its arcs are mapped into the
      step. */
  lemma NestedStep(g: Pattern, dur: real, phase: real, incr: real, routing: Routing)
    requires g.Group? && WellFormed(g) && phase >= 0.0 && incr > 0.0
    ensures Processed(g, dur, phase, Some(incr), None, NoOptions, true, Some(GroupTag), routing)
         == Remapped(Queried(g, 0.0, dur / incr, routing), phase, incr)
  {
    assert ShouldReset(g.Type(), Some(GroupTag));
    assert Processed(g, dur, phase, Some(incr), None, NoOptions, true, Some(GroupTag), routing)
        == Remapped(GroupEvents(g, 0.0, dur / incr, None, NoOptions, routing), phase, incr);
    RestartedGroup(g.values, dur / incr, routing);
  }

  /** A group of two leaves queried over one cycle: the first on [0, 1/2),
      the second on [1/2, 1). */
  lemma PairCycle(vs: seq<Pattern>, routing: Routing)
    requires |vs| == 2 && WellFormed(Group(vs)) && AllDirect(vs, routing)
    ensures Queried(Group(vs), 0.0, 1.0, routing)
         == [Event(Payload(vs[0]), Arc(0.0, 0.5)), Event(Payload(vs[1]), Arc(0.5, 1.0))]
  {
    var r := Queried(Group(vs), 0.0, 1.0, routing);
    assert PhaseIncr(Group(vs)) == 0.5;
    assert Multiple(1, 0.5) == 0.5 && Multiple(2, 0.5) == 1.0;
    CycleEvent(vs, 1, 0, routing);
    CycleEvent(vs, 1, 1, routing);
    TwoEvents(r, r[0], r[1]);
  }

  /** The two halves of a cycle mapped into a step [p, p + h): [0, 1/2)
      becomes [p, p + h/2) and [1/2, 1) becomes [p + h/2, p + h). */
  lemma RemapHalves(x: Value, y: Value, p: real, h: real)
    requires p >= 0.0 && h > 0.0 && Mod(p, h) == 0.0
    ensures Remapped([Event(x, Arc(0.0, 0.5)), Event(y, Arc(0.5, 1.0))], p, h)
         == [Event(x, Arc(p, p + h / 2.0)), Event(y, Arc(p + h / 2.0, p + h))]
  {
    var m := Remapped([Event(x, Arc(0.0, 0.5)), Event(y, Arc(0.5, 1.0))], p, h);
    assert m[0] == Event(x, Arc(p, p + h / 2.0));
    assert m[1] == Event(y, Arc(p + h / 2.0, p + h));
    TwoEvents(m, m[0], m[1]);
  }

  /** The shape [a [b c]]: a leaf value, then a group of two leaf values. */
  predicate LeafThenPair(vs: seq<Pattern>, routing: Routing) {
    && |vs| == 2 && (vs[0].Number? || vs[0].Str?) && Direct(vs[0], routing)
    && vs[1].Group? && |vs[1].values| == 2 && WellFormed(vs[1]) && AllDirect(vs[1].values, routing)
  }

  /** The second step of [a [b c]]: the nested group fills [1/2, 1), b on
      [1/2, 3/4) and c on [3/4, 1). */
  lemma NestedSecondStep(vs: seq<Pattern>, routing: Routing)
    requires LeafThenPair(vs, routing)
    ensures WellFormed(Group(vs))
    ensures var ws := vs[1].values;
      StepEvents(Group(vs), 0.5, NoOptions, 0.5, 1.0, routing)
        == [Event(Payload(ws[0]), Arc(0.5, 0.75)), Event(Payload(ws[1]), Arc(0.75, 1.0))]
  {
    var inner := vs[1];
    var incr := PhaseIncr(Group(vs));
    assert WellFormed(Group(vs));
    assert incr == 0.5;
    GetIndexAtStep(NoOptions, |vs|, incr, 1);
    assert Multiple(1, incr) == incr;
    MultipleIsAligned(1, incr);
    assert Multiple(|vs|, incr) == 1.0;
    assert StepEvents(Group(vs), incr, NoOptions, incr, Multiple(|vs|, incr), routing)
        == Processed(inner, incr, incr, Some(incr), None, NoOptions, true, Some(GroupTag), routing);
    NestedStep(inner, incr, incr, incr, routing);
    PairCycle(inner.values, routing);
    RemapHalves(Payload(inner.values[0]), Payload(inner.values[1]), incr, incr);
  }

  /** The group loop of [a [b c]] over one cycle: a on [0, 1/2), then the
      nested group's b and c in the second half. */
  lemma NestedSteps(vs: seq<Pattern>, routing: Routing)
    requires LeafThenPair(vs, routing)
    ensures WellFormed(Group(vs))
    ensures var ws := vs[1].values;
      GroupSteps(Group(vs), 0.5, NoOptions, 0.0, 1.0, routing)
        == [Event(Payload(vs[0]), Arc(0.0, 0.5)),
            Event(Payload(ws[0]), Arc(0.5, 0.75)), Event(Payload(ws[1]), Arc(0.75, 1.0))]
  {
    var g := Group(vs);
    NestedSecondStep(vs, routing);
    MultipleIsAligned(0, 0.5);
    MultipleIsAligned(1, 0.5);
    assert Multiple(1, 0.5) == 0.5 && Multiple(2, 0.5) == 1.0;
    GetIndexAtStep(NoOptions, 2, 0.5, 0);
    GroupStepsUnfold(g, 0.5, NoOptions, 0.0, 1.0, routing);
    assert NextPhase(0.0, 0.5, 1.0) == 0.5;
    assert StepEvents(g, 0.5, NoOptions, 0.0, 1.0, routing) == [Event(Payload(vs[0]), Arc(0.0, 0.5))];
    GroupStepsUnfold(g, 0.5, NoOptions, 0.5, 1.0, routing);
    assert NextPhase(0.5, 0.5, 1.0) == 1.0;
  }

  /** [a [b c]], such as [0 [1 2]], over one cycle: a on [0, 1/2), b on
      [1/2, 3/4), c on [3/4, 1); the nested group subdivides the step it
      takes. */
  lemma NestedExample(vs: seq<Pattern>, routing: Routing)
    requires LeafThenPair(vs, routing)
    ensures WellFormed(Group(vs))
    ensures var ws := vs[1].values;
      Queried(Group(vs), 0.0, 1.0, routing)
        == [Event(Payload(vs[0]), Arc(0.0, 0.5)),
            Event(Payload(ws[0]), Arc(0.5, 0.75)), Event(Payload(ws[1]), Arc(0.75, 1.0))]
  {
    NestedSteps(vs, routing);
    assert PhaseIncr(Group(vs)) == 0.5;
    MultipleIsAligned(0, 0.5);
    AlignedGroupQuery(vs, 0.0, 1.0, routing);
    var steps := GroupSteps(Group(vs), 0.5, NoOptions, 0.0, 1.0, routing);
    InWindowKeepsAll(steps, 0.0, 1.0);
    ShiftedBackByZero(steps);
  }

  /** The branches of a polymeter of two groups from any phase b: the
      loops of both groups at the left group's step, each kept to the
      window [b, end); the right group's members are selected by step
      count. */
  lemma PolymeterBranches(ls: seq<Pattern>, rs: seq<Pattern>, b: real, duration: real, end: real, routing: Routing)
    requires WellFormed(Group(ls)) && WellFormed(Group(rs)) && b >= 0.0 && end == b + duration
    ensures WellFormed(Polymeter(Group(ls), Group(rs)))
    ensures var incr := PhaseIncr(Group(ls));
      PolymeterEvents(Polymeter(Group(ls), Group(rs)), b, duration, routing)
        == InWindow(GroupSteps(Group(ls), incr, NoOptions, b, end, routing), b, end)
         + InWindow(GroupSteps(Group(rs), incr, Options(true, incr), b, end, routing), b, end)
  {
    var incr := PhaseIncr(Group(ls));
    assert incr == 1.0 / |ls| as real;
    PolymeterBranch(Group(ls), incr, NoOptions, b, duration, end, routing);
    PolymeterBranch(Group(rs), incr, Options(true, incr), b, duration, end, routing);
    assert PolymeterEvents(Polymeter(Group(ls), Group(rs)), b, duration, routing)
        == Processed(Group(ls), duration, b, None, Some(incr), NoOptions, false, Some(PolymeterTag), routing)
         + Processed(Group(rs), duration, b, None, Some(incr), Options(true, incr), false, Some(PolymeterTag), routing);
  }

  /** A group under a polymeter keeps its phase and runs its loop at the
      step it is given. */
  lemma PolymeterBranch(g: Pattern, incr: real, options: IndexOptions, b: real, duration: real, end: real, routing: Routing)
    requires g.Group? && WellFormed(g) && incr > 0.0 && ValidOptions(options) && b >= 0.0 && end == b + duration
    ensures Processed(g, duration, b, None, Some(incr), options, false, Some(PolymeterTag), routing)
         == InWindow(GroupSteps(g, incr, options, b, end, routing), b, end)
  {
    assert !ShouldReset(g.Type(), Some(PolymeterTag));
    assert Processed(g, duration, b, None, Some(incr), options, false, Some(PolymeterTag), routing)
        == GroupEvents(g, b, duration, Some(incr), options, routing);
  }

  /** One branch of a polymeter over a flat group from step boundary j,
      kept to the window and moved back to that boundary: its reference
      result from step j. */
  lemma BranchAt(vs: seq<Pattern>, incr: real, options: IndexOptions, j: nat, b: real, duration: real, end: real, routing: Routing)
    requires WellFormed(Group(vs)) && AllDirect(vs, routing) && incr > 0.0
    requires StepIndexed(options, |vs|, incr)
    requires b == Multiple(j, incr) && end == b + duration
    ensures ShiftedBack(InWindow(GroupSteps(Group(vs), incr, options, b, end, routing), b, end), b)
         == FlatEvents(vs, incr, j, duration)
  {
    var steps := GroupSteps(Group(vs), incr, options, b, end, routing);
    FlatGroupSteps(Group(vs), incr, options, j, end, routing);
    assert StepRun(steps, vs, incr, j, end) && end <= Multiple(j + |steps|, incr);
    RunKeptAll(steps, vs, incr, j, b, end);
    RunShiftedBack(steps, vs, incr, j, b, duration, end);
  }

  /** A run of step events from step j up to `end` lies inside the window. */
  lemma RunKeptAll(steps: seq<Event>, vs: seq<Pattern>, incr: real, j: nat, b: real, end: real)
    requires |vs| > 0 && Leaves(vs) && incr > 0.0 && StepRun(steps, vs, incr, j, end) && b == Multiple(j, incr)
    ensures InWindow(steps, b, end) == steps
  {
    StepRunStarts(steps, vs, incr, j, end);
    InWindowKeepsAll(steps, b, end);
  }

  /** A run of step events from step j that covers the window, moved back
      to step j, is the reference result from step j. */
  lemma RunShiftedBack(steps: seq<Event>, vs: seq<Pattern>, incr: real, j: nat, b: real, duration: real, end: real)
    requires |vs| > 0 && Leaves(vs) && incr > 0.0 && b == Multiple(j, incr) && end == b + duration
    requires StepRun(steps, vs, incr, j, end) && end <= Multiple(j + |steps|, incr)
    ensures ShiftedBack(steps, b) == FlatEvents(vs, incr, j, duration)
  {
    RunInWindow(steps, vs, incr, j, duration);
    RunQuery(steps, vs, incr, j, duration);
    FlatResultIsFlatEvents(WindowQuery(steps, Multiple(j, incr), duration), vs, incr, j, duration);
  }

  /** Two lists already kept to a window, concatenated, are kept whole by
      it once more, and moved back part by part. */
  lemma WindowedConcat(left: seq<Event>, right: seq<Event>, l: seq<Event>, r: seq<Event>, b: real, end: real)
    requires left == InWindow(l, b, end) && right == InWindow(r, b, end)
    ensures ShiftedBack(InWindow(left + right, b, end), b) == ShiftedBack(left, b) + ShiftedBack(right, b)
  {
    InWindowKeepsAll(left + right, b, end);
    ShiftedBackConcat(left, right, b);
  }

  /** Moving a concatenation back moves each part back. */
  lemma ShiftedBackConcat(a: seq<Event>, c: seq<Event>, offset: real)
    ensures ShiftedBack(a + c, offset) == ShiftedBack(a, offset) + ShiftedBack(c, offset)
  {
  }

  /** Queried from a boundary of its own step, a polymeter is its
      handler's result kept to the window and moved back to that boundary. */
  lemma PolymeterAtBoundary(p: Pattern, b: real, duration: real, end: real, routing: Routing)
    requires p.Polymeter? && WellFormed(p) && b >= 0.0 && Mod(b, PhaseIncr(p)) == 0.0 && end == b + duration
    ensures Queried(p, b, duration, routing)
         == ShiftedBack(InWindow(PolymeterEvents(p, b, duration, routing), b, end), b)
  {
    assert AdjustPhase(b, PhaseIncr(p), end) == b;
    assert !ShouldReset(p.Type(), None);
    assert Processed(p, duration, b, None, None, NoOptions, false, None, routing) == PolymeterEvents(p, b, duration, routing);
  }

  /** A polymeter of two flat groups queried from any step boundary j of
      its left group: the left group's events followed by the right
      group's, both at the left group's step 1/n, the right group's k-th
      step taking its member k mod m. */
  lemma PolymeterQuery(ls: seq<Pattern>, rs: seq<Pattern>, j: nat, duration: real, routing: Routing)
    requires WellFormed(Group(ls)) && WellFormed(Group(rs)) && AllDirect(ls, routing) && AllDirect(rs, routing)
    ensures WellFormed(Polymeter(Group(ls), Group(rs)))
    ensures var incr := PhaseIncr(Group(ls));
      Queried(Polymeter(Group(ls), Group(rs)), Multiple(j, incr), duration, routing)
        == FlatEvents(ls, incr, j, duration) + FlatEvents(rs, incr, j, duration)
  {
    var p := Polymeter(Group(ls), Group(rs));
    var incr := PhaseIncr(Group(ls));
    var b := Multiple(j, incr);
    var end := b + duration;
    PolymeterBranches(ls, rs, b, duration, end, routing);
    var left := InWindow(GroupSteps(Group(ls), incr, NoOptions, b, end, routing), b, end);
    var right := InWindow(GroupSteps(Group(rs), incr, Options(true, incr), b, end, routing), b, end);
    MultipleIsAligned(j, incr);
    assert PhaseIncr(p) == incr;
    PolymeterAtBoundary(p, b, duration, end, routing);
    BranchAt(ls, incr, NoOptions, j, b, duration, end, routing);
    BranchAt(rs, incr, Options(true, incr), j, b, duration, end, routing);
    WindowedConcat(left, right, GroupSteps(Group(ls), incr, NoOptions, b, end, routing),
                   GroupSteps(Group(rs), incr, Options(true, incr), b, end, routing), b, end);
  }

  /** The events of a flat group over two cycles at step 1/2, given by the
      steps' members; a helper for the polymeter example. */
  lemma HalfStepEvents(vs: seq<Pattern>, ls: seq<Pattern>, m0: nat, m1: nat, m2: nat, m3: nat)
    requires |vs| > 0 && Leaves(vs) && |ls| == 2 && WellFormed(Group(ls))
    requires m0 == 0 % |vs| && m1 == 1 % |vs| && m2 == 2 % |vs| && m3 == 3 % |vs|
    ensures FlatEvents(vs, PhaseIncr(Group(ls)), 0, 2.0)
         == [Event(Payload(vs[m0]), Arc(0.0, 0.5)), Event(Payload(vs[m1]), Arc(0.5, 1.0)),
             Event(Payload(vs[m2]), Arc(1.0, 1.5)), Event(Payload(vs[m3]), Arc(1.5, 2.0))]
  {
    var incr := PhaseIncr(Group(ls));
    var r := FlatEvents(vs, incr, 0, 2.0);
    assert incr == 0.5;
    assert Multiple(1, 0.5) == 0.5 && Multiple(2, 0.5) == 1.0;
    assert Multiple(3, 0.5) == 1.5 && Multiple(4, 0.5) == 2.0;
    CycleSteps(ls, 2, 0);
    CycleSteps(ls, 2, 1);
    CycleSteps(ls, 2, 2);
    CycleSteps(ls, 2, 3);
    assert r[0] == QueryEvent(vs, incr, 0, 0, 2.0);
    assert r[1] == QueryEvent(vs, incr, 0, 1, 2.0);
    assert r[2] == QueryEvent(vs, incr, 0, 2, 2.0);
    assert r[3] == QueryEvent(vs, incr, 0, 3, 2.0);
    FourEvents(r, r[0], r[1], r[2], r[3]);
  }

  /** The polymeter of [a b] and [c d e], such as [0 1] and [2 3 4], over
      two cycles: a, b, a, b from the left branch, then c, d, e, c from the
      right branch, each on one step of 1/2. */
  lemma PolymeterExample(ls: seq<Pattern>, rs: seq<Pattern>, routing: Routing)
    requires |ls| == 2 && |rs| == 3
    requires WellFormed(Group(ls)) && WellFormed(Group(rs)) && AllDirect(ls, routing) && AllDirect(rs, routing)
    ensures WellFormed(Polymeter(Group(ls), Group(rs)))
    ensures Queried(Polymeter(Group(ls), Group(rs)), 0.0, 2.0, routing)
         == [Event(Payload(ls[0]), Arc(0.0, 0.5)), Event(Payload(ls[1]), Arc(0.5, 1.0)),
             Event(Payload(ls[0]), Arc(1.0, 1.5)), Event(Payload(ls[1]), Arc(1.5, 2.0))]
          + [Event(Payload(rs[0]), Arc(0.0, 0.5)), Event(Payload(rs[1]), Arc(0.5, 1.0)),
             Event(Payload(rs[2]), Arc(1.0, 1.5)), Event(Payload(rs[0]), Arc(1.5, 2.0))]
  {
    assert Multiple(0, PhaseIncr(Group(ls))) == 0.0;
    PolymeterQuery(ls, rs, 0, 2.0, routing);
    HalfStepEvents(ls, ls, 0, 1, 0, 1);
    HalfStepEvents(rs, ls, 0, 1, 2, 0);
  }

  /** A list whose first event starts before the window and whose others
      start inside it loses exactly its first event. */
  lemma InWindowDropsFirst(events: seq<Event>, lo: real, hi: real)
    requires |events| > 0 && events[0].arc.start < lo
    requires forall i :: 1 <= i < |events| ==> lo <= events[i].arc.start < hi
    ensures InWindow(events, lo, hi) == events[1..]
  {
    InWindowKeepsAll(events[1..], lo, hi);
  }

  lemma ThreeEvents(r: seq<Event>, e0: Event, e1: Event, e2: Event)
    requires |r| == 3 && r[0] == e0 && r[1] == e1 && r[2] == e2
    ensures r == [e0, e1, e2]
  {
  }

  /** The loop at queryArc.js:171 emits one event per step that starts
      before `end`. */
  lemma StepRunCount(r: seq<Event>, vs: seq<Pattern>, incr: real, end: real)
    requires |vs| > 0 && Leaves(vs) && incr > 0.0
    requires StepRun(r, vs, incr, 0, end) && end <= Multiple(|r|, incr)
    ensures |r| == StepCount(incr, end)
  {
    if |r| > 0 {
      assert r[|r| - 1] == StepEvent(vs, incr, |r| - 1, end) && Multiple(|r| - 1, incr) < end;
    }
    StepCountUnique(incr, end, |r|);
  }

  /** The group loop of a group of four leaves over one cycle: one event
      per quarter. */
  lemma QuarterSteps(vs: seq<Pattern>, routing: Routing)
    requires |vs| == 4 && WellFormed(Group(vs)) && AllDirect(vs, routing)
    ensures GroupSteps(Group(vs), PhaseIncr(Group(vs)), NoOptions, 0.0, 1.0, routing)
         == [Event(Payload(vs[0]), Arc(0.0, 0.25)), Event(Payload(vs[1]), Arc(0.25, 0.5)),
             Event(Payload(vs[2]), Arc(0.5, 0.75)), Event(Payload(vs[3]), Arc(0.75, 1.0))]
  {
    var incr := PhaseIncr(Group(vs));
    assert incr == 0.25;
    assert Multiple(0, incr) == 0.0;
    FlatGroupSteps(Group(vs), incr, NoOptions, 0, 1.0, routing);
    var r := GroupSteps(Group(vs), incr, NoOptions, 0.0, 1.0, routing);
    StepRunCount(r, vs, incr, 1.0);
    CycleSteps(vs, 1, 0);
    assert Multiple(1, 0.25) == 0.25 && Multiple(2, 0.25) == 0.5;
    assert Multiple(3, 0.25) == 0.75 && Multiple(4, 0.25) == 1.0;
    assert r[0] == StepEvent(vs, incr, 0, 1.0);
    assert r[1] == StepEvent(vs, incr, 1, 1.0);
    assert r[2] == StepEvent(vs, incr, 2, 1.0);
    assert r[3] == StepEvent(vs, incr, 3, 1.0);
    FourEvents(r, r[0], r[1], r[2], r[3]);
  }

  /** The quarters of a cycle, filtered to the cycle, then to the window
      [1/8, 9/8), and moved back by 1/8: the first quarter starts before
      the window and is dropped. */
  lemma MidWindow(a: Value, b: Value, c: Value, d: Value)
    ensures var quarters := [Event(a, Arc(0.0, 0.25)), Event(b, Arc(0.25, 0.5)),
                             Event(c, Arc(0.5, 0.75)), Event(d, Arc(0.75, 1.0))];
      ShiftedBack(InWindow(InWindow(quarters, 0.0, 1.0), 0.125, 1.125), 0.125)
        == [Event(b, Arc(0.125, 0.375)), Event(c, Arc(0.375, 0.625)), Event(d, Arc(0.625, 0.875))]
  {
    var quarters := [Event(a, Arc(0.0, 0.25)), Event(b, Arc(0.25, 0.5)),
                     Event(c, Arc(0.5, 0.75)), Event(d, Arc(0.75, 1.0))];
    InWindowKeepsAll(quarters, 0.0, 1.0);
    InWindowDropsFirst(quarters, 0.125, 1.125);
    var shifted := ShiftedBack(quarters[1..], 0.125);
    assert shifted[0] == Event(b, Arc(0.125, 0.375));
    assert shifted[1] == Event(c, Arc(0.375, 0.625));
    assert shifted[2] == Event(d, Arc(0.625, 0.875));
    ThreeEvents(shifted, shifted[0], shifted[1], shifted[2]);
  }

  /** A query of a group of four leaves, such as [0 1 2 3], started in the
      middle of its first step, at 1/8, for one cycle. The loop runs from
      the step boundary 0 for one cycle, the event of the straddled step
      starts before the window and is dropped, and nothing is produced
      after 7/8: the three middle members, each on a whole step moved back
      by 1/8. */
  lemma MidStepExample(vs: seq<Pattern>, routing: Routing)
    requires |vs| == 4 && WellFormed(Group(vs)) && AllDirect(vs, routing)
    ensures Queried(Group(vs), 0.125, 1.0, routing)
         == [Event(Payload(vs[1]), Arc(0.125, 0.375)), Event(Payload(vs[2]), Arc(0.375, 0.625)),
             Event(Payload(vs[3]), Arc(0.625, 0.875))]
  {
    var incr := PhaseIncr(Group(vs));
    assert incr == 0.25;
    assert Multiple(0, incr) == 0.0;
    ModOfDecomposition(0.125, incr, 0, 0.125);
    assert AdjustPhase(0.125, incr, 1.125) == 0.0;
    GroupQuery(vs, 0.125, 1.0, routing);
    QuarterSteps(vs, routing);
    MidWindow(Payload(vs[0]), Payload(vs[1]), Payload(vs[2]), Payload(vs[3]));
  }
}
