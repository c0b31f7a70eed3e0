/** Two places where the query engine departs from what its own comments
    describe, each shown on a concrete input as written and then corrected,
    with the intended property proved about the correction.

    Text members: the group loop tests `isNaN(member.value)` (queryArc.js:182),
    so a string constant that is not a number is queried as a sub-pattern
    instead of being emitted, and lands in the wrong place. The comment at
    queryArc.js:181 says numeric and string constants are emitted directly;
    routing `LeavesDirect` does that.

    Mid-step queries: queryArc aligns a start in the middle of a step down to
    the step's boundary but keeps the window's duration (queryArc.js:17-26),
    so the steps at the end of the window are never generated. The comment
    at queryArc.js:92-93 says a mid-step start should advance to the start of
    the next step; `QueriedFromNextStep` does that. */
module QueryCorrections {
  import opened Rational
  import opened Pattern
  import opened Steps
  import opened Query
  import opened QueryFacts
  import opened QueryCases

  /** Text that JavaScript does not read as a number. */
  predicate Word(p: Pattern) {
    p.Str? && !NumericText(p.text)
  }

  /** As written, a word at step j of a group is queried as a sub-pattern: a
      string node is not restarted, so its event starts at the absolute phase
      p = j * incr, lasts one local cycle, and is then remapped from p again:
      [p + p * incr, p + (p + 1) * incr) instead of [p, p + incr). */
  lemma {:induction false} WordStep(vs: seq<Pattern>, j: nat, incr: real, p: real, end: real)
    requires WellFormed(Group(vs)) && Word(vs[j % |vs|])
    requires incr == PhaseIncr(Group(vs)) && p == Multiple(j, incr) && p + incr <= end
    ensures StepEvents(Group(vs), incr, NoOptions, p, end, AsWritten)
         == [Event(Payload(vs[j % |vs|]), Arc(p * incr + p, (p + 1.0) * incr + p))]
  {
    var m := vs[j % |vs|];
    GetIndexAtStep(NoOptions, |vs|, incr, j);
    MultipleNext(j, incr);
    MultipleIsAligned(j, incr);
    assert CalculateDuration(p, incr, end) == incr;
    assert !Direct(m, AsWritten) && ShouldRemap(m);
    assert StepEvents(Group(vs), incr, NoOptions, p, end, AsWritten)
        == Processed(m, incr, p, Some(incr), None, NoOptions, true, Some(GroupTag), AsWritten);
    WordProcessed(m, p, incr);
    assert StepEvents(Group(vs), incr, NoOptions, p, end, AsWritten)
        == [Event(Payload(m), Arc(p * incr + p, (p + 1.0) * incr + p))];
  }

  /** A string node queried as a group member from an aligned phase p: it is
      not restarted, so it spans [p, p + 1) before being remapped from p. */
  lemma {:induction false} WordProcessed(m: Pattern, p: real, incr: real)
    requires m.Str? && p >= 0.0 && incr > 0.0 && Mod(p, incr) == 0.0
    ensures Processed(m, incr, p, Some(incr), None, NoOptions, true, Some(GroupTag), AsWritten)
         == [Event(Payload(m), Arc(p * incr + p, (p + 1.0) * incr + p))]
  {
    assert !ShouldReset(m.Type(), Some(GroupTag));
    assert incr / incr == 1.0;
    var h := Handled(m, p, incr / incr, None, NoOptions, AsWritten);
    assert h == [Event(Payload(m), Arc(p, p + 1.0))];
    assert Processed(m, incr, p, Some(incr), None, NoOptions, true, Some(GroupTag), AsWritten) == Remapped(h, p, incr);
    var a := Arc(p, p + 1.0);
    RemapSingle(Payload(m), a, p, incr);
    assert Remapped([Event(Payload(m), a)], p, incr) == [Event(Payload(m), Arc(a.start * incr + p, a.end * incr + p))];
    assert Arc(a.start * incr + p, a.end * incr + p) == Arc(p * incr + p, (p + 1.0) * incr + p);
    assert h == [Event(Payload(m), a)];
    assert Remapped(h, p, incr) == [Event(Payload(m), Arc(p * incr + p, (p + 1.0) * incr + p))];
  }

  /** One event remapped from an aligned phase: both ends scaled by the step
      and moved on by the phase. */
  lemma {:induction false} RemapSingle(v: Value, a: Arc, p: real, incr: real)
    requires p >= 0.0 && incr > 0.0 && Mod(p, incr) == 0.0
    ensures Remapped([Event(v, a)], p, incr) == [Event(v, Arc(a.start * incr + p, a.end * incr + p))]
  {
    var m := Remapped([Event(v, a)], p, incr);
    assert m[0] == Event(v, GetMappedArc(a, p, incr));
  }

  /** As written, the group of two words [a b], such as [bd sn], over one
      cycle puts b on [3/4, 5/4) rather than on [1/2, 1): b starts a quarter
      cycle late and runs past the end of the cycle. */
  lemma {:induction false} WordPairAsWritten(vs: seq<Pattern>)
    requires |vs| == 2 && Word(vs[0]) && Word(vs[1])
    ensures WellFormed(Group(vs))
    ensures Queried(Group(vs), 0.0, 1.0, AsWritten)
         == [Event(Payload(vs[0]), Arc(0.0, 0.5)), Event(Payload(vs[1]), Arc(0.75, 1.25))]
  {
    var g := Group(vs);
    assert WellFormed(g);
    var incr := PhaseIncr(g);
    var steps := GroupSteps(g, incr, NoOptions, 0.0, 1.0, AsWritten);
    WordPairSteps(vs, incr);
    MultipleIsAligned(0, incr);
    AlignedGroupQuery(vs, 0.0, 1.0, AsWritten);
    InWindowKeepsAll(steps, 0.0, 1.0);
    ShiftedBackByZero(steps);
  }

  /** The group loop of [a b] over the first cycle, both words routed as
      written: a on [0, 1/2), b on [3/4, 5/4). */
  lemma {:induction false} WordPairSteps(vs: seq<Pattern>, incr: real)
    requires |vs| == 2 && Word(vs[0]) && Word(vs[1]) && WellFormed(Group(vs))
    requires incr == PhaseIncr(Group(vs))
    ensures GroupSteps(Group(vs), incr, NoOptions, 0.0, 1.0, AsWritten)
         == [Event(Payload(vs[0]), Arc(0.0, 0.5)), Event(Payload(vs[1]), Arc(0.75, 1.25))]
  {
    var g := Group(vs);
    assert incr == 0.5;
    assert Multiple(0, incr) == 0.0 && Multiple(1, incr) == 0.5;
    WordStep(vs, 0, incr, 0.0, 1.0);
    WordStep(vs, 1, incr, 0.5, 1.0);
    var e0 := Event(Payload(vs[0]), Arc(0.0, 0.5));
    var e1 := Event(Payload(vs[1]), Arc(0.75, 1.25));
    GroupStepsUnfold(g, incr, NoOptions, 0.0, 1.0, AsWritten);
    assert NextPhase(0.0, incr, 1.0) == 0.5;
    GroupStepsUnfold(g, incr, NoOptions, 0.5, 1.0, AsWritten);
    assert NextPhase(0.5, incr, 1.0) == 1.0;
    assert GroupSteps(g, incr, NoOptions, 1.0, 1.0, AsWritten) == [];
    assert GroupSteps(g, incr, NoOptions, 0.0, 1.0, AsWritten) == [e0] + ([e1] + []);
  }

  /** With every leaf emitted directly, the same words fall on the two halves
      of the cycle. */
  lemma {:induction false} WordPairDirect(vs: seq<Pattern>)
    requires |vs| == 2 && Word(vs[0]) && Word(vs[1])
    ensures WellFormed(Group(vs))
    ensures Queried(Group(vs), 0.0, 1.0, LeavesDirect)
         == [Event(Payload(vs[0]), Arc(0.0, 0.5)), Event(Payload(vs[1]), Arc(0.5, 1.0))]
  {
    assert WellFormed(Group(vs));
    assert AllDirect(vs, LeavesDirect);
    PairCycle(vs, LeavesDirect);
  }

  /** With every leaf emitted directly, a query of any group of numbers and
      strings from a step boundary j/n is the reference result: one event per
      step that starts in the window, member (j + i) mod n over step i. */
  lemma {:induction false} LeafGroupQuery(vs: seq<Pattern>, j: nat, duration: real)
    requires WellFormed(Group(vs)) && Leaves(vs)
    ensures var incr := PhaseIncr(Group(vs));
      Queried(Group(vs), Multiple(j, incr), duration, LeavesDirect) == FlatEvents(vs, incr, j, duration)
  {
    assert AllDirect(vs, LeavesDirect);
    FlatGroupQuery(vs, j, duration, LeavesDirect);
  }

  /** The index of the first step boundary at or after `phase`. */
  function FirstStep(phase: real, incr: real): (q: nat)
    requires phase >= 0.0 && incr > 0.0
    ensures phase <= Multiple(q, incr)
    ensures q > 0 ==> Multiple(q - 1, incr) < phase
  {
    var q := Quotient(phase, incr);
    MultipleNext(q, incr);
    if q > 0 then MultipleNext(q - 1, incr); (if Mod(phase, incr) == 0.0 then q else q + 1)
    else (if Mod(phase, incr) == 0.0 then q else q + 1)
  }

  /** queryArc started at the first step boundary b at or after `phase` and
      run to the end of the window, as the comment at queryArc.js:92-93
      describes: the query from b, whose arcs are relative to b, made
      relative to `phase`. */
  function QueriedFromNextStep(p: Pattern, phase: real, duration: real, routing: Routing): (r: seq<Event>)
    requires WellFormed(p) && phase >= 0.0
    ensures forall i :: 0 <= i < |r| ==> 0.0 <= r[i].arc.start < duration
  {
    var b := Multiple(FirstStep(phase, PhaseIncr(p)), PhaseIncr(p));
    ShiftedBack(Queried(p, b, phase + duration - b, routing), phase - b)
  }

  /** The corrected query unfolded at its first step boundary b. */
  lemma {:induction false} NextStepUnfold(p: Pattern, phase: real, duration: real, routing: Routing, b: real)
    requires WellFormed(p) && phase >= 0.0 && b == Multiple(FirstStep(phase, PhaseIncr(p)), PhaseIncr(p))
    ensures QueriedFromNextStep(p, phase, duration, routing) == ShiftedBack(Queried(p, b, phase + duration - b, routing), phase - b)
  {
  }

  /** `r` is, in order, the steps q, q + 1, ... of a flat group of leaves:
      event i is member (q + i) mod n over step q + i clipped at `end` and
      made relative to `phase`; each of those steps starts before `end`, and
      the step after the last starts at or after it. */
  predicate StepsFrom(r: seq<Event>, vs: seq<Pattern>, incr: real, q: nat, phase: real, end: real)
    requires |vs| > 0 && Leaves(vs)
  {
    && (forall i :: 0 <= i < |r| ==>
          && r[i] == Event(Payload(vs[(q + i) % |vs|]), Earlier(StepSpan(incr, q + i, end), phase))
          && Multiple(q + i, incr) < end)
    && end <= Multiple(q + |r|, incr)
  }

  /** The corrected query of a group whose members are all emitted directly,
      started anywhere, with q the first step at or after `phase`, is exactly
      the steps from q that start before the window's end, in order. With
      FirstStep's contract, these are the steps that start in
      [phase, phase + duration), each once. */
  lemma {:induction false} NextStepQuery(vs: seq<Pattern>, phase: real, duration: real, routing: Routing)
    requires WellFormed(Group(vs)) && AllDirect(vs, routing) && phase >= 0.0
    ensures StepsFrom(QueriedFromNextStep(Group(vs), phase, duration, routing), vs, PhaseIncr(Group(vs)),
                      FirstStep(phase, PhaseIncr(Group(vs))), phase, phase + duration)
  {
    var incr := PhaseIncr(Group(vs));
    NextStepFrom(vs, phase, duration, routing, incr, FirstStep(phase, incr));
  }

  /** NextStepQuery with the step size and the first step named. */
  lemma {:induction false} NextStepFrom(vs: seq<Pattern>, phase: real, duration: real, routing: Routing, incr: real, q: nat)
    requires WellFormed(Group(vs)) && AllDirect(vs, routing) && phase >= 0.0
    requires incr == PhaseIncr(Group(vs)) && q == FirstStep(phase, incr)
    ensures StepsFrom(QueriedFromNextStep(Group(vs), phase, duration, routing), vs, incr, q, phase, phase + duration)
  {
    var b := Multiple(q, incr);
    NextStepIsFlat(vs, phase, duration, routing, incr, q, b);
    NextStepRun(vs, incr, q, b, phase, phase + duration);
  }

  /** The corrected query of a group whose members are all emitted directly
      is the reference result from its first step boundary b = q * incr,
      made relative to `phase`. */
  lemma {:induction false} NextStepIsFlat(vs: seq<Pattern>, phase: real, duration: real, routing: Routing,
                                          incr: real, q: nat, b: real)
    requires WellFormed(Group(vs)) && AllDirect(vs, routing) && phase >= 0.0
    requires incr == PhaseIncr(Group(vs)) && q == FirstStep(phase, incr) && b == Multiple(q, incr)
    ensures QueriedFromNextStep(Group(vs), phase, duration, routing)
         == ShiftedBack(FlatEvents(vs, incr, q, phase + duration - b), phase - b)
  {
    FlatGroupQuery(vs, q, phase + duration - b, routing);
    NextStepUnfold(Group(vs), phase, duration, routing, b);
  }

  /** The reference result from step boundary b = q * incr up to `end`,
      made relative to `phase`, is the steps from q. */
  lemma {:induction false} NextStepRun(vs: seq<Pattern>, incr: real, q: nat, b: real, phase: real, end: real)
    requires |vs| > 0 && Leaves(vs) && incr > 0.0 && b == Multiple(q, incr)
    ensures StepsFrom(ShiftedBack(FlatEvents(vs, incr, q, end - b), phase - b), vs, incr, q, phase, end)
  {
    var f := FlatEvents(vs, incr, q, end - b);
    var r := ShiftedBack(f, phase - b);
    StepCountUnique(incr, end - b, |f|);
    assert end - b <= Multiple(|f|, incr);
    assert |f| > 0 ==> Multiple(|f| - 1, incr) < end - b;
    forall i | 0 <= i < |r|
      ensures r[i] == Event(Payload(vs[(q + i) % |vs|]), Earlier(StepSpan(incr, q + i, end), phase))
      ensures Multiple(q + i, incr) < end
    {
      NextStepEvent(vs, incr, q, i, b, phase, end);
      MultipleOrder(i, |f| - 1, incr);
      MultipleAdd(q, i, incr);
    }
    MultipleAdd(q, |f|, incr);
    assert end <= Multiple(q + |r|, incr);
    assert StepsFrom(r, vs, incr, q, phase, end);
  }

  /** Query event i from step q, made relative to `phase` rather than to
      b = q * incr, is step q + i made relative to `phase`. */
  lemma {:induction false} NextStepEvent(vs: seq<Pattern>, incr: real, q: nat, i: nat, b: real, phase: real, end: real)
    requires |vs| > 0 && Leaves(vs) && b == Multiple(q, incr)
    ensures var e := QueryEvent(vs, incr, q, i, end - b);
      Event(e.value, Earlier(e.arc, phase - b))
        == Event(Payload(vs[(q + i) % |vs|]), Earlier(StepSpan(incr, q + i, end), phase))
  {
    StepSpanShift(incr, q, i, end);
  }
}
