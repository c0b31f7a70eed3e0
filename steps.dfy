/** The pure step helpers of the query engine: a node's step size, phase
    alignment, step advancement and clipping, member selection, the reset
    heuristic and the local-to-parent arc remap. */
module Steps {
  import opened Rational
  import opened Pattern

  /** `Array.prototype.indexOf`: the first position of `x` in `s`, or -1. */
  function IndexOf<T(==)>(s: seq<T>, x: T): (r: int)
    ensures -1 <= r < |s|
    ensures r == -1 <==> x !in s
    ensures r >= 0 ==> s[r] == x && x !in s[..r]
  {
    if |s| == 0 then -1
    else if s[0] == x then 0
    else
      var k := IndexOf(s[1..], x);
      if k == -1 then -1
      else
        assert s[..k + 1] == [s[0]] + s[1..][..k];
        k + 1
  }

  /** Node types whose sub-patterns restart at phase 0: 'fast', undefined
      and 'group'. */
  const ResetPhaseTags: seq<Tag> := [Tagged("fast"), Untyped, Tagged("group")]

  predicate IsResetTag(t: Tag) {
    t == Tagged("fast") || t == Untyped || t == Tagged("group")
  }

  /** The reset heuristic: a node restarts at phase 0 exactly when its own
      type and its parent's type are both reset types; a node with no parent
      never restarts. Only one generation of parentage is inspected. */
  function ShouldReset(t: Tag, parent: Option<Tag>): (r: bool)
    ensures r <==> IsResetTag(t) && parent.Some? && IsResetTag(parent.value)
  {
    var reset := IndexOf(ResetPhaseTags, t) > -1;
    var parentReset := parent.Some? && IndexOf(ResetPhaseTags, parent.value) > -1;
    reset && parentReset
  }

  /** How the group loop treats a member that is a leaf. `AsWritten` tests
      `isNaN(member.value)` (queryArc.js:182), so text that is not a number is
      queried as a sub-pattern. `LeavesDirect` emits every number and string
      constant as an event itself, as the comment at queryArc.js:181 says. */
  datatype Routing = AsWritten | LeavesDirect

  /** The group loop emits member `p` as an event itself rather than querying
      it as a sub-pattern. */
  predicate Direct(p: Pattern, routing: Routing) {
    match routing
    case AsWritten => !IsNaN(p)
    case LeavesDirect => p.Number? || p.Str?
  }

  /** Arcs of every node type except 'polymeter' are remapped. */
  function ShouldRemap(p: Pattern): (r: bool)
    ensures r <==> !p.Polymeter?
  {
    IndexOf([Tagged("polymeter")], p.Type()) == -1
  }

  /** A node's natural step size: one over the member count of a group (of
      the left branch, for a polymeter), and one cycle for a leaf. */
  function PhaseIncr(p: Pattern): (r: real)
    requires WellFormed(p)
    ensures r > 0.0
    ensures p.Group? ==> Multiple(|p.values|, r) == 1.0
    ensures p.Polymeter? ==> Multiple(|p.left.values|, r) == 1.0
    ensures p.Number? || p.Str? ==> r == 1.0
  {
    match p
    case Polymeter(l, _) =>
      assert WellFormed(l);
      StepOfCount(|l.values|);
      1.0 / |l.values| as real
    case Number(_) => 1.0
    case Str(_) => 1.0
    case Group(vs) =>
      StepOfCount(|vs|);
      1.0 / |vs| as real
  }

  /** `n` steps of 1/n make a cycle. */
  lemma StepOfCount(n: nat)
    requires n > 0
    ensures 1.0 / n as real > 0.0
    ensures Multiple(n, 1.0 / n as real) == 1.0
  {
    MultipleIsProduct(n, 1.0 / n as real);
  }

  /** Maps an arc of a sub-pattern's local time into its parent's time. From
      a step-aligned `phase` both ends go through x |-> x * incr + phase, so
      order is kept and lengths scale by `incr`; otherwise the end is offset
      by `incr mod phase` instead of `phase`. */
  function GetMappedArc(arc: Arc, phase: real, incr: real): (r: Arc)
    requires phase >= 0.0 && incr > 0.0
    ensures r.start == phase + arc.start * incr
    ensures Mod(phase, incr) == 0.0 ==>
      && r.end - r.start == (arc.end - arc.start) * incr
      && (arc.start <= arc.end ==> r.start <= r.end)
    ensures Mod(phase, incr) != 0.0 ==> phase > 0.0 && r.end == Mod(incr, phase) + arc.end * incr
  {
    if Mod(phase, incr) != 0.0 then
      Arc(arc.start * incr + phase, arc.end * incr + Mod(incr, phase))
    else
      assert (arc.end - arc.start) * incr == arc.end * incr - arc.start * incr;
      Arc(arc.start * incr + phase, arc.end * incr + phase)
  }

  /** Aligns a start phase down to the step boundary it lies in. */
  function AdjustPhase(phase: real, incr: real, end: real): (r: real)
    requires phase >= 0.0 && incr > 0.0
    ensures phase == 0.0 ==> r == 0.0
    ensures 0.0 <= r <= phase < r + incr
    ensures Mod(r, incr) == 0.0
    ensures Mod(phase, incr) == 0.0 ==> r == phase
  {
    if phase == 0.0 then 0.0
    else
      MultipleIsAligned(Quotient(phase, incr), incr);
      phase - Mod(phase, incr)
  }

  /** The next phase after an aligned step: one step on, but never past `end`. */
  function AdvancePhase(phase: real, incr: real, end: real): (r: real)
    requires incr > 0.0
    ensures phase < end ==> phase < r <= end
    ensures r <= phase + incr
  {
    if phase + incr <= end then phase + incr else end
  }

  /** The duration of the step at `phase`: a whole step, clipped at `end`. */
  function CalculateDuration(phase: real, incr: real, end: real): (r: real)
    requires incr > 0.0
    ensures phase < end ==> 0.0 < r <= incr && phase + r <= end
    ensures phase + r == AdvancePhase(phase, incr, end)
  {
    if phase + incr <= end then incr else end - phase
  }

  /** The phase the group loop moves to after the step at `phase`: from an
      aligned phase a clipped step, otherwise on to the next step boundary. */
  function NextPhase(phase: real, incr: real, end: real): real
    requires phase >= 0.0 && incr > 0.0
  {
    if Mod(phase, incr) == 0.0 then AdvancePhase(phase, incr, end)
    else phase + (incr - Mod(phase, incr))
  }

  /** Options under which the member at the k-th step is member k mod count. */
  predicate StepIndexed(options: IndexOptions, count: nat, incr: real) {
    match options
    case NoOptions => Multiple(count, incr) == 1.0
    case Options(overrideIncr, i) => overrideIncr && i == incr && incr > 0.0
  }

  predicate ValidOptions(options: IndexOptions) {
    options.Options? && options.overrideIncr ==> options.incr > 0.0
  }

  /** The member selected at `phase`: by absolute phase (floor of phase times
      length, wrapped), by step count under a polymeter's override, and the
      first member when options are present without the override. */
  function GetIndex(options: IndexOptions, count: nat, phase: real): (r: int)
    requires count > 0 && phase >= 0.0 && ValidOptions(options)
    ensures 0 <= r < count
    ensures options.NoOptions? ==> r == Multiple(count, phase).Floor % count
    ensures options.Options? && options.overrideIncr ==> r == Quotient(phase, options.incr) % count
    ensures options.Options? && !options.overrideIncr ==> r == 0
  {
    match options
    case NoOptions =>
      FloorOfMod(Multiple(count, phase), count);
      Mod(Multiple(count, phase), count as real).Floor
    case Options(overrideIncr, incr) =>
      if overrideIncr then Quotient(phase, incr) % count else 0
  }

  /** The selection is the source's `phase.mul(length).mod(length).floor()`
      and `phase.div(incr).mod(length).floor()`. */
  lemma GetIndexAsWritten(options: IndexOptions, count: nat, phase: real)
    requires count > 0 && phase >= 0.0 && ValidOptions(options)
    ensures options.NoOptions? ==>
      GetIndex(options, count, phase) == Mod(phase * count as real, count as real).Floor
    ensures options.Options? && options.overrideIncr ==>
      GetIndex(options, count, phase) == Mod(phase / options.incr, count as real).Floor
  {
    if options.NoOptions? {
      MultipleIsProduct(count, phase);
      FloorOfMod(phase * count as real, count);
    } else if options.overrideIncr {
      var x := phase / options.incr;
      assert x >= 0.0;
      QuotientIsFloor(phase, options.incr);
      FloorOfMod(x, count);
    }
  }

  /** For a whole modulus the remainder commutes with the floor. */
  lemma FloorOfMod(x: real, n: nat)
    requires x >= 0.0 && n > 0
    ensures Mod(x, n as real).Floor == x.Floor % n
  {
    var f := x.Floor;
    var k := f / n;
    var s := x - Multiple(k, n as real);
    MultipleOfWhole(k, n);
    assert f == k * n + f % n;
    ModOfDecomposition(x, n as real, k, s);
  }

  /** Under step-indexed options, the k-th step selects member k mod count. */
  lemma GetIndexAtStep(options: IndexOptions, count: nat, incr: real, k: nat)
    requires count > 0 && incr > 0.0 && StepIndexed(options, count, incr)
    ensures ValidOptions(options)
    ensures GetIndex(options, count, Multiple(k, incr)) == k % count
  {
    if options.NoOptions? {
      MultipleOfMultiple(count, k, incr);
      MultipleOfMultiple(k, count, incr);
      MultipleOfWhole(k, 1);
      assert count * k == k * count;
      assert Multiple(count, Multiple(k, incr)) == k as real;
    } else {
      MultipleIsAligned(k, incr);
    }
  }

  /** The termination measure of the group loop: whole steps left before
      `end`, plus one for the step in progress (two when mid-step). */
  function StepsLeft(phase: real, end: real, incr: real): nat
    requires phase >= 0.0 && incr > 0.0
  {
    if phase >= end then 0
    else (if Mod(phase, incr) == 0.0 then 1 else 2) + Quotient(end - phase, incr)
  }

  /** Every group-loop iteration moves the phase strictly forward, lands on a
      step boundary unless it is clipped at `end`, never passes `end` from an
      aligned phase, and shrinks the termination measure. */
  lemma {:induction false} NextPhaseProgress(phase: real, incr: real, end: real)
    requires phase >= 0.0 && incr > 0.0 && phase < end
    ensures phase < NextPhase(phase, incr, end)
    ensures Mod(phase, incr) == 0.0 ==> NextPhase(phase, incr, end) <= end
    ensures NextPhase(phase, incr, end) == end || Mod(NextPhase(phase, incr, end), incr) == 0.0
    ensures StepsLeft(NextPhase(phase, incr, end), end, incr) < StepsLeft(phase, end, incr)
  {
    var q := Quotient(phase, incr);
    var next := NextPhase(phase, incr, end);
    MultipleNext(q, incr);
    MultipleIsAligned(q + 1, incr);
    if Mod(phase, incr) == 0.0 {
      if phase + incr <= end && next < end {
        var d := Quotient(end - phase, incr);
        MultipleNext(d - 1, incr);
        MultipleOrder(d, 0, incr);
        ModOfDecomposition(end - next, incr, d - 1, Mod(end - phase, incr));
      }
    } else if next < end {
      QuotientMonotone(end - next, end - phase, incr);
    }
  }
}
