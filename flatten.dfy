/** The flattener: a walk over a nested group of steps that writes every
    non-group step into a map keyed by its exact position in the cycle.
    Nested groups subdivide their parent's slot; a repeat node walks its
    value several times in one cycle.

    In the objects the flattener reads, a group is `{type: 'group', '0': s0,
    '1': s1, ...}`: its keys are its members plus `type`, which the walk
    skips. Members are modelled in key order as a sequence. */
module Flatten {
  import opened Rational
  import opened Pattern

  /** The part of `dur` each of `n` equal parts takes: dur * 1/n. */
  function Share(dur: real, n: int): real
    requires n != 0
  {
    dur * (1.0 / n as real)
  }

  /** n shares of `dur` make up `dur`, and a share of a positive length is
      positive. */
  lemma SharesFill(n: nat, dur: real)
    requires n > 0
    ensures Multiple(n, Share(dur, n)) == dur
    ensures dur > 0.0 ==> Share(dur, n) > 0.0
  {
    MultipleIsProduct(n, Share(dur, n));
    assert n as real * (dur * (1.0 / n as real)) == dur * (n as real * (1.0 / n as real));
  }

  /** What flatten is given: a group at the top (its members), or a repeat
      node `{type: 'repeat', value, repeatValue: {value: times}}`. */
  datatype Input = Plain(members: seq<Pattern>) | Repeat(value: Pattern, times: int)

  /** The accumulators of the walk: the current position and the entries
      written so far. */
  datatype State = State(position: real, entries: map<real, Pattern>)

  /** The flattened object: its position-keyed entries, and whether it also
      carries `type: 'group'` (the repeat branch adds it). */
  datatype Flattened = Flattened(entries: map<real, Pattern>, typed: bool)

  /** `Object.keys(node).length`: the `type` key plus a leaf's `value`, a
      polymeter's `left` and `right`, or a group's members. */
  function KeyCount(p: Pattern): nat {
    match p
    case Number(_) => 2
    case Str(_) => 2
    case Group(vs) => |vs| + 1
    case Polymeter(_, _) => 3
  }

  /** One member of a group whose members each take `dur`: a nested group is
      walked within the member's slot; any other step is written at the
      current position, which then moves on by `dur`. */
  function Member(s: State, step: Pattern, dur: real): Option<State>
    decreases step, 2
  {
    if step.Group? then Nested(s, step, dur)
    else Some(State(s.position + dur, s.entries[s.position := step]))
  }

  /** A nested group in a slot of `dur`: its members share the slot, each
      taking dur * 1/count. None when it is empty, since 1/0 throws. */
  function Nested(s: State, g: Pattern, dur: real): Option<State>
    requires g.Group?
    decreases g, 1
  {
    if |g.values| == 0 then None
    else Walk(s, g, 0, Share(dur, |g.values|))
  }

  /** The members of group `g` from index `k` on, in order. */
  function Walk(s: State, g: Pattern, k: nat, dur: real): Option<State>
    requires g.Group? && k <= |g.values|
    decreases g, 0, |g.values| - k
  {
    if k == |g.values| then Some(s)
    else
      match Member(s, g.values[k], dur)
      case None => None
      case Some(next) => Walk(next, g, k + 1, dur)
  }

  /** The passes of the repeat branch from pass `i` on: each walks `g` at
      step `dur`; when `shift` holds, pass i is followed by a further move of
      the position by dur * i, as the source does. */
  function Passes(s: State, g: Pattern, dur: real, i: nat, times: int, shift: bool): Option<State>
    requires g.Group?
    decreases times - i
  {
    if i >= times then Some(s)
    else
      match Walk(s, g, 0, dur)
      case None => None
      case Some(next) =>
        var position := if shift then next.position + Multiple(i, dur) else next.position;
        Passes(State(position, next.entries), g, dur, i + 1, times, shift)
  }

  /** The group a repeat walks: its value, wrapped as `{'0': value}` when it
      is not a group. */
  function RepeatTarget(value: Pattern): (g: Pattern)
    ensures g.Group? && |g.values| <= KeyCount(value) - 1
    ensures value.Group? ==> g == value
    ensures !value.Group? ==> g == Group([value])
  {
    if value.Group? then value else Group([value])
  }

  /** flatten: a plain group is walked from position 0 with each member
      taking 1/count; a repeat walks its value `times` times with each step
      taking 1/((keys - 1) * times) and adds `type: 'group'`. None where a
      step 1/0 throws. `shift` selects the source's extra move after each
      pass. */
  function Flattening(input: Input, shift: bool): Option<Flattened> {
    var start := State(0.0, map[]);
    match input
    case Plain(vs) =>
      if |vs| == 0 then None
      else
        (match Walk(start, Group(vs), 0, Share(1.0, |vs|))
         case None => None
         case Some(s) => Some(Flattened(s.entries, false)))
    case Repeat(value, times) =>
      var length := (KeyCount(value) - 1) * times;
      if length == 0 then None
      else
        match Passes(start, RepeatTarget(value), Share(1.0, length), 0, times, shift)
        case None => None
        case Some(s) => Some(Flattened(s.entries, true))
  }

  /** The walk's state, updated in place as `calc` runs. */
  class Flattener {
    var position: real
    var entries: map<real, Pattern>

    constructor ()
      ensures position == 0.0 && entries == map[]
    {
      position := 0.0;
      entries := map[];
    }

    function Current(): State
      reads this
    {
      State(position, entries)
    }

    /** calc: walks the members of `g`, each taking `dur`, recursing into
        nested groups; false where a nested group is empty. */
    method Calc(g: Pattern, dur: real) returns (ok: bool)
      requires g.Group?
      modifies this
      ensures ok <==> Walk(old(Current()), g, 0, dur).Some?
      ensures ok ==> Current() == Walk(old(Current()), g, 0, dur).value
      decreases g
    {
      ok := true;
      for k := 0 to |g.values|
        invariant Walk(old(Current()), g, 0, dur) == Walk(Current(), g, k, dur)
      {
        var step := g.values[k];
        ghost var before := Current();
        assert Walk(before, g, k, dur) == match Member(before, step, dur)
          case None => None
          case Some(next) => Walk(next, g, k + 1, dur);
        if step.Group? {
          if |step.values| == 0 {
            ok := false;
            return;
          }
          assert Member(before, step, dur) == Walk(before, step, 0, Share(dur, |step.values|));
          ok := Calc(step, Share(dur, |step.values|));
          if !ok {
            return;
          }
        } else {
          entries := entries[position := step];
          position := position + dur;
        }
      }
    }
  }

  /** flatten. With `shift` set the position moves on by groupDur * i after
      pass i, as the source does; with it clear the passes are laid end to
      end. */
  method Flatten(input: Input, shift: bool) returns (r: Option<Flattened>)
    ensures r == Flattening(input, shift)
  {
    var f := new Flattener();
    match input {
      case Plain(vs) =>
        if |vs| == 0 {
          return None;
        }
        var ok := f.Calc(Group(vs), Share(1.0, |vs|));
        r := if ok then Some(Flattened(f.entries, false)) else None;
      case Repeat(value, times) =>
        var length := (KeyCount(value) - 1) * times;
        if length == 0 {
          return None;
        }
        var groupDur := Share(1.0, length);
        var g := RepeatTarget(value);
        var i: nat := 0;
        while i < times
          invariant i == 0 || i <= times
          invariant Passes(State(0.0, map[]), g, groupDur, 0, times, shift)
                 == Passes(f.Current(), g, groupDur, i, times, shift)
          decreases times - i
        {
          var ok := f.Calc(g, groupDur);
          if !ok {
            return None;
          }
          if shift {
            f.position := f.position + Multiple(i, groupDur);
          }
          i := i + 1;
        }
        r := Some(Flattened(f.entries, true));
    }
  }
}
