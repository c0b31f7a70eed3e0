/** What the flattener computes: when it is defined, where it writes and
    how many entries it leaves, for plain groups and for repeats. */
module FlattenFacts {
  import opened Rational
  import opened Pattern
  import opened Flatten

  /** A step the walk gets through: every group inside it is non-empty. */
  predicate Walkable(p: Pattern)
    decreases p, 1
  {
    p.Group? ==> |p.values| > 0 && MembersWalkable(p, 0)
  }

  predicate MembersWalkable(g: Pattern, k: nat)
    requires g.Group?
    decreases g, 0
  {
    forall i :: k <= i < |g.values| ==> Walkable(g.values[i])
  }

  /** The number of entries a step writes: one per non-group step inside it. */
  function LeafCount(p: Pattern): nat
    decreases p, 1
  {
    if p.Group? then MembersLeafCount(p, 0) else 1
  }

  function MembersLeafCount(g: Pattern, k: nat): nat
    requires g.Group? && k <= |g.values|
    decreases g, 0, |g.values| - k
  {
    if k == |g.values| then 0 else LeafCount(g.values[k]) + MembersLeafCount(g, k + 1)
  }

  /** Every entry written so far lies before the current position. */
  predicate Before(s: State) {
    forall x :: x in s.entries ==> x < s.position
  }

  /** From `s` to `t` the position does not go back, every entry is kept,
      and every new entry lies between the two positions. */
  predicate Grows(s: State, t: State) {
    && s.position <= t.position
    && (forall x :: x in s.entries ==> x in t.entries && t.entries[x] == s.entries[x])
    && (forall x :: x in t.entries && x !in s.entries ==> s.position <= x < t.position)
  }

  lemma GrowsTransitive(s: State, m: State, t: State)
    requires Grows(s, m) && Grows(m, t)
    ensures Grows(s, t)
  {
  }

  /** A step is walked exactly when every group inside it is non-empty. */
  lemma {:induction false} MemberDefined(s: State, step: Pattern, dur: real)
    ensures Member(s, step, dur).Some? <==> Walkable(step)
    decreases step, 2
  {
    if step.Group? {
      NestedDefined(s, step, dur);
    }
  }

  lemma {:induction false} NestedDefined(s: State, g: Pattern, dur: real)
    requires g.Group?
    ensures Nested(s, g, dur).Some? <==> |g.values| > 0 && MembersWalkable(g, 0)
    decreases g, 1
  {
    if |g.values| > 0 {
      WalkDefined(s, g, 0, Share(dur, |g.values|));
    }
  }

  lemma {:induction false} WalkDefined(s: State, g: Pattern, k: nat, dur: real)
    requires g.Group? && k <= |g.values|
    ensures Walk(s, g, k, dur).Some? <==> MembersWalkable(g, k)
    decreases g, 0, |g.values| - k
  {
    if k < |g.values| {
      MemberDefined(s, g.values[k], dur);
      match Member(s, g.values[k], dur)
      case None =>
      case Some(next) =>
        WalkDefined(next, g, k + 1, dur);
        assert MembersWalkable(g, k) <==> Walkable(g.values[k]) && MembersWalkable(g, k + 1);
    }
  }

  /** A walkable step moves the position on by exactly its slot. */
  lemma {:induction false} MemberAdvance(s: State, step: Pattern, dur: real)
    requires dur > 0.0 && Walkable(step)
    ensures Member(s, step, dur).Some?
    ensures Member(s, step, dur).value.position == s.position + dur
    decreases step, 2
  {
    if step.Group? {
      NestedAdvance(s, step, dur);
    }
  }

  /** A non-empty nested group fills exactly its slot. */
  lemma {:induction false} NestedAdvance(s: State, g: Pattern, dur: real)
    requires g.Group? && |g.values| > 0 && dur > 0.0 && MembersWalkable(g, 0)
    ensures Nested(s, g, dur).Some?
    ensures Nested(s, g, dur).value.position == s.position + dur
    decreases g, 1
  {
    SharesFill(|g.values|, dur);
    WalkAdvance(s, g, 0, Share(dur, |g.values|));
  }

  lemma {:induction false} WalkAdvance(s: State, g: Pattern, k: nat, dur: real)
    requires g.Group? && k <= |g.values| && dur > 0.0 && MembersWalkable(g, k)
    ensures Walk(s, g, k, dur).Some?
    ensures Walk(s, g, k, dur).value.position == s.position + Multiple(|g.values| - k, dur)
    decreases g, 0, |g.values| - k
  {
    if k < |g.values| {
      MemberAdvance(s, g.values[k], dur);
      WalkAdvance(Member(s, g.values[k], dur).value, g, k + 1, dur);
      MultipleAdd(1, |g.values| - (k + 1), dur);
      assert |g.values| - k == 1 + (|g.values| - (k + 1));
    }
  }

  /** A walkable step writes its leaves inside its slot, one entry each, and
      keeps everything written before. */
  lemma {:induction false} MemberLayout(s: State, step: Pattern, dur: real)
    requires dur > 0.0 && Before(s) && Walkable(step)
    ensures Member(s, step, dur).Some?
    ensures Before(Member(s, step, dur).value) && Grows(s, Member(s, step, dur).value)
    ensures |Member(s, step, dur).value.entries| == |s.entries| + LeafCount(step)
    decreases step, 2
  {
    MemberAdvance(s, step, dur);
    if step.Group? {
      NestedLayout(s, step, dur);
    } else {
      assert s.position !in s.entries;
    }
  }

  lemma {:induction false} NestedLayout(s: State, g: Pattern, dur: real)
    requires g.Group? && |g.values| > 0 && dur > 0.0
    requires Before(s) && MembersWalkable(g, 0)
    ensures Nested(s, g, dur).Some?
    ensures Before(Nested(s, g, dur).value) && Grows(s, Nested(s, g, dur).value)
    ensures |Nested(s, g, dur).value.entries| == |s.entries| + MembersLeafCount(g, 0)
    decreases g, 1
  {
    SharesFill(|g.values|, dur);
    WalkLayout(s, g, 0, Share(dur, |g.values|));
  }

  lemma {:induction false} WalkLayout(s: State, g: Pattern, k: nat, dur: real)
    requires g.Group? && k <= |g.values| && dur > 0.0 && Before(s) && MembersWalkable(g, k)
    ensures Walk(s, g, k, dur).Some?
    ensures Before(Walk(s, g, k, dur).value) && Grows(s, Walk(s, g, k, dur).value)
    ensures |Walk(s, g, k, dur).value.entries| == |s.entries| + MembersLeafCount(g, k)
    decreases g, 0, |g.values| - k
  {
    if k < |g.values| {
      MemberLayout(s, g.values[k], dur);
      var next := Member(s, g.values[k], dur).value;
      WalkLayout(next, g, k + 1, dur);
      GrowsTransitive(s, next, Walk(next, g, k + 1, dur).value);
    }
  }

  /** The walk of a group with no nested group writes member i at i slots
      past the starting position. */
  lemma {:induction false} FlatWalk(s: State, g: Pattern, k: nat, dur: real, j: nat)
    requires g.Group? && k + j < |g.values| && dur > 0.0
    requires forall i :: k <= i < |g.values| ==> !g.values[i].Group?
    ensures Walk(s, g, k, dur).Some?
    ensures s.position + Multiple(j, dur) in Walk(s, g, k, dur).value.entries
    ensures Walk(s, g, k, dur).value.entries[s.position + Multiple(j, dur)] == g.values[k + j]
    decreases j
  {
    var next := State(s.position + dur, s.entries[s.position := g.values[k]]);
    assert Member(s, g.values[k], dur) == Some(next);
    assert MembersWalkable(g, k + 1);
    var key := s.position + Multiple(j, dur);
    if j == 0 {
      assert key == s.position;
      WalkKeeps(next, g, k + 1, dur, key);
    } else {
      FlatWalk(next, g, k + 1, dur, j - 1);
      assert key == next.position + Multiple(j - 1, dur);
      assert k + j == (k + 1) + (j - 1);
    }
  }

  /** An entry before the current position survives the rest of a walk. */
  lemma {:induction false} MemberKeeps(s: State, step: Pattern, dur: real, x: real)
    requires dur > 0.0 && Walkable(step) && x in s.entries && x < s.position
    ensures Member(s, step, dur).Some?
    ensures x in Member(s, step, dur).value.entries
    ensures Member(s, step, dur).value.entries[x] == s.entries[x]
    decreases step, 2
  {
    if step.Group? {
      NestedKeeps(s, step, dur, x);
    }
  }

  lemma {:induction false} NestedKeeps(s: State, g: Pattern, dur: real, x: real)
    requires g.Group? && |g.values| > 0 && MembersWalkable(g, 0)
    requires dur > 0.0 && x in s.entries && x < s.position
    ensures Nested(s, g, dur).Some?
    ensures x in Nested(s, g, dur).value.entries
    ensures Nested(s, g, dur).value.entries[x] == s.entries[x]
    decreases g, 1
  {
    SharesFill(|g.values|, dur);
    WalkKeeps(s, g, 0, Share(dur, |g.values|), x);
  }

  lemma {:induction false} WalkKeeps(s: State, g: Pattern, k: nat, dur: real, x: real)
    requires g.Group? && k <= |g.values| && MembersWalkable(g, k)
    requires dur > 0.0 && x in s.entries && x < s.position
    ensures Walk(s, g, k, dur).Some?
    ensures x in Walk(s, g, k, dur).value.entries
    ensures Walk(s, g, k, dur).value.entries[x] == s.entries[x]
    decreases g, 0, |g.values| - k
  {
    if k < |g.values| {
      MemberKeeps(s, g.values[k], dur, x);
      MemberAdvance(s, g.values[k], dur);
      WalkKeeps(Member(s, g.values[k], dur).value, g, k + 1, dur, x);
    }
  }

  /** A group with no nested group has one entry per member. */
  lemma {:induction false} FlatLeafCount(g: Pattern, k: nat)
    requires g.Group? && k <= |g.values|
    requires forall i :: k <= i < |g.values| ==> !g.values[i].Group?
    ensures MembersLeafCount(g, k) == |g.values| - k
    decreases |g.values| - k
  {
    if k < |g.values| {
      FlatLeafCount(g, k + 1);
    }
  }

  /** Flattening a plain group: defined exactly when it is non-empty and no
      group inside it is empty; then every key lies in the cycle [0, 1), one
      entry is written per leaf, and no type tag is added. */
  lemma PlainFlattening(vs: seq<Pattern>)
    ensures Flattening(Plain(vs), false).Some? <==> |vs| > 0 && MembersWalkable(Group(vs), 0)
    ensures Flattening(Plain(vs), false).Some? ==>
      && !Flattening(Plain(vs), false).value.typed
      && |Flattening(Plain(vs), false).value.entries| == MembersLeafCount(Group(vs), 0)
      && forall x :: x in Flattening(Plain(vs), false).value.entries ==> 0.0 <= x < 1.0
  {
    if |vs| > 0 {
      var start := State(0.0, map[]);
      var dur := Share(1.0, |vs|);
      WalkDefined(start, Group(vs), 0, dur);
      if MembersWalkable(Group(vs), 0) {
        WalkLayout(start, Group(vs), 0, dur);
        WalkAdvance(start, Group(vs), 0, dur);
        SharesFill(|vs|, 1.0);
      }
    }
  }

  /** A plain group of n members none of which is a group: member k is
      written at k/n, and nothing else is written. */
  lemma FlatPlainFlattening(vs: seq<Pattern>)
    requires |vs| > 0 && forall i :: 0 <= i < |vs| ==> !vs[i].Group?
    ensures Flattening(Plain(vs), false).Some?
    ensures |Flattening(Plain(vs), false).value.entries| == |vs|
    ensures forall k :: 0 <= k < |vs| ==>
      && Multiple(k, Share(1.0, |vs|)) in Flattening(Plain(vs), false).value.entries
      && Flattening(Plain(vs), false).value.entries[Multiple(k, Share(1.0, |vs|))] == vs[k]
  {
    var start := State(0.0, map[]);
    var dur := Share(1.0, |vs|);
    assert MembersWalkable(Group(vs), 0);
    WalkLayout(start, Group(vs), 0, dur);
    FlatLeafCount(Group(vs), 0);
    var e := Walk(start, Group(vs), 0, dur).value.entries;
    assert Flattening(Plain(vs), false) == Some(Flattened(e, false));
    forall k | 0 <= k < |vs|
      ensures Multiple(k, dur) in e && e[Multiple(k, dur)] == vs[k]
    {
      FlatWalk(start, Group(vs), 0, dur, k);
      assert start.position + Multiple(k, dur) == Multiple(k, dur);
    }
  }

  /** The passes of a repeat are defined exactly when there are none left or
      the repeated group can be walked. */
  lemma {:induction false} PassesDefined(s: State, g: Pattern, dur: real, i: nat, times: int, shift: bool)
    requires g.Group?
    ensures Passes(s, g, dur, i, times, shift).Some? <==> i >= times || MembersWalkable(g, 0)
    decreases times - i
  {
    if i < times {
      WalkDefined(s, g, 0, dur);
      match Walk(s, g, 0, dur)
      case None =>
      case Some(next) =>
        var position := if shift then next.position + Multiple(i, dur) else next.position;
        PassesDefined(State(position, next.entries), g, dur, i + 1, times, shift);
    }
  }

  /** The passes of a repeat, laid end to end or moved on after each pass:
      each keeps what was written and writes only between the positions. */
  lemma {:induction false} PassesLayout(s: State, g: Pattern, dur: real, i: nat, times: int, shift: bool)
    requires g.Group? && dur > 0.0 && Before(s) && MembersWalkable(g, 0) && i <= times
    ensures Passes(s, g, dur, i, times, shift).Some?
    ensures Before(Passes(s, g, dur, i, times, shift).value)
    ensures Grows(s, Passes(s, g, dur, i, times, shift).value)
    decreases times - i
  {
    if i < times {
      var moved := PassMoved(s, g, dur, i, shift);
      PassesLayout(moved, g, dur, i + 1, times, shift);
      GrowsTransitive(s, moved, Passes(moved, g, dur, i + 1, times, shift).value);
    }
  }

  /** One pass of a repeat, the position moved on by i more slots after
      it when `shift` holds: it keeps what was written, writes the group's
      leaves once and only between the two positions. */
  lemma PassMoved(s: State, g: Pattern, dur: real, i: nat, shift: bool) returns (moved: State)
    requires g.Group? && dur > 0.0 && Before(s) && MembersWalkable(g, 0)
    ensures Walk(s, g, 0, dur).Some?
    ensures var next := Walk(s, g, 0, dur).value;
      moved == State(if shift then next.position + Multiple(i, dur) else next.position, next.entries)
    ensures Before(moved) && Grows(s, moved)
    ensures |moved.entries| == |s.entries| + MembersLeafCount(g, 0)
  {
    WalkLayout(s, g, 0, dur);
    var next := Walk(s, g, 0, dur).value;
    moved := State(if shift then next.position + Multiple(i, dur) else next.position, next.entries);
  }

  /** Each pass moves the position on by the walk of the whole group. */
  lemma {:induction false} PassesAdvance(s: State, g: Pattern, dur: real, i: nat, times: int)
    requires g.Group? && dur > 0.0 && MembersWalkable(g, 0) && i <= times
    ensures Passes(s, g, dur, i, times, false).Some?
    ensures Passes(s, g, dur, i, times, false).value.position
         == s.position + Multiple(times - i, Multiple(|g.values|, dur))
    decreases times - i
  {
    if i < times {
      WalkAdvance(s, g, 0, dur);
      var next := Walk(s, g, 0, dur).value;
      assert State(next.position, next.entries) == next;
      PassesAdvance(next, g, dur, i + 1, times);
    }
  }

  /** Each pass writes the group's leaves once. */
  lemma {:induction false} PassesCount(s: State, g: Pattern, dur: real, i: nat, times: int, shift: bool)
    requires g.Group? && dur > 0.0 && Before(s) && MembersWalkable(g, 0) && i <= times
    ensures Passes(s, g, dur, i, times, shift).Some?
    ensures |Passes(s, g, dur, i, times, shift).value.entries|
         == |s.entries| + (times - i) * MembersLeafCount(g, 0)
    decreases times - i
  {
    if i < times {
      var moved := PassMoved(s, g, dur, i, shift);
      PassesCount(moved, g, dur, i + 1, times, shift);
      assert (times - i) * MembersLeafCount(g, 0)
          == MembersLeafCount(g, 0) + (times - (i + 1)) * MembersLeafCount(g, 0);
    }
  }

  /** A repeat is defined exactly when its slot size 1/length is (length =
      the value's key count less one, times the count) and, when it walks at
      all, every group in the repeated value is non-empty. */
  lemma RepeatDefined(value: Pattern, times: int, shift: bool)
    ensures Flattening(Repeat(value, times), shift).Some?
        <==> (KeyCount(value) - 1) * times != 0 && (times <= 0 || MembersWalkable(RepeatTarget(value), 0))
    ensures Flattening(Repeat(value, times), shift).Some? ==> Flattening(Repeat(value, times), shift).value.typed
  {
    var length := (KeyCount(value) - 1) * times;
    if length != 0 {
      PassesDefined(State(0.0, map[]), RepeatTarget(value), Share(1.0, length), 0, times, shift);
    }
  }

  /** With the passes laid end to end, a repeat stays inside the cycle:
      every key lies in [0, 1). */
  lemma RepeatWithinCycle(value: Pattern, times: int)
    requires times > 0 && KeyCount(value) > 1 && MembersWalkable(RepeatTarget(value), 0)
    ensures Flattening(Repeat(value, times), false).Some?
    ensures forall x :: x in Flattening(Repeat(value, times), false).value.entries ==> 0.0 <= x < 1.0
  {
    var g := RepeatTarget(value);
    var length := (KeyCount(value) - 1) * times;
    var dur := Share(1.0, length);
    SharesFill(length, 1.0);
    PassesLayout(State(0.0, map[]), g, dur, 0, times, false);
    PassesAdvance(State(0.0, map[]), g, dur, 0, times);
    MultipleOfMultiple(times, |g.values|, dur);
    PassesSpan(|g.values|, KeyCount(value) - 1, times);
    MultipleOrder(times * |g.values|, length, dur);
  }

  /** `times` passes over at most `count` steps take at most
      `count * times` steps. */
  lemma PassesSpan(steps: nat, count: nat, times: nat)
    requires steps <= count
    ensures times * steps <= count * times
  {
  }

  /** Each pass of a repeat writes the value's leaves once, whether the
      passes are laid end to end or moved on after each pass. */
  lemma RepeatCount(value: Pattern, times: int, shift: bool)
    requires times > 0 && KeyCount(value) > 1 && MembersWalkable(RepeatTarget(value), 0)
    ensures Flattening(Repeat(value, times), shift).Some?
    ensures |Flattening(Repeat(value, times), shift).value.entries|
         == times * MembersLeafCount(RepeatTarget(value), 0)
  {
    var g := RepeatTarget(value);
    var length := (KeyCount(value) - 1) * times;
    SharesFill(length, 1.0);
    PassesCount(State(0.0, map[]), g, Share(1.0, length), 0, times, shift);
  }

  /** A leaf repeated `times` times (the source's `value!times`) is written
      once at each p/times of the cycle. */
  lemma RepeatOfLeaf(v: Pattern, times: int)
    requires (v.Number? || v.Str?) && times > 0
    ensures Flattening(Repeat(v, times), false).Some?
    ensures |Flattening(Repeat(v, times), false).value.entries| == times
    ensures forall p :: 0 <= p < times ==>
      && Multiple(p, Share(1.0, times)) in Flattening(Repeat(v, times), false).value.entries
      && Flattening(Repeat(v, times), false).value.entries[Multiple(p, Share(1.0, times))] == v
  {
    var g := Group([v]);
    var dur := Share(1.0, times);
    SharesFill(times, 1.0);
    assert MembersWalkable(g, 0);
    RepeatCount(v, times, false);
    assert MembersLeafCount(g, 1) == 0;
    forall p | 0 <= p < times
      ensures Multiple(p, dur) in Passes(State(0.0, map[]), g, dur, 0, times, false).value.entries
      ensures Passes(State(0.0, map[]), g, dur, 0, times, false).value.entries[Multiple(p, dur)] == v
    {
      PassesOfLeaf(State(0.0, map[]), v, dur, 0, times, p);
      assert 0.0 + Multiple(p, dur) == Multiple(p, dur);
    }
  }

  /** Pass i + p of a repeated leaf writes it p slots past the position
      pass i starts from. */
  lemma {:induction false} PassesOfLeaf(s: State, v: Pattern, dur: real, i: nat, times: int, p: nat)
    requires !v.Group? && dur > 0.0 && i + p < times
    ensures Passes(s, Group([v]), dur, i, times, false).Some?
    ensures s.position + Multiple(p, dur) in Passes(s, Group([v]), dur, i, times, false).value.entries
    ensures Passes(s, Group([v]), dur, i, times, false).value.entries[s.position + Multiple(p, dur)] == v
    decreases p
  {
    var g := Group([v]);
    var next := State(s.position + dur, s.entries[s.position := v]);
    assert Member(s, v, dur) == Some(next);
    assert Walk(s, g, 0, dur) == Some(next);
    assert Passes(s, g, dur, i, times, false) == Passes(next, g, dur, i + 1, times, false);
    var key := s.position + Multiple(p, dur);
    if p == 0 {
      assert key == s.position;
      PassesKeep(next, g, dur, i + 1, times, false, key);
    } else {
      PassesOfLeaf(next, v, dur, i + 1, times, p - 1);
      assert key == next.position + Multiple(p - 1, dur);
    }
  }

  /** An entry before the current position survives the remaining passes. */
  lemma {:induction false} PassesKeep(s: State, g: Pattern, dur: real, i: nat, times: int, shift: bool, x: real)
    requires g.Group? && MembersWalkable(g, 0) && dur > 0.0 && x in s.entries && x < s.position
    ensures Passes(s, g, dur, i, times, shift).Some?
    ensures x in Passes(s, g, dur, i, times, shift).value.entries
    ensures Passes(s, g, dur, i, times, shift).value.entries[x] == s.entries[x]
    decreases times - i
  {
    if i < times {
      WalkKeeps(s, g, 0, dur, x);
      WalkAdvance(s, g, 0, dur);
      var next := Walk(s, g, 0, dur).value;
      var moved := State(if shift then next.position + Multiple(i, dur) else next.position, next.entries);
      PassesKeep(moved, g, dur, i + 1, times, shift, x);
    }
  }

  /** As written, the source moves the position on by a further i slots
      after pass i, so a leaf repeated three times lands at 0, 1/3 and 1:
      the third entry is outside the cycle and 2/3 stays empty. */
  lemma RepeatAsWrittenLeavesCycle()
    ensures Flattening(Repeat(Number(0.0), 3), true)
         == Some(Flattened(map[0.0 := Number(0.0), 1.0 / 3.0 := Number(0.0), 1.0 := Number(0.0)], true))
  {
    var v := Number(0.0);
    var g := Group([v]);
    var d := Share(1.0, 3);
    assert d == 1.0 / 3.0;
    var e1 := map[0.0 := v];
    var e2 := e1[d := v];
    var e3 := e2[1.0 := v];
    assert Member(State(0.0, map[]), v, d) == Some(State(d, e1));
    assert Walk(State(0.0, map[]), g, 0, d) == Some(State(d, e1));
    assert Member(State(d, e1), v, d) == Some(State(2.0 * d, e2));
    assert Walk(State(d, e1), g, 0, d) == Some(State(2.0 * d, e2));
    assert Member(State(1.0, e2), v, d) == Some(State(1.0 + d, e3));
    assert Walk(State(1.0, e2), g, 0, d) == Some(State(1.0 + d, e3));
    assert Passes(State(1.0, e2), g, d, 2, 3, true) == Some(State(1.0 + d + Multiple(2, d), e3));
    assert Multiple(1, d) == d && 2.0 * d + d == 1.0;
    assert Passes(State(d, e1), g, d, 1, 3, true) == Passes(State(1.0, e2), g, d, 2, 3, true);
    assert Passes(State(0.0, map[]), g, d, 0, 3, true) == Passes(State(d, e1), g, d, 1, 3, true);
  }
}
