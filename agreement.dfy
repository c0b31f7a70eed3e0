/** The flattener and the query engine describe one cycle of a flat group
    alike: the flattener writes a step at each position where a query of
    the cycle starts an event, carrying the same value. */
module Agreement {
  import opened Rational
  import opened Pattern
  import opened Steps
  import opened Query
  import opened QueryFacts
  import opened QueryCases
  import opened Flatten
  import opened FlattenFacts

  /** The flattener's step for a group of n members is the query engine's
      step size 1/n. */
  lemma ShareIsPhaseIncr(vs: seq<Pattern>)
    requires WellFormed(Group(vs))
    ensures Share(1.0, |vs|) == PhaseIncr(Group(vs))
  {
  }

  /** Member k of a flat group is the one getIndex selects at step k
      (queryArc.js:114): k mod n is k for k < n. */
  lemma SmallRemainder(k: nat, n: nat)
    requires k < n
    ensures k % n == k
  {
  }

  /** Event k of a query of one cycle of a flat group starts where the
      flattener writes member k, and carries that member's value. */
  lemma {:induction false} AgreeAt(vs: seq<Pattern>, k: nat, routing: Routing)
    requires WellFormed(Group(vs)) && AllDirect(vs, routing) && k < |vs|
    ensures Flattening(Plain(vs), false).Some?
    ensures var e := Flattening(Plain(vs), false).value.entries;
      var r := Queried(Group(vs), 0.0, 1.0, routing);
      && |r| == |vs|
      && r[k].arc.start in e && e[r[k].arc.start] == vs[k]
  {
    FlatPlainFlattening(vs);
    CycleEvent(vs, 1, k, routing);
    ShareIsPhaseIncr(vs);
    SmallRemainder(k, |vs|);
  }

  /** For a flat group of values, flattening and a query of its first
      cycle agree: as many entries as events, and each event's start is a
      written position holding a step whose value is the event's. */
  lemma {:induction false} FlattenAgreesWithQuery(vs: seq<Pattern>, routing: Routing)
    requires WellFormed(Group(vs)) && AllDirect(vs, routing)
    ensures Flattening(Plain(vs), false).Some?
    ensures var e := Flattening(Plain(vs), false).value.entries;
      var r := Queried(Group(vs), 0.0, 1.0, routing);
      && |e| == |r|
      && forall i :: 0 <= i < |r| ==>
        && r[i].arc.start in e
        && (e[r[i].arc.start].Number? || e[r[i].arc.start].Str?)
        && Payload(e[r[i].arc.start]) == r[i].value
  {
    var r := Queried(Group(vs), 0.0, 1.0, routing);
    FlatPlainFlattening(vs);
    AgreeAt(vs, 0, routing);
    var e := Flattening(Plain(vs), false).value.entries;
    forall i | 0 <= i < |r|
      ensures r[i].arc.start in e && (e[r[i].arc.start].Number? || e[r[i].arc.start].Str?)
      ensures Payload(e[r[i].arc.start]) == r[i].value
    {
      AgreeAt(vs, i, routing);
      CycleEvent(vs, 1, i, routing);
      SmallRemainder(i, |vs|);
    }
  }
}
