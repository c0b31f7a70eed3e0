# Tidal pattern queries and flattening, in Dafny

This project models two parts of a JavaScript implementation of the Tidal
mini-notation.

- **The query engine (`queryArc.js`).** It takes a parsed pattern tree and a
  time window `[phase, phase + duration)`. It returns the events whose onsets
  fall in that window, with arcs relative to `phase`. A group of `n` members
  divides each cycle into `n` steps. A nested group subdivides the step it
  occupies. A polymeter plays its right branch at the step size of its left
  branch.
- **The flattener (`src/flatten.js`).** It walks a nested group, or a repeat
  node, and writes every leaf into one object keyed by the leaf's exact
  position in the cycle.

Time is exact. The source uses fraction.js. The model uses Dafny's `real`,
which holds every rational exactly. The remainder and the floor division the
source calls are defined in module `Rational` by repeated whole steps. They
are then tied to multiplication and division by lemmas.

Modules:

- `Rational`: `Multiple(k, y)` (k whole steps of y), `Quotient` (floor of
  x / y) and `Mod` (fraction.js `mod`), with their laws.
- `Pattern`: the pattern tree (`Number`, `Str`, `Group`, `Polymeter`), arcs,
  events, the `options` a polymeter writes onto its right branch, and the
  `isNaN` test the group loop applies to a member's value.
- `Steps`: the pure helpers of the engine, each with a contract. They are
  `AdjustPhase`, `AdvancePhase`, `CalculateDuration`, `GetIndex`,
  `ShouldReset`, `ShouldRemap`, `PhaseIncr` and `GetMappedArc`. The module
  also proves that the group loop always makes progress (`NextPhaseProgress`).
- `Query`: the engine as functions. These are `Queried` (queryArc),
  `Processed` (processPattern), `Handled` (handler dispatch), `GroupEvents`
  and `GroupSteps` (the group handler and its loop), `StepEvents` (one loop
  iteration) and `PolymeterEvents`.
- `QueryImpl`: the engine as the source runs it. Handlers append to an event
  list, and the group handler is a `while` loop. Each method is proved to
  compute the matching `Query` function.
- `QueryFacts`: what a query of a flat group returns. A flat group is one
  whose members are all leaves that the group loop emits directly. The result
  is one event per step that starts in the window, with none omitted and none
  repeated. It is given by an independent reference definition, `FlatEvents`.
- `QueryCases`: whole results for the shapes the notation is written in. These
  are:
  - `[a b]` over two cycles;
  - `[a [b c]]`, a nested group;
  - the polymeter of `[a b]` and `[c d e]`;
  - a bare leaf;
  - a query that starts in the middle of a step.
- `QueryCorrections`: the two departures listed under "Findings", each shown
  on an input as written and then corrected, with the intended property
  proved about the correction.
- `Flatten`: the flattener. `Flattening` is a function. `Flattener` is a
  class whose `Calc` method updates the current position and the entries in
  place, as the source's inner `calc` updates its closure variables.
  `Flatten` is the method that runs it.
- `FlattenFacts`: the layout the flattener produces. It states:
  - when it is defined;
  - how many entries it writes;
  - that every key lies in the cycle `[0, 1)`;
  - that earlier entries are never overwritten;
  - what a repeated leaf produces.
- `Agreement`: for a flat group, the flattener and a query of the first cycle
  agree. Each event starts at a key the flattener writes, the value stored at
  that key is the event's value, and the number of entries equals the number
  of events.

The group loop decides per member whether to emit it as an event or to
query it as a sub-pattern. The source tests `isNaN(member.value)`
(`queryArc.js:182`). The comment above that test (`queryArc.js:181`) says
that numeric and string constants are emitted directly. The two differ for
text that is not a number. `Steps.Routing` names both readings: `AsWritten`
is the source's test and `LeavesDirect` emits every number and string. The
engine's functions and methods, and the lemmas about them, take the routing
as a parameter. The
lemmas about flat groups hold for either routing. Under `AsWritten` a flat
group is one whose members are numbers or numeric text. Under `LeavesDirect`
it is any group of numbers and strings.

The start of a query is aligned by `adjustPhase` (`queryArc.js:94-96`), which
subtracts `phase mod incr` and so moves a start in the middle of a step back
to that step's boundary (`queryArc.js:17`). The comment above it at
`queryArc.js:92-93` says a start in the middle of a step should advance to
the start of the next step instead; the comment at `queryArc.js:16` says only
that a phase offset is taken when the query begins in the middle of a step. `Query.Queried` follows the code. The corrected
query, `QueryCorrections.QueriedFromNextStep`, follows the comments; see
"Findings".

The group handler rounds `duration` up (`queryArc.js:162`) after `end` has
been computed, and never reads `duration` again. The model leaves the
rounding out, which changes nothing.

## Model

| member | source | states |
|---|---|---|
| Rational.Mod | queryArc.js:96 | the remainder lies in [0, y), is at most x, and x is a whole number of y's plus it |
| Rational.ModOfDecomposition | queryArc.js:96 | the remainder and quotient are the unique s in [0, y) and k with x = k*y + s |
| Rational.QuotientIsFloor | queryArc.js:110 | the whole-step quotient is the floor of the exact division |
| Rational.MultipleIsAligned | queryArc.js:196 | a whole number of steps leaves no remainder and has that many steps as quotient |
| Steps.IndexOf | queryArc.js:127-128 | -1 exactly when the element is absent; otherwise its first position |
| Steps.ShouldReset | queryArc.js:123-131 | a node restarts at phase 0 iff its type and its parent's type are both 'fast', undefined or 'group'; no parent means no restart |
| Steps.ShouldRemap | queryArc.js:133-134 | arcs are remapped for every node type except polymeter |
| Steps.PhaseIncr | queryArc.js:137-147 | the step is positive; n steps of a group of n members (of a polymeter's left group) make one cycle; a leaf's step is one cycle |
| Steps.StepOfCount | queryArc.js:141-143 | n steps of 1/n make exactly one cycle |
| Steps.GetMappedArc | queryArc.js:74-90 | the start maps to phase + start*incr; from an aligned phase the length scales by incr and order is kept; otherwise the end is offset by incr mod phase |
| Steps.AdjustPhase | queryArc.js:94-96 | the result is the step boundary at or before phase (0 <= r <= phase < r + incr, aligned), phase itself when aligned, 0 for phase 0 |
| Steps.AdvancePhase | queryArc.js:100 | before end the phase moves strictly forward, by at most one step, and never past end |
| Steps.CalculateDuration | queryArc.js:103 | before end the duration is positive, at most a step, and ends where AdvancePhase moves to |
| Steps.GetIndex | queryArc.js:106-118 | the index is a valid member; floor(phase*n) mod n by default, step count mod n under the override, 0 with options but no override |
| Steps.GetIndexAsWritten | queryArc.js:110-114 | the index equals the source's phase.mul(n).mod(n).floor() and phase.div(incr).mod(n).floor() |
| Steps.FloorOfMod | queryArc.js:114 | for a whole modulus, the floor of the remainder is the remainder of the floor |
| Steps.GetIndexAtStep | queryArc.js:106-118 | at the k-th step boundary, with the default or the polymeter override, member k mod n is selected |
| Steps.NextPhaseProgress | queryArc.js:195-201 | each loop iteration moves the phase forward, lands on a step boundary unless clipped at end, and shrinks the loop measure |
| Query.InWindow | queryArc.js:204-207 | the filter keeps only events starting in [lo, hi) and never grows the list |
| Query.InWindowMembers | queryArc.js:28-31 | an event is kept iff it was in the list and starts in [lo, hi) |
| Query.GroupEvents | queryArc.js:151-210 | every event the group handler returns starts inside its window |
| Query.GroupLoopStep | queryArc.js:171-202 | an iteration keeps "events so far + the rest of the loop = the whole loop" and decreases the measure |
| Query.Queried | queryArc.js:13-41 | every returned event starts in [0, duration) relative to phase |
| QueryImpl.QueryArc | queryArc.js:13-41 | the method returns exactly Queried |
| QueryImpl.RelativeArcs | queryArc.js:33-37 | the loop makes every arc relative to the query start |
| QueryImpl.ProcessPattern | queryArc.js:45-69 | the method returns exactly Processed (reset, duration per step, optional remap) |
| QueryImpl.LeafHandler | queryArc.js:212-219 | the state is kept as a prefix and one event with the leaf's value over [phase, phase + duration) is appended |
| QueryImpl.GroupHandler | queryArc.js:151-210 | the while loop appends exactly the group's filtered step events to the state |
| QueryImpl.GroupStep | queryArc.js:172-193 | one iteration yields the selected member's event, or its sub-pattern's remapped events |
| QueryImpl.PolymeterHandler | queryArc.js:221-231 | the state followed by the left branch and then the right branch, both at the left step |
| QueryFacts.InWindowKeepsAll | queryArc.js:205-207 | filtering events that all start in the window keeps them all |
| QueryFacts.AlignedStep | queryArc.js:173-191 | at step boundary j of a flat group the loop emits member j mod n over the step clipped at end |
| QueryFacts.AlignedLoopStep | queryArc.js:196-197 | from a step boundary the loop moves to the next boundary, or stops at end |
| QueryFacts.FlatGroupSteps | queryArc.js:171-202 | the loop of a flat group from step j is a run: its i-th event is step j + i, all starting before end, reaching end |
| QueryFacts.ConsStepRun | queryArc.js:186-191 | a step event followed by a run from the next step is a run |
| QueryFacts.StepRunStarts | queryArc.js:205-207 | every event of a run from step j starts in [j*incr, end) |
| QueryFacts.ShiftedStepRun | queryArc.js:33-37 | a run moved back by its first step is the query result relative to it |
| QueryFacts.ShiftedStepEvent | queryArc.js:33-37 | step j + i moved back by j steps is query event i |
| QueryFacts.ShiftedStepAt | queryArc.js:33-37 | one run event, moved back, is the query event at its index |
| QueryFacts.StepSpanShift | queryArc.js:34-35 | shifting a clipped step back by j steps gives the step clipped at the shifted end |
| QueryFacts.GroupQuery | queryArc.js:13-41 | a query of a group is the group loop from the aligned phase, filtered twice and shifted back |
| QueryFacts.RunInWindow | queryArc.js:28-37 | the window filters keep a whole run, which is then only shifted |
| QueryFacts.RunQuery | queryArc.js:28-37 | a run that reaches the end of the window is a complete query result |
| QueryFacts.AlignedGroupQuery | queryArc.js:17 | from a step boundary the query runs the loop from that very phase |
| QueryFacts.FlatLoopQuery | queryArc.js:13-41 | the filtered loop from step j is a complete query result |
| QueryFacts.StepCountUnique | queryArc.js:171 | the step count is the one count whose steps start before the duration and cover it |
| QueryFacts.FlatResultIsFlatEvents | queryArc.js:13-41 | any complete query result equals the reference result |
| QueryFacts.FlatLoopEvents | queryArc.js:171-207 | the filtered loop from step j equals the reference result |
| QueryFacts.FlatGroupQuery | queryArc.js:13-41 | under either routing, a query of a group whose members are all emitted directly, from any step boundary, is the reference result: nothing omitted, nothing repeated |
| QueryCases.InWindowConcat | queryArc.js:205-207 | the filter distributes over concatenation |
| QueryCases.CycleSteps | queryArc.js:137-147 | c whole cycles hold c*n steps, step k spanning [k/n, (k+1)/n) |
| QueryCases.CycleEvent | queryArc.js:13-41 | over c cycles from 0 there are c*n events, event k being member k mod n over [k/n, (k+1)/n) |
| QueryCases.WholeCycles | queryArc.js:13-41 | the same for every k at once |
| QueryCases.TwoCyclesExample | queryArc.js:13-41 | [a b] over two cycles: a, b, a, b on consecutive half cycles |
| QueryCases.PairCycle | queryArc.js:13-41 | [a b] over one cycle: a on [0, 1/2), b on [1/2, 1) |
| QueryCases.RestartedGroup | queryArc.js:49 | a group restarted at phase 0 gives what a query from 0 gives |
| QueryCases.LeafQuery | queryArc.js:212-219 | a bare leaf yields one event over the window iff the phase is a whole cycle and the duration positive; otherwise none |
| QueryCases.NestedStep | queryArc.js:182-186 | a group in a group's step restarts at 0, is queried over dur/step and remapped into the step |
| QueryCases.RemapHalves | queryArc.js:83-86 | halves of a cycle remap onto the halves of an aligned step |
| QueryCases.NestedSecondStep | queryArc.js:182-186 | the nested [b c] in the second half of [a [b c]] yields b on [1/2, 3/4) and c on [3/4, 1) |
| QueryCases.NestedSteps | queryArc.js:171-202 | the loop of [a [b c]] over a cycle is a, b, c with those arcs |
| QueryCases.NestedExample | queryArc.js:13-41 | [a [b c]] over one cycle is a on [0, 1/2), b on [1/2, 3/4), c on [3/4, 1) |
| QueryCases.PolymeterBranches | queryArc.js:221-231 | from any phase, a polymeter's handler is its left loop then its right loop, both at the left group's step 1/n, each filtered to the window |
| QueryCases.PolymeterBranch | queryArc.js:225-228 | a group under a polymeter keeps its phase (no restart) and runs its loop at the step the polymeter passes |
| QueryCases.BranchAt | queryArc.js:225-228 | a branch of directly emitted members, queried from step boundary j and moved back to it, is the reference result from step j: under `overrideIncr` (the right branch) step k takes member k mod m |
| QueryCases.PolymeterAtBoundary | queryArc.js:13-41 | queried from a boundary of its own step, a polymeter is its handler's events from that boundary, kept to the window and moved back |
| QueryCases.PolymeterQuery | queryArc.js:221-231 | under either routing, queried from any step boundary j of the left group, a polymeter of two groups whose members are all emitted directly is both reference results from step j, left first |
| QueryCases.HalfStepEvents | queryArc.js:221-231 | two cycles at step 1/2 give members 0..3 mod n on consecutive halves |
| QueryCases.PolymeterExample | queryArc.js:221-231 | [a b] against [c d e] over two cycles: a b a b, then c d e c, each on half cycles |
| QueryCases.InWindowDropsFirst | queryArc.js:28-31 | a list whose first event starts before the window loses exactly that event |
| QueryCases.StepRunCount | queryArc.js:171 | a run from 0 reaching end has exactly as many events as steps before end |
| QueryCases.QuarterSteps | queryArc.js:171-202 | the loop of [a b c d] over a cycle is the four quarters |
| QueryCases.MidWindow | queryArc.js:28-37 | the quarters filtered to [1/8, 9/8) and shifted are b, c, d at 1/8, 3/8, 5/8 |
| QueryCases.MidStepExample | queryArc.js:13-41 | as written, [a b c d] queried at 1/8 for one cycle gives only b, c, d, and nothing covers [7/8, 1) |
| QueryCorrections.WordProcessed | queryArc.js:45-69 | a string node processed as a group member from an aligned phase p is not restarted: it spans [p, p + 1) and is remapped to [p + p*incr, p + (p + 1)*incr) |
| QueryCorrections.WordStep | queryArc.js:181-186 | as written, the loop step at boundary j of a group whose member there is non-numeric text yields that member on [p + p*incr, p + (p + 1)*incr) for p = j*incr, not on [p, p + incr) |
| QueryCorrections.WordPairSteps | queryArc.js:171-202 | as written, the loop of [a b] over one cycle, a and b non-numeric text, yields a on [0, 1/2) and b on [3/4, 5/4) |
| QueryCorrections.WordPairAsWritten | queryArc.js:182 | as written, a query of [a b] over one cycle, a and b non-numeric text, puts b on [3/4, 5/4) instead of [1/2, 1) |
| QueryCorrections.WordPairDirect | queryArc.js:181 | with every number and string emitted directly, the same query puts a on [0, 1/2) and b on [1/2, 1) |
| QueryCorrections.LeafGroupQuery | queryArc.js:181 | with every number and string emitted directly, a query of any group of numbers and strings from any step boundary is the reference result |
| QueryCorrections.FirstStep | queryArc.js:92-93 | the index of the first step boundary at or after the phase: that boundary is not before the phase and the one before it is |
| QueryCorrections.QueriedFromNextStep | queryArc.js:13-41 | the query started at the next step boundary: every event starts in [0, duration) relative to the phase |
| QueryCorrections.NextStepQuery | queryArc.js:92-93 | the corrected query of a group whose members are all emitted directly is, in order, the steps q, q + 1, ... from the first boundary q at or after the phase, each being member (q + i) mod n over its step clipped at the window's end, each starting before the end, and the next step starting at or after it: every step that starts in the window, once |
| QueryCorrections.NextStepRun | queryArc.js:33-37 | the reference result from boundary q, made relative to the phase instead, is the steps from q with those properties |
| Flatten.SharesFill | src/flatten.js:27 | n shares of a duration make it up, and a share of a positive length is positive |
| Flatten.RepeatTarget | src/flatten.js:53-55 | a group is walked as it is; any other value is wrapped as the one-member group {'0': value}; either has no more members than its keys less one |
| Flatten.Flattener.constructor | src/flatten.js:19-20 | the walk starts at position 0 with no entries |
| Flatten.Flattener.Calc | src/flatten.js:27-44 | the walk succeeds iff Walk is defined, and then leaves exactly Walk's position and entries |
| Flatten.Flatten | src/flatten.js:16-70 | the method returns exactly Flattening; with `shift` set it moves the position on by i slots after pass i (line 59), with it clear the passes are laid end to end |
| FlattenFacts.MemberDefined | src/flatten.js:35-41 | a member is walkable iff no group inside it is empty |
| FlattenFacts.NestedDefined | src/flatten.js:36-37 | a nested group is walkable iff it and every group inside it are non-empty |
| FlattenFacts.WalkDefined | src/flatten.js:29-43 | the walk of members k.. is defined iff each of them is walkable |
| FlattenFacts.MemberAdvance | src/flatten.js:35-41 | a member moves the position by exactly its slot |
| FlattenFacts.NestedAdvance | src/flatten.js:36-37 | a nested group fills exactly its parent's slot |
| FlattenFacts.WalkAdvance | src/flatten.js:29-43 | members k.. move the position by their count of slots |
| FlattenFacts.MemberLayout | src/flatten.js:35-41 | a member writes one new entry per leaf, keys at or after the start, keeping earlier entries |
| FlattenFacts.NestedLayout | src/flatten.js:36-37 | the same for a nested group |
| FlattenFacts.WalkLayout | src/flatten.js:29-43 | the same for members k.. |
| FlattenFacts.FlatWalk | src/flatten.js:39-41 | with no nested group, member k + j is written j slots past the start |
| FlattenFacts.MemberKeeps | src/flatten.js:40 | an entry before the position survives a member |
| FlattenFacts.NestedKeeps | src/flatten.js:36-37 | it survives a nested group |
| FlattenFacts.WalkKeeps | src/flatten.js:29-43 | it survives the rest of a walk |
| FlattenFacts.FlatLeafCount | src/flatten.js:39-41 | a group with no nested group has one leaf per member |
| FlattenFacts.PlainFlattening | src/flatten.js:27-44 | a plain group flattens iff it and every nested group are non-empty; then one entry per leaf, all keys in [0, 1), no type tag |
| FlattenFacts.FlatPlainFlattening | src/flatten.js:27-44 | a flat group of n members leaves exactly n entries, member k at k/n |
| FlattenFacts.PassesDefined | src/flatten.js:57-60 | the passes are defined iff none are left or the value is walkable |
| FlattenFacts.PassesLayout | src/flatten.js:57-60 | with or without the extra move of line 59, the passes keep every earlier entry, write only at or after the start, and leave every key before the new position |
| FlattenFacts.PassMoved | src/flatten.js:57-60 | one pass, with or without the extra move of line 59, keeps what was written and writes the group's leaves once, only between the old and new positions |
| FlattenFacts.PassesAdvance | src/flatten.js:57-60 | each pass moves the position by the walk of the whole group (passes laid end to end, the corrected repeat) |
| FlattenFacts.PassesCount | src/flatten.js:57-60 | with or without the extra move of line 59, each pass writes the group's leaves once, no entry overwritten |
| FlattenFacts.PassesKeep | src/flatten.js:57-60 | with or without the extra move of line 59, an entry before the position survives the remaining passes unchanged |
| FlattenFacts.PassesOfLeaf | src/flatten.js:53-60 | pass i + p of a repeated leaf writes it p slots past the position (passes laid end to end, the corrected repeat) |
| FlattenFacts.RepeatDefined | src/flatten.js:48-63 | a repeat flattens iff (keys - 1) * times is non-zero and the value is walkable when it is walked; the result carries the group tag |
| FlattenFacts.RepeatWithinCycle | src/flatten.js:48-63 | with passes end to end, every key of a repeat lies in [0, 1) |
| FlattenFacts.RepeatCount | src/flatten.js:48-63 | as written and corrected alike, a repeat writes times * leaves entries |
| FlattenFacts.RepeatOfLeaf | src/flatten.js:48-63 | a leaf repeated n times leaves exactly n entries, the p-th at p/n (passes laid end to end, the corrected repeat) |
| FlattenFacts.RepeatAsWrittenLeavesCycle | src/flatten.js:59 | as written, a leaf repeated three times lands at 0, 1/3 and 1 |
| Agreement.ShareIsPhaseIncr | src/flatten.js:27 | the flattener's slot for n members is the query engine's step 1/n |
| Agreement.AgreeAt | src/flatten.js:39-41 | event k of a one-cycle query of a flat group starts where the flattener writes member k |
| Agreement.FlattenAgreesWithQuery | src/flatten.js:27-44 | for a group whose members are all emitted directly under the routing: as many entries as events, and each event's start holds a leaf whose value is the event's |

## Left out

- Empty groups are not modelled: `WellFormed` requires every group to have a
  member. With an empty group the source fails: `getPhaseIncr` computes
  `Fraction(1, 0)` (`queryArc.js:140, 143`), or, for an empty right branch of
  a polymeter, whose step is passed in so that `getPhaseIncr` is skipped
  (`queryArc.js:154-156`), `getIndex` takes `.mod(pattern.values.length)`
  of a zero length (`queryArc.js:109`).
- QueryFacts.FlatGroupQuery: under `AsWritten` it covers groups of numbers and
  numeric text only; other text is the first row of "Findings".
- QueryCases.PolymeterQuery: the same restriction on both branches.
- Agreement.FlattenAgreesWithQuery: the same restriction on the group.
- The `speed`, `slow` and other handlers after line 232 of `queryArc.js` are
  not modelled. Neither are their node types. The model's pattern tree has
  numbers, strings, groups and polymeters only.
- Untyped nodes (arrays with no `type`) and the `member === undefined` and
  `pattern.value` paths of the group loop (`queryArc.js:173-175, 182-184`)
  are not modelled. For a non-empty group, `getIndex` always selects an
  existing member.
- Floating point: the source compares Fractions through `valueOf()` and `+`.
  The model compares exact rationals.
- The `parent` and `options` fields that the engine writes onto nodes during
  a query are passed as parameters instead. The aliasing this creates is not
  modelled: a node shared between two places keeps the last `options`
  written to it.
- The filter and the map in `queryArc` (`queryArc.js:33-37`) rewrite event
  arcs in place. The model builds new events.
- `isNaN` on text follows a simplified reading of JavaScript's number syntax:
  trimmed blank text, or an optionally signed decimal. Exponents, `0x`
  literals and `Infinity` are not modelled.
- A polymeter's left branch must be a group. The source reads
  `left.values.length` and fails on anything else.
- fraction.js: `mod` and `div` are modelled for non-negative operands only,
  which is where the engine uses them. `toFraction` key strings are modelled
  as the exact rational they print.
- The flattener's mutation of its input (`src/flatten.js:54`, wrapping
  `group.value`) is not modelled. The wrapped group is built as a value.
- Non-integer repeat counts are not modelled: the count is an `int`.
- The top-level input to `flatten` is a group (`Plain`) or a repeat node. The
  default slot `1/(keys - 1)` is taken with the group's `type` key present.
- Key enumeration order: members are walked in index order. JavaScript's
  `for ... in` visits integer-like keys first in ascending order, which is the
  same order for the groups the parser produces; other key orders are not
  modelled.
- Logging, the unused priority queue import and the commented-out examples of
  `queryArc.js`, and the parser that `test/test-polyrhythm.js` drives, are not
  part of this model.

## Findings

| source | as written | input that shows it | evidently intended | confidence | as-written member | corrected member |
|---|---|---|---|---|---|---|
| queryArc.js:182 | the loop tests `isNaN(member.value)`, so text that is not a number is queried as a sub-pattern, is not restarted, and is remapped from the absolute phase | `[bd sn]` over one cycle: `bd` on [0, 1/2) but `sn` on [3/4, 5/4) | every number and string constant emitted as an event over its step (comment at line 181) | not executed | QueryCorrections.WordPairAsWritten | QueryCorrections.LeafGroupQuery |
| queryArc.js:17-26 | `adjustPhase` moves a start in the middle of a step back to that step's boundary, and the duration is kept, so steps that start in [aligned + duration, phase + duration) are never generated | `[a b c d]` from 1/8 for one cycle: b, c and d only; `a` at [7/8, 1) is missing | start at the next step boundary (comment at lines 92-93), so every step that starts in the window is returned once | not executed | QueryCases.MidStepExample | QueryCorrections.NextStepQuery |
| src/flatten.js:59 | after pass i of a repeat, the position moves a further i slots; every entry is still written (FlattenFacts.RepeatCount holds as written), only misplaced | the number 0 repeated 3 times: keys 0, 1/3 and 1, so 2/3 stays empty and 1 lies outside the cycle | passes laid end to end, every key in [0, 1) | not executed | FlattenFacts.RepeatAsWrittenLeavesCycle | FlattenFacts.RepeatWithinCycle |
