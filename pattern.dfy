/** The pattern tree the query engine evaluates, and the events it produces. */
module Pattern {

  datatype Option<T> = None | Some(value: T)

  /** The `type` field of a node: a tag name, or undefined (an untyped array). */
  datatype Tag = Tagged(name: string) | Untyped

  /** The payload of a leaf, carried unchanged into the events it produces. */
  datatype Value = Num(n: real) | Text(s: string)

  /** A node of the pattern tree. `Group` is `{type: 'group', values: [...]}`;
      a polymeter's `left` must itself be a group, whose length sets the
      shared step. */
  datatype Pattern =
    | Number(n: real)
    | Str(text: string)
    | Group(values: seq<Pattern>)
    | Polymeter(left: Pattern, right: Pattern)
  {
    function Type(): Tag {
      match this
      case Number(_) => Tagged("number")
      case Str(_) => Tagged("string")
      case Group(_) => Tagged("group")
      case Polymeter(_, _) => Tagged("polymeter")
    }
  }

  /** A half-open time interval [start, end). */
  datatype Arc = Arc(start: real, end: real)

  datatype Event = Event(value: Value, arc: Arc)

  /** The `options` a polymeter writes onto its right branch: when
      `overrideIncr` holds, members are selected by step count at `incr`. */
  datatype IndexOptions = NoOptions | Options(overrideIncr: bool, incr: real)

  /** Shapes the engine can evaluate without failing: a group has members
      (its step is 1/length), and a polymeter's left branch is such a group. */
  predicate WellFormed(p: Pattern) {
    match p
    case Number(_) => true
    case Str(_) => true
    case Group(vs) => |vs| > 0 && forall i :: 0 <= i < |vs| ==> WellFormed(vs[i])
    case Polymeter(l, r) => l.Group? && WellFormed(l) && WellFormed(r)
  }

  /** `isNaN(member.value)` in the group loop: a number is a value, text is a
      value when JavaScript reads it as a number, and a sub-pattern (which
      has no `value` field) is not. */
  predicate IsNaN(p: Pattern) {
    match p
    case Number(_) => false
    case Str(s) => !NumericText(s)
    case Group(_) => true
    case Polymeter(_, _) => true
  }

  /** `pattern.value` of a leaf. */
  function Payload(p: Pattern): Value
    requires p.Number? || p.Str?
  {
    match p
    case Number(n) => Num(n)
    case Str(s) => Text(s)
  }

  predicate IsSpace(c: char) {
    c == ' ' || c == '\t' || c == '\n' || c == '\r'
  }

  predicate IsDigit(c: char) {
    '0' <= c <= '9'
  }

  function Trim(s: string): string {
    if |s| > 0 && IsSpace(s[0]) then Trim(s[1..])
    else if |s| > 0 && IsSpace(s[|s| - 1]) then Trim(s[..|s| - 1])
    else s
  }

  /** Digits with at most one decimal point and at least one digit, read left
      to right: `dot` and `digit` record what the text before `s` held. */
  predicate DecimalRest(s: string, dot: bool, digit: bool) {
    if s == [] then digit
    else if IsDigit(s[0]) then DecimalRest(s[1..], dot, true)
    else if s[0] == '.' && !dot then DecimalRest(s[1..], true, digit)
    else false
  }

  predicate UnsignedDecimal(s: string) {
    DecimalRest(s, false, false)
  }

  /** Text that JavaScript's number conversion reads as a number: blank
      text (read as 0), or an optionally signed decimal. */
  predicate NumericText(s: string) {
    var t := Trim(s);
    || t == []
    || UnsignedDecimal(t)
    || (|t| > 0 && (t[0] == '+' || t[0] == '-') && UnsignedDecimal(t[1..]))
  }
}
