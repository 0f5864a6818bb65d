/**
  SQL text as the WHERE-clause generator assembles it. A fragment tree
  mirrors the generator's one combining primitive: drop the empty parts,
  join the rest with ` AND ` or ` OR `, and wrap the result in parentheses
  never, always, or only when more than one part is left. Comparisons are
  kept as relations so that their meaning can be stated.
*/
module SqlText {

  datatype Glue = AndGlue | OrGlue {
    function Text(): string {
      if AndGlue? then " AND " else " OR "
    }
  }

  /** When a non-empty join is wrapped in parentheses. */
  datatype Wrap = Bare | WrapMany | WrapAlways

  /** The SQL comparison operators the generator writes. */
  datatype RelOp = Lt | Le | Gt | Ge | Eq | Ne {
    function Symbol(): string {
      match this
      case Lt => "<"
      case Le => "<="
      case Gt => ">"
      case Ge => ">="
      case Eq => "="
      case Ne => "<>"
    }

    /** The operator that holds exactly when this one does not. */
    function Complement(): RelOp {
      match this
      case Lt => Ge
      case Le => Gt
      case Gt => Le
      case Ge => Lt
      case Eq => Ne
      case Ne => Eq
    }
  }

  datatype Sql =
    | Fragment(text: string)
    | Relation(lhs: string, op: RelOp, rhs: string)
    | Membership(lhs: string, negated: bool, list: seq<string>)
    | Implode(glue: Glue, parts: seq<Sql>, wrap: Wrap)

  /** The parts left once the empty strings are dropped, in order. */
  function NonEmpty(ss: seq<string>): (r: seq<string>)
    ensures |r| <= |ss|
    ensures forall i :: 0 <= i < |r| ==> r[i] != ""
    ensures forall x :: x in r <==> x in ss && x != ""
  {
    if |ss| == 0 then []
    else if ss[0] == "" then NonEmpty(ss[1..])
    else [ss[0]] + NonEmpty(ss[1..])
  }

  /** The strings separated by `glue`. */
  function Join(glue: string, ss: seq<string>): string {
    if |ss| == 0 then ""
    else if |ss| == 1 then ss[0]
    else ss[0] + glue + Join(glue, ss[1..])
  }

  function Parenthesize(s: string): string {
    "(" + s + ")"
  }

  /** The combining primitive on already printed parts. */
  function Combine(glue: Glue, printed: seq<string>, wrap: Wrap): string {
    var kept := NonEmpty(printed);
    if |kept| == 0 then ""
    else if wrap == WrapAlways || (wrap == WrapMany && |kept| > 1) then Parenthesize(Join(glue.Text(), kept))
    else Join(glue.Text(), kept)
  }

  function Print(s: Sql): string
    decreases s, 1, 0
  {
    match s
    case Fragment(text) => text
    case Relation(lhs, op, rhs) => lhs + " " + op.Symbol() + " " + rhs
    case Membership(lhs, negated, list) => lhs + (if negated then " NOT IN" else " IN") + Parenthesize(Join(", ", list))
    case Implode(glue, parts, wrap) => Combine(glue, PrintFrom(s, 0), wrap)
  }

  /** The printed parts of an implosion, from position `from` on. */
  function PrintFrom(s: Sql, from: nat): (r: seq<string>)
    requires s.Implode?
    ensures |r| == if from <= |s.parts| then |s.parts| - from else 0
    ensures forall i :: from <= i < |s.parts| ==> r[i - from] == Print(s.parts[i])
    decreases s, 0, |s.parts| - from
  {
    if from >= |s.parts| then [] else [Print(s.parts[from])] + PrintFrom(s, from + 1)
  }

  /** Every part printed, in order. */
  function Prints(parts: seq<Sql>): (r: seq<string>)
    ensures |r| == |parts|
    ensures forall i :: 0 <= i < |parts| ==> r[i] == Print(parts[i])
  {
    if |parts| == 0 then [] else [Print(parts[0])] + Prints(parts[1..])
  }

  /** A relation holds between the integers its two sides denote. */
  predicate Holds(op: RelOp, x: int, y: int) {
    match op
    case Lt => x < y
    case Le => x <= y
    case Gt => x > y
    case Ge => x >= y
    case Eq => x == y
    case Ne => x != y
  }

  /**
    The truth of a tree on one row: `value` gives the integer each side of a
    relation and each entry of an `IN` list denotes, `atom` the truth of each opaque fragment. Parts that
    print as nothing are left out, as the printer leaves them out.
  */
  predicate Eval(s: Sql, value: string -> int, atom: string -> bool)
    decreases s
  {
    match s
    case Fragment(text) => atom(text)
    case Relation(lhs, op, rhs) => Holds(op, value(lhs), value(rhs))
    case Membership(lhs, negated, list) =>
      if negated then forall i :: 0 <= i < |list| ==> value(lhs) != value(list[i])
      else exists i :: 0 <= i < |list| && value(lhs) == value(list[i])
    case Implode(AndGlue, parts, _) =>
      forall i :: 0 <= i < |parts| && Print(parts[i]) != "" ==> Eval(parts[i], value, atom)
    case Implode(OrGlue, parts, _) =>
      exists i :: 0 <= i < |parts| && Print(parts[i]) != "" && Eval(parts[i], value, atom)
  }

  // ---------------------------------------------------------------- parentheses

  function Delta(c: char): int {
    if c == '(' then 1 else if c == ')' then -1 else 0
  }

  /** The nesting depth after reading `s` from depth `d`. */
  function Depth(s: string, d: int): int {
    if |s| == 0 then d else Depth(s[1..], d + Delta(s[0]))
  }

  /** Reading `s` from depth `d` never closes more parentheses than are open. */
  predicate NeverNegative(s: string, d: int) {
    d >= 0 && (|s| == 0 || NeverNegative(s[1..], d + Delta(s[0])))
  }

  /** Every parenthesis of `s` is matched. */
  predicate Balanced(s: string) {
    NeverNegative(s, 0) && Depth(s, 0) == 0
  }

  /** Every opaque piece of the tree, and every side of a relation, is balanced. */
  predicate PiecesBalanced(s: Sql)
    decreases s
  {
    match s
    case Fragment(text) => Balanced(text)
    case Relation(lhs, _, rhs) => Balanced(lhs) && Balanced(rhs)
    case Membership(lhs, _, list) => Balanced(lhs) && forall i :: 0 <= i < |list| ==> Balanced(list[i])
    case Implode(_, parts, _) => forall i :: 0 <= i < |parts| ==> PiecesBalanced(parts[i])
  }
}
