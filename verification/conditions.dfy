/**
  The search condition: typed values collected per field in a values bag,
  bags grouped under an AND/OR logical with ordered subgroups, and the
  condition itself (a root group plus an optional primary condition).
*/
module Conditions {
  import Dates
  import opened Outcomes

  /** A value as the condition holds it: an integer, a string or a date-time. */
  datatype Value = Num(n: int) | Text(s: string) | Moment(at: Dates.DateTime)

  /** A range; the inclusivity of each bound is independent. Lower <= upper is not enforced. */
  datatype Range = Range(lower: Value, upper: Value, lowerInclusive: bool, upperInclusive: bool)

  /** The operators a comparison may carry; `<>` means "not equal". */
  datatype CompareOp = Less | LessOrEqual | Greater | GreaterOrEqual | NotEqual {
    /** The operator as written in a condition. */
    function Symbol(): string {
      match this
      case Less => "<"
      case LessOrEqual => "<="
      case Greater => ">"
      case GreaterOrEqual => ">="
      case NotEqual => "<>"
    }
  }

  datatype Compare = Compare(value: Value, op: CompareOp)

  /**
    Pattern-match types: each positive type has a NOT-variant. `Other` stands
    for a type name no generator knows how to render.
  */
  datatype MatchType =
    | Contains | NotContains
    | StartsWith | NotStartsWith
    | EndsWith | NotEndsWith
    | Equals | NotEquals
    | Other(name: string)
  {
    /** The NOT-variants are exclusive: they remove records from the result. */
    predicate IsExclusive() {
      NotContains? || NotStartsWith? || NotEndsWith? || NotEquals?
    }

    /** The positive variant: the type itself unless it is a NOT-variant. */
    function Positive(): MatchType {
      match this
      case NotContains => Contains
      case NotStartsWith => StartsWith
      case NotEndsWith => EndsWith
      case NotEquals => Equals
      case _ => this
    }
  }

  datatype PatternMatch = PatternMatch(value: string, matchType: MatchType, caseInsensitive: bool) {
    predicate IsExclusive() {
      matchType.IsExclusive()
    }
  }

  /** Every value of one field, per kind, each list in insertion order. */
  datatype ValuesBag = ValuesBag(
    simple: seq<Value>,
    excludedSimple: seq<Value>,
    ranges: seq<Range>,
    excludedRanges: seq<Range>,
    compares: seq<Compare>,
    patterns: seq<PatternMatch>)
  {
    predicate HasValues() {
      || |simple| > 0 || |excludedSimple| > 0
      || |ranges| > 0 || |excludedRanges| > 0
      || |compares| > 0 || |patterns| > 0
    }
  }

  const EmptyBag: ValuesBag := ValuesBag([], [], [], [], [], [])

  datatype Logical = And | Or

  datatype FieldValues = FieldValues(name: string, bag: ValuesBag)

  /** A node of the condition tree: fields in insertion order, then ordered subgroups. */
  datatype ValuesGroup = ValuesGroup(logical: Logical, fields: seq<FieldValues>, groups: seq<ValuesGroup>)

  /** The condition handed to a generator: the root group and an optional primary condition. */
  datatype SearchCondition = SearchCondition(root: ValuesGroup, primary: Option<ValuesGroup>)

  /**
    True when no field of `g`, or of any group below it, whose name is in
    `names` holds a value: such a tree gives a generator nothing to emit.
  */
  predicate IsBlankFor(g: ValuesGroup, names: set<string>)
    decreases g, 1, 0
  {
    && (forall i :: 0 <= i < |g.fields| && g.fields[i].name in names ==> !g.fields[i].bag.HasValues())
    && BlankGroupsFor(g, 0, names)
  }

  predicate BlankGroupsFor(g: ValuesGroup, from: nat, names: set<string>)
    decreases g, 0, |g.groups| - from
  {
    from < |g.groups| ==> IsBlankFor(g.groups[from], names) && BlankGroupsFor(g, from + 1, names)
  }

  /** True when every field named anywhere in the tree of `g` is in `names`. */
  predicate NamesIn(g: ValuesGroup, names: set<string>)
    decreases g, 1, 0
  {
    && (forall i :: 0 <= i < |g.fields| ==> g.fields[i].name in names)
    && GroupNamesIn(g, 0, names)
  }

  predicate GroupNamesIn(g: ValuesGroup, from: nat, names: set<string>)
    decreases g, 0, |g.groups| - from
  {
    from < |g.groups| ==> NamesIn(g.groups[from], names) && GroupNamesIn(g, from + 1, names)
  }
}
