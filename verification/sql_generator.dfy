/**
  The SQL WHERE-clause generator: the field-to-column registry filled by
  `setField`, and the rendering of a search condition as a fragment tree
  (see SqlText) printed to the WHERE clause.

  Per registered field and per column, the including values are OR-joined
  and the excluding values AND-joined, and the two blocks are AND-ed; a `<>`
  compare is an exclusion, AND-ed to them on its own. A
  field's columns are OR-joined inside the field's parentheses, a group's
  fields are joined by the group's logical and parenthesised, and its
  subgroups are each parenthesised, OR-joined and AND-ed to the fields.
*/
module SqlGenerator {
  import opened Outcomes
  import opened Conditions
  import opened SqlText

  datatype Error = UnsupportedPatternType(name: string)

  // ---------------------------------------------------------------- the registry

  /** A database column a search field maps to; the alias is the table alias. */
  datatype Column = Column(column: string, alias: Option<string>, dbType: string) {
    /** `alias.column`, or the bare column without an alias. */
    function Reference(): string {
      match alias
      case None => column
      case Some(a) => a + "." + column
    }
  }

  /** The columns of one field keyed by mapping index, in insertion order; "" keys the unindexed mapping. */
  type Columns = seq<(string, Column)>

  type Fields = map<string, Columns>

  /** The position of the first `c` in `s`, if there is one. */
  function FirstIndex(s: string, c: char): (r: Option<nat>)
    ensures r.Some? ==> r.value < |s| && s[r.value] == c && c !in s[..r.value]
    ensures r.None? <==> c !in s
  {
    if |s| == 0 then None
    else if s[0] == c then Some(0)
    else match FirstIndex(s[1..], c)
      case None => None
      case Some(i) => assert s[..i + 1] == [s[0]] + s[1..][..i]; Some(i + 1)
  }

  /** A registered name split at its first `#` into the field name and the mapping index. */
  function SplitName(name: string): (string, Option<string>) {
    match FirstIndex(name, '#')
    case None => (name, None)
    case Some(i) => (name[..i], Some(name[i + 1..]))
  }

  /** The column stored under `key`, if any. */
  function ColumnAt(columns: Columns, key: string): Option<Column> {
    if |columns| == 0 then None
    else if columns[0].0 == key then Some(columns[0].1)
    else ColumnAt(columns[1..], key)
  }

  /** `$columns[key] = column`: replaced in place when the key is present, else appended. */
  function Assign(columns: Columns, key: string, column: Column): Columns {
    if |columns| == 0 then [(key, column)]
    else if columns[0].0 == key then [(key, column)] + columns[1..]
    else [columns[0]] + Assign(columns[1..], key, column)
  }

  /** `unset($columns[key])`. */
  function Unset(columns: Columns, key: string): Columns {
    if |columns| == 0 then []
    else if columns[0].0 == key then Unset(columns[1..], key)
    else [columns[0]] + Unset(columns[1..], key)
  }

  function ColumnsOf(fields: Fields, field: string): Columns {
    if field in fields then fields[field] else []
  }

  /**
    `setField`: a plain name replaces every column of the field; `field#index`
    drops the field's unindexed column and sets the column of that index.
  */
  function SetField(fields: Fields, name: string, column: string, alias: Option<string> := None, dbType: string := "string"): Fields {
    var (field, index) := SplitName(name);
    var mapped := Column(column, alias, dbType);
    match index
    case None => fields[field := [("", mapped)]]
    case Some(i) => fields[field := Assign(Unset(ColumnsOf(fields, field), ""), i, mapped)]
  }

  // ---------------------------------------------------------------- conversions

  /**
    The conversion configured on a field: a column converter, a value
    converter and a strategy resolver, each optional. The strategy chosen for
    a value is handed to both converters.
  */
  datatype Conversion = Conversion(
    column: Option<(string, Option<int>) -> string>,
    value: Option<(Value, Option<int>) -> string>,
    strategy: Option<Value -> int>)

  const NoConversion: Conversion := Conversion(None, None, None)

  /** How the connection writes a value of a column type as SQL. */
  type Literal = (Value, string) -> string

  /** Everything one column needs to render a value. */
  datatype Target = Target(column: Column, conversion: Conversion, literal: Literal) {
    function Strategy(v: Value): Option<int> {
      match conversion.strategy
      case None => None
      case Some(resolve) => Some(resolve(v))
    }

    /** The column as the SQL reads it, converted when a column converter is set. */
    function ColumnSql(strategy: Option<int>): string {
      match conversion.column
      case None => column.Reference()
      case Some(convert) => convert(column.Reference(), strategy)
    }

    /** The value as the SQL reads it, converted when a value converter is set. */
    function ValueSql(v: Value, strategy: Option<int>): string {
      match conversion.value
      case None => literal(v, column.dbType)
      case Some(convert) => convert(v, strategy)
    }

    /** Whether simple values are written one by one rather than as an IN list. */
    predicate PerValue() {
      conversion.value.Some? || conversion.strategy.Some?
    }
  }

  // ---------------------------------------------------------------- values

  /** One value compared with `=` (including) or `<>` (excluding). */
  function ValueRelation(t: Target, v: Value, excluded: bool): Sql {
    Relation(t.ColumnSql(t.Strategy(v)), if excluded then Ne else Eq, t.ValueSql(v, t.Strategy(v)))
  }

  /** The values as the SQL reads them, unconverted, in order. */
  function ValueList(t: Target, values: seq<Value>): (r: seq<string>)
    ensures |r| == |values|
    ensures forall i :: 0 <= i < |values| ==> r[i] == t.ValueSql(values[i], None)
  {
    if |values| == 0 then [] else [t.ValueSql(values[0], None)] + ValueList(t, values[1..])
  }

  /** One relation per value, in order. */
  function ValueRelations(t: Target, values: seq<Value>, excluded: bool): (r: seq<Sql>)
    ensures |r| == |values|
    ensures forall i :: 0 <= i < |values| ==> r[i] == ValueRelation(t, values[i], excluded)
  {
    if |values| == 0 then [] else [ValueRelation(t, values[0], excluded)] + ValueRelations(t, values[1..], excluded)
  }

  /** Simple values: one `IN(...)` / `NOT IN(...)` list, or one relation per value under a conversion. */
  function SimpleValues(t: Target, values: seq<Value>, excluded: bool): seq<Sql> {
    if |values| == 0 then []
    else if !t.PerValue() then
      [Membership(t.ColumnSql(None), excluded, ValueList(t, values))]
    else ValueRelations(t, values, excluded)
  }

  /** The operator of a range's lower bound in an including range. */
  function LowerOp(inclusive: bool): RelOp {
    if inclusive then Ge else Gt
  }

  function UpperOp(inclusive: bool): RelOp {
    if inclusive then Le else Lt
  }

  /** The operator of an excluded range's lower bound: `<=` when inclusive, `<` when not. */
  function ExcludedLowerOp(inclusive: bool): RelOp {
    if inclusive then Le else Lt
  }

  function ExcludedUpperOp(inclusive: bool): RelOp {
    if inclusive then Ge else Gt
  }

  function Bound(t: Target, v: Value, op: RelOp): Sql {
    Relation(t.ColumnSql(t.Strategy(v)), op, t.ValueSql(v, t.Strategy(v)))
  }

  /** `(col >= l AND col <= u)` for a range; `(col <= l OR col >= u)` for an excluded one. */
  function RangeSql(t: Target, r: Range, excluded: bool): Sql {
    if excluded then
      Implode(OrGlue, [Bound(t, r.lower, ExcludedLowerOp(r.lowerInclusive)), Bound(t, r.upper, ExcludedUpperOp(r.upperInclusive))], WrapAlways)
    else
      Implode(AndGlue, [Bound(t, r.lower, LowerOp(r.lowerInclusive)), Bound(t, r.upper, UpperOp(r.upperInclusive))], WrapAlways)
  }

  function Ranges(t: Target, ranges: seq<Range>, excluded: bool): (r: seq<Sql>)
    ensures |r| == |ranges|
    ensures forall i :: 0 <= i < |ranges| ==> r[i] == RangeSql(t, ranges[i], excluded)
  {
    if |ranges| == 0 then [] else [RangeSql(t, ranges[0], excluded)] + Ranges(t, ranges[1..], excluded)
  }

  function CompareRelOp(op: CompareOp): RelOp {
    match op
    case Less => Lt
    case LessOrEqual => Le
    case Greater => Gt
    case GreaterOrEqual => Ge
    case NotEqual => Ne
  }

  function CompareSql(t: Target, c: Compare): Sql {
    Bound(t, c.value, CompareRelOp(c.op))
  }

  /** The compares other than `<>`, in order. */
  function Ordering(compares: seq<Compare>): (r: seq<Compare>)
    ensures forall i :: 0 <= i < |r| ==> r[i].op != NotEqual && r[i] in compares
  {
    if |compares| == 0 then []
    else if compares[0].op == NotEqual then Ordering(compares[1..])
    else [compares[0]] + Ordering(compares[1..])
  }

  /** The `<>` compares, in order. */
  function Inequalities(compares: seq<Compare>): (r: seq<Compare>)
    ensures forall i :: 0 <= i < |r| ==> r[i].op == NotEqual && r[i] in compares
  {
    if |compares| == 0 then []
    else if compares[0].op == NotEqual then [compares[0]] + Inequalities(compares[1..])
    else Inequalities(compares[1..])
  }

  function CompareList(t: Target, compares: seq<Compare>): (r: seq<Sql>)
    ensures |r| == |compares|
    ensures forall i :: 0 <= i < |compares| ==> r[i] == CompareSql(t, compares[i])
  {
    if |compares| == 0 then [] else [CompareSql(t, compares[0])] + CompareList(t, compares[1..])
  }

  /** The ordering compares (all but `<>`), AND-ed in one block that narrows like a range. */
  function Compares(t: Target, compares: seq<Compare>): Sql {
    Implode(AndGlue, CompareList(t, Ordering(compares)), WrapMany)
  }

  /** The `<>` compares, each a conjunct of the column of its own. */
  function NotEqualParts(t: Target, compares: seq<Compare>): seq<Sql> {
    CompareList(t, Inequalities(compares))
  }

  /**
   * `%` and `_` escaped with a backslash, so that LIKE reads them literally.
   * These are SQL's LIKE wildcards; the Elasticsearch generator escapes its own pair, `?` and `*`,
   * so each generator keeps its escape beside the syntax it protects.
   */
  function EscapeLike(s: string): (r: string)
    ensures |r| >= |s|
  {
    if |s| == 0 then ""
    else (if s[0] == '%' || s[0] == '_' then ['\\', s[0]] else [s[0]]) + EscapeLike(s[1..])
  }

  /** The LIKE pattern of a match type: the wildcard placed as the generator places it. */
  function LikePattern(matchType: MatchType, escaped: string): string
    requires !matchType.Other? && !matchType.Equals? && !matchType.NotEquals?
  {
    match matchType
    case Contains => "%" + escaped + "%"
    case NotContains => "%" + escaped + "%"
    case StartsWith => "%" + escaped
    case NotStartsWith => "%" + escaped
    case EndsWith => escaped + "%"
    case NotEndsWith => escaped + "%"
  }

  /** Both sides of a case-insensitive match are lower-cased by the database. */
  function Lowered(sql: string, caseInsensitive: bool): string {
    if caseInsensitive then "LOWER(" + sql + ")" else sql
  }

  function PatternSql(t: Target, p: PatternMatch): Result<Sql, Error> {
    var column := Lowered(t.ColumnSql(t.Strategy(Text(p.value))), p.caseInsensitive);
    match p.matchType
    case Other(name) => Err(UnsupportedPatternType(name))
    case Equals => Ok(Relation(column, Eq, Lowered(t.literal(Text(p.value), "string"), p.caseInsensitive)))
    case NotEquals => Ok(Relation(column, Ne, Lowered(t.literal(Text(p.value), "string"), p.caseInsensitive)))
    case _ =>
      var pattern := Lowered(t.literal(Text(LikePattern(p.matchType, EscapeLike(p.value))), "string"), p.caseInsensitive);
      Ok(Fragment(column + (if p.IsExclusive() then " NOT" else "") + " LIKE " + pattern + " ESCAPE '\\'"))
  }

  /** The pattern matches of one side (exclusive or not), each rendered, in order. */
  function Patterns(t: Target, patterns: seq<PatternMatch>, exclusive: bool): (r: Result<seq<Sql>, Error>)
    ensures r.Ok? ==> |r.value| == CountSide(patterns, exclusive)
  {
    if |patterns| == 0 then Ok([])
    else if patterns[0].IsExclusive() != exclusive then Patterns(t, patterns[1..], exclusive)
    else
      var first :- PatternSql(t, patterns[0]);
      var rest :- Patterns(t, patterns[1..], exclusive);
      Ok([first] + rest)
  }

  function CountSide(patterns: seq<PatternMatch>, exclusive: bool): nat {
    if |patterns| == 0 then 0
    else (if patterns[0].IsExclusive() == exclusive then 1 else 0) + CountSide(patterns[1..], exclusive)
  }

  /**
    One column: the including values OR-joined, the excluding values
    AND-joined, and the two blocks AND-ed, followed by each `<>` compare as a
    further conjunct.
  */
  function ColumnSql(t: Target, bag: ValuesBag): Result<Sql, Error> {
    var including :- Patterns(t, bag.patterns, false);
    var excluding :- Patterns(t, bag.patterns, true);
    Ok(Implode(AndGlue,
               [ Implode(OrGlue, SimpleValues(t, bag.simple, false) + Ranges(t, bag.ranges, false)
                                 + [Compares(t, bag.compares)] + including, WrapMany),
                 Implode(AndGlue, SimpleValues(t, bag.excludedSimple, true) + Ranges(t, bag.excludedRanges, true)
                                  + excluding, WrapMany) ]
               + NotEqualParts(t, bag.compares),
               Bare))
  }

  // ---------------------------------------------------------------- groups

  /** The registry, the conversion of each field and the connection's literal rendering. */
  datatype Generator = Generator(fields: Fields, conversions: map<string, Conversion>, literal: Literal) {
    function ConversionOf(field: string): Conversion {
      if field in conversions then conversions[field] else NoConversion
    }
  }

  /** One column of a field, with the field's conversion. */
  function FieldColumnSql(gen: Generator, field: FieldValues, column: Column): Result<Sql, Error> {
    ColumnSql(Target(column, gen.ConversionOf(field.name), gen.literal), field.bag)
  }

  /** The columns of a field from position `from` on. */
  function ColumnsSql(gen: Generator, field: FieldValues, columns: Columns, from: nat): Result<seq<Sql>, Error>
    decreases |columns| - from
  {
    if from >= |columns| then Ok([])
    else
      var first :- FieldColumnSql(gen, field, columns[from].1);
      var rest :- ColumnsSql(gen, field, columns, from + 1);
      Ok([first] + rest)
  }

  /** A registered field: its columns OR-joined, always in parentheses. */
  function FieldSql(gen: Generator, field: FieldValues): Result<Sql, Error>
    requires field.name in gen.fields
  {
    var columns :- ColumnsSql(gen, field, gen.fields[field.name], 0);
    Ok(Implode(OrGlue, [Implode(OrGlue, columns, WrapMany)], WrapAlways))
  }

  /** The registered fields of `g` from position `from` on; the others are skipped. */
  function FieldsSql(gen: Generator, g: ValuesGroup, from: nat): Result<seq<Sql>, Error>
    decreases |g.fields| - from
  {
    if from >= |g.fields| then Ok([])
    else
      var rest :- FieldsSql(gen, g, from + 1);
      if g.fields[from].name !in gen.fields then Ok(rest)
      else
        var first :- FieldSql(gen, g.fields[from]);
        Ok([first] + rest)
  }

  function LogicalGlue(logical: Logical): Glue {
    if logical == And then AndGlue else OrGlue
  }

  /** A group: its fields joined by its logical, then its subgroups OR-joined, the two AND-ed. */
  function GroupSql(gen: Generator, g: ValuesGroup): Result<Sql, Error>
    decreases g, 1, 0
  {
    var fields :- FieldsSql(gen, g, 0);
    var groups :- SubgroupsSql(gen, g, 0);
    Ok(Implode(AndGlue, [Implode(LogicalGlue(g.logical), fields, WrapAlways), Implode(OrGlue, groups, WrapAlways)], WrapMany))
  }

  function SubgroupsSql(gen: Generator, g: ValuesGroup, from: nat): (r: Result<seq<Sql>, Error>)
    ensures r.Ok? ==> |r.value| == if from <= |g.groups| then |g.groups| - from else 0
    decreases g, 0, |g.groups| - from
  {
    if from >= |g.groups| then Ok([])
    else
      var first :- GroupSql(gen, g.groups[from]);
      var rest :- SubgroupsSql(gen, g, from + 1);
      Ok([first] + rest)
  }

  /** The tree of the whole condition: the primary condition's group AND-ed before the root's. */
  function ConditionSql(gen: Generator, condition: SearchCondition): Result<Sql, Error> {
    var root :- GroupSql(gen, condition.root);
    match condition.primary
    case None => Ok(root)
    case Some(primary) =>
      var first :- GroupSql(gen, primary);
      Ok(Implode(AndGlue, [first, root], Bare))
  }

  /** `getWhereClause`: empty when the condition renders to nothing, else the prefix and the clause. */
  function WhereClause(gen: Generator, condition: SearchCondition, prefix: string := ""): Result<string, Error> {
    var sql :- ConditionSql(gen, condition);
    var clause := Print(sql);
    Ok(if clause == "" then "" else prefix + clause)
  }
}
