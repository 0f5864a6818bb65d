/**
  The Elasticsearch condition generator. It walks the root group of a
  search condition and emits a `bool` query: the including values of a
  group go to `must` (AND group) or `should` (OR group), excluding values
  always go to `must_not`, and non-empty subgroup queries always go to
  `must`.

  The value and query converters registered with a field are caller
  callbacks; they are modelled as uninterpreted functions.
*/
module EsGenerator {
  import opened Outcomes
  import opened Conditions
  import opened Json
  import opened Seqs

  const PropertyId: string := "_id"

  // query elements
  const QueryKey: string := "query"
  const BoolKey: string := "bool"
  const IdsKey: string := "ids"
  const NestedKey: string := "nested"
  const PathKey: string := "path"
  const MatchKey: string := "match"
  const PrefixKey: string := "prefix"
  const RangeKey: string := "range"
  const WildcardKey: string := "wildcard"
  const TermKey: string := "term"
  const TermsKey: string := "terms"
  const ValueKey: string := "value"
  const ValuesKey: string := "values"

  // boolean operators
  const ConditionNot: string := "must_not"
  const ConditionAnd: string := "must"
  const ConditionOr: string := "should"

  // comparison operators; `<>` has no Elasticsearch counterpart and is only a marker
  const ComparisonLess: string := "lt"
  const ComparisonLessOrEqual: string := "lte"
  const ComparisonGreater: string := "gt"
  const ComparisonGreaterOrEqual: string := "gte"
  const ComparisonUnequal: string := "<>"

  datatype Error =
    /** A pattern-match type without a rendering rule (BadMethodCallException). */
    | UnsupportedPatternType(name: string)
    /** The value converter turned a pattern into something other than a string. */
    | PatternValueNotString
    /** A range on `_id` whose bounds are not both integers. */
    | NonIntegerIdRange

  /** Which kind of value `prepareQuery` is rendering. */
  datatype Context =
    | SimpleValues | ExcludedSimpleValues
    | RangeValues | ExcludedRangeValues
    | Comparison | PatternMatching

  /** What the query converter is told besides the property and the value. */
  datatype Hints = Hints(identifier: bool, context: Context)

  /**
    One unit of rendering: all simple (or excluded simple) values of a field
    together, or a single range, comparison or pattern match.
  */
  datatype Item =
    | SimpleItem(values: seq<Value>)
    | ExcludedSimpleItem(values: seq<Value>)
    | RangeItem(range: Range)
    | ExcludedRangeItem(range: Range)
    | CompareItem(compare: Compare)
    | MatchItem(pattern: PatternMatch)
  {
    function Context(): Context {
      match this
      case SimpleItem(_) => SimpleValues
      case ExcludedSimpleItem(_) => ExcludedSimpleValues
      case RangeItem(_) => RangeValues
      case ExcludedRangeItem(_) => ExcludedRangeValues
      case CompareItem(_) => Comparison
      case MatchItem(_) => PatternMatching
    }

    /** Excluded values, excluded ranges, `<>` comparisons and NOT-patterns remove records. */
    predicate IsExcluding() {
      || ExcludedSimpleItem?
      || ExcludedRangeItem?
      || (CompareItem? && compare.op == NotEqual)
      || (MatchItem? && pattern.IsExclusive())
    }
  }

  type ValueConverter = Value -> Value

  /** Returns a replacement query, or None to keep the default rendering. */
  type QueryConverter = (string, Item, Hints) -> Option<Json>

  /**
    A registered field: the property it targets, its optional converters and
    the chain of nested paths that wrap its queries, innermost first.
  */
  datatype FieldMapping = FieldMapping(
    fieldName: string,
    propertyName: string,
    valueConversion: Option<ValueConverter>,
    queryConversion: Option<QueryConverter>,
    nested: seq<string>)

  type Mappings = map<string, FieldMapping>

  /** Registers (or replaces) the mapping of a field. */
  function RegisterField(mappings: Mappings, mapping: FieldMapping): (r: Mappings)
    ensures r.Keys == mappings.Keys + {mapping.fieldName}
    ensures r[mapping.fieldName] == mapping
    ensures forall name :: name in mappings && name != mapping.fieldName ==> r[name] == mappings[name]
  {
    mappings[mapping.fieldName := mapping]
  }

  // ---------------------------------------------------------------- conversion

  function ConvertValue(value: Value, converter: Option<ValueConverter>): Value {
    match converter
    case None => value
    case Some(convert) => convert(value)
  }

  function ConvertValues(values: seq<Value>, converter: Option<ValueConverter>): (r: seq<Value>)
    ensures |r| == |values|
    ensures forall i :: 0 <= i < |values| ==> r[i] == ConvertValue(values[i], converter)
  {
    Map((v: Value) => ConvertValue(v, converter), values)
  }

  function ConvertRangeValues(range: Range, converter: Option<ValueConverter>): Range {
    Range(ConvertValue(range.lower, converter), ConvertValue(range.upper, converter),
          range.lowerInclusive, range.upperInclusive)
  }

  function ConvertCompareValue(compare: Compare, converter: Option<ValueConverter>): Compare {
    Compare(ConvertValue(compare.value, converter), compare.op)
  }

  /** A pattern's value must stay a string through conversion. */
  function ConvertMatcherValue(pattern: PatternMatch, converter: Option<ValueConverter>): Result<PatternMatch, Error> {
    match ConvertValue(Text(pattern.value), converter)
    case Text(s) => Ok(PatternMatch(s, pattern.matchType, pattern.caseInsensitive))
    case _ => Err(PatternValueNotString)
  }

  function ConvertItem(item: Item, converter: Option<ValueConverter>): Result<Item, Error> {
    match item
    case SimpleItem(vs) => Ok(SimpleItem(ConvertValues(vs, converter)))
    case ExcludedSimpleItem(vs) => Ok(ExcludedSimpleItem(ConvertValues(vs, converter)))
    case RangeItem(r) => Ok(RangeItem(ConvertRangeValues(r, converter)))
    case ExcludedRangeItem(r) => Ok(ExcludedRangeItem(ConvertRangeValues(r, converter)))
    case CompareItem(c) => Ok(CompareItem(ConvertCompareValue(c, converter)))
    case MatchItem(p) =>
      var converted :- ConvertMatcherValue(p, converter);
      Ok(MatchItem(converted))
  }

  // ---------------------------------------------------------------- renderers

  /** The range parameters: one lower-bound key and one upper-bound key. */
  function GenerateRangeParams(range: Range): (r: Json)
    ensures r.Object? && |r.members| == 2
    ensures r.members[0].0 in {ComparisonGreater, ComparisonGreaterOrEqual}
    ensures r.members[1].0 in {ComparisonLess, ComparisonLessOrEqual}
  {
    var lowerCondition := if range.lowerInclusive then ComparisonGreaterOrEqual else ComparisonGreater;
    var upperCondition := if range.upperInclusive then ComparisonLessOrEqual else ComparisonLess;
    Object([(lowerCondition, Scalar(range.lower)), (upperCondition, Scalar(range.upper))])
  }

  /** The Elasticsearch operator of a condition operator; `<>` maps to itself. */
  function TranslateComparison(op: CompareOp): string {
    match op
    case NotEqual => ComparisonUnequal
    case Less => ComparisonLess
    case LessOrEqual => ComparisonLessOrEqual
    case Greater => ComparisonGreater
    case GreaterOrEqual => ComparisonGreaterOrEqual
  }

  /** The integers from `a` to `b` inclusive, counting down when `a > b` (PHP's `range`). */
  function IntRange(a: int, b: int): (r: seq<int>)
    ensures |r| == (if a <= b then b - a else a - b) + 1
    ensures forall i :: 0 <= i < |r| ==> r[i] == (if a <= b then a + i else a - i)
    decreases if a <= b then b - a else a - b
  {
    if a == b then [a]
    else if a < b then [a] + IntRange(a + 1, b)
    else [a] + IntRange(a - 1, b)
  }

  function Scalars(values: seq<Value>): (r: seq<Json>)
    ensures |r| == |values|
    ensures forall i :: 0 <= i < |values| ==> r[i] == Scalar(values[i])
  {
    Map((v: Value) => Scalar(v), values)
  }

  function Numbers(ns: seq<int>): (r: seq<Json>)
    ensures |r| == |ns|
    ensures forall i :: 0 <= i < |ns| ==> r[i] == Scalar(Num(ns[i]))
  {
    Map((n: int) => Scalar(Num(n)), ns)
  }

  function IdsQuery(values: seq<Json>): Json {
    Single(IdsKey, Single(ValuesKey, List(values)))
  }

  /** `terms` on the property, or `ids` when the property is the document identifier. */
  function SimpleValuesQuery(property: string, values: seq<Value>, identifier: bool): Json {
    if identifier then IdsQuery(Scalars(values))
    else Single(TermsKey, Single(property, List(Scalars(values))))
  }

  predicate IsDigit(c: char) {
    '0' as int <= c as int <= '9' as int
  }

  /** The value of a non-empty run of decimal digits, most significant first. */
  function DigitsValue(s: string): nat
    requires forall i :: 0 <= i < |s| ==> IsDigit(s[i])
  {
    if |s| == 0 then 0
    else
      assert IsDigit(s[|s| - 1]);
      DigitsValue(s[..|s| - 1]) * 10 + (s[|s| - 1] as int - '0' as int)
  }

  /** The integer a string denotes when it is an optional sign followed by decimal digits. */
  function DecimalInt(s: string): Option<int> {
    var signed := |s| > 0 && (s[0] == '-' || s[0] == '+');
    var digits := if signed then s[1..] else s;
    if |digits| > 0 && forall i :: 0 <= i < |digits| ==> IsDigit(digits[i]) then
      var magnitude: int := DigitsValue(digits);
      Some(if signed && s[0] == '-' then -magnitude else magnitude)
    else None
  }

  /** The whitespace PHP allows around a numeric string: space, tab, newline, carriage return, vertical tab, form feed. */
  predicate IsNumericSpace(c: char) {
    c == ' ' || c == '\t' || c == '\n' || c == '\r' || c as int == 0x0B || c as int == 0x0C
  }

  /** `s` without its leading whitespace. */
  function TrimStart(s: string): string {
    if |s| > 0 && IsNumericSpace(s[0]) then TrimStart(s[1..]) else s
  }

  /** `s` without its trailing whitespace. */
  function TrimEnd(s: string): string {
    if |s| > 0 && IsNumericSpace(s[|s| - 1]) then TrimEnd(s[..|s| - 1]) else s
  }

  /**
   * A bound of an identifier range as PHP's `range` counts it: an integer, or a numeric
   * string holding one, whose leading and trailing whitespace PHP ignores.
   */
  function IdBound(v: Value): Option<int> {
    match v
    case Num(n) => Some(n)
    case Text(s) => DecimalInt(TrimEnd(TrimStart(s)))
    case Moment(_) => None
  }

  /** `range` on the property, or `ids` over every integer of the range on the identifier. */
  function RangeQuery(property: string, range: Range, identifier: bool): Result<Json, Error> {
    if !identifier then Ok(Single(RangeKey, Single(property, GenerateRangeParams(range))))
    else match (IdBound(range.lower), IdBound(range.upper))
      case (Some(lower), Some(upper)) => Ok(IdsQuery(Numbers(IntRange(lower, upper))))
      case _ => Err(NonIntegerIdRange)
  }

  /** `{property: {op: value}}`, or a `term` query for `<>` (placed in must_not by the caller). */
  function ComparisonQuery(property: string, compare: Compare): Json {
    if compare.op == NotEqual then Single(TermKey, Single(property, Single(ValueKey, Scalar(compare.value))))
    else Single(property, Single(TranslateComparison(compare.op), Scalar(compare.value)))
  }

  /**
   * The wildcard metacharacters `?` and `*` of `s`, each preceded by a backslash (PHP's addcslashes).
   * These are the wildcard query's metacharacters; SQL's LIKE has a different pair (`%` and `_`),
   * escaped by the SQL generator's own function.
   */
  function EscapeWildcard(s: string): (r: string)
    ensures |r| >= |s|
  {
    if |s| == 0 then ""
    else (if s[0] == '?' || s[0] == '*' then ['\\', s[0]] else [s[0]]) + EscapeWildcard(s[1..])
  }

  /** The query of a pattern match; a NOT-variant has the shape of its positive variant. */
  function PreparePatternMatch(property: string, pattern: PatternMatch): Result<Json, Error> {
    match pattern.matchType
    case Contains => Ok(Single(MatchKey, Single(property, Single(QueryKey, Str(pattern.value)))))
    case NotContains => Ok(Single(MatchKey, Single(property, Single(QueryKey, Str(pattern.value)))))
    case StartsWith => Ok(Single(PrefixKey, Single(property, Single(ValueKey, Str(pattern.value)))))
    case NotStartsWith => Ok(Single(PrefixKey, Single(property, Single(ValueKey, Str(pattern.value)))))
    case EndsWith => Ok(Single(WildcardKey, Single(property, Single(ValueKey, Str("?" + EscapeWildcard(pattern.value))))))
    case NotEndsWith => Ok(Single(WildcardKey, Single(property, Single(ValueKey, Str("?" + EscapeWildcard(pattern.value))))))
    case Equals => Ok(Single(TermKey, Single(property, Single(ValueKey, Str(pattern.value)))))
    case NotEquals => Ok(Single(TermKey, Single(property, Single(ValueKey, Str(pattern.value)))))
    case Other(name) => Err(UnsupportedPatternType(name))
  }

  /** The rendering used when no query converter replaces it. */
  function DefaultQuery(property: string, item: Item, identifier: bool): Result<Json, Error> {
    match item
    case SimpleItem(vs) => Ok(SimpleValuesQuery(property, vs, identifier))
    case ExcludedSimpleItem(vs) => Ok(SimpleValuesQuery(property, vs, identifier))
    case RangeItem(r) => RangeQuery(property, r, identifier)
    case ExcludedRangeItem(r) => RangeQuery(property, r, identifier)
    case CompareItem(c) => Ok(ComparisonQuery(property, c))
    case MatchItem(p) => PreparePatternMatch(property, p)
  }

  function NestedQuery(path: string, query: Json): Json {
    Single(NestedKey, Object([(PathKey, Str(path)), (QueryKey, query)]))
  }

  /** Wraps the query in one `nested` query per path, the first path innermost. */
  function WrapNested(query: Json, paths: seq<string>): Json
    decreases |paths|
  {
    if |paths| == 0 then query else WrapNested(NestedQuery(paths[0], query), paths[1..])
  }

  /** The query of one item: the converter's if it gives one, else the default; then nesting. */
  function PrepareQuery(property: string, item: Item, identifier: bool, converter: Option<QueryConverter>, nested: seq<string>): Result<Json, Error> {
    var hints := Hints(identifier, item.Context());
    var query :-
      match converter
      case Some(convert) =>
        (match convert(property, item, hints)
         case Some(q) => Ok(q)
         case None => DefaultQuery(property, item, identifier))
      case None => DefaultQuery(property, item, identifier);
    Ok(WrapNested(query, nested))
  }

  // ---------------------------------------------------------------- group walk

  /** The items of a bag in the generator's order: simple, excluded, ranges, excluded ranges, comparisons, patterns. */
  function Items(bag: ValuesBag): seq<Item> {
    (if |bag.simple| > 0 then [SimpleItem(bag.simple)] else [])
    + (if |bag.excludedSimple| > 0 then [ExcludedSimpleItem(bag.excludedSimple)] else [])
    + Map((r: Range) => RangeItem(r), bag.ranges)
    + Map((r: Range) => ExcludedRangeItem(r), bag.excludedRanges)
    + Map((c: Compare) => CompareItem(c), bag.compares)
    + Map((p: PatternMatch) => MatchItem(p), bag.patterns)
  }

  /** The bucket an item's query goes to. */
  function BucketFor(item: Item, including: string): string {
    if item.IsExcluding() then ConditionNot else including
  }

  /** Converts and renders one item, tagged with its bucket. */
  function ProcessItem(mapping: FieldMapping, item: Item, including: string): (r: Result<(string, Json), Error>)
    ensures r.Ok? ==> r.value.0 == BucketFor(item, including)
  {
    var converted :- ConvertItem(item, mapping.valueConversion);
    var query :- PrepareQuery(mapping.propertyName, converted, mapping.propertyName == PropertyId,
                              mapping.queryConversion, mapping.nested);
    Ok((BucketFor(converted, including), query))
  }

  function ProcessItems(mapping: FieldMapping, items: seq<Item>, including: string): (r: Result<seq<(string, Json)>, Error>)
    ensures r.Ok? ==> |r.value| == |items|
    ensures r.Ok? ==> forall i :: 0 <= i < |items| ==> r.value[i].0 == BucketFor(items[i], including)
  {
    if |items| == 0 then Ok([])
    else
      var first :- ProcessItem(mapping, items[0], including);
      var rest :- ProcessItems(mapping, items[1..], including);
      Ok([first] + rest)
  }

  /** Every item of the fields of `g` from index `from` on, in field order. */
  function FieldItems(g: ValuesGroup, from: nat): seq<Item>
    decreases |g.fields| - from
  {
    if from >= |g.fields| then [] else Items(g.fields[from].bag) + FieldItems(g, from + 1)
  }

  /** The tagged queries of the fields of `g` from index `from` on. */
  function FieldFragments(g: ValuesGroup, mappings: Mappings, from: nat, including: string): (r: Result<seq<(string, Json)>, Error>)
    requires forall i :: 0 <= i < |g.fields| ==> g.fields[i].name in mappings
    ensures r.Ok? ==> |r.value| == |FieldItems(g, from)|
    ensures r.Ok? ==> forall i :: 0 <= i < |r.value| ==> r.value[i].0 == BucketFor(FieldItems(g, from)[i], including)
    decreases |g.fields| - from
  {
    if from >= |g.fields| then Ok([])
    else
      var field := g.fields[from];
      var here :- ProcessItems(mappings[field.name], Items(field.bag), including);
      var rest :- FieldFragments(g, mappings, from + 1, including);
      Ok(here + rest)
  }

  /** The buckets under construction: keys in first-use order, each with its queries. */
  type Buckets = seq<(string, seq<Json>)>

  /** `$bool[key][] = query`. */
  function Push(buckets: Buckets, key: string, query: Json): (r: Buckets)
    ensures |r| > 0
  {
    if |buckets| == 0 then [(key, [query])]
    else if buckets[0].0 == key then [(key, buckets[0].1 + [query])] + buckets[1..]
    else [buckets[0]] + Push(buckets[1..], key, query)
  }

  function PushAll(buckets: Buckets, fragments: seq<(string, Json)>): Buckets
    decreases |fragments|
  {
    if |fragments| == 0 then buckets
    else PushAll(Push(buckets, fragments[0].0, fragments[0].1), fragments[1..])
  }

  /** The queries stored under a key; none when the key was never used. */
  function Lookup(buckets: Buckets, key: string): seq<Json> {
    if |buckets| == 0 then []
    else if buckets[0].0 == key then buckets[0].1
    else Lookup(buckets[1..], key)
  }

  /** The queries of the fragments tagged with `key`, in order. */
  function Select(fragments: seq<(string, Json)>, key: string): seq<Json> {
    if |fragments| == 0 then []
    else (if fragments[0].0 == key then [fragments[0].1] else []) + Select(fragments[1..], key)
  }

  function Tag(key: string, queries: seq<Json>): (r: seq<(string, Json)>)
    ensures |r| == |queries|
    ensures forall i :: 0 <= i < |queries| ==> r[i] == (key, queries[i])
  {
    Map((q: Json) => (key, q), queries)
  }

  function BucketsJson(buckets: Buckets): Json {
    Object(Map((b: (string, seq<Json>)) => (b.0, List(b.1)), buckets))
  }

  /** The including bucket of a group: `must` for AND, `should` for OR. */
  function IncludingType(logical: Logical): string {
    if logical == And then ConditionAnd else ConditionOr
  }

  /** The queries of the subgroups of `g` from index `from` on, empty ones dropped. */
  function SubgroupQueries(g: ValuesGroup, mappings: Mappings, from: nat): (r: Result<seq<Json>, Error>)
    requires GroupNamesIn(g, from, mappings.Keys)
    ensures r.Ok? ==> forall i :: 0 <= i < |r.value| ==> r.value[i] != Empty
    decreases g, 0, |g.groups| - from
  {
    if from >= |g.groups| then Ok([])
    else
      var query :- ProcessGroup(g.groups[from], mappings);
      var rest :- SubgroupQueries(g, mappings, from + 1);
      Ok((if query == Empty then [] else [query]) + rest)
  }

  /** The buckets of a group: its fields' queries, then its non-empty subgroups in `must`. */
  function GroupBuckets(g: ValuesGroup, mappings: Mappings): Result<Buckets, Error>
    requires NamesIn(g, mappings.Keys)
    decreases g, 1, 1
  {
    var fragments :- FieldFragments(g, mappings, 0, IncludingType(g.logical));
    var subgroups :- SubgroupQueries(g, mappings, 0);
    Ok(PushAll(PushAll([], fragments), Tag(ConditionAnd, subgroups)))
  }

  /** `processGroup`: `[]` when nothing was emitted, else `{bool: buckets}`. */
  function ProcessGroup(g: ValuesGroup, mappings: Mappings): Result<Json, Error>
    requires NamesIn(g, mappings.Keys)
    decreases g, 1, 2
  {
    var buckets :- GroupBuckets(g, mappings);
    Ok(if buckets == [] then Empty else Single(BoolKey, BucketsJson(buckets)))
  }

  /** `getQuery`: null for an empty root group, else `{query: ...}`. The primary condition is not read. */
  function GetQuery(condition: SearchCondition, mappings: Mappings): Result<Option<Json>, Error>
    requires NamesIn(condition.root, mappings.Keys)
  {
    var root :- ProcessGroup(condition.root, mappings);
    Ok(if root == Empty then None else Some(Single(QueryKey, root)))
  }

  /** Whether `getMappings` reports a field: excluded values and excluded ranges alone do not count. */
  predicate IsReferenced(bag: ValuesBag) {
    |bag.simple| > 0 || |bag.ranges| > 0 || |bag.compares| > 0 || |bag.patterns| > 0
  }

  /** The referenced field names of `fields`, each once, in order of first reference. */
  function ReferencedNames(fields: seq<FieldValues>): (r: seq<string>)
    ensures forall i, j :: 0 <= i < j < |r| ==> r[i] != r[j]
    ensures forall n :: n in r <==> exists i :: 0 <= i < |fields| && fields[i].name == n && IsReferenced(fields[i].bag)
    decreases |fields|
  {
    if |fields| == 0 then []
    else
      var last := fields[|fields| - 1];
      var before := ReferencedNames(fields[..|fields| - 1]);
      if IsReferenced(last.bag) && last.name !in before then before + [last.name] else before
  }

  /** `getMappings`: the mappings of the root group's referenced fields. */
  function GetMappings(condition: SearchCondition, mappings: Mappings): (r: seq<FieldMapping>)
    requires forall i :: 0 <= i < |condition.root.fields| ==> condition.root.fields[i].name in mappings
  {
    var names := ReferencedNames(condition.root.fields);
    assert forall i :: 0 <= i < |names| ==> names[i] in names;
    MappingsOf(names, mappings)
  }

  /** The registered mapping of every name, in order. */
  function MappingsOf(names: seq<string>, mappings: Mappings): (r: seq<FieldMapping>)
    requires forall i :: 0 <= i < |names| ==> names[i] in mappings
    ensures |r| == |names|
    ensures forall i :: 0 <= i < |names| ==> r[i] == mappings[names[i]]
  {
    if |names| == 0 then [] else [mappings[names[0]]] + MappingsOf(names[1..], mappings)
  }
}
