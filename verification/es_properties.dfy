/**
  Properties of the Elasticsearch generator: where each kind of value is
  routed, when a group emits nothing, where subgroups go, and that every
  renderer keeps what it was given (each has a decoder that recovers it).
*/
module EsProperties {
  import opened Outcomes
  import opened Conditions
  import opened Json
  import opened EsGenerator
  import opened Seqs

  // ---------------------------------------------------------------- buckets

  lemma {:induction false} LookupPush(buckets: Buckets, key: string, query: Json, other: string)
    ensures Lookup(Push(buckets, key, query), other) == Lookup(buckets, other) + (if key == other then [query] else [])
    decreases |buckets|
  {
    if |buckets| > 0 && buckets[0].0 != key {
      LookupPush(buckets[1..], key, query, other);
    }
  }

  /** A key not used yet is appended as the last bucket (PHP arrays keep first-insertion order). */
  lemma {:induction false} PushNewKey(buckets: Buckets, key: string, query: Json)
    requires forall i :: 0 <= i < |buckets| ==> buckets[i].0 != key
    ensures Push(buckets, key, query) == buckets + [(key, [query])]
    decreases |buckets|
  {
    if |buckets| > 0 {
      PushNewKey(buckets[1..], key, query);
      assert buckets == [buckets[0]] + buckets[1..];
    }
  }

  /** A key already used keeps its position and gets the query appended to its list. */
  lemma {:induction false} PushUsedKey(buckets: Buckets, at: nat, key: string, query: Json)
    requires at < |buckets| && buckets[at].0 == key
    requires forall i :: 0 <= i < at ==> buckets[i].0 != key
    ensures Push(buckets, key, query) == buckets[at := (key, buckets[at].1 + [query])]
    decreases at
  {
    if at > 0 {
      PushUsedKey(buckets[1..], at - 1, key, query);
      assert buckets[at := (key, buckets[at].1 + [query])] == [buckets[0]] + buckets[1..][at - 1 := (key, buckets[at].1 + [query])];
    }
  }

  /** Pushing fragments one by one stores, under every key, exactly the fragments tagged with it, in order. */
  lemma {:induction false} LookupPushAll(buckets: Buckets, fragments: seq<(string, Json)>, key: string)
    ensures Lookup(PushAll(buckets, fragments), key) == Lookup(buckets, key) + Select(fragments, key)
    decreases |fragments|
  {
    if |fragments| > 0 {
      var next := Push(buckets, fragments[0].0, fragments[0].1);
      LookupPush(buckets, fragments[0].0, fragments[0].1, key);
      LookupPushAll(next, fragments[1..], key);
      assert Select(fragments, key) == (if fragments[0].0 == key then [fragments[0].1] else []) + Select(fragments[1..], key);
    }
  }

  /** `$bool` stays `[]` exactly when nothing was pushed. */
  lemma {:induction false} PushAllEmpty(buckets: Buckets, fragments: seq<(string, Json)>)
    ensures PushAll(buckets, fragments) == [] <==> buckets == [] && fragments == []
    decreases |fragments|
  {
    if |fragments| > 0 {
      PushAllEmpty(Push(buckets, fragments[0].0, fragments[0].1), fragments[1..]);
    }
  }

  lemma {:induction false} SelectTag(key: string, queries: seq<Json>, other: string)
    ensures Select(Tag(key, queries), other) == (if key == other then queries else [])
    decreases |queries|
  {
    if |queries| > 0 {
      SelectTag(key, queries[1..], other);
      assert Tag(key, queries)[1..] == Tag(key, queries[1..]);
    }
  }

  /** The number of items that go to `must_not`. */
  function CountExcluding(items: seq<Item>): nat {
    if |items| == 0 then 0 else (if items[0].IsExcluding() then 1 else 0) + CountExcluding(items[1..])
  }

  /**
    When each fragment is tagged with its item's bucket, `must_not` gets one
    query per excluding item and the including bucket one per other item.
  */
  lemma {:induction false} SelectCounts(fragments: seq<(string, Json)>, items: seq<Item>, including: string)
    requires including != ConditionNot
    requires |fragments| == |items|
    requires forall i :: 0 <= i < |items| ==> fragments[i].0 == BucketFor(items[i], including)
    ensures |Select(fragments, ConditionNot)| == CountExcluding(items)
    ensures |Select(fragments, including)| == |items| - CountExcluding(items)
    ensures forall key :: key != ConditionNot && key != including ==> Select(fragments, key) == []
    decreases |items|
  {
    if |items| > 0 {
      SelectCounts(fragments[1..], items[1..], including);
    }
  }

  /** A field's items render independently: the field fails exactly when one item fails, else item by item. */
  lemma {:induction false} ProcessItemsPointwise(mapping: FieldMapping, items: seq<Item>, including: string)
    ensures ProcessItems(mapping, items, including).Ok? <==> forall i :: 0 <= i < |items| ==> ProcessItem(mapping, items[i], including).Ok?
    ensures ProcessItems(mapping, items, including).Ok? ==>
              forall i :: 0 <= i < |items| ==> ProcessItems(mapping, items, including).value[i] == ProcessItem(mapping, items[i], including).value
    decreases |items|
  {
    if |items| > 0 {
      ProcessItemsPointwise(mapping, items[1..], including);
      assert forall i :: 1 <= i < |items| ==> items[i] == items[1..][i - 1];
    }
  }

  // ---------------------------------------------------------------- routing

  /**
    The buckets of a group: `must_not` holds the excluding fragments whatever
    the logical; the including bucket is `must` for AND and `should` for OR;
    subgroup queries always go to `must`, after the field queries.
  */
  lemma {:induction false} GroupRouting(g: ValuesGroup, mappings: Mappings)
    requires NamesIn(g, mappings.Keys)
    requires GroupBuckets(g, mappings).Ok?
    ensures var including := IncludingType(g.logical);
            var fragments := FieldFragments(g, mappings, 0, including).value;
            var subgroups := SubgroupQueries(g, mappings, 0).value;
            var buckets := GroupBuckets(g, mappings).value;
            && Lookup(buckets, ConditionNot) == Select(fragments, ConditionNot)
            && |Lookup(buckets, ConditionNot)| == CountExcluding(FieldItems(g, 0))
            && (g.logical == And ==>
                  && Lookup(buckets, ConditionAnd) == Select(fragments, ConditionAnd) + subgroups
                  && |Select(fragments, ConditionAnd)| == |FieldItems(g, 0)| - CountExcluding(FieldItems(g, 0))
                  && Lookup(buckets, ConditionOr) == [])
            && (g.logical == Or ==>
                  && Lookup(buckets, ConditionOr) == Select(fragments, ConditionOr)
                  && |Select(fragments, ConditionOr)| == |FieldItems(g, 0)| - CountExcluding(FieldItems(g, 0))
                  && Lookup(buckets, ConditionAnd) == subgroups)
  {
    var including := IncludingType(g.logical);
    var fragments := FieldFragments(g, mappings, 0, including).value;
    var subgroups := SubgroupQueries(g, mappings, 0).value;
    SelectCounts(fragments, FieldItems(g, 0), including);
    LookupBuckets(fragments, subgroups, ConditionNot);
    LookupBuckets(fragments, subgroups, ConditionAnd);
    LookupBuckets(fragments, subgroups, ConditionOr);
  }

  /** The lookup of a key in the buckets built from field fragments followed by subgroup queries. */
  lemma LookupBuckets(fragments: seq<(string, Json)>, subgroups: seq<Json>, key: string)
    ensures Lookup(PushAll(PushAll([], fragments), Tag(ConditionAnd, subgroups)), key)
            == Select(fragments, key) + (if key == ConditionAnd then subgroups else [])
  {
    LookupPushAll([], fragments, key);
    LookupPushAll(PushAll([], fragments), Tag(ConditionAnd, subgroups), key);
    SelectTag(ConditionAnd, subgroups, key);
  }

  // ---------------------------------------------------------------- blank groups

  lemma ItemsOfBag(bag: ValuesBag)
    ensures Items(bag) == [] <==> !bag.HasValues()
  {
    if |bag.ranges| > 0 {
      assert Items(bag)[|Items(bag)| - |bag.patterns| - |bag.compares| - |bag.excludedRanges| - 1] == RangeItem(bag.ranges[|bag.ranges| - 1]);
    }
  }

  lemma {:induction false} FieldItemsEmpty(g: ValuesGroup, from: nat)
    ensures FieldItems(g, from) == [] <==> forall i :: from <= i < |g.fields| ==> !g.fields[i].bag.HasValues()
    decreases |g.fields| - from
  {
    if from < |g.fields| {
      ItemsOfBag(g.fields[from].bag);
      FieldItemsEmpty(g, from + 1);
    }
  }

  lemma {:induction false} FieldFragmentsOfNoItems(g: ValuesGroup, mappings: Mappings, from: nat, including: string)
    requires forall i :: 0 <= i < |g.fields| ==> g.fields[i].name in mappings
    requires FieldItems(g, from) == []
    ensures FieldFragments(g, mappings, from, including) == Ok([])
    decreases |g.fields| - from
  {
    if from < |g.fields| {
      assert Items(g.fields[from].bag) == [];
      FieldFragmentsOfNoItems(g, mappings, from + 1, including);
    }
  }

  /**
    A group emits `[]` exactly when no field anywhere in its tree holds a
    value, whatever the logicals and the nesting depth.
  */
  lemma {:induction false} EmptyExactlyWhenBlank(g: ValuesGroup, mappings: Mappings)
    requires NamesIn(g, mappings.Keys)
    ensures ProcessGroup(g, mappings) == Ok(Empty) <==> IsBlankFor(g, mappings.Keys)
    decreases g, 1, 0
  {
    var including := IncludingType(g.logical);
    FieldItemsEmpty(g, 0);
    SubgroupsEmptyExactlyWhenBlank(g, mappings, 0);
    var fields := FieldFragments(g, mappings, 0, including);
    if IsBlankFor(g, mappings.Keys) {
      FieldFragmentsOfNoItems(g, mappings, 0, including);
      assert GroupBuckets(g, mappings) == Ok([]);
    } else if ProcessGroup(g, mappings) == Ok(Empty) {
      var buckets := GroupBuckets(g, mappings).value;
      assert buckets == [];
      var subgroups := SubgroupQueries(g, mappings, 0).value;
      PushAllEmpty(PushAll([], fields.value), Tag(ConditionAnd, subgroups));
      PushAllEmpty([], fields.value);
      assert false;
    }
  }

  lemma {:induction false} SubgroupsEmptyExactlyWhenBlank(g: ValuesGroup, mappings: Mappings, from: nat)
    requires GroupNamesIn(g, from, mappings.Keys)
    ensures SubgroupQueries(g, mappings, from) == Ok([]) <==> BlankGroupsFor(g, from, mappings.Keys)
    decreases g, 0, |g.groups| - from
  {
    if from < |g.groups| {
      EmptyExactlyWhenBlank(g.groups[from], mappings);
      SubgroupsEmptyExactlyWhenBlank(g, mappings, from + 1);
    }
  }

  /** The number of subgroups, from index `from` on, that emit something. */
  function CountNonBlank(g: ValuesGroup, from: nat, names: set<string>): nat
    decreases |g.groups| - from
  {
    if from >= |g.groups| then 0
    else (if IsBlankFor(g.groups[from], names) then 0 else 1) + CountNonBlank(g, from + 1, names)
  }

  /** `must` receives one query per non-blank subgroup: blank subgroups are dropped, none is lost. */
  lemma {:induction false} SubgroupCount(g: ValuesGroup, mappings: Mappings, from: nat)
    requires GroupNamesIn(g, from, mappings.Keys)
    requires SubgroupQueries(g, mappings, from).Ok?
    ensures |SubgroupQueries(g, mappings, from).value| == CountNonBlank(g, from, mappings.Keys)
    decreases |g.groups| - from
  {
    if from < |g.groups| {
      EmptyExactlyWhenBlank(g.groups[from], mappings);
      SubgroupCount(g, mappings, from + 1);
    }
  }

  /** `getQuery` returns null, not an empty bool, exactly for a blank root group. */
  lemma {:induction false} NullQueryExactlyWhenBlank(condition: SearchCondition, mappings: Mappings)
    requires NamesIn(condition.root, mappings.Keys)
    ensures GetQuery(condition, mappings) == Ok(None) <==> IsBlankFor(condition.root, mappings.Keys)
    ensures GetQuery(condition, mappings).Ok? && GetQuery(condition, mappings).value.Some? ==>
              exists b: Buckets :: b != [] && GetQuery(condition, mappings).value.value == Single(QueryKey, Single(BoolKey, BucketsJson(b)))
  {
    EmptyExactlyWhenBlank(condition.root, mappings);
    var r := ProcessGroup(condition.root, mappings);
    if r.Ok? && r.value != Empty {
      var b := GroupBuckets(condition.root, mappings).value;
      assert b != [];
      assert GetQuery(condition, mappings).value.value == Single(QueryKey, Single(BoolKey, BucketsJson(b)));
    }
  }

  /** The primary condition does not influence the query. */
  lemma PrimaryConditionIgnored(root: ValuesGroup, p1: Option<ValuesGroup>, p2: Option<ValuesGroup>, mappings: Mappings)
    requires NamesIn(root, mappings.Keys)
    ensures GetQuery(SearchCondition(root, p1), mappings) == GetQuery(SearchCondition(root, p2), mappings)
  {
  }

  // ---------------------------------------------------------------- conversion

  /** Without a value converter every item passes unchanged. */
  lemma NoConverterIsIdentity(item: Item)
    ensures ConvertItem(item, None) == Ok(item)
  {
    if item.SimpleItem? || item.ExcludedSimpleItem? {
      assert ConvertValues(item.values, None) == item.values;
    }
  }

  /**
    A value converter is applied to every simple value, both range bounds, the
    comparison value and the pattern; flags, operator, type and case flag are
    kept, so the item stays in its bucket.
  */
  lemma ConversionKeepsShape(item: Item, convert: ValueConverter, including: string)
    ensures var r := ConvertItem(item, Some(convert));
            && (r.Err? <==> (item.MatchItem? && !convert(Text(item.pattern.value)).Text?))
            && (r.Ok? ==> r.value.Context() == item.Context() && BucketFor(r.value, including) == BucketFor(item, including))
            && (r.Ok? && (item.SimpleItem? || item.ExcludedSimpleItem?) ==>
                  |r.value.values| == |item.values| && forall i :: 0 <= i < |item.values| ==> r.value.values[i] == convert(item.values[i]))
            && (r.Ok? && (item.RangeItem? || item.ExcludedRangeItem?) ==>
                  r.value.range == Range(convert(item.range.lower), convert(item.range.upper), item.range.lowerInclusive, item.range.upperInclusive))
            && (r.Ok? && item.CompareItem? ==> r.value.compare == Compare(convert(item.compare.value), item.compare.op))
            && (r.Ok? && item.MatchItem? ==>
                  r.value.pattern == PatternMatch(convert(Text(item.pattern.value)).s, item.pattern.matchType, item.pattern.caseInsensitive))
  {
  }

  // ---------------------------------------------------------------- renderers

  /** Reads range parameters back: the keys give the inclusivity, the values the bounds. */
  function ParseRangeParams(params: Json): Option<Range> {
    if params.Object? && |params.members| == 2 && params.members[0].1.Scalar? && params.members[1].1.Scalar? then
      var lowerKey := params.members[0].0;
      var upperKey := params.members[1].0;
      if lowerKey in {ComparisonGreater, ComparisonGreaterOrEqual} && upperKey in {ComparisonLess, ComparisonLessOrEqual} then
        Some(Range(params.members[0].1.v, params.members[1].1.v,
                   lowerKey == ComparisonGreaterOrEqual, upperKey == ComparisonLessOrEqual))
      else None
    else None
  }

  /** The range parameters carry the bounds unchanged and one key per bound: gte/gt, then lte/lt. */
  lemma RangeParamsRoundTrip(range: Range)
    ensures ParseRangeParams(GenerateRangeParams(range)) == Some(range)
    ensures GenerateRangeParams(range).members[0].0 == (if range.lowerInclusive then "gte" else "gt")
    ensures GenerateRangeParams(range).members[1].0 == (if range.upperInclusive then "lte" else "lt")
  {
  }

  /** Ranges and excluded ranges render alike; so do simple and excluded simple values: only the bucket differs. */
  lemma ExcludedKindsRenderAlike(property: string, range: Range, values: seq<Value>, identifier: bool)
    ensures DefaultQuery(property, RangeItem(range), identifier) == DefaultQuery(property, ExcludedRangeItem(range), identifier)
    ensures DefaultQuery(property, SimpleItem(values), identifier) == DefaultQuery(property, ExcludedSimpleItem(values), identifier)
    ensures BucketFor(RangeItem(range), ConditionAnd) == ConditionAnd && BucketFor(ExcludedRangeItem(range), ConditionAnd) == ConditionNot
  {
  }

  /** The inverse of the operator translation. */
  function ComparisonFromEs(op: string): Option<CompareOp> {
    if op == "lt" then Some(Less)
    else if op == "lte" then Some(LessOrEqual)
    else if op == "gt" then Some(Greater)
    else if op == "gte" then Some(GreaterOrEqual)
    else if op == "<>" then Some(NotEqual)
    else None
  }

  /** The translation is lossless: `<`, `<=`, `>`, `>=` become lt, lte, gt, gte and `<>` stays. */
  lemma TranslateComparisonRoundTrip(op: CompareOp)
    ensures ComparisonFromEs(TranslateComparison(op)) == Some(op)
    ensures op != NotEqual ==> TranslateComparison(op) in {"lt", "lte", "gt", "gte"}
  {
  }

  /** A comparison is `{property: {op: value}}`; a `<>` comparison is a `term` query. */
  lemma ComparisonShape(property: string, compare: Compare)
    ensures compare.op != NotEqual ==>
              ComparisonQuery(property, compare) == Object([(property, Object([(TranslateComparison(compare.op), Scalar(compare.value))]))])
    ensures compare.op == NotEqual ==>
              ComparisonQuery(property, compare) == Object([("term", Object([(property, Object([("value", Scalar(compare.value))]))]))])
  {
  }

  /** Removes the backslash escapes `EscapeWildcard` adds. */
  function UnescapeWildcard(s: string): string {
    if |s| == 0 then ""
    else if |s| >= 2 && s[0] == '\\' && (s[1] == '?' || s[1] == '*') then [s[1]] + UnescapeWildcard(s[2..])
    else [s[0]] + UnescapeWildcard(s[1..])
  }

  /** Escaping the wildcard metacharacters loses nothing. */
  lemma {:induction false} EscapeWildcardRoundTrip(s: string)
    ensures UnescapeWildcard(EscapeWildcard(s)) == s
  {
    if |s| > 0 {
      EscapeWildcardRoundTrip(s[1..]);
      var rest := EscapeWildcard(s[1..]);
      if s[0] == '?' || s[0] == '*' {
        assert EscapeWildcard(s) == ['\\', s[0]] + rest;
        assert (['\\', s[0]] + rest)[2..] == rest;
      } else {
        assert EscapeWildcard(s) == [s[0]] + rest;
        assert ([s[0]] + rest)[1..] == rest;
      }
    }
  }

  /** The string of `{property: {key: string}}`, if the object has that shape. */
  function InnerText(body: Json, property: string, key: string): Option<string> {
    if && body.Object? && |body.members| == 1 && body.members[0].0 == property
       && body.members[0].1.Object? && |body.members[0].1.members| == 1 && body.members[0].1.members[0].0 == key
       && body.members[0].1.members[0].1.Scalar? && body.members[0].1.members[0].1.v.Text?
    then Some(body.members[0].1.members[0].1.v.s)
    else None
  }

  /** Reads a rendered pattern query back: its positive type and its pattern. */
  function ParsePatternQuery(property: string, query: Json): Option<(MatchType, string)> {
    if !(query.Object? && |query.members| == 1) then None
    else
      var (kind, body) := query.members[0];
      if kind == MatchKey then
        match InnerText(body, property, QueryKey)
        case Some(text) => Some((Contains, text))
        case None => None
      else
        match InnerText(body, property, ValueKey)
        case None => None
        case Some(text) =>
          if kind == PrefixKey then Some((StartsWith, text))
          else if kind == TermKey then Some((Equals, text))
          else if kind == WildcardKey && |text| > 0 && text[0] == '?' then Some((EndsWith, UnescapeWildcard(text[1..])))
          else None
  }

  /**
    contains becomes `match`, starts-with `prefix`, ends-with `wildcard` over
    `?` plus the escaped pattern, equals `term`; a NOT-variant renders like its
    positive variant, and every other type is refused.
  */
  lemma {:induction false} PatternMatchRoundTrip(property: string, pattern: PatternMatch)
    ensures pattern.matchType.Other? ==> PreparePatternMatch(property, pattern) == Err(UnsupportedPatternType(pattern.matchType.name))
    ensures !pattern.matchType.Other? ==>
              && PreparePatternMatch(property, pattern).Ok?
              && ParsePatternQuery(property, PreparePatternMatch(property, pattern).value) == Some((pattern.matchType.Positive(), pattern.value))
              && PreparePatternMatch(property, pattern) == PreparePatternMatch(property, PatternMatch(pattern.value, pattern.matchType.Positive(), false))
  {
    if pattern.matchType.EndsWith? || pattern.matchType.NotEndsWith? {
      EscapeWildcardRoundTrip(pattern.value);
      var text := "?" + EscapeWildcard(pattern.value);
      assert text[1..] == EscapeWildcard(pattern.value);
    }
  }

  // ---------------------------------------------------------------- identifier and nesting

  /**
    On `_id`, values become an `ids` query, and a range the `ids` of every
    integer from its lower to its upper bound, counting down when the lower
    bound is the larger, whatever the inclusiveness; a bound that is neither
    an integer nor a string holding one is refused.
  */
  lemma IdentifierRendering(values: seq<Value>, range: Range)
    ensures SimpleValuesQuery(PropertyId, values, true) == Single("ids", Single("values", List(Scalars(values))))
    ensures IdBound(range.lower).Some? && IdBound(range.upper).Some? ==>
              var lo, hi := IdBound(range.lower).value, IdBound(range.upper).value;
              RangeQuery(PropertyId, range, true) ==
                Ok(Single("ids", Single("values", List(
                  if lo <= hi then seq(hi - lo + 1, i => Scalar(Num(lo + i)))
                  else seq(lo - hi + 1, i => Scalar(Num(lo - i)))))))
    ensures IdBound(range.lower).None? || IdBound(range.upper).None? ==> RangeQuery(PropertyId, range, true) == Err(NonIntegerIdRange)
  {
    if IdBound(range.lower).Some? && IdBound(range.upper).Some? {
      var lo, hi := IdBound(range.lower).value, IdBound(range.upper).value;
      var ns := IntRange(lo, hi);
      if lo <= hi {
        assert Numbers(ns) == seq(hi - lo + 1, i => Scalar(Num(lo + i)));
      } else {
        assert Numbers(ns) == seq(lo - hi + 1, i => Scalar(Num(lo - i)));
      }
    }
  }

  /** Appending a digit multiplies the value read so far by ten and adds the digit. */
  lemma {:induction false} DigitsValueAppend(front: string, c: char)
    requires forall i :: 0 <= i < |front| ==> IsDigit(front[i])
    requires IsDigit(c)
    ensures forall i :: 0 <= i < |front + [c]| ==> IsDigit((front + [c])[i])
    ensures DigitsValue(front + [c]) == DigitsValue(front) * 10 + (c as int - '0' as int)
  {
    assert (front + [c])[..|front + [c]| - 1] == front;
  }

  /** Reading the digits of `n` gives `n` back. */
  lemma {:induction false} DigitsReadBack(n: nat)
    ensures (forall i :: 0 <= i < |Digits(n)| ==> IsDigit(Digits(n)[i])) && DigitsValue(Digits(n)) == n
    decreases n
  {
    var last := (('0' as int) + n % 10) as char;
    var front := if n < 10 then "" else Digits(n / 10);
    if n >= 10 {
      DigitsReadBack(n / 10);
    }
    ReadBackStep(front, n);
    assert Digits(n) == front + [last];
  }

  /** One more digit: the front read as `n / 10`, with the last digit of `n` appended, reads as `n`. */
  lemma ReadBackStep(front: string, n: nat)
    requires forall i :: 0 <= i < |front| ==> IsDigit(front[i])
    requires DigitsValue(front) == n / 10
    ensures var s := front + [(('0' as int) + n % 10) as char];
      (forall i :: 0 <= i < |s| ==> IsDigit(s[i])) && DigitsValue(s) == n
  {
    var last := (('0' as int) + n % 10) as char;
    assert last as int - '0' as int == n % 10;
    DigitsValueAppend(front, last);
  }

  /** A run of digits with no sign reads as its value. */
  lemma {:induction false} UnsignedReads(s: string)
    requires |s| > 0 && forall i :: 0 <= i < |s| ==> IsDigit(s[i])
    ensures DecimalInt(s) == Some(DigitsValue(s))
  {
    assert IsDigit(s[0]);
  }

  /** A minus sign before a run of digits negates its value. */
  lemma {:induction false} NegativeReads(s: string)
    requires |s| > 0 && forall i :: 0 <= i < |s| ==> IsDigit(s[i])
    ensures DecimalInt("-" + s) == Some(-(DigitsValue(s) as int))
  {
    assert ("-" + s)[0] == '-';
    assert ("-" + s)[1..] == s;
  }

  /** An integer written in decimal reads back as itself. */
  lemma {:induction false} DecimalIntRoundTrip(n: int)
    ensures DecimalInt(Decimal(n)) == Some(n)
  {
    if n < 0 {
      var m: nat := -n;
      assert Decimal(n) == "-" + Digits(m);
      NegativeRoundTrip(m);
    } else {
      assert Decimal(n) == Digits(n);
      UnsignedRoundTrip(n);
    }
  }

  lemma {:induction false} NegativeRoundTrip(m: nat)
    ensures DecimalInt("-" + Digits(m)) == Some(-(m as int))
  {
    DigitsReadBack(m);
    NegativeReads(Digits(m));
  }

  lemma {:induction false} UnsignedRoundTrip(m: nat)
    ensures DecimalInt(Digits(m)) == Some(m)
  {
    DigitsReadBack(m);
    UnsignedReads(Digits(m));
  }

  /** Hence an identifier range between numeric strings lists the same `ids` as the range between the integers. */
  lemma NumericStringIdRange(a: int, b: int, lowerInclusive: bool, upperInclusive: bool)
    ensures RangeQuery(PropertyId, Range(Text(Decimal(a)), Text(Decimal(b)), lowerInclusive, upperInclusive), true)
         == RangeQuery(PropertyId, Range(Num(a), Num(b), lowerInclusive, upperInclusive), true)
    ensures RangeQuery(PropertyId, Range(Num(a), Num(b), lowerInclusive, upperInclusive), true).Ok?
  {
    UnpaddedIdBound(a);
    UnpaddedIdBound(b);
  }

  lemma {:induction false} UnpaddedIdBound(n: int)
    ensures IdBound(Text(Decimal(n))) == Some(n)
  {
    PaddedIdBound("", n, "");
    assert "" + Decimal(n) + "" == Decimal(n);
  }

  /** Whitespace around a numeric string does not change the identifier range it bounds. */
  lemma PaddedNumericIdRange(a: int, b: int, pads: seq<string>, lowerInclusive: bool, upperInclusive: bool)
    requires |pads| == 4
    requires forall k, i :: 0 <= k < 4 && 0 <= i < |pads[k]| ==> IsNumericSpace(pads[k][i])
    ensures RangeQuery(PropertyId, Range(Text(pads[0] + Decimal(a) + pads[1]), Text(pads[2] + Decimal(b) + pads[3]), lowerInclusive, upperInclusive), true)
         == RangeQuery(PropertyId, Range(Num(a), Num(b), lowerInclusive, upperInclusive), true)
  {
    PaddedIdBound(pads[0], a, pads[1]);
    PaddedIdBound(pads[2], b, pads[3]);
  }

  /** An integer in decimal, with any whitespace before and after it, bounds an identifier range as the integer. */
  lemma {:induction false} PaddedIdBound(before: string, n: int, after: string)
    requires forall i :: 0 <= i < |before| ==> IsNumericSpace(before[i])
    requires forall i :: 0 <= i < |after| ==> IsNumericSpace(after[i])
    ensures IdBound(Text(before + Decimal(n) + after)) == Some(n)
  {
    var d := Decimal(n);
    DecimalEdges(n);
    TrimStartSkips(before, d + after);
    assert before + d + after == before + (d + after);
    TrimEndSkips(d, after);
    DecimalIntRoundTrip(n);
  }

  /** A decimal integer is not empty and neither starts nor ends with whitespace. */
  lemma {:induction false} DecimalEdges(n: int)
    ensures |Decimal(n)| > 0 && !IsNumericSpace(Decimal(n)[0]) && !IsNumericSpace(Decimal(n)[|Decimal(n)| - 1])
  {
    var m: nat := if n < 0 then -n else n;
    var ds := Digits(m);
    DigitEdges(m);
    var d := Decimal(n);
    if n < 0 {
      assert d == "-" + ds;
      assert d[|d| - 1] == ds[|ds| - 1];
    } else {
      assert d == ds;
    }
  }

  /** The digits of a number begin and end with a digit. */
  lemma {:induction false} DigitEdges(m: nat)
    ensures |Digits(m)| > 0 && IsDigit(Digits(m)[0]) && IsDigit(Digits(m)[|Digits(m)| - 1])
  {
    DigitsReadBack(m);
    var ds := Digits(m);
    assert |ds| > 0;
    assert IsDigit(ds[0]);
    assert IsDigit(ds[|ds| - 1]);
  }

  /** Leading whitespace is dropped up to the first other character. */
  lemma {:induction false} TrimStartSkips(before: string, rest: string)
    requires forall i :: 0 <= i < |before| ==> IsNumericSpace(before[i])
    requires |rest| > 0 && !IsNumericSpace(rest[0])
    ensures TrimStart(before + rest) == rest
    decreases |before|
  {
    if |before| == 0 {
      assert before + rest == rest;
    } else {
      assert (before + rest)[0] == before[0];
      assert (before + rest)[1..] == before[1..] + rest;
      TrimStartSkips(before[1..], rest);
    }
  }

  /** Trailing whitespace is dropped back to the last other character. */
  lemma {:induction false} TrimEndSkips(front: string, after: string)
    requires forall i :: 0 <= i < |after| ==> IsNumericSpace(after[i])
    requires |front| > 0 && !IsNumericSpace(front[|front| - 1])
    ensures TrimEnd(front + after) == front
    decreases |after|
  {
    if |after| == 0 {
      assert front + after == front;
    } else {
      var s := front + after;
      assert s[|s| - 1] == after[|after| - 1];
      assert s[..|s| - 1] == front + after[..|after| - 1];
      TrimEndSkips(front, after[..|after| - 1]);
    }
  }

  /** Peels `depth` nested wrappers off a query, returning the core and the paths innermost first. */
  function UnwrapNested(query: Json, depth: nat): Option<(Json, seq<string>)> {
    if depth == 0 then Some((query, []))
    else if query.Object? && |query.members| == 1 && query.members[0].0 == NestedKey
         && query.members[0].1.Object? && |query.members[0].1.members| == 2
         && query.members[0].1.members[0].0 == PathKey && query.members[0].1.members[0].1.Scalar?
         && query.members[0].1.members[0].1.v.Text? && query.members[0].1.members[1].0 == QueryKey then
      var path := query.members[0].1.members[0].1.v.s;
      match UnwrapNested(query.members[0].1.members[1].1, depth - 1)
      case None => None
      case Some(inner) => Some((inner.0, inner.1 + [path]))
    else None
  }

  lemma {:induction false} WrapNestedLast(query: Json, paths: seq<string>, path: string)
    ensures WrapNested(query, paths + [path]) == NestedQuery(path, WrapNested(query, paths))
    decreases |paths|
  {
    if |paths| > 0 {
      assert (paths + [path])[1..] == paths[1..] + [path];
      WrapNestedLast(NestedQuery(paths[0], query), paths[1..], path);
    }
  }

  /** Nesting wraps the query once per path, the first path innermost, and loses nothing. */
  lemma {:induction false} NestedRoundTrip(query: Json, paths: seq<string>)
    ensures UnwrapNested(WrapNested(query, paths), |paths|) == Some((query, paths))
    decreases |paths|
  {
    if |paths| > 0 {
      var init := paths[..|paths| - 1];
      var last := paths[|paths| - 1];
      assert paths == init + [last];
      WrapNestedLast(query, init, last);
      NestedRoundTrip(query, init);
    }
  }

  /** A query converter's non-null result replaces the default rendering; nesting still applies. */
  lemma QueryConverterOverrides(property: string, item: Item, identifier: bool, convert: QueryConverter, nested: seq<string>)
    ensures convert(property, item, Hints(identifier, item.Context())).Some? ==>
              PrepareQuery(property, item, identifier, Some(convert), nested) ==
                Ok(WrapNested(convert(property, item, Hints(identifier, item.Context())).value, nested))
    ensures convert(property, item, Hints(identifier, item.Context())).None? ==>
              PrepareQuery(property, item, identifier, Some(convert), nested) == PrepareQuery(property, item, identifier, None, nested)
  {
  }

  // ---------------------------------------------------------------- mappings

  function FieldNames(mappings: seq<FieldMapping>): (r: seq<string>)
    ensures |r| == |mappings|
    ensures forall i :: 0 <= i < |r| ==> r[i] == mappings[i].fieldName
  {
    Map((m: FieldMapping) => m.fieldName, mappings)
  }

  /**
    `getMappings` reports the registered mapping of each referenced root
    field, once, in order of first reference; a field with only excluded
    values or excluded ranges is not reported.
  */
  lemma GetMappingsReferenced(condition: SearchCondition, mappings: Mappings)
    requires forall i :: 0 <= i < |condition.root.fields| ==> condition.root.fields[i].name in mappings
    requires forall name :: name in mappings ==> mappings[name].fieldName == name
    ensures FieldNames(GetMappings(condition, mappings)) == ReferencedNames(condition.root.fields)
    ensures forall m :: m in GetMappings(condition, mappings) ==> m.fieldName in mappings && mappings[m.fieldName] == m
    ensures var r := GetMappings(condition, mappings);
      forall i, j :: 0 <= i < j < |r| ==> ReferencedBefore(condition.root.fields, r[i].fieldName, r[j].fieldName)
  {
    var names := ReferencedNames(condition.root.fields);
    var r := GetMappings(condition, mappings);
    forall i | 0 <= i < |r| ensures names[i] in mappings && r[i] == mappings[names[i]] && r[i].fieldName == names[i] {
      assert names[i] in names;
    }
    assert FieldNames(r) == names;
    ReferencedNamesOrder(condition.root.fields);
  }

  // ---------------------------------------------------------------- order of first reference

  /**
    The position of the first field named `name` that `getMappings` reports,
    scanning from the front (an independent reading of PHP's insertion order:
    a key keeps the position of its first assignment).
  */
  function FirstReference(fields: seq<FieldValues>, name: string): Option<nat> {
    if |fields| == 0 then None
    else if fields[0].name == name && IsReferenced(fields[0].bag) then Some(0)
    else match FirstReference(fields[1..], name)
      case None => None
      case Some(k) => Some(k + 1)
  }

  /** `a` is first referenced strictly before `b`. */
  predicate ReferencedBefore(fields: seq<FieldValues>, a: string, b: string) {
    FirstReference(fields, a).Some? && FirstReference(fields, b).Some?
    && FirstReference(fields, a).value < FirstReference(fields, b).value
  }

  /** The first reference is a referencing field of that name with none before it, and exists exactly when one does. */
  lemma {:induction false} FirstReferenceFound(fields: seq<FieldValues>, name: string)
    ensures FirstReference(fields, name).Some? <==>
            exists i :: 0 <= i < |fields| && fields[i].name == name && IsReferenced(fields[i].bag)
    ensures FirstReference(fields, name).Some? ==>
            var k := FirstReference(fields, name).value;
            k < |fields| && fields[k].name == name && IsReferenced(fields[k].bag)
            && forall l :: 0 <= l < k ==> !(fields[l].name == name && IsReferenced(fields[l].bag))
    decreases |fields|
  {
    if |fields| > 0 && !(fields[0].name == name && IsReferenced(fields[0].bag)) {
      var tail := fields[1..];
      FirstReferenceFound(tail, name);
      if i :| 0 <= i < |fields| && fields[i].name == name && IsReferenced(fields[i].bag) {
        assert i > 0 && tail[i - 1] == fields[i];
      }
      if FirstReference(tail, name).Some? {
        var k := FirstReference(tail, name).value;
        forall l | 0 <= l < k + 1
          ensures !(fields[l].name == name && IsReferenced(fields[l].bag))
        {
          if l > 0 {
            assert fields[l] == tail[l - 1];
          }
        }
      }
    }
  }

  /** Appending a field keeps every earlier first reference, and adds one only for a name not referenced before. */
  lemma {:induction false} FirstReferenceSnoc(fields: seq<FieldValues>, name: string)
    requires |fields| > 0
    ensures var front, last := fields[..|fields| - 1], fields[|fields| - 1];
      FirstReference(fields, name) ==
        if FirstReference(front, name).Some? then FirstReference(front, name)
        else if last.name == name && IsReferenced(last.bag) then Some(|fields| - 1)
        else None
  {
    var front, last := fields[..|fields| - 1], fields[|fields| - 1];
    FirstReferenceFound(fields, name);
    FirstReferenceFound(front, name);
    assert forall l :: 0 <= l < |front| ==> front[l] == fields[l];
    if FirstReference(front, name).Some? {
      var k := FirstReference(front, name).value;
      var k' := FirstReference(fields, name).value;
      assert fields[k] == front[k];
      if k' < |front| {
        assert fields[k'] == front[k'];
      }
    }
  }

  /** A name is reported exactly when it has a first reference. */
  lemma ReferencedNamesMembers(fields: seq<FieldValues>, name: string)
    ensures name in ReferencedNames(fields) <==> FirstReference(fields, name).Some?
  {
    FirstReferenceFound(fields, name);
  }

  /**
    `getMappings` lists the names in order of first reference: each listed
    name has a first reference, and of two listed names the earlier one is
    first referenced earlier.
  */
  lemma {:induction false} ReferencedNamesOrder(fields: seq<FieldValues>)
    ensures forall i, j :: 0 <= i < j < |ReferencedNames(fields)| ==>
      ReferencedBefore(fields, ReferencedNames(fields)[i], ReferencedNames(fields)[j])
    ensures forall i :: 0 <= i < |ReferencedNames(fields)| ==>
      FirstReference(fields, ReferencedNames(fields)[i]).Some? && FirstReference(fields, ReferencedNames(fields)[i]).value < |fields|
    decreases |fields|
  {
    if |fields| > 0 {
      var front, last := fields[..|fields| - 1], fields[|fields| - 1];
      var before := ReferencedNames(front);
      var r := ReferencedNames(fields);
      ReferencedNamesOrder(front);
      forall i | 0 <= i < |before|
        ensures FirstReference(fields, before[i]) == FirstReference(front, before[i])
      {
        assert FirstReference(front, before[i]).Some?;
        FirstReferenceSnoc(fields, before[i]);
      }
      if IsReferenced(last.bag) && last.name !in before {
        ReferencedNamesMembers(front, last.name);
        FirstReferenceSnoc(fields, last.name);
        assert r == before + [last.name];
        assert FirstReference(fields, last.name) == Some(|fields| - 1);
      } else {
        assert r == before;
      }
    }
  }
}
