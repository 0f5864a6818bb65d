# RollerworksSearch condition generators in Dafny

This project models the part of RollerworksSearch that turns a search
condition into a database query, and proves properties of that model. A
search condition is a tree of value groups. Each group holds the values of
its fields and its subgroups. The values of a field are simple values,
ranges, comparisons and pattern matches, each either including or excluding.
Three components are modelled:

- **The Elasticsearch `QueryConditionGenerator`** (`es_generator.dfy`). It
  renders the root group as a `bool` query:
  - including values go to `must` (AND group) or `should` (OR group);
  - excluding values go to `must_not`;
  - non-empty subgroup queries go to `must`.

  Simple values render as `terms` (or `ids` on `_id`), ranges as `range`
  (or an `ids` list on `_id`), comparisons as `{op: value}`, and `<>` as
  `term`. Pattern matches render as `match`, `prefix`, `wildcard` or
  `term`. Nested fields are wrapped in `nested` queries, innermost path
  first. A field's query converter replaces the default rendering.
  `getMappings` lists the mappings of the root group's fields.
- **The Doctrine DBAL SQL condition generator**, which writes the WHERE
  clause.
  - `sql_generator.dfy` holds the generator: the field-to-column registry
    filled by `setField`, the conversions, and the rendering.
  - `sql_text.dfy` holds the SQL fragment tree and its printer, with a
    row-level reading (`Eval`).
  - For each column, the including values are OR-joined and the excluding
    values AND-joined. The ordering comparisons (`<`, `<=`, `>`, `>=`) form
    one AND-block among the including values. The model writes each `<>`
    comparison as its own conjunct, AND-ed after the excluding block; the
    tests only pin this for a column without excluding values (see "Left
    out"). A field's columns are OR-joined in parentheses.
  - A group's fields are joined by the group's logical and parenthesised.
    Its subgroups are OR-joined and AND-ed to the fields.
  - The primary condition's group is AND-ed before the root's.
- **`DateValueComparison`** (`dates.dfy`). It gives the strict order on
  date-times and moves a date-time by whole days.

The shared condition model is `conditions.dfy`. JSON values are in
`json.dfy`, and a small `Result`/`Option` pair is in `outcomes.dfy`. The
proofs are in the following files:

| file | what it proves |
|---|---|
| `es_properties.dfy` | bucket routing, emptiness, round trips of each rendering |
| `es_examples.dfy` | the Elasticsearch generator's unit-test expectations |
| `sql_properties.dfy` | matched parentheses of the printer, empty parts |
| `sql_balance.dfy` | matched parentheses of every WHERE clause the generator writes |
| `sql_meaning.dfy` | what each rendered SQL block means on a row |
| `sql_blank.dfy` | when the WHERE clause is empty, and in what order its parts appear |
| `sql_registry.dfy` | how `setField` maintains the registry |
| `sql_examples.dfy` (helpers), `sql_cases.dfy`, `sql_compare_cases.dfy`, `sql_pattern_cases.dfy`, `sql_mapping_cases.dfy` | every WHERE clause the SQL generator's unit test asserts, for every generator holding the test registry |

The source of the SQL generator itself is not part of this model. Its
behaviour is reconstructed from the strings its unit test
(`lib/Doctrine/Dbal/Tests/SqlConditionGeneratorTest.php`) expects.
Choices that the test does not pin down are listed below.

## Model

| member | source | states |
|---|---|---|
| Dates.GetIncrementedValue | src/Rollerworks/Component/Search/Extension/Core/ValueComparison/DateValueComparison.php:74-80 | the result keeps the time of day and lies exactly `increments` days of 86400 seconds later |
| Dates.IsEqualIsIdentity | src/Rollerworks/Component/Search/Extension/Core/ValueComparison/DateValueComparison.php:58-61 | two date-times compare equal exactly when they are the same value |
| Dates.IsHigherIsLater | src/Rollerworks/Component/Search/Extension/Core/ValueComparison/DateValueComparison.php:30-33 | `isHigher` holds exactly when the first value has a later day, or the same day and a later time |
| Dates.IsLowerIsSwappedIsHigher | src/Rollerworks/Component/Search/Extension/Core/ValueComparison/DateValueComparison.php:44-47 | `isLower(a, b)` is `isHigher(b, a)` |
| Dates.Trichotomy | src/Rollerworks/Component/Search/Extension/Core/ValueComparison/DateValueComparison.php:30-61 | exactly one of higher, lower and equal holds for any two date-times |
| Dates.OptionsAreIgnored | src/Rollerworks/Component/Search/Extension/Core/ValueComparison/DateValueComparison.php:30-80 | no method's result depends on the field options |
| Dates.IncrementIsMonotonic | src/Rollerworks/Component/Search/Extension/Core/ValueComparison/DateValueComparison.php:74-80 | a positive increment gives a higher value, a negative one a lower value, zero the same value |
| Dates.IncrementPreservesOrder | src/Rollerworks/Component/Search/Extension/Core/ValueComparison/DateValueComparison.php:74-80 | moving both values by the same number of days keeps their order and their equality |
| Dates.IncrementsCompose | src/Rollerworks/Component/Search/Extension/Core/ValueComparison/DateValueComparison.php:74-80 | incrementing by m and then by n is incrementing by m + n |
| Dates.YearLength | spec/Rollerworks/Component/Search/Extension/Core/ValueComparison/DateValueComparisonSpec.php:23-63 | not a statement of these lines but a property of the day count that turns their calendar dates (such as `2013-09-21`) into the model's day numbers: every year has 365 days, and 366 exactly in a Gregorian leap year, negative years included |
| Dates.Epoch | spec/Rollerworks/Component/Search/Extension/Core/ValueComparison/DateValueComparisonSpec.php:23-63 | not a statement of these lines but a property of the same day count: 1970-01-01 is day 0 |
| Dates.SpecificationExamples | spec/Rollerworks/Component/Search/Extension/Core/ValueComparison/DateValueComparisonSpec.php:23-63 | the dates of the specification compare and increment as it expects |
| EsGenerator.RegisterField | lib/Elasticsearch/QueryConditionGenerator.php:80-83 | registering a field adds or replaces its mapping and keeps every other mapping |
| EsProperties.RangeParamsRoundTrip | lib/Elasticsearch/QueryConditionGenerator.php:153-162 | range parameters carry both bounds unchanged, keyed gte/gt then lte/lt by inclusiveness, and can be read back to the range |
| EsProperties.TranslateComparisonRoundTrip | lib/Elasticsearch/QueryConditionGenerator.php:56-62 | the operator translation is injective: `<`, `<=`, `>`, `>=` become lt, lte, gt, gte and `<>` is kept |
| EsProperties.ComparisonShape | lib/Elasticsearch/QueryConditionGenerator.php:356-370 | a comparison renders as `{property: {op: value}}`, and `<>` as a `term` query on the value |
| EsProperties.EscapeWildcardRoundTrip | lib/Elasticsearch/QueryConditionGenerator.php:424-429 | escaping `?` and `*` loses nothing: unescaping gives the pattern back |
| EsProperties.PatternMatchRoundTrip | lib/Elasticsearch/QueryConditionGenerator.php:408-441 | each supported pattern type renders to a query whose kind and text read back to the positive type and the pattern; a NOT-variant and case-insensitivity render like the plain type; other types are refused |
| EsProperties.IdentifierRendering | lib/Elasticsearch/QueryConditionGenerator.php:341-383 | on `_id`, simple values become an `ids` query; a range whose bounds are integers or strings holding integers (whitespace around them ignored) lists every identifier from lower to upper, counting down when the lower bound is the larger, whatever the inclusiveness; any other bound is refused |
| EsProperties.DigitsReadBack | lib/Elasticsearch/QueryConditionGenerator.php:344-354 | the decimal digits of a natural number are digits and read back as the number |
| EsProperties.DecimalIntRoundTrip | lib/Elasticsearch/QueryConditionGenerator.php:344-354 | an integer written in decimal, with its minus sign, reads back as itself |
| EsProperties.NumericStringIdRange | lib/Elasticsearch/QueryConditionGenerator.php:344-354 | an `_id` range between strings holding integers lists the same identifiers as the range between the integers |
| EsProperties.PaddedIdBound | lib/Elasticsearch/QueryConditionGenerator.php:351 | an integer in decimal with any PHP whitespace (space, tab, newline, carriage return, vertical tab, form feed) before and after it bounds an `_id` range as that integer, as PHP reads a numeric string |
| EsProperties.PaddedNumericIdRange | lib/Elasticsearch/QueryConditionGenerator.php:344-354 | an `_id` range between whitespace-padded numeric strings lists the same identifiers as the range between the integers |
| EsProperties.ExcludedKindsRenderAlike | lib/Elasticsearch/QueryConditionGenerator.php:341-383 | an excluded range or excluded simple values render like the including ones; only the bucket differs |
| EsProperties.NestedRoundTrip | lib/Elasticsearch/QueryConditionGenerator.php:387-395 | wrapping a query once per nested path, the first path innermost, can be undone, giving back the query and the paths |
| EsProperties.WrapNestedLast | lib/Elasticsearch/QueryConditionGenerator.php:387-395 | the last path of the chain is the outermost `nested` wrapper |
| EsProperties.QueryConverterOverrides | lib/Elasticsearch/QueryConditionGenerator.php:338-397 | a query converter's answer replaces the default rendering (still nested), and no answer keeps the default |
| EsProperties.NoConverterIsIdentity | lib/Elasticsearch/QueryConditionGenerator.php:271-278 | without a value converter every item is kept as it is |
| EsProperties.ConversionKeepsShape | lib/Elasticsearch/QueryConditionGenerator.php:271-325 | value conversion converts every value, bound and compared value and keeps kinds, inclusiveness, operators and buckets; a pattern converted to a non-string fails |
| EsProperties.LookupPush | lib/Elasticsearch/QueryConditionGenerator.php:206-258 | appending a query to a bucket adds it at the end of that bucket and of no other |
| EsProperties.PushNewKey | lib/Elasticsearch/QueryConditionGenerator.php:206-258 | a first push to a bucket adds the bucket after all existing ones |
| EsProperties.PushUsedKey | lib/Elasticsearch/QueryConditionGenerator.php:206-258 | a push to a used bucket appends to it in place |
| EsProperties.LookupPushAll | lib/Elasticsearch/QueryConditionGenerator.php:206-258 | after pushing a list of tagged queries, each bucket holds its old queries followed by the queries tagged for it, in order |
| EsProperties.PushAllEmpty | lib/Elasticsearch/QueryConditionGenerator.php:258-262 | the buckets stay empty exactly when nothing was pushed |
| EsProperties.SelectCounts | lib/Elasticsearch/QueryConditionGenerator.php:206-258 | `must_not` receives one query per excluding item, the including bucket one per other item, and no other bucket anything |
| EsProperties.ProcessItemsPointwise | lib/Elasticsearch/QueryConditionGenerator.php:183-248 | the items of a field render one by one, in order, and the field fails exactly when one item fails |
| EsProperties.GroupRouting | lib/Elasticsearch/QueryConditionGenerator.php:174-262 | `must_not` holds exactly the excluding queries; in an AND group `must` holds the including queries then the subgroup queries; in an OR group `should` holds the including queries and `must` the subgroups |
| EsProperties.ItemsOfBag | lib/Elasticsearch/QueryConditionGenerator.php:197-247 | a field yields no item exactly when it holds no value |
| EsProperties.EmptyExactlyWhenBlank | lib/Elasticsearch/QueryConditionGenerator.php:250-262 | a group renders to the empty array exactly when no field in it or below it holds a value |
| EsProperties.SubgroupCount | lib/Elasticsearch/QueryConditionGenerator.php:250-256 | one query is added per non-blank subgroup |
| EsProperties.NullQueryExactlyWhenBlank | lib/Elasticsearch/QueryConditionGenerator.php:100-110 | `getQuery` returns null exactly when the root group is blank, else `{query: {bool: …}}` with non-empty buckets |
| EsProperties.PrimaryConditionIgnored | lib/Elasticsearch/QueryConditionGenerator.php:100-110 | the query does not depend on the primary condition |
| EsProperties.GetMappingsReferenced | lib/Elasticsearch/QueryConditionGenerator.php:114-139 | `getMappings` lists, once each and in order of first reference (of two listed mappings, the earlier one's field is first referenced earlier, by the independent FirstReference scan), the registered mappings of the root fields holding simple values, ranges, comparisons or patterns; a field with only excluded values or excluded ranges is not listed |
| EsProperties.FirstReferenceFound | lib/Elasticsearch/QueryConditionGenerator.php:119-137 | a name has a first reference exactly when some root field of that name holds simple values, ranges, comparisons or patterns, and it is the earliest such field |
| EsProperties.FirstReferenceSnoc | lib/Elasticsearch/QueryConditionGenerator.php:119-137 | a later field never moves an earlier first reference; it adds one only for a name not reported before, as a PHP array key keeps the position of its first assignment |
| EsProperties.ReferencedNamesOrder | lib/Elasticsearch/QueryConditionGenerator.php:119-137 | the reported names are in order of first reference: every listed name has one, and the earlier of two listed names is first referenced earlier |
| EsExamples.EmptyCondition | lib/Elasticsearch/Tests/QueryConditionGeneratorTest.php:34-46 | a condition without values gives no query and no mappings |
| EsExamples.RootLevelFields | lib/Elasticsearch/Tests/QueryConditionGeneratorTest.php:49-92 | two root fields give two `terms` queries in `must` |
| EsExamples.RootLevelFieldsMappings | lib/Elasticsearch/Tests/QueryConditionGeneratorTest.php:49-92 | both root fields' mappings are listed |
| EsExamples.RootLevelFieldsWithExcludes | lib/Elasticsearch/Tests/QueryConditionGeneratorTest.php:95-130 | excluded values go to `must_not`, after `must` |
| EsExamples.RootLevelFieldsWithExcludesMappings | lib/Elasticsearch/Tests/QueryConditionGeneratorTest.php:95-130 | the one field used is listed once |
| EsExamples.NestedSubgroup | lib/Elasticsearch/Tests/QueryConditionGeneratorTest.php:133-184 | a subgroup's bool query follows the group's own query in `must` |
| EsExamples.NestedSubgroupMappings | lib/Elasticsearch/QueryConditionGenerator.php:114-139 | for the nested-fields test condition, only the root field `id` is listed, because `getMappings` reads the root group only |
| EsExamples.RangesAndExcludes | lib/Elasticsearch/Tests/QueryConditionGeneratorTest.php:187-236 | ranges render as `range` with gte/lte, and excluded ones go to `must_not` |
| EsExamples.RangesAndExcludesMappings | lib/Elasticsearch/Tests/QueryConditionGeneratorTest.php:187-236 | the one field used is listed once |
| EsExamples.Comparisons | lib/Elasticsearch/Tests/QueryConditionGeneratorTest.php:239-291 | `<>` comparisons become `term` queries in `must_not`, the others `{id: {op: value}}` in `must` |
| EsExamples.ComparisonsMappings | lib/Elasticsearch/Tests/QueryConditionGeneratorTest.php:239-291 | the one field used is listed once |
| EsExamples.PatternMatchers | lib/Elasticsearch/Tests/QueryConditionGeneratorTest.php:294-373 | the seven test patterns render in order, NOT-variants in `must_not` |
| EsExamples.PatternMatchersMappings | lib/Elasticsearch/Tests/QueryConditionGeneratorTest.php:294-373 | the one field used is listed once |
| EsExamples.NestedProperty | lib/Elasticsearch/Tests/QueryConditionGeneratorTest.php:376-419 | a doubly nested property is wrapped in `author` inside `item` |
| EsExamples.UnsupportedPattern | lib/Elasticsearch/QueryConditionGenerator.php:436-438 | an unsupported pattern type aborts the whole query |
| EsExamples.IdentifierRange | lib/Elasticsearch/QueryConditionGenerator.php:344-354 | a range on `_id` lists every identifier between its bounds, whatever their inclusiveness |
| SqlProperties.CombineEmpty | lib/Doctrine/Dbal/Tests/SqlConditionGeneratorTest.php:78-90 | a combination prints as nothing exactly when every part does |
| SqlProperties.ImplodeEmpty | lib/Doctrine/Dbal/Tests/SqlConditionGeneratorTest.php:194-201 | an implosion prints as nothing exactly when each of its parts does |
| SqlProperties.PrintBalanced | lib/Doctrine/Dbal/Tests/SqlConditionGeneratorTest.php:388-468 | the printer's own parentheses (around lists, blocks, fields and groups) are matched when every piece of the tree is balanced |
| SqlBalance.LoweredBalanced | lib/Doctrine/Dbal/Tests/SqlConditionGeneratorTest.php:364-386 | the `LOWER(...)` the generator writes around both sides of a case-insensitive match keeps a balanced text balanced |
| SqlBalance.PatternBalanced | lib/Doctrine/Dbal/Tests/SqlConditionGeneratorTest.php:364-386 | every pattern match the generator renders (LIKE, NOT LIKE, `=`, `<>`, lowered or not) has balanced pieces when the column and literal texts are balanced |
| SqlBalance.ColumnBalanced | lib/Doctrine/Dbal/Tests/SqlConditionGeneratorTest.php:144-362 | a rendered column (simple values, ranges, comparisons, patterns, `<>` conjuncts) has balanced pieces when its column and value texts are balanced |
| SqlBalance.GroupBalanced | lib/Doctrine/Dbal/Tests/SqlConditionGeneratorTest.php:388-468 | a rendered group, its fields and all its subgroups have balanced pieces when every registered column's texts are balanced |
| SqlBalance.WhereClauseBalanced | lib/Doctrine/Dbal/Tests/SqlConditionGeneratorTest.php:50-142 | every parenthesis the generator writes is matched: given balanced column and value texts, a non-empty WHERE clause is the prefix followed by a balanced text |
| SqlProperties.JoinBalanced | lib/Doctrine/Dbal/Tests/SqlConditionGeneratorTest.php:144-160 | joining balanced texts with a balanced glue is balanced |
| SqlMeaning.IncludedValuesMeaning | lib/Doctrine/Dbal/Tests/SqlConditionGeneratorTest.php:50-62 | the including simple values hold exactly when the column equals one of them, whether they are written as `IN(...)` or one `=` per converted value |
| SqlMeaning.ExcludedValuesMeaning | lib/Doctrine/Dbal/Tests/SqlConditionGeneratorTest.php:203-215 | the excluding simple values hold exactly when the column equals none of them, as `NOT IN(...)` or one `<>` per converted value |
| SqlMeaning.RangeMeaning | lib/Doctrine/Dbal/Tests/SqlConditionGeneratorTest.php:231-249 | a rendered range holds exactly when the column lies between its bounds, each bound touched only when inclusive |
| SqlMeaning.ExcludedRangeMeaning | lib/Doctrine/Dbal/Tests/SqlConditionGeneratorTest.php:251-269 | an excluded range holds exactly when the column lies outside the range whose bounds have the opposite inclusiveness |
| SqlMeaning.ExcludedRangeComplement | lib/Doctrine/Dbal/Tests/SqlConditionGeneratorTest.php:251-269 | an excluded range is the negation of the including range with flipped inclusiveness |
| SqlMeaning.ExcludedRangeKeepsBound | lib/Doctrine/Dbal/Tests/SqlConditionGeneratorTest.php:264-265 | a row on an inclusive lower bound passes the excluded range (`I.customer <= 2 OR …`) |
| SqlMeaning.ComparesPartition | lib/Doctrine/Dbal/Tests/SqlConditionGeneratorTest.php:345-362 | the compares split into the ordering ones and the `<>` ones, each compare kept exactly once |
| SqlMeaning.ComparesMeaning | lib/Doctrine/Dbal/Tests/SqlConditionGeneratorTest.php:284-362 | the ordering block holds exactly when every ordering compare holds, and the block with the `<>` conjuncts holds exactly when every compare holds |
| SqlMeaning.ColumnMeaning | lib/Doctrine/Dbal/Tests/SqlConditionGeneratorTest.php:217-229 | a column holds exactly when one of its including parts holds (or it has none), every excluding part holds, and every `<>` compare holds; a `<>` compare is never OR-ed with the including values |
| SqlMeaning.AndPartsMeaning | lib/Doctrine/Dbal/Tests/SqlConditionGeneratorTest.php:345-362 | an AND of the including block, the excluding block and the `<>` conjuncts holds exactly when each printed block and each conjunct holds |
| SqlMeaning.NotEqualsMeaning | lib/Doctrine/Dbal/Tests/SqlConditionGeneratorTest.php:345-362 | the `<>` conjuncts all hold exactly when every `<>` compare holds |
| SqlMeaning.NotEqualsNegates | lib/Doctrine/Dbal/Tests/SqlConditionGeneratorTest.php:381-383 | a NOT-equals match holds exactly when the equals match does not |
| SqlMeaning.NotLikeNegates | lib/Doctrine/Dbal/Tests/SqlConditionGeneratorTest.php:381-383 | a NOT LIKE match is the positive LIKE match with ` NOT` after the column |
| SqlMeaning.EscapeLikeReadsBack | lib/Doctrine/Dbal/Tests/SqlConditionGeneratorTest.php:381 | with `ESCAPE '\'`, the escaped value is read as its own characters, so `%` and `_` match only themselves |
| SqlMeaning.LikePatternReading | lib/Doctrine/Dbal/Tests/SqlConditionGeneratorTest.php:381-382 | a LIKE pattern is the value read literally with any text allowed before (`%v`), after (`v%`) or on both sides (`%v%`) |
| SqlBlank.ColumnBlank | lib/Doctrine/Dbal/Tests/SqlConditionGeneratorTest.php:194-201 | a column prints as nothing exactly when the field holds no value |
| SqlBlank.ComparesBlank | lib/Doctrine/Dbal/Tests/SqlConditionGeneratorTest.php:328-343 | the ordering block prints as nothing exactly when there is no ordering compare |
| SqlBlank.NotEqualsBlank | lib/Doctrine/Dbal/Tests/SqlConditionGeneratorTest.php:328-362 | the `<>` conjuncts are silent exactly when there is no `<>` compare, and both parts are empty exactly when there are no compares |
| SqlBlank.FieldBlank | lib/Doctrine/Dbal/Tests/SqlConditionGeneratorTest.php:162-176 | a registered field prints as nothing exactly when it has no column or holds no value |
| SqlBlank.GroupBlank | lib/Doctrine/Dbal/Tests/SqlConditionGeneratorTest.php:78-90 | a group prints as nothing exactly when no registered field in it or below it holds a value |
| SqlBlank.WhereClauseShape | lib/Doctrine/Dbal/Tests/SqlConditionGeneratorTest.php:92-142 | the clause is empty when both conditions are blank; otherwise it is the prefix, then the primary condition's group AND-ed before the root's, a blank one left out |
| SqlBlank.WhereClauseBlank | lib/Doctrine/Dbal/Tests/SqlConditionGeneratorTest.php:78-90 | the clause is empty exactly when no registered field of either condition holds a value |
| SqlRegistry.SplitNameParts | lib/Doctrine/Dbal/Tests/SqlConditionGeneratorTest.php:172-173 | a name is its field name, then `#` and the index when it has one; the field name holds no `#` |
| SqlRegistry.SplitNameJoined | lib/Doctrine/Dbal/Tests/SqlConditionGeneratorTest.php:172-173 | `field#index` splits back into the field and the index |
| SqlRegistry.AssignAt | lib/Doctrine/Dbal/Tests/SqlConditionGeneratorTest.php:188-189 | assigning an index maps it to the new column and keeps every other index |
| SqlRegistry.UnsetAt | lib/Doctrine/Dbal/Tests/SqlConditionGeneratorTest.php:172-175 | unsetting an index removes it and keeps every other index |
| SqlRegistry.SetFieldPlain | lib/Doctrine/Dbal/Tests/SqlConditionGeneratorTest.php:41-45 | a plain name maps its field to exactly the new column, and no other field changes |
| SqlRegistry.SetFieldIndexed | lib/Doctrine/Dbal/Tests/SqlConditionGeneratorTest.php:172-175 | `field#index` sets that index's column, drops the unindexed column, and keeps other indexes and other fields |
| SqlRegistry.SetFieldWellFormed | lib/Doctrine/Dbal/Tests/SqlConditionGeneratorTest.php:162-192 | `setField` keeps every field mapped to at least one column with distinct indexes |
| SqlCases.SimpleQuery | lib/Doctrine/Dbal/Tests/SqlConditionGeneratorTest.php:50-62 | `((I.customer IN(2, 5)))` |
| SqlCases.QueryWithPrepend | lib/Doctrine/Dbal/Tests/SqlConditionGeneratorTest.php:64-76 | the prefix comes before the clause |
| SqlCases.EmptyQueryWithPrepend | lib/Doctrine/Dbal/Tests/SqlConditionGeneratorTest.php:78-90 | an unregistered field gives the empty clause, without prefix |
| SqlCases.QueryWithPrependAndPrimaryCond | lib/Doctrine/Dbal/Tests/SqlConditionGeneratorTest.php:92-116 | the primary condition's group comes first, AND-ed to the root's |
| SqlCases.EmptyQueryWithPrependAndPrimaryCond | lib/Doctrine/Dbal/Tests/SqlConditionGeneratorTest.php:118-142 | a blank root leaves the primary condition alone after the prefix |
| SqlCases.QueryWithMultipleFields | lib/Doctrine/Dbal/Tests/SqlConditionGeneratorTest.php:144-160 | two fields are AND-ed, each in its own parentheses |
| SqlCases.EmptyResult | lib/Doctrine/Dbal/Tests/SqlConditionGeneratorTest.php:194-201 | a condition without values gives the empty clause |
| SqlCases.Excludes | lib/Doctrine/Dbal/Tests/SqlConditionGeneratorTest.php:203-215 | excluded values render as `NOT IN(...)` |
| SqlCases.IncludesAndExcludes | lib/Doctrine/Dbal/Tests/SqlConditionGeneratorTest.php:217-229 | the including list and the excluding list of a column are AND-ed |
| SqlCases.RangesQuery | lib/Doctrine/Dbal/Tests/SqlConditionGeneratorTest.php:231-249 | four ranges, OR-joined, each `(col >= l AND col <= u)` with `>`/`<` for exclusive bounds |
| SqlCompareCases.ExcludedRangesQuery | lib/Doctrine/Dbal/Tests/SqlConditionGeneratorTest.php:251-269 | four excluded ranges AND-ed, each `(col <= l OR col >= u)` with `<`/`>` for exclusive bounds |
| SqlCompareCases.ComparesColumn | lib/Doctrine/Dbal/Tests/SqlConditionGeneratorTest.php:345-362 | a column of compares prints as its ordering block followed by one conjunct per `<>` compare, all AND-ed, whatever the target |
| SqlCompareCases.SplitAppend | lib/Doctrine/Dbal/Tests/SqlConditionGeneratorTest.php:345-362 | splitting compares into ordering ones and `<>` ones distributes over concatenation, so each part keeps the input order |
| SqlCompareCases.SingleComparison | lib/Doctrine/Dbal/Tests/SqlConditionGeneratorTest.php:271-282 | `((I.customer > 2))` |
| SqlCompareCases.MultipleComparisons | lib/Doctrine/Dbal/Tests/SqlConditionGeneratorTest.php:284-299 | `(((I.customer > 2 AND I.customer < 10)))`: the ordering compares in one AND-block |
| SqlCompareCases.MultipleComparisonsWithGroups | lib/Doctrine/Dbal/Tests/SqlConditionGeneratorTest.php:301-326 | each subgroup keeps its compares inside its own parentheses; the IN list is OR-ed to the compares' block; the subgroups are OR-ed |
| SqlCompareCases.ExcludingComparisons | lib/Doctrine/Dbal/Tests/SqlConditionGeneratorTest.php:328-343 | two `<>` compares alone are two conjuncts, with no empty block before them |
| SqlCompareCases.ExcludingComparisonsWithNormal | lib/Doctrine/Dbal/Tests/SqlConditionGeneratorTest.php:345-362 | the ordering block comes first, then each `<>` compare in order, although the `<>` compares were added first |
| SqlPatternCases.PatternMatchers | lib/Doctrine/Dbal/Tests/SqlConditionGeneratorTest.php:364-386 | the seven test patterns: LIKE with the wildcard per type and `ESCAPE '\'`, equality as `=`/`<>`, `LOWER` on both sides when case-insensitive; the including ones OR-ed, then the excluding ones AND-ed |
| SqlPatternCases.SubGroups | lib/Doctrine/Dbal/Tests/SqlConditionGeneratorTest.php:388-405 | two subgroups, each in its own parentheses, OR-ed |
| SqlPatternCases.SubGroupWithRootCondition | lib/Doctrine/Dbal/Tests/SqlConditionGeneratorTest.php:407-426 | the root's field block is AND-ed to its subgroup block |
| SqlPatternCases.OrGroupRoot | lib/Doctrine/Dbal/Tests/SqlConditionGeneratorTest.php:428-445 | an OR root joins its two fields with OR |
| SqlPatternCases.SubOrGroup | lib/Doctrine/Dbal/Tests/SqlConditionGeneratorTest.php:447-468 | an OR group inside a subgroup keeps its OR within its own parentheses |
| SqlMappingCases.CombinedColumns | lib/Doctrine/Dbal/Tests/SqlConditionGeneratorTest.php:162-176 | `setField` with `customer#1` then `customer#2` maps the field to both columns, in index order, the alias kept per column |
| SqlMappingCases.QueryWithCombinedField | lib/Doctrine/Dbal/Tests/SqlConditionGeneratorTest.php:162-176 | a field with two columns renders each column's `IN` list and OR-s them: `(((id IN(2, 5) OR number2 IN(2, 5))))` |
| SqlMappingCases.QueryWithCombinedFieldAndCustomAlias | lib/Doctrine/Dbal/Tests/SqlConditionGeneratorTest.php:178-192 | the second column is written with its own alias: `C.number2` |
| SqlMappingCases.ColumnConversion | lib/Doctrine/Dbal/Tests/SqlConditionGeneratorTest.php:470-499 | a column converter rewrites the column of the `IN` list, and the values stay a list |
| SqlMappingCases.ValueConversion | lib/Doctrine/Dbal/Tests/SqlConditionGeneratorTest.php:501-527 | a value converter writes one `=` relation per converted value, OR-ed |
| SqlMappingCases.ConversionStrategyValue | lib/Doctrine/Dbal/Tests/SqlConditionGeneratorTest.php:529-582 | the value strategy is chosen per value: the number is compared as it is, the date through the `CAST(... AS AGE)` conversion |
| SqlMappingCases.ConversionStrategyColumn | lib/Doctrine/Dbal/Tests/SqlConditionGeneratorTest.php:584-634 | the column strategy is chosen per value: the number against the bare column, the string against the converted column, after `setField` remapped the field to `C.birthday` |

## Left out

- Value and column converters, the conversion-strategy resolver and the
  connection's literal rendering are caller code. They are modelled as
  uninterpreted functions. The unit lemmas use the test's literal
  rendering: integers as digits, strings in single quotes.
- Field-set lookups and the `FieldMapping` constructor's property-path
  parsing (`item[].author[].name`) are not modelled. A mapping is given
  directly as a property name plus its chain of nested paths.
- `registerMultiField` has an empty body in the source and is not modelled.
- Lazy loading of conversions only affects when a converter object is
  built. It is modelled as a conversion that is always present.
- Contextual parameters and `has_child` queries (the last tests of the
  Elasticsearch test file) are features the modelled generator does not
  have.
- The calendar, time zones and daylight saving are not modelled. A
  date-time is a day number and a second of the day, and a day is always
  86400 seconds.
- PHP's `range()` on bounds that are neither integers nor numeric strings
  holding an integer is not modelled: characters, floats, float strings
  such as `"3.0"` or `"1e2"`, and other strings make such an `_id` range an
  error in the model. Integer strings with a sign, leading zeros, or
  whitespace before and after them (PHP 8's numeric strings) are read as
  their integer (within PHP's 64-bit range; see below).
- EsGenerator.IdBound: PHP integers are 64 bits. A numeric string beyond
  PHP_INT_MAX or PHP_INT_MIN (such as `"9223372036854775808"`) is read by
  PHP as a float, and `range()` then yields floats. The model reads every
  integer string, and takes every integer bound, as an exact unbounded
  integer; the overflow to float is not modelled.
- EsProperties.NumericStringIdRange, EsProperties.PaddedIdBound and
  EsProperties.PaddedNumericIdRange hold as stated for PHP only for
  integers between PHP_INT_MIN and PHP_INT_MAX, for the same reason.
- SqlBalance.WhereClauseBalanced: parentheses are counted as characters,
  also inside quoted literals, so the lemma assumes that the column
  references, the converters' outputs and the connection's literals are
  balanced. A value such as `'a('` written by the literal is outside it.
- EsProperties.PrimaryConditionIgnored: the Elasticsearch tests for a
  primary condition expect it to be applied. The code never reads it, and
  the model follows the code.
- EsProperties.NullQueryExactlyWhenBlank: the test for an empty condition
  expects `['query' => []]`, but the code returns null. The model follows
  the code.
- EsGenerator.ProcessGroup: a field used in the condition but never
  registered makes PHP read an undefined index. The model requires every
  field to be registered (`NamesIn`).
- EsProperties.GetMappingsReferenced: `getMappings` looks only at the root
  group's fields, as the code does.
- EsExamples.NestedSubgroupMappings: the nested-fields test expects both `id`
  and `name`. The code lists only the root's `id`, and the model follows the
  code. The Elasticsearch test file also calls `toArray()` on the query, so
  it targets a later version of the generator than the one modelled.
- SqlGenerator.ConditionSql is not the source: the SQL generator's own
  source is not part of this model. Every rendering rule comes from the
  strings its test asserts. Among the choices the model makes that no test
  pins are:
  - converted values are written one `=` (or `<>`) per value;
  - value conversion also applies to range bounds and compared values;
  - LIKE escaping covers `%` and `_` only;
  - a `<>` comparison is a conjunct of its own after the excluding block,
    also when the column has excluded values, excluded ranges or excluding
    patterns (so `NOT IN(5)` with `<> 35` prints
    `((I.customer NOT IN(5) AND I.customer <> 35))`, not with the `<>`
    inside the excluding block's parentheses); the tests with `<>` have no
    other excluding values;
  - the order inside each block: simple values, then ranges, then the
    comparison block, then patterns among the including values, and
    excluded simple values, then excluded ranges, then excluding patterns
    among the excluding values. The tests pin only simple values before
    comparisons; none combines ranges or patterns with another kind of
    value.
- SqlMeaning.EscapeLikeReadsBack: holds only for values without a
  backslash. The rendering does not escape the backslash itself, as the
  test value `fo\'o` shows.
- SqlMeaning.LikePatternReading: a starts-with match is written `%v`, as the
  test asserts (`C.name LIKE '%foo'`). Read as LIKE, that matches values
  ending in `v`.
- SqlMeaning.ExcludedRangeMeaning: an excluded range with inclusive bounds
  is written `col <= l OR col >= u`, as the test asserts. It therefore
  keeps its bounds rather than excluding them.
- The mock converters of the conversion tests also assert the options and
  hints they are handed (the `dd-MM-yy` pattern, the alias, the column).
  Those checks are on the caller's side and are not modelled; the
  conversions are given as functions of the column, the value and the
  strategy.
- LazyConversionLoading (the last SQL test) expects the same clause as
  ColumnConversion; loading the converter lazily is not modelled.
- SqlMappingCases.ConversionStrategyValue: formatting a date as
  `Y-m-d` is a parameter (`format`), required to give `2001-01-15` for the
  test's date. The model's `Interpolated` writes a date as nothing, since
  no test interpolates one into a string.
- Some expected WHERE clauses are written as concatenations of their
  parts (for example `"(((" + "I.customer > 2" + " AND " + "I.customer < 10" + ")))"`),
  which spell the same text as the test's literal.
