/**
  The generator on the conditions of its unit tests. The expected queries
  are written out literally, in the key order the generator produces.
*/
module EsExamples {
  import opened Outcomes
  import opened Conditions
  import opened Json
  import opened EsGenerator
  import opened Seqs
  import EsProperties

  function Plain(field: string): FieldMapping {
    FieldMapping(field, field, None, None, [])
  }

  /** `id` and `name`, each registered on the property of the same name. */
  const IdAndName: Mappings := map["id" := Plain("id"), "name" := Plain("name")]

  function N(n: int): Json { Scalar(Num(n)) }

  function Bag(simple: seq<Value>): ValuesBag {
    EmptyBag.(simple := simple)
  }

  function Root(fields: seq<FieldValues>, groups: seq<ValuesGroup>): SearchCondition {
    SearchCondition(ValuesGroup(And, fields, groups), None)
  }

  function Terms(property: string, values: seq<Json>): Json {
    Object([("terms", Object([(property, List(values))]))])
  }

  function WithValue(kind: string, property: string, value: Json): Json {
    Object([(kind, Object([(property, Object([("value", value)]))]))])
  }

  function Query(buckets: seq<(string, Json)>): Result<Option<Json>, Error> {
    Ok(Some(Object([("query", Object([("bool", Object(buckets))]))])))
  }

  /** An item of a field registered without converters or nesting renders as its default query. */
  lemma PlainItem(field: string, item: Item, including: string, query: Json)
    requires field != PropertyId
    requires DefaultQuery(field, item, false) == Ok(query)
    ensures ProcessItem(Plain(field), item, including) == Ok((BucketFor(item, including), query))
  {
    EsProperties.NoConverterIsIdentity(item);
  }

  /** A field whose items all render gives their tagged queries, in order. */
  lemma AllRendered(mapping: FieldMapping, items: seq<Item>, including: string, fragments: seq<(string, Json)>)
    requires |fragments| == |items|
    requires forall i :: 0 <= i < |items| ==> ProcessItem(mapping, items[i], including) == Ok(fragments[i])
    ensures ProcessItems(mapping, items, including) == Ok(fragments)
  {
    EsProperties.ProcessItemsPointwise(mapping, items, including);
    var r := ProcessItems(mapping, items, including).value;
    assert forall i :: 0 <= i < |r| ==> r[i] == fragments[i];
    assert r == fragments;
  }

  /** The fragments of a group with one field are that field's. */
  lemma OneField(g: ValuesGroup, mappings: Mappings, including: string, fragments: seq<(string, Json)>)
    requires |g.fields| == 1 && g.fields[0].name in mappings
    requires ProcessItems(mappings[g.fields[0].name], Items(g.fields[0].bag), including) == Ok(fragments)
    ensures FieldFragments(g, mappings, 0, including) == Ok(fragments)
  {
    assert FieldFragments(g, mappings, 1, including) == Ok([]);
    assert fragments + [] == fragments;
  }

  /** A group's query from its fragments and subgroup queries. */
  lemma BoolOf(g: ValuesGroup, mappings: Mappings, fragments: seq<(string, Json)>, subgroups: seq<Json>, buckets: Buckets)
    requires NamesIn(g, mappings.Keys)
    requires FieldFragments(g, mappings, 0, IncludingType(g.logical)) == Ok(fragments)
    requires SubgroupQueries(g, mappings, 0) == Ok(subgroups)
    requires PushAll(PushAll([], fragments), Tag(ConditionAnd, subgroups)) == buckets
    requires buckets != []
    ensures ProcessGroup(g, mappings) == Ok(Object([("bool", BucketsJson(buckets))]))
  {
  }

  /** One step of pushing fragments. */
  lemma Pushes(buckets: Buckets, fragment: (string, Json), rest: seq<(string, Json)>)
    ensures PushAll(buckets, [fragment] + rest) == PushAll(Push(buckets, fragment.0, fragment.1), rest)
  {
    assert ([fragment] + rest)[1..] == rest;
  }

  /** `getQuery` of a condition whose root group renders to `{bool: buckets}`. */
  lemma QueryOf(c: SearchCondition, mappings: Mappings, buckets: Buckets, members: seq<(string, Json)>)
    requires NamesIn(c.root, mappings.Keys)
    requires ProcessGroup(c.root, mappings) == Ok(Object([("bool", BucketsJson(buckets))]))
    requires BucketsJson(buckets) == Object(members)
    ensures GetQuery(c, mappings) == Query(members)
  {
  }

  /** Pushing a fragment whose push result is known. */
  lemma Step(buckets: Buckets, fragment: (string, Json), rest: seq<(string, Json)>, next: Buckets)
    requires Push(buckets, fragment.0, fragment.1) == next
    ensures PushAll(buckets, [fragment] + rest) == PushAll(next, rest)
  {
    Pushes(buckets, fragment, rest);
  }

  /** Two including queries share one bucket. */
  lemma TwoIncluding(a: Json, b: Json)
    ensures PushAll([], [("must", a), ("must", b)]) == [("must", [a, b])]
  {
    EsProperties.PushNewKey([], "must", a);
    Step([], ("must", a), [("must", b)], [("must", [a])]);
    EsProperties.PushUsedKey([("must", [a])], 0, "must", b);
    assert [a] + [b] == [a, b];
    Step([("must", [a])], ("must", b), [], [("must", [a, b])]);
    assert [("must", a)] + [("must", b)] == [("must", a), ("must", b)];
    assert [("must", b)] + [] == [("must", b)];
  }

  /** The buckets of the comparison test: two excluding queries, then two including ones. */
  lemma ComparisonBuckets(q0: Json, q1: Json, q2: Json, q3: Json)
    ensures PushAll([], [("must_not", q0), ("must_not", q1), ("must", q2), ("must", q3)])
            == [("must_not", [q0, q1]), ("must", [q2, q3])]
  {
    var f := [("must_not", q0), ("must_not", q1), ("must", q2), ("must", q3)];
    EsProperties.PushNewKey([], "must_not", q0);
    Step([], f[0], f[1..], [("must_not", [q0])]);
    EsProperties.PushUsedKey([("must_not", [q0])], 0, "must_not", q1);
    assert [q0] + [q1] == [q0, q1];
    Step([("must_not", [q0])], f[1], f[2..], [("must_not", [q0, q1])]);
    EsProperties.PushNewKey([("must_not", [q0, q1])], "must", q2);
    Step([("must_not", [q0, q1])], f[2], f[3..], [("must_not", [q0, q1]), ("must", [q2])]);
    EsProperties.PushUsedKey([("must_not", [q0, q1]), ("must", [q2])], 1, "must", q3);
    assert [q2] + [q3] == [q2, q3];
    Step([("must_not", [q0, q1]), ("must", [q2])], f[3], [], [("must_not", [q0, q1]), ("must", [q2, q3])]);
    assert f == [f[0]] + f[1..];
    assert f[1..] == [f[1]] + f[2..];
    assert f[2..] == [f[2]] + f[3..];
    assert f[3..] == [f[3]] + [];
  }

  /** The first four pattern queries: two including, one excluding, one including. */
  lemma {:induction false} PatternBucketsStart(q0: Json, q1: Json, q2: Json, q3: Json, rest: seq<(string, Json)>)
    ensures PushAll([], [("must", q0), ("must", q1), ("must_not", q2), ("must", q3)] + rest)
            == PushAll([("must", [q0, q1, q3]), ("must_not", [q2])], rest)
  {
    var f := [("must", q0), ("must", q1), ("must_not", q2), ("must", q3)] + rest;
    EsProperties.PushNewKey([], "must", q0);
    Step([], f[0], f[1..], [("must", [q0])]);
    EsProperties.PushUsedKey([("must", [q0])], 0, "must", q1);
    assert [q0] + [q1] == [q0, q1];
    Step([("must", [q0])], f[1], f[2..], [("must", [q0, q1])]);
    EsProperties.PushNewKey([("must", [q0, q1])], "must_not", q2);
    Step([("must", [q0, q1])], f[2], f[3..], [("must", [q0, q1]), ("must_not", [q2])]);
    EsProperties.PushUsedKey([("must", [q0, q1]), ("must_not", [q2])], 0, "must", q3);
    assert [q0, q1] + [q3] == [q0, q1, q3];
    Step([("must", [q0, q1]), ("must_not", [q2])], f[3], rest, [("must", [q0, q1, q3]), ("must_not", [q2])]);
    assert f == [f[0]] + f[1..];
    assert f[1..] == [f[1]] + f[2..];
    assert f[2..] == [f[2]] + f[3..];
    assert f[3..] == [f[3]] + rest;
  }

  /** The last three pattern queries: excluding, including, excluding. */
  lemma PatternBucketsEnd(m: seq<Json>, n: seq<Json>, q4: Json, q5: Json, q6: Json)
    ensures PushAll([("must", m), ("must_not", n)], [("must_not", q4), ("must", q5), ("must_not", q6)])
            == [("must", m + [q5]), ("must_not", n + [q4, q6])]
  {
    var f := [("must_not", q4), ("must", q5), ("must_not", q6)];
    EsProperties.PushUsedKey([("must", m), ("must_not", n)], 1, "must_not", q4);
    Step([("must", m), ("must_not", n)], f[0], f[1..], [("must", m), ("must_not", n + [q4])]);
    EsProperties.PushUsedKey([("must", m), ("must_not", n + [q4])], 0, "must", q5);
    Step([("must", m), ("must_not", n + [q4])], f[1], f[2..], [("must", m + [q5]), ("must_not", n + [q4])]);
    EsProperties.PushUsedKey([("must", m + [q5]), ("must_not", n + [q4])], 1, "must_not", q6);
    assert n + [q4] + [q6] == n + [q4, q6];
    Step([("must", m + [q5]), ("must_not", n + [q4])], f[2], [], [("must", m + [q5]), ("must_not", n + [q4, q6])]);
    assert f == [f[0]] + f[1..];
    assert f[1..] == [f[1]] + f[2..];
    assert f[2..] == [f[2]] + [];
  }

  /** The buckets of the pattern test: including and excluding queries interleaved. */
  lemma PatternBuckets(q0: Json, q1: Json, q2: Json, q3: Json, q4: Json, q5: Json, q6: Json)
    ensures PushAll([], [("must", q0), ("must", q1), ("must_not", q2), ("must", q3), ("must_not", q4), ("must", q5), ("must_not", q6)])
            == [("must", [q0, q1, q3, q5]), ("must_not", [q2, q4, q6])]
  {
    var rest := [("must_not", q4), ("must", q5), ("must_not", q6)];
    PatternBucketsStart(q0, q1, q2, q3, rest);
    PatternBucketsEnd([q0, q1, q3], [q2], q4, q5, q6);
    assert [("must", q0), ("must", q1), ("must_not", q2), ("must", q3)] + rest
           == [("must", q0), ("must", q1), ("must_not", q2), ("must", q3), ("must_not", q4), ("must", q5), ("must_not", q6)];
    assert [q0, q1, q3] + [q5] == [q0, q1, q3, q5];
    assert [q2] + [q4, q6] == [q2, q4, q6];
  }

  /** A query appended to an existing single `must` bucket. */
  lemma AppendToMust(queries: seq<Json>, q: Json)
    ensures PushAll([("must", queries)], [("must", q)]) == [("must", queries + [q])]
  {
    EsProperties.PushUsedKey([("must", queries)], 0, "must", q);
    Step([("must", queries)], ("must", q), [], [("must", queries + [q])]);
    assert [("must", q)] + [] == [("must", q)];
  }

  /** The buckets of the range test: excluding, including, excluding. */
  lemma RangeBuckets(a: Json, b: Json, d: Json)
    ensures PushAll([], [("must_not", a), ("must", b), ("must_not", d)]) == [("must_not", [a, d]), ("must", [b])]
  {
    var f := [("must_not", a), ("must", b), ("must_not", d)];
    EsProperties.PushNewKey([], "must_not", a);
    Step([], f[0], f[1..], [("must_not", [a])]);
    EsProperties.PushNewKey([("must_not", [a])], "must", b);
    Step([("must_not", [a])], f[1], f[2..], [("must_not", [a]), ("must", [b])]);
    EsProperties.PushUsedKey([("must_not", [a]), ("must", [b])], 0, "must_not", d);
    assert [a] + [d] == [a, d];
    Step([("must_not", [a]), ("must", [b])], f[2], [], [("must_not", [a, d]), ("must", [b])]);
    assert f == [f[0]] + f[1..];
    assert f[1..] == [f[1]] + f[2..];
    assert f[2..] == [f[2]] + [];
  }

  /** The buckets of the exclude test: one including query, then one excluding. */
  lemma ExcludeBuckets(a: Json, b: Json)
    ensures PushAll([], [("must", a), ("must_not", b)]) == [("must", [a]), ("must_not", [b])]
  {
    EsProperties.PushNewKey([], "must", a);
    Step([], ("must", a), [("must_not", b)], [("must", [a])]);
    EsProperties.PushNewKey([("must", [a])], "must_not", b);
    Step([("must", [a])], ("must_not", b), [], [("must", [a]), ("must_not", [b])]);
    assert [("must", a)] + [("must_not", b)] == [("must", a), ("must_not", b)];
    assert [("must_not", b)] + [] == [("must_not", b)];
  }

  /** An AND group whose only field holds one including item, and no subgroups. */
  lemma {:induction false} OneIncludingItem(g: ValuesGroup, mappings: Mappings, item: Item, q: Json)
    requires g.logical == And && |g.fields| == 1 && g.groups == [] && g.fields[0].name in mappings
    requires Items(g.fields[0].bag) == [item]
    requires ProcessItem(mappings[g.fields[0].name], item, "must") == Ok(("must", q))
    ensures NamesIn(g, mappings.Keys)
    ensures ProcessGroup(g, mappings) == Ok(Object([("bool", Object([("must", List([q]))]))]))
  {
    AllRendered(mappings[g.fields[0].name], [item], "must", [("must", q)]);
    OneField(g, mappings, "must", [("must", q)]);
    EsProperties.PushNewKey([], "must", q);
    Step([], ("must", q), [], [("must", [q])]);
    assert [("must", q)] + [] == [("must", q)];
    assert Tag(ConditionAnd, []) == [];
    BoolOf(g, mappings, [("must", q)], [], [("must", [q])]);
    var members := BucketsJson([("must", [q])]).members;
    assert |members| == 1 && members[0] == ("must", List([q]));
    assert members == [("must", List([q]))];
  }

  /** An AND root without subgroups whose fields render to `fragments`, gathered into `buckets`. */
  lemma AndRootQuery(c: SearchCondition, mappings: Mappings, fragments: seq<(string, Json)>, buckets: Buckets, members: seq<(string, Json)>)
    requires c.root.logical == And && c.root.groups == [] && NamesIn(c.root, mappings.Keys)
    requires FieldFragments(c.root, mappings, 0, "must") == Ok(fragments)
    requires PushAll([], fragments) == buckets && buckets != []
    requires BucketsJson(buckets) == Object(members)
    ensures GetQuery(c, mappings) == Query(members)
  {
    assert Tag(ConditionAnd, []) == [];
    assert PushAll(buckets, []) == buckets;
    BoolOf(c.root, mappings, fragments, [], buckets);
    QueryOf(c, mappings, buckets, members);
  }

  /** An AND root with one field and no subgroups, whose items render to `fragments`, gathered into `buckets`. */
  lemma OneFieldQuery(c: SearchCondition, mappings: Mappings, fragments: seq<(string, Json)>, buckets: Buckets, members: seq<(string, Json)>)
    requires c.root.logical == And && |c.root.fields| == 1 && c.root.groups == [] && c.root.fields[0].name in mappings
    requires ProcessItems(mappings[c.root.fields[0].name], Items(c.root.fields[0].bag), "must") == Ok(fragments)
    requires PushAll([], fragments) == buckets && buckets != []
    requires BucketsJson(buckets) == Object(members)
    ensures NamesIn(c.root, mappings.Keys)
    ensures GetQuery(c, mappings) == Query(members)
  {
    OneField(c.root, mappings, "must", fragments);
    AndRootQuery(c, mappings, fragments, buckets, members);
  }

  /** A root whose only field is referenced reports that field's mapping alone. */
  lemma OneFieldMappings(c: SearchCondition, mappings: Mappings)
    requires |c.root.fields| == 1 && c.root.fields[0].name in mappings && IsReferenced(c.root.fields[0].bag)
    ensures GetMappings(c, mappings) == [mappings[c.root.fields[0].name]]
  {
    var fields := c.root.fields;
    assert fields[..0] == [];
    assert ReferencedNames(fields) == [fields[0].name];
  }

  /** The JSON of one bucket. */
  lemma OneBucketJson(key: string, queries: seq<Json>)
    ensures BucketsJson([(key, queries)]) == Object([(key, List(queries))])
  {
  }

  /** The JSON of two buckets, in order. */
  lemma TwoBucketsJson(k0: string, q0: seq<Json>, k1: string, q1: seq<Json>)
    ensures BucketsJson([(k0, q0), (k1, q1)]) == Object([(k0, List(q0)), (k1, List(q1))])
  {
    var m := BucketsJson([(k0, q0), (k1, q1)]).members;
    assert |m| == 2 && m[0] == (k0, List(q0)) && m[1] == (k1, List(q1));
  }

  /** One rendered item prepended to rendered items. */
  lemma RenderedCons(mapping: FieldMapping, item: Item, items: seq<Item>, including: string, fragment: (string, Json), fragments: seq<(string, Json)>)
    requires ProcessItem(mapping, item, including) == Ok(fragment)
    requires ProcessItems(mapping, items, including) == Ok(fragments)
    ensures ProcessItems(mapping, [item] + items, including) == Ok([fragment] + fragments)
  {
    assert ([item] + items)[0] == item;
    assert ([item] + items)[1..] == items;
  }

  /** One rendered item alone. */
  lemma RenderedOne(mapping: FieldMapping, item: Item, including: string, fragment: (string, Json))
    requires ProcessItem(mapping, item, including) == Ok(fragment)
    ensures ProcessItems(mapping, [item], including) == Ok([fragment])
  {
    RenderedCons(mapping, item, [], including, fragment, []);
    assert [item] + [] == [item];
    assert [fragment] + [] == [fragment];
  }

  // ---------------------------------------------------------------- the conditions of the tests

  function RootLevelFieldsCondition(): SearchCondition {
    Root([FieldValues("id", Bag([Num(2), Num(5)])), FieldValues("name", Bag([Text("Doctor"), Text("Foo")]))], [])
  }

  function ExcludesCondition(): SearchCondition {
    Root([FieldValues("id", EmptyBag.(simple := [Num(10)], excludedSimple := [Num(5)]))], [])
  }

  function SubgroupCondition(): SearchCondition {
    Root([FieldValues("id", Bag([Num(2), Num(5)]))],
         [ValuesGroup(And, [FieldValues("name", Bag([Text("Doctor"), Text("Foo")]))], [])])
  }

  function RangesCondition(): SearchCondition {
    Root([FieldValues("id", EmptyBag.(excludedSimple := [Num(5)],
                                     ranges := [Range(Num(1), Num(100), true, true)],
                                     excludedRanges := [Range(Num(10), Num(20), true, true)]))], [])
  }

  function ComparisonsCondition(): SearchCondition {
    Root([FieldValues("id", EmptyBag.(compares := [Compare(Num(35), NotEqual), Compare(Num(45), NotEqual),
                                                  Compare(Num(30), Greater), Compare(Num(50), Less)]))], [])
  }

  function TestPatterns(): seq<PatternMatch> {
    [ PatternMatch("foo", StartsWith, false),
      PatternMatch("fo\\'o", StartsWith, false),
      PatternMatch("bar", NotEndsWith, true),
      PatternMatch("My name", Equals, false),
      PatternMatch("Last", NotEquals, false),
      PatternMatch("Spider", Equals, true),
      PatternMatch("Piggy", NotEquals, true) ]
  }

  function PatternsCondition(): SearchCondition {
    Root([FieldValues("name", EmptyBag.(patterns := TestPatterns()))], [])
  }

  /** `item[].author[].name`: the property `author.name`, nested in `author`, itself nested in `item`. */
  const AuthorName: FieldMapping := FieldMapping("name", "author.name", None, None, ["author", "item"])

  /** `id` registered on the document identifier. */
  const IdOnIdentifier: Mappings := map["id" := FieldMapping("id", "_id", None, None, [])]

  function NestedPropertyCondition(): SearchCondition {
    Root([FieldValues("name", Bag([Text("Doctor"), Text("Foo")]))], [])
  }

  // ---------------------------------------------------------------- expected results

  /** A condition without values gives no query and no mappings. */
  lemma EmptyCondition()
    ensures GetQuery(Root([], []), IdAndName) == Ok(None)
    ensures GetMappings(Root([], []), IdAndName) == []
  {
  }

  /** A plainly registered field holding only simple values renders as one terms query in must. */
  lemma SimpleValuesField(name: string, values: seq<Value>)
    requires name != PropertyId && |values| > 0
    ensures ProcessItems(Plain(name), Items(Bag(values)), "must") == Ok([("must", Terms(name, Scalars(values)))])
  {
    var x := SimpleItem(values);
    assert Items(Bag(values)) == [x];
    PlainItem(name, x, "must", Terms(name, Scalars(values)));
    RenderedOne(Plain(name), x, "must", ("must", Terms(name, Scalars(values))));
  }

  /** The fragments of a group with two fields are the first field's, then the second's. */
  lemma {:induction false} TwoFields(g: ValuesGroup, mappings: Mappings, including: string, f0: seq<(string, Json)>, f1: seq<(string, Json)>)
    requires |g.fields| == 2 && g.fields[0].name in mappings && g.fields[1].name in mappings
    requires ProcessItems(mappings[g.fields[0].name], Items(g.fields[0].bag), including) == Ok(f0)
    requires ProcessItems(mappings[g.fields[1].name], Items(g.fields[1].bag), including) == Ok(f1)
    ensures FieldFragments(g, mappings, 0, including) == Ok(f0 + f1)
  {
    forall i | 0 <= i < |g.fields|
      ensures g.fields[i].name in mappings
    {
      assert i == 0 || i == 1;
    }
    LastFieldFragments(g, mappings, including, f1);
    FieldFragmentsStep(g, mappings, 0, including, f0, f1);
  }

  /** The fragments of the last field are its own. */
  lemma LastFieldFragments(g: ValuesGroup, mappings: Mappings, including: string, last: seq<(string, Json)>)
    requires |g.fields| == 2 && g.fields[0].name in mappings && g.fields[1].name in mappings
    requires ProcessItems(mappings[g.fields[1].name], Items(g.fields[1].bag), including) == Ok(last)
    ensures FieldFragments(g, mappings, 1, including) == Ok(last)
  {
    assert FieldFragments(g, mappings, 2, including) == Ok([]);
    assert last + [] == last;
  }

  /** One field's fragments go before those of the fields after it. */
  lemma FieldFragmentsStep(g: ValuesGroup, mappings: Mappings, from: nat, including: string, here: seq<(string, Json)>, rest: seq<(string, Json)>)
    requires forall i :: 0 <= i < |g.fields| ==> g.fields[i].name in mappings
    requires from < |g.fields|
    requires ProcessItems(mappings[g.fields[from].name], Items(g.fields[from].bag), including) == Ok(here)
    requires FieldFragments(g, mappings, from + 1, including) == Ok(rest)
    ensures FieldFragments(g, mappings, from, including) == Ok(here + rest)
  {
  }

  /** The items of the root-level test: one terms query per field, both in must. */
  lemma {:induction false} RootLevelFieldsFragments(g: ValuesGroup)
    requires g == RootLevelFieldsCondition().root
    ensures NamesIn(g, IdAndName.Keys)
    ensures FieldFragments(g, IdAndName, 0, "must")
            == Ok([("must", Terms("id", [N(2), N(5)])), ("must", Terms("name", [Str("Doctor"), Str("Foo")]))])
  {
    SimpleValuesField("id", [Num(2), Num(5)]);
    SimpleValuesField("name", [Text("Doctor"), Text("Foo")]);
    assert Scalars([Num(2), Num(5)]) == [N(2), N(5)];
    assert Scalars([Text("Doctor"), Text("Foo")]) == [Str("Doctor"), Str("Foo")];
    assert IdAndName[g.fields[0].name] == Plain("id");
    assert IdAndName[g.fields[1].name] == Plain("name");
    var a, b := ("must", Terms("id", [N(2), N(5)])), ("must", Terms("name", [Str("Doctor"), Str("Foo")]));
    TwoFields(g, IdAndName, "must", [a], [b]);
    assert [a] + [b] == [a, b];
  }

  lemma RootLevelFields()
    ensures GetQuery(RootLevelFieldsCondition(), IdAndName)
            == Query([("must", List([Terms("id", [N(2), N(5)]), Terms("name", [Str("Doctor"), Str("Foo")])]))])
  {
    var c := RootLevelFieldsCondition();
    var a := Terms("id", [N(2), N(5)]);
    var b := Terms("name", [Str("Doctor"), Str("Foo")]);
    RootLevelFieldsFragments(c.root);
    TwoIncluding(a, b);
    OneBucketJson("must", [a, b]);
    AndRootQuery(c, IdAndName, [("must", a), ("must", b)], [("must", [a, b])], [("must", List([a, b]))]);
  }

  /** `getMappings` lists the referenced fields of the root group. */
  lemma RootLevelFieldsMappings()
    ensures GetMappings(RootLevelFieldsCondition(), IdAndName) == [Plain("id"), Plain("name")]
  {
    var fields := RootLevelFieldsCondition().root.fields;
    assert fields[..1] == [fields[0]];
    assert [fields[0]][..0] == [];
    assert ReferencedNames(fields[..1]) == ["id"];
  }

  /** The items of the exclude test: the including terms query, then the excluding one. */
  lemma ExcludesFragments(g: ValuesGroup)
    requires g == ExcludesCondition().root
    ensures ProcessItems(IdAndName[g.fields[0].name], Items(g.fields[0].bag), "must")
            == Ok([("must", Terms("id", [N(10)])), ("must_not", Terms("id", [N(5)]))])
  {
    var x := SimpleItem([Num(10)]);
    var y := ExcludedSimpleItem([Num(5)]);
    assert Items(g.fields[0].bag) == [x, y];
    var a := Terms("id", [N(10)]);
    var b := Terms("id", [N(5)]);
    assert Scalars(x.values) == [N(10)];
    assert Scalars(y.values) == [N(5)];
    PlainItem("id", x, "must", a);
    PlainItem("id", y, "must", b);
    RenderedOne(Plain("id"), y, "must", ("must_not", b));
    RenderedCons(Plain("id"), x, [y], "must", ("must", a), [("must_not", b)]);
    assert [x] + [y] == [x, y];
    assert [("must", a)] + [("must_not", b)] == [("must", a), ("must_not", b)];
    assert IdAndName[g.fields[0].name] == Plain("id");
  }

  /** Excluded values go to must_not, after the must bucket that was used first. */
  lemma RootLevelFieldsWithExcludes()
    ensures GetQuery(ExcludesCondition(), IdAndName) == Query([("must", List([Terms("id", [N(10)])])), ("must_not", List([Terms("id", [N(5)])]))])
  {
    var c := ExcludesCondition();
    var a := Terms("id", [N(10)]);
    var b := Terms("id", [N(5)]);
    ExcludesFragments(c.root);
    ExcludeBuckets(a, b);
    TwoBucketsJson("must", [a], "must_not", [b]);
    OneFieldQuery(c, IdAndName, [("must", a), ("must_not", b)], [("must", [a]), ("must_not", [b])],
                  [("must", List([a])), ("must_not", List([b]))]);
  }

  /** The exclude test reports the one field it uses. */
  lemma RootLevelFieldsWithExcludesMappings()
    ensures GetMappings(ExcludesCondition(), IdAndName) == [Plain("id")]
  {
    OneFieldMappings(ExcludesCondition(), IdAndName);
  }

  /** The subgroup of the nested-subgroup test renders on its own as a bool query. */
  lemma InnerGroup(sub: ValuesGroup)
    requires sub == ValuesGroup(And, [FieldValues("name", Bag([Text("Doctor"), Text("Foo")]))], [])
    ensures NamesIn(sub, IdAndName.Keys)
    ensures ProcessGroup(sub, IdAndName) == Ok(Object([("bool", Object([("must", List([Terms("name", [Str("Doctor"), Str("Foo")])]))]))]))
  {
    var y := SimpleItem([Text("Doctor"), Text("Foo")]);
    assert Items(sub.fields[0].bag) == [y];
    var b := Terms("name", [Str("Doctor"), Str("Foo")]);
    assert Scalars(y.values) == [Str("Doctor"), Str("Foo")];
    PlainItem("name", y, "must", b);
    assert IdAndName[sub.fields[0].name] == Plain("name");
    OneIncludingItem(sub, IdAndName, y, b);
  }

  /** The field of the nested-subgroup test's root renders as one terms query. */
  lemma OuterFragments(g: ValuesGroup)
    requires g == SubgroupCondition().root
    ensures FieldFragments(g, IdAndName, 0, "must") == Ok([("must", Terms("id", [N(2), N(5)]))])
  {
    var x := SimpleItem([Num(2), Num(5)]);
    assert Items(g.fields[0].bag) == [x];
    var a := Terms("id", [N(2), N(5)]);
    assert Scalars(x.values) == [N(2), N(5)];
    PlainItem("id", x, "must", a);
    RenderedOne(Plain("id"), x, "must", ("must", a));
    assert IdAndName[g.fields[0].name] == Plain("id");
    OneField(g, IdAndName, "must", [("must", a)]);
  }

  /** A group with one non-empty subgroup lists that subgroup's query. */
  lemma OneSubgroup(g: ValuesGroup, mappings: Mappings, inner: Json)
    requires NamesIn(g, mappings.Keys) && |g.groups| == 1 && NamesIn(g.groups[0], mappings.Keys)
    requires ProcessGroup(g.groups[0], mappings) == Ok(inner) && inner != Empty
    ensures SubgroupQueries(g, mappings, 0) == Ok([inner])
  {
    assert SubgroupQueries(g, mappings, 1) == Ok([]);
    assert [inner] + [] == [inner];
  }

  /** An AND group with one including query of its own and one non-empty subgroup: both in must. */
  lemma QueryThenSubgroup(g: ValuesGroup, mappings: Mappings, a: Json, inner: Json)
    requires NamesIn(g, mappings.Keys) && g.logical == And
    requires FieldFragments(g, mappings, 0, "must") == Ok([("must", a)])
    requires SubgroupQueries(g, mappings, 0) == Ok([inner])
    ensures ProcessGroup(g, mappings) == Ok(Object([("bool", BucketsJson([("must", [a, inner])]))]))
  {
    EsProperties.PushNewKey([], "must", a);
    Step([], ("must", a), [], [("must", [a])]);
    assert [("must", a)] + [] == [("must", a)];
    assert Tag(ConditionAnd, [inner]) == [("must", inner)];
    AppendToMust([a], inner);
    assert IncludingType(g.logical) == "must";
    assert PushAll([("must", [a])], []) == [("must", [a])];
    assert PushAll([], [("must", a)]) == [("must", [a])];
    assert [a] + [inner] == [a, inner];
    BoolOf(g, mappings, [("must", a)], [inner], [("must", [a, inner])]);
  }

  /** A subgroup's bool query is appended to the parent's must. */
  lemma NestedSubgroup()
    ensures GetQuery(SubgroupCondition(), IdAndName) ==
              Query([("must", List([Terms("id", [N(2), N(5)]),
                                    Object([("bool", Object([("must", List([Terms("name", [Str("Doctor"), Str("Foo")])]))]))])]))])
  {
    var g := SubgroupCondition().root;
    InnerGroup(g.groups[0]);
    var a := Terms("id", [N(2), N(5)]);
    var inner := Object([("bool", Object([("must", List([Terms("name", [Str("Doctor"), Str("Foo")])]))]))]);
    OuterFragments(g);
    OneSubgroup(g, IdAndName, inner);
    QueryThenSubgroup(g, IdAndName, a, inner);
    OneBucketJson("must", [a, inner]);
    QueryOf(SubgroupCondition(), IdAndName, [("must", [a, inner])], [("must", List([a, inner]))]);
  }

  /** `getMappings` looks only at the root group's fields, not at the subgroup's. */
  lemma NestedSubgroupMappings()
    ensures GetMappings(SubgroupCondition(), IdAndName) == [Plain("id")]
  {
    OneFieldMappings(SubgroupCondition(), IdAndName);
  }

  function RangeJson(lower: int, upper: int): Json {
    Object([("range", Object([("id", Object([("gte", N(lower)), ("lte", N(upper))]))]))])
  }

  /** The items of the range test: the excluded value, the range, the excluded range. */
  lemma {:induction false} RangesFragments(g: ValuesGroup)
    requires g == RangesCondition().root
    ensures ProcessItems(IdAndName[g.fields[0].name], Items(g.fields[0].bag), "must")
            == Ok([("must_not", Terms("id", [N(5)])), ("must", RangeJson(1, 100)), ("must_not", RangeJson(10, 20))])
  {
    var x := ExcludedSimpleItem([Num(5)]);
    var y := RangeItem(Range(Num(1), Num(100), true, true));
    var z := ExcludedRangeItem(Range(Num(10), Num(20), true, true));
    assert Items(g.fields[0].bag) == [x, y, z];
    var a := Terms("id", [N(5)]);
    assert Scalars(x.values) == [N(5)];
    PlainItem("id", x, "must", a);
    PlainItem("id", y, "must", RangeJson(1, 100));
    PlainItem("id", z, "must", RangeJson(10, 20));
    RenderedOne(Plain("id"), z, "must", ("must_not", RangeJson(10, 20)));
    var fy, fz := ("must", RangeJson(1, 100)), ("must_not", RangeJson(10, 20));
    RenderedCons(Plain("id"), y, [z], "must", fy, [fz]);
    assert [y] + [z] == [y, z] && [fy] + [fz] == [fy, fz];
    RenderedCons(Plain("id"), x, [y, z], "must", ("must_not", a), [fy, fz]);
    assert [x] + [y, z] == [x, y, z] && [("must_not", a)] + [fy, fz] == [("must_not", a), fy, fz];
    assert IdAndName[g.fields[0].name] == Plain("id");
  }

  /** Ranges render as `range` with gte/lte; the excluded value and range go to must_not. */
  lemma RangesAndExcludes()
    ensures GetQuery(RangesCondition(), IdAndName) ==
              Query([("must_not", List([Terms("id", [N(5)]),
                                        Object([("range", Object([("id", Object([("gte", N(10)), ("lte", N(20))]))]))])])),
                     ("must", List([Object([("range", Object([("id", Object([("gte", N(1)), ("lte", N(100))]))]))])]))])
  {
    var c := RangesCondition();
    var a, b, d := Terms("id", [N(5)]), RangeJson(1, 100), RangeJson(10, 20);
    RangesFragments(c.root);
    RangeBuckets(a, b, d);
    TwoBucketsJson("must_not", [a, d], "must", [b]);
    OneFieldQuery(c, IdAndName, [("must_not", a), ("must", b), ("must_not", d)], [("must_not", [a, d]), ("must", [b])],
                  [("must_not", List([a, d])), ("must", List([b]))]);
  }

  /** The range test reports the one field it uses. */
  lemma RangesAndExcludesMappings()
    ensures GetMappings(RangesCondition(), IdAndName) == [Plain("id")]
  {
    OneFieldMappings(RangesCondition(), IdAndName);
  }

  function OpJson(op: string, n: int): Json {
    Object([("id", Object([(op, N(n))]))])
  }

  /** The items of the comparison test, each in the bucket its operator selects. */
  lemma {:induction false} ComparisonsFragments(g: ValuesGroup)
    requires g == ComparisonsCondition().root
    ensures ProcessItems(IdAndName[g.fields[0].name], Items(g.fields[0].bag), "must")
            == Ok([("must_not", WithValue("term", "id", N(35))), ("must_not", WithValue("term", "id", N(45))),
                   ("must", OpJson("gt", 30)), ("must", OpJson("lt", 50))])
  {
    var i0, i1, i2, i3 := CompareItem(Compare(Num(35), NotEqual)), CompareItem(Compare(Num(45), NotEqual)),
                          CompareItem(Compare(Num(30), Greater)), CompareItem(Compare(Num(50), Less));
    assert Items(g.fields[0].bag) == [i0, i1, i2, i3];
    var f0, f1, f2, f3 := ("must_not", WithValue("term", "id", N(35))), ("must_not", WithValue("term", "id", N(45))),
                          ("must", OpJson("gt", 30)), ("must", OpJson("lt", 50));
    PlainItem("id", i0, "must", f0.1);
    PlainItem("id", i1, "must", f1.1);
    PlainItem("id", i2, "must", f2.1);
    PlainItem("id", i3, "must", f3.1);
    RenderedOne(Plain("id"), i3, "must", f3);
    RenderedCons(Plain("id"), i2, [i3], "must", f2, [f3]);
    assert [i2] + [i3] == [i2, i3] && [f2] + [f3] == [f2, f3];
    RenderedCons(Plain("id"), i1, [i2, i3], "must", f1, [f2, f3]);
    assert [i1] + [i2, i3] == [i1, i2, i3] && [f1] + [f2, f3] == [f1, f2, f3];
    RenderedCons(Plain("id"), i0, [i1, i2, i3], "must", f0, [f1, f2, f3]);
    assert [i0] + [i1, i2, i3] == [i0, i1, i2, i3] && [f0] + [f1, f2, f3] == [f0, f1, f2, f3];
    assert IdAndName[g.fields[0].name] == Plain("id");
  }

  /** `<>` comparisons become term queries in must_not; the others `{id: {op: value}}` in must. */
  lemma Comparisons()
    ensures GetQuery(ComparisonsCondition(), IdAndName) ==
              Query([("must_not", List([WithValue("term", "id", N(35)), WithValue("term", "id", N(45))])),
                     ("must", List([Object([("id", Object([("gt", N(30))]))]), Object([("id", Object([("lt", N(50))]))])]))])
  {
    var c := ComparisonsCondition();
    var q0, q1, q2, q3 := WithValue("term", "id", N(35)), WithValue("term", "id", N(45)), OpJson("gt", 30), OpJson("lt", 50);
    ComparisonsFragments(c.root);
    ComparisonBuckets(q0, q1, q2, q3);
    TwoBucketsJson("must_not", [q0, q1], "must", [q2, q3]);
    OneFieldQuery(c, IdAndName, [("must_not", q0), ("must_not", q1), ("must", q2), ("must", q3)],
                  [("must_not", [q0, q1]), ("must", [q2, q3])], [("must_not", List([q0, q1])), ("must", List([q2, q3]))]);
  }

  /** The comparison test reports the one field it uses. */
  lemma ComparisonsMappings()
    ensures GetMappings(ComparisonsCondition(), IdAndName) == [Plain("id")]
  {
    OneFieldMappings(ComparisonsCondition(), IdAndName);
  }

  /** The tagged queries the test patterns render to, in order. */
  function PatternFragmentsExpected(): seq<(string, Json)> {
    [ ("must", WithValue("prefix", "name", Str("foo"))), ("must", WithValue("prefix", "name", Str("fo\\'o"))),
      ("must_not", WithValue("wildcard", "name", Str("?bar"))), ("must", WithValue("term", "name", Str("My name"))),
      ("must_not", WithValue("term", "name", Str("Last"))), ("must", WithValue("term", "name", Str("Spider"))),
      ("must_not", WithValue("term", "name", Str("Piggy"))) ]
  }

  /** A pattern on `name` renders as its pattern query, in the bucket its type selects. */
  lemma PatternItem(p: PatternMatch, bucket: string, q: Json)
    requires PreparePatternMatch("name", p) == Ok(q)
    requires bucket == if p.IsExclusive() then "must_not" else "must"
    ensures ProcessItem(Plain("name"), MatchItem(p), "must") == Ok((bucket, q))
  {
    PlainItem("name", MatchItem(p), "must", q);
  }

  /** `bar` has no wildcard metacharacter to escape. */
  lemma BarWildcard()
    ensures "?" + EscapeWildcard("bar") == "?bar"
  {
    assert EscapeWildcard("bar") == "bar";
  }

  /** Each test pattern renders as the query at the same position. */
  lemma PatternItemAt(i: nat)
    requires i < 7
    ensures ProcessItem(Plain("name"), MatchItem(TestPatterns()[i]), "must") == Ok(PatternFragmentsExpected()[i])
  {
    if i < 3 {
      PatternItemFirst(i);
    } else {
      PatternItemLast(i);
    }
  }

  lemma PatternItemFirst(i: nat)
    requires i < 3
    ensures ProcessItem(Plain("name"), MatchItem(TestPatterns()[i]), "must") == Ok(PatternFragmentsExpected()[i])
  {
    if i == 0 {
      PatternItem(PatternMatch("foo", StartsWith, false), "must", WithValue("prefix", "name", Str("foo")));
    } else if i == 1 {
      PatternItem(PatternMatch("fo\\'o", StartsWith, false), "must", WithValue("prefix", "name", Str("fo\\'o")));
    } else {
      BarWildcard();
      PatternItem(PatternMatch("bar", NotEndsWith, true), "must_not", WithValue("wildcard", "name", Str("?bar")));
    }
  }

  lemma PatternItemLast(i: nat)
    requires 3 <= i < 7
    ensures ProcessItem(Plain("name"), MatchItem(TestPatterns()[i]), "must") == Ok(PatternFragmentsExpected()[i])
  {
    if i == 3 {
      PatternItem(PatternMatch("My name", Equals, false), "must", WithValue("term", "name", Str("My name")));
    } else if i == 4 {
      PatternItem(PatternMatch("Last", NotEquals, false), "must_not", WithValue("term", "name", Str("Last")));
    } else if i == 5 {
      PatternItem(PatternMatch("Spider", Equals, true), "must", WithValue("term", "name", Str("Spider")));
    } else {
      PatternItem(PatternMatch("Piggy", NotEquals, true), "must_not", WithValue("term", "name", Str("Piggy")));
    }
  }

  /** The queries of the test patterns, in order; case-insensitivity does not change them. */
  lemma PatternFragments(g: ValuesGroup)
    requires g == PatternsCondition().root
    ensures ProcessItems(IdAndName[g.fields[0].name], Items(g.fields[0].bag), "must") == Ok(PatternFragmentsExpected())
  {
    var items := Map((p: PatternMatch) => MatchItem(p), TestPatterns());
    assert Items(g.fields[0].bag) == items;
    var fragments := PatternFragmentsExpected();
    forall i | 0 <= i < |items|
      ensures ProcessItem(Plain("name"), items[i], "must") == Ok(fragments[i])
    {
      PatternItemAt(i);
    }
    AllRendered(Plain("name"), items, "must", fragments);
    assert IdAndName[g.fields[0].name] == Plain("name");
  }

  /** NOT-variants go to must_not; the others to must. */
  lemma PatternMatchers()
    ensures GetQuery(PatternsCondition(), IdAndName) ==
              Query([("must", List([WithValue("prefix", "name", Str("foo")), WithValue("prefix", "name", Str("fo\\'o")),
                                    WithValue("term", "name", Str("My name")), WithValue("term", "name", Str("Spider"))])),
                     ("must_not", List([WithValue("wildcard", "name", Str("?bar")), WithValue("term", "name", Str("Last")),
                                        WithValue("term", "name", Str("Piggy"))]))])
  {
    var c := PatternsCondition();
    PatternFragments(c.root);
    var q0, q1, q2, q3, q4, q5, q6 :=
      WithValue("prefix", "name", Str("foo")), WithValue("prefix", "name", Str("fo\\'o")),
      WithValue("wildcard", "name", Str("?bar")), WithValue("term", "name", Str("My name")),
      WithValue("term", "name", Str("Last")), WithValue("term", "name", Str("Spider")),
      WithValue("term", "name", Str("Piggy"));
    var fragments := [("must", q0), ("must", q1), ("must_not", q2), ("must", q3), ("must_not", q4), ("must", q5), ("must_not", q6)];
    assert PatternFragmentsExpected() == fragments;
    PatternBuckets(q0, q1, q2, q3, q4, q5, q6);
    TwoBucketsJson("must", [q0, q1, q3, q5], "must_not", [q2, q4, q6]);
    OneFieldQuery(c, IdAndName, fragments, [("must", [q0, q1, q3, q5]), ("must_not", [q2, q4, q6])],
                  [("must", List([q0, q1, q3, q5])), ("must_not", List([q2, q4, q6]))]);
  }

  /** The pattern test reports the one field it uses. */
  lemma PatternMatchersMappings()
    ensures GetMappings(PatternsCondition(), IdAndName) == [Plain("name")]
  {
    OneFieldMappings(PatternsCondition(), IdAndName);
  }

  /** A nested property is wrapped in its innermost path first: author inside item. */
  lemma NestedProperty()
    ensures GetQuery(NestedPropertyCondition(), map["name" := AuthorName]) ==
              Query([("must", List([
                Object([("nested", Object([("path", Str("item")), ("query",
                  Object([("nested", Object([("path", Str("author")), ("query",
                    Terms("author.name", [Str("Doctor"), Str("Foo")]))]))]))]))])]))])
  {
    var mappings := map["name" := AuthorName];
    var g := NestedPropertyCondition().root;
    var x := SimpleItem([Text("Doctor"), Text("Foo")]);
    assert Items(g.fields[0].bag) == [x];
    var core := Terms("author.name", [Str("Doctor"), Str("Foo")]);
    assert Scalars(x.values) == [Str("Doctor"), Str("Foo")];
    assert DefaultQuery("author.name", x, false) == Ok(core);
    EsProperties.NoConverterIsIdentity(x);
    var q := Object([("nested", Object([("path", Str("item")), ("query",
               Object([("nested", Object([("path", Str("author")), ("query", core)]))]))]))]);
    assert WrapNested(core, ["author", "item"]) == q;
    assert ProcessItem(AuthorName, x, "must") == Ok(("must", q));
    assert mappings[g.fields[0].name] == AuthorName;
    OneIncludingItem(g, mappings, x, q);
    QueryOf(NestedPropertyCondition(), mappings, [("must", [q])], [("must", List([q]))]);
  }

  /** An unsupported pattern type aborts the whole query. */
  lemma UnsupportedPattern()
    ensures GetQuery(Root([FieldValues("name", EmptyBag.(patterns := [PatternMatch("x", Other("REGEX"), false)]))], []), IdAndName)
            == Err(UnsupportedPatternType("REGEX"))
  {
    var g := Root([FieldValues("name", EmptyBag.(patterns := [PatternMatch("x", Other("REGEX"), false)]))], []).root;
    var x := MatchItem(PatternMatch("x", Other("REGEX"), false));
    assert Items(g.fields[0].bag) == [x];
    EsProperties.NoConverterIsIdentity(x);
    assert ProcessItem(Plain("name"), x, "must") == Err(UnsupportedPatternType("REGEX"));
    assert ProcessItems(Plain("name"), [x], "must") == Err(UnsupportedPatternType("REGEX"));
    assert IdAndName[g.fields[0].name] == Plain("name");
    assert FieldFragments(g, IdAndName, 0, "must") == Err(UnsupportedPatternType("REGEX"));
    assert GroupBuckets(g, IdAndName) == Err(UnsupportedPatternType("REGEX"));
    assert ProcessGroup(g, IdAndName) == Err(UnsupportedPatternType("REGEX"));
  }

  /** On `_id`, a range lists every identifier from lower to upper, whatever the bounds' inclusivity. */
  lemma IdentifierRange()
    ensures GetQuery(Root([FieldValues("id", EmptyBag.(ranges := [Range(Num(3), Num(5), true, false)]))], []),
                     IdOnIdentifier)
            == Query([("must", List([Object([("ids", Object([("values", List([N(3), N(4), N(5)]))]))])]))])
  {
    var mapping := FieldMapping("id", "_id", None, None, []);
    var mappings := IdOnIdentifier;
    var c := Root([FieldValues("id", EmptyBag.(ranges := [Range(Num(3), Num(5), true, false)]))], []);
    var g := c.root;
    var x := RangeItem(Range(Num(3), Num(5), true, false));
    assert Items(g.fields[0].bag) == [x];
    assert IntRange(3, 5) == [3, 4, 5];
    assert Numbers([3, 4, 5]) == [N(3), N(4), N(5)];
    var q := Object([("ids", Object([("values", List([N(3), N(4), N(5)]))]))]);
    EsProperties.NoConverterIsIdentity(x);
    assert mappings[g.fields[0].name] == mapping;
    assert ProcessItem(mapping, x, "must") == Ok(("must", q));
    OneIncludingItem(g, mappings, x, q);
    QueryOf(c, mappings, [("must", [q])], [("must", List([q]))]);
  }
}
