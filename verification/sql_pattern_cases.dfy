/**
  The WHERE clauses the SQL generator's unit tests expect for pattern matches
  and for nested and OR groups, each derived from the model for every
  generator holding the test registry.
*/
module SqlPatternCases {
  import opened Outcomes
  import opened Conditions
  import opened SqlText
  import opened SqlGenerator
  import opened SqlExamples
  import opened SqlCompareCases

  /** The customer name column, unconverted, on the test connection. */
  function Name(): Target {
    Target(NameColumn, NoConversion, TestLiteral)
  }

  // ---------------------------------------------------------------- rendering one pattern

  /** A value without LIKE wildcards is left as it is by the escape. */
  lemma {:induction false} EscapeLikeKeeps(s: string)
    requires forall i :: 0 <= i < |s| ==> s[i] != '%' && s[i] != '_'
    ensures EscapeLike(s) == s
  {
    if |s| > 0 {
      EscapeLikeKeeps(s[1..]);
      assert s == [s[0]] + s[1..];
    }
  }

  /** A LIKE pattern on the name column: the column, NOT for an exclusive type, the quoted pattern and the escape clause. */
  lemma {:induction false} NameLike(p: PatternMatch)
    requires !p.matchType.Other? && !p.matchType.Equals? && !p.matchType.NotEquals?
    requires forall i :: 0 <= i < |p.value| ==> p.value[i] != '%' && p.value[i] != '_'
    ensures PatternSql(Name(), p)
            == Ok(Fragment(Lowered("C.name", p.caseInsensitive) + (if p.IsExclusive() then " NOT" else "") + " LIKE "
                           + Lowered("'" + LikePattern(p.matchType, p.value) + "'", p.caseInsensitive) + " ESCAPE '\\'"))
  {
    EscapeLikeKeeps(p.value);
    assert NameColumn.Reference() == "C.name";
  }

  /** An equality pattern on the name column: a relation with the quoted value. */
  lemma {:induction false} NameEquals(p: PatternMatch)
    requires p.matchType.Equals? || p.matchType.NotEquals?
    ensures PatternSql(Name(), p)
            == Ok(Relation(Lowered("C.name", p.caseInsensitive), if p.matchType.Equals? then Eq else Ne,
                           Lowered("'" + p.value + "'", p.caseInsensitive)))
  {
    assert NameColumn.Reference() == "C.name";
  }

  /** Adding one pattern in front: it joins the side it belongs to. */
  lemma {:induction false} PatternsCons(t: Target, p: PatternMatch, rest: seq<PatternMatch>, exclusive: bool)
    requires PatternSql(t, p).Ok? && Patterns(t, rest, exclusive).Ok?
    ensures Patterns(t, [p] + rest, exclusive)
            == Ok((if p.IsExclusive() != exclusive then [] else [PatternSql(t, p).value]) + Patterns(t, rest, exclusive).value)
  {
    assert ([p] + rest)[1..] == rest;
    if p.IsExclusive() == exclusive {
      assert [PatternSql(t, p).value] + Patterns(t, rest, exclusive).value == ([PatternSql(t, p).value] + Patterns(t, rest, exclusive).value);
    } else {
      assert [] + Patterns(t, rest, exclusive).value == Patterns(t, rest, exclusive).value;
    }
  }

  /** A column holding only pattern matches: the including block AND-ed to the excluding block. */
  lemma {:induction false} PatternsColumn(t: Target, bag: ValuesBag, inc: seq<string>, exc: seq<string>)
    requires bag == EmptyBag.(patterns := bag.patterns)
    requires Patterns(t, bag.patterns, false).Ok? && Patterns(t, bag.patterns, true).Ok?
    requires Prints(Patterns(t, bag.patterns, false).value) == inc && Prints(Patterns(t, bag.patterns, true).value) == exc
    ensures ColumnSql(t, bag).Ok?
    ensures Print(ColumnSql(t, bag).value) == Combine(AndGlue, [Combine(OrGlue, NonEmpty(inc), WrapMany), Combine(AndGlue, exc, WrapMany)], Bare)
  {
    var incParts := Patterns(t, bag.patterns, false).value;
    var excParts := Patterns(t, bag.patterns, true).value;
    assert SimpleValues(t, [], false) == [] && SimpleValues(t, [], true) == [];
    assert Ranges(t, [], false) == [] && Ranges(t, [], true) == [];
    assert Inequalities([]) == [];
    NoCompares(t);
    var incAll := [Compares(t, [])] + incParts;
    assert incAll == [] + [] + [Compares(t, [])] + incParts;
    assert excParts == [] + [] + excParts;
    ColumnBlocks(t, bag, incAll, excParts);
    assert Prints(incAll) == [""] + inc;
    assert NonEmpty([""] + inc) == NonEmpty(inc) by {
      NonEmptyAppend([""], inc);
      assert NonEmpty([""]) == [];
    }
    CombineKept(OrGlue, [""] + inc, WrapMany);
    CombineKept(OrGlue, NonEmpty(inc), WrapMany);
    NonEmptyKeeps(NonEmpty(inc));
  }

  // ---------------------------------------------------------------- the pattern test

  const PatternTests: seq<PatternMatch> := [
    PatternMatch("foo", StartsWith, false),
    PatternMatch("fo\\'o", StartsWith, false),
    PatternMatch("bar", NotEndsWith, true),
    PatternMatch("My name", Equals, false),
    PatternMatch("Last", NotEquals, false),
    PatternMatch("Spider", Equals, true),
    PatternMatch("Piggy", NotEquals, true)]

  lemma {:induction false} StartsWithTexts()
    ensures "C.name" + "" + " LIKE " + ("'" + ("%" + "foo") + "'") + " ESCAPE '\\'" == "C.name LIKE '%foo' ESCAPE '\\'"
    ensures "C.name" + "" + " LIKE " + ("'" + ("%" + "fo\\'o") + "'") + " ESCAPE '\\'" == "C.name LIKE '%fo\\'o' ESCAPE '\\'"
  {
  }

  lemma {:induction false} NotEndsWithText()
    ensures "LOWER(" + "C.name" + ")" + " NOT" + " LIKE " + ("LOWER(" + ("'" + ("bar" + "%") + "'") + ")") + " ESCAPE '\\'"
            == "LOWER(C.name) NOT LIKE LOWER('bar%') ESCAPE '\\'"
  {
    NotEndsWithLeft();
    NotEndsWithRight();
  }

  lemma {:induction false} NotEndsWithLeft()
    ensures "LOWER(" + "C.name" + ")" + " NOT" + " LIKE " == "LOWER(C.name) NOT LIKE "
  {
  }

  lemma {:induction false} NotEndsWithRight()
    ensures ("LOWER(" + ("'" + ("bar" + "%") + "'") + ")") + " ESCAPE '\\'" == "LOWER('bar%') ESCAPE '\\'"
  {
  }

  lemma {:induction false} EqualsTexts()
    ensures "C.name" + " " + Eq.Symbol() + " " + ("'" + "My name" + "'") == "C.name = 'My name'"
    ensures "C.name" + " " + Ne.Symbol() + " " + ("'" + "Last" + "'") == "C.name <> 'Last'"
  {
  }

  lemma {:induction false} LoweredEqualText()
    ensures "LOWER(" + "C.name" + ")" + " " + Eq.Symbol() + " " + ("LOWER(" + ("'" + "Spider" + "'") + ")") == "LOWER(C.name) = LOWER('Spider')"
  {
  }

  lemma {:induction false} LoweredNotEqualText()
    ensures "LOWER(" + "C.name" + ")" + " " + Ne.Symbol() + " " + ("LOWER(" + ("'" + "Piggy" + "'") + ")") == "LOWER(C.name) <> LOWER('Piggy')"
  {
  }

  /** A starts-with pattern with an unescaped value, printed. */
  lemma {:induction false} StartsWithPrinted(p: PatternMatch, text: string)
    requires p.matchType == StartsWith && !p.caseInsensitive
    requires forall i :: 0 <= i < |p.value| ==> p.value[i] != '%' && p.value[i] != '_'
    requires "C.name" + "" + " LIKE " + ("'" + ("%" + p.value) + "'") + " ESCAPE '\\'" == text
    ensures PatternSql(Name(), p).Ok? && Print(PatternSql(Name(), p).value) == text
  {
    NameLike(p);
  }

  /** An equality pattern, printed. */
  lemma {:induction false} EqualsPrinted(p: PatternMatch, text: string)
    requires p.matchType.Equals? || p.matchType.NotEquals?
    requires Lowered("C.name", p.caseInsensitive) + " " + (if p.matchType.Equals? then Eq else Ne).Symbol() + " "
             + Lowered("'" + p.value + "'", p.caseInsensitive) == text
    ensures PatternSql(Name(), p).Ok? && Print(PatternSql(Name(), p).value) == text
  {
    NameEquals(p);
  }

  /** The test's three LIKE patterns as the generator prints them. */
  lemma {:induction false} LikeTexts(ps: seq<PatternMatch>)
    requires ps == PatternTests
    ensures PatternSql(Name(), ps[0]).Ok? && Print(PatternSql(Name(), ps[0]).value) == "C.name LIKE '%foo' ESCAPE '\\'"
    ensures PatternSql(Name(), ps[1]).Ok? && Print(PatternSql(Name(), ps[1]).value) == "C.name LIKE '%fo\\'o' ESCAPE '\\'"
    ensures PatternSql(Name(), ps[2]).Ok? && Print(PatternSql(Name(), ps[2]).value) == "LOWER(C.name) NOT LIKE LOWER('bar%') ESCAPE '\\'"
  {
    FooPrinted(ps[0]);
    QuotedPrinted(ps[1]);
    NotEndsWithPrinted(ps[2]);
  }

  /** The test's four equality patterns as the generator prints them. */
  lemma {:induction false} EqualityTexts(ps: seq<PatternMatch>)
    requires ps == PatternTests
    ensures PatternSql(Name(), ps[3]).Ok? && Print(PatternSql(Name(), ps[3]).value) == "C.name = 'My name'"
    ensures PatternSql(Name(), ps[4]).Ok? && Print(PatternSql(Name(), ps[4]).value) == "C.name <> 'Last'"
    ensures PatternSql(Name(), ps[5]).Ok? && Print(PatternSql(Name(), ps[5]).value) == "LOWER(C.name) = LOWER('Spider')"
    ensures PatternSql(Name(), ps[6]).Ok? && Print(PatternSql(Name(), ps[6]).value) == "LOWER(C.name) <> LOWER('Piggy')"
  {
    EqualsTexts();
    LoweredEqualText();
    LoweredNotEqualText();
    EqualsPrinted(ps[3], "C.name = 'My name'");
    EqualsPrinted(ps[4], "C.name <> 'Last'");
    EqualsPrinted(ps[5], "LOWER(C.name) = LOWER('Spider')");
    EqualsPrinted(ps[6], "LOWER(C.name) <> LOWER('Piggy')");
  }

  lemma {:induction false} FooPrinted(p: PatternMatch)
    requires p == PatternMatch("foo", StartsWith, false)
    ensures PatternSql(Name(), p).Ok? && Print(PatternSql(Name(), p).value) == "C.name LIKE '%foo' ESCAPE '\\'"
  {
    StartsWithTexts();
    StartsWithPrinted(p, "C.name LIKE '%foo' ESCAPE '\\'");
  }

  /** The quote inside the value is kept as it is: quoting is the connection's concern, not the LIKE escape's. */
  lemma {:induction false} QuotedPrinted(p: PatternMatch)
    requires p == PatternMatch("fo\\'o", StartsWith, false)
    ensures PatternSql(Name(), p).Ok? && Print(PatternSql(Name(), p).value) == "C.name LIKE '%fo\\'o' ESCAPE '\\'"
  {
    StartsWithTexts();
    StartsWithPrinted(p, "C.name LIKE '%fo\\'o' ESCAPE '\\'");
  }

  lemma {:induction false} NotEndsWithPrinted(p: PatternMatch)
    requires p == PatternMatch("bar", NotEndsWith, true)
    ensures PatternSql(Name(), p).Ok? && Print(PatternSql(Name(), p).value) == "LOWER(C.name) NOT LIKE LOWER('bar%') ESCAPE '\\'"
  {
    NameLike(p);
    NotEndsWithText();
  }

  /** Seven rendered patterns, of which the third, fifth and seventh are exclusive, split into their two sides in order. */
  lemma {:induction false} SevenSides(t: Target, ps: seq<PatternMatch>, exclusive: bool)
    requires |ps| == 7
    requires PatternSql(t, ps[0]).Ok? && PatternSql(t, ps[1]).Ok? && PatternSql(t, ps[2]).Ok? && PatternSql(t, ps[3]).Ok?
    requires PatternSql(t, ps[4]).Ok? && PatternSql(t, ps[5]).Ok? && PatternSql(t, ps[6]).Ok?
    requires !ps[0].IsExclusive() && !ps[1].IsExclusive() && ps[2].IsExclusive() && !ps[3].IsExclusive()
    requires ps[4].IsExclusive() && !ps[5].IsExclusive() && ps[6].IsExclusive()
    ensures Patterns(t, ps, exclusive).Ok?
    ensures Patterns(t, ps, exclusive).value
            == if exclusive then [PatternSql(t, ps[2]).value, PatternSql(t, ps[4]).value, PatternSql(t, ps[6]).value]
               else [PatternSql(t, ps[0]).value, PatternSql(t, ps[1]).value, PatternSql(t, ps[3]).value, PatternSql(t, ps[5]).value]
  {
    FiveSides(t, ps[2..], exclusive);
    PatternsCons(t, ps[1], ps[2..], exclusive);
    assert [ps[1]] + ps[2..] == ps[1..];
    PatternsCons(t, ps[0], ps[1..], exclusive);
    assert [ps[0]] + ps[1..] == ps;
  }

  /** The last five: exclusive, including, exclusive, including, exclusive. */
  lemma {:induction false} FiveSides(t: Target, ps: seq<PatternMatch>, exclusive: bool)
    requires |ps| == 5
    requires PatternSql(t, ps[0]).Ok? && PatternSql(t, ps[1]).Ok? && PatternSql(t, ps[2]).Ok?
    requires PatternSql(t, ps[3]).Ok? && PatternSql(t, ps[4]).Ok?
    requires ps[0].IsExclusive() && !ps[1].IsExclusive() && ps[2].IsExclusive() && !ps[3].IsExclusive() && ps[4].IsExclusive()
    ensures Patterns(t, ps, exclusive).Ok?
    ensures Patterns(t, ps, exclusive).value
            == if exclusive then [PatternSql(t, ps[0]).value, PatternSql(t, ps[2]).value, PatternSql(t, ps[4]).value]
               else [PatternSql(t, ps[1]).value, PatternSql(t, ps[3]).value]
  {
    TailSides(t, ps[2..], exclusive);
    PatternsCons(t, ps[1], ps[2..], exclusive);
    assert [ps[1]] + ps[2..] == ps[1..];
    PatternsCons(t, ps[0], ps[1..], exclusive);
    assert [ps[0]] + ps[1..] == ps;
  }

  /** The last three: exclusive, including, exclusive. */
  lemma {:induction false} TailSides(t: Target, ps: seq<PatternMatch>, exclusive: bool)
    requires |ps| == 3 && PatternSql(t, ps[0]).Ok? && PatternSql(t, ps[1]).Ok? && PatternSql(t, ps[2]).Ok?
    requires ps[0].IsExclusive() && !ps[1].IsExclusive() && ps[2].IsExclusive()
    ensures Patterns(t, ps, exclusive).Ok?
    ensures Patterns(t, ps, exclusive).value
            == if exclusive then [PatternSql(t, ps[0]).value, PatternSql(t, ps[2]).value] else [PatternSql(t, ps[1]).value]
  {
    assert Patterns(t, [], exclusive) == Ok([]);
    PatternsCons(t, ps[2], [], exclusive);
    assert [ps[2]] + [] == ps[2..];
    PatternsCons(t, ps[1], ps[2..], exclusive);
    assert [ps[1]] + ps[2..] == ps[1..];
    PatternsCons(t, ps[0], ps[1..], exclusive);
    assert [ps[0]] + ps[1..] == ps;
  }

  /** A column of seven patterns, exclusive at the third, fifth and seventh, whose prints are given. */
  lemma {:induction false} SevenColumn(t: Target, bag: ValuesBag, i0: string, i1: string, i3: string, i5: string, e2: string, e4: string, e6: string)
    requires bag == EmptyBag.(patterns := bag.patterns) && |bag.patterns| == 7
    requires PatternSql(t, bag.patterns[0]).Ok? && Print(PatternSql(t, bag.patterns[0]).value) == i0
    requires PatternSql(t, bag.patterns[1]).Ok? && Print(PatternSql(t, bag.patterns[1]).value) == i1
    requires PatternSql(t, bag.patterns[2]).Ok? && Print(PatternSql(t, bag.patterns[2]).value) == e2
    requires PatternSql(t, bag.patterns[3]).Ok? && Print(PatternSql(t, bag.patterns[3]).value) == i3
    requires PatternSql(t, bag.patterns[4]).Ok? && Print(PatternSql(t, bag.patterns[4]).value) == e4
    requires PatternSql(t, bag.patterns[5]).Ok? && Print(PatternSql(t, bag.patterns[5]).value) == i5
    requires PatternSql(t, bag.patterns[6]).Ok? && Print(PatternSql(t, bag.patterns[6]).value) == e6
    requires !bag.patterns[0].IsExclusive() && !bag.patterns[1].IsExclusive() && bag.patterns[2].IsExclusive()
    requires !bag.patterns[3].IsExclusive() && bag.patterns[4].IsExclusive() && !bag.patterns[5].IsExclusive()
    requires bag.patterns[6].IsExclusive()
    requires i0 != "" && i1 != "" && i3 != "" && i5 != "" && e2 != "" && e4 != "" && e6 != ""
    ensures ColumnSql(t, bag).Ok?
    ensures Print(ColumnSql(t, bag).value)
            == ("(" + (i0 + " OR " + i1 + " OR " + i3 + " OR " + i5) + ")") + " AND " + ("(" + (e2 + " AND " + e4 + " AND " + e6) + ")")
  {
    SevenSides(t, bag.patterns, false);
    SevenSides(t, bag.patterns, true);
    var inc := [i0, i1, i3, i5];
    var exc := [e2, e4, e6];
    assert Prints(Patterns(t, bag.patterns, false).value) == inc;
    assert Prints(Patterns(t, bag.patterns, true).value) == exc;
    PatternsColumn(t, bag, inc, exc);
    SevenColumnText(inc, exc, i0, i1, i3, i5, e2, e4, e6);
  }

  lemma {:induction false} SevenColumnText(inc: seq<string>, exc: seq<string>, i0: string, i1: string, i3: string, i5: string, e2: string, e4: string, e6: string)
    requires inc == [i0, i1, i3, i5] && exc == [e2, e4, e6]
    requires i0 != "" && i1 != "" && i3 != "" && i5 != "" && e2 != "" && e4 != "" && e6 != ""
    ensures Combine(AndGlue, [Combine(OrGlue, NonEmpty(inc), WrapMany), Combine(AndGlue, exc, WrapMany)], Bare)
            == ("(" + (i0 + " OR " + i1 + " OR " + i3 + " OR " + i5) + ")") + " AND " + ("(" + (e2 + " AND " + e4 + " AND " + e6) + ")")
  {
    NonEmptyKeeps(inc);
    CombineAll(OrGlue, inc, WrapMany);
    JoinFour(" OR ", i0, i1, i3, i5);
    CombineAll(AndGlue, exc, WrapMany);
    JoinThree(" AND ", e2, e4, e6);
    var x := "(" + (i0 + " OR " + i1 + " OR " + i3 + " OR " + i5) + ")";
    var y := "(" + (e2 + " AND " + e4 + " AND " + e6) + ")";
    NonEmptyKeeps([x, y]);
    CombineTwo(AndGlue, [x, y], x, y, Bare);
  }

  /** Pattern matches: LIKE with the wildcard placed per type, equality as a relation, LOWER on both sides when case-insensitive. */
  lemma {:induction false} PatternMatchers(gen: Generator, c: SearchCondition)
    requires Plain(gen) && Maps(gen, "customer_name", NameColumn)
    requires c == Root(And, [FieldValues("customer_name", EmptyBag.(patterns := PatternTests))], [])
    ensures WhereClause(gen, c)
            == Ok("(((" + "C.name LIKE '%foo' ESCAPE '\\'" + " OR " + "C.name LIKE '%fo\\'o' ESCAPE '\\'" + " OR " + "C.name = 'My name'"
                  + " OR " + "LOWER(C.name) = LOWER('Spider')" + ") AND (" + "LOWER(C.name) NOT LIKE LOWER('bar%') ESCAPE '\\'"
                  + " AND " + "C.name <> 'Last'" + " AND " + "LOWER(C.name) <> LOWER('Piggy')" + ")))")
  {
    var f := c.root.fields[0];
    var i0, i1, i3, i5 := "C.name LIKE '%foo' ESCAPE '\\'", "C.name LIKE '%fo\\'o' ESCAPE '\\'", "C.name = 'My name'", "LOWER(C.name) = LOWER('Spider')";
    var e2, e4, e6 := "LOWER(C.name) NOT LIKE LOWER('bar%') ESCAPE '\\'", "C.name <> 'Last'", "LOWER(C.name) <> LOWER('Piggy')";
    LikeTexts(f.bag.patterns);
    EqualityTexts(f.bag.patterns);
    SevenColumn(Name(), f.bag, i0, i1, i3, i5, e2, e4, e6);
    PlainColumn(gen, f, NameColumn);
    WhereOneColumn(gen, c, NameColumn, ColumnSql(Name(), f.bag).value);
    PatternMatchersText(i0, i1, i3, i5, e2, e4, e6);
  }

  lemma {:induction false} PatternMatchersText(i0: string, i1: string, i3: string, i5: string, e2: string, e4: string, e6: string)
    ensures "((" + (("(" + (i0 + " OR " + i1 + " OR " + i3 + " OR " + i5) + ")") + " AND " + ("(" + (e2 + " AND " + e4 + " AND " + e6) + ")")) + "))"
            == "(((" + i0 + " OR " + i1 + " OR " + i3 + " OR " + i5 + ") AND (" + e2 + " AND " + e4 + " AND " + e6 + ")))"
  {
  }

  // ---------------------------------------------------------------- groups

  /** The name column holding the single starts-with pattern `foo`. */
  lemma {:induction false} FooColumn(bag: ValuesBag)
    requires bag == EmptyBag.(patterns := [PatternMatch("foo", StartsWith, false)])
    ensures ColumnSql(Name(), bag).Ok?
    ensures Print(ColumnSql(Name(), bag).value) == "C.name LIKE '%foo' ESCAPE '\\'"
  {
    var t := Name();
    var p := bag.patterns[0];
    var text := "C.name LIKE '%foo' ESCAPE '\\'";
    NameLike(p);
    StartsWithTexts();
    assert Patterns(t, [], false) == Ok([]) && Patterns(t, [], true) == Ok([]);
    PatternsCons(t, p, [], false);
    PatternsCons(t, p, [], true);
    assert [p] + [] == bag.patterns;
    PatternsColumn(t, bag, [text], []);
    NonEmptyKeeps([text]);
    CombineOne(OrGlue, [text], text, WrapMany);
    CombineOne(AndGlue, [text, ""], text, Bare);
  }

  /** The customer field holding one value, as a field in parentheses. */
  lemma {:induction false} CustomerOne(gen: Generator, f: FieldValues, n: nat, text: string)
    requires Plain(gen) && Maps(gen, "customer", CustomerColumn)
    requires f == Simple("customer", [Num(n)]) && n < 10
    requires "(" + "I.customer" + " IN(" + DigitText(n) + "))" == text
    ensures FieldSql(gen, f).Ok? && Print(FieldSql(gen, f).value) == text
  {
    OneValueField(gen, f, CustomerColumn, n);
    References();
  }

  lemma {:induction false} CustomerTwoText()
    ensures "(" + "I.customer" + " IN(" + DigitText(2) + "))" == "(I.customer IN(2))"
  {
  }

  lemma {:induction false} CustomerThreeText()
    ensures "(" + "I.customer" + " IN(" + DigitText(3) + "))" == "(I.customer IN(3))"
  {
  }

  /** Two parenthesised groups OR-ed at the root. */
  lemma {:induction false} SubGroupsText(x: string, y: string)
    ensures "(" + ("(" + x + ")") + " OR " + ("(" + y + ")") + ")" == "((" + x + ") OR (" + y + "))"
  {
  }

  /** A group holding only the customer field with one value. */
  lemma {:induction false} CustomerOneGroup(gen: Generator, g: ValuesGroup, n: nat, text: string)
    requires Plain(gen) && Maps(gen, "customer", CustomerColumn)
    requires g == ValuesGroup(And, [Simple("customer", [Num(n)])], []) && n < 10
    requires "(" + "I.customer" + " IN(" + DigitText(n) + "))" == text
    ensures GroupSql(gen, g).Ok? && Print(GroupSql(gen, g).value) == "(" + text + ")"
  {
    CustomerOne(gen, g.fields[0], n, text);
    OneFieldGroup(gen, g, FieldSql(gen, g.fields[0]).value);
  }

  /** Two subgroups, each parenthesised, OR-ed. */
  lemma {:induction false} SubGroups(gen: Generator, c: SearchCondition)
    requires Plain(gen) && Maps(gen, "customer", CustomerColumn)
    requires c == Root(And, [], [ValuesGroup(And, [Simple("customer", [Num(2)])], []), ValuesGroup(And, [Simple("customer", [Num(3)])], [])])
    ensures WhereClause(gen, c) == Ok("((" + "(I.customer IN(2))" + ") OR (" + "(I.customer IN(3))" + "))")
  {
    CustomerTwoText();
    CustomerThreeText();
    CustomerOneGroup(gen, c.root.groups[0], 2, "(I.customer IN(2))");
    CustomerOneGroup(gen, c.root.groups[1], 3, "(I.customer IN(3))");
    var a, b := "(" + "(I.customer IN(2))" + ")", "(" + "(I.customer IN(3))" + ")";
    SubgroupsOnly(gen, c.root, [GroupSql(gen, c.root.groups[0]).value, GroupSql(gen, c.root.groups[1]).value]);
    assert Prints([GroupSql(gen, c.root.groups[0]).value, GroupSql(gen, c.root.groups[1]).value]) == [a, b];
    NonEmptyKeeps([a, b]);
    CombineTwo(OrGlue, [a, b], a, b, WrapAlways);
    SubGroupsText("(I.customer IN(2))", "(I.customer IN(3))");
    RootWhere(gen, c, "", "(" + a + " OR " + b + ")");
  }

  /** The name field holding `foo` as a starts-with pattern, as a field in parentheses. */
  lemma {:induction false} FooField(gen: Generator, f: FieldValues)
    requires Plain(gen) && Maps(gen, "customer_name", NameColumn)
    requires f == FieldValues("customer_name", EmptyBag.(patterns := [PatternMatch("foo", StartsWith, false)]))
    ensures FieldSql(gen, f).Ok? && Print(FieldSql(gen, f).value) == "(" + "C.name LIKE '%foo' ESCAPE '\\'" + ")"
  {
    FooColumn(f.bag);
    PlainColumn(gen, f, NameColumn);
    OneColumnField(gen, f, NameColumn, ColumnSql(Name(), f.bag).value);
  }

  /** A field at the root and a subgroup: the fields' block AND-ed to the subgroup block. */
  lemma {:induction false} SubGroupWithRootCondition(gen: Generator, c: SearchCondition)
    requires Plain(gen) && Maps(gen, "customer", CustomerColumn) && Maps(gen, "customer_name", NameColumn)
    requires c == Root(And, [Simple("customer", [Num(2)])],
                       [ValuesGroup(And, [FieldValues("customer_name", EmptyBag.(patterns := [PatternMatch("foo", StartsWith, false)]))], [])])
    ensures WhereClause(gen, c) == Ok("(((I.customer IN(2))) AND (((" + "C.name LIKE '%foo' ESCAPE '\\'" + "))))")
  {
    var foo := "C.name LIKE '%foo' ESCAPE '\\'";
    CustomerTwoText();
    CustomerOne(gen, c.root.fields[0], 2, "(I.customer IN(2))");
    var sub := c.root.groups[0];
    FooField(gen, sub.fields[0]);
    OneFieldGroup(gen, sub, FieldSql(gen, sub.fields[0]).value);
    FieldAndSubgroup(gen, c.root, FieldSql(gen, c.root.fields[0]).value, GroupSql(gen, sub).value);
    RootConditionText(foo);
    RootWhere(gen, c, "", "(" + ("(" + "(I.customer IN(2))" + ")") + " AND " + ("(" + ("(" + ("(" + foo + ")") + ")") + ")") + ")");
  }

  lemma {:induction false} RootConditionText(foo: string)
    ensures "(" + ("(" + "(I.customer IN(2))" + ")") + " AND " + ("(" + ("(" + ("(" + foo + ")") + ")") + ")") + ")"
            == "(((I.customer IN(2))) AND (((" + foo + "))))"
  {
  }

  /** The two fields of the OR tests: the customer holding 2 and the name starting with `foo`. */
  lemma {:induction false} OrFields(gen: Generator, g: ValuesGroup)
    requires Plain(gen) && Maps(gen, "customer", CustomerColumn) && Maps(gen, "customer_name", NameColumn)
    requires g == ValuesGroup(Or, [Simple("customer", [Num(2)]),
                                   FieldValues("customer_name", EmptyBag.(patterns := [PatternMatch("foo", StartsWith, false)]))], [])
    ensures GroupSql(gen, g).Ok?
    ensures Print(GroupSql(gen, g).value) == "(" + "(I.customer IN(2))" + " OR " + ("(" + "C.name LIKE '%foo' ESCAPE '\\'" + ")") + ")"
  {
    CustomerTwoText();
    CustomerOne(gen, g.fields[0], 2, "(I.customer IN(2))");
    FooField(gen, g.fields[1]);
    TwoFieldGroup(gen, g, FieldSql(gen, g.fields[0]).value, FieldSql(gen, g.fields[1]).value);
  }

  /** An OR root joins its fields with OR. */
  lemma {:induction false} OrGroupRoot(gen: Generator, c: SearchCondition)
    requires Plain(gen) && Maps(gen, "customer", CustomerColumn) && Maps(gen, "customer_name", NameColumn)
    requires c == Root(Or, [Simple("customer", [Num(2)]),
                            FieldValues("customer_name", EmptyBag.(patterns := [PatternMatch("foo", StartsWith, false)]))], [])
    ensures WhereClause(gen, c) == Ok("((I.customer IN(2)) OR (" + "C.name LIKE '%foo' ESCAPE '\\'" + "))")
  {
    OrFields(gen, c.root);
    var foo := "C.name LIKE '%foo' ESCAPE '\\'";
    OrRootText(foo);
    RootWhere(gen, c, "", "(" + "(I.customer IN(2))" + " OR " + ("(" + foo + ")") + ")");
  }

  lemma {:induction false} OrRootText(foo: string)
    ensures "(" + "(I.customer IN(2))" + " OR " + ("(" + foo + ")") + ")" == "((I.customer IN(2)) OR (" + foo + "))"
  {
  }

  /** A group holding one subgroup only: that subgroup in parentheses. */
  lemma {:induction false} OnlySubgroup(gen: Generator, g: ValuesGroup, text: string)
    requires g.fields == [] && |g.groups| == 1
    requires GroupSql(gen, g.groups[0]).Ok? && Print(GroupSql(gen, g.groups[0]).value) == text && text != ""
    ensures GroupSql(gen, g).Ok? && Print(GroupSql(gen, g).value) == "(" + text + ")"
  {
    var s := GroupSql(gen, g.groups[0]).value;
    SubgroupsOnly(gen, g, [s]);
    assert Prints([s]) == [text];
    NonEmptyKeeps([text]);
    CombineOne(OrGlue, [text], text, WrapAlways);
  }

  /** An OR group nested in a subgroup keeps its OR inside its own parentheses. */
  lemma {:induction false} SubOrGroup(gen: Generator, c: SearchCondition)
    requires Plain(gen) && Maps(gen, "customer", CustomerColumn) && Maps(gen, "customer_name", NameColumn)
    requires c == Root(And, [], [ValuesGroup(And, [], [
                ValuesGroup(Or, [Simple("customer", [Num(2)]),
                                 FieldValues("customer_name", EmptyBag.(patterns := [PatternMatch("foo", StartsWith, false)]))], [])])])
    ensures WhereClause(gen, c) == Ok("((((I.customer IN(2)) OR (" + "C.name LIKE '%foo' ESCAPE '\\'" + "))))")
  {
    var foo := "C.name LIKE '%foo' ESCAPE '\\'";
    var inner := "(" + "(I.customer IN(2))" + " OR " + ("(" + foo + ")") + ")";
    var middle := c.root.groups[0];
    OrFields(gen, middle.groups[0]);
    OnlySubgroup(gen, middle, inner);
    OnlySubgroup(gen, c.root, "(" + inner + ")");
    SubOrText(foo);
    RootWhere(gen, c, "", "(" + ("(" + inner + ")") + ")");
  }

  lemma {:induction false} SubOrText(foo: string)
    ensures "(" + ("(" + ("(" + "(I.customer IN(2))" + " OR " + ("(" + foo + ")") + ")") + ")") + ")"
            == "((((I.customer IN(2)) OR (" + foo + "))))"
  {
  }
}
