/**
  The WHERE clauses the SQL generator's unit tests expect for excluded ranges
  and comparisons, each derived from the model for every generator holding
  the test registry.
*/
module SqlCompareCases {
  import opened Outcomes
  import opened Conditions
  import opened SqlText
  import opened SqlGenerator
  import opened SqlExamples
  import opened SqlCases
  import opened Seqs

  // ---------------------------------------------------------------- excluded ranges

  lemma {:induction false} ExcludedBoundsLow()
    ensures "I.customer" + " " + Le.Symbol() + " " + Digits(2) == "I.customer <= 2"
    ensures "I.customer" + " " + Ge.Symbol() + " " + Digits(5) == "I.customer >= 5"
    ensures "I.customer" + " " + Le.Symbol() + " " + Digits(10) == "I.customer <= 10"
    ensures "I.customer" + " " + Ge.Symbol() + " " + Digits(20) == "I.customer >= 20"
  {
  }

  lemma {:induction false} ExcludedBoundsHigh()
    ensures "I.customer" + " " + Lt.Symbol() + " " + Digits(60) == "I.customer < 60"
    ensures "I.customer" + " " + Ge.Symbol() + " " + Digits(70) == "I.customer >= 70"
    ensures "I.customer" + " " + Le.Symbol() + " " + Digits(100) == "I.customer <= 100"
    ensures "I.customer" + " " + Gt.Symbol() + " " + Digits(150) == "I.customer > 150"
  {
  }

  /** Excluded ranges: each range's outside as an OR of its flipped bounds, the ranges AND-ed. */
  lemma {:induction false} ExcludedRangesQuery(gen: Generator, c: SearchCondition)
    requires Plain(gen) && Maps(gen, "customer", CustomerColumn)
    requires c == Root(And, [FieldValues("customer", EmptyBag.(excludedRanges := [
                Range(Num(2), Num(5), true, true), Range(Num(10), Num(20), true, true),
                Range(Num(60), Num(70), false, true), Range(Num(100), Num(150), true, false)]))], [])
    ensures var first := "(" + "I.customer <= 2" + " OR " + "I.customer >= 5" + ")";
            var second := "(" + "I.customer <= 10" + " OR " + "I.customer >= 20" + ")";
            var third := "(" + "I.customer < 60" + " OR " + "I.customer >= 70" + ")";
            var fourth := "(" + "I.customer <= 100" + " OR " + "I.customer > 150" + ")";
            WhereClause(gen, c) == Ok("(((" + (first + " AND " + second + " AND " + third + " AND " + fourth) + ")))")
  {
    var t := Customer();
    var rs := c.root.fields[0].bag.excludedRanges;
    ExcludedBoundsLow();
    ExcludedBoundsHigh();
    CustomerBound(2, Le);
    CustomerBound(5, Ge);
    CustomerBound(10, Le);
    CustomerBound(20, Ge);
    CustomerBound(60, Lt);
    CustomerBound(70, Ge);
    CustomerBound(100, Le);
    CustomerBound(150, Gt);
    RangeBounds(t, rs[0], true, "I.customer <= 2", "I.customer >= 5");
    RangeBounds(t, rs[1], true, "I.customer <= 10", "I.customer >= 20");
    RangeBounds(t, rs[2], true, "I.customer < 60", "I.customer >= 70");
    RangeBounds(t, rs[3], true, "I.customer <= 100", "I.customer > 150");
    var a := "(" + "I.customer <= 2" + " OR " + "I.customer >= 5" + ")";
    var b := "(" + "I.customer <= 10" + " OR " + "I.customer >= 20" + ")";
    var x := "(" + "I.customer < 60" + " OR " + "I.customer >= 70" + ")";
    var y := "(" + "I.customer <= 100" + " OR " + "I.customer > 150" + ")";
    WhereFourRanges(gen, c, CustomerColumn, true, a, b, x, y);
  }

  // ---------------------------------------------------------------- comparisons

  /** A column holding only compares: the ordering block, then each `<>` compare, AND-ed. */
  lemma {:induction false} ComparesColumn(t: Target, bag: ValuesBag)
    requires bag == EmptyBag.(compares := bag.compares)
    ensures ColumnSql(t, bag).Ok?
    ensures Print(ColumnSql(t, bag).value)
            == Combine(AndGlue, [Print(Compares(t, bag.compares))] + Prints(NotEqualParts(t, bag.compares)), Bare)
  {
    var x := Print(Compares(t, bag.compares));
    var ne := Prints(NotEqualParts(t, bag.compares));
    var inc := [Compares(t, bag.compares)];
    OnlyComparesParts(t, bag);
    ColumnParts(t, bag, inc, []);
    assert Prints(inc) == [x];
    assert Combine(OrGlue, [x], WrapMany) == x by {
      if x != "" {
        CombineOne(OrGlue, [x], x, WrapMany);
      }
    }
    assert Combine(AndGlue, Prints([]), WrapMany) == "";
    DropBlank(x, ne);
    CombineKept(AndGlue, [x, ""] + ne, Bare);
    CombineKept(AndGlue, [x] + ne, Bare);
  }

  /** With no values, ranges or patterns, the compares' block is the only included part. */
  lemma {:induction false} OnlyComparesParts(t: Target, bag: ValuesBag)
    requires bag == EmptyBag.(compares := bag.compares)
    ensures Patterns(t, bag.patterns, false) == Ok([]) && Patterns(t, bag.patterns, true) == Ok([])
    ensures [Compares(t, bag.compares)] == SimpleValues(t, bag.simple, false) + Ranges(t, bag.ranges, false) + [Compares(t, bag.compares)]
                                            + Patterns(t, bag.patterns, false).value
    ensures [] == SimpleValues(t, bag.excludedSimple, true) + Ranges(t, bag.excludedRanges, true) + Patterns(t, bag.patterns, true).value
  {
    assert Patterns(t, [], false) == Ok([]) && Patterns(t, [], true) == Ok([]);
    assert SimpleValues(t, [], false) == [] && SimpleValues(t, [], true) == [];
    assert Ranges(t, [], false) == [] && Ranges(t, [], true) == [];
    var none: seq<Sql> := [];
    assert none + none + none == none;
    assert [Compares(t, bag.compares)] == [] + [] + [Compares(t, bag.compares)] + [];
  }

  /** An empty excluded block between the ordering block and the inequalities is dropped. */
  lemma {:induction false} DropBlank(x: string, ne: seq<string>)
    ensures NonEmpty([x, ""] + ne) == NonEmpty([x] + ne)
  {
    NonEmptyAppend([x, ""], ne);
    NonEmptyAppend([x], ne);
    NonEmptyAppend([x], [""]);
    assert [x] + [""] == [x, ""];
    assert NonEmpty([""]) == [];
    assert NonEmpty([x]) + [] == NonEmpty([x]);
  }

  /** A column of ordering compares alone (no `<>`): their AND-block. */
  lemma {:induction false} OrderingColumn(t: Target, bag: ValuesBag)
    requires bag == EmptyBag.(compares := bag.compares) && Inequalities(bag.compares) == []
    requires Print(Compares(t, bag.compares)) != ""
    ensures ColumnSql(t, bag).Ok?
    ensures Print(ColumnSql(t, bag).value) == Print(Compares(t, bag.compares))
  {
    var x := Print(Compares(t, bag.compares));
    ComparesColumn(t, bag);
    assert [x] + Prints([]) == [x];
    CombineOne(AndGlue, [x], x, Bare);
  }

  /** A single compare goes to the ordering block or, when it is `<>`, to the inequalities. */
  lemma {:induction false} SplitOne(c: Compare)
    ensures Ordering([c]) == if c.op == NotEqual then [] else [c]
    ensures Inequalities([c]) == if c.op == NotEqual then [c] else []
  {
    assert [c][1..] == [];
  }

  /** Splitting the compares distributes over concatenation. */
  lemma {:induction false} SplitAppend(a: seq<Compare>, b: seq<Compare>)
    ensures Ordering(a + b) == Ordering(a) + Ordering(b)
    ensures Inequalities(a + b) == Inequalities(a) + Inequalities(b)
  {
    if |a| == 0 {
      assert a + b == b;
    } else {
      assert (a + b)[1..] == a[1..] + b;
      SplitAppend(a[1..], b);
    }
  }

  /** Two compares, split in order. */
  lemma {:induction false} SplitTwo(cs: seq<Compare>)
    requires |cs| == 2
    ensures Ordering(cs) == Ordering([cs[0]]) + Ordering([cs[1]])
    ensures Inequalities(cs) == Inequalities([cs[0]]) + Inequalities([cs[1]])
  {
    assert cs == [cs[0]] + [cs[1]];
    SplitAppend([cs[0]], [cs[1]]);
  }

  lemma {:induction false} GreaterTwoText()
    ensures "I.customer" + " " + Gt.Symbol() + " " + Digits(2) == "I.customer > 2"
    ensures "I.customer" + " " + Lt.Symbol() + " " + Digits(10) == "I.customer < 10"
  {
  }

  /** One compare on the customer column prints as the relation it writes. */
  lemma {:induction false} CustomerCompare(c: Compare, n: nat, op: RelOp, text: string)
    requires c.value == Num(n) && CompareRelOp(c.op) == op
    requires "I.customer" + " " + op.Symbol() + " " + Digits(n) == text
    ensures Print(CompareSql(Customer(), c)) == text
  {
    CustomerBound(n, op);
  }

  /** One ordering compare: an ordering block of its relation alone. */
  lemma {:induction false} OneOrdering(cs: seq<Compare>, a: string)
    requires |cs| == 1 && cs[0].op != NotEqual && Print(CompareSql(Customer(), cs[0])) == a
    ensures Ordering(cs) == cs && Inequalities(cs) == []
    ensures Print(Compares(Customer(), cs)) == a
  {
    var t := Customer();
    SplitOne(cs[0]);
    assert cs == [cs[0]];
    assert Prints(CompareList(t, cs)) == [a];
    PrintImplode(AndGlue, CompareList(t, cs), WrapMany);
    RelationPrinted(t, cs[0]);
    CombineOne(AndGlue, [a], a, WrapMany);
  }

  /** Two ordering compares on the customer column print AND-ed in parentheses. */
  lemma {:induction false} TwoOrdering(cs: seq<Compare>, a: string, b: string)
    requires |cs| == 2 && cs[0].op != NotEqual && cs[1].op != NotEqual
    requires Print(CompareSql(Customer(), cs[0])) == a && Print(CompareSql(Customer(), cs[1])) == b
    ensures Ordering(cs) == cs && Inequalities(cs) == []
    ensures Print(Compares(Customer(), cs)) == "(" + a + " AND " + b + ")"
  {
    var t := Customer();
    SplitTwo(cs);
    SplitOne(cs[0]);
    SplitOne(cs[1]);
    assert [cs[0]] + [cs[1]] == cs;
    assert CompareList(t, cs) == [CompareSql(t, cs[0]), CompareSql(t, cs[1])];
    assert Prints(CompareList(t, cs)) == [a, b];
    PrintImplode(AndGlue, CompareList(t, cs), WrapMany);
    RelationPrinted(t, cs[0]);
    RelationPrinted(t, cs[1]);
    NonEmptyKeeps([a, b]);
    CombineTwo(AndGlue, [a, b], a, b, WrapMany);
  }

  /** Two `<>` compares: no ordering block, two conjuncts. */
  lemma {:induction false} TwoInequalities(cs: seq<Compare>, a: string, b: string)
    requires |cs| == 2 && cs[0].op == NotEqual && cs[1].op == NotEqual
    requires Print(CompareSql(Customer(), cs[0])) == a && Print(CompareSql(Customer(), cs[1])) == b
    ensures Ordering(cs) == [] && Inequalities(cs) == cs
    ensures Print(Compares(Customer(), cs)) == ""
    ensures Prints(NotEqualParts(Customer(), cs)) == [a, b]
  {
    var t := Customer();
    SplitTwo(cs);
    SplitOne(cs[0]);
    SplitOne(cs[1]);
    assert [cs[0]] + [cs[1]] == cs;
    NoCompares(t);
    TwoPrinted(t, cs, a, b);
  }

  /** A compare never prints as nothing. */
  lemma {:induction false} RelationPrinted(t: Target, c: Compare)
    ensures Print(CompareSql(t, c)) != ""
  {
  }

  /** The customer column holding `bag`, alone in the root, prints as `text` in two pairs of parentheses. */
  lemma {:induction false} CustomerWhere(gen: Generator, c: SearchCondition, text: string)
    requires Plain(gen) && Maps(gen, "customer", CustomerColumn)
    requires c.primary.None? && |c.root.fields| == 1 && c.root.groups == [] && c.root.fields[0].name == "customer"
    requires ColumnSql(Customer(), c.root.fields[0].bag).Ok? && Print(ColumnSql(Customer(), c.root.fields[0].bag).value) == text
    requires text != ""
    ensures WhereClause(gen, c) == Ok("((" + text + "))")
  {
    var f := c.root.fields[0];
    PlainColumn(gen, f, CustomerColumn);
    WhereOneColumn(gen, c, CustomerColumn, ColumnSql(Customer(), f.bag).value);
  }

  lemma {:induction false} SingleComparisonColumn(bag: ValuesBag)
    requires bag == EmptyBag.(compares := [Compare(Num(2), Greater)])
    ensures ColumnSql(Customer(), bag).Ok? && Print(ColumnSql(Customer(), bag).value) == "I.customer > 2"
  {
    GreaterTwoText();
    CustomerCompare(bag.compares[0], 2, Gt, "I.customer > 2");
    OneOrdering(bag.compares, "I.customer > 2");
    OrderingColumn(Customer(), bag);
  }

  lemma {:induction false} SingleComparisonText()
    ensures "((" + "I.customer > 2" + "))" == "((I.customer > 2))"
  {
  }

  lemma {:induction false} SingleComparison(gen: Generator, c: SearchCondition)
    requires Plain(gen) && Maps(gen, "customer", CustomerColumn)
    requires c == Root(And, [FieldValues("customer", EmptyBag.(compares := [Compare(Num(2), Greater)]))], [])
    ensures WhereClause(gen, c) == Ok("((I.customer > 2))")
  {
    SingleComparisonColumn(c.root.fields[0].bag);
    CustomerWhere(gen, c, "I.customer > 2");
    SingleComparisonText();
  }

  lemma {:induction false} MultipleComparisonsColumn(bag: ValuesBag)
    requires bag == EmptyBag.(compares := [Compare(Num(2), Greater), Compare(Num(10), Less)])
    ensures ColumnSql(Customer(), bag).Ok?
    ensures Print(ColumnSql(Customer(), bag).value) == "(" + "I.customer > 2" + " AND " + "I.customer < 10" + ")"
  {
    var cs := bag.compares;
    GreaterTwoText();
    CustomerCompare(cs[0], 2, Gt, "I.customer > 2");
    CustomerCompare(cs[1], 10, Lt, "I.customer < 10");
    TwoOrdering(cs, "I.customer > 2", "I.customer < 10");
    OrderingColumn(Customer(), bag);
  }

  lemma {:induction false} MultipleComparisons(gen: Generator, c: SearchCondition)
    requires Plain(gen) && Maps(gen, "customer", CustomerColumn)
    requires c == Root(And, [FieldValues("customer", EmptyBag.(compares := [Compare(Num(2), Greater), Compare(Num(10), Less)]))], [])
    ensures WhereClause(gen, c) == Ok("(((" + "I.customer > 2" + " AND " + "I.customer < 10" + ")))")
  {
    MultipleComparisonsColumn(c.root.fields[0].bag);
    CustomerWhere(gen, c, "(" + "I.customer > 2" + " AND " + "I.customer < 10" + ")");
    BlockInWhere("I.customer > 2", "I.customer < 10");
  }

  /** An AND-block of two relations inside the WHERE clause's two parentheses. */
  lemma {:induction false} BlockInWhere(a: string, b: string)
    ensures "((" + ("(" + a + " AND " + b + ")") + "))" == "(((" + a + " AND " + b + ")))"
  {
  }

  lemma {:induction false} NotEqualTexts()
    ensures "I.customer" + " " + Ne.Symbol() + " " + Digits(2) == "I.customer <> 2"
    ensures "I.customer" + " " + Ne.Symbol() + " " + Digits(5) == "I.customer <> 5"
  {
  }

  lemma {:induction false} NotEqualHighTexts()
    ensures "I.customer" + " " + Ne.Symbol() + " " + Digits(35) == "I.customer <> 35"
    ensures "I.customer" + " " + Ne.Symbol() + " " + Digits(45) == "I.customer <> 45"
  {
  }

  /** Two compares print as the list of their two relations. */
  lemma {:induction false} TwoPrinted(t: Target, cs: seq<Compare>, a: string, b: string)
    requires |cs| == 2 && Print(CompareSql(t, cs[0])) == a && Print(CompareSql(t, cs[1])) == b
    ensures Prints(CompareList(t, cs)) == [a, b]
  {
    assert CompareList(t, cs) == [CompareSql(t, cs[0]), CompareSql(t, cs[1])];
  }

  /** An empty ordering block followed by two conjuncts prints as the two conjuncts. */
  lemma {:induction false} DropEmptyBlock(a: string, b: string)
    requires a != "" && b != ""
    ensures Combine(AndGlue, [""] + [a, b], Bare) == a + " AND " + b
  {
    assert [""] + [a, b] == ["", a, b];
    assert NonEmpty(["", a, b]) == [a, b] by {
      assert ["", a, b][1..] == [a, b];
      NonEmptyKeeps([a, b]);
    }
    CombineTwo(AndGlue, ["", a, b], a, b, Bare);
  }

  lemma {:induction false} ExcludingComparisonsColumn(bag: ValuesBag)
    requires bag == EmptyBag.(compares := [Compare(Num(2), NotEqual), Compare(Num(5), NotEqual)])
    ensures ColumnSql(Customer(), bag).Ok?
    ensures Print(ColumnSql(Customer(), bag).value) == "I.customer <> 2" + " AND " + "I.customer <> 5"
  {
    var cs := bag.compares;
    NotEqualTexts();
    CustomerCompare(cs[0], 2, Ne, "I.customer <> 2");
    CustomerCompare(cs[1], 5, Ne, "I.customer <> 5");
    TwoInequalities(cs, "I.customer <> 2", "I.customer <> 5");
    ComparesColumn(Customer(), bag);
    DropEmptyBlock("I.customer <> 2", "I.customer <> 5");
  }

  /** `<>` compares alone: no ordering block, each inequality a conjunct. */
  lemma {:induction false} ExcludingComparisons(gen: Generator, c: SearchCondition)
    requires Plain(gen) && Maps(gen, "customer", CustomerColumn)
    requires c == Root(And, [FieldValues("customer", EmptyBag.(compares := [Compare(Num(2), NotEqual), Compare(Num(5), NotEqual)]))], [])
    ensures WhereClause(gen, c) == Ok("((" + "I.customer <> 2" + " AND " + "I.customer <> 5" + "))")
  {
    ExcludingComparisonsColumn(c.root.fields[0].bag);
    CustomerWhere(gen, c, "I.customer <> 2" + " AND " + "I.customer <> 5");
    ConjunctsInWhere("I.customer <> 2", "I.customer <> 5");
  }

  /** Two conjuncts inside the WHERE clause's two parentheses. */
  lemma {:induction false} ConjunctsInWhere(a: string, b: string)
    ensures "((" + (a + " AND " + b) + "))" == "((" + a + " AND " + b + "))"
  {
  }

  lemma {:induction false} NormalTexts()
    ensures "I.customer" + " " + Gt.Symbol() + " " + Digits(30) == "I.customer > 30"
    ensures "I.customer" + " " + Lt.Symbol() + " " + Digits(50) == "I.customer < 50"
  {
  }

  /** Compares listed inequalities first: the ordering pair and the `<>` pair, each in order. */
  lemma {:induction false} MixedSplit(cs: seq<Compare>)
    requires |cs| == 4 && cs[0].op == NotEqual && cs[1].op == NotEqual && cs[2].op != NotEqual && cs[3].op != NotEqual
    ensures Ordering(cs) == cs[2..] && Inequalities(cs) == cs[..2]
  {
    assert cs == cs[..2] + cs[2..];
    SplitAppend(cs[..2], cs[2..]);
    SplitTwo(cs[..2]);
    SplitTwo(cs[2..]);
    SplitOne(cs[0]);
    SplitOne(cs[1]);
    SplitOne(cs[2]);
    SplitOne(cs[3]);
    assert cs[..2] == [cs[0]] + [cs[1]];
    assert cs[2..] == [cs[2]] + [cs[3]];
  }

  /** The ordering block followed by the two inequality conjuncts. */
  lemma {:induction false} BlockAndTwo(x: string, a: string, b: string)
    requires x != "" && a != "" && b != ""
    ensures Combine(AndGlue, [x] + [a, b], Bare) == x + " AND " + a + " AND " + b
  {
    assert [x] + [a, b] == [x, a, b];
    CombineAll(AndGlue, [x, a, b], Bare);
    JoinThree(" AND ", x, a, b);
  }

  /** The mixed compares' ordering block, as printed. */
  lemma {:induction false} MixedOrdering(cs: seq<Compare>)
    requires cs == [Compare(Num(35), NotEqual), Compare(Num(45), NotEqual), Compare(Num(30), Greater), Compare(Num(50), Less)]
    ensures Print(Compares(Customer(), cs)) == "(" + "I.customer > 30" + " AND " + "I.customer < 50" + ")"
  {
    NormalTexts();
    CustomerCompare(cs[2], 30, Gt, "I.customer > 30");
    CustomerCompare(cs[3], 50, Lt, "I.customer < 50");
    MixedSplit(cs);
    TwoOrdering(cs[2..], "I.customer > 30", "I.customer < 50");
  }

  /** The mixed compares' inequality conjuncts, as printed. */
  lemma {:induction false} MixedInequalities(cs: seq<Compare>)
    requires cs == [Compare(Num(35), NotEqual), Compare(Num(45), NotEqual), Compare(Num(30), Greater), Compare(Num(50), Less)]
    ensures Prints(NotEqualParts(Customer(), cs)) == ["I.customer <> 35", "I.customer <> 45"]
  {
    NotEqualHighTexts();
    CustomerCompare(cs[0], 35, Ne, "I.customer <> 35");
    CustomerCompare(cs[1], 45, Ne, "I.customer <> 45");
    MixedSplit(cs);
    TwoPrinted(Customer(), cs[..2], "I.customer <> 35", "I.customer <> 45");
  }

  lemma {:induction false} MixedColumn(bag: ValuesBag)
    requires bag == EmptyBag.(compares := [
                Compare(Num(35), NotEqual), Compare(Num(45), NotEqual), Compare(Num(30), Greater), Compare(Num(50), Less)])
    ensures ColumnSql(Customer(), bag).Ok?
    ensures Print(ColumnSql(Customer(), bag).value)
            == ("(" + "I.customer > 30" + " AND " + "I.customer < 50" + ")") + " AND " + "I.customer <> 35" + " AND " + "I.customer <> 45"
  {
    var x := "(" + "I.customer > 30" + " AND " + "I.customer < 50" + ")";
    MixedOrdering(bag.compares);
    MixedInequalities(bag.compares);
    ComparesColumn(Customer(), bag);
    BlockAndTwo(x, "I.customer <> 35", "I.customer <> 45");
  }

  /** `<>` compares with ordering ones: the ordering block first, then each inequality. */
  lemma {:induction false} ExcludingComparisonsWithNormal(gen: Generator, c: SearchCondition)
    requires Plain(gen) && Maps(gen, "customer", CustomerColumn)
    requires c == Root(And, [FieldValues("customer", EmptyBag.(compares := [
                Compare(Num(35), NotEqual), Compare(Num(45), NotEqual), Compare(Num(30), Greater), Compare(Num(50), Less)]))], [])
    ensures var ordering := "(" + "I.customer > 30" + " AND " + "I.customer < 50" + ")";
            WhereClause(gen, c) == Ok("((" + ordering + " AND " + "I.customer <> 35" + " AND " + "I.customer <> 45" + "))")
  {
    var x := "(" + "I.customer > 30" + " AND " + "I.customer < 50" + ")";
    MixedColumn(c.root.fields[0].bag);
    CustomerWhere(gen, c, x + " AND " + "I.customer <> 35" + " AND " + "I.customer <> 45");
    Wrap2(x, "I.customer <> 35", "I.customer <> 45");
  }

  lemma {:induction false} Wrap2(x: string, a: string, b: string)
    ensures "((" + (x + " AND " + a + " AND " + b) + "))" == "((" + x + " AND " + a + " AND " + b + "))"
  {
  }

  // ---------------------------------------------------------------- comparisons in subgroups

  lemma {:induction false} TwentyText()
    ensures "I.customer" + " IN" + "(" + Digits(20) + ")" == "I.customer IN(20)"
    ensures "I.customer" + " " + Gt.Symbol() + " " + Digits(30) == "I.customer > 30"
  {
  }

  /** The IN list of the single value 20 on the customer column. */
  lemma {:induction false} InTwenty(t: Target)
    requires t == Customer()
    ensures |SimpleValues(t, [Num(20)], false)| == 1
    ensures Print(SimpleValues(t, [Num(20)], false)[0]) == "I.customer IN(20)"
  {
    TwentyText();
    References();
    assert ValueList(t, [Num(20)]) == [Decimal(20)];
    InList(t, [Num(20)], [Decimal(20)], false);
  }

  /** The first subgroup's column: the IN list OR-ed to the compares' AND-block. */
  lemma {:induction false} InWithCompares(t: Target, bag: ValuesBag)
    requires t == Customer()
    requires bag == EmptyBag.(simple := [Num(20)], compares := [Compare(Num(2), Greater), Compare(Num(10), Less)])
    ensures ColumnSql(t, bag).Ok?
    ensures Print(ColumnSql(t, bag).value)
            == "(" + "I.customer IN(20)" + " OR " + ("(" + "I.customer > 2" + " AND " + "I.customer < 10" + ")") + ")"
  {
    var cs := bag.compares;
    var x := "(" + "I.customer > 2" + " AND " + "I.customer < 10" + ")";
    var m := SimpleValues(t, bag.simple, false)[0];
    GreaterTwoText();
    CustomerCompare(cs[0], 2, Gt, "I.customer > 2");
    CustomerCompare(cs[1], 10, Lt, "I.customer < 10");
    TwoOrdering(cs, "I.customer > 2", "I.customer < 10");
    IncludingColumn(t, bag);
    InTwenty(t);
    assert SimpleValues(t, bag.simple, false) + Ranges(t, [], false) + [Compares(t, cs)] == [m, Compares(t, cs)];
    assert Prints([m, Compares(t, cs)]) == ["I.customer IN(20)", x];
    NonEmptyKeeps(["I.customer IN(20)", x]);
    CombineTwo(OrGlue, ["I.customer IN(20)", x], "I.customer IN(20)", x, WrapMany);
  }

  /** The second subgroup's column: a single compare. */
  lemma {:induction false} GreaterThirty(t: Target, bag: ValuesBag)
    requires t == Customer() && bag == EmptyBag.(compares := [Compare(Num(30), Greater)])
    ensures ColumnSql(t, bag).Ok?
    ensures Print(ColumnSql(t, bag).value) == "I.customer > 30"
  {
    var cs := bag.compares;
    TwentyText();
    CustomerCompare(cs[0], 30, Gt, "I.customer > 30");
    OneOrdering(cs, "I.customer > 30");
    OrderingColumn(t, bag);
  }

  /** A group of one field of one column whose column prints as `text`. */
  lemma {:induction false} OneColumnGroup(gen: Generator, g: ValuesGroup, column: Column, sql: Sql)
    requires |g.fields| == 1 && g.groups == [] && Maps(gen, g.fields[0].name, column)
    requires FieldColumnSql(gen, g.fields[0], column) == Ok(sql) && Print(sql) != ""
    ensures GroupSql(gen, g).Ok?
    ensures Print(GroupSql(gen, g).value) == "((" + Print(sql) + "))"
  {
    OneColumnField(gen, g.fields[0], column, sql);
    OneFieldGroup(gen, g, FieldSql(gen, g.fields[0]).value);
  }

  /** The first subgroup: the customer's IN list OR-ed to its compares. */
  lemma {:induction false} FirstComparisonsGroup(gen: Generator, g: ValuesGroup, first: string)
    requires Plain(gen) && Maps(gen, "customer", CustomerColumn)
    requires g == ValuesGroup(And, [FieldValues("customer", EmptyBag.(simple := [Num(20)], compares := [Compare(Num(2), Greater), Compare(Num(10), Less)]))], [])
    requires first == "(" + "I.customer IN(20)" + " OR " + ("(" + "I.customer > 2" + " AND " + "I.customer < 10" + ")") + ")"
    ensures GroupSql(gen, g).Ok? && Print(GroupSql(gen, g).value) == "((" + first + "))"
  {
    var t := Customer();
    InWithCompares(t, g.fields[0].bag);
    PlainColumn(gen, g.fields[0], CustomerColumn);
    OneColumnGroup(gen, g, CustomerColumn, ColumnSql(t, g.fields[0].bag).value);
  }

  /** The second subgroup: its single compare. */
  lemma {:induction false} SecondComparisonsGroup(gen: Generator, g: ValuesGroup)
    requires Plain(gen) && Maps(gen, "customer", CustomerColumn)
    requires g == ValuesGroup(And, [FieldValues("customer", EmptyBag.(compares := [Compare(Num(30), Greater)]))], [])
    ensures GroupSql(gen, g).Ok? && Print(GroupSql(gen, g).value) == "((" + "I.customer > 30" + "))"
  {
    var t := Customer();
    GreaterThirty(t, g.fields[0].bag);
    PlainColumn(gen, g.fields[0], CustomerColumn);
    OneColumnGroup(gen, g, CustomerColumn, ColumnSql(t, g.fields[0].bag).value);
  }

  /** Two rendered subgroups alone at the root: OR-ed in parentheses. */
  lemma {:induction false} TwoSubgroupsWhere(gen: Generator, c: SearchCondition, a: string, b: string)
    requires c.primary.None? && c.root.fields == [] && |c.root.groups| == 2
    requires GroupSql(gen, c.root.groups[0]).Ok? && Print(GroupSql(gen, c.root.groups[0]).value) == a
    requires GroupSql(gen, c.root.groups[1]).Ok? && Print(GroupSql(gen, c.root.groups[1]).value) == b
    requires a != "" && b != ""
    ensures WhereClause(gen, c) == Ok("(" + a + " OR " + b + ")")
  {
    var s1, s2 := GroupSql(gen, c.root.groups[0]).value, GroupSql(gen, c.root.groups[1]).value;
    SubgroupsOnly(gen, c.root, [s1, s2]);
    assert Prints([s1, s2]) == [a, b];
    NonEmptyKeeps([a, b]);
    CombineTwo(OrGlue, [a, b], a, b, WrapAlways);
    RootWhere(gen, c, "", "(" + a + " OR " + b + ")");
  }

  /** Compares in two subgroups: each group's compares stay within it, the groups OR-ed. */
  lemma {:induction false} MultipleComparisonsWithGroups(gen: Generator, c: SearchCondition)
    requires Plain(gen) && Maps(gen, "customer", CustomerColumn)
    requires c == Root(And, [], [
                ValuesGroup(And, [FieldValues("customer", EmptyBag.(simple := [Num(20)], compares := [Compare(Num(2), Greater), Compare(Num(10), Less)]))], []),
                ValuesGroup(And, [FieldValues("customer", EmptyBag.(compares := [Compare(Num(30), Greater)]))], [])])
    ensures var first := "(" + "I.customer IN(20)" + " OR " + ("(" + "I.customer > 2" + " AND " + "I.customer < 10" + ")") + ")";
            WhereClause(gen, c) == Ok("(" + ("((" + first + "))") + " OR " + ("((" + "I.customer > 30" + "))") + ")")
  {
    var first := "(" + "I.customer IN(20)" + " OR " + ("(" + "I.customer > 2" + " AND " + "I.customer < 10" + ")") + ")";
    FirstComparisonsGroup(gen, c.root.groups[0], first);
    SecondComparisonsGroup(gen, c.root.groups[1]);
    TwoSubgroupsWhere(gen, c, "((" + first + "))", "((" + "I.customer > 30" + "))");
  }
}
