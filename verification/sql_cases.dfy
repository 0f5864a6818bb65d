/**
  The WHERE clauses the SQL generator's unit tests expect, each derived from
  the model for every generator holding the test registry.
*/
module SqlCases {
  import opened Outcomes
  import opened Conditions
  import opened SqlText
  import opened SqlGenerator
  import opened SqlExamples
  import opened Seqs

  /** The customer field holding 2 and 5. */
  lemma CustomerTwoFive(gen: Generator, f: FieldValues)
    requires Plain(gen) && Maps(gen, "customer", CustomerColumn)
    requires f == Simple("customer", [Num(2), Num(5)])
    ensures FieldSql(gen, f).Ok? && Print(FieldSql(gen, f).value) == "(I.customer IN(2, 5))"
  {
    PairField(gen, f, CustomerColumn, 2, 5);
    References();
    CustomerTwoFiveText();
  }

  lemma CustomerTwoFiveText()
    ensures "(" + "I.customer" + " IN(" + DigitText(2) + ", " + DigitText(5) + "))" == "(I.customer IN(2, 5))"
  {
  }

  lemma CustomerRootText()
    ensures "(" + "(I.customer IN(2, 5))" + ")" == "((I.customer IN(2, 5)))"
  {
  }

  lemma PrependText()
    ensures "WHERE " + "((I.customer IN(2, 5)))" == "WHERE ((I.customer IN(2, 5)))"
  {
  }

  /** A root group holding only the customer field with 2 and 5. */
  lemma CustomerRoot(gen: Generator, g: ValuesGroup)
    requires Plain(gen) && Maps(gen, "customer", CustomerColumn)
    requires g == ValuesGroup(And, [Simple("customer", [Num(2), Num(5)])], [])
    ensures GroupSql(gen, g).Ok? && Print(GroupSql(gen, g).value) == "((I.customer IN(2, 5)))"
  {
    CustomerTwoFive(gen, g.fields[0]);
    OneFieldGroup(gen, g, FieldSql(gen, g.fields[0]).value);
    CustomerRootText();
  }

  lemma SimpleQuery(gen: Generator, c: SearchCondition)
    requires Plain(gen) && Maps(gen, "customer", CustomerColumn)
    requires c == Root(And, [Simple("customer", [Num(2), Num(5)])], [])
    ensures WhereClause(gen, c) == Ok("((I.customer IN(2, 5)))")
  {
    CustomerRoot(gen, c.root);
    RootWhere(gen, c, "", "((I.customer IN(2, 5)))");
  }

  lemma QueryWithPrepend(gen: Generator, c: SearchCondition)
    requires Plain(gen) && Maps(gen, "customer", CustomerColumn)
    requires c == Root(And, [Simple("customer", [Num(2), Num(5)])], [])
    ensures WhereClause(gen, c, "WHERE ") == Ok("WHERE ((I.customer IN(2, 5)))")
  {
    CustomerRoot(gen, c.root);
    RootWhere(gen, c, "WHERE ", "((I.customer IN(2, 5)))");
    PrependText();
  }

  lemma EmptyQueryWithPrepend(gen: Generator, c: SearchCondition)
    requires Plain(gen) && "id" !in gen.fields
    requires c == Root(And, [Simple("id", [Num(2), Num(5)])], [])
    ensures WhereClause(gen, c, "WHERE ") == Ok("")
  {
    SubgroupsOnly(gen, c.root, []);
    assert Combine(OrGlue, Prints([]), WrapAlways) == "";
    RootWhere(gen, c, "WHERE ", "");
  }

  lemma StatusOneTwoText()
    ensures "(" + "I.status" + " IN(" + DigitText(1) + ", " + DigitText(2) + "))" == "(I.status IN(1, 2))"
  {
  }

  /** The status field holding 1 and 2. */
  lemma StatusOneTwo(gen: Generator, f: FieldValues)
    requires Plain(gen) && Maps(gen, "status", StatusColumn)
    requires f == Simple("status", [Num(1), Num(2)])
    ensures FieldSql(gen, f).Ok? && Print(FieldSql(gen, f).value) == "(I.status IN(1, 2))"
  {
    PairField(gen, f, StatusColumn, 1, 2);
    References();
    StatusOneTwoText();
  }

  /** A group holding only the status field with 1 and 2. */
  lemma StatusRoot(gen: Generator, g: ValuesGroup)
    requires Plain(gen) && Maps(gen, "status", StatusColumn)
    requires g == ValuesGroup(And, [Simple("status", [Num(1), Num(2)])], [])
    ensures GroupSql(gen, g).Ok? && Print(GroupSql(gen, g).value) == "((I.status IN(1, 2)))"
  {
    StatusOneTwo(gen, g.fields[0]);
    OneFieldGroup(gen, g, FieldSql(gen, g.fields[0]).value);
    StatusRootText();
  }

  lemma StatusRootText()
    ensures "(" + "(I.status IN(1, 2))" + ")" == "((I.status IN(1, 2)))"
  {
  }

  lemma QueryWithPrependAndPrimaryCond(gen: Generator, c: SearchCondition)
    requires Plain(gen) && Maps(gen, "customer", CustomerColumn) && Maps(gen, "status", StatusColumn)
    requires c == SearchCondition(ValuesGroup(And, [Simple("customer", [Num(2), Num(5)])], []),
                                  Some(ValuesGroup(And, [Simple("status", [Num(1), Num(2)])], [])))
    ensures WhereClause(gen, c, "WHERE ") == Ok("WHERE " + "((I.status IN(1, 2)))" + " AND " + "((I.customer IN(2, 5)))")
  {
    CustomerRoot(gen, c.root);
    StatusRoot(gen, c.primary.value);
    PrimaryWhere(gen, c, "WHERE ", "((I.status IN(1, 2)))", "((I.customer IN(2, 5)))");
  }

  lemma EmptyQueryWithPrependAndPrimaryCond(gen: Generator, c: SearchCondition)
    requires Plain(gen) && Maps(gen, "status", StatusColumn) && "id" !in gen.fields
    requires c == SearchCondition(ValuesGroup(And, [Simple("id", [Num(2), Num(5)])], []),
                                  Some(ValuesGroup(And, [Simple("status", [Num(1), Num(2)])], [])))
    ensures WhereClause(gen, c, "WHERE ") == Ok("WHERE " + "((I.status IN(1, 2)))")
  {
    SubgroupsOnly(gen, c.root, []);
    assert Combine(OrGlue, Prints([]), WrapAlways) == "";
    StatusRoot(gen, c.primary.value);
    PrimaryWhere(gen, c, "WHERE ", "((I.status IN(1, 2)))", "");
  }

  lemma StatusTwoFiveText()
    ensures "(" + "I.status" + " IN(" + DigitText(2) + ", " + DigitText(5) + "))" == "(I.status IN(2, 5))"
  {
  }

  lemma QueryWithMultipleFields(gen: Generator, c: SearchCondition)
    requires Plain(gen) && Maps(gen, "customer", CustomerColumn) && Maps(gen, "status", StatusColumn)
    requires c == Root(And, [Simple("customer", [Num(2), Num(5)]), Simple("status", [Num(2), Num(5)])], [])
    ensures WhereClause(gen, c) == Ok("(" + "(I.customer IN(2, 5))" + " AND " + "(I.status IN(2, 5))" + ")")
  {
    CustomerTwoFive(gen, c.root.fields[0]);
    PairField(gen, c.root.fields[1], StatusColumn, 2, 5);
    References();
    StatusTwoFiveText();
    TwoFieldGroup(gen, c.root, FieldSql(gen, c.root.fields[0]).value, FieldSql(gen, c.root.fields[1]).value);
    RootWhere(gen, c, "", "(" + "(I.customer IN(2, 5))" + " AND " + "(I.status IN(2, 5))" + ")");
  }

  lemma EmptyResult(gen: Generator, c: SearchCondition)
    requires c == Root(And, [], [])
    ensures WhereClause(gen, c) == Ok("")
  {
    SubgroupsOnly(gen, c.root, []);
    assert Combine(OrGlue, Prints([]), WrapAlways) == "";
    RootWhere(gen, c, "", "");
  }

  lemma ExcludesText()
    ensures "(" + "(" + ("I.customer" + " NOT IN" + "(" + DigitText(2) + ", " + DigitText(5) + ")") + ")" + ")" == "((I.customer NOT IN(2, 5)))"
  {
  }

  lemma Excludes(gen: Generator, c: SearchCondition)
    requires Plain(gen) && Maps(gen, "customer", CustomerColumn)
    requires c == Root(And, [FieldValues("customer", EmptyBag.(excludedSimple := [Num(2), Num(5)]))], [])
    ensures WhereClause(gen, c) == Ok("((I.customer NOT IN(2, 5)))")
  {
    var f := c.root.fields[0];
    SmallNumbers(CustomerColumn);
    assert ValueList(Target(CustomerColumn, NoConversion, TestLiteral), [Num(2), Num(5)]) == [DigitText(2), DigitText(5)];
    NotInField(gen, f, CustomerColumn, [DigitText(2), DigitText(5)]);
    References();
    PairText("I.customer", true, DigitText(2), DigitText(5));
    OneFieldGroup(gen, c.root, FieldSql(gen, f).value);
    ExcludesText();
    RootWhere(gen, c, "", "((I.customer NOT IN(2, 5)))");
  }

  lemma IncludesAndExcludesText()
    ensures "I.customer" + " IN" + "(" + DigitText(2) + ")" == "I.customer IN(2)"
    ensures "I.customer" + " NOT IN" + "(" + DigitText(5) + ")" == "I.customer NOT IN(5)"
  {
  }

  lemma {:induction false} IncludesAndExcludes(gen: Generator, c: SearchCondition)
    requires Plain(gen) && Maps(gen, "customer", CustomerColumn)
    requires c == Root(And, [FieldValues("customer", EmptyBag.(simple := [Num(2)], excludedSimple := [Num(5)]))], [])
    ensures WhereClause(gen, c) == Ok("((" + "I.customer IN(2)" + " AND " + "I.customer NOT IN(5)" + "))")
  {
    var f := c.root.fields[0];
    var column := IncludesAndExcludesColumn(gen, f);
    OneColumnField(gen, f, CustomerColumn, column);
    OneFieldGroup(gen, c.root, FieldSql(gen, f).value);
    RootWhere(gen, c, "", "((" + "I.customer IN(2)" + " AND " + "I.customer NOT IN(5)" + "))");
  }

  lemma IncludesAndExcludesColumn(gen: Generator, f: FieldValues) returns (column: Sql)
    requires Plain(gen)
    requires f == FieldValues("customer", EmptyBag.(simple := [Num(2)], excludedSimple := [Num(5)]))
    ensures FieldColumnSql(gen, f, CustomerColumn) == Ok(column)
    ensures Print(column) == "I.customer IN(2)" + " AND " + "I.customer NOT IN(5)"
  {
    var t := Target(CustomerColumn, NoConversion, TestLiteral);
    SmallNumbers(CustomerColumn);
    assert ValueList(t, [Num(2)]) == [DigitText(2)] && ValueList(t, [Num(5)]) == [DigitText(5)];
    PlainColumn(gen, f, CustomerColumn);
    InNotInColumn(t, [Num(2)], [Num(5)]);
    References();
    IncludesAndExcludesText();
    column := FieldColumnSql(gen, f, CustomerColumn).value;
  }

  // ---------------------------------------------------------------- ranges

  /** The customer column, unconverted, on the test connection. */
  function Customer(): Target {
    Target(CustomerColumn, NoConversion, TestLiteral)
  }

  lemma CustomerBound(n: nat, op: RelOp)
    ensures Print(Bound(Customer(), Num(n), op)) == "I.customer" + " " + op.Symbol() + " " + Digits(n)
  {
    References();
  }

  lemma RangesBoundsLow()
    ensures "I.customer" + " " + Ge.Symbol() + " " + Digits(2) == "I.customer >= 2"
    ensures "I.customer" + " " + Le.Symbol() + " " + Digits(5) == "I.customer <= 5"
    ensures "I.customer" + " " + Ge.Symbol() + " " + Digits(10) == "I.customer >= 10"
    ensures "I.customer" + " " + Le.Symbol() + " " + Digits(20) == "I.customer <= 20"
  {
  }

  lemma RangesBoundsHigh()
    ensures "I.customer" + " " + Gt.Symbol() + " " + Digits(60) == "I.customer > 60"
    ensures "I.customer" + " " + Le.Symbol() + " " + Digits(70) == "I.customer <= 70"
    ensures "I.customer" + " " + Ge.Symbol() + " " + Digits(100) == "I.customer >= 100"
    ensures "I.customer" + " " + Lt.Symbol() + " " + Digits(150) == "I.customer < 150"
  {
  }

  lemma RangesQuery(gen: Generator, c: SearchCondition)
    requires Plain(gen) && Maps(gen, "customer", CustomerColumn)
    requires c == Root(And, [FieldValues("customer", EmptyBag.(ranges := [
                Range(Num(2), Num(5), true, true), Range(Num(10), Num(20), true, true),
                Range(Num(60), Num(70), false, true), Range(Num(100), Num(150), true, false)]))], [])
    ensures var first := "(" + "I.customer >= 2" + " AND " + "I.customer <= 5" + ")";
            var second := "(" + "I.customer >= 10" + " AND " + "I.customer <= 20" + ")";
            var third := "(" + "I.customer > 60" + " AND " + "I.customer <= 70" + ")";
            var fourth := "(" + "I.customer >= 100" + " AND " + "I.customer < 150" + ")";
            WhereClause(gen, c) == Ok("(((" + (first + " OR " + second + " OR " + third + " OR " + fourth) + ")))")
  {
    var t := Customer();
    var rs := c.root.fields[0].bag.ranges;
    RangesBoundsLow();
    RangesBoundsHigh();
    CustomerBound(2, Ge);
    CustomerBound(5, Le);
    CustomerBound(10, Ge);
    CustomerBound(20, Le);
    CustomerBound(60, Gt);
    CustomerBound(70, Le);
    CustomerBound(100, Ge);
    CustomerBound(150, Lt);
    RangeBounds(t, rs[0], false, "I.customer >= 2", "I.customer <= 5");
    RangeBounds(t, rs[1], false, "I.customer >= 10", "I.customer <= 20");
    RangeBounds(t, rs[2], false, "I.customer > 60", "I.customer <= 70");
    RangeBounds(t, rs[3], false, "I.customer >= 100", "I.customer < 150");
    var a := "(" + "I.customer >= 2" + " AND " + "I.customer <= 5" + ")";
    var b := "(" + "I.customer >= 10" + " AND " + "I.customer <= 20" + ")";
    var x := "(" + "I.customer > 60" + " AND " + "I.customer <= 70" + ")";
    var y := "(" + "I.customer >= 100" + " AND " + "I.customer < 150" + ")";
    WhereFourRanges(gen, c, CustomerColumn, false, a, b, x, y);
  }
}
