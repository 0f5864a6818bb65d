/**
  The SQL generator on the conditions of its unit tests, with the test
  double of the connection: integers written in decimal, strings in single
  quotes as they are.
*/
module SqlExamples {
  import opened Outcomes
  import opened Conditions
  import opened SqlText
  import opened SqlGenerator
  import opened Seqs

  /** The test connection's literals: integers in decimal, strings quoted without escaping. */
  function TestLiteral(v: Value, dbType: string): string {
    match v
    case Num(n) => Decimal(n)
    case Text(s) => "'" + s + "'"
    case Moment(_) => "''"
  }

  const CustomerColumn: Column := Column("customer", Some("I"), "integer")
  const NameColumn: Column := Column("name", Some("C"), "string")
  const BirthdayColumn: Column := Column("birthday", Some("C"), "date")
  const StatusColumn: Column := Column("status", Some("I"), "integer")
  const LabelColumn: Column := Column("label", Some("I"), "string")

  /** The fields every test registers. */
  const TestFields: Fields := map[
    "customer" := [("", CustomerColumn)],
    "customer_name" := [("", NameColumn)],
    "customer_birthday" := [("", BirthdayColumn)],
    "status" := [("", StatusColumn)],
    "label" := [("", LabelColumn)]]

  function Tests(): Generator {
    Generator(TestFields, map[], TestLiteral)
  }

  function Root(logical: Logical, fields: seq<FieldValues>, groups: seq<ValuesGroup>): SearchCondition {
    SearchCondition(ValuesGroup(logical, fields, groups), None)
  }

  function Simple(field: string, values: seq<Value>): FieldValues {
    FieldValues(field, EmptyBag.(simple := values))
  }

  /** A generator with the test connection and no conversions. */
  ghost predicate Plain(gen: Generator) {
    gen == Generator(gen.fields, map[], TestLiteral)
  }

  /** The field is registered with exactly one unindexed column. */
  ghost predicate Maps(gen: Generator, field: string, column: Column) {
    field in gen.fields && gen.fields[field] == [("", column)]
  }

  lemma TestsAreTests()
    ensures Plain(Tests())
    ensures Maps(Tests(), "customer", CustomerColumn)
    ensures Maps(Tests(), "customer_name", NameColumn)
    ensures Maps(Tests(), "customer_birthday", BirthdayColumn)
    ensures Maps(Tests(), "status", StatusColumn)
    ensures Maps(Tests(), "label", LabelColumn)
    ensures "id" !in Tests().fields
  {
  }

  // ---------------------------------------------------------------- printing helpers

  /** An implosion prints as the combination of its printed parts. */
  lemma PrintImplode(g: Glue, parts: seq<Sql>, w: Wrap)
    ensures Print(Implode(g, parts, w)) == Combine(g, Prints(parts), w)
  {
    assert PrintFrom(Implode(g, parts, w), 0) == Prints(parts);
  }

  lemma NonEmptyKeeps(ss: seq<string>)
    requires forall i :: 0 <= i < |ss| ==> ss[i] != ""
    ensures NonEmpty(ss) == ss
  {
    if |ss| > 0 {
      NonEmptyKeeps(ss[1..]);
      assert ss == [ss[0]] + ss[1..];
    }
  }

  /** A combination with a single non-empty part. */
  lemma CombineOne(g: Glue, printed: seq<string>, a: string, w: Wrap)
    requires NonEmpty(printed) == [a]
    ensures Combine(g, printed, w) == if w == WrapAlways then "(" + a + ")" else a
  {
  }

  /** A combination of two non-empty parts. */
  lemma CombineTwo(g: Glue, printed: seq<string>, a: string, b: string, w: Wrap)
    requires NonEmpty(printed) == [a, b]
    ensures Combine(g, printed, w) == if w == Bare then a + g.Text() + b else "(" + a + g.Text() + b + ")"
  {
    assert Join(g.Text(), [a, b]) == a + g.Text() + b by {
      assert [a, b][1..] == [b];
    }
  }

  /** Dropping the empty parts first changes nothing. */
  lemma CombineKept(g: Glue, printed: seq<string>, w: Wrap)
    ensures Combine(g, printed, w) == Combine(g, NonEmpty(printed), w)
  {
    NonEmptyKeeps(NonEmpty(printed));
  }

  lemma Assoc(a: string, b: string, c: string)
    ensures a + (b + c) == a + b + c
  {
  }

  lemma JoinThree(glue: string, a: string, b: string, c: string)
    ensures Join(glue, [a, b, c]) == a + glue + b + glue + c
  {
    assert [a, b, c][1..] == [b, c];
    assert Join(glue, [b, c]) == b + glue + c by {
      assert [b, c][1..] == [c];
    }
    Assoc(a + glue, b + glue, c);
    Assoc(a + glue, b, glue);
  }

  lemma JoinFour(glue: string, a: string, b: string, c: string, d: string)
    ensures Join(glue, [a, b, c, d]) == a + glue + b + glue + c + glue + d
  {
    assert [a, b, c, d][1..] == [b, c, d];
    JoinThree(glue, b, c, d);
    var x := a + glue;
    Assoc(x, b + glue + c + glue, d);
    Assoc(x, b + glue + c, glue);
    Assoc(x, b + glue, c);
    Assoc(x, b, glue);
  }

  lemma {:induction false} NonEmptyAppend(a: seq<string>, b: seq<string>)
    ensures NonEmpty(a + b) == NonEmpty(a) + NonEmpty(b)
  {
    if |a| > 0 {
      assert (a + b)[1..] == a[1..] + b;
      NonEmptyAppend(a[1..], b);
    } else {
      assert a + b == b;
    }
  }

  /** A combination of parts none of which is empty. */
  lemma CombineAll(g: Glue, ss: seq<string>, w: Wrap)
    requires |ss| > 1 && forall i :: 0 <= i < |ss| ==> ss[i] != ""
    ensures Combine(g, ss, w) == if w == Bare then Join(g.Text(), ss) else "(" + Join(g.Text(), ss) + ")"
  {
    NonEmptyKeeps(ss);
  }

  // ---------------------------------------------------------------- structure helpers

  /** Every field of `g` from `from` on is registered and renders, to the trees given. */
  lemma {:induction false} AllFields(gen: Generator, g: ValuesGroup, sqls: seq<Sql>, from: nat)
    requires from <= |g.fields| == |sqls|
    requires forall i :: from <= i < |g.fields| ==> g.fields[i].name in gen.fields && FieldSql(gen, g.fields[i]) == Ok(sqls[i])
    ensures FieldsSql(gen, g, from) == Ok(sqls[from..])
    decreases |g.fields| - from
  {
    if from < |g.fields| {
      AllFields(gen, g, sqls, from + 1);
      assert g.fields[from].name in gen.fields && FieldSql(gen, g.fields[from]) == Ok(sqls[from]);
      assert sqls[from..] == [sqls[from]] + sqls[from + 1..];
    }
  }

  /** Every subgroup of `g` from `from` on renders, to the trees given. */
  lemma {:induction false} AllSubgroups(gen: Generator, g: ValuesGroup, sqls: seq<Sql>, from: nat)
    requires from <= |g.groups| == |sqls|
    requires forall i :: from <= i < |g.groups| ==> GroupSql(gen, g.groups[i]) == Ok(sqls[i])
    ensures SubgroupsSql(gen, g, from) == Ok(sqls[from..])
    decreases |g.groups| - from
  {
    if from < |g.groups| {
      AllSubgroups(gen, g, sqls, from + 1);
      assert GroupSql(gen, g.groups[from]) == Ok(sqls[from]);
      assert SubgroupsSql(gen, g, from + 1) == Ok(sqls[from + 1..]);
      assert SubgroupsSql(gen, g, from) == Ok([sqls[from]] + sqls[from + 1..]);
      assert sqls[from..] == [sqls[from]] + sqls[from + 1..];
    } else {
      assert sqls[from..] == [];
    }
  }

  /**
    A group whose fields are all registered prints as its fields' texts joined
    by its logical and wrapped, AND-ed to its wrapped OR-joined subgroups.
  */
  lemma GroupText(gen: Generator, g: ValuesGroup, fields: seq<Sql>, groups: seq<Sql>)
    requires |fields| == |g.fields| && |groups| == |g.groups|
    requires forall i :: 0 <= i < |g.fields| ==> g.fields[i].name in gen.fields && FieldSql(gen, g.fields[i]) == Ok(fields[i])
    requires forall i :: 0 <= i < |g.groups| ==> GroupSql(gen, g.groups[i]) == Ok(groups[i])
    ensures GroupSql(gen, g).Ok?
    ensures Print(GroupSql(gen, g).value)
            == Combine(AndGlue, [Combine(LogicalGlue(g.logical), Prints(fields), WrapAlways), Combine(OrGlue, Prints(groups), WrapAlways)], WrapMany)
  {
    AllFields(gen, g, fields, 0);
    AllSubgroups(gen, g, groups, 0);
    assert fields[0..] == fields && groups[0..] == groups;
    var a := Implode(LogicalGlue(g.logical), fields, WrapAlways);
    var b := Implode(OrGlue, groups, WrapAlways);
    PrintImplode(LogicalGlue(g.logical), fields, WrapAlways);
    PrintImplode(OrGlue, groups, WrapAlways);
    PrintImplode(AndGlue, [a, b], WrapMany);
    assert Prints([a, b]) == [Print(a), Print(b)];
  }

  /** Every column of a field from `from` on renders, to the trees given. */
  lemma {:induction false} AllColumns(gen: Generator, f: FieldValues, columns: Columns, sqls: seq<Sql>, from: nat)
    requires from <= |columns| == |sqls|
    requires forall i :: from <= i < |columns| ==> FieldColumnSql(gen, f, columns[i].1) == Ok(sqls[i])
    ensures ColumnsSql(gen, f, columns, from) == Ok(sqls[from..])
    decreases |columns| - from
  {
    if from < |columns| {
      AllColumns(gen, f, columns, sqls, from + 1);
      assert FieldColumnSql(gen, f, columns[from].1) == Ok(sqls[from]);
      assert sqls[from..] == [sqls[from]] + sqls[from + 1..];
    }
  }

  /** A registered field prints as its columns' texts OR-joined, always wrapped. */
  lemma FieldText(gen: Generator, f: FieldValues, sqls: seq<Sql>)
    requires f.name in gen.fields && |sqls| == |gen.fields[f.name]|
    requires forall i :: 0 <= i < |sqls| ==> FieldColumnSql(gen, f, gen.fields[f.name][i].1) == Ok(sqls[i])
    ensures FieldSql(gen, f).Ok?
    ensures Print(FieldSql(gen, f).value) == Combine(OrGlue, [Combine(OrGlue, Prints(sqls), WrapMany)], WrapAlways)
  {
    AllColumns(gen, f, gen.fields[f.name], sqls, 0);
    assert sqls[0..] == sqls;
    PrintImplode(OrGlue, sqls, WrapMany);
    var inner := Implode(OrGlue, sqls, WrapMany);
    PrintImplode(OrGlue, [inner], WrapAlways);
    assert Prints([inner]) == [Print(inner)];
  }

  /** A field mapped to one column prints as that column's text in parentheses. */
  lemma OneColumnField(gen: Generator, f: FieldValues, column: Column, sql: Sql)
    requires Maps(gen, f.name, column)
    requires FieldColumnSql(gen, f, column) == Ok(sql)
    requires Print(sql) != ""
    ensures FieldSql(gen, f).Ok?
    ensures Print(FieldSql(gen, f).value) == "(" + Print(sql) + ")"
  {
    FieldText(gen, f, [sql]);
    assert Prints([sql]) == [Print(sql)];
    CombineOne(OrGlue, [Print(sql)], Print(sql), WrapMany);
    CombineOne(OrGlue, [Print(sql)], Print(sql), WrapAlways);
  }

  /** A condition prints as its root, or its primary condition AND-ed before it, behind the prefix. */
  lemma WhereText(gen: Generator, c: SearchCondition, prefix: string, primaryText: string, rootText: string)
    requires GroupSql(gen, c.root).Ok? && Print(GroupSql(gen, c.root).value) == rootText
    requires c.primary.Some? ==> GroupSql(gen, c.primary.value).Ok? && Print(GroupSql(gen, c.primary.value).value) == primaryText
    ensures var body := if c.primary.None? then rootText else Combine(AndGlue, [primaryText, rootText], Bare);
            WhereClause(gen, c, prefix) == Ok(if body == "" then "" else prefix + body)
  {
    if c.primary.Some? {
      var p := GroupSql(gen, c.primary.value).value;
      var r := GroupSql(gen, c.root).value;
      PrintImplode(AndGlue, [p, r], Bare);
      assert Prints([p, r]) == [primaryText, rootText];
    }
  }

  /** A condition without a primary condition whose root prints as `text`. */
  lemma RootWhere(gen: Generator, c: SearchCondition, prefix: string, text: string)
    requires c.primary.None? && GroupSql(gen, c.root).Ok? && Print(GroupSql(gen, c.root).value) == text
    ensures WhereClause(gen, c, prefix) == Ok(if text == "" then "" else prefix + text)
    ensures prefix == "" ==> WhereClause(gen, c, prefix) == Ok(text)
  {
    WhereText(gen, c, prefix, "", text);
    assert "" + text == text;
  }

  /** A condition with a primary condition: the two printed groups AND-ed behind the prefix. */
  lemma PrimaryWhere(gen: Generator, c: SearchCondition, prefix: string, primaryText: string, rootText: string)
    requires c.primary.Some? && GroupSql(gen, c.primary.value).Ok? && Print(GroupSql(gen, c.primary.value).value) == primaryText
    requires GroupSql(gen, c.root).Ok? && Print(GroupSql(gen, c.root).value) == rootText
    ensures primaryText != "" && rootText != "" ==> WhereClause(gen, c, prefix) == Ok(prefix + primaryText + " AND " + rootText)
    ensures primaryText != "" && rootText == "" ==> WhereClause(gen, c, prefix) == Ok(prefix + primaryText)
  {
    WhereText(gen, c, prefix, primaryText, rootText);
    if primaryText != "" && rootText != "" {
      CombineTwo(AndGlue, [primaryText, rootText], primaryText, rootText, Bare);
      assert prefix + (primaryText + " AND " + rootText) == prefix + primaryText + " AND " + rootText;
    } else if primaryText != "" {
      CombineOne(AndGlue, [primaryText, rootText], primaryText, Bare);
    }
  }

  // ---------------------------------------------------------------- column helpers

  /** A bag without compares contributes nothing for them. */
  lemma NoCompares(t: Target)
    ensures Print(Compares(t, [])) == ""
  {
    assert Ordering([]) == [];
    assert CompareList(t, []) == [];
    PrintImplode(AndGlue, [], WrapMany);
  }

  /** A column prints as its including block AND-ed to its excluding block, followed by its `<>` conjuncts. */
  lemma ColumnParts(t: Target, bag: ValuesBag, inc: seq<Sql>, exc: seq<Sql>)
    requires Patterns(t, bag.patterns, false).Ok? && Patterns(t, bag.patterns, true).Ok?
    requires inc == SimpleValues(t, bag.simple, false) + Ranges(t, bag.ranges, false) + [Compares(t, bag.compares)]
                    + Patterns(t, bag.patterns, false).value
    requires exc == SimpleValues(t, bag.excludedSimple, true) + Ranges(t, bag.excludedRanges, true) + Patterns(t, bag.patterns, true).value
    ensures ColumnSql(t, bag).Ok?
    ensures Print(ColumnSql(t, bag).value)
            == Combine(AndGlue, [Combine(OrGlue, Prints(inc), WrapMany), Combine(AndGlue, Prints(exc), WrapMany)] + Prints(NotEqualParts(t, bag.compares)), Bare)
  {
    PrintImplode(OrGlue, inc, WrapMany);
    PrintImplode(AndGlue, exc, WrapMany);
    var a := Implode(OrGlue, inc, WrapMany);
    var b := Implode(AndGlue, exc, WrapMany);
    var ne := NotEqualParts(t, bag.compares);
    PrintImplode(AndGlue, [a, b] + ne, Bare);
    assert Prints([a, b] + ne) == [Print(a), Print(b)] + Prints(ne);
  }

  /** A column without `<>` compares prints as its including block AND-ed to its excluding block. */
  lemma ColumnBlocks(t: Target, bag: ValuesBag, inc: seq<Sql>, exc: seq<Sql>)
    requires Inequalities(bag.compares) == []
    requires Patterns(t, bag.patterns, false).Ok? && Patterns(t, bag.patterns, true).Ok?
    requires inc == SimpleValues(t, bag.simple, false) + Ranges(t, bag.ranges, false) + [Compares(t, bag.compares)]
                    + Patterns(t, bag.patterns, false).value
    requires exc == SimpleValues(t, bag.excludedSimple, true) + Ranges(t, bag.excludedRanges, true) + Patterns(t, bag.patterns, true).value
    ensures ColumnSql(t, bag).Ok?
    ensures Print(ColumnSql(t, bag).value) == Combine(AndGlue, [Combine(OrGlue, Prints(inc), WrapMany), Combine(AndGlue, Prints(exc), WrapMany)], Bare)
  {
    ColumnParts(t, bag, inc, exc);
    assert NotEqualParts(t, bag.compares) == [];
    var x := Combine(OrGlue, Prints(inc), WrapMany);
    var y := Combine(AndGlue, Prints(exc), WrapMany);
    assert [x, y] + Prints([]) == [x, y];
  }

  /** A column with including values only (no patterns): its including block. */
  lemma IncludingColumn(t: Target, bag: ValuesBag)
    requires bag.patterns == [] && bag.excludedSimple == [] && bag.excludedRanges == [] && Inequalities(bag.compares) == []
    ensures ColumnSql(t, bag).Ok?
    ensures Print(ColumnSql(t, bag).value)
            == Combine(OrGlue, Prints(SimpleValues(t, bag.simple, false) + Ranges(t, bag.ranges, false) + [Compares(t, bag.compares)]), WrapMany)
  {
    var inc := SimpleValues(t, bag.simple, false) + Ranges(t, bag.ranges, false) + [Compares(t, bag.compares)];
    assert Patterns(t, [], false) == Ok([]) && Patterns(t, [], true) == Ok([]);
    assert inc + [] == inc;
    assert SimpleValues(t, [], true) + Ranges(t, [], true) + [] == [];
    ColumnBlocks(t, bag, inc, []);
    var x := Combine(OrGlue, Prints(inc), WrapMany);
    assert Combine(AndGlue, Prints([]), WrapMany) == "";
    if x == "" {
      assert NonEmpty([x, ""]) == [];
    } else {
      CombineOne(AndGlue, [x, ""], x, Bare);
    }
  }

  /** A column with excluding values only (no patterns): its excluding block. */
  lemma ExcludingColumn(t: Target, bag: ValuesBag)
    requires bag.patterns == [] && bag.simple == [] && bag.ranges == [] && bag.compares == []
    ensures ColumnSql(t, bag).Ok?
    ensures Print(ColumnSql(t, bag).value)
            == Combine(AndGlue, Prints(SimpleValues(t, bag.excludedSimple, true) + Ranges(t, bag.excludedRanges, true)), WrapMany)
  {
    var exc := SimpleValues(t, bag.excludedSimple, true) + Ranges(t, bag.excludedRanges, true);
    assert Patterns(t, [], false) == Ok([]) && Patterns(t, [], true) == Ok([]);
    assert exc + [] == exc;
    NoCompares(t);
    assert Inequalities([]) == [];
    assert [] + [] + [Compares(t, [])] + [] == [Compares(t, [])];
    ColumnBlocks(t, bag, [Compares(t, [])], exc);
    assert Combine(OrGlue, Prints([Compares(t, [])]), WrapMany) == "" by {
      assert Prints([Compares(t, [])]) == [""];
    }
    var y := Combine(AndGlue, Prints(exc), WrapMany);
    if y == "" {
      assert NonEmpty(["", y]) == [];
    } else {
      CombineOne(AndGlue, ["", y], y, Bare);
    }
  }

  /** A range prints as its two bounds joined, in parentheses. */
  lemma RangeText(t: Target, r: Range, excluded: bool)
    ensures Print(RangeSql(t, r, excluded))
            == "(" + Print(Bound(t, r.lower, if excluded then ExcludedLowerOp(r.lowerInclusive) else LowerOp(r.lowerInclusive)))
               + (if excluded then " OR " else " AND ")
               + Print(Bound(t, r.upper, if excluded then ExcludedUpperOp(r.upperInclusive) else UpperOp(r.upperInclusive))) + ")"
  {
    var g := if excluded then OrGlue else AndGlue;
    var a := Bound(t, r.lower, if excluded then ExcludedLowerOp(r.lowerInclusive) else LowerOp(r.lowerInclusive));
    var b := Bound(t, r.upper, if excluded then ExcludedUpperOp(r.upperInclusive) else UpperOp(r.upperInclusive));
    PrintImplode(g, [a, b], WrapAlways);
    assert Prints([a, b]) == [Print(a), Print(b)];
    CombineTwo(g, [Print(a), Print(b)], Print(a), Print(b), WrapAlways);
  }

  /** Printed ranges are never empty. */
  lemma RangesPrinted(t: Target, rs: seq<Range>, excluded: bool)
    ensures forall i :: 0 <= i < |rs| ==> Prints(Ranges(t, rs, excluded))[i] != ""
  {
    forall i | 0 <= i < |rs|
      ensures Prints(Ranges(t, rs, excluded))[i] != ""
    {
      RangeText(t, rs[i], excluded);
    }
  }

  /** A column holding only ranges: the ranges OR-joined, in parentheses when several. */
  lemma RangesColumn(t: Target, bag: ValuesBag)
    requires bag == EmptyBag.(ranges := bag.ranges) && |bag.ranges| > 1
    ensures ColumnSql(t, bag).Ok?
    ensures Print(ColumnSql(t, bag).value) == "(" + Join(" OR ", Prints(Ranges(t, bag.ranges, false))) + ")"
  {
    var printed := Prints(Ranges(t, bag.ranges, false));
    IncludingColumn(t, bag);
    assert Print(ColumnSql(t, bag).value) == Combine(OrGlue, printed + [""], WrapMany) by {
      NoCompares(t);
      assert SimpleValues(t, [], false) + Ranges(t, bag.ranges, false) + [Compares(t, [])] == Ranges(t, bag.ranges, false) + [Compares(t, [])];
      assert Prints(Ranges(t, bag.ranges, false) + [Compares(t, [])]) == printed + [""];
    }
    assert NonEmpty(printed + [""]) == NonEmpty(printed) by {
      NonEmptyAppend(printed, [""]);
      assert NonEmpty([""]) == [];
      assert NonEmpty(printed) + [] == NonEmpty(printed);
    }
    CombineKept(OrGlue, printed + [""], WrapMany);
    CombineKept(OrGlue, printed, WrapMany);
    RangesPrinted(t, bag.ranges, false);
    CombineAll(OrGlue, printed, WrapMany);
  }

  /** A column holding only excluded ranges: the ranges AND-joined, in parentheses when several. */
  lemma ExcludedRangesColumn(t: Target, bag: ValuesBag)
    requires bag == EmptyBag.(excludedRanges := bag.excludedRanges) && |bag.excludedRanges| > 1
    ensures ColumnSql(t, bag).Ok?
    ensures Print(ColumnSql(t, bag).value) == "(" + Join(" AND ", Prints(Ranges(t, bag.excludedRanges, true))) + ")"
  {
    var printed := Prints(Ranges(t, bag.excludedRanges, true));
    ExcludingColumn(t, bag);
    assert SimpleValues(t, [], true) + Ranges(t, bag.excludedRanges, true) == Ranges(t, bag.excludedRanges, true);
    RangesPrinted(t, bag.excludedRanges, true);
    CombineAll(AndGlue, printed, WrapMany);
  }

  /** A registered field mapped to one column whose text is `text`, alone in the root: the clause is the text in two pairs of parentheses. */
  lemma WhereOneColumn(gen: Generator, c: SearchCondition, column: Column, sql: Sql)
    requires c.primary.None? && |c.root.fields| == 1 && c.root.groups == []
    requires Maps(gen, c.root.fields[0].name, column)
    requires FieldColumnSql(gen, c.root.fields[0], column) == Ok(sql) && Print(sql) != ""
    ensures WhereClause(gen, c) == Ok("((" + Print(sql) + "))")
  {
    var f := c.root.fields[0];
    OneColumnField(gen, f, column, sql);
    OneFieldGroup(gen, c.root, FieldSql(gen, f).value);
    assert "(" + ("(" + Print(sql) + ")") + ")" == "((" + Print(sql) + "))";
    RootWhere(gen, c, "", "((" + Print(sql) + "))");
  }

  /** A column of four ranges (or four excluded ranges) whose printed texts are given. */
  lemma FourRangesColumn(t: Target, bag: ValuesBag, excluded: bool, a: string, b: string, x: string, y: string)
    requires if excluded then bag == EmptyBag.(excludedRanges := bag.excludedRanges) else bag == EmptyBag.(ranges := bag.ranges)
    requires var rs := if excluded then bag.excludedRanges else bag.ranges;
             |rs| == 4 && Print(RangeSql(t, rs[0], excluded)) == a && Print(RangeSql(t, rs[1], excluded)) == b
             && Print(RangeSql(t, rs[2], excluded)) == x && Print(RangeSql(t, rs[3], excluded)) == y
    ensures ColumnSql(t, bag).Ok?
    ensures var g := if excluded then " AND " else " OR ";
            Print(ColumnSql(t, bag).value) == "(" + (a + g + b + g + x + g + y) + ")"
  {
    var g := if excluded then " AND " else " OR ";
    FourPrinted(t, if excluded then bag.excludedRanges else bag.ranges, excluded, a, b, x, y);
    if excluded {
      ExcludedRangesColumn(t, bag);
    } else {
      RangesColumn(t, bag);
    }
    JoinFour(g, a, b, x, y);
  }

  lemma FourPrinted(t: Target, rs: seq<Range>, excluded: bool, a: string, b: string, x: string, y: string)
    requires |rs| == 4 && Print(RangeSql(t, rs[0], excluded)) == a && Print(RangeSql(t, rs[1], excluded)) == b
             && Print(RangeSql(t, rs[2], excluded)) == x && Print(RangeSql(t, rs[3], excluded)) == y
    ensures Prints(Ranges(t, rs, excluded)) == [a, b, x, y]
  {
  }

  /** A root of one field of four (excluded) ranges on one unconverted column. */
  lemma WhereFourRanges(gen: Generator, c: SearchCondition, column: Column, excluded: bool, a: string, b: string, x: string, y: string)
    requires Plain(gen) && c.primary.None? && |c.root.fields| == 1 && c.root.groups == []
    requires Maps(gen, c.root.fields[0].name, column)
    requires var bag := c.root.fields[0].bag;
             if excluded then bag == EmptyBag.(excludedRanges := bag.excludedRanges) else bag == EmptyBag.(ranges := bag.ranges)
    requires var bag := c.root.fields[0].bag;
             var rs := if excluded then bag.excludedRanges else bag.ranges;
             var t := Target(column, NoConversion, TestLiteral);
             |rs| == 4 && Print(RangeSql(t, rs[0], excluded)) == a && Print(RangeSql(t, rs[1], excluded)) == b
             && Print(RangeSql(t, rs[2], excluded)) == x && Print(RangeSql(t, rs[3], excluded)) == y
    ensures var g := if excluded then " AND " else " OR ";
            WhereClause(gen, c) == Ok("(((" + (a + g + b + g + x + g + y) + ")))")
  {
    var f := c.root.fields[0];
    var g := if excluded then " AND " else " OR ";
    PlainColumn(gen, f, column);
    FourRangesColumn(Target(column, NoConversion, TestLiteral), f.bag, excluded, a, b, x, y);
    var sql := FieldColumnSql(gen, f, column).value;
    WhereOneColumn(gen, c, column, sql);
    ThreeParens(a + g + b + g + x + g + y);
  }

  lemma ThreeParens(s: string)
    ensures "((" + ("(" + s + ")") + "))" == "(((" + s + ")))"
  {
  }

  /** A range whose two bounds print as given. */
  lemma RangeBounds(t: Target, r: Range, excluded: bool, lower: string, upper: string)
    requires Print(Bound(t, r.lower, if excluded then ExcludedLowerOp(r.lowerInclusive) else LowerOp(r.lowerInclusive))) == lower
    requires Print(Bound(t, r.upper, if excluded then ExcludedUpperOp(r.upperInclusive) else UpperOp(r.upperInclusive))) == upper
    ensures Print(RangeSql(t, r, excluded)) == "(" + lower + (if excluded then " OR " else " AND ") + upper + ")"
  {
    RangeText(t, r, excluded);
  }

  /** Unconverted simple values print as one `IN` list. */
  lemma InList(t: Target, values: seq<Value>, texts: seq<string>, negated: bool)
    requires !t.PerValue() && |values| > 0
    requires ValueList(t, values) == texts
    ensures SimpleValues(t, values, negated) == [Membership(t.ColumnSql(None), negated, texts)]
  {
  }

  /** A column holding only simple and excluded simple values. */
  lemma {:induction false} SimpleColumn(t: Target, bag: ValuesBag, inc: seq<Sql>, exc: seq<Sql>)
    requires bag == EmptyBag.(simple := bag.simple, excludedSimple := bag.excludedSimple)
    requires SimpleValues(t, bag.simple, false) == inc && SimpleValues(t, bag.excludedSimple, true) == exc
    ensures ColumnSql(t, bag).Ok?
    ensures Print(ColumnSql(t, bag).value) == Combine(AndGlue, [Combine(OrGlue, Prints(inc) + [""], WrapMany), Combine(AndGlue, Prints(exc), WrapMany)], Bare)
  {
    NoCompares(t);
    assert Inequalities([]) == [];
    assert Patterns(t, [], false) == Ok([]) && Patterns(t, [], true) == Ok([]);
    assert Ranges(t, [], false) == [] && Ranges(t, [], true) == [];
    var incAll := inc + [] + [Compares(t, [])] + [];
    assert incAll == inc + [Compares(t, [])];
    assert Prints(incAll) == Prints(inc) + [""];
    assert exc + [] + [] == exc;
    ColumnBlocks(t, bag, incAll, exc);
  }

  /** A group of one rendered field and no subgroups prints as that field in parentheses. */
  lemma {:induction false} OneFieldGroup(gen: Generator, g: ValuesGroup, sql: Sql)
    requires |g.fields| == 1 && g.groups == []
    requires g.fields[0].name in gen.fields && FieldSql(gen, g.fields[0]) == Ok(sql)
    requires Print(sql) != ""
    ensures GroupSql(gen, g).Ok?
    ensures Print(GroupSql(gen, g).value) == "(" + Print(sql) + ")"
  {
    GroupText(gen, g, [sql], []);
    assert Prints([sql]) == [Print(sql)];
    OnePartText(LogicalGlue(g.logical), Print(sql));
  }

  lemma {:induction false} OnePartText(glue: Glue, text: string)
    requires text != ""
    ensures Combine(AndGlue, [Combine(glue, [text], WrapAlways), Combine(OrGlue, Prints([]), WrapAlways)], WrapMany)
            == "(" + text + ")"
  {
    CombineOne(glue, [text], text, WrapAlways);
    assert Combine(OrGlue, Prints([]), WrapAlways) == "";
    CombineOne(AndGlue, ["(" + text + ")", ""], "(" + text + ")", WrapMany);
  }

  /** A group of two rendered fields and no subgroups: the two joined by the group's logical, in parentheses. */
  lemma TwoFieldGroup(gen: Generator, g: ValuesGroup, a: Sql, b: Sql)
    requires |g.fields| == 2 && g.groups == []
    requires g.fields[0].name in gen.fields && FieldSql(gen, g.fields[0]) == Ok(a)
    requires g.fields[1].name in gen.fields && FieldSql(gen, g.fields[1]) == Ok(b)
    requires Print(a) != "" && Print(b) != ""
    ensures GroupSql(gen, g).Ok?
    ensures Print(GroupSql(gen, g).value) == "(" + Print(a) + LogicalGlue(g.logical).Text() + Print(b) + ")"
  {
    TwoFieldParts(gen, g, a, b);
    assert Prints([a, b]) == [Print(a), Print(b)];
    TwoPartsText(LogicalGlue(g.logical), Print(a), Print(b));
  }

  lemma TwoFieldParts(gen: Generator, g: ValuesGroup, a: Sql, b: Sql)
    requires |g.fields| == 2 && g.groups == []
    requires g.fields[0].name in gen.fields && FieldSql(gen, g.fields[0]) == Ok(a)
    requires g.fields[1].name in gen.fields && FieldSql(gen, g.fields[1]) == Ok(b)
    ensures GroupSql(gen, g).Ok?
    ensures Print(GroupSql(gen, g).value)
            == Combine(AndGlue, [Combine(LogicalGlue(g.logical), Prints([a, b]), WrapAlways), Combine(OrGlue, Prints([]), WrapAlways)], WrapMany)
  {
    forall i | 0 <= i < |g.fields|
      ensures g.fields[i].name in gen.fields && FieldSql(gen, g.fields[i]) == Ok([a, b][i])
    {
      if i == 1 {
        assert [a, b][i] == b;
      }
    }
    GroupText(gen, g, [a, b], []);
  }

  lemma TwoPartsText(glue: Glue, a: string, b: string)
    requires a != "" && b != ""
    ensures Combine(AndGlue, [Combine(glue, [a, b], WrapAlways), Combine(OrGlue, Prints([]), WrapAlways)], WrapMany)
            == "(" + a + glue.Text() + b + ")"
  {
    var text := "(" + a + glue.Text() + b + ")";
    CombineTwo(glue, [a, b], a, b, WrapAlways);
    assert Combine(OrGlue, Prints([]), WrapAlways) == "";
    CombineOne(AndGlue, [text, ""], text, WrapMany);
  }

  /** The registered fields of a group where none is registered render to nothing. */
  lemma {:induction false} NoneRegistered(gen: Generator, g: ValuesGroup, from: nat)
    requires forall i :: from <= i < |g.fields| ==> g.fields[i].name !in gen.fields
    ensures FieldsSql(gen, g, from) == Ok([])
    decreases |g.fields| - from
  {
    if from < |g.fields| {
      NoneRegistered(gen, g, from + 1);
    }
  }

  /** A group none of whose fields is registered prints as its subgroups OR-joined in parentheses. */
  lemma SubgroupsOnly(gen: Generator, g: ValuesGroup, groups: seq<Sql>)
    requires forall i :: 0 <= i < |g.fields| ==> g.fields[i].name !in gen.fields
    requires |groups| == |g.groups|
    requires forall i :: 0 <= i < |g.groups| ==> GroupSql(gen, g.groups[i]) == Ok(groups[i])
    ensures GroupSql(gen, g).Ok?
    ensures Print(GroupSql(gen, g).value) == Combine(OrGlue, Prints(groups), WrapAlways)
  {
    NoneRegistered(gen, g, 0);
    AllSubgroups(gen, g, groups, 0);
    assert groups[0..] == groups;
    var a := Implode(LogicalGlue(g.logical), [], WrapAlways);
    var b := Implode(OrGlue, groups, WrapAlways);
    PrintImplode(LogicalGlue(g.logical), [], WrapAlways);
    assert Print(a) == "";
    PrintImplode(OrGlue, groups, WrapAlways);
    PrintImplode(AndGlue, [a, b], WrapMany);
    assert Prints([a, b]) == ["", Print(b)];
    if Print(b) == "" {
      assert NonEmpty(["", Print(b)]) == [];
    } else {
      CombineOne(AndGlue, ["", Print(b)], Print(b), WrapMany);
    }
  }

  /** A group of one rendered field and one rendered subgroup: both wrapped, AND-ed, in parentheses. */
  lemma FieldAndSubgroup(gen: Generator, g: ValuesGroup, a: Sql, b: Sql)
    requires |g.fields| == 1 && |g.groups| == 1
    requires g.fields[0].name in gen.fields && FieldSql(gen, g.fields[0]) == Ok(a)
    requires GroupSql(gen, g.groups[0]) == Ok(b)
    requires Print(a) != "" && Print(b) != ""
    ensures GroupSql(gen, g).Ok?
    ensures Print(GroupSql(gen, g).value) == "(" + ("(" + Print(a) + ")") + " AND " + ("(" + Print(b) + ")") + ")"
  {
    forall i | 0 <= i < |g.fields|
      ensures g.fields[i].name in gen.fields && FieldSql(gen, g.fields[i]) == Ok([a][i])
    {
      assert i == 0;
    }
    forall i | 0 <= i < |g.groups|
      ensures GroupSql(gen, g.groups[i]) == Ok([b][i])
    {
      assert i == 0;
    }
    GroupText(gen, g, [a], [b]);
    assert Prints([a]) == [Print(a)];
    assert Prints([b]) == [Print(b)];
    FieldAndSubgroupText(LogicalGlue(g.logical), Print(a), Print(b));
  }

  lemma FieldAndSubgroupText(glue: Glue, a: string, b: string)
    requires a != "" && b != ""
    ensures Combine(AndGlue, [Combine(glue, [a], WrapAlways), Combine(OrGlue, [b], WrapAlways)], WrapMany)
            == "(" + ("(" + a + ")") + " AND " + ("(" + b + ")") + ")"
  {
    var x := "(" + a + ")";
    var y := "(" + b + ")";
    CombineOne(glue, [a], a, WrapAlways);
    CombineOne(OrGlue, [b], b, WrapAlways);
    CombineTwo(AndGlue, [x, y], x, y, WrapMany);
  }

  /** Without a conversion, a field's column renders with the test connection alone. */
  lemma PlainColumn(gen: Generator, f: FieldValues, column: Column)
    requires Plain(gen)
    ensures FieldColumnSql(gen, f, column) == ColumnSql(Target(column, NoConversion, TestLiteral), f.bag)
  {
  }

  /** A column holding only including values prints as their `IN` list. */
  lemma InColumn(t: Target, values: seq<Value>)
    requires !t.PerValue() && |values| > 0
    ensures ColumnSql(t, EmptyBag.(simple := values)).Ok?
    ensures Print(ColumnSql(t, EmptyBag.(simple := values)).value) == Print(Membership(t.ColumnSql(None), false, ValueList(t, values)))
  {
    var m := Membership(t.ColumnSql(None), false, ValueList(t, values));
    InList(t, values, ValueList(t, values), false);
    SimpleColumn(t, EmptyBag.(simple := values), [m], []);
    assert Prints([m]) + [""] == [Print(m), ""];
    CombineOne(OrGlue, [Print(m), ""], Print(m), WrapMany);
    assert Combine(AndGlue, Prints([]), WrapMany) == "";
    CombineOne(AndGlue, [Print(m), ""], Print(m), Bare);
  }

  /** A column holding only excluding values prints as their `NOT IN` list. */
  lemma NotInColumn(t: Target, values: seq<Value>)
    requires !t.PerValue() && |values| > 0
    ensures ColumnSql(t, EmptyBag.(excludedSimple := values)).Ok?
    ensures Print(ColumnSql(t, EmptyBag.(excludedSimple := values)).value) == Print(Membership(t.ColumnSql(None), true, ValueList(t, values)))
  {
    var m := Membership(t.ColumnSql(None), true, ValueList(t, values));
    InList(t, values, ValueList(t, values), true);
    SimpleColumn(t, EmptyBag.(excludedSimple := values), [], [m]);
    assert Prints([]) + [""] == [""];
    assert Combine(OrGlue, [""], WrapMany) == "";
    assert Prints([m]) == [Print(m)];
    CombineOne(AndGlue, [Print(m)], Print(m), WrapMany);
    CombineOne(AndGlue, ["", Print(m)], Print(m), Bare);
  }

  /** A column with both kinds of simple values: the `IN` list AND-ed to the `NOT IN` list. */
  lemma InNotInColumn(t: Target, included: seq<Value>, excluded: seq<Value>)
    requires !t.PerValue() && |included| > 0 && |excluded| > 0
    ensures ColumnSql(t, EmptyBag.(simple := included, excludedSimple := excluded)).Ok?
    ensures Print(ColumnSql(t, EmptyBag.(simple := included, excludedSimple := excluded)).value)
            == Print(Membership(t.ColumnSql(None), false, ValueList(t, included))) + " AND "
               + Print(Membership(t.ColumnSql(None), true, ValueList(t, excluded)))
  {
    var a := Membership(t.ColumnSql(None), false, ValueList(t, included));
    var b := Membership(t.ColumnSql(None), true, ValueList(t, excluded));
    InList(t, included, ValueList(t, included), false);
    InList(t, excluded, ValueList(t, excluded), true);
    SimpleColumn(t, EmptyBag.(simple := included, excludedSimple := excluded), [a], [b]);
    assert Prints([a]) + [""] == [Print(a), ""];
    CombineOne(OrGlue, [Print(a), ""], Print(a), WrapMany);
    assert Prints([b]) == [Print(b)];
    CombineOne(AndGlue, [Print(b)], Print(b), WrapMany);
    CombineTwo(AndGlue, [Print(a), Print(b)], Print(a), Print(b), Bare);
  }

  // ---------------------------------------------------------------- simple values

  /** A field of including values only, mapped to one column, prints as its `IN` list in parentheses. */
  lemma InField(gen: Generator, f: FieldValues, column: Column, texts: seq<string>)
    requires Plain(gen) && Maps(gen, f.name, column)
    requires f.bag == EmptyBag.(simple := f.bag.simple) && |f.bag.simple| > 0
    requires ValueList(Target(column, NoConversion, TestLiteral), f.bag.simple) == texts
    ensures FieldSql(gen, f).Ok?
    ensures Print(FieldSql(gen, f).value) == "(" + Print(Membership(column.Reference(), false, texts)) + ")"
  {
    var t := Target(column, NoConversion, TestLiteral);
    PlainColumn(gen, f, column);
    InColumn(t, f.bag.simple);
    OneColumnField(gen, f, column, FieldColumnSql(gen, f, column).value);
  }

  /** A field of excluding values only, mapped to one column, prints as its `NOT IN` list in parentheses. */
  lemma NotInField(gen: Generator, f: FieldValues, column: Column, texts: seq<string>)
    requires Plain(gen) && Maps(gen, f.name, column)
    requires f.bag == EmptyBag.(excludedSimple := f.bag.excludedSimple) && |f.bag.excludedSimple| > 0
    requires ValueList(Target(column, NoConversion, TestLiteral), f.bag.excludedSimple) == texts
    ensures FieldSql(gen, f).Ok?
    ensures Print(FieldSql(gen, f).value) == "(" + Print(Membership(column.Reference(), true, texts)) + ")"
  {
    var t := Target(column, NoConversion, TestLiteral);
    PlainColumn(gen, f, column);
    NotInColumn(t, f.bag.excludedSimple);
    OneColumnField(gen, f, column, FieldColumnSql(gen, f, column).value);
  }

  /** The `IN` list of two entries. */
  lemma PairText(lhs: string, negated: bool, a: string, b: string)
    ensures Print(Membership(lhs, negated, [a, b])) == lhs + (if negated then " NOT IN" else " IN") + "(" + a + ", " + b + ")"
  {
    assert Join(", ", [a, b]) == a + ", " + b by {
      assert [a, b][1..] == [b];
    }
  }

  /** The decimal digit of a number below ten. */
  function DigitText(n: nat): string
    requires n < 10
  {
    [('0' as int + n) as char]
  }

  /** Small numbers on the test connection. */
  lemma SmallNumbers(column: Column)
    ensures forall n: nat :: n < 10 ==> TestLiteral(Num(n), column.dbType) == DigitText(n)
  {
  }

  /** A field holding two small numbers, mapped to one unconverted column. */
  lemma PairField(gen: Generator, f: FieldValues, column: Column, x: nat, y: nat)
    requires Plain(gen) && Maps(gen, f.name, column)
    requires x < 10 && y < 10 && f.bag == EmptyBag.(simple := [Num(x), Num(y)])
    ensures FieldSql(gen, f).Ok?
    ensures Print(FieldSql(gen, f).value) == "(" + column.Reference() + " IN(" + DigitText(x) + ", " + DigitText(y) + "))"
  {
    SmallNumbers(column);
    assert ValueList(Target(column, NoConversion, TestLiteral), [Num(x), Num(y)]) == [DigitText(x), DigitText(y)];
    InField(gen, f, column, [DigitText(x), DigitText(y)]);
    PairText(column.Reference(), false, DigitText(x), DigitText(y));
  }

  /** A field holding one small number, mapped to one unconverted column. */
  lemma OneValueField(gen: Generator, f: FieldValues, column: Column, x: nat)
    requires Plain(gen) && Maps(gen, f.name, column)
    requires x < 10 && f.bag == EmptyBag.(simple := [Num(x)])
    ensures FieldSql(gen, f).Ok?
    ensures Print(FieldSql(gen, f).value) == "(" + column.Reference() + " IN(" + DigitText(x) + "))"
  {
    SmallNumbers(column);
    assert ValueList(Target(column, NoConversion, TestLiteral), [Num(x)]) == [DigitText(x)];
    InField(gen, f, column, [DigitText(x)]);
  }

  lemma References()
    ensures CustomerColumn.Reference() == "I.customer"
    ensures StatusColumn.Reference() == "I.status"
  {
    assert CustomerColumn.Reference() == "I" + "." + "customer";
    assert StatusColumn.Reference() == "I" + "." + "status";
  }
}
