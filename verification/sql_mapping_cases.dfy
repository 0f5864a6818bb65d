/**
  The WHERE clauses the SQL generator's unit tests expect for fields mapped
  to several columns and for column, value and strategy conversions, each
  derived from the model for every generator holding the test registry.
  The equations between assembled and literal text (the `...Text` lemmas)
  are kept as lemmas of their own so that each is a small proof obligation
  apart from the rendering proof that uses it.
*/
module SqlMappingCases {
  import opened Outcomes
  import opened Conditions
  import opened SqlText
  import opened SqlGenerator
  import opened SqlExamples
  import opened SqlRegistry
  import opened Seqs
  import Dates

  // ---------------------------------------------------------------- shared shapes

  /** A field of two columns: the two columns OR-ed inside the field's parentheses. */
  lemma {:induction false} TwoColumnField(gen: Generator, f: FieldValues, a: string, b: string)
    requires f.name in gen.fields && |gen.fields[f.name]| == 2
    requires FieldColumnSql(gen, f, gen.fields[f.name][0].1).Ok? && Print(FieldColumnSql(gen, f, gen.fields[f.name][0].1).value) == a
    requires FieldColumnSql(gen, f, gen.fields[f.name][1].1).Ok? && Print(FieldColumnSql(gen, f, gen.fields[f.name][1].1).value) == b
    requires a != "" && b != ""
    ensures FieldSql(gen, f).Ok? && Print(FieldSql(gen, f).value) == "(" + ("(" + a + " OR " + b + ")") + ")"
  {
    var columns := gen.fields[f.name];
    var s1, s2 := FieldColumnSql(gen, f, columns[0].1).value, FieldColumnSql(gen, f, columns[1].1).value;
    FieldText(gen, f, [s1, s2]);
    assert Prints([s1, s2]) == [a, b];
    NonEmptyKeeps([a, b]);
    CombineTwo(OrGlue, [a, b], a, b, WrapMany);
    var x := "(" + a + " OR " + b + ")";
    CombineOne(OrGlue, [x], x, WrapAlways);
  }

  /** A field of two columns, alone at the root: the two columns OR-ed inside the field's and the group's parentheses. */
  lemma {:induction false} TwoColumnWhere(gen: Generator, c: SearchCondition, a: string, b: string)
    requires c.primary.None? && |c.root.fields| == 1 && c.root.groups == []
    requires c.root.fields[0].name in gen.fields && |gen.fields[c.root.fields[0].name]| == 2
    requires var f, columns := c.root.fields[0], gen.fields[c.root.fields[0].name];
      && FieldColumnSql(gen, f, columns[0].1).Ok? && Print(FieldColumnSql(gen, f, columns[0].1).value) == a
      && FieldColumnSql(gen, f, columns[1].1).Ok? && Print(FieldColumnSql(gen, f, columns[1].1).value) == b
    requires a != "" && b != ""
    ensures WhereClause(gen, c) == Ok("(((" + a + " OR " + b + ")))")
  {
    var f := c.root.fields[0];
    TwoColumnField(gen, f, a, b);
    var x := "(" + a + " OR " + b + ")";
    OneFieldGroup(gen, c.root, FieldSql(gen, f).value);
    TwoColumnText(a, b);
    RootWhere(gen, c, "", "(" + ("(" + x + ")") + ")");
  }

  lemma {:induction false} TwoColumnText(a: string, b: string)
    ensures "(" + ("(" + ("(" + a + " OR " + b + ")") + ")") + ")" == "(((" + a + " OR " + b + ")))"
  {
  }

  /** A column holding two simple values written one by one: their two relations OR-ed in parentheses. */
  lemma {:induction false} PerValueColumn(t: Target, bag: ValuesBag, a: string, b: string)
    requires t.PerValue() && bag == EmptyBag.(simple := bag.simple) && |bag.simple| == 2
    requires Print(ValueRelation(t, bag.simple[0], false)) == a && Print(ValueRelation(t, bag.simple[1], false)) == b
    requires a != "" && b != ""
    ensures ColumnSql(t, bag).Ok?
    ensures Print(ColumnSql(t, bag).value) == "(" + a + " OR " + b + ")"
  {
    var inc := ValueRelations(t, bag.simple, false);
    var none: seq<Sql> := [];
    SimpleColumn(t, bag, inc, none);
    assert Prints(inc) + [""] == [a, b, ""];
    assert NonEmpty([a, b, ""]) == [a, b] by {
      NonEmptyAppend([a, b], [""]);
      NonEmptyKeeps([a, b]);
    }
    CombineTwo(OrGlue, [a, b, ""], a, b, WrapMany);
    var x := "(" + a + " OR " + b + ")";
    assert Combine(AndGlue, Prints(none), WrapMany) == "";
    CombineOne(AndGlue, [x, ""], x, Bare);
  }

  /** A field of one column, alone at the root, whose column prints as two OR-ed relations. */
  lemma {:induction false} PerValueWhere(gen: Generator, c: SearchCondition, column: Column, a: string, b: string)
    requires c.primary.None? && |c.root.fields| == 1 && c.root.groups == []
    requires Maps(gen, c.root.fields[0].name, column)
    requires var t := Target(column, gen.ConversionOf(c.root.fields[0].name), gen.literal);
      && t.PerValue() && c.root.fields[0].bag == EmptyBag.(simple := c.root.fields[0].bag.simple) && |c.root.fields[0].bag.simple| == 2
      && Print(ValueRelation(t, c.root.fields[0].bag.simple[0], false)) == a
      && Print(ValueRelation(t, c.root.fields[0].bag.simple[1], false)) == b
    requires a != "" && b != ""
    ensures WhereClause(gen, c) == Ok("(((" + a + " OR " + b + ")))")
  {
    var f := c.root.fields[0];
    var t := Target(column, gen.ConversionOf(f.name), gen.literal);
    PerValueColumn(t, f.bag, a, b);
    WhereOneColumn(gen, c, column, ColumnSql(t, f.bag).value);
    PerValueText(a, b);
  }

  lemma {:induction false} PerValueText(a: string, b: string)
    ensures "((" + ("(" + a + " OR " + b + ")") + "))" == "(((" + a + " OR " + b + ")))"
  {
  }

  /** Two small numbers as the test connection writes them. */
  lemma {:induction false} TwoFiveList(t: Target)
    requires t.conversion.value.None? && t.literal == TestLiteral
    ensures ValueList(t, [Num(2), Num(5)]) == ["2", "5"]
  {
    assert Digits(2) == "2" && Digits(5) == "5";
  }

  // ---------------------------------------------------------------- combined fields

  /** `customer#1` on a field mapped to one unindexed column: the index replaces that column. */
  lemma {:induction false} FirstIndexed(fields: Fields)
    requires "customer" in fields && fields["customer"] == [("", CustomerColumn)]
    ensures var r := SetField(fields, "customer#1", "id");
      "customer" in r && r["customer"] == [("1", Column("id", None, "string"))]
  {
    assert "customer#1" == "customer" + "#" + "1";
    assert '#' !in "customer";
    SplitNameJoined("customer", "1");
    assert Unset([("", CustomerColumn)], "") == [];
  }

  lemma {:induction false} SplitSecond()
    ensures SplitName("customer#2") == ("customer", Some("2"))
  {
    assert "customer#2" == "customer" + "#" + "2";
    assert '#' !in "customer";
    SplitNameJoined("customer", "2");
  }

  /** A second index on a column list holding only the first: kept, and the new one appended. */
  lemma {:induction false} AppendSecond(once: Columns, mapped: Column)
    requires once == [("1", Column("id", None, "string"))]
    ensures Assign(Unset(once, ""), "2", mapped) == once + [("2", mapped)]
  {
    assert once[1..] == [];
    assert Unset(once, "") == once;
  }

  /** `customer#2` after it: the second index is added behind the first. */
  lemma {:induction false} SecondIndexed(fields: Fields, alias: Option<string>)
    requires "customer" in fields && fields["customer"] == [("1", Column("id", None, "string"))]
    ensures var r := SetField(fields, "customer#2", "number2", alias, "string");
      "customer" in r && r["customer"] == [("1", Column("id", None, "string")), ("2", Column("number2", alias, "string"))]
  {
    SplitSecond();
    AppendSecond(fields["customer"], Column("number2", alias, "string"));
    assert ColumnsOf(fields, "customer") == fields["customer"];
  }

  /** `customer#1` then `customer#2`: the first indexed mapping drops the unindexed column, the second is added after it. */
  lemma {:induction false} CombinedColumns(fields: Fields, alias: Option<string>)
    requires "customer" in fields && fields["customer"] == [("", CustomerColumn)]
    ensures var r := SetField(SetField(fields, "customer#1", "id"), "customer#2", "number2", alias, "string");
      "customer" in r && r["customer"] == [("1", Column("id", None, "string")), ("2", Column("number2", alias, "string"))]
  {
    FirstIndexed(fields);
    SecondIndexed(SetField(fields, "customer#1", "id"), alias);
  }

  /** A column mapped without conversion, holding 2 and 5, prints as its `IN` list. */
  lemma {:induction false} TwoFiveColumn(gen: Generator, f: FieldValues, column: Column)
    requires Plain(gen) && f.bag == EmptyBag.(simple := [Num(2), Num(5)])
    ensures FieldColumnSql(gen, f, column).Ok?
    ensures Print(FieldColumnSql(gen, f, column).value) == column.Reference() + " IN" + "(" + "2" + ", " + "5" + ")"
  {
    var t := Target(column, NoConversion, TestLiteral);
    PlainColumn(gen, f, column);
    InColumn(t, f.bag.simple);
    TwoFiveList(t);
    PairText(column.Reference(), false, "2", "5");
  }

  lemma {:induction false} CombinedFieldTexts()
    ensures "id" + " IN" + "(" + "2" + ", " + "5" + ")" == "id IN(2, 5)"
    ensures "number2" + " IN" + "(" + "2" + ", " + "5" + ")" == "number2 IN(2, 5)"
    ensures ("C" + "." + "number2") + " IN" + "(" + "2" + ", " + "5" + ")" == "C.number2 IN(2, 5)"
  {
  }

  lemma {:induction false} CombinedFieldWhereText()
    ensures "(((" + "id IN(2, 5)" + " OR " + "number2 IN(2, 5)" + ")))" == "(((id IN(2, 5) OR number2 IN(2, 5))))"
  {
    assert "(((" + "id IN(2, 5)" + " OR " == "(((id IN(2, 5) OR ";
  }

  lemma {:induction false} CustomAliasWhereText()
    ensures "(((" + "id IN(2, 5)" + " OR " + "C.number2 IN(2, 5)" + ")))" == "(((id IN(2, 5) OR C.number2 IN(2, 5))))"
  {
    assert "(((" + "id IN(2, 5)" + " OR " == "(((id IN(2, 5) OR ";
  }

  /** A field mapped to two columns renders each column and OR-s them inside the field's parentheses. */
  lemma {:induction false} QueryWithCombinedField(gen: Generator, c: SearchCondition)
    requires Plain(gen) && Maps(gen, "customer", CustomerColumn)
    requires c == Root(And, [Simple("customer", [Num(2), Num(5)])], [])
    ensures var combined := gen.(fields := SetField(SetField(gen.fields, "customer#1", "id"), "customer#2", "number2"));
      WhereClause(combined, c) == Ok("(((id IN(2, 5) OR number2 IN(2, 5))))")
  {
    var combined := gen.(fields := SetField(SetField(gen.fields, "customer#1", "id"), "customer#2", "number2"));
    CombinedColumns(gen.fields, None);
    var f := c.root.fields[0];
    TwoFiveColumn(combined, f, Column("id", None, "string"));
    TwoFiveColumn(combined, f, Column("number2", None, "string"));
    CombinedFieldTexts();
    CombinedFieldWhereText();
    TwoColumnWhere(combined, c, "id IN(2, 5)", "number2 IN(2, 5)");
  }

  /** The second column keeps the alias it was mapped with. */
  lemma {:induction false} QueryWithCombinedFieldAndCustomAlias(gen: Generator, c: SearchCondition)
    requires Plain(gen) && Maps(gen, "customer", CustomerColumn)
    requires c == Root(And, [Simple("customer", [Num(2), Num(5)])], [])
    ensures var combined := gen.(fields := SetField(SetField(gen.fields, "customer#1", "id"), "customer#2", "number2", Some("C"), "string"));
      WhereClause(combined, c) == Ok("(((id IN(2, 5) OR C.number2 IN(2, 5))))")
  {
    var combined := gen.(fields := SetField(SetField(gen.fields, "customer#1", "id"), "customer#2", "number2", Some("C"), "string"));
    CombinedColumns(gen.fields, Some("C"));
    var f := c.root.fields[0];
    TwoFiveColumn(combined, f, Column("id", None, "string"));
    TwoFiveColumn(combined, f, Column("number2", Some("C"), "string"));
    CombinedFieldTexts();
    CustomAliasWhereText();
    TwoColumnWhere(combined, c, "id IN(2, 5)", "C.number2 IN(2, 5)");
  }

  // ---------------------------------------------------------------- conversions

  /** The test's column converter: the column cast to `customer_type`. */
  function CastToCustomerType(): Conversion {
    Conversion(Some((column: string, strategy: Option<int>) => "CAST(" + column + " AS customer_type)"), None, None)
  }

  /** A scalar as PHP interpolates it into a string; a date is never interpolated by the tests and reads as nothing. */
  function Interpolated(v: Value): string {
    match v
    case Num(n) => Decimal(n)
    case Text(s) => s
    case Moment(_) => ""
  }

  /** The test's value converter: the value wrapped in `get_customer_type(...)`. */
  function CustomerTypeOf(): Conversion {
    Conversion(None, Some((v: Value, strategy: Option<int>) => "get_customer_type(" + Interpolated(v) + ")"), None)
  }

  /**
    The test's value strategy: 2 for a date, 1 otherwise; a date is written
    as its formatted day, quoted by the connection and cast to `AGE`, any
    other value as it is.
  */
  function AgeOfDate(format: Dates.DateTime -> string): Conversion {
    Conversion(None,
               Some((v: Value, strategy: Option<int>) =>
                      match v
                      case Moment(at) => "CAST('" + format(at) + "' AS AGE)"
                      case _ => Interpolated(v)),
               Some((v: Value) => if v.Moment? then 2 else 1))
  }

  /** The test's column strategy: 2 for a string, 1 otherwise; under strategy 2 the column is wrapped in `search_conversion_age(...)`. */
  function AgeOfText(): Conversion {
    Conversion(Some((column: string, strategy: Option<int>) => if strategy == Some(2) then "search_conversion_age(" + column + ")" else column),
               None,
               Some((v: Value) => if v.Text? then 2 else 1))
  }

  lemma {:induction false} ColumnConversionText()
    ensures "CAST(" + "I.customer" + " AS customer_type)" == "CAST(I.customer AS customer_type)"
  {
  }

  lemma {:induction false} InTwoFiveText(x: string)
    ensures "((" + (x + " IN" + "(" + "2" + ", " + "5" + ")") + "))" == "((" + x + " IN(2, 5)))"
  {
  }

  /** A column converter applies to the column of the `IN` list; the values stay a list. */
  lemma {:induction false} ColumnConversion(gen: Generator, c: SearchCondition)
    requires gen == Generator(gen.fields, map["customer" := CastToCustomerType()], TestLiteral)
    requires Maps(gen, "customer", CustomerColumn)
    requires c == Root(And, [Simple("customer", [Num(2), Num(5)])], [])
    ensures WhereClause(gen, c) == Ok("((" + "CAST(I.customer AS customer_type)" + " IN(2, 5)))")
  {
    var f := c.root.fields[0];
    var t := Target(CustomerColumn, CastToCustomerType(), TestLiteral);
    assert gen.ConversionOf("customer") == CastToCustomerType();
    References();
    ColumnConversionText();
    var cast := "CAST(I.customer AS customer_type)";
    assert t.ColumnSql(None) == cast;
    InColumn(t, f.bag.simple);
    TwoFiveList(t);
    PairText(cast, false, "2", "5");
    WhereOneColumn(gen, c, CustomerColumn, ColumnSql(t, f.bag).value);
    InTwoFiveText(cast);
  }

  lemma {:induction false} ValueConversionTexts()
    ensures "I.customer" + " " + Eq.Symbol() + " " + ("get_customer_type(" + "2" + ")") == "I.customer = get_customer_type(2)"
    ensures "I.customer" + " " + Eq.Symbol() + " " + ("get_customer_type(" + "5" + ")") == "I.customer = get_customer_type(5)"
  {
  }

  /** A value converter writes each value as its own `=` relation instead of an `IN` list. */
  lemma {:induction false} ValueConversion(gen: Generator, c: SearchCondition)
    requires gen == Generator(gen.fields, map["customer" := CustomerTypeOf()], TestLiteral)
    requires Maps(gen, "customer", CustomerColumn)
    requires c == Root(And, [Simple("customer", [Num(2), Num(5)])], [])
    ensures WhereClause(gen, c) == Ok("(((" + "I.customer = get_customer_type(2)" + " OR " + "I.customer = get_customer_type(5)" + ")))")
  {
    var f := c.root.fields[0];
    var t := Target(CustomerColumn, CustomerTypeOf(), TestLiteral);
    assert gen.ConversionOf("customer") == CustomerTypeOf();
    References();
    assert Digits(2) == "2" && Digits(5) == "5";
    assert t.ValueSql(Num(2), None) == "get_customer_type(" + "2" + ")";
    assert t.ValueSql(Num(5), None) == "get_customer_type(" + "5" + ")";
    ValueConversionTexts();
    PerValueWhere(gen, c, CustomerColumn, "I.customer = get_customer_type(2)", "I.customer = get_customer_type(5)");
  }

  /** Under the value strategy the number keeps its value and is compared to the bare column. */
  lemma {:induction false} AgeOfNumber(t: Target, format: Dates.DateTime -> string)
    requires t == Target(BirthdayColumn, AgeOfDate(format), TestLiteral)
    ensures Print(ValueRelation(t, Num(18), false)) == "C.birthday = 18"
  {
    assert BirthdayColumn.Reference() == "C" + "." + "birthday";
    assert Digits(18) == "18";
    assert t.Strategy(Num(18)) == Some(1);
    assert Interpolated(Num(18)) == "18";
    assert t.ValueSql(Num(18), Some(1)) == "18";
  }

  /** Under the value strategy the date is cast. */
  lemma {:induction false} AgeOfMoment(t: Target, format: Dates.DateTime -> string, day: Dates.DateTime)
    requires t == Target(BirthdayColumn, AgeOfDate(format), TestLiteral) && format(day) == "2001-01-15"
    ensures Print(ValueRelation(t, Moment(day), false)) == "C.birthday = CAST('2001-01-15' AS AGE)"
  {
    var cast := "CAST('2001-01-15' AS AGE)";
    assert BirthdayColumn.Reference() == "C" + "." + "birthday";
    assert t.Strategy(Moment(day)) == Some(2);
    assert "CAST('" + "2001-01-15" + "' AS AGE)" == cast;
    assert t.ValueSql(Moment(day), Some(2)) == cast;
    assert ValueRelation(t, Moment(day), false) == Relation("C.birthday", Eq, cast);
    CastRelationText();
  }

  lemma {:induction false} CastRelationText()
    ensures Print(Relation("C.birthday", Eq, "CAST('2001-01-15' AS AGE)")) == "C.birthday = CAST('2001-01-15' AS AGE)"
  {
    assert "C.birthday" + " " + Eq.Symbol() + " " == "C.birthday = ";
  }

  /** A value strategy picks the conversion per value: the number as it is, the date cast. */
  lemma {:induction false} ConversionStrategyValue(gen: Generator, c: SearchCondition, format: Dates.DateTime -> string, day: Dates.DateTime)
    requires gen == Generator(gen.fields, map["customer_birthday" := AgeOfDate(format)], TestLiteral)
    requires Maps(gen, "customer_birthday", BirthdayColumn)
    requires format(day) == "2001-01-15"
    requires c == Root(And, [Simple("customer_birthday", [Num(18), Moment(day)])], [])
    ensures WhereClause(gen, c) == Ok("(((" + "C.birthday = 18" + " OR " + "C.birthday = CAST('2001-01-15' AS AGE)" + ")))")
  {
    var t := Target(BirthdayColumn, AgeOfDate(format), TestLiteral);
    assert gen.ConversionOf("customer_birthday") == AgeOfDate(format);
    AgeOfNumber(t, format);
    AgeOfMoment(t, format, day);
    PerValueWhere(gen, c, BirthdayColumn, "C.birthday = 18", "C.birthday = CAST('2001-01-15' AS AGE)");
  }

  const Birthday: Column := Column("birthday", Some("C"), "string")

  /** Under the column strategy the number is compared to the bare column. */
  lemma {:induction false} AgeOfTextNumber(t: Target)
    requires t == Target(Birthday, AgeOfText(), TestLiteral)
    ensures Print(ValueRelation(t, Num(18), false)) == "C.birthday = 18"
  {
    assert Birthday.Reference() == "C" + "." + "birthday";
    assert Digits(18) == "18";
    assert t.Strategy(Num(18)) == Some(1);
    assert t.ColumnSql(Some(1)) == "C.birthday";
    assert t.ValueSql(Num(18), Some(1)) == "18";
  }

  /** Under the column strategy the string is compared to the converted column. */
  lemma {:induction false} AgeOfTextString(t: Target)
    requires t == Target(Birthday, AgeOfText(), TestLiteral)
    ensures Print(ValueRelation(t, Text("2001-01-15"), false)) == "search_conversion_age(C.birthday) = '2001-01-15'"
  {
    var converted, quoted := "search_conversion_age(C.birthday)", "'2001-01-15'";
    assert Birthday.Reference() == "C" + "." + "birthday";
    assert t.Strategy(Text("2001-01-15")) == Some(2);
    assert "search_conversion_age(" + "C.birthday" + ")" == converted;
    assert t.ColumnSql(Some(2)) == converted;
    assert "'" + "2001-01-15" + "'" == quoted;
    assert t.ValueSql(Text("2001-01-15"), Some(2)) == quoted;
    assert ValueRelation(t, Text("2001-01-15"), false) == Relation(converted, Eq, quoted);
    ConvertedRelationText();
  }

  lemma {:induction false} ConvertedRelationText()
    ensures Print(Relation("search_conversion_age(C.birthday)", Eq, "'2001-01-15'")) == "search_conversion_age(C.birthday) = '2001-01-15'"
  {
    assert " " + Eq.Symbol() + " " + "'2001-01-15'" == " = '2001-01-15'";
  }

  /** `setField` with a plain name replaces the field's column. */
  lemma {:induction false} BirthdayRemapped(fields: Fields)
    ensures var r := SetField(fields, "customer_birthday", "birthday", Some("C"), "string");
      "customer_birthday" in r && r["customer_birthday"] == [("", Birthday)]
  {
    assert '#' !in "customer_birthday";
    SetFieldPlain(fields, "customer_birthday", "birthday", Some("C"), "string");
  }

  /** A column strategy picks the column per value: the bare column for the number, the converted one for the string. */
  lemma {:induction false} ConversionStrategyColumn(gen: Generator, c: SearchCondition)
    requires gen == Generator(gen.fields, map["customer_birthday" := AgeOfText()], TestLiteral)
    requires "customer_birthday" in gen.fields
    requires c == Root(And, [Simple("customer_birthday", [Num(18), Text("2001-01-15")])], [])
    ensures var mapped := gen.(fields := SetField(gen.fields, "customer_birthday", "birthday", Some("C"), "string"));
      WhereClause(mapped, c) == Ok("(((" + "C.birthday = 18" + " OR " + "search_conversion_age(C.birthday) = '2001-01-15'" + ")))")
  {
    var mapped := gen.(fields := SetField(gen.fields, "customer_birthday", "birthday", Some("C"), "string"));
    BirthdayRemapped(gen.fields);
    assert Maps(mapped, "customer_birthday", Birthday);
    var t := Target(Birthday, AgeOfText(), TestLiteral);
    assert mapped.ConversionOf("customer_birthday") == AgeOfText();
    AgeOfTextNumber(t);
    AgeOfTextString(t);
    PerValueWhere(mapped, c, Birthday, "C.birthday = 18", "search_conversion_age(C.birthday) = '2001-01-15'");
  }
}
