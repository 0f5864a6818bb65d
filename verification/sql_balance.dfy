/**
  The parentheses of the WHERE clause: when the texts the generator is handed
  (column references, converted columns and values, the connection's literals)
  are balanced, every tree the generator builds has balanced pieces, and so
  the printed clause after its prefix is balanced.
*/
module SqlBalance {
  import opened Outcomes
  import opened Conditions
  import opened SqlText
  import opened SqlGenerator
  import opened SqlProperties

  /** Every text a column hands the generator is balanced, whatever the value and strategy. */
  ghost predicate TargetBalanced(t: Target) {
    && (forall s: Option<int> :: Balanced(t.ColumnSql(s)))
    && (forall v: Value, s: Option<int> :: Balanced(t.ValueSql(v, s)))
    && (forall v: Value, dbType: string :: Balanced(t.literal(v, dbType)))
  }

  /** Every registered column of every field, with the field's conversion, is balanced. */
  ghost predicate GeneratorBalanced(gen: Generator) {
    forall name, i :: name in gen.fields && 0 <= i < |gen.fields[name]| ==>
      TargetBalanced(Target(gen.fields[name][i].1, gen.ConversionOf(name), gen.literal))
  }

  predicate AllBalanced(parts: seq<Sql>) {
    forall i :: 0 <= i < |parts| ==> PiecesBalanced(parts[i])
  }

  lemma AppendBalanced(a: seq<Sql>, b: seq<Sql>)
    requires AllBalanced(a) && AllBalanced(b)
    ensures AllBalanced(a + b)
  {
    forall i | 0 <= i < |a + b|
      ensures PiecesBalanced((a + b)[i])
    {
      if i >= |a| {
        assert (a + b)[i] == b[i - |a|];
      }
    }
  }

  // ---------------------------------------------------------------- the generator's own texts

  /** `LOWER(...)` keeps a balanced text balanced. */
  lemma LoweredBalanced(s: string, caseInsensitive: bool)
    requires Balanced(s)
    ensures Balanced(Lowered(s, caseInsensitive))
  {
    if caseInsensitive {
      PlainFrom("LOWER", 0);
      ParenthesizeBalanced(s);
      assert Lowered(s, caseInsensitive) == "LOWER" + Parenthesize(s);
      BalancedAppend("LOWER", Parenthesize(s));
    }
  }

  /** The LIKE fragment is balanced when its column and pattern are. */
  lemma LikeBalanced(column: string, exclusive: bool, pattern: string)
    requires Balanced(column) && Balanced(pattern)
    ensures Balanced(column + (if exclusive then " NOT" else "") + " LIKE " + pattern + " ESCAPE '\\'")
  {
    var keyword := if exclusive then " NOT" else "";
    PlainFrom(keyword, 0);
    PlainFrom(" LIKE ", 0);
    PlainFrom(" ESCAPE '\\'", 0);
    var a := column + keyword;
    BalancedAppend(column, keyword);
    var b := a + " LIKE ";
    BalancedAppend(a, " LIKE ");
    var c := b + pattern;
    BalancedAppend(b, pattern);
    BalancedAppend(c, " ESCAPE '\\'");
  }

  // ---------------------------------------------------------------- one column

  lemma PatternBalanced(t: Target, p: PatternMatch)
    requires TargetBalanced(t)
    ensures PatternSql(t, p).Ok? ==> PiecesBalanced(PatternSql(t, p).value)
  {
    var raw := t.ColumnSql(t.Strategy(Text(p.value)));
    var column := Lowered(raw, p.caseInsensitive);
    LoweredBalanced(raw, p.caseInsensitive);
    match p.matchType
    case Other(_) =>
    case Equals =>
      LoweredBalanced(t.literal(Text(p.value), "string"), p.caseInsensitive);
    case NotEquals =>
      LoweredBalanced(t.literal(Text(p.value), "string"), p.caseInsensitive);
    case _ =>
      var literal := t.literal(Text(LikePattern(p.matchType, EscapeLike(p.value))), "string");
      LoweredBalanced(literal, p.caseInsensitive);
      LikeBalanced(column, p.IsExclusive(), Lowered(literal, p.caseInsensitive));
  }

  lemma {:induction false} PatternsBalanced(t: Target, patterns: seq<PatternMatch>, exclusive: bool)
    requires TargetBalanced(t)
    ensures Patterns(t, patterns, exclusive).Ok? ==> AllBalanced(Patterns(t, patterns, exclusive).value)
    decreases |patterns|
  {
    if |patterns| > 0 {
      PatternsBalanced(t, patterns[1..], exclusive);
      if patterns[0].IsExclusive() == exclusive {
        PatternBalanced(t, patterns[0]);
        var r := Patterns(t, patterns, exclusive);
        if r.Ok? {
          var first := PatternSql(t, patterns[0]).value;
          var rest := Patterns(t, patterns[1..], exclusive).value;
          assert r.value == [first] + rest;
          AppendBalanced([first], rest);
        }
      }
    }
  }

  lemma SimpleValuesBalanced(t: Target, values: seq<Value>, excluded: bool)
    requires TargetBalanced(t)
    ensures AllBalanced(SimpleValues(t, values, excluded))
  {
    if |values| > 0 && !t.PerValue() {
      var list := ValueList(t, values);
      assert forall i :: 0 <= i < |list| ==> Balanced(list[i]);
      assert Balanced(t.ColumnSql(None));
    }
  }

  lemma RangesBalanced(t: Target, ranges: seq<Range>, excluded: bool)
    requires TargetBalanced(t)
    ensures AllBalanced(Ranges(t, ranges, excluded))
  {
    var rs := Ranges(t, ranges, excluded);
    forall i | 0 <= i < |rs|
      ensures PiecesBalanced(rs[i])
    {
      var r := ranges[i];
      assert Balanced(t.ColumnSql(t.Strategy(r.lower))) && Balanced(t.ValueSql(r.lower, t.Strategy(r.lower)));
      assert Balanced(t.ColumnSql(t.Strategy(r.upper))) && Balanced(t.ValueSql(r.upper, t.Strategy(r.upper)));
    }
  }

  lemma CompareListBalanced(t: Target, compares: seq<Compare>)
    requires TargetBalanced(t)
    ensures AllBalanced(CompareList(t, compares))
  {
    var cs := CompareList(t, compares);
    forall i | 0 <= i < |cs|
      ensures PiecesBalanced(cs[i])
    {
      var v := compares[i].value;
      assert Balanced(t.ColumnSql(t.Strategy(v))) && Balanced(t.ValueSql(v, t.Strategy(v)));
    }
  }

  /** A rendered column has balanced pieces. */
  lemma ColumnBalanced(t: Target, bag: ValuesBag)
    requires TargetBalanced(t)
    ensures ColumnSql(t, bag).Ok? ==> PiecesBalanced(ColumnSql(t, bag).value)
  {
    if ColumnSql(t, bag).Ok? {
      var including := Patterns(t, bag.patterns, false).value;
      var excluding := Patterns(t, bag.patterns, true).value;
      PatternsBalanced(t, bag.patterns, false);
      PatternsBalanced(t, bag.patterns, true);
      SimpleValuesBalanced(t, bag.simple, false);
      SimpleValuesBalanced(t, bag.excludedSimple, true);
      RangesBalanced(t, bag.ranges, false);
      RangesBalanced(t, bag.excludedRanges, true);
      CompareListBalanced(t, Ordering(bag.compares));
      CompareListBalanced(t, Inequalities(bag.compares));
      var inc := SimpleValues(t, bag.simple, false) + Ranges(t, bag.ranges, false);
      AppendBalanced(SimpleValues(t, bag.simple, false), Ranges(t, bag.ranges, false));
      AppendBalanced(inc, [Compares(t, bag.compares)]);
      AppendBalanced(inc + [Compares(t, bag.compares)], including);
      var exc := SimpleValues(t, bag.excludedSimple, true) + Ranges(t, bag.excludedRanges, true);
      AppendBalanced(SimpleValues(t, bag.excludedSimple, true), Ranges(t, bag.excludedRanges, true));
      AppendBalanced(exc, excluding);
      var blocks := [ Implode(OrGlue, inc + [Compares(t, bag.compares)] + including, WrapMany),
                      Implode(AndGlue, exc + excluding, WrapMany) ];
      assert AllBalanced(blocks);
      AppendBalanced(blocks, NotEqualParts(t, bag.compares));
    }
  }

  // ---------------------------------------------------------------- fields and groups

  lemma {:induction false} ColumnsBalanced(gen: Generator, field: FieldValues, from: nat)
    requires GeneratorBalanced(gen) && field.name in gen.fields
    ensures var r := ColumnsSql(gen, field, gen.fields[field.name], from);
      r.Ok? ==> AllBalanced(r.value)
    decreases |gen.fields[field.name]| - from
  {
    var columns := gen.fields[field.name];
    if from < |columns| {
      ColumnsBalanced(gen, field, from + 1);
      var t := Target(columns[from].1, gen.ConversionOf(field.name), gen.literal);
      assert TargetBalanced(t);
      ColumnBalanced(t, field.bag);
      var r := ColumnsSql(gen, field, columns, from);
      if r.Ok? {
        var first := FieldColumnSql(gen, field, columns[from].1).value;
        var rest := ColumnsSql(gen, field, columns, from + 1).value;
        assert r.value == [first] + rest;
        AppendBalanced([first], rest);
      }
    }
  }

  lemma {:induction false} FieldsBalanced(gen: Generator, g: ValuesGroup, from: nat)
    requires GeneratorBalanced(gen)
    ensures FieldsSql(gen, g, from).Ok? ==> AllBalanced(FieldsSql(gen, g, from).value)
    decreases |g.fields| - from
  {
    if from < |g.fields| {
      FieldsBalanced(gen, g, from + 1);
      var field := g.fields[from];
      var r := FieldsSql(gen, g, from);
      if r.Ok? && field.name in gen.fields {
        ColumnsBalanced(gen, field, 0);
        var first := FieldSql(gen, field).value;
        var rest := FieldsSql(gen, g, from + 1).value;
        assert r.value == [first] + rest;
        AppendBalanced([first], rest);
      }
    }
  }

  /** A rendered group has balanced pieces. */
  lemma {:induction false} GroupBalanced(gen: Generator, g: ValuesGroup)
    requires GeneratorBalanced(gen)
    ensures GroupSql(gen, g).Ok? ==> PiecesBalanced(GroupSql(gen, g).value)
    decreases g, 1, 0
  {
    FieldsBalanced(gen, g, 0);
    SubgroupsBalanced(gen, g, 0);
  }

  lemma {:induction false} SubgroupsBalanced(gen: Generator, g: ValuesGroup, from: nat)
    requires GeneratorBalanced(gen)
    ensures SubgroupsSql(gen, g, from).Ok? ==> AllBalanced(SubgroupsSql(gen, g, from).value)
    decreases g, 0, |g.groups| - from
  {
    if from < |g.groups| {
      GroupBalanced(gen, g.groups[from]);
      SubgroupsBalanced(gen, g, from + 1);
      var r := SubgroupsSql(gen, g, from);
      if r.Ok? {
        var first := GroupSql(gen, g.groups[from]).value;
        var rest := SubgroupsSql(gen, g, from + 1).value;
        assert r.value == [first] + rest;
        AppendBalanced([first], rest);
      }
    }
  }

  /**
    Every parenthesis the generator writes is matched: given balanced column
    and value texts, the WHERE clause after its prefix is balanced.
  */
  lemma WhereClauseBalanced(gen: Generator, condition: SearchCondition, prefix: string)
    requires GeneratorBalanced(gen)
    ensures var r := WhereClause(gen, condition, prefix);
      r.Ok? && r.value != "" ==> prefix <= r.value && Balanced(r.value[|prefix|..])
  {
    GroupBalanced(gen, condition.root);
    if condition.primary.Some? {
      GroupBalanced(gen, condition.primary.value);
    }
    var tree := ConditionSql(gen, condition);
    if tree.Ok? {
      PrintBalanced(tree.value);
      var clause := Print(tree.value);
      assert (prefix + clause)[|prefix|..] == clause;
    }
  }
}
