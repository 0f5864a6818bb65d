/**
  When the SQL generator writes nothing: a column, a field, a group and the
  whole WHERE clause print as the empty string exactly when the condition
  holds no value for a registered field there; otherwise the clause is the
  prefix followed by the primary condition's group AND-ed before the root's.
*/
module SqlBlank {
  import opened Outcomes
  import opened Conditions
  import opened SqlText
  import opened SqlGenerator
  import SqlProperties
  import SqlMeaning
  import SqlRegistry

  /** Every part prints as nothing. */
  predicate Silent(parts: seq<Sql>) {
    forall i :: 0 <= i < |parts| ==> Print(parts[i]) == ""
  }

  /** Every part prints as something. */
  predicate Audible(parts: seq<Sql>) {
    forall i :: 0 <= i < |parts| ==> Print(parts[i]) != ""
  }

  lemma SilentAppend(a: seq<Sql>, b: seq<Sql>)
    ensures Silent(a + b) <==> Silent(a) && Silent(b)
  {
    if Silent(a) && Silent(b) {
      forall i | 0 <= i < |a + b|
        ensures Print((a + b)[i]) == ""
      {
        if i >= |a| {
          assert (a + b)[i] == b[i - |a|];
        }
      }
    }
    if Silent(a + b) {
      forall i | 0 <= i < |a|
        ensures Print(a[i]) == ""
      {
        assert (a + b)[i] == a[i];
      }
      forall i | 0 <= i < |b|
        ensures Print(b[i]) == ""
      {
        assert (a + b)[|a| + i] == b[i];
      }
    }
  }

  lemma SilentOne(x: Sql)
    ensures Silent([x]) <==> Print(x) == ""
  {
    assert [x][0] == x;
  }

  lemma SilentTwo(x: Sql, y: Sql)
    ensures Silent([x, y]) <==> Print(x) == "" && Print(y) == ""
  {
    assert [x, y][0] == x && [x, y][1] == y;
  }

  lemma AudibleSilent(parts: seq<Sql>)
    requires Audible(parts)
    ensures Silent(parts) <==> |parts| == 0
  {
    if |parts| > 0 {
      assert Print(parts[0]) != "";
    }
  }

  /** An implosion prints as nothing exactly when its parts are silent. */
  lemma ImplodeSilent(glue: Glue, parts: seq<Sql>, wrap: Wrap)
    ensures Print(Implode(glue, parts, wrap)) == "" <==> Silent(parts)
  {
    SqlProperties.ImplodeEmpty(glue, parts, wrap);
  }

  // ---------------------------------------------------------------- one column

  lemma SimpleValuesAudible(t: Target, vs: seq<Value>, excluded: bool)
    ensures Audible(SimpleValues(t, vs, excluded))
    ensures |SimpleValues(t, vs, excluded)| == 0 <==> |vs| == 0
  {
    var parts := SimpleValues(t, vs, excluded);
    forall i | 0 <= i < |parts|
      ensures Print(parts[i]) != ""
    {
      SqlMeaning.AtomPrints(parts[i]);
    }
  }

  lemma RangesAudible(t: Target, rs: seq<Range>, excluded: bool)
    ensures Audible(Ranges(t, rs, excluded))
  {
    var parts := Ranges(t, rs, excluded);
    forall i | 0 <= i < |parts|
      ensures Print(parts[i]) != ""
    {
      var r := RangeSql(t, rs[i], excluded);
      SqlMeaning.BoundsPrint(t, rs[i], excluded);
      ImplodeSilent(r.glue, r.parts, r.wrap);
      assert Print(r.parts[0]) != "";
    }
  }

  lemma CompareListAudible(t: Target, cs: seq<Compare>)
    ensures Audible(CompareList(t, cs))
  {
    var parts := CompareList(t, cs);
    forall i | 0 <= i < |parts|
      ensures Print(parts[i]) != ""
    {
      SqlMeaning.AtomPrints(parts[i]);
    }
  }

  /** The block of ordering compares prints as nothing exactly when there are none. */
  lemma ComparesBlank(t: Target, cs: seq<Compare>)
    ensures Print(Compares(t, cs)) == "" <==> |Ordering(cs)| == 0
  {
    var ordering := CompareList(t, Ordering(cs));
    CompareListAudible(t, Ordering(cs));
    AudibleSilent(ordering);
    ImplodeSilent(AndGlue, ordering, WrapMany);
  }

  /** The `<>` conjuncts are silent exactly when there are none, and there are none besides the ordering compares only when there are no compares. */
  lemma NotEqualsBlank(t: Target, cs: seq<Compare>)
    ensures Silent(NotEqualParts(t, cs)) <==> |Inequalities(cs)| == 0
    ensures |Ordering(cs)| == 0 && |Inequalities(cs)| == 0 <==> |cs| == 0
  {
    CompareListAudible(t, Inequalities(cs));
    AudibleSilent(NotEqualParts(t, cs));
    SqlMeaning.ComparesPartition(cs);
    assert |multiset(Ordering(cs))| + |multiset(Inequalities(cs))| == |multiset(cs)|;
  }

  /** A rendered pattern match prints as something. */
  lemma PatternAudible(t: Target, p: PatternMatch)
    requires PatternSql(t, p).Ok?
    ensures Print(PatternSql(t, p).value) != ""
  {
    var s := PatternSql(t, p).value;
    if s.Relation? {
      SqlMeaning.AtomPrints(s);
    } else {
      var column := Lowered(t.ColumnSql(t.Strategy(Text(p.value))), p.caseInsensitive);
      var pattern := Lowered(t.literal(Text(LikePattern(p.matchType, EscapeLike(p.value))), "string"), p.caseInsensitive);
      assert s.text == column + (if p.IsExclusive() then " NOT" else "") + " LIKE " + pattern + " ESCAPE '\\'";
      assert |s.text| >= |" LIKE "|;
    }
  }

  lemma {:induction false} PatternsAudible(t: Target, ps: seq<PatternMatch>, exclusive: bool)
    requires Patterns(t, ps, exclusive).Ok?
    ensures Audible(Patterns(t, ps, exclusive).value)
  {
    if |ps| > 0 {
      PatternsAudible(t, ps[1..], exclusive);
      if ps[0].IsExclusive() == exclusive {
        PatternAudible(t, ps[0]);
        var rest := Patterns(t, ps[1..], exclusive).value;
        var all := Patterns(t, ps, exclusive).value;
        assert all == [PatternSql(t, ps[0]).value] + rest;
        forall i | 0 <= i < |all|
          ensures Print(all[i]) != ""
        {
          if i > 0 {
            assert all[i] == rest[i - 1];
          }
        }
      }
    }
  }

  /** Every pattern match is on exactly one side. */
  lemma {:induction false} CountSides(ps: seq<PatternMatch>)
    ensures CountSide(ps, false) + CountSide(ps, true) == |ps|
  {
    if |ps| > 0 {
      CountSides(ps[1..]);
    }
  }

  /** Simple values and ranges are silent exactly when there are none. */
  lemma ValuesRangesBlank(t: Target, vs: seq<Value>, rs: seq<Range>, excluded: bool)
    ensures Silent(SimpleValues(t, vs, excluded) + Ranges(t, rs, excluded)) <==> |vs| == 0 && |rs| == 0
  {
    var simple := SimpleValues(t, vs, excluded);
    var ranges := Ranges(t, rs, excluded);
    SilentAppend(simple, ranges);
    SimpleValuesAudible(t, vs, excluded);
    AudibleSilent(simple);
    RangesAudible(t, rs, excluded);
    AudibleSilent(ranges);
  }

  /** The including block of a column is silent exactly when it has no including value. */
  lemma IncludingBlank(t: Target, bag: ValuesBag, including: seq<Sql>)
    requires Patterns(t, bag.patterns, false) == Ok(including)
    ensures Silent(SimpleValues(t, bag.simple, false) + Ranges(t, bag.ranges, false) + [Compares(t, bag.compares)] + including)
        <==> |bag.simple| == 0 && |bag.ranges| == 0 && |Ordering(bag.compares)| == 0 && CountSide(bag.patterns, false) == 0
  {
    var front := SimpleValues(t, bag.simple, false) + Ranges(t, bag.ranges, false);
    var compares := [Compares(t, bag.compares)];
    SilentAppend(front + compares, including);
    SilentAppend(front, compares);
    ValuesRangesBlank(t, bag.simple, bag.ranges, false);
    ComparesBlank(t, bag.compares);
    SilentOne(Compares(t, bag.compares));
    PatternsAudible(t, bag.patterns, false);
    AudibleSilent(including);
  }

  /** The excluding block of a column is silent exactly when it has no excluding value. */
  lemma ExcludingBlank(t: Target, bag: ValuesBag, excluding: seq<Sql>)
    requires Patterns(t, bag.patterns, true) == Ok(excluding)
    ensures Silent(SimpleValues(t, bag.excludedSimple, true) + Ranges(t, bag.excludedRanges, true) + excluding)
        <==> |bag.excludedSimple| == 0 && |bag.excludedRanges| == 0 && CountSide(bag.patterns, true) == 0
  {
    var front := SimpleValues(t, bag.excludedSimple, true) + Ranges(t, bag.excludedRanges, true);
    SilentAppend(front, excluding);
    ValuesRangesBlank(t, bag.excludedSimple, bag.excludedRanges, true);
    PatternsAudible(t, bag.patterns, true);
    AudibleSilent(excluding);
  }

  /** A column prints as nothing exactly when the field's values are empty. */
  lemma ColumnBlank(t: Target, bag: ValuesBag, sql: Sql)
    requires ColumnSql(t, bag) == Ok(sql)
    ensures Print(sql) == "" <==> !bag.HasValues()
  {
    var including := Patterns(t, bag.patterns, false).value;
    var excluding := Patterns(t, bag.patterns, true).value;
    var positiveParts := SimpleValues(t, bag.simple, false) + Ranges(t, bag.ranges, false) + [Compares(t, bag.compares)] + including;
    var negativeParts := SimpleValues(t, bag.excludedSimple, true) + Ranges(t, bag.excludedRanges, true) + excluding;
    var positive := Implode(OrGlue, positiveParts, WrapMany);
    var negative := Implode(AndGlue, negativeParts, WrapMany);
    var notEquals := NotEqualParts(t, bag.compares);
    assert sql == Implode(AndGlue, [positive, negative] + notEquals, Bare);
    ImplodeSilent(AndGlue, [positive, negative] + notEquals, Bare);
    SilentAppend([positive, negative], notEquals);
    SilentTwo(positive, negative);
    NotEqualsBlank(t, bag.compares);
    ImplodeSilent(OrGlue, positiveParts, WrapMany);
    ImplodeSilent(AndGlue, negativeParts, WrapMany);
    IncludingBlank(t, bag, including);
    ExcludingBlank(t, bag, excluding);
    CountSides(bag.patterns);
  }

  // ---------------------------------------------------------------- fields and groups

  lemma {:induction false} ColumnsSilent(gen: Generator, f: FieldValues, columns: Columns, from: nat, sqls: seq<Sql>)
    requires ColumnsSql(gen, f, columns, from) == Ok(sqls)
    ensures Silent(sqls) <==> from >= |columns| || !f.bag.HasValues()
    decreases |columns| - from
  {
    if from < |columns| {
      var first := FieldColumnSql(gen, f, columns[from].1).value;
      var rest := ColumnsSql(gen, f, columns, from + 1).value;
      assert sqls == [first] + rest;
      ColumnsSilent(gen, f, columns, from + 1, rest);
      ColumnBlank(Target(columns[from].1, gen.ConversionOf(f.name), gen.literal), f.bag, first);
      SilentAppend([first], rest);
      SilentOne(first);
    }
  }

  /** A registered field prints as nothing exactly when it has no column or holds no value. */
  lemma FieldBlank(gen: Generator, f: FieldValues, sql: Sql)
    requires f.name in gen.fields
    requires FieldSql(gen, f) == Ok(sql)
    ensures Print(sql) == "" <==> |gen.fields[f.name]| == 0 || !f.bag.HasValues()
  {
    var columns := ColumnsSql(gen, f, gen.fields[f.name], 0).value;
    var inner := Implode(OrGlue, columns, WrapMany);
    ColumnsSilent(gen, f, gen.fields[f.name], 0, columns);
    ImplodeSilent(OrGlue, columns, WrapMany);
    ImplodeSilent(OrGlue, [inner], WrapAlways);
  }

  /** The values of the registered fields of `g` from `from` on are all empty. */
  predicate FieldsBlank(g: ValuesGroup, from: nat, names: set<string>) {
    forall i :: from <= i < |g.fields| && g.fields[i].name in names ==> !g.fields[i].bag.HasValues()
  }

  lemma FieldsBlankStep(g: ValuesGroup, from: nat, names: set<string>)
    requires from < |g.fields|
    ensures FieldsBlank(g, from, names) <==>
      (g.fields[from].name in names ==> !g.fields[from].bag.HasValues()) && FieldsBlank(g, from + 1, names)
  {
  }

  lemma {:induction false} FieldsSilent(gen: Generator, g: ValuesGroup, from: nat, sqls: seq<Sql>)
    requires SqlRegistry.Mapped(gen.fields)
    requires FieldsSql(gen, g, from) == Ok(sqls)
    ensures Silent(sqls) <==> FieldsBlank(g, from, gen.fields.Keys)
    decreases |g.fields| - from
  {
    if from < |g.fields| {
      var rest := FieldsSql(gen, g, from + 1).value;
      FieldsSilent(gen, g, from + 1, rest);
      FieldsBlankStep(g, from, gen.fields.Keys);
      var f := g.fields[from];
      if f.name in gen.fields {
        var first := FieldSql(gen, f).value;
        assert sqls == [first] + rest;
        FieldBlank(gen, f, first);
        SilentAppend([first], rest);
        SilentOne(first);
      } else {
        assert sqls == rest;
      }
    }
  }

  /** A group prints as nothing exactly when no registered field anywhere in it holds a value. */
  lemma {:induction false} GroupBlank(gen: Generator, g: ValuesGroup, sql: Sql)
    requires SqlRegistry.Mapped(gen.fields)
    requires GroupSql(gen, g) == Ok(sql)
    ensures Print(sql) == "" <==> IsBlankFor(g, gen.fields.Keys)
    decreases g, 1
  {
    var fields := FieldsSql(gen, g, 0).value;
    var groups := SubgroupsSql(gen, g, 0).value;
    var left := Implode(LogicalGlue(g.logical), fields, WrapAlways);
    var right := Implode(OrGlue, groups, WrapAlways);
    assert sql == Implode(AndGlue, [left, right], WrapMany);
    FieldsSilent(gen, g, 0, fields);
    SubgroupsSilent(gen, g, 0, groups);
    ImplodeSilent(LogicalGlue(g.logical), fields, WrapAlways);
    ImplodeSilent(OrGlue, groups, WrapAlways);
    ImplodeSilent(AndGlue, [left, right], WrapMany);
    SilentTwo(left, right);
  }

  lemma {:induction false} SubgroupsSilent(gen: Generator, g: ValuesGroup, from: nat, sqls: seq<Sql>)
    requires SqlRegistry.Mapped(gen.fields)
    requires SubgroupsSql(gen, g, from) == Ok(sqls)
    ensures Silent(sqls) <==> BlankGroupsFor(g, from, gen.fields.Keys)
    decreases g, 0, |g.groups| - from
  {
    if from < |g.groups| {
      var first := GroupSql(gen, g.groups[from]).value;
      var rest := SubgroupsSql(gen, g, from + 1).value;
      assert sqls == [first] + rest;
      GroupBlank(gen, g.groups[from], first);
      SubgroupsSilent(gen, g, from + 1, rest);
      SilentAppend([first], rest);
      SilentOne(first);
    }
  }

  // ---------------------------------------------------------------- the clause

  /** Two parts AND-ed without wrapping: blank ones drop out. */
  lemma AndPair(a: Sql, b: Sql)
    ensures Print(Implode(AndGlue, [a, b], Bare)) ==
      if Print(a) == "" then Print(b)
      else if Print(b) == "" then Print(a)
      else Print(a) + " AND " + Print(b)
  {
    var s := Implode(AndGlue, [a, b], Bare);
    var printed := PrintFrom(s, 0);
    assert s.parts[0] == a && s.parts[1] == b;
    assert |printed| == 2 && printed[0] == Print(a) && printed[1] == Print(b);
    assert printed == [Print(a), Print(b)];
    assert printed[1..] == [Print(b)];
    assert [Print(b)][1..] == [];
    var tail := if Print(b) == "" then [] else [Print(b)];
    assert NonEmpty(printed[1..]) == tail;
    var kept := NonEmpty(printed);
    assert kept == if Print(a) == "" then tail else [Print(a)] + tail;
    if Print(a) != "" && Print(b) != "" {
      assert kept == [Print(a), Print(b)];
      assert kept[1..] == [Print(b)];
      assert Join(" AND ", kept) == Print(a) + " AND " + Print(b);
    }
  }

  /**
    The WHERE clause: empty when both the primary condition and the root
    are blank, else the prefix followed by the primary condition's group
    AND-ed before the root's, a blank one left out.
  */
  lemma {:induction false} WhereClauseShape(gen: Generator, c: SearchCondition, prefix: string)
    requires SqlRegistry.Mapped(gen.fields)
    requires WhereClause(gen, c, prefix).Ok?
    ensures GroupSql(gen, c.root).Ok?
    ensures c.primary.Some? ==> GroupSql(gen, c.primary.value).Ok?
    ensures var root := Print(GroupSql(gen, c.root).value);
      var primary := if c.primary.Some? then Print(GroupSql(gen, c.primary.value).value) else "";
      && (root == "" <==> IsBlankFor(c.root, gen.fields.Keys))
      && (c.primary.Some? ==> (primary == "" <==> IsBlankFor(c.primary.value, gen.fields.Keys)))
      && WhereClause(gen, c, prefix).value ==
           if primary == "" && root == "" then ""
           else if primary == "" then prefix + root
           else if root == "" then prefix + primary
           else prefix + primary + " AND " + root
  {
    var root := GroupSql(gen, c.root).value;
    GroupBlank(gen, c.root, root);
    if c.primary.Some? {
      var primary := GroupSql(gen, c.primary.value).value;
      GroupBlank(gen, c.primary.value, primary);
      AndPair(primary, root);
      assert ConditionSql(gen, c) == Ok(Implode(AndGlue, [primary, root], Bare));
      assert prefix + (Print(primary) + " AND " + Print(root)) == prefix + Print(primary) + " AND " + Print(root);
    }
  }

  /** Hence the clause is empty exactly when no registered field of either condition holds a value. */
  lemma WhereClauseBlank(gen: Generator, c: SearchCondition, prefix: string)
    requires SqlRegistry.Mapped(gen.fields)
    requires WhereClause(gen, c, prefix).Ok?
    ensures WhereClause(gen, c, prefix).value == "" <==>
      IsBlankFor(c.root, gen.fields.Keys) && (c.primary.Some? ==> IsBlankFor(c.primary.value, gen.fields.Keys))
  {
    WhereClauseShape(gen, c, prefix);
    var root := Print(GroupSql(gen, c.root).value);
    if root != "" {
      assert |prefix + root| >= |root|;
    }
    if c.primary.Some? {
      var primary := Print(GroupSql(gen, c.primary.value).value);
      assert |prefix + primary| >= |primary|;
      assert |prefix + primary + " AND " + root| >= |primary|;
    }
  }
}
