/**
  What the blocks the SQL generator renders mean on one row. A row is given
  by the integer each SQL side denotes (`value`) and the truth of each opaque
  fragment (`atom`); `SqlText.Eval` reads a tree under them. Each lemma
  relates a rendered block to an independent statement about the field's
  values, whatever text the conversions produce.
*/
module SqlMeaning {
  import opened Conditions
  import opened SqlText
  import opened SqlGenerator
  import SqlProperties

  /** The integer the column denotes where it is compared with `v`. */
  function ColumnFor(t: Target, v: Value, value: string -> int): int {
    value(t.ColumnSql(t.Strategy(v)))
  }

  /** The integer `v` denotes as the SQL writes it. */
  function ValueFor(t: Target, v: Value, value: string -> int): int {
    value(t.ValueSql(v, t.Strategy(v)))
  }

  /** The row's column equals `v`. */
  predicate Matches(t: Target, v: Value, value: string -> int) {
    ColumnFor(t, v, value) == ValueFor(t, v, value)
  }

  /** Relations and IN lists never print as nothing. */
  lemma AtomPrints(s: Sql)
    requires s.Relation? || s.Membership?
    ensures Print(s) != ""
  {
    if s.Membership? {
      assert |Parenthesize(Join(", ", s.list))| >= 2;
    }
  }

  // ---------------------------------------------------------------- simple values

  /**
    The including simple values hold exactly when the column equals one of
    them, whether they are written as one IN list or one `=` per value.
  */
  lemma IncludedValuesMeaning(t: Target, vs: seq<Value>, value: string -> int, atom: string -> bool)
    ensures Eval(Implode(OrGlue, SimpleValues(t, vs, false), WrapMany), value, atom)
        <==> exists i :: 0 <= i < |vs| && Matches(t, vs[i], value)
  {
    var parts := SimpleValues(t, vs, false);
    if |vs| > 0 && !t.PerValue() {
      var m := parts[0];
      AtomPrints(m);
      assert |parts| == 1;
      if Eval(m, value, atom) {
        var i :| 0 <= i < |m.list| && value(m.lhs) == value(m.list[i]);
        assert Matches(t, vs[i], value);
      }
      if i :| 0 <= i < |vs| && Matches(t, vs[i], value) {
        assert value(m.lhs) == value(m.list[i]);
      }
    } else if |vs| > 0 {
      forall i | 0 <= i < |parts|
        ensures Print(parts[i]) != ""
      {
        AtomPrints(parts[i]);
      }
    }
  }

  /**
    The excluding simple values hold exactly when the column equals none of
    them, whether they are written as one NOT IN list or one `<>` per value.
  */
  lemma ExcludedValuesMeaning(t: Target, vs: seq<Value>, value: string -> int, atom: string -> bool)
    ensures Eval(Implode(AndGlue, SimpleValues(t, vs, true), WrapMany), value, atom)
        <==> forall i :: 0 <= i < |vs| ==> !Matches(t, vs[i], value)
  {
    var parts := SimpleValues(t, vs, true);
    if |vs| > 0 && !t.PerValue() {
      var m := parts[0];
      AtomPrints(m);
      assert |parts| == 1;
      if Eval(m, value, atom) {
        forall i | 0 <= i < |vs|
          ensures !Matches(t, vs[i], value)
        {
          assert value(m.lhs) != value(m.list[i]);
        }
      }
    } else if |vs| > 0 {
      forall i | 0 <= i < |parts|
        ensures Print(parts[i]) != ""
      {
        AtomPrints(parts[i]);
      }
    }
  }

  // ---------------------------------------------------------------- ranges

  /** `x` lies above the lower bound `l`, touching it only when the bound is inclusive. */
  predicate Above(x: int, l: int, inclusive: bool) {
    l < x || (inclusive && x == l)
  }

  predicate Below(x: int, u: int, inclusive: bool) {
    x < u || (inclusive && x == u)
  }

  /** A range holds when the column lies between its bounds, each inclusive or not. */
  predicate InRange(t: Target, r: Range, value: string -> int) {
    && Above(ColumnFor(t, r.lower, value), ValueFor(t, r.lower, value), r.lowerInclusive)
    && Below(ColumnFor(t, r.upper, value), ValueFor(t, r.upper, value), r.upperInclusive)
  }

  /** The two bounds of a rendered range print. */
  lemma BoundsPrint(t: Target, r: Range, excluded: bool)
    ensures forall i :: 0 <= i < |RangeSql(t, r, excluded).parts| ==> Print(RangeSql(t, r, excluded).parts[i]) != ""
  {
    var parts := RangeSql(t, r, excluded).parts;
    AtomPrints(parts[0]);
    AtomPrints(parts[1]);
  }

  /** An including range holds exactly when the column lies in it. */
  lemma RangeMeaning(t: Target, r: Range, value: string -> int, atom: string -> bool)
    ensures Eval(RangeSql(t, r, false), value, atom) <==> InRange(t, r, value)
  {
    var s := RangeSql(t, r, false);
    BoundsPrint(t, r, false);
    assert Eval(s, value, atom) <==> Eval(s.parts[0], value, atom) && Eval(s.parts[1], value, atom);
    assert Eval(s.parts[0], value, atom) <==> Above(ColumnFor(t, r.lower, value), ValueFor(t, r.lower, value), r.lowerInclusive);
    assert Eval(s.parts[1], value, atom) <==> Below(ColumnFor(t, r.upper, value), ValueFor(t, r.upper, value), r.upperInclusive);
  }

  /** The range with both bounds' inclusiveness flipped. */
  function Flipped(r: Range): Range {
    r.(lowerInclusive := !r.lowerInclusive, upperInclusive := !r.upperInclusive)
  }

  /**
    An excluded range holds exactly when the column lies outside the range
    whose bounds have the opposite inclusiveness: an inclusive bound of an
    excluded range is itself kept.
  */
  lemma ExcludedRangeMeaning(t: Target, r: Range, value: string -> int, atom: string -> bool)
    ensures Eval(RangeSql(t, r, true), value, atom) <==> !InRange(t, Flipped(r), value)
  {
    var s := RangeSql(t, r, true);
    BoundsPrint(t, r, true);
    assert Eval(s, value, atom) <==> Eval(s.parts[0], value, atom) || Eval(s.parts[1], value, atom) by {
      if Eval(s.parts[0], value, atom) || Eval(s.parts[1], value, atom) {
        var i := if Eval(s.parts[0], value, atom) then 0 else 1;
        assert Print(s.parts[i]) != "" && Eval(s.parts[i], value, atom);
      }
    }
    assert Eval(s.parts[0], value, atom) <==> !Above(ColumnFor(t, r.lower, value), ValueFor(t, r.lower, value), !r.lowerInclusive);
    assert Eval(s.parts[1], value, atom) <==> !Below(ColumnFor(t, r.upper, value), ValueFor(t, r.upper, value), !r.upperInclusive);
  }

  /** Hence an excluded range is the negation of the flipped including range. */
  lemma ExcludedRangeComplement(t: Target, r: Range, value: string -> int, atom: string -> bool)
    ensures Eval(RangeSql(t, r, true), value, atom) <==> !Eval(RangeSql(t, Flipped(r), false), value, atom)
  {
    ExcludedRangeMeaning(t, r, value, atom);
    RangeMeaning(t, Flipped(r), value, atom);
  }

  /** A row whose column sits on an inclusive lower bound passes the excluded range. */
  lemma ExcludedRangeKeepsBound(t: Target, r: Range, value: string -> int, atom: string -> bool)
    requires r.lowerInclusive
    requires ColumnFor(t, r.lower, value) == ValueFor(t, r.lower, value)
    ensures Eval(RangeSql(t, r, true), value, atom)
  {
    ExcludedRangeMeaning(t, r, value, atom);
  }

  // ---------------------------------------------------------------- comparisons

  /** The comparison `x op y` on integers. */
  predicate Satisfies(x: int, op: CompareOp, y: int) {
    match op
    case Less => x < y
    case LessOrEqual => x <= y
    case Greater => x > y
    case GreaterOrEqual => x >= y
    case NotEqual => x != y
  }

  predicate CompareHolds(t: Target, c: Compare, value: string -> int) {
    Satisfies(ColumnFor(t, c.value, value), c.op, ValueFor(t, c.value, value))
  }

  /** The compares are split into the ordering ones and the `<>` ones, keeping every compare once. */
  lemma {:induction false} ComparesPartition(cs: seq<Compare>)
    ensures multiset(Ordering(cs)) + multiset(Inequalities(cs)) == multiset(cs)
  {
    if |cs| > 0 {
      ComparesPartition(cs[1..]);
      assert cs == [cs[0]] + cs[1..];
    }
  }

  /** A compare holds on a row exactly when its rendered relation does. */
  lemma CompareSqlMeaning(t: Target, c: Compare, value: string -> int, atom: string -> bool)
    ensures Print(CompareSql(t, c)) != ""
    ensures Eval(CompareSql(t, c), value, atom) <==> CompareHolds(t, c, value)
  {
    AtomPrints(CompareSql(t, c));
  }

  /** A list of compares rendered and AND-ed holds exactly when each compare does. */
  lemma CompareListMeaning(t: Target, cs: seq<Compare>, wrap: Wrap, value: string -> int, atom: string -> bool)
    ensures Eval(Implode(AndGlue, CompareList(t, cs), wrap), value, atom)
        <==> forall i :: 0 <= i < |cs| ==> CompareHolds(t, cs[i], value)
  {
    var parts := CompareList(t, cs);
    forall i | 0 <= i < |parts|
      ensures Print(parts[i]) != "" && (Eval(parts[i], value, atom) <==> CompareHolds(t, cs[i], value))
    {
      CompareSqlMeaning(t, cs[i], value, atom);
    }
  }

  /** An AND implosion that prints as nothing holds on every row. */
  lemma BlankAndHolds(parts: seq<Sql>, wrap: Wrap, value: string -> int, atom: string -> bool)
    requires Print(Implode(AndGlue, parts, wrap)) == ""
    ensures Eval(Implode(AndGlue, parts, wrap), value, atom)
  {
    SqlProperties.ImplodeEmpty(AndGlue, parts, wrap);
  }

  /** Every compare holds exactly when every ordering one and every `<>` one does. */
  lemma PartitionHolds(t: Target, cs: seq<Compare>, value: string -> int)
    ensures (forall i :: 0 <= i < |cs| ==> CompareHolds(t, cs[i], value))
        <==> ((forall j :: 0 <= j < |Ordering(cs)| ==> CompareHolds(t, Ordering(cs)[j], value))
              && (forall j :: 0 <= j < |Inequalities(cs)| ==> CompareHolds(t, Inequalities(cs)[j], value)))
  {
    var ordering := Ordering(cs);
    var inequalities := Inequalities(cs);
    ComparesPartition(cs);
    if (forall j :: 0 <= j < |ordering| ==> CompareHolds(t, ordering[j], value))
       && (forall j :: 0 <= j < |inequalities| ==> CompareHolds(t, inequalities[j], value))
    {
      forall i | 0 <= i < |cs|
        ensures CompareHolds(t, cs[i], value)
      {
        assert cs[i] in multiset(cs);
        if cs[i] in multiset(ordering) {
          var j :| 0 <= j < |ordering| && ordering[j] == cs[i];
        } else {
          var j :| 0 <= j < |inequalities| && inequalities[j] == cs[i];
        }
      }
    }
    if forall i :: 0 <= i < |cs| ==> CompareHolds(t, cs[i], value) {
      forall j | 0 <= j < |ordering|
        ensures CompareHolds(t, ordering[j], value)
      {
        var k :| 0 <= k < |cs| && cs[k] == ordering[j];
      }
      forall j | 0 <= j < |inequalities|
        ensures CompareHolds(t, inequalities[j], value)
      {
        var k :| 0 <= k < |cs| && cs[k] == inequalities[j];
      }
    }
  }

  /**
    The block of ordering compares holds exactly when each of them does; with
    the `<>` conjuncts beside it, exactly when every compare of the column does.
  */
  lemma {:induction false} ComparesMeaning(t: Target, cs: seq<Compare>, value: string -> int, atom: string -> bool)
    ensures Eval(Compares(t, cs), value, atom) <==> forall j :: 0 <= j < |Ordering(cs)| ==> CompareHolds(t, Ordering(cs)[j], value)
    ensures (Eval(Compares(t, cs), value, atom) && forall j :: 0 <= j < |NotEqualParts(t, cs)| ==> Eval(NotEqualParts(t, cs)[j], value, atom))
        <==> forall i :: 0 <= i < |cs| ==> CompareHolds(t, cs[i], value)
  {
    CompareListMeaning(t, Ordering(cs), WrapMany, value, atom);
    NotEqualsMeaning(t, cs, value, atom);
    PartitionHolds(t, cs, value);
    var block := Eval(Compares(t, cs), value, atom);
    var ordered := forall j :: 0 <= j < |Ordering(cs)| ==> CompareHolds(t, Ordering(cs)[j], value);
    var conjuncts := forall j :: 0 <= j < |NotEqualParts(t, cs)| ==> Eval(NotEqualParts(t, cs)[j], value, atom);
    var unequal := forall j :: 0 <= j < |Inequalities(cs)| ==> CompareHolds(t, Inequalities(cs)[j], value);
    assert block <==> ordered;
    assert conjuncts <==> unequal;
    assert (forall i :: 0 <= i < |cs| ==> CompareHolds(t, cs[i], value)) <==> ordered && unequal;
  }

  /** The `<>` conjuncts all hold exactly when every `<>` compare does. */
  lemma {:induction false} NotEqualsMeaning(t: Target, cs: seq<Compare>, value: string -> int, atom: string -> bool)
    ensures (forall j :: 0 <= j < |NotEqualParts(t, cs)| ==> Eval(NotEqualParts(t, cs)[j], value, atom))
        <==> forall j :: 0 <= j < |Inequalities(cs)| ==> CompareHolds(t, Inequalities(cs)[j], value)
  {
    var inequalities := Inequalities(cs);
    var rest := NotEqualParts(t, cs);
    forall j | 0 <= j < |rest|
      ensures Eval(rest[j], value, atom) <==> CompareHolds(t, inequalities[j], value)
    {
      NotEqualMeaning(t, cs, j, value, atom);
    }
  }

  /** One `<>` conjunct holds exactly when its compare does. */
  lemma NotEqualMeaning(t: Target, cs: seq<Compare>, j: nat, value: string -> int, atom: string -> bool)
    requires j < |NotEqualParts(t, cs)|
    ensures |NotEqualParts(t, cs)| == |Inequalities(cs)|
    ensures Eval(NotEqualParts(t, cs)[j], value, atom) <==> CompareHolds(t, Inequalities(cs)[j], value)
  {
    CompareSqlMeaning(t, Inequalities(cs)[j], value, atom);
  }

  /**
    A column holds exactly when one of its including parts holds (or it has
    none), every excluding part holds, and every `<>` compare holds: a `<>`
    compare is never OR-ed with the including values.
  */
  lemma {:induction false} ColumnMeaning(t: Target, bag: ValuesBag, value: string -> int, atom: string -> bool)
    requires ColumnSql(t, bag).Ok?
    ensures var inc := Implode(OrGlue, SimpleValues(t, bag.simple, false) + Ranges(t, bag.ranges, false)
                                       + [Compares(t, bag.compares)] + Patterns(t, bag.patterns, false).value, WrapMany);
            var exc := Implode(AndGlue, SimpleValues(t, bag.excludedSimple, true) + Ranges(t, bag.excludedRanges, true)
                                        + Patterns(t, bag.patterns, true).value, WrapMany);
            Eval(ColumnSql(t, bag).value, value, atom)
            <==> && (Print(inc) != "" ==> Eval(inc, value, atom))
                 && Eval(exc, value, atom)
                 && forall j :: 0 <= j < |Inequalities(bag.compares)| ==> CompareHolds(t, Inequalities(bag.compares)[j], value)
  {
    var excParts := SimpleValues(t, bag.excludedSimple, true) + Ranges(t, bag.excludedRanges, true) + Patterns(t, bag.patterns, true).value;
    var exc := Implode(AndGlue, excParts, WrapMany);
    var ne := NotEqualParts(t, bag.compares);
    if Print(exc) == "" {
      BlankAndHolds(excParts, WrapMany, value, atom);
    }
    forall j | 0 <= j < |ne|
      ensures Print(ne[j]) != ""
    {
      NotEqualMeaning(t, bag.compares, j, value, atom);
      CompareSqlMeaning(t, Inequalities(bag.compares)[j], value, atom);
    }
    NotEqualsMeaning(t, bag.compares, value, atom);
    var inc := Implode(OrGlue, SimpleValues(t, bag.simple, false) + Ranges(t, bag.ranges, false)
                               + [Compares(t, bag.compares)] + Patterns(t, bag.patterns, false).value, WrapMany);
    AndPartsMeaning(inc, exc, ne, Bare, value, atom);
  }

  /** An AND of two blocks and further conjuncts that always print holds exactly when each printed block and each conjunct does. */
  lemma {:induction false} AndPartsMeaning(a: Sql, b: Sql, rest: seq<Sql>, wrap: Wrap, value: string -> int, atom: string -> bool)
    requires forall j :: 0 <= j < |rest| ==> Print(rest[j]) != ""
    ensures Eval(Implode(AndGlue, [a, b] + rest, wrap), value, atom)
        <==> && (Print(a) != "" ==> Eval(a, value, atom))
             && (Print(b) != "" ==> Eval(b, value, atom))
             && forall j :: 0 <= j < |rest| ==> Eval(rest[j], value, atom)
  {
    var parts := [a, b] + rest;
    assert parts[0] == a && parts[1] == b;
    assert forall j :: 0 <= j < |rest| ==> parts[j + 2] == rest[j];
    if forall i :: 0 <= i < |parts| && Print(parts[i]) != "" ==> Eval(parts[i], value, atom) {
      forall j | 0 <= j < |rest|
        ensures Eval(rest[j], value, atom)
      {
        assert Print(parts[j + 2]) != "";
      }
    }
  }

  // ---------------------------------------------------------------- patterns

  /** The same match with the NOT removed. */
  function PositiveOf(p: PatternMatch): PatternMatch {
    p.(matchType := p.matchType.Positive())
  }

  /** A NOT-equals match holds exactly when the equals match does not. */
  lemma NotEqualsNegates(t: Target, p: PatternMatch, value: string -> int, atom: string -> bool)
    requires p.matchType == NotEquals
    ensures PatternSql(t, p).Ok? && PatternSql(t, PositiveOf(p)).Ok?
    ensures Eval(PatternSql(t, p).value, value, atom) <==> !Eval(PatternSql(t, PositiveOf(p)).value, value, atom)
  {
  }

  /**
    A NOT LIKE match is the LIKE match of the positive type with ` NOT`
    inserted after the column.
  */
  lemma {:induction false} NotLikeNegates(t: Target, p: PatternMatch)
    requires p.IsExclusive() && p.matchType != NotEquals
    ensures PatternSql(t, p).Ok? && PatternSql(t, PositiveOf(p)).Ok?
    ensures var column := Lowered(t.ColumnSql(t.Strategy(Text(p.value))), p.caseInsensitive);
            var positive := Print(PatternSql(t, PositiveOf(p)).value);
            && |column| <= |positive|
            && positive[..|column|] == column
            && Print(PatternSql(t, p).value) == column + " NOT" + positive[|column|..]
  {
    var column := Lowered(t.ColumnSql(t.Strategy(Text(p.value))), p.caseInsensitive);
    var pattern := Lowered(t.literal(Text(LikePattern(p.matchType.Positive(), EscapeLike(p.value))), "string"), p.caseInsensitive);
    var tail := " LIKE " + pattern + " ESCAPE '\\'";
    PositiveFacts(p);
    LikeText(t, p, column, tail);
    LikeText(t, PositiveOf(p), column, tail);
    NotInserted(Print(PatternSql(t, p).value), Print(PatternSql(t, PositiveOf(p)).value), column, tail);
  }

  /** The positive match keeps the value and the case rule, and is not exclusive. */
  lemma {:induction false} PositiveFacts(p: PatternMatch)
    requires p.IsExclusive() && p.matchType != NotEquals
    ensures PositiveOf(p).value == p.value && PositiveOf(p).caseInsensitive == p.caseInsensitive
    ensures !PositiveOf(p).IsExclusive() && PositiveOf(p).matchType.Positive() == p.matchType.Positive()
    ensures !PositiveOf(p).matchType.Other? && !PositiveOf(p).matchType.Equals? && !PositiveOf(p).matchType.NotEquals?
  {
  }

  /** `negated` is `positive` with ` NOT` inserted after its `column` prefix. */
  lemma {:induction false} NotInserted(negated: string, positive: string, column: string, tail: string)
    requires negated == column + " NOT" + tail && positive == column + tail
    ensures |column| <= |positive| && positive[..|column|] == column && negated == column + " NOT" + positive[|column|..]
  {
    assert positive[..|column|] == column;
    assert positive[|column|..] == tail;
  }

  /** The text of a LIKE match: the column, ` NOT` when exclusive, then the LIKE clause. */
  lemma {:induction false} LikeText(t: Target, p: PatternMatch, column: string, tail: string)
    requires !p.matchType.Other? && !p.matchType.Equals? && !p.matchType.NotEquals?
    requires column == Lowered(t.ColumnSql(t.Strategy(Text(p.value))), p.caseInsensitive)
    requires tail == " LIKE " + Lowered(t.literal(Text(LikePattern(p.matchType.Positive(), EscapeLike(p.value))), "string"), p.caseInsensitive) + " ESCAPE '\\'"
    ensures PatternSql(t, p).Ok?
    ensures Print(PatternSql(t, p).value) == column + (if p.IsExclusive() then " NOT" + tail else tail)
  {
    var pattern := Lowered(t.literal(Text(LikePattern(p.matchType, EscapeLike(p.value))), "string"), p.caseInsensitive);
    assert LikePattern(p.matchType, EscapeLike(p.value)) == LikePattern(p.matchType.Positive(), EscapeLike(p.value));
    var negation := if p.IsExclusive() then " NOT" else "";
    assert Print(PatternSql(t, p).value) == column + negation + " LIKE " + pattern + " ESCAPE '\\'";
    Assoc4(column, negation, " LIKE " + pattern, " ESCAPE '\\'");
  }

  lemma Assoc4(a: string, b: string, c: string, d: string)
    ensures a + b + c + d == a + (if b == "" then c + d else b + (c + d))
  {
    if b == "" {
      assert a + b == a;
    }
  }

  /** How a database reads one piece of a LIKE pattern whose escape character is a backslash. */
  datatype LikeToken = Literal(c: char) | AnyString | AnyChar

  /** The reading of a LIKE pattern with `ESCAPE '\'`. */
  function ReadLike(p: string): seq<LikeToken>
    decreases |p|
  {
    if |p| == 0 then []
    else if p[0] == '\\' && |p| > 1 then [Literal(p[1])] + ReadLike(p[2..])
    else if p[0] == '%' then [AnyString] + ReadLike(p[1..])
    else if p[0] == '_' then [AnyChar] + ReadLike(p[1..])
    else [Literal(p[0])] + ReadLike(p[1..])
  }

  /** Each character of `s` matched literally. */
  function Literals(s: string): (r: seq<LikeToken>)
    ensures |r| == |s|
    ensures forall i :: 0 <= i < |s| ==> r[i] == Literal(s[i])
  {
    if |s| == 0 then [] else [Literal(s[0])] + Literals(s[1..])
  }

  /** An escaped value is read character for character, whatever follows it. */
  lemma {:induction false} EscapedThen(s: string, tail: string)
    requires '\\' !in s
    ensures ReadLike(EscapeLike(s) + tail) == Literals(s) + ReadLike(tail)
  {
    if |s| == 0 {
      assert EscapeLike(s) + tail == tail;
    } else {
      assert s[0] in s;
      EscapedThen(s[1..], tail);
      EscapedStep(s, tail);
    }
  }

  /** One step of the above: the head character read literally, then the rest as already read. */
  lemma {:induction false} EscapedStep(s: string, tail: string)
    requires |s| > 0 && s[0] != '\\'
    requires ReadLike(EscapeLike(s[1..]) + tail) == Literals(s[1..]) + ReadLike(tail)
    ensures ReadLike(EscapeLike(s) + tail) == Literals(s) + ReadLike(tail)
  {
    var rest := EscapeLike(s[1..]) + tail;
    EscapeHead(s, tail);
    if s[0] == '%' || s[0] == '_' {
      ReadEscaped(s[0], rest);
    } else {
      ReadPlain(s[0], rest);
    }
    assert Literals(s) == [Literal(s[0])] + Literals(s[1..]);
  }

  lemma EscapeHead(s: string, tail: string)
    requires |s| > 0
    ensures EscapeLike(s) + tail == (if s[0] == '%' || s[0] == '_' then ['\\', s[0]] else [s[0]]) + (EscapeLike(s[1..]) + tail)
  {
  }

  lemma ReadEscaped(c: char, rest: string)
    ensures ReadLike(['\\', c] + rest) == [Literal(c)] + ReadLike(rest)
  {
    assert (['\\', c] + rest)[2..] == rest;
  }

  lemma ReadPlain(c: char, rest: string)
    requires c != '\\' && c != '%' && c != '_'
    ensures ReadLike([c] + rest) == [Literal(c)] + ReadLike(rest)
  {
    assert ([c] + rest)[1..] == rest;
  }

  /** `EscapeLike` makes `%` and `_` match themselves: the value is read back exactly. */
  lemma EscapeLikeReadsBack(s: string)
    requires '\\' !in s
    ensures ReadLike(EscapeLike(s)) == Literals(s)
  {
    EscapedThen(s, "");
    assert EscapeLike(s) + "" == EscapeLike(s);
  }

  /**
    The reading of each LIKE pattern: the value literally, with any text
    allowed before it (`%v`), after it (`v%`) or on both sides (`%v%`).
  */
  lemma LikePatternReading(matchType: MatchType, s: string)
    requires !matchType.Other? && !matchType.Equals? && !matchType.NotEquals?
    requires '\\' !in s
    ensures ReadLike(LikePattern(matchType, EscapeLike(s))) ==
      match matchType
      case Contains => [AnyString] + Literals(s) + [AnyString]
      case NotContains => [AnyString] + Literals(s) + [AnyString]
      case StartsWith => [AnyString] + Literals(s)
      case NotStartsWith => [AnyString] + Literals(s)
      case _ => Literals(s) + [AnyString]
  {
    var e := EscapeLike(s);
    EscapedThen(s, "%");
    EscapedThen(s, "");
    assert e + "" == e;
    assert ReadLike("%") == [AnyString];
    assert ReadLike("%" + e) == [AnyString] + ReadLike(e) by {
      assert ("%" + e)[1..] == e;
    }
    assert ReadLike("%" + e + "%") == [AnyString] + ReadLike(e + "%") by {
      assert ("%" + e + "%")[1..] == e + "%";
    }
  }
}
