/**
  Properties of the printed SQL text: when a combination or an implosion
  prints as nothing, and that the printer's own parentheses are matched
  whenever the pieces of the tree are balanced.
*/
module SqlProperties {
  import opened Outcomes
  import opened Conditions
  import opened SqlText
  import opened SqlGenerator

  // ---------------------------------------------------------------- empty parts

  /** A combination is empty exactly when every printed part is. */
  lemma CombineEmpty(glue: Glue, printed: seq<string>, wrap: Wrap)
    ensures Combine(glue, printed, wrap) == "" <==> forall i :: 0 <= i < |printed| ==> printed[i] == ""
  {
    var kept := NonEmpty(printed);
    if i :| 0 <= i < |printed| && printed[i] != "" {
      assert printed[i] in kept;
      JoinHead(glue.Text(), kept);
      assert Join(glue.Text(), kept) != "";
      assert Combine(glue, printed, wrap) != "";
    } else {
      AllEmptyKeepsNothing(printed);
    }
  }

  lemma AllEmptyKeepsNothing(ss: seq<string>)
    requires forall i :: 0 <= i < |ss| ==> ss[i] == ""
    ensures NonEmpty(ss) == []
  {
  }

  /** A join starts with its first part. */
  lemma JoinHead(glue: string, ss: seq<string>)
    requires |ss| > 0
    ensures |Join(glue, ss)| >= |ss[0]|
  {
  }

  /** An implosion prints as nothing exactly when each of its parts does. */
  lemma ImplodeEmpty(glue: Glue, parts: seq<Sql>, wrap: Wrap)
    ensures Print(Implode(glue, parts, wrap)) == "" <==> forall i :: 0 <= i < |parts| ==> Print(parts[i]) == ""
  {
    var s := Implode(glue, parts, wrap);
    var printed := PrintFrom(s, 0);
    assert Print(s) == Combine(glue, printed, wrap);
    CombineEmpty(glue, printed, wrap);
    assert forall i :: 0 <= i < |parts| ==> printed[i] == Print(parts[i]);
  }

  // ---------------------------------------------------------------- parentheses

  lemma {:induction false} DepthAppend(a: string, b: string, d: int)
    ensures Depth(a + b, d) == Depth(b, Depth(a, d))
  {
    if |a| == 0 {
      assert a + b == b;
    } else {
      assert (a + b)[1..] == a[1..] + b;
      DepthAppend(a[1..], b, d + Delta(a[0]));
    }
  }

  lemma {:induction false} NeverNegativeAppend(a: string, b: string, d: int)
    ensures NeverNegative(a + b, d) <==> NeverNegative(a, d) && NeverNegative(b, Depth(a, d))
  {
    if |a| == 0 {
      assert a + b == b;
    } else {
      assert (a + b)[1..] == a[1..] + b;
      NeverNegativeAppend(a[1..], b, d + Delta(a[0]));
    }
  }

  /** The depth reached is the starting depth plus the string's own net depth. */
  lemma {:induction false} DepthShift(a: string, d: int)
    ensures Depth(a, d) == Depth(a, 0) + d
  {
    if |a| > 0 {
      DepthShift(a[1..], d + Delta(a[0]));
      DepthShift(a[1..], Delta(a[0]));
    }
  }

  /** Starting deeper never makes the depth negative. */
  lemma {:induction false} NeverNegativeRaise(a: string, d: int, e: int)
    requires NeverNegative(a, d) && d <= e
    ensures NeverNegative(a, e)
  {
    if |a| > 0 {
      NeverNegativeRaise(a[1..], d + Delta(a[0]), e + Delta(a[0]));
    }
  }

  /** A balanced string read from any depth returns to it without going below zero. */
  lemma BalancedFrom(a: string, d: int)
    requires Balanced(a) && d >= 0
    ensures Depth(a, d) == d && NeverNegative(a, d)
  {
    DepthShift(a, d);
    NeverNegativeRaise(a, 0, d);
  }

  lemma BalancedAppend(a: string, b: string)
    requires Balanced(a) && Balanced(b)
    ensures Balanced(a + b)
  {
    DepthAppend(a, b, 0);
    NeverNegativeAppend(a, b, 0);
  }

  lemma ParenthesizeBalanced(a: string)
    requires Balanced(a)
    ensures Balanced(Parenthesize(a))
  {
    assert Depth("(", 0) == 1 && NeverNegative("(", 0);
    assert Depth(")", 1) == 0 && NeverNegative(")", 1);
    BalancedFrom(a, 1);
    DepthAppend("(", a, 0);
    NeverNegativeAppend("(", a, 0);
    DepthAppend("(" + a, ")", 0);
    NeverNegativeAppend("(" + a, ")", 0);
  }

  /** A string without parentheses keeps the depth it starts at. */
  lemma {:induction false} PlainFrom(s: string, d: int)
    requires forall i :: 0 <= i < |s| ==> s[i] != '(' && s[i] != ')'
    requires d >= 0
    ensures Depth(s, d) == d && NeverNegative(s, d)
  {
    if |s| > 0 {
      PlainFrom(s[1..], d);
    }
  }

  lemma GluesBalanced()
    ensures Balanced(AndGlue.Text()) && Balanced(OrGlue.Text()) && Balanced(", ") && Balanced(" ")
  {
    PlainFrom(" AND ", 0);
    PlainFrom(" OR ", 0);
    PlainFrom(", ", 0);
    PlainFrom(" ", 0);
  }

  lemma {:induction false} JoinBalanced(glue: string, ss: seq<string>)
    requires Balanced(glue)
    requires forall i :: 0 <= i < |ss| ==> Balanced(ss[i])
    ensures Balanced(Join(glue, ss))
  {
    if |ss| == 0 {
      PlainFrom("", 0);
    } else if |ss| > 1 {
      JoinBalanced(glue, ss[1..]);
      BalancedAppend(ss[0], glue);
      BalancedAppend(ss[0] + glue, Join(glue, ss[1..]));
    }
  }

  /**
    Every parenthesis the printer writes is matched: when the opaque pieces
    of a tree are balanced, so is its text.
  */
  lemma {:induction false} PrintBalanced(s: Sql)
    requires PiecesBalanced(s)
    ensures Balanced(Print(s))
    decreases s
  {
    match s
    case Fragment(_) =>
    case Relation(lhs, op, rhs) =>
      GluesBalanced();
      PlainFrom(op.Symbol(), 0);
      BalancedAppend(lhs, " ");
      BalancedAppend(lhs + " ", op.Symbol());
      BalancedAppend(lhs + " " + op.Symbol(), " ");
      BalancedAppend(lhs + " " + op.Symbol() + " ", rhs);
    case Membership(lhs, negated, list) =>
      GluesBalanced();
      JoinBalanced(", ", list);
      ParenthesizeBalanced(Join(", ", list));
      var keyword := if negated then " NOT IN" else " IN";
      PlainFrom(keyword, 0);
      BalancedAppend(lhs, keyword);
      BalancedAppend(lhs + keyword, Parenthesize(Join(", ", list)));
    case Implode(glue, parts, wrap) =>
      var printed := PrintFrom(s, 0);
      forall i | 0 <= i < |printed|
        ensures Balanced(printed[i])
      {
        PrintBalanced(parts[i]);
      }
      var kept := NonEmpty(printed);
      forall i | 0 <= i < |kept|
        ensures Balanced(kept[i])
      {
        assert kept[i] in printed;
      }
      GluesBalanced();
      JoinBalanced(glue.Text(), kept);
      if |kept| > 0 {
        ParenthesizeBalanced(Join(glue.Text(), kept));
      } else {
        PlainFrom("", 0);
      }
  }
}
