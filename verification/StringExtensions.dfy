/** The string helpers the statement builder uses to quote identifiers,
    to make bound-parameter placeholders and to append a WHERE clause.

    C# strings may be null; `string.Format` and `string.Join` render a null
    argument exactly as the empty string, so in everything these helpers
    contribute to generated SQL a null string and "" are indistinguishable.
    Strings are therefore modelled as (non-null) `seq<char>`, and a null
    `params` array of filter fields as the empty sequence. */
module StringExtensions {
  import opened Linq

  /** `Bracket`: an empty identifier passes through; any other is wrapped
      in square brackets. */
  function Bracket(s: string): (r: string)
    ensures s == [] ==> r == []
    ensures s != [] ==> |r| == |s| + 2 && r[0] == '[' && r[|r| - 1] == ']' && r[1..|r| - 1] == s
  {
    if s == [] then s else "[" + s + "]"
  }

  /** `Parameterize`: an empty name passes through; any other gets the
      `@` placeholder prefix. */
  function Parameterize(s: string): (r: string)
    ensures s == [] ==> r == []
    ensures s != [] ==> |r| == |s| + 1 && r[0] == '@' && r[1..] == s
  {
    if s == [] then s else "@" + s
  }

  /** Distinct identifiers are quoted to distinct SQL identifiers. */
  lemma BracketInjective(a: string, b: string)
    ensures Bracket(a) == Bracket(b) ==> a == b
  {
    if Bracket(a) == Bracket(b) && a != [] && b != [] {
      assert a == Bracket(a)[1..|Bracket(a)| - 1];
    }
  }

  /** Distinct names give distinct placeholders. */
  lemma ParameterizeInjective(a: string, b: string)
    ensures Parameterize(a) == Parameterize(b) ==> a == b
  {
    if Parameterize(a) == Parameterize(b) && a != [] && b != [] {
      assert a == Parameterize(a)[1..];
    }
  }

  /** The `"{0} = {1}"` comparison of a column with its own parameter, used
      both for UPDATE assignments and for WHERE conditions. */
  function Equation(f: string): (r: string)
    ensures f == [] ==> r == " = "
    ensures f != [] ==>
      && |r| == 2 * |f| + 6
      && r[0] == '[' && r[1..|f| + 1] == f
      && r[|f| + 1..|f| + 6] == "] = @" && r[|f| + 6..] == f
  {
    var b, p := Bracket(f), Parameterize(f);
    if f == [] then b + " = " + p
    else
      assert b + " = " + p == "[" + f + ("] = @" + f);
      b + " = " + p
  }

  /** `string.Join(sep, xs)`: the elements with `sep` between neighbours;
      the empty list joins to "". */
  function Join(sep: string, xs: seq<string>): (r: string)
    ensures |xs| == 0 ==> r == ""
    ensures |xs| > 0 ==> |r| == TotalLength(xs) + (|xs| - 1) * |sep|
    ensures |xs| > 0 ==> xs[0] <= r
    decreases |xs|
  {
    if |xs| == 0 then ""
    else if |xs| == 1 then xs[0]
    else xs[0] + sep + Join(sep, xs[1..])
  }

  /** The summed length of the elements of `xs`. */
  function TotalLength(xs: seq<string>): (r: nat)
  {
    if xs == [] then 0 else |xs[0]| + TotalLength(xs[1..])
  }

  /** What precedes the `i`-th element in `Join(sep, xs)`: each earlier
      element followed by one separator. */
  function Before(sep: string, xs: seq<string>, i: nat): (r: string)
    requires i <= |xs|
  {
    if i == 0 then "" else xs[0] + sep + Before(sep, xs[1..], i - 1)
  }

  /** What follows the `i`-th element in `Join(sep, xs)`: nothing after the
      last element, otherwise one separator and the later elements joined. */
  function After(sep: string, xs: seq<string>, i: nat): (r: string)
    requires i < |xs|
  {
    if i + 1 == |xs| then "" else sep + Join(sep, xs[i + 1..])
  }

  /** Reading `Join` around its `i`-th element: the elements before it,
      each followed by the separator, then the element, then the rest. */
  lemma {:induction false} JoinAround(sep: string, xs: seq<string>, i: nat)
    requires i < |xs|
    ensures Join(sep, xs) == Before(sep, xs, i) + xs[i] + After(sep, xs, i)
  {
    if i == 0 {
      if |xs| > 1 {
        assert xs[1..] == xs[i + 1..];
      }
    } else {
      var tail := xs[1..];
      JoinAround(sep, tail, i - 1);
      assert tail[i - 1] == xs[i];
      assert tail[i..] == xs[i + 1..];
      assert After(sep, tail, i - 1) == After(sep, xs, i);
      var b, a := Before(sep, tail, i - 1), After(sep, xs, i);
      calc {
        Join(sep, xs);
        xs[0] + sep + Join(sep, tail);
        xs[0] + sep + (b + xs[i] + a);
        { ConcatAssoc(xs[0] + sep, b, xs[i], a); }
        xs[0] + sep + b + xs[i] + a;
      }
    }
  }

  /** Regrouping a concatenation of four strings. */
  lemma ConcatAssoc(p: string, q: string, r: string, s: string)
    ensures p + (q + r + s) == p + q + r + s
  {
  }

  /** The text before the `i`-th element is the earlier elements joined,
      followed by one separator. */
  lemma {:induction false} BeforeIsJoinedPrefix(sep: string, xs: seq<string>, i: nat)
    requires 0 < i <= |xs|
    ensures Before(sep, xs, i) == Join(sep, xs[..i]) + sep
  {
    if i > 1 {
      BeforeIsJoinedPrefix(sep, xs[1..], i - 1);
      assert xs[..i][1..] == xs[1..][..i - 1];
      ConcatAssoc(xs[0], sep, Join(sep, xs[1..][..i - 1]), sep);
    }
  }

  /** The `i`-th element sits at offset `|Before(sep, xs, i)|`. */
  lemma JoinAt(sep: string, xs: seq<string>, i: nat)
    requires i < |xs|
    ensures |Before(sep, xs, i)| + |xs[i]| <= |Join(sep, xs)|
    ensures Join(sep, xs)[|Before(sep, xs, i)|..|Before(sep, xs, i)| + |xs[i]|] == xs[i]
  {
    JoinAround(sep, xs, i);
    SliceOfMiddle(Before(sep, xs, i), xs[i], After(sep, xs, i));
  }

  /** The middle part of a three-part concatenation, read back by slicing. */
  lemma SliceOfMiddle(p: string, x: string, q: string)
    ensures (p + x + q)[|p|..|p| + |x|] == x
  {
    assert (p + x + q)[|p|..|p| + |x|] == (p + x)[|p|..];
  }

  /** `Filter`: with no fields the statement is returned unchanged;
      otherwise ` WHERE ` and the conditions `[f] = @f`, joined with
      ` AND ` in the order supplied, are appended. */
  function Filter(s: string, fields: seq<string>): (r: string)
    ensures fields == [] ==> r == s
    ensures fields != [] ==> |s| + 7 <= |r| && r[..|s|] == s && r[|s|..|s| + 7] == " WHERE "
  {
    if |fields| == 0 then s
    else s + " WHERE " + Join(" AND ", Project(Equation, fields))
  }

  /** `Filter` does not look at the statement it extends: it appends the
      same suffix to every statement. */
  lemma FilterIndependent(s: string, fields: seq<string>)
    ensures Filter(s, fields) == s + Filter("", fields)
  {
    if fields != [] {
      assert Filter("", fields) == " WHERE " + Join(" AND ", Project(Equation, fields));
    }
  }

  /** The WHERE clause holds exactly one condition per filter field, in the
      order supplied: the `i`-th is `[f_i] = @f_i`, preceded by the earlier
      conditions each followed by ` AND `, and followed by ` AND ` and the
      later conditions, if any. */
  lemma FilterConditionAt(s: string, fields: seq<string>, i: nat)
    requires i < |fields|
    ensures Filter(s, fields)
         == s + " WHERE " + Before(" AND ", Project(Equation, fields), i)
              + (Bracket(fields[i]) + " = " + Parameterize(fields[i]))
              + After(" AND ", Project(Equation, fields), i)
  {
    var conds := Project(Equation, fields);
    JoinAround(" AND ", conds, i);
    assert conds[i] == Equation(fields[i]);
    ConcatAssoc(s + " WHERE ", Before(" AND ", conds, i), conds[i], After(" AND ", conds, i));
  }
}
