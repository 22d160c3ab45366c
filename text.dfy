/**
 * The string primitives the builder relies on: `String.Join`, the decimal
 * rendering C# uses for `"p_" + long` and `"LIMIT " + long`, and a measure of
 * parenthesis balance used to state what the filter compiler emits.
 */
module Text {

  /** `String.Join(sep, xs)`: the elements of `xs` with `sep` between neighbours. */
  function Join(sep: string, xs: seq<string>): string
  {
    if |xs| == 0 then ""
    else if |xs| == 1 then xs[0]
    else xs[0] + sep + Join(sep, xs[1..])
  }

  lemma {:induction false} JoinNonEmpty(sep: string, xs: seq<string>)
    requires |xs| > 0 && xs[0] != ""
    ensures Join(sep, xs) != ""
  {
    if |xs| > 1 {
      assert Join(sep, xs)[0] == xs[0][0];
    }
  }

  /** The joined text opens with the first element. */
  lemma JoinFirst(sep: string, xs: seq<string>)
    requires |xs| > 0
    ensures |xs[0]| <= |Join(sep, xs)| && Join(sep, xs)[..|xs[0]|] == xs[0]
  {
  }

  /** The joined text closes with the last element. */
  lemma {:induction false} JoinLast(sep: string, xs: seq<string>)
    requires |xs| > 0
    ensures var j, l := Join(sep, xs), xs[|xs| - 1];
      |l| <= |j| && j[|j| - |l|..] == l
  {
    if |xs| > 1 {
      JoinLast(sep, xs[1..]);
    }
  }

  /** Joining a list with one more element at the end yields a text that ends with it. */
  lemma JoinSnoc(sep: string, xs: seq<string>, t: string)
    ensures var j := Join(sep, xs + [t]);
      |t| <= |j| && j[|j| - |t|..] == t
  {
    JoinLast(sep, xs + [t]);
  }

  // ---------------------------------------------------------------------------
  // Decimal rendering of a non-negative integer
  // ---------------------------------------------------------------------------

  function DigitChar(d: nat): (c: char)
    requires d < 10
    ensures '0' <= c <= '9'
  {
    (48 + d) as char
  }

  predicate IsDigits(s: string)
  {
    forall i :: 0 <= i < |s| ==> '0' <= s[i] <= '9'
  }

  /** The decimal digits of `n`, most significant first, without leading zeros. */
  function NatToString(n: nat): (s: string)
    ensures |s| >= 1 && IsDigits(s)
    ensures n < 10 <==> |s| == 1
  {
    if n < 10 then [DigitChar(n)]
    else NatToString(n / 10) + [DigitChar(n % 10)]
  }

  /** Distinct numbers render as distinct strings. */
  lemma {:induction false} NatToStringInjective(a: nat, b: nat)
    requires NatToString(a) == NatToString(b)
    ensures a == b
  {
    var s := NatToString(a);
    if a < 10 {
      assert b < 10;
      assert (48 + a) as char == s[0] == (48 + b) as char;
    } else {
      assert b >= 10;
      var n := |s|;
      assert s[n - 1] == DigitChar(a % 10) && s[n - 1] == DigitChar(b % 10);
      assert ((48 + a % 10) as char) as int == ((48 + b % 10) as char) as int;
      assert s[..n - 1] == NatToString(a / 10);
      assert s[..n - 1] == NatToString(b / 10);
      NatToStringInjective(a / 10, b / 10);
    }
  }

  // ---------------------------------------------------------------------------
  // Parenthesis balance
  // ---------------------------------------------------------------------------

  predicate ParenFree(s: string)
  {
    forall i :: 0 <= i < |s| ==> s[i] != '(' && s[i] != ')'
  }

  /** Opening minus closing parentheses in `s`. */
  function Net(s: string): int
  {
    if |s| == 0 then 0
    else Net(s[..|s| - 1]) + (if s[|s| - 1] == '(' then 1 else if s[|s| - 1] == ')' then -1 else 0)
  }

  /** No prefix of `s` closes more parentheses than it opens. */
  predicate NeverNegative(s: string)
  {
    forall k :: 0 <= k <= |s| ==> Net(s[..k]) >= 0
  }

  /** Every parenthesis in `s` is matched. */
  predicate Balanced(s: string)
  {
    NeverNegative(s) && Net(s) == 0
  }

  lemma {:induction false} NetConcat(a: string, b: string)
    ensures Net(a + b) == Net(a) + Net(b)
  {
    if |b| > 0 {
      var ab := a + b;
      assert ab[..|ab| - 1] == a + b[..|b| - 1];
      assert ab[|ab| - 1] == b[|b| - 1];
      NetConcat(a, b[..|b| - 1]);
    } else {
      assert a + b == a;
    }
  }

  lemma {:induction false} ParenFreeNet(s: string)
    requires ParenFree(s)
    ensures Net(s) == 0
  {
    if |s| > 0 {
      assert ParenFree(s[..|s| - 1]);
      ParenFreeNet(s[..|s| - 1]);
    }
  }

  lemma ParenFreeConcat(a: string, b: string)
    requires ParenFree(a) && ParenFree(b)
    ensures ParenFree(a + b)
  {
  }

  lemma ParenFreeBalanced(s: string)
    requires ParenFree(s)
    ensures Balanced(s)
  {
    forall k | 0 <= k <= |s| ensures Net(s[..k]) >= 0 {
      assert ParenFree(s[..k]);
      ParenFreeNet(s[..k]);
    }
    ParenFreeNet(s);
  }

  lemma NeverNegativeConcat(a: string, b: string)
    requires NeverNegative(a) && NeverNegative(b)
    ensures NeverNegative(a + b)
  {
    var ab := a + b;
    forall k | 0 <= k <= |ab| ensures Net(ab[..k]) >= 0 {
      if k <= |a| {
        assert ab[..k] == a[..k];
      } else {
        assert ab[..k] == a + b[..k - |a|];
        assert a[..|a|] == a;
        NetConcat(a, b[..k - |a|]);
      }
    }
  }

  lemma BalancedConcat(a: string, b: string)
    requires Balanced(a) && Balanced(b)
    ensures Balanced(a + b)
  {
    NeverNegativeConcat(a, b);
    NetConcat(a, b);
  }

  /** Wrapping a balanced string in one pair of parentheses keeps it balanced. */
  lemma Parenthesised(s: string)
    requires Balanced(s)
    ensures Balanced("(" + s + ")")
  {
    var open := "(" + s;
    assert Net("(") == 1 by { assert "("[..0] == ""; }
    assert NeverNegative("(") by {
      assert "("[..0] == "" && "("[..1] == "(";
    }
    NeverNegativeConcat("(", s);
    NetConcat("(", s);
    var t := open + ")";
    forall k | 0 <= k <= |t| ensures Net(t[..k]) >= 0 {
      if k <= |open| {
        assert t[..k] == open[..k];
      } else {
        assert t[..k] == t;
        assert t[..|t| - 1] == open;
      }
    }
    assert t[..|t|] == t && t[..|t| - 1] == open;
  }

  /** Joining balanced strings with a separator free of parentheses gives a balanced string. */
  lemma {:induction false} JoinBalanced(sep: string, xs: seq<string>)
    requires ParenFree(sep)
    requires forall i :: 0 <= i < |xs| ==> Balanced(xs[i])
    ensures Balanced(Join(sep, xs))
  {
    if |xs| == 0 {
      ParenFreeBalanced("");
    } else if |xs| > 1 {
      JoinBalanced(sep, xs[1..]);
      ParenFreeBalanced(sep);
      BalancedConcat(xs[0], sep);
      BalancedConcat(xs[0] + sep, Join(sep, xs[1..]));
    }
  }
}
