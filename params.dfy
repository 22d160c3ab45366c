/**
 * The parameter registry: the names `getNextParameter` hands out and the
 * `(name, value)` list `setParameter` appends to.
 */
module Params {
  import opened Text
  import opened Base

  /** The name `getNextParameter` returns when its counter is `n`: `"p_" + n`. */
  function ParamName(n: nat): string
  {
    "p_" + NatToString(n)
  }

  /** Different counter values give different names. */
  lemma ParamNameInjective(a: nat, b: nat)
    requires ParamName(a) == ParamName(b)
    ensures a == b
  {
    assert NatToString(a) == ParamName(a)[2..];
    assert NatToString(b) == ParamName(b)[2..];
    NatToStringInjective(a, b);
  }

  /** Every name carries the prefix `p_` followed by decimal digits. */
  lemma ParamNameShape(n: nat)
    ensures |ParamName(n)| >= 3 && ParamName(n)[..2] == "p_"
    ensures IsDigits(ParamName(n)[2..]) && ParenFree(ParamName(n))
  {
    assert ParamName(n)[2..] == NatToString(n);
  }

  /** The parameters `ps` carry the names `p_from`, `p_(from+1)`, ... in order. */
  predicate Numbered(ps: seq<Parameter>, from: nat)
  {
    forall i :: 0 <= i < |ps| ==> ps[i].key == ParamName(from + i)
  }

  /** The parameters registered for the values `vs`, one each, when the counter starts at `next`. */
  function Bindings(vs: seq<Value>, next: nat): (ps: seq<Parameter>)
    ensures |ps| == |vs| && Numbered(ps, next)
    ensures forall i :: 0 <= i < |vs| ==> ps[i].value == vs[i]
  {
    seq(|vs|, i requires 0 <= i < |vs| => Parameter(ParamName(next + i), vs[i]))
  }

  lemma BindingsConcat(a: seq<Value>, b: seq<Value>, next: nat)
    ensures Bindings(a + b, next) == Bindings(a, next) + Bindings(b, next + |a|)
  {
  }

  /** Registering the bindings of `b` after those of `a` registers the bindings of `a + b`. */
  lemma BindingsAppend(ps: seq<Parameter>, a: seq<Value>, b: seq<Value>, next: nat)
    ensures ps + Bindings(a, next) + Bindings(b, next + |a|) == ps + Bindings(a + b, next)
  {
    BindingsConcat(a, b, next);
  }

  /** Consecutively numbered parameters have pairwise distinct names. */
  lemma NumberedDistinct(ps: seq<Parameter>, from: nat)
    requires Numbered(ps, from)
    ensures forall i, j :: 0 <= i < j < |ps| ==> ps[i].key != ps[j].key
  {
    forall i, j | 0 <= i < j < |ps| ensures ps[i].key != ps[j].key {
      if ps[i].key == ps[j].key {
        ParamNameInjective(from + i, from + j);
      }
    }
  }

  lemma NumberedConcat(a: seq<Parameter>, b: seq<Parameter>, from: nat)
    requires Numbered(a, from) && Numbered(b, from + |a|)
    ensures Numbered(a + b, from)
  {
  }
}
