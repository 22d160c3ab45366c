/**
 * What the bulk setters compute: `setValues`, which calls `set` once per
 * dictionary entry, and `order`, which turns a `(field, direction)`
 * dictionary into ORDER BY terms.
 */
module Updates {
  import opened Wrappers
  import opened Assoc
  import opened Base
  import opened QueryParts
  import opened Params

  /** The map entry `set` stores for `v` when the counter is `n`: null stays null, anything else becomes `@p_n`. */
  function Assigned(v: Value, n: nat): Option<string>
  {
    if v.Null? then None else Some("@" + ParamName(n))
  }

  /** The non-null values of `arr`, in order: the values a run of `set` calls binds to parameters. */
  function NonNullValues(arr: seq<(string, Value)>): seq<Value>
    decreases |arr|
  {
    if |arr| == 0 then []
    else
      var v := arr[|arr| - 1].1;
      NonNullValues(arr[..|arr| - 1]) + (if v.Null? then [] else [v])
  }

  /** The map after `set(k, v)` for each entry of `arr` in turn, on the map `m`, with the counter starting at `next`. */
  function SetAll(m: Assignments, arr: seq<(string, Value)>, next: nat): Assignments
    decreases |arr|
  {
    if |arr| == 0 then m
    else
      var init, e := arr[..|arr| - 1], arr[|arr| - 1];
      Put(SetAll(m, init, next), e.0, Assigned(e.1, next + |NonNullValues(init)|))
  }

  /** What `set` changes: the generic assignment map, the registered parameters and the parameter counter. */
  datatype SetEffect = SetEffect(assignments: Assignments, params: seq<Parameter>, counter: nat)

  /** One `set(key, v)` call. */
  function SetOne(t: SetEffect, key: string, v: Value): SetEffect
  {
    SetEffect(Put(t.assignments, key, Assigned(v, t.counter)),
              t.params + Bindings(if v.Null? then [] else [v], t.counter),
              t.counter + (if v.Null? then 0 else 1))
  }

  /** `set` called for each entry of `arr` in turn, as `setValues` does. */
  function SetEach(t: SetEffect, arr: seq<(string, Value)>): SetEffect
    decreases |arr|
  {
    if |arr| == 0 then t
    else SetOne(SetEach(t, arr[..|arr| - 1]), arr[|arr| - 1].0, arr[|arr| - 1].1)
  }

  lemma SetEachSnoc(t: SetEffect, arr: seq<(string, Value)>, i: nat)
    requires i < |arr|
    ensures SetEach(t, arr[..i + 1]) == SetOne(SetEach(t, arr[..i]), arr[i].0, arr[i].1)
  {
    assert arr[..i + 1][..i] == arr[..i];
  }

  /**
   * A run of `set` calls leaves the map `SetAll` describes, registers one
   * parameter per non-null value, numbered on from the counter, and moves the
   * counter past them.
   */
  lemma {:induction false} SetEachEffect(t: SetEffect, arr: seq<(string, Value)>)
    ensures SetEach(t, arr) == SetEffect(SetAll(t.assignments, arr, t.counter),
                                         t.params + Bindings(NonNullValues(arr), t.counter),
                                         t.counter + |NonNullValues(arr)|)
  {
    SetEachCounter(t, arr);
    SetEachParams(t, arr);
    SetEachAssignments(t, arr);
  }

  /** The counter moves past one parameter per non-null value. */
  lemma {:induction false} SetEachCounter(t: SetEffect, arr: seq<(string, Value)>)
    ensures SetEach(t, arr).counter == t.counter + |NonNullValues(arr)|
    decreases |arr|
  {
    if |arr| > 0 {
      SetEachCounter(t, arr[..|arr| - 1]);
    }
  }

  /** One parameter is registered per non-null value, numbered on from the counter. */
  lemma {:induction false} SetEachParams(t: SetEffect, arr: seq<(string, Value)>)
    ensures SetEach(t, arr).params == t.params + Bindings(NonNullValues(arr), t.counter)
    decreases |arr|
  {
    if |arr| > 0 {
      var init, e := arr[..|arr| - 1], arr[|arr| - 1];
      SetEachParams(t, init);
      SetEachCounter(t, init);
      BindingsAppend(t.params, NonNullValues(init), if e.1.Null? then [] else [e.1], t.counter);
    }
  }

  /** The map ends up as `SetAll` describes. */
  lemma {:induction false} SetEachAssignments(t: SetEffect, arr: seq<(string, Value)>)
    ensures SetEach(t, arr).assignments == SetAll(t.assignments, arr, t.counter)
    decreases |arr|
  {
    if |arr| > 0 {
      var init := arr[..|arr| - 1];
      SetEachAssignments(t, init);
      SetEachCounter(t, init);
    }
  }

  /** A key `setValues` is not given keeps its previous entry. */
  lemma {:induction false} SetAllOther(m: Assignments, arr: seq<(string, Value)>, next: nat, k: string)
    requires k !in Keys(arr)
    ensures Get(SetAll(m, arr, next), k) == Get(m, k)
    decreases |arr|
  {
    if |arr| > 0 {
      var init := arr[..|arr| - 1];
      assert Keys(init) == Keys(arr)[..|arr| - 1];
      SetAllOther(m, init, next, k);
      var b := SetAll(m, init, next);
      PutGetOther(b, arr[|arr| - 1].0, Assigned(arr[|arr| - 1].1, next + |NonNullValues(init)|), k);
    }
  }

  /**
   * With distinct keys, as a dictionary has, the `i`-th key ends up holding the
   * placeholder for the parameter its own `set` call registered, or null.
   */
  lemma SetAllGet(m: Assignments, arr: seq<(string, Value)>, next: nat, i: nat)
    requires i < |arr|
    requires DistinctKeys(arr)
    ensures Get(SetAll(m, arr, next), arr[i].0)
         == Some(Assigned(arr[i].1, next + |NonNullValues(arr[..i])|))
  {
    var pre, e, post := arr[..i], arr[i], arr[i + 1..];
    assert arr == pre + [e] + post;
    assert e.0 !in Keys(post);
    SetAllGetLatest(m, pre, e, post, next);
  }

  /** The last `set` call for a key decides its entry: later calls for other keys leave it alone. */
  lemma {:induction false} SetAllGetLatest(m: Assignments, pre: seq<(string, Value)>, e: (string, Value),
                                           post: seq<(string, Value)>, next: nat)
    requires e.0 !in Keys(post)
    ensures Get(SetAll(m, pre + [e] + post, next), e.0) == Some(Assigned(e.1, next + |NonNullValues(pre)|))
    decreases |post|
  {
    var arr := pre + [e] + post;
    if |post| == 0 {
      assert arr == pre + [e];
      SetAllGetLast(m, arr, next);
      assert arr[..|arr| - 1] == pre;
    } else {
      var init, last := post[..|post| - 1], post[|post| - 1];
      assert arr[..|arr| - 1] == pre + [e] + init;
      assert Keys(init) == Keys(post)[..|post| - 1];
      SetAllGetLatest(m, pre, e, init, next);
      SetAllGetEarlier(m, arr, next, e.0);
    }
  }

  /** A later `set` call for another key leaves an earlier key's entry alone. */
  lemma {:induction false} SetAllGetEarlier(m: Assignments, arr: seq<(string, Value)>, next: nat, k: string)
    requires |arr| > 0 && k != arr[|arr| - 1].0
    ensures Get(SetAll(m, arr, next), k) == Get(SetAll(m, arr[..|arr| - 1], next), k)
  {
    var init, last := arr[..|arr| - 1], arr[|arr| - 1];
    var b := SetAll(m, init, next);
    PutGetOther(b, last.0, Assigned(last.1, next + |NonNullValues(init)|), k);
  }

  /** The last `set` call of a run wins for its key. */
  lemma {:induction false} SetAllGetLast(m: Assignments, arr: seq<(string, Value)>, next: nat)
    requires |arr| > 0
    ensures var last := arr[|arr| - 1];
      Get(SetAll(m, arr, next), last.0)
        == Some(Assigned(last.1, next + |NonNullValues(arr[..|arr| - 1])|))
  {
    var init, last := arr[..|arr| - 1], arr[|arr| - 1];
    var b := SetAll(m, init, next);
    PutGet(b, last.0, Assigned(last.1, next + |NonNullValues(init)|));
  }

  /** `setValues` never drops a key and adds each new key at the end, so distinct keys stay distinct. */
  lemma {:induction false} SetAllDistinct(m: Assignments, arr: seq<(string, Value)>, next: nat)
    requires DistinctKeys(m)
    ensures DistinctKeys(SetAll(m, arr, next))
    ensures forall k :: k in Keys(m) ==> k in Keys(SetAll(m, arr, next))
    decreases |arr|
  {
    if |arr| > 0 {
      var init, last := arr[..|arr| - 1], arr[|arr| - 1];
      SetAllDistinct(m, init, next);
      PutKeys(SetAll(m, init, next), last.0, Assigned(last.1, next + |NonNullValues(init)|));
      PutDistinct(SetAll(m, init, next), last.0, Assigned(last.1, next + |NonNullValues(init)|));
    }
  }

  // ---------------------------------------------------------------------------
  // order
  // ---------------------------------------------------------------------------

  /** The ORDER BY term of one entry: `ASC` and `DESC` are recognised, anything else is dropped. */
  function OrderTerm(tags: Tags, e: (string, int)): Option<string>
  {
    if e.1 == tags.orderAsc then Some(e.0 + " ASC")
    else if e.1 == tags.orderDesc then Some(e.0 + " DESC")
    else None
  }

  /** The list `order` builds from its dictionary, in enumeration order. */
  function OrderTerms(tags: Tags, arr: seq<(string, int)>): seq<string>
    decreases |arr|
  {
    if |arr| == 0 then []
    else
      var t := OrderTerm(tags, arr[|arr| - 1]);
      OrderTerms(tags, arr[..|arr| - 1]) + (if t.Some? then [t.value] else [])
  }

  lemma {:induction false} OrderTermsConcat(tags: Tags, a: seq<(string, int)>, b: seq<(string, int)>)
    ensures OrderTerms(tags, a + b) == OrderTerms(tags, a) + OrderTerms(tags, b)
    decreases |b|
  {
    if |b| == 0 {
      assert a + b == a;
    } else {
      assert (a + b)[..|a + b| - 1] == a + b[..|b| - 1];
      OrderTermsConcat(tags, a, b[..|b| - 1]);
    }
  }

  /** An entry whose direction is neither `ASC` nor `DESC` contributes nothing. */
  lemma OrderTermsSkip(tags: Tags, a: seq<(string, int)>, e: (string, int), b: seq<(string, int)>)
    requires OrderTerm(tags, e).None?
    ensures OrderTerms(tags, a + [e] + b) == OrderTerms(tags, a + b)
  {
    OrderTermsConcat(tags, a + [e], b);
    OrderTermsConcat(tags, a, [e]);
    OrderTermsConcat(tags, a, b);
    assert [e][..0] == [];
  }

  /** When every direction is recognised, each entry gives one term, in order. */
  lemma {:induction false} OrderTermsAllKnown(tags: Tags, arr: seq<(string, int)>)
    requires forall i :: 0 <= i < |arr| ==> OrderTerm(tags, arr[i]).Some?
    ensures |OrderTerms(tags, arr)| == |arr|
    ensures forall i :: 0 <= i < |arr| ==> OrderTerms(tags, arr)[i] == OrderTerm(tags, arr[i]).value
    decreases |arr|
  {
    if |arr| > 0 {
      OrderTermsAllKnown(tags, arr[..|arr| - 1]);
    }
  }
}
