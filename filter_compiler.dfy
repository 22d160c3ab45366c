/**
 * What `filterRecurse` and `filterOperation` compute, as functions of the
 * filter list and of the parameter counter when compilation starts: one SQL
 * boolean text per filter, and the parameters registered along the way.
 */
module FilterCompiler {
  import opened Text
  import opened Base
  import opened Params
  import opened Naming

  /** The compilation of one filter: its SQL text and the parameters it registered. */
  datatype Piece = Piece(text: string, params: seq<Parameter>)

  /** The compilation of a filter list: the `where` list `filterRecurse` returns, and the parameters. */
  datatype Compiled = Compiled(texts: seq<string>, params: seq<Parameter>)

  /** The `@p_..` placeholders of an IN list of `n` items whose first parameter is `p_next`. */
  function InPlaceholders(n: nat, next: nat): (r: seq<string>)
    ensures |r| == n
    ensures forall j :: 0 <= j < n ==> r[j] == "@" + ParamName(next + j)
  {
    seq(n, j requires 0 <= j < n => "@" + ParamName(next + j))
  }

  /** The placeholders of one IN list are pairwise distinct: each item gets its own parameter. */
  lemma InPlaceholdersDistinct(n: nat, next: nat)
    ensures forall i, j :: 0 <= i < j < n ==> InPlaceholders(n, next)[i] != InPlaceholders(n, next)[j]
  {
    var r := InPlaceholders(n, next);
    forall i, j | 0 <= i < j < n ensures r[i] != r[j] {
      if r[i] == r[j] {
        assert ParamName(next + i) == r[i][1..] == r[j][1..] == ParamName(next + j);
        ParamNameInjective(next + i, next + j);
      }
    }
  }

  /** What a filter with a null value compiles to: an `is null` test for the equality types, else a false condition. */
  function NullTest(nm: NamingContext, tags: Tags, key: string, op: string): (r: string)
    ensures r != ""
  {
    if op == tags.typeEqual then FieldName(nm, key) + " is null"
    else if op == tags.typeNotEqual then FieldName(nm, key) + " is not null"
    else "1 = 0"
  }

  /** `filterOperation`: the field, the type string as operator, and a `:p_..` placeholder. */
  function OperationText(nm: NamingContext, key: string, op: string, next: nat): string
  {
    FieldName(nm, key) + " " + op + " :" + ParamName(next)
  }

  /** The text of an IN filter over `n` items. */
  function InText(nm: NamingContext, key: string, n: nat, next: nat): string
  {
    FieldName(nm, key) + " in [" + Join(", ", InPlaceholders(n, next)) + "]"
  }

  /** `filterRecurse` applied to a single filter, with the counter at `next`. */
  function CompileFilter(nm: NamingContext, tags: Tags, f: QueryFilter, next: nat): (r: Piece)
    ensures r.text != ""
    decreases f
  {
    match f
    case Or(cs) =>
      var c := CompileFilters(nm, tags, cs, next);
      Piece("(" + Join(" or ", c.texts) + ")", c.params)
    case And(cs) =>
      var c := CompileFilters(nm, tags, cs, next);
      Piece("(" + Join(" and ", c.texts) + ")", c.params)
    case Cmp(key, op, v) =>
      if v.Null? then Piece(NullTest(nm, tags, key, op), [])
      else if op == tags.typeIn then Piece("1 = 0", [])  // an IN filter whose value is not a list
      else Piece(OperationText(nm, key, op, next), [Parameter(ParamName(next), v)])
    case In(key, arg) =>
      match arg
      case List(items) => Piece(InText(nm, key, |items|, next), Bindings(items, next))
      case NotList(v) => Piece(if v.Null? then NullTest(nm, tags, key, tags.typeIn) else "1 = 0", [])
  }

  /** `filterRecurse(fs)` with the counter at `next`: its filters compiled left to right. */
  function CompileFilters(nm: NamingContext, tags: Tags, fs: seq<QueryFilter>, next: nat): (c: Compiled)
    ensures |c.texts| == |fs|
    decreases fs
  {
    if |fs| == 0 then Compiled([], [])
    else
      var init := CompileFilters(nm, tags, fs[..|fs| - 1], next);
      var last := CompileFilter(nm, tags, fs[|fs| - 1], next + |init.params|);
      Compiled(init.texts + [last.text], init.params + last.params)
  }

  /** One more filter compiled: the texts and parameters of the first `i + 1` filters. */
  lemma CompileFiltersSnoc(nm: NamingContext, tags: Tags, fs: seq<QueryFilter>, next: nat, i: nat)
    requires i < |fs|
    ensures var c := CompileFilters(nm, tags, fs[..i], next);
      var p := CompileFilter(nm, tags, fs[i], next + |c.params|);
      CompileFilters(nm, tags, fs[..i + 1], next) == Compiled(c.texts + [p.text], c.params + p.params)
  {
    assert fs[..i + 1][..i] == fs[..i];
  }

  /** Registering a filter's parameters after those of the filters before it. */
  lemma ParamsAppend(ps: seq<Parameter>, a: seq<Parameter>, b: seq<Parameter>)
    ensures ps + a + b == ps + (a + b)
  {
  }

  /** The WHERE text `buildSQL` derives from the top-level filters: their texts joined by `and`, unparenthesised. */
  function WhereText(nm: NamingContext, tags: Tags, fs: seq<QueryFilter>, next: nat): string
  {
    Join(" and ", CompileFilters(nm, tags, fs, next).texts)
  }

  /** A non-empty filter list always yields a non-empty WHERE text, so the `where != ""` guard never rejects it. */
  lemma WhereTextNonEmpty(nm: NamingContext, tags: Tags, fs: seq<QueryFilter>, next: nat)
    requires |fs| > 0
    ensures WhereText(nm, tags, fs, next) != ""
  {
    FiltersTextAt(nm, tags, fs, next, 0);
    JoinNonEmpty(" and ", CompileFilters(nm, tags, fs, next).texts);
  }

  // ---------------------------------------------------------------------------
  // Reference: the literals of a filter tree, in reading order
  // ---------------------------------------------------------------------------

  /** The values a filter binds: non-null comparison values and IN-list items, left to right. */
  function Literals(tags: Tags, f: QueryFilter): seq<Value>
    decreases f
  {
    match f
    case Or(cs) => LiteralsOf(tags, cs)
    case And(cs) => LiteralsOf(tags, cs)
    case Cmp(_, op, v) => if v.Null? || op == tags.typeIn then [] else [v]
    case In(_, arg) => if arg.List? then arg.items else []
  }

  function LiteralsOf(tags: Tags, fs: seq<QueryFilter>): seq<Value>
    decreases fs
  {
    if |fs| == 0 then [] else Literals(tags, fs[0]) + LiteralsOf(tags, fs[1..])
  }

  lemma {:induction false} LiteralsOfSnoc(tags: Tags, fs: seq<QueryFilter>)
    requires |fs| > 0
    ensures LiteralsOf(tags, fs) == LiteralsOf(tags, fs[..|fs| - 1]) + Literals(tags, fs[|fs| - 1])
  {
    if |fs| > 1 {
      LiteralsOfSnoc(tags, fs[1..]);
      assert fs[1..][..|fs[1..]| - 1] == fs[..|fs| - 1][1..];
    } else {
      assert fs[..0] == [];
    }
  }

  /**
   * Compiling a filter registers exactly one parameter per literal, in reading
   * order, named consecutively from the counter's value at the start.
   */
  lemma {:induction false} FilterParams(nm: NamingContext, tags: Tags, f: QueryFilter, next: nat)
    ensures CompileFilter(nm, tags, f, next).params == Bindings(Literals(tags, f), next)
    decreases f
  {
    match f
    case Or(cs) => FiltersParams(nm, tags, cs, next);
    case And(cs) => FiltersParams(nm, tags, cs, next);
    case Cmp(_, _, _) =>
    case In(_, _) =>
  }

  lemma {:induction false} FiltersParams(nm: NamingContext, tags: Tags, fs: seq<QueryFilter>, next: nat)
    ensures CompileFilters(nm, tags, fs, next).params == Bindings(LiteralsOf(tags, fs), next)
    decreases fs
  {
    if |fs| > 0 {
      var init, last := fs[..|fs| - 1], fs[|fs| - 1];
      var ci := CompileFilters(nm, tags, init, next);
      FiltersParams(nm, tags, init, next);
      var n := |LiteralsOf(tags, init)|;
      assert |ci.params| == n;
      FilterParams(nm, tags, last, next + n);
      calc {
        CompileFilters(nm, tags, fs, next).params;
        ci.params + CompileFilter(nm, tags, last, next + n).params;
        Bindings(LiteralsOf(tags, init), next) + Bindings(Literals(tags, last), next + n);
        { BindingsConcat(LiteralsOf(tags, init), Literals(tags, last), next); }
        Bindings(LiteralsOf(tags, init) + Literals(tags, last), next);
        { LiteralsOfSnoc(tags, fs); }
        Bindings(LiteralsOf(tags, fs), next);
      }
    }
  }

  /** The parameter names one filter list registers are pairwise distinct. */
  lemma FiltersParamsDistinct(nm: NamingContext, tags: Tags, fs: seq<QueryFilter>, next: nat)
    ensures var ps := CompileFilters(nm, tags, fs, next).params;
      |ps| == |LiteralsOf(tags, fs)|
      && forall i, j :: 0 <= i < j < |ps| ==> ps[i].key != ps[j].key
  {
    FiltersParams(nm, tags, fs, next);
    NumberedDistinct(Bindings(LiteralsOf(tags, fs), next), next);
  }

  /**
   * `filterRecurse` yields one string per filter, in order: the `i`-th is the
   * `i`-th filter compiled with the counter advanced past the literals of the
   * filters before it.
   */
  lemma {:induction false} FiltersTextAt(nm: NamingContext, tags: Tags, fs: seq<QueryFilter>, next: nat, i: nat)
    requires i < |fs|
    ensures CompileFilters(nm, tags, fs, next).texts[i]
         == CompileFilter(nm, tags, fs[i], next + |LiteralsOf(tags, fs[..i])|).text
    decreases |fs|
  {
    var init := fs[..|fs| - 1];
    assert fs[..|fs| - 1][..i] == fs[..i] by { assert i <= |fs| - 1; }
    if i < |fs| - 1 {
      FiltersTextAt(nm, tags, init, next, i);
    } else {
      FiltersParams(nm, tags, init, next);
    }
  }

  // ---------------------------------------------------------------------------
  // Parenthesis balance
  // ---------------------------------------------------------------------------

  /** No key and no operator of the tree contains a parenthesis. */
  predicate FilterParenFree(f: QueryFilter)
    decreases f
  {
    match f
    case Or(cs) => forall i :: 0 <= i < |cs| ==> FilterParenFree(cs[i])
    case And(cs) => forall i :: 0 <= i < |cs| ==> FilterParenFree(cs[i])
    case Cmp(key, op, _) => ParenFree(key) && ParenFree(op)
    case In(key, _) => ParenFree(key)
  }

  /** Every AND/OR group is wrapped in one matched pair of parentheses. */
  lemma {:induction false} FilterBalanced(nm: NamingContext, tags: Tags, f: QueryFilter, next: nat)
    requires ParenFree(nm.alias) && FilterParenFree(f)
    ensures Balanced(CompileFilter(nm, tags, f, next).text)
    decreases f
  {
    match f
    case Or(cs) =>
      FiltersBalanced(nm, tags, cs, next);
      JoinBalanced(" or ", CompileFilters(nm, tags, cs, next).texts);
      Parenthesised(Join(" or ", CompileFilters(nm, tags, cs, next).texts));
    case And(cs) =>
      FiltersBalanced(nm, tags, cs, next);
      JoinBalanced(" and ", CompileFilters(nm, tags, cs, next).texts);
      Parenthesised(Join(" and ", CompileFilters(nm, tags, cs, next).texts));
    case Cmp(key, op, v) =>
      CmpBalanced(nm, tags, key, op, v, next);
    case In(key, arg) =>
      InBalanced(nm, tags, key, arg, next);
  }

  lemma CmpBalanced(nm: NamingContext, tags: Tags, key: string, op: string, v: Value, next: nat)
    requires ParenFree(nm.alias) && ParenFree(key) && ParenFree(op)
    ensures Balanced(CompileFilter(nm, tags, Cmp(key, op, v), next).text)
  {
    if v.Null? {
      NullTestBalanced(nm, tags, key, op);
    } else if op == tags.typeIn {
      ParenFreeBalanced("1 = 0");
    } else {
      OperationTextParenFree(nm, key, op, next);
      ParenFreeBalanced(OperationText(nm, key, op, next));
    }
  }

  lemma OperationTextParenFree(nm: NamingContext, key: string, op: string, next: nat)
    requires ParenFree(nm.alias) && ParenFree(key) && ParenFree(op)
    ensures ParenFree(OperationText(nm, key, op, next))
  {
    FieldNameParenFree(nm, key);
    ParamNameShape(next);
    ParenFreeConcat(FieldName(nm, key), " ");
    ParenFreeConcat(FieldName(nm, key) + " ", op);
    ParenFreeConcat(FieldName(nm, key) + " " + op, " :");
    ParenFreeConcat(FieldName(nm, key) + " " + op + " :", ParamName(next));
  }

  lemma InBalanced(nm: NamingContext, tags: Tags, key: string, arg: InArg, next: nat)
    requires ParenFree(nm.alias) && ParenFree(key)
    ensures Balanced(CompileFilter(nm, tags, In(key, arg), next).text)
  {
    if arg.List? {
      InTextBalanced(nm, key, |arg.items|, next);
    } else {
      NullTestBalanced(nm, tags, key, tags.typeIn);
      ParenFreeBalanced("1 = 0");
    }
  }

  lemma NullTestBalanced(nm: NamingContext, tags: Tags, key: string, op: string)
    requires ParenFree(nm.alias) && ParenFree(key)
    ensures Balanced(NullTest(nm, tags, key, op))
  {
    FieldNameParenFree(nm, key);
    if op == tags.typeEqual {
      ParenFreeConcat(FieldName(nm, key), " is null");
    } else if op == tags.typeNotEqual {
      ParenFreeConcat(FieldName(nm, key), " is not null");
    }
    ParenFreeBalanced(NullTest(nm, tags, key, op));
  }

  lemma InTextBalanced(nm: NamingContext, key: string, n: nat, next: nat)
    requires ParenFree(nm.alias) && ParenFree(key)
    ensures Balanced(InText(nm, key, n, next))
  {
    FieldNameParenFree(nm, key);
    var ph := InPlaceholders(n, next);
    forall j | 0 <= j < |ph| ensures Balanced(ph[j]) {
      ParamNameShape(next + j);
      ParenFreeBalanced(ph[j]);
    }
    ParenFreeBalanced(", ");
    JoinBalanced(", ", ph);
    var fieldIn := FieldName(nm, key) + " in [";
    ParenFreeBalanced(fieldIn);
    ParenFreeBalanced("]");
    BalancedConcat(fieldIn, Join(", ", ph));
    BalancedConcat(fieldIn + Join(", ", ph), "]");
  }

  lemma {:induction false} FiltersBalanced(nm: NamingContext, tags: Tags, fs: seq<QueryFilter>, next: nat)
    requires ParenFree(nm.alias) && forall i :: 0 <= i < |fs| ==> FilterParenFree(fs[i])
    ensures forall i :: 0 <= i < |fs| ==> Balanced(CompileFilters(nm, tags, fs, next).texts[i])
    decreases fs
  {
    forall i | 0 <= i < |fs| ensures Balanced(CompileFilters(nm, tags, fs, next).texts[i]) {
      FiltersTextAt(nm, tags, fs, next, i);
      FilterBalanced(nm, tags, fs[i], next + |LiteralsOf(tags, fs[..i])|);
    }
  }
}
