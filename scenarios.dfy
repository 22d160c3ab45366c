/**
 * Concrete statements: what the filter compiler and the builder produce for
 * a few fixed inputs, including the edge cases of `filterRecurse` and `buildSQL`.
 */
module Scenarios {
  import opened Wrappers
  import opened Text
  import opened Base
  import opened QueryParts
  import opened Params
  import opened Naming
  import opened FilterCompiler
  import opened Statement
  import opened Builder

  /** Plain, unaliased field names and the conventional type strings. */
  const Plain := NamingContext({}, false, "")
  const Conventional := Tags("=", "!=", "in", 1, 2)

  /** With plain names, a comparison of a non-null value is `key op :p_n`, bound to `p_n`. */
  lemma PlainComparison(key: string, op: string, v: Value, n: nat)
    requires !v.Null? && op != "in"
    ensures CompileFilter(Plain, Conventional, Cmp(key, op, v), n)
         == Piece(key + " " + op + " :" + ParamName(n), [Parameter(ParamName(n), v)])
  {
  }

  /** Two filters compile one after the other, the second numbering on past the first. */
  lemma CompilePair(nm: NamingContext, tags: Tags, x: QueryFilter, y: QueryFilter, next: nat)
    ensures var px := CompileFilter(nm, tags, x, next);
      var py := CompileFilter(nm, tags, y, next + |px.params|);
      CompileFilters(nm, tags, [x, y], next) == Compiled([px.text, py.text], px.params + py.params)
  {
    assert [x, y][..1] == [x] && [x][..0] == [];
    var px := CompileFilter(nm, tags, x, next);
    assert CompileFilters(nm, tags, [], next) == Compiled([], []);
    assert CompileFilters(nm, tags, [x], next) == Compiled([px.text], px.params);
  }

  /** An OR group of two filters: their texts joined by `or` in one pair of parentheses. */
  lemma OrPair(nm: NamingContext, tags: Tags, x: QueryFilter, y: QueryFilter, next: nat)
    ensures var px := CompileFilter(nm, tags, x, next);
      var py := CompileFilter(nm, tags, y, next + |px.params|);
      CompileFilter(nm, tags, Or([x, y]), next) == Piece("(" + (px.text + " or " + py.text) + ")", px.params + py.params)
  {
    var px := CompileFilter(nm, tags, x, next);
    var py := CompileFilter(nm, tags, y, next + |px.params|);
    CompilePair(nm, tags, x, y, next);
    JoinTwo(" or ", px.text, py.text);
    assert CompileFilter(nm, tags, Or([x, y]), next)
        == Piece("(" + Join(" or ", [px.text, py.text]) + ")", px.params + py.params);
  }

  /** An AND group of two filters: their texts joined by `and` in one pair of parentheses. */
  lemma AndPair(nm: NamingContext, tags: Tags, x: QueryFilter, y: QueryFilter, next: nat)
    ensures var px := CompileFilter(nm, tags, x, next);
      var py := CompileFilter(nm, tags, y, next + |px.params|);
      CompileFilter(nm, tags, And([x, y]), next) == Piece("(" + (px.text + " and " + py.text) + ")", px.params + py.params)
  {
    var px := CompileFilter(nm, tags, x, next);
    var py := CompileFilter(nm, tags, y, next + |px.params|);
    CompilePair(nm, tags, x, y, next);
    JoinTwo(" and ", px.text, py.text);
    assert CompileFilter(nm, tags, And([x, y]), next)
        == Piece("(" + Join(" and ", [px.text, py.text]) + ")", px.params + py.params);
  }

  /** One comparison with a small counter value, spelled out. */
  lemma SmallComparison(key: string, op: string, v: Value, d: nat)
    requires !v.Null? && op != "in" && d < 10
    ensures CompileFilter(Plain, Conventional, Cmp(key, op, v), d)
         == Piece(key + " " + op + " :p_" + [DigitChar(d)], [Parameter("p_" + [DigitChar(d)], v)])
  {
    PlainComparison(key, op, v, d);
    assert ParamName(d) == "p_" + [DigitChar(d)];
    assert key + " " + op + " :" + ("p_" + [DigitChar(d)]) == key + " " + op + " :p_" + [DigitChar(d)];
  }

  /** The first OR operand of the nested example. */
  lemma AgeAbove(lo: Value)
    requires !lo.Null?
    ensures CompileFilter(Plain, Conventional, Cmp("age", ">", lo), 1) == Piece("age > :p_1", [Parameter("p_1", lo)])
  {
    SmallComparison("age", ">", lo, 1);
    assert DigitChar(1) == '1';
    assert "age" + " " + ">" + " :p_" + ['1'] == "age > :p_1" && "p_" + ['1'] == "p_1";
  }

  /** The second OR operand of the nested example. */
  lemma AgeBelow(hi: Value)
    requires !hi.Null?
    ensures CompileFilter(Plain, Conventional, Cmp("age", "<", hi), 2) == Piece("age < :p_2", [Parameter("p_2", hi)])
  {
    SmallComparison("age", "<", hi, 2);
    assert DigitChar(2) == '2';
    assert "age" + " " + "<" + " :p_" + ['2'] == "age < :p_2" && "p_" + ['2'] == "p_2";
  }

  /** The inner OR group of the nested example, over any two non-null bounds. */
  lemma AgeRange(lo: Value, hi: Value)
    requires !lo.Null? && !hi.Null?
    ensures CompileFilter(Plain, Conventional, Or([Cmp("age", ">", lo), Cmp("age", "<", hi)]), 1)
         == Piece("(" + ("age > :p_1" + " or " + "age < :p_2") + ")", [Parameter("p_1", lo), Parameter("p_2", hi)])
  {
    AgeAbove(lo);
    AgeBelow(hi);
    OrPair(Plain, Conventional, Cmp("age", ">", lo), Cmp("age", "<", hi), 1);
  }

  /** A nested AND/OR tree: parenthesised groups and `:p_n` placeholders numbered left to right. */
  lemma NestedFilter(status: Value, lo: Value, hi: Value)
    requires !status.Null? && !lo.Null? && !hi.Null?
    ensures var f := And([Cmp("status", "=", status), Or([Cmp("age", ">", lo), Cmp("age", "<", hi)])]);
      var inner := "(" + ("age > :p_1" + " or " + "age < :p_2") + ")";
      CompileFilter(Plain, Conventional, f, 0)
        == Piece("(" + ("status = :p_0" + " and " + inner) + ")",
                 [Parameter("p_0", status), Parameter("p_1", lo), Parameter("p_2", hi)])
  {
    var x, y := Cmp("status", "=", status), Or([Cmp("age", ">", lo), Cmp("age", "<", hi)]);
    SmallComparison("status", "=", status, 0);
    assert DigitChar(0) == '0';
    assert "status" + " " + "=" + " :p_" + ['0'] == "status = :p_0" && "p_" + ['0'] == "p_0";
    AgeRange(lo, hi);
    AndPair(Plain, Conventional, x, y, 0);
  }

  /** Joining two texts puts the separator between them. */
  lemma JoinTwo(sep: string, x: string, y: string)
    ensures Join(sep, [x, y]) == x + sep + y
  {
    assert [x, y][1..] == [y];
  }

  /** A null compared for equality becomes `is null` and binds nothing. */
  lemma NullEquality()
    ensures CompileFilter(Plain, Conventional, Cmp("deleted_at", "=", Null), 0)
         == Piece("deleted_at is null", [])
  {
  }

  /** An empty IN list yields `field in []`, not a false condition, and binds nothing. */
  lemma EmptyInList()
    ensures CompileFilter(Plain, Conventional, In("id", List([])), 0) == Piece("id in []", [])
  {
  }

  /** A null compared with any other operator degrades to the false condition `1 = 0`. */
  lemma NullOtherOperator(key: string, op: string, n: nat)
    requires op != "=" && op != "!="
    ensures CompileFilter(Plain, Conventional, Cmp(key, op, Null), n) == Piece("1 = 0", [])
  {
  }

  // ---------------------------------------------------------------------------
  // An upsert built through the builder
  // ---------------------------------------------------------------------------

  /** The clauses of an upsert with one common and one update-only assignment: the common one appears in both lists. */
  lemma UpsertClauses(s: PartsState, key: string, other: string, a: string, b: string)
    requires s.setInsert == [] && s.setCommon == [(key, Some(a))] && s.setUpdate == [(other, Some(b))]
    requires s.where == "" && s.order == []
    ensures Clauses(QueryType.InsertOrUpdate, s, 0, -1)
         == [InsertInto(s.insert), SetList([key + " = " + a]), OnDuplicateKeyUpdate([key + " = " + a, other + " = " + b])]
  {
    var k := QueryType.InsertOrUpdate;
    assert AssignmentTexts(s.setInsert) == [];
    assert AssignmentTexts(s.setCommon) == [key + " = " + a];
    assert AssignmentTexts(s.setUpdate) == [other + " = " + b];
    assert SetItems(k, s) == [key + " = " + a];
    assert DuplicateItems(k, s) == [key + " = " + a, other + " = " + b];
    assert WithSet(k, s) == [InsertInto(s.insert), SetList([key + " = " + a])];
  }

  /** Joining three texts puts the separator between each pair. */
  lemma JoinThree(sep: string, x: string, y: string, z: string)
    ensures Join(sep, [x, y, z]) == x + sep + y + sep + z
  {
    assert [x, y, z][1..] == [y, z];
    JoinTwo(sep, y, z);
  }

  /** The text of that upsert: the three clause texts separated by single spaces. */
  lemma UpsertText(table: string, x: string, y: string)
    ensures Join(" ", Rendered([InsertInto(table), SetList([x]), OnDuplicateKeyUpdate([x, y])]))
         == "INSERT INTO " + table + " " + ("SET " + x) + " " + ("ON DUPLICATE KEY UPDATE " + (x + ", " + y))
  {
    var cs := [InsertInto(table), SetList([x]), OnDuplicateKeyUpdate([x, y])];
    JoinTwo(", ", x, y);
    var r0, r1, r2 := "INSERT INTO " + table, "SET " + x, "ON DUPLICATE KEY UPDATE " + (x + ", " + y);
    assert Rendered(cs) == [r0, r1, r2];
    JoinThree(" ", r0, r1, r2);
  }

  /**
   * `insertOrUpdate(table)`, `set(key, v)`, `setUpdateRaw(other, raw)` and
   * `buildSQL()` on a fresh builder without filters: the common assignment
   * lands in both the SET list and the ON DUPLICATE KEY UPDATE list, and the
   * value is bound once, as `p_0`.
   */
  method Upsert(table: string, key: string, v: Value, other: string, raw: string)
    returns (sql: string, params: seq<Parameter>)
    requires !v.Null? && key != other
    ensures var x := key + " = " + "@p_0";
      sql == "INSERT INTO " + table + " " + ("SET " + x) + " " + ("ON DUPLICATE KEY UPDATE " + (x + ", " + (other + " = " + raw)))
    ensures params == [Parameter("p_0", v)]
  {
    var b := UpsertBuilder(table, key, v, other, raw);
    sql := b.BuildSQL();
    params := b.parameters;
    UpsertSql(b.parts.State(), key, other, "@p_0", raw);
  }

  /** The builder of `Upsert` just before `buildSQL`. */
  method UpsertBuilder(table: string, key: string, v: Value, other: string, raw: string)
    returns (b: MySqlQueryBuilder)
    requires !v.Null?
    ensures fresh(b) && fresh(b.parts)
    ensures b.queryType == QueryType.InsertOrUpdate && b.buildSql == None && b.filter == []
    ensures b.start == 0 && b.limit == -1 && b.parameters == [Parameter("p_0", v)]
    ensures var st := b.parts.State();
      st.insert == table && st.setInsert == [] && st.setCommon == [(key, Some("@p_0"))]
      && st.setUpdate == [(other, Some(raw))] && st.where == "" && st.order == []
  {
    b := new MySqlQueryBuilder(Plain, Conventional, [], 0, -1, QueryType.Select);
    b.InsertOrUpdate(table);
    b.Set(key, v);
    b.SetUpdateRaw(other, Some(raw));
    assert ParamName(0) == "p_0" && "@" + "p_0" == "@p_0";
    assert Bindings([v], 0) == [Parameter("p_0", v)];
  }

  /** The text of an upsert with one common and one update-only assignment and nothing else. */
  lemma UpsertSql(s: PartsState, key: string, other: string, a: string, b: string)
    requires s.setInsert == [] && s.setCommon == [(key, Some(a))] && s.setUpdate == [(other, Some(b))]
    requires s.where == "" && s.order == []
    ensures var x := key + " = " + a;
      Sql(QueryType.InsertOrUpdate, s, 0, -1)
        == "INSERT INTO " + s.insert + " " + ("SET " + x) + " " + ("ON DUPLICATE KEY UPDATE " + (x + ", " + (other + " = " + b)))
  {
    UpsertClauses(s, key, other, a, b);
    UpsertText(s.insert, key + " = " + a, other + " = " + b);
  }

  /** A DELETE without WHERE, ORDER BY, OFFSET or LIMIT is `DELETE FROM` and the table. */
  lemma DeleteSql(s: PartsState)
    requires s.where == "" && s.order == []
    ensures Sql(QueryType.Delete, s, 0, -1) == "DELETE FROM " + s.from
  {
    assert Clauses(QueryType.Delete, s, 0, -1) == [DeleteFrom(s.from)];
  }

  /**
   * `buildSQL` caches its text: a WHERE set after the first call does not reach
   * the second. Only the `MySqlQueryParts` constructor assigns `from`, and it
   * assigns `""`, so the table name is empty.
   */
  method CachedBuild(w: string) returns (first: string, second: string)
    ensures first == second == "DELETE FROM "
  {
    var b := new MySqlQueryBuilder(Plain, Conventional, [], 0, -1, QueryType.Delete);
    first := b.BuildSQL();
    DeleteSql(b.parts.State());
    assert "DELETE FROM " + "" == "DELETE FROM ";
    b.Where(w);
    second := b.BuildSQL();
  }
}
