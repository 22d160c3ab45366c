/**
 * `MySqlQueryBuilder`: a mutable builder that collects clause fragments in a
 * `MySqlQueryParts`, registers bound parameters under generated names, and
 * assembles (and caches) the final SQL text.
 */
module Builder {
  import opened Wrappers
  import opened Text
  import opened Assoc
  import opened Base
  import opened QueryParts
  import opened Params
  import opened Naming
  import opened Modifiers
  import opened FilterCompiler
  import opened Statement
  import opened Updates

  class MySqlQueryBuilder {
    /** `_sql_parts`. */
    const parts: MySqlQueryParts
    /** What `getFieldName` consults in the base class: reserved words, `canAlias()`, `_alias`. */
    const naming: NamingContext
    /** The base-class constants `TYPE_EQUAL`, `TYPE_NOT_EQUAL`, `TYPE_IN`, `ASC`, `DESC`. */
    const tags: Tags
    /** The base class's `_filter` list. */
    const filter: seq<QueryFilter>
    /** `getStart()` and `getLimit()`. */
    const start: int
    const limit: int

    var foundRowsType: int
    var queryType: QueryType
    var parameters: seq<Parameter>
    var paramsInc: nat
    /** `_build_sql`; `None` is `null`. */
    var buildSql: Option<string>

    /** Every registered parameter was named by `getNextParameter`, in order, from `p_0`. */
    predicate Registered()
      reads this
    {
      |parameters| == paramsInc && Numbered(parameters, 0)
    }

    constructor (naming: NamingContext, tags: Tags, filter: seq<QueryFilter>, start: int, limit: int, queryType: QueryType)
      ensures this.naming == naming && this.tags == tags && this.filter == filter
      ensures this.start == start && this.limit == limit && this.queryType == queryType
      ensures fresh(parts) && parts.State() == EmptyParts
      ensures foundRowsType == FoundRowsCalc
      ensures parameters == [] && paramsInc == 0 && buildSql == None
      ensures Registered()
    {
      this.naming := naming;
      this.tags := tags;
      this.filter := filter;
      this.start := start;
      this.limit := limit;
      this.queryType := queryType;
      parts := new MySqlQueryParts();
      foundRowsType := FoundRowsCalc;
      parameters := [];
      paramsInc := 0;
      buildSql := None;
    }

    // -------------------------------------------------------------------------
    // Parameters
    // -------------------------------------------------------------------------

    /** `getNextParameter`: the name `p_<counter>`, then the counter moves on. */
    method GetNextParameter() returns (p: string)
      modifies this`paramsInc
      ensures p == ParamName(old(paramsInc)) && paramsInc == old(paramsInc) + 1
    {
      p := ParamName(paramsInc);
      paramsInc := paramsInc + 1;
    }

    method SetParameter(name: string, value: Value)
      modifies this`parameters
      ensures parameters == old(parameters) + [Parameter(name, value)]
    {
      parameters := parameters + [Parameter(name, value)];
    }

    // -------------------------------------------------------------------------
    // Statement kind and target
    // -------------------------------------------------------------------------

    /** `select(fields)`: a SELECT, with each field's qualified name appended to the column list. */
    method Select(fields: seq<string>)
      modifies this`queryType, parts`select
      ensures queryType == QueryType.Select
      ensures parts.select == old(parts.select) + FieldNames(naming, fields)
    {
      queryType := QueryType.Select;
      var i := 0;
      while i < |fields|
        invariant 0 <= i <= |fields|
        invariant queryType == QueryType.Select
        invariant parts.select == old(parts.select) + FieldNames(naming, fields[..i])
      {
        assert FieldNames(naming, fields[..i + 1]) == FieldNames(naming, fields[..i]) + [FieldName(naming, fields[i])];
        parts.select := parts.select + [FieldName(naming, fields[i])];
        i := i + 1;
      }
      assert fields[..i] == fields;
    }

    /** `insert(entity)`, given the name `getTableName()` returns for the entity. */
    method Insert(table: string)
      modifies this`queryType, parts`insert
      ensures queryType == QueryType.Insert && parts.insert == table
    {
      queryType := QueryType.Insert;
      parts.insert := table;
    }

    /** `update(entity)`: the target is the table name followed by the alias. */
    method Update(table: string)
      modifies this`queryType, parts`update
      ensures queryType == QueryType.Update && parts.update == table + " " + naming.alias
    {
      queryType := QueryType.Update;
      parts.update := table + " " + naming.alias;
    }

    /** `insertOrUpdate(entity)`: an upsert into the named table. */
    method InsertOrUpdate(table: string)
      modifies this`queryType, parts`insert
      ensures queryType == QueryType.InsertOrUpdate && parts.insert == table
    {
      queryType := QueryType.InsertOrUpdate;
      parts.insert := table;
    }

    /** `delete(entity)`: only the statement kind changes here. */
    method Delete()
      modifies this`queryType
      ensures queryType == QueryType.Delete
    {
      queryType := QueryType.Delete;
    }

    // -------------------------------------------------------------------------
    // Clause fragments
    // -------------------------------------------------------------------------

    /** `where(text)`: replaces the WHERE text, which then takes precedence over the filters. */
    method Where(w: string)
      modifies parts`where
      ensures parts.where == w
    {
      parts.where := w;
    }

    /** `addSelect(field)`: appends the field verbatim, without qualification. */
    method AddSelect(field: string)
      modifies parts`select
      ensures parts.select == old(parts.select) + [field]
    {
      parts.select := parts.select + [field];
    }

    /** `distinct(flag)`: adds `DISTINCT` once, or removes its first occurrence. */
    method Distinct(flag: bool)
      modifies parts`selectBefore
      ensures parts.selectBefore ==
        if flag then AddIfAbsent(old(parts.selectBefore), "DISTINCT")
        else RemoveFirst(old(parts.selectBefore), "DISTINCT")
    {
      if flag {
        if "DISTINCT" !in parts.selectBefore {
          parts.selectBefore := parts.selectBefore + ["DISTINCT"];
        }
      } else {
        if "DISTINCT" in parts.selectBefore {
          parts.selectBefore := RemoveFirst(parts.selectBefore, "DISTINCT");
        }
      }
    }

    /**
     * `calcFoundRows(flag)`: in `FOUND_ROWS_CALC` mode, `true` adds
     * `SQL_CALC_FOUND_ROWS` once. The removal branch runs only when the word is
     * absent, so `false` never changes anything.
     */
    method CalcFoundRows(flag: bool)
      modifies parts`selectBefore
      ensures parts.selectBefore ==
        if foundRowsType == FoundRowsCalc && flag
        then AddIfAbsent(old(parts.selectBefore), "SQL_CALC_FOUND_ROWS")
        else old(parts.selectBefore)
    {
      if foundRowsType != FoundRowsCalc {
        return;
      }
      if flag {
        if "SQL_CALC_FOUND_ROWS" !in parts.selectBefore {
          parts.selectBefore := parts.selectBefore + ["SQL_CALC_FOUND_ROWS"];
        }
      } else {
        if "SQL_CALC_FOUND_ROWS" !in parts.selectBefore {
          parts.selectBefore := RemoveFirst(parts.selectBefore, "SQL_CALC_FOUND_ROWS");
        }
      }
    }

    // -------------------------------------------------------------------------
    // Assignments
    // -------------------------------------------------------------------------

    /**
     * `set(key, value)`: a null value is stored as null and binds nothing; any
     * other value is bound to the next parameter and stored as its `@` placeholder.
     */
    method Set(key: string, value: Value)
      modifies parts`setCommon, this`parameters, this`paramsInc
      ensures parts.setCommon == Put(old(parts.setCommon), key, Assigned(value, old(paramsInc)))
      ensures parameters == old(parameters) + Bindings(if value.Null? then [] else [value], old(paramsInc))
      ensures paramsInc == old(paramsInc) + (if value.Null? then 0 else 1)
      ensures old(Registered()) ==> Registered()
    {
      if value.Null? {
        parts.setCommon := Put(parts.setCommon, key, None);
        return;
      }
      ghost var ps := parameters;
      var p := GetNextParameter();
      SetParameter(p, value);
      parts.setCommon := Put(parts.setCommon, key, Some("@" + p));
      if old(Registered()) {
        NumberedConcat(ps, [Parameter(p, value)], 0);
      }
    }

    /** `setInsert(key, value)`: as `set`, on the insert-only map. */
    method SetInsert(key: string, value: Value)
      modifies parts`setInsert, this`parameters, this`paramsInc
      ensures parts.setInsert == Put(old(parts.setInsert), key, Assigned(value, old(paramsInc)))
      ensures parameters == old(parameters) + Bindings(if value.Null? then [] else [value], old(paramsInc))
      ensures paramsInc == old(paramsInc) + (if value.Null? then 0 else 1)
      ensures old(Registered()) ==> Registered()
    {
      if value.Null? {
        parts.setInsert := Put(parts.setInsert, key, None);
        return;
      }
      ghost var ps := parameters;
      var p := GetNextParameter();
      SetParameter(p, value);
      parts.setInsert := Put(parts.setInsert, key, Some("@" + p));
      if old(Registered()) {
        NumberedConcat(ps, [Parameter(p, value)], 0);
      }
    }

    /** `setUpdate(key, value)`: as `set`, on the update-only map. */
    method SetUpdate(key: string, value: Value)
      modifies parts`setUpdate, this`parameters, this`paramsInc
      ensures parts.setUpdate == Put(old(parts.setUpdate), key, Assigned(value, old(paramsInc)))
      ensures parameters == old(parameters) + Bindings(if value.Null? then [] else [value], old(paramsInc))
      ensures paramsInc == old(paramsInc) + (if value.Null? then 0 else 1)
      ensures old(Registered()) ==> Registered()
    {
      if value.Null? {
        parts.setUpdate := Put(parts.setUpdate, key, None);
        return;
      }
      ghost var ps := parameters;
      var p := GetNextParameter();
      SetParameter(p, value);
      parts.setUpdate := Put(parts.setUpdate, key, Some("@" + p));
      if old(Registered()) {
        NumberedConcat(ps, [Parameter(p, value)], 0);
      }
    }

    /** `setRaw(key, sql)`: stores the SQL text (or null) verbatim, binding nothing. */
    method SetRaw(key: string, raw: Option<string>)
      modifies parts`setCommon
      ensures parts.setCommon == Put(old(parts.setCommon), key, raw)
    {
      if raw.None? {
        parts.setCommon := Put(parts.setCommon, key, None);
        return;
      }
      parts.setCommon := Put(parts.setCommon, key, raw);
    }

    /** `setInsertRaw(key, sql)`. */
    method SetInsertRaw(key: string, raw: Option<string>)
      modifies parts`setInsert
      ensures parts.setInsert == Put(old(parts.setInsert), key, raw)
    {
      if raw.None? {
        parts.setInsert := Put(parts.setInsert, key, None);
        return;
      }
      parts.setInsert := Put(parts.setInsert, key, raw);
    }

    /** `setUpdateRaw(key, sql)`. */
    method SetUpdateRaw(key: string, raw: Option<string>)
      modifies parts`setUpdate
      ensures parts.setUpdate == Put(old(parts.setUpdate), key, raw)
    {
      if raw.None? {
        parts.setUpdate := Put(parts.setUpdate, key, None);
        return;
      }
      parts.setUpdate := Put(parts.setUpdate, key, raw);
    }

    /** `setValues(arr)`: `set` for every entry, in enumeration order. */
    method SetValues(arr: seq<(string, Value)>)
      modifies parts`setCommon, this`parameters, this`paramsInc
      ensures parts.setCommon == SetAll(old(parts.setCommon), arr, old(paramsInc))
      ensures parameters == old(parameters) + Bindings(NonNullValues(arr), old(paramsInc))
      ensures paramsInc == old(paramsInc) + |NonNullValues(arr)|
      ensures old(Registered()) ==> Registered()
    {
      ghost var t0 := SetEffect(parts.setCommon, parameters, paramsInc);
      ghost var t := t0;
      var i := 0;
      while i < |arr|
        invariant 0 <= i <= |arr|
        invariant t == SetEach(t0, arr[..i])
        invariant parts.setCommon == t.assignments && parameters == t.params && paramsInc == t.counter
      {
        SetEachSnoc(t0, arr, i);
        Set(arr[i].0, arr[i].1);
        t := SetOne(t, arr[i].0, arr[i].1);
        i := i + 1;
      }
      assert arr[..i] == arr;
      SetEachEffect(t0, arr);
      if old(Registered()) {
        NumberedConcat(t0.params, Bindings(NonNullValues(arr), t0.counter), 0);
      }
    }

    /** `order(arr)`: replaces the ORDER BY list by the terms of the recognised directions. */
    method Order(arr: seq<(string, int)>)
      modifies parts`order
      ensures parts.order == OrderTerms(tags, arr)
    {
      var list := [];
      var i := 0;
      while i < |arr|
        invariant 0 <= i <= |arr|
        invariant list == OrderTerms(tags, arr[..i])
      {
        assert arr[..i + 1][..i] == arr[..i];
        if arr[i].1 == tags.orderAsc {
          list := list + [arr[i].0 + " ASC"];
        } else if arr[i].1 == tags.orderDesc {
          list := list + [arr[i].0 + " DESC"];
        }
        i := i + 1;
      }
      assert arr[..i] == arr;
      parts.order := list;
    }

    // -------------------------------------------------------------------------
    // Filters
    // -------------------------------------------------------------------------

    /** `filterOperation`: binds the value and compares the field with the type string as operator. */
    method FilterOperation(key: string, op: string, value: Value) returns (text: string)
      modifies this`parameters, this`paramsInc
      ensures text == OperationText(naming, key, op, old(paramsInc))
      ensures parameters == old(parameters) + [Parameter(ParamName(old(paramsInc)), value)]
      ensures paramsInc == old(paramsInc) + 1
    {
      var p := GetNextParameter();
      SetParameter(p, value);
      text := FieldName(naming, key) + " " + op + " :" + p;
    }

    /** The placeholders of an IN list: one fresh parameter per item. */
    method InList(items: seq<Value>) returns (r: seq<string>)
      modifies this`parameters, this`paramsInc
      ensures r == InPlaceholders(|items|, old(paramsInc))
      ensures parameters == old(parameters) + Bindings(items, old(paramsInc))
      ensures paramsInc == old(paramsInc) + |items|
    {
      r := [];
      var j := 0;
      while j < |items|
        invariant 0 <= j <= |items|
        invariant r == InPlaceholders(j, old(paramsInc))
        invariant parameters == old(parameters) + Bindings(items[..j], old(paramsInc))
        invariant paramsInc == old(paramsInc) + j
      {
        assert Bindings(items[..j + 1], old(paramsInc))
          == Bindings(items[..j], old(paramsInc)) + [Parameter(ParamName(old(paramsInc) + j), items[j])];
        var p := GetNextParameter();
        SetParameter(p, items[j]);
        r := r + ["@" + p];
        j := j + 1;
      }
      assert items[..j] == items;
    }

    /** `filterRecurse(fs)`: one SQL condition per filter, registering parameters left to right. */
    method FilterRecurse(fs: seq<QueryFilter>) returns (where: seq<string>)
      modifies this`parameters, this`paramsInc
      ensures var c := CompileFilters(naming, tags, fs, old(paramsInc));
        where == c.texts && parameters == old(parameters) + c.params
        && paramsInc == old(paramsInc) + |c.params|
      decreases fs
    {
      ghost var ps0, n0 := parameters, paramsInc;
      where := [];
      var i := 0;
      while i < |fs|
        invariant 0 <= i <= |fs|
        invariant where == CompileFilters(naming, tags, fs[..i], n0).texts
        invariant parameters == ps0 + CompileFilters(naming, tags, fs[..i], n0).params
        invariant paramsInc == n0 + |CompileFilters(naming, tags, fs[..i], n0).params|
      {
        ghost var c := CompileFilters(naming, tags, fs[..i], n0);
        ghost var p := CompileFilter(naming, tags, fs[i], n0 + |c.params|);
        CompileFiltersSnoc(naming, tags, fs, n0, i);
        ParamsAppend(ps0, c.params, p.params);
        var text := FilterOne(fs[i]);
        where := where + [text];
        i := i + 1;
      }
      assert fs[..i] == fs;
    }

    /** One iteration of the `filterRecurse` loop: the condition for a single filter. */
    method FilterOne(f: QueryFilter) returns (text: string)
      modifies this`parameters, this`paramsInc
      ensures var p := CompileFilter(naming, tags, f, old(paramsInc));
        text == p.text && parameters == old(parameters) + p.params
        && paramsInc == old(paramsInc) + |p.params|
      decreases f
    {
      if f.Or? {
        var orWhere := FilterRecurse(f.children);
        text := "(" + Join(" or ", orWhere) + ")";
      } else if f.And? {
        var andWhere := FilterRecurse(f.children);
        text := "(" + Join(" and ", andWhere) + ")";
      } else if (f.Cmp? && f.value.Null?) || (f.In? && f.arg.NotList? && f.arg.other.Null?) {
        var op := if f.Cmp? then f.op else tags.typeIn;
        if op == tags.typeEqual {
          text := FieldName(naming, f.key) + " is null";
        } else if op == tags.typeNotEqual {
          text := FieldName(naming, f.key) + " is not null";
        } else {
          text := "1 = 0";
        }
      } else if f.In? || f.op == tags.typeIn {
        if f.In? && f.arg.List? {
          var r := InList(f.arg.items);
          text := FieldName(naming, f.key) + " in [" + Join(", ", r) + "]";
        } else {
          text := "1 = 0";
        }
      } else {
        text := FilterOperation(f.key, f.op, f.value);
      }
    }

    // -------------------------------------------------------------------------
    // Assembly
    // -------------------------------------------------------------------------

    /** The `foreach` that appends `Key = Value` for every entry of an assignment map. */
    method AppendAssignments(arr: seq<string>, m: Assignments) returns (r: seq<string>)
      ensures r == arr + AssignmentTexts(m)
    {
      r := arr;
      var i := 0;
      while i < |m|
        invariant 0 <= i <= |m|
        invariant r == arr + AssignmentTexts(m[..i])
      {
        assert AssignmentTexts(m[..i + 1]) == AssignmentTexts(m[..i]) + [AssignmentText(m[i])];
        var value := if m[i].1.Some? then m[i].1.value else "";
        r := r + [m[i].0 + " = " + value];
        i := i + 1;
      }
      assert m[..i] == m;
    }

    /** The opening entries of the `sql` list: the keyword, modifiers, columns and table of each kind. */
    method OpeningTexts() returns (sql: seq<string>)
      ensures sql == Rendered(Opening(queryType, parts.State()))
    {
      if queryType == QueryType.Select {
        var before, select, from := parts.selectBefore, parts.select, parts.from;
        sql := ["SELECT"];
        if |before| > 0 {
          sql := sql + [Join(" ", before)];
        }
        if |select| > 0 {
          sql := sql + [Join(", ", select)];
        }
        sql := sql + ["FROM " + from];
        SelectOpeningRendered(parts.State());
      } else if queryType == QueryType.Insert || queryType == QueryType.InsertOrUpdate {
        sql := ["INSERT INTO " + parts.insert];
      } else if queryType == QueryType.Update {
        sql := ["UPDATE " + parts.update];
      } else {
        sql := ["DELETE FROM " + parts.from];
      }
    }

    /** The SET entries: insert-specific then generic for INSERT and upsert, generic then update-specific for UPDATE. */
    method SetTexts() returns (arr: seq<string>)
      ensures arr == SetItems(queryType, parts.State())
    {
      var ins, common, upd := parts.setInsert, parts.setCommon, parts.setUpdate;
      arr := [];
      if queryType == QueryType.Insert || queryType == QueryType.InsertOrUpdate {
        if |ins| > 0 {
          arr := AppendAssignments(arr, ins);
        }
        if |common| > 0 {
          arr := AppendAssignments(arr, common);
        }
        assert arr == AssignmentTexts(ins) + AssignmentTexts(common);
      } else if queryType == QueryType.Update {
        if |common| > 0 {
          arr := AppendAssignments(arr, common);
        }
        if |upd| > 0 {
          arr := AppendAssignments(arr, upd);
        }
        assert arr == AssignmentTexts(common) + AssignmentTexts(upd);
      }
    }

    /** The `ON DUPLICATE KEY UPDATE` entries of an upsert: generic then update-specific. */
    method DuplicateTexts() returns (arr: seq<string>)
      ensures arr == DuplicateItems(queryType, parts.State())
    {
      var common, upd := parts.setCommon, parts.setUpdate;
      arr := [];
      if queryType == QueryType.InsertOrUpdate {
        if |common| > 0 {
          arr := AppendAssignments(arr, common);
        }
        if |upd| > 0 {
          arr := AppendAssignments(arr, upd);
        }
        assert arr == AssignmentTexts(common) + AssignmentTexts(upd);
      }
    }

    /** The `sql` list `buildSQL` assembles from the parts, clause by clause. */
    method ClauseTexts() returns (sql: seq<string>)
      ensures sql == Rendered(Clauses(queryType, parts.State(), start, limit))
    {
      ghost var s := parts.State();
      ghost var kind := queryType;
      sql := OpeningTexts();

      var assignments := SetTexts();
      if |assignments| > 0 {
        sql := sql + ["SET " + Join(", ", assignments)];
      }
      SetRendered(kind, s);

      var duplicate := DuplicateTexts();
      if |duplicate| > 0 {
        sql := sql + ["ON DUPLICATE KEY UPDATE " + Join(", ", duplicate)];
      }
      DuplicateRendered(kind, s);

      if parts.where != "" {
        sql := sql + ["WHERE " + parts.where];
      }
      WhereRendered(kind, s);

      if |parts.order| > 0 {
        sql := sql + ["ORDER BY " + Join(", ", parts.order)];
      }
      OrderRendered(kind, s);

      if start > 0 {
        sql := sql + ["OFFSET " + NatToString(start)];
      }
      OffsetRendered(kind, s, start);

      if limit >= 0 {
        sql := sql + ["LIMIT " + NatToString(limit)];
      }
      LimitRendered(kind, s, start, limit);
    }

    /**
     * `buildSQL`: the cached text when there is one. Otherwise the filters are
     * compiled into the WHERE text when there are filters and no WHERE text yet,
     * the statement is assembled from the parts, and the result is cached.
     */
    method BuildSQL() returns (sql: string)
      modifies this`buildSql, parts`where, this`parameters, this`paramsInc
      ensures old(buildSql).Some? ==>
        sql == old(buildSql).value && buildSql == old(buildSql)
        && parts.where == old(parts.where) && parameters == old(parameters) && paramsInc == old(paramsInc)
      ensures old(buildSql).None? ==>
        var compiled := |filter| > 0 && old(parts.where) == "";
        var c := CompileFilters(naming, tags, filter, old(paramsInc));
        parts.where == (if compiled then WhereText(naming, tags, filter, old(paramsInc)) else old(parts.where))
        && parameters == old(parameters) + (if compiled then c.params else [])
        && paramsInc == old(paramsInc) + (if compiled then |c.params| else 0)
        && sql == Sql(queryType, parts.State(), start, limit)
        && buildSql == Some(sql)
      ensures old(Registered()) ==> Registered()
    {
      if buildSql.Some? {
        return buildSql.value;
      }
      if |filter| > 0 && parts.where == "" {
        ghost var ps := parameters;
        var andWhere := FilterRecurse(filter);
        var where := Join(" and ", andWhere);
        WhereTextNonEmpty(naming, tags, filter, old(paramsInc));
        if where != "" {
          parts.where := where;
        }
        if old(Registered()) {
          FiltersParams(naming, tags, filter, old(paramsInc));
          NumberedConcat(ps, Bindings(LiteralsOf(tags, filter), old(paramsInc)), 0);
        }
      }
      var clauses := ClauseTexts();
      sql := Join(" ", clauses);
      buildSql := Some(sql);
    }
  }
}
