# MySqlQueryBuilder — a verified model of the statement assembler

`MySqlQueryBuilder` is the MySQL back end of the `Elberos.Orm` query builder.
A caller picks a statement kind and fills in the parts of the statement
through fluent setters. The parts are columns, SELECT modifiers, assignment
maps, an ORDER BY list and a WHERE text, and they live in a mutable
`MySqlQueryParts` record. `buildSQL` then assembles the parts into one MySQL
statement and caches it. Bound values are registered as parameters named
`p_0`, `p_1`, … by a counter. A tree of `QueryFilter` nodes is compiled into
the WHERE text by `filterRecurse`.

The model has one Dafny module per concern:

- `QueryParts`: the `MySqlQueryParts` record, as a class with one field per
  C# field, and `PartsState`, its value at one moment.
- `Builder`: the `MySqlQueryBuilder` class. Each setter is a method that
  changes only the fields it names in `modifies`. `insert`, `update`,
  `insertOrUpdate`, `delete`, `where` and `addSelect` state their new fields
  directly. The other methods are
  proved against a specification function from the modules below.
- `Params`: the parameter registry. It holds the names the counter hands
  out and the `(name, value)` list they go into.
- `Naming`: `getFieldName`.
- `Modifiers`: the `select_before` list operations behind `distinct` and
  `calcFoundRows`.
- `Updates`: what `setValues` and `order` compute.
- `FilterCompiler`: `filterRecurse` and `filterOperation` as pure functions.
  Beside them sit a reference definition of the literals of a filter tree
  and a parenthesis-balance measure.
- `Statement`: the clause list `buildSQL` emits, built in stages, with its
  ordering and presence properties.
- `Text`, `Assoc`, `Wrappers`, `Base`: `String.Join` and decimal rendering,
  insertion-ordered dictionaries, `Option`, and the inputs from the `Elberos.Orm`
  base classes, which this model does not cover.
- `Scenarios`: concrete filters and a short builder session (an upsert, and
  the cache), proved end to end.

Base-class members whose source is not part of this model become inputs
fixed at construction. These are the `QueryFilter`/`QueryOrder` constants
(`Base.Tags`), `_alias` and `canAlias()` (`Naming.NamingContext`),
`getStart()`, `getLimit()` and `_filter`. The reserved-word table of
`MySqlConnection` is an input too, held in `Naming.NamingContext`. The table name
`getTableName()` yields is a method parameter.

The model follows the code, including these behaviours a reader may not expect:

- An IN filter over an empty list yields `field in []`, which is not a
  false condition.
- A SELECT with no columns has no `*`.
- `filterOperation` uses `:p_n` placeholders. `set` and IN lists use `@p_n`.
- The top-level filters are joined by ` and ` without parentheses.
- `calcFoundRows(false)` changes nothing, because its removal branch runs
  only when the word is absent.
- The `MySqlQueryParts` constructor assigns `new List<string>()` to the
  dictionary fields, `""` to the `order` list, and `""` to every string part,
  `from` included. These are read as the
  intended empty collections.
- `buildSQL` emits OFFSET before LIMIT. MySQL's grammar accepts only
  `LIMIT n OFFSET m` or `LIMIT m, n`, so a statement with a positive start is
  not valid MySQL. The model keeps the emitted order, and "ordered" in the
  lemmas below means the order `buildSQL` emits, not MySQL's clause order.
- Only the `MySqlQueryParts` constructor assigns `from`, and it assigns `""`.
  So SELECT and DELETE read `FROM ` followed by whatever the caller stored
  there, which is an empty table name by default.

## Model

| member | source | states |
|---|---|---|
| QueryParts.MySqlQueryParts.constructor | src/MySqlQueryParts.cs:31-44 | every list and map of a new parts record is empty and every string part is `""` |
| Builder.MySqlQueryBuilder.constructor | src/MySqlQueryBuilder.cs:39-48 | a fresh builder has found-rows mode CALC, an empty parts record, no parameters, counter 0 and no cached text, and its registry is consistent |
| Builder.MySqlQueryBuilder.GetNextParameter | src/MySqlQueryBuilder.cs:61-63 | returns `p_` followed by the counter's old value, and increments the counter |
| Builder.MySqlQueryBuilder.SetParameter | src/MySqlQueryBuilder.cs:97-100 | appends exactly one `(name, value)` pair to the parameter list |
| Params.ParamName | src/MySqlQueryBuilder.cs:62 | `p_` followed by the decimal counter |
| Text.NatToString | src/MySqlQueryBuilder.cs:62 | the decimal digits of a counter, at least one, and a single digit exactly below 10 |
| Text.Join | src/MySqlQueryBuilder.cs:719 | `String.Join`: the elements with the separator between neighbours |
| Params.ParamNameInjective | src/MySqlQueryBuilder.cs:61-63 | different counter values never give the same parameter name |
| Params.ParamNameShape | src/MySqlQueryBuilder.cs:61-63 | every parameter name is `p_` followed by one or more decimal digits, with no parenthesis |
| Params.NumberedDistinct | src/MySqlQueryBuilder.cs:47 | parameters numbered consecutively by the counter have pairwise distinct names |
| Params.NumberedConcat | src/MySqlQueryBuilder.cs:97-100 | appending parameters numbered from where the list ends keeps the whole list numbered from `p_0` |
| Params.BindingsConcat | src/MySqlQueryBuilder.cs:773-775 | binding two value lists in turn equals binding their concatenation |
| Text.NatToStringInjective | src/MySqlQueryBuilder.cs:62 | the decimal rendering of a counter value determines the value |
| Text.JoinFirst | src/MySqlQueryBuilder.cs:719 | a joined text begins with its first element |
| Text.JoinLast | src/MySqlQueryBuilder.cs:719 | a joined text ends with its last element |
| Text.JoinNonEmpty | src/MySqlQueryBuilder.cs:619 | joining a list whose first element is non-empty gives a non-empty text |
| Text.JoinBalanced | src/MySqlQueryBuilder.cs:736 | joining balanced texts with a separator that has no parenthesis gives a balanced text |
| Naming.FieldNameShape | src/MySqlQueryBuilder.cs:73-85 | the field name is the alias prefix, exactly when aliasing is on and the name has no `.`, followed by the name, backtick-quoted exactly when it is reserved |
| Naming.FieldNameQualified | src/MySqlQueryBuilder.cs:79-84 | with aliasing on, every field name contains a `.` |
| Naming.FieldNameIdempotent | src/MySqlQueryBuilder.cs:73-85 | applying `getFieldName` to its own result changes nothing, provided no reserved word contains `.` or a backtick |
| Naming.FieldName | src/MySqlQueryBuilder.cs:73-85 | `getFieldName`: a reserved name is backtick-quoted, then prefixed with the alias and `.` when aliasing is on and the result has no `.`; its closed form is `FieldNameShape` |
| Naming.FieldNamesConcat | src/MySqlQueryBuilder.cs:148-150 | qualifying two name lists in turn is qualifying their concatenation |
| Naming.FieldNamesQualified | src/MySqlQueryBuilder.cs:148-150 | with aliasing on, every column `select` adds contains a `.` |
| Builder.MySqlQueryBuilder.Select | src/MySqlQueryBuilder.cs:145-153 | sets the kind to SELECT and appends each field's `getFieldName` to the column list, in order |
| Builder.MySqlQueryBuilder.Insert | src/MySqlQueryBuilder.cs:164-169 | sets the kind to INSERT and the insert target to the table name |
| Builder.MySqlQueryBuilder.Update | src/MySqlQueryBuilder.cs:180-185 | sets the kind to UPDATE and the update target to the table name, a space and the alias |
| Builder.MySqlQueryBuilder.InsertOrUpdate | src/MySqlQueryBuilder.cs:196-201 | sets the kind to upsert and the insert target to the table name |
| Builder.MySqlQueryBuilder.Delete | src/MySqlQueryBuilder.cs:212-216 | sets the kind to DELETE and changes nothing else |
| Builder.MySqlQueryBuilder.Where | src/MySqlQueryBuilder.cs:226-229 | replaces the WHERE text |
| Builder.MySqlQueryBuilder.AddSelect | src/MySqlQueryBuilder.cs:239-242 | appends the field verbatim, without qualification |
| Builder.MySqlQueryBuilder.Distinct | src/MySqlQueryBuilder.cs:252-264 | `true` adds `DISTINCT` if absent, `false` removes its first occurrence |
| Modifiers.AddIfAbsent | src/MySqlQueryBuilder.cs:254-256 | the word is present afterwards and is added only when it was absent (multiset) |
| Modifiers.AddIfAbsentNoDuplicate | src/MySqlQueryBuilder.cs:252-264 | adding a word that occurs at most once leaves exactly one occurrence |
| Modifiers.RemoveFirst | src/MySqlQueryBuilder.cs:259-261 | removes one occurrence of the word (multiset) and is the identity when it is absent |
| Modifiers.RemoveFirstRemovesAll | src/MySqlQueryBuilder.cs:259-261 | removing a word that occurs at most once leaves none |
| Modifiers.RemoveFirstAt | src/MySqlQueryBuilder.cs:259-261 | removal deletes exactly the position of the first occurrence and keeps the order of the rest |
| Builder.MySqlQueryBuilder.CalcFoundRows | src/MySqlQueryBuilder.cs:274-290 | in CALC mode `true` adds `SQL_CALC_FOUND_ROWS` if absent; in every other case nothing changes |
| Assoc.Put | src/MySqlQueryBuilder.cs:309 | the dictionary indexer's write: overwrite in place or append |
| Assoc.Get | src/MySqlQueryBuilder.cs:303-309 | the value a key holds in the dictionary, absent when it was never written |
| Assoc.PutKeys | src/MySqlQueryBuilder.cs:309 | a dictionary write keeps the key order when the key is present and appends the key at the end when it is new |
| Assoc.PutDistinct | src/MySqlQueryBuilder.cs:309 | a dictionary write keeps the keys distinct |
| Assoc.GetMissing | src/MySqlQueryBuilder.cs:309 | a key that was never written has no entry |
| Assoc.PutGet | src/MySqlQueryBuilder.cs:309 | after a write the key yields the written value |
| Assoc.PutGetOther | src/MySqlQueryBuilder.cs:309 | a write leaves every other key's value unchanged |
| Builder.MySqlQueryBuilder.Set | src/MySqlQueryBuilder.cs:301-312 | null stores null in the common map. Any other value registers one fresh parameter and stores its `@` placeholder under the key. Only that map, the list and the counter change, and the registry stays consistent |
| Builder.MySqlQueryBuilder.SetInsert | src/MySqlQueryBuilder.cs:323-334 | as `set`, on the insert-only map |
| Builder.MySqlQueryBuilder.SetUpdate | src/MySqlQueryBuilder.cs:345-356 | as `set`, on the update-only map |
| Builder.MySqlQueryBuilder.SetRaw | src/MySqlQueryBuilder.cs:367-376 | stores the text or null verbatim in the common map and registers nothing |
| Builder.MySqlQueryBuilder.SetInsertRaw | src/MySqlQueryBuilder.cs:387-396 | as `setRaw`, on the insert-only map |
| Builder.MySqlQueryBuilder.SetUpdateRaw | src/MySqlQueryBuilder.cs:407-416 | as `setRaw`, on the update-only map |
| Builder.MySqlQueryBuilder.SetValues | src/MySqlQueryBuilder.cs:426-431 | the map is the result of `set` for each entry in turn. One parameter is registered per non-null value, numbered on from the counter, and the registry stays consistent |
| Updates.Assigned | src/MySqlQueryBuilder.cs:301-312 | what `set` stores: null, or `@` and the name of the parameter just registered |
| Updates.SetAll | src/MySqlQueryBuilder.cs:426-431 | the common map after `set` for each entry in turn |
| Updates.SetEachEffect | src/MySqlQueryBuilder.cs:426-431 | `set` for each entry in turn leaves the map `SetAll` describes, registers one parameter per non-null value, numbered on from the counter, and moves the counter past them |
| Updates.SetEachCounter | src/MySqlQueryBuilder.cs:426-431 | the counter advances by the number of non-null values |
| Updates.SetEachParams | src/MySqlQueryBuilder.cs:426-431 | the non-null values are bound in order, numbered on from the counter |
| Updates.SetEachAssignments | src/MySqlQueryBuilder.cs:426-431 | the assignment map ends up as `SetAll` describes |
| Updates.SetAllGetLatest | src/MySqlQueryBuilder.cs:426-431 | the last entry for a key decides its value, whatever other keys follow |
| Updates.SetAllGet | src/MySqlQueryBuilder.cs:426-431 | with distinct keys, each key ends up holding the placeholder of the parameter its own `set` registered, or null |
| Updates.SetAllGetLast | src/MySqlQueryBuilder.cs:426-431 | the last entry's value wins for its key |
| Updates.SetAllGetEarlier | src/MySqlQueryBuilder.cs:426-431 | a later entry for another key leaves an earlier key's value alone |
| Updates.SetAllOther | src/MySqlQueryBuilder.cs:426-431 | a key not in the input keeps its previous value |
| Updates.SetAllDistinct | src/MySqlQueryBuilder.cs:426-431 | no key is dropped and distinct keys stay distinct |
| Builder.MySqlQueryBuilder.Order | src/MySqlQueryBuilder.cs:441-455 | replaces the ORDER BY list with one `key ASC`/`key DESC` term per recognised entry, in order |
| Updates.OrderTerms | src/MySqlQueryBuilder.cs:441-455 | one `key ASC` or `key DESC` per entry with a recognised direction, in order |
| Updates.OrderTermsConcat | src/MySqlQueryBuilder.cs:443-451 | the terms of two entry lists in turn are the terms of their concatenation |
| Updates.OrderTermsSkip | src/MySqlQueryBuilder.cs:445-450 | an entry that is neither ASC nor DESC contributes no term |
| Updates.OrderTermsAllKnown | src/MySqlQueryBuilder.cs:443-451 | when every direction is recognised, there is exactly one term per entry, in order |
| FilterCompiler.InPlaceholdersDistinct | src/MySqlQueryBuilder.cs:767-776 | the placeholders of one IN list are pairwise distinct |
| FilterCompiler.OperationText | src/MySqlQueryBuilder.cs:812 | the field name, the filter type as operator, and `:` with the parameter name |
| FilterCompiler.InText | src/MySqlQueryBuilder.cs:778 | the field name, ` in [`, the placeholders joined by `, `, and `]` |
| FilterCompiler.WhereText | src/MySqlQueryBuilder.cs:617-619 | the top-level filter texts joined by ` and ` |
| FilterCompiler.Literals | src/MySqlQueryBuilder.cs:731-792 | the values a filter binds, left to right: non-null comparison values that are not IN, and IN-list items; the reference that `FilterParams` is proved against |
| FilterCompiler.NullTest | src/MySqlQueryBuilder.cs:750-759 | the null branch never yields an empty text |
| FilterCompiler.CompileFilter | src/MySqlQueryBuilder.cs:731-792 | every filter compiles to a non-empty text |
| FilterCompiler.CompileFilters | src/MySqlQueryBuilder.cs:728-795 | `filterRecurse` yields exactly one string per input filter |
| FilterCompiler.FiltersTextAt | src/MySqlQueryBuilder.cs:731-792 | the `i`-th string is the `i`-th filter compiled with the counter advanced past the literals of the filters before it |
| FilterCompiler.FilterParams | src/MySqlQueryBuilder.cs:773-775 | a filter registers exactly its literals, in reading order, named consecutively from the counter |
| FilterCompiler.FiltersParams | src/MySqlQueryBuilder.cs:728-795 | a filter list registers the literals of its filters left to right, named consecutively from the counter |
| FilterCompiler.FiltersParamsDistinct | src/MySqlQueryBuilder.cs:728-813 | one parameter per literal, with pairwise distinct names |
| FilterCompiler.LiteralsOfSnoc | src/MySqlQueryBuilder.cs:731 | the literals of a list are those of all but the last filter, then those of the last |
| FilterCompiler.WhereTextNonEmpty | src/MySqlQueryBuilder.cs:617-623 | a non-empty filter list always gives a non-empty WHERE text, so the `where != ""` guard never skips it |
| FilterCompiler.FilterBalanced | src/MySqlQueryBuilder.cs:734-743 | every AND/OR group is wrapped in matched parentheses, so the text is balanced when keys, operators and the alias have none |
| FilterCompiler.FiltersBalanced | src/MySqlQueryBuilder.cs:728-795 | every string `filterRecurse` yields is balanced |
| FilterCompiler.CmpBalanced | src/MySqlQueryBuilder.cs:750-789 | a comparison or null test is balanced |
| FilterCompiler.InBalanced | src/MySqlQueryBuilder.cs:763-783 | an IN filter is balanced |
| FilterCompiler.InTextBalanced | src/MySqlQueryBuilder.cs:778 | the `in [..]` text is balanced |
| FilterCompiler.NullTestBalanced | src/MySqlQueryBuilder.cs:750-759 | the null tests are balanced |
| Builder.MySqlQueryBuilder.FilterOperation | src/MySqlQueryBuilder.cs:802-813 | returns field, operator and `:p_n`, and registers the value under `p_n` |
| Builder.MySqlQueryBuilder.InList | src/MySqlQueryBuilder.cs:764-776 | returns one `@p_n` placeholder per item and registers the items in order |
| Builder.MySqlQueryBuilder.FilterOne | src/MySqlQueryBuilder.cs:731-792 | one loop iteration yields the compiled text of its filter and registers that filter's parameters |
| Builder.MySqlQueryBuilder.FilterRecurse | src/MySqlQueryBuilder.cs:728-795 | yields the compiled texts of the list and registers their parameters in order |
| Statement.AssignmentText | src/MySqlQueryBuilder.cs:653 | `key = value`, with an empty value for null |
| Statement.AssignmentTextsConcat | src/MySqlQueryBuilder.cs:648-681 | the texts of two maps in turn are the texts of their concatenation |
| Builder.MySqlQueryBuilder.AppendAssignments | src/MySqlQueryBuilder.cs:652-654 | the `foreach` appends one text per map entry, in order |
| Builder.MySqlQueryBuilder.OpeningTexts | src/MySqlQueryBuilder.cs:626-646 | yields the rendered opening clauses of the kind |
| Builder.MySqlQueryBuilder.SetTexts | src/MySqlQueryBuilder.cs:648-681 | yields the SET entries of the kind |
| Builder.MySqlQueryBuilder.DuplicateTexts | src/MySqlQueryBuilder.cs:684-699 | yields the ON DUPLICATE KEY UPDATE entries |
| Builder.MySqlQueryBuilder.ClauseTexts | src/MySqlQueryBuilder.cs:626-717 | the local `sql` list is the rendering of the clause list |
| Statement.Render | src/MySqlQueryBuilder.cs:627-716 | the text each `sql.Add` contributes for a clause |
| Statement.RenderedConcat | src/MySqlQueryBuilder.cs:627-716 | rendering two clause lists in turn is rendering their concatenation |
| Statement.Opening | src/MySqlQueryBuilder.cs:626-646 | the opening clauses of each of the five kinds |
| Statement.SetItems | src/MySqlQueryBuilder.cs:648-681 | the SET entries of each kind |
| Statement.DuplicateItems | src/MySqlQueryBuilder.cs:684-699 | the ON DUPLICATE KEY UPDATE entries, common first |
| Statement.Clauses | src/MySqlQueryBuilder.cs:626-717 | the clause list `buildSQL` adds, stage by stage |
| Statement.Sql | src/MySqlQueryBuilder.cs:626-719 | the clause texts joined by single spaces |
| Statement.RenderedThen | src/MySqlQueryBuilder.cs:629-716 | a conditional `sql.Add` appends the clause's text exactly when its condition holds |
| Statement.SetRendered | src/MySqlQueryBuilder.cs:662-663 | SET adds `SET` and the joined entries exactly when there are entries |
| Statement.DuplicateRendered | src/MySqlQueryBuilder.cs:697-698 | ON DUPLICATE KEY UPDATE is added exactly when there are entries |
| Statement.WhereRendered | src/MySqlQueryBuilder.cs:701-702 | WHERE is added exactly when the WHERE text is non-empty |
| Statement.OrderRendered | src/MySqlQueryBuilder.cs:705-706 | ORDER BY is added exactly when there are terms |
| Statement.OffsetRendered | src/MySqlQueryBuilder.cs:709-712 | OFFSET is added exactly when the start is positive |
| Statement.LimitRendered | src/MySqlQueryBuilder.cs:714-717 | LIMIT is added exactly when the limit is non-negative |
| Statement.ThenOrdered | src/MySqlQueryBuilder.cs:629-716 | appending a clause of the next rank keeps the list in the order `buildSQL` emits |
| Statement.OpeningOrdered | src/MySqlQueryBuilder.cs:626-646 | the opening clauses are in order, start with the kind's keyword and precede SET |
| Statement.WithDuplicateOrdered | src/MySqlQueryBuilder.cs:626-699 | clauses up to ON DUPLICATE KEY UPDATE are in order |
| Statement.WithOrderOrdered | src/MySqlQueryBuilder.cs:626-706 | clauses up to ORDER BY are in order |
| Statement.ClausesOrdered | src/MySqlQueryBuilder.cs:626-717 | every statement opens with its kind's keyword. Its clauses follow the order `buildSQL` emits, each at most once: modifiers, columns, FROM, SET, ON DUPLICATE KEY UPDATE, WHERE, ORDER BY, OFFSET, LIMIT |
| Statement.SelectOpeningRendered | src/MySqlQueryBuilder.cs:626-636 | a SELECT opens with `SELECT`, then the joined modifiers and the joined columns, each only when present, then `FROM` and the table |
| Statement.RenderedEnds | src/MySqlQueryBuilder.cs:719 | the statement text ends with the text of its last clause |
| Statement.SqlOpening | src/MySqlQueryBuilder.cs:626-646 | the statement text begins with `SELECT`, `INSERT INTO` and the target, `UPDATE` and the target, or `DELETE FROM` and `from` |
| Statement.WherePresence | src/MySqlQueryBuilder.cs:701-702 | WHERE appears if and only if the WHERE text is non-empty, and carries it verbatim |
| Statement.OffsetPresence | src/MySqlQueryBuilder.cs:709-712 | OFFSET appears, carrying the start, when the start is positive, and is absent otherwise |
| Statement.OrderPresence | src/MySqlQueryBuilder.cs:705-706 | ORDER BY appears if and only if there are order terms, and every ORDER BY clause carries them |
| Statement.ModifiersPresence | src/MySqlQueryBuilder.cs:627-631 | the modifiers clause appears if and only if the kind is SELECT and there are modifiers, and every modifiers clause carries them |
| Statement.LimitPresence | src/MySqlQueryBuilder.cs:714-717 | a non-negative limit, 0 included, gives a closing LIMIT clause; a negative one gives none |
| Statement.SqlLimit | src/MySqlQueryBuilder.cs:714-719 | with a non-negative limit the statement text ends in `LIMIT` and the limit |
| Statement.SelectColumns | src/MySqlQueryBuilder.cs:632-635 | SELECT has a column list if and only if columns were selected, so there is no implicit `*` |
| Statement.SetListing | src/MySqlQueryBuilder.cs:648-681 | the SET clause appears exactly when its entries are non-empty. INSERT and upsert list insert-only entries, then common ones, without merging keys; UPDATE lists common, then update-only; SELECT and DELETE have none |
| Statement.DuplicatePresence | src/MySqlQueryBuilder.cs:684-699 | ON DUPLICATE KEY UPDATE appears only in an upsert, exactly when the common or update-only map has entries, and lists common entries first |
| Builder.MySqlQueryBuilder.BuildSQL | src/MySqlQueryBuilder.cs:610-721 | a cached text is returned and nothing changes. Otherwise the filters are compiled into WHERE exactly when there are filters and no WHERE text, their parameters are registered, and the text is the assembled statement, which is cached. The registry stays consistent |
| Scenarios.NestedFilter | src/MySqlQueryBuilder.cs:728-813 | an AND of a comparison and an OR group compiles to `(status = :p_0 and (age > :p_1 or age < :p_2))` with its three values bound in order |
| Scenarios.AgeRange | src/MySqlQueryBuilder.cs:734-737 | an OR group with the counter at 1 compiles to `(age > :p_1 or age < :p_2)` |
| Scenarios.CompilePair | src/MySqlQueryBuilder.cs:728-795 | two filters compile in turn, the second with the counter past the first's parameters |
| Scenarios.OrPair | src/MySqlQueryBuilder.cs:734-737 | an OR group of two filters is their texts joined by ` or ` in parentheses, with their parameters in order |
| Scenarios.AndPair | src/MySqlQueryBuilder.cs:740-743 | an AND group of two filters is their texts joined by ` and ` in parentheses, with their parameters in order |
| Scenarios.PlainComparison | src/MySqlQueryBuilder.cs:802-813 | with plain names a comparison is `key op :p_n` and binds its value as `p_n` |
| Scenarios.NullEquality | src/MySqlQueryBuilder.cs:750-753 | an equality with null is `is null` and binds nothing |
| Scenarios.NullOtherOperator | src/MySqlQueryBuilder.cs:757-758 | null with any other operator is `1 = 0` and binds nothing |
| Scenarios.EmptyInList | src/MySqlQueryBuilder.cs:764-778 | an empty IN list is `id in []` and binds nothing |
| Scenarios.UpsertClauses | src/MySqlQueryBuilder.cs:648-699 | in an upsert the common assignment appears in both SET and ON DUPLICATE KEY UPDATE, and the update-only one only in the second |
| Scenarios.UpsertText | src/MySqlQueryBuilder.cs:719 | the three clause texts of an upsert are joined by single spaces |
| Scenarios.UpsertSql | src/MySqlQueryBuilder.cs:626-719 | an upsert with one common and one update-only assignment reads `INSERT INTO t SET k = v ON DUPLICATE KEY UPDATE k = v, o = w` |
| Scenarios.DeleteSql | src/MySqlQueryBuilder.cs:626-719 | a DELETE without WHERE, ORDER BY, OFFSET or LIMIT is `DELETE FROM` and the table |
| Scenarios.Upsert | src/MySqlQueryBuilder.cs:610-721 | `insertOrUpdate`, `set`, `setUpdateRaw`, `buildSQL` on a fresh builder give `INSERT INTO t SET k = @p_0 ON DUPLICATE KEY UPDATE k = @p_0, o = raw`, with the value bound once as `p_0` |
| Scenarios.CachedBuild | src/MySqlQueryBuilder.cs:612-613 | a WHERE set after the first `buildSQL` does not reach the second, which returns the cached `DELETE FROM ` |

## Left out

- `execute`, `prepare`, `getRawResult`, `foundRows` and `lastInsertId` talk to the database through `MySqlConnection` and `MySqlCommand`, asynchronously. They are I/O. Only the found-rows mode is kept, as the field that gates `calcFoundRows`.
- `getSql` depends on the connection's `escapeVar` and on .NET regular expressions. It also discards the result of the replacement, so it returns the `buildSQL` text unchanged.
- `getParameters`, `getSqlQuery` and `setSqlQuery` are plain accessors. The parts record is fixed at construction, so aliasing a replaced record is not modelled.
- `setEntity` and `getTableName` belong to the base class, whose source is not part of this model. `insert`, `update` and `insertOrUpdate` take the resulting table name as a parameter, and `delete` records only the statement kind.
- `MySqlQueryBuilder` declares `_sql_parts` and `_parameters` as `null` and never initialises them: `_parameters` is never assigned, and `_sql_parts` only by `setSqlQuery`. On a fresh builder, `set` would dereference a null list. The model assumes both start as an empty parts record and an empty parameter list, and its constructor says so.
- The reserved-word table `MySqlConnection.MYSQL_RESERVERD_WORDS` is an arbitrary set supplied by the caller. `IndexOf` on it is modelled as membership, and culture-sensitive string comparison is not modelled.
- Builder.MySqlQueryBuilder.Update: the `alias` argument of `update` (and of `insert`, `insertOrUpdate` and `delete`) is dropped. `setEntity` is taken to leave `_alias` as it was at construction, so the UPDATE target uses the builder's fixed alias, and so does `getFieldName`.
- A statement kind other than the five `QUERY_*` constants is not representable: `QueryType` has exactly five cases. For such a kind `buildSQL` emits no opening clause, which the model does not capture.
- `setRaw`, `setInsertRaw` and `setUpdateRaw` take an optional string. The C# methods take `dynamic` and fail at run time for a value that is not a string; that failure is not modelled.
- Builder.MySqlQueryBuilder.GetNextParameter: the `long` counter never overflows; the model's counter is unbounded.
- Values are a closed datatype (null, boolean, integer, real, string), in place of `dynamic`. The commented-out type check is not modelled. A comparison's value cannot be a list, because `Value` has no list case. So an OR or AND filter whose payload is a list of something other than filters is not representable. An OR or AND type string with a scalar or null value is a `Cmp` and takes the comparison branch, as the code does.
- `null` string arguments are not modelled: keys, fields and table names are strings, and `select(null)` is not allowed. A null raw value is `None`.
- Dictionaries are insertion-ordered association lists, in which a write to an existing key overwrites it in place. .NET does not formally promise this enumeration order.
- `OFFSET` and `LIMIT` render their values as decimal numbers. The SQL texts are not parsed or checked against MySQL grammar.
