/**
 * What the builder takes from the `Elberos.Orm` base classes (`QueryBuilder`,
 * `QueryFilter`, `QueryOrder`, `QueryParameter`), whose source is not part of
 * this model: the statement kinds, the filter tree, the bound values and the
 * enum constants, whose concrete values are supplied by the caller.
 */
module Base {

  /** `QUERY_SELECT`, `QUERY_INSERT`, `QUERY_UPDATE`, `QUERY_DELETE`, `QUERY_INSERT_OR_UPDATE`. */
  datatype QueryType = Select | Insert | Update | Delete | InsertOrUpdate

  /** The found-rows mode `FOUND_ROWS_CALC`, the only one `calcFoundRows` acts in. */
  const FoundRowsCalc: int := 1

  /**
   * A value handed to `set` or to a filter. The source takes `dynamic`; the
   * closed set below is the one its (disabled) type check lists.
   */
  datatype Value = Null | Bool(b: bool) | Long(n: int) | Double(d: real) | Str(s: string)

  /** The payload of an IN filter: a `List<dynamic>` or anything else. */
  datatype InArg = List(items: seq<Value>) | NotList(other: Value)

  /**
   * A `QueryFilter`: an OR or AND node over a list of filters, an IN test
   * (type `TYPE_IN`), or a filter of any other type string `op`, which is
   * emitted verbatim as the SQL operator.
   */
  datatype QueryFilter =
    | Or(children: seq<QueryFilter>)
    | And(children: seq<QueryFilter>)
    | In(key: string, arg: InArg)
    | Cmp(key: string, op: string, value: Value)

  /**
   * The values of the base-class constants the builder compares against:
   * `QueryFilter.TYPE_EQUAL`, `QueryFilter.TYPE_NOT_EQUAL`, `QueryFilter.TYPE_IN`,
   * `QueryOrder.ASC` and `QueryOrder.DESC`.
   */
  datatype Tags = Tags(typeEqual: string, typeNotEqual: string, typeIn: string, orderAsc: int, orderDesc: int)

  /** A `QueryParameter(key, value)`: one bound value of the statement. */
  datatype Parameter = Parameter(key: string, value: Value)
}
