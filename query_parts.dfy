/**
 * `MySqlQueryParts`: the mutable record of clause fragments that the builder
 * fills in and `buildSQL` reads.
 */
module QueryParts {
  import opened Wrappers
  import opened Assoc

  /** A SET-style assignment map; `None` is a C# `null` value. */
  type Assignments = Dict<Option<string>>

  /** The value of every field of a `MySqlQueryParts`, at one moment. */
  datatype PartsState = PartsState(
    selectBefore: seq<string>,
    select: seq<string>,
    setCommon: Assignments,
    setInsert: Assignments,
    setUpdate: Assignments,
    order: seq<string>,
    where: string,
    insert: string,
    delete: string,
    update: string,
    from: string)

  /** The state the constructor establishes: every list and map empty, every string "". */
  const EmptyParts := PartsState([], [], [], [], [], [], "", "", "", "", "")

  class MySqlQueryParts {
    var selectBefore: seq<string>
    var select: seq<string>
    var setCommon: Assignments   // the C# field `set`
    var setInsert: Assignments
    var setUpdate: Assignments
    var order: seq<string>
    var where: string
    var insert: string
    var delete: string
    var update: string
    var from: string

    function State(): PartsState
      reads this
    {
      PartsState(selectBefore, select, setCommon, setInsert, setUpdate, order,
                 where, insert, delete, update, from)
    }

    constructor ()
      ensures State() == EmptyParts
      ensures selectBefore == [] && select == []
      ensures setCommon == [] && setInsert == [] && setUpdate == []
      ensures order == []
      ensures where == "" && insert == "" && delete == "" && update == "" && from == ""
    {
      selectBefore := [];
      select := [];
      setCommon := [];
      setInsert := [];
      setUpdate := [];
      where := "";
      insert := "";
      delete := "";
      update := "";
      from := "";
      order := [];
    }
  }
}
