/**
 * What `buildSQL` assembles once the WHERE text is settled: a list of clauses
 * chosen by statement kind, each rendered to text, joined by single spaces.
 */
module Statement {
  import opened Wrappers
  import opened Text
  import opened Base
  import opened QueryParts

  /** One entry of the `sql` list `buildSQL` builds. */
  datatype Clause =
    | SelectKeyword
    | SelectModifiers(words: seq<string>)
    | Columns(cols: seq<string>)
    | FromTable(table: string)
    | InsertInto(table: string)
    | UpdateTable(table: string)
    | DeleteFrom(table: string)
    | SetList(items: seq<string>)
    | OnDuplicateKeyUpdate(items: seq<string>)
    | WhereCond(cond: string)
    | OrderBy(terms: seq<string>)
    | Offset(n: nat)
    | Limit(n: nat)

  /** The position of a clause in the statement `buildSQL` assembles. */
  function Rank(c: Clause): nat
  {
    match c
    case SelectKeyword => 0
    case InsertInto(_) => 0
    case UpdateTable(_) => 0
    case DeleteFrom(_) => 0
    case SelectModifiers(_) => 1
    case Columns(_) => 2
    case FromTable(_) => 3
    case SetList(_) => 4
    case OnDuplicateKeyUpdate(_) => 5
    case WhereCond(_) => 6
    case OrderBy(_) => 7
    case Offset(_) => 8
    case Limit(_) => 9
  }

  function Render(c: Clause): string
  {
    match c
    case SelectKeyword => "SELECT"
    case SelectModifiers(words) => Join(" ", words)
    case Columns(cols) => Join(", ", cols)
    case FromTable(t) => "FROM " + t
    case InsertInto(t) => "INSERT INTO " + t
    case UpdateTable(t) => "UPDATE " + t
    case DeleteFrom(t) => "DELETE FROM " + t
    case SetList(items) => "SET " + Join(", ", items)
    case OnDuplicateKeyUpdate(items) => "ON DUPLICATE KEY UPDATE " + Join(", ", items)
    case WhereCond(w) => "WHERE " + w
    case OrderBy(terms) => "ORDER BY " + Join(", ", terms)
    case Offset(n) => "OFFSET " + NatToString(n)
    case Limit(n) => "LIMIT " + NatToString(n)
  }

  function Rendered(cs: seq<Clause>): (r: seq<string>)
    ensures |r| == |cs|
    ensures forall i :: 0 <= i < |cs| ==> r[i] == Render(cs[i])
  {
    seq(|cs|, i requires 0 <= i < |cs| => Render(cs[i]))
  }

  /** Rendering two clause lists in turn is rendering their concatenation. */
  lemma RenderedConcat(a: seq<Clause>, b: seq<Clause>)
    ensures Rendered(a + b) == Rendered(a) + Rendered(b)
  {
  }

  /** Rendering commutes with `Then`: the `sql.Add` of a present clause appends its text. */
  lemma RenderedThen(cs: seq<Clause>, present: bool, c: Clause)
    ensures Rendered(Then(cs, present, c)) == Rendered(cs) + (if present then [Render(c)] else [])
  {
  }

  /** `entry.Key + " = " + entry.Value`; a null value contributes nothing. */
  function AssignmentText(e: (string, Option<string>)): string
  {
    e.0 + " = " + (if e.1.Some? then e.1.value else "")
  }

  /** The texts a `foreach` over an assignment map adds, in enumeration order. */
  function AssignmentTexts(m: Assignments): (r: seq<string>)
    ensures |r| == |m|
    ensures forall i :: 0 <= i < |m| ==> r[i] == AssignmentText(m[i])
  {
    seq(|m|, i requires 0 <= i < |m| => AssignmentText(m[i]))
  }

  /** The texts of two maps in turn are the texts of their concatenation, as the SET lists are built. */
  lemma AssignmentTextsConcat(a: Assignments, b: Assignments)
    ensures AssignmentTexts(a + b) == AssignmentTexts(a) + AssignmentTexts(b)
  {
  }

  /** `if (present) sql.Add(c)`. */
  function Then(cs: seq<Clause>, present: bool, c: Clause): seq<Clause>
  {
    if present then cs + [c] else cs
  }

  /** The opening clauses of each statement kind. */
  function Opening(kind: QueryType, s: PartsState): seq<Clause>
  {
    match kind
    case Select =>
      Then(Then([SelectKeyword], |s.selectBefore| > 0, SelectModifiers(s.selectBefore)),
           |s.select| > 0, Columns(s.select))
      + [FromTable(s.from)]
    case Insert => [InsertInto(s.insert)]
    case InsertOrUpdate => [InsertInto(s.insert)]
    case Update => [UpdateTable(s.update)]
    case Delete => [DeleteFrom(s.from)]
  }

  /** The entries of the SET clause: insert-specific first for INSERT and upsert, update-specific last for UPDATE. */
  function SetItems(kind: QueryType, s: PartsState): seq<string>
  {
    match kind
    case Insert => AssignmentTexts(s.setInsert) + AssignmentTexts(s.setCommon)
    case InsertOrUpdate => AssignmentTexts(s.setInsert) + AssignmentTexts(s.setCommon)
    case Update => AssignmentTexts(s.setCommon) + AssignmentTexts(s.setUpdate)
    case Select => []
    case Delete => []
  }

  /** The entries of `ON DUPLICATE KEY UPDATE`, for upserts only. */
  function DuplicateItems(kind: QueryType, s: PartsState): seq<string>
  {
    if kind == InsertOrUpdate then AssignmentTexts(s.setCommon) + AssignmentTexts(s.setUpdate) else []
  }

  /** The clauses up to SET. */
  function WithSet(kind: QueryType, s: PartsState): seq<Clause>
  {
    Then(Opening(kind, s), |SetItems(kind, s)| > 0, SetList(SetItems(kind, s)))
  }

  /** ... then `ON DUPLICATE KEY UPDATE`. */
  function WithDuplicate(kind: QueryType, s: PartsState): seq<Clause>
  {
    Then(WithSet(kind, s), |DuplicateItems(kind, s)| > 0, OnDuplicateKeyUpdate(DuplicateItems(kind, s)))
  }

  /** ... then WHERE. */
  function WithWhere(kind: QueryType, s: PartsState): seq<Clause>
  {
    Then(WithDuplicate(kind, s), s.where != "", WhereCond(s.where))
  }

  /** ... then ORDER BY. */
  function WithOrder(kind: QueryType, s: PartsState): seq<Clause>
  {
    Then(WithWhere(kind, s), |s.order| > 0, OrderBy(s.order))
  }

  /** ... then OFFSET, for a positive start. */
  function WithOffset(kind: QueryType, s: PartsState, start: int): seq<Clause>
  {
    if start > 0 then WithOrder(kind, s) + [Offset(start)] else WithOrder(kind, s)
  }

  /** The clauses `buildSQL` emits, in order; `start` and `limit` are `getStart()` and `getLimit()`. */
  function Clauses(kind: QueryType, s: PartsState, start: int, limit: int): seq<Clause>
  {
    if limit >= 0 then WithOffset(kind, s, start) + [Limit(limit)] else WithOffset(kind, s, start)
  }

  /** The text `buildSQL` returns for a statement that has not been built before. */
  function Sql(kind: QueryType, s: PartsState, start: int, limit: int): string
  {
    Join(" ", Rendered(Clauses(kind, s, start, limit)))
  }

  // ---------------------------------------------------------------------------
  // The text each stage adds
  // ---------------------------------------------------------------------------

  /** The opening entries of a SELECT: the keyword, the modifiers and the columns when present, and FROM. */
  lemma SelectOpeningRendered(s: PartsState)
    ensures var a := ["SELECT"] + (if |s.selectBefore| > 0 then [Join(" ", s.selectBefore)] else []);
      var b := a + (if |s.select| > 0 then [Join(", ", s.select)] else []);
      Rendered(Opening(Select, s)) == b + ["FROM " + s.from]
  {
    var a := Then([SelectKeyword], |s.selectBefore| > 0, SelectModifiers(s.selectBefore));
    RenderedThen([SelectKeyword], |s.selectBefore| > 0, SelectModifiers(s.selectBefore));
    RenderedThen(a, |s.select| > 0, Columns(s.select));
    RenderedThen(Then(a, |s.select| > 0, Columns(s.select)), true, FromTable(s.from));
  }

  lemma SetRendered(kind: QueryType, s: PartsState)
    ensures Rendered(WithSet(kind, s)) == Rendered(Opening(kind, s))
      + (if |SetItems(kind, s)| > 0 then ["SET " + Join(", ", SetItems(kind, s))] else [])
  {
    RenderedThen(Opening(kind, s), |SetItems(kind, s)| > 0, SetList(SetItems(kind, s)));
  }

  lemma DuplicateRendered(kind: QueryType, s: PartsState)
    ensures Rendered(WithDuplicate(kind, s)) == Rendered(WithSet(kind, s))
      + (if |DuplicateItems(kind, s)| > 0 then ["ON DUPLICATE KEY UPDATE " + Join(", ", DuplicateItems(kind, s))] else [])
  {
    RenderedThen(WithSet(kind, s), |DuplicateItems(kind, s)| > 0, OnDuplicateKeyUpdate(DuplicateItems(kind, s)));
  }

  lemma WhereRendered(kind: QueryType, s: PartsState)
    ensures Rendered(WithWhere(kind, s)) == Rendered(WithDuplicate(kind, s))
      + (if s.where != "" then ["WHERE " + s.where] else [])
  {
    RenderedThen(WithDuplicate(kind, s), s.where != "", WhereCond(s.where));
  }

  lemma OrderRendered(kind: QueryType, s: PartsState)
    ensures Rendered(WithOrder(kind, s)) == Rendered(WithWhere(kind, s))
      + (if |s.order| > 0 then ["ORDER BY " + Join(", ", s.order)] else [])
  {
    RenderedThen(WithWhere(kind, s), |s.order| > 0, OrderBy(s.order));
  }

  lemma OffsetRendered(kind: QueryType, s: PartsState, start: int)
    ensures Rendered(WithOffset(kind, s, start)) == Rendered(WithOrder(kind, s))
      + (if start > 0 then ["OFFSET " + NatToString(start)] else [])
  {
    if start > 0 {
      RenderedThen(WithOrder(kind, s), true, Offset(start));
    }
  }

  lemma LimitRendered(kind: QueryType, s: PartsState, start: int, limit: int)
    ensures Rendered(Clauses(kind, s, start, limit)) == Rendered(WithOffset(kind, s, start))
      + (if limit >= 0 then ["LIMIT " + NatToString(limit)] else [])
  {
    if limit >= 0 {
      assert Clauses(kind, s, start, limit) == Then(WithOffset(kind, s, start), true, Limit(limit));
      RenderedThen(WithOffset(kind, s, start), true, Limit(limit));
    }
  }

  // ---------------------------------------------------------------------------
  // Clause order
  // ---------------------------------------------------------------------------

  predicate Increasing(cs: seq<Clause>)
  {
    forall i, j :: 0 <= i < j < |cs| ==> Rank(cs[i]) < Rank(cs[j])
  }

  /** `cs` is in order and every clause in it ranks below `r`. */
  predicate OrderedBelow(cs: seq<Clause>, r: nat)
  {
    Increasing(cs) && forall i :: 0 <= i < |cs| ==> Rank(cs[i]) < r
  }

  lemma {:induction false} ThenOrdered(cs: seq<Clause>, present: bool, c: Clause, r: nat)
    requires OrderedBelow(cs, r) && Rank(c) == r
    ensures OrderedBelow(Then(cs, present, c), r + 1)
  {
  }

  lemma RanksBelow(cs: seq<Clause>, r: nat)
    requires OrderedBelow(cs, r)
    ensures forall c :: c in cs ==> Rank(c) < r
  {
  }

  lemma {:induction false} OpeningOrdered(kind: QueryType, s: PartsState)
    ensures OrderedBelow(Opening(kind, s), 4)
    ensures |Opening(kind, s)| > 0 && Rank(Opening(kind, s)[0]) == 0
  {
    if kind == Select {
      var a := Then([SelectKeyword], |s.selectBefore| > 0, SelectModifiers(s.selectBefore));
      ThenOrdered([SelectKeyword], |s.selectBefore| > 0, SelectModifiers(s.selectBefore), 1);
      ThenOrdered(a, |s.select| > 0, Columns(s.select), 2);
      ThenOrdered(Then(a, |s.select| > 0, Columns(s.select)), true, FromTable(s.from), 3);
    }
  }

  /** Each stage keeps the opening clause at its head. */
  lemma ThenHead(cs: seq<Clause>, present: bool, c: Clause)
    requires |cs| > 0
    ensures |Then(cs, present, c)| > 0 && Then(cs, present, c)[0] == cs[0]
  {
  }

  lemma {:induction false} WithDuplicateOrdered(kind: QueryType, s: PartsState)
    ensures OrderedBelow(WithDuplicate(kind, s), 6)
    ensures |WithDuplicate(kind, s)| > 0 && WithDuplicate(kind, s)[0] == Opening(kind, s)[0]
  {
    OpeningOrdered(kind, s);
    ThenOrdered(Opening(kind, s), |SetItems(kind, s)| > 0, SetList(SetItems(kind, s)), 4);
    ThenHead(Opening(kind, s), |SetItems(kind, s)| > 0, SetList(SetItems(kind, s)));
    ThenOrdered(WithSet(kind, s), |DuplicateItems(kind, s)| > 0, OnDuplicateKeyUpdate(DuplicateItems(kind, s)), 5);
    ThenHead(WithSet(kind, s), |DuplicateItems(kind, s)| > 0, OnDuplicateKeyUpdate(DuplicateItems(kind, s)));
  }

  lemma {:induction false} WithOrderOrdered(kind: QueryType, s: PartsState)
    ensures OrderedBelow(WithOrder(kind, s), 8)
    ensures |WithOrder(kind, s)| > 0 && WithOrder(kind, s)[0] == Opening(kind, s)[0]
  {
    WithDuplicateOrdered(kind, s);
    ThenOrdered(WithDuplicate(kind, s), s.where != "", WhereCond(s.where), 6);
    ThenHead(WithDuplicate(kind, s), s.where != "", WhereCond(s.where));
    ThenOrdered(WithWhere(kind, s), |s.order| > 0, OrderBy(s.order), 7);
    ThenHead(WithWhere(kind, s), |s.order| > 0, OrderBy(s.order));
  }

  lemma {:induction false} WithOffsetOrdered(kind: QueryType, s: PartsState, start: int)
    ensures OrderedBelow(WithOffset(kind, s, start), 9)
    ensures |WithOffset(kind, s, start)| > 0 && WithOffset(kind, s, start)[0] == Opening(kind, s)[0]
  {
    WithOrderOrdered(kind, s);
    if start > 0 {
      ThenOrdered(WithOrder(kind, s), true, Offset(start), 8);
      ThenHead(WithOrder(kind, s), true, Offset(start));
    }
  }

  /**
   * Every statement opens with its kind's keyword, and its clauses appear in
   * the order `buildSQL` emits them, each at most once: modifiers, columns,
   * FROM, SET, ON DUPLICATE KEY UPDATE, WHERE, ORDER BY, OFFSET, LIMIT.
   */
  lemma {:induction false} ClausesOrdered(kind: QueryType, s: PartsState, start: int, limit: int)
    ensures var cs := Clauses(kind, s, start, limit);
      Increasing(cs) && |cs| > 0 && cs[0] == Opening(kind, s)[0] && Rank(cs[0]) == 0
  {
    WithOffsetOrdered(kind, s, start);
    OpeningOrdered(kind, s);
    if limit >= 0 {
      ThenOrdered(WithOffset(kind, s, start), true, Limit(limit), 9);
      ThenHead(WithOffset(kind, s, start), true, Limit(limit));
    }
  }

  /** The statement text begins with the kind's keyword: `SELECT`, `INSERT INTO`, `UPDATE` or `DELETE FROM`. */
  lemma SqlOpening(kind: QueryType, s: PartsState, start: int, limit: int)
    ensures var opening := match kind
      case Select => "SELECT"
      case Insert => "INSERT INTO " + s.insert
      case InsertOrUpdate => "INSERT INTO " + s.insert
      case Update => "UPDATE " + s.update
      case Delete => "DELETE FROM " + s.from;
      var sql := Sql(kind, s, start, limit);
      |opening| <= |sql| && sql[..|opening|] == opening
  {
    ClausesOrdered(kind, s, start, limit);
    JoinFirst(" ", Rendered(Clauses(kind, s, start, limit)));
  }

  // ---------------------------------------------------------------------------
  // When each optional clause is present
  // ---------------------------------------------------------------------------

  // One clause at a time: where a member of each stage comes from, and where it goes.

  lemma FromLimit(kind: QueryType, s: PartsState, start: int, limit: int, c: Clause)
    ensures c in Clauses(kind, s, start, limit) ==> c in WithOffset(kind, s, start) || (c.Limit? && limit >= 0)
    ensures c in WithOffset(kind, s, start) ==> c in Clauses(kind, s, start, limit)
  {
  }

  lemma FromOffset(kind: QueryType, s: PartsState, start: int, c: Clause)
    ensures c in WithOffset(kind, s, start) ==> c in WithOrder(kind, s) || (c.Offset? && start > 0)
    ensures c in WithOrder(kind, s) ==> c in WithOffset(kind, s, start)
  {
  }

  lemma FromOrder(kind: QueryType, s: PartsState, c: Clause)
    ensures c in WithOrder(kind, s) ==> c in WithWhere(kind, s) || (c == OrderBy(s.order) && |s.order| > 0)
    ensures c in WithWhere(kind, s) ==> c in WithOrder(kind, s)
    ensures |s.order| > 0 ==> OrderBy(s.order) in WithOrder(kind, s)
  {
  }

  lemma FromWhere(kind: QueryType, s: PartsState, c: Clause)
    ensures c in WithWhere(kind, s) ==> c in WithDuplicate(kind, s) || (c == WhereCond(s.where) && s.where != "")
    ensures c in WithDuplicate(kind, s) ==> c in WithWhere(kind, s)
    ensures s.where != "" ==> WhereCond(s.where) in WithWhere(kind, s)
  {
  }

  lemma FromDuplicate(kind: QueryType, s: PartsState, c: Clause)
    ensures c in WithDuplicate(kind, s) ==>
      c in WithSet(kind, s) || (c == OnDuplicateKeyUpdate(DuplicateItems(kind, s)) && |DuplicateItems(kind, s)| > 0)
    ensures c in WithSet(kind, s) ==> c in WithDuplicate(kind, s)
    ensures |DuplicateItems(kind, s)| > 0 ==> OnDuplicateKeyUpdate(DuplicateItems(kind, s)) in WithDuplicate(kind, s)
  {
  }

  lemma FromSet(kind: QueryType, s: PartsState, c: Clause)
    ensures c in WithSet(kind, s) ==> c in Opening(kind, s) || (c == SetList(SetItems(kind, s)) && |SetItems(kind, s)| > 0)
    ensures c in Opening(kind, s) ==> c in WithSet(kind, s)
    ensures |SetItems(kind, s)| > 0 ==> SetList(SetItems(kind, s)) in WithSet(kind, s)
  {
  }

  lemma OpeningRank(kind: QueryType, s: PartsState, c: Clause)
    ensures c in Opening(kind, s) ==> Rank(c) < 4
  {
    OpeningOrdered(kind, s);
    RanksBelow(Opening(kind, s), 4);
  }

  lemma DuplicateRank(kind: QueryType, s: PartsState, c: Clause)
    ensures c in WithDuplicate(kind, s) ==> Rank(c) < 6
  {
    WithDuplicateOrdered(kind, s);
    RanksBelow(WithDuplicate(kind, s), 6);
  }

  lemma OrderRank(kind: QueryType, s: PartsState, c: Clause)
    ensures c in WithOrder(kind, s) ==> Rank(c) < 8
  {
    WithOrderOrdered(kind, s);
    RanksBelow(WithOrder(kind, s), 8);
  }

  /** A clause ranked at most WHERE's is in the statement exactly when it is in the list up to WHERE. */
  lemma UpToWhere(kind: QueryType, s: PartsState, start: int, limit: int, c: Clause)
    requires Rank(c) <= 6
    ensures c in Clauses(kind, s, start, limit) <==> c in WithWhere(kind, s)
  {
    FromLimit(kind, s, start, limit, c);
    FromOffset(kind, s, start, c);
    FromOrder(kind, s, c);
  }

  /** A clause ranked at most ON DUPLICATE KEY UPDATE's is in the statement exactly when it is in the list up to it. */
  lemma UpToDuplicate(kind: QueryType, s: PartsState, start: int, limit: int, c: Clause)
    requires Rank(c) <= 5
    ensures c in Clauses(kind, s, start, limit) <==> c in WithDuplicate(kind, s)
  {
    UpToWhere(kind, s, start, limit, c);
    FromWhere(kind, s, c);
  }

  /** WHERE appears exactly when the `where` part is non-empty, and carries it verbatim. */
  lemma {:induction false} WherePresence(kind: QueryType, s: PartsState, start: int, limit: int)
    ensures var cs := Clauses(kind, s, start, limit);
      (WhereCond(s.where) in cs <==> s.where != "")
      && forall c :: c in cs && c.WhereCond? ==> c == WhereCond(s.where)
  {
    var cs := Clauses(kind, s, start, limit);
    forall c | c in cs && c.WhereCond? ensures c == WhereCond(s.where) && s.where != "" {
      WhereFrom(kind, s, start, limit, c);
    }
    if s.where != "" {
      UpToWhere(kind, s, start, limit, WhereCond(s.where));
      FromWhere(kind, s, WhereCond(s.where));
    }
  }

  lemma WhereFrom(kind: QueryType, s: PartsState, start: int, limit: int, c: Clause)
    requires c in Clauses(kind, s, start, limit) && c.WhereCond?
    ensures c == WhereCond(s.where) && s.where != ""
  {
    UpToWhere(kind, s, start, limit, c);
    FromWhere(kind, s, c);
    DuplicateRank(kind, s, c);
  }

  /** ORDER BY appears exactly when there are order terms, and carries them. */
  lemma {:induction false} OrderPresence(kind: QueryType, s: PartsState, start: int, limit: int)
    ensures var cs := Clauses(kind, s, start, limit);
      (OrderBy(s.order) in cs <==> |s.order| > 0)
      && forall c :: c in cs && c.OrderBy? ==> c == OrderBy(s.order)
  {
    var cs := Clauses(kind, s, start, limit);
    forall c | c in cs && c.OrderBy? ensures c == OrderBy(s.order) && |s.order| > 0 {
      OrderFrom(kind, s, start, limit, c);
    }
    if |s.order| > 0 {
      var c := OrderBy(s.order);
      FromOrder(kind, s, c);
      FromOffset(kind, s, start, c);
      FromLimit(kind, s, start, limit, c);
    }
  }

  lemma OrderFrom(kind: QueryType, s: PartsState, start: int, limit: int, c: Clause)
    requires c in Clauses(kind, s, start, limit) && c.OrderBy?
    ensures c == OrderBy(s.order) && |s.order| > 0
  {
    FromLimit(kind, s, start, limit, c);
    FromOffset(kind, s, start, c);
    FromOrder(kind, s, c);
    FromWhere(kind, s, c);
    DuplicateRank(kind, s, c);
  }

  /** LIMIT closes the statement when the limit is non-negative, `LIMIT 0` included, and is absent otherwise. */
  lemma {:induction false} LimitPresence(kind: QueryType, s: PartsState, start: int, limit: int)
    ensures var cs := Clauses(kind, s, start, limit);
      (limit >= 0 ==> |cs| > 0 && cs[|cs| - 1] == Limit(limit))
      && (limit < 0 ==> forall c :: c in cs ==> !c.Limit?)
  {
    if limit < 0 {
      forall c | c in Clauses(kind, s, start, limit) ensures !c.Limit? {
        NoLimit(kind, s, start, limit, c);
      }
    }
  }

  /** The statement text of a non-negative limit ends in `LIMIT <limit>`. */
  lemma SqlLimit(kind: QueryType, s: PartsState, start: int, limit: int)
    requires limit >= 0
    ensures var sql, tail := Sql(kind, s, start, limit), "LIMIT " + NatToString(limit);
      |tail| <= |sql| && sql[|sql| - |tail|..] == tail
  {
    var cs := WithOffset(kind, s, start);
    assert Clauses(kind, s, start, limit) == cs + [Limit(limit)];
    assert Sql(kind, s, start, limit) == Join(" ", Rendered(cs + [Limit(limit)]));
    assert Render(Limit(limit)) == "LIMIT " + NatToString(limit);
    RenderedEnds(cs, Limit(limit));
  }

  /** The text of a clause list ends with the text of its last clause. */
  lemma RenderedEnds(cs: seq<Clause>, c: Clause)
    ensures var j, t := Join(" ", Rendered(cs + [c])), Render(c);
      |t| <= |j| && j[|j| - |t|..] == t
  {
    RenderedThen(cs, true, c);
    JoinSnoc(" ", Rendered(cs), Render(c));
  }

  /** OFFSET appears exactly when the start is positive, and carries it. */
  lemma {:induction false} OffsetPresence(kind: QueryType, s: PartsState, start: int, limit: int)
    ensures var cs := Clauses(kind, s, start, limit);
      (start > 0 ==> Offset(start) in cs) && (start <= 0 ==> forall c :: c in cs ==> !c.Offset?)
  {
    if start <= 0 {
      forall c | c in Clauses(kind, s, start, limit) ensures !c.Offset? {
        NoOffset(kind, s, start, limit, c);
      }
    } else {
      FromLimit(kind, s, start, limit, Offset(start));
    }
  }

  lemma NoLimit(kind: QueryType, s: PartsState, start: int, limit: int, c: Clause)
    requires limit < 0 && c in Clauses(kind, s, start, limit)
    ensures !c.Limit?
  {
    FromLimit(kind, s, start, limit, c);
    FromOffset(kind, s, start, c);
    OrderRank(kind, s, c);
  }

  lemma NoOffset(kind: QueryType, s: PartsState, start: int, limit: int, c: Clause)
    requires start <= 0 && c in Clauses(kind, s, start, limit)
    ensures !c.Offset?
  {
    FromLimit(kind, s, start, limit, c);
    FromOffset(kind, s, start, c);
    OrderRank(kind, s, c);
  }

  /** SELECT emits a column list only when columns were selected: there is no implicit `*`. */
  lemma {:induction false} SelectColumns(s: PartsState, start: int, limit: int)
    ensures var cs := Clauses(Select, s, start, limit);
      (Columns(s.select) in cs <==> |s.select| > 0)
      && forall c :: c in cs && c.Columns? ==> c == Columns(s.select)
  {
    var cs := Clauses(Select, s, start, limit);
    forall c | c in cs && c.Columns? ensures c == Columns(s.select) && |s.select| > 0 {
      UpToDuplicate(Select, s, start, limit, c);
      FromDuplicate(Select, s, c);
      FromSet(Select, s, c);
    }
    if |s.select| > 0 {
      var c := Columns(s.select);
      assert c in Opening(Select, s);
      UpToDuplicate(Select, s, start, limit, c);
      FromDuplicate(Select, s, c);
      FromSet(Select, s, c);
    }
  }

  /** The SELECT modifiers appear only in a SELECT, exactly when there are modifiers, and carry them. */
  lemma {:induction false} ModifiersPresence(kind: QueryType, s: PartsState, start: int, limit: int)
    ensures var cs := Clauses(kind, s, start, limit);
      (SelectModifiers(s.selectBefore) in cs <==> kind == Select && |s.selectBefore| > 0)
      && forall c :: c in cs && c.SelectModifiers? ==> kind == Select && c == SelectModifiers(s.selectBefore)
  {
    var cs := Clauses(kind, s, start, limit);
    forall c | c in cs && c.SelectModifiers?
      ensures kind == Select && c == SelectModifiers(s.selectBefore) && |s.selectBefore| > 0
    {
      UpToDuplicate(kind, s, start, limit, c);
      FromDuplicate(kind, s, c);
      FromSet(kind, s, c);
    }
    if kind == Select && |s.selectBefore| > 0 {
      var c := SelectModifiers(s.selectBefore);
      assert c in Opening(Select, s);
      UpToDuplicate(kind, s, start, limit, c);
      FromDuplicate(kind, s, c);
      FromSet(kind, s, c);
    }
  }

  /**
   * `ON DUPLICATE KEY UPDATE` appears only in an upsert, exactly when the
   * generic or update-specific map has entries, and lists the generic ones first.
   */
  lemma {:induction false} DuplicatePresence(kind: QueryType, s: PartsState, start: int, limit: int)
    ensures var cs := Clauses(kind, s, start, limit);
      var items := AssignmentTexts(s.setCommon) + AssignmentTexts(s.setUpdate);
      (OnDuplicateKeyUpdate(items) in cs <==> kind == InsertOrUpdate && |s.setCommon| + |s.setUpdate| > 0)
      && forall c :: c in cs && c.OnDuplicateKeyUpdate? ==> kind == InsertOrUpdate && c == OnDuplicateKeyUpdate(items)
  {
    var cs := Clauses(kind, s, start, limit);
    var items := AssignmentTexts(s.setCommon) + AssignmentTexts(s.setUpdate);
    forall c | c in cs && c.OnDuplicateKeyUpdate?
      ensures kind == InsertOrUpdate && |items| > 0 && c == OnDuplicateKeyUpdate(items)
    {
      DuplicateFrom(kind, s, start, limit, c);
    }
    if kind == InsertOrUpdate && |items| > 0 {
      var c := OnDuplicateKeyUpdate(items);
      UpToDuplicate(kind, s, start, limit, c);
      FromDuplicate(kind, s, c);
    }
  }

  lemma DuplicateFrom(kind: QueryType, s: PartsState, start: int, limit: int, c: Clause)
    requires c in Clauses(kind, s, start, limit) && c.OnDuplicateKeyUpdate?
    ensures |DuplicateItems(kind, s)| > 0 && c == OnDuplicateKeyUpdate(DuplicateItems(kind, s))
  {
    UpToDuplicate(kind, s, start, limit, c);
    FromDuplicate(kind, s, c);
    FromSet(kind, s, c);
    OpeningRank(kind, s, c);
  }

  /**
   * INSERT and upsert list the insert-specific entries and then the generic
   * ones, without merging a key present in both; UPDATE lists the generic
   * entries and then the update-specific ones; SELECT and DELETE have no SET.
   */
  lemma {:induction false} SetListing(kind: QueryType, s: PartsState, start: int, limit: int)
    ensures var cs := Clauses(kind, s, start, limit);
      forall c :: c in cs && c.SetList? ==> |SetItems(kind, s)| > 0 && c == SetList(SetItems(kind, s))
    ensures var cs := Clauses(kind, s, start, limit);
      |SetItems(kind, s)| > 0 ==> SetList(SetItems(kind, s)) in cs
    ensures |SetItems(kind, s)| == match kind
      case Insert => |s.setInsert| + |s.setCommon|
      case InsertOrUpdate => |s.setInsert| + |s.setCommon|
      case Update => |s.setCommon| + |s.setUpdate|
      case Select => 0
      case Delete => 0
  {
    var cs := Clauses(kind, s, start, limit);
    forall c | c in cs && c.SetList? ensures |SetItems(kind, s)| > 0 && c == SetList(SetItems(kind, s)) {
      UpToDuplicate(kind, s, start, limit, c);
      FromDuplicate(kind, s, c);
      FromSet(kind, s, c);
      OpeningRank(kind, s, c);
    }
    if |SetItems(kind, s)| > 0 {
      var c := SetList(SetItems(kind, s));
      UpToDuplicate(kind, s, start, limit, c);
      FromDuplicate(kind, s, c);
      FromSet(kind, s, c);
    }
  }
}
