/** List pages: the query tail the repositories append, the page built from its rows, and the walk over all pages. */
module Pagination {
  import opened Wrappers
  import opened Types
  import opened Keyset
  import opened Cursors

  // ---- the query text ----

  datatype Bound = BoundTs(ts: Timestamp) | BoundId(id: Uuid) | BoundInt(n: int)
  datatype Fragment = Text(s: string) | Bind(v: Bound)

  class QueryBuilder {
    var sql: seq<Fragment>

    constructor ()
      ensures sql == []
    {
      sql := [];
    }

    method Push(s: string)
      modifies this
      ensures sql == old(sql) + [Text(s)]
    {
      sql := sql + [Text(s)];
    }

    method PushBind(v: Bound)
      modifies this
      ensures sql == old(sql) + [Bind(v)]
    {
      sql := sql + [Bind(v)];
    }
  }

  function DirectionSql(o: Order): string {
    match o
    case Desc => "DESC NULLS LAST"
    case Asc => "ASC NULLS FIRST"
  }

  function CursorOp(o: Order): string {
    match o
    case Desc => "<"
    case Asc => ">"
  }

  function ComparisonText(tsCol: string, idCol: string, op: string): string {
    " AND (" + tsCol + ", " + idCol + ") " + op + " ("
  }

  function OrderText(tsCol: string, idCol: string, dir: string): string {
    " ORDER BY " + tsCol + " " + dir + ", " + idCol + " " + dir
  }

  function ConditionSql(tsCol: string, idCol: string, ts: Timestamp, id: Uuid, o: Order): seq<Fragment> {
    [Text(ComparisonText(tsCol, idCol, CursorOp(o))), Bind(BoundTs(ts)), Text(", "), Bind(BoundId(id)), Text(")")]
  }

  function OrderSql(tsCol: string, idCol: string, o: Order, limitPlusOne: int): seq<Fragment> {
    [Text(OrderText(tsCol, idCol, DirectionSql(o))), Text(" LIMIT "), Bind(BoundInt(limitPlusOne))]
  }

  method PushCursorCondition(qb: QueryBuilder, tsCol: string, idCol: string,
                             cursorTs: Option<Timestamp>, cursorId: Option<Uuid>, o: Order)
    modifies qb
    ensures cursorTs.Some? && cursorId.Some? ==>
              qb.sql == old(qb.sql) + ConditionSql(tsCol, idCol, cursorTs.value, cursorId.value, o)
    ensures cursorTs.None? || cursorId.None? ==> qb.sql == old(qb.sql)
  {
    if cursorTs.Some? && cursorId.Some? {
      qb.Push(ComparisonText(tsCol, idCol, CursorOp(o)));
      qb.PushBind(BoundTs(cursorTs.value));
      qb.Push(", ");
      qb.PushBind(BoundId(cursorId.value));
      qb.Push(")");
    }
  }

  method PushOrderAndLimit(qb: QueryBuilder, tsCol: string, idCol: string, o: Order, limitPlusOne: int)
    modifies qb
    ensures qb.sql == old(qb.sql) + OrderSql(tsCol, idCol, o, limitPlusOne)
  {
    qb.Push(OrderText(tsCol, idCol, DirectionSql(o)));
    qb.Push(" LIMIT ");
    qb.PushBind(BoundInt(limitPlusOne));
  }

  // ---- what the database makes of that text ----

  /** Row comparison is lexicographic: `(ts, id) < (a, b)` selects what is less than (a, b), `>` what is greater. */
  function Compared(text: string, tsCol: string, idCol: string, k: Key, s: set<Key>): Option<set<Key>> {
    if text == ComparisonText(tsCol, idCol, "<") then
      Some(set x | x in s && (x.ts < k.ts || (x.ts == k.ts && x.id < k.id)))
    else if text == ComparisonText(tsCol, idCol, ">") then
      Some(set x | x in s && (x.ts > k.ts || (x.ts == k.ts && x.id > k.id)))
    else None
  }

  function Take<T>(q: seq<T>, n: nat): seq<T> {
    if |q| <= n then q else q[..n]
  }

  function Selected(sql: seq<Fragment>, tsCol: string, idCol: string, s: set<Key>): Option<seq<Key>> {
    if |sql| != 3 || !sql[0].Text? || sql[1] != Text(" LIMIT ") || !sql[2].Bind? || !sql[2].v.BoundInt?
       || sql[2].v.n < 0 then None
    else if sql[0].s == OrderText(tsCol, idCol, "DESC NULLS LAST") then Some(Take(Ordered(Desc, s), sql[2].v.n))
    else if sql[0].s == OrderText(tsCol, idCol, "ASC NULLS FIRST") then Some(Take(Ordered(Asc, s), sql[2].v.n))
    else None
  }

  /** The rows returned when this tail follows a WHERE clause that selects the rows `s`. */
  function RunQuery(sql: seq<Fragment>, tsCol: string, idCol: string, s: set<Key>): Option<seq<Key>> {
    if |sql| < 5 then Selected(sql, tsCol, idCol, s)
    else if sql[0].Text? && sql[1].Bind? && sql[1].v.BoundTs? && sql[2] == Text(", ")
            && sql[3].Bind? && sql[3].v.BoundId? && sql[4] == Text(")") then
      match Compared(sql[0].s, tsCol, idCol, Key(sql[1].v.ts, sql[3].v.id), s)
      case None => None
      case Some(left) => Selected(sql[5..], tsCol, idCol, left)
    else None
  }

  lemma OperatorsDiffer(tsCol: string, idCol: string)
    ensures ComparisonText(tsCol, idCol, "<") != ComparisonText(tsCol, idCol, ">")
    ensures OrderText(tsCol, idCol, "DESC NULLS LAST") != OrderText(tsCol, idCol, "ASC NULLS FIRST")
  {
    var at := |" AND (" + tsCol + ", " + idCol + ") "|;
    assert ComparisonText(tsCol, idCol, "<")[at] == '<';
    assert ComparisonText(tsCol, idCol, ">")[at] == '>';
    var dir := |" ORDER BY " + tsCol + " "|;
    assert OrderText(tsCol, idCol, "DESC NULLS LAST")[dir] == 'D';
    assert OrderText(tsCol, idCol, "ASC NULLS FIRST")[dir] == 'A';
  }

  function TailSql(tsCol: string, idCol: string, o: Order, cursor: Option<Key>, n: nat): seq<Fragment> {
    (if cursor.Some? then ConditionSql(tsCol, idCol, cursor.value.ts, cursor.value.id, o) else [])
    + OrderSql(tsCol, idCol, o, n)
  }

  /** The comparison and the direction agree: together the two appended parts fetch the rows just past the cursor. */
  lemma TailFetches(tsCol: string, idCol: string, o: Order, cursor: Option<Key>, n: nat, s: set<Key>)
    ensures RunQuery(TailSql(tsCol, idCol, o, cursor, n), tsCol, idCol, s) == Some(Fetch(o, s, cursor, n))
  {
    OperatorsDiffer(tsCol, idCol);
    var order := OrderSql(tsCol, idCol, o, n);
    if cursor.Some? {
      var condition := ConditionSql(tsCol, idCol, cursor.value.ts, cursor.value.id, o);
      assert (condition + order)[5..] == order;
      assert Compared(condition[0].s, tsCol, idCol, cursor.value, s).value == After(o, s, cursor);
    } else {
      assert [] + order == order;
    }
  }

  method FetchPage(tsCol: string, idCol: string, o: Order, s: set<Key>, cursor: Option<Key>, n: nat)
    returns (rows: seq<Key>)
    ensures rows == Fetch(o, s, cursor, n)
  {
    var qb := new QueryBuilder();
    match cursor {
      case None => PushCursorCondition(qb, tsCol, idCol, None, None, o);
      case Some(k) => PushCursorCondition(qb, tsCol, idCol, Some(k.ts), Some(k.id), o);
    }
    PushOrderAndLimit(qb, tsCol, idCol, o, n);
    assert qb.sql == TailSql(tsCol, idCol, o, cursor, n);
    TailFetches(tsCol, idCol, o, cursor, n, s);
    rows := RunQuery(qb.sql, tsCol, idCol, s).value;
  }

  // ---- pages ----

  datatype CursorPage<T> = CursorPage(data: seq<T>, nextCursor: Option<Cursor>, hasNextPage: bool)

  /** The requested page size, 20 by default and between 1 and 100. */
  function Limit(requested: Option<int>): (n: nat)
    ensures 1 <= n <= 100
  {
    Clamp(requested.GetOr(20), 1, 100)
  }

  function Clamp(n: int, lo: nat, hi: nat): nat
    requires lo <= hi
  {
    if n < lo then lo else if n > hi then hi else n
  }

  /** 20 unless asked for, what is asked for from 1 to 100, and the nearer end outside. */
  lemma LimitHonoured(requested: Option<int>)
    ensures requested.None? ==> Limit(requested) == 20
    ensures requested.Some? ==>
              var n := requested.value; Limit(requested) == if n < 1 then 1 else if n > 100 then 100 else n
  {
  }

  function PageOf<T>(rows: seq<T>, limit: nat, encode: T -> Cursor): CursorPage<T>
    requires limit > 0
  {
    if |rows| > limit then CursorPage(rows[..limit], Some(encode(rows[limit - 1])), true)
    else CursorPage(rows, None, false)
  }

  method FromRows<T>(fetched: seq<T>, limit: nat, encode: T -> Cursor) returns (page: CursorPage<T>)
    requires limit > 0
    ensures page == PageOf(fetched, limit, encode)
  {
    var rows := fetched;
    var hasNext := |rows| > limit;
    if hasNext {
      rows := rows[..limit];
    }
    var nextCursor := None;
    if hasNext && |rows| > 0 {
      nextCursor := Some(encode(rows[|rows| - 1]));
    }
    page := CursorPage(rows, nextCursor, hasNext);
  }

  function KeyCursor(k: Key): Cursor {
    FromTimestampId(k.ts, k.id)
  }

  function Position(cursor: Option<Cursor>): Result<Option<Key>, CursorError> {
    match cursor
    case None => Ok(None)
    case Some(c) =>
      var at :- ToTimestampId(c);
      Ok(Some(Key(at.0, at.1)))
  }

  /** One list request: decode the cursor, fetch one row more than the limit, build the page. */
  function ListPage(o: Order, s: set<Key>, cursor: Option<Cursor>, limit: Option<int>): Result<CursorPage<Key>, CursorError> {
    var at :- Position(cursor);
    Ok(PageOf(Fetch(o, s, at, Limit(limit) + 1), Limit(limit), KeyCursor))
  }

  method ServeList(o: Order, s: set<Key>, cursor: Option<Cursor>, limit: Option<int>)
    returns (r: Result<CursorPage<Key>, CursorError>)
    ensures r == ListPage(o, s, cursor, limit)
  {
    var at := Position(cursor);
    if at.Err? {
      return Err(at.error);
    }
    var rows := FetchPage("created_at", "id", o, s, at.value, Limit(limit) + 1);
    var page := FromRows(rows, Limit(limit), KeyCursor);
    r := Ok(page);
  }

  /** A cursor that does not decode is refused. */
  lemma BadCursorIsRefused(o: Order, s: set<Key>, cursor: Cursor, limit: Option<int>)
    ensures ListPage(o, s, Some(cursor), limit).Err? <==> ToTimestampId(cursor).Err?
    ensures ToTimestampId(cursor).Err? ==> ListPage(o, s, Some(cursor), limit).error == ToTimestampId(cursor).error
  {
    hide ToTimestampId, Fetch;
  }

  lemma PositionOfKey(k: Key)
    ensures Position(Some(KeyCursor(k))) == Ok(Some(k))
  {
    TimestampIdRoundTrip(k.ts, k.id);
  }

  lemma PageCutsRows(o: Order, s: set<Key>, at: Option<Key>, n: nat)
    requires n > 0
    ensures var page := PageOf(Fetch(o, s, at, n + 1), n, KeyCursor);
            var all := Ordered(o, After(o, s, at));
            && page.data <= all && |page.data| <= n
            && (page.hasNextPage <==> |all| > n)
            && (|all| > n ==> page == CursorPage(all[..n], Some(KeyCursor(all[n - 1])), true))
            && (|all| <= n ==> page == CursorPage(all, None, false))
  {
    var all := Ordered(o, After(o, s, at));
    hide Ordered, After, KeyCursor;
    if |all| > n {
      assert Fetch(o, s, at, n + 1)[..n] == all[..n];
    }
  }

  /** What one page leaves: nothing exactly when it has no next cursor, else what follows the position of that cursor. */
  lemma PageThenRest(o: Order, s: set<Key>, cursor: Option<Cursor>, limit: Option<int>)
    requires Position(cursor).Ok?
    ensures ListPage(o, s, cursor, limit).Ok?
    ensures var page := ListPage(o, s, cursor, limit).value;
            var all := Ordered(o, After(o, s, Position(cursor).value));
            && page.data <= all && |page.data| <= Limit(limit)
            && (page.hasNextPage <==> |page.data| < |all|)
            && (page.hasNextPage <==> page.nextCursor.Some?)
            && (page.hasNextPage ==>
                  && page.data != []
                  && Position(page.nextCursor).Ok?
                  && Ordered(o, After(o, s, Position(page.nextCursor).value)) == all[|page.data|..])
  {
    hide ToTimestampId, KeyCursor, Ordered, After, Fetch, PageOf;
    var at := Position(cursor).value;
    var n := Limit(limit);
    var all := Ordered(o, After(o, s, at));
    PageCutsRows(o, s, at, n);
    if |all| > n {
      PositionOfKey(all[n - 1]);
      ResumeAfter(o, s, at, n);
    }
  }

  /** Following next_cursor until there is none. */
  ghost function Walk(o: Order, s: set<Key>, cursor: Option<Cursor>, limit: Option<int>): (pages: seq<CursorPage<Key>>)
    requires Position(cursor).Ok?
    decreases |After(o, s, Position(cursor).value)|
  {
    PageThenRest(o, s, cursor, limit);
    var page := ListPage(o, s, cursor, limit).value;
    if page.nextCursor.Some? then [page] + Walk(o, s, page.nextCursor, limit) else [page]
  }

  function Concat<T>(pages: seq<CursorPage<T>>): seq<T> {
    if pages == [] then [] else pages[0].data + Concat(pages[1..])
  }

  lemma ConcatCons<T>(page: CursorPage<T>, rest: seq<CursorPage<T>>)
    ensures Concat([page] + rest) == page.data + Concat(rest)
  {
  }

  /** The walk ends, and its pages are the whole sorted result cut into pieces: no skip and no repeat. */
  lemma {:induction false} WalkIsComplete(o: Order, s: set<Key>, cursor: Option<Cursor>, limit: Option<int>)
    requires Position(cursor).Ok?
    ensures Concat(Walk(o, s, cursor, limit)) == Ordered(o, After(o, s, Position(cursor).value))
    decreases |After(o, s, Position(cursor).value)|
  {
    hide ListPage, Position, Ordered, After;
    PageThenRest(o, s, cursor, limit);
    var page := ListPage(o, s, cursor, limit).value;
    var all := Ordered(o, After(o, s, Position(cursor).value));
    if page.nextCursor.Some? {
      WalkIsComplete(o, s, page.nextCursor, limit);
      ConcatCons(page, Walk(o, s, page.nextCursor, limit));
      assert all == page.data + all[|page.data|..];
    } else {
      ConcatCons(page, []);
      assert [page] + [] == [page];
    }
  }

  /** From the first page the walk lists every row of the table once, in order, for every limit and both orders. */
  lemma WalkFromFirstPage(o: Order, s: set<Key>, limit: Option<int>)
    ensures Concat(Walk(o, s, None, limit)) == Ordered(o, s)
    ensures Sorted(o, Concat(Walk(o, s, None, limit)))
    ensures forall k :: k in Concat(Walk(o, s, None, limit)) <==> k in s
  {
    WalkIsComplete(o, s, None, limit);
  }
}
