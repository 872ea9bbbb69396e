/** Message pages by descending id, and a client that follows their cursors. */
module Paging {
  import opened Common

  datatype Message = Message(id: int, session: int, tenant: int, content: string)

  /** Ids are positive and ascend in the order of insertion. */
  ghost predicate Ordered(table: seq<Message>) {
    && (forall i | 0 <= i < |table| :: table[i].id > 0)
    && (forall i, j | 0 <= i < j < |table| :: table[i].id < table[j].id)
  }

  function Reversed(ms: seq<Message>): (r: seq<Message>)
    ensures |r| == |ms|
  {
    if ms == [] then [] else [ms[|ms| - 1]] + Reversed(ms[..|ms| - 1])
  }

  lemma {:induction false} ReversedAt(ms: seq<Message>, i: nat)
    requires i < |ms|
    ensures Reversed(ms)[i] == ms[|ms| - 1 - i]
  {
    if i > 0 {
      ReversedAt(ms[..|ms| - 1], i - 1);
    }
  }

  /** How many rows a cursor lets through: those of smaller id, or all. */
  function Below(table: seq<Message>, cursor: int): (n: nat)
    ensures n <= |table|
  {
    if cursor <= 0 || table == [] || table[|table| - 1].id < cursor then |table|
    else Below(table[..|table| - 1], cursor)
  }

  /** SELECT ... WHERE id < cursor ORDER BY id DESC LIMIT n. */
  function Query(table: seq<Message>, cursor: int, n: nat): seq<Message> {
    var m := Below(table, cursor);
    Reversed(table[Max(m - n, 0)..m])
  }

  datatype Page = Page(items: seq<Message>, hasMore: bool)

  /** The newest rows under the cursor, at most `limit`, and whether older ones remain. */
  function PageAt(table: seq<Message>, cursor: int, limit: nat): Page {
    var m := Below(table, cursor);
    Page(Reversed(table[Max(m - limit, 0)..m]), m > limit)
  }

  // ---- What a page must be ----

  /** The newest rows of a table that pass, at most n, newest first, and whether others remain. */
  ghost predicate IsPageOf(p: Page, table: seq<Message>, passes: Message -> bool, n: int) {
    && |p.items| <= n
    && (forall i | 0 <= i < |p.items| :: p.items[i] in table && passes(p.items[i]))
    && (forall i, j | 0 <= i < j < |p.items| :: p.items[i].id > p.items[j].id)
    && (forall x | x in table && passes(x) && x !in p.items ::
          |p.items| == n && forall i | 0 <= i < |p.items| :: p.items[i].id > x.id)
    && (p.hasMore <==> exists x :: x in table && passes(x) && x !in p.items)
  }

  function Under(cursor: int): Message -> bool {
    (m: Message) => cursor <= 0 || m.id < cursor
  }

  lemma {:induction false} BelowExactly(table: seq<Message>, cursor: int, i: nat)
    requires Ordered(table) && i < |table|
    ensures i < Below(table, cursor) <==> cursor <= 0 || table[i].id < cursor
  {
    var n := |table| - 1;
    if cursor > 0 && table[n].id >= cursor && i < n {
      BelowExactly(table[..n], cursor, i);
    }
  }

  lemma PageRow(table: seq<Message>, cursor: int, limit: nat, i: nat)
    requires i < |PageAt(table, cursor, limit).items|
    ensures PageAt(table, cursor, limit).items[i] == table[Below(table, cursor) - 1 - i]
  {
    var m := Below(table, cursor);
    ReversedAt(table[Max(m - limit, 0)..m], i);
  }

  lemma PageRows(table: seq<Message>, cursor: int, limit: nat)
    requires Ordered(table)
    ensures var p, m := PageAt(table, cursor, limit), Below(table, cursor);
            && |p.items| == Min(limit, m)
            && forall i | 0 <= i < |p.items| :: p.items[i] == table[m - 1 - i]
  {
    var p := PageAt(table, cursor, limit);
    forall i | 0 <= i < |p.items|
      ensures p.items[i] == table[Below(table, cursor) - 1 - i]
    {
      PageRow(table, cursor, limit, i);
    }
  }

  /** On the page are exactly the last `limit` of the rows under the cursor. */
  lemma OnThePage(table: seq<Message>, cursor: int, limit: nat, j: nat)
    requires Ordered(table) && j < Below(table, cursor)
    ensures table[j] in PageAt(table, cursor, limit).items <==> j >= Below(table, cursor) - limit
  {
    var p, m := PageAt(table, cursor, limit), Below(table, cursor);
    PageRows(table, cursor, limit);
    if j >= m - limit {
      assert p.items[m - 1 - j] == table[j];
    } else {
      forall i | 0 <= i < |p.items|
        ensures p.items[i] != table[j]
      {
        assert p.items[i].id > table[j].id;
      }
    }
  }

  lemma PageMembers(table: seq<Message>, cursor: int, limit: nat)
    requires Ordered(table)
    ensures var p := PageAt(table, cursor, limit);
            && |p.items| <= limit
            && (forall i | 0 <= i < |p.items| :: p.items[i] in table && Under(cursor)(p.items[i]))
            && (forall i, j | 0 <= i < j < |p.items| :: p.items[i].id > p.items[j].id)
  {
    var p := PageAt(table, cursor, limit);
    PageRows(table, cursor, limit);
    forall i | 0 <= i < |p.items|
      ensures p.items[i] in table && Under(cursor)(p.items[i])
    {
      BelowExactly(table, cursor, Below(table, cursor) - 1 - i);
    }
  }

  lemma PageOther(table: seq<Message>, cursor: int, limit: nat, x: Message)
    requires Ordered(table) && x in table && Under(cursor)(x) && x !in PageAt(table, cursor, limit).items
    ensures var p := PageAt(table, cursor, limit);
            p.hasMore && |p.items| == limit && forall i | 0 <= i < |p.items| :: p.items[i].id > x.id
  {
    var j: nat :| j < |table| && table[j] == x;
    BelowExactly(table, cursor, j);
    OnThePage(table, cursor, limit, j);
    PageRows(table, cursor, limit);
  }

  lemma PageIsPage(table: seq<Message>, cursor: int, limit: nat)
    requires Ordered(table)
    ensures IsPageOf(PageAt(table, cursor, limit), table, Under(cursor), limit)
  {
    var p, m := PageAt(table, cursor, limit), Below(table, cursor);
    PageMembers(table, cursor, limit);
    forall x | x in table && Under(cursor)(x) && x !in p.items
      ensures p.hasMore && |p.items| == limit && forall i | 0 <= i < |p.items| :: p.items[i].id > x.id
    {
      PageOther(table, cursor, limit, x);
    }
    if m > limit {
      var j := m - limit - 1;
      BelowExactly(table, cursor, j);
      OnThePage(table, cursor, limit, j);
      assert table[j] in table && Under(cursor)(table[j]) && table[j] !in p.items;
    }
  }

  function LimitOf(limit: int, most: int, otherwise: int): int {
    if limit <= 0 || limit > most then otherwise else limit
  }

  method ListMessages(table: seq<Message>, limit: int, cursor: int) returns (p: Page)
    ensures p == PageAt(table, cursor, LimitOf(limit, 200, 50))
    ensures Ordered(table) ==>
              IsPageOf(p, table, (m: Message) => cursor <= 0 || m.id < cursor, if 1 <= limit <= 200 then limit else 50)
  {
    if Ordered(table) {
      PageIsPage(table, cursor, LimitOf(limit, 200, 50));
    }
    var n := limit;
    if n <= 0 || n > 200 {
      n := 50;
    }
    var rows := Query(table, cursor, n + 1);
    PageOfQuery(table, cursor, n);
    var hasMore := |rows| > n;
    if hasMore {
      rows := rows[..n];
    }
    return Page(rows, hasMore);
  }

  lemma PageOfQuery(table: seq<Message>, cursor: int, n: nat)
    ensures var rows := Query(table, cursor, n + 1);
            Page(if |rows| > n then rows[..n] else rows, |rows| > n) == PageAt(table, cursor, n)
  {
    var m := Below(table, cursor);
    var wide, narrow := table[Max(m - n - 1, 0)..m], table[Max(m - n, 0)..m];
    if m > n {
      assert narrow == wide[1..];
      ReversedTail(wide);
    } else {
      assert narrow == wide;
    }
  }

  lemma {:induction false} ReversedTail(ms: seq<Message>)
    requires ms != []
    ensures Reversed(ms) == Reversed(ms[1..]) + [ms[0]]
  {
    if |ms| > 1 {
      ReversedTail(ms[..|ms| - 1]);
      assert ms[..|ms| - 1][1..] == ms[1..][..|ms| - 2];
    } else {
      assert ms[..0] == [];
    }
  }

  // ---- Following the cursors ----

  /** The pages of a client that goes on while there are more, one call for each table state. */
  function Walk(tables: seq<seq<Message>>, cursor: int, limit: nat): seq<Page>
    requires limit >= 1
  {
    if tables == [] then []
    else
      var p := PageAt(tables[0], cursor, limit);
      [p] + (if p.hasMore then Walk(tables[1..], p.items[|p.items| - 1].id, limit) else [])
  }

  function Items(pages: seq<Page>): seq<Message> {
    if pages == [] then [] else pages[0].items + Items(pages[1..])
  }

  /** Between calls rows are only inserted, with larger ids. */
  ghost predicate Growing(tables: seq<seq<Message>>) {
    tables != [] ==>
      Ordered(tables[0]) && (|tables| > 1 ==> tables[0] <= tables[1]) && Growing(tables[1..])
  }

  lemma {:induction false} BelowIs(table: seq<Message>, m: nat)
    requires Ordered(table) && m < |table|
    ensures Below(table, table[m].id) == m
  {
    var n := |table| - 1;
    if m < n {
      BelowIs(table[..n], m);
    } else if n > 0 {
      assert table[..n][n - 1].id < table[n].id;
    }
  }

  lemma {:induction false} ReversedSplit(ms: seq<Message>, k: nat)
    requires k <= |ms|
    ensures Reversed(ms) == Reversed(ms[k..]) + Reversed(ms[..k])
  {
    if k == |ms| {
      assert ms[..k] == ms && ms[k..] == [];
    } else {
      var n := |ms| - 1;
      ReversedSplit(ms[..n], k);
      assert ms[..n][..k] == ms[..k] && ms[k..][..n - k] == ms[..n][k..];
      assert ms[k..][n - k] == ms[n];
    }
  }

  /** Rounds up. */
  function Calls(rows: nat, limit: nat): (n: nat)
    requires limit >= 1
    ensures n >= 1 && (n - 1) * limit <= rows && (rows > 0 ==> (n - 1) * limit < rows) && rows <= n * limit
  {
    if rows <= limit then 1 else 1 + Calls(rows - limit, limit)
  }

  ghost predicate Paged(pages: seq<Page>, limit: nat) {
    && (forall i | 0 <= i < |pages| :: pages[i].hasMore == (i < |pages| - 1))
    && (forall i | 0 <= i < |pages| - 1 :: |pages[i].items| == limit)
    && (pages != [] ==> |pages[|pages| - 1].items| <= limit)
  }

  /** The last row of a full page is the cursor for the rows before it, in any later table. */
  lemma CursorOfPage(table: seq<Message>, later: seq<Message>, cursor: int, limit: nat)
    requires limit >= 1 && Ordered(later) && table <= later && Below(table, cursor) > limit
    ensures var p, k := PageAt(table, cursor, limit), Below(table, cursor) - limit;
            |p.items| == limit && Below(later, p.items[limit - 1].id) == k
  {
    var k := Below(table, cursor) - limit;
    ReversedAt(table[k..k + limit], limit - 1);
    assert table[k] == later[k];
    BelowIs(later, k);
  }

  /** The pages are the rows, newest first, in full pages but the last and as few as that takes. */
  ghost predicate Shows(pages: seq<Page>, rows: seq<Message>, limit: nat)
    requires limit >= 1
  {
    Items(pages) == Reversed(rows) && |pages| == Calls(|rows|, limit) && Paged(pages, limit)
  }

  lemma PageThenRest(p: Page, rest: seq<Page>, rows: seq<Message>, limit: nat)
    requires 1 <= limit < |rows|
    requires p == Page(Reversed(rows[|rows| - limit..]), true) && Shows(rest, rows[..|rows| - limit], limit)
    ensures Shows([p] + rest, rows, limit)
  {
    var all := [p] + rest;
    ReversedSplit(rows, |rows| - limit);
    assert all[1..] == rest;
    assert forall i | 0 < i < |all| :: all[i] == rest[i - 1];
  }

  lemma Slices(table: seq<Message>, later: seq<Message>, m: nat, k: nat)
    requires table <= later && k <= m <= |table|
    ensures table[..m][..k] == later[..k] && table[..m][k..] == table[k..m]
  {
  }

  lemma WalkGoesOn(tables: seq<seq<Message>>, cursor: int, limit: nat)
    requires limit >= 1 && tables != [] && Below(tables[0], cursor) > limit
    ensures var p := PageAt(tables[0], cursor, limit);
            |p.items| == limit && p.hasMore
            && Walk(tables, cursor, limit) == [p] + Walk(tables[1..], p.items[limit - 1].id, limit)
  {
  }

  /** Following the cursors gives the rows under the first cursor, each once, whatever is inserted
      meanwhile. */
  lemma {:induction false} WalkSeesEveryRowOnce(tables: seq<seq<Message>>, cursor: int, limit: nat)
    requires limit >= 1 && Growing(tables)
    requires tables != [] && |tables| >= Calls(Below(tables[0], cursor), limit)
    ensures Shows(Walk(tables, cursor, limit), tables[0][..Below(tables[0], cursor)], limit)
    decreases |tables|
  {
    var m := Below(tables[0], cursor);
    if m <= limit {
      LastPage(tables, cursor, limit);
    } else {
      var p, rows, k := PageAt(tables[0], cursor, limit), tables[0][..m], m - limit;
      CursorOfPage(tables[0], tables[1], cursor, limit);
      WalkGoesOn(tables, cursor, limit);
      var next := p.items[limit - 1].id;
      WalkSeesEveryRowOnce(tables[1..], next, limit);
      Slices(tables[0], tables[1], m, k);
      PageThenRest(p, Walk(tables[1..], next, limit), rows, limit);
    }
  }

  lemma LastPage(tables: seq<seq<Message>>, cursor: int, limit: nat)
    requires limit >= 1 && tables != [] && Below(tables[0], cursor) <= limit
    ensures Shows(Walk(tables, cursor, limit), tables[0][..Below(tables[0], cursor)], limit)
  {
    var p := PageAt(tables[0], cursor, limit);
    assert [p][1..] == [] && p.items + [] == p.items;
  }

  /** From no cursor that is the whole first table. */
  lemma WalkSeesTheFirstTable(tables: seq<seq<Message>>, limit: nat)
    requires limit >= 1 && Growing(tables) && tables != [] && |tables| >= Calls(|tables[0]|, limit)
    ensures Shows(Walk(tables, 0, limit), tables[0], limit)
  {
    WalkSeesEveryRowOnce(tables, 0, limit);
    assert tables[0][..|tables[0]|] == tables[0];
  }
}
