/** A device's history: pages of the session that is its newest at each call. */
module SessionHistory {
  import opened Common
  import opened Paging

  /** Active stands for the two statuses of an open session. */
  datatype Session = Session(id: int, device: string, createdAt: int, active: bool, deleted: bool)

  /** What one call meets: the sessions, what the query for them answers, and the messages. */
  datatype Call = Call(sessions: seq<Session>, listed: seq<Session>, messages: seq<Message>)

  const LISTED := 5

  predicate Live(s: Session, device: string) {
    s.device == device && s.active && !s.deleted
  }

  /** SELECT ... ORDER BY createTime DESC LIMIT 5; sessions of one time come in any order. */
  ghost predicate ListByDevice(c: Call, device: string) {
    && |c.listed| <= LISTED
    && (forall i | 0 <= i < |c.listed| :: c.listed[i] in c.sessions && Live(c.listed[i], device))
    && (forall i, j | 0 <= i < j < |c.listed| :: c.listed[i].createdAt >= c.listed[j].createdAt)
    && (forall s | s in c.sessions && Live(s, device) ::
          s in c.listed || (|c.listed| == LISTED && s.createdAt <= c.listed[LISTED - 1].createdAt))
  }

  /** The session whose messages are returned. */
  function Primary(c: Call): Option<int> {
    if c.listed == [] then None else Some(c.listed[0].id)
  }

  ghost predicate Newest(c: Call, device: string, s: Session) {
    && s in c.sessions && Live(s, device)
    && forall t | t in c.sessions && Live(t, device) :: t.createdAt <= s.createdAt
  }

  /** It is a newest live session, and there is none only if no session is live. */
  lemma PrimaryIsNewest(c: Call, device: string)
    requires ListByDevice(c, device)
    ensures if c.listed == [] then forall s | s in c.sessions :: !Live(s, device) else Newest(c, device, c.listed[0])
  {
    forall s | c.listed != [] && s in c.sessions && Live(s, device)
      ensures s.createdAt <= c.listed[0].createdAt
    {
      if i :| 0 <= i < |c.listed| && c.listed[i] == s {
        assert c.listed[0].createdAt >= c.listed[i].createdAt;
      } else {
        assert s.createdAt <= c.listed[LISTED - 1].createdAt <= c.listed[0].createdAt;
      }
    }
  }

  /** Where ids and times are distinct, the calls that return a session's messages are those at which
      it is the newest live one. */
  lemma PrimaryExactly(c: Call, device: string, s: Session)
    requires ListByDevice(c, device) && s in c.sessions
    requires forall t, u | t in c.sessions && u in c.sessions && t != u :: t.id != u.id && t.createdAt != u.createdAt
    ensures Primary(c) == Some(s.id) <==> Newest(c, device, s)
  {
    PrimaryIsNewest(c, device);
  }

  // ---- One call ----

  function Where(table: seq<Message>, keep: Message -> bool): seq<Message> {
    if table == [] then []
    else Where(table[..|table| - 1], keep) + (if keep(table[|table| - 1]) then [table[|table| - 1]] else [])
  }

  function OfSession(session: int, tenant: int): Message -> bool {
    (m: Message) => m.session == session && m.tenant == tenant
  }

  /** The rows behind a session, none behind no session. */
  function View(c: Call, session: Option<int>, tenant: int): seq<Message> {
    if session.None? then [] else Where(c.messages, OfSession(session.value, tenant))
  }

  datatype Reply = Panicked | Replied(page: Page, next: Option<int>)

  function PageOf(c: Call, tenant: int, cursor: int, limit: nat): Page {
    PageAt(View(c, Primary(c), tenant), cursor, limit)
  }

  lemma {:induction false} WhereExactly(table: seq<Message>, keep: Message -> bool, x: Message)
    ensures x in Where(table, keep) <==> x in table && keep(x)
  {
    if table != [] {
      var n := |table| - 1;
      WhereExactly(table[..n], keep, x);
      assert table == table[..n] + [table[n]];
    }
  }

  /** A page of a session's view is a page of the table's rows of that session and tenant. */
  lemma PageOfTable(p: Page, table: seq<Message>, session: int, tenant: int, cursor: int, n: int)
    requires IsPageOf(p, Where(table, OfSession(session, tenant)), Under(cursor), n)
    ensures IsPageOf(p, table, InSession(session, tenant, cursor), n)
  {
    forall x
      ensures x in table && InSession(session, tenant, cursor)(x)
              <==> x in Where(table, OfSession(session, tenant)) && Under(cursor)(x)
    {
      WhereExactly(table, OfSession(session, tenant), x);
    }
  }

  lemma ViewPage(table: seq<Message>, session: int, tenant: int, cursor: int, n: nat)
    requires Ordered(table)
    ensures IsPageOf(PageAt(Where(table, OfSession(session, tenant)), cursor, n), table, InSession(session, tenant, cursor), n)
  {
    var view := Where(table, OfSession(session, tenant));
    WhereIsOrdered(table, OfSession(session, tenant));
    PageIsPage(view, cursor, n);
    PageOfTable(PageAt(view, cursor, n), table, session, tenant, cursor, n);
  }

  function InSession(session: int, tenant: int, cursor: int): Message -> bool {
    (m: Message) => m.session == session && m.tenant == tenant && (cursor <= 0 || m.id < cursor)
  }

  method Copied(rows: seq<Message>) returns (items: seq<Message>)
    ensures items == rows
  {
    items := [];
    for i := 0 to |rows|
      invariant items == rows[..i]
    {
      items := items + [rows[i]];
    }
  }

  method Messages(view: seq<Message>, cursor: int, n: nat) returns (page: Page, next: Option<int>)
    requires n >= 1
    ensures page == PageAt(view, cursor, n)
    ensures next == if page.hasMore then Some(page.items[|page.items| - 1].id) else None
  {
    var rows := Query(view, cursor, n + 1);
    PageOfQuery(view, cursor, n);
    var hasMore := |rows| > n;
    if hasMore {
      rows := rows[..n];
    }
    var items := Copied(rows);
    page := Page(items, hasMore);
    next := if hasMore && |rows| > 0 then Some(rows[|rows| - 1].id) else None;
  }

  /** The messages of one session. */
  method PrimaryPage(c: Call, session: int, tenant: int, cursor: int, n: nat) returns (page: Page, next: Option<int>)
    requires n >= 1
    ensures page == PageAt(Where(c.messages, OfSession(session, tenant)), cursor, n)
    ensures next == if page.hasMore then Some(page.items[|page.items| - 1].id) else None
    ensures Ordered(c.messages) ==> IsPageOf(page, c.messages, InSession(session, tenant, cursor), n)
  {
    page, next := Messages(Where(c.messages, OfSession(session, tenant)), cursor, n);
    if Ordered(c.messages) {
      ViewPage(c.messages, session, tenant, cursor, n);
    }
  }

  /** A cursor that does not decode starts over. As written, formatting the session's id panics. */
  method History(c: Call, device: string, tenant: int, limit: int, maxLimit: int, cursor: Option<int>, formatsIds: bool)
    returns (r: Reply)
    requires maxLimit >= 1 && ListByDevice(c, device)
    ensures r.Panicked? <==> !formatsIds && Primary(c).Some?
    ensures r.Replied? ==>
              && r.page == PageOf(c, tenant, if cursor.Some? then cursor.value else 0, LimitOf(limit, maxLimit, maxLimit))
              && r.next == if r.page.hasMore then Some(r.page.items[|r.page.items| - 1].id) else None
    ensures r.Replied? && c.listed == [] ==> r.page == Page([], false)
    ensures r.Replied? && c.listed != [] && Ordered(c.messages) ==>
              var session, from := c.listed[0].id, if cursor.Some? then cursor.value else 0;
              IsPageOf(r.page, c.messages, InSession(session, tenant, from), if 1 <= limit <= maxLimit then limit else maxLimit)
  {
    var n := limit;
    if n <= 0 || n > maxLimit {
      n := maxLimit;
    }
    if |c.listed| == 0 {
      return Replied(Page([], false), None);
    }
    var primary := c.listed[0];
    if !formatsIds {
      return Panicked;
    }
    var cursorId := 0;
    if cursor.Some? {
      cursorId := cursor.value;
    }
    var page, next := PrimaryPage(c, primary.id, tenant, cursorId, n);
    return Replied(page, next);
  }

  // ---- Views grow with their tables ----

  lemma {:induction false} WhereKeeps(table: seq<Message>, keep: Message -> bool, i: nat)
    requires i < |Where(table, keep)|
    ensures Where(table, keep)[i] in table && keep(Where(table, keep)[i])
  {
    var n := |table| - 1;
    if i < |Where(table[..n], keep)| {
      WhereKeeps(table[..n], keep, i);
    }
  }

  lemma {:induction false} WhereIsOrdered(table: seq<Message>, keep: Message -> bool)
    requires Ordered(table)
    ensures Ordered(Where(table, keep))
  {
    if table != [] {
      var n := |table| - 1;
      var init := Where(table[..n], keep);
      WhereIsOrdered(table[..n], keep);
      forall i | 0 <= i < |init|
        ensures init[i].id < table[n].id
      {
        WhereKeeps(table[..n], keep, i);
      }
    }
  }

  lemma {:induction false} WhereGrows(table: seq<Message>, later: seq<Message>, keep: Message -> bool)
    requires table <= later
    ensures Where(table, keep) <= Where(later, keep)
  {
    if |table| < |later| {
      WhereGrows(table, later[..|later| - 1], keep);
    } else {
      assert table == later;
    }
  }

  function Tables(calls: seq<Call>): seq<seq<Message>> {
    seq(|calls|, i requires 0 <= i < |calls| => calls[i].messages)
  }

  function Views(calls: seq<Call>, session: Option<int>, tenant: int): seq<seq<Message>> {
    seq(|calls|, i requires 0 <= i < |calls| => View(calls[i], session, tenant))
  }

  /** While messages are only added, so are those behind any one session. */
  lemma {:induction false} ViewsGrow(calls: seq<Call>, session: Option<int>, tenant: int)
    requires Growing(Tables(calls))
    ensures Growing(Views(calls, session, tenant))
    decreases |calls|
  {
    if calls != [] {
      assert Tables(calls)[1..] == Tables(calls[1..]);
      assert Views(calls, session, tenant)[1..] == Views(calls[1..], session, tenant);
      ViewsGrow(calls[1..], session, tenant);
      if session.Some? {
        WhereIsOrdered(calls[0].messages, OfSession(session.value, tenant));
        if |calls| > 1 {
          WhereGrows(calls[0].messages, calls[1].messages, OfSession(session.value, tenant));
        }
      }
    }
  }

  // ---- Following the cursors ----

  /** The pages of a client that goes on while there are more. */
  function WalkHistory(calls: seq<Call>, tenant: int, cursor: int, limit: nat): (pages: seq<Page>)
    requires limit >= 1
    ensures |pages| <= |calls|
  {
    if calls == [] then []
    else
      var p := PageOf(calls[0], tenant, cursor, limit);
      [p] + (if p.hasMore then WalkHistory(calls[1..], tenant, p.items[|p.items| - 1].id, limit) else [])
  }

  /** Each of the first n calls returns messages of the session. */
  ghost predicate Stays(calls: seq<Call>, n: nat, session: Option<int>)
    requires n <= |calls|
  {
    forall i | 0 <= i < n :: Primary(calls[i]) == session
  }

  /** A page begins with a row of its session. */
  lemma PageIsOfPrimary(c: Call, tenant: int, cursor: int, limit: nat)
    requires limit >= 1 && PageOf(c, tenant, cursor, limit).items != []
    ensures Primary(c) == Some(PageOf(c, tenant, cursor, limit).items[0].session)
  {
    var view := View(c, Primary(c), tenant);
    var m := Below(view, cursor);
    ReversedAt(view[Max(m - limit, 0)..m], 0);
    WhereKeeps(c.messages, OfSession(Primary(c).value, tenant), m - 1);
  }

  lemma MoreMeansRows(table: seq<Message>, cursor: int, limit: nat)
    requires limit >= 1 && PageAt(table, cursor, limit).items == []
    ensures !PageAt(table, cursor, limit).hasMore
  {
  }

  /** The first page belongs to another session, so the walk does not show the rows. */
  lemma StraysFromRows(calls: seq<Call>, tenant: int, cursor: int, limit: nat, session: int, rows: seq<Message>)
    requires limit >= 1 && calls != [] && Primary(calls[0]) != Some(session) && rows != []
    requires rows[|rows| - 1].session == session
    ensures Items(WalkHistory(calls, tenant, cursor, limit)) != Reversed(rows)
  {
    var pages, p := WalkHistory(calls, tenant, cursor, limit), PageOf(calls[0], tenant, cursor, limit);
    assert pages[0] == p;
    ReversedAt(rows, 0);
    if p.items == [] {
      MoreMeansRows(View(calls[0], Primary(calls[0]), tenant), cursor, limit);
      assert pages[1..] == [] && Items(pages) == [];
    } else {
      PageIsOfPrimary(calls[0], tenant, cursor, limit);
      assert Items(pages)[0] == p.items[0];
    }
  }

  /** The pages are the rows exactly when no call strays, and then in full pages but the last and as
      few as that takes. */
  ghost predicate Exactly(calls: seq<Call>, pages: seq<Page>, session: Option<int>, rows: seq<Message>, limit: nat)
    requires limit >= 1
  {
    && |pages| <= |calls|
    && (Items(pages) == Reversed(rows) <==> Stays(calls, |pages|, session))
    && (Stays(calls, |pages|, session) ==> Shows(pages, rows, limit))
  }

  lemma SameFront(a: seq<Message>, b: seq<Message>, c: seq<Message>)
    ensures a + b == a + c <==> b == c
  {
    if a + b == a + c {
      assert (a + b)[|a|..] == (a + c)[|a|..];
    }
  }

  ghost predicate Remaining(c: Call, session: Option<int>, tenant: int, cursor: int, m: nat) {
    m <= |View(c, session, tenant)| && Below(View(c, session, tenant), cursor) == m
  }

  lemma StrayWalk(calls: seq<Call>, session: int, tenant: int, cursor: int, limit: nat, m: nat)
    requires limit >= 1 && calls != [] && Primary(calls[0]) != Some(session)
    requires 0 < m <= |View(calls[0], Some(session), tenant)|
    ensures Exactly(calls, WalkHistory(calls, tenant, cursor, limit), Some(session),
                    View(calls[0], Some(session), tenant)[..m], limit)
  {
    WhereKeeps(calls[0].messages, OfSession(session, tenant), m - 1);
    StraysFromRows(calls, tenant, cursor, limit, session, View(calls[0], Some(session), tenant)[..m]);
    assert |WalkHistory(calls, tenant, cursor, limit)| > 0;
  }

  lemma OnePage(calls: seq<Call>, session: int, tenant: int, cursor: int, limit: nat, m: nat)
    requires limit >= 1 && calls != [] && Primary(calls[0]) == Some(session) && m <= limit
    requires Remaining(calls[0], Some(session), tenant, cursor, m)
    ensures Exactly(calls, WalkHistory(calls, tenant, cursor, limit), Some(session),
                    View(calls[0], Some(session), tenant)[..m], limit)
  {
    var rows := View(calls[0], Some(session), tenant)[..m];
    var pages := WalkHistory(calls, tenant, cursor, limit);
    assert pages == [Page(Reversed(rows), false)] && pages[1..] == [];
  }

  lemma WalkHistoryGoesOn(calls: seq<Call>, tenant: int, cursor: int, limit: nat)
    requires limit >= 1 && calls != [] && PageOf(calls[0], tenant, cursor, limit).hasMore
    ensures var p := PageOf(calls[0], tenant, cursor, limit);
            && p.items != []
            && WalkHistory(calls, tenant, cursor, limit)
               == [p] + WalkHistory(calls[1..], tenant, p.items[|p.items| - 1].id, limit)
  {
  }

  lemma TablesTail(calls: seq<Call>)
    requires calls != [] && Growing(Tables(calls))
    ensures Growing(Tables(calls[1..]))
  {
    assert Tables(calls)[1..] == Tables(calls[1..]);
  }

  /** A full page, and what its last row is as a cursor for a later view. */
  lemma NextCursor(view: seq<Message>, later: seq<Message>, cursor: int, limit: nat, m: nat) returns (next: int)
    requires limit >= 1 && Ordered(later) && view <= later && Below(view, cursor) == m > limit
    ensures var p := PageAt(view, cursor, limit);
            p == Page(Reversed(view[..m][m - limit..]), true) && |p.items| == limit && next == p.items[limit - 1].id
    ensures Below(later, next) == m - limit && later[..m - limit] == view[..m][..m - limit]
  {
    CursorOfPage(view, later, cursor, limit);
    next := PageAt(view, cursor, limit).items[limit - 1].id;
    Slices(view, later, m, m - limit);
  }

  lemma NextPage(calls: seq<Call>, session: int, tenant: int, cursor: int, limit: nat, m: nat) returns (next: int)
    requires limit >= 1 && |calls| >= 2 && Growing(Tables(calls)) && Primary(calls[0]) == Some(session) && m > limit
    requires Remaining(calls[0], Some(session), tenant, cursor, m)
    ensures Remaining(calls[1], Some(session), tenant, next, m - limit)
    ensures var view, later := View(calls[0], Some(session), tenant), View(calls[1], Some(session), tenant);
            && later[..m - limit] == view[..m][..m - limit]
            && WalkHistory(calls, tenant, cursor, limit)
               == [Page(Reversed(view[..m][m - limit..]), true)] + WalkHistory(calls[1..], tenant, next, limit)
  {
    var view, later := View(calls[0], Some(session), tenant), View(calls[1], Some(session), tenant);
    ViewsGrow(calls, Some(session), tenant);
    ViewsAt(calls, Some(session), tenant);
    next := NextCursor(view, later, cursor, limit, m);
    WalkHistoryGoesOn(calls, tenant, cursor, limit);
  }

  lemma ViewsAt(calls: seq<Call>, session: Option<int>, tenant: int)
    requires |calls| >= 2 && Growing(Views(calls, session, tenant))
    ensures Ordered(View(calls[1], session, tenant)) && View(calls[0], session, tenant) <= View(calls[1], session, tenant)
  {
    var views := Views(calls, session, tenant);
    assert Growing(views[1..]) && views[1..][0] == views[1];
  }

  /** What is still to come of a session: it is shown exactly when no call strays. */
  lemma {:induction false} WalkExactly(calls: seq<Call>, session: int, tenant: int, cursor: int, limit: nat, m: nat)
    requires limit >= 1 && Growing(Tables(calls)) && calls != [] && |calls| >= Calls(m, limit)
    requires Remaining(calls[0], Some(session), tenant, cursor, m)
    requires m > 0 || Primary(calls[0]) == Some(session)
    ensures Exactly(calls, WalkHistory(calls, tenant, cursor, limit), Some(session),
                    View(calls[0], Some(session), tenant)[..m], limit)
    decreases |calls|
  {
    var view, pages := View(calls[0], Some(session), tenant), WalkHistory(calls, tenant, cursor, limit);
    var rows := view[..m];
    if Primary(calls[0]) != Some(session) {
      StrayWalk(calls, session, tenant, cursor, limit, m);
    } else if m <= limit {
      OnePage(calls, session, tenant, cursor, limit, m);
    } else {
      CallsStep(m, limit);
      TablesTail(calls);
      var next := NextPage(calls, session, tenant, cursor, limit, m);
      var p, rest := Page(Reversed(rows[m - limit..]), true), WalkHistory(calls[1..], tenant, next, limit);
      WalkExactly(calls[1..], session, tenant, next, limit, m - limit);
      assert View(calls[1], Some(session), tenant)[..m - limit] == rows[..m - limit];
      PagesThenRest(calls, Some(session), p, rest, rows, limit);
    }
  }

  /** Beyond a full page there is one more call, and at least one. */
  lemma CallsStep(m: nat, limit: nat)
    requires 1 <= limit < m
    ensures Calls(m, limit) == 1 + Calls(m - limit, limit) && Calls(m - limit, limit) >= 1
  {
  }

  lemma PagesThenRest(calls: seq<Call>, session: Option<int>, p: Page, rest: seq<Page>, rows: seq<Message>, limit: nat)
    requires 1 <= limit < |rows| && p == Page(Reversed(rows[|rows| - limit..]), true)
    requires calls != [] && Primary(calls[0]) == session
    requires Exactly(calls[1..], rest, session, rows[..|rows| - limit], limit)
    ensures Exactly(calls, [p] + rest, session, rows, limit)
  {
    var older := rows[..|rows| - limit];
    assert ([p] + rest)[1..] == rest;
    ReversedSplit(rows, |rows| - limit);
    SameFront(p.items, Items(rest), Reversed(older));
    assert Stays(calls, |[p] + rest|, session) <==> Stays(calls[1..], |rest|, session) by {
      assert forall i | 0 < i <= |rest| :: calls[i] == calls[1..][i - 1];
    }
    if Stays(calls[1..], |rest|, session) {
      PageThenRest(p, rest, rows, limit);
    }
  }

  /** While messages are only added, following the cursors from none shows the messages of the session
      met first, each once, if and only if every call made meets that session. */
  lemma HistoryShowsOneSession(calls: seq<Call>, tenant: int, limit: nat)
    requires limit >= 1 && Growing(Tables(calls)) && calls != []
    requires |calls| >= Calls(|View(calls[0], Primary(calls[0]), tenant)|, limit)
    ensures var first := Primary(calls[0]);
            var pages, rows := WalkHistory(calls, tenant, 0, limit), View(calls[0], first, tenant);
            Exactly(calls, pages, first, rows, limit)
  {
    var view := View(calls[0], Primary(calls[0]), tenant);
    assert view[..|view|] == view;
    if Primary(calls[0]).None? {
      var p := Page([], false);
      assert WalkHistory(calls, tenant, 0, limit) == [p] && [p][1..] == [];
    } else {
      WalkExactly(calls, Primary(calls[0]).value, tenant, 0, limit, |view|);
    }
  }

  lemma WhereOfTwo(a: Message, b: Message, keep: Message -> bool)
    ensures Where([a, b], keep) == (if keep(a) then [a] else []) + (if keep(b) then [b] else [])
  {
    assert [a, b][..1] == [a] && [a][..0] == [];
    assert Where([a], keep) == if keep(a) then [a] else [];
  }

  function Opened(device: string): seq<Session> {
    [Session(1, device, 1, true, false), Session(2, device, 2, true, false)]
  }

  lemma OpenedAreListed(device: string, ms: seq<Message>)
    ensures var ss := Opened(device);
            && ListByDevice(Call([ss[0]], [ss[0]], ms), device) && ListByDevice(Call(ss, [ss[1], ss[0]], ms), device)
  {
  }

  lemma WalkOfTwo(first: Call, second: Call, tenant: int, cursor: int, limit: nat, id: int)
    requires limit >= 1
    requires var p := PageOf(first, tenant, cursor, limit); p.hasMore && p.items[|p.items| - 1].id == id
    requires !PageOf(second, tenant, id, limit).hasMore
    ensures WalkHistory([first, second], tenant, cursor, limit)
            == [PageOf(first, tenant, cursor, limit), PageOf(second, tenant, id, limit)]
  {
    var calls := [first, second];
    assert calls[1..] == [second];
    assert WalkHistory([second], tenant, id, limit) == [PageOf(second, tenant, id, limit)];
  }

  lemma PagesOfTwo(a: Message, b: Message)
    requires 0 < a.id < b.id
    ensures PageAt([a, b], 0, 1) == Page([b], true) && PageAt([], b.id, 1) == Page([], false)
    ensures Growing([[a, b], [a, b]])
  {
    var ms := [a, b];
    var last := [b];
    assert ms[1..2] == last && last[..0] == [];
    assert Reversed(last) == [b];
    assert Below(ms, 0) == 2;
    var tables := [ms, ms];
    assert tables[1..] == [ms];
    assert Growing([ms]);
  }

  /** A session opened between two calls ends the walk with messages unseen. */
  lemma NewSessionEndsTheWalk(a: Message, b: Message, device: string, tenant: int)
    requires a.session == b.session == 1 && a.tenant == b.tenant == tenant && 0 < a.id < b.id
    ensures var ss := Opened(device);
            var first, second := Call([ss[0]], [ss[0]], [a, b]), Call(ss, [ss[1], ss[0]], [a, b]);
            && ListByDevice(first, device) && ListByDevice(second, device) && Growing([[a, b], [a, b]])
            && View(first, Primary(first), tenant) == [a, b]
            && WalkHistory([first, second], tenant, 0, 1) == [Page([b], true), Page([], false)]
  {
    var ss := Opened(device);
    var first, second := Call([ss[0]], [ss[0]], [a, b]), Call(ss, [ss[1], ss[0]], [a, b]);
    OpenedAreListed(device, [a, b]);
    PagesOfTwo(a, b);
    WhereOfTwo(a, b, OfSession(1, tenant));
    WhereOfTwo(a, b, OfSession(2, tenant));
    assert View(second, Primary(second), tenant) == [];
    WalkOfTwo(first, second, tenant, 0, 1, b.id);
  }
}
