/**
 Reads that follow pages from a server that may answer each request with anything: the fleet with the
 agents that are gone, and an identity's key history.
 */
module Paging {
  import opened Wrappers
  import opened KeyMoves

  const MAX_PAGES := 1000
  const MAX_ROWS := 100000
  const MAX_HISTORY_PAGES := 65536

  datatype Item = Item(id: string, hasActor: bool, state: string)

  /** A row of a page: an agent's, the page's own with what it echoes, or one that is neither. */
  datatype PageRow = AgentRow(item: Item) | OwnRow(echoes: string, cursor: Option<string>, complete: bool) | OtherRow

  datatype Answer = Unreachable | PlaneReason | LifecyclePending | NoListing | Page(rows: seq<PageRow>)

  datatype Why =
    | NotAnswered(answer: Answer) | NoWitness | TooManyRows | NoCursor | StoppedEarly | RepeatedPage | TooManyPages

  datatype Listing = Listed(live: seq<Item>, gone: seq<Item>, dropped: nat) | Incomplete(why: Why)

  const GONE_STATES: set<string> := {"revoked", "released", "erased", "reaped"}

  /** A gone agent's row carries who did it; a lifecycle state is the fallback. */
  predicate IsTombstone(i: Item) {
    i.hasActor || i.state in GONE_STATES
  }

  predicate IsWitness(r: PageRow) {
    r.OwnRow? && r.echoes == "tombstones"
  }

  /** A page's own row that echoes what was asked for; the last one counts. */
  function Witness(rows: seq<PageRow>): Option<PageRow> {
    if rows == [] then None
    else if IsWitness(rows[|rows| - 1]) then Some(rows[|rows| - 1])
    else Witness(rows[..|rows| - 1])
  }

  lemma {:induction false} WitnessIsOwn(rows: seq<PageRow>)
    ensures Witness(rows).Some? ==> IsWitness(Witness(rows).value)
    decreases |rows|
  {
    if rows != [] {
      WitnessIsOwn(rows[..|rows| - 1]);
    }
  }

  function Dead(rows: seq<PageRow>): seq<Item> {
    if rows == [] then []
    else
      var r := rows[|rows| - 1];
      Dead(rows[..|rows| - 1]) + (if r.AgentRow? && IsTombstone(r.item) then [r.item] else [])
  }

  function Alive(rows: seq<PageRow>): seq<Item> {
    if rows == [] then []
    else
      var r := rows[|rows| - 1];
      Alive(rows[..|rows| - 1]) + (if r.AgentRow? && !IsTombstone(r.item) then [r.item] else [])
  }

  /** The list keeps the rows' order; an agent is on it exactly when its row carries who did it or one of
      the four states that end it. */
  lemma {:induction false} DeadExactly(rows: seq<PageRow>, more: seq<PageRow>, i: Item)
    ensures Dead(rows + more) == Dead(rows) + Dead(more)
    ensures i in Dead(more) <==>
              AgentRow(i) in more && (i.hasActor || i.state in {"revoked", "released", "erased", "reaped"})
    decreases |more|
  {
    hide IsTombstone;
    if more == [] {
      assert rows + more == rows;
    } else {
      var before, last := more[..|more| - 1], more[|more| - 1];
      DeadExactly(rows, before, i);
      assert (rows + more)[..|rows + more| - 1] == rows + before;
      assert more == before + [last];
      EndsItself(i);
    }
  }

  /** The list keeps the rows' order; an agent is on it exactly when its row carries neither who did it
      nor one of those states. */
  lemma {:induction false} AliveExactly(rows: seq<PageRow>, more: seq<PageRow>, i: Item)
    ensures Alive(rows + more) == Alive(rows) + Alive(more)
    ensures i in Alive(more) <==>
              AgentRow(i) in more && !i.hasActor && i.state !in {"revoked", "released", "erased", "reaped"}
    decreases |more|
  {
    hide IsTombstone;
    if more == [] {
      assert rows + more == rows;
    } else {
      var before, last := more[..|more| - 1], more[|more| - 1];
      AliveExactly(rows, before, i);
      assert (rows + more)[..|rows + more| - 1] == rows + before;
      assert more == before + [last];
      EndsItself(i);
    }
  }

  lemma EndsItself(i: Item)
    ensures IsTombstone(i) <==> i.hasActor || i.state in {"revoked", "released", "erased", "reaped"}
  {
  }

  /** The row a page is judged by is its last own row that echoes what was asked for. */
  lemma {:induction false} WitnessIsLast(rows: seq<PageRow>)
    ensures Witness(rows).None? <==> forall r <- rows :: !(r.OwnRow? && r.echoes == "tombstones")
    ensures Witness(rows).Some? ==> exists k | 0 <= k < |rows| ::
              && rows[k] == Witness(rows).value && rows[k].OwnRow? && rows[k].echoes == "tombstones"
              && forall j | k < j < |rows| :: !(rows[j].OwnRow? && rows[j].echoes == "tombstones")
    decreases |rows|
  {
    if rows != [] {
      var before, last := rows[..|rows| - 1], rows[|rows| - 1];
      WitnessIsLast(before);
      assert rows == before + [last];
      if IsWitness(last) {
        assert rows[|before|] == last;
      } else if Witness(before).Some? {
        var k :| 0 <= k < |before| && before[k] == Witness(before).value
                 && forall j | k < j < |before| :: !(before[j].OwnRow? && before[j].echoes == "tombstones");
        assert rows[k] == before[k];
        assert forall j | k < j < |before| :: rows[j] == before[j];
      }
    }
  }

  function Agents(rows: seq<PageRow>): multiset<Item> {
    if rows == [] then multiset{}
    else
      var r := rows[|rows| - 1];
      Agents(rows[..|rows| - 1]) + (if r.AgentRow? then multiset{r.item} else multiset{})
  }

  lemma {:induction false} AgentsSplit(rows: seq<PageRow>)
    ensures Agents(rows) == multiset(Alive(rows)) + multiset(Dead(rows))
    decreases |rows|
  {
    if rows != [] {
      AgentsSplit(rows[..|rows| - 1]);
    }
  }

  function AllDead(pages: seq<seq<PageRow>>): seq<Item> {
    if pages == [] then [] else AllDead(pages[..|pages| - 1]) + Dead(pages[|pages| - 1])
  }

  /** The agents alive on the first page. */
  function FirstAlive(pages: seq<seq<PageRow>>): seq<Item> {
    if pages == [] then [] else Alive(pages[0])
  }

  /** The agents alive on later pages, where there should be none. */
  function LaterAlive(pages: seq<seq<PageRow>>): seq<Item> {
    if |pages| <= 1 then [] else LaterAlive(pages[..|pages| - 1]) + Alive(pages[|pages| - 1])
  }

  function AllAgents(pages: seq<seq<PageRow>>): multiset<Item> {
    if pages == [] then multiset{} else AllAgents(pages[..|pages| - 1]) + Agents(pages[|pages| - 1])
  }

  /** Live, gone and dropped account for every agent row served, each as often as it was served. */
  lemma {:induction false} EveryRowAccountedFor(pages: seq<seq<PageRow>>)
    ensures AllAgents(pages) == multiset(FirstAlive(pages)) + multiset(LaterAlive(pages)) + multiset(AllDead(pages))
    decreases |pages|
  {
    hide Agents, Alive, Dead;
    if |pages| == 1 {
      assert pages[..0] == [];
      AgentsSplit(pages[0]);
      assert AllDead(pages) == AllDead([]) + Dead(pages[0]);
      assert AllAgents(pages) == AllAgents([]) + Agents(pages[0]);
    } else if |pages| > 1 {
      var before, last := pages[..|pages| - 1], pages[|pages| - 1];
      EveryRowAccountedFor(before);
      AgentsSplit(last);
      assert FirstAlive(pages) == FirstAlive(before);
      assert multiset(LaterAlive(before) + Alive(last)) == multiset(LaterAlive(before)) + multiset(Alive(last));
      assert multiset(AllDead(before) + Dead(last)) == multiset(AllDead(before)) + multiset(Dead(last));
    }
  }

  // ----- the server -------------------------------------------------------------------------------------

  /** What the server answers to each request by its number, and whether the call's own deadline passes while
      it waits to ask again after it: anything. */
  datatype Line = Line(answers: nat -> Answer, expires: nat -> bool)

  class Server {
    const line: Line
    var asked: seq<string>

    constructor (line: Line)
      ensures this.line == line && asked == []
    {
      this.line, asked := line, [];
    }

    method Ask(cursor: string) returns (a: Answer)
      modifies this
      ensures asked == old(asked) + [cursor] && a == line.answers(|old(asked)|)
    {
      a := line.answers(|asked|);
      asked := asked + [cursor];
    }

    /** Asked again, at most twice and not past the call's deadline, while the record of what happened is still
        being written. */
    method AskRetrying(cursor: string) returns (a: Answer)
      modifies this
      ensures old(asked) <= asked && AskedFor(line, asked, |old(asked)|, |asked|, cursor)
      ensures a == line.answers(|asked| - 1)
    {
      for attempt := 0 to 2
        invariant |asked| == |old(asked)| + attempt && old(asked) <= asked
        invariant forall k | |old(asked)| <= k < |asked| :: asked[k] == cursor
        invariant forall k | |old(asked)| <= k < |asked| :: line.answers(k) == LifecyclePending && !line.expires(k)
      {
        a := Ask(cursor);
        if !MayAskAgain(line, |asked| - 1) {
          return;
        }
      }
      a := Ask(cursor);
    }
  }

  /** The answer says to come back, and there is time to. */
  predicate MayAskAgain(line: Line, k: nat) {
    line.answers(k).LifecyclePending? && !line.expires(k)
  }

  /** These requests are one: the same cursor each time, at most three, each but the last told to come back in
      time, and the last not so unless it is the third. */
  predicate AskedFor(line: Line, asked: seq<string>, from: nat, to: nat, cursor: string) {
    && from < to <= from + 3 && to <= |asked|
    && (forall k | from <= k < to :: asked[k] == cursor)
    && (forall k | from <= k < to - 1 :: line.answers(k) == LifecyclePending && !line.expires(k))
    && (to == from + 3 || line.answers(to - 1) != LifecyclePending || line.expires(to - 1))
  }

  /** The pages are what the server answered, each to its own cursor's requests: the requests for page i
      are those from `ends[i]` up to `ends[i + 1]`, and nothing else was asked. */
  ghost predicate AllServed(line: Line, asked: seq<string>, ends: seq<nat>, cursors: seq<string>,
                            pages: seq<seq<PageRow>>)
  {
    && |cursors| == |pages| && |ends| == |pages| + 1
    && forall i | 0 <= i < |pages| ::
         && AskedFor(line, asked, ends[i], ends[i + 1], cursors[i])
         && line.answers(ends[i + 1] - 1) == Answer.Page(pages[i])
  }

  lemma ServedOneMore(line: Line, before: seq<string>, asked: seq<string>, ends: seq<nat>,
                      cursors: seq<string>, pages: seq<seq<PageRow>>, cursor: string)
    requires AllServed(line, before, ends, cursors, pages) && before <= asked
    requires AskedFor(line, asked, ends[|pages|], |asked|, cursor)
    ensures AllServed(line, asked, ends, cursors, pages)
    ensures line.answers(|asked| - 1).Page? ==>
              AllServed(line, asked, ends + [|asked|], cursors + [cursor], pages + [line.answers(|asked| - 1).rows])
  {
    forall i | 0 <= i < |pages| ensures AskedFor(line, asked, ends[i], ends[i + 1], cursors[i]) {
      assert AskedFor(line, before, ends[i], ends[i + 1], cursors[i]);
    }
  }

  // ----- the listing ------------------------------------------------------------------------------------

  predicate Distinct(s: seq<string>) {
    forall i, j | 0 <= i < j < |s| :: s[i] != s[j]
  }

  /** What the page's own row says comes next: a cursor, nothing more, or no text at all. */
  function NextCursor(page: seq<PageRow>): Option<string> {
    match Witness(page) case Some(OwnRow(_, cursor, _)) => cursor case _ => None
  }

  predicate ClaimsComplete(page: seq<PageRow>) {
    match Witness(page) case Some(OwnRow(_, _, complete)) => complete case _ => false
  }

  /** Asked from the start, and each later page with the cursor the one before named. */
  predicate Linked(cursors: seq<string>, pages: seq<seq<PageRow>>) {
    && |cursors| == |pages| && (cursors != [] ==> cursors[0] == "")
    && forall i | 0 <= i < |pages| - 1 :: cursors[i + 1] != "" && NextCursor(pages[i]) == Some(cursors[i + 1])
  }

  predicate AllWitnessed(pages: seq<seq<PageRow>>) {
    forall i | 0 <= i < |pages| :: Witness(pages[i]).Some?
  }

  /** What the last page must say, and only it ends a listing. */
  predicate SaysComplete(page: seq<PageRow>) {
    NextCursor(page) == Some("") && ClaimsComplete(page)
  }

  /** What is held of the pages read. */
  predicate Holds(pages: seq<seq<PageRow>>, live: seq<Item>, gone: seq<Item>, dropped: nat) {
    live == FirstAlive(pages) && gone == AllDead(pages) && dropped == |LaterAlive(pages)|
  }

  /** So it accounts for every agent row of the pages, each as often as it was served. */
  predicate AccountsForAll(pages: seq<seq<PageRow>>, live: seq<Item>, gone: seq<Item>, dropped: nat) {
    && AllAgents(pages) == multiset(live) + multiset(LaterAlive(pages)) + multiset(gone)
    && |AllAgents(pages)| == |live| + dropped + |gone|
  }

  lemma HeldAccounts(pages: seq<seq<PageRow>>, live: seq<Item>, gone: seq<Item>, dropped: nat)
    requires Holds(pages, live, gone, dropped)
    ensures AccountsForAll(pages, live, gone, dropped)
  {
    EveryRowAccountedFor(pages);
  }

  /** What a success means. */
  predicate Whole(r: Listing, cursors: seq<string>, pages: seq<seq<PageRow>>) {
    && r.Listed? && 1 <= |pages| <= MAX_PAGES
    && AllWitnessed(pages) && Distinct(cursors) && SaysComplete(pages[|pages| - 1])
    && Holds(pages, r.live, r.gone, r.dropped)
    && |r.live| + |r.gone| <= MAX_ROWS
  }

  predicate HoldsTooMany(pages: seq<seq<PageRow>>) {
    |FirstAlive(pages)| + |AllDead(pages)| > MAX_ROWS
  }

  lemma TooManyHeld(pages: seq<seq<PageRow>>, live: seq<Item>, gone: seq<Item>, dropped: nat)
    requires Holds(pages, live, gone, dropped) && |live| + |gone| > MAX_ROWS
    ensures HoldsTooMany(pages)
  {
  }

  /** What each refusal means, of the pages read so far. */
  predicate Rightly(why: Why, cursors: seq<string>, pages: seq<seq<PageRow>>) {
    match why
    case NotAnswered(a) => !a.Page? && AllWitnessed(pages)
    case TooManyRows => HoldsTooMany(pages)
    case TooManyPages => |pages| == MAX_PAGES && AllWitnessed(pages) && !SaysComplete(pages[|pages| - 1])
    case _ =>
      && pages != []
      && var last := pages[|pages| - 1];
      && (why.NoWitness? <==> Witness(last).None?)
      && (why.NoCursor? ==> NextCursor(last).None?)
      && (why.StoppedEarly? ==> NextCursor(last) == Some("") && !ClaimsComplete(last))
      && (why.RepeatedPage? ==>
            NextCursor(last).Some? && NextCursor(last).value != "" && NextCursor(last).value in cursors)
  }

  /** The cursor the next request carries. */
  predicate AsksNext(pages: seq<seq<PageRow>>, cursor: string) {
    if pages == [] then cursor == "" else cursor != "" && NextCursor(pages[|pages| - 1]) == Some(cursor)
  }

  /** One more page, asked for with the cursor the one before gave. */
  lemma LinkGrows(cursors: seq<string>, pages: seq<seq<PageRow>>, cursor: string, rows: seq<PageRow>)
    requires Linked(cursors, pages) && AsksNext(pages, cursor)
    ensures Linked(cursors + [cursor], pages + [rows])
  {
    hide Witness, NextCursor;
    var asked, read := cursors + [cursor], pages + [rows];
    forall i | 0 <= i < |read| - 1 ensures asked[i + 1] != "" && NextCursor(read[i]) == Some(asked[i + 1]) {
      if i < |pages| - 1 {
        assert read[i] == pages[i] && asked[i + 1] == cursors[i + 1];
      }
    }
  }

  lemma MoreWitnessed(pages: seq<seq<PageRow>>, rows: seq<PageRow>)
    ensures AllWitnessed(pages) && Witness(rows).Some? ==> AllWitnessed(pages + [rows])
  {
    hide Witness;
  }

  /** The cursors kept are those asked with, but for the first request's empty one. */
  ghost predicate Remembers(seen: set<string>, cursors: seq<string>) {
    forall c :: c in seen <==> c != "" && c in cursors
  }

  lemma FirstCursor()
    ensures Remembers({}, [] + [""]) && Distinct([] + [""])
  {
  }

  lemma NewCursor(seen: set<string>, cursors: seq<string>, next: string)
    requires Remembers(seen, cursors) && Distinct(cursors) && next != ""
    ensures next in seen <==> next in cursors
    ensures next !in seen ==> Remembers(seen + {next}, cursors + [next]) && Distinct(cursors + [next])
  {
  }

  /** What was asked last: the request refused, or nothing after the last page. */
  ghost predicate EndedOn(line: Line, asked: seq<string>, ends: seq<nat>, pages: seq<seq<PageRow>>,
                          why: Why)
  {
    && |ends| == |pages| + 1
    && if why.NotAnswered?
       then asked != [] && why.answer == line.answers(|asked| - 1)
            && exists cursor :: AsksNext(pages, cursor) && AskedFor(line, asked, ends[|pages|], |asked|, cursor)
       else ends[|pages|] == |asked|
  }

  /** One page's rows taken in: its own row, and each agent's row where it belongs. */
  method TakePage(rows: seq<PageRow>, first: bool, live: seq<Item>, gone: seq<Item>, dropped: nat)
    returns (live': seq<Item>, gone': seq<Item>, dropped': nat, own: Option<PageRow>)
    ensures own == Witness(rows) && gone' == gone + Dead(rows)
    ensures live' == (if first then live + Alive(rows) else live)
    ensures dropped' == dropped + if first then 0 else |Alive(rows)|
  {
    live', gone', dropped', own := live, gone, dropped, None;
    for i := 0 to |rows|
      invariant own == Witness(rows[..i]) && gone' == gone + Dead(rows[..i])
      invariant live' == (if first then live + Alive(rows[..i]) else live)
      invariant dropped' == dropped + if first then 0 else |Alive(rows[..i])|
    {
      assert rows[..i + 1][..i] == rows[..i];
      match rows[i] {
        case OwnRow(echoes, _, _) =>
          if echoes == "tombstones" {
            own := Some(rows[i]);
          }
        case OtherRow =>
        case AgentRow(item) =>
          if IsTombstone(item) {
            gone' := gone' + [item];
          } else if first {
            live' := live' + [item];
          } else {
            dropped' := dropped' + 1;
          }
      }
    }
    assert rows[..|rows|] == rows;
  }

  /** The pages are the server's, asked for in turn. */
  ghost predicate ReadInTurn(line: Line, asked: seq<string>, ends: seq<nat>, cursors: seq<string>,
                             pages: seq<seq<PageRow>>)
  {
    AllServed(line, asked, ends, cursors, pages) && Linked(cursors, pages)
  }

  lemma NothingYet(line: Line, asked: seq<string>)
    ensures ReadInTurn(line, asked, [|asked|], [], [])
    ensures AllWitnessed([]) && AsksNext([], "") && Holds([], [], [], 0)
  {
  }

  /** One request, retried while it is told to come back, and its page taken in. */
  method TakeNext(server: Server, cursor: string, live: seq<Item>, gone: seq<Item>, dropped: nat,
                  ghost ends: seq<nat>, ghost cursors: seq<string>, ghost pages: seq<seq<PageRow>>, first: bool)
    returns (a: Answer, live': seq<Item>, gone': seq<Item>, dropped': nat, own: Option<PageRow>)
    requires ReadInTurn(server.line, server.asked, ends, cursors, pages) && Holds(pages, live, gone, dropped)
    requires ends[|pages|] == |server.asked| && AsksNext(pages, cursor) && (first <==> pages == [])
    modifies server
    ensures old(server.asked) <= server.asked
    ensures if a.Page?
            then own == Witness(a.rows)
                 && ReadInTurn(server.line, server.asked, ends + [|server.asked|], cursors + [cursor],
                               pages + [a.rows])
                 && Holds(pages + [a.rows], live', gone', dropped')
            else ReadInTurn(server.line, server.asked, ends, cursors, pages)
                 && EndedOn(server.line, server.asked, ends, pages, NotAnswered(a))
  {
    hide Witness, Dead, Alive, Linked, AskedFor, AllServed;
    ghost var asked := server.asked;
    a := server.AskRetrying(cursor);
    live', gone', dropped', own := live, gone, dropped, None;
    assert |ends| == |pages| + 1 by {
      ServedInOrder(server.line, asked, ends, cursors, pages);
    }
    ServedOneMore(server.line, asked, server.asked, ends, cursors, pages, cursor);
    if a.Page? {
      live', gone', dropped', own := TakePage(a.rows, first, live, gone, dropped);
      LinkGrows(cursors, pages, cursor, a.rows);
      ghost var more := pages + [a.rows];
      assert more[..|pages|] == pages && more[|pages|] == a.rows;
    }
  }

  lemma ServedInOrder(line: Line, asked: seq<string>, ends: seq<nat>, cursors: seq<string>,
                      pages: seq<seq<PageRow>>)
    requires AllServed(line, asked, ends, cursors, pages)
    ensures |ends| == |pages| + 1
  {
  }

  /** Follows pages to the one that says complete; anything else is an error, never a shorter list. The
      pages are the server's own answers, to every request made, and the last answer is the one refused. */
  method ListWithTombstones(server: Server)
    returns (r: Listing, ghost cursors: seq<string>, ghost pages: seq<seq<PageRow>>, ghost ends: seq<nat>)
    modifies server
    ensures ReadInTurn(server.line, server.asked, ends, cursors, pages)
    ensures ends[0] == |old(server.asked)| && old(server.asked) <= server.asked
    ensures r.Listed? ==> Whole(r, cursors, pages) && ends[|pages|] == |server.asked|
    ensures r.Listed? ==> AccountsForAll(pages, r.live, r.gone, r.dropped)
    ensures r.Incomplete? ==>
      Rightly(r.why, cursors, pages) && EndedOn(server.line, server.asked, ends, pages, r.why)
  {
    hide Witness, Dead, Alive, Agents, Linked, AllWitnessed, AskedFor, AllServed, AllAgents, Distinct, Remembers;
    hide AllDead, LaterAlive, ReadInTurn, Holds, AccountsForAll;
    NothingYet(server.line, server.asked);
    FirstCursor();
    var live, gone, dropped, cursor, seen := [], [], 0, "", {};
    cursors, pages, ends := [], [], [|server.asked|];
    for n := 0 to MAX_PAGES
      invariant |pages| == |cursors| == n && |ends| == n + 1
      invariant ends[0] == |old(server.asked)| && ends[n] == |server.asked| && old(server.asked) <= server.asked
      invariant ReadInTurn(server.line, server.asked, ends, cursors, pages) && Holds(pages, live, gone, dropped)
      invariant AllWitnessed(pages) && AsksNext(pages, cursor)
      invariant Distinct(cursors + [cursor]) && Remembers(seen, cursors + [cursor])
      invariant n > 0 ==> !SaysComplete(pages[n - 1])
    {
      var a, own;
      a, live, gone, dropped, own := TakeNext(server, cursor, live, gone, dropped, ends, cursors, pages, n == 0);
      if !a.Page? {
        return Incomplete(NotAnswered(a)), cursors, pages, ends;
      }
      WitnessIsOwn(a.rows);
      MoreWitnessed(pages, a.rows);
      cursors, pages, ends := cursors + [cursor], pages + [a.rows], ends + [|server.asked|];
      if own.None? {
        return Incomplete(NoWitness), cursors, pages, ends;
      }
      if |live| + |gone| > MAX_ROWS {
        TooManyHeld(pages, live, gone, dropped);
        return Incomplete(TooManyRows), cursors, pages, ends;
      }
      var next := own.value.cursor;
      if next.None? {
        return Incomplete(NoCursor), cursors, pages, ends;
      }
      if next.value == "" {
        if !own.value.complete {
          return Incomplete(StoppedEarly), cursors, pages, ends;
        }
        HeldAccounts(pages, live, gone, dropped);
        return Listed(live, gone, dropped), cursors, pages, ends;
      }
      NewCursor(seen, cursors, next.value);
      if next.value in seen {
        return Incomplete(RepeatedPage), cursors, pages, ends;
      }
      seen := seen + {next.value};
      cursor := next.value;
    }
    return Incomplete(TooManyPages), cursors, pages, ends;
  }

  // ----- an identity's key history ----------------------------------------------------------------------

  datatype HistoryPage = HistoryPage(events: seq<Event>, nextAfter: Option<int>)

  datatype HistoryAnswer = HistoryFailed | Unparsable | Served(head: Head, page: HistoryPage)

  datatype HistoryRead = WholeHistory(pages: seq<HistoryPage>, head: Head) | NoHistory | NotAdvancing | NeverEnds

  function Flat(pages: seq<HistoryPage>): seq<Event> {
    if pages == [] then [] else pages[0].events + Flat(pages[1..])
  }

  /** The first request asks from the start, each later one from further on than the one before. */
  predicate Climbs(asked: seq<Option<int>>) {
    && (asked != [] ==> asked[0] == None)
    && (forall i | 0 < i < |asked| :: asked[i].Some? && asked[i].value >= 0)
    && forall i, j | 0 < i < j < |asked| :: asked[i].value < asked[j].value
  }

  /** Each page but the last names where the next request begins. */
  predicate Follows(pages: seq<HistoryPage>, asked: seq<Option<int>>) {
    |pages| == |asked| && forall i | 0 < i < |pages| :: pages[i - 1].nextAfter == asked[i]
  }

  predicate HistoryServed(answers: (nat, Option<int>) -> HistoryAnswer, pages: seq<HistoryPage>,
                          asked: seq<Option<int>>)
  {
    && |pages| == |asked|
    && forall i | 0 <= i < |pages| :: answers(i, asked[i]).Served? && answers(i, asked[i]).page == pages[i]
  }

  lemma ClimbsOn(asked: seq<Option<int>>, from: Option<int>)
    requires Climbs(asked)
    requires if asked == [] then from == None
             else from.Some? && from.value >= 0 && (|asked| > 1 ==> from.value > asked[|asked| - 1].value)
    ensures Climbs(asked + [from])
  {
    var more := asked + [from];
    forall i, j | 0 < i < j < |more| ensures more[i].value < more[j].value {
      if j == |asked| && i < |asked| - 1 {
        assert asked[i].value < asked[|asked| - 1].value;
      }
    }
  }

  /** The event a request asks to go on after; from the start is before every one. */
  function Place(from: Option<int>): int {
    match from case None => -1 case Some(after) => after
  }

  /** This request is answered with a page that names where the next one begins. */
  predicate LeadsOn(answers: (nat, Option<int>) -> HistoryAnswer, asked: seq<Option<int>>, i: nat)
    requires i + 1 < |asked|
  {
    answers(i, asked[i]).Served? && answers(i, asked[i]).page.nextAfter == asked[i + 1]
  }

  /** So is every one but the last. */
  ghost predicate Leads(answers: (nat, Option<int>) -> HistoryAnswer, asked: seq<Option<int>>) {
    forall i: nat | i + 1 < |asked| :: LeadsOn(answers, asked, i)
  }

  /** What the read comes to is told by the answer it stopped at: no page, the last page, one that names no place
      further on, or one more at the bound. */
  ghost predicate StopsRightly(answers: (nat, Option<int>) -> HistoryAnswer, r: HistoryRead, asked: seq<Option<int>>)
  {
    && asked != []
    && var last := |asked| - 1;
    match answers(last, asked[last])
    case Served(_, page) =>
      if page.nextAfter.None? then r.WholeHistory?
      else if page.nextAfter.value <= Place(asked[last]) then r.NotAdvancing?
      else r.NeverEnds? && |asked| == MAX_HISTORY_PAGES
    case _ => r.NoHistory?
  }

  lemma OnePageMore(answers: (nat, Option<int>) -> HistoryAnswer, pages: seq<HistoryPage>, asked: seq<Option<int>>,
                    from: Option<int>)
    requires Follows(pages, asked) && HistoryServed(answers, pages, asked)
    requires pages != [] ==> pages[|pages| - 1].nextAfter == from
    ensures var a := answers(|asked|, from);
            a.Served? ==> Follows(pages + [a.page], asked + [from])
                          && HistoryServed(answers, pages + [a.page], asked + [from])
  {
  }

  lemma LeadsFurther(answers: (nat, Option<int>) -> HistoryAnswer, asked: seq<Option<int>>, from: Option<int>)
    requires Leads(answers, asked)
    requires asked != [] ==> var a := answers(|asked| - 1, asked[|asked| - 1]); a.Served? && a.page.nextAfter == from
    ensures Leads(answers, asked + [from])
  {
    forall i: nat | i + 1 < |asked + [from]| ensures LeadsOn(answers, asked + [from], i) {
      assert i + 1 < |asked| ==> LeadsOn(answers, asked, i);
    }
  }

  method ReadHistory(answers: (nat, Option<int>) -> HistoryAnswer) returns (r: HistoryRead, asked: seq<Option<int>>)
    ensures 1 <= |asked| <= MAX_HISTORY_PAGES && Climbs(asked)
    ensures Leads(answers, asked) && StopsRightly(answers, r, asked)
    ensures r.WholeHistory? ==>
      && Follows(r.pages, asked) && HistoryServed(answers, r.pages, asked) && r.head == answers(0, None).head
      && r.pages[|r.pages| - 1].nextAfter.None?
  {
    hide Climbs, Follows, HistoryServed, Leads;
    var pages: seq<HistoryPage>, after := [], -1;
    var head := Head(Hosted, None, None, None, false);
    asked := [];
    NothingAsked(answers);
    for n := 0 to MAX_HISTORY_PAGES
      invariant |pages| == |asked| == n && after >= -1 && (n == 0 <==> after == -1)
      invariant Climbs(asked) && Follows(pages, asked) && HistoryServed(answers, pages, asked) && Leads(answers, asked)
      invariant n > 0 ==> answers(0, None).Served? && head == answers(0, None).head
      invariant n > 0 ==> Place(asked[n - 1]) < after && (if n == 1 then asked[0].None? else asked[n - 1].Some?)
      invariant n > 0 ==> answers(n - 1, asked[n - 1]).Served? && answers(n - 1, asked[n - 1]).page == pages[n - 1]
      invariant n > 0 ==> pages[n - 1].nextAfter == Some(after)
    {
      var from := if after >= 0 then Some(after) else None;
      var a := answers(n, from);
      ClimbsOn(asked, from);
      OnePageMore(answers, pages, asked, from);
      LeadsFurther(answers, asked, from);
      asked := asked + [from];
      if !a.Served? {
        return NoHistory, asked;
      }
      if n == 0 {
        head := a.head;
      }
      pages := pages + [a.page];
      if a.page.nextAfter.None? {
        return WholeHistory(pages, head), asked;
      }
      if a.page.nextAfter.value <= after {
        return NotAdvancing, asked;
      }
      after := a.page.nextAfter.value;
    }
    return NeverEnds, asked;
  }

  lemma NothingAsked(answers: (nat, Option<int>) -> HistoryAnswer)
    ensures Climbs([]) && Follows([], []) && HistoryServed(answers, [], []) && Leads(answers, [])
  {
  }

  /** Requests that climb within the bound, each from where the page before said, to a page that names no more. */
  ghost predicate LeadsToAnEnd(answers: (nat, Option<int>) -> HistoryAnswer, asked: seq<Option<int>>) {
    && 1 <= |asked| <= MAX_HISTORY_PAGES && Climbs(asked) && Leads(answers, asked)
    && var a := answers(|asked| - 1, asked[|asked| - 1]);
    a.Served? && a.page.nextAfter.None?
  }

  /** Whatever the read asks, answers that lead to an end are asked for to that end, and the history is read. */
  lemma EndIsReached(answers: (nat, Option<int>) -> HistoryAnswer, r: HistoryRead, asked: seq<Option<int>>,
                     wanted: seq<Option<int>>)
    requires 1 <= |asked| <= MAX_HISTORY_PAGES && Climbs(asked) && Leads(answers, asked)
    requires StopsRightly(answers, r, asked) && LeadsToAnEnd(answers, wanted)
    ensures r.WholeHistory? && asked == wanted
  {
    var k := if |asked| < |wanted| then |asked| else |wanted|;
    SameRequests(answers, asked, wanted, k);
    var last := k - 1;
    assert last + 1 < |asked| ==> LeadsOn(answers, asked, last);
    assert last + 1 < |wanted| ==> LeadsOn(answers, wanted, last);
  }

  lemma {:induction false} SameRequests(answers: (nat, Option<int>) -> HistoryAnswer, asked: seq<Option<int>>,
                                        wanted: seq<Option<int>>, k: nat)
    requires Climbs(asked) && Leads(answers, asked) && Climbs(wanted) && Leads(answers, wanted)
    requires k <= |asked| && k <= |wanted|
    ensures forall i | 0 <= i < k :: asked[i] == wanted[i]
  {
    if k > 1 {
      SameRequests(answers, asked, wanted, k - 1);
      assert LeadsOn(answers, asked, k - 2) && LeadsOn(answers, wanted, k - 2);
    }
  }

  /** The event at a sequence, page by page, is the one in the whole history's events. */
  method EventAtPages(pages: seq<HistoryPage>, sequence: nat) returns (e: Option<Event>)
    ensures e == EventAt(Flat(pages), sequence)
  {
    for i := 0 to |pages|
      invariant EventAt(Flat(pages), sequence) == EventAt(Flat(pages[i..]), sequence)
    {
      var events := pages[i].events;
      assert pages[i..][0] == pages[i] && pages[i..][1..] == pages[i + 1..];
      for k := 0 to |events|
        invariant EventAt(Flat(pages), sequence) == EventAt(events[k..] + Flat(pages[i + 1..]), sequence)
      {
        assert (events[k..] + Flat(pages[i + 1..]))[0] == events[k];
        if events[k].sequence == sequence {
          return Some(events[k]);
        }
        assert (events[k..] + Flat(pages[i + 1..]))[1..] == events[k + 1..] + Flat(pages[i + 1..]);
      }
      assert events[|events|..] + Flat(pages[i + 1..]) == Flat(pages[i + 1..]);
    }
    return None;
  }

  lemma {:induction false} FlatEnds(pages: seq<HistoryPage>)
    requires pages != []
    ensures Flat(pages) == Flat(pages[..|pages| - 1]) + pages[|pages| - 1].events
    decreases |pages|
  {
    if |pages| > 1 {
      FlatEnds(pages[1..]);
      assert pages[1..][..|pages| - 2] == pages[..|pages| - 1][1..];
    }
  }

  /** The last event of the last page that has one is the history's last. */
  method HeadEvent(pages: seq<HistoryPage>) returns (e: Option<Event>)
    ensures e == if Flat(pages) == [] then None else Some(Flat(pages)[|Flat(pages)| - 1])
  {
    assert pages[..|pages|] == pages;
    for i := |pages| downto 0
      invariant Flat(pages[..i]) == Flat(pages)
    {
      assert pages[..i + 1][..i] == pages[..i];
      FlatEnds(pages[..i + 1]);
      var events := pages[i].events;
      if events != [] {
        return Some(events[|events| - 1]);
      }
    }
    return None;
  }
}
