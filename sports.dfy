/**
  The sports events repository (sports/db/sports.go): the filter and order
  compilers of the list call, the status deriver, and the lookup and
  winner-update rules over the events table.

  The SQL engine is not modelled: the table is a map from id (the primary
  key) to its row, and "now" is a parameter.
*/
module Sports {
  import opened Wrappers
  import opened SqlText
  import opened Status
  import opened SportsQueries
  import OrderBy

  /** One row of the events table, as the scanner fills it, plus its derived status. */
  datatype Event = Event(
    id: int,
    name: string,
    playerOne: string,
    playerTwo: string,
    arena: string,
    visible: bool,
    winner: string,
    advertisedStart: Option<int>,
    status: string)

  /** The list filter; every field is optional. */
  datatype EventsFilter = EventsFilter(
    player: Option<string>,
    arena: Option<string>,
    winner: Option<string>,
    visible: Option<bool>)

  /** A winner-update request. */
  datatype UpdateWinnerRequest = UpdateWinnerRequest(id: int, winner: string)

  const PlayerClauseText := "player_one = ? OR player_two = ? "
  const ArenaClauseText := "arena = ?"
  const WinnerClauseText := "winner = ?"

  /** No field of the filter is set. */
  predicate NoFields(f: EventsFilter)
  {
    f.player.None? && f.arena.None? && f.winner.None? && f.visible.None?
  }

  /**
    The first half of applyFilter: clause texts and their arguments are
    collected field by field, in the order player, arena, winner, visible.
  */
  function CollectClauses(f: EventsFilter): (r: (seq<string>, seq<Arg>))
    ensures |r.0| == 0 <==> NoFields(f)
  {
    var (clauses1, args1) :=
      if f.player.Some? then ([PlayerClauseText], [Text(f.player.value), Text(f.player.value)])
      else ([], []);
    var (clauses2, args2) :=
      if f.arena.Some? then (clauses1 + [ArenaClauseText], args1 + [Text(f.arena.value)])
      else (clauses1, args1);
    var (clauses3, args3) :=
      if f.winner.Some? then (clauses2 + [WinnerClauseText], args2 + [Text(f.winner.value)])
      else (clauses2, args2);
    var clauses4 :=
      if f.visible.Some? then clauses3 + ["visible = " + FormatBool(f.visible.value)]
      else clauses3;
    (clauses4, args3)
  }

  /**
    applyFilter: a nil filter leaves the query alone; otherwise, when any
    clause was collected, one " WHERE " and the clauses joined with " AND "
    follow the query.
  */
  function ApplyFilter(query: string, filter: Option<EventsFilter>): (r: (string, seq<Arg>))
    ensures filter.None? ==> r == (query, [])
    ensures filter.Some? && NoFields(filter.value) ==> r == (query, [])
    ensures |query| <= |r.0| && r.0[..|query|] == query
  {
    if filter.None? then (query, [])
    else
      var (clauses, args) := CollectClauses(filter.value);
      (if |clauses| != 0 then query + " WHERE " + Join(clauses, " AND ") else query, args)
  }

  /** The player clause: both player columns compared with the same value, in this order. */
  function PlayerClause(player: string): seq<Piece>
  {
    [Lit("player_one = "), Param(Text(player)), Lit(" OR player_two = "), Param(Text(player)), Lit(" ")]
  }

  /**
    Reference view of the filter: the present clauses, in the fixed order
    player, arena, winner, visible, each with its placeholders carrying
    their own arguments. The visible value is literal text.
  */
  function Clauses(f: EventsFilter): seq<seq<Piece>>
  {
    PlayerPart(f.player) + ArenaPart(f.arena) + WinnerPart(f.winner) + VisiblePart(f.visible)
  }

  function PlayerPart(player: Option<string>): seq<seq<Piece>>
  {
    if player.Some? then [PlayerClause(player.value)] else []
  }

  function ArenaPart(arena: Option<string>): seq<seq<Piece>>
  {
    if arena.Some? then [[Lit("arena = "), Param(Text(arena.value))]] else []
  }

  function WinnerPart(winner: Option<string>): seq<seq<Piece>>
  {
    if winner.Some? then [[Lit("winner = "), Param(Text(winner.value))]] else []
  }

  lemma CleanLitParam(t: string, arg: Arg)
    requires '?' !in t
    ensures AllClean([[Lit(t), Param(arg)]])
  {
  }

  lemma CleanPlayerPart(player: Option<string>)
    ensures AllClean(PlayerPart(player))
  {
    assert '?' !in "player_one = " && '?' !in " OR player_two = " && '?' !in " ";
  }

  lemma CleanClauses(f: EventsFilter)
    ensures AllClean(Clauses(f))
  {
    CleanPlayerPart(f.player);
    assert '?' !in "arena = " && '?' !in "winner = ";
    if f.arena.Some? {
      CleanLitParam("arena = ", Text(f.arena.value));
    }
    if f.winner.Some? {
      CleanLitParam("winner = ", Text(f.winner.value));
    }
    RenderVisiblePart(f.visible);
    var p, a, w := PlayerPart(f.player), ArenaPart(f.arena), WinnerPart(f.winner);
    AllCleanAppend(p, a);
    AllCleanAppend(p + a, w);
    AllCleanAppend(p + a + w, VisiblePart(f.visible));
  }

  lemma RenderLitParam(t: string, arg: Arg)
    ensures Render([Lit(t), Param(arg)]) == t + "?" && Params([Lit(t), Param(arg)]) == [arg]
  {
    RenderSingle(Lit(t));
    RenderSingle(Param(arg));
    RenderAppend([Lit(t)], [Param(arg)]);
    assert [Lit(t), Param(arg)] == [Lit(t)] + [Param(arg)];
  }

  lemma RenderLit(t: string)
    ensures Render([Lit(t)]) == t && Params([Lit(t)]) == []
  {
    RenderSingle(Lit(t));
  }

  lemma RenderTwoParams(one: string, two: string, tail: string, arg: Arg)
    ensures Render([Lit(one), Param(arg), Lit(two), Param(arg), Lit(tail)]) == one + "?" + two + "?" + tail
    ensures Params([Lit(one), Param(arg), Lit(two), Param(arg), Lit(tail)]) == [arg, arg]
  {
    var first, rest := [Lit(one), Param(arg)], [Lit(two), Param(arg), Lit(tail)];
    RenderLitParam(one, arg);
    RenderLitParamLit(two, arg, tail);
    RenderAppend(first, rest);
    assert [Lit(one), Param(arg), Lit(two), Param(arg), Lit(tail)] == first + rest;
    var head, middle := one + "?", two + "?";
    AppendAssociates(head, middle, tail);
    AppendAssociates(head, two, "?");
  }

  lemma RenderLitParamLit(t: string, arg: Arg, tail: string)
    ensures Render([Lit(t), Param(arg), Lit(tail)]) == t + "?" + tail
    ensures Params([Lit(t), Param(arg), Lit(tail)]) == [arg]
  {
    RenderLitParam(t, arg);
    RenderLit(tail);
    RenderAppend([Lit(t), Param(arg)], [Lit(tail)]);
    assert [Lit(t), Param(arg), Lit(tail)] == [Lit(t), Param(arg)] + [Lit(tail)];
  }

  lemma PlayerClauseTextParts()
    ensures "player_one = " + "?" + " OR player_two = " + "?" + " " == PlayerClauseText
  {
  }

  lemma RenderPlayerClause(player: string)
    ensures Render(PlayerClause(player)) == PlayerClauseText
    ensures Params(PlayerClause(player)) == [Text(player), Text(player)]
  {
    RenderTwoParams("player_one = ", " OR player_two = ", " ", Text(player));
    PlayerClauseTextParts();
  }

  /** Appending under a condition is appending the conditional part. */
  lemma AppendIf<T>(b: bool, s: seq<T>, x: seq<T>)
    ensures (if b then s + x else s) == s + (if b then x else [])
  {
    if !b {
      assert s + [] == s;
    }
  }

  lemma RenderAllFour(p: seq<seq<Piece>>, a: seq<seq<Piece>>, w: seq<seq<Piece>>, v: seq<seq<Piece>>)
    ensures RenderAll(p + a + w + v) == RenderAll(p) + RenderAll(a) + RenderAll(w) + RenderAll(v)
    ensures ParamsAll(p + a + w + v) == ParamsAll(p) + ParamsAll(a) + ParamsAll(w) + ParamsAll(v)
  {
    RenderAllAppend(p, a);
    RenderAllAppend(p + a, w);
    RenderAllAppend(p + a + w, v);
  }

  /** The collected texts and arguments are those of the reference clauses. */
  lemma CollectClausesMeaning(f: EventsFilter)
    ensures CollectClauses(f) == (RenderAll(Clauses(f)), ParamsAll(Clauses(f)))
  {
    RenderClauses(f);
    var c1: seq<string> := if f.player.Some? then [PlayerClauseText] else [];
    var a1: seq<Arg> := if f.player.Some? then [Text(f.player.value), Text(f.player.value)] else [];
    var ca: seq<string> := if f.arena.Some? then [ArenaClauseText] else [];
    var aa: seq<Arg> := if f.arena.Some? then [Text(f.arena.value)] else [];
    AppendIf(f.arena.Some?, c1, ca);
    AppendIf(f.arena.Some?, a1, aa);
    var c2, a2 := c1 + ca, a1 + aa;
    var cw: seq<string> := if f.winner.Some? then [WinnerClauseText] else [];
    var aw: seq<Arg> := if f.winner.Some? then [Text(f.winner.value)] else [];
    AppendIf(f.winner.Some?, c2, cw);
    AppendIf(f.winner.Some?, a2, aw);
    var cv: seq<string> := if f.visible.Some? then ["visible = " + FormatBool(f.visible.value)] else [];
    AppendIf(f.visible.Some?, c2 + cw, cv);
  }

  lemma RenderPlayerPart(player: Option<string>)
    ensures RenderAll(PlayerPart(player)) == if player.Some? then [PlayerClauseText] else []
    ensures ParamsAll(PlayerPart(player)) == if player.Some? then [Text(player.value), Text(player.value)] else []
  {
    if player.Some? {
      RenderPlayerClause(player.value);
      RenderOne(PlayerClause(player.value));
    }
  }

  lemma RenderArenaPart(arena: Option<string>)
    ensures RenderAll(ArenaPart(arena)) == if arena.Some? then [ArenaClauseText] else []
    ensures ParamsAll(ArenaPart(arena)) == if arena.Some? then [Text(arena.value)] else []
  {
    if arena.Some? {
      RenderLitParam("arena = ", Text(arena.value));
      assert "arena = " + "?" == ArenaClauseText;
      RenderOne(ArenaPart(arena)[0]);
    }
  }

  lemma RenderWinnerPart(winner: Option<string>)
    ensures RenderAll(WinnerPart(winner)) == if winner.Some? then [WinnerClauseText] else []
    ensures ParamsAll(WinnerPart(winner)) == if winner.Some? then [Text(winner.value)] else []
  {
    if winner.Some? {
      RenderLitParam("winner = ", Text(winner.value));
      assert "winner = " + "?" == WinnerClauseText;
      RenderOne(WinnerPart(winner)[0]);
    }
  }

  lemma RenderClauses(f: EventsFilter)
    ensures RenderAll(Clauses(f)) ==
      (if f.player.Some? then [PlayerClauseText] else [])
      + (if f.arena.Some? then [ArenaClauseText] else [])
      + (if f.winner.Some? then [WinnerClauseText] else [])
      + (if f.visible.Some? then ["visible = " + FormatBool(f.visible.value)] else [])
    ensures ParamsAll(Clauses(f)) ==
      (if f.player.Some? then [Text(f.player.value), Text(f.player.value)] else [])
      + (if f.arena.Some? then [Text(f.arena.value)] else [])
      + (if f.winner.Some? then [Text(f.winner.value)] else [])
  {
    var p, a, w, v := PlayerPart(f.player), ArenaPart(f.arena), WinnerPart(f.winner), VisiblePart(f.visible);
    RenderAllFour(p, a, w, v);
    RenderPlayerPart(f.player);
    RenderArenaPart(f.arena);
    RenderWinnerPart(f.winner);
    RenderVisiblePart(f.visible);
    assert ParamsAll(p) + ParamsAll(a) + ParamsAll(w) + [] == ParamsAll(p) + ParamsAll(a) + ParamsAll(w);
  }

  /**
    The compiled filter is the query followed by the WHERE tail of the
    reference clauses, and its arguments are theirs: clauses in the order
    player, arena, winner, visible, under one " WHERE ", joined by " AND ".
  */
  lemma ApplyFilterMeaning(query: string, f: EventsFilter)
    ensures ApplyFilter(query, Some(f)) == (query + Render(Where(Clauses(f))), Params(Where(Clauses(f))))
  {
    CollectClausesMeaning(f);
    WhereRender(Clauses(f));
    WhereText(query, Clauses(f));
  }

  /**
    The placeholders of the compiled text and the arguments match one to
    one: the driver gives every placeholder the argument of its own clause,
    the player value to both player placeholders.
  */
  lemma ApplyFilterBinding(f: EventsFilter)
    ensures var (q, args) := ApplyFilter(EventsListTemplate, Some(f));
      Placeholders(q) == |args| &&
      Bind(q, args) == Some(Chars(EventsListTemplate) + Expand(Where(Clauses(f))))
  {
    ApplyFilterMeaning(EventsListTemplate, f);
    TemplateHasNoPlaceholder();
    CleanClauses(f);
    WhereBinding(EventsListTemplate, Clauses(f));
  }

  /** Argument count: two for a player, one each for arena and winner, none for visible. */
  lemma ApplyFilterArgCount(query: string, f: EventsFilter)
    ensures |ApplyFilter(query, Some(f)).1| ==
      (if f.player.Some? then 2 else 0) + (if f.arena.Some? then 1 else 0) + (if f.winner.Some? then 1 else 0)
  {
  }

  /** The order allow-list, as written: player_one twice and no player_two. */
  const OrderColumns := ["id", "name", "player_one", "player_one", "arena", "visible", "winner", "advertised_start_time"]

  /** The columns the list can be ordered by. */
  const Orderable := {"id", "name", "player_one", "arena", "visible", "winner", "advertised_start_time"}

  /** applyOrderBy over the events allow-list. */
  function ApplyOrderBy(query: string, orderBy: Option<OrderBy.Order>): (r: string)
    ensures orderBy.None? || orderBy.value.parameter !in Orderable ==> r == query
    ensures orderBy.Some? && orderBy.value.parameter in Orderable ==>
      r == query + " ORDER BY " + orderBy.value.parameter + OrderBy.DirectionSuffix(orderBy.value.direction)
  {
    assert forall c :: c in OrderColumns <==> c in Orderable;
    OrderBy.ApplyOrderBy(OrderColumns, query, orderBy)
  }

  /** Ordering by the second player is silently ignored, whatever the direction. */
  lemma PlayerTwoNotOrderable(query: string, direction: Option<string>)
    ensures ApplyOrderBy(query, Some(OrderBy.Order("player_two", direction))) == query
  {
  }

  lemma OrderableHasNoPlaceholder(column: string)
    requires column in Orderable
    ensures '?' !in column
  {
  }

  lemma SuffixHasNoPlaceholder(direction: Option<string>)
    ensures '?' !in OrderBy.DirectionSuffix(direction)
  {
    OrderBy.DirectionSuffixCases(direction);
  }

  /** Appending text without placeholders adds none. */
  lemma AppendNoPlaceholder(query: string, text: string)
    requires '?' !in text
    ensures Placeholders(query + text) == Placeholders(query)
  {
    NoPlaceholders(text);
    PlaceholdersAppend(query, text);
  }

  /** The text the order compiler appends never holds a placeholder. */
  lemma OrderByAddsNoPlaceholder(query: string, orderBy: Option<OrderBy.Order>)
    ensures Placeholders(ApplyOrderBy(query, orderBy)) == Placeholders(query)
  {
    if orderBy.Some? && orderBy.value.parameter in Orderable {
      var column, suffix := orderBy.value.parameter, OrderBy.DirectionSuffix(orderBy.value.direction);
      OrderableHasNoPlaceholder(column);
      SuffixHasNoPlaceholder(orderBy.value.direction);
      assert '?' !in " ORDER BY ";
      AppendNoPlaceholder(query, " ORDER BY ");
      AppendNoPlaceholder(query + " ORDER BY ", column);
      AppendNoPlaceholder(query + " ORDER BY " + column, suffix);
    }
  }

  /** The list statement: template, then the filter, then the order. */
  function ListQuery(filter: Option<EventsFilter>, orderBy: Option<OrderBy.Order>): (r: (string, seq<Arg>))
  {
    var (q, args) := ApplyFilter(EventsListTemplate, filter);
    (ApplyOrderBy(q, orderBy), args)
  }

  /** Every list statement carries exactly as many placeholders as arguments. */
  lemma ListQueryPlaceholders(filter: Option<EventsFilter>, orderBy: Option<OrderBy.Order>)
    ensures Placeholders(ListQuery(filter, orderBy).0) == |ListQuery(filter, orderBy).1|
  {
    var (q, args) := ApplyFilter(EventsListTemplate, filter);
    OrderByAddsNoPlaceholder(q, orderBy);
    if filter.Some? {
      ApplyFilterBinding(filter.value);
    } else {
      TemplateHasNoClause();
    }
  }

  /** One event with its status derived. */
  function Stamp(e: Event, now: int): Event
  {
    e.(status := StatusAt(e.advertisedStart, now))
  }

  /** addStatus over a list of events, as a value. */
  function StampAll(events: seq<Event>, now: int): (r: seq<Event>)
    ensures |r| == |events|
  {
    seq(|events|, i requires 0 <= i < |events| => Stamp(events[i], now))
  }

  /**
    addStatus keeps the length, the order and every field but the status;
    the status is OPEN exactly when the start reads strictly after now,
    and CLOSED otherwise.
  */
  lemma StampAllMeaning(events: seq<Event>, now: int)
    ensures |StampAll(events, now)| == |events|
    ensures forall i :: 0 <= i < |events| ==>
      var (e, r) := (events[i], StampAll(events, now)[i]);
      r.(status := e.status) == e &&
      (r.status == Open <==> AsTime(e.advertisedStart) > now) &&
      (r.status == Closed <==> AsTime(e.advertisedStart) <= now)
  {
  }

  /** addStatus: every event of the list gets its status, in place. */
  method AddStatus(events: array<Event>, now: int)
    modifies events
    ensures events[..] == StampAll(old(events[..]), now)
  {
    for i := 0 to events.Length
      invariant forall j :: 0 <= j < i ==> events[j] == Stamp(old(events[j]), now)
      invariant forall j :: i <= j < events.Length ==> events[j] == old(events[j])
    {
      var event := events[i];
      if event.advertisedStart.None? {
        event := event.(status := Closed);
      }
      if AsTime(event.advertisedStart) > now {
        event := event.(status := Open);
      } else {
        event := event.(status := Closed);
      }
      events[i] := event;
    }
  }

  const EventNotFound := "Event was not found"
  const PlayerNotInEvent := "wrong event id, player not in it"

  /** The clause get-by-id appends to the list template. */
  const IdClauseText := " WHERE id = ?"

  /** The get-by-id statement and its single argument. */
  function ByIdQuery(id: int): (r: (string, seq<Arg>))
  {
    (EventsListTemplate + IdClauseText, [Int(id)])
  }

  /** A plain tail survives stripping as it is. */
  lemma StripPlainTail(base: string, stripped: string, tail: string)
    requires Strip(base) == stripped
    requires '\n' !in tail && '\t' !in tail
    ensures Strip(base + tail) == stripped + tail
  {
    StripAppend(base, tail);
    StripPlain(tail);
  }

  lemma IdClausePlain()
    ensures '\n' !in IdClauseText && '\t' !in IdClauseText
  {
  }

  lemma StripTemplateWithIdClause()
    ensures Strip(EventsListTemplate + IdClauseText) == StrippedTemplate + IdClauseText
  {
    IdClausePlain();
    TemplateSelectsScannedColumns();
    StripPlainTail(EventsListTemplate, StrippedTemplate, IdClauseText);
  }

  /** Without its layout, the get-by-id statement is the tests' text. */
  lemma ByIdQueryText(id: int)
    ensures Strip(ByIdQuery(id).0) == StrippedTemplate + IdClauseText
  {
    StripTemplateWithIdClause();
  }

  /** A query without placeholders followed by one literal and one placeholder. */
  lemma BindOneParam(base: string, text: string, arg: Arg)
    requires '?' !in base && '?' !in text
    ensures Bind(base + (text + "?"), [arg]) == Some(Chars(base) + Chars(text) + [Param(arg)])
  {
    var ps := [Lit(text), Param(arg)];
    assert Clean(ps);
    BindRender(ps);
    RenderLitParam(text, arg);
    assert Expand(ps) == Chars(text) + [Param(arg)] by {
      assert ps[1..] == [Param(arg)] && ps[1..][1..] == [];
      assert Expand(ps[1..]) == [Param(arg)] + Expand([]);
    }
    assert Bind(text + "?", [arg]) == Some(Chars(text) + [Param(arg)]);
    BindLiteral(base, text + "?", [arg]);
    assert Chars(base) + (Chars(text) + [Param(arg)]) == Chars(base) + Chars(text) + [Param(arg)];
  }

  lemma BindTemplateWithIdClause(id: int)
    ensures Bind(EventsListTemplate + IdClauseText, [Int(id)]) ==
      Some(Chars(EventsListTemplate) + Chars(" WHERE id = ") + [Param(Int(id))])
  {
    TemplateHasNoPlaceholder();
    assert '?' !in " WHERE id = ";
    BindOneParam(EventsListTemplate, " WHERE id = ", Int(id));
    assert " WHERE id = " + "?" == IdClauseText;
  }

  /** The driver binds the id to the only placeholder of the get-by-id statement. */
  lemma ByIdQueryBinding(id: int)
    ensures Bind(ByIdQuery(id).0, ByIdQuery(id).1) ==
      Some(Chars(EventsListTemplate) + Chars(" WHERE id = ") + [Param(Int(id))])
  {
    BindTemplateWithIdClause(id);
  }

  /** Get-by-id on a table: the stamped row, or NotFound when no row has the id. */
  function Lookup(table: map<int, Event>, id: int, now: int): Result<Event, Error>
  {
    if id in table then Success(Stamp(table[id], now)) else Failure(NotFound(EventNotFound))
  }

  /** Lookup finds exactly the rows of the table, with their status derived and nothing else changed. */
  lemma LookupMeaning(table: map<int, Event>, id: int, now: int)
    ensures Lookup(table, id, now).Failure? <==> id !in table
    ensures Lookup(table, id, now).Failure? ==> Lookup(table, id, now).error == NotFound(EventNotFound)
    ensures Lookup(table, id, now).Success? ==>
      var e := Lookup(table, id, now).value;
      e.(status := table[id].status) == table[id] && e.status == StatusAt(table[id].advertisedStart, now)
  {
  }

  /** UpdateWinner on a table: the outcome flag, the error, and the new table. */
  function WinnerUpdate(table: map<int, Event>, request: Option<UpdateWinnerRequest>, now: int):
    (r: (bool, Option<Error>, map<int, Event>))
  {
    if request.None? then (false, None, table)
    else
      var req := request.value;
      match Lookup(table, req.id, now)
      case Failure(e) => (false, Some(e), table)
      case Success(event) =>
        if event.playerOne != req.winner && event.playerTwo != req.winner then
          (false, Some(NotFound(PlayerNotInEvent)), table)
        else
          (true, None, table[req.id := table[req.id].(winner := req.winner)])
  }

  /**
    The winner is written exactly when the request names a row and one of
    its two players. Then only that row's winner changes; in every other
    case the table is untouched and the error says why.
  */
  lemma WinnerUpdateMeaning(table: map<int, Event>, request: Option<UpdateWinnerRequest>, now: int)
    ensures var (updated, err, after) := WinnerUpdate(table, request, now);
      (updated <==>
        request.Some? && request.value.id in table &&
        request.value.winner in {table[request.value.id].playerOne, table[request.value.id].playerTwo}) &&
      (updated ==>
        err.None? && after.Keys == table.Keys &&
        after[request.value.id] == table[request.value.id].(winner := request.value.winner) &&
        forall id :: id in table && id != request.value.id ==> after[id] == table[id]) &&
      (!updated ==> after == table) &&
      (request.None? ==> err.None?) &&
      (request.Some? && request.value.id !in table ==> err == Some(NotFound(EventNotFound))) &&
      (request.Some? && request.value.id in table && !updated ==> err == Some(NotFound(PlayerNotInEvent)))
  {
  }

  /** Every row is stored under its own id. */
  predicate KeyedById(table: map<int, Event>)
  {
    forall id :: id in table ==> table[id].id == id
  }

  lemma WinnerUpdateKeepsKeys(table: map<int, Event>, request: Option<UpdateWinnerRequest>, now: int)
    requires KeyedById(table)
    ensures KeyedById(WinnerUpdate(table, request, now).2)
  {
  }

  /** The events repository over its table. */
  class EventsRepo {
    var events: map<int, Event>

    ghost predicate Valid()
      reads this
    {
      KeyedById(events)
    }

    /** A repository over an already seeded table. */
    constructor (seeded: map<int, Event>)
      requires KeyedById(seeded)
      ensures Valid() && events == seeded
    {
      events := seeded;
    }

    /**
      GetByID: the statement it runs, and the first row it scans (with its
      status derived), or NotFound when there is none.
    */
    method GetByID(id: int, now: int) returns (r: Result<Event, Error>, query: string)
      ensures r == Lookup(events, id, now)
      ensures Valid() && r.Success? ==> r.value.id == id
      ensures query == ByIdQuery(id).0
    {
      var args;
      query, args := ByIdQuery(id).0, ByIdQuery(id).1;
      var rows: seq<Event> := if id in events then [events[id]] else [];
      var res := new Event[|rows|](i requires 0 <= i < |rows| => rows[i]);
      AddStatus(res, now);
      if res.Length == 0 {
        return Failure(NotFound(EventNotFound)), query;
      }
      r := Success(res[0]);
    }

    /**
      UpdateWinner: looks the event up, checks the winner is one of its
      players, then writes the winner column of that row.
    */
    method UpdateWinner(request: Option<UpdateWinnerRequest>, now: int) returns (updated: bool, err: Option<Error>)
      requires Valid()
      modifies this
      ensures Valid()
      ensures (updated, err, events) == WinnerUpdate(old(events), request, now)
    {
      if request.None? {
        return false, None;
      }
      var req := request.value;
      var found, _ := GetByID(req.id, now);
      if found.Failure? {
        return false, Some(found.error);
      }
      var event := found.value;
      if event.playerOne != req.winner && event.playerTwo != req.winner {
        return false, Some(NotFound(PlayerNotInEvent));
      }
      events := events[req.id := events[req.id].(winner := req.winner)];
      updated, err := true, None;
    }
  }
}
