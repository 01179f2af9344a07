/**
  The races repository (racing/db/races.go): the filter compiler with its
  meeting-id membership clause, the order compiler, the status deriver and
  the row scanner's timestamp conversion.

  Rows arrive as already-scanned values (or the error the scanner reported);
  "now" is a parameter.
*/
module Races {
  import opened Wrappers
  import opened SqlText
  import opened Status
  import OrderBy

  /** One race, as the scanner fills it, plus its derived status. */
  datatype Race = Race(
    id: int,
    meetingId: int,
    name: string,
    number: int,
    visible: bool,
    advertisedStart: Option<int>,
    status: string)

  /** The list filter: meeting ids (possibly none) and an optional visibility. */
  datatype RacesFilter = RacesFilter(meetingIds: seq<int>, visible: Option<bool>)

  /** The ids as bind arguments, in list order. */
  function IntArgs(ids: seq<int>): (r: seq<Arg>)
    ensures |r| == |ids|
  {
    seq(|ids|, i requires 0 <= i < |ids| => Int(ids[i]))
  }

  lemma IntArgsCons(ids: seq<int>)
    requires ids != []
    ensures IntArgs(ids) == [Int(ids[0])] + IntArgs(ids[1..])
  {
    var r := [Int(ids[0])] + IntArgs(ids[1..]);
    forall i | 0 <= i < |ids| ensures IntArgs(ids)[i] == r[i] {
      if i > 0 {
        assert r[i] == IntArgs(ids[1..])[i - 1];
      }
    }
  }

  /** The membership clause text for `n` ids: n placeholders separated by commas. */
  function MembershipText(n: nat): string
    requires n > 0
  {
    "meeting_id IN (" + Repeat("?,", n - 1) + "?)"
  }

  /**
    applyFilter: a nil filter leaves the query alone; otherwise the
    membership clause (when there are meeting ids, each id appended to the
    arguments in turn) and the visible clause are collected, and when any
    was collected, one " WHERE " and the clauses joined with " AND " follow
    the query.
  */
  method ApplyFilter(query: string, filter: Option<RacesFilter>) returns (q: string, args: seq<Arg>)
    ensures filter.None? ==> q == query && args == []
    ensures filter.Some? && filter.value.meetingIds == [] && filter.value.visible.None? ==> q == query && args == []
    ensures filter.Some? ==> q == query + Render(Where(Clauses(filter.value)))
    ensures filter.Some? ==> args == Params(Where(Clauses(filter.value))) == IntArgs(filter.value.meetingIds)
  {
    if filter.None? {
      return query, [];
    }
    var f := filter.value;
    var clauses: seq<string> := [];
    args := [];
    if |f.meetingIds| > 0 {
      clauses := clauses + [MembershipText(|f.meetingIds|)];
      for i := 0 to |f.meetingIds|
        invariant args == IntArgs(f.meetingIds[..i])
      {
        args := args + [Int(f.meetingIds[i])];
      }
      assert f.meetingIds[..|f.meetingIds|] == f.meetingIds;
    }
    if f.visible.Some? {
      clauses := clauses + ["visible = " + FormatBool(f.visible.value)];
    }
    q := query;
    if |clauses| != 0 {
      q := q + " WHERE " + Join(clauses, " AND ");
    }
    FilterMeaning(query, f, clauses, args);
  }

  /** The placeholders of the membership clause, one per id, separated by commas. */
  function ParamList(ids: seq<int>): seq<Piece>
    decreases |ids|
  {
    if |ids| <= 1 then (if ids == [] then [] else [Param(Int(ids[0]))])
    else [Param(Int(ids[0])), Lit(",")] + ParamList(ids[1..])
  }

  /** Reference view of the membership clause. */
  function MembershipClause(ids: seq<int>): seq<Piece>
  {
    [Lit("meeting_id IN (")] + ParamList(ids) + [Lit(")")]
  }

  /** Reference view of the filter: membership first, then visibility. */
  function Clauses(f: RacesFilter): seq<seq<Piece>>
  {
    MembershipPart(f.meetingIds) + VisiblePart(f.visible)
  }

  function MembershipPart(ids: seq<int>): seq<seq<Piece>>
  {
    if |ids| > 0 then [MembershipClause(ids)] else []
  }

  /** A placeholder followed by the separating comma. */
  lemma RenderParamComma(a: Arg)
    ensures Render([Param(a), Lit(",")]) == "?," && Params([Param(a), Lit(",")]) == [a]
    ensures Clean([Param(a), Lit(",")])
  {
    var first := [Param(a), Lit(",")];
    assert first[1..] == [Lit(",")] && first[1..][1..] == [];
    assert Render(first) == "?" + ("," + Render([]));
    assert Params(first) == [a] + (Params([Lit(",")]) + Params([]));
  }

  lemma RenderParamOne(a: Arg)
    ensures Render([Param(a)]) == "?" && Params([Param(a)]) == [a] && Clean([Param(a)])
  {
    assert Render([Param(a)]) == "?" + Render([]);
    assert Params([Param(a)]) == [a] + Params([]);
  }

  /** n ids render as n - 1 copies of "?," and a final "?", and bind the ids in list order. */
  lemma {:induction false} ParamListMeaning(ids: seq<int>)
    requires ids != []
    ensures Render(ParamList(ids)) == Repeat("?,", |ids| - 1) + "?"
    ensures Params(ParamList(ids)) == IntArgs(ids)
    ensures Clean(ParamList(ids))
  {
    var head := Int(ids[0]);
    if |ids| == 1 {
      RenderParamOne(head);
      IntArgsCons(ids);
    } else {
      var rest := ids[1..];
      var first, tail := [Param(head), Lit(",")], ParamList(rest);
      assert ParamList(ids) == first + tail;
      ParamListMeaning(rest);
      RenderParamComma(head);
      RenderAppend(first, tail);
      CleanAppend(first, tail);
      IntArgsCons(ids);
      var more := Repeat("?,", |rest| - 1);
      assert Repeat("?,", |ids| - 1) == "?," + more;
      AppendAssociates("?,", more, "?");
    }
  }

  /** A fragment between two literals. */
  lemma RenderEnclosed(open: string, middle: seq<Piece>, close: string)
    requires '?' !in open && '?' !in close && Clean(middle)
    ensures Render([Lit(open)] + middle + [Lit(close)]) == open + Render(middle) + close
    ensures Params([Lit(open)] + middle + [Lit(close)]) == Params(middle)
    ensures Clean([Lit(open)] + middle + [Lit(close)])
  {
    var first, last := [Lit(open)], [Lit(close)];
    RenderSingle(first[0]);
    RenderSingle(last[0]);
    RenderAppend(first, middle);
    RenderAppend(first + middle, last);
    CleanAppend(first, middle);
    CleanAppend(first + middle, last);
  }

  /** The membership clause is the compiler's text, with exactly the ids as arguments. */
  lemma MembershipClauseMeaning(ids: seq<int>)
    requires ids != []
    ensures Render(MembershipClause(ids)) == MembershipText(|ids|)
    ensures Params(MembershipClause(ids)) == IntArgs(ids)
    ensures Clean(MembershipClause(ids))
  {
    ParamListMeaning(ids);
    RenderEnclosed("meeting_id IN (", ParamList(ids), ")");
    var repeat := Repeat("?,", |ids| - 1);
    assert "meeting_id IN (" + (repeat + "?") + ")" == "meeting_id IN (" + repeat + "?)";
  }

  lemma RenderMembershipPart(ids: seq<int>)
    ensures RenderAll(MembershipPart(ids)) == if |ids| > 0 then [MembershipText(|ids|)] else []
    ensures ParamsAll(MembershipPart(ids)) == IntArgs(ids)
    ensures AllClean(MembershipPart(ids))
  {
    if |ids| > 0 {
      MembershipClauseMeaning(ids);
      RenderOne(MembershipClause(ids));
    }
  }

  /** The reference clauses render as the compiler's clause texts, with the ids as their arguments. */
  lemma RenderClauses(f: RacesFilter)
    ensures RenderAll(Clauses(f)) ==
      (if |f.meetingIds| > 0 then [MembershipText(|f.meetingIds|)] else [])
      + (if f.visible.Some? then ["visible = " + FormatBool(f.visible.value)] else [])
    ensures ParamsAll(Clauses(f)) == IntArgs(f.meetingIds)
    ensures AllClean(Clauses(f))
  {
    var m, v := MembershipPart(f.meetingIds), VisiblePart(f.visible);
    RenderAllAppend(m, v);
    RenderMembershipPart(f.meetingIds);
    RenderVisiblePart(f.visible);
    AllCleanAppend(m, v);
    assert IntArgs(f.meetingIds) + [] == IntArgs(f.meetingIds);
  }

  /** The compiled text and arguments, from the clause texts collected, are the reference ones. */
  lemma FilterMeaning(query: string, f: RacesFilter, clauses: seq<string>, args: seq<Arg>)
    requires clauses ==
      (if |f.meetingIds| > 0 then [MembershipText(|f.meetingIds|)] else [])
      + (if f.visible.Some? then ["visible = " + FormatBool(f.visible.value)] else [])
    requires args == IntArgs(f.meetingIds)
    ensures (if |clauses| != 0 then query + " WHERE " + Join(clauses, " AND ") else query)
      == query + Render(Where(Clauses(f)))
    ensures args == Params(Where(Clauses(f)))
  {
    RenderClauses(f);
    WhereRender(Clauses(f));
    WhereText(query, Clauses(f));
  }

  /**
    For a base query without placeholders, the compiled text has exactly
    one placeholder per meeting id and the driver binds the ids to them in
    list order, inside the membership clause.
  */
  lemma FilterBinding(query: string, f: RacesFilter)
    requires '?' !in query
    ensures Placeholders(query + Render(Where(Clauses(f)))) == |f.meetingIds|
    ensures Bind(query + Render(Where(Clauses(f))), Params(Where(Clauses(f))))
         == Some(Chars(query) + Expand(Where(Clauses(f))))
  {
    RenderClauses(f);
    WhereBinding(query, Clauses(f));
  }

  /** The order allow-list. */
  const OrderColumns := ["id", "meeting_id", "name", "number", "visible", "advertised_start_time"]

  /** The columns the list can be ordered by. */
  const Orderable := {"id", "meeting_id", "name", "number", "visible", "advertised_start_time"}

  /** applyOrderBy over the races allow-list. */
  function ApplyOrderBy(query: string, orderBy: Option<OrderBy.Order>): (r: string)
    ensures orderBy.None? || orderBy.value.parameter !in Orderable ==> r == query
    ensures orderBy.Some? && orderBy.value.parameter in Orderable ==>
      r == query + " ORDER BY " + orderBy.value.parameter + OrderBy.DirectionSuffix(orderBy.value.direction)
  {
    assert forall c :: c in OrderColumns <==> c in Orderable;
    OrderBy.ApplyOrderBy(OrderColumns, query, orderBy)
  }

  /** One race with its status derived. */
  function Stamp(r: Race, now: int): Race
  {
    r.(status := StatusAt(r.advertisedStart, now))
  }

  /** addStatus over a list of races, as a value. */
  function StampAll(races: seq<Race>, now: int): (r: seq<Race>)
    ensures |r| == |races|
  {
    seq(|races|, i requires 0 <= i < |races| => Stamp(races[i], now))
  }

  /**
    addStatus keeps the length, the order and every field but the status;
    the status is OPEN exactly when the start reads strictly after now,
    and CLOSED otherwise.
  */
  lemma StampAllMeaning(races: seq<Race>, now: int)
    ensures forall i :: 0 <= i < |races| ==>
      var (e, r) := (races[i], StampAll(races, now)[i]);
      r.(status := e.status) == e &&
      (r.status == Open <==> AsTime(e.advertisedStart) > now) &&
      (r.status == Closed <==> AsTime(e.advertisedStart) <= now)
  {
  }

  /** addStatus: every race of the list gets its status, in place. */
  method AddStatus(races: array<Race>, now: int)
    modifies races
    ensures races[..] == StampAll(old(races[..]), now)
  {
    for i := 0 to races.Length
      invariant forall j :: 0 <= j < i ==> races[j] == Stamp(old(races[j]), now)
      invariant forall j :: i <= j < races.Length ==> races[j] == old(races[j])
    {
      var race := races[i];
      if race.advertisedStart.None? {
        race := race.(status := Closed);
      }
      if AsTime(race.advertisedStart) > now {
        race := race.(status := Open);
      } else {
        race := race.(status := Closed);
      }
      races[i] := race;
    }
  }

  /** Nanoseconds per second. */
  const NanosPerSecond := 1_000_000_000

  /** The seconds range a protobuf timestamp accepts: 0001-01-01 up to, excluding, 10000-01-01 (UTC). */
  const MinValidSeconds := -62_135_596_800
  const MaxValidSeconds := 253_402_300_800

  /** Whole seconds of an instant given in nanoseconds, rounded down, as Go's Time.Unix does. */
  function Seconds(nanos: int): int
  {
    nanos / NanosPerSecond
  }

  /** The timestamp conversion: the instant itself, or an error when its seconds are out of range. */
  function TimestampProto(nanos: int): (r: Result<int, Error>)
  {
    var seconds := Seconds(nanos);
    if seconds < MinValidSeconds then Failure(TimestampOutOfRange(seconds))
    else if seconds >= MaxValidSeconds then Failure(TimestampOutOfRange(seconds))
    else Success(nanos)
  }

  /** The conversion succeeds exactly for the instants from 0001-01-01 up to 10000-01-01, and keeps them. */
  lemma TimestampProtoRange(nanos: int)
    ensures TimestampProto(nanos).Success? <==>
      MinValidSeconds * NanosPerSecond <= nanos < MaxValidSeconds * NanosPerSecond
    ensures TimestampProto(nanos).Success? ==> TimestampProto(nanos).value == nanos
    ensures TimestampProto(nanos).Failure? ==> TimestampProto(nanos).error == TimestampOutOfRange(Seconds(nanos))
  {
  }

  /** The columns of one scanned row; the start time is a wall-clock instant in nanoseconds. */
  datatype RaceRow = RaceRow(id: int, meetingId: int, name: string, number: int, visible: bool, advertisedStart: int)

  /** One step of the row cursor: a scanned row, or the error the scan reported. */
  datatype Scanned = Row(row: RaceRow) | ScanError(error: Error)

  /** The race a row describes, with the row's start time and no status yet. */
  function Unstamped(row: RaceRow): Race
  {
    Race(row.id, row.meetingId, row.name, row.number, row.visible, Some(row.advertisedStart), "")
  }

  /** One scanned row as a race without status, or the error that stops the scan. */
  function ConvertRow(s: Scanned): Result<Race, Error>
  {
    match s
    case ScanError(e) => Failure(e)
    case Row(row) =>
      match TimestampProto(row.advertisedStart)
      case Failure(e) => Failure(e)
      case Success(ts) => Success(Race(row.id, row.meetingId, row.name, row.number, row.visible, Some(ts), ""))
  }

  /** The rows converted in order, stopping at the first that fails. */
  function Convert(rows: seq<Scanned>): Result<seq<Race>, Error>
  {
    if rows == [] then Success([])
    else
      match Convert(rows[..|rows| - 1])
      case Failure(e) => Failure(e)
      case Success(races) =>
        match ConvertRow(rows[|rows| - 1])
        case Failure(e) => Failure(e)
        case Success(race) => Success(races + [race])
  }

  /**
    What scanRaces returns: all races with their status derived; nothing
    (and no error) when the scan reported that there are no rows; the
    error otherwise.
  */
  function ScanOutcome(rows: seq<Scanned>, now: int): Result<seq<Race>, Error>
  {
    match Convert(rows)
    case Success(races) => Success(StampAll(races, now))
    case Failure(e) => if e == NoRows then Success([]) else Failure(e)
  }

  lemma {:induction false} ConvertKeepsFailure(rows: seq<Scanned>, i: nat)
    requires i <= |rows| && Convert(rows[..i]).Failure?
    ensures Convert(rows) == Convert(rows[..i])
    decreases |rows|
  {
    if i < |rows| {
      var init := rows[..|rows| - 1];
      assert init[..i] == rows[..i];
      ConvertKeepsFailure(init, i);
    } else {
      assert rows[..i] == rows;
    }
  }

  /** scanRaces: rows are converted one at a time; the first failure ends the scan. */
  method ScanRaces(rows: seq<Scanned>, now: int) returns (r: Result<seq<Race>, Error>)
    ensures r == ScanOutcome(rows, now)
  {
    var races: seq<Race> := [];
    for i := 0 to |rows|
      invariant Convert(rows[..i]) == Success(races)
    {
      assert rows[..i + 1][..i] == rows[..i];
      var scanned := rows[i];
      if scanned.ScanError? {
        ConvertKeepsFailure(rows, i + 1);
        if scanned.error == NoRows {
          return Success([]);
        }
        return Failure(scanned.error);
      }
      var row := scanned.row;
      var ts := TimestampProto(row.advertisedStart);
      if ts.Failure? {
        ConvertKeepsFailure(rows, i + 1);
        return Failure(ts.error);
      }
      races := races + [Race(row.id, row.meetingId, row.name, row.number, row.visible, Some(ts.value), "")];
    }
    assert rows[..|rows|] == rows;
    var stamped := new Race[|races|](i requires 0 <= i < |races| => races[i]);
    assert stamped[..] == races;
    AddStatus(stamped, now);
    r := Success(stamped[..]);
  }

  /** A row that converts. */
  predicate RowOk(s: Scanned)
  {
    s.Row? && TimestampProto(s.row.advertisedStart).Success?
  }

  /**
    When every row converts, the scan returns one race per row, in row
    order, carrying the row's columns and the row's start time.
  */
  lemma {:induction false} ConvertAllRows(rows: seq<Scanned>)
    requires forall i :: 0 <= i < |rows| ==> RowOk(rows[i])
    ensures Convert(rows).Success?
    ensures |Convert(rows).value| == |rows|
    ensures forall i :: 0 <= i < |rows| ==> rows[i].Row? && Convert(rows).value[i] == Unstamped(rows[i].row)
  {
    if rows != [] {
      var init := rows[..|rows| - 1];
      ConvertAllRows(init);
    }
  }

  /**
    A start time the conversion rejects fails the whole call: when the
    first failing row is one whose timestamp is out of range, the result
    is that error and no race at all.
  */
  lemma {:induction false} BadTimestampFailsWholeScan(rows: seq<Scanned>, k: nat, now: int)
    requires k < |rows| && rows[k].Row?
    requires TimestampProto(rows[k].row.advertisedStart).Failure?
    requires forall i :: 0 <= i < k ==> RowOk(rows[i])
    ensures ScanOutcome(rows, now) == Failure(TimestampOutOfRange(Seconds(rows[k].row.advertisedStart)))
  {
    var prefix := rows[..k + 1];
    assert prefix[..k] == rows[..k];
    ConvertAllRows(rows[..k]);
    assert Convert(prefix) == Failure(TimestampOutOfRange(Seconds(rows[k].row.advertisedStart)));
    ConvertKeepsFailure(rows, k + 1);
  }
}
