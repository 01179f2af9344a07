# Sports and racing list queries, in Dafny

This project models the query core of the two repositories of the
entain services:

- the **filter compilers** (`applyFilter`): they append one ` WHERE ` and the
  present clauses, joined with ` AND `, to a base SELECT, and return the
  ordered bind arguments;
- the **order compilers** (`applyOrderBy`): they check a column against a fixed
  allow-list and keep a direction only when it upper-cases to `ASC` or `DESC`;
- the **status deriver** (`addStatus`): `OPEN` when the advertised start is
  strictly after now, `CLOSED` otherwise;
- the sports repository's **get-by-id** and **winner update** over an events table;
- the events **list template** (sports/db/queries.go);
- the races **row scan**, which fails as a whole when one start time cannot
  be converted to a protobuf timestamp.

Modules:

- **Wrappers**: `Option`, `Result` and the error kinds.
- **Status**: the status rule shared by both repositories.
- **OrderBy**: the order compiler over any allow-list, and `strings.ToUpper`
  for the characters that matter.
- **SqlText**: statement text and a reference view of it. A fragment is a list
  of pieces. Each piece is literal text or a placeholder carrying its argument.
  `Bind` reads text and arguments the way the database driver does: each `?`
  takes the next argument. The module proves that rendering a clean fragment
  and binding its arguments gives each placeholder its own argument.
- **SportsQueries**: the raw list template, exactly as written (line breaks
  and tabs included).
- **Sports**: the sports filter (a function: the Go code has no loop), the
  order compiler over the events allow-list, `AddStatus` on an array, and the
  class `EventsRepo`. That class holds the table as `map<int, Event>` keyed by
  id, and its methods `GetByID` and `UpdateWinner` read and update it.
- **Races**: the races filter (a method with the loop that appends one
  argument per meeting id), the order compiler, `AddStatus`, and `ScanRaces`
  over a sequence of cursor results.

Timestamps are integers, in nanoseconds since the Unix epoch. "Now" is a
parameter.

## Model

| member | source | states |
|---|---|---|
| Status.StatusAt | sports/db/sports.go:200-213 | the derived status is always OPEN or CLOSED |
| Status.OpenIffFuture | sports/db/sports.go:206-210 | with a start time present, the status is OPEN exactly when the start is strictly after now, CLOSED exactly when it is at or before now |
| Status.AbsentIsClosed | racing/db/races.go:161-169 | an absent start reads as the epoch and gives CLOSED for every now from the epoch on |
| OrderBy.Upper | racing/db/races.go:148 | upper-casing keeps the length of the direction |
| OrderBy.ApplyOrderBy | racing/db/races.go:133-156 | nil order or a column outside the allow-list: the query unchanged; otherwise the query, " ORDER BY ", the column and the direction suffix |
| OrderBy.UpperCharOnto | racing/db/races.go:148 | a character upper-cases to a given capital letter exactly when it is one of that letter's spellings |
| OrderBy.UpperIsWord | racing/db/races.go:148-153 | a direction upper-cases to ASC (or DESC) exactly when it spells that word in any mixture of cases |
| OrderBy.DirectionSuffixCases | sports/db/sports.go:152-159 | the suffix is " ASC" exactly for the case variants of ASC, " DESC" exactly for those of DESC, and empty for an absent or any other direction |
| OrderBy.OrderByOnlyAllowedText | sports/db/sports.go:140-149 | the result is the query itself, or the query followed by " ORDER BY ", an allow-listed column and one of "", " ASC", " DESC" |
| SqlText.PlaceholdersAppend | sports/db/sports.go:194 | the placeholders of a concatenation are those of both parts |
| SqlText.NoPlaceholders | sports/db/sports.go:225 | text without `?` has no placeholder |
| SqlText.Bind | sports/db/sports.go:75 | the driver's pairing succeeds exactly when placeholders and arguments are equally many, and then renders back to the text and yields the arguments in order |
| SqlText.BindLiteral | sports/db/sports.go:228 | text before the first placeholder takes no argument |
| SqlText.BindRender | sports/db/sports.go:75 | binding the rendered text of a clean fragment to its arguments gives every placeholder the argument its piece carried |
| SqlText.PlaceholdersMatchParams | sports/db/sports.go:173-191 | a clean fragment has exactly as many placeholders as arguments |
| SqlText.JoinPiecesText | sports/db/sports.go:194 | joining clause pieces renders as strings.Join of the clause texts |
| SqlText.JoinPiecesParams | sports/db/sports.go:194 | joining keeps every argument, clause after clause |
| SqlText.WhereRender | sports/db/sports.go:193-195 | the WHERE tail is empty with no clause, else " WHERE " and the clause texts joined by " AND "; its arguments are the clauses' in clause order |
| SqlText.WhereText | racing/db/races.go:94-96 | the compilers' conditional append equals the query followed by the rendered WHERE tail |
| SqlText.WhereBinding | racing/db/races.go:94-98 | after a query without `?`, the placeholders of the WHERE tail are the only ones, one per argument, and each takes its own clause's argument |
| SportsQueries.GetEventsQueries | sports/db/queries.go:7-22 | the template store holds exactly one entry, under the key "list" |
| SportsQueries.StripColumnLines | sports/db/queries.go:11-18 | the column lines lose their layout and become the columns joined with ", " and one space |
| SportsQueries.StripTemplate | sports/db/queries.go:9-20 | any template of this layout strips to "SELECT ", the joined columns and " FROM events" |
| SportsQueries.TemplateSelectsScannedColumns | sports/db/queries.go:9-20 | without line breaks and tabs, the template is the tests' SELECT of the eight columns the scanner reads, in its order, from events |
| SportsQueries.EventColumnsLowerSnake | sports/db/queries.go:11-18 | every selected column name is lower-case letters and underscores |
| SportsQueries.TemplateAvoids | sports/db/queries.go:9-20 | no character outside the column names, the separators and "SELECT", "FROM events" occurs in the template |
| SportsQueries.TemplateHasNoPlaceholder | sports/db/queries.go:9-20 | the template holds no `?` |
| SportsQueries.TemplateHasNoClause | sports/db/queries.go:9-20 | the template has no placeholder and no WHERE, so any clause appended is the first |
| Sports.CollectClauses | sports/db/sports.go:173-191 | no clause is collected exactly when no filter field is set |
| Sports.ApplyFilter | sports/db/sports.go:163-198 | a nil filter, or one with no field set, leaves the query unchanged with no arguments; the query is always a prefix of the result |
| Sports.RenderPlayerClause | sports/db/sports.go:173-176 | the player clause renders as its exact text, with the player bound twice |
| Sports.CollectClausesMeaning | sports/db/sports.go:173-191 | the collected texts and arguments are those of the reference clauses |
| Sports.RenderClauses | sports/db/sports.go:173-191 | the present clauses come in the order player, arena, winner, visible; player gives two arguments, arena and winner one, visible none |
| Sports.ApplyFilterMeaning | sports/db/sports.go:163-198 | the compiled filter is the query followed by the WHERE tail of the reference clauses, with their arguments |
| Sports.ApplyFilterBinding | sports/db/sports.go:67-75 | on the list template, the placeholders equal the arguments in number, and the driver gives each placeholder its own clause's argument |
| Sports.ApplyFilterArgCount | sports/db/sports.go:173-191 | two arguments for a player, one each for arena and winner, none for visible |
| Sports.ApplyOrderBy | sports/db/sports.go:138-161 | nil order or a column outside {id, name, player_one, arena, visible, winner, advertised_start_time}: unchanged; otherwise " ORDER BY " and the column plus the direction suffix |
| Sports.PlayerTwoNotOrderable | sports/db/sports.go:140 | ordering by player_two leaves the query unchanged, whatever the direction |
| Sports.OrderByAddsNoPlaceholder | sports/db/sports.go:149-159 | the order compiler adds no placeholder |
| Sports.ListQueryPlaceholders | sports/db/sports.go:67-75 | every list statement has exactly as many placeholders as arguments |
| Sports.StampAll | sports/db/sports.go:200-213 | the stamped list has the length of the input |
| Sports.StampAllMeaning | sports/db/sports.go:200-213 | addStatus keeps length, order and every field but status; status is OPEN exactly when the start reads strictly after now, CLOSED otherwise |
| Sports.AddStatus | sports/db/sports.go:200-213 | the array afterwards is every event of the array before, stamped, in place |
| Sports.StripTemplateWithIdClause | sports/db/sports.go:223-225 | the get-by-id statement, stripped, is the stripped template and " WHERE id = ?" |
| Sports.ByIdQueryText | sports/db/sports.go:223-225 | the get-by-id statement is the tests' text once its layout is removed |
| Sports.BindOneParam | sports/db/sports.go:225-228 | a query without `?` followed by one literal and one `?`: the single argument goes to that placeholder |
| Sports.BindTemplateWithIdClause | sports/db/sports.go:223-228 | the id is bound to the only placeholder of the get-by-id statement |
| Sports.ByIdQueryBinding | sports/db/sports.go:223-228 | the get-by-id statement with its argument binds the id to its only placeholder |
| Sports.LookupMeaning | sports/db/sports.go:233-244 | NotFound("Event was not found") exactly when no row has the id; otherwise that row, unchanged but for its derived status |
| Sports.WinnerUpdateMeaning | sports/db/sports.go:110-136 | the winner is written exactly when the request names a row and one of its players, and then only that row's winner changes; otherwise the table is untouched and the error is none (nil request), the lookup's NotFound, or NotFound("wrong event id, player not in it") |
| Sports.WinnerUpdateKeepsKeys | sports/db/sports.go:127-129 | the update keeps every row under its own id |
| Sports.EventsRepo.GetByID | sports/db/sports.go:216-245 | returns the get-by-id statement, and the stamped row or NotFound, as the lookup rule says; over a table keyed by id, the event found carries the requested id |
| Sports.EventsRepo.UpdateWinner | sports/db/sports.go:110-136 | the outcome, the error and the new table are those of the winner-update rule; the table stays keyed by id |
| Races.IntArgs | racing/db/races.go:86-88 | one argument per meeting id |
| Races.ApplyFilter | racing/db/races.go:73-99 | nil filter or no ids and no visibility: the query unchanged and no arguments; otherwise the query followed by the WHERE tail of the reference clauses, and the ids as arguments in list order |
| Races.IntArgsCons | racing/db/races.go:86-88 | the arguments are the first id's, then the rest's |
| Races.ParamListMeaning | racing/db/races.go:84-88 | n ids render as n - 1 copies of "?," and a final "?", and bind the ids in list order |
| Races.MembershipClauseMeaning | racing/db/races.go:83-89 | the membership clause is "meeting_id IN (", the placeholders and ")", with exactly the ids as arguments |
| Races.RenderMembershipPart | racing/db/races.go:83-89 | no membership clause for no ids; one otherwise, with the ids as arguments |
| SqlText.RenderVisiblePart | racing/db/races.go:90-92 | visibility gives "visible = true" or "visible = false", no argument and no placeholder, in both filter compilers |
| Races.RenderClauses | racing/db/races.go:83-92 | membership comes before visibility; the only arguments are the ids |
| Races.FilterMeaning | racing/db/races.go:94-98 | the texts collected give the query followed by the reference WHERE tail |
| Races.FilterBinding | racing/db/races.go:73-99 | after a base query without `?`, there is exactly one placeholder per meeting id, and the driver binds the ids to them in list order |
| Races.ApplyOrderBy | racing/db/races.go:133-156 | nil order or a column outside {id, meeting_id, name, number, visible, advertised_start_time}: unchanged; otherwise " ORDER BY ", the column and the direction suffix |
| Races.StampAll | racing/db/races.go:158-173 | the stamped list has the length of the input |
| Races.StampAllMeaning | racing/db/races.go:158-173 | addStatus keeps order and every field but status; OPEN exactly when the start reads strictly after now, CLOSED otherwise |
| Races.AddStatus | racing/db/races.go:158-173 | the array afterwards is every race of the array before, stamped, in place |
| Races.TimestampProtoRange | racing/db/races.go:118-121 | the conversion succeeds exactly for instants from 0001-01-01 up to, excluding, 10000-01-01, keeps them, and otherwise reports the seconds |
| Races.ConvertKeepsFailure | racing/db/races.go:106-121 | once a prefix of the rows fails, the whole scan fails with the same error |
| Races.ScanRaces | racing/db/races.go:101-130 | the scan's result is the converted and stamped races, an empty list for a no-rows error, or the first error |
| Races.ConvertAllRows | racing/db/races.go:106-126 | when every row converts, one race per row, in row order, with the row's columns and start time |
| Races.BadTimestampFailsWholeScan | racing/db/races.go:118-121 | when the first failing row has an unconvertible start time, the call returns that error and no race |

## Left out

- `Init`, `seed` and the `sync.Once` guard (sports/db/sports.go:47-57, racing/db/races.go:40-50) are not modelled. They are a concurrency guard and random seed data. The `EventsRepo` constructor takes an already seeded table. sports/db/db.go is not part of this model.
- The SQL engine is not modelled: `db.Query`, `db.Exec`, and the errors they return. The table is a map from id to row. Get-by-id is a map lookup, so a query error from the engine is not modelled.
- The UPDATE statement at sports/db/sports.go:127 is not modelled as text. It is an abstract write of the winner to the row with that id, so its quoting (which embeds the winner unescaped) is not captured.
- No semantics are claimed for the WHERE text as a predicate. The player clause is unparenthesised, and its meaning next to AND depends on SQL precedence. The model states the text and the binding only.
- Sports row scanning (`scanEvents`, sports/db/sports.go:83-107) is not modelled beyond status stamping. `timestamppb.New` cannot fail, and the rows come from the map.
- `time.Now()` is a parameter. Timestamps are integer nanoseconds; wall clocks and floating time are not modelled.
- `log.Print` in the order compilers is a side effect only and is left out.
- OrderBy.Upper: models `strings.ToUpper` only for `a`-`z`, U+0131 (dotless i, upper case `I`) and U+017F (long s, upper case `S`), the characters whose upper case is an ASCII letter. Other characters are kept as they are. Every comparison the compilers make (with ASC and DESC) comes out as in Go.
- Sports.AddStatus, Races.AddStatus: Go mutates the events through pointers shared with the caller's slice. The model updates an array of values in place, so aliasing between events is not captured. Go also reads the clock (`time.Now()`) once per event inside the loop (sports/db/sports.go:206, racing/db/races.go:165); the model stamps the whole array against one instant `now`, so it does not capture a clock that advances during the loop, where two events with the same start could get different statuses.
- Status.AbsentIsClosed: an absent start is CLOSED only for a now at or after the epoch. Go reads a nil timestamp as the Unix epoch, so for a clock before 1970 it would be OPEN. The dead `if nil` assignment is overwritten in both loops, and the model keeps it.
- The timestamp range constants (-62135596800 and 253402300800 seconds) are those of the protobuf timestamp library, which is not part of this model. Go's `Time.Unix` rounds toward negative infinity, as Dafny's division does.
- The races base template (racing/db/queries.go) is not part of this model, so the races filter takes its base query as a parameter. The races get-by-id test has no method behind it in racing/db/races.go and is not modelled.
- The gRPC stubs, the RPC service wrapper and the HTTP gateway are transport only and are left out.
