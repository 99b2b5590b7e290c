# OKC backend: loader and player summary

This project models the core of `OKCBackend2.py`, a small basketball statistics backend. It keeps six Postgres tables: team, player, game, shot, pass and turnover. The model covers the backend's three jobs:

- **The schema.** The UNIQUE natural keys (team_id, team name, player_id, game_id) and the REFERENCES columns become the invariant `Schema.Tables.Valid`.
- **`load_json_data`.** It makes three passes over already-parsed records.
  - Teams, players and games are inserted with `ON CONFLICT (<key>) DO NOTHING`.
  - The player's display name is split into first and last name.
  - Every nested shot, pass and turnover is appended as a row that carries the owning player_id.
- **`get_player_summary` and the listing endpoints.** The summary looks the player up or answers 404. It then loops over the four action types (pickAndRoll, isolation, postUp, offBallScreen), building each type's block of lists and six metrics and adding the metrics into the player totals. The three listing endpoints return whole tables.

The model has three layers:

- **Pure functions over values.** `Names` covers `str.split` and the name split. `Loader` covers each insert, each pass and the whole load. `Aggregator` covers the filters, `len`/`sum`, the blocks and the summary.
- **Lemmas about those functions.** They cover idempotence, round trips, partitions, invariants and frame facts.
- **A `Backend.Store` class.** The six tables are its `seq` fields. Its methods are the source's loops: the team, player and game loops, the nested event loops, and the summary's category loop with its `+=` accumulators. Each method is proved against the functions.

Parsed JSON fields are `Records.Field<T>`, which is `Absent`, `Null` or `Present(v)`. The model needs all three because the source tells them apart:

- `d.get(k)` reads a missing key and a null alike.
- `d.get(k, 0)` defaults only a missing key.
- `t["team_id"]` raises only on a missing key.
- `p.get("shots", [])` raises when iterated only if the value is null.

Postgres behaviour that the model states explicitly:

- NULL never equals NULL, so a record with a null natural key never conflicts: it is never ignored, and each load inserts it again or raises. For example, a team with a null team_id and a non-null name raises the unique-name violation on the second load.
- A row skipped by `ON CONFLICT` is not checked against its foreign key.
- `ON CONFLICT (team_id)` does not cover the UNIQUE team name, so a new team_id with a name already present raises a unique violation.
- A pass that raises is rolled back as a whole and ends the load. Passes that completed before it stay committed.

Behaviour of the code that a reader might not expect:

- **A missing or blank player name aborts the player pass.** `name = p.get("name", "")` followed by `first, *rest = name.split()` raises on an empty split. The name is not defaulted to empty first and last names (`Loader.PlayerName`).
- **A null shot `points` value makes the summary fail.** `sum(...)` over the points raises on a None (`Aggregator.SumPoints`, `SummaryError.NullPoints`).
- **A team record without a "team_id" or "name" key aborts the team pass.** The code indexes those two keys with `t[...]`, which raises (`LoadError.MissingKey`).
- **Event rows carry an enforced player foreign key.** The DDL declares `REFERENCES player(player_id)` on the shot, pass and turnover tables, and `Loader.PlayerPassKeepsValid` proves that the loader always satisfies it.

## Model

| member | source | states |
|---|---|---|
| Records.Field.Get | OKCBackend2.py:150-154 | `d.get(k)` gives a value exactly when the key is present with a non-null value, and that value is the key's value |
| Records.Field.GetOr | OKCBackend2.py:201-202 | `d.get(k, d0)` is None exactly when the key holds null; a missing key reads as the default, a present one as its value |
| Names.Words | OKCBackend2.py:133 | `str.split()` yields only non-empty tokens without whitespace, and yields none exactly when the string is all whitespace |
| Names.Join | OKCBackend2.py:134 | `" ".join(ws)` of words is empty exactly when there are no words, and otherwise neither starts nor ends with whitespace |
| Names.WordsOfJoin | OKCBackend2.py:133-134 | round trip: splitting words joined by single spaces gives back the same words |
| Names.WordsOfBlank | OKCBackend2.py:133 | leading whitespace does not change the split |
| Names.WordsOfWord | OKCBackend2.py:133 | a word followed by whitespace or nothing is the first token, and the split goes on after it |
| Names.WordsOfPadded | OKCBackend2.py:133 | round trip: words separated by any non-empty whitespace, with any whitespace at either end, split back into exactly those words |
| Names.SplitPadded | OKCBackend2.py:133-134 | such a name splits into its first word and the rest joined by single spaces |
| Names.SplitName | OKCBackend2.py:133-134 | the split fails exactly for an all-whitespace name; otherwise the first name is the name's first token and the last name is the remaining tokens joined by single spaces |
| Names.SplitOneWord | OKCBackend2.py:133-134 | a one-word name gives that word as first name and "" as last name |
| Names.SplitWords | OKCBackend2.py:133-134 | a name of several words gives word 0 as first name and the rest joined by single spaces as last name |
| Loader.TeamRowOf | OKCBackend2.py:122-125 | team_id and name land in their own columns; each is NULL exactly when its key is missing or null and holds the key's value when present |
| Loader.InsertTeam | OKCBackend2.py:121-125 | fails exactly on a missing key, or on a new team_id whose name is already taken; an existing team_id leaves the table unchanged; otherwise it appends one row; team_id and name stay unique |
| Loader.TeamPass | OKCBackend2.py:120-125 | the table only grows and keeps team_id and name unique |
| Loader.TeamPassKeys | OKCBackend2.py:120-125 | after a successful pass, every record had both keys and every non-null team_id is in the table |
| Loader.TeamPassAllTaken | OKCBackend2.py:121-125 | records with a name key whose team_id is already present change nothing |
| Loader.TeamPassIdempotent | OKCBackend2.py:120-125 | running the team pass again over records with non-null ids gives the same table |
| Loader.PlayerName | OKCBackend2.py:132-134 | fails exactly when the name is missing, null or all whitespace; otherwise full_name is the name verbatim, with its split |
| Loader.PlayerRowOf | OKCBackend2.py:139-142 | full_name is the name verbatim, first_name and last_name are its split; player_id and team_id are NULL exactly when missing or null and hold the key's value when present |
| Loader.ShotRowOf | OKCBackend2.py:144-155 | the row carries the owning player_id; shot_loc_x/y go to loc_x/y, points and game_id are copied; a missing or null key is stored as NULL |
| Loader.PassRowOf | OKCBackend2.py:157-173 | the ball locations go to the four location columns; completed_pass, potential_assist and turnover go to is_completed, is_potential_assist and is_turnover; a missing or null key is stored as NULL |
| Loader.TurnoverRowOf | OKCBackend2.py:176-186 | tov_loc_x/y go to loc_x/y, and action_type and game_id are copied; a missing or null key is stored as NULL |
| Loader.ShotRows | OKCBackend2.py:144-155 | exactly one row per nested shot, in order |
| Loader.PassRows | OKCBackend2.py:157-173 | exactly one row per nested pass, in order |
| Loader.TurnoverRows | OKCBackend2.py:176-186 | exactly one row per nested turnover, in order |
| Loader.InsertPlayer | OKCBackend2.py:138-142 | an existing player_id is ignored without a foreign-key check; otherwise the row is appended when its team exists and the insert fails when it does not; player_id stays unique |
| Loader.PlayerRowStep | OKCBackend2.py:131-186 | one iteration only grows the player table, leaves the record's player_id present, and gives every new row an existing team |
| Loader.PlayerRowsPass | OKCBackend2.py:131-186 | the player table only grows, keeps player_id unique, and gives every new row an existing team |
| Loader.PlayerRowStepAppends | OKCBackend2.py:132-142 | an iteration appends at most one player row; an appended row holds the record's name verbatim with its split, and its player_id and team_id |
| Loader.PlayerRowStepOk | OKCBackend2.py:132-133 | an iteration that succeeds had a splittable name and event lists that are not null |
| Loader.PlayerRowsPassAdmits | OKCBackend2.py:131-186 | after a successful pass, every record had a splittable name and event lists that are not null |
| Loader.PlayerRowsPassKeys | OKCBackend2.py:138-142 | after a successful pass, every record's player_id is in the table |
| Loader.PlayerRowsPassAllTaken | OKCBackend2.py:138-142 | records whose player_id is already present leave the table alone |
| Loader.PlayerRowsPassIdempotent | OKCBackend2.py:131-142 | running the player pass again over records with non-null ids leaves the player table unchanged |
| Loader.PlayerPass | OKCBackend2.py:131-188 | the player pass leaves the team and game tables unchanged (its keys and constraints: PlayerRowsPassKeys, PlayerPassKeepsValid) |
| Loader.PlayerPassReload | OKCBackend2.py:131-188 | loading the same players again leaves the player table as it is and appends every nested event a second time |
| Loader.PassShotsOwners | OKCBackend2.py:144-155 | every appended shot row's player_id is in the given player table whenever every record's player_id is |
| Loader.PassPassesOwners | OKCBackend2.py:157-173 | every appended pass row's player_id is in the given player table whenever every record's player_id is |
| Loader.PassTurnoversOwners | OKCBackend2.py:176-186 | every appended turnover row's player_id is in the given player table whenever every record's player_id is |
| Loader.PlayerPassKeepsValid | OKCBackend2.py:131-188 | the player pass keeps every UNIQUE and REFERENCES constraint, including the event tables' player key |
| Loader.GameRowOf | OKCBackend2.py:199-202 | each key lands in its own column: a present value is copied there; missing rebounds and assists become 0 and a null one stays NULL; every other column is NULL exactly when its key is missing or null |
| Loader.InsertGame | OKCBackend2.py:193-203 | an existing game id is ignored; otherwise the row is appended when both teams exist and the insert fails when one does not; game_id stays unique |
| Loader.GamePass | OKCBackend2.py:192-203 | the table only grows, keeps game_id unique, and every new game's teams exist |
| Loader.GamePassKeys | OKCBackend2.py:192-203 | after a successful pass, every non-null game "id" is in the table |
| Loader.GamePassAllTaken | OKCBackend2.py:193-203 | records whose game id is already present change nothing |
| Loader.GamePassIdempotent | OKCBackend2.py:192-203 | running the game pass again over records with non-null ids gives the same table |
| Loader.TeamPassKeepsValid | OKCBackend2.py:120-126 | the team pass keeps every constraint |
| Loader.GamePassKeepsValid | OKCBackend2.py:192-204 | the game pass keeps every constraint |
| Loader.Load | OKCBackend2.py:117-206 | the event tables are either all untouched or all appended with every nested event of the player records, and a load that completes appended them all |
| Loader.LoadGrows | OKCBackend2.py:117-206 | a load, wherever it stops, only adds rows: each table of the result extends the table it started from |
| Loader.LoadKeepsValid | OKCBackend2.py:117-206 | a load ends in a store that satisfies every UNIQUE and REFERENCES constraint, whatever its input and wherever it stops |
| Loader.LoadCompleted | OKCBackend2.py:117-206 | a load that completes ran all three passes successfully; its tables are their results plus the appended events |
| Loader.LoadOfPasses | OKCBackend2.py:117-206 | proof step for LoadTwice and Store.LoadAll: three passes that succeed make a load that completes with those tables |
| Loader.LoadTwice | OKCBackend2.py:117-206 | a second load of the same records leaves team, player and game unchanged and doubles the new event rows |
| Aggregator.CategoryOf | OKCBackend2.py:263-273 | a category is selected only by its own stored name, and no category is selected by any other text or by NULL |
| Aggregator.CategoryOfName | OKCBackend2.py:263-273 | an action type selects a category exactly when it equals that category's stored name; NULL and any other text select none |
| Aggregator.SumPoints | OKCBackend2.py:299 | the sum is missing exactly when some shot's points are null |
| Aggregator.PotentialAssists | OKCBackend2.py:301 | the count is at most the number of passes |
| Aggregator.PassingTurnovers | OKCBackend2.py:303 | the count is at most the number of passes |
| Aggregator.MetricsOf | OKCBackend2.py:298-303 | fails exactly on a null points value; otherwise the counts are the list lengths, and potential assists and passing turnovers are at most the passes |
| Aggregator.CategoryBlock | OKCBackend2.py:298-316 | a block never has more potential assists or passing turnovers than passes |
| Aggregator.FindPlayer | OKCBackend2.py:232-239 | finds no row exactly when no player has the id; a row it finds is in the table and has the id |
| Aggregator.SummaryOf | OKCBackend2.py:263-327 | the only failure is NullPoints; a summary carries the given name and id |
| Aggregator.Summarize | OKCBackend2.py:230-329 | 404 exactly when no player has the id; a summary it returns carries that id and the full_name of a player row with it |
| Aggregator.ShotCountsPartition | OKCBackend2.py:298-323 | the four categories' shot counts add up to the player's recognized shots |
| Aggregator.ShotPointsPartition | OKCBackend2.py:299-319 | the four categories' points add up to the recognized shots' points, and all four are defined exactly when that sum is |
| Aggregator.PassCountsPartition | OKCBackend2.py:300-320 | the four pass counts add up to the recognized passes |
| Aggregator.PassFlagsPartition | OKCBackend2.py:301-323 | the four potential-assist counts, and the four passing-turnover counts, add up to those of the recognized passes |
| Aggregator.TurnoverCountsPartition | OKCBackend2.py:302-322 | the four turnover counts add up to the recognized turnovers |
| Aggregator.BlockOfCategory | OKCBackend2.py:298-316 | a category whose points are all defined has a block whose metrics are its lists' lengths, points sum, potential assists and passing turnovers |
| Aggregator.NullPointsFail | OKCBackend2.py:299-319 | a null points value among the player's recognized shots makes the summary fail with NullPoints |
| Aggregator.TotalsOfRecognized | OKCBackend2.py:263-323 | otherwise the totals are the metrics of all the player's recognized events |
| Aggregator.SummaryOfTotals | OKCBackend2.py:263-323 | the totals are exactly the metrics of the player's events of the four types taken together; other or NULL types count nowhere; it fails exactly when one of those shots has null points |
| Aggregator.SummaryTotals | OKCBackend2.py:230-323 | the same, stated for a known player in the stored tables |
| Aggregator.CategoryShots | OKCBackend2.py:270-274 | the category's shot list has at most one entry per row (which rows: CategoryShotsMembers) |
| Aggregator.CategoryPasses | OKCBackend2.py:277-288 | the same for passes (CategoryPassesMembers) |
| Aggregator.CategoryTurnovers | OKCBackend2.py:291-295 | the same for turnovers (CategoryTurnoversMembers) |
| Aggregator.CategoryShotsAppend | OKCBackend2.py:270-274 | the shot list keeps storage order: the list of `a + b` is the list of `a` followed by that of `b` |
| Aggregator.CategoryPassesAppend | OKCBackend2.py:277-288 | the same for passes |
| Aggregator.CategoryTurnoversAppend | OKCBackend2.py:291-295 | the same for turnovers |
| Aggregator.ForeignShots | OKCBackend2.py:270-274 | shots of other players or of other or NULL types appear in no list |
| Aggregator.ForeignPasses | OKCBackend2.py:277-288 | the same for passes |
| Aggregator.ForeignTurnovers | OKCBackend2.py:291-295 | the same for turnovers |
| Aggregator.ForeignEventsBlock | OKCBackend2.py:270-316 | adding such events leaves every category block unchanged |
| Aggregator.ForeignEventsSummary | OKCBackend2.py:263-327 | adding such events leaves the assembled summary, totals and counts included, unchanged |
| Aggregator.ForeignEventsIgnored | OKCBackend2.py:230-329 | adding such events leaves a player's whole summary unchanged |
| Aggregator.SummaryOfAssembled | OKCBackend2.py:263-327 | proof step for Store.Summary: the summary is the four blocks in category order, with their metrics added into the totals |
| Aggregator.SummaryOfFails | OKCBackend2.py:299 | proof step for Store.Summary: a failing block makes the whole summary fail with NullPoints |
| Aggregator.SummaryOfBlocks | OKCBackend2.py:263-316 | each block of a summary is its category's block, and the summary fails exactly when one block does |
| Aggregator.ForeignBlocksEmpty | OKCBackend2.py:263-316 | with no recognized events, every block is empty with zero metrics |
| Aggregator.ForeignSummaryZero | OKCBackend2.py:244-327 | with no recognized events, the summary succeeds with all-zero totals |
| Aggregator.NoEventsAllZero | OKCBackend2.py:236-327 | a known player with no events of the four types gets zero totals, zero counts and four empty blocks, not an error |
| Aggregator.CategoryShotsMembers | OKCBackend2.py:270-274 | a shot is in a category's list exactly when some row of that player and type shows it |
| Aggregator.CategoryPassesMembers | OKCBackend2.py:277-288 | the same for passes |
| Aggregator.CategoryTurnoversMembers | OKCBackend2.py:291-295 | the same for turnovers |
| Aggregator.SummaryShape | OKCBackend2.py:298-327 | each block's counts are its list lengths; `<category>Count` (ActionCount, PlayerSummary.Count) = shots + passes + turnovers; potential assists and passing turnovers never exceed passes, per block and in total |
| Aggregator.PassingTurnoverBlock | OKCBackend2.py:300-327 | a new passing turnover adds one pass and one passing turnover to its block but no turnover, so its action count grows by one |
| Aggregator.PassingTurnoverCountedOnce | OKCBackend2.py:300-327 | the same for a player's summary: the category's count grows by one, not two |
| Backend.Store.constructor | OKCBackend2.py:45-113 | freshly created tables are empty and satisfy the constraints |
| Backend.Store.Restore | OKCBackend2.py:120-188 | the rollback of a pass that raised: the six tables become exactly the saved committed tables |
| Backend.Store.LoadTeams | OKCBackend2.py:120-126 | the loop leaves the tables as the team pass defines them, or rolls back to the committed tables and reports the pass's error |
| Backend.Store.AppendShots | OKCBackend2.py:144-155 | appends exactly the rows of the nested shots and changes nothing else |
| Backend.Store.AppendPasses | OKCBackend2.py:157-173 | appends exactly the rows of the nested passes and changes nothing else |
| Backend.Store.AppendTurnovers | OKCBackend2.py:176-186 | appends exactly the rows of the nested turnovers and changes nothing else |
| Backend.Store.LoadPlayer | OKCBackend2.py:131-186 | one iteration: inserts or ignores the player and appends its events, or reports the iteration's error |
| Backend.Store.LoadPlayers | OKCBackend2.py:131-188 | the loop leaves the tables as the player pass defines them, or rolls back and reports its error |
| Backend.Store.LoadPlayerAt | OKCBackend2.py:131-186 | one turn of the player loop either raises the whole pass's error or leaves the store as the pass defines it after that record |
| Backend.Store.LoadGames | OKCBackend2.py:192-204 | the loop leaves the tables as the game pass defines them, or rolls back and reports its error |
| Backend.Store.LoadAll | OKCBackend2.py:117-206 | the three loops together give exactly `Loader.Load`'s tables and error, and keep the constraints |
| Backend.Store.Summary | OKCBackend2.py:230-329 | the category loop with its accumulators returns exactly `Aggregator.Summarize` of the store |
| Backend.Store.AllTeams | OKCBackend2.py:349-353 | every team row in storage order; under the constraints no team_id repeats |
| Backend.Store.AllPlayers | OKCBackend2.py:337-347 | every player row in storage order; under the constraints no player_id repeats and every team_id is listed by AllTeams |
| Backend.Store.AllGames | OKCBackend2.py:355-374 | every game row in storage order; under the constraints no game_id repeats and both team ids are listed by AllTeams |

## Left out

- The Postgres connection, cursor and credentials (OKCBackend2.py:20-42) are replaced by the `Backend.Store` object. Running the DROP and CREATE statements (45-115) is modelled only as the constructor's empty tables; the declared constraints are kept as `Schema.Tables.Valid`.
- The SERIAL `id` columns are not modelled: nothing reads them.
- Reading the JSON files and the Windows paths are left out. The loader takes already-parsed records.
- The `pg_dump` export, FastAPI, CORS, uvicorn, asyncio and the `print` calls are left out. They are external tools, transport or scheduling.
- Postgres type coercion is not modelled. A date string that is not a valid DATE, an integer outside the INT range, and a value of the wrong JSON type would each raise in the database or the driver. The model carries dates as text and integers as unbounded `int`.
- Float locations are an opaque `Records.Coord`. No arithmetic is done on them.
- SQL returns rows without ORDER BY in an unspecified order. The model takes it to be storage (insertion) order, so the lists of a summary and the listings follow the order the rows were added.
- The JSON serialisation of the response and `str(date)` formatting are left out.
- The summary starts from zeros and `{}` placeholders. Those starting values are never seen by a caller, because the response is returned only after all four categories have been filled in. The model builds the final response.
- The exception types and messages are reduced to `Loader.LoadError` and `Aggregator.SummaryError`. Only what raises, and which pass ends, is modelled.
- Concurrency between a load and the endpoints is left out. Each operation runs to completion on its own.
- Backend.Store.LoadPlayer: after an error it does not state the tables, because the enclosing `LoadPlayers` loop rolls the pass back to the committed tables.
