# bs-bingo API core, modelled in Dafny

bs-bingo is a multiplayer "buzzword bingo" web service. Users write game
templates: a title and at least nine field captions. They start a game from
a template with a chosen grid size, or join one by its 16-character access
code. Each player gets their own square board drawn at random from the
template's captions. Players tick fields; a completed row, column or
diagonal is a bingo. A PostgreSQL listener records which games changed and
when. Each player's websocket session watches that registry and pushes a
fresh board and player ranking whenever the player's game changes.

This project models the service's Rust API core and proves properties of
the model:

- `win_detector.dfy` (module `WinDetector`): `grid_size`, the border-walk
  algorithm `bingos`/`walk`, and the proof that it counts full rows + full
  columns + the two diagonals.
- `chunks.dfy` (`Chunks`): the row-chunking loop of `list_fields` (and of
  the legacy `get_fields`) and the exact floor square root.
- `fields.dfy` (`Fields`): listing a board, `prepare_fields` (keep or
  regenerate a player's board), and toggling a field.
- `players.dfy` (`Players`): the player ranking of `ger_players` (scores,
  a stable sort by bingos and then hits) and the username update.
- `registry.dfy` (`Registry`): the bounded update registry of `pg_listen.rs`
  and its notification loop.
- `session.dfy` (`Session`): one websocket session of
  `send_game_update_messages`.
- `access.rs` and `template.rs` handlers: `access.dfy` (`Access`: start,
  join, leave) and `templates.dfy` (`Templates`: create, delete).
- `errors.dfy` (`Errors`): the error enum, its HTTP response, and the
  conversions from library errors.
- `legacy.dfy` (`Legacy`): the older `handler/game.rs` revision, with its
  fixed 5×5 `calc_bingos`, its board creation and listing, its ranking and
  its session loop.
- Supporting modules: `tables.dfy` (`Tables`: the database as a class with
  one sequence per table, the queries the handlers issue, and one method
  per SQL insert or delete), `body.dfy` (`Body`: the response records),
  `text.dfy` (`Text`: UTF-8 byte length and number formatting),
  `seqs.dfy` (`Seqs`: filter/map/count on sequences), `arith.dfy`
  (`Arith`) and `types.dfy` (`Types`).

The database is a `Tables.Database` object. Its fields are the five tables
plus a counter for fresh ids. Its `State()` snapshot lets each handler's
contract state its whole new state. Each SQL delete is a named filter
(`FieldsOutside`, `PlayersOutside`, …), so the effect of a handler is one
equation over the old snapshot.

The random choices in the source (the field shuffle and the access-code
sampler) are parameters (`picks`, `codeDraws`). The model holds for every
value of them. The websocket's wake-ups are likewise an input sequence
(`Session.Wake`), each carrying the registry as it stood, the time, and
whether the sends succeeded.

## Model

| member | source | states |
|---|---|---|
| WinDetector.GridSize | api/src/handler/game/mod.rs:102-110 | Ok(k) with 2 ≤ k ≤ 9 and k·k equal to the length; otherwise Err(InternalServer) |
| WinDetector.GridSizeRejects | api/src/handler/game/mod.rs:102-110 | the length is rejected exactly when no k in 2..9 squares to it |
| WinDetector.GridSizeExamples | api/src/handler/game/mod.rs:112-125 | lengths 0–3, 5–8 and 10 are rejected; 4 gives 2 and 9 gives 3 |
| WinDetector.Walk | api/src/handler/game/mod.rs:59-100 | a walk never loses hits, and before its N-th step it adds at most one hit per remaining step |
| WinDetector.WalkCompletes | api/src/handler/game/mod.rs:67-99 | a walk returns N hits exactly when each of the N cells on its path is inside the board, is not a Right step that wrapped into a new row, and is checked |
| WinDetector.PathStraight | api/src/handler/game/mod.rs:86-89 | after k Right, Down or RightDown steps the index has moved k strides (1, N, N+1) |
| WinDetector.PathRightUp | api/src/handler/game/mod.rs:90-96 | a RightUp path moves N−1 back per step while that stays positive, and becomes negative (off the board) once a step would land on 0 or below |
| WinDetector.RightFromFirstColumn | api/src/handler/game/mod.rs:74-76 | a Right walk from the first cell of row r completes iff row r is full |
| WinDetector.RightFromFirstRow | api/src/handler/game/mod.rs:74-76 | a Right walk started in the middle of the first row never completes, because it aborts when it wraps |
| WinDetector.DownFromFirstRow | api/src/handler/game/mod.rs:86-88 | a Down walk from column c of the first row completes iff column c is full |
| WinDetector.DownFromFirstColumn | api/src/handler/game/mod.rs:70-72 | a Down walk from a lower first-column cell never completes, because it leaves the board |
| WinDetector.RightDownFromCorner | api/src/handler/game/mod.rs:89 | the RightDown walk from index 0 completes iff the main diagonal is full |
| WinDetector.RightDownElsewhere | api/src/handler/game/mod.rs:70-72 | RightDown walks from any other start never complete |
| WinDetector.RightUpFromCorner | api/src/handler/game/mod.rs:90-96 | the RightUp walk from the bottom-left corner completes iff the anti-diagonal is full |
| WinDetector.RightUpElsewhere | api/src/handler/game/mod.rs:90-96 | RightUp walks from starts above the last row never complete |
| WinDetector.BorderShape | api/src/handler/game/mod.rs:26-31 | the start cells below len−1 with n < N or n mod N = 0 are the first row followed by the first cells of rows 1..N−1 |
| WinDetector.BorderWalksCountLines | api/src/handler/game/mod.rs:33-48 | the walks in four directions from all border cells complete exactly once per full row, full column and full diagonal |
| WinDetector.LineCountBound | api/src/handler/game/mod.rs:16-55 | the count is 0 for any length that is not a square of 2..9 (the empty board included) and at most 2N+2 otherwise |
| WinDetector.LineCountOneFalse | api/src/handler/game/mod.rs:224-240 | a board with one unchecked cell (r, c) has 2(N−1) lines, plus one per diagonal that avoids (r, c) |
| WinDetector.LineCountAllTrue | api/src/handler/game/mod.rs:190-252 | a fully checked N×N board has 2N+2 lines |
| WinDetector.LineCountTwoByTwo | api/src/handler/game/mod.rs:146-194 | on a 2×2 board the count is the number of fully checked pairs among the two rows, two columns and two diagonals |
| WinDetector.LineCountExamples | api/src/handler/game/mod.rs:128-194 | the asserted vectors of test_bingos of invalid length or on a 2×2 board give the asserted counts |
| WinDetector.LineCountLargerExamples | api/src/handler/game/mod.rs:196-253 | the asserted 3×3 to 6×6 boards of test_bingos give the asserted counts, including the two 5×5 boards with one unchecked cell |
| WinDetector.Bingos | api/src/handler/game/mod.rs:16-57 | the border-walk loops return the number of full rows, columns and diagonals |
| Chunks.FloorSqrt | api/src/handler/game/field.rs:159 | r·r ≤ n < (r+1)², and r ≥ 1 for n ≥ 1 |
| Chunks.FloorSqrtSquare | api/src/handler/game/field.rs:159 | the side of a square board is recovered exactly |
| Chunks.FullChunksRow | api/src/handler/game/field.rs:160-169 | the j-th full row holds items j·k .. j·k+k−1 |
| Chunks.RowsFlatten | api/src/handler/game/field.rs:145-174 | concatenating the rows gives back the input in order |
| Chunks.RowsShape | api/src/handler/game/field.rs:159-174 | for more than k items there are ⌈len/k⌉ rows, all of length k except the last, which has 1..k items |
| Chunks.ChunkRows | api/src/handler/game/field.rs:145-174 | the accumulator loop (with its reset when i = k) returns [[]] for no items, [[], items] for 1..k items, and the k-chunks otherwise |
| Fields.ListFields | api/src/handler/game/field.rs:110-177 | the listed board is the user's fields of the game with their captions, chunked by floor(sqrt(len)) |
| Fields.BoardOfEmpty | api/src/handler/game/field.rs:145-174 | no fields give one empty row |
| Fields.BoardOfSingle | api/src/handler/game/field.rs:158-174 | one field gives a leading empty row and then the field |
| Fields.BoardOfMany | api/src/handler/game/field.rs:135-174 | for 2 or more fields the rows concatenate to the fields in order, each with its id, caption and checked flag, position 0 and bingo false, in rows of floor(sqrt(len)) and a last row of 1..k |
| Fields.BoardOfSquare | api/src/handler/game/field.rs:158-174 | an N×N board is listed as N rows of N |
| Fields.Shuffle | api/src/handler/game/field.rs:88 | the shuffle is a permutation |
| Fields.Draw | api/src/handler/game/field.rs:88-89 | the drawn board has N² template ids, taken without repetition from the template |
| Fields.NewFieldsLayout | api/src/handler/game/field.rs:91-104 | new rows carry the drawn ids in order at positions 0..N²−1, unchecked, in the user's game |
| Fields.PrepareFields | api/src/handler/game/field.rs:11-108 | the tables and answer are those of `Fields.PrepareCorrected`: a board of N or more fields is kept and listed; otherwise fewer templates than N, then a size outside 2..8, is a BadRequest with nothing changed, in the source's order; then fewer than N² templates is a BadRequest with nothing changed (the corrected check; the source tests fewer than N and panics later); else the old fields and player row go, an anonymous player row and N² drawn fields are added, and the new board is listed |
| Fields.PrepareCorrected | api/src/handler/game/field.rs:36-108 | never panics: where `Fields.PrepareAsWritten` (the source's order of checks, deletes and insert, then a panic on the slice of N² ids) panics, it answers "not enough fields" with the tables unchanged, and everywhere else it is the source's behaviour |
| Fields.KeptFieldsHidden | api/src/handler/game/field.rs:62-67 | after the delete none of the old fields is shown |
| Fields.NewFieldsShown | api/src/handler/game/field.rs:91-132 | every inserted field of the board is shown with its caption |
| Fields.RegeneratedViews | api/src/handler/game/field.rs:62-108 | after regeneration the user's board is exactly the new fields joined with their captions, in order, and there are as many as drawn ids |
| Fields.RegeneratedPlayers | api/src/handler/game/field.rs:68-86 | after regeneration the user's row in the game is the "Anonymous player" row, and every other player row is kept |
| Fields.RegeneratedBoardIsSquare | api/src/handler/game/field.rs:88-108 | a regenerated board is listed as N rows of N |
| Fields.AsWrittenPanicsExactly | api/src/handler/game/field.rs:36-89 | the source panics exactly when a board is due, N is in 2..8 and the template has N..N²−1 ids |
| Fields.ClearedPlayers | api/src/handler/game/field.rs:68-86 | after the player delete and insert, the user's rows in the game are anonymous and include the new one |
| Fields.PanicFollowsWrites | api/src/handler/game/field.rs:62-89 | when the source panics, the old board is already deleted and the user is an anonymous player, so a user who had a board or another name finds the tables changed |
| Fields.ShortTemplatePanics | api/src/handler/game/field.rs:50-89 | a named user with no board in a 3×3 game whose template has 5 fields: the source panics after changing the tables |
| Fields.PrepareCorrectedRejects | api/src/handler/game/field.rs:36-60 | the corrected preparation rejects exactly when a board is due and N is outside 2..8 or the template has fewer than N² ids, and a rejection changes nothing |
| Fields.PrepareCorrectedSquare | api/src/handler/game/field.rs:88-108 | a regeneration by the corrected preparation lists N rows of N |
| Fields.CorrectedAgreesWithWritten | api/src/handler/game/field.rs:36-108 | wherever the source does not panic, the corrected preparation gives the same tables and answer |
| Fields.ToggledTwice | api/src/handler/game/field.rs:205-210 | toggling a field twice restores the table |
| Fields.ToggledOnly | api/src/handler/game/field.rs:205-210 | a toggle flips the checked flag of the field with that id and changes nothing else |
| Fields.UpdateField | api/src/handler/game/field.rs:179-213 | the user's field in an open game is toggled; otherwise NotFound with nothing changed |
| Players.ScoredRows | api/src/handler/game/player.rs:64-70 | each ranked player has the row's user and name, its hits (empty when NULL, so 0 bingos), bingos = the line count of its hits, and is_me iff its user is the requester |
| Players.SortRanked | api/src/handler/game/player.rs:73-83 | the sort returns a permutation of its input |
| Players.SortRankedSorted | api/src/handler/game/player.rs:78-82 | the sorted players have non-increasing bingos, and among equal bingos non-increasing hit counts |
| Players.SortRankedStable | api/src/handler/game/player.rs:73 | players equal on both keys keep their query order |
| Players.GetPlayers | api/src/handler/game/player.rs:34-86 | the ranking is the stable sort of the scored query rows: a permutation of them, sorted, with ties in query order |
| Players.RenamedOnly | api/src/handler/game/player.rs:22-27 | the rename changes only the row of that user in that game |
| Players.RenamedTwice | api/src/handler/game/player.rs:22-27 | renaming twice equals renaming once to the second name |
| Players.UpdateUsername | api/src/handler/game/player.rs:13-32 | only the players table changes, by the rename |
| Registry.Notify | api/src/pg_listen.rs:32-38 | at or below 100000 entries the game is recorded at now and every other entry is kept; above that the map is cleared and the game is not recorded; the size never exceeds 100001, and re-notifying a present game keeps the size |
| Registry.UpdateRegistry.ProcessNotifications | api/src/pg_listen.rs:17-40 | a failed setup changes nothing and returns its error; otherwise the registry becomes the replay of the feed, up to the first failure, which is returned |
| Registry.ReplayBounded | api/src/pg_listen.rs:27-39 | across any feed the registry never exceeds 100001 entries |
| Registry.ReplayAppend | api/src/pg_listen.rs:27-39 | a feed of parsed notifications is one modification after another |
| Registry.ReplayStopsAtFailure | api/src/pg_listen.rs:12-29 | a receive or parse failure ends the loop with that error and nothing after it is applied |
| Registry.ReplayLatest | api/src/pg_listen.rs:32-37 | below the bound, a game just notified is recorded at its notification time |
| Registry.OverflowDropsNotification | api/src/pg_listen.rs:33-34 | the notification that meets a full registry is not recorded |
| Registry.ReplayNotAfter | api/src/pg_listen.rs:36 | a bound that every recorded time and every notification time respects still holds for the registry afterwards |
| Session.Push | api/src/handler/game/websocket.rs:84-98 | the board and then the ranking are sent, and both are attempted even when the first fails; healthy iff both succeed |
| Session.SendGameUpdateMessages | api/src/handler/game/websocket.rs:38-110 | without an open membership the session fails with NotFound before sending; otherwise it enters the wake loop from a watermark one day before connect time |
| Session.WakeLoop | api/src/handler/game/websocket.rs:71-108 | the messages delivered and the outcome are those of `Session.Run` from the given watermark: relevant wakes push the board then the ranking, a failed send or a dropped sender closes, a connection failure fails |
| Session.OnlyBoardAndRanking | api/src/handler/game/websocket.rs:84-98 | a session only ever sends the board and the ranking |
| Session.StaleChangesSendNothing | api/src/handler/game/websocket.rs:73-80 | wakes where the game has no entry newer than the watermark send nothing and cause no failure |
| Session.EveryChangePushesBoardThenRanking | api/src/handler/game/websocket.rs:72-107 | when every wake is a healthy relevant change, each wake pushes the board, then the ranking, and the session keeps waiting |
| Session.SendFailureEndsSession | api/src/handler/game/websocket.rs:72-98 | a failed send ends the session after that push |
| Session.DroppedSender | api/src/handler/game/websocket.rs:101-106 | a dropped sender closes the current session; in the legacy revision (api/src/handler/game.rs lines 110-112) the loop never ends: every later wait on the dropped channel fails at once, so it spins without blocking |
| Session.NotificationWakesSession | api/src/pg_listen.rs:36 | a notification recorded later than a session's watermark makes that session's next wake relevant (the test of api/src/handler/game/websocket.rs lines 74-78) |
| Session.ClearedRegistryWakesNoSession | api/src/pg_listen.rs:33-34 | a wake after the registry was cleared is relevant to no session (the test of api/src/handler/game/websocket.rs lines 74-78) |
| Access.AccessCode | api/src/handler/game/access.rs:75-79 | the access code is 16 alphanumeric characters |
| Access.AccessCodeCoversAll | api/src/handler/game/access.rs:75-79 | every 16-character alphanumeric code can be drawn |
| Access.UsernameOf | api/src/handler/game/access.rs:106-113 | the name is that of the first is_me player, or "unknown" when there is none |
| Access.Enter | api/src/handler/game/access.rs:224-252 | the board is prepared as `Fields.PrepareCorrected` does (the same steps as lines 95-123 of the start handler); a prepare error is returned unchanged, else the answer carries the board, the ranking, the user's name and the given open/continued flags |
| Access.JoinGame | api/src/handler/game/access.rs:199-253 | an unknown access code is NotFound with nothing changed; otherwise the user enters that game (with the corrected template check) with open = not closed and continued = true |
| Access.CreateGame | api/src/handler/game/access.rs:75-123 | a new game is inserted with the drawn code, the board is prepared without error, and the answer has open = true, continued = false |
| Access.StartGame | api/src/handler/game/access.rs:15-129 | a size outside 2..8 is BadRequest; an existing game of the template is joined; an invisible template is NotFound; fewer than N² captions is BadRequest with the count in the message; otherwise a new game is created; every error leaves the tables unchanged; the join branch prepares with the corrected template check |
| Access.CheckedStartCannotFailToPrepare | api/src/handler/game/access.rs:69-73 | after start's own checks pass, preparing the board (api/src/handler/game/field.rs lines 50-60) cannot fail, and the source as written neither panics nor differs from the corrected preparation |
| Access.LeaveGame | api/src/handler/game/access.rs:146-197 | the user's player rows and fields in every game of the template are deleted, nothing else |
| Access.LeavingEndsOnlyTheUsersMemberships | api/src/handler/game/access.rs:166-178 | after leaving, the user plays none of those games, and every other membership is as before |
| Access.LeavingRemovesOnlyTheUsersFields | api/src/handler/game/access.rs:180-192 | exactly the user's fields in those games are removed; boards in other games are unchanged |
| Templates.ValidAsciiText | api/src/handler/template.rs:79-108 | for ASCII text the limit is 1..128 characters |
| Templates.LimitCountsBytes | api/src/handler/template.rs:79-108 | the limit counts UTF-8 bytes: 33 four-byte characters are too long |
| Templates.CheckCaptions | api/src/handler/template.rs:107-113 | the loop accepts exactly when every caption is 1..128 bytes |
| Templates.InsertCaptions | api/src/handler/template.rs:115-126 | one field template per caption is appended, in payload order |
| Templates.CreateTemplate | api/src/handler/template.rs:72-129 | a bad title is BadRequest with nothing inserted; fewer than 9 fields or a bad caption is BadRequest after the template row was inserted; otherwise the template and its captions are inserted |
| Templates.CreatedCaptionsInOrder | api/src/handler/template.rs:115-126 | a new template's captions are exactly the payload's, in order |
| Templates.DeleteTemplate | api/src/handler/template.rs:131-209 | a template the user does not own is NotFound with nothing changed; otherwise the cascade is applied |
| Templates.CascadeLeavesNothing | api/src/handler/template.rs:157-204 | after the cascade no game, player, field, field template or template row of that template remains |
| Templates.CascadeKeepsOthers | api/src/handler/template.rs:174-204 | every row belonging to other templates is kept |
| Errors.IntoResponse | api/src/error.rs:16-34 | 401 "Invalid credentials", 400 with the message verbatim, 404 "Not found", 500 "Internal server error"; the body is a single-key object under "error" |
| Errors.ResponseRoundTrip | api/src/error.rs:16-34 | the error is recovered from its response |
| Errors.ResponseInjective | api/src/error.rs:16-34 | different errors give different responses |
| Errors.FromSqlx | api/src/error.rs:43-53 | RowNotFound becomes NotFound, every other database error InternalServer |
| Errors.FromUuidError | api/src/error.rs:55-59 | a uuid error becomes BadRequest with its message |
| Errors.FromSerdeError | api/src/error.rs:61-65 | a JSON error becomes BadRequest with its message |
| Errors.FromDotenvError | api/src/error.rs:36-41 | a dotenv error becomes InternalServer |
| Tables.GameIdsIn | api/src/handler/template.rs:157-172 | the ids are exactly those of the games of the template: every such game is among them and every id is one |
| Tables.Database.GameOfPlayer | api/src/handler/game/access.rs:29-44 | a found game is of the template and has the user as a player; none found means no such game exists |
| Tables.Database.VisibleTemplate | api/src/handler/game/access.rs:49-58 | a found template is owned by the user or approved; none found means no such template exists |
| Tables.Database.OwnedTemplate | api/src/handler/template.rs:141-155 | a found template is owned by the user; none found means the user owns none with that id |
| Tables.Database.GameByAccessCode | api/src/handler/game/access.rs:204-222 | a found game has that code and an existing template; none found means no such game exists |
| Tables.Database.InsertGameTemplate | api/src/handler/template.rs:85-95 | one unapproved template row is appended under a fresh id |
| Tables.Database.InsertFieldTemplate | api/src/handler/template.rs:116-125 | one field template row is appended under a fresh id |
| Tables.Database.InsertGame | api/src/handler/game/access.rs:81-93 | one open game row is appended under a fresh id and returned |
| Tables.Database.InsertPlayer | api/src/handler/game/field.rs:76-86 | one player row is appended |
| Tables.Database.InsertField | api/src/handler/game/field.rs:91-103 | one unchecked field row is appended under a fresh id |
| Tables.Database.DeleteFieldsWithIds | api/src/handler/game/field.rs:62-67 | the fields with the given ids are removed |
| Tables.Database.DeleteFieldsIn | api/src/handler/template.rs:174-179 | the fields of the given games (of one user, when given) are removed |
| Tables.Database.DeletePlayersIn | api/src/handler/game/field.rs:68-74 | the player rows of the given games (of one user, when given) are removed |
| Tables.Database.DeleteGamesWithIds | api/src/handler/template.rs:188-190 | the games with the given ids are removed |
| Tables.Database.DeleteFieldTemplatesOf | api/src/handler/template.rs:192-197 | the field templates of the template are removed |
| Tables.Database.DeleteGameTemplate | api/src/handler/template.rs:199-204 | the template row is removed |
| Legacy.LegacyCount | api/src/handler/game.rs:537-586 | 0 unless there are 25 hits; never more than 12 |
| Legacy.CalcBingos | api/src/handler/game.rs:537-586 | the row and column scans and the two stepping diagonal scans count full rows + full columns + cells 0,6,12,18,24 + cells 4,8,12,16,20 |
| Legacy.CompleteRowsAgree | api/src/handler/game.rs:547-552 | the fixed row scan counts the full rows of the general detector |
| Legacy.CompleteColumnsAgree | api/src/handler/game.rs:556-563 | the fixed column scan counts the full columns of the general detector |
| Legacy.DiagonalsAgree | api/src/handler/game.rs:567-583 | the stepping scans test exactly the main and anti-diagonal |
| Legacy.LegacyCountAgreesWithDetector | api/src/handler/game.rs:537-586 | on every 25-cell board the legacy count equals that of the newer detector (api/src/handler/game/mod.rs lines 16-57) |
| Legacy.LegacyIgnoresOtherSizes | api/src/handler/game.rs:538-541 | a full 4×4 board scores 0 in the legacy revision and 10 in the newer one |
| Legacy.Deal | api/src/handler/game.rs:377-378 | 25 template ids, taken without repetition from the template |
| Legacy.GetFields | api/src/handler/game.rs:398-485 | a user without fields gets 25 new fields and then a player row; the board is listed in rows of 5 |
| Legacy.FixedBoardRows | api/src/handler/game.rs:467-484 | no fields give [[]]; 25 fields give 5 rows of 5 in order |
| Legacy.CreatedViews | api/src/handler/game.rs:380-435 | every created field is shown |
| Legacy.CreatedBoardIsFiveByFive | api/src/handler/game.rs:377-484 | a created board is listed as 5 rows of 5 |
| Legacy.GetPlayers | api/src/handler/game.rs:487-535 | the legacy ranking is the same stable sort of the rows scored by calc_bingos |
| Legacy.LegacyScoresAgree | api/src/handler/game.rs:513-520 | on 25-cell boards the two revisions score players alike (the newer scoring is api/src/handler/game/player.rs lines 64-70) |
| Legacy.DroppedSenderKeepsWaiting | api/src/handler/game.rs:80-113 | in the legacy loop any number of dropped-sender wakes send nothing and the session never ends; once dropped, every wait fails at once, so the loop spins without blocking |
| Legacy.CurrentRevisionStopsOnDrop | api/src/handler/game/websocket.rs:101-106 | in the current loop the first dropped-sender wake closes the session |

## Left out

- SQL ordering: the `order by` clauses are not modelled. Queries return rows in table order. New fields are appended in position order, so a user's board comes back in position order all the same. The ranking query's own `order by` is overridden by the stable sort, except among ties, which keep table order in the model.
- The `group by` of the ranking query and its join: hits are the user's fields of the game in table order, and one query row is produced per player row.
- Floating point: `(len as f32).sqrt()` is replaced by an exact integer square root (`WinDetector.GridSize`, `Chunks.FloorSqrt`). They agree on every board length the service can produce.
- Randomness: the shuffle and the access-code sampler are parameters. `Fields.Shuffle` is one permutation per `picks` value, not a uniform distribution.
- The Rust library's `sort_by` is modelled by a stable insertion sort, `Players.SortRanked`. It is the specification the ranking is proved against, not the library's merge sort.
- Concurrency: the listener and the sessions are modelled sequentially. The tokio watch channel becomes the `wakes` input. The board and ranking messages are computed once per session (see the next line); changes made between wakes by other requests are not modelled.
- Session.SendGameUpdateMessages: the board and ranking are computed once from the database at the start. A database failure at a wake is an input (`Wake.connection`). The time of a wake is an input, so the watermark's monotonicity depends on the clock and is not stated.
- Serialisation and logging: `serde_json` encoding of the messages, `tracing` calls and `chrono` types (timestamps are integers).
- Database errors other than a missing row: the modelled queries only fail when a row is missing. Transactions and rollback are therefore not modelled; every error in the modelled handlers is raised before the first write, except in `Templates.CreateTemplate`, where the template row persists as the source has it.
- Routing, cookie identities, CORS and authentication (`api/src/server.rs`, `api/src/main.rs`, `api/src/handler/auth.rs`) are not part of this model.
- `handle_list_templates` (template listing with aggregate counts) is a single SQL query and is not part of this model.
- `listen` (api/src/pg_listen.rs:11-15) only logs the error that `process_notifications` returns.
- The legacy revision's start, join, leave, field and username handlers repeat the current ones and are not modelled again.
- Fields.PrepareFields: for N in 2..8 and a template of N..N²−1 fields with no board of N fields (the inputs of `Fields.AsWrittenPanicsExactly`), the model rejects with "not enough fields" before any write, where the source, whose queries each commit on their own, deletes the old board and the player row, inserts the anonymous player and then panics; `Fields.PrepareAsWritten` models the source there. `Access.Enter`, `Access.JoinGame` and `Access.StartGame` inherit this through `Access.PrepareError`.
- Access.Enter: api/src/handler/game/access.rs imports and calls `create_fields_for_player` (lines 95-101 and 224-230), which no source file defines; `prepare_fields` (api/src/handler/game/field.rs:11-108) has the same parameters but takes the pool, not the caller's connection. The model assumes the called function is `prepare_fields` run on the caller's connection, inside the handler's transaction; `Access.JoinGame`, `Access.CreateGame`, `Access.StartGame` and `Access.CheckedStartCannotFailToPrepare` rest on the same assumption.
- Access.Enter: prepares with the corrected template check, so on the inputs above it answers BadRequest where the source panics. Under the assumption above the tables agree either way: the handler's transaction (api/src/handler/game/access.rs:20 and :136) is dropped uncommitted by a panic, so the deletes and the insert are rolled back.
- Access.JoinGame: the same correction, through `Access.Enter` (a BadRequest answer in place of a panic, with the tables unchanged in both); a game is only created after `Access.StartGame` found N² template fields (`Access.CheckedStartCannotFailToPrepare`), and no modelled handler removes field templates while games of the template remain, so a join reaches these inputs only on data written outside this model.
- Access.StartGame: the same correction in its join branch (a BadRequest answer in place of a panic, with the tables unchanged in both, the transaction being dropped); its create branch checks N² itself and agrees with the source.
- Legacy.GetFields: requires 25 or more field templates when the user has no board, because the source's `[0..25]` slice panics otherwise; the panic itself is not modelled.
- The legacy session loop (api/src/handler/game.rs:40-116) is modelled by `Session.Run` with a dropped sender skipped; its board write path is `Legacy.GetFields`.
- WinDetector.Walk: the result is not stated to be the number of checked cells the walk visits. Its contract bounds it (at least the hits so far, at most the hits plus the remaining steps), and `WinDetector.WalkCompletes` states exactly when it reaches N; the count on incomplete lines is not used by the line count and is not computed.

## Findings

| source | as written | input that shows it | evidently intended | confidence | as-written member | corrected member |
|---|---|---|---|---|---|---|
| api/src/handler/game/field.rs:50-89 | `prepare_fields` rejects a template only when it has fewer ids than the side length N, then slices the first N² ids | grid size 3 with 5 field templates passes the check, and the slice `[0..9]` of 5 ids panics | reject when there are fewer than N² ids (the start handler checks N², access.rs:69-73) | not executed | Fields.ShortTemplatePanics | Fields.PrepareCorrectedRejects |
