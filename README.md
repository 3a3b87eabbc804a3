# Quiz buzzer game (gameshowv3) in Dafny

A model of the core of a party quiz: a host opens a room, players join it by a
six-character room code, and the host plays through the categories chosen for the
game, question by question. The first player to press the buzzer on a question
gets to answer. The host judges the answer, which adds a point if it is correct,
then either frees the buzzer or moves on to the next question.

The server keeps everything in PostgreSQL tables (`games`, `players`,
`categories`, `question_templates`, `game_categories`, `questions`, `buzzes`) and
talks to the browsers over Socket.io. The model is organised as follows:

- **Database.** All tables together form one value, `Schema.Tables`. A table is a
  sequence in insertion order, and each serial id comes from a counter kept beside
  its table, starting at 1. `Schema.WellFormed` is the integrity the handlers keep:
  serial keys, and at most one buzz per (game, question).
- **Queries.** Every `SELECT` the code issues is a function over the tables. An
  `ORDER BY ... OFFSET k LIMIT 1` is the k-th element of a stably sorted sequence,
  or nothing. Ties are kept in table order.
- **Store.** `Store.Database` is a class with one field per table and one method
  per `INSERT`/`UPDATE`/`DELETE` statement.
- **Handlers.** Each Socket.io handler is written twice:
  - once as a pure function in `GameRules`, from the tables and the socket's bound
    state to an `Outcome`: the new tables, the new bound state, the callback reply
    and the room broadcasts;
  - once as an imperative method in `GameSocket`, over the `Database` and a
    `Connection` object. Each method's postcondition says that it does exactly what
    the `GameRules` function says.
- **Around the handlers.** `CategoryRoutes`, `SessionUtils`, `ExportDatabase`,
  `CategorySelector`, `LocalIp` and `SessionStorage` model the category route, the
  rejoin helpers, the SQL export, the host's category picker, the local address
  picker and the browser's session cache.
- **Cross-handler properties.** `GameProperties` states what the handlers do in
  combination.

Modelling decisions the code itself leaves open:

- **Defaults.** A new game starts with both indices at 0, and a new player with
  score 0. The `INSERT` statements do not set these columns, so the values are
  taken to be the column defaults.
- **Atomicity.** Each handler runs to its end before the next one starts. The
  at-most-one-buzz property (`GameRules.PressBuzzer`,
  `GameProperties.SecondBuzzRejected`) holds only under this assumption. In the
  server the select-then-insert of `buzz` can interleave with another `buzz`.
- **Thrown errors.** A handler that reads a field of a row its query did not find
  throws a `TypeError`. Here that is the reply `Fail(Exception)`. Whatever the
  handler wrote or broadcast before the throw stays written or broadcast.
- **Join key.** `socket.gameId` and the other socket properties are bound as
  numbers (`nat`).

Behaviour of the code as written that the model reproduces and proves:

- **Which question the buzzer uses.** `buzz` and `unlock-buzzer` take the question
  at the game's question index among all of the game's questions, with no category
  filter. `start-category`, `next-question` and the rejoin snapshot take it within
  the current category. The question index restarts at 0 in each category, while
  question orders run on across categories. So from the second category on, as
  long as the first selected category has more templates than the current question
  index, buzzes are recorded against a question of the first category, not against
  the question on screen (`GameProperties.BuzzTargetsFirstCategory`,
  `GameProperties.BuzzTargetIsNotShownQuestion`).
- **Buzzes are never cleared by moving on.** `next-question` deletes no buzz
  (`GameProperties.NextQuestionKeepsBuzzes`). A question that was already buzzed
  therefore stays locked when the buzzer comes back to it.
- **start-game** sets the status to playing before it checks that any category
  is selected.
- **next-question** increments the question index before anything else is checked.
- **Room codes** are not checked for collisions. `join-room` takes `rows[0]` of an
  unordered query. In the model's insertion order that is the older game, so a
  room created under a code in use cannot be joined by that code
  (`GameProperties.RoomCodeCollision`). PostgreSQL makes no such promise, and the
  program may reach either game.
- **judge-answer** does not check that the player belongs to the host's game
  (`GameProperties.JudgeOtherGame`).
- **disconnect** deletes the player rows, so a later rejoin cannot find them
  (`GameProperties.DisconnectForgetsPlayer`).
- **join-room** stores no session token, so the session lookup never finds a
  player created by `join-room` (`GameProperties.JoinLeavesSessionsAlone`).

## Model

| member | source | states |
|---|---|---|
| Schema.GameById | backend/sockets/gameSocket.js:127-130 | `SELECT * FROM games WHERE id = $1`: a found game is a row with that id; nothing is found exactly when the id is unbound or no row has it |
| Schema.GameByIdUpdate | backend/sockets/gameSocket.js:343-351 | re-reading a game after an `UPDATE` that keeps ids yields the updated row |
| Schema.GameByCode | backend/sockets/gameSocket.js:35-38 | `room_code` lookup: a found game has that code; nothing is found exactly when no game has it |
| Schema.PlayerById | backend/sockets/gameSocket.js:218-221 | `SELECT * FROM players WHERE id = $1`: a found row has that id; nothing is found exactly when none has it |
| Schema.Roster | backend/sockets/gameSocket.js:61-64 | the game's players: a view is listed exactly when some player of the game has it |
| Schema.RosterInJoinOrder | backend/sockets/gameSocket.js:61-64 | with serial player ids the roster lists the game's players with strictly increasing ids, which is the `joined_at` order of an append-only table |
| Schema.Ranking | backend/routes/categoryRoutes.js:79-82 | the players listing (and the score list of judge-answer and of the game end): sorted by score descending, and a permutation of the roster |
| Schema.Join | backend/sockets/gameSocket.js:91-94 | every row of the categories/game_categories join pairs a binding with a category of the bound id |
| Schema.JoinComplete | backend/sockets/gameSocket.js:91-94 | the join misses no pair: every binding appears with every category carrying its id |
| Schema.BoundRows | backend/sockets/gameSocket.js:135-138 | the game's joined rows sorted by play order, each a binding of this game with its category |
| Schema.BoundRowsComplete | backend/sockets/gameSocket.js:135-138 | every binding of the game appears in those rows with every category carrying its id |
| Schema.BoundCategoriesContent | backend/sockets/gameSocket.js:356-359 | the game's categories in play order: a category is listed exactly when it is in the table and some binding of the game names its id |
| Schema.GameQuestions | backend/sockets/gameSocket.js:194-197 | the game's questions (no category filter), sorted by question order; exactly the game's rows, each as often as in the table |
| Schema.CategoryQuestions | backend/sockets/gameSocket.js:147-150 | the questions of one game and category, sorted by question order; their number is the `COUNT(*)` of lines 364-367 |
| Schema.BuzzesOn | backend/sockets/gameSocket.js:202-205 | exactly the buzz rows of the (game, question) pair |
| Schema.TemplatesOf | backend/routes/categoryRoutes.js:54-57 | exactly the templates of the category; the query has no `ORDER BY`, and taking them in table order is a modelling choice |
| Schema.OneBuzzPerQuestionFilter | backend/sockets/gameSocket.js:316-319 | deleting buzz rows keeps at most one buzz per (game, question) |
| Store.Database.constructor | backend/db/database.js:4-10 | the database the pool connects to, taken fresh: only the category catalogue, no game rows, every serial counter at 1, well formed |
| Store.Database.InsertGame | backend/sockets/gameSocket.js:11-14 | appends one lobby game with the next serial id, a question and category index of 0, and returns it |
| Store.Database.UpdateGames | backend/sockets/gameSocket.js:85-88 | `UPDATE games`: the matching rows are rewritten, in place, and nothing else changes |
| Store.Database.InsertPlayer | backend/sockets/gameSocket.js:50-53 | appends one player of the game, on the socket, score 0, with the next serial id |
| Store.Database.UpdatePlayers | backend/sockets/gameSocket.js:260-263 | `UPDATE players`: the matching rows are rewritten, and nothing else changes |
| Store.Database.DeletePlayers | backend/sockets/gameSocket.js:458 | `DELETE FROM players`: keeps exactly the other rows, in order |
| Store.Database.InsertBuzz | backend/sockets/gameSocket.js:212-215 | appends one buzz row |
| Store.Database.DeleteBuzzes | backend/sockets/gameSocket.js:316-319 | `DELETE FROM buzzes`: keeps exactly the other rows |
| Store.Database.DeleteGameCategories | backend/routes/categoryRoutes.js:39 | `DELETE FROM game_categories`: keeps exactly the other rows |
| Store.Database.InsertGameCategory | backend/routes/categoryRoutes.js:42-45 | appends one binding |
| Store.Database.DeleteQuestions | backend/routes/categoryRoutes.js:48 | `DELETE FROM questions`: keeps exactly the other rows |
| Store.Database.InsertQuestion | backend/routes/categoryRoutes.js:60-63 | appends one question with the next serial id |
| GameRules.CurrentQuestion | backend/sockets/gameSocket.js:194-197 | the buzzer's question: a question of the game; it exists exactly when the question index is below the number of the game's questions |
| GameRules.CreateRoom | backend/sockets/gameSocket.js:6-28 | exactly one game is added, in the lobby, with the host name and code; the socket becomes its host; well-formedness is kept |
| GameRules.JoinRoom | backend/sockets/gameSocket.js:31-76 | unknown code or a game out of the lobby: the stated error and no change; otherwise exactly one player of the first game with that code, with score 0 on this socket, and the roster is sent |
| GameRules.StartGame | backend/sockets/gameSocket.js:79-118 | a non-host is refused with no change; for the host the game is set playing even when it then fails for lack of categories; on success the category with the lowest play order is introduced |
| GameRules.StartCategory | backend/sockets/gameSocket.js:121-177 | writes nothing; refuses a non-host; with a category at the category index and a question at the question index within it, shows that question of that category, otherwise the matching error |
| GameRules.PressBuzzer | backend/sockets/gameSocket.js:180-238 | nothing is inserted unless the game is playing and its current question has no buzz; after a buzz exactly one buzz row exists for the pair; the buzz is announced with the player's name |
| GameRules.JudgeAnswer | backend/sockets/gameSocket.js:241-290 | a non-host is refused; a correct answer raises exactly the rows with that player id by one, a wrong one changes no score; the scores go out sorted by score descending, then the verdict |
| GameRules.UnlockBuzzer | backend/sockets/gameSocket.js:293-333 | a non-host is refused; for the host every buzz on the current question is deleted and the others are kept, and the reply is success even when there was none |
| GameRules.NextQuestion | backend/sockets/gameSocket.js:336-451 | a non-host is refused; for the host only the games table changes: the same rows, other games untouched, the category index up by at most one |
| GameRules.NextQuestionStart | backend/sockets/gameSocket.js:343-351 | the question index is incremented first, before any check |
| GameRules.NextQuestionNoCategory | backend/sockets/gameSocket.js:356-367 | with no category at the category index the increment stays and the handler fails |
| GameRules.NextQuestionSameCategory | backend/sockets/gameSocket.js:423-445 | below the category's question count: only the question index moves, and the next question of the same category is shown |
| GameRules.NextQuestionCategoryChange | backend/sockets/gameSocket.js:372-418 | at the count with a further category: the category index moves up, the question index resets to 0, and the next category is introduced |
| GameRules.NextQuestionFinishes | backend/sockets/gameSocket.js:390-406 | at the count with no further category: the game is finished, with the final ranking and the finished reply |
| GameRules.AdvanceFrom | backend/sockets/gameSocket.js:348-445 | the handler after its increment: games-only change, same rows, category index up by at most one |
| GameRules.AdvanceNoCategory | backend/sockets/gameSocket.js:356-367 | no current category: the handler fails after the increment |
| GameRules.AdvanceSameCategory | backend/sockets/gameSocket.js:423-445 | the same-category branch, after the increment |
| GameRules.AdvanceCloses | backend/sockets/gameSocket.js:370-372 | at or past the question count the category is closed |
| GameRules.CloseCategory | backend/sockets/gameSocket.js:372-418 | closing a category: games-only change; the category index up by one and the question index reset to 0 |
| GameRules.CloseMovesOn | backend/sockets/gameSocket.js:408-418 | with a next category: it is introduced, with the category-change reply |
| GameRules.CloseFinishes | backend/sockets/gameSocket.js:390-406 | without one: status finished, final ranking broadcast, finished reply |
| GameRules.Disconnect | backend/sockets/gameSocket.js:454-471 | with a bound (non-zero) player id, exactly the player rows on other sockets are kept and the room gets the remaining roster; otherwise nothing changes |
| GameSocket.Connection.constructor | backend/sockets/gameSocket.js:2 | a new socket is bound to no game, room or player and is not a host |
| GameSocket.RoomCodeOf | backend/sockets/gameSocket.js:476-483 | six draws give a code of length 6 over `A-Z0-9` |
| GameSocket.GenerateRoomCode | backend/sockets/gameSocket.js:476-483 | the loop appends one alphabet character per draw; the result is a room code |
| GameSocket.EveryRoomCodeCanBeDrawn | backend/sockets/gameSocket.js:476-483 | every six-character code over the alphabet is produced by some draws |
| GameSocket.CreateRoom | backend/sockets/gameSocket.js:6-28 | the method's new database, bound state, reply and events are those of `GameRules.CreateRoom` |
| GameSocket.JoinRoom | backend/sockets/gameSocket.js:31-76 | equals `GameRules.JoinRoom` |
| GameSocket.StartGame | backend/sockets/gameSocket.js:79-118 | equals `GameRules.StartGame` |
| GameSocket.StartCategory | backend/sockets/gameSocket.js:121-177 | equals `GameRules.StartCategory` |
| GameSocket.Buzz | backend/sockets/gameSocket.js:180-238 | equals `GameRules.PressBuzzer` |
| GameSocket.JudgeAnswer | backend/sockets/gameSocket.js:241-290 | equals `GameRules.JudgeAnswer` |
| GameSocket.UnlockBuzzer | backend/sockets/gameSocket.js:293-333 | equals `GameRules.UnlockBuzzer` |
| GameSocket.NextQuestion | backend/sockets/gameSocket.js:336-451 | equals `GameRules.NextQuestion` |
| GameSocket.Advance | backend/sockets/gameSocket.js:348-445 | equals `GameRules.AdvanceFrom` |
| GameSocket.Close | backend/sockets/gameSocket.js:372-418 | equals `GameRules.CloseCategory` |
| GameSocket.Disconnect | backend/sockets/gameSocket.js:454-471 | equals `GameRules.Disconnect` |
| CategoryRoutes.LexLeTotal | backend/routes/categoryRoutes.js:8-10 | the name order is total |
| CategoryRoutes.LexLeTransitive | backend/routes/categoryRoutes.js:8-10 | the name order is transitive |
| CategoryRoutes.NameOrderIsPreorder | backend/routes/categoryRoutes.js:8-10 | ordering categories by name is a total preorder |
| CategoryRoutes.ListCategories | backend/routes/categoryRoutes.js:6-16 | `GET /categories`: sorted by name, and a permutation of the table |
| CategoryRoutes.AssignCategories | backend/routes/categoryRoutes.js:34-73 | the route leaves the database as `Assigned` describes, and keeps it well formed |
| CategoryRoutes.BindCategories | backend/routes/categoryRoutes.js:39-46 | the game's bindings are replaced by the selection, play order = position |
| CategoryRoutes.InsertSelection | backend/routes/categoryRoutes.js:50-66 | the outer loop with its running question order appends the generated questions |
| CategoryRoutes.InsertTemplates | backend/routes/categoryRoutes.js:59-65 | the inner loop appends one question per template, order counting up |
| CategoryRoutes.GenerateLength | backend/routes/categoryRoutes.js:50-66 | N questions, N the number of templates of the selected categories |
| CategoryRoutes.GenerateNumbering | backend/routes/categoryRoutes.js:50-66 | consecutive serial ids and question orders 0..N-1 |
| CategoryRoutes.GenerateStep | backend/routes/categoryRoutes.js:51-65 | one category more appends its block |
| CategoryRoutes.GeneratePrefix | backend/routes/categoryRoutes.js:51-65 | a prefix of the selection generates a prefix of the questions |
| CategoryRoutes.GenerateGrouped | backend/routes/categoryRoutes.js:50-66 | one contiguous block per selected category, in selection order, copying its templates in order |
| CategoryRoutes.GenerateFromTemplates | backend/routes/categoryRoutes.js:59-63 | each question copies text and image of a template of its own, selected category |
| CategoryRoutes.AssignedBindings | backend/routes/categoryRoutes.js:39-46 | the game's bindings are exactly the selection in order, play order = position |
| CategoryRoutes.AssignedQuestions | backend/routes/categoryRoutes.js:48-66 | the game's questions are exactly the generated ones |
| CategoryRoutes.AssignedRemovesOldQuestions | backend/routes/categoryRoutes.js:48 | no earlier question of the game survives |
| CategoryRoutes.AssignedLeavesOtherGames | backend/routes/categoryRoutes.js:39-48 | bindings and questions of other games are unchanged |
| CategoryRoutes.AssignedWellFormed | backend/routes/categoryRoutes.js:34-73 | the route keeps the database well formed |
| SessionUtils.PlayerBySession | backend/utils/Sessionutils.js:13-24 | the player found has that session token; nothing is found exactly when no player has it |
| SessionUtils.PlayerBySessionIsEarliest | backend/utils/Sessionutils.js:15-19 | the first such row in table order |
| SessionUtils.BuzzingPlayers | backend/utils/Sessionutils.js:79-84 | the buzzes/players join: exactly the (id, name) of players whose id a buzz carries |
| SessionUtils.BuzzerOn | backend/utils/Sessionutils.js:75-90 | a buzzer player exactly when some buzz on the question joins an existing player, and then one such |
| SessionUtils.GameStateForRejoin | backend/utils/Sessionutils.js:29-104 | no snapshot exactly for an unknown game; the category at the category index or none; no question without a category, else the within-category question at the question index or none; players by score descending; locked exactly when a buzzing player is found |
| SessionUtils.RejoinHidesBuzzOfDepartedPlayer | backend/utils/Sessionutils.js:79-90 | a buzz whose player row is gone leaves the buzzer shown as free |
| SessionUtils.UpdatePlayerConnection | backend/utils/Sessionutils.js:109-129 | the player row with the id gets the socket, a cleared disconnect time and, only for a given question id, the last seen question; nothing else changes |
| SessionUtils.ReconnectTouchesOnlyThePlayer | backend/utils/Sessionutils.js:111-122 | other players and every score are unchanged |
| ExportDatabase.Escape | export-database.js:333 | length = input length + number of quotes |
| ExportDatabase.EscapeSql | export-database.js:331-334 | a missing or empty string gives `''` |
| ExportDatabase.EscapeConcat | export-database.js:333 | escaping is character by character |
| ExportDatabase.EscapeQuoteFree | export-database.js:333 | text without quotes is left unchanged |
| ExportDatabase.EscapeWellQuoted | export-database.js:333 | every quote in the result is doubled |
| ExportDatabase.EscapeRoundTrip | export-database.js:333 | collapsing doubled quotes recovers the input |
| ExportDatabase.UnescapeRoundTrip | export-database.js:333 | on well-quoted text, escaping undoes the collapse |
| ExportDatabase.Digits | export-database.js:343 | a natural number prints as decimal digits |
| ExportDatabase.DigitsRoundTrip | export-database.js:343 | the digits read back as the number |
| ExportDatabase.Decimal | export-database.js:343 | an integer prints with a leading minus exactly when it is negative, and as plain digits otherwise |
| ExportDatabase.RenderValue | export-database.js:340-345 | `NULL` exactly for null and undefined; the literal is quoted exactly for dates and other values, while booleans and numbers are bare |
| ExportDatabase.RenderValueRoundTrip | export-database.js:341-345 | NULL, booleans, numbers, quoted dates and escaped text literals read back as the value they render |
| ExportDatabase.NumberLiteral | export-database.js:343 | a number, negative ones included, is printed in decimal and reads back as the same integer |
| ExportDatabase.TextLiteral | export-database.js:345 | a text literal is a quote, the escaped text and a quote |
| ExportDatabase.Kept | export-database.js:338 | exactly the fields whose column is not excluded, in row order |
| ExportDatabase.Columns | export-database.js:338 | one column name per kept field |
| ExportDatabase.Values | export-database.js:339-346 | one rendered value per kept field |
| ExportDatabase.GenerateInsert | export-database.js:337-348 | one statement per row: it starts with `INSERT INTO`, the table name and the opening of the column list, and ends with `);` and a newline; the lists are stated by InsertColumns, InsertColumnsInOrder and InsertValues |
| ExportDatabase.InsertColumns | export-database.js:338 | a column is listed exactly when the row has it and it is not excluded |
| ExportDatabase.InsertColumnsInOrder | export-database.js:338 | the column list follows the row's key order |
| ExportDatabase.InsertValues | export-database.js:337-348 | one value per listed column, the i-th rendering the i-th column's value, which reads back as that value |
| ExportDatabase.CategoryType | export-database.js:86 | the type is never empty: the given type when present, else `buzzer` |
| ExportDatabase.CategoryInsert | export-database.js:82-88 | the statement starts with the column list and the quoted, escaped name, and ends with the quoted type and `);` and a newline |
| ExportDatabase.EscapeSqlReadsBack | export-database.js:83-85 | a quoted `escapeSql` argument reads back as its text, a falsy one as `''` |
| ExportDatabase.CategoryInsertFields | export-database.js:83-88 | between the name and the type come the escaped icon and then the escaped description, and each of the three quoted fields reads back as its value |
| ExportDatabase.CategoryDefaults | export-database.js:85-86 | a missing description renders as `''`, a missing type as `'buzzer'` |
| ExportDatabase.CategoryNameFor | export-database.js:98 | with a category of that id, the name of the first one in table order; `''` when there is none |
| ExportDatabase.TemplateInsert | export-database.js:98-104 | a comment line with that category name, then an insert that looks the category up by the same, escaped name; it ends with the image literal and `);` and a blank line |
| ExportDatabase.TemplateInsertFields | export-database.js:98-104 | between the category lookup and the image literal comes the escaped question text; it and the looked-up name read back as themselves |
| ExportDatabase.ImageLiteralReadsBack | export-database.js:100 | a missing image URL renders as `NULL`, a present one as its escaped text literal |
| ExportDatabase.PunishmentInsert | export-database.js:113-118 | the statement holds the escaped text, then the interpolated duration, and ends with the escaped icon and `');` and a newline |
| ExportDatabase.DurationReadsBack | export-database.js:115-118 | a duration renders as its number, a missing one as `null` |
| ExportDatabase.RenderCategories | export-database.js:82-89 | the loop appends one category statement per row, in order |
| ExportDatabase.RenderTemplates | export-database.js:97-105 | the loop appends a comment and one template statement per row, in order |
| ExportDatabase.RenderPunishments | export-database.js:113-119 | the loop appends one punishment statement per row, in order |
| ExportDatabase.RenderRows | export-database.js:164-166 | the full-export loop appends one generic statement per row |
| ExportDatabase.CategoriesSqlConcat | export-database.js:82-89 | rendering two runs of categories is rendering each in turn |
| CategorySelector.Toggle | frontend/src/components/CategorySelector.jsx:49-58 | with the id selected, every entry with that id goes and the rest stay; otherwise the category is appended |
| CategorySelector.ToggleRemovesInPlace | frontend/src/components/CategorySelector.jsx:52-54 | with distinct ids, deselecting cuts out the one entry with the id and the others keep their order |
| CategorySelector.ToggleTwice | frontend/src/components/CategorySelector.jsx:49-58 | toggling an absent category twice restores the selection |
| CategorySelector.FilterUniqueIds | frontend/src/components/CategorySelector.jsx:53 | removing entries keeps ids distinct |
| CategorySelector.ToggleKeepsIdsUnique | frontend/src/components/CategorySelector.jsx:49-58 | toggling never introduces a duplicate id |
| CategorySelector.MoveUp | frontend/src/components/CategorySelector.jsx:60-65 | no-op at 0; otherwise swaps index-1 and index, the rest unchanged; length and multiset kept |
| CategorySelector.MoveDown | frontend/src/components/CategorySelector.jsx:67-72 | no-op at the last index; otherwise swaps index and index+1, the rest unchanged; length and multiset kept |
| CategorySelector.MoveDownThenUp | frontend/src/components/CategorySelector.jsx:60-72 | moveUp(i+1) after moveDown(i) restores the selection |
| CategorySelector.MoveUpThenDown | frontend/src/components/CategorySelector.jsx:60-72 | moveDown(i-1) after moveUp(i) restores the selection |
| CategorySelector.MovesKeepIdsUnique | frontend/src/components/CategorySelector.jsx:60-72 | the moves keep ids distinct |
| CategorySelector.SaveCategories | frontend/src/components/CategorySelector.jsx:74-88 | an error and no request exactly for an empty selection; otherwise the ids in selection order |
| CategorySelector.SavedSelectionIsPlayOrder | frontend/src/components/CategorySelector.jsx:86-88 | once stored by the category route, the i-th selected category is played i-th |
| LocalIp.LocalIpAddress | get-local-ip.js:7-41 | the result is `localhost` or a non-internal IPv4 address of the table; `localhost` when there is none |
| LocalIp.PrivateAddressFirst | get-local-ip.js:11-28 | with a private non-internal IPv4 address, the first one in scan order |
| LocalIp.FallbackAddressFirst | get-local-ip.js:31-37 | without one, the first non-internal IPv4 address in scan order |
| LocalIp.GetLocalIpAddress | get-local-ip.js:7-41 | the two nested scans, with `continue` and early returns, return `LocalIpAddress` |
| SessionStorage.Saved | frontend/src/utils/sessionStorage.js:10-18 | the six fields as given, `isHost` true only when given true, and the save time |
| SessionStorage.Loaded | frontend/src/utils/sessionStorage.js:32-57 | nothing exactly when the key is missing, unparseable or strictly older than 24 hours |
| SessionStorage.AfterLoad | frontend/src/utils/sessionStorage.js:45-49 | loading removes only an expired entry |
| SessionStorage.Merge | frontend/src/utils/sessionStorage.js:91-95 | supplied fields win, others are kept, the timestamp is now |
| SessionStorage.LocalStorage.constructor | frontend/src/utils/sessionStorage.js:3 | the storage starts with the given items |
| SessionStorage.LocalStorage.SaveSession | frontend/src/utils/sessionStorage.js:8-27 | writes exactly the saved object under the key |
| SessionStorage.LocalStorage.ClearSession | frontend/src/utils/sessionStorage.js:62-71 | removes the key and nothing else |
| SessionStorage.LocalStorage.LoadSession | frontend/src/utils/sessionStorage.js:32-57 | returns `Loaded` and leaves `AfterLoad` |
| SessionStorage.LocalStorage.HasActiveSession | frontend/src/utils/sessionStorage.js:76-79 | a session loads and has a session id and a game id |
| SessionStorage.LocalStorage.UpdateSession | frontend/src/utils/sessionStorage.js:84-104 | false and no write without a loadable session; otherwise the merged session is written |
| SessionStorage.SaveThenLoad | frontend/src/utils/sessionStorage.js:42-52 | a saved session loads back unchanged up to and including exactly 24 hours |
| SessionStorage.SavedSessionExpires | frontend/src/utils/sessionStorage.js:45-49 | past 24 hours it loads as nothing and is removed |
| SessionStorage.ClearThenLoad | frontend/src/utils/sessionStorage.js:62-66 | after clearing nothing loads |
| SessionStorage.LoadIsStable | frontend/src/utils/sessionStorage.js:32-57 | loading twice gives the same answer |
| SessionStorage.UpdateThenLoad | frontend/src/utils/sessionStorage.js:91-97 | an update is seen by the next load |
| SessionStorage.EmptyUpdateRefreshes | frontend/src/utils/sessionStorage.js:91-95 | an empty update only refreshes the timestamp |
| SessionStorage.SavedSessionIsActive | frontend/src/utils/sessionStorage.js:76-79 | a saved session with both ids is active exactly until it expires |
| GameProperties.UnlockIsIdempotent | backend/sockets/gameSocket.js:312-327 | a second unlock leaves the tables as the first left them |
| GameProperties.SecondBuzzRejected | backend/sockets/gameSocket.js:202-215 | after a recorded buzz, the next buzz in the game, from any socket, is refused and changes nothing |
| GameProperties.UnlockThenBuzz | backend/sockets/gameSocket.js:307-319 | after an unlock the next buzz on the current question is recorded |
| GameProperties.NextQuestionKeepsBuzzes | backend/sockets/gameSocket.js:336-451 | next-question deletes no buzz |
| GameProperties.AssignedGameQuestions | backend/routes/categoryRoutes.js:50-66 | after the category route the game's questions in question order are the generated ones in order |
| GameProperties.BuzzTargetsFirstCategory | backend/sockets/gameSocket.js:194-197 | after the category route the buzzer's question at index k is a question of the first selected category, whatever the current category, when that category has more than k questions |
| GameProperties.BuzzTargetIsNotShownQuestion | backend/sockets/gameSocket.js:147-150 | in a later category, start-category and the rejoin snapshot show one question while the buzzer works on another |
| GameProperties.RoomCodeCollision | backend/sockets/gameSocket.js:9-14 | in the model's insertion order, a room created under a code in use is shadowed by the older game and cannot be joined by its code |
| GameProperties.JudgeOtherGame | backend/sockets/gameSocket.js:251-263 | a host can award a point to a player of another game, who is absent from the ranking the host's room receives |
| GameProperties.NonHostChangesNothing | backend/sockets/gameSocket.js:81-83 | no host-only handler changes a table for a non-host (also lines 123-125, 243-245, 295-297, 338-340) |
| GameProperties.RejoinShowsStartedQuestion | backend/utils/Sessionutils.js:44-66 | after start-category succeeds, the rejoin snapshot holds the category and the question the room was shown |
| GameProperties.JoinThenRejoin | backend/utils/Sessionutils.js:69-72 | a player who has joined is listed in the rejoin snapshot |
| GameProperties.JoinLeavesSessionsAlone | backend/sockets/gameSocket.js:50-53 | join-room stores no session token: the session lookup finds what it found before |
| GameProperties.DisconnectForgetsPlayer | backend/sockets/gameSocket.js:458 | a disconnected socket's player can no longer be found by session token nor appears in the rejoin snapshot |

## Left out

- Concurrency: handlers interleave at every `await` in the server. Here each runs atomically, so at most one buzz per question holds only under that assumption.
- The fire-and-forget queries of `disconnect` are taken to complete at once, in order.
- Socket.io transport, `socket.join` and broadcast delivery: a broadcast is an `Event` value in the handler's result.
- Logging throughout.
- Database failures and the `catch` paths:
  - a query is never taken to fail;
  - `updatePlayerConnection` therefore always returns true;
  - `getPlayerBySession` and `getGameStateForRejoin` return nothing only in the cases modelled.
- Foreign keys and other schema constraints: the migrations are not part of this model.
- Collation: names are ordered code point by code point, and ties keep table order.
- A `SELECT` without `ORDER BY` is read in insertion order. PostgreSQL promises no order for one: a sequential scan returns rows in physical order, and every `UPDATE` writes a new row version. This choice decides which row `rows[0]` picks, and the order of the lists that are returned. It concerns:
  - `Schema.TemplatesOf`;
  - `Schema.GameByCode`, the join-room lookup behind `GameProperties.RoomCodeCollision`;
  - `SessionUtils.PlayerBySession`, with `SessionUtils.PlayerBySessionIsEarliest`;
  - the roster `GameRules.Disconnect` sends.
- Randomness is an input:
  - `Math.random` in `generateRoomCode` is a sequence of draws below 36;
  - `generateSessionId` (`crypto.randomBytes`) is not modelled.
- Dates and the clock:
  - timestamps are millisecond integers;
  - an unparseable timestamp is `None`; it never expires, since NaN compares false;
  - `toISOString` output is an opaque string.
- JSON in the session cache:
  - the stored object has only the seven session fields;
  - a patch field set to `undefined`, and keys beyond the seven, are not modelled.
- ExportDatabase.Value: numbers are integers, and JavaScript's `String()` of an object is not modelled. Floating point is out of scope.
- Dates in `generateInsert` must contain no quote (`Renderable`), since `toISOString` output never does.
- ExportDatabase.GenerateInsert: the contract states how the statement begins and ends, and the lemmas state its column and value lists (`InsertColumns`, `InsertColumnsInOrder`, `InsertValues`). The statement is not parsed back as a whole: a quoted value can itself contain `, `.
- Seed mode:
  - the header and section banners with their counts and date are not modelled;
  - `category_type` is interpolated unescaped, exactly as the code does.
- The database reads and file writes of `exportDatabase()`, and the full-export tables beyond the generic row loop (`RenderRows`).
- CategorySelector.MoveUp and CategorySelector.MoveDown require `index < |selection|`, which is what the picker passes. `moveDown` on an empty list writes `undefined` cells in the source; that call cannot come from the picker.
- Host-only handlers require the connection's bound state to be `Valid` (a host is bound to a game and a room), which create-room guarantees.
- SessionStorage.LocalStorage.SaveSession and SessionStorage.LocalStorage.ClearSession: a `setItem` or `removeItem` that throws (storage full or disabled) makes them return false; the modelled storage never throws, so both always return true.
- SessionStorage.Loaded: a stored JSON value that is not an object (a number such as `5`, a string, an array) has no timestamp, so `loadSession` returns it as it is; the model reads it as `Unparseable` and returns nothing. A stored `null` throws on the timestamp read and gives nothing in both.
- The React components, timers and page routing around the picker and the session cache.
