# cute-app core, modelled in Dafny

This project models the logic of the cute-app Next.js site: the hot-seat tic-tac-toe page, the
in-process game registry with its listeners, the game routes (game-action, active-game,
game-stats), the gallery and sticky-notes pages, the two image listings and the private file
route, the bot-refusing middleware, the `sql` query builder, the two-user account route and the
access-code login. Each source file becomes one module:

- `TicTacToe` (app/games/tic-tac-toe/page.tsx): `Click` and `Initial` give the rules as functions of the page state; the class `Game` holds that state in fields, and its handlers are proved to follow those functions.
- `GameStates` (lib/gameStateManager.ts): the class `GameStateManager` over a `games` map, a `listeners` map of sets and a `delivered` log of every listener call.
- `GameAction`, `ActiveGame` and `GameStats` (app/api/game-action, active-game and game-stats): functions over the request body, the table (a map or sequence of rows) and the clock. `GameStats.Get` keeps the source's loop.
- `Gallery` (app/gallery/page.tsx): pagination and modal navigation are functions; the class `GalleryView` holds the React state.
- `Notes` (app/notes/page.tsx): note construction, the filter and the colour lookup are functions; the class `NotesBoard` holds the React state.
- `Images`, `SecretImages` and `SecretFile` (app/api/images, secret-images and secret-images/file): functions over a directory listing or a disk map.
- `Proxy`, `Db`, `Users` and `Login` (proxy.ts, lib/db.ts, app/api/users and app/api/auth/login): functions, with the `sql` loop as a method and the session as a class.

Shared modules: `Wrappers` (Option, the stand-in for null and undefined), `Strings` (ASCII
lower-casing, `includes`, decimal numerals, `trim`), `Sequences` (`filter`), `FileNames`
(`path.basename`, `path.extname`, the caption rewrite, the image-extension filter), `GameTypes`
(the server game record, the JSON body and JavaScript truthiness) and `Recency` (latest entry by
update stamp).

JavaScript behaviour is written out where it decides an outcome:
- a string field is truthy when present and non-empty;
- `x || null` and `x || false` are explicit functions;
- `slice` clamps negative and oversized indices;
- `images[-2]` and `images[NaN]` are `undefined` (modelled as `None`);
- `COLORS[i].name` with `i` out of range throws (modelled as no note);
- `path.join` normalises `""`, `"."` and `".."`.

Behaviour of the code worth noting:
- The tic-tac-toe page is a hot-seat game in one browser with no server-side move check.
- The routes store whatever board and turn a client posts.
- The login route reads a `code` field, while the sign-in page posts `{ password }`. A request from that page therefore ends in the catch block's 500 (`Login.PasswordOnlyBodyFails`).
- The bento layout's Next button calls the grid's `goToNextPage`, which is bounded by the grid page count. The bento page count only disables the button.

## Model

| member | source | states |
|---|---|---|
| TicTacToe.WinningLine | app/games/tic-tac-toe/page.tsx:11-15 | the reported line is completed and every line before it in the scan order (rows, columns, diagonals) is not; none exactly when no line is completed |
| TicTacToe.Winner | app/games/tic-tac-toe/page.tsx:25-34 | there is a winner exactly when some line holds three identical marks |
| TicTacToe.LineFreeHasNoWinner | app/games/tic-tac-toe/page.tsx:25-34 | the scan finds no line exactly when each of the eight lines, written out cell by cell, is incomplete |
| TicTacToe.Scores.Credit | app/games/tic-tac-toe/page.tsx:46 | crediting a winner adds one to that mark's own counter (hearts for ❤️, stars for ⭐) and to the total, leaving the other counters |
| TicTacToe.Click | app/games/tic-tac-toe/page.tsx:36-53 | an illegal click changes nothing; a legal one puts the mover's mark in that cell only, sets the winner to the first line's mark, sets the draw flag exactly when the board is full with no line, flips the turn only when the game goes on; a win credits the winner's counter, a draw the draws counter, a move that ends nothing leaves the scores, so the total grows by one exactly when the game ends |
| TicTacToe.ClickCases | app/games/tic-tac-toe/page.tsx:43-52 | the three outcomes of a legal click: win (line and credited score), draw (draw counter), or turn handed over |
| TicTacToe.QuietClick | app/games/tic-tac-toe/page.tsx:50-51 | a move that completes no line and does not fill the board only places the mark and flips the turn |
| TicTacToe.Initial | app/games/tic-tac-toe/page.tsx:55-61 | the reset state: empty board, ❤️ to move, no winner, line or draw, scores as given |
| TicTacToe.ZeroScores | app/games/tic-tac-toe/page.tsx:63-66 | all three counters sum to zero |
| TicTacToe.InitialConsistent | app/games/tic-tac-toe/page.tsx:55-61 | the reset state satisfies the reachability invariant |
| TicTacToe.CountAfterPlace | app/games/tic-tac-toe/page.tsx:39-41 | placing a mark on a free cell adds one of that mark, removes one empty cell and leaves the other counts |
| TicTacToe.WinnerIsMover | app/games/tic-tac-toe/page.tsx:43-46 | on a board without a line, a move that completes one wins for the mover |
| TicTacToe.ClickConsistent | app/games/tic-tac-toe/page.tsx:36-53 | every click preserves the invariant: marks alternate from ❤️, the winner is the first line's mark and the mover, a draw is a full board without a line |
| TicTacToe.PlayConsistent | app/games/tic-tac-toe/page.tsx:36-66 | every state a sequence of clicks reaches from a reset satisfies the invariant |
| TicTacToe.MarksBalanced | app/games/tic-tac-toe/page.tsx:36-53 | in every reachable state ❤️ marks equal ⭐ marks or exceed them by one |
| TicTacToe.DrawEndsOnHeart | app/games/tic-tac-toe/page.tsx:47-49 | a drawn board holds five ❤️ and four ⭐, and ❤️ made the last move |
| TicTacToe.Play | app/games/tic-tac-toe/page.tsx:36-53 | a sequence of clicks never lowers the score total |
| TicTacToe.PlayScores | app/games/tic-tac-toe/page.tsx:43-49 | between resets the score total grows by exactly one per finished game |
| TicTacToe.PlayOverStays | app/games/tic-tac-toe/page.tsx:37 | after a win or a draw no click changes anything |
| TicTacToe.PlayConcat | app/games/tic-tac-toe/page.tsx:36-53 | playing two move lists one after the other is playing their concatenation |
| TicTacToe.TopRowScenario | app/games/tic-tac-toe/page.tsx:36-53 | ❤️ 0, ⭐ 3, ❤️ 1, ⭐ 4, ❤️ 2 wins the top row for ❤️, keeps ❤️ to move, credits ❤️ once, and a later click is ignored |
| TicTacToe.DrawScenario | app/games/tic-tac-toe/page.tsx:36-53 | cells 0, 1, 2, 3, 5, 4, 6, 8, 7 end in a draw on a full board with the draw counter up by one |
| TicTacToe.Game.constructor | app/games/tic-tac-toe/page.tsx:18-23 | the first render is the reset state with zero scores, and it satisfies the invariant |
| TicTacToe.Game.CheckWinner | app/games/tic-tac-toe/page.tsx:25-34 | the loop returns the winner of the board and records the cells of the first completed line, or leaves the line alone when there is none |
| TicTacToe.Game.HandleCellClick | app/games/tic-tac-toe/page.tsx:36-53 | the new page state is `Click` of the old one |
| TicTacToe.Game.ResetGame | app/games/tic-tac-toe/page.tsx:55-61 | the page is in the reset state with the old scores, and valid |
| TicTacToe.Game.ResetScores | app/games/tic-tac-toe/page.tsx:63-66 | the page is in the reset state with zero scores, and valid |
| GameStates.Subscribed | lib/gameStateManager.ts:165-170 | the listener joins its type's set (created on first use); other types keep theirs |
| GameStates.Unsubscribed | lib/gameStateManager.ts:182-190 | the listener leaves its type's set, the entry disappears exactly when that set empties, other types are untouched |
| GameStates.SubscribeCount | lib/gameStateManager.ts:165-170 | subscribing adds one to the total listener count, or nothing when already registered |
| GameStates.SubscribeIdempotent | lib/gameStateManager.ts:165-170 | subscribing the same listener twice leaves one registration |
| GameStates.UnsubscribeIdempotent | lib/gameStateManager.ts:182-190 | running the unsubscribe closure again is a no-op |
| GameStates.RegistryStaysPruned | lib/gameStateManager.ts:165-190 | subscribe and unsubscribe never leave an empty set behind |
| GameStates.KeepRecent | lib/gameStateManager.ts:216-237 | exactly the games updated at or after the cutoff stay, unchanged |
| GameStates.KeepRecentIdempotent | lib/gameStateManager.ts:216-237 | a second cleanup with the same or an earlier cutoff removes nothing more |
| GameStates.GameStateManager.constructor | lib/gameStateManager.ts:23-24 | empty cache and registry, nobody told anything |
| GameStates.GameStateManager.GetGame | lib/gameStateManager.ts:43-53 | a cached game of the type with the greatest updatedAt, or none exactly when no cached game has the type |
| GameStates.GameStateManager.NotifyListeners | lib/gameStateManager.ts:196-201 | with a state, every listener of the type is called once with it and nobody else; with null, nobody is called |
| GameStates.GameStateManager.SetGame | lib/gameStateManager.ts:93-137 | the state is cached under its id with updatedAt set to now, other ids untouched, and exactly that type's listeners receive the refreshed state once each |
| GameStates.GameStateManager.DeleteGame | lib/gameStateManager.ts:142-160 | only that id leaves the cache (an unknown id changes nothing) and no listener is called |
| GameStates.GameStateManager.Subscribe | lib/gameStateManager.ts:165-191 | the registry gains the listener; it alone is then told the latest cached game of the type, if any |
| GameStates.GameStateManager.Unsubscribe | lib/gameStateManager.ts:182-190 | the registry becomes `Unsubscribed` of the old one and stays pruned |
| GameStates.GameStateManager.GetListenerCount | lib/gameStateManager.ts:206-211 | one type's set size, or the sum of all set sizes when no type is given |
| GameStates.GameStateManager.Cleanup | lib/gameStateManager.ts:216-237 | the cache becomes exactly the games updated within the last 24 hours |
| Recency.FindLatest | lib/gameStateManager.ts:47-53 | the key of a kept entry whose stamp no other kept entry exceeds, or none exactly when nothing is kept |
| Recency.LatestExists | app/api/active-game/route.ts:36-48 | whenever a row of the type exists, a latest one exists |
| GameTypes.OrNull | app/api/game-action/route.ts:75-77 | `v or null` keeps a truthy value and turns a missing or empty one into null |
| GameTypes.OrFalse | app/api/game-action/route.ts:75-77 | `v or false` is true exactly when the value is true |
| GameTypes.GameTypeParam | app/api/active-game/route.ts:33 | the query parameter when truthy, otherwise tic-tac-toe; never empty |
| GameAction.ParseBoard | app/api/game-action/route.ts:66 | an array board is used as sent; a string board is the result of JSON-decoding it |
| GameAction.HistoryRecord | app/api/game-action/route.ts:85-98 | the history row has id `<id>-result`, the winner or null, and result draw exactly when isDraw |
| GameAction.Post | app/api/game-action/route.ts:43-108 | an unreadable body is a 500, a missing field a 400; otherwise the state handed to setGame carries the posted fields with winner, isDraw and newGameRequestedBy defaulted, and history gains the result row only for a finished game whose row is absent; a body with every required field and a board that parses is always saved, and the 500 arises only from an unreadable body or a board that does not parse |
| GameAction.RepostKeepsHistory | app/api/game-action/route.ts:85-98 | posting the same finished game again leaves the history as the first post left it |
| GameAction.HistoryOnlyGrows | app/api/game-action/route.ts:85-98 | history rows are never replaced, at most one is added, and only for a finished game |
| GameAction.Delete | app/api/game-action/route.ts:111-133 | a missing or empty id is a 400; otherwise deleteGame is called with that id |
| ActiveGame.Post | app/api/active-game/route.ts:59-108 | 500 on an unreadable body, 400 on a missing field; otherwise only the posted id's row changes: an existing row keeps its game type and gets every other column from the body and updated_at from now, a new id gets a full row |
| ActiveGame.PostKeepsRows | app/api/active-game/route.ts:78-98 | every POST keeps rows keyed by their own id, never changes a row's game type, and adds a row only for a new id |
| ActiveGame.Get | app/api/active-game/route.ts:28-56 | a row of the requested type (default tic-tac-toe) with the greatest updated_at, finished or not; null exactly when the type has no row |
| ActiveGame.PostThenGet | app/api/active-game/route.ts:28-108 | a POST stamped later than every row makes its game the one GET returns for its type |
| ActiveGame.Delete | app/api/active-game/route.ts:111-137 | a missing or empty id is a 400; otherwise only that row is removed, and an absent id changes nothing |
| GameStats.Count | app/api/game-stats/route.ts:22-29 | a count never exceeds the rows and is zero exactly when no row qualifies |
| GameStats.PlayersOf | app/api/game-stats/route.ts:11-15 | exactly the names seated as X or O in a row of the type |
| GameStats.WinsAndLossesWithinGames | app/api/game-stats/route.ts:22-29 | wins plus losses never exceed the games played |
| GameStats.DrawsWithinGames | app/api/game-stats/route.ts:22-29 | draws never exceed the games played |
| GameStats.StatsBounded | app/api/game-stats/route.ts:20-36 | every reported player has at least one game, wins + losses <= games and draws <= games |
| GameStats.Get | app/api/game-stats/route.ts:5-38 | one entry per distinct player of the type (default tic-tac-toe), holding that player's games, wins, draws and losses |
| Db.Query | lib/db.ts:30-36 | the text always begins with the first literal piece |
| Db.QueryPrefix | lib/db.ts:30-36 | the text built after fewer values is a prefix of the text built after more |
| Db.PlaceholdersInOrder | lib/db.ts:30-36 | `$1` … `$n` each occur in the text, strictly left to right |
| Db.Sql | lib/db.ts:23-36 | params are the values in order, the text is the pieces joined by `$1` … `$n`, and with no values it is the first piece |
| Db.RowCount | lib/db.ts:42 | the driver's row count, or 0 when it gives none |
| Proxy.IsBot | proxy.ts:9-18 | a user-agent is a bot exactly when, lower-cased, it contains one of the fourteen patterns |
| Proxy.Middleware | proxy.ts:5-29 | refused with 403 Access Denied exactly for a bot; every other request passes with the noindex X-Robots-Tag |
| Proxy.IsBotIgnoresCase | proxy.ts:16-18 | the user-agent's case does not matter |
| Proxy.MissingAgentPasses | proxy.ts:6 | a missing or empty user-agent passes |
| Proxy.GoogleBotRefused | proxy.ts:16-23 | "GoogleBot" is refused |
| Strings.Contains | proxy.ts:17 | `includes` holds exactly when the pattern occurs at some index |
| Users.Post | app/api/users/route.ts:48-95 | a missing name or password is a 400; two accounts already is a 400; otherwise the row is appended under user1 or user2 by the count, with the hashed password; a complete request below the cap whose id is free always succeeds, a 400 comes only from the two checks, and a 500 only from a taken id |
| Users.PostKeepsOrder | app/api/users/route.ts:63-83 | on a table this route wrote, a complete request below the cap succeeds and the ids stay user1, user2 in order |
| Users.PostRespectsCap | app/api/users/route.ts:63-71 | the table never exceeds two accounts |
| Users.SortByCreation | app/api/users/route.ts:28-32 | the rows ordered by created_at, a permutation of the table |
| Users.Get | app/api/users/route.ts:24-45 | isSetup exactly when an account exists; every account listed once, oldest first, by id and name |
| Login.Decide | app/api/auth/login/route.ts:6-45 | 200 exactly for a string code equal to a set SECRET_CODE ignoring case; an unset secret is a 500 configuration error, a mismatch a 401, a missing or non-string code the catch block's 500 |
| Login.AcceptsAnyCase | app/api/auth/login/route.ts:23 | an accepted code is accepted in any mix of cases |
| Login.PasswordOnlyBodyFails | app/api/auth/login/route.ts:8-45 | a body without `code` always fails with 500 |
| Login.Session.Post | app/api/auth/login/route.ts:31-38 | on success the session is authenticated at now; on any failure it is untouched |
| FileNames.BaseName | app/api/secret-images/file/route.ts:27 | the basename never contains '/' |
| FileNames.BaseNameOfPlainName | app/api/secret-images/file/route.ts:27 | a name without '/' is its own basename |
| FileNames.StripFinalExtension | app/api/images/route.ts:28 | the name, or a proper prefix of it |
| FileNames.Caption | app/api/images/route.ts:28 | a caption contains no '-' or '_' |
| FileNames.ImageFiles | app/api/images/route.ts:18-21 | exactly the files whose lower-cased extension is one of the five image extensions |
| FileNames.ImageNameSplits | app/api/images/route.ts:18-28 | for a kept image the caption's stripped name plus the extension is the file name |
| Sequences.FilterKeepsOrder | app/api/images/route.ts:18-21 | two kept files keep their relative order |
| Images.List | app/api/images/route.ts:5-35 | no directory or a failed read gives an empty list; otherwise one entry per image file with id i + 1, src /images/ + name, alt Photo + id, and the caption |
| Images.ListsExactlyTheImages | app/api/images/route.ts:18-29 | a file is linked from the list exactly when it is an image file of the directory |
| Images.ListKeepsOrder | app/api/images/route.ts:18-29 | image files appear in directory order |
| Images.AltNamesId | app/api/images/route.ts:25-27 | the digits after "Photo " read back as the entry's id |
| SecretImages.Describe | app/api/secret-images/route.ts:40-45 | entry i has id 10000 + i, src the file route with the encoded name, alt the raw name, and the caption |
| SecretImages.List | app/api/secret-images/route.ts:8-54 | 401 exactly without a session; 500 exactly for a failed read with one; a missing directory gives the empty list; otherwise the image files described in order |
| SecretImages.UnauthenticatedReadsNothing | app/api/secret-images/route.ts:14-19 | without a session the answer does not depend on the directory |
| SecretImages.IdsApart | app/api/secret-images/route.ts:41 | secret ids are distinct and never collide with public ids of a directory of fewer than 10000 images |
| SecretImages.AltIsListedFile | app/api/secret-images/route.ts:33-43 | every alt is an image file of the directory |
| SecretFile.ContentType | app/api/secret-images/file/route.ts:39-51 | the table's type for the lower-cased extension, otherwise application/octet-stream |
| SecretFile.Resolve | app/api/secret-images/file/route.ts:28 | a plain name resolves directly inside private/secret; "", "." and ".." resolve to the directory itself or its parent |
| SecretFile.Serve | app/api/secret-images/file/route.ts:8-63 | 401 without a session, 400 without a filename, 404 when nothing lies at the resolved path, 500 for a directory; a file at the resolved path is always served, with its bytes, its content type and the private cache header |
| SecretFile.ServedFileInsideSecret | app/api/secret-images/file/route.ts:27-28 | whatever the filename, a served file is a direct child of private/secret |
| SecretFile.BaseNameDropsDirectories | app/api/secret-images/file/route.ts:27 | any directory part in front of a name is dropped |
| SecretFile.TraversalReadsInsideSecret | app/api/secret-images/file/route.ts:27-28 | asking for dir/name answers exactly as asking for name |
| SecretFile.ContentTypeIgnoresCase | app/api/secret-images/file/route.ts:39-49 | the extension's case does not matter |
| SecretFile.JpegAliases | app/api/secret-images/file/route.ts:39-49 | .jpg and .jpeg, in any case, are image/jpeg |
| SecretFile.ImageFilesServedAsImages | app/api/secret-images/file/route.ts:39-49 | every extension the listings keep is served with an image type |
| SecretFile.ImageFileServed | app/api/secret-images/file/route.ts:27-59 | a present image file is served with its bytes and an image type |
| SecretFile.ListedLinkServesFile | app/api/secret-images/route.ts:42 | following a listed src (decode inverting encode) serves that image file's bytes with an image type |
| Gallery.TotalPages | app/gallery/page.tsx:54 | the ceiling of n / k: zero exactly for no images, otherwise the fewest pages of k holding n |
| Gallery.Clamp | app/gallery/page.tsx:55-57 | a slice bound lies within the list and an in-range index is kept |
| Gallery.PageContents | app/gallery/page.tsx:55-57 | a page holds at most k images, in list order from the page's offset, all those remaining when fewer than k are left |
| Gallery.PagesNonEmpty | app/gallery/page.tsx:54-57 | every page up to the page count shows at least one image |
| Gallery.EveryImageOnItsPage | app/gallery/page.tsx:53-57 | image i appears on page i / k + 1 at slot i % k, and that page is in range |
| Gallery.FindIndex | app/gallery/page.tsx:74 | the first position with the id, or -1 exactly when none has it |
| Gallery.NextImage | app/gallery/page.tsx:72-77 | nothing without a selection or images; otherwise an image of the list, the first one for an unknown id |
| Gallery.PrevImage | app/gallery/page.tsx:79-84 | nothing without a selection or for an unknown id; otherwise an image of the list |
| Gallery.NextFromPosition | app/gallery/page.tsx:72-77 | with distinct ids, position i goes to i + 1 and the last to the first |
| Gallery.PrevFromPosition | app/gallery/page.tsx:79-84 | with distinct ids, position i goes to i - 1 and the first to the last |
| Gallery.NextPrevRoundTrip | app/gallery/page.tsx:72-84 | with distinct ids, next then previous, or previous then next, returns to the image shown |
| Gallery.BentoTiles | app/gallery/page.tsx:141-142 | tile j shows image j with pattern entry j mod 9 |
| Gallery.BentoPageUsesPatternOnce | app/gallery/page.tsx:131-142 | a bento page uses each pattern entry at most once, and its first tile is the large square |
| Gallery.GalleryView.constructor | app/gallery/page.tsx:19-24 | no images, no selection, page 1, desktop, grid |
| Gallery.GalleryView.CurrentImages | app/gallery/page.tsx:57 | layouts other than the grid receive the whole list |
| Gallery.GalleryView.GridPageShown | app/gallery/page.tsx:53-57 | with the page in range the grid shows at most one page, never an empty page of a non-empty list |
| Gallery.GalleryView.Load | app/gallery/page.tsx:40-50 | a fetched list replaces the images, a failed fetch keeps them |
| Gallery.GalleryView.GoToNextPage | app/gallery/page.tsx:59-63 | advances only below the page count, so an in-range page stays in range |
| Gallery.GalleryView.GoToPrevPage | app/gallery/page.tsx:65-69 | goes back only above page 1, so an in-range page stays in range |
| Gallery.GalleryView.Open | app/gallery/page.tsx:101 | the clicked image is selected |
| Gallery.GalleryView.Close | app/gallery/page.tsx:475 | the selection is cleared |
| Gallery.GalleryView.GoToNextImage | app/gallery/page.tsx:72-77 | the selection becomes `NextImage` of the old one |
| Gallery.GalleryView.GoToPrevImage | app/gallery/page.tsx:79-84 | the selection becomes `PrevImage` of the old one |
| Gallery.GalleryView.SetLayout | app/gallery/page.tsx:86-89 | the page resets to 1 exactly when the layout changes |
| Gallery.GalleryView.Resize | app/gallery/page.tsx:30-35 | mobile exactly below 1024 pixels; the page resets to 1 exactly when that flips |
| Notes.NewNote | app/notes/page.tsx:64-73 | a note exists exactly for a colour index inside COLORS; it carries the form's text, that colour's name, x = y = 0 and the clock as id |
| Notes.Added | app/notes/page.tsx:61-86 | a note is appended exactly when both fields are non-blank, the colour is in COLORS and the POST answered ok, and it is the note built from the form |
| Notes.WhiteSpaceNotAdded | app/notes/page.tsx:62 | content or an author made only of white space is never added |
| Notes.NewNoteIdsDiffer | app/notes/page.tsx:65 | notes created at different milliseconds get different ids |
| Notes.Without | app/notes/page.tsx:104 | exactly the notes whose id differs from the given one remain |
| Notes.WithoutKeepsOrder | app/notes/page.tsx:104 | the remaining notes keep their order |
| Notes.WithoutIdempotent | app/notes/page.tsx:104 | deleting the same id twice is deleting it once |
| Notes.DeleteUndoesAdd | app/notes/page.tsx:84-105 | deleting a note just appended under a fresh id gives back the previous list |
| Notes.ColorFor | app/notes/page.tsx:124-127 | the palette entry with that name, or Yellow when none has it |
| Notes.CreatedNoteKeepsColor | app/notes/page.tsx:64-127 | every created note is drawn in the colour chosen in the form |
| Strings.BlankIffAllSpace | app/notes/page.tsx:62 | `!s.trim()` holds exactly when every character is white space |
| Notes.NotesBoard.constructor | app/notes/page.tsx:28-30 | no notes, an empty form, the form closed |
| Notes.NotesBoard.Fetch | app/notes/page.tsx:35-45 | an ok answer replaces the list, anything else keeps it |
| Notes.NotesBoard.AddNote | app/notes/page.tsx:61-99 | when `Added` gives a note it is appended after the existing notes and the form is cleared and closed; otherwise nothing changes |
| Notes.NotesBoard.DeleteNote | app/notes/page.tsx:101-105 | the list becomes `Without` of the old list |

## Left out

- Database I/O: every query, the table set-up and `initialize`, the pg pool, and the database fallback of `getGame`. Tables are maps or sequences passed in, and a `None` from `GetGame` stands where the real code would read the database.
- The hourly `setInterval` that calls cleanup, and every `Date.now()` or `new Date()`: the clock is a parameter. handleAddNote reads the clock twice (id and createdAt); both readings are parameters.
- The game-stream route (server-sent events) and the asynchronous delivery of subscribe's first state. `GameStateManager.Subscribe` delivers it at once; a `setGame` between subscribing and delivery is not modelled.
- Which of several rows with the same greatest `updated_at` GET returns is up to the database (and to Map order in `getGame`). `ActiveGame.Get` and `GameStateManager.GetGame` promise only some latest row.
- The pg encoding of the board column: the board is stored as the posted value.
- Library internals are parameters or ASCII-level helpers:
  - `JSON.parse` and `request.json()` (an unreadable body is `None`);
  - `encodeURIComponent` and `decodeURIComponent`;
  - bcrypt;
  - `toLowerCase` (Unicode case mapping beyond ASCII is not modelled).
- Db.PlaceholdersInOrder: does not exclude a `$` that a literal piece itself contains.
- Sessions: iron-session sealing, cookies and `getSession` are not modelled; `isAuthenticated` is a parameter of the secret routes. localStorage is not modelled.
- GameStates.GameStateManager.NotifyListeners: the model does not fix the order in which the listeners are called; `Notified` only says each is called once. The source calls them in Set insertion order.
- SecretFile.Serve: of the errors `readFileSync` can raise, only reading a directory is modelled.
- Randomness and floating point: note rotation, the jazz layout's positions and animations, confetti.
- After a successful add the notes page refetches the list; the refetch is a separate `Fetch` call. Alerts are not modelled.
- TicTacToe.Game.HandleCellClick: its contract does not itself carry `Valid()`. Since the new state is `Click` of the old one, `ClickConsistent` carries the invariant across every click.
- The notes and game-history CRUD routes, quote, auth check and logout, the GET of game-action, and every presentational component are not part of this model.
