# Battleship setup engine in Dafny

A model of the set-up phase of a Battleship game played over a chat
connection (`index.js`). A game holds two N×N integer boards: the player's
and the computer's. On a board, 0 marks an empty cell and L marks a cell
covered by a ship of length L.

The game object has five "placed" flags for the fleet: carrier 5,
battleship 4, cruiser 3, submarine 3 and destroyer 2. It also has an
`isStarted` flag. Each chat message of the player is a command such as
`"34 vertical"`, and it is tried for the first class not yet placed. In
the model, every attempt is answered with exactly one reply. The computer places its own
fleet by drawing random placements until one fits.

The project has four modules:

- `Board` (`board.dfy`) holds the board helpers as imperative methods on an
  `array2<int>`. Their effect is specified by functions on a value view of
  the board: `Grid`, with `Fits` for the check and `Place` for the write.
  A ghost list of the ships placed so far, with `Layout` and `Consistent`,
  states the board invariant: ships never overlap, and every cell holds the
  length of the ship lying there (0 where there is none).
- `Commands` (`commands.dfy`) parses the text command. It contains
  `split(" ")` with its inverse `Join`, and the digit parse.
- `Session` (`session.dfy`) is the `Game` class. Its flags and boards are
  fields that its methods update. The replies sent to the chat thread
  become a ghost `outbox`. The invariant `Valid` ties the flags, the
  started flag, the ships and the boards together.
- `AsWritten` (`aswritten.dfy`) holds the command path as `index.js`
  writes it, on JavaScript numbers including NaN: the parse of the message,
  checkShipX and checkShipY, and addShipX and addShipY. It serves the
  findings below. Four of its functions are definitions of JavaScript
  behaviour rather than of the game, and they carry no row in the table:
  `ParseIntAt` (parseInt of one character), `Plus` (NaN absorbs an
  addition), `Greater` (every comparison with NaN is false) and `Taken`
  (indexing an undefined row throws, and an undefined cell is not `> 0`).

The computer's random draws are a supplied stream of candidate placements.
The function `Deploy` is the reference for beginGame. It places the classes
one after the other, each on the first candidate of the remaining stream
that fits (`FirstFit`), and it stops at the first class for which the
stream runs out.

The board size N is `Game.size` (the source's `Constants.GAME_BOARD_SIZE`).
Its value is not fixed here, so every property holds for any N.

## Model

| member | source | states |
|---|---|---|
| Board.CreateGameBoard | index.js:195-202 | the new board is fresh, N×N, and every cell is 0 |
| Board.CheckShipX | index.js:100-109 | the loop returns true exactly when every cell (x, y+i), i < len, is within the upper bound N-1 and holds no value > 0 |
| Board.CheckShipY | index.js:132-141 | the loop returns true exactly when every cell (x+i, y), i < len, is within the upper bound N-1 and holds no value > 0 |
| Board.AddShipX | index.js:118-122 | afterwards the cells (x, y..y+len-1) hold len and every other cell is unchanged |
| Board.AddShipY | index.js:150-154 | afterwards the cells (x..x+len-1, y) hold len and every other cell is unchanged |
| Board.AddShip | index.js:165-179 | returns the check for the chosen orientation; on success the board is the old board with the ship written, on failure it is unchanged |
| Board.FitsIffCoveredCellsEmpty | index.js:100-109 | on a board without negative cells, the check passes exactly when every covered cell is inside the board and 0 |
| Board.FitsWithinBoard | index.js:104 | a ship that passes the check ends on the board |
| Board.FitsCoveredCell | index.js:104 | every cell of a ship that passes the check is on the board and not > 0 |
| Board.ZeroLengthPlacesNothing | index.js:103 | a ship of length 0 always passes and writes nothing |
| Board.PlaceNeverOverwrites | index.js:165-179 | a successful placement never changes an occupied cell |
| Board.OverlappingPlacementFails | index.js:104 | once a ship is placed, any ship sharing one of its cells fails the check, so the same ship of positive length placed twice is rejected |
| Board.LayoutEmptyIffUncovered | index.js:165-179 | the intended board value of a cell is never negative, and it is 0 exactly where no ship lies |
| Board.LayoutOfOwner | index.js:165-179 | among non-overlapping ships, a cell covered by a ship holds that ship's length |
| Board.CellMeaning | index.js:165-179 | on a consistent board a cell is 0 exactly when no ship lies there, and otherwise it holds the length of the ship there |
| Board.ConsistentNonNegative | index.js:197-199 | a consistent board has no negative cell |
| Board.PlaceKeepsConsistent | index.js:165-179 | a placement that passes the check keeps the board invariant with the new ship appended |
| Commands.DigitValue | index.js:63-64 | parseInt of a digit character lies in 0..9 |
| Commands.DigitChar | index.js:63-64 | the digit character of 0..9, inverse to DigitValue |
| Commands.Split | index.js:62 | the pieces are at least one, contain no space, and joined with single spaces give back the message |
| Commands.FirstPieceIsPrefix | index.js:62-64 | the first piece is a prefix of the message that ends at its end or at a space |
| Commands.ParseCommand | index.js:62-65 | a command exists exactly when the first two characters are digits; x and y are their values |
| Commands.SplitFirstPiece | index.js:62 | a space-free string followed by nothing or a space is the first piece |
| Commands.SplitNoSpace | index.js:62 | a space-free string is split into itself alone |
| Commands.SplitAtSpace | index.js:62 | the first space ends the first piece, and the rest is split on its own |
| Commands.ParseTwoTokens | index.js:62-65 | with a second token, the ship is vertical exactly when that token is "vertical" |
| Commands.ParseOneToken | index.js:65 | a message of one token places the ship horizontally |
| Commands.ParseFormat | index.js:62-65 | parsing the text typed for a command gives the command back |
| Commands.VerticalIsCaseSensitive | index.js:65 | "55 Vertical" places a horizontal ship: the keyword is case-sensitive |
| Session.RepliesTellOutcome | index.js:45-57 | the reply to a successful placement always differs from the reply to a failed one, so the player can tell the outcome |
| Session.FirstUnset | index.js:67-76 | the first unset flag lies within the flags |
| Session.TruePrefixFlags | index.js:67-76 | on true-prefix flags, a flag is set exactly below the first unset one |
| Session.SetFirstUnset | index.js:67-76 | setting the first unset flag to an outcome keeps a true-prefix, and the count advances exactly on success |
| Session.FirstUnsetOf | index.js:67-76 | flags set exactly below n have n as their first unset flag |
| Session.StartedIffAllPlaced | index.js:52-53 | in a fleet state the game has started exactly when all five classes are placed |
| Session.FleetStep | index.js:67-76 | an attempt for the first unplaced class keeps the fleet state: its flag becomes the outcome, the ship is appended only on success, and only the destroyer's success starts the game |
| Session.FirstFit | index.js:81-90 | the position found holds a candidate that fits and no earlier candidate fits; it is the end of the stream only when no candidate fits |
| Session.FirstFitIs | index.js:81-90 | a position holding a fitting candidate with no fitting candidate before it is the one FirstFit finds, so the first fit is unique |
| Session.Deploy | index.js:34-40 | at most one ship per class is placed, and the j-th ship placed has the length of the j-th class |
| Session.PlanStep | index.js:34-40 | placing the next class on its first fitting candidate keeps the placements on the deployment's plan, with the later candidates left over; when no candidate fits, the placements so far are the whole deployment |
| Session.Game.constructor | index.js:20-33 | two fresh, distinct, all-zero N×N boards; no flag set; not started; the invariant holds |
| Session.Game.TryPlaceShip | index.js:45-58 | the ship is written exactly when the check passes; exactly one reply is sent: the next class's prompt, "You go first!" when there is no next class, or the invalid-coordinates reply; only the last class starts the game |
| Session.Game.MessageReceive | index.js:61-79 | the message is tried for the first unplaced class in fleet order; exactly one reply is sent; only that class's flag can change, and only to true on success; isStarted becomes true exactly on the destroyer's success; once all five are placed nothing changes and nothing is sent |
| Session.Game.PlaceNext | index.js:67-78 | one branch of the chain: tryPlaceShip for the k-th class, and its outcome stored in that class's flag |
| Session.Game.SetPlaced | index.js:68-76 | the assignment to the k-th class's flag changes that flag alone |
| Session.Game.AddComputerShip | index.js:81-90 | the candidates are tried in order; a ship is placed exactly when some candidate fits, and it is the first candidate that fits (FirstFit); every earlier candidate did not fit; nothing else changes |
| Session.Game.PlaceComputerFleet | index.js:35-39 | the ships appended to the computer's list and the computer's board are exactly those of Deploy for the fleet (5, 4, 3, 3, 2) on the stream; ready holds exactly when all five classes are placed; the board invariant is kept |
| Session.Game.BeginGame | index.js:34-41 | the computer's fleet is placed as Deploy says; the carrier prompt is sent exactly when all five classes are placed; the player's state is untouched and the invariant is kept |
| AsWritten.ParseAsWritten | index.js:62-65 | x is a number exactly when the message starts with a digit, and y exactly when its second character is a digit and its first is not a space; each number is that digit's value |
| AsWritten.CheckXFrom | index.js:103-107 | the horizontal loop throws only at a step that reads a row x that is not a row of the board, and it ends with true only if the flag was still true |
| AsWritten.CheckShipXAsWritten | index.js:100-109 | checkShipX throws only for a positive length and a row x that is not a row of the board |
| AsWritten.PlaceXAsWritten | index.js:118-122 | addShipX keeps the number of rows and changes no row other than x; with y NaN it changes no cell of the board |
| AsWritten.CheckYFrom | index.js:135-139 | the vertical loop throws only when x is NaN or negative, and it ends with true only if the flag was still true |
| AsWritten.CheckShipYAsWritten | index.js:132-141 | checkShipY throws only for a positive length and an x that is NaN or negative |
| AsWritten.PlaceYAsWritten | index.js:150-154 | addShipY keeps the number of rows, and only cells of column y can change; with y NaN no cell of the board changes |
| AsWritten.ParseAgrees | index.js:62-65 | on a well-formed command, the parse as written yields the same numbers and orientation as ParseCommand |
| AsWritten.CheckXFromAgrees | index.js:103-107 | on integer coordinates of the board, the horizontal loop computes exactly the cell tests of Fits |
| AsWritten.CheckShipXAgrees | index.js:100-109 | on integer coordinates of the board, checkShipX as written returns Fits |
| AsWritten.CheckYFromAgrees | index.js:135-139 | on integer coordinates of the board, the vertical loop computes exactly the cell tests of Fits |
| AsWritten.CheckShipYAgrees | index.js:132-141 | on integer coordinates of the board, checkShipY as written returns Fits |
| AsWritten.NaNColumnPasses | index.js:103-107 | with y NaN and x a row of the board with no earlier NaN-column write, every step of the loop passes |
| AsWritten.PastLastColumn | index.js:103-107 | with y beyond the last column every step fails its bound test, so the loop returns true only for length 0 and never throws |
| AsWritten.PastLastRow | index.js:135-139 | with x beyond the last row every step fails its bound test, so the loop returns true only for length 0 and never throws |
| AsWritten.OffBoardStartRefused | index.js:100-141 | a horizontal ship starting beyond the last column, or a vertical one beyond the last row, is refused without reading the board |
| AsWritten.BeyondRowEndPasses | index.js:135-139 | on rows of the board with a column beyond the rows' end, never written before, every step of the vertical loop passes |
| AsWritten.OffBoardColumnAccepted | index.js:132-154 | on a board smaller than 10, a vertical command with a digit column beyond the board that ends within the rows is accepted by checkShipY on rows with no earlier write in that column, and addShipY changes no cell of the board; ParseCommand reads the command but it is not on the board |
| AsWritten.OffBoardRowThrows | index.js:100-109 | on a board smaller than 10, a horizontal command with a digit row beyond the board and a column on it makes checkShipX throw; ParseCommand reads the command but it is not on the board |
| AsWritten.SingleDigitCommandAccepted | index.js:61-68 | the message "5" gives x = 5 and y = NaN; on any board of more than 5 rows checkShipX accepts the carrier, and addShipX changes no cell |
| AsWritten.NaNColumnPassesY | index.js:135-139 | with y NaN and rows x..x+len-1 on the board, with no earlier NaN-column write, every step of the vertical loop passes |
| AsWritten.ParseSingleDigitThen | index.js:62-65 | a single digit, a space and a second token give x = the digit's value, y = NaN, and a vertical ship exactly when the token is "vertical"; ParseCommand finds no command |
| AsWritten.SingleDigitVerticalAccepted | index.js:61-76 | a single digit followed by " vertical" ("5 vertical") gives y = NaN; when rows x..x+4 are on the board, checkShipY accepts the carrier and addShipY changes no cell; ParseCommand refuses the message |
| AsWritten.NonDigitCommandThrows | index.js:61-68 | the message "ab" gives x = y = NaN, and checkShipX throws |

## Left out

- The Facebook login, the `api.listen` callback, `markAsRead`, the
  `onEventReceived` dispatch and the global `games` dictionary are chat
  network I/O and glue. The fields `opponentID`, `gameID`, `threadID` and
  `api` serve only that I/O.
- `api.sendMessage` is replaced by appending to the ghost `outbox`.
- `insertMessage` and the exit hook are SQLite persistence.
- `console.log` output and the loading of `Constants` are left out.
  `constants.js` is not part of this model. Its `GAME_BOARD_SIZE` is the
  parameter `size` of `Game`.
- `getRandomInt` draws floating-point random numbers. Its draws become a
  supplied stream of candidate placements, all on the board.
- Session.Game.AddComputerShip: the source retries until a placement fits
  and may in principle never stop. The model tries a finite stream and
  reports `added == false` when the stream runs out.
- Session.Game.BeginGame: when the stream runs out before the whole fleet
  is placed, it stops placing, returns `ready == false` and sends no
  prompt. The source cannot reach this case, because its retry loop never
  gives up.
- Session.Game.PlaceComputerFleet: the five `addComputerShip` statements
  are written as one loop over the fleet, which stops early when the
  stream runs out. Each turn makes the same call with the class's length.
- Session.Game.MessageReceive: a message without two leading digits gets
  the invalid-coordinates reply. The source behaves differently here (see
  Findings).
- Session.Game.MessageReceive: digit coordinates not below N get the
  invalid-coordinates reply. They can only occur when N < 10. The source
  agrees when a horizontal ship starts beyond the last column or a
  vertical one beyond the last row (AsWritten.OffBoardStartRefused), and
  when a vertical ship on a column beyond the board runs past the last
  row. It differs in two cases, both under Findings. A horizontal ship on
  a row beyond the board, with a column on it, throws. A vertical ship on
  a column beyond the board that ends within the rows is accepted without
  covering a cell.
- AsWritten.PlaceXAsWritten and AsWritten.PlaceYAsWritten model the
  writes only for rows of the board. A write to a row beyond the board
  throws in the source, and the check before each write rules it out.
- Session.Game.MessageReceive: the chain of five `if`/`else if` branches
  is written as one placement for the first unset flag, followed by one
  assignment to that flag (PlaceNext, SetPlaced). Both select the same
  class, call tryPlaceShip with the same arguments and store the outcome
  in the same flag.
- AsWritten.PlaceXAsWritten, AsWritten.PlaceYAsWritten,
  AsWritten.NaNColumnPasses, AsWritten.NaNColumnPassesY,
  AsWritten.BeyondRowEndPasses and
  AsWritten.OffBoardColumnAccepted: the as-written board keeps only the
  N×N cells. A write that misses a cell (to a row's `NaN` property, or
  past the end of a row) is lost, whereas in the source it stays and a
  later read at the same place sees the ship's length. These members
  therefore describe the source only for rows with no earlier write that
  missed a cell; a second `"5"` after an accepted `"5"`, for instance, is
  refused by the source.
- AsWritten.ParseAsWritten: messages are sequences of Unicode scalar
  values, not UTF-16 code units. After a first character outside the
  Basic Multilingual Plane, the source's `charAt(1)` reads half of a
  surrogate pair, so its y is NaN where the model reads the next
  character.
- Ship lengths are natural numbers. The source only passes 5, 4, 3, 3
  and 2.

## Findings

| source | as written | input that shows it | evidently intended | confidence | as-written member | corrected member |
|---|---|---|---|---|---|---|
| index.js:63-64, 104, 120, 136, 152 | `parseInt` of a missing second character gives y = NaN. Every test `y + i > max` is then false, and `gameBoard[x][NaN]` is undefined, which is not `> 0`. So checkShipX accepts, and addShipX writes to the row's `NaN` property instead of a cell. The vertical path, checkShipY and addShipY, does the same with column NaN. | the message `"5"` while the carrier is unplaced, on a board of more than 5 rows (at N ≤ 5 it throws, like `"ab"`): the carrier flag is set and "Please place your battleship." is sent, but no cell of the board is covered. `"5 vertical"` does the same through checkShipY and addShipY when N ≥ 10 | a message without two digits is refused with the invalid-coordinates reply | high (not executed) | AsWritten.SingleDigitCommandAccepted | Commands.ParseCommand |
| index.js:63-64, 104 | `parseInt` of a non-digit first character gives x = NaN. `gameBoard[NaN]` is undefined, so reading `[y + i]` of it throws a TypeError, and no reply is sent. | the message `"ab"` during placement | the invalid-coordinates reply | high (not executed) | AsWritten.NonDigitCommandThrows | Session.Game.MessageReceive |
| index.js:132-141, 150-154 | On a board smaller than 10, a digit column y not below N makes every `gameBoard[x + i][y]` undefined, which is not `> 0`. So checkShipY accepts whenever x + len <= N, and addShipY writes past the end of each row instead of to a cell. | with N = 8, the message `"09 vertical"` while the carrier is unplaced: the carrier flag is set and "Please place your battleship." is sent, but no cell of the board is covered | a ship off the board is refused with the invalid-coordinates reply | medium (not executed; only when GAME_BOARD_SIZE < 10) | AsWritten.OffBoardColumnAccepted | Session.Game.MessageReceive |
| index.js:100-109 | On a board smaller than 10, a digit row x not below N makes `gameBoard[x]` undefined. Reading `[y + i]` of it throws a TypeError when y is on the board, and no reply is sent. | with N = 8, the message `"90"` during placement | the invalid-coordinates reply | medium (not executed; only when GAME_BOARD_SIZE < 10) | AsWritten.OffBoardRowThrows | Session.Game.MessageReceive |
