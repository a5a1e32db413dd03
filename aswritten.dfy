/**
 * The placement path of messageReceive as index.js writes it, on JavaScript
 * numbers.  parseInt of a missing or non-digit character gives NaN; every
 * comparison with NaN is false, and indexing a row with NaN reads the row's
 * "NaN" property (undefined) instead of a cell.  This is what lets a message
 * with a single digit place a ship that covers no cell.  The rest of the
 * model parses with Commands.ParseCommand, which rejects such messages.
 */
module AsWritten {
  import opened Board
  import opened Commands
  import opened Session

  /** A JavaScript number as the parse can produce it: an integer or NaN. */
  datatype JsNum = Num(v: int) | NaN

  /** The outcome of evaluating an expression that may throw a TypeError. */
  datatype Outcome = Returns(value: bool) | Throws

  /** parseInt(token.charAt(k)): charAt past the end gives "", and parseInt
      of "" or of a character that is not a digit gives NaN. */
  function ParseIntAt(token: string, k: nat): (n: JsNum)
    ensures n.Num? <==> k < |token| && IsDigit(token[k])
    ensures n.Num? ==> n.v == DigitValue(token[k])
  {
    if k < |token| && IsDigit(token[k]) then Num(DigitValue(token[k])) else NaN
  }

  /** The coordinates and orientation messageReceive computes from a
      message.  x is a number exactly when the message starts with a digit;
      y exactly when its second character is a digit and the first is not a
      space (a leading space leaves the first token empty). */
  function ParseAsWritten(message: string): (r: (JsNum, JsNum, bool))
    ensures r.0.Num? <==> 0 < |message| && IsDigit(message[0])
    ensures r.0.Num? ==> r.0.v == DigitValue(message[0])
    ensures r.1.Num? <==> 1 < |message| && message[0] != ' ' && IsDigit(message[1])
    ensures r.1.Num? ==> r.1.v == DigitValue(message[1])
  {
    FirstPieceIsPrefix(message);
    var parts := Split(message);
    (ParseIntAt(parts[0], 0), ParseIntAt(parts[0], 1), |parts| >= 2 && parts[1] == "vertical")
  }

  /** a + i, where NaN absorbs the addition. */
  function Plus(a: JsNum, i: int): JsNum {
    if a.NaN? then NaN else Num(a.v + i)
  }

  /** a > b for a JavaScript number: false whenever a is NaN. */
  predicate Greater(a: JsNum, b: int) {
    a.Num? && a.v > b
  }

  /** gameBoard[x][y] > 0: a row outside the board is undefined and indexing
      it throws; a cell outside the row is undefined, and undefined > 0 is
      false. */
  function Taken(g: Grid, x: JsNum, y: JsNum): (o: Outcome)
    ensures o.Throws? <==> !(x.Num? && 0 <= x.v < |g|)
  {
    if x.NaN? || !(0 <= x.v < |g|) then Throws
    else if y.NaN? || !(0 <= y.v < |g[x.v]|) then Returns(false)
    else Returns(g[x.v][y.v] > 0)
  }

  /** The loop of checkShipX from step i on, with valid the flag so far:
      the bound test short-circuits the cell test.  Only a row x that is
      not a row of the board can make it throw, and it can only keep valid
      false once it is false. */
  function CheckXFrom(g: Grid, len: nat, x: JsNum, y: JsNum, i: nat, valid: bool): (r: Outcome)
    ensures r.Throws? ==> i < len && !(x.Num? && 0 <= x.v < |g|)
    ensures r == Returns(true) ==> valid
    decreases len - i
  {
    if i >= len then Returns(valid)
    else if Greater(Plus(y, i), |g| - 1) then CheckXFrom(g, len, x, y, i + 1, false)
    else match Taken(g, x, Plus(y, i))
      case Throws => Throws
      case Returns(t) => CheckXFrom(g, len, x, y, i + 1, valid && !t)
  }

  /** checkShipX as written, on JavaScript numbers. */
  function CheckShipXAsWritten(g: Grid, len: nat, x: JsNum, y: JsNum): (r: Outcome)
    ensures r.Throws? ==> 0 < len && !(x.Num? && 0 <= x.v < |g|)
  {
    CheckXFrom(g, len, x, y, 0, true)
  }

  /** addShipX as written: with y NaN every write goes to the row's "NaN"
      property, so no cell of the grid changes; otherwise only row x does. */
  function PlaceXAsWritten(g: Grid, len: nat, x: int, y: JsNum): (h: Grid)
    ensures |h| == |g|
    ensures forall r :: 0 <= r < |g| && r != x ==> h[r] == g[r]
    ensures y.NaN? ==> h == g
  {
    if y.NaN? then g else Place(g, Ship(len, x, y.v, false))
  }

  /** The loop of checkShipY from step i on: the bound test is on the row
      x + i, and the cell read is gameBoard[x + i][y].  A row index that
      passes the bound test is a row of the board unless x is NaN or
      negative, so only such an x can make it throw. */
  function CheckYFrom(g: Grid, len: nat, x: JsNum, y: JsNum, i: nat, valid: bool): (r: Outcome)
    ensures r.Throws? ==> i < len && !(x.Num? && 0 <= x.v)
    ensures r == Returns(true) ==> valid
    decreases len - i
  {
    if i >= len then Returns(valid)
    else if Greater(Plus(x, i), |g| - 1) then CheckYFrom(g, len, x, y, i + 1, false)
    else match Taken(g, Plus(x, i), y)
      case Throws => Throws
      case Returns(t) => CheckYFrom(g, len, x, y, i + 1, valid && !t)
  }

  /** checkShipY as written, on JavaScript numbers. */
  function CheckShipYAsWritten(g: Grid, len: nat, x: JsNum, y: JsNum): (r: Outcome)
    ensures r.Throws? ==> 0 < len && !(x.Num? && 0 <= x.v)
  {
    CheckYFrom(g, len, x, y, 0, true)
  }

  /** addShipY as written, for rows x..x+len-1 of the board: a column y
      outside the row (or NaN) writes a property beyond the row's cells, so
      only cells of column y inside the board can change. */
  function PlaceYAsWritten(g: Grid, len: nat, x: int, y: JsNum): (h: Grid)
    ensures |h| == |g|
    ensures forall r, c :: 0 <= r < |g| && 0 <= c < |g[r]| && !(y.Num? && c == y.v) ==> |h[r]| == |g[r]| && h[r][c] == g[r][c]
    ensures y.NaN? ==> h == g
  {
    if y.NaN? then g else Place(g, Ship(len, x, y.v, true))
  }

  // ---------------------------------------------------------------------
  // Lemmas

  /** On the coordinates of a well-formed command, the parse as written
      agrees with ParseCommand. */
  lemma ParseAgrees(message: string)
    requires ParseCommand(message).Some?
    ensures
      var c := ParseCommand(message).value;
      ParseAsWritten(message) == (Num(c.x), Num(c.y), c.vertical)
  {
    FirstPieceIsPrefix(message);
  }

  /** On integer coordinates of the board, the loop as written decides
      exactly the cell tests of Board.Fits. */
  lemma {:induction false} CheckXFromAgrees(g: Grid, len: nat, x: int, y: int, i: nat, valid: bool)
    requires IsSquare(g) && 0 <= x < |g| && 0 <= y < |g|
    ensures CheckXFrom(g, len, Num(x), Num(y), i, valid)
      == Returns(valid && forall j :: i <= j < len ==> CellFree(g, Ship(len, x, y, false), j))
    decreases len - i
  {
    if i < len {
      CheckXFromAgrees(g, len, x, y, i + 1, valid && CellFree(g, Ship(len, x, y, false), i));
      if !CellFree(g, Ship(len, x, y, false), i) {
        assert !(forall j :: i <= j < len ==> CellFree(g, Ship(len, x, y, false), j));
      }
    }
  }

  /** checkShipX as written agrees with Board.Fits whenever both
      coordinates are integers on the board. */
  lemma CheckShipXAgrees(g: Grid, len: nat, x: int, y: int)
    requires IsSquare(g) && 0 <= x < |g| && 0 <= y < |g|
    ensures CheckShipXAsWritten(g, len, Num(x), Num(y)) == Returns(Fits(g, Ship(len, x, y, false)))
  {
    CheckXFromAgrees(g, len, x, y, 0, true);
  }

  /** With y NaN and x a row of the board, no step of the loop fails. */
  lemma {:induction false} NaNColumnPasses(g: Grid, len: nat, x: int, i: nat)
    requires 0 <= x < |g|
    ensures CheckXFrom(g, len, Num(x), NaN, i, true) == Returns(true)
    decreases len - i
  {
    if i < len {
      NaNColumnPasses(g, len, x, i + 1);
    }
  }

  /** The message "5" gives x = 5 and y = NaN; on any board with a row 5
      (more than 5 rows; with fewer, gameBoard[5] is undefined and the check
      throws, as for "ab"),
      checkShipX accepts the carrier there and addShipX leaves every cell as
      it was, so the carrier counts as placed while covering no cell.
      ParseCommand rejects the same message. */
  lemma SingleDigitCommandAccepted(g: Grid)
    requires 5 < |g|
    ensures ParseAsWritten("5") == (Num(5), NaN, false)
    ensures CheckShipXAsWritten(g, 5, Num(5), NaN) == Returns(true)
    ensures PlaceXAsWritten(g, 5, 5, NaN) == g
    ensures ParseCommand("5") == None
  {
    SplitNoSpace("5");
    NaNColumnPasses(g, 5, 5, 0);
  }

  /** With y NaN and rows x..x+len-1 on the board, no step of the vertical
      loop fails. */
  lemma {:induction false} NaNColumnPassesY(g: Grid, len: nat, x: int, i: nat)
    requires 0 <= x && x + len <= |g|
    ensures CheckYFrom(g, len, Num(x), NaN, i, true) == Returns(true)
    decreases len - i
  {
    if i < len {
      NaNColumnPassesY(g, len, x, i + 1);
    }
  }

  /** A single digit d, a space and a second token w: x is the digit's
      value, y is NaN, and the ship is vertical exactly when w is
      "vertical", as written; ParseCommand finds no command. */
  lemma ParseSingleDigitThen(d: char, w: string)
    requires IsDigit(d) && ' ' !in w
    ensures ParseAsWritten([d] + " " + w) == (Num(DigitValue(d)), NaN, w == "vertical")
    ensures ParseCommand([d] + " " + w) == None
  {
    SplitNoSpace(w);
    SplitAtSpace([d], w);
  }

  /** A single digit followed by " vertical" ("5 vertical", say) gives y =
      NaN; with rows x..x+4 on the board checkShipY accepts the carrier and
      addShipY leaves every cell as it was.  ParseCommand rejects the same
      message. */
  lemma SingleDigitVerticalAccepted(g: Grid, d: char)
    requires IsDigit(d) && DigitValue(d) + 5 <= |g|
    ensures ParseAsWritten([d] + " vertical") == (Num(DigitValue(d)), NaN, true)
    ensures CheckShipYAsWritten(g, 5, Num(DigitValue(d)), NaN) == Returns(true)
    ensures PlaceYAsWritten(g, 5, DigitValue(d), NaN) == g
    ensures ParseCommand([d] + " vertical") == None
  {
    ParseSingleDigitThen(d, "vertical");
    assert [d] + " " + "vertical" == [d] + " vertical";
    NaNColumnPassesY(g, 5, DigitValue(d), 0);
  }

  /** The message "ab" gives x = y = NaN; checkShipX then indexes the board
      with NaN and throws, so the player gets no reply at all.  ParseCommand
      rejects the same message. */
  lemma NonDigitCommandThrows(g: Grid, len: nat)
    requires 0 < len
    ensures ParseAsWritten("ab") == (NaN, NaN, false)
    ensures CheckShipXAsWritten(g, len, NaN, NaN) == Throws
    ensures ParseCommand("ab") == None
  {
    SplitNoSpace("ab");
  }

  /** On integer coordinates of the board, the vertical loop as written
      decides exactly the cell tests of Board.Fits. */
  lemma {:induction false} CheckYFromAgrees(g: Grid, len: nat, x: int, y: int, i: nat, valid: bool)
    requires IsSquare(g) && 0 <= x < |g| && 0 <= y < |g|
    ensures CheckYFrom(g, len, Num(x), Num(y), i, valid)
      == Returns(valid && forall j :: i <= j < len ==> CellFree(g, Ship(len, x, y, true), j))
    decreases len - i
  {
    if i < len {
      CheckYFromAgrees(g, len, x, y, i + 1, valid && CellFree(g, Ship(len, x, y, true), i));
      if !CellFree(g, Ship(len, x, y, true), i) {
        assert !(forall j :: i <= j < len ==> CellFree(g, Ship(len, x, y, true), j));
      }
    }
  }

  /** checkShipY as written agrees with Board.Fits whenever both
      coordinates are integers on the board. */
  lemma CheckShipYAgrees(g: Grid, len: nat, x: int, y: int)
    requires IsSquare(g) && 0 <= x < |g| && 0 <= y < |g|
    ensures CheckShipYAsWritten(g, len, Num(x), Num(y)) == Returns(Fits(g, Ship(len, x, y, true)))
  {
    CheckYFromAgrees(g, len, x, y, 0, true);
  }

  /** Once y is beyond the last column, every step of the horizontal loop
      fails its bound test and no cell is read. */
  lemma {:induction false} PastLastColumn(g: Grid, len: nat, x: JsNum, y: int, i: nat, valid: bool)
    requires |g| <= y
    ensures CheckXFrom(g, len, x, Num(y), i, valid) == Returns(valid && len <= i)
    decreases len - i
  {
    if i < len {
      PastLastColumn(g, len, x, y, i + 1, false);
    }
  }

  /** Once x is beyond the last row, every step of the vertical loop fails
      its bound test and no cell is read. */
  lemma {:induction false} PastLastRow(g: Grid, len: nat, x: int, y: JsNum, i: nat, valid: bool)
    requires |g| <= x
    ensures CheckYFrom(g, len, Num(x), y, i, valid) == Returns(valid && len <= i)
    decreases len - i
  {
    if i < len {
      PastLastRow(g, len, x, y, i + 1, false);
    }
  }

  /** A horizontal ship starting beyond the last column, or a vertical one
      starting beyond the last row, is refused without reading the board,
      as the model's invalid-coordinates reply has it. */
  lemma OffBoardStartRefused(g: Grid, len: nat, x: int, y: int)
    requires 0 < len && (|g| <= x || |g| <= y)
    ensures |g| <= y ==> CheckShipXAsWritten(g, len, Num(x), Num(y)) == Returns(false)
    ensures |g| <= x ==> CheckShipYAsWritten(g, len, Num(x), Num(y)) == Returns(false)
  {
    if |g| <= y {
      PastLastColumn(g, len, Num(x), y, 0, true);
    }
    if |g| <= x {
      PastLastRow(g, len, x, Num(y), 0, true);
    }
  }

  /** Rows x + i of the board with a column y beyond the row's end: each
      cell read is undefined, which is not > 0, so the loop keeps valid. */
  lemma {:induction false} BeyondRowEndPasses(g: Grid, len: nat, x: int, y: int, i: nat)
    requires IsSquare(g) && 0 <= x && x + len <= |g| && |g| <= y
    ensures CheckYFrom(g, len, Num(x), Num(y), i, true) == Returns(true)
    decreases len - i
  {
    if i < len {
      BeyondRowEndPasses(g, len, x, y, i + 1);
    }
  }

  /** On a board smaller than 10, a vertical ship typed with a digit column
      beyond the board ("09 vertical" on 8×8, say) passes checkShipY, and
      addShipY writes past the end of each row, so no cell of the board
      changes while the ship counts as placed.  ParseCommand reads the same
      command, but it is not on the board, so the model refuses it. */
  lemma OffBoardColumnAccepted(g: Grid, len: nat, x: int, y: int)
    requires IsSquare(g) && 0 <= x && x + len <= |g| && |g| <= y <= 9
    ensures ParseAsWritten(Format(Command(x, y, true))) == (Num(x), Num(y), true)
    ensures CheckShipYAsWritten(g, len, Num(x), Num(y)) == Returns(true)
    ensures PlaceYAsWritten(g, len, x, Num(y)) == g
    ensures ParseCommand(Format(Command(x, y, true))) == Some(Command(x, y, true))
    ensures !OnBoard(Command(x, y, true), |g|)
  {
    ParseFormat(Command(x, y, true));
    ParseAgrees(Format(Command(x, y, true)));
    BeyondRowEndPasses(g, len, x, y, 0);
    SameGrid(g, PlaceYAsWritten(g, len, x, Num(y)));
  }

  /** On a board smaller than 10, a horizontal ship typed with a digit row
      beyond the board ("90" on 8×8, say) makes checkShipX read a cell of an
      undefined row and throw, so no reply is sent.  The model refuses it
      with the invalid-coordinates reply. */
  lemma OffBoardRowThrows(g: Grid, len: nat, x: int, y: int)
    requires 0 < len && 0 <= y < |g| <= x <= 9
    ensures ParseAsWritten(Format(Command(x, y, false))) == (Num(x), Num(y), false)
    ensures CheckShipXAsWritten(g, len, Num(x), Num(y)) == Throws
    ensures ParseCommand(Format(Command(x, y, false))) == Some(Command(x, y, false))
    ensures !OnBoard(Command(x, y, false), |g|)
  {
    ParseFormat(Command(x, y, false));
    ParseAgrees(Format(Command(x, y, false)));
  }
}
