/**
 * The Battleship board: an N×N grid of integers in which 0 marks an empty
 * cell and L marks a cell covered by a ship of length L.  This module holds
 * the board helpers createGameBoard, checkShipX/checkShipY, addShipX/addShipY
 * and addShip, together with a value-level view of the board (Grid) on which
 * their effect is specified and the non-overlap invariant is proved.
 */
module Board {

  /** A board as a value, indexed like the source's `gameBoard[x][y]`. */
  type Grid = seq<seq<int>>

  /** A placement request: length, anchor (x, y) and orientation.
      A horizontal ship runs along y, a vertical one along x. */
  datatype Ship = Ship(len: nat, x: int, y: int, vertical: bool)

  predicate IsSquare(g: Grid) {
    forall r :: 0 <= r < |g| ==> |g[r]| == |g|
  }

  /** The fixed coordinates the source indexes without a bounds check. */
  predicate Anchored(g: Grid, s: Ship) {
    0 <= s.x < |g| && 0 <= s.y < |g|
  }

  /** Cell (r, c) is one of the cells of s: (x, y+i) when horizontal,
      (x+i, y) when vertical, for 0 <= i < len. */
  predicate Covers(s: Ship, r: int, c: int) {
    if s.vertical then c == s.y && s.x <= r < s.x + s.len
    else r == s.x && s.y <= c < s.y + s.len
  }

  /** The test made on the i-th cell of s: it is not beyond the upper bound
      N - 1 and it does not hold a value > 0. */
  predicate CellFree(g: Grid, s: Ship, i: int)
    requires IsSquare(g) && Anchored(g, s) && 0 <= i
  {
    if s.vertical then s.x + i <= |g| - 1 && g[s.x + i][s.y] <= 0
    else s.y + i <= |g| - 1 && g[s.x][s.y + i] <= 0
  }

  /** What checkShipX/checkShipY decide for an anchor on a square board:
      every cell of s passes the test. */
  predicate Fits(g: Grid, s: Ship) {
    && IsSquare(g)
    && Anchored(g, s)
    && forall i :: 0 <= i < s.len ==> CellFree(g, s, i)
  }

  /** The board after addShipX/addShipY: the cells of s hold s.len. */
  function Place(g: Grid, s: Ship): (h: Grid)
    ensures |h| == |g|
    ensures forall r :: 0 <= r < |g| ==> |h[r]| == |g[r]|
  {
    seq(|g|, r requires 0 <= r < |g| =>
      seq(|g[r]|, c requires 0 <= c < |g[r]| =>
        if Covers(s, r, c) then s.len else g[r][c]))
  }

  /** The board createGameBoard makes: n rows of n zeros. */
  function Empty(n: nat): (g: Grid)
    ensures |g| == n && IsSquare(g)
  {
    seq(n, r => seq(n, c => 0))
  }

  predicate NonNegative(g: Grid) {
    forall r, c :: 0 <= r < |g| && 0 <= c < |g[r]| ==> g[r][c] >= 0
  }

  /** The contents of an array board as a value. */
  ghost function GridOf(b: array2<int>): (g: Grid)
    reads b
    ensures |g| == b.Length0
    ensures forall r :: 0 <= r < |g| ==> |g[r]| == b.Length1
    ensures forall r, c :: 0 <= r < b.Length0 && 0 <= c < b.Length1 ==> g[r][c] == b[r, c]
  {
    seq(b.Length0, r reads b requires 0 <= r < b.Length0 =>
      seq(b.Length1, c reads b requires 0 <= c < b.Length1 => b[r, c]))
  }

  // ---------------------------------------------------------------------
  // Ships placed so far, and the board they must produce.

  /** The value the board must hold at (r, c) once ships were placed in this
      order: the length of the last ship covering it, or 0. */
  ghost function Layout(ships: seq<Ship>, r: int, c: int): int
  {
    if ships == [] then 0
    else if Covers(ships[|ships| - 1], r, c) then ships[|ships| - 1].len
    else Layout(ships[..|ships| - 1], r, c)
  }

  /** No cell is covered by two ships. */
  ghost predicate Disjoint(ships: seq<Ship>) {
    forall j, k, r, c :: 0 <= j < k < |ships| && Covers(ships[j], r, c) ==> !Covers(ships[k], r, c)
  }

  /** The board invariant: every ship lies on the board, no two ships share
      a cell, and every cell holds exactly what the placed ships put there. */
  ghost predicate Consistent(g: Grid, ships: seq<Ship>) {
    && IsSquare(g)
    && (forall k, r, c :: 0 <= k < |ships| && Covers(ships[k], r, c) ==> 0 <= r < |g| && 0 <= c < |g|)
    && Disjoint(ships)
    && (forall r, c :: 0 <= r < |g| && 0 <= c < |g| ==> g[r][c] == Layout(ships, r, c))
  }

  // ---------------------------------------------------------------------
  // Lemmas

  /** Two grids with the same shape and the same cells are equal. */
  lemma SameGrid(g: Grid, h: Grid)
    requires |g| == |h|
    requires forall r :: 0 <= r < |g| ==> |g[r]| == |h[r]|
    requires forall r, c :: 0 <= r < |g| && 0 <= c < |g[r]| ==> g[r][c] == h[r][c]
    ensures g == h
  {
    forall r | 0 <= r < |g|
      ensures g[r] == h[r]
    {
      assert forall c :: 0 <= c < |g[r]| ==> g[r][c] == h[r][c];
    }
  }

  /** A ship that passes the check ends on the board. */
  lemma {:induction false} FitsWithinBoard(g: Grid, s: Ship)
    requires Fits(g, s)
    ensures if s.vertical then s.x + s.len <= |g| else s.y + s.len <= |g|
  {
    if s.len > 0 {
      assert CellFree(g, s, s.len - 1);
    }
  }

  /** The check succeeds exactly when every cell the ship would cover lies
      inside the board and is empty (on a board without negative cells). */
  lemma {:induction false} FitsIffCoveredCellsEmpty(g: Grid, s: Ship)
    requires IsSquare(g) && Anchored(g, s) && NonNegative(g)
    ensures Fits(g, s) <==>
      forall r, c :: Covers(s, r, c) ==> r < |g| && c < |g| && g[r][c] == 0
  {
    if Fits(g, s) {
      forall r, c | Covers(s, r, c)
        ensures r < |g| && c < |g| && g[r][c] == 0
      {
        var i := if s.vertical then r - s.x else c - s.y;
        assert CellFree(g, s, i);
      }
    }
    if forall r, c :: Covers(s, r, c) ==> r < |g| && c < |g| && g[r][c] == 0 {
      forall i | 0 <= i < s.len
        ensures CellFree(g, s, i)
      {
        if s.vertical {
          assert Covers(s, s.x + i, s.y);
        } else {
          assert Covers(s, s.x, s.y + i);
        }
      }
    }
  }

  /** A ship of length 0 always passes the check and writes nothing. */
  lemma ZeroLengthPlacesNothing(g: Grid, s: Ship)
    requires IsSquare(g) && Anchored(g, s) && s.len == 0
    ensures Fits(g, s) && Place(g, s) == g
  {
    SameGrid(Place(g, s), g);
  }

  /** A cell of a ship that passes the check is on the board and not > 0. */
  lemma FitsCoveredCell(g: Grid, s: Ship, r: int, c: int)
    requires Fits(g, s)
    ensures Covers(s, r, c) ==> 0 <= r < |g| && 0 <= c < |g| && g[r][c] <= 0
  {
    if Covers(s, r, c) {
      assert CellFree(g, s, if s.vertical then r - s.x else c - s.y);
    }
  }

  /** A successful placement never overwrites an occupied cell. */
  lemma {:induction false} PlaceNeverOverwrites(g: Grid, s: Ship)
    requires Fits(g, s)
    ensures forall r, c :: 0 <= r < |g| && 0 <= c < |g| && g[r][c] > 0 ==> Place(g, s)[r][c] == g[r][c]
  {
    forall r, c | 0 <= r < |g| && 0 <= c < |g| && g[r][c] > 0
      ensures Place(g, s)[r][c] == g[r][c]
    {
      FitsCoveredCell(g, s, r, c);
    }
  }

  /** Once a ship is placed, any ship sharing a cell with it fails the check:
      in particular the same ship placed twice is rejected the second time. */
  lemma {:induction false} OverlappingPlacementFails(g: Grid, s: Ship, t: Ship, r: int, c: int)
    requires Anchored(g, t) && Fits(g, s)
    requires Covers(s, r, c) && Covers(t, r, c)
    ensures !Fits(Place(g, s), t)
  {
    FitsWithinBoard(g, s);
    var i := if t.vertical then r - t.x else c - t.y;
    assert !CellFree(Place(g, s), t, i);
  }

  /** Covering a cell takes a ship of positive length. */
  lemma CoversPositive(s: Ship, r: int, c: int)
    requires Covers(s, r, c)
    ensures s.len > 0
  {
  }

  /** Layout is 0 exactly where no ship lies. */
  lemma {:induction false} LayoutEmptyIffUncovered(ships: seq<Ship>, r: int, c: int)
    ensures Layout(ships, r, c) >= 0
    ensures Layout(ships, r, c) == 0 <==> forall k :: 0 <= k < |ships| ==> !Covers(ships[k], r, c)
  {
    if ships != [] {
      var init := ships[..|ships| - 1];
      LayoutEmptyIffUncovered(init, r, c);
      assert forall k :: 0 <= k < |init| ==> init[k] == ships[k];
      if Covers(ships[|ships| - 1], r, c) {
        CoversPositive(ships[|ships| - 1], r, c);
      }
    }
  }

  /** Among disjoint ships, the ship covering a cell is the one whose length
      the Layout records there. */
  lemma {:induction false} LayoutOfOwner(ships: seq<Ship>, k: int, r: int, c: int)
    requires Disjoint(ships) && 0 <= k < |ships| && Covers(ships[k], r, c)
    ensures Layout(ships, r, c) == ships[k].len
  {
    var last := |ships| - 1;
    if k < last {
      var init := ships[..last];
      assert !Covers(ships[last], r, c);
      assert init[k] == ships[k];
      assert Disjoint(init) by {
        forall j, m, r', c' | 0 <= j < m < |init| && Covers(init[j], r', c')
          ensures !Covers(init[m], r', c')
        {
          assert init[j] == ships[j] && init[m] == ships[m];
        }
      }
      LayoutOfOwner(init, k, r, c);
    }
  }

  /** What a cell of a consistent board tells: 0 means no ship lies there,
      and any ship lying there is the one whose length the cell holds. */
  lemma CellMeaning(g: Grid, ships: seq<Ship>, r: int, c: int)
    requires Consistent(g, ships) && 0 <= r < |g| && 0 <= c < |g|
    ensures g[r][c] >= 0
    ensures g[r][c] == 0 <==> forall k :: 0 <= k < |ships| ==> !Covers(ships[k], r, c)
    ensures forall k :: 0 <= k < |ships| && Covers(ships[k], r, c) ==> g[r][c] == ships[k].len
  {
    LayoutEmptyIffUncovered(ships, r, c);
    forall k | 0 <= k < |ships| && Covers(ships[k], r, c)
      ensures g[r][c] == ships[k].len
    {
      LayoutOfOwner(ships, k, r, c);
    }
  }

  /** A consistent board has no negative cell. */
  lemma ConsistentNonNegative(g: Grid, ships: seq<Ship>)
    requires Consistent(g, ships)
    ensures NonNegative(g)
  {
    forall r, c | 0 <= r < |g| && 0 <= c < |g[r]|
      ensures g[r][c] >= 0
    {
      CellMeaning(g, ships, r, c);
    }
  }

  /** The fresh board is consistent with an empty fleet. */
  lemma EmptyConsistent(n: nat)
    ensures Consistent(Empty(n), [])
  {
  }

  /** A placement that passes the check keeps the board invariant: the new
      ship lies on the board, overlaps no earlier ship, and the board now
      records it. */
  lemma {:induction false} PlaceKeepsConsistent(g: Grid, ships: seq<Ship>, s: Ship)
    requires Consistent(g, ships) && Fits(g, s)
    ensures Consistent(Place(g, s), ships + [s])
  {
    var h := Place(g, s);
    var ships' := ships + [s];
    FitsWithinBoard(g, s);
    assert ships'[..|ships|] == ships;
    assert IsSquare(h);
    forall k, r, c | 0 <= k < |ships'| && Covers(ships'[k], r, c)
      ensures 0 <= r < |h| && 0 <= c < |h|
    {
      if k < |ships| {
        assert ships'[k] == ships[k];
      }
    }
    forall j, k, r, c | 0 <= j < k < |ships'| && Covers(ships'[j], r, c)
      ensures !Covers(ships'[k], r, c)
    {
      assert ships'[j] == ships[j];
      if k == |ships| {
        CellMeaning(g, ships, r, c);
        FitsCoveredCell(g, s, r, c);
      }
    }
    forall r, c | 0 <= r < |h| && 0 <= c < |h|
      ensures h[r][c] == Layout(ships', r, c)
    {
    }
  }

  // ---------------------------------------------------------------------
  // The board helpers

  /** createGameBoard: an n×n board of zeros. */
  method CreateGameBoard(n: nat) returns (b: array2<int>)
    ensures fresh(b)
    ensures b.Length0 == n && b.Length1 == n
    ensures GridOf(b) == Empty(n)
  {
    b := new int[n, n]((r, c) => 0);
    SameGrid(GridOf(b), Empty(n));
  }

  /** checkShipX: may a horizontal ship of length len start at (x, y)? */
  method CheckShipX(b: array2<int>, len: nat, x: int, y: int) returns (valid: bool)
    requires b.Length0 == b.Length1
    requires 0 <= x < b.Length0 && 0 <= y < b.Length1
    ensures valid == Fits(GridOf(b), Ship(len, x, y, false))
  {
    ghost var g := GridOf(b);
    ghost var s := Ship(len, x, y, false);
    valid := true;
    var max := b.Length1 - 1;
    var i := 0;
    while i < len
      invariant 0 <= i <= len
      invariant valid <==> forall j :: 0 <= j < i ==> CellFree(g, s, j)
    {
      assert CellFree(g, s, i) <==> !(y + i > max || b[x, y + i] > 0);
      if y + i > max || b[x, y + i] > 0 {
        valid := false;
      }
      i := i + 1;
    }
  }

  /** checkShipY: may a vertical ship of length len start at (x, y)? */
  method CheckShipY(b: array2<int>, len: nat, x: int, y: int) returns (valid: bool)
    requires b.Length0 == b.Length1
    requires 0 <= x < b.Length0 && 0 <= y < b.Length1
    ensures valid == Fits(GridOf(b), Ship(len, x, y, true))
  {
    ghost var g := GridOf(b);
    ghost var s := Ship(len, x, y, true);
    valid := true;
    var max := b.Length0 - 1;
    var i := 0;
    while i < len
      invariant 0 <= i <= len
      invariant valid <==> forall j :: 0 <= j < i ==> CellFree(g, s, j)
    {
      assert CellFree(g, s, i) <==> !(x + i > max || b[x + i, y] > 0);
      if x + i > max || b[x + i, y] > 0 {
        valid := false;
      }
      i := i + 1;
    }
  }

  /** addShipX: write len into the cells (x, y .. y+len-1). */
  method AddShipX(b: array2<int>, len: nat, x: int, y: int)
    requires 0 <= x < b.Length0 && 0 <= y && y + len <= b.Length1
    modifies b
    ensures GridOf(b) == Place(old(GridOf(b)), Ship(len, x, y, false))
  {
    ghost var s := Ship(len, x, y, false);
    var i := 0;
    while i < len
      invariant 0 <= i <= len
      invariant forall r, c :: 0 <= r < b.Length0 && 0 <= c < b.Length1 ==>
        b[r, c] == if r == x && y <= c < y + i then len else old(b[r, c])
    {
      b[x, y + i] := len;
      i := i + 1;
    }
    SameGrid(GridOf(b), Place(old(GridOf(b)), s));
  }

  /** addShipY: write len into the cells (x .. x+len-1, y). */
  method AddShipY(b: array2<int>, len: nat, x: int, y: int)
    requires 0 <= x && x + len <= b.Length0 && 0 <= y < b.Length1
    modifies b
    ensures GridOf(b) == Place(old(GridOf(b)), Ship(len, x, y, true))
  {
    ghost var s := Ship(len, x, y, true);
    var i := 0;
    while i < len
      invariant 0 <= i <= len
      invariant forall r, c :: 0 <= r < b.Length0 && 0 <= c < b.Length1 ==>
        b[r, c] == if c == y && x <= r < x + i then len else old(b[r, c])
    {
      b[x + i, y] := len;
      i := i + 1;
    }
    SameGrid(GridOf(b), Place(old(GridOf(b)), s));
  }

  /** addShip: check the span, and write the ship only if the check passed.
      Placement is all-or-nothing: on failure the board is untouched. */
  method AddShip(b: array2<int>, len: nat, x: int, y: int, vertical: bool) returns (valid: bool)
    requires b.Length0 == b.Length1
    requires 0 <= x < b.Length0 && 0 <= y < b.Length1
    modifies b
    ensures valid == Fits(old(GridOf(b)), Ship(len, x, y, vertical))
    ensures GridOf(b) == if valid then Place(old(GridOf(b)), Ship(len, x, y, vertical)) else old(GridOf(b))
  {
    ghost var s := Ship(len, x, y, vertical);
    if vertical {
      valid := CheckShipY(b, len, x, y);
      if valid {
        FitsWithinBoard(GridOf(b), s);
        AddShipY(b, len, x, y);
      }
    } else {
      valid := CheckShipX(b, len, x, y);
      if valid {
        FitsWithinBoard(GridOf(b), s);
        AddShipX(b, len, x, y);
      }
    }
  }
}
