/**
 * The Battleship game of one opponent (function Game and its prototype in
 * index.js): five "placed" flags for the fleet, the isStarted flag, the
 * player's board and the computer's board.  Replies that the source sends
 * through the chat API are appended to the ghost outbox instead.
 */
module Session {
  import opened Board
  import opened Commands

  /** The five ship classes, in the order they are placed. */
  datatype ShipClass = Carrier | Battleship | Cruiser | Submarine | Destroyer

  function Length(k: ShipClass): nat {
    match k
    case Carrier => 5
    case Battleship => 4
    case Cruiser => 3
    case Submarine => 3
    case Destroyer => 2
  }

  function Name(k: ShipClass): string {
    match k
    case Carrier => "carrier"
    case Battleship => "battleship"
    case Cruiser => "cruiser"
    case Submarine => "submarine"
    case Destroyer => "destroyer"
  }

  const Fleet: seq<ShipClass> := [Carrier, Battleship, Cruiser, Submarine, Destroyer]

  function Prompt(name: string): string {
    "Please place your " + name + "."
  }

  function Invalid(name: string): string {
    "Invalid coordinates, please place your " + name + "."
  }

  const YouGoFirst: string := "You go first!"

  /** The reply tryPlaceShip sends for a ship of class name: the prompt
      for the next class, "You go first!" when there is none (next is
      empty), or the invalid-coordinates reply when the ship did not fit. */
  function PlacementReply(ship: bool, name: string, next: string): string {
    if !ship then Invalid(name)
    else if next != "" then Prompt(next)
    else YouGoFirst
  }

  /** The name messageReceive passes as the next class after the k-th:
      empty after the destroyer. */
  function NextName(k: nat): string {
    if k + 1 < |Fleet| then Name(Fleet[k + 1]) else ""
  }

  /** The reply to a placement attempt for the k-th class of the fleet. */
  function Reply(k: nat, ok: bool): string
    requires k < |Fleet|
  {
    PlacementReply(ok, Name(Fleet[k]), NextName(k))
  }

  /** The ship a command asks for, of the given length. */
  function ShipAt(len: nat, c: Command): Ship {
    Ship(len, c.x, c.y, c.vertical)
  }

  predicate OnBoard(c: Command, size: nat) {
    0 <= c.x < size && 0 <= c.y < size
  }

  /** Whether a message places the k-th class of the fleet on board g. */
  ghost predicate Accepts(g: Grid, k: nat, message: string)
    requires IsSquare(g) && k < |Fleet|
  {
    var cmd := ParseCommand(message);
    && cmd.Some?
    && OnBoard(cmd.value, |g|)
    && Fits(g, ShipAt(Length(Fleet[k]), cmd.value))
  }

  /** Every successful reply differs from the failure reply. */
  lemma RepliesTellOutcome(k: nat)
    requires k < |Fleet|
    ensures Reply(k, true) != Reply(k, false)
  {
    assert Reply(k, false)[0] == 'I';
    assert Reply(k, true)[0] != 'I';
  }

  /** Flags that are true exactly on a prefix. */
  predicate TruePrefix(f: seq<bool>) {
    forall i, j :: 0 <= i < j < |f| && f[j] ==> f[i]
  }

  /** The index of the first false flag, or |f| when all are set. */
  function FirstUnset(f: seq<bool>): (n: nat)
    ensures n <= |f|
  {
    if f == [] || !f[0] then 0 else 1 + FirstUnset(f[1..])
  }

  /** On true-prefix flags, a flag is set exactly below the first unset one. */
  lemma {:induction false} TruePrefixFlags(f: seq<bool>)
    requires TruePrefix(f)
    ensures forall j :: 0 <= j < |f| ==> (f[j] <==> j < FirstUnset(f))
  {
    if f != [] {
      assert TruePrefix(f[1..]) by {
        forall i, j | 0 <= i < j < |f[1..]| && f[1..][j]
          ensures f[1..][i]
        {
          assert f[j + 1];
        }
      }
      TruePrefixFlags(f[1..]);
      forall j | 0 <= j < |f|
        ensures f[j] <==> j < FirstUnset(f)
      {
        if j > 0 {
          assert f[j] == f[1..][j - 1];
          if f[j] { assert f[0]; }
        }
      }
    }
  }

  /** Setting the first unset flag to the outcome of a placement keeps the
      flags a true-prefix, and advances the count exactly on success. */
  lemma SetFirstUnset(f: seq<bool>, placed: bool)
    requires TruePrefix(f) && FirstUnset(f) < |f|
    ensures TruePrefix(f[FirstUnset(f) := placed])
    ensures FirstUnset(f[FirstUnset(f) := placed]) == if placed then FirstUnset(f) + 1 else FirstUnset(f)
  {
    var k := FirstUnset(f);
    var g := f[k := placed];
    TruePrefixFlags(f);
    assert forall j :: 0 <= j < |g| ==> (g[j] <==> j < k || (j == k && placed));
    FirstUnsetOf(g, if placed then k + 1 else k);
  }

  /** The first unset flag of flags that are set exactly below n. */
  lemma {:induction false} FirstUnsetOf(f: seq<bool>, n: nat)
    requires n <= |f|
    requires forall j :: 0 <= j < |f| ==> (f[j] <==> j < n)
    ensures FirstUnset(f) == n
  {
    if f != [] && f[0] {
      FirstUnsetOf(f[1..], n - 1);
    }
  }

  /** The setup state of the player's fleet: the placed flags form a
      true-prefix, the game has started exactly when the destroyer (the last
      class) is placed, and the placed ships are the first classes of the
      fleet in order. */
  ghost predicate FleetState(flags: seq<bool>, started: bool, ships: seq<Ship>) {
    && |flags| == |Fleet|
    && TruePrefix(flags)
    && started == flags[|Fleet| - 1]
    && |ships| == FirstUnset(flags)
    && forall j :: 0 <= j < |ships| ==> ships[j].len == Length(Fleet[j])
  }

  /** In a fleet state the game has started exactly when all five classes
      are placed. */
  lemma StartedIffAllPlaced(flags: seq<bool>, started: bool, ships: seq<Ship>)
    requires FleetState(flags, started, ships)
    ensures started <==> FirstUnset(flags) == |Fleet|
  {
    TruePrefixFlags(flags);
  }

  /** One placement attempt for the first class not yet placed keeps the
      fleet state: its flag becomes the outcome, the ship is appended exactly
      on success, and only the destroyer's success starts the game. */
  lemma FleetStep(flags: seq<bool>, started: bool, ships: seq<Ship>, placed: bool, s: Ship)
    requires FleetState(flags, started, ships) && FirstUnset(flags) < |Fleet|
    requires s.len == Length(Fleet[FirstUnset(flags)])
    ensures !started
    ensures
      var k := FirstUnset(flags);
      && FirstUnset(flags[k := placed]) == (if placed then k + 1 else k)
      && FleetState(flags[k := placed], started || (placed && k == |Fleet| - 1), if placed then ships + [s] else ships)
  {
    TruePrefixFlags(flags);
    SetFirstUnset(flags, placed);
  }

  /** The position of the first candidate whose ship of length len fits on
      g, or |cands| when none does: the draw on which the retry loop of
      addComputerShip stops. */
  function FirstFit(g: Grid, len: nat, cands: seq<Command>): (i: nat)
    ensures i <= |cands|
    ensures i < |cands| ==> Fits(g, ShipAt(len, cands[i]))
    ensures forall k :: 0 <= k < i ==> !Fits(g, ShipAt(len, cands[k]))
    decreases |cands|
  {
    if cands == [] || Fits(g, ShipAt(len, cands[0])) then 0
    else 1 + FirstFit(g, len, cands[1..])
  }

  /** A position where the first fitting candidate sits, with no fitting
      candidate before it, is the one FirstFit finds. */
  lemma {:induction false} FirstFitIs(g: Grid, len: nat, cands: seq<Command>, i: nat)
    requires i <= |cands|
    requires i < |cands| ==> Fits(g, ShipAt(len, cands[i]))
    requires forall k :: 0 <= k < i ==> !Fits(g, ShipAt(len, cands[k]))
    ensures FirstFit(g, len, cands) == i
    decreases |cands|
  {
    if cands != [] && !Fits(g, ShipAt(len, cands[0])) {
      assert forall k :: 0 <= k < i - 1 ==> cands[1..][k] == cands[k + 1];
      FirstFitIs(g, len, cands[1..], i - 1);
    }
  }

  /** The ships a sequence of addComputerShip calls places, and the board
      they leave. */
  datatype Deployment = Deployment(ships: seq<Ship>, grid: Grid)

  /** The classes placed one after the other, each on the first candidate
      of the remaining stream that fits; the deployment stops at the first
      class for which the stream runs out. */
  function Deploy(g: Grid, classes: seq<ShipClass>, cands: seq<Command>): (d: Deployment)
    ensures |d.ships| <= |classes|
    ensures forall j :: 0 <= j < |d.ships| ==> d.ships[j].len == Length(classes[j])
    decreases |classes|
  {
    if classes == [] then Deployment([], g)
    else
      var i := FirstFit(g, Length(classes[0]), cands);
      if i == |cands| then Deployment([], g)
      else
        var s := ShipAt(Length(classes[0]), cands[i]);
        var d := Deploy(Place(g, s), classes[1..], cands[i + 1..]);
        Deployment([s] + d.ships, d.grid)
  }

  /** The ships already placed, followed by the deployment of classes on
      cands from g, make up goal. */
  ghost predicate OnPlan(g: Grid, ships: seq<Ship>, classes: seq<ShipClass>, cands: seq<Command>, goal: Deployment) {
    var d := Deploy(g, classes, cands);
    ships + d.ships == goal.ships && d.grid == goal.grid
  }

  /** Placing the next class on its first fitting candidate keeps the
      placements on plan, with the candidates after it left over; when no
      candidate fits, the plan is complete as it stands. */
  lemma PlanStep(g: Grid, ships: seq<Ship>, classes: seq<ShipClass>, cands: seq<Command>, goal: Deployment)
    requires classes != [] && OnPlan(g, ships, classes, cands, goal)
    ensures
      var i := FirstFit(g, Length(classes[0]), cands);
      if i < |cands| then
        var s := ShipAt(Length(classes[0]), cands[i]);
        OnPlan(Place(g, s), ships + [s], classes[1..], cands[i + 1..], goal)
      else
        ships == goal.ships && g == goal.grid
  {
    var i := FirstFit(g, Length(classes[0]), cands);
    if i < |cands| {
      var s := ShipAt(Length(classes[0]), cands[i]);
      var e := Deploy(Place(g, s), classes[1..], cands[i + 1..]);
      var d := Deploy(g, classes, cands);
      assert d.ships == [s] + e.ships && d.grid == e.grid;
      assert ships + [s] + e.ships == goal.ships;
    } else {
      assert Deploy(g, classes, cands) == Deployment([], g);
      assert ships + [] == ships;
    }
  }

  class Game {
    /** The board dimension N (Constants.GAME_BOARD_SIZE). */
    const size: nat
    var isStarted: bool
    var carrier: bool
    var battleship: bool
    var cruiser: bool
    var submarine: bool
    var destroyer: bool
    const playerGameBoard: array2<int>
    const computerGameBoard: array2<int>

    /** Replies sent to the opponent's thread, oldest first. */
    ghost var outbox: seq<string>
    /** The ships placed on each board, in placement order. */
    ghost var playerShips: seq<Ship>
    ghost var computerShips: seq<Ship>

    /** The "placed" flags in fleet order. */
    function Flags(): (f: seq<bool>)
      reads this`carrier, this`battleship, this`cruiser, this`submarine, this`destroyer
      ensures |f| == |Fleet|
    {
      [carrier, battleship, cruiser, submarine, destroyer]
    }

    /** How many classes of the fleet are placed: the position of the first
        unset flag, the one messageReceive tries next. */
    function Placed(): (n: nat)
      reads this`carrier, this`battleship, this`cruiser, this`submarine, this`destroyer
      ensures n <= |Fleet|
    {
      FirstUnset(Flags())
    }

    ghost function PlayerGrid(): (g: Grid)
      reads playerGameBoard
      ensures |g| == playerGameBoard.Length0
    {
      GridOf(playerGameBoard)
    }

    ghost function ComputerGrid(): (g: Grid)
      reads computerGameBoard
      ensures |g| == computerGameBoard.Length0
    {
      GridOf(computerGameBoard)
    }

    /** Both boards are N×N, distinct, and hold exactly their ships. */
    ghost predicate BoardsValid()
      reads this`playerShips, this`computerShips, playerGameBoard, computerGameBoard
    {
      && playerGameBoard != computerGameBoard
      && playerGameBoard.Length0 == size && playerGameBoard.Length1 == size
      && computerGameBoard.Length0 == size && computerGameBoard.Length1 == size
      && Consistent(PlayerGrid(), playerShips)
      && Consistent(ComputerGrid(), computerShips)
    }

    /** The setup invariant: both boards hold their ships, and the flags,
        isStarted and the player's ships form a fleet state. */
    ghost predicate Valid()
      reads this, playerGameBoard, computerGameBoard
    {
      BoardsValid() && PlayerFleetValid()
    }

    ghost predicate PlayerFleetValid()
      reads this`isStarted, this`playerShips
      reads this`carrier, this`battleship, this`cruiser, this`submarine, this`destroyer
    {
      FleetState(Flags(), isStarted, playerShips)
    }

    /** new Game(): two empty boards and no ship placed. */
    constructor (size: nat)
      ensures Valid()
      ensures this.size == size && fresh(playerGameBoard) && fresh(computerGameBoard)
      ensures Placed() == 0 && !isStarted
      ensures PlayerGrid() == Empty(size) && ComputerGrid() == Empty(size)
      ensures outbox == [] && playerShips == [] && computerShips == []
    {
      this.size := size;
      isStarted := false;
      var player := CreateGameBoard(size);
      var computer := CreateGameBoard(size);
      playerGameBoard := player;
      computerGameBoard := computer;
      carrier, battleship, cruiser, submarine, destroyer := false, false, false, false, false;
      outbox, playerShips, computerShips := [], [], [];
      new;
      EmptyConsistent(size);
    }

    /** tryPlaceShip: place a ship on the player's board and send exactly
        one reply; the last class (no next name) starts the game. */
    method TryPlaceShip(x: int, y: int, orientation: bool, length: nat, name: string, next: string)
      returns (ship: bool)
      requires BoardsValid()
      requires 0 <= x < size && 0 <= y < size
      modifies this`isStarted, this`outbox, this`playerShips, playerGameBoard
      ensures BoardsValid()
      ensures ship == Fits(old(PlayerGrid()), Ship(length, x, y, orientation))
      ensures PlayerGrid() == if ship then Place(old(PlayerGrid()), Ship(length, x, y, orientation)) else old(PlayerGrid())
      ensures playerShips == if ship then old(playerShips) + [Ship(length, x, y, orientation)] else old(playerShips)
      ensures outbox == old(outbox) + [PlacementReply(ship, name, next)]
      ensures isStarted == (old(isStarted) || (ship && next == ""))
    {
      ghost var s := Ship(length, x, y, orientation);
      ghost var before := PlayerGrid();
      ship := AddShip(playerGameBoard, length, x, y, orientation);
      if ship {
        PlaceKeepsConsistent(before, playerShips, s);
        playerShips := playerShips + [s];
        if next != "" {
          outbox := outbox + [Prompt(next)];
        } else {
          outbox := outbox + [YouGoFirst];
          isStarted := true;
        }
      } else {
        outbox := outbox + [Invalid(name)];
      }
    }

    /** messageReceive: parse the command and try it for the first class
        not yet placed.  A message that does not give two digits of the board
        gets the invalid-coordinates reply.  Once the fleet is placed nothing
        changes and nothing is sent. */
    method MessageReceive(message: string)
      requires Valid()
      modifies this`isStarted, this`outbox, this`playerShips, playerGameBoard
      modifies this`carrier, this`battleship, this`cruiser, this`submarine, this`destroyer
      ensures Valid()
      ensures old(Placed()) == |Fleet| ==>
        && Flags() == old(Flags()) && isStarted == old(isStarted) && outbox == old(outbox)
        && playerShips == old(playerShips) && PlayerGrid() == old(PlayerGrid())
      ensures old(Placed()) < |Fleet| ==>
        var k := old(Placed());
        var ok := Accepts(old(PlayerGrid()), k, message);
        && outbox == old(outbox) + [Reply(k, ok)]
        && Flags() == old(Flags())[k := ok]
        && Placed() == (if ok then k + 1 else k)
        && isStarted == (ok && k == |Fleet| - 1)
        && playerShips == (if ok then old(playerShips) + [ShipAt(Length(Fleet[k]), ParseCommand(message).value)] else old(playerShips))
        && PlayerGrid() == (if ok then Place(old(PlayerGrid()), ShipAt(Length(Fleet[k]), ParseCommand(message).value)) else old(PlayerGrid()))
    {
      var cmd := ParseCommand(message);
      var k := Placed();
      if k == |Fleet| {
        return;
      }
      var cls := Fleet[k];
      if cmd.None? || !OnBoard(cmd.value, size) {
        TruePrefixFlags(Flags());
        assert Flags()[k := false] == Flags();
        outbox := outbox + [Invalid(Name(cls))];
        return;
      }
      var ship := PlaceNext(k, cmd.value);
    }

    /** The branch of messageReceive for a well-formed command: tryPlaceShip
        for the first class not yet placed, then record its outcome in that
        class's flag. */
    method PlaceNext(k: nat, c: Command) returns (ship: bool)
      requires Valid() && k == Placed() < |Fleet| && OnBoard(c, size)
      modifies this`isStarted, this`outbox, this`playerShips, playerGameBoard
      modifies this`carrier, this`battleship, this`cruiser, this`submarine, this`destroyer
      ensures Valid()
      ensures ship == Fits(old(PlayerGrid()), ShipAt(Length(Fleet[k]), c))
      ensures outbox == old(outbox) + [Reply(k, ship)]
      ensures Flags() == old(Flags())[k := ship]
      ensures Placed() == if ship then k + 1 else k
      ensures isStarted == (ship && k == |Fleet| - 1)
      ensures playerShips == if ship then old(playerShips) + [ShipAt(Length(Fleet[k]), c)] else old(playerShips)
      ensures PlayerGrid() == if ship then Place(old(PlayerGrid()), ShipAt(Length(Fleet[k]), c)) else old(PlayerGrid())
    {
      var cls := Fleet[k];
      var next := NextName(k);
      assert next == "" <==> k == |Fleet| - 1;
      ghost var flags := Flags();
      ghost var ships := playerShips;
      ghost var s := ShipAt(Length(cls), c);
      ghost var started := isStarted;
      ship := TryPlaceShip(c.x, c.y, c.vertical, Length(cls), Name(cls), next);
      FleetStep(flags, started, ships, ship, s);
      assert outbox == old(outbox) + [Reply(k, ship)];
      SetPlaced(k, ship);
    }

    /** The assignment `this.<class> = <outcome>` of messageReceive, for the
        k-th class of the fleet. */
    method SetPlaced(k: nat, placed: bool)
      requires k < |Fleet|
      modifies this`carrier, this`battleship, this`cruiser, this`submarine, this`destroyer
      ensures Flags() == old(Flags())[k := placed]
    {
      match Fleet[k]
      case Carrier => carrier := placed;
      case Battleship => battleship := placed;
      case Cruiser => cruiser := placed;
      case Submarine => submarine := placed;
      case Destroyer => destroyer := placed;
    }

    /** addComputerShip: try the candidate placements in turn until one
        fits on the computer's board.  The candidates stand for the source's
        random draws; when they run out before one fits, nothing is placed. */
    method AddComputerShip(shipLength: nat, candidates: seq<Command>) returns (added: bool, used: nat)
      requires BoardsValid()
      requires forall k :: 0 <= k < |candidates| ==> OnBoard(candidates[k], size)
      modifies computerGameBoard, this`computerShips
      ensures BoardsValid()
      ensures used <= |candidates|
      ensures added ==>
        && 0 < used
        && Fits(old(ComputerGrid()), ShipAt(shipLength, candidates[used - 1]))
        && ComputerGrid() == Place(old(ComputerGrid()), ShipAt(shipLength, candidates[used - 1]))
        && computerShips == old(computerShips) + [ShipAt(shipLength, candidates[used - 1])]
      ensures !added ==>
        && used == |candidates|
        && ComputerGrid() == old(ComputerGrid()) && computerShips == old(computerShips)
      ensures forall k :: 0 <= k < used && (k < used - 1 || !added) ==>
        !Fits(old(ComputerGrid()), ShipAt(shipLength, candidates[k]))
      ensures added <==> FirstFit(old(ComputerGrid()), shipLength, candidates) < |candidates|
      ensures added ==> used == FirstFit(old(ComputerGrid()), shipLength, candidates) + 1
    {
      ghost var before := ComputerGrid();
      added := false;
      used := 0;
      while !added && used < |candidates|
        invariant BoardsValid()
        invariant used <= |candidates|
        invariant added ==>
          && 0 < used
          && Fits(before, ShipAt(shipLength, candidates[used - 1]))
          && ComputerGrid() == Place(before, ShipAt(shipLength, candidates[used - 1]))
          && computerShips == old(computerShips) + [ShipAt(shipLength, candidates[used - 1])]
        invariant !added ==> ComputerGrid() == before && computerShips == old(computerShips)
        invariant forall k :: 0 <= k < used && (k < used - 1 || !added) ==>
          !Fits(before, ShipAt(shipLength, candidates[k]))
      {
        var c := candidates[used];
        added := AddShip(computerGameBoard, shipLength, c.x, c.y, c.vertical);
        if added {
          PlaceKeepsConsistent(before, computerShips, ShipAt(shipLength, c));
          computerShips := computerShips + [ShipAt(shipLength, c)];
        }
        used := used + 1;
      }
      FirstFitIs(before, shipLength, candidates, if added then used - 1 else used);
    }

    /** beginGame: place the computer's fleet, then ask the player for the
        carrier. */
    method BeginGame(candidates: seq<Command>) returns (ready: bool)
      requires Valid()
      requires forall k :: 0 <= k < |candidates| ==> OnBoard(candidates[k], size)
      modifies computerGameBoard, this`computerShips, this`outbox
      ensures Valid()
      ensures
        var d := Deploy(old(ComputerGrid()), Fleet, candidates);
        && computerShips == old(computerShips) + d.ships
        && ComputerGrid() == d.grid
        && (ready <==> |d.ships| == |Fleet|)
      ensures outbox == if ready then old(outbox) + [Prompt(Name(Carrier))] else old(outbox)
    {
      ready := PlaceComputerFleet(candidates);
      if ready {
        outbox := outbox + [Prompt(Name(Carrier))];
      }
    }

    /** The five addComputerShip statements of beginGame (5, 4, 3, 3, 2),
        drawing the candidates of each ship from one shared stream.  The
        ships placed are those of Deploy; ready is false exactly when the
        stream ran out first. */
    method PlaceComputerFleet(candidates: seq<Command>) returns (ready: bool)
      requires BoardsValid()
      requires forall k :: 0 <= k < |candidates| ==> OnBoard(candidates[k], size)
      modifies computerGameBoard, this`computerShips
      ensures BoardsValid()
      ensures
        var d := Deploy(old(ComputerGrid()), Fleet, candidates);
        && computerShips == old(computerShips) + d.ships
        && ComputerGrid() == d.grid
        && (ready <==> |d.ships| == |Fleet|)
    {
      ghost var start := computerShips;
      ghost var plan := Deploy(ComputerGrid(), Fleet, candidates);
      ghost var goal := Deployment(computerShips + plan.ships, plan.grid);
      assert Fleet[0..] == Fleet;
      var rest := candidates;
      var added := true;
      var i := 0;
      while i < |Fleet| && added
        invariant 0 <= i <= |Fleet|
        invariant BoardsValid()
        invariant forall k :: 0 <= k < |rest| ==> OnBoard(rest[k], size)
        invariant added ==>
          && |computerShips| == |start| + i
          && OnPlan(ComputerGrid(), computerShips, Fleet[i..], rest, goal)
        invariant !added ==>
          && 0 < i && |computerShips| == |start| + i - 1
          && computerShips == goal.ships && ComputerGrid() == goal.grid
      {
        ghost var g := ComputerGrid();
        ghost var ships := computerShips;
        var used;
        added, used := AddComputerShip(Length(Fleet[i]), rest);
        PlanStep(g, ships, Fleet[i..], rest, goal);
        assert Fleet[i..][0] == Fleet[i] && Fleet[i..][1..] == Fleet[i + 1..];
        rest := rest[used..];
        i := i + 1;
      }
      if added {
        assert Fleet[i..] == [];
      }
      ready := added;
    }
  }
}
