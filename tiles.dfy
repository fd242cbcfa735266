/** The squares of the board (Location.java), the movable pieces that stand
    on them (Piece.java) and the rooms that group them (Room.java). The three
    classes refer to one another, so they share a module. */
module Tiles {
  import opened Util

  const WIDTH: int := 24
  const HEIGHT: int := 25
  const PASSAGEWAY: string := "Passageway"

  predicate InGrid(row: int, col: int)
  {
    0 <= row < HEIGHT && 0 <= col < WIDTH
  }

  /** The four keys W, A, S and D of the console front end. */
  datatype Direction = Up | Left | Down | Right

  /** The square one step away in direction d; it may lie off the grid. */
  function RowStep(row: int, d: Direction): int
  {
    match d
    case Up => row - 1
    case Down => row + 1
    case _ => row
  }

  function ColStep(col: int, d: Direction): int
  {
    match d
    case Left => col - 1
    case Right => col + 1
    case _ => col
  }

  /** The direction a key of Board.movePlayer's switch stands for. */
  function KeyDirection(key: string): (r: Option<Direction>)
    ensures r == Some(Up) <==> key == "W"
    ensures r == Some(Left) <==> key == "A"
    ensures r == Some(Down) <==> key == "S"
    ensures r == Some(Right) <==> key == "D"
    ensures r.None? <==> key !in {"W", "A", "S", "D"}
  {
    if key == "W" then Some(Up)
    else if key == "A" then Some(Left)
    else if key == "S" then Some(Down)
    else if key == "D" then Some(Right)
    else None
  }

  // ------------------------------------------------------------ Location.java

  class Location {
    const room: Room?
    const northWall: bool
    const eastWall: bool
    const southWall: bool
    const westWall: bool
    /** point.x */
    const col: int
    /** point.y */
    const row: int
    var occupied: bool
    var piece: Piece?

    /** A square takes a wall on each side whose letter occurs in the wall
        code, and sits at column boardColumn of row boardRow. */
    constructor (room: Room?, walls: string, boardRow: int, boardColumn: int)
      ensures this.room == room
      ensures northWall <==> 'N' in walls
      ensures eastWall <==> 'E' in walls
      ensures southWall <==> 'S' in walls
      ensures westWall <==> 'W' in walls
      ensures col == boardColumn && row == boardRow
      ensures !occupied && piece == null
    {
      this.room := room;
      northWall := 'N' in walls;
      eastWall := 'E' in walls;
      southWall := 'S' in walls;
      westWall := 'W' in walls;
      col := boardColumn;
      row := boardRow;
      occupied := false;
      piece := null;
    }

    /** The wall flag on side d of this square. */
    function WallOn(d: Direction): bool
    {
      match d
      case Up => northWall
      case Right => eastWall
      case Down => southWall
      case Left => westWall
    }

    predicate CanMoveUp(grid: array2<Location>)
      requires grid.Length0 == HEIGHT && grid.Length1 == WIDTH && InGrid(row, col)
      reads grid, if row > 0 then {grid[row - 1, col]} else {}
    {
      if row <= 0 then false else !northWall && !grid[row - 1, col].occupied
    }

    predicate CanMoveDown(grid: array2<Location>)
      requires grid.Length0 == HEIGHT && grid.Length1 == WIDTH && InGrid(row, col)
      reads grid, if row < HEIGHT - 1 then {grid[row + 1, col]} else {}
    {
      if row >= HEIGHT - 1 then false else !southWall && !grid[row + 1, col].occupied
    }

    predicate CanMoveRight(grid: array2<Location>)
      requires grid.Length0 == HEIGHT && grid.Length1 == WIDTH && InGrid(row, col)
      reads grid, if col < WIDTH - 1 then {grid[row, col + 1]} else {}
    {
      if col >= WIDTH - 1 then false else !eastWall && !grid[row, col + 1].occupied
    }

    predicate CanMoveLeft(grid: array2<Location>)
      requires grid.Length0 == HEIGHT && grid.Length1 == WIDTH && InGrid(row, col)
      reads grid, if col > 0 then {grid[row, col - 1]} else {}
    {
      if col <= 0 then false else !westWall && !grid[row, col - 1].occupied
    }

    /** The check Board.movePlayer runs for the key it was given. */
    predicate CanMove(d: Direction, grid: array2<Location>)
      requires grid.Length0 == HEIGHT && grid.Length1 == WIDTH && InGrid(row, col)
      reads grid, if InGrid(RowStep(row, d), ColStep(col, d)) then {grid[RowStep(row, d), ColStep(col, d)]} else {}
      ensures CanMove(d, grid) ==> InGrid(RowStep(row, d), ColStep(col, d))
    {
      match d
      case Up => CanMoveUp(grid)
      case Down => CanMoveDown(grid)
      case Right => CanMoveRight(grid)
      case Left => CanMoveLeft(grid)
    }

    /** The four hand-written checks agree with one rule for every direction:
        a step is allowed exactly when the neighbouring square exists, this
        square has no wall on that side (the neighbour's own walls are never
        consulted) and the neighbour is not occupied. */
    lemma CanMoveRule(d: Direction, grid: array2<Location>)
      requires grid.Length0 == HEIGHT && grid.Length1 == WIDTH && InGrid(row, col)
      ensures CanMove(d, grid) <==>
                && InGrid(RowStep(row, d), ColStep(col, d))
                && !WallOn(d)
                && !grid[RowStep(row, d), ColStep(col, d)].occupied
    {
    }
  }

  // --------------------------------------------------------------- Piece.java

  class Piece {
    const icon: string
    var location: Location

    /** A new piece marks its start square occupied by itself. */
    constructor (icon: string, loc: Location)
      modifies loc
      ensures this.icon == icon && location == loc
      ensures loc.occupied && loc.piece == this
    {
      this.icon := icon;
      location := loc;
      new;
      loc.occupied := true;
      loc.piece := this;
    }

    /** Moves the piece: the square it leaves is emptied, the square it
        reaches points back at it. Nothing checks that loc was free. */
    method SetLocation(loc: Location)
      modifies this, location, loc
      ensures location == loc && loc.occupied && loc.piece == this
      ensures old(location) != loc ==> !old(location).occupied && old(location).piece == null
    {
      location.occupied := false;
      location.piece := null;
      location := loc;
      loc.occupied := true;
      loc.piece := this;
    }
  }

  // ---------------------------------------------------------------- Room.java

  class Room {
    const name: string
    var locations: set<Location>
    var entrances: set<Location>
    var exits: set<Location>

    constructor (name: string)
      ensures this.name == name
      ensures locations == {} && entrances == {} && exits == {}
    {
      this.name := name;
      locations, entrances, exits := {}, {}, {};
    }

    /** The exits that no piece stands on. */
    ghost function FreeExits(): set<Location>
      reads this, exits
    {
      set l | l in exits && !l.occupied
    }

    /** The squares a piece may be put on when it is placed in the room:
        free squares of the room that are not entrances. */
    ghost function FreeInterior(): set<Location>
      reads this, locations
    {
      set l | l in locations && !l.occupied && l !in entrances
    }

    method GetUnoccupiedExits() returns (r: set<Location>)
      ensures forall l :: l in r <==> l in exits && !l.occupied
      ensures r == FreeExits()
    {
      r := {};
      var todo := exits;
      while todo != {}
        invariant todo <= exits
        invariant forall l :: l in r <==> l in exits && l !in todo && !l.occupied
        decreases todo
      {
        var l :| l in todo;
        if !l.occupied {
          r := r + {l};
        }
        todo := todo - {l};
      }
    }

    /** A player may roll in the passageway, and elsewhere only while some
        exit of the room is free. */
    method PlayerCanRoll() returns (b: bool)
      ensures b <==> name == PASSAGEWAY || FreeExits() != {}
    {
      if name == PASSAGEWAY {
        return true;
      }
      var todo := exits;
      while todo != {}
        invariant todo <= exits
        invariant forall l :: l in exits && l !in todo ==> l.occupied
        decreases todo
      {
        var l :| l in todo;
        if !l.occupied {
          assert l in FreeExits();
          return true;
        }
        todo := todo - {l};
      }
      assert forall l :: l in exits ==> l.occupied;
      return false;
    }

    method AddLocation(location: Location)
      modifies this
      ensures locations == old(locations) + {location}
      ensures entrances == old(entrances) && exits == old(exits)
    {
      locations := locations + {location};
    }

    method AddEntrance(location: Location)
      modifies this
      ensures entrances == old(entrances) + {location}
      ensures locations == old(locations) && exits == old(exits)
    {
      entrances := entrances + {location};
    }

    method AddExit(location: Location)
      modifies this
      ensures exits == old(exits) + {location}
      ensures locations == old(locations) && entrances == old(entrances)
    {
      exits := exits + {location};
    }

    /** Looks at the room's squares in an arbitrary order (the Java code
        shuffles them) and returns the first free square that is not an
        entrance; null only when there is none. */
    method GetRandomRoomLocation() returns (r: Location?)
      ensures r != null ==> r in locations && !r.occupied && r !in entrances
      ensures r == null <==> FreeInterior() == {}
    {
      var todo := locations;
      while todo != {}
        invariant todo <= locations
        invariant forall l :: l in locations && l !in todo ==> l.occupied || l in entrances
        decreases todo
      {
        var l :| l in todo;
        if !l.occupied && l !in entrances {
          assert l in FreeInterior();
          return l;
        }
        todo := todo - {l};
      }
      assert forall l :: l in locations ==> l.occupied || l in entrances;
      return null;
    }
  }
}
