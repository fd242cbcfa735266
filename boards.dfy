/** The board (Board.java): a 25 by 24 grid of squares, the rooms that group
    them and the pieces that stand on them, together with the rules that move
    pieces around. */
module Boards {
  import opened Util
  import opened Cards
  import opened Tiles

  // ------------------------------------------------------- board file tokens

  /** One comma-separated entry of the board file: the room description
      ("P", "X" or a room name) and the wall code. */
  datatype CellSpec = CellSpec(roomDescription: string, walls: string)

  /** The pieces String.split("_") cuts a string into, before the trailing
      empty pieces are dropped. */
  function UnderscorePieces(s: string): (r: seq<string>)
    ensures |r| >= 1
  {
    if s == [] then [""]
    else
      var rest := UnderscorePieces(s[1..]);
      if s[0] == '_' then [""] + rest else [[s[0]] + rest[0]] + rest[1..]
  }

  function DropTrailingEmpty(p: seq<string>): (r: seq<string>)
    ensures |r| <= |p| && r == p[..|r|]
    ensures r == [] || r[|r| - 1] != ""
  {
    if p != [] && p[|p| - 1] == "" then DropTrailingEmpty(p[..|p| - 1]) else p
  }

  /** String.split("_"): the pieces between underscores, trailing empty
      pieces removed. */
  function SplitUnderscore(s: string): seq<string>
  {
    DropTrailingEmpty(UnderscorePieces(s))
  }

  /** The token parsing of Board.loadBoard: without an underscore the whole
      token is the room description and there are no walls; with one, the
      first two pieces of the split are the description and the wall code.
      A split with fewer than two pieces makes the Java code index past the
      array it produced. */
  function ParseToken(token: string): (r: Result<CellSpec, Fault>)
    ensures '_' !in token ==> r == Ok(CellSpec(token, ""))
    ensures r.Ok? ==> '_' !in r.value.roomDescription && '_' !in r.value.walls
  {
    if '_' in token then
      var parts := SplitUnderscore(token);
      PiecesHaveNoUnderscore(token);
      if |parts| < 2 then Err(MalformedToken) else Ok(CellSpec(parts[0], parts[1]))
    else
      Ok(CellSpec(token, ""))
  }

  /** No piece of a split still holds the separator. */
  lemma {:induction false} PiecesHaveNoUnderscore(s: string)
    ensures forall i :: 0 <= i < |UnderscorePieces(s)| ==> '_' !in UnderscorePieces(s)[i]
  {
    if s != [] {
      PiecesHaveNoUnderscore(s[1..]);
    }
  }

  /** How a square is written in the board file. */
  function TokenOf(c: CellSpec): string
  {
    if c.walls == "" then c.roomDescription else c.roomDescription + "_" + c.walls
  }

  lemma {:induction false} PiecesWithoutUnderscore(s: string)
    requires '_' !in s
    ensures UnderscorePieces(s) == [s]
  {
    if s != [] {
      PiecesWithoutUnderscore(s[1..]);
      assert s[0] != '_';
      assert [s[0]] + s[1..] == s;
    }
  }

  lemma {:induction false} PiecesAfterName(a: string, b: string)
    requires '_' !in a
    ensures UnderscorePieces(a + "_" + b) == [a] + UnderscorePieces(b)
  {
    if a == [] {
      assert a + "_" + b == "_" + b;
      assert ("_" + b)[1..] == b;
    } else {
      assert (a + "_" + b)[1..] == a[1..] + "_" + b;
      PiecesAfterName(a[1..], b);
      assert [a[0]] + a[1..] == a;
    }
  }

  /** Every square written without stray underscores parses back to the
      room description and wall code it was written from. */
  lemma ParseTokenRoundTrip(c: CellSpec)
    requires '_' !in c.roomDescription && '_' !in c.walls
    ensures ParseToken(TokenOf(c)) == Ok(c)
  {
    if c.walls == "" {
    } else {
      var t := c.roomDescription + "_" + c.walls;
      assert t[|c.roomDescription|] == '_';
      PiecesAfterName(c.roomDescription, c.walls);
      PiecesWithoutUnderscore(c.walls);
      assert UnderscorePieces(t) == [c.roomDescription, c.walls];
    }
  }

  /** A token that ends in its only underscore has no wall part, and the
      Java code fails on it. */
  lemma ParseTokenMissingWalls(name: string)
    requires '_' !in name
    ensures ParseToken(name + "_") == Err(MalformedToken)
  {
    assert (name + "_")[|name|] == '_';
    PiecesAfterName(name, "");
    PiecesWithoutUnderscore(name);
    assert name + "_" == name + "_" + "";
  }

  // ------------------------------------------------------------ the board

  /** The rooms Board.setupRooms creates. */
  const ROOM_NAMES: seq<string> := ["Kitchen", "Ball Room", "Conservatory",
    "Billiard Room", "Dining Room", "Library", "Hall", "Lounge", "Study",
    "Cellar", "Passageway"]

  const CELLAR: string := "Cellar"

  /** The character pieces, in the order of Board.setupPieces. */
  const CHARACTER_NAMES: seq<string> := ["Miss Scarlet", "Colonel Mustard", "Mrs White",
    "Mr Green", "Mrs Peacock", "Professor Plum"]
  const CHARACTER_ICONS: seq<string> := ["S", "M", "W", "G", "P", "L"]

  /** The weapon pieces. */
  const WEAPON_NAMES: seq<string> := ["Candlestick", "Dagger", "Lead Pipe", "Revolver",
    "Rope", "Spanner"]
  const WEAPON_ICONS: seq<string> := ["c", "d", "l", "g", "r", "s"]

  lemma CharacterNamesDistinct()
    ensures NoDup(CHARACTER_NAMES)
  {
    assert forall i :: 0 <= i < 6 ==> |CHARACTER_NAMES[i]| == [12, 15, 9, 8, 11, 14][i];
  }

  lemma WeaponNamesDistinct()
    ensures NoDup(WEAPON_NAMES)
  {
    assert forall i :: 0 <= i < 6 ==> |WEAPON_NAMES[i]| == [11, 6, 9, 8, 4, 7][i];
  }

  /** No weapon shares its name with a character: names of equal length
      begin with different letters. */
  lemma CharacterWeaponNamesDisjoint()
    ensures forall i, j :: 0 <= i < 6 && 0 <= j < 6 ==> CHARACTER_NAMES[i] != WEAPON_NAMES[j]
  {
    assert forall i :: 0 <= i < 6 ==>
      |CHARACTER_NAMES[i]| == [12, 15, 9, 8, 11, 14][i] && CHARACTER_NAMES[i][0] == "MCMMMP"[i];
    assert forall j :: 0 <= j < 6 ==>
      |WEAPON_NAMES[j]| == [11, 6, 9, 8, 4, 7][j] && WEAPON_NAMES[j][0] == "CDLRRS"[j];
  }

  /** A set of at least two squares keeps one after any square is taken. */
  lemma FreeAfterOne(s: set<Location>, x: Location)
    requires |s| >= 2
    ensures s - {x} != {}
  {
    if s - {x} == {} {
      assert s <= {x};
      SubsetSize(s, {x});
    }
  }

  lemma {:induction false} SubsetSize(a: set<Location>, b: set<Location>)
    requires a <= b
    ensures |a| <= |b|
  {
    if a != {} {
      var x :| x in a;
      SubsetSize(a - {x}, b - {x});
    }
  }

  /** A list of distinct room names covering a set of names has one entry
      per name. */
  lemma CountOffered(order: seq<string>, names: set<string>)
    requires NoDup(order) && Elems(order) == names
    ensures |order| == |names|
  {
    ElemsCount(order);
  }

  predicate LayoutShape(layout: seq<seq<CellSpec>>)
  {
    |layout| == HEIGHT && forall r :: 0 <= r < HEIGHT ==> |layout[r]| == WIDTH
  }

  /** Square (r, c) comes before square (row, col) in row-major order. */
  predicate Before(r: int, c: int, row: int, col: int)
  {
    r < row || (r == row && c < col)
  }

  class Board {
    const currentBoard: array2<Location>
    var rooms: map<string, Room>
    var pieces: map<string, Piece>
    var exitLabelsRequired: bool
    var exitsToLabel: seq<Location>
    /** The squares of the grid. */
    ghost var Cells: set<Location>

    /** Every grid position holds its own square, and the squares are
        exactly the grid's. */
    ghost predicate Shape()
      reads this`Cells, currentBoard
    {
      && currentBoard.Length0 == HEIGHT && currentBoard.Length1 == WIDTH
      && (forall r, c :: InGrid(r, c) ==>
            currentBoard[r, c] in Cells && currentBoard[r, c].row == r && currentBoard[r, c].col == c)
      && (forall l :: l in Cells ==> InGrid(l.row, l.col) && currentBoard[l.row, l.col] == l)
    }

    /** Every room is filed under its own name and the passageway exists. */
    ghost predicate RoomsNamed()
      reads this`rooms
    {
      && PASSAGEWAY in rooms
      && forall k :: k in rooms ==> rooms[k].name == k
    }

    /** The rooms and the squares agree: a room's squares name it as their
        room, every square with a room belongs to a registered room, and
        entrances and exits are squares of the grid. */
    ghost predicate RoomsOk()
      reads this`rooms, this`Cells, rooms.Values
    {
      && RoomsNamed()
      && (forall k :: k in rooms ==>
            rooms[k].locations <= Cells && rooms[k].entrances <= Cells && rooms[k].exits <= Cells)
      && (forall k, l :: k in rooms && l in rooms[k].locations ==> l.room == rooms[k])
      && (forall l :: l in Cells && l.room != null ==>
            l.room.name in rooms && rooms[l.room.name] == l.room && l in l.room.locations)
    }

    /** Occupancy bookkeeping: a square is occupied exactly when it points at
        a piece, that piece stands on it, and every piece stands on a square
        that points back at it. So no square holds two pieces. */
    ghost predicate PiecesOk()
      reads this`pieces, this`Cells, Cells, pieces.Values
    {
      && (forall k :: k in pieces ==>
            pieces[k].location in Cells && pieces[k].location.piece == pieces[k])
      && (forall l :: l in Cells ==> (l.occupied <==> l.piece != null))
      && (forall l :: l in Cells && l.piece != null ==> l.piece in pieces.Values && l.piece.location == l)
    }

    ghost predicate Valid()
      reads this`rooms, this`pieces, this`Cells, currentBoard, Cells, rooms.Values, pieces.Values
    {
      Shape() && RoomsOk() && PiecesOk()
    }

    /** The room a room description names: "P" is the passageway, "X" is
        no room, anything else is looked up by name. */
    function RoomFor(description: string): (r: Room?)
      reads this`rooms
      ensures r != null ==> r in rooms.Values
      ensures description == "X" ==> r == null
      ensures description == "P" ==>
                (r != null <==> PASSAGEWAY in rooms) && (PASSAGEWAY in rooms ==> r == rooms[PASSAGEWAY])
      ensures description != "P" && description != "X" ==>
                (r != null <==> description in rooms) && (description in rooms ==> r == rooms[description])
    {
      if description == "P" then
        (if PASSAGEWAY in rooms then rooms[PASSAGEWAY] else null)
      else if description != "X" && description in rooms then rooms[description]
      else null
    }

    /** Square l was built from entry spec of the board file. */
    ghost predicate Matches(l: Location, spec: CellSpec)
      reads this`rooms
    {
      && l.room == RoomFor(spec.roomDescription)
      && (l.northWall <==> 'N' in spec.walls)
      && (l.eastWall <==> 'E' in spec.walls)
      && (l.southWall <==> 'S' in spec.walls)
      && (l.westWall <==> 'W' in spec.walls)
    }

    /** The squares up to (row, col) in row-major order have been built
        from their board-file entries, and they are the only squares. */
    ghost predicate GridLoaded(layout: seq<seq<CellSpec>>, row: int, col: int)
      requires LayoutShape(layout)
      reads this`rooms, this`Cells, currentBoard, Cells
    {
      && currentBoard.Length0 == HEIGHT && currentBoard.Length1 == WIDTH
      && (forall r, c :: InGrid(r, c) && Before(r, c, row, col) ==>
            && currentBoard[r, c] in Cells
            && currentBoard[r, c].row == r && currentBoard[r, c].col == c
            && Matches(currentBoard[r, c], layout[r][c]))
      && (forall l :: l in Cells ==>
            && InGrid(l.row, l.col) && Before(l.row, l.col, row, col)
            && currentBoard[l.row, l.col] == l && !l.occupied && l.piece == null)
    }

    /** Every room holds exactly the squares of done that name it, and has
        no entrances or exits yet. */
    ghost predicate RoomsLoaded(done: set<Location>)
      reads this`rooms, rooms.Values
    {
      forall k :: k in rooms ==>
        && rooms[k].locations == (set l | l in done && l.room == rooms[k])
        && rooms[k].entrances == {} && rooms[k].exits == {}
    }

    ghost predicate Loaded(layout: seq<seq<CellSpec>>, row: int, col: int)
      requires LayoutShape(layout)
      reads this`rooms, this`Cells, currentBoard, Cells, rooms.Values
    {
      GridLoaded(layout, row, col) && RoomsLoaded(Cells)
    }

    /** Board.setupRooms followed by Board.loadBoard on the parsed board
        file: the eleven rooms, then one square per grid position, each
        added to the room its description names. */
    constructor (layout: seq<seq<CellSpec>>)
      requires LayoutShape(layout)
      ensures Valid() && fresh(Cells) && fresh(rooms.Values)
      ensures rooms.Keys == Elems(ROOM_NAMES) && pieces == map[]
      ensures !exitLabelsRequired && exitsToLabel == []
      ensures forall r, c :: InGrid(r, c) ==> Matches(currentBoard[r, c], layout[r][c])
      ensures forall l :: l in Cells ==> !l.occupied
      ensures forall k :: k in rooms ==>
                && rooms[k].locations == (set l | l in Cells && l.room == rooms[k])
                && rooms[k].entrances == {} && rooms[k].exits == {}
    {
      var named := SetupRooms();
      var blank := new Location(null, "", 0, 0);
      currentBoard := new Location[HEIGHT, WIDTH]((r, c) => blank);
      rooms := named;
      pieces := map[];
      exitLabelsRequired := false;
      exitsToLabel := [];
      Cells := {};
      new;
      LoadBoard(layout);
    }

    /** Board.loadBoard: the grid, row by row. The board it leaves is valid
        and empty, and every room holds exactly the squares naming it. */
    method LoadBoard(layout: seq<seq<CellSpec>>)
      requires LayoutShape(layout) && RoomsNamed() && pieces == map[] && Cells == {}
      requires currentBoard.Length0 == HEIGHT && currentBoard.Length1 == WIDTH
      requires forall k :: k in rooms ==>
                 rooms[k].locations == {} && rooms[k].entrances == {} && rooms[k].exits == {}
      modifies this`Cells, currentBoard, rooms.Values
      ensures fresh(Cells - old(Cells))
      ensures Valid()
      ensures forall r, c :: InGrid(r, c) ==> Matches(currentBoard[r, c], layout[r][c])
      ensures forall l :: l in Cells ==> !l.occupied
      ensures RoomsLoaded(Cells)
    {
      for row := 0 to HEIGHT
        invariant fresh(Cells - old(Cells))
        invariant Loaded(layout, row, 0)
      {
        LoadRow(layout, row);
      }
      LoadedAll(layout);
    }

    /** One row of Board.loadBoard, left to right. */
    method LoadRow(layout: seq<seq<CellSpec>>, row: int)
      requires LayoutShape(layout) && 0 <= row < HEIGHT
      requires RoomsNamed() && Loaded(layout, row, 0)
      modifies this`Cells, currentBoard, rooms.Values
      ensures fresh(Cells - old(Cells))
      ensures Loaded(layout, row + 1, 0)
    {
      for col := 0 to WIDTH
        invariant fresh(Cells - old(Cells))
        invariant Loaded(layout, row, col)
      {
        LoadCell(layout, row, col);
      }
      LoadedNextRow(layout, row);
    }

    /** One step of Board.loadBoard: the square at (row, col) is built from
        its board-file entry and added to the room it names. */
    method LoadCell(layout: seq<seq<CellSpec>>, row: int, col: int)
      requires LayoutShape(layout) && InGrid(row, col)
      requires RoomsNamed() && Loaded(layout, row, col)
      modifies this`Cells, currentBoard, rooms.Values
      ensures fresh(Cells - old(Cells))
      ensures Loaded(layout, row, col + 1)
    {
      var spec := layout[row][col];
      var currentRoom: Room? := null;
      if spec.roomDescription == "P" {
        currentRoom := rooms[PASSAGEWAY];
      } else if spec.roomDescription != "X" && spec.roomDescription in rooms {
        currentRoom := rooms[spec.roomDescription];
      }
      assert currentRoom == RoomFor(spec.roomDescription);
      var loc := new Location(currentRoom, spec.walls, row, col);
      StoreSquare(layout, row, col, loc);
      FileSquare(loc, old(Cells));
    }

    /** The grid half of a loadBoard step: the square goes into the array. */
    method StoreSquare(layout: seq<seq<CellSpec>>, row: int, col: int, loc: Location)
      requires LayoutShape(layout) && InGrid(row, col) && GridLoaded(layout, row, col)
      requires loc !in Cells && loc.row == row && loc.col == col
      requires Matches(loc, layout[row][col]) && !loc.occupied && loc.piece == null
      modifies this`Cells, currentBoard
      ensures Cells == old(Cells) + {loc}
      ensures GridLoaded(layout, row, col + 1)
    {
      currentBoard[row, col] := loc;
      Cells := Cells + {loc};
      forall r, c | InGrid(r, c) && Before(r, c, row, col + 1)
        ensures && currentBoard[r, c] in Cells
                && currentBoard[r, c].row == r && currentBoard[r, c].col == c
                && Matches(currentBoard[r, c], layout[r][c])
      {
        if r != row || c != col {
          assert Before(r, c, row, col);
        }
      }
      forall l | l in Cells
        ensures && InGrid(l.row, l.col) && Before(l.row, l.col, row, col + 1)
                && currentBoard[l.row, l.col] == l && !l.occupied && l.piece == null
      {
        if l != loc {
          assert l in old(Cells);
        }
      }
    }

    /** The room half of a loadBoard step: a square with a room is added to
        that room's locations. */
    method FileSquare(loc: Location, ghost done: set<Location>)
      requires RoomsNamed() && RoomsLoaded(done) && loc !in done
      requires loc.room != null ==> loc.room in rooms.Values
      modifies rooms.Values
      ensures RoomsLoaded(done + {loc})
    {
      if loc.room != null {
        loc.room.AddLocation(loc);
      }
      forall k | k in rooms
        ensures rooms[k].locations == (set l | l in done + {loc} && l.room == rooms[k])
      {
        if rooms[k] == loc.room {
          assert rooms[k].locations == old(rooms[k].locations) + {loc};
        } else {
          assert rooms[k].locations == old(rooms[k].locations);
        }
      }
    }

    lemma LoadedNextRow(layout: seq<seq<CellSpec>>, row: int)
      requires LayoutShape(layout) && 0 <= row < HEIGHT
      requires Loaded(layout, row, WIDTH)
      ensures Loaded(layout, row + 1, 0)
    {
      assert forall r, c :: InGrid(r, c) ==> (Before(r, c, row, WIDTH) <==> Before(r, c, row + 1, 0));
    }

    lemma LoadedAll(layout: seq<seq<CellSpec>>)
      requires LayoutShape(layout) && RoomsNamed() && pieces == map[]
      requires Loaded(layout, HEIGHT, 0)
      ensures Valid()
      ensures forall r, c :: InGrid(r, c) ==> Matches(currentBoard[r, c], layout[r][c])
      ensures forall l :: l in Cells ==> !l.occupied
    {
      forall l | l in Cells && l.room != null
        ensures l.room.name in rooms && rooms[l.room.name] == l.room && l in l.room.locations
      {
        var r, c := l.row, l.col;
        assert Matches(currentBoard[r, c], layout[r][c]);
      }
    }

    // ------------------------------------------------ queries on the players

    /** Board.getPlayerLocation: the square the character's piece stands on,
        which is occupied by that very piece. */
    function GetPlayerLocation(characterName: string): (r: Location)
      requires Valid() && characterName in pieces
      reads this, currentBoard, Cells, rooms.Values, pieces.Values
      ensures r in Cells && r.occupied && r.piece == pieces[characterName]
    {
      pieces[characterName].location
    }

    /** Board.checkPlayerInRoom: the character stands in a room, and that
        room is not the passageway. */
    function CheckPlayerInRoom(characterName: string): (b: bool)
      requires Valid() && characterName in pieces
      reads this, currentBoard, Cells, rooms.Values, pieces.Values
      ensures b <==> GetPlayerLocation(characterName).room != null
                     && GetPlayerLocation(characterName).room.name != PASSAGEWAY
    {
      var room := pieces[characterName].location.room;
      room != null && room != rooms[PASSAGEWAY]
    }

    /** Board.getPlayerRoom looked up by the character's name: the room the
        character's square belongs to, which is a registered room holding that
        square, or null outside every room. */
    function GetPlayerRoom(characterName: string): (r: Room?)
      requires Valid() && characterName in pieces
      reads this, currentBoard, Cells, rooms.Values, pieces.Values
      ensures r != null ==> r.name in rooms && rooms[r.name] == r
      ensures r != null ==> GetPlayerLocation(characterName) in r.locations
      ensures r == null <==> GetPlayerLocation(characterName).room == null
    {
      pieces[characterName].location.room
    }

    /** Board.getPlayerRoom as written: the pieces are filed under character
        names, but the lookup uses the player's name; a name with no piece
        dereferences null. */
    function GetPlayerRoomAsWritten(playerName: string): (r: Result<Room?, Fault>)
      requires Valid()
      reads this, currentBoard, Cells, rooms.Values, pieces.Values
      ensures r.Err? <==> playerName !in pieces
      ensures r.Ok? ==> r.value == GetPlayerRoom(playerName)
    {
      if playerName in pieces then Ok(pieces[playerName].location.room) else Err(NoPieceNamed)
    }

    /** Whenever a player's name differs from every piece name, the lookup as
        written fails, although the player's character stands on the board. */
    lemma GetPlayerRoomByPlayerNameFails(playerName: string, characterName: string)
      requires Valid() && characterName in pieces && playerName !in pieces
      ensures GetPlayerRoomAsWritten(playerName) == Err(NoPieceNamed)
      ensures GetPlayerRoom(characterName) == GetPlayerLocation(characterName).room
    {
    }

    // ------------------------------------------------------- moving pieces

    /** Piece.setLocation under the board's bookkeeping: the piece moves onto
        a free square (or stays), its old square is emptied, and every other
        piece and square is left as it was. */
    method Relocate(p: Piece, loc: Location)
      requires Valid() && p in pieces.Values && loc in Cells
      requires !loc.occupied || loc == p.location
      modifies p, p.location, loc
      ensures Valid()
      ensures p.location == loc && loc.occupied && loc.piece == p
      ensures old(p.location) != loc ==> !old(p.location).occupied && old(p.location).piece == null
      ensures forall q :: q in pieces.Values && q != p ==> q.location == old(q.location)
      ensures forall l :: l in Cells && l != old(p.location) && l != loc ==>
                l.occupied == old(l.occupied) && l.piece == old(l.piece)
    {
      ghost var from := p.location;
      p.SetLocation(loc);
      forall l | l in Cells && l.piece != null
        ensures l.piece in pieces.Values && l.piece.location == l
      {
        if l != loc && l != from {
          assert l.piece == old(l.piece);
        }
      }
    }

    /** Board.movePlayer(player, location): moves the character's piece onto
        an already validated square. */
    method MovePlayerTo(characterName: string, location: Location)
      requires Valid() && characterName in pieces && location in Cells
      requires !location.occupied || location == GetPlayerLocation(characterName)
      modifies Cells, pieces.Values
      ensures Valid()
      ensures GetPlayerLocation(characterName) == location
      ensures old(GetPlayerLocation(characterName)) != location ==> !old(GetPlayerLocation(characterName)).occupied
      ensures forall k :: k in pieces && pieces[k] != pieces[characterName] ==>
                pieces[k].location == old(pieces[k].location)
    {
      Relocate(pieces[characterName], location);
    }

    /** The square a step in direction d from square here leads to, before
        the room rule is applied. */
    ghost function StepTarget(here: Location, d: Direction): Location
      requires Valid() && here in Cells && here.CanMove(d, currentBoard)
      reads this, currentBoard, Cells, rooms.Values, pieces.Values
    {
      currentBoard[RowStep(here.row, d), ColStep(here.col, d)]
    }

    /** dest is a square a step in direction d from here may end on: the
        neighbouring square itself in the passageway, and otherwise any free
        square of the neighbour's room that is not an entrance. */
    ghost predicate StepLandsOn(here: Location, d: Direction, dest: Location)
      requires Valid() && here in Cells
      reads this, currentBoard, Cells, rooms.Values, pieces.Values
    {
      && here.CanMove(d, currentBoard)
      && StepTarget(here, d).room != null
      && if StepTarget(here, d).room.name == PASSAGEWAY then dest == StepTarget(here, d)
         else dest in StepTarget(here, d).room.FreeInterior()
    }

    /** The target of the step lies in no room. */
    ghost predicate StepOffRooms(here: Location, d: Direction)
      requires Valid() && here in Cells
      reads this, currentBoard, Cells, rooms.Values, pieces.Values
    {
      here.CanMove(d, currentBoard) && StepTarget(here, d).room == null
    }

    /** The target of the step is a room other than the passageway with no
        free square left. */
    ghost predicate StepIntoFullRoom(here: Location, d: Direction)
      requires Valid() && here in Cells
      reads this, currentBoard, Cells, rooms.Values, pieces.Values
    {
      && here.CanMove(d, currentBoard)
      && StepTarget(here, d).room != null
      && StepTarget(here, d).room.name != PASSAGEWAY
      && StepTarget(here, d).room.FreeInterior() == {}
    }

    /** Board.movePlayer(player, direction, visited, history): -1 when the
        key's move check fails, 1 when the square reached was visited earlier
        this turn and is not the one just left, 0 after moving the piece. */
    method MovePlayer(characterName: string, direction: string,
                      locationsVisited: set<Location>, prevLocations: seq<Location>)
      returns (r: Result<int, Fault>)
      requires Valid() && characterName in pieces
      modifies Cells, pieces.Values
      ensures Valid()
      ensures r == Err(UnknownDirection) <==> KeyDirection(direction).None?
      ensures r.Err? ==> r.error in {UnknownDirection, CellWithoutRoom, RoomFull}
      ensures r == Ok(-1) <==>
                KeyDirection(direction).Some? &&
                !old(GetPlayerLocation(characterName).CanMove(KeyDirection(direction).value, currentBoard))
      ensures r == Err(CellWithoutRoom) <==>
                KeyDirection(direction).Some? &&
                old(StepOffRooms(GetPlayerLocation(characterName), KeyDirection(direction).value))
      ensures r == Err(RoomFull) <==>
                KeyDirection(direction).Some? &&
                old(StepIntoFullRoom(GetPlayerLocation(characterName), KeyDirection(direction).value))
      ensures r.Ok? ==> r.value in {-1, 0, 1}
      ensures r != Ok(0) ==> unchanged(Cells) && unchanged(pieces.Values)
      ensures r == Ok(1) ==>
                && prevLocations != []
                && KeyDirection(direction).Some?
                && exists dest :: dest in locationsVisited && dest != prevLocations[|prevLocations| - 1] &&
                     old(StepLandsOn(GetPlayerLocation(characterName), KeyDirection(direction).value, dest))
      ensures r == Ok(0) ==>
                var dest := GetPlayerLocation(characterName);
                && KeyDirection(direction).Some?
                && old(StepLandsOn(GetPlayerLocation(characterName), KeyDirection(direction).value, dest))
                && !(prevLocations != [] && dest != prevLocations[|prevLocations| - 1] && dest in locationsVisited)
                && dest != old(GetPlayerLocation(characterName))
                && !old(GetPlayerLocation(characterName)).occupied
      ensures forall k :: k in pieces && pieces[k] != pieces[characterName] ==>
                pieces[k].location == old(pieces[k].location)
    {
      var dir := KeyDirection(direction);
      if dir.None? {
        return Err(UnknownDirection);
      }
      var destination;
      r, destination := PlanStep(pieces[characterName].location, dir.value, locationsVisited, prevLocations);
      if r == Ok(0) {
        MovePlayerTo(characterName, destination);
      }
    }

    /** The switch of Board.movePlayer for one direction and the history
        test that follows it, before anything moves: -1 when the move check
        fails, a fault for a step off the rooms or into a full room, 1 for a
        square visited earlier this turn that is not the one just left, and
        0 with the square the piece is to move to. */
    method PlanStep(here: Location, d: Direction, locationsVisited: set<Location>, prevLocations: seq<Location>)
      returns (r: Result<int, Fault>, destination: Location)
      requires Valid() && here in Cells
      ensures r.Err? ==> r.error in {CellWithoutRoom, RoomFull}
      ensures r == Ok(-1) <==> !here.CanMove(d, currentBoard)
      ensures r == Err(CellWithoutRoom) <==> StepOffRooms(here, d)
      ensures r == Err(RoomFull) <==> StepIntoFullRoom(here, d)
      ensures r.Ok? ==> r.value in {-1, 0, 1}
      ensures r == Ok(1) ==>
                && prevLocations != [] && destination in locationsVisited
                && destination != prevLocations[|prevLocations| - 1]
                && StepLandsOn(here, d, destination)
      ensures r == Ok(0) ==>
                && StepLandsOn(here, d, destination)
                && !(prevLocations != [] && destination != prevLocations[|prevLocations| - 1]
                     && destination in locationsVisited)
                && destination in Cells && !destination.occupied
    {
      destination := here;
      if !here.CanMove(d, currentBoard) {
        return Ok(-1), here;
      }
      var landing := Landing(here, d);
      if landing.Err? {
        return Err(landing.error), here;
      }
      destination := landing.value;
      if prevLocations != [] && prevLocations[|prevLocations| - 1] != destination && destination in locationsVisited {
        return Ok(1), destination;
      }
      return Ok(0), destination;
    }

    /** The square a step from here in direction d ends on: the neighbouring
        square in the passageway, a free square of the neighbour's room
        otherwise. */
    method Landing(here: Location, d: Direction) returns (r: Result<Location, Fault>)
      requires Valid() && here in Cells && here.CanMove(d, currentBoard)
      ensures r == Err(CellWithoutRoom) <==> StepOffRooms(here, d)
      ensures r == Err(RoomFull) <==> StepIntoFullRoom(here, d)
      ensures r.Err? ==> r.error in {CellWithoutRoom, RoomFull}
      ensures r.Ok? ==> StepLandsOn(here, d, r.value) && r.value in Cells && !r.value.occupied
    {
      var destination := currentBoard[RowStep(here.row, d), ColStep(here.col, d)];
      if destination.room == null {
        return Err(CellWithoutRoom);
      }
      if destination.room.name != PASSAGEWAY {
        var inside := destination.room.GetRandomRoomLocation();
        if inside == null {
          return Err(RoomFull);
        }
        destination := inside;
      }
      return Ok(destination);
    }

    /** The room a suggestion names, null when no room has that name (the
        result of `rooms.get`). */
    function NamedRoom(name: string): (r: Room?)
      reads this`rooms
      ensures r != null <==> name in rooms
      ensures r != null ==> r == rooms[name]
    {
      if name in rooms then rooms[name] else null
    }

    /** Piece p can be brought into the suggested room: it is in it already,
        or the room exists and has a free square that is not an entrance. */
    ghost predicate CanBringIn(p: Piece, suggestedRoom: Room?)
      reads p, p.location, suggestedRoom
      reads if suggestedRoom != null then suggestedRoom.locations else {}
    {
      p.location.room == suggestedRoom || (suggestedRoom != null && suggestedRoom.FreeInterior() != {})
    }

    /** Board.movePiece: the suggested character and weapon are each put on a
        free square of the suggested room, unless already in it. The lookups
        dereference null when a name is unknown; the weapon's lookup fails
        only after the character has been moved, so the weapon finds the
        room with one free square less. */
    method MovePiece(suggestion: CardTuple) returns (r: Result<(), Fault>)
      requires Valid()
      modifies Cells, pieces.Values
      ensures Valid()
      ensures r.Err? ==> r.error in {NoPieceNamed, NoRoomNamed, RoomFull}
      ensures suggestion.characterCard.name !in pieces ==> unchanged(Cells) && unchanged(pieces.Values)
      ensures var who := suggestion.characterCard.name;
              var what := suggestion.weaponCard.name;
              r == Err(NoPieceNamed) <==>
                who !in pieces || (what !in pieces && old(CanBringIn(pieces[who], NamedRoom(suggestion.roomCard.name))))
      ensures var who := suggestion.characterCard.name;
              var suggestedRoom := NamedRoom(suggestion.roomCard.name);
              who in pieces && !old(CanBringIn(pieces[who], suggestedRoom)) ==>
                && r == Err(if suggestedRoom == null then NoRoomNamed else RoomFull)
                && unchanged(Cells) && unchanged(pieces.Values)
      ensures var who := suggestion.characterCard.name;
              var what := suggestion.weaponCard.name;
              var suggestedRoom := NamedRoom(suggestion.roomCard.name);
              who in pieces && old(CanBringIn(pieces[who], suggestedRoom)) ==>
                && pieces[who].location.room == suggestedRoom
                && (old(pieces[who].location.room) == suggestedRoom ==> pieces[who].location == old(pieces[who].location))
                && (what !in pieces ==>
                      forall k :: k in pieces && pieces[k] != pieces[who] ==> pieces[k].location == old(pieces[k].location))
      ensures var who := suggestion.characterCard.name;
              var what := suggestion.weaponCard.name;
              var suggestedRoom := NamedRoom(suggestion.roomCard.name);
              who in pieces && what in pieces && old(CanBringIn(pieces[who], suggestedRoom)) ==>
                && (r == Err(NoRoomNamed) <==> suggestedRoom == null && old(pieces[what].location.room) != null)
                && (r == Err(RoomFull) <==>
                      && suggestedRoom != null && pieces[what] != pieces[who]
                      && old(pieces[what].location.room) != suggestedRoom
                      && old(suggestedRoom.FreeInterior()) - {pieces[who].location} == {})
                && (r.Ok? ==> pieces[what].location.room == suggestedRoom)
                && (old(pieces[what].location.room) == suggestedRoom ==> pieces[what].location == old(pieces[what].location))
                && forall k :: k in pieces && pieces[k] != pieces[who] && pieces[k] != pieces[what] ==>
                     pieces[k].location == old(pieces[k].location)
      ensures var suggestedRoom := NamedRoom(suggestion.roomCard.name);
              (&& suggestion.characterCard.name in pieces && suggestion.weaponCard.name in pieces
               && suggestedRoom != null && |old(suggestedRoom.FreeInterior())| >= 2) ==> r.Ok?
    {
      var who, what := suggestion.characterCard.name, suggestion.weaponCard.name;
      var suggestedRoom := NamedRoom(suggestion.roomCard.name);
      if who !in pieces {
        return Err(NoPieceNamed);
      }
      ghost var free := if suggestedRoom != null then suggestedRoom.FreeInterior() else {};
      if |free| >= 2 {
        FreeAfterOne(free, pieces[who].location);
      }
      r := BringIntoRoom(pieces[who], suggestedRoom);
      if r.Err? {
        return;
      }
      if |free| >= 2 {
        FreeAfterOne(free, pieces[who].location);
      }
      r := BringWeaponAlong(who, what, suggestedRoom);
    }

    /** The weapon half of Board.movePiece, once the character stands in the
        suggested room. */
    method BringWeaponAlong(who: string, what: string, suggestedRoom: Room?) returns (r: Result<(), Fault>)
      requires Valid() && who in pieces && pieces[who].location.room == suggestedRoom
      requires suggestedRoom != null ==> suggestedRoom in rooms.Values
      modifies Cells, pieces.Values
      ensures Valid()
      ensures r.Err? ==> r.error in {NoPieceNamed, NoRoomNamed, RoomFull}
      ensures pieces[who].location.room == suggestedRoom
      ensures r == Err(NoPieceNamed) <==> what !in pieces
      ensures what !in pieces ==> unchanged(Cells) && unchanged(pieces.Values)
      ensures what in pieces ==>
                && (r == Err(NoRoomNamed) <==> suggestedRoom == null && old(pieces[what].location.room) != null)
                && (r == Err(RoomFull) <==>
                      && suggestedRoom != null && old(pieces[what].location.room) != suggestedRoom
                      && old(suggestedRoom.FreeInterior()) == {})
                && (r.Ok? ==> pieces[what].location.room == suggestedRoom)
                && (old(pieces[what].location.room) == suggestedRoom ==> pieces[what].location == old(pieces[what].location))
      ensures forall k :: k in pieces && (what !in pieces || pieces[k] != pieces[what]) ==>
                pieces[k].location == old(pieces[k].location)
    {
      if what !in pieces {
        return Err(NoPieceNamed);
      }
      r := BringIntoRoom(pieces[what], suggestedRoom);
    }

    /** One half of Board.movePiece: a piece outside the suggested room is put
        on a free square of it; a piece already inside stays where it is. */
    method BringIntoRoom(p: Piece, suggestedRoom: Room?) returns (r: Result<(), Fault>)
      requires Valid() && p in pieces.Values
      requires suggestedRoom != null ==> suggestedRoom in rooms.Values
      modifies Cells, pieces.Values
      ensures Valid()
      ensures r.Err? ==> r.error in {NoRoomNamed, RoomFull} && unchanged(Cells) && unchanged(pieces.Values)
      ensures r == Err(NoRoomNamed) <==> old(p.location.room) != suggestedRoom && suggestedRoom == null
      ensures r == Err(RoomFull) <==>
                old(p.location.room) != suggestedRoom && suggestedRoom != null && old(suggestedRoom.FreeInterior()) == {}
      ensures r.Ok? ==> p.location.room == suggestedRoom
      ensures r.Ok? && old(p.location.room) != suggestedRoom ==>
                suggestedRoom != null && p.location in old(suggestedRoom.FreeInterior())
      ensures old(p.location.room) == suggestedRoom ==> r.Ok? && p.location == old(p.location)
      ensures suggestedRoom != null && r.Ok? ==>
                suggestedRoom.FreeInterior() == old(suggestedRoom.FreeInterior()) - {p.location}
      ensures forall q :: q in pieces.Values && q != p ==> q.location == old(q.location)
    {
      if p.location.room != suggestedRoom {
        if suggestedRoom == null {
          return Err(NoRoomNamed);
        }
        var target := suggestedRoom.GetRandomRoomLocation();
        if target == null {
          return Err(RoomFull);
        }
        Relocate(p, target);
        assert forall l :: l in suggestedRoom.locations ==> l != old(p.location);
      }
      return Ok(());
    }

    /** Board.labelRoomExits: turns the free exits of the square's room into
        the list of exits to label, and raises the labelling flag (before the
        room is looked at, so also when the square has no room). */
    method LabelRoomExits(location: Location) returns (r: Result<seq<Location>, Fault>)
      requires Valid() && location in Cells
      modifies this
      ensures Valid()
      ensures rooms == old(rooms) && pieces == old(pieces) && Cells == old(Cells)
      ensures exitLabelsRequired
      ensures location.room == null ==> r == Err(CellWithoutRoom) && exitsToLabel == old(exitsToLabel)
      ensures location.room != null ==>
                && r.Ok? && exitsToLabel == r.value
                && Elems(r.value) == location.room.FreeExits() && NoDup(r.value)
    {
      exitLabelsRequired := true;
      if location.room == null {
        return Err(CellWithoutRoom);
      }
      var free := location.room.GetUnoccupiedExits();
      var list := ListOf(free);
      exitsToLabel := list;
      return Ok(list);
    }

    // --------------------------------------------- room entrances and exits

    /** The square one step from l in direction d. */
    function Neighbour(l: Location, d: Direction): Location
      requires currentBoard.Length0 == HEIGHT && currentBoard.Length1 == WIDTH
      requires InGrid(RowStep(l.row, d), ColStep(l.col, d))
      reads currentBoard
    {
      currentBoard[RowStep(l.row, d), ColStep(l.col, d)]
    }

    /** Square l opens onto the passageway on side d: it has no wall on that
        side, and the neighbouring square exists and belongs to the
        passageway. */
    predicate OpensOnto(l: Location, d: Direction)
      requires currentBoard.Length0 == HEIGHT && currentBoard.Length1 == WIDTH
      reads currentBoard
    {
      && !l.WallOn(d)
      && InGrid(RowStep(l.row, d), ColStep(l.col, d))
      && Neighbour(l, d).room != null
      && Neighbour(l, d).room.name == PASSAGEWAY
    }

    /** The bounds test of calculateRoomEntrancesAndExits as written: the
        east and south sides compare with WIDTH and HEIGHT instead of
        WIDTH - 1 and HEIGHT - 1, so a square on the last column (row)
        without an east (south) wall reads past the end of the array. */
    function OpensOntoAsWritten(l: Location, d: Direction): (r: Result<bool, Fault>)
      requires currentBoard.Length0 == HEIGHT && currentBoard.Length1 == WIDTH && InGrid(l.row, l.col)
      reads currentBoard
      ensures r.Err? <==> (d == Right && l.col == WIDTH - 1 && !l.eastWall)
                          || (d == Down && l.row == HEIGHT - 1 && !l.southWall)
      ensures r.Ok? ==> (r.value <==> OpensOnto(l, d))
    {
      var inBounds := match d
        case Up => l.row > 0
        case Right => l.col < WIDTH
        case Down => l.row < HEIGHT
        case Left => l.col > 0;
      if l.WallOn(d) || !inBounds then Ok(false)
      else if !InGrid(RowStep(l.row, d), ColStep(l.col, d)) then Err(IndexOutOfBounds)
      else Ok(Neighbour(l, d).room != null && Neighbour(l, d).room.name == PASSAGEWAY)
    }

    /** Every square of the bottom row without a south wall (every square of
        the last column without an east wall) makes the loop as written
        throw, whatever room it belongs to: the passageway's own squares
        are visited too. */
    lemma EdgeSquaresThrow(l: Location)
      requires Shape() && l in Cells
      ensures l.row == HEIGHT - 1 && !l.southWall ==> OpensOntoAsWritten(l, Down) == Err(IndexOutOfBounds)
      ensures l.col == WIDTH - 1 && !l.eastWall ==> OpensOntoAsWritten(l, Right) == Err(IndexOutOfBounds)
      ensures l.row < HEIGHT - 1 && l.col < WIDTH - 1 ==>
                forall d :: OpensOntoAsWritten(l, d) == Ok(OpensOnto(l, d))
    {
    }

    /** A square is an entrance when it opens onto the passageway on some
        side. */
    predicate IsEntrance(l: Location)
      requires currentBoard.Length0 == HEIGHT && currentBoard.Length1 == WIDTH
      reads currentBoard
    {
      OpensOnto(l, Up) || OpensOnto(l, Right) || OpensOnto(l, Down) || OpensOnto(l, Left)
    }

    /** Square l, when it opens onto the passageway on side d. */
    ghost function SideEntrance(l: Location, d: Direction): set<Location>
      requires currentBoard.Length0 == HEIGHT && currentBoard.Length1 == WIDTH
      reads currentBoard
    {
      if OpensOnto(l, d) then {l} else {}
    }

    /** The passageway square l opens onto on side d, if any. */
    ghost function SideExit(l: Location, d: Direction): set<Location>
      requires currentBoard.Length0 == HEIGHT && currentBoard.Length1 == WIDTH
      reads currentBoard
    {
      if OpensOnto(l, d) then {Neighbour(l, d)} else {}
    }

    /** Square l, when it is an entrance. */
    ghost function EntranceOf(l: Location): set<Location>
      requires currentBoard.Length0 == HEIGHT && currentBoard.Length1 == WIDTH
      reads currentBoard
    {
      SideEntrance(l, Up) + SideEntrance(l, Right) + SideEntrance(l, Down) + SideEntrance(l, Left)
    }

    /** The passageway squares square l opens onto. */
    ghost function ExitsFrom(l: Location): set<Location>
      requires currentBoard.Length0 == HEIGHT && currentBoard.Length1 == WIDTH
      reads currentBoard
    {
      SideExit(l, Up) + SideExit(l, Right) + SideExit(l, Down) + SideExit(l, Left)
    }

    /** The entrances among the squares ls. */
    ghost function EntrancesAmong(ls: set<Location>): set<Location>
      requires currentBoard.Length0 == HEIGHT && currentBoard.Length1 == WIDTH
      reads currentBoard
    {
      set l | l in ls && IsEntrance(l)
    }

    /** The passageway squares the squares ls open onto. */
    ghost function ExitsAmong(ls: set<Location>): set<Location>
      requires currentBoard.Length0 == HEIGHT && currentBoard.Length1 == WIDTH
      reads currentBoard
    {
      set l, e | l in ls && e in ExitsFrom(l) :: e
    }

    /** Board.calculateRoomEntrancesAndExits with the bounds corrected: every
        room, the passageway included, gains as entrances its squares that
        open onto the passageway, and as exits the passageway squares they
        open onto. The squares of the rooms do not change. */
    method CalculateRoomEntrancesAndExits()
      requires Valid()
      modifies rooms.Values
      ensures Valid()
      ensures forall k :: k in rooms ==>
                && rooms[k].locations == old(rooms[k].locations)
                && rooms[k].entrances == old(rooms[k].entrances) + EntrancesAmong(rooms[k].locations)
                && rooms[k].exits == old(rooms[k].exits) + ExitsAmong(rooms[k].locations)
      ensures unchanged(this, currentBoard) && unchanged(pieces.Values)
      ensures old(NoDoorsYet()) ==> forall k :: k in rooms ==>
                && rooms[k].entrances == EntrancesAmong(rooms[k].locations)
                && rooms[k].exits == ExitsAmong(rooms[k].locations)
    {
      var todo := rooms.Keys;
      while todo != {}
        invariant todo <= rooms.Keys
        invariant forall k :: k in rooms ==> rooms[k].locations == old(rooms[k].locations)
        invariant forall k :: k in todo ==>
                    rooms[k].entrances == old(rooms[k].entrances) && rooms[k].exits == old(rooms[k].exits)
        invariant forall k :: k in rooms && k !in todo ==>
                    && rooms[k].entrances == old(rooms[k].entrances) + EntrancesAmong(rooms[k].locations)
                    && rooms[k].exits == old(rooms[k].exits) + ExitsAmong(rooms[k].locations)
        decreases todo
      {
        var k :| k in todo;
        RecordRoomDoors(rooms[k]);
        todo := todo - {k};
      }
      forall k | k in rooms
        ensures rooms[k].entrances <= Cells && rooms[k].exits <= Cells
      {
        ExitsInGrid(rooms[k].locations);
      }
    }

    /** The squares a set of grid squares opens onto are grid squares. */
    lemma ExitsInGrid(ls: set<Location>)
      requires Shape() && ls <= Cells
      ensures ExitsAmong(ls) <= Cells
    {
    }

    /** The entrances found among a room's squares are squares of that room,
        and the exits found are squares of the passageway. */
    lemma DoorsShape(ls: set<Location>)
      requires currentBoard.Length0 == HEIGHT && currentBoard.Length1 == WIDTH
      ensures EntrancesAmong(ls) <= ls
      ensures forall e :: e in ExitsAmong(ls) ==> e.room != null && e.room.name == PASSAGEWAY
    {
      forall e | e in ExitsAmong(ls)
        ensures e.room != null && e.room.name == PASSAGEWAY
      {
        var l :| l in ls && e in ExitsFrom(l);
        assert e in SideExit(l, Up) || e in SideExit(l, Right) || e in SideExit(l, Down) || e in SideExit(l, Left);
      }
    }

    /** The inner loop of calculateRoomEntrancesAndExits: the room's squares
        in some order. */
    method RecordRoomDoors(room: Room)
      requires currentBoard.Length0 == HEIGHT && currentBoard.Length1 == WIDTH
      modifies room
      ensures room.locations == old(room.locations)
      ensures room.entrances == old(room.entrances) + EntrancesAmong(room.locations)
      ensures room.exits == old(room.exits) + ExitsAmong(room.locations)
    {
      var todo := room.locations;
      ghost var locations, entrances, exits := room.locations, room.entrances, room.exits;
      ghost var seen: set<Location> := {};
      while todo != {}
        invariant todo + seen == locations && todo !! seen && room.locations == locations
        invariant room.entrances == entrances + EntrancesAmong(seen)
        invariant room.exits == exits + ExitsAmong(seen)
        decreases todo
      {
        var loc :| loc in todo;
        RecordDoorsAfter(room, loc, seen, entrances, exits);
        todo := todo - {loc};
        seen := seen + {loc};
      }
    }

    /** One step of the inner loop: after the squares seen, the square loc. */
    method RecordDoorsAfter(room: Room, loc: Location, ghost seen: set<Location>,
                            ghost entrances: set<Location>, ghost exits: set<Location>)
      requires currentBoard.Length0 == HEIGHT && currentBoard.Length1 == WIDTH
      requires room.entrances == entrances + EntrancesAmong(seen)
      requires room.exits == exits + ExitsAmong(seen)
      modifies room
      ensures room.locations == old(room.locations)
      ensures room.entrances == entrances + EntrancesAmong(seen + {loc})
      ensures room.exits == exits + ExitsAmong(seen + {loc})
    {
      RecordDoors(room, loc);
      DoorsOfOneMore(seen, loc);
    }

    /** One more square adds its own entrance and exits. */
    lemma DoorsOfOneMore(seen: set<Location>, loc: Location)
      requires currentBoard.Length0 == HEIGHT && currentBoard.Length1 == WIDTH
      ensures EntrancesAmong(seen + {loc}) == EntrancesAmong(seen) + EntranceOf(loc)
      ensures ExitsAmong(seen + {loc}) == ExitsAmong(seen) + ExitsFrom(loc)
    {
    }

    /** The four side checks of one square, north, east, south and west. */
    method RecordDoors(room: Room, loc: Location)
      requires currentBoard.Length0 == HEIGHT && currentBoard.Length1 == WIDTH
      modifies room
      ensures room.locations == old(room.locations)
      ensures room.entrances == old(room.entrances) + EntranceOf(loc)
      ensures room.exits == old(room.exits) + ExitsFrom(loc)
    {
      ghost var entrances, exits := room.entrances, room.exits;
      RecordSide(room, loc, Up);
      RecordSide(room, loc, Right);
      RecordSide(room, loc, Down);
      RecordSide(room, loc, Left);
      assert room.entrances == entrances + SideEntrance(loc, Up) + SideEntrance(loc, Right)
                               + SideEntrance(loc, Down) + SideEntrance(loc, Left);
    }

    /** The check of one side: a square that opens onto the passageway there
        is an entrance of its room, and the passageway square an exit. */
    method RecordSide(room: Room, loc: Location, d: Direction)
      requires currentBoard.Length0 == HEIGHT && currentBoard.Length1 == WIDTH
      modifies room
      ensures room.locations == old(room.locations)
      ensures room.entrances == old(room.entrances) + SideEntrance(loc, d)
      ensures room.exits == old(room.exits) + SideExit(loc, d)
    {
      if OpensOnto(loc, d) {
        room.AddEntrance(loc);
        room.AddExit(Neighbour(loc, d));
      }
    }

    // ------------------------------------------------------ placing pieces

    /** Board.getStartLocationsForWeapons: the rooms are visited in an
        arbitrary order (the Java code shuffles them); every room except the
        passageway and the cellar contributes one free square that is not an
        entrance, or null when it has none. The ghost order records which
        room each entry came from. */
    method GetStartLocationsForWeapons() returns (starting: seq<Location?>, ghost order: seq<string>)
      requires Valid()
      ensures |order| == |starting| && NoDup(order)
      ensures Elems(order) == rooms.Keys - {PASSAGEWAY, CELLAR}
      ensures forall i :: 0 <= i < |starting| ==>
                && order[i] in rooms
                && (starting[i] == null <==> rooms[order[i]].FreeInterior() == {})
                && (starting[i] != null ==> starting[i] in rooms[order[i]].FreeInterior())
      ensures forall i :: 0 <= i < |starting| && starting[i] != null ==>
                && starting[i] in Cells && starting[i].room != null
                && starting[i].room.name != PASSAGEWAY && starting[i].room.name != CELLAR
      ensures forall i, j :: 0 <= i < j < |starting| && starting[i] != null && starting[j] != null ==>
                starting[i].room != starting[j].room
      ensures forall i :: 0 <= i < |starting| && starting[i] == null ==> old(rooms[order[i]].FreeInterior()) == {}
      ensures Valid() && (old(CharactersOnStarts()) ==> CharactersOnStarts())
      ensures old(RoomsHaveSpace({})) ==> forall i :: 0 <= i < |starting| ==> starting[i] != null
    {
      starting, order := [], [];
      var todo := rooms.Keys;
      while todo != {}
        invariant todo <= rooms.Keys
        invariant |order| == |starting| && NoDup(order)
        invariant Elems(order) == (rooms.Keys - todo) - {PASSAGEWAY, CELLAR}
        invariant forall i :: 0 <= i < |starting| ==>
                    && order[i] in rooms
                    && (starting[i] == null <==> rooms[order[i]].FreeInterior() == {})
                    && (starting[i] != null ==> starting[i] in rooms[order[i]].FreeInterior())
        decreases todo
      {
        var k :| k in todo;
        var room := rooms[k];
        if room.name != PASSAGEWAY && room.name != CELLAR {
          var loc := room.GetRandomRoomLocation();
          assert Elems(order + [k]) == Elems(order) + {k};
          starting, order := starting + [loc], order + [k];
        }
        todo := todo - {k};
      }
      forall i, j | 0 <= i < j < |starting| && starting[i] != null && starting[j] != null
        ensures starting[i].room != starting[j].room
      {
        assert starting[i].room == rooms[order[i]] && starting[j].room == rooms[order[j]];
        assert rooms[order[i]].name != rooms[order[j]].name;
      }
      forall i | 0 <= i < |starting| && starting[i] == null
        ensures old(rooms[order[i]].FreeInterior()) == {}
      {
        FreeInteriorKept(rooms[order[i]]);
        assert order[i] in Elems(order);
      }
    }

    /** One `pieces.put(name, new Piece(icon, loc))` of Board.setupPieces. */
    method PlacePiece(name: string, icon: string, loc: Location)
      requires PiecesOk() && name !in pieces && loc in Cells && !loc.occupied
      modifies this`pieces, loc
      ensures PiecesOk()
      ensures pieces.Keys == old(pieces.Keys) + {name} && fresh(pieces[name])
      ensures forall k :: k in old(pieces) ==> pieces[k] == old(pieces[k])
      ensures pieces[name].icon == icon && pieces[name].location == loc
      ensures forall l :: l in Cells && l != loc ==> l.occupied == old(l.occupied)
    {
      ghost var before := pieces;
      var p := new Piece(icon, loc);
      pieces := pieces[name := p];
      forall k | k in pieces
        ensures pieces[k].location in Cells && pieces[k].location.piece == pieces[k]
      {
        if k != name {
          assert pieces[k] == before[k] && pieces[k].location != loc;
        }
      }
      forall l | l in Cells && l.piece != null
        ensures l.piece in pieces.Values && l.piece.location == l
      {
        if l != loc {
          assert l.piece == old(l.piece) && l.piece in before.Values;
          var k :| k in before && before[k] == l.piece;
          assert pieces[k] == l.piece;
        } else {
          assert pieces[name] == p;
        }
      }
    }

    /** The squares a start list offers from position i on are free cells. */
    ghost predicate FreeStarts(starting: seq<Location?>, i: int)
      reads this`Cells, Cells
    {
      forall j :: 0 <= i <= j < |starting| && starting[j] != null ==> starting[j] in Cells && !starting[j].occupied
    }

    /** No square is offered twice. */
    ghost predicate DistinctSquares(starting: seq<Location?>)
    {
      forall i, j :: 0 <= i < j < |starting| && starting[i] != null && starting[j] != null ==>
        starting[i] != starting[j]
    }

    /** The squares lie in pairwise different rooms. */
    ghost predicate DistinctRooms(starting: seq<Location?>)
    {
      forall i, j :: 0 <= i < j < |starting| && starting[i] != null && starting[j] != null ==>
        starting[i].room != starting[j].room
    }

    /** Every character stands on its own start square. */
    ghost predicate CharactersOnStarts()
      requires currentBoard.Length0 == HEIGHT && currentBoard.Length1 == WIDTH
      reads this`pieces, currentBoard, pieces.Values
    {
      && Elems(CHARACTER_NAMES) <= pieces.Keys
      && forall i :: 0 <= i < 6 ==> pieces[CHARACTER_NAMES[i]].location == StartSquare(i)
    }

    /** Every weapon stands in a room other than the passageway and the
        cellar, and no two weapons share a room. */
    ghost predicate WeaponsInRooms()
      reads this`pieces, pieces.Values
    {
      && Elems(WEAPON_NAMES) <= pieces.Keys
      && (forall i :: 0 <= i < 6 ==>
            && pieces[WEAPON_NAMES[i]].location.room != null
            && pieces[WEAPON_NAMES[i]].location.room.name != PASSAGEWAY
            && pieces[WEAPON_NAMES[i]].location.room.name != CELLAR)
      && (forall i, j :: 0 <= i < j < 6 ==>
            pieces[WEAPON_NAMES[i]].location.room != pieces[WEAPON_NAMES[j]].location.room)
    }

    /** The rest of the Board constructor, after the rooms are set up and the
        board file is loaded: setupPieces, then
        calculateRoomEntrancesAndExits. The weapons are placed while no room
        has an entrance yet; the doors are computed only once every piece
        stands. */
    method FinishSetup() returns (r: Result<(), Fault>)
      requires Valid() && pieces == map[] && NoDoorsYet()
      modifies this`pieces, Cells, rooms.Values
      ensures Valid()
      ensures r.Err? ==> r.error in {RoomFull, IndexOutOfBounds}
      ensures r == Err(IndexOutOfBounds) <==> |rooms.Keys - {PASSAGEWAY, CELLAR}| < 6
      ensures old(RoomsHaveSpace(StartSquares())) ==> r != Err(RoomFull)
      ensures r.Ok? ==> && pieces.Keys == Elems(CHARACTER_NAMES) + Elems(WEAPON_NAMES)
                        && CharactersOnStarts() && WeaponsInRooms()
      ensures r.Ok? ==> forall k :: k in rooms ==>
                && rooms[k].entrances == EntrancesAmong(rooms[k].locations)
                && rooms[k].exits == ExitsAmong(rooms[k].locations)
    {
      r := SetupPieces();
      if r.Err? {
        return;
      }
      assert NoDoorsYet();
      CalculateRoomEntrancesAndExits();
    }

    /** No room has an entrance or an exit yet. */
    ghost predicate NoDoorsYet()
      reads this`rooms, rooms.Values
    {
      forall k :: k in rooms ==> rooms[k].entrances == {} && rooms[k].exits == {}
    }

    /** Board.setupPieces on the freshly loaded board: the six characters on
        their fixed start squares, then the six weapons on the squares
        getStartLocationsForWeapons offers, which lie in six different rooms.
        An offered null square, or a list shorter than six, is the exception
        the Java code would raise; the pieces placed before it stay. */
    method SetupPieces() returns (r: Result<(), Fault>)
      requires Valid() && pieces == map[]
      modifies this`pieces, Cells
      ensures Valid()
      ensures r.Err? ==> r.error in {RoomFull, IndexOutOfBounds}
      ensures r == Err(IndexOutOfBounds) <==> |rooms.Keys - {PASSAGEWAY, CELLAR}| < 6
      ensures old(RoomsHaveSpace(StartSquares())) ==> r != Err(RoomFull)
      ensures r.Ok? ==> pieces.Keys == Elems(CHARACTER_NAMES) + Elems(WEAPON_NAMES)
      ensures r.Ok? ==> CharactersOnStarts() && WeaponsInRooms()
    {
      PlaceCharacters();
      forall k | k in rooms
        ensures rooms[k].FreeInterior() == old(rooms[k].FreeInterior()) - StartSquares()
      {
        assert forall l :: l in rooms[k].locations ==> l in Cells && !old(l.occupied);
      }
      assert old(RoomsHaveSpace(StartSquares())) ==> RoomsHaveSpace({});
      CharacterWeaponNamesDisjoint();
      r := SetupWeapons();
    }

    /** The weapon half of Board.setupPieces: the start squares are drawn
        from the rooms once the characters stand on the board. */
    method SetupWeapons() returns (r: Result<(), Fault>)
      requires Valid() && forall i :: 0 <= i < 6 ==> WEAPON_NAMES[i] !in pieces
      modifies this`pieces, Cells
      ensures Valid()
      ensures r.Err? ==> r.error in {RoomFull, IndexOutOfBounds}
      ensures r == Err(IndexOutOfBounds) <==> |rooms.Keys - {PASSAGEWAY, CELLAR}| < 6
      ensures old(RoomsHaveSpace({})) ==> r != Err(RoomFull)
      ensures r.Ok? ==> pieces.Keys == old(pieces.Keys) + Elems(WEAPON_NAMES) && WeaponsInRooms()
      ensures forall k :: k in old(pieces) ==> k in pieces && pieces[k] == old(pieces[k])
      ensures old(CharactersOnStarts()) ==> CharactersOnStarts()
    {
      var starting, order := GetStartLocationsForWeapons();
      CountOffered(order, rooms.Keys - {PASSAGEWAY, CELLAR});
      r := PlaceOffered(starting);
    }

    /** Every room other than the passageway and the cellar has a free
        square that is not an entrance and not among the taken squares. */
    ghost predicate RoomsHaveSpace(taken: set<Location>)
      requires RoomsOk()
      reads this`rooms, this`Cells, rooms.Values, Cells
    {
      forall k :: k in rooms && k != PASSAGEWAY && k != CELLAR ==> rooms[k].FreeInterior() - taken != {}
    }

    /** `startLocations.get(0)` to `get(5)` of Board.setupPieces: a list
        shorter than six ends the setup with the index exception. */
    method PlaceOffered(starting: seq<Location?>) returns (r: Result<(), Fault>)
      requires Valid() && FreeStarts(starting, 0) && DistinctRooms(starting)
      requires forall i :: 0 <= i < |starting| && starting[i] != null ==>
                 starting[i].room != null && starting[i].room.name != PASSAGEWAY && starting[i].room.name != CELLAR
      requires forall i :: 0 <= i < 6 ==> WEAPON_NAMES[i] !in pieces
      modifies this`pieces, Cells
      ensures Valid()
      ensures r.Err? ==> r.error in {RoomFull, IndexOutOfBounds}
      ensures r == Err(IndexOutOfBounds) <==> |starting| < 6
      ensures r == Err(RoomFull) <==> |starting| >= 6 && exists i :: 0 <= i < 6 && starting[i] == null
      ensures r.Ok? ==> pieces.Keys == old(pieces.Keys) + Elems(WEAPON_NAMES) && WeaponsInRooms()
      ensures forall k :: k in old(pieces) ==> k in pieces && pieces[k] == old(pieces[k])
      ensures old(CharactersOnStarts()) ==> CharactersOnStarts()
    {
      if |starting| < 6 {
        return Err(IndexOutOfBounds);
      }
      r := PlaceWeapons(starting);
    }

    /** The six start squares of the characters. */
    ghost function StartSquares(): set<Location>
      requires currentBoard.Length0 == HEIGHT && currentBoard.Length1 == WIDTH
      reads currentBoard
    {
      set i | 0 <= i < 6 :: StartSquare(i)
    }

    /** The fixed start square of the i-th character. */
    function StartSquare(i: int): Location
      requires currentBoard.Length0 == HEIGHT && currentBoard.Length1 == WIDTH && 0 <= i < 6
      reads currentBoard
    {
      if i == 0 then currentBoard[24, 7]
      else if i == 1 then currentBoard[17, 0]
      else if i == 2 then currentBoard[0, 9]
      else if i == 3 then currentBoard[0, 14]
      else if i == 4 then currentBoard[6, 23]
      else currentBoard[19, 23]
    }

    /** The first half of Board.setupPieces: every character starts on the
        same square in every game. */
    method PlaceCharacters()
      requires Valid() && pieces == map[]
      modifies this`pieces, Cells
      ensures Valid()
      ensures pieces.Keys == Elems(CHARACTER_NAMES) && CharactersOnStarts()
      ensures forall l :: l in Cells ==> (l.occupied <==> l in StartSquares())
    {
      var starts: seq<Location?> := seq(6, i requires 0 <= i < 6 reads currentBoard => StartSquare(i));
      forall i | 0 <= i < 6
        ensures starts[i] in Cells && !starts[i].occupied
      {
        assert starts[i] in Cells;
      }
      forall i, j | 0 <= i < j < 6
        ensures starts[i] != starts[j]
      {
        assert starts[i].row != starts[j].row || starts[i].col != starts[j].col;
      }
      CharacterNamesDistinct();
      assert Shape() && RoomsOk();
      var r := PlacePieces(CHARACTER_NAMES, CHARACTER_ICONS, starts);
      assert Shape() && RoomsOk() && PiecesOk();
      CharactersOccupyStarts();
    }

    /** With only the characters on the board, the occupied squares are
        exactly their start squares. */
    lemma CharactersOccupyStarts()
      requires Shape() && PiecesOk() && pieces.Keys == Elems(CHARACTER_NAMES) && CharactersOnStarts()
      ensures forall l :: l in Cells ==> (l.occupied <==> l in StartSquares())
    {
      forall l | l in Cells
        ensures l.occupied <==> l in StartSquares()
      {
        if l.occupied {
          var k :| k in pieces && pieces[k] == l.piece;
          var i :| 0 <= i < 6 && CHARACTER_NAMES[i] == k;
        }
      }
    }

    /** The second half of Board.setupPieces: the weapons go onto the offered
        squares in order; a null square ends the setup with the exception. */
    method PlaceWeapons(starting: seq<Location?>) returns (r: Result<(), Fault>)
      requires Valid() && |starting| >= 6 && FreeStarts(starting, 0) && DistinctRooms(starting)
      requires forall i :: 0 <= i < |starting| && starting[i] != null ==>
                 starting[i].room != null && starting[i].room.name != PASSAGEWAY && starting[i].room.name != CELLAR
      requires forall i :: 0 <= i < 6 ==> WEAPON_NAMES[i] !in pieces
      modifies this`pieces, Cells
      ensures Valid()
      ensures old(CharactersOnStarts()) ==> CharactersOnStarts()
      ensures r.Err? <==> exists i :: 0 <= i < 6 && starting[i] == null
      ensures r.Err? ==> r == Err(RoomFull)
      ensures r.Ok? ==> pieces.Keys == old(pieces.Keys) + Elems(WEAPON_NAMES)
      ensures forall k :: k in old(pieces) ==> k in pieces && pieces[k] == old(pieces[k])
      ensures r.Ok? ==> WeaponsInRooms()
    {
      WeaponNamesDistinct();
      r := PlacePieces(WEAPON_NAMES, WEAPON_ICONS, starting);
    }

    /** The `pieces.put(names[i], new Piece(icons[i], starting[i]))`
        statements of Board.setupPieces, taken in order from a table; `new
        Piece` on a null square dereferences null and ends the run. */
    method PlacePieces(names: seq<string>, icons: seq<string>, starting: seq<Location?>) returns (r: Result<(), Fault>)
      requires PiecesOk() && |names| == |icons| <= |starting| && NoDup(names)
      requires FreeStarts(starting, 0) && DistinctSquares(starting)
      requires forall i :: 0 <= i < |names| ==> names[i] !in pieces
      modifies this`pieces, Cells
      ensures PiecesOk()
      ensures r.Err? <==> exists i :: 0 <= i < |names| && starting[i] == null
      ensures r.Err? ==> r == Err(RoomFull)
      ensures r.Ok? ==> pieces.Keys == old(pieces.Keys) + Elems(names)
      ensures forall k :: k in old(pieces) ==> k in pieces && pieces[k] == old(pieces[k])
      ensures r.Ok? ==> forall i :: 0 <= i < |names| ==> pieces[names[i]].location == starting[i]
    {
      for i := 0 to |names|
        invariant PiecesOk() && FreeStarts(starting, i)
        invariant pieces.Keys == old(pieces.Keys) + Elems(names[..i])
        invariant forall k :: k in old(pieces) ==> k in pieces && pieces[k] == old(pieces[k])
        invariant forall j :: 0 <= j < i ==> names[j] in pieces && starting[j] != null && pieces[names[j]].location == starting[j]
      {
        assert names[..i + 1] == names[..i] + [names[i]];
        assert names[i] !in names[..i];
        ghost var placed := pieces;
        r := PlaceAt(names[i], icons[i], starting, i);
        if r.Err? {
          assert starting[i] == null && PiecesOk();
          return;
        }
        assert forall j :: 0 <= j < i ==> names[j] in placed && pieces[names[j]] == placed[names[j]];
      }
      assert PiecesOk();
      assert names[..|names|] == names;
      assert forall j :: 0 <= j < |names| ==> starting[j] != null;
      return Ok(());
    }

    /** One `pieces.put` of Board.setupPieces. */
    method PlaceAt(name: string, icon: string, starting: seq<Location?>, i: int) returns (r: Result<(), Fault>)
      requires PiecesOk() && 0 <= i < |starting| && FreeStarts(starting, i) && DistinctSquares(starting)
      requires name !in pieces
      modifies this`pieces, Cells
      ensures PiecesOk()
      ensures r.Err? <==> starting[i] == null
      ensures r.Err? ==> r == Err(RoomFull) && pieces == old(pieces)
      ensures r.Ok? ==> pieces.Keys == old(pieces.Keys) + {name} && pieces[name].location == starting[i]
      ensures r.Ok? ==> FreeStarts(starting, i + 1)
      ensures forall k :: k in old(pieces) ==> pieces[k] == old(pieces[k])
    {
      if starting[i] == null {
        return Err(RoomFull);
      }
      PlacePiece(name, icon, starting[i]);
      return Ok(());
    }
  }

  /** A room whose squares were not touched has the same free squares. */
  twostate lemma FreeInteriorKept(room: Room)
    requires unchanged(room) && forall l :: l in room.locations ==> unchanged(l)
    ensures room.FreeInterior() == old(room.FreeInterior())
  {
  }

  /** A step that touches none of the board's objects keeps its invariant
      and every piece where it stood. */
  twostate lemma BoardUntouched(b: Board)
    requires old(b.Valid())
    requires unchanged(b, b.currentBoard) && unchanged(b.Cells) && unchanged(b.rooms.Values)
    requires unchanged(b.pieces.Values)
    ensures b.Valid()
    ensures forall k :: k in b.pieces ==> b.GetPlayerLocation(k) == old(b.GetPlayerLocation(k))
  {
  }

  /** Board.setupRooms: one empty room under each of the eleven names. */
  method SetupRooms() returns (named: map<string, Room>)
    ensures named.Keys == Elems(ROOM_NAMES) && PASSAGEWAY in named
    ensures forall k :: k in named ==> fresh(named[k]) && named[k].name == k
    ensures forall k :: k in named ==>
              named[k].locations == {} && named[k].entrances == {} && named[k].exits == {}
  {
    named := map[];
    for i := 0 to |ROOM_NAMES|
      invariant named.Keys == Elems(ROOM_NAMES[..i])
      invariant forall k :: k in named ==> fresh(named[k]) && named[k].name == k
      invariant forall k :: k in named ==>
                  named[k].locations == {} && named[k].entrances == {} && named[k].exits == {}
    {
      var room := new Room(ROOM_NAMES[i]);
      named := named[ROOM_NAMES[i] := room];
      assert ROOM_NAMES[..i + 1] == ROOM_NAMES[..i] + [ROOM_NAMES[i]];
    }
    assert ROOM_NAMES[..|ROOM_NAMES|] == ROOM_NAMES;
    assert PASSAGEWAY == ROOM_NAMES[10];
  }

  /** new ArrayList<>(set): the elements of the set, each once, in some
      order. */
  method ListOf(s: set<Location>) returns (r: seq<Location>)
    ensures Elems(r) == s && NoDup(r) && |r| == |s|
  {
    r := [];
    var todo := s;
    while todo != {}
      invariant todo <= s && Elems(r) == s - todo && NoDup(r)
      invariant |r| + |todo| == |s|
      decreases todo
    {
      var l :| l in todo;
      assert Elems(r + [l]) == Elems(r) + {l};
      r := r + [l];
      todo := todo - {l};
    }
  }
}
