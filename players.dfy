/** A player of the game (Player.java): the hand, the dice, the three-way
    move rule with its per-turn trail of squares, refutation and the single
    accusation. The board is passed to the methods that need it, where the
    Java code reaches it through its Game. */
module Players {
  import opened Util
  import opened Cards
  import opened Tiles
  import opened Boards

  // ------------------------------------------------------ the turn's trail

  /** The movement bookkeeping of one turn: the steps left, the squares
      left behind in the passageway (a stack, top last) and the same squares
      as a set. */
  datatype Trail = Trail(counter: int, prev: seq<Location>, visited: set<Location>)

  /** A forward step out of square from: one step spent, from pushed. */
  function Advance(t: Trail, from: Location): Trail
  {
    Trail(t.counter - 1, t.prev + [from], t.visited + {from})
  }

  /** A step back onto the top of the stack: the step is refunded and the
      square popped. */
  function Retreat(t: Trail): Trail
    requires t.prev != []
  {
    Trail(t.counter + 1, t.prev[..|t.prev| - 1], t.visited - {t.prev[|t.prev| - 1]})
  }

  /** The trail of a turn that rolled roll and now stands on here: every
      step taken and not undone lies on the stack, the set holds exactly the
      stack's squares, no square is on it twice, and the player is not on
      one of them. */
  ghost predicate TrailOk(t: Trail, roll: int, here: Location)
  {
    && 0 <= t.counter
    && t.counter + |t.prev| == roll
    && t.visited == Elems(t.prev)
    && NoDup(t.prev)
    && here !in t.visited
  }

  /** A valid trail never records more squares than the dice allowed. */
  lemma TrailBounds(t: Trail, roll: int, here: Location)
    requires TrailOk(t, roll, here)
    ensures |t.visited| == |t.prev| <= roll && t.counter <= roll
  {
    ElemsCount(t.prev);
  }

  /** A forward step onto a square not visited this turn keeps the trail
      valid. */
  lemma AdvanceKeeps(t: Trail, roll: int, here: Location, dest: Location)
    requires TrailOk(t, roll, here) && 1 <= t.counter
    requires dest != here && dest !in t.visited
    ensures TrailOk(Advance(t, here), roll, dest)
  {
    var u := Advance(t, here);
    assert Elems(u.prev) == Elems(t.prev) + {here};
    forall i, j | 0 <= i < j < |u.prev|
      ensures u.prev[i] != u.prev[j]
    {
      if j == |t.prev| {
        assert u.prev[i] == t.prev[i] && t.prev[i] in Elems(t.prev);
      }
    }
  }

  /** Stepping back onto the top of the stack keeps the trail valid. */
  lemma RetreatKeeps(t: Trail, roll: int, here: Location)
    requires TrailOk(t, roll, here) && t.prev != []
    ensures TrailOk(Retreat(t), roll, t.prev[|t.prev| - 1])
  {
    var top := t.prev[|t.prev| - 1];
    var rest := t.prev[..|t.prev| - 1];
    assert t.prev == rest + [top];
    assert Elems(t.prev) == Elems(rest) + {top};
    forall i | 0 <= i < |rest|
      ensures rest[i] != top
    {
      assert rest[i] == t.prev[i];
    }
  }

  /** A forward step followed by a step back restores the trail. */
  lemma RetreatUndoesAdvance(t: Trail, from: Location)
    requires from !in t.visited
    ensures Retreat(Advance(t, from)) == t
  {
    assert (t.prev + [from])[..|t.prev|] == t.prev;
  }

  /** The trail after a corridor step from here to there. */
  function StepTrail(t: Trail, here: Location, there: Location): Trail
  {
    if t.prev != [] && there == t.prev[|t.prev| - 1] then Retreat(t) else Advance(t, here)
  }

  /** Every step Board.movePlayer lets through keeps the trail valid: it
      leaves the square, and it does not land on a square visited this turn
      unless that square is the top of the stack. */
  lemma StepTrailKeeps(t: Trail, roll: int, here: Location, there: Location)
    requires TrailOk(t, roll, here) && 1 <= t.counter && there != here
    requires !(t.prev != [] && there != t.prev[|t.prev| - 1] && there in t.visited)
    ensures TrailOk(StepTrail(t, here, there), roll, there)
  {
    if t.prev != [] && there == t.prev[|t.prev| - 1] {
      RetreatKeeps(t, roll, here);
    } else {
      AdvanceKeeps(t, roll, here, there);
    }
  }

  // ---------------------------------------------------------- Player.java

  /** What the corridor branch answers, given the exception the step
      raises (fault) and whether it may be refused: it fails exactly with
      that exception, reports no move only when it may refuse, and moves
      whenever it neither fails nor may refuse. */
  predicate CorridorOutcome(r: Result<bool, Fault>, fault: Option<Fault>, refused: bool)
  {
    && (r.Err? <==> fault.Some?)
    && (r.Err? ==> r.error == fault.value)
    && (r == Ok(false) ==> refused)
    && (fault.None? && !refused ==> r == Ok(true))
  }

  class Player {
    var hand: map<string, Card>
    const playerNumber: int
    const playerName: string
    const characterName: string
    var canAccuse: bool
    /** The squares left this turn, most recent last. */
    var prevLocations: seq<Location>
    var locationsVisited: set<Location>
    var counter: int
    /** The dice total of the current turn. */
    ghost var roll: int

    constructor (playerNum: int, username: string, character: string)
      ensures playerNumber == playerNum && playerName == username && characterName == character
      ensures hand == map[] && canAccuse && prevLocations == [] && locationsVisited == {} && counter == 0
    {
      playerNumber, playerName, characterName := playerNum, username, character;
      hand := map[];
      canAccuse := true;
      prevLocations, locationsVisited := [], {};
      counter := 0;
      roll := 0;
    }

    function CurrentTrail(): Trail
      reads this
    {
      Trail(counter, prevLocations, locationsVisited)
    }

    /** Player.giveCard: the hand is keyed by card name. */
    method GiveCard(card: Card)
      modifies this`hand
      ensures hand == old(hand)[card.name := card]
      ensures card in hand.Values && hand.Keys == old(hand.Keys) + {card.name}
    {
      hand := hand[card.name := card];
      assert hand[card.name] == card;
    }

    /** Player.rollDice: two dice of one to six each; the steps of the turn
        are their sum. */
    method RollDice() returns (first: int, second: int)
      modifies this`counter, this`roll
      ensures 1 <= first <= 6 && 1 <= second <= 6
      ensures counter == first + second == roll && 2 <= counter <= 12
    {
      first :| 1 <= first <= 6;
      second :| 1 <= second <= 6;
      counter := first + second;
      roll := counter;
    }

    /** Player.prepareForMove: a fresh trail and a new roll. */
    method PrepareForMove(board: Board) returns (first: int, second: int)
      requires board.Valid() && characterName in board.pieces
      modifies this`counter, this`roll, this`prevLocations, this`locationsVisited
      ensures 1 <= first <= 6 && 1 <= second <= 6
      ensures CurrentTrail() == Trail(first + second, [], {}) && roll == first + second
      ensures TurnInvariant(board)
    {
      locationsVisited := {};
      prevLocations := [];
      first, second := RollDice();
    }

    /** The trail invariant of a turn, against the square the character's
        piece stands on. */
    ghost predicate TurnInvariant(board: Board)
      requires board.Valid() && characterName in board.pieces
      reads this, board, board.currentBoard, board.Cells, board.rooms.Values, board.pieces.Values
    {
      TrailOk(CurrentTrail(), roll, board.GetPlayerLocation(characterName))
    }

    /** The first branch of Player.move applies: the player stands in a room
        other than the passageway and the destination is one of its free
        exits. The room is looked up by character name (see
        Board.GetPlayerRoom). */
    ghost predicate ExitApplies(board: Board, destination: Location)
      requires board.Valid() && characterName in board.pieces
      reads this, board, board.currentBoard, board.Cells, board.rooms.Values, board.pieces.Values
    {
      && board.CheckPlayerInRoom(characterName)
      && destination in board.GetPlayerRoom(characterName).FreeExits()
    }

    /** The second branch of Player.move applies: the destination lies in a
        room other than the passageway whose entrances hold the player's
        square. */
    ghost predicate EntryApplies(board: Board, destination: Location)
      requires board.Valid() && characterName in board.pieces
      reads this, board, board.currentBoard, board.Cells, board.rooms.Values, board.pieces.Values
      reads destination.room
    {
      && destination.room != null
      && destination.room.name != PASSAGEWAY
      && board.GetPlayerLocation(characterName) in destination.room.entrances
    }

    /** Player.move. The destination square was picked on the board and
        verdict is what Location.checkAdjacent said about it: a key W, A, S
        or D, or "Invalid". Nothing happens without a room on the
        destination or without steps left. Otherwise the player leaves the
        room by a free exit (one step), or enters the destination's room on
        a free square (ending the movement), or takes one step in the
        passageway. */
    method Move(board: Board, destination: Location, verdict: string) returns (r: Result<bool, Fault>)
      requires board.Valid() && characterName in board.pieces && destination in board.Cells
      modifies this`counter, this`prevLocations, this`locationsVisited, board.Cells, board.pieces.Values
      ensures forall k :: k in board.pieces && board.pieces[k] != board.pieces[characterName] ==>
                board.pieces[k].location == old(board.pieces[k].location)
      ensures board.Valid()
      ensures old(destination.room == null || counter < 1) ==>
                && r == Ok(false) && CurrentTrail() == old(CurrentTrail())
                && unchanged(board.Cells) && unchanged(board.pieces.Values)
      ensures old(destination.room != null && counter >= 1 && ExitApplies(board, destination)) ==>
                && r == Ok(true)
                && board.GetPlayerLocation(characterName) == destination
                && CurrentTrail() == old(CurrentTrail()).(counter := old(counter) - 1)
      ensures old(destination.room != null && counter >= 1 && !ExitApplies(board, destination)
                  && EntryApplies(board, destination)) ==>
                && (r.Err? <==> old(destination.room.FreeInterior()) == {})
                && (r.Err? ==> r == Err(RoomFull) && CurrentTrail() == old(CurrentTrail()))
                && (r.Ok? ==> && r.value && CurrentTrail() == old(CurrentTrail()).(counter := 0)
                              && board.GetPlayerLocation(characterName) in old(destination.room.FreeInterior()))
      ensures old(destination.room != null && counter >= 1 && !ExitApplies(board, destination)
                  && !EntryApplies(board, destination)) ==>
                && (old(TurnInvariant(board)) ==> TurnInvariant(board))
                && CorridorOutcome(r, old(CorridorFault(board, verdict)), old(CorridorRefused(board, verdict)))
                && (r == Ok(true) ==>
                      CurrentTrail() == StepTrail(old(CurrentTrail()), old(board.GetPlayerLocation(characterName)),
                                                  board.GetPlayerLocation(characterName)))
    {
      if destination.room == null || counter < 1 {
        return Ok(false);
      }
      var leaving := LeavesBy(board, destination);
      if leaving {
        r := LeaveRoom(board, destination);
      } else {
        r := EnterOrStep(board, destination, verdict);
      }
    }

    /** The second and third branches of Player.move, once the exit branch
        does not apply. */
    method EnterOrStep(board: Board, destination: Location, verdict: string) returns (r: Result<bool, Fault>)
      requires board.Valid() && characterName in board.pieces && destination in board.Cells
      requires destination.room != null && counter >= 1
      modifies this`counter, this`prevLocations, this`locationsVisited, board.Cells, board.pieces.Values
      ensures forall k :: k in board.pieces && board.pieces[k] != board.pieces[characterName] ==>
                board.pieces[k].location == old(board.pieces[k].location)
      ensures board.Valid()
      ensures old(EntryApplies(board, destination)) ==>
                && (r.Err? <==> old(destination.room.FreeInterior()) == {})
                && (r.Err? ==> r == Err(RoomFull) && CurrentTrail() == old(CurrentTrail()))
                && (r.Ok? ==> && r.value && CurrentTrail() == old(CurrentTrail()).(counter := 0)
                              && board.GetPlayerLocation(characterName) in old(destination.room.FreeInterior()))
      ensures old(!EntryApplies(board, destination)) ==>
                && (old(TurnInvariant(board)) ==> TurnInvariant(board))
                && CorridorOutcome(r, old(CorridorFault(board, verdict)), old(CorridorRefused(board, verdict)))
                && (r == Ok(true) ==>
                      CurrentTrail() == StepTrail(old(CurrentTrail()), old(board.GetPlayerLocation(characterName)),
                                                  board.GetPlayerLocation(characterName)))
    {
      if destination.room.name != PASSAGEWAY
         && board.GetPlayerLocation(characterName) in destination.room.entrances {
        r := EnterRoom(board, destination.room);
      } else {
        r := CorridorStep(board, verdict);
      }
    }

    /** The test of the exit branch: Board.checkPlayerInRoom, then whether
        the destination is among the room's exits that no piece stands on
        (Room.getUnoccupiedExits). */
    function LeavesBy(board: Board, destination: Location): (b: bool)
      requires board.Valid() && characterName in board.pieces
      reads this, board, board.currentBoard, board.Cells, board.rooms.Values, board.pieces.Values, destination
      ensures b <==> ExitApplies(board, destination)
    {
      && board.CheckPlayerInRoom(characterName)
      && destination in board.GetPlayerRoom(characterName).exits
      && !destination.occupied
    }

    /** The exit branch: the piece moves onto the chosen free exit, for one
        step. */
    method LeaveRoom(board: Board, destination: Location) returns (r: Result<bool, Fault>)
      requires board.Valid() && characterName in board.pieces && ExitApplies(board, destination)
      modifies this`counter, board.Cells, board.pieces.Values
      ensures forall k :: k in board.pieces && board.pieces[k] != board.pieces[characterName] ==>
                board.pieces[k].location == old(board.pieces[k].location)
      ensures board.Valid() && r == Ok(true)
      ensures board.GetPlayerLocation(characterName) == destination
      ensures CurrentTrail() == old(CurrentTrail()).(counter := old(counter) - 1)
    {
      var room := board.GetPlayerRoom(characterName);
      assert room.name in board.rooms && room.exits <= board.Cells;
      counter := counter - 1;
      board.MovePlayerTo(characterName, destination);
      return Ok(true);
    }

    /** The entry branch: a free square of the room that is not an entrance,
        and no steps left; a full room is the null square the Java code
        would move the piece to. */
    method EnterRoom(board: Board, room: Room) returns (r: Result<bool, Fault>)
      requires board.Valid() && characterName in board.pieces
      requires room.name in board.rooms && board.rooms[room.name] == room
      modifies this`counter, board.Cells, board.pieces.Values
      ensures forall k :: k in board.pieces && board.pieces[k] != board.pieces[characterName] ==>
                board.pieces[k].location == old(board.pieces[k].location)
      ensures board.Valid()
      ensures r.Err? <==> old(room.FreeInterior()) == {}
      ensures r.Err? ==> r == Err(RoomFull) && CurrentTrail() == old(CurrentTrail())
      ensures r.Err? ==> unchanged(board.Cells) && unchanged(board.pieces.Values)
      ensures r.Ok? ==> r.value && CurrentTrail() == old(CurrentTrail()).(counter := 0)
                        && board.GetPlayerLocation(characterName) in old(room.FreeInterior())
    {
      var inside := room.GetRandomRoomLocation();
      if inside == null {
        return Err(RoomFull);
      }
      counter := 0;
      board.MovePlayerTo(characterName, inside);
      return Ok(true);
    }

    /** The exception the corridor branch ends in, judged before the step:
        an unknown key, a step onto a square without a room, or a step into
        a room with no free square. "Invalid" never reaches Board.movePlayer. */
    ghost function CorridorFault(board: Board, verdict: string): Option<Fault>
      requires board.Valid() && characterName in board.pieces
      reads this, board, board.currentBoard, board.Cells, board.rooms.Values, board.pieces.Values
    {
      if verdict == "Invalid" then None
      else if KeyDirection(verdict).None? then Some(UnknownDirection)
      else
        var here := board.GetPlayerLocation(characterName);
        var d := KeyDirection(verdict).value;
        if board.StepOffRooms(here, d) then Some(CellWithoutRoom)
        else if board.StepIntoFullRoom(here, d) then Some(RoomFull)
        else None
    }

    /** The corridor branch may refuse the step: the key is "Invalid", the
        move check of Location fails, or the step may end on a square
        visited earlier this turn that is not the one just left. */
    ghost predicate CorridorRefused(board: Board, verdict: string)
      requires board.Valid() && characterName in board.pieces
      reads this, board, board.currentBoard, board.Cells, board.rooms.Values, board.pieces.Values
    {
      || verdict == "Invalid"
      || (&& KeyDirection(verdict).Some?
          && var here := board.GetPlayerLocation(characterName);
             var d := KeyDirection(verdict).value;
             || !here.CanMove(d, board.currentBoard)
             || (&& prevLocations != []
                 && exists dest :: dest in locationsVisited && dest != prevLocations[|prevLocations| - 1] &&
                      board.StepLandsOn(here, d, dest)))
    }

    /** The corridor branch of Player.move: one step by Board.movePlayer,
        recorded on the trail. A refused step changes nothing. */
    method CorridorStep(board: Board, verdict: string) returns (r: Result<bool, Fault>)
      requires board.Valid() && characterName in board.pieces && counter >= 1
      modifies this`counter, this`prevLocations, this`locationsVisited, board.Cells, board.pieces.Values
      ensures board.Valid()
      ensures verdict == "Invalid" ==> r == Ok(false)
      ensures CorridorOutcome(r, old(CorridorFault(board, verdict)), old(CorridorRefused(board, verdict)))
      ensures r != Ok(true) ==>
                CurrentTrail() == old(CurrentTrail()) && unchanged(board.Cells) && unchanged(board.pieces.Values)
      ensures r == Ok(true) ==>
                && board.GetPlayerLocation(characterName) != old(board.GetPlayerLocation(characterName))
                && CurrentTrail() == StepTrail(old(CurrentTrail()), old(board.GetPlayerLocation(characterName)),
                                               board.GetPlayerLocation(characterName))
                && forall k :: k in board.pieces && board.pieces[k] != board.pieces[characterName] ==>
                     board.pieces[k].location == old(board.pieces[k].location)
      ensures old(TurnInvariant(board)) ==> TurnInvariant(board)
    {
      if verdict == "Invalid" {
        return Ok(false);
      }
      var here := board.GetPlayerLocation(characterName);
      var attempt := board.MovePlayer(characterName, verdict, locationsVisited, prevLocations);
      assert board.pieces == old(board.pieces);
      if attempt.Err? || attempt.value != 0 {
        BoardUntouched(board);
        return if attempt.Err? then Err(attempt.error) else Ok(false);
      }
      var there := board.GetPlayerLocation(characterName);
      RecordStep(board, here, there);
      return Ok(true);
    }

    /** The trail update after a step of the corridor branch from here to
        there: a step back onto the top of the stack pops it and refunds the
        step, any other step pushes the square left and spends one. */
    method RecordStep(board: Board, here: Location, there: Location)
      requires board.Valid() && characterName in board.pieces && counter >= 1
      requires there == board.GetPlayerLocation(characterName) && there != here
      requires !(prevLocations != [] && there != prevLocations[|prevLocations| - 1] && there in locationsVisited)
      modifies this`counter, this`prevLocations, this`locationsVisited
      ensures board.Valid() && board.GetPlayerLocation(characterName) == there
      ensures CurrentTrail() == StepTrail(old(CurrentTrail()), here, there)
      ensures old(TrailOk(CurrentTrail(), roll, here)) ==> TurnInvariant(board)
    {
      if TrailOk(CurrentTrail(), roll, here) {
        StepTrailKeeps(CurrentTrail(), roll, here, there);
      }
      if prevLocations != [] && there == prevLocations[|prevLocations| - 1] {
        locationsVisited := locationsVisited - {prevLocations[|prevLocations| - 1]};
        prevLocations := prevLocations[..|prevLocations| - 1];
        counter := counter + 1;
      } else {
        locationsVisited := locationsVisited + {here};
        prevLocations := prevLocations + [here];
        counter := counter - 1;
      }
      BoardUntouched(board);
    }

    // ------------------------------------------------------- refutation

    /** The cards of the hand that appear in the tuple. */
    ghost function Refutable(tup: CardTuple): (r: set<Card>)
      reads this
      ensures r <= hand.Values && r <= {tup.characterCard, tup.weaponCard, tup.roomCard}
      ensures forall c :: c in hand.Values && c in {tup.characterCard, tup.weaponCard, tup.roomCard} ==> c in r
    {
      set c | c in hand.Values && (c == tup.characterCard || c == tup.weaponCard || c == tup.roomCard)
    }

    /** The loop over the hand shared by Player.refute and Player.refuteV2. */
    method RefuteOptions(tup: CardTuple) returns (options: set<Card>)
      ensures options == Refutable(tup)
    {
      options := {};
      var todo := hand.Values;
      while todo != {}
        invariant todo <= hand.Values
        invariant options == Refutable(tup) - todo
        decreases todo
      {
        var c :| c in todo;
        if tup.characterCard == c {
          options := options + {c};
        }
        if tup.weaponCard == c {
          options := options + {c};
        }
        if tup.roomCard == c {
          options := options + {c};
        }
        todo := todo - {c};
      }
    }

    /** Player.refuteV2: the refutable cards, or null when there are none. */
    method RefuteV2(tup: CardTuple) returns (r: Option<set<Card>>)
      ensures r.None? <==> Refutable(tup) == {}
      ensures r.Some? ==> r.value == Refutable(tup) && r.value != {}
    {
      var options := RefuteOptions(tup);
      if |options| > 0 {
        return Some(options);
      }
      return None;
    }

    /** Player.refute. The lines are what the player types when asked for a
        card. Lines that name none of the tuple's cards are refused and the
        player is asked again; the first line that names one ends the
        loop, and the answer is that tuple card when some refutable card
        bears the name, and null otherwise. A player without refutable
        cards is not asked. */
    method Refute(tup: CardTuple, lines: seq<string>) returns (r: Result<Option<Card>, Fault>)
      ensures Refutable(tup) == {} ==> r == Ok(None)
      ensures Refutable(tup) != {} ==> r == RefuteAnswer(tup, Refutable(tup), lines)
    {
      var options := RefuteOptions(tup);
      if options == {} {
        return Ok(None);
      }
      var i := 0;
      while i < |lines|
        invariant 0 <= i <= |lines|
        invariant RefuteAnswer(tup, options, lines) == RefuteAnswer(tup, options, lines[i..])
      {
        var choice := lines[i];
        assert lines[i..][0] == choice && lines[i..][1..] == lines[i + 1..];
        if EqualsIgnoreCase(choice, tup.weaponCard.name) {
          var held := HasCardNamed(options, choice);
          return Ok(if held then Some(tup.weaponCard) else None);
        }
        if EqualsIgnoreCase(choice, tup.characterCard.name) {
          var held := HasCardNamed(options, choice);
          return Ok(if held then Some(tup.characterCard) else None);
        }
        if EqualsIgnoreCase(choice, tup.roomCard.name) {
          var held := HasCardNamed(options, choice);
          return Ok(if held then Some(tup.roomCard) else None);
        }
        i := i + 1;
      }
      return Err(NoInput);
    }

    /** Player.accuse. The accusation is the triple the player names. A
        player who has accused before is refused; otherwise the single
        accusation is spent, whatever its outcome, and it is right exactly
        when it matches the case file. */
    method Accuse(accusation: CardTuple, murder: CardTuple) returns (b: bool)
      modifies this`canAccuse
      ensures !canAccuse
      ensures !old(canAccuse) ==> !b
      ensures old(canAccuse) ==> (b <==> CheckAccusation(murder, accusation))
    {
      if !canAccuse {
        return false;
      }
      canAccuse := false;
      return CheckAccusation(murder, accusation);
    }
  }

  /** The line names one of the three cards of the tuple. */
  predicate NamesTupleCard(tup: CardTuple, choice: string)
  {
    || EqualsIgnoreCase(choice, tup.weaponCard.name)
    || EqualsIgnoreCase(choice, tup.characterCard.name)
    || EqualsIgnoreCase(choice, tup.roomCard.name)
  }

  /** Some card of the set bears the name, ignoring case. */
  predicate Holds(options: set<Card>, name: string)
  {
    exists c :: c in options && EqualsIgnoreCase(c.name, name)
  }

  /** The answer to the first line naming a tuple card: the weapon is
      tested first, then the character, then the room. */
  function ChoiceAnswer(tup: CardTuple, options: set<Card>, choice: string): Option<Card>
  {
    if EqualsIgnoreCase(choice, tup.weaponCard.name) then
      (if Holds(options, choice) then Some(tup.weaponCard) else None)
    else if EqualsIgnoreCase(choice, tup.characterCard.name) then
      (if Holds(options, choice) then Some(tup.characterCard) else None)
    else if EqualsIgnoreCase(choice, tup.roomCard.name) then
      (if Holds(options, choice) then Some(tup.roomCard) else None)
    else None
  }

  /** The refute loop over the lines typed: lines naming no tuple card are
      skipped; running out of lines is the exception Scanner raises. */
  function RefuteAnswer(tup: CardTuple, options: set<Card>, lines: seq<string>): Result<Option<Card>, Fault>
  {
    if lines == [] then Err(NoInput)
    else if NamesTupleCard(tup, lines[0]) then Ok(ChoiceAnswer(tup, options, lines[0]))
    else RefuteAnswer(tup, options, lines[1..])
  }

  /** The inner loops of Player.refute: does a refutable card bear the
      name? */
  method HasCardNamed(options: set<Card>, name: string) returns (b: bool)
    ensures b <==> Holds(options, name)
  {
    var todo := options;
    while todo != {}
      invariant todo <= options
      invariant forall c :: c in options && c !in todo ==> !EqualsIgnoreCase(c.name, name)
      decreases todo
    {
      var c :| c in todo;
      if EqualsIgnoreCase(c.name, name) {
        return true;
      }
      todo := todo - {c};
    }
    return false;
  }

  /** The three cards of the tuple have names that differ even ignoring
      case, as the cards of the game do. */
  predicate DistinctNames(tup: CardTuple)
  {
    && !EqualsIgnoreCase(tup.characterCard.name, tup.weaponCard.name)
    && !EqualsIgnoreCase(tup.characterCard.name, tup.roomCard.name)
    && !EqualsIgnoreCase(tup.weaponCard.name, tup.roomCard.name)
  }

  /** With distinctly named tuple cards, a card handed over in refutation is
      a card of the tuple that the player holds. */
  lemma {:induction false} RefuteAnswerHeld(tup: CardTuple, options: set<Card>, lines: seq<string>)
    requires DistinctNames(tup) && options <= {tup.characterCard, tup.weaponCard, tup.roomCard}
    ensures RefuteAnswer(tup, options, lines).Ok? && RefuteAnswer(tup, options, lines).value.Some? ==>
              RefuteAnswer(tup, options, lines).value.value in options
  {
    if lines != [] && !NamesTupleCard(tup, lines[0]) {
      RefuteAnswerHeld(tup, options, lines[1..]);
    } else if lines != [] {
      var choice := lines[0];
      if ChoiceAnswer(tup, options, choice).Some? {
        var c :| c in options && EqualsIgnoreCase(c.name, choice);
        if EqualsIgnoreCase(choice, tup.weaponCard.name) {
          assert EqualsIgnoreCase(c.name, tup.weaponCard.name);
        } else if EqualsIgnoreCase(choice, tup.characterCard.name) {
          assert EqualsIgnoreCase(c.name, tup.characterCard.name);
        } else {
          assert EqualsIgnoreCase(c.name, tup.roomCard.name);
        }
      }
    }
  }

  /** A player who names a tuple card they do not hold gets no second
      chance: the answer is null although they hold another card of the
      tuple. */
  lemma NamingAnUnheldCardRefutesNothing(tup: CardTuple, choice: string, rest: seq<string>)
    requires DistinctNames(tup)
    requires EqualsIgnoreCase(choice, tup.weaponCard.name)
    ensures RefuteAnswer(tup, {tup.characterCard}, [choice] + rest) == Ok(None)
  {
    assert ([choice] + rest)[0] == choice;
    assert !EqualsIgnoreCase(tup.characterCard.name, choice);
  }

  // ---------------------------------------------------- Player.isCard

  /** Player.isCard as written: both branches of the type test return the
      card found, so the requested type is never enforced. */
  function IsCardAsWritten(allCards: map<string, Card>, name: string, kind: CardType): (r: Option<Card>)
    ensures r == GetCard(allCards, name)
  {
    var found := GetCard(allCards, name);
    if found.Some? then (if found.value.kind == kind then found else found) else found
  }

  /** Asked for a character, the test as written accepts a weapon. */
  lemma IsCardAcceptsWrongType()
    ensures var deck := map["dagger" := Card("Dagger", WEAPON)];
            && IsCardAsWritten(deck, "Dagger", CHARACTER) == Some(Card("Dagger", WEAPON))
            && IsCard(deck, "Dagger", CHARACTER) == None
  {
    assert ToLower("Dagger") == "dagger";
  }

  /** Player.isCard as intended: the card of that name, only when it has
      the requested type. */
  function IsCard(allCards: map<string, Card>, name: string, kind: CardType): (r: Option<Card>)
    ensures r.Some? ==> r.value.kind == kind && GetCard(allCards, name) == r
    ensures r.None? ==> GetCard(allCards, name).None? || GetCard(allCards, name).value.kind != kind
  {
    var found := GetCard(allCards, name);
    if found.Some? && found.value.kind == kind then found else None
  }

  /** Three cards the corrected test accepted for the three types always
      make a tuple. */
  lemma IsCardBuildsTuple(allCards: map<string, Card>, c: string, w: string, r: string)
    requires IsCard(allCards, c, CHARACTER).Some? && IsCard(allCards, w, WEAPON).Some?
    requires IsCard(allCards, r, ROOM).Some?
    ensures DistinctKinds(IsCard(allCards, c, CHARACTER).value, IsCard(allCards, w, WEAPON).value,
                          IsCard(allCards, r, ROOM).value)
  {
  }

  // ------------------------------------------- the entry branch, as written

  /** Entrances are squares of their own room. Then the entry branch of
      Player.move, which looks for the player's square among the entrances
      of the destination's room, fires only for a player who already stands
      in that room: a player in the passageway never enters a room through
      it. */
  lemma EntryOnlyFromInside(board: Board, room: Room, here: Location)
    requires board.Valid() && room in board.rooms.Values
    requires room.entrances <= room.locations
    requires here in room.entrances
    ensures here.room == room
  {
  }
}
