# Cluedo game-state engine, modelled in Dafny

This project models the rules engine of a Java Cluedo game.

- **Cards and the case file.** The deck has 21 cards: characters, weapons and rooms. Three-card tuples are used for the case file, for suggestions and for accusations. The case file is taken from a shuffled deck, and the rest of the deck is dealt round-robin to players numbered 1 to n.
- **Board.** A 25 × 24 grid of squares, each with four wall flags, an optional room and an occupancy flag. Eleven rooms, including the Passageway and the Cellar, are registered by name. Rooms keep their squares, their entrances (room squares that open onto the passageway) and their exits (the passageway squares they open onto). Twelve pieces are placed on the board: six characters on fixed start squares and six weapons in six different rooms.
- **Movement.** A key-driven single step in the passageway is either refused (-1), refused because the square was already visited this turn (1), or made (0). A player's move has three branches: leaving a room by a free exit, entering a room, or taking a corridor step. During a turn the player keeps a step counter, a stack of squares left behind and the set of those squares; stepping back onto the top of the stack refunds the step.
- **Suggestion, refutation and accusation.** The players after the suggester are polled in turn order, and the first card shown ends the poll. A player has one accusation, spent whatever its outcome. The turn passes round the players. The game ends when no player can accuse any more; the Java loop for this reads only the last player's flag, and the model follows the corrected rule (see Findings).

The Dafny modules follow the Java classes:

| module | file | Java source |
|---|---|---|
| `Util` | util.dfy | `Option`/`Result`, the faults the Java code raises, ASCII lower-casing |
| `Cards` | cards.dfy | Card.java, CardTuple.java, plus `Game.getCard` and `Game.checkAccusation` (pure) |
| `Tiles` | tiles.dfy | Location.java, Piece.java, Room.java (classes with mutable fields) |
| `Boards` | boards.dfy | Board.java (class `Board`) |
| `Players` | players.dfy | Player.java (class `Player`) |
| `Games` | games.dfy | Game.java (class `Game`) |

How the model represents the Java code:

- **Java objects.**
  - Objects whose fields change in place are classes: `Location`, `Piece`, `Room`, `Board`, `Player` and `Game`. Their methods carry `modifies` clauses.
  - Cards and tuples never change after construction, so they are datatypes.
  - The loops of the source are methods with loop invariants.
- **Exceptions.** An exception the Java code would throw (a `NullPointerException`, an index out of range, an `IllegalArgumentException`) is an `Err` value of `Util.Fault`.
- **Shuffles and dice.** `Collections.shuffle` and `Random` become nondeterministic choice (`:|`). Each contract holds for every order and every roll.
- **Console input.** What a player types is an input: the lines typed to refute, and the verdict of `Location.checkAdjacent`.

## Model

| member | source | states |
|---|---|---|
| `Util.ToLower` | Game.java:76 | The lower-cased name has the same length, and each character is its ASCII lower case |
| `Cards.CardText` | Card.java:18 | The text is the prefix "name: ", the name, ", type: " and the type, so the name and the type can be read back from it |
| `Cards.SetCard` | CardTuple.java:29-42 | A card goes into the slot of its own type and every other slot keeps its value. It fails with the duplicate-type error exactly when that slot is already filled |
| `Cards.NewCardTuple` | CardTuple.java:10-16 | Construction succeeds exactly when the three cards have pairwise different types. Then the three slots hold a character, a weapon and a room, and each argument sits in the slot of its type whatever its position |
| `Cards.TupleHoldsArguments` | CardTuple.java:10-16 | A constructed tuple holds exactly the three argument cards (as a multiset) |
| `Cards.TupleText` | CardTuple.java:44-46 | The text is the character's name, " with the ", the weapon's name, " in the " and the room's name, in that order, so each name sits at a fixed position in the phrase |
| `Cards.GetCard` | Game.java:76 | A card is found exactly when the lower-cased name is a key of the deck, and it is the card filed under that key |
| `Cards.CheckAccusation` | Game.java:122-132 | The character, room and weapon names of the accusation equal those of the case file: the case file always matches itself, and a matching accusation reads the same as the case file. For constructed tuples it holds exactly when the tuples are equal (see `Cards.AccusationMatchesOnlyTheCase`) |
| `Cards.AccusationMatchesOnlyTheCase` | Game.java:122-132 | For constructed tuples, the name-by-name comparison of an accusation with the case file holds exactly when the two tuples are equal |
| `Tiles.KeyDirection` | Board.java:407-444 | W names up, A left, S down and D right, and every other key names no direction |
| `Tiles.Location.constructor` | Location.java:19-26 | Each wall flag is set exactly when its letter N, E, S or W occurs in the wall code. The column is boardColumn and the row is boardRow. The new square is free |
| `Tiles.Location.CanMove` | Location.java:36-66 | A permitted step never leads off the grid |
| `Tiles.Location.CanMoveRule` | Location.java:36-66 | The four checks are one rule: a step is allowed exactly when the neighbour exists, this square has no wall on that side, and the neighbour is free. The neighbour's own walls are never consulted |
| `Tiles.Piece.constructor` | Piece.java:10-15 | The new piece stands on its square, and the square is marked occupied by it |
| `Tiles.Piece.SetLocation` | Piece.java:21-27 | The piece stands on the new square, which points back at it. The square it left (when different) is empty. Nothing checks that the new square was free |
| `Tiles.Room.constructor` | Room.java:20-22 | A new room has its name and no squares, entrances or exits |
| `Tiles.Room.GetUnoccupiedExits` | Room.java:41-49 | The result is exactly the exits that are not occupied |
| `Tiles.Room.PlayerCanRoll` | Room.java:51-63 | A player may roll in the passageway, and elsewhere exactly when some exit is free |
| `Tiles.Room.AddLocation` | Room.java:71-73 | A set insertion into the squares (so repeating it changes nothing). Entrances and exits are unchanged |
| `Tiles.Room.AddEntrance` | Room.java:82-84 | A set insertion into the entrances. Squares and exits are unchanged |
| `Tiles.Room.AddExit` | Room.java:93-95 | A set insertion into the exits. Squares and entrances are unchanged |
| `Tiles.Room.GetRandomRoomLocation` | Room.java:104-113 | Whatever the shuffle, a square returned is a free square of the room that is not an entrance. Null is returned exactly when no such square exists |
| `Boards.ParseTokenRoundTrip` | Board.java:63-69 | A square written as "description_walls" (or as "description" alone when it has no walls) parses back to the same description and wall code |
| `Boards.ParseTokenMissingWalls` | Board.java:66-69 | A token that ends in its only underscore has no wall part after the split, and the Java indexing fails on it |
| `Boards.ParseToken` | Board.java:63-69 | A token without an underscore is a room description with no walls. Neither part of a parsed token contains an underscore |
| `Boards.CharacterNamesDistinct` | Board.java:97-102 | The six character pieces have pairwise different names |
| `Boards.WeaponNamesDistinct` | Board.java:106-111 | The six weapon pieces have pairwise different names |
| `Boards.CharacterWeaponNamesDisjoint` | Board.java:97-111 | No weapon piece is named like a character piece, so the twelve pieces have twelve keys |
| `Boards.Board.RoomFor` | Board.java:72-77 | "X" names no room. "P" names the registered passageway. Any other description names the registered room of that name, and no room when none is registered under it |
| `Boards.SetupRooms` | Board.java:42-49 | Exactly the eleven room names are registered, each to a fresh, empty room of that name, the passageway among them |
| `Boards.Board.constructor` | Board.java:24-26 | After the rooms are set up and the board file is loaded, the board invariant holds. Every square was built from its board-file entry, no square is occupied, and every room holds exactly the squares that name it, with no entrances or exits yet |
| `Boards.Board.LoadBoard` | Board.java:56-93 | Row by row, every grid position gets a square built from its entry. Each square with a room is added to that room. The board invariant holds afterwards |
| `Boards.Board.LoadRow` | Board.java:62-83 | One row more of the grid is loaded |
| `Boards.Board.LoadCell` | Board.java:63-82 | The square at (row, col) matches its entry (room, walls, position) and is filed in its room |
| `Boards.Board.StoreSquare` | Board.java:79 | The new square goes into the grid at its own position, and squares stored earlier are kept |
| `Boards.Board.FileSquare` | Board.java:80-82 | Each room still holds exactly the loaded squares that name it |
| `Boards.Board.GetPlayerLocation` | Board.java:458-460 | The character's square is a grid square occupied by that character's piece |
| `Boards.Board.CheckPlayerInRoom` | Board.java:468-471 | True exactly when the character's square has a room and that room is not the passageway |
| `Boards.Board.GetPlayerRoom` | Board.java:478-480 | Looked up by character name (as at line 469): the room of the character's square, which is the registered room holding that square. Null exactly outside every room |
| `Boards.Board.GetPlayerRoomAsWritten` | Board.java:479 | The lookup by player name fails exactly when no piece bears that name, and otherwise agrees with the corrected lookup |
| `Boards.Board.GetPlayerRoomByPlayerNameFails` | Board.java:479 | A player whose name is not a piece name makes the lookup as written fail, although their character stands on the board |
| `Boards.Board.Relocate` | Piece.java:21-27 | Under the board invariant, moving a piece onto a free square keeps the invariant. The square left is emptied, and every other piece and square is unchanged |
| `Boards.Board.MovePlayerTo` | Board.java:386-388 | The character now stands on the given square, its old square is empty, and no other piece moved |
| `Boards.Board.MovePlayer` | Board.java:400-449 | Returns -1 exactly when the key's move check fails. Returns 1 only for a landing square visited this turn that is not the square just left. Returns 0 only after moving to a landing square: the neighbour itself in the passageway, otherwise a free non-entrance square of the neighbour's room. The unknown-key fault arises exactly for a key other than W, A, S and D; the other faults only for a step onto a square without a room or into a full room. Only a 0 changes anything |
| `Boards.Board.PlanStep` | Board.java:407-448 | The decision of one key press before anything moves, with the same case analysis as MovePlayer |
| `Boards.Board.Landing` | Board.java:410-414 | The square a permitted step ends on is a free grid square that the step may land on. The step fails exactly when the neighbour has no room, or its room is full |
| `Boards.Board.MovePiece` | Board.java:323-333 | An unknown character is the null dereference, and nothing moves. When the character can be brought in, it ends up in the suggested room (staying put when already inside). The weapon's failures then come after the character has moved: an unknown weapon, a missing room exactly when the weapon is in a room, a full room exactly when the squares left after the character are all taken. With both pieces known, the room registered and at least two free squares, it succeeds. No other piece moves |
| `Boards.Board.NamedRoom` | Board.java:325 | The room looked up is the registered room of that name, and null exactly when none is registered |
| `Boards.Board.BringWeaponAlong` | Board.java:326-332 | With the character already in the room, the weapon is brought in too. The unknown weapon, missing-room and full-room faults each hold exactly on their cause, and no piece but the weapon moves |
| `Boards.Board.BringIntoRoom` | Board.java:327-332 | A piece outside the room is moved onto one of its free non-entrance squares. A piece inside stays. It fails, changing nothing, exactly for a missing room or a full room |
| `Boards.Board.LabelRoomExits` | Board.java:269-273 | The labelling flag is raised. For a square with a room, the exits to label are the room's free exits, each listed once |
| `Boards.Board.OpensOntoAsWritten` | Board.java:344-375 | The side test as written throws exactly for an east side on the last column without an east wall, or a south side on the last row without a south wall. Otherwise it agrees with the corrected test |
| `Boards.Board.EdgeSquaresThrow` | Board.java:352-367 | Squares on the last row (column) without a south (east) wall make the loop as written throw. Inner squares are unaffected |
| `Boards.Board.CalculateRoomEntrancesAndExits` | Board.java:339-378 | Every room gains as entrances exactly its squares that open onto the passageway, and as exits the passageway squares they open onto; from a board without doors these are then its only doors. No room's squares change, no piece moves and the board invariant is kept |
| `Boards.Board.DoorsShape` | Board.java:344-375 | The entrances derived from a room's squares are squares of that room, and the exits derived are passageway squares |
| `Boards.Board.RecordRoomDoors` | Board.java:341-376 | The squares of one room, in any order, add exactly the entrances and exits they open onto |
| `Boards.Board.RecordDoors` | Board.java:344-375 | The four side checks of one square add its entrance and exits |
| `Boards.Board.RecordSide` | Board.java:344-350 | One side check adds the square and its passageway neighbour exactly when it opens onto the passageway there |
| `Boards.Board.GetStartLocationsForWeapons` | Board.java:122-133 | Whatever the shuffle, each room except the passageway and the cellar contributes one entry. That entry is a free non-entrance square of the room, or null exactly when the room has none. No two non-null entries share a room. Nothing on the board changes, so when every such room has a free square no entry is null |
| `Boards.Board.PlacePiece` | Board.java:97 | A fresh piece with the given icon is registered under a new name on a free square, and the occupancy bookkeeping is kept |
| `Boards.Board.SetupPieces` | Board.java:95-112 | On success the six characters stand on their fixed start squares and the six weapons are in six different rooms, none of them the passageway or the cellar. The short-list fault arises exactly when fewer than six rooms qualify. The full-room fault cannot arise when every such room keeps a free square once the characters stand |
| `Boards.Board.FinishSetup` | Board.java:27-28 | The rest of the constructor: the pieces are placed as by setupPieces, with the same faults. On success the doors are computed afterwards, so every room then has exactly the entrances and exits its squares open onto |
| `Boards.Board.SetupWeapons` | Board.java:104-111 | The weapons are placed in distinct rooms, other than the passageway and the cellar, and the characters stay on their starts. The short-list fault arises exactly when fewer than six rooms qualify, and the full-room fault cannot arise when each of them has a free square |
| `Boards.Board.PlaceOffered` | Board.java:105-111 | The six weapons go onto the first six offered squares. The short-list fault holds exactly when fewer than six are offered, and the full-room fault exactly when one of the first six is null |
| `Boards.Board.PlaceCharacters` | Board.java:96-102 | Each of the six characters stands on its own fixed start square, and the occupied squares are exactly those six |
| `Boards.Board.PlaceWeapons` | Board.java:106-111 | It fails exactly when one of the first six offered squares is null. Otherwise the six weapons are placed in the weapon rooms |
| `Boards.Board.PlacePieces` | Board.java:97-111 | The `put` statements in order: every piece stands on its offered square. It fails exactly when an offered square is null, keeping the pieces placed before it |
| `Boards.Board.PlaceAt` | Board.java:106 | One `put`: it fails exactly on a null square. Otherwise the piece stands on that square |
| `Boards.ListOf` | Board.java:271 | A set copied into a list has each element exactly once |
| `Players.TrailBounds` | Player.java:239-251 | A valid trail records no more squares than the dice allowed |
| `Players.AdvanceKeeps` | Player.java:246-250 | A forward step onto an unvisited square keeps the trail invariant: counter plus stack height is the roll, the visited set is the stack's squares, and there are no repeats |
| `Players.RetreatKeeps` | Player.java:242-245 | Stepping back onto the top of the stack keeps the trail invariant |
| `Players.RetreatUndoesAdvance` | Player.java:242-250 | A forward step followed by an undo restores the counter, the stack and the visited set |
| `Players.StepTrailKeeps` | Player.java:239-251 | Every corridor step that the board lets through keeps the trail invariant |
| `Players.Player.constructor` | Player.java:15-24 | A new player holds the given number and names, has an empty hand and an empty trail, and may accuse |
| `Players.Player.GiveCard` | Player.java:54 | The card is held under its name, and the rest of the hand is unchanged |
| `Players.Player.RollDice` | Player.java:188-194 | Each die lies between 1 and 6, and the counter is their sum, between 2 and 12 |
| `Players.Player.PrepareForMove` | Player.java:196-200 | A new turn starts with an empty stack and visited set and the counter at the roll, so the trail invariant holds |
| `Players.Player.Move` | Player.java:203-259 | Covers the three branches, with the exit test looking the room up by character name (the call at line 213 as written fails; see Findings). A destination without a room, or no steps left, changes nothing. The exit branch moves to the chosen free exit for one step. The entry branch moves to a free square of the room and ends the movement, failing exactly when the room is full. The corridor branch keeps the trail invariant. It faults exactly when the board step faults, refuses only for "Invalid", a failed move check or a revisit, and otherwise makes the step, recorded as a push or a pop. Every other piece keeps its square |
| `Players.Player.EnterOrStep` | Player.java:219-257 | The entry branch and the corridor branch, with the guarantees described for Move, including when the corridor step is made. Every other piece keeps its square |
| `Players.Player.LeavesBy` | Player.java:213 | The exit test holds exactly when the player is in a room other than the passageway and the destination is one of that room's free exits. The room is looked up by character name |
| `Players.Player.LeaveRoom` | Player.java:213-217 | The piece moves onto the chosen exit, for exactly one step. Every other piece keeps its square |
| `Players.Player.EnterRoom` | Player.java:220-225 | The piece moves to a free non-entrance square of the room and the counter drops to 0. A full room is the error, with no change. Every other piece keeps its square |
| `Players.Player.CorridorStep` | Player.java:230-256 | Faults exactly when the board step faults (an unknown key, a square without a room, a full room). Refuses only for "Invalid", a failed move check, or a landing on a visited square other than the one just left, and otherwise makes the step. Only a made step changes anything. Landing on the top of the stack pops it and refunds the step; any other step pushes the square left and spends one. The trail invariant is kept. Every other piece keeps its square |
| `Players.Player.RecordStep` | Player.java:239-251 | The push/pop update of the trail after a corridor step |
| `Players.Player.Refutable` | Player.java:311-323 | The refutable cards are exactly the cards of the hand that occur in the tuple |
| `Players.Player.RefuteOptions` | Player.java:311-323 | The loop over the hand collects exactly the refutable cards |
| `Players.Player.RefuteV2` | Player.java:278-300 | The refutable cards, or null exactly when there are none |
| `Players.Player.Refute` | Player.java:307-375 | A player with no refutable card answers null. Otherwise the answer is the one for the first typed line that names a tuple card: that card when some refutable card bears the name, and null otherwise. Running out of lines is the input error |
| `Players.HasCardNamed` | Player.java:338-343 | True exactly when some refutable card bears the name, ignoring case |
| `Players.RefuteAnswerHeld` | Player.java:333-368 | With distinctly named tuple cards, a card handed over in refutation is a refutable card the player holds |
| `Players.NamingAnUnheldCardRefutesNothing` | Player.java:337-345 | Naming a tuple card the player does not hold ends refutation with null, even when they hold another card of the tuple |
| `Players.Player.Accuse` | Player.java:391-401 | A player who has accused before is refused. Otherwise the single accusation is spent whatever its outcome, and it is right exactly when it matches the case file |
| `Players.IsCardAsWritten` | Player.java:267-276 | The type test as written returns the card of that name whatever its type |
| `Players.IsCardAcceptsWrongType` | Player.java:270-273 | Asked for a character named "Dagger", the test as written accepts the weapon, while the corrected test refuses it |
| `Players.IsCard` | Player.java:267-276 | A card is returned only when it bears the name and has the requested type, and it is returned whenever such a card exists |
| `Players.IsCardBuildsTuple` | Player.java:267-276 | Three cards that the corrected test accepted for the three types always make a valid tuple |
| `Players.EntryOnlyFromInside` | Player.java:220-221 | Entrances are room-side squares, so the entry branch fires only for a player who already stands in the destination room |
| `Games.CharacterKeysAreLowerCaseNames` | Game.java:247-252 | The key of every character card is its lower-cased name |
| `Games.WeaponKeysAreLowerCaseNames` | Game.java:253-258 | The key of every weapon card is its lower-cased name |
| `Games.RoomKeysAreLowerCaseNamesFirst` | Game.java:259-263 | The keys of the first five room cards are their lower-cased names |
| `Games.RoomKeysAreLowerCaseNamesRest` | Game.java:264-267 | The keys of the last four room cards are their lower-cased names |
| `Games.Game.CreateAllCards` | Game.java:245-268 | The deck is exactly the 21 cards |
| `Games.EveryCardFoundByName` | Game.java:245-268 | Every card of the deck is filed under its lower-cased name, so getCard finds it by its own name in any letter case; and a card getCard finds always bears the name asked for, ignoring case |
| `Games.FirstOfKind` | Game.java:297 | The position of the first card of the type: every earlier card has another type. It is the length when there is none |
| `Games.Game.GetMurderCard` | Game.java:294-305 | The first card of the type is taken out of the list, and nothing else is removed. It fails exactly when no card has that type. Other types remain in the list exactly as before |
| `Games.TakingKeepsOtherKinds` | Game.java:302 | Removing one card keeps the multiset of the others and every type other than its own |
| `Games.Game.PickCaseFile` | Game.java:276-282 | The case file holds a character, a weapon and a room. The list loses exactly those three cards. It fails exactly when some type is missing |
| `Games.ShuffleKeepsKinds` | Game.java:275 | A shuffled list has the same length and the same types of card |
| `Games.Game.SetUpMurder` | Game.java:274-287 | For every shuffle, on success the case file holds one card of each type and the list is three shorter and keeps the other cards. With no card listed twice, none of the case file's cards is left in the list |
| `Games.CaseCardsLeaveList` | Game.java:274-287 | With no card listed twice, the case file's cards are no longer in the list |
| `Games.KeysInOrder` | Game.java:341 | The player numbers are visited in increasing order, each once |
| `Games.Game.AssignCharacters` | Game.java:338-346 | The players are renumbered 1 to n in the increasing order of their old numbers. The player count is kept, and no player ends up under two numbers |
| `Games.Pos` | Game.java:354 | The position that receives a card is always one of the n players |
| `Games.ShareSize` | Game.java:352-361 | A position receives one card per complete round, plus one from the last partial round when it comes early enough |
| `Games.SharesBalanced` | Game.java:352-361 | Hand sizes after a deal differ by at most one card |
| `Games.DealIsPartition` | Game.java:352-361 | The shares of all positions together are exactly the cards dealt (as a multiset), so each card goes to exactly one player |
| `Games.GiveAllHolds` | Player.java:54 | A card given is held under its name unless a later card of the same name replaced it |
| `Games.HandAfterIsShare` | Game.java:353-359 | Dealing card by card leaves each position holding its starting hand plus its share |
| `Games.Game.DealCards` | Game.java:352-361 | Player num ends with its old hand plus every card of the share of position num - 1 in the backward, round-robin deal. Nothing but the hands changes |
| `Games.Game.DealRound` | Game.java:354-358 | One pass over the players deals at least one card, and the hands keep matching the deal so far. Nothing but the hands changes |
| `Games.Game.DealTo` | Game.java:355-356 | One card to one player, and every other hand stays as it was |
| `Games.Game.RefutationProcess` | Game.java:96-113 | The players are polled from the one after the current turn, wrapping past n, skipping the suggester. The first card shown, or the first failure, is the answer. Null if nobody refutes |
| `Games.PollOrder` | Game.java:100-103 | The i-th player asked is the player whose turn comes i turns later, so every number is asked once and the current turn last |
| `Games.Game.PollShowsAHeldCard` | Game.java:96-113 | A card shown is a card of the suggestion held by a player other than the suggester |
| `Games.Game.PollWithoutHolders` | Game.java:96-113 | When nobody but the suggester holds a suggested card, nobody refutes |
| `Games.Game.PollFailsOnlyForInput` | Game.java:96-113 | With players numbered 1 to n, polling fails only when a player runs out of input |
| `Games.RefuteFailsOnlyForInput` | Player.java:333-368 | The refute loop fails only when the typed lines run out |
| `Games.Game.AllPlayersCanAccuseAsWritten` | Game.java:211-215 | The loop as written answers the last player's flag only |
| `Games.LastFlagIgnoresEarlierPlayers` | Game.java:213 | With player 1 able to accuse and player 2 not, the answer as written is false although a player can still accuse |
| `Games.Game.SomePlayerCanAccuse` | Game.java:211-215 | True exactly when some player may still accuse |
| `Games.Game.constructor` | Game.java:44-47 | A new game has no cards, no players and no case file, and is not over |
| `Games.Game.EndTurn` | Game.java:57-64 | A won turn ends the game and the turn stays. Otherwise the turn passes to the next number, wrapping to 1, and the game is over exactly when no player can accuse. The turn stays within 1..n |
| `Games.TurnsRotate` | Game.java:61-62 | k turns after turn t it is the turn of t + k, wrapping past n |
| `Games.EveryPlayerGetsATurn` | Game.java:57-65 | Every player gets a turn within n turns, and after n turns the turn is back where it started |

## Left out

- **Cluedo.java.** The Swing front end is not part of this model.
- **Console output.** `draw`, `placeWallsAndRooms`, `placePieces`, `placePlayers`, `addRoomLabels`, `wallIsAdjacent`, `printLegend`, `printCards` and `toString` of Player are not modelled. They only produce text.
- **Interactive loops.** `playTurn`, `playTurnV2`, `getThreeCards`, `getPlayerCount`, `askToPlayAgain`, `main` and the printing of `play` are not modelled. What they read becomes inputs:
  - the refute loop's lines;
  - the accusation triple;
  - the verdict of `Location.checkAdjacent`, which is not part of this model.
- **Board file reading.** The `File` and `Scanner` reading in `loadBoard` is out. The grid is given as the parsed entries; the token parsing is modelled separately. `Boards.ParseToken` takes a token after the `trim()` of Board.java:63, so surrounding whitespace is not modelled.
- **Game setup and delegation.** `setup`, `createPlayers` and `selectPlayerCharacters` are not modelled; they build players with a constructor whose arguments do not match Player.java. The pass-through methods of Game.java (`getPlayerLocation`, `movePlayer`, `checkPlayerInRoom`, `getPlayerRoom`, `labelRoomExits`, `drawBoard`, `getLocation`, `getScanner`) are also out; the Board members are modelled directly.
- **Randomness.** Shuffles and dice are nondeterministic choices. No distribution is modelled.
- **Names instead of objects.** Board methods take the character's or player's name rather than a Player object. `canMove*` take the grid rather than the Board.
- **Card equality.** Cards are compared by value; the Java code compares references. All cards come from one deck, and `Card` has no `equals`.
- **Integer width.** Integers are unbounded. No counter in the source comes near 32 bits.
- **Board construction.** `Board()` (Board.java:24-29) runs setupRooms, loadBoard, setupPieces and calculateRoomEntrancesAndExits in that order. The model splits it in two: `Boards.Board.constructor` covers the first two steps, and `Boards.Board.FinishSetup` the last two. No single member runs all four. Two consequences of that order are stated here rather than proved:
  - the weapons are placed while no room has an entrance yet, so the entrance exclusion of `getRandomRoomLocation` has no effect at setup, and a weapon may end up on a square that later becomes an entrance;
  - with the side test as written (see Findings), the out-of-bounds read happens inside `new Board()` itself, in its last step. `FinishSetup` uses the corrected side test.
- **Lists.** The case-file list is returned rather than updated through a shared reference. Aliasing of that list is not modelled.
- **Exceptions.** Where a `NullPointerException` strikes after a partial update, the model reports the fault and keeps the state from before. For example, `setLocation(null)` clears the old square first.
- `Util.ToLower`: lower-cases ASCII letters only, because card names and typed choices are compared with `equalsIgnoreCase`, and Unicode case folding is not modelled.
- `Games.Game.DealCards`: requires at least one player. With none, the Java loop never ends unless the list is empty.
- `Games.Game.DealCards`: requires players numbered 1 to n. `setup` renumbers them first, with `assignCharacters`.
- `Games.Game.AllPlayersCanAccuseAsWritten`, `Games.Game.SomePlayerCanAccuse` and `Games.Game.EndTurn` also require players numbered 1 to n.
- `Players.Player.Refute`: each call is given its own typed lines. In the Java code, Player.java:369 closes a Scanner built over `System.in` (Player.java:326), which closes the console itself. So after the first refutation that reads a line, every later console read of the game fails: the next refutation with cards to offer, the game's own scanner, and `getThreeCards` (Player.java:408). In the model, such a later call corresponds to one given no lines, which answers the input error.
- `Cards.AccusationMatchesOnlyTheCase`: `checkAccusation` takes the case file as an argument, so the `NullPointerException` for a game without a case file is not modelled.

## Findings

| source | as written | input that shows it | evidently intended | confidence | as-written member | corrected member |
|---|---|---|---|---|---|---|
| Board.java:352 | The east and south side tests compare `col < WIDTH` and `row < HEIGHT`, so `currentBoard[row][col+1]` or `currentBoard[row+1][col]` is read past the grid | Any square in column 23 without an east wall, or in row 24 without a south wall. The passageway's own squares are visited too | `col < WIDTH - 1` and `row < HEIGHT - 1` | high; not executed | `Boards.Board.OpensOntoAsWritten`, `Boards.Board.EdgeSquaresThrow` | `Boards.Board.CalculateRoomEntrancesAndExits` |
| Board.java:479 | `getPlayerRoom` looks the piece up by `getPlayerName()`, but pieces are filed under character names | A player named "alice" playing Miss Scarlet, standing in a room: the lookup returns null and is dereferenced | Look up `getCharacterName()`, as `checkPlayerInRoom` does at line 469 | high; not executed | `Boards.Board.GetPlayerRoomAsWritten`, `Boards.Board.GetPlayerRoomByPlayerNameFails` | `Boards.Board.GetPlayerRoom` |
| Game.java:213 | `allPlayersCanAccuse` overwrites its flag with each player's, so it answers the last player's flag | Players 1 and 2, where player 1 may still accuse and player 2 has accused: the answer is false and the game is declared over | True when any player may still accuse | high; not executed | `Games.Game.AllPlayersCanAccuseAsWritten`, `Games.LastFlagIgnoresEarlierPlayers` | `Games.Game.SomePlayerCanAccuse` (used by `Games.Game.EndTurn`) |
| Player.java:270-273 | Both branches of the type test of `isCard` return the card found, so the requested type is never enforced | Asking for a character named "Dagger" returns the weapon card | Return the card only when its type matches | high; not executed | `Players.IsCardAsWritten`, `Players.IsCardAcceptsWrongType` | `Players.IsCard` |

Two further quirks are modelled as written, not corrected:

- **`Players.EntryOnlyFromInside`: the room-entry test** (Player.java:220-221). It looks for the player's square among the destination room's entrances. Entrances are room-side squares, so the branch fires only for a player already inside the room.
- **`Players.NamingAnUnheldCardRefutesNothing`: the refute loop** (Player.java:337-345). It stops at the first line naming a tuple card, even one the player does not hold.
