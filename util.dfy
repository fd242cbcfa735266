/** Small value wrappers shared by the whole model: optional values, and
    results that carry either a value or the fault the Java code would have
    raised (a NullPointerException, an index out of range, a thrown
    IllegalArgumentException). */
module Util {

  datatype Option<+T> = None | Some(value: T)

  datatype Result<+T, +E> = Ok(value: T) | Err(error: E)

  /** Every way the modelled Java code can end in an exception. */
  datatype Fault =
    | DuplicateCardType     // CardTuple.setCard throws IllegalArgumentException
    | MissingCardType       // Game.getMurderCard throws NullPointerException
    | NoPieceNamed          // a lookup in Board.pieces returned null
    | NoRoomNamed           // a lookup in Board.rooms returned null
    | CellWithoutRoom       // destination.room was null and was dereferenced
    | RoomFull              // getRandomRoomLocation returned null and it was dereferenced
    | UnknownDirection      // movePlayer's switch matched no case; the null destination was dereferenced
    | IndexOutOfBounds      // an array index outside the grid
    | MalformedToken        // a board token whose split left no wall part
    | NoInput               // Scanner.nextLine found no further line
    | NoPlayerNumbered      // players.get returned null and it was dereferenced

  /** ASCII lower-casing of one character, as String.toLowerCase does for ASCII text. */
  function LowerChar(c: char): (r: char)
    ensures 'A' <= c <= 'Z' ==> r as int == c as int + 32
    ensures !('A' <= c <= 'Z') ==> r == c
  {
    if 'A' <= c <= 'Z' then (c as int + 32) as char else c
  }

  function ToLower(s: string): (r: string)
    ensures |r| == |s|
    ensures forall i :: 0 <= i < |s| ==> r[i] == LowerChar(s[i])
  {
    seq(|s|, i requires 0 <= i < |s| => LowerChar(s[i]))
  }

  /** String.equalsIgnoreCase, restricted to ASCII letters. */
  predicate EqualsIgnoreCase(a: string, b: string)
  {
    ToLower(a) == ToLower(b)
  }

  /** The elements of a sequence, as a set. */
  function Elems<T>(s: seq<T>): set<T>
  {
    set x | x in s
  }

  /** No element occurs twice. */
  predicate NoDup<T(==)>(s: seq<T>)
  {
    forall i, j :: 0 <= i < j < |s| ==> s[i] != s[j]
  }

  /** A sequence without repeats has as many elements as its set. */
  lemma {:induction false} ElemsCount<T>(s: seq<T>)
    requires NoDup(s)
    ensures |Elems(s)| == |s|
  {
    if s != [] {
      var init := s[..|s| - 1];
      assert NoDup(init);
      ElemsCount(init);
      assert s == init + [s[|s| - 1]];
      assert Elems(s) == Elems(init) + {s[|s| - 1]};
      assert s[|s| - 1] !in Elems(init);
    }
  }
}
