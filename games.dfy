/** The game (Game.java): the deck and its lookup, the case file, the
    numbering of the players, the deal, the polling of players for a
    refutation and the rotation of turns. The board and the console are
    reached through the other modules. */
module Games {
  import opened Util
  import opened Cards
  import opened Boards
  import opened Players
  import Tiles

  // ------------------------------------------------------------- the deck

  /** Game.createAllCards: six characters, six weapons and nine rooms, each
      stored under its lower-cased name. */
  function AllCards(): map<string, Card>
  {
    map[
      "miss scarlet" := Card("Miss Scarlet", CHARACTER),
      "colonel mustard" := Card("Colonel Mustard", CHARACTER),
      "mrs white" := Card("Mrs White", CHARACTER),
      "mr green" := Card("Mr Green", CHARACTER),
      "mrs peacock" := Card("Mrs Peacock", CHARACTER),
      "professor plum" := Card("Professor Plum", CHARACTER),
      "candlestick" := Card("Candlestick", WEAPON),
      "dagger" := Card("Dagger", WEAPON),
      "lead pipe" := Card("Lead Pipe", WEAPON),
      "revolver" := Card("Revolver", WEAPON),
      "rope" := Card("Rope", WEAPON),
      "spanner" := Card("Spanner", WEAPON),
      "kitchen" := Card("Kitchen", ROOM),
      "ball room" := Card("Ball Room", ROOM),
      "conservatory" := Card("Conservatory", ROOM),
      "dining room" := Card("Dining Room", ROOM),
      "billiard room" := Card("Billiard Room", ROOM),
      "library" := Card("Library", ROOM),
      "lounge" := Card("Lounge", ROOM),
      "hall" := Card("Hall", ROOM),
      "study" := Card("Study", ROOM)
    ]
  }

  /** Game.createAllCards stores the first three character cards under these keys. */
  lemma CharacterEntriesFirst()
    ensures "miss scarlet" in AllCards() && AllCards()["miss scarlet"] == Card("Miss Scarlet", CHARACTER)
    ensures "colonel mustard" in AllCards() && AllCards()["colonel mustard"] == Card("Colonel Mustard", CHARACTER)
    ensures "mrs white" in AllCards() && AllCards()["mrs white"] == Card("Mrs White", CHARACTER)
  {
  }

  /** Game.createAllCards stores the last three character cards under these keys. */
  lemma CharacterEntriesRest()
    ensures "mr green" in AllCards() && AllCards()["mr green"] == Card("Mr Green", CHARACTER)
    ensures "mrs peacock" in AllCards() && AllCards()["mrs peacock"] == Card("Mrs Peacock", CHARACTER)
    ensures "professor plum" in AllCards() && AllCards()["professor plum"] == Card("Professor Plum", CHARACTER)
  {
  }

  /** Game.createAllCards stores the six weapon cards under these keys. */
  lemma WeaponEntries()
    ensures "candlestick" in AllCards() && AllCards()["candlestick"] == Card("Candlestick", WEAPON)
    ensures "dagger" in AllCards() && AllCards()["dagger"] == Card("Dagger", WEAPON)
    ensures "lead pipe" in AllCards() && AllCards()["lead pipe"] == Card("Lead Pipe", WEAPON)
    ensures "revolver" in AllCards() && AllCards()["revolver"] == Card("Revolver", WEAPON)
    ensures "rope" in AllCards() && AllCards()["rope"] == Card("Rope", WEAPON)
    ensures "spanner" in AllCards() && AllCards()["spanner"] == Card("Spanner", WEAPON)
  {
  }

  /** Game.createAllCards stores the first five room cards under these keys. */
  lemma RoomEntriesFirst()
    ensures "kitchen" in AllCards() && AllCards()["kitchen"] == Card("Kitchen", ROOM)
    ensures "ball room" in AllCards() && AllCards()["ball room"] == Card("Ball Room", ROOM)
    ensures "conservatory" in AllCards() && AllCards()["conservatory"] == Card("Conservatory", ROOM)
    ensures "dining room" in AllCards() && AllCards()["dining room"] == Card("Dining Room", ROOM)
    ensures "billiard room" in AllCards() && AllCards()["billiard room"] == Card("Billiard Room", ROOM)
  {
  }

  /** Game.createAllCards stores the last four room cards under these keys. */
  lemma RoomEntriesRest()
    ensures "library" in AllCards() && AllCards()["library"] == Card("Library", ROOM)
    ensures "lounge" in AllCards() && AllCards()["lounge"] == Card("Lounge", ROOM)
    ensures "hall" in AllCards() && AllCards()["hall"] == Card("Hall", ROOM)
    ensures "study" in AllCards() && AllCards()["study"] == Card("Study", ROOM)
  {
  }

  /** The key of each character card is its name in lower case. */
  lemma CharacterKeysAreLowerCaseNames()
    ensures ToLower("Miss Scarlet") == "miss scarlet"
    ensures ToLower("Colonel Mustard") == "colonel mustard"
    ensures ToLower("Mrs White") == "mrs white"
    ensures ToLower("Mr Green") == "mr green"
    ensures ToLower("Mrs Peacock") == "mrs peacock"
    ensures ToLower("Professor Plum") == "professor plum"
  {
  }

  /** The key of each weapon card is its name in lower case. */
  lemma WeaponKeysAreLowerCaseNames()
    ensures ToLower("Candlestick") == "candlestick"
    ensures ToLower("Dagger") == "dagger"
    ensures ToLower("Lead Pipe") == "lead pipe"
    ensures ToLower("Revolver") == "revolver"
    ensures ToLower("Rope") == "rope"
    ensures ToLower("Spanner") == "spanner"
  {
  }

  /** The keys of the first five room cards are their names in lower case. */
  lemma RoomKeysAreLowerCaseNamesFirst()
    ensures ToLower("Kitchen") == "kitchen"
    ensures ToLower("Ball Room") == "ball room"
    ensures ToLower("Conservatory") == "conservatory"
    ensures ToLower("Dining Room") == "dining room"
    ensures ToLower("Billiard Room") == "billiard room"
  {
  }

  /** The keys of the last four room cards are their names in lower case. */
  lemma RoomKeysAreLowerCaseNamesRest()
    ensures ToLower("Library") == "library"
    ensures ToLower("Lounge") == "lounge"
    ensures ToLower("Hall") == "hall"
    ensures ToLower("Study") == "study"
  {
  }

  /** Every card of the deck is stored under its own name in lower case, so
      Game.getCard finds each card by its name, whatever its case. */
  lemma EveryCardFoundByName()
    ensures forall k :: k in AllCards() ==> ToLower(AllCards()[k].name) == k
    ensures forall k, name :: k in AllCards() && EqualsIgnoreCase(name, AllCards()[k].name) ==>
              GetCard(AllCards(), name) == Some(AllCards()[k])
    ensures forall name :: GetCard(AllCards(), name).Some? ==>
              EqualsIgnoreCase(name, GetCard(AllCards(), name).value.name)
  {
    CharacterEntriesFirst();
    CharacterEntriesRest();
    WeaponEntries();
    RoomEntriesFirst();
    RoomEntriesRest();
    CharacterKeysAreLowerCaseNames();
    WeaponKeysAreLowerCaseNames();
    RoomKeysAreLowerCaseNamesFirst();
    RoomKeysAreLowerCaseNamesRest();
  }

  // ---------------------------------------------------- picking from lists

  /** The position of the first card of type t, or the length of the list
      when there is none. */
  function FirstOfKind(cards: seq<Card>, t: CardType): (i: int)
    ensures 0 <= i <= |cards|
    ensures i < |cards| ==> cards[i].kind == t
    ensures forall j :: 0 <= j < i ==> cards[j].kind != t
  {
    if cards == [] then 0
    else if cards[0].kind == t then 0
    else 1 + FirstOfKind(cards[1..], t)
  }

  /** The first position of type t is the only one with no earlier card of
      that type. */
  lemma {:induction false} FirstOfKindIs(cards: seq<Card>, t: CardType, i: int)
    requires 0 <= i <= |cards|
    requires i < |cards| ==> cards[i].kind == t
    requires forall j :: 0 <= j < i ==> cards[j].kind != t
    ensures FirstOfKind(cards, t) == i
  {
    if cards != [] && cards[0].kind != t {
      assert 0 < i;
      FirstOfKindIs(cards[1..], t, i - 1);
    }
  }

  /** A list without repeated cards holds each card at most once. */
  lemma {:induction false} NoDupCount(s: seq<Card>, x: Card)
    requires NoDup(s)
    ensures multiset(s)[x] <= 1
  {
    if s != [] {
      assert s == [s[0]] + s[1..];
      assert NoDup(s[1..]) by {
        forall i, j | 0 <= i < j < |s[1..]|
          ensures s[1..][i] != s[1..][j]
        {
          assert s[1..][i] == s[i + 1] && s[1..][j] == s[j + 1];
        }
      }
      NoDupCount(s[1..], x);
      if x == s[0] {
        assert x !in s[1..];
      }
    }
  }

  /** Some card of the list has type t. */
  predicate HasKind(cards: seq<Card>, t: CardType)
  {
    exists c :: c in cards && c.kind == t
  }

  /** The list has a card of each of the three types. */
  predicate HasEveryKind(cards: seq<Card>)
  {
    forall t: CardType :: HasKind(cards, t)
  }

  // --------------------------------------------------------- player order

  /** The smallest element of a non-empty set of numbers. */
  lemma {:induction false} MinOf(s: set<int>) returns (m: int)
    requires s != {}
    ensures m in s && forall x :: x in s ==> m <= x
    decreases |s|
  {
    if forall z :: z !in s {
      assert false;
    }
    var y :| y in s;
    var rest := s - {y};
    if rest == {} {
      m := y;
      forall x | x in s
        ensures m <= x
      {
        assert x !in rest;
      }
    } else {
      var r := MinOf(rest);
      m := if y < r then y else r;
      forall x | x in s
        ensures m <= x
      {
        if x != y {
          assert x in rest;
        }
      }
    }
  }

  /** ks lists the numbers of s in increasing order: the order in which a
      TreeMap visits its keys. */
  ghost predicate SortedOf(ks: seq<int>, s: set<int>)
  {
    && |ks| == |s|
    && (forall i :: 0 <= i < |ks| ==> ks[i] in s)
    && (forall x :: x in s ==> x in ks)
    && (forall i, j :: 0 <= i < j < |ks| ==> ks[i] < ks[j])
  }

  /** Two increasing listings of one set start with the same number. */
  lemma SortedOfHead(a: seq<int>, b: seq<int>, s: set<int>)
    requires SortedOf(a, s) && SortedOf(b, s) && a != []
    ensures b != [] && a[0] == b[0]
  {
    assert forall i :: 0 <= i < |a| ==> a[i] in s;
    assert forall i :: 0 <= i < |b| ==> b[i] in s;
    assert forall x :: x in s ==> x in a && x in b;
    assert forall i, j :: 0 <= i < j < |a| ==> a[i] < a[j];
    assert forall i, j :: 0 <= i < j < |b| ==> b[i] < b[j];
    assert b[0] in a && a[0] in b;
  }

  /** Dropping the first number of an increasing listing lists the rest. */
  lemma SortedOfTail(a: seq<int>, s: set<int>)
    requires SortedOf(a, s) && a != []
    ensures SortedOf(a[1..], s - {a[0]})
  {
    assert forall i :: 0 <= i < |a| ==> a[i] in s;
    assert forall x :: x in s ==> x in a;
    assert forall i, j :: 0 <= i < j < |a| ==> a[i] < a[j];
    forall x | x in s - {a[0]}
      ensures x in a[1..]
    {
      assert x in a && x != a[0];
    }
  }

  /** There is only one increasing listing of a set. */
  lemma {:induction false} SortedOfUnique(a: seq<int>, b: seq<int>, s: set<int>)
    requires SortedOf(a, s) && SortedOf(b, s)
    ensures a == b
    decreases |a|
  {
    if a != [] {
      SortedOfHead(a, b, s);
      SortedOfTail(a, s);
      SortedOfTail(b, s);
      SortedOfUnique(a[1..], b[1..], s - {a[0]});
      assert a == [a[0]] + a[1..] && b == [b[0]] + b[1..];
    } else {
      assert |b| == |s| == 0;
    }
  }

  /** The keys of a TreeMap in the order it visits them, computed by taking
      the smallest remaining key again and again. */
  method KeysInOrder(keys: set<int>) returns (ks: seq<int>)
    ensures SortedOf(ks, keys)
  {
    ks := [];
    var todo := keys;
    while todo != {}
      invariant todo <= keys
      invariant forall i :: 0 <= i < |ks| ==> ks[i] in keys && ks[i] !in todo
      invariant forall x :: x in keys ==> x in todo || x in ks
      invariant forall i, j :: 0 <= i < j < |ks| ==> ks[i] < ks[j]
      invariant forall i, x :: 0 <= i < |ks| && x in todo ==> ks[i] < x
      invariant |ks| + |todo| == |keys|
      decreases |todo|
    {
      ghost var least := MinOf(todo);
      var m :| m in todo && forall x :: x in todo ==> m <= x;
      ks := ks + [m];
      todo := todo - {m};
    }
  }

  // ------------------------------------------------------------- dealing

  /** The order Game.dealCards hands the cards out: from the end of the
      list backwards. */
  function DealOrder(cards: seq<Card>): (order: seq<Card>)
    ensures |order| == |cards|
    ensures forall d :: 0 <= d < |cards| ==> order[d] == cards[|cards| - 1 - d]
  {
    seq(|cards|, d requires 0 <= d < |cards| => cards[|cards| - 1 - d])
  }

  /** The position, among n players, of the player who receives the d-th
      card dealt (counting from 0): one further each card, back to the
      first after the last. */
  function Pos(d: nat, n: nat): (p: nat)
    requires 0 < n
    ensures p < n
  {
    if d == 0 then 0
    else if Pos(d - 1, n) + 1 == n then 0
    else Pos(d - 1, n) + 1
  }
  /** The position after d is the next one, wrapping to 0 after the last. */
  lemma PosStep(d: nat, n: nat)
    requires 0 < n
    ensures Pos(d + 1, n) == if Pos(d, n) + 1 == n then 0 else Pos(d, n) + 1
  {
  }


  /** The number of complete rounds among the first d cards dealt. */
  function Rounds(d: nat, n: nat): nat
    requires 0 < n
  {
    if d == 0 then 0
    else Rounds(d - 1, n) + (if Pos(d - 1, n) + 1 == n then 1 else 0)
  }

  /** The cards that the player at position q of n receives when the
      cards are handed out in this order, round and round. */
  function Share(order: seq<Card>, n: nat, q: nat): seq<Card>
    requires q < n
  {
    if order == [] then []
    else Share(order[..|order| - 1], n, q)
         + (if Pos(|order| - 1, n) == q then [order[|order| - 1]] else [])
  }

  /** One more card dealt goes to the position it falls on, and to nobody
      else. */
  lemma ShareGrows(order: seq<Card>, n: nat, q: nat, d: nat)
    requires q < n && d < |order|
    ensures Share(order[..d + 1], n, q) == Share(order[..d], n, q) + (if Pos(d, n) == q then [order[d]] else [])
  {
    assert order[..d + 1][..d] == order[..d];
  }

  /** Position q receives one card per complete round, plus one from the
      last, incomplete round when q comes before the position the next
      card would go to. */
  lemma {:induction false} ShareSize(order: seq<Card>, n: nat, q: nat)
    requires q < n
    ensures |Share(order, n, q)| == Rounds(|order|, n) + (if q < Pos(|order|, n) then 1 else 0)
  {
    if order != [] {
      ShareSize(order[..|order| - 1], n, q);
    }
  }

  /** Hand sizes after a deal differ by at most one card. */
  lemma SharesBalanced(order: seq<Card>, n: nat, q1: nat, q2: nat)
    requires q1 < n && q2 < n
    ensures |Share(order, n, q1)| <= |Share(order, n, q2)| + 1
  {
    ShareSize(order, n, q1);
    ShareSize(order, n, q2);
  }

  /** The cards of the positions below m, put together. */
  function SharesBelow(order: seq<Card>, n: nat, m: nat): multiset<Card>
    requires 0 < n && m <= n
  {
    if m == 0 then multiset{} else SharesBelow(order, n, m - 1) + multiset(Share(order, n, m - 1))
  }

  /** The last card dealt joins the share of its own position only. */
  lemma ShareLastCard(order: seq<Card>, n: nat, q: nat)
    requires q < n && order != []
    ensures multiset(Share(order, n, q)) ==
              multiset(Share(order[..|order| - 1], n, q))
              + (if Pos(|order| - 1, n) == q then multiset{order[|order| - 1]} else multiset{})
  {
    var l := |order| - 1;
    assert Share(order, n, q) == Share(order[..l], n, q) + (if Pos(l, n) == q then [order[l]] else []);
  }

  /** The last card dealt joins the cards below m exactly when its
      position is below m. */
  lemma {:induction false} SharesBelowGrow(order: seq<Card>, n: nat, m: nat)
    requires 0 < m <= n && order != []
    ensures SharesBelow(order, n, m) ==
              SharesBelow(order[..|order| - 1], n, m)
              + (if Pos(|order| - 1, n) < m then multiset{order[|order| - 1]} else multiset{})
  {
    var l := |order| - 1;
    var pre, last := order[..l], order[l];
    var all, mine := SharesBelow(order, n, m - 1), multiset(Share(order, n, m - 1));
    var earlier, before := SharesBelow(pre, n, m - 1), multiset(Share(pre, n, m - 1));
    ShareLastCard(order, n, m - 1);
    if m > 1 {
      SharesBelowGrow(order, n, m - 1);
    }
    if Pos(l, n) < m - 1 {
      SharesBelowJoin(all, mine, earlier, before, multiset{last}, multiset{}, multiset{last});
    } else if Pos(l, n) == m - 1 {
      SharesBelowJoin(all, mine, earlier, before, multiset{}, multiset{last}, multiset{last});
    } else {
      SharesBelowJoin(all, mine, earlier, before, multiset{}, multiset{}, multiset{});
    }
  }

  /** The step of SharesBelowGrow, on multisets alone. */
  lemma SharesBelowJoin<T>(all: multiset<T>, mine: multiset<T>, earlier: multiset<T>, before: multiset<T>,
                           below: multiset<T>, here: multiset<T>, extra: multiset<T>)
    requires all == earlier + below && mine == before + here && extra == below + here
    ensures all + mine == (earlier + before) + extra
  {
  }

  /** Before the first card nobody holds anything. */
  lemma {:induction false} NothingDealt(n: nat, m: nat)
    requires 0 < n && m <= n
    ensures SharesBelow([], n, m) == multiset{}
  {
    if m > 0 {
      NothingDealt(n, m - 1);
    }
  }

  /** Every card dealt goes to exactly one player: the shares of all n
      positions together are the cards dealt. */
  lemma {:induction false} DealIsPartition(order: seq<Card>, n: nat)
    requires 0 < n
    ensures SharesBelow(order, n, n) == multiset(order)
  {
    if order == [] {
      NothingDealt(n, n);
    } else {
      var pre := order[..|order| - 1];
      DealIsPartition(pre, n);
      SharesBelowGrow(order, n, n);
      assert Pos(|order| - 1, n) < n;
      assert order == pre + [order[|order| - 1]];
      assert multiset(order) == multiset(pre) + multiset{order[|order| - 1]};
    }
  }

  /** The hand after each card of cs was given in turn. */
  function GiveAll(hand: map<string, Card>, cs: seq<Card>): map<string, Card>
  {
    if cs == [] then hand
    else GiveAll(hand, cs[..|cs| - 1])[cs[|cs| - 1].name := cs[|cs| - 1]]
  }

  /** A card given is held under its name unless a later card of the same
      name replaced it. */
  lemma {:induction false} GiveAllHolds(hand: map<string, Card>, cs: seq<Card>, i: nat)
    requires i < |cs| && forall j :: i < j < |cs| ==> cs[j].name != cs[i].name
    ensures cs[i].name in GiveAll(hand, cs) && GiveAll(hand, cs)[cs[i].name] == cs[i]
  {
    var l := |cs| - 1;
    if i < l {
      GiveAllHolds(hand, cs[..l], i);
    }
  }

  /** A hand during the deal: the d-th card dealt is added to the hand of
      the position it falls on, and to no other. */
  lemma DealtHand(hand: map<string, Card>, order: seq<Card>, n: nat, q: nat, d: nat,
                  before: map<string, Card>, after: map<string, Card>)
    requires q < n && d < |order|
    requires before == GiveAll(hand, Share(order[..d], n, q))
    requires after == if Pos(d, n) == q then before[order[d].name := order[d]] else before
    ensures after == GiveAll(hand, Share(order[..d + 1], n, q))
  {
    var dealt := Share(order[..d], n, q);
    ShareGrows(order, n, q, d);
    if Pos(d, n) == q {
      var given := dealt + [order[d]];
      assert Share(order[..d + 1], n, q) == given;
      assert given != [] && given[..|given| - 1] == dealt && given[|given| - 1] == order[d];
      assert GiveAll(hand, given) == GiveAll(hand, dealt)[order[d].name := order[d]];
    } else {
      assert Share(order[..d + 1], n, q) == dealt + [] == dealt;
    }
  }

  /** The hand of position q after the first d cards of order were dealt
      one by one. */
  function HandAfter(hand: map<string, Card>, order: seq<Card>, d: nat, n: nat, q: nat): map<string, Card>
    requires d <= |order| && 0 < n
  {
    if d == 0 then hand
    else if Pos(d - 1, n) == q then HandAfter(hand, order, d - 1, n, q)[order[d - 1].name := order[d - 1]]
    else HandAfter(hand, order, d - 1, n, q)
  }

  /** Dealing card by card leaves each position holding exactly its share. */
  lemma {:induction false} HandAfterIsShare(hand: map<string, Card>, order: seq<Card>, n: nat, q: nat, d: nat)
    requires q < n && d <= |order|
    ensures HandAfter(hand, order, d, n, q) == GiveAll(hand, Share(order[..d], n, q))
  {
    if d == 0 {
      assert order[..0] == [];
    } else {
      HandAfterIsShare(hand, order, n, q, d - 1);
      DealtHand(hand, order, n, q, d - 1, HandAfter(hand, order, d - 1, n, q), HandAfter(hand, order, d, n, q));
    }
  }

  // ---------------------------------------------------------- refutation

  /** What Player.refute answers when asked about tup and typing lines. */
  ghost function Answer(p: Player, tup: CardTuple, lines: seq<string>): Result<Option<Card>, Fault>
    reads p
  {
    if p.Refutable(tup) == {} then Ok(None) else RefuteAnswer(tup, p.Refutable(tup), lines)
  }

  /** The lines a player types when asked to refute: none when the replies
      hold nothing for them. */
  function Lines(replies: map<int, seq<string>>, num: int): seq<string>
  {
    if num in replies then replies[num] else []
  }

  /** The number of the i-th player asked, counting on from the player
      whose turn it is and wrapping round once past the last number. */
  function PollNumber(i: int, turnNum: int, n: int): int
  {
    if i + turnNum > n then i + turnNum - n else i + turnNum
  }

  /** Game.play moves the turn on by one, and back to 1 after n. */
  function NextTurn(t: int, n: int): int
  {
    if t + 1 > n then 1 else t + 1
  }

  /** The turn after k more turns without a winner. */
  function TurnAfter(t: int, n: int, k: nat): int
  {
    if k == 0 then t else NextTurn(TurnAfter(t, n, k - 1), n)
  }

  /** Turns go round the players in number order: within n turns of turn t
      it is the turn of t + k, wrapping past n to 1. */
  lemma {:induction false} TurnsRotate(t: int, n: int, k: nat)
    requires 1 <= t <= n && k <= n
    ensures TurnAfter(t, n, k) == if t + k <= n then t + k else t + k - n
  {
    if k > 0 {
      TurnsRotate(t, n, k - 1);
    }
  }

  /** How many turns after turn t it is player p's turn. */
  function TurnsUntil(t: int, n: int, p: int): nat
    requires 1 <= t <= n && 1 <= p <= n
  {
    if p >= t then p - t else p + n - t
  }

  /** Every player gets a turn within n turns of turn t, and after n turns
      the turn is back where it started. */
  lemma EveryPlayerGetsATurn(t: int, n: int, p: int)
    requires 1 <= t <= n && 1 <= p <= n
    ensures TurnsUntil(t, n, p) < n && TurnAfter(t, n, TurnsUntil(t, n, p)) == p
    ensures TurnAfter(t, n, n) == t
  {
    TurnsRotate(t, n, n);
    TurnsRotate(t, n, TurnsUntil(t, n, p));
  }

  /** The players asked to refute are those whose turns come next, in
      turn order: t + 1, ..., n, then 1, ..., t, so each number once and
      the suggester's own turn last. */
  lemma {:induction false} PollOrder(t: int, n: int, i: int)
    requires 1 <= t <= n && 1 <= i <= n
    ensures PollNumber(i, t, n) == TurnAfter(t, n, i)
    ensures 1 <= PollNumber(i, t, n) <= n
    ensures PollNumber(i, t, n) == t <==> i == n
  {
    TurnsRotate(t, n, i);
  }

  /** The last flag of a list: what Game.allPlayersCanAccuse computes. */
  function LastFlag(flags: seq<bool>): bool
  {
    if flags == [] then false else flags[|flags| - 1]
  }

  /** With players 1 and 2 where only player 1 may still accuse, the
      method answers false, so the game is declared over although a
      player could still accuse. */
  lemma LastFlagIgnoresEarlierPlayers()
    ensures LastFlag([true, false]) == false
    ensures exists i :: 0 <= i < |[true, false]| && [true, false][i]
  {
    assert [true, false][0];
  }

  // ------------------------------------------------------------- Game.java

  class Game {
    /** The deck, keyed by lower-cased card names. */
    var allCards: map<string, Card>
    /** Player numbers to players; a TreeMap, so it is visited in
        increasing number order. */
    var players: map<int, Player>
    /** The case file; None until the murder is set up. */
    var murder: Option<CardTuple>
    var turnNum: int
    var gameOver: bool

    /** A new game has no cards, no players and no case file. */
    constructor ()
      ensures allCards == map[] && players == map[] && murder == None
      ensures turnNum == 0 && !gameOver
    {
      allCards := map[];
      players := map[];
      murder := None;
      turnNum := 0;
      gameOver := false;
    }

    /** The players are numbered 1 to n, as they are once the setup has
        renumbered them; the map then visits them in that order. */
    ghost predicate Numbered()
      reads this
    {
      forall k :: k in players <==> 1 <= k <= |players|
    }

    /** No player object sits under two numbers. */
    ghost predicate DistinctPlayers()
      reads this
    {
      forall i, j :: i in players && j in players && i != j ==> players[i] != players[j]
    }

    /** The players' accusation flags, in number order. */
    ghost function Flags(): (flags: seq<bool>)
      requires Numbered()
      reads this, players.Values
      ensures |flags| == |players|
      ensures forall i :: 0 <= i < |players| ==> flags[i] == players[i + 1].canAccuse
    {
      seq(|players|, i reads this, players.Values => if i + 1 in players then players[i + 1].canAccuse else false)
    }

    /** The hand of every player, by number. */
    ghost function Hands(): (hands: map<int, map<string, Card>>)
      reads this, players.Values
      ensures hands.Keys == players.Keys
      ensures forall k :: k in players ==> hands[k] == players[k].hand
    {
      map k | k in players :: players[k].hand
    }

    method CreateAllCards()
      modifies this`allCards
      ensures allCards == AllCards()
    {
      allCards := AllCards();
    }

    /** Game.getMurderCard: the first card of type t is taken out of the
        list; a list without such a card is an error. */
    method GetMurderCard(cards: seq<Card>, t: CardType) returns (r: Result<Card, Fault>, rest: seq<Card>)
      ensures r.Err? <==> !HasKind(cards, t)
      ensures r.Err? ==> r.error == MissingCardType && rest == cards
      ensures r.Ok? ==> var i := FirstOfKind(cards, t);
                        r.value == cards[i] && rest == cards[..i] + cards[i + 1..]
      ensures r.Ok? ==> r.value.kind == t && |rest| == |cards| - 1
      ensures r.Ok? ==> multiset(rest) + multiset{r.value} == multiset(cards)
      ensures r.Ok? ==> forall u :: u != t ==> (HasKind(rest, u) <==> HasKind(cards, u))
    {
      var i := 0;
      while i < |cards|
        invariant 0 <= i <= |cards|
        invariant forall j :: 0 <= j < i ==> cards[j].kind != t
      {
        if cards[i].kind == t {
          break;
        }
        i := i + 1;
      }
      FirstOfKindIs(cards, t, i);
      if i == |cards| {
        return Err(MissingCardType), cards;
      }
      r := Ok(cards[i]);
      rest := cards[..i] + cards[i + 1..];
      TakingKeepsOtherKinds(cards, i);
    }

    /** The loop of Game.setUpMurder: the first character, the first
        weapon and the first room of the list are taken out of it, in that
        order, and make up the case file. */
    method PickCaseFile(cards: seq<Card>) returns (r: Result<CardTuple, Fault>, rest: seq<Card>)
      ensures r.Err? <==> !HasEveryKind(cards)
      ensures r.Err? ==> r.error == MissingCardType
      ensures r.Ok? ==> && r.value.characterCard.kind == CHARACTER
                        && r.value.weaponCard.kind == WEAPON
                        && r.value.roomCard.kind == ROOM
      ensures r.Ok? ==> |rest| == |cards| - 3 &&
                        multiset(rest) + multiset{r.value.characterCard, r.value.weaponCard, r.value.roomCard}
                          == multiset(cards)
    {
      var charCard, afterChar := GetMurderCard(cards, CHARACTER);
      if charCard.Err? {
        return Err(MissingCardType), afterChar;
      }
      var weapCard, afterWeap := GetMurderCard(afterChar, WEAPON);
      if weapCard.Err? {
        return Err(MissingCardType), afterWeap;
      }
      var roomCard, afterRoom := GetMurderCard(afterWeap, ROOM);
      if roomCard.Err? {
        return Err(MissingCardType), afterRoom;
      }
      assert forall t: CardType :: HasKind(cards, t) by {
        assert HasKind(cards, CHARACTER) && HasKind(cards, WEAPON) && HasKind(cards, ROOM);
      }
      r := NewCardTuple(charCard.value, weapCard.value, roomCard.value);
      rest := afterRoom;
      TupleHoldsArguments(r.value, charCard.value, weapCard.value, roomCard.value);
    }

    /** Game.setUpMurder: the list is shuffled (any order may come out),
        then the case file is picked from it. It fails when a type has no
        card, leaving the case file as it was. */
    method SetUpMurder(cards: seq<Card>) returns (r: Result<CardTuple, Fault>, rest: seq<Card>)
      modifies this`murder
      ensures r.Err? <==> !HasEveryKind(cards)
      ensures r.Err? ==> r.error == MissingCardType && murder == old(murder)
      ensures r.Ok? ==> murder == Some(r.value)
      ensures r.Ok? ==> && r.value.characterCard.kind == CHARACTER
                        && r.value.weaponCard.kind == WEAPON
                        && r.value.roomCard.kind == ROOM
      ensures r.Ok? ==> |rest| == |cards| - 3 &&
                        multiset(rest) + multiset{r.value.characterCard, r.value.weaponCard, r.value.roomCard}
                          == multiset(cards)
      ensures r.Ok? && NoDup(cards) ==> && r.value.characterCard !in rest
                                        && r.value.weaponCard !in rest
                                        && r.value.roomCard !in rest
    {
      assert multiset(cards) == multiset(cards);
      var shuffled :| multiset(shuffled) == multiset(cards);
      ShuffleKeepsKinds(cards, shuffled);
      assert HasEveryKind(shuffled) <==> HasEveryKind(cards);
      r, rest := PickCaseFile(shuffled);
      if r.Ok? {
        murder := Some(r.value);
        if NoDup(cards) {
          CaseCardsLeaveList(cards, rest, r.value);
        }
      }
    }

    /** Game.assignCharacters: the players are renumbered 1, 2, ... in the
        order of their old numbers. */
    method AssignCharacters() returns (ghost order: seq<int>)
      modifies this`players
      ensures SortedOf(order, old(players).Keys)
      ensures Numbered() && |players| == |old(players)|
      ensures forall i :: 0 <= i < |order| ==> players[i + 1] == old(players)[order[i]]
      ensures old(DistinctPlayers()) ==> DistinctPlayers()
    {
      var ks := KeysInOrder(players.Keys);
      var replacement: map<int, Player> := map[];
      var playerNum := 1;
      for i := 0 to |ks|
        invariant playerNum == i + 1
        invariant forall k :: k in replacement <==> 1 <= k <= i
        invariant |replacement| == i
        invariant forall j :: 0 <= j < i ==> replacement[j + 1] == players[ks[j]]
      {
        assert playerNum !in replacement;
        replacement := replacement[playerNum := players[ks[i]]];
        playerNum := playerNum + 1;
      }
      order := ks;
      ghost var before := players;
      players := replacement;
      forall i, j | i in players && j in players && i != j && old(DistinctPlayers())
        ensures players[i] != players[j]
      {
        assert ks[i - 1] != ks[j - 1] by {
          if i < j {
            assert ks[i - 1] < ks[j - 1];
          } else {
            assert ks[j - 1] < ks[i - 1];
          }
        }
        assert ks[i - 1] in before && ks[j - 1] in before;
      }
    }

    /** Game.dealCards: the cards are handed out from the end of the list,
        one to each player in number order, round after round until none
        is left, so player num receives the share of position num - 1.
        The loop never ends when there are no players. */
    method DealCards(cards: seq<Card>)
      requires Numbered() && |players| > 0 && DistinctPlayers()
      modifies players.Values`hand
      ensures forall num :: 1 <= num <= |players| ==>
                players[num].hand == GiveAll(old(players[num].hand), Share(DealOrder(cards), |players|, num - 1))
    {
      ghost var order := DealOrder(cards);
      ghost var start := Hands();
      assert order[..0] == [];
      var left := cards;
      ghost var d: nat := 0;
      while |left| > 0
        invariant d + |left| == |cards| && left == cards[..|left|]
        invariant |left| > 0 ==> Pos(d, |players|) == 0
        invariant DealtSoFar(start, order, d)
        decreases |left|
      {
        left, d := DealRound(left, start, cards, d);
      }
      assert order[..|cards|] == order;
      forall num | 1 <= num <= |players|
        ensures players[num].hand == GiveAll(start[num], Share(order, |players|, num - 1))
      {
        HandAfterIsShare(start[num], order, |players|, num - 1, |cards|);
      }
    }

    /** One pass of Game.dealCards over the players in number order: each
        takes the last card left, until the players or the cards run out. */
    method DealRound(left: seq<Card>, ghost start: map<int, map<string, Card>>, ghost cards: seq<Card>,
                     ghost d: nat) returns (rest: seq<Card>, ghost d': nat)
      requires Numbered() && |players| > 0 && DistinctPlayers()
      requires 0 < |left| && d + |left| == |cards| && left == cards[..|left|]
      requires Pos(d, |players|) == 0
      requires DealtSoFar(start, DealOrder(cards), d)
      modifies players.Values`hand
      ensures |rest| < |left| && d' + |rest| == |cards| && rest == cards[..|rest|]
      ensures |rest| > 0 ==> Pos(d', |players|) == 0
      ensures DealtSoFar(start, DealOrder(cards), d')
    {
      ghost var order := DealOrder(cards);
      ghost var n := |players|;
      rest, d' := left, d;
      for num := 1 to |players| + 1
        invariant 0 < |rest| && d' + |rest| == |cards| && rest == cards[..|rest|]
        invariant |rest| + num - 1 == |left|
        invariant Pos(d', n) == if num == n + 1 then 0 else num - 1
        invariant DealtSoFar(start, order, d')
      {
        assert order[d'] == rest[|rest| - 1];
        DealTo(players[num], num, rest[|rest| - 1], start, order, d');
        PosStep(d', n);
        rest := rest[..|rest| - 1];
        d' := d' + 1;
        if |rest| < 1 {
          break;
        }
      }
    }

    /** After the first d cards of the order are dealt, every player holds
        the hand they started with plus their share of those cards. */
    ghost predicate DealtSoFar(start: map<int, map<string, Card>>, order: seq<Card>, d: nat)
      reads this, players.Values
    {
      && 0 < |players|
      && d <= |order|
      && players.Keys <= start.Keys
      && forall k :: 1 <= k <= |players| && k in players ==>
           players[k].hand == HandAfter(start[k], order, d, |players|, k - 1)
    }

    /** One card of the deal: player num receives card, the d-th card
        dealt, and every other hand stays as it was. */
    method DealTo(p: Player, num: int, card: Card, ghost start: map<int, map<string, Card>>,
                  ghost order: seq<Card>, ghost d: nat)
      requires 1 <= num <= |players| && num in players && p == players[num]
      requires forall k :: k in players && k != num ==> players[k] != p
      requires d < |order| && order[d] == card && Pos(d, |players|) == num - 1
      requires DealtSoFar(start, order, d)
      modifies p`hand
      ensures DealtSoFar(start, order, d + 1)
    {
      p.GiveCard(card);
    }

    /** The outcome of Game.refutationProcess from the i-th player asked
        on: players are asked in turn order after the suggester, the
        suggester is skipped, and the first answer that is a card or a
        failure ends the polling. */
    ghost function Poll(i: int, suggester: Player, tup: CardTuple, replies: map<int, seq<string>>): Result<Option<Card>, Fault>
      requires 1 <= i
      reads this, players.Values
      decreases |players| + 1 - i
    {
      if i > |players| then Ok(None)
      else
        var num := PollNumber(i, turnNum, |players|);
        if num !in players then Err(NoPlayerNumbered)
        else if players[num] == suggester then Poll(i + 1, suggester, tup, replies)
        else
          var a := Answer(players[num], tup, Lines(replies, num));
          if a == Ok(None) then Poll(i + 1, suggester, tup, replies) else a
    }

    /** Game.refutationProcess. replies holds what each player types when
        asked for a card. */
    method RefutationProcess(suggester: Player, suggestion: CardTuple, replies: map<int, seq<string>>)
      returns (r: Result<Option<Card>, Fault>)
      ensures r == Poll(1, suggester, suggestion, replies)
    {
      for i := 1 to |players| + 1
        invariant Poll(1, suggester, suggestion, replies) == Poll(i, suggester, suggestion, replies)
      {
        var playerNum := i + turnNum;
        if playerNum > |players| {
          playerNum := playerNum - |players|;
        }
        if playerNum !in players {
          return Err(NoPlayerNumbered);
        }
        var player := players[playerNum];
        if player != suggester {
          var refuteCard := player.Refute(suggestion, Lines(replies, playerNum));
          if refuteCard != Ok(None) {
            return refuteCard;
          }
        }
      }
      return Ok(None);
    }

    /** A card shown in refutation is a card of the suggestion held by a
        player other than the suggester. */
    lemma {:induction false} PollShowsAHeldCard(i: int, suggester: Player, tup: CardTuple, replies: map<int, seq<string>>)
      requires 1 <= i && DistinctNames(tup)
      ensures var a := Poll(i, suggester, tup, replies);
              a.Ok? && a.value.Some? ==>
                exists num :: num in players && players[num] != suggester &&
                  a.value.value in players[num].hand.Values &&
                  a.value.value in {tup.characterCard, tup.weaponCard, tup.roomCard}
      decreases |players| + 1 - i
    {
      if i <= |players| {
        var num := PollNumber(i, turnNum, |players|);
        if num in players {
          var p := players[num];
          if p == suggester {
            PollShowsAHeldCard(i + 1, suggester, tup, replies);
          } else if Answer(p, tup, Lines(replies, num)) == Ok(None) {
            PollShowsAHeldCard(i + 1, suggester, tup, replies);
          } else if p.Refutable(tup) != {} {
            RefuteAnswerHeld(tup, p.Refutable(tup), Lines(replies, num));
          }
        }
      }
    }

    /** When no player other than the suggester holds a card of the
        suggestion, nobody refutes it. */
    lemma {:induction false} PollWithoutHolders(i: int, suggester: Player, tup: CardTuple, replies: map<int, seq<string>>)
      requires 1 <= i && Numbered() && 0 <= turnNum <= |players|
      requires forall num :: num in players && players[num] != suggester ==> players[num].Refutable(tup) == {}
      ensures Poll(i, suggester, tup, replies) == Ok(None)
      decreases |players| + 1 - i
    {
      if i <= |players| {
        PollWithoutHolders(i + 1, suggester, tup, replies);
      }
    }

    /** With players numbered 1 to n, polling fails only when a player
        asked runs out of input lines. */
    lemma {:induction false} PollFailsOnlyForInput(i: int, suggester: Player, tup: CardTuple, replies: map<int, seq<string>>)
      requires 1 <= i && Numbered() && 0 <= turnNum <= |players|
      ensures Poll(i, suggester, tup, replies).Err? ==> Poll(i, suggester, tup, replies).error == NoInput
      decreases |players| + 1 - i
    {
      if i <= |players| {
        var num := PollNumber(i, turnNum, |players|);
        var p := players[num];
        if p != suggester && p.Refutable(tup) != {} {
          RefuteFailsOnlyForInput(tup, p.Refutable(tup), Lines(replies, num));
        }
        PollFailsOnlyForInput(i + 1, suggester, tup, replies);
      }
    }

    /** Game.allPlayersCanAccuse as written: each player's flag overwrites
        the previous one, so the answer is the last player's flag. */
    method AllPlayersCanAccuseAsWritten() returns (b: bool)
      requires Numbered()
      ensures b == LastFlag(Flags())
    {
      b := false;
      for num := 1 to |players| + 1
        invariant b == LastFlag(Flags()[..num - 1])
      {
        assert Flags()[..num][..num - 1] == Flags()[..num - 1];
        b := players[num].canAccuse;
      }
      assert Flags()[..|players|] == Flags();
    }

    /** Whether some player may still accuse, which the game loop needs to
        decide that nobody can win any more. */
    method SomePlayerCanAccuse() returns (b: bool)
      requires Numbered()
      ensures b <==> true in Flags()
      ensures b <==> exists num :: num in players && players[num].canAccuse
    {
      b := false;
      for num := 1 to |players| + 1
        invariant b <==> true in Flags()[..num - 1]
      {
        assert Flags()[..num] == Flags()[..num - 1] + [players[num].canAccuse];
        b := b || players[num].canAccuse;
      }
      assert Flags()[..|players|] == Flags();
      if b {
        ghost var i :| 0 <= i < |players| && Flags()[i];
        assert players[i + 1].canAccuse;
      } else {
        forall num | num in players
          ensures !players[num].canAccuse
        {
          assert Flags()[num - 1] in Flags();
        }
      }
    }

    /** The end of one pass of Game.play's loop. A won turn ends the game
        with the turn where it is; otherwise the turn passes to the next
        number, wrapping to 1, and the game is over once no player can
        accuse any more. */
    method EndTurn(won: bool)
      requires Numbered() && 1 <= turnNum <= |players|
      modifies this`turnNum, this`gameOver
      ensures won ==> gameOver && turnNum == old(turnNum)
      ensures !won ==> turnNum == NextTurn(old(turnNum), |players|)
      ensures !won ==> (gameOver <==> forall num :: num in players ==> !players[num].canAccuse)
      ensures 1 <= turnNum <= |players|
    {
      if won {
        gameOver := true;
        return;
      }
      turnNum := turnNum + 1;
      if turnNum > |players| {
        turnNum := 1;
      }
      var someone := SomePlayerCanAccuse();
      gameOver := !someone;
    }
  }

  /** Taking out the card at position i leaves every card of another type
      in the list. */
  lemma TakingKeepsOtherKinds(cards: seq<Card>, i: int)
    requires 0 <= i < |cards|
    ensures multiset(cards[..i] + cards[i + 1..]) + multiset{cards[i]} == multiset(cards)
    ensures forall u :: u != cards[i].kind ==> (HasKind(cards[..i] + cards[i + 1..], u) <==> HasKind(cards, u))
  {
    var rest := cards[..i] + cards[i + 1..];
    assert cards == cards[..i] + [cards[i]] + cards[i + 1..];
    forall u | u != cards[i].kind && HasKind(cards, u)
      ensures HasKind(rest, u)
    {
      var c :| c in cards && c.kind == u;
      assert c in multiset(cards);
      assert c in multiset(rest);
    }
    forall u | HasKind(rest, u)
      ensures HasKind(cards, u)
    {
      var c :| c in rest && c.kind == u;
      assert c in multiset(rest);
      assert c in multiset(cards);
    }
  }

  /** A shuffled list has cards of the same types. */
  lemma ShuffleKeepsKinds(cards: seq<Card>, shuffled: seq<Card>)
    requires multiset(shuffled) == multiset(cards)
    ensures forall t :: HasKind(shuffled, t) <==> HasKind(cards, t)
    ensures |shuffled| == |cards|
  {
    assert |multiset(shuffled)| == |multiset(cards)|;
    forall t
      ensures HasKind(shuffled, t) <==> HasKind(cards, t)
    {
      if HasKind(shuffled, t) {
        var c :| c in shuffled && c.kind == t;
        assert c in multiset(cards);
      }
      if HasKind(cards, t) {
        var c :| c in cards && c.kind == t;
        assert c in multiset(shuffled);
      }
    }
  }

  /** Player.refute fails only when the lines run out. */
  lemma {:induction false} RefuteFailsOnlyForInput(tup: CardTuple, options: set<Card>, lines: seq<string>)
    ensures RefuteAnswer(tup, options, lines).Err? ==> RefuteAnswer(tup, options, lines).error == NoInput
  {
    if lines != [] && !NamesTupleCard(tup, lines[0]) {
      RefuteFailsOnlyForInput(tup, options, lines[1..]);
    }
  }

  /** With no card listed twice, the case file's cards are no longer in
      the list. */
  lemma CaseCardsLeaveList(cards: seq<Card>, rest: seq<Card>, tup: CardTuple)
    requires NoDup(cards)
    requires multiset(rest) + multiset{tup.characterCard, tup.weaponCard, tup.roomCard} == multiset(cards)
    ensures tup.characterCard !in rest && tup.weaponCard !in rest && tup.roomCard !in rest
  {
    NoDupCount(cards, tup.characterCard);
    NoDupCount(cards, tup.weaponCard);
    NoDupCount(cards, tup.roomCard);
  }
}
