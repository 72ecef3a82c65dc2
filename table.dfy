/** The engine's data model: players, the snapshot of a game's nine fields, and the
    aggregate views (chips, cards, active seats) that the conservation laws are stated over. */
module Table {
  import opened Cards

  datatype Option<T> = None | Some(value: T)

  /** A player's `lastAction`: null, "call" or "raise". A fold is recorded in `inGame` only. */
  datatype Action = NoAction | Called | Raised

  /** The action string a turn carries; any string other than "fold", "call" and "raise" is Unrecognized. */
  datatype Move = Fold | Call | Raise | Unrecognized

  /** A seated player. `lastBet` is the amount of the last blind collected from the player
      (undefined until one is); `handInfo` is the hand ranking stored at showdown (the
      ranking oracle's value for the player's cards). */
  datatype Player = Player(
    id: string,
    name: string,
    hand: seq<Card>,
    chips: int,
    bet: int,
    inGame: bool,
    lastAction: Action,
    lastBet: Option<int>,
    handInfo: Option<int>)

  /** The `winner` field: "" until a single winner is paid, then the seat of the player paid. */
  datatype Winner = NoWinner | Won(seat: nat)

  /** The nine fields of a game, exactly what a serialized state carries. */
  datatype Snapshot = Snapshot(
    players: seq<Player>,
    deck: seq<Card>,
    communityCards: seq<Card>,
    currentPlayerIndex: int,
    pot: int,
    smallBlindIndex: int,
    bigBlindIndex: int,
    currentBettingRound: int,
    winner: Winner)

  /** How a step ended: normally, or by throwing a TypeError (a call of the undefined
      `foldPlayer`, or a property read on a seat index that holds no player). */
  datatype Outcome = Completed | TypeError

  /** The state a step leaves behind, and how it ended. After a TypeError the state is
      the one at the moment of the throw. */
  datatype Step = Step(state: Snapshot, outcome: Outcome)

  const STARTING_CHIPS: int := 1000
  const SMALL_BLIND: int := 10
  const BIG_BLIND: int := 20
  const RAISE_INCREMENT: int := 10

  /** The record `addPlayer` pushes. */
  function NewPlayer(id: string, name: string): (p: Player)
    ensures p.hand == [] && p.chips == STARTING_CHIPS && p.bet == 0
    ensures !p.inGame && p.lastAction == NoAction && p.id == id && p.name == name
  {
    Player(id, name, [], STARTING_CHIPS, 0, false, NoAction, None, None)
  }

  /** JavaScript's `a % n` for a positive n: the remainder of division truncated toward zero,
      so it takes the sign of a. */
  function JsRem(a: int, n: int): (r: int)
    requires n > 0
    ensures -n < r < n && a == JsQuot(a, n) * n + r
    ensures a >= 0 ==> r >= 0
    ensures a <= 0 ==> r <= 0
  {
    if a >= 0 then a % n else -((-a) % n)
  }

  /** The quotient of JavaScript's truncating division, paired with JsRem. */
  function JsQuot(a: int, n: int): int
    requires n > 0
  {
    if a >= 0 then a / n else -((-a) / n)
  }

  /** Sum of all players' chips. */
  function ChipsSum(ps: seq<Player>): int
  {
    if ps == [] then 0 else ps[0].chips + ChipsSum(ps[1..])
  }

  /** Chips on the table: every player's chips plus the pot. */
  function Bank(s: Snapshot): int
  {
    ChipsSum(s.players) + s.pot
  }

  /** Replacing one player changes the chip sum by the difference of their chips. */
  lemma {:induction false} ChipsSumUpdate(ps: seq<Player>, i: nat, q: Player)
    requires i < |ps|
    ensures ChipsSum(ps[i := q]) == ChipsSum(ps) - ps[i].chips + q.chips
  {
    if i > 0 {
      assert ps[i := q][1..] == ps[1..][i - 1 := q];
      ChipsSumUpdate(ps[1..], i - 1, q);
    }
  }

  /** The chip sum depends only on the players' chips. */
  lemma {:induction false} ChipsSumSameChips(ps: seq<Player>, qs: seq<Player>)
    requires |ps| == |qs|
    requires forall i :: 0 <= i < |ps| ==> ps[i].chips == qs[i].chips
    ensures ChipsSum(ps) == ChipsSum(qs)
  {
    if ps != [] {
      ChipsSumSameChips(ps[1..], qs[1..]);
    }
  }

  /** All cards in the players' hands. */
  function Held(ps: seq<Player>): multiset<Card>
  {
    if ps == [] then multiset{} else multiset(ps[0].hand) + Held(ps[1..])
  }

  /** Every card the game holds: the deck, the community cards and all hands. */
  function CardsInPlay(s: Snapshot): multiset<Card>
  {
    multiset(s.deck) + multiset(s.communityCards) + Held(s.players)
  }

  /** Replacing one player's hand swaps that hand's cards in the held multiset. */
  lemma {:induction false} HeldUpdate(ps: seq<Player>, i: nat, q: Player)
    requires i < |ps|
    ensures Held(ps[i := q]) + multiset(ps[i].hand) == Held(ps) + multiset(q.hand)
  {
    if i > 0 {
      assert ps[i := q][1..] == ps[1..][i - 1 := q];
      HeldUpdate(ps[1..], i - 1, q);
      assert ps[1..][i - 1] == ps[i];
      calc {
        Held(ps[i := q]) + multiset(ps[i].hand);
        multiset(ps[0].hand) + (Held(ps[1..][i - 1 := q]) + multiset(ps[1..][i - 1].hand));
        multiset(ps[0].hand) + (Held(ps[1..]) + multiset(q.hand));
        Held(ps) + multiset(q.hand);
      }
    } else {
      assert ps[i := q][1..] == ps[1..];
    }
  }

  lemma MultisetCancel<T>(a: multiset<T>, b: multiset<T>, x: multiset<T>)
    requires a + x == b + x
    ensures a == b
  {
    forall e ensures a[e] == b[e] {
      assert (a + x)[e] == (b + x)[e];
    }
  }

  /** The held cards depend only on the players' hands. */
  lemma {:induction false} HeldSameHands(ps: seq<Player>, qs: seq<Player>)
    requires |ps| == |qs|
    requires forall i :: 0 <= i < |ps| ==> ps[i].hand == qs[i].hand
    ensures Held(ps) == Held(qs)
  {
    if ps != [] {
      HeldSameHands(ps[1..], qs[1..]);
    }
  }

  /** Every player has an empty hand. */
  lemma {:induction false} HeldEmpty(ps: seq<Player>)
    requires forall i :: 0 <= i < |ps| ==> ps[i].hand == []
    ensures Held(ps) == multiset{}
  {
    if ps != [] {
      HeldEmpty(ps[1..]);
    }
  }

  /** Strictly increasing, so in particular without repetitions. */
  predicate Increasing(s: seq<nat>)
  {
    forall k, l :: 0 <= k < l < |s| ==> s[k] < s[l]
  }

  /** The in-game seats from seat i on, in seat order (`players.filter(p => p.inGame)`). */
  function ActiveFrom(ps: seq<Player>, i: nat): (r: seq<nat>)
    ensures forall k :: 0 <= k < |r| ==> i <= r[k] < |ps| && ps[r[k]].inGame
    ensures forall j {:trigger j in r} :: i <= j < |ps| && ps[j].inGame ==> j in r
    ensures Increasing(r)
    decreases |ps| - i
  {
    if i >= |ps| then [] else (if ps[i].inGame then [i] else []) + ActiveFrom(ps, i + 1)
  }

  function ActiveSeats(ps: seq<Player>): seq<nat>
  {
    ActiveFrom(ps, 0)
  }

  function ActiveCount(ps: seq<Player>): nat
  {
    |ActiveSeats(ps)|
  }

  predicate HasActive(ps: seq<Player>)
  {
    exists j :: 0 <= j < |ps| && ps[j].inGame
  }

  /** There is an active seat exactly when the active count is positive. */
  lemma ActiveCountPositive(ps: seq<Player>)
    ensures ActiveCount(ps) >= 1 <==> HasActive(ps)
  {
    if HasActive(ps) {
      var j :| 0 <= j < |ps| && ps[j].inGame;
      assert j in ActiveSeats(ps);
    }
    if ActiveCount(ps) >= 1 {
      var j := ActiveSeats(ps)[0];
      assert 0 <= j < |ps| && ps[j].inGame;
    }
  }

  /** With exactly one active seat, that seat is the only one in game. */
  lemma SoleActive(ps: seq<Player>, j: nat)
    requires ActiveCount(ps) == 1
    requires j < |ps| && ps[j].inGame
    ensures j == ActiveSeats(ps)[0]
  {
    assert j in ActiveSeats(ps);
  }

  /** The active seats depend only on the players' inGame flags. */
  lemma {:induction false} ActiveFromSameInGame(ps: seq<Player>, qs: seq<Player>, i: nat)
    requires |ps| == |qs|
    requires forall j :: 0 <= j < |ps| ==> ps[j].inGame == qs[j].inGame
    ensures ActiveFrom(ps, i) == ActiveFrom(qs, i)
    decreases |ps| - i
  {
    if i < |ps| {
      ActiveFromSameInGame(ps, qs, i + 1);
    }
  }

  lemma ActiveSeatsSameInGame(ps: seq<Player>, qs: seq<Player>)
    requires |ps| == |qs|
    requires forall j :: 0 <= j < |ps| ==> ps[j].inGame == qs[j].inGame
    ensures ActiveSeats(ps) == ActiveSeats(qs)
  {
    ActiveFromSameInGame(ps, qs, 0);
  }
}
