/** Seating players, starting a game, resetting between hands, and the state a new engine
    starts in. */
module Lifecycle {
  import opened Cards
  import opened Table
  import opened Dealing
  import opened Betting

  /** The state the constructor builds: no players, a shuffled standard deck, small blind at
      seat 0 and big blind at seat 1, and everything else at its zero value. */
  function Initial(rand: nat -> nat): Snapshot
  {
    InitializeDeck(Snapshot([], [], [], 0, 0, 0, 1, 0, NoWinner), rand)
  }

  /** A new engine holds a permutation of the 52 standard cards and nothing else. */
  lemma InitialDeck(rand: nat -> nat)
    ensures var s := Initial(rand);
      |s.deck| == 52 && multiset(s.deck) == multiset(StandardDeck()) &&
      CardsInPlay(s) == multiset(StandardDeck()) &&
      s.(deck := []) == Snapshot([], [], [], 0, 0, 0, 1, 0, NoWinner)
  {
    var empty := Snapshot([], [], [], 0, 0, 0, 1, 0, NoWinner);
    InitializeDeckAddsStandardDeck(empty, rand);
  }

  /** `addPlayer`: one new player pushed at the end of the table. */
  function AddPlayer(s: Snapshot, id: string, name: string): Snapshot
  {
    s.(players := s.players + [NewPlayer(id, name)])
  }

  /** Adding a player appends a record with 1000 chips, no bet, no cards, not in game and no last
      action; the seats already taken and every other field are unchanged, so the chips on the
      table grow by exactly the newcomer's 1000 and the cards stay as they were. */
  lemma AddPlayerAppends(s: Snapshot, id: string, name: string)
    ensures var r := AddPlayer(s, id, name);
      |r.players| == |s.players| + 1 &&
      r.players[..|s.players|] == s.players &&
      r.players[|s.players|] == Player(id, name, [], STARTING_CHIPS, 0, false, NoAction, None, None) &&
      r.(players := s.players) == s &&
      Bank(r) == Bank(s) + STARTING_CHIPS &&
      CardsInPlay(r) == CardsInPlay(s)
  {
    var r := AddPlayer(s, id, name);
    assert r.players[..|s.players|] == s.players;
    ChipsSumAppend(s.players, NewPlayer(id, name));
    HeldAppend(s.players, NewPlayer(id, name));
  }

  lemma {:induction false} ChipsSumAppend(ps: seq<Player>, p: Player)
    ensures ChipsSum(ps + [p]) == ChipsSum(ps) + p.chips
  {
    if ps != [] {
      assert (ps + [p])[1..] == ps[1..] + [p];
      ChipsSumAppend(ps[1..], p);
    }
  }

  lemma {:induction false} HeldAppend(ps: seq<Player>, p: Player)
    ensures Held(ps + [p]) == Held(ps) + multiset(p.hand)
  {
    if ps != [] {
      assert (ps + [p])[1..] == ps[1..] + [p];
      HeldAppend(ps[1..], p);
    } else {
      assert [p][1..] == [];
    }
  }

  /** `initializePlayers`: `addPlayer(users[i], userNames[i])` for each user in order. */
  function InitializePlayers(s: Snapshot, users: seq<string>, names: seq<string>): (r: Snapshot)
    requires |users| <= |names|
    ensures |r.players| == |s.players| + |users| && r.(players := s.players) == s
  {
    if users == [] then s
    else
      var k := |users| - 1;
      AddPlayer(InitializePlayers(s, users[..k], names), users[k], names[k])
  }

  /** The records for a list of users, paired with their names by position. */
  function Newcomers(users: seq<string>, names: seq<string>): (ps: seq<Player>)
    requires |users| <= |names|
    ensures |ps| == |users|
  {
    seq(|users|, i requires 0 <= i < |users| => NewPlayer(users[i], names[i]))
  }

  /** Seating a list of users appends their records in the list's order and changes nothing else. */
  lemma {:induction false} InitializePlayersAppends(s: Snapshot, users: seq<string>, names: seq<string>)
    requires |users| <= |names|
    ensures InitializePlayers(s, users, names) == s.(players := s.players + Newcomers(users, names))
  {
    if users == [] {
      assert s.players + [] == s.players;
    } else {
      var k := |users| - 1;
      InitializePlayersAppends(s, users[..k], names);
      assert Newcomers(users, names) == Newcomers(users[..k], names) + [NewPlayer(users[k], names[k])];
    }
  }

  /** `startGame`'s loop: every player marked in game. */
  function SeatAll(ps: seq<Player>): (r: seq<Player>)
    ensures |r| == |ps|
  {
    seq(|ps|, i requires 0 <= i < |ps| => ps[i].(inGame := true))
  }

  /** Blinds from `start`, then, unless that threw, the hole cards. */
  function BlindsThenDeal(s: Snapshot, start: int): Step
    requires |s.players| >= 1 && 2 * |s.players| <= |s.deck|
  {
    var b := CollectBlinds(s, start);
    CollectBlindsEffect(s, start);
    if b.outcome == TypeError then b
    else
      assert |b.state.deck| == |s.deck| by {
        CollectBetEffect(s.(currentPlayerIndex := JsRem(start + 2, |s.players|)), start, SMALL_BLIND);
        CollectBetEffect(CollectBet(s.(currentPlayerIndex := JsRem(start + 2, |s.players|)), start, SMALL_BLIND).state,
          JsRem(start + 1, |s.players|), BIG_BLIND);
      }
      Step(DealInitialCards(b.state), Completed)
  }

  /** Blinds touch neither the cards nor the order of seats. */
  lemma CollectBlindsKeepsCards(s: Snapshot, start: int)
    requires |s.players| >= 1
    ensures var r := CollectBlinds(s, start).state;
      r.deck == s.deck && r.communityCards == s.communityCards &&
      |r.players| == |s.players| &&
      (forall i :: 0 <= i < |s.players| ==> r.players[i].hand == s.players[i].hand && r.players[i].inGame == s.players[i].inGame) &&
      r.(players := s.players, pot := s.pot, currentPlayerIndex := s.currentPlayerIndex) == s &&
      CardsInPlay(r) == CardsInPlay(s)
  {
    var s1 := s.(currentPlayerIndex := JsRem(start + 2, |s.players|));
    CollectBetEffect(s1, start, SMALL_BLIND);
    var small := CollectBet(s1, start, SMALL_BLIND);
    CollectBetEffect(small.state, JsRem(start + 1, |s.players|), BIG_BLIND);
    var r := CollectBlinds(s, start).state;
    HeldSameHands(r.players, s.players);
  }

  /** `startGame`: seat the users, put everyone in game, take the blinds from the small blind's
      seat and deal the hole cards. */
  function StartGame(s: Snapshot, users: seq<string>, names: seq<string>): Step
    requires |users| <= |names|
    requires 1 <= |s.players| + |users| && 2 * (|s.players| + |users|) <= |s.deck|
  {
    var joined := InitializePlayers(s, users, names);
    BlindsThenDeal(joined.(players := SeatAll(joined.players)), joined.smallBlindIndex)
  }

  /** Blinds then hole cards: seats, flags and last actions stay, the board stays, chips on the
      table and cards in play are conserved; when the blinds go through, the pot holds 30 more,
      the turn is two seats after `start`, and every seat holds two more cards, taken from the
      end of the deck. */
  lemma BlindsThenDealEffect(s: Snapshot, start: int)
    requires |s.players| >= 1 && 2 * |s.players| <= |s.deck|
    ensures var r, n := BlindsThenDeal(s, start), |s.players|;
      |r.state.players| == n &&
      (forall i :: 0 <= i < n ==>
        r.state.players[i].inGame == s.players[i].inGame && r.state.players[i].lastAction == s.players[i].lastAction) &&
      r.state.(players := s.players, deck := s.deck, pot := s.pot, currentPlayerIndex := s.currentPlayerIndex) == s &&
      Bank(r.state) == Bank(s) &&
      CardsInPlay(r.state) == CardsInPlay(s)
    ensures var r, n := BlindsThenDeal(s, start), |s.players|;
      r.outcome == Completed ==>
        r.state.pot == s.pot + SMALL_BLIND + BIG_BLIND &&
        r.state.currentPlayerIndex == JsRem(start + 2, n) &&
        |r.state.deck| == |s.deck| - 2 * n &&
        forall i :: 0 <= i < n ==> |r.state.players[i].hand| == |s.players[i].hand| + 2
  {
    var b := CollectBlinds(s, start);
    CollectBlindsEffect(s, start);
    CollectBlindsKeepsCards(s, start);
    ResetBlindsInGame(s, start);
    if b.outcome == Completed {
      ResetBlindsPot(s, start);
      DealInitialCardsHands(b.state);
      DealInitialCardsKeepsCards(b.state);
      ChipsSumSameChips(DealInitialCards(b.state).players, b.state.players);
    }
  }

  /** Starting a game adds 1000 chips per newcomer to the table and no card; every player is in
      game; and when the blinds go through every seat has gained exactly two cards from the
      end of the deck. */
  lemma StartGameEffect(s: Snapshot, users: seq<string>, names: seq<string>)
    requires |users| <= |names|
    requires 1 <= |s.players| + |users| && 2 * (|s.players| + |users|) <= |s.deck|
    ensures var r, n := StartGame(s, users, names), |s.players| + |users|;
      |r.state.players| == n &&
      (forall i :: 0 <= i < n ==> r.state.players[i].inGame) &&
      Bank(r.state) == Bank(s) + |users| * STARTING_CHIPS &&
      CardsInPlay(r.state) == CardsInPlay(s) &&
      (r.outcome == Completed ==>
        r.state.pot == s.pot + SMALL_BLIND + BIG_BLIND &&
        |r.state.deck| == |s.deck| - 2 * n &&
        forall i :: 0 <= i < n ==> |r.state.players[i].hand| == |(s.players + Newcomers(users, names))[i].hand| + 2)
  {
    var joined := InitializePlayers(s, users, names);
    var seated := joined.(players := SeatAll(joined.players));
    StartGameSeats(s, users, names);
    BlindsThenDealEffect(seated, joined.smallBlindIndex);
  }

  /** Seating the newcomers and putting everyone in game, before the blinds. */
  lemma StartGameSeats(s: Snapshot, users: seq<string>, names: seq<string>)
    requires |users| <= |names|
    ensures var joined := InitializePlayers(s, users, names);
      var seated := joined.(players := SeatAll(joined.players));
      seated.players == SeatAll(s.players + Newcomers(users, names)) &&
      seated.(players := s.players) == s &&
      Bank(seated) == Bank(s) + |users| * STARTING_CHIPS &&
      CardsInPlay(seated) == CardsInPlay(s)
  {
    var joined := InitializePlayers(s, users, names);
    InitializePlayersAppends(s, users, names);
    NewcomersBank(s, users, names);
    var seated := joined.(players := SeatAll(joined.players));
    ChipsSumSameChips(seated.players, joined.players);
    HeldSameHands(seated.players, joined.players);
    HeldEmpty(Newcomers(users, names));
    HeldConcat(s.players, Newcomers(users, names));
  }

  /** The chips the newcomers bring. */
  lemma NewcomersBank(s: Snapshot, users: seq<string>, names: seq<string>)
    requires |users| <= |names|
    ensures ChipsSum(s.players + Newcomers(users, names)) == ChipsSum(s.players) + |users| * STARTING_CHIPS
  {
    NewcomersChips(users, names);
    ChipsSumConcat(s.players, Newcomers(users, names));
  }

  lemma {:induction false} NewcomersChips(users: seq<string>, names: seq<string>)
    requires |users| <= |names|
    ensures ChipsSum(Newcomers(users, names)) == |users| * STARTING_CHIPS
  {
    if users != [] {
      assert Newcomers(users, names)[1..] == Newcomers(users[1..], names[1..]);
      NewcomersChips(users[1..], names[1..]);
    }
  }

  lemma {:induction false} ChipsSumConcat(ps: seq<Player>, qs: seq<Player>)
    ensures ChipsSum(ps + qs) == ChipsSum(ps) + ChipsSum(qs)
  {
    if ps != [] {
      assert (ps + qs)[1..] == ps[1..] + qs;
      ChipsSumConcat(ps[1..], qs);
    } else {
      assert ps + qs == qs;
    }
  }

  lemma {:induction false} HeldConcat(ps: seq<Player>, qs: seq<Player>)
    ensures Held(ps + qs) == Held(ps) + Held(qs)
  {
    if ps != [] {
      assert (ps + qs)[1..] == ps[1..] + qs;
      HeldConcat(ps[1..], qs);
    } else {
      assert ps + qs == qs;
    }
  }

  /** `resetGame`'s player loop: hands emptied, bets zeroed, everyone back in game, last actions
      cleared; chips, lastBet and the stored hand ranking stay. */
  function ResetPlayers(ps: seq<Player>): (r: seq<Player>)
    ensures |r| == |ps|
  {
    seq(|ps|, i requires 0 <= i < |ps| => ps[i].(hand := [], bet := 0, inGame := true, lastAction := NoAction))
  }

  /** The table `resetGame` has built before it takes the blinds: blinds moved one seat on, turn
      at the new small blind, pot, round, winner and board cleared, a fresh shuffled deck, and
      the players reset. */
  function ResetTable(s: Snapshot, rand: nat -> nat): (r: Snapshot)
    requires |s.players| >= 1
    ensures |r.players| == |s.players|
  {
    var n := |s.players|;
    var sb := JsRem(s.smallBlindIndex + 1, n);
    var cleared := s.(deck := [], communityCards := [], smallBlindIndex := sb, bigBlindIndex := JsRem(sb + 1, n),
                      currentPlayerIndex := sb, pot := 0, currentBettingRound := 0, winner := NoWinner);
    var shuffled := InitializeDeck(cleared, rand);
    shuffled.(players := ResetPlayers(shuffled.players))
  }

  /** The reset in the order `resetGame` performs it: the cleared table, then the fresh deck,
      then the player loop. */
  lemma ResetTableSteps(s: Snapshot, rand: nat -> nat, cleared: Snapshot)
    requires |s.players| >= 1
    requires var n := |s.players|; var sb := JsRem(s.smallBlindIndex + 1, n);
      cleared == s.(deck := [], communityCards := [], smallBlindIndex := sb, bigBlindIndex := JsRem(sb + 1, n),
                    currentPlayerIndex := sb, pot := 0, currentBettingRound := 0, winner := NoWinner)
    ensures InitializeDeck(cleared, rand).players == s.players
    ensures ResetTable(s, rand) == InitializeDeck(cleared, rand).(players := ResetPlayers(s.players))
  {
  }

  /** `resetGame`. With a single player no blinds are taken and nothing is dealt. */
  function ResetGame(s: Snapshot, rand: nat -> nat): Step
    requires 1 <= |s.players| <= 26
  {
    var t := ResetTable(s, rand);
    ResetTableEffect(s, rand);
    if |s.players| > 1 then BlindsThenDeal(t, t.smallBlindIndex) else Step(t, Completed)
  }

  /** The reset table: blinds rotated with JavaScript's `%`, a fresh permutation of the 52 cards
      and nothing else in play, every player reset with their chips kept, and the old pot gone
      from the table. */
  lemma ResetTableEffect(s: Snapshot, rand: nat -> nat)
    requires |s.players| >= 1
    ensures var t, n := ResetTable(s, rand), |s.players|;
      t.smallBlindIndex == JsRem(s.smallBlindIndex + 1, n) &&
      t.bigBlindIndex == JsRem(t.smallBlindIndex + 1, n) &&
      t.currentPlayerIndex == t.smallBlindIndex &&
      t.pot == 0 && t.currentBettingRound == 0 && t.winner == NoWinner && t.communityCards == [] &&
      |t.deck| == 52 && multiset(t.deck) == multiset(StandardDeck()) &&
      CardsInPlay(t) == multiset(StandardDeck()) &&
      Bank(t) == ChipsSum(s.players) &&
      forall i :: 0 <= i < n ==>
        t.players[i] == s.players[i].(hand := [], bet := 0, inGame := true, lastAction := NoAction)
  {
    ResetTableFields(s, rand);
    ResetTableCards(s, rand);
    var t := ResetTable(s, rand);
    ChipsSumSameChips(t.players, s.players);
  }

  lemma ResetTableFields(s: Snapshot, rand: nat -> nat)
    requires |s.players| >= 1
    ensures var t, n := ResetTable(s, rand), |s.players|;
      t.smallBlindIndex == JsRem(s.smallBlindIndex + 1, n) &&
      t.bigBlindIndex == JsRem(t.smallBlindIndex + 1, n) &&
      t.currentPlayerIndex == t.smallBlindIndex &&
      t.pot == 0 && t.currentBettingRound == 0 && t.winner == NoWinner && t.communityCards == [] &&
      forall i :: 0 <= i < n ==>
        t.players[i] == s.players[i].(hand := [], bet := 0, inGame := true, lastAction := NoAction)
  {
  }

  lemma ResetTableCards(s: Snapshot, rand: nat -> nat)
    requires |s.players| >= 1
    ensures var t := ResetTable(s, rand);
      |t.deck| == 52 && multiset(t.deck) == multiset(StandardDeck()) &&
      CardsInPlay(t) == multiset(StandardDeck())
  {
    var t := ResetTable(s, rand);
    var n := |s.players|;
    var sb := JsRem(s.smallBlindIndex + 1, n);
    var cleared := s.(deck := [], communityCards := [], smallBlindIndex := sb, bigBlindIndex := JsRem(sb + 1, n),
                      currentPlayerIndex := sb, pot := 0, currentBettingRound := 0, winner := NoWinner);
    InitializeDeckAddsStandardDeck(cleared, rand);
    HeldEmpty(t.players);
  }

  /** The reset as a whole: whatever the blinds do, the 52 standard cards are exactly the cards
      in play, the board is empty, everyone is in game, and the chips on the table are the
      players' chips before the reset (the old pot is discarded). A lone player is simply
      reset. With two or more players whose blinds go through, each holds two cards, the deck
      holds the other 52 - 2n, and the pot holds the 30 chips of the blinds. */
  lemma ResetGameEffect(s: Snapshot, rand: nat -> nat)
    requires 1 <= |s.players| <= 26
    ensures var r, n := ResetGame(s, rand), |s.players|;
      var sb := JsRem(s.smallBlindIndex + 1, n);
      |r.state.players| == n &&
      r.state.smallBlindIndex == sb && r.state.bigBlindIndex == JsRem(sb + 1, n) &&
      r.state.currentBettingRound == 0 && r.state.winner == NoWinner && r.state.communityCards == [] &&
      CardsInPlay(r.state) == multiset(StandardDeck()) &&
      Bank(r.state) == ChipsSum(s.players) &&
      (forall i :: 0 <= i < n ==> r.state.players[i].inGame && r.state.players[i].lastAction == NoAction) &&
      (n == 1 ==> r.outcome == Completed && r.state == ResetTable(s, rand)) &&
      (n > 1 && r.outcome == Completed ==>
        r.state.pot == SMALL_BLIND + BIG_BLIND &&
        |r.state.deck| == 52 - 2 * n &&
        r.state.currentPlayerIndex == JsRem(sb + 2, n) &&
        forall i :: 0 <= i < n ==> |r.state.players[i].hand| == 2)
  {
    if |s.players| > 1 {
      ResetGameDeals(s, rand);
    } else {
      ResetTableEffect(s, rand);
    }
  }

  lemma ResetGameDeals(s: Snapshot, rand: nat -> nat)
    requires 2 <= |s.players| <= 26
    ensures var r, n, t := ResetGame(s, rand), |s.players|, ResetTable(s, rand);
      |r.state.players| == n &&
      r.state.smallBlindIndex == t.smallBlindIndex && r.state.bigBlindIndex == t.bigBlindIndex &&
      r.state.currentBettingRound == 0 && r.state.winner == NoWinner && r.state.communityCards == [] &&
      CardsInPlay(r.state) == multiset(StandardDeck()) &&
      Bank(r.state) == ChipsSum(s.players) &&
      (forall i :: 0 <= i < n ==> r.state.players[i].inGame && r.state.players[i].lastAction == NoAction) &&
      (r.outcome == Completed ==>
        r.state.pot == SMALL_BLIND + BIG_BLIND &&
        |r.state.deck| == 52 - 2 * n &&
        r.state.currentPlayerIndex == JsRem(t.smallBlindIndex + 2, n) &&
        forall i :: 0 <= i < n ==> |r.state.players[i].hand| == 2)
  {
    var t := ResetTable(s, rand);
    ResetTableEffect(s, rand);
    assert ResetGame(s, rand) == BlindsThenDeal(t, t.smallBlindIndex);
    DealsFromResetTable(t);
  }

  /** Blinds and hole cards on a freshly reset table. */
  lemma DealsFromResetTable(t: Snapshot)
    requires 2 <= |t.players| <= 26 && |t.deck| == 52 && t.pot == 0
    requires forall i :: 0 <= i < |t.players| ==>
      t.players[i].hand == [] && t.players[i].inGame && t.players[i].lastAction == NoAction
    ensures var r, n := BlindsThenDeal(t, t.smallBlindIndex), |t.players|;
      |r.state.players| == n &&
      r.state.(players := t.players, deck := t.deck, pot := t.pot, currentPlayerIndex := t.currentPlayerIndex) == t &&
      CardsInPlay(r.state) == CardsInPlay(t) &&
      Bank(r.state) == Bank(t) &&
      (forall i :: 0 <= i < n ==> r.state.players[i].inGame && r.state.players[i].lastAction == NoAction) &&
      (r.outcome == Completed ==>
        r.state.pot == SMALL_BLIND + BIG_BLIND &&
        |r.state.deck| == 52 - 2 * n &&
        r.state.currentPlayerIndex == JsRem(t.smallBlindIndex + 2, n) &&
        forall i :: 0 <= i < n ==> |r.state.players[i].hand| == 2)
  {
    BlindsThenDealEffect(t, t.smallBlindIndex);
  }

  /** Blinds leave every player's in-game flag and last action as they were. */
  lemma ResetBlindsInGame(t: Snapshot, start: int)
    requires |t.players| >= 1
    ensures var r := CollectBlinds(t, start).state;
      |r.players| == |t.players| &&
      forall i :: 0 <= i < |t.players| ==>
        r.players[i].inGame == t.players[i].inGame && r.players[i].lastAction == t.players[i].lastAction
  {
    var s1 := t.(currentPlayerIndex := JsRem(start + 2, |t.players|));
    CollectBetEffect(s1, start, SMALL_BLIND);
    CollectBetEffect(CollectBet(s1, start, SMALL_BLIND).state, JsRem(start + 1, |t.players|), BIG_BLIND);
  }

  /** Blinds that go through add 30 to the pot. */
  lemma ResetBlindsPot(t: Snapshot, start: int)
    requires |t.players| >= 1 && CollectBlinds(t, start).outcome == Completed
    ensures CollectBlinds(t, start).state.pot == t.pot + SMALL_BLIND + BIG_BLIND
  {
    var s1 := t.(currentPlayerIndex := JsRem(start + 2, |t.players|));
    CollectBetEffect(s1, start, SMALL_BLIND);
    CollectBetEffect(CollectBet(s1, start, SMALL_BLIND).state, JsRem(start + 1, |t.players|), BIG_BLIND);
  }
}
