/** The engine object: the nine fields of a game, updated in place by its methods. Each method
    is proved to leave exactly the state its counterpart function in Dealing, Settlement,
    Betting or Lifecycle computes from the state it started in; the laws about those functions
    are proved there. */
module PokerEngine {
  import opened Cards
  import opened Table
  import Dealing
  import Settlement
  import Betting
  import Lifecycle

  class Poker {
    var players: seq<Player>
    var deck: seq<Card>
    var communityCards: seq<Card>
    var currentPlayerIndex: int
    var pot: int
    var smallBlindIndex: int
    var bigBlindIndex: int
    var currentBettingRound: int
    var winner: Winner

    /** The engine's fields as one value. */
    function State(): Snapshot
      reads this
    {
      Snapshot(players, deck, communityCards, currentPlayerIndex, pot,
               smallBlindIndex, bigBlindIndex, currentBettingRound, winner)
    }

    /** A new engine: empty table, blinds at seats 0 and 1, and a shuffled standard deck. */
    constructor(rand: nat -> nat)
      ensures State() == Lifecycle.Initial(rand)
    {
      players := [];
      deck := [];
      communityCards := [];
      currentPlayerIndex := 0;
      pot := 0;
      smallBlindIndex := 0;
      bigBlindIndex := 1;
      currentBettingRound := 0;
      winner := NoWinner;
      new;
      InitializeDeck(rand);
    }

    /** `recreateInstance`: a new engine (which builds and shuffles a deck of its own) whose
        nine fields are then overwritten with the serialized ones. */
    static method RecreateInstance(serialized: Snapshot, rand: nat -> nat) returns (poker: Poker)
      ensures fresh(poker) && poker.State() == serialized
    {
      poker := new Poker(rand);
      poker.players := serialized.players;
      poker.communityCards := serialized.communityCards;
      poker.deck := serialized.deck;
      poker.currentPlayerIndex := serialized.currentPlayerIndex;
      poker.pot := serialized.pot;
      poker.smallBlindIndex := serialized.smallBlindIndex;
      poker.bigBlindIndex := serialized.bigBlindIndex;
      poker.currentBettingRound := serialized.currentBettingRound;
      poker.winner := serialized.winner;
    }

    /** `initializeDeck`: push every suit-rank pair, suits outside and ranks inside, then shuffle. */
    method InitializeDeck(rand: nat -> nat)
      modifies this
      ensures State() == Dealing.InitializeDeck(old(State()), rand)
    {
      ghost var d0 := deck;
      for si := 0 to |SUITS|
        invariant deck == d0 + StandardDeck()[..13 * si]
        invariant State() == old(State()).(deck := deck)
      {
        for ri := 0 to |RANKS|
          invariant deck == d0 + StandardDeck()[..13 * si + ri]
          invariant State() == old(State()).(deck := deck)
        {
          StandardDeckPair(si, ri);
          assert StandardDeck()[..13 * si + ri + 1] == StandardDeck()[..13 * si + ri] + [Card(SUITS[si], RANKS[ri])];
          deck := deck + [Card(SUITS[si], RANKS[ri])];
        }
      }
      assert StandardDeck()[..52] == StandardDeck();
      ShuffleDeck(rand);
    }

    /** `shuffleDeck`: from the last position down to 1, swap position i with a drawn position
        in 0..i. */
    method ShuffleDeck(rand: nat -> nat)
      modifies this
      ensures State() == old(State()).(deck := Shuffled(old(deck), rand))
    {
      var i := |deck| - 1;
      while i > 0
        invariant -1 <= i < |deck|
        invariant ShuffledFrom(deck, i, rand) == Shuffled(old(deck), rand)
        invariant State() == old(State()).(deck := deck)
        decreases i
      {
        var j := rand(i) % (i + 1);
        ghost var before := deck;
        deck := deck[i := deck[j]][j := deck[i]];
        ShuffleStep(before, i, rand);
        i := i - 1;
      }
    }

    /** `initializePlayers`: `addPlayer` for each user, paired with the name at the same position. */
    method InitializePlayers(users: seq<string>, names: seq<string>)
      requires |users| <= |names|
      modifies this
      ensures State() == Lifecycle.InitializePlayers(old(State()), users, names)
    {
      for i := 0 to |users|
        invariant State() == Lifecycle.InitializePlayers(old(State()), users[..i], names)
      {
        assert users[..i + 1][..i] == users[..i];
        AddPlayer(users[i], names[i]);
      }
      assert users[..|users|] == users;
    }

    /** `addPlayer`. */
    method AddPlayer(id: string, name: string)
      modifies this
      ensures State() == Lifecycle.AddPlayer(old(State()), id, name)
    {
      players := players + [Player(id, name, [], STARTING_CHIPS, 0, false, NoAction, None, None)];
    }

    /** `startGame`: seat the users, mark everyone in game, take the blinds and, unless that
        threw, deal the hole cards. */
    method StartGame(users: seq<string>, names: seq<string>) returns (outcome: Outcome)
      requires |users| <= |names|
      requires 1 <= |players| + |users| && 2 * (|players| + |users|) <= |deck|
      modifies this
      ensures Step(State(), outcome) == Lifecycle.StartGame(old(State()), users, names)
    {
      InitializePlayers(users, names);
      ghost var joined, js := players, State();
      for i := 0 to |players|
        invariant |players| == |joined|
        invariant forall k :: 0 <= k < i ==> players[k] == joined[k].(inGame := true)
        invariant forall k :: i <= k < |joined| ==> players[k] == joined[k]
        invariant State() == js.(players := players)
      {
        players := players[i := players[i].(inGame := true)];
      }
      assert players == Lifecycle.SeatAll(joined);
      ghost var seated := State();
      outcome := CollectBlinds(smallBlindIndex);
      Lifecycle.CollectBlindsKeepsCards(seated, seated.smallBlindIndex);
      if outcome == Completed {
        DealInitialCards();
      }
    }

    /** `collectBlinds(start)`: the turn goes two seats on, then the small blind from `start`
        and the big blind from the seat after it. */
    method CollectBlinds(start: int) returns (outcome: Outcome)
      requires |players| >= 1
      modifies this
      ensures Step(State(), outcome) == Betting.CollectBlinds(old(State()), start)
    {
      var n := |players|;
      var bigSeat := JsRem(start + 1, n);
      currentPlayerIndex := JsRem(start + 2, n);
      outcome := CollectBet(start, SMALL_BLIND);
      if outcome == Completed {
        outcome := CollectBet(bigSeat, BIG_BLIND);
      }
    }

    /** `collectBet` on the player at `seat`: a seat with no player, or a player who cannot
        cover the amount (the call of the undefined `foldPlayer`), throws. */
    method CollectBet(seat: int, amount: int) returns (outcome: Outcome)
      modifies this
      ensures Step(State(), outcome) == Betting.CollectBet(old(State()), seat, amount)
    {
      if !(0 <= seat < |players|) {
        return TypeError;
      }
      var p := players[seat];
      if p.chips >= amount {
        players := players[seat := p.(chips := p.chips - amount, bet := p.bet + amount, lastBet := Some(amount))];
        pot := pot + amount;
        outcome := Completed;
      } else {
        outcome := TypeError;
      }
    }

    /** `dealInitialCards`: two passes over the seats, each popping one card onto every hand. */
    method DealInitialCards()
      requires 2 * |players| <= |deck|
      modifies this
      ensures State() == Dealing.DealInitialCards(old(State()))
    {
      ghost var s0 := State();
      var n := |players|;
      for i := 0 to 2
        invariant |players| == n && |deck| == |s0.deck| - i * n
        invariant i == 0 ==> State() == s0
        invariant i == 1 ==> State() == Dealing.DealPass(s0, n)
        invariant i == 2 ==> State() == Dealing.DealInitialCards(s0)
      {
        ghost var start := State();
        for p := 0 to n
          invariant n <= |start.deck| && |start.players| == n
          invariant State() == Dealing.DealPass(start, p)
        {
          var top := deck[|deck| - 1];
          deck := deck[..|deck| - 1];
          players := players[p := players[p].(hand := players[p].hand + [top])];
        }
      }
    }

    /** `dealCommunityCards(count)`: pop `count` cards onto the board. */
    method DealCommunityCards(count: nat)
      requires count <= |deck|
      modifies this
      ensures State() == Dealing.DealCommunityCards(old(State()), count)
    {
      for i := 0 to count
        invariant State() == Dealing.DealCommunityCards(old(State()), i)
      {
        var top := deck[|deck| - 1];
        deck := deck[..|deck| - 1];
        communityCards := communityCards + [top];
      }
    }

    /** `handleActions`: apply the move to the current seat, then end the round if it is
        complete and pass the turn otherwise. */
    method HandleActions(move: Move, callBet: int, rank: seq<Card> -> int) returns (outcome: Outcome)
      requires Betting.NeededCards(currentBettingRound + 1) <= |deck|
      modifies this
      ensures Step(State(), outcome) == Betting.HandleActions(old(State()), move, callBet, rank)
    {
      var i := currentPlayerIndex;
      if move != Unrecognized && !(0 <= i < |players|) {
        return TypeError;
      }
      match move {
        case Fold =>
          players := players[i := players[i].(inGame := false)];
        case Call =>
          players := players[i := players[i].(chips := players[i].chips - callBet)];
          pot := pot + callBet;
          players := players[i := players[i].(bet := players[i].bet + callBet)];
          players := players[i := players[i].(lastAction := Called)];
        case Raise =>
          players := players[i := players[i].(chips := players[i].chips - (callBet + RAISE_INCREMENT))];
          pot := pot + (callBet + RAISE_INCREMENT);
          players := players[i := players[i].(bet := players[i].bet + (callBet + RAISE_INCREMENT))];
          players := players[i := players[i].(lastAction := Raised)];
        case Unrecognized =>
      }
      assert State() == Betting.ApplyAction(old(State()), move, callBet).state;
      var done := IsBettingRoundCompleted();
      if done {
        EndBettingRound(rank);
        outcome := Completed;
      } else {
        Betting.NotCompletedHasActive(players);
        outcome := NextPlayer(rank);
      }
    }

    /** `isBettingRoundCompleted`. */
    method IsBettingRoundCompleted() returns (done: bool)
      ensures done == Betting.RoundCompleted(players)
      ensures done <==>
        (forall i :: 0 <= i < |players| && players[i].inGame ==> players[i].lastAction != NoAction) &&
        (forall i, j :: 0 <= i < |players| && 0 <= j < |players| && players[i].inGame && players[j].inGame ==>
           players[i].bet == players[j].bet)
    {
      var ps := players;
      var act := ActiveSeats(ps);
      done := true;
      for k := 0 to |act|
        invariant done <==> forall l :: 0 <= l < k ==> ps[act[l]].lastAction == Called || ps[act[l]].lastAction == Raised
      {
        if !(ps[act[k]].lastAction == Called || ps[act[k]].lastAction == Raised) {
          done := false;
        }
      }
      if done {
        var firstBet := if |act| > 0 then ps[act[0]].bet else 0;
        for k := 0 to |act|
          invariant done <==> forall l :: 0 <= l < k ==> ps[act[l]].bet == firstBet
        {
          if ps[act[k]].bet != firstBet {
            done := false;
          }
        }
      }
      Betting.RoundCompletedIff(ps);
    }

    /** `endBettingRound`: clear bets and last actions, settle if fewer than two are in game,
        count the round up and deal the flop, turn or river (or settle at the fourth), and hand
        the turn to the small blind. */
    method EndBettingRound(rank: seq<Card> -> int)
      requires Betting.NeededCards(currentBettingRound + 1) <= |deck|
      modifies this
      ensures State() == Betting.EndBettingRound(old(State()), rank)
    {
      ghost var ps0 := players;
      for i := 0 to |players|
        invariant |players| == |ps0|
        invariant forall k :: 0 <= k < i ==> players[k] == ps0[k].(lastAction := NoAction, bet := 0)
        invariant forall k :: i <= k < |ps0| ==> players[k] == ps0[k]
        invariant State() == old(State()).(players := players)
      {
        players := players[i := players[i].(lastAction := NoAction, bet := 0)];
      }
      assert players == Betting.ClearBets(ps0);
      if ActiveCount(players) < 2 {
        EvaluateWinner(rank);
      }
      assert State() == Betting.SettleIfFew(old(State()).(players := Betting.ClearBets(ps0)), rank);
      currentBettingRound := currentBettingRound + 1;
      if currentBettingRound == 1 {
        DealCommunityCards(3);
      } else if currentBettingRound < 4 {
        DealCommunityCards(1);
      } else {
        EvaluateWinner(rank);
      }
      currentPlayerIndex := smallBlindIndex;
    }

    /** `nextPlayer`: settle if fewer than two are in game, then step seat by seat from the one
        after the current seat until a seat in game is found. */
    method NextPlayer(rank: seq<Card> -> int) returns (outcome: Outcome)
      requires HasActive(players)
      modifies this
      ensures Step(State(), outcome) == Betting.NextPlayer(old(State()), rank)
    {
      if ActiveCount(players) < 2 {
        EvaluateWinner(rank);
      }
      var n := |players|;
      var nextIndex := JsRem(currentPlayerIndex + 1, n);
      Betting.NextPlayerSteps(old(State()), rank, State(), nextIndex);
      if nextIndex < 0 {
        return TypeError;
      }
      nextIndex := FindActive(nextIndex);
      currentPlayerIndex := nextIndex;
      outcome := Completed;
    }

    /** The search loop of `nextPlayer`: from `start`, step one seat at a time, cyclically,
        until a seat in game is found. */
    method FindActive(start: nat) returns (j: nat)
      requires start < |players| && HasActive(players)
      ensures j == Betting.NextActive(players, start)
      ensures j < |players| && players[j].inGame
    {
      var n := |players|;
      Betting.ActiveReachable(players, start);
      j := start;
      ghost var d: nat := 0;
      while !players[j].inGame
        invariant d <= Betting.FirstActiveOffset(players, start, 0)
        invariant j == Betting.Cyc(start, d, n)
        decreases n - d
      {
        Betting.SuccSeat(start, d, n);
        j := (j + 1) % n;
        d := d + 1;
      }
    }

    /** `evaluateWinner`: a sole player in game takes the pot; otherwise every player in game
        gets a hand ranking and the best hands win, one taking the pot and several each taking
        the floor of an equal share. The pot is not cleared. */
    method EvaluateWinner(rank: seq<Card> -> int)
      modifies this
      ensures State() == Settlement.EvaluateWinner(old(State()), rank)
    {
      var act := ActiveSeats(players);
      if |act| == 1 {
        Award(act[0]);
      } else {
        Showdown(rank);
      }
    }

    /** `evaluateWinner` with no player or several players in game: rank, then pay the best. */
    method Showdown(rank: seq<Card> -> int)
      requires ActiveCount(players) != 1
      modifies this
      ensures State() == Settlement.EvaluateWinner(old(State()), rank)
    {
      RankHands(rank);
      var ws := Settlement.Winners(players, communityCards, rank);
      Settlement.ShowdownSteps(old(State()), rank, players, ws);
      if |ws| == 1 {
        Award(ws[0]);
      } else {
        PayWinners(ws, if |ws| == 0 then 0 else pot / |ws|);
      }
    }

    /** `winner.chips += this.pot; this.winner = winner`. */
    method Award(w: nat)
      requires w < |players|
      modifies this
      ensures State() == Settlement.Award(old(State()), w)
    {
      players := players[w := players[w].(chips := players[w].chips + pot)];
      winner := Won(w);
    }

    /** The ranking loop of `evaluateWinner`: every player in game stores the ranking of their
        hole cards together with the board. */
    method RankHands(rank: seq<Card> -> int)
      modifies this
      ensures State() == old(State()).(players := Settlement.WithHandInfo(old(players), communityCards, rank))
    {
      ghost var ps0 := players;
      for i := 0 to |players|
        invariant |players| == |ps0|
        invariant forall k :: 0 <= k < i ==> players[k] == Settlement.WithHandInfo(ps0, communityCards, rank)[k]
        invariant forall k :: i <= k < |ps0| ==> players[k] == ps0[k]
        invariant State() == old(State()).(players := players)
      {
        if players[i].inGame {
          players := players[i := players[i].(handInfo := Some(Settlement.HandValue(players[i], communityCards, rank)))];
        }
      }
      assert players == Settlement.WithHandInfo(ps0, communityCards, rank);
    }

    /** The split-pot loop of `evaluateWinner`: each tied winner in turn receives `share`. */
    method PayWinners(ws: seq<nat>, share: int)
      requires forall k :: 0 <= k < |ws| ==> ws[k] < |players|
      modifies this
      ensures State() == old(State()).(players := Settlement.PayEach(old(players), ws, share))
    {
      for k := 0 to |ws|
        invariant players == Settlement.PayEach(old(players), ws[..k], share)
        invariant State() == old(State()).(players := players)
      {
        assert ws[..k + 1][..k] == ws[..k];
        var w := ws[k];
        players := players[w := players[w].(chips := players[w].chips + share)];
      }
      assert ws[..|ws|] == ws;
    }

    /** `resetGame`: reset the table and, with two or more players, take the blinds and deal. */
    method ResetGame(rand: nat -> nat) returns (outcome: Outcome)
      requires 1 <= |players| <= 26
      modifies this
      ensures Step(State(), outcome) == Lifecycle.ResetGame(old(State()), rand)
    {
      ResetTable(rand);
      Lifecycle.ResetTableEffect(old(State()), rand);
      if |players| > 1 {
        ghost var t := State();
        outcome := CollectBlinds(smallBlindIndex);
        Lifecycle.CollectBlindsKeepsCards(t, t.smallBlindIndex);
        if outcome == Completed {
          DealInitialCards();
        }
      } else {
        outcome := Completed;
      }
    }

    /** The part of `resetGame` before the blinds: rotate the blinds, clear the table, build a
        fresh deck and reset every player. */
    method ResetTable(rand: nat -> nat)
      requires |players| >= 1
      modifies this
      ensures State() == Lifecycle.ResetTable(old(State()), rand)
    {
      deck := [];
      communityCards := [];
      smallBlindIndex := JsRem(smallBlindIndex + 1, |players|);
      bigBlindIndex := JsRem(smallBlindIndex + 1, |players|);
      currentPlayerIndex := smallBlindIndex;
      pot := 0;
      currentBettingRound := 0;
      winner := NoWinner;
      Lifecycle.ResetTableSteps(old(State()), rand, State());
      InitializeDeck(rand);
      ResetPlayers();
    }

    /** The player loop of `resetGame`: empty hands, no bets, everyone in game, no last action. */
    method ResetPlayers()
      modifies this
      ensures State() == old(State()).(players := Lifecycle.ResetPlayers(old(players)))
    {
      ghost var ps0 := players;
      for i := 0 to |players|
        invariant |players| == |ps0|
        invariant forall k :: 0 <= k < i ==> players[k] == ps0[k].(hand := [], bet := 0, inGame := true, lastAction := NoAction)
        invariant forall k :: i <= k < |ps0| ==> players[k] == ps0[k]
        invariant State() == old(State()).(players := players)
      {
        players := players[i := players[i].(hand := [], bet := 0, inGame := true, lastAction := NoAction)];
      }
      assert players == Lifecycle.ResetPlayers(ps0);
    }
  }
}
