/** Bets, blinds, the three player actions, the round-completion test, the cyclic turn
    advance and the end of a betting round. */
module Betting {
  import opened Cards
  import opened Table
  import opened Dealing
  import opened Settlement

  /** `collectBet`, applied to the player seated at `seat`. Reading the chips of a seat that
      holds no player throws, and so does the insufficient-chips branch, which calls a
      `foldPlayer` method the class does not define; neither changes anything. */
  function CollectBet(s: Snapshot, seat: int, amount: int): Step
  {
    if !(0 <= seat < |s.players|) then Step(s, TypeError)
    else
      var p := s.players[seat];
      if p.chips >= amount then
        Step(s.(players := s.players[seat := p.(chips := p.chips - amount, bet := p.bet + amount, lastBet := Some(amount))],
                pot := s.pot + amount), Completed)
      else Step(s, TypeError)
  }

  /** A bet succeeds exactly when the seat holds a player who can cover it; it then moves the
      amount from that player's chips into both the player's bet and the pot, so chips on the
      table are conserved, and leaves every other seat and field alone. */
  lemma CollectBetEffect(s: Snapshot, seat: int, amount: int)
    ensures var r := CollectBet(s, seat, amount);
      (r.outcome == Completed <==> 0 <= seat < |s.players| && s.players[seat].chips >= amount) &&
      (r.outcome == TypeError ==> r.state == s) &&
      Bank(r.state) == Bank(s) &&
      |r.state.players| == |s.players|
    ensures var r := CollectBet(s, seat, amount);
      r.outcome == Completed ==>
        var p, q := s.players[seat], r.state.players[seat];
        q.chips == p.chips - amount && q.bet == p.bet + amount && q.lastBet == Some(amount) &&
        q.(chips := p.chips, bet := p.bet, lastBet := p.lastBet) == p &&
        r.state.pot == s.pot + amount &&
        (forall j :: 0 <= j < |s.players| && j != seat ==> r.state.players[j] == s.players[j]) &&
        r.state.(players := s.players, pot := s.pot) == s
  {
    if 0 <= seat < |s.players| {
      var p := s.players[seat];
      ChipsSumUpdate(s.players, seat, p.(chips := p.chips - amount, bet := p.bet + amount, lastBet := Some(amount)));
    }
  }

  /** `collectBlinds(start)`: the turn passes to the seat two after `start`, then the small
      blind is taken from `start` and, if that succeeded, the big blind from the next seat.
      Indices wrap with JavaScript's `%`. */
  function CollectBlinds(s: Snapshot, start: int): Step
    requires |s.players| >= 1
  {
    var n := |s.players|;
    var small := CollectBet(s.(currentPlayerIndex := JsRem(start + 2, n)), start, SMALL_BLIND);
    if small.outcome == TypeError then small
    else CollectBet(small.state, JsRem(start + 1, n), BIG_BLIND)
  }

  /** The seat that pays the big blind. */
  function BigBlindSeat(n: int, start: int): int
    requires n >= 1
  {
    JsRem(start + 1, n)
  }

  /** Whatever happens, the turn index becomes (start + 2) % n and chips on the table are
      conserved. The blinds go through exactly when `start` is a seat that can pay 10 and the
      seat after it can then pay 20; a throw by the big blind leaves the small blind taken. */
  lemma CollectBlindsEffect(s: Snapshot, start: int)
    requires |s.players| >= 1
    ensures var r, n := CollectBlinds(s, start), |s.players|;
      var big := BigBlindSeat(n, start);
      r.state.currentPlayerIndex == JsRem(start + 2, n) &&
      Bank(r.state) == Bank(s) &&
      |r.state.players| == n &&
      (r.outcome == Completed <==>
        0 <= start < n && s.players[start].chips >= SMALL_BLIND &&
        (if big == start then s.players[start].chips - SMALL_BLIND else s.players[big].chips) >= BIG_BLIND)
  {
    var n := |s.players|;
    var s1 := s.(currentPlayerIndex := JsRem(start + 2, n));
    var small := CollectBet(s1, start, SMALL_BLIND);
    CollectBetEffect(s1, start, SMALL_BLIND);
    if small.outcome == Completed {
      CollectBetEffect(small.state, BigBlindSeat(n, start), BIG_BLIND);
    }
  }

  /** With two or more players and both blinds covered, seat `start` has paid 10 and the next
      seat 20: each one's chips, bet and lastBet show it, the pot has grown by 30, and no
      other seat has changed. */
  lemma CollectBlindsCharges(s: Snapshot, start: int)
    requires |s.players| >= 2 && 0 <= start < |s.players|
    requires s.players[start].chips >= SMALL_BLIND
    requires s.players[(start + 1) % |s.players|].chips >= BIG_BLIND
    ensures var r, n, big := CollectBlinds(s, start), |s.players|, (start + 1) % |s.players|;
      r.outcome == Completed &&
      r.state.pot == s.pot + SMALL_BLIND + BIG_BLIND &&
      r.state.players[start] == s.players[start].(chips := s.players[start].chips - SMALL_BLIND,
        bet := s.players[start].bet + SMALL_BLIND, lastBet := Some(SMALL_BLIND)) &&
      r.state.players[big] == s.players[big].(chips := s.players[big].chips - BIG_BLIND,
        bet := s.players[big].bet + BIG_BLIND, lastBet := Some(BIG_BLIND)) &&
      (forall j :: 0 <= j < n && j != start && j != big ==> r.state.players[j] == s.players[j]) &&
      r.state.(players := s.players, pot := s.pot) == s.(currentPlayerIndex := (start + 2) % n)
  {
    var n := |s.players|;
    var big := (start + 1) % n;
    assert big != start;
    var s1 := s.(currentPlayerIndex := JsRem(start + 2, n));
    CollectBetEffect(s1, start, SMALL_BLIND);
    CollectBetEffect(CollectBet(s1, start, SMALL_BLIND).state, big, BIG_BLIND);
  }

  /** At a table of one, both blinds come from the same player: 30 chips leave the player's
      stack for the pot, and the recorded lastBet is the big blind. */
  lemma CollectBlindsAlone(s: Snapshot, start: int)
    requires |s.players| == 1 && start == 0 && s.players[0].chips >= SMALL_BLIND + BIG_BLIND
    ensures var r := CollectBlinds(s, start);
      r.outcome == Completed &&
      r.state.pot == s.pot + SMALL_BLIND + BIG_BLIND &&
      r.state.players == [s.players[0].(chips := s.players[0].chips - SMALL_BLIND - BIG_BLIND,
        bet := s.players[0].bet + SMALL_BLIND + BIG_BLIND, lastBet := Some(BIG_BLIND))] &&
      r.state.currentPlayerIndex == 0
  {
  }

  /** A call or a raise: `amount` moves from the current player's chips to the bet and the pot. */
  function Charge(s: Snapshot, seat: nat, amount: int, act: Action): Snapshot
    requires seat < |s.players|
  {
    var p := s.players[seat];
    s.(players := s.players[seat := p.(chips := p.chips - amount, bet := p.bet + amount, lastAction := act)],
       pot := s.pot + amount)
  }

  /** The first half of `handleActions`: the move applied to the current seat. An unrecognized
      action string does nothing; a recognized one on an index that holds no player throws. */
  function ApplyAction(s: Snapshot, move: Move, callBet: int): Step
  {
    var i := s.currentPlayerIndex;
    if move == Unrecognized then Step(s, Completed)
    else if !(0 <= i < |s.players|) then Step(s, TypeError)
    else
      match move
      case Fold => Step(s.(players := s.players[i := s.players[i].(inGame := false)]), Completed)
      case Call => Step(Charge(s, i, callBet, Called), Completed)
      case Raise => Step(Charge(s, i, callBet + RAISE_INCREMENT, Raised), Completed)
  }

  /** The amount a move puts in the pot. */
  function Stake(move: Move, callBet: int): int
  {
    match move
    case Call => callBet
    case Raise => callBet + RAISE_INCREMENT
    case _ => 0
  }

  /** Applying a move conserves the current player's chips plus the pot (and so the chips on
      the table), never touches another seat or any field but the players and the pot, throws
      exactly for a recognized move on a missing seat, and otherwise does what the move says:
      a fold only clears `inGame`; a call or raise charges its stake and records the action. */
  lemma ApplyActionEffect(s: Snapshot, move: Move, callBet: int)
    ensures var r, i := ApplyAction(s, move, callBet), s.currentPlayerIndex;
      Bank(r.state) == Bank(s) &&
      |r.state.players| == |s.players| &&
      (forall j :: 0 <= j < |s.players| && j != i ==> r.state.players[j] == s.players[j]) &&
      r.state.(players := s.players, pot := s.pot) == s &&
      (r.outcome == TypeError <==> move != Unrecognized && !(0 <= i < |s.players|)) &&
      (r.outcome == TypeError || move == Unrecognized ==> r.state == s)
    ensures var r, i := ApplyAction(s, move, callBet), s.currentPlayerIndex;
      r.outcome == Completed && move != Unrecognized ==>
        var p, q := s.players[i], r.state.players[i];
        q.chips + r.state.pot == p.chips + s.pot &&
        r.state.pot == s.pot + Stake(move, callBet) &&
        q.bet == p.bet + Stake(move, callBet) &&
        q.hand == p.hand &&
        (move == Fold ==> q == p.(inGame := false)) &&
        (move == Call ==> q.lastAction == Called && q.inGame == p.inGame) &&
        (move == Raise ==> q.lastAction == Raised && q.inGame == p.inGame)
  {
    var i := s.currentPlayerIndex;
    if move != Unrecognized && 0 <= i < |s.players| {
      var r := ApplyAction(s, move, callBet);
      ChipsSumUpdate(s.players, i, r.state.players[i]);
    }
  }

  /** Applying a move neither creates nor loses a card. */
  lemma ApplyActionKeepsCards(s: Snapshot, move: Move, callBet: int)
    ensures CardsInPlay(ApplyAction(s, move, callBet).state) == CardsInPlay(s)
  {
    var r := ApplyAction(s, move, callBet).state;
    ApplyActionEffect(s, move, callBet);
    if move != Unrecognized && 0 <= s.currentPlayerIndex < |s.players| {
      HeldSameHands(r.players, s.players);
    }
  }

  /** `isBettingRoundCompleted`, as written: every active player has called or raised, and
      every active player's bet equals the first active player's (or 0 if there is none). */
  predicate RoundCompleted(ps: seq<Player>)
  {
    var act := ActiveSeats(ps);
    (forall k :: 0 <= k < |act| ==> ps[act[k]].lastAction == Called || ps[act[k]].lastAction == Raised) &&
    var firstBet := if |act| > 0 then ps[act[0]].bet else 0;
    forall k :: 0 <= k < |act| ==> ps[act[k]].bet == firstBet
  }

  /** The round is complete exactly when every player in game has acted with a call or a raise
      and all players in game have the same bet; in particular it is complete, vacuously, when
      nobody is in game. */
  lemma RoundCompletedIff(ps: seq<Player>)
    ensures RoundCompleted(ps) <==>
      (forall i :: 0 <= i < |ps| && ps[i].inGame ==> ps[i].lastAction != NoAction) &&
      (forall i, j :: 0 <= i < |ps| && 0 <= j < |ps| && ps[i].inGame && ps[j].inGame ==> ps[i].bet == ps[j].bet)
  {
    if RoundCompleted(ps) {
      CompletedActedLevel(ps);
    }
    if (forall i :: 0 <= i < |ps| && ps[i].inGame ==> ps[i].lastAction != NoAction) &&
       (forall i, j :: 0 <= i < |ps| && 0 <= j < |ps| && ps[i].inGame && ps[j].inGame ==> ps[i].bet == ps[j].bet) {
      ActedLevelCompleted(ps);
    }
  }

  /** A completed round: everyone in game has acted, and at the first active player's bet. */
  lemma CompletedActedLevel(ps: seq<Player>)
    requires RoundCompleted(ps)
    ensures forall i :: 0 <= i < |ps| && ps[i].inGame ==>
      0 < |ActiveSeats(ps)| && ps[i].lastAction != NoAction && ps[i].bet == ps[ActiveSeats(ps)[0]].bet
  {
    var act := ActiveSeats(ps);
    forall i | 0 <= i < |ps| && ps[i].inGame ensures 0 < |act| && ps[i].lastAction != NoAction && ps[i].bet == ps[act[0]].bet {
      assert i in act;
      var k :| 0 <= k < |act| && act[k] == i;
    }
  }

  /** Everyone in game having acted, at one common bet, completes the round. */
  lemma ActedLevelCompleted(ps: seq<Player>)
    requires forall i :: 0 <= i < |ps| && ps[i].inGame ==> ps[i].lastAction != NoAction
    requires forall i, j :: 0 <= i < |ps| && 0 <= j < |ps| && ps[i].inGame && ps[j].inGame ==> ps[i].bet == ps[j].bet
    ensures RoundCompleted(ps)
  {
    var act := ActiveSeats(ps);
    forall k | 0 <= k < |act| ensures ps[act[k]].lastAction == Called || ps[act[k]].lastAction == Raised {
      assert ps[act[k]].inGame;
    }
    forall k | 0 <= k < |act| ensures ps[act[k]].bet == ps[act[0]].bet {
      assert ps[act[k]].inGame && ps[act[0]].inGame;
    }
  }

  /** An unfinished round has a player in game, which is what keeps the turn search finite. */
  lemma NotCompletedHasActive(ps: seq<Player>)
    ensures !RoundCompleted(ps) ==> HasActive(ps)
  {
    ActiveCountPositive(ps);
  }

  /** The seat k places on from seat `from` around a table of n, for k up to n. */
  function Cyc(from: nat, k: nat, n: nat): (j: nat)
    requires from < n && k <= n
    ensures j < n
  {
    if from + k < n then from + k else from + k - n
  }

  /** JavaScript's `(x + 1) % n` from a seat x: the next seat around the table. */
  lemma SuccSeat(from: nat, k: nat, n: nat)
    requires from < n && k < n
    ensures (Cyc(from, k, n) + 1) % n == Cyc(from, k + 1, n)
  {
    SmallMod(Cyc(from, k, n) + 1, n);
  }

  lemma SmallMod(x: int, n: int)
    requires 0 <= x <= n && n >= 1
    ensures x % n == if x == n then 0 else x
  {
  }

  /** The search of `nextPlayer`: the least offset e >= d at which the seat e places on from
      `start` is in game, given that there is one below n. */
  function FirstActiveOffset(ps: seq<Player>, start: nat, d: nat): (e: nat)
    requires start < |ps| && d <= |ps|
    requires exists k :: d <= k < |ps| && ps[Cyc(start, k, |ps|)].inGame
    ensures d <= e < |ps| && ps[Cyc(start, e, |ps|)].inGame
    ensures forall k :: d <= k < e ==> !ps[Cyc(start, k, |ps|)].inGame
    decreases |ps| - d
  {
    if ps[Cyc(start, d, |ps|)].inGame then d else FirstActiveOffset(ps, start, d + 1)
  }

  /** The offset from `from` forward to seat j, cyclically: in 1..n, and n for j itself. */
  function Gap(from: nat, j: nat, n: nat): (g: nat)
    requires from < n && j < n
    ensures 1 <= g <= n && Cyc(from, g, n) == j
    ensures g == n <==> j == from
  {
    if j > from then j - from else j + n - from
  }

  /** Every active seat is reached from `start` at some offset below n. */
  lemma ActiveReachable(ps: seq<Player>, start: nat)
    requires start < |ps| && HasActive(ps)
    ensures exists k :: 0 <= k < |ps| && ps[Cyc(start, k, |ps|)].inGame
  {
    var n := |ps|;
    var j :| 0 <= j < n && ps[j].inGame;
    var k := if j >= start then j - start else j + n - start;
    assert ps[Cyc(start, k, n)].inGame;
  }

  /** The seat `nextPlayer` settles on when its search begins at `start`. */
  function NextActive(ps: seq<Player>, start: nat): (j: nat)
    requires start < |ps| && HasActive(ps)
    ensures j < |ps| && ps[j].inGame
  {
    ActiveReachable(ps, start);
    Cyc(start, FirstActiveOffset(ps, start, 0), |ps|)
  }

  /** The search starts one seat after `from`: its k-th seat is the (k + 1)-th after `from`. */
  lemma ShiftedSeat(from: nat, k: nat, n: nat)
    requires from < n && k < n
    ensures (from + 1) % n < n && Cyc((from + 1) % n, k, n) == Cyc(from, k + 1, n)
  {
    SmallMod(from + 1, n);
  }

  /** From a seat `from`, the search of `nextPlayer` (which starts at (from + 1) % n) settles on
      the first seat in game strictly after `from` in cyclic order: no seat in between is in
      game, no other seat in game comes earlier, and the seat is a different one whenever two
      or more players are in game. */
  lemma NextActiveAfter(ps: seq<Player>, from: nat)
    requires from < |ps| && HasActive(ps)
    ensures var n := |ps|;
      var j := NextActive(ps, (from + 1) % n);
      (forall e :: 1 <= e < Gap(from, j, n) ==> !ps[Cyc(from, e, n)].inGame) &&
      (forall i :: 0 <= i < n && ps[i].inGame ==> Gap(from, j, n) <= Gap(from, i, n)) &&
      (ActiveCount(ps) >= 2 ==> j != from)
  {
    var n := |ps|;
    SmallMod(from + 1, n);
    var start := (from + 1) % n;
    ActiveReachable(ps, start);
    var d := FirstActiveOffset(ps, start, 0);
    var j := NextActive(ps, start);
    ShiftedSeat(from, d, n);
    assert j == Cyc(from, d + 1, n);
    assert Gap(from, j, n) == d + 1;
    forall e | 1 <= e < Gap(from, j, n) ensures !ps[Cyc(from, e, n)].inGame {
      ShiftedSeat(from, e - 1, n);
    }
    forall i | 0 <= i < n && ps[i].inGame ensures Gap(from, j, n) <= Gap(from, i, n) {
      var g := Gap(from, i, n);
      assert ps[Cyc(from, g, n)].inGame;
      if g < n {
        ShiftedSeat(from, g - 1, n);
      }
    }
    if ActiveCount(ps) >= 2 {
      var act := ActiveSeats(ps);
      var other := if act[0] != from then act[0] else act[1];
      assert ps[other].inGame && other != from;
    }
  }

  /** `nextPlayer`. With fewer than two players in game it first settles the pot (and goes on).
      The search starts at (currentPlayerIndex + 1) % n; a negative start names no player and
      throws when its `inGame` is read. With nobody in game the search would never end, which
      the requirement rules out. */
  function NextPlayer(s: Snapshot, rank: seq<Card> -> int): (r: Step)
    requires HasActive(s.players)
    ensures |r.state.players| == |s.players|
  {
    var settled := if ActiveCount(s.players) < 2 then EvaluateWinner(s, rank) else s;
    EvaluateWinnerKeepsSeats(s, rank);
    var start := JsRem(s.currentPlayerIndex + 1, |s.players|);
    if start < 0 then Step(settled, TypeError)
    else
      assert HasActive(settled.players) by {
        var j :| 0 <= j < |s.players| && s.players[j].inGame;
        assert settled.players[j].inGame;
      }
      Step(settled.(currentPlayerIndex := NextActive(settled.players, start)), Completed)
  }

  /** `nextPlayer` step by step: the settled table keeps everyone's seat; a negative start
      throws; otherwise the turn goes to the search's seat on the settled table. */
  lemma NextPlayerSteps(s: Snapshot, rank: seq<Card> -> int, settled: Snapshot, start: int)
    requires HasActive(s.players)
    requires settled == if ActiveCount(s.players) < 2 then EvaluateWinner(s, rank) else s
    requires start == JsRem(s.currentPlayerIndex + 1, |s.players|)
    ensures |settled.players| == |s.players| && HasActive(settled.players)
    ensures forall j :: 0 <= j < |s.players| ==> settled.players[j].inGame == s.players[j].inGame
    ensures settled.currentPlayerIndex == s.currentPlayerIndex
    ensures start < 0 ==> NextPlayer(s, rank) == Step(settled, TypeError)
    ensures start >= 0 ==>
      NextPlayer(s, rank) == Step(settled.(currentPlayerIndex := NextActive(settled.players, start)), Completed)
  {
    EvaluateWinnerKeepsSeats(s, rank);
    var j :| 0 <= j < |s.players| && s.players[j].inGame;
    assert settled.players[j].inGame;
  }

  /** The search depends only on who is in game. */
  lemma {:induction false} FirstActiveOffsetSameInGame(ps: seq<Player>, qs: seq<Player>, start: nat, d: nat)
    requires |ps| == |qs| && start < |ps| && d <= |ps|
    requires forall j :: 0 <= j < |ps| ==> ps[j].inGame == qs[j].inGame
    requires exists k :: d <= k < |ps| && ps[Cyc(start, k, |ps|)].inGame
    ensures exists k :: d <= k < |qs| && qs[Cyc(start, k, |qs|)].inGame
    ensures FirstActiveOffset(ps, start, d) == FirstActiveOffset(qs, start, d)
    decreases |ps| - d
  {
    var k :| d <= k < |ps| && ps[Cyc(start, k, |ps|)].inGame;
    assert qs[Cyc(start, k, |qs|)].inGame;
    if !ps[Cyc(start, d, |ps|)].inGame {
      FirstActiveOffsetSameInGame(ps, qs, start, d + 1);
    }
  }

  /** From a seat of the table, `nextPlayer` completes; if two or more players are in game it
      changes only the turn, which passes to the first seat in game strictly after the old one;
      with fewer it also settles, but the turn goes to the same seat. */
  lemma NextPlayerTurn(s: Snapshot, rank: seq<Card> -> int)
    requires HasActive(s.players) && 0 <= s.currentPlayerIndex < |s.players|
    ensures var r, ps, from := NextPlayer(s, rank), s.players, s.currentPlayerIndex;
      var n, j := |ps|, r.state.currentPlayerIndex;
      r.outcome == Completed &&
      0 <= j < n && ps[j].inGame &&
      (forall e :: 1 <= e < Gap(from, j, n) ==> !ps[Cyc(from, e, n)].inGame) &&
      (forall i :: 0 <= i < n && ps[i].inGame ==> Gap(from, j, n) <= Gap(from, i, n)) &&
      (ActiveCount(ps) >= 2 ==> j != from && r.state == s.(currentPlayerIndex := j)) &&
      (ActiveCount(ps) < 2 ==> r.state == EvaluateWinner(s, rank).(currentPlayerIndex := j))
  {
    var ps, from, n := s.players, s.currentPlayerIndex, |s.players|;
    var settled := if ActiveCount(ps) < 2 then EvaluateWinner(s, rank) else s;
    var start := JsRem(from + 1, n);
    NextPlayerSteps(s, rank, settled, start);
    NextActiveAfter(ps, from);
    ActiveReachable(ps, start);
    FirstActiveOffsetSameInGame(ps, settled.players, start, 0);
    assert NextActive(settled.players, start) == NextActive(ps, start);
  }

  /** `endBettingRound`'s first loop: every bet and every last action cleared. */
  function ClearBets(ps: seq<Player>): (r: seq<Player>)
    ensures |r| == |ps|
  {
    seq(|ps|, i requires 0 <= i < |ps| => ps[i].(lastAction := NoAction, bet := 0))
  }

  /** How many community cards a new round number deals: 3 for the flop, 1 for the turn and the
      river, none once the showdown is reached. */
  function NeededCards(round: int): nat
  {
    if round == 1 then 3 else if round < 4 then 1 else 0
  }

  /** `endBettingRound`. Settling when fewer than two players remain does not end the method:
      the round counter still advances, and a fourth round settles a second time. */
  function EndBettingRound(s: Snapshot, rank: seq<Card> -> int): (r: Snapshot)
    requires NeededCards(s.currentBettingRound + 1) <= |s.deck|
  {
    var dealt := AdvanceRound(SettleIfFew(s.(players := ClearBets(s.players)), rank), rank);
    dealt.(currentPlayerIndex := dealt.smallBlindIndex)
  }

  /** `if (activePlayersCount < 2) this.evaluateWinner()`. */
  function SettleIfFew(s: Snapshot, rank: seq<Card> -> int): (r: Snapshot)
    ensures r.(players := s.players, winner := s.winner) == s && |r.players| == |s.players|
  {
    if ActiveCount(s.players) < 2 then EvaluateWinner(s, rank) else s
  }

  /** The round counter's step: count up, then deal the flop, the turn or the river, or settle. */
  function AdvanceRound(s: Snapshot, rank: seq<Card> -> int): (r: Snapshot)
    requires NeededCards(s.currentBettingRound + 1) <= |s.deck|
    ensures |r.players| == |s.players|
  {
    var advanced := s.(currentBettingRound := s.currentBettingRound + 1);
    var round := advanced.currentBettingRound;
    if round == 1 then DealCommunityCards(advanced, 3)
    else if round < 4 then DealCommunityCards(advanced, 1)
    else EvaluateWinner(advanced, rank)
  }

  /** How many times `endBettingRound` settles: once for fewer than two players in game, once
      more for reaching the fourth round. */
  function Settlements(s: Snapshot): nat
  {
    (if ActiveCount(s.players) < 2 then 1 else 0) + (if s.currentBettingRound + 1 >= 4 then 1 else 0)
  }

  /** The chips one settlement of s hands out. */
  function Payout(s: Snapshot, rank: seq<Card> -> int): int
  {
    |Winners(s.players, s.communityCards, rank)| * Share(s, rank)
  }

  /** Settling again after a settlement (or after clearing bets) picks the same winners and the
      same shares, since neither changes hands, who is in game, the board or the pot. */
  lemma PayoutSameSeats(s: Snapshot, t: Snapshot, rank: seq<Card> -> int)
    requires |s.players| == |t.players| && s.communityCards == t.communityCards && s.pot == t.pot
    requires forall i :: 0 <= i < |s.players| ==>
      s.players[i].inGame == t.players[i].inGame && s.players[i].hand == t.players[i].hand
    ensures ActiveCount(s.players) == ActiveCount(t.players)
    ensures Winners(s.players, s.communityCards, rank) == Winners(t.players, t.communityCards, rank)
    ensures Share(s, rank) == Share(t, rank) && Payout(s, rank) == Payout(t, rank)
  {
    ActiveSeatsSameInGame(s.players, t.players);
    WinnersSameHands(s.players, t.players, s.communityCards, rank);
  }

  /** Two tables that agree seat by seat on who is in game, hands, bets and last actions. */
  ghost predicate SameSeats(ps: seq<Player>, qs: seq<Player>)
  {
    |ps| == |qs| &&
    forall i :: 0 <= i < |ps| ==>
      ps[i].inGame == qs[i].inGame && ps[i].hand == qs[i].hand &&
      ps[i].bet == qs[i].bet && ps[i].lastAction == qs[i].lastAction
  }

  /** Settling only when few remain keeps the seats and the cards, and adds one payout to the
      chips exactly when it happens. */
  lemma SettleIfFewEffect(s: Snapshot, rank: seq<Card> -> int)
    ensures var r := SettleIfFew(s, rank);
      SameSeats(r.players, s.players) &&
      CardsInPlay(r) == CardsInPlay(s) &&
      ChipsSum(r.players) == ChipsSum(s.players) + (if ActiveCount(s.players) < 2 then Payout(s, rank) else 0)
  {
    EvaluateWinnerKeepsSeats(s, rank);
    EvaluateWinnerPays(s, rank);
  }

  /** Advancing the round deals what the new round needs from the end of the deck onto the
      board, keeps the seats, the pot and the cards, and settles (adding one payout) exactly
      when the fourth round is reached. */
  lemma AdvanceRoundEffect(s: Snapshot, rank: seq<Card> -> int)
    requires NeededCards(s.currentBettingRound + 1) <= |s.deck|
    ensures var r, k := AdvanceRound(s, rank), NeededCards(s.currentBettingRound + 1);
      SameSeats(r.players, s.players) &&
      r.currentBettingRound == s.currentBettingRound + 1 &&
      r.communityCards == s.communityCards + Popped(s.deck, k) &&
      r.deck == s.deck[..|s.deck| - k] &&
      r.pot == s.pot && r.smallBlindIndex == s.smallBlindIndex && r.bigBlindIndex == s.bigBlindIndex &&
      CardsInPlay(r) == CardsInPlay(s) &&
      ChipsSum(r.players) == ChipsSum(s.players) + (if s.currentBettingRound + 1 >= 4 then Payout(s, rank) else 0)
  {
    var advanced := s.(currentBettingRound := s.currentBettingRound + 1);
    if NeededCards(s.currentBettingRound + 1) > 0 {
      AdvanceDeals(s, advanced, rank);
    } else {
      AdvanceSettles(s, advanced, rank);
    }
  }

  /** Rounds 1 to 3: the new round's cards go from the deck to the board. */
  lemma AdvanceDeals(s: Snapshot, advanced: Snapshot, rank: seq<Card> -> int)
    requires advanced == s.(currentBettingRound := s.currentBettingRound + 1)
    requires 0 < NeededCards(advanced.currentBettingRound) <= |s.deck|
    ensures var r, k := AdvanceRound(s, rank), NeededCards(advanced.currentBettingRound);
      r == DealCommunityCards(advanced, k) &&
      r.players == s.players &&
      r.communityCards == s.communityCards + Popped(s.deck, k) &&
      r.deck == s.deck[..|s.deck| - k] &&
      r.(communityCards := s.communityCards, deck := s.deck) == advanced &&
      CardsInPlay(r) == CardsInPlay(s)
  {
    var k := NeededCards(advanced.currentBettingRound);
    assert CardsInPlay(advanced) == CardsInPlay(s);
    DealCommunityCardsMoves(advanced, k);
    DealCommunityCardsKeepsCards(advanced, k);
  }

  /** The fourth round and later: a settlement, which keeps the seats and the cards. */
  lemma AdvanceSettles(s: Snapshot, advanced: Snapshot, rank: seq<Card> -> int)
    requires advanced == s.(currentBettingRound := s.currentBettingRound + 1)
    requires NeededCards(advanced.currentBettingRound) == 0
    ensures var r := AdvanceRound(s, rank);
      r == EvaluateWinner(advanced, rank) &&
      SameSeats(r.players, s.players) &&
      r.(players := s.players, winner := s.winner) == advanced &&
      CardsInPlay(r) == CardsInPlay(s) &&
      ChipsSum(r.players) == ChipsSum(s.players) + Payout(s, rank)
  {
    EvaluateWinnerKeepsSeats(advanced, rank);
    EvaluateWinnerPays(advanced, rank);
    PayoutSameSeats(advanced, s, rank);
    var r := EvaluateWinner(advanced, rank);
    HeldSameHands(r.players, s.players);
  }

  /** Clearing bets zeroes every bet and last action and touches nothing else. */
  lemma ClearBetsEffect(s: Snapshot)
    ensures var c := s.(players := ClearBets(s.players));
      (forall i :: 0 <= i < |s.players| ==>
        c.players[i].bet == 0 && c.players[i].lastAction == NoAction &&
        c.players[i].inGame == s.players[i].inGame && c.players[i].hand == s.players[i].hand) &&
      ChipsSum(c.players) == ChipsSum(s.players) &&
      CardsInPlay(c) == CardsInPlay(s)
  {
    var c := s.(players := ClearBets(s.players));
    ChipsSumSameChips(c.players, s.players);
    HeldSameHands(c.players, s.players);
  }

  /** After `endBettingRound`: every bet is 0 and every last action null; the round counter has
      gone up by one; the board has gained the cards the new round deals, in pop order, from
      the end of the deck; the turn is the small blind's; who is in game, the hands, the pot
      and the blind seats are as they were; and no card has been created or lost. */
  lemma EndBettingRoundResets(s: Snapshot, rank: seq<Card> -> int)
    requires NeededCards(s.currentBettingRound + 1) <= |s.deck|
    ensures var r, k := EndBettingRound(s, rank), NeededCards(s.currentBettingRound + 1);
      |r.players| == |s.players| &&
      (forall i :: 0 <= i < |r.players| ==>
        r.players[i].bet == 0 && r.players[i].lastAction == NoAction &&
        r.players[i].inGame == s.players[i].inGame && r.players[i].hand == s.players[i].hand) &&
      r.currentBettingRound == s.currentBettingRound + 1 &&
      r.communityCards == s.communityCards + Popped(s.deck, k) &&
      r.deck == s.deck[..|s.deck| - k] &&
      r.currentPlayerIndex == s.smallBlindIndex &&
      r.pot == s.pot && r.smallBlindIndex == s.smallBlindIndex && r.bigBlindIndex == s.bigBlindIndex &&
      CardsInPlay(r) == CardsInPlay(s)
  {
    var c := s.(players := ClearBets(s.players));
    ClearBetsEffect(s);
    var settled := SettleIfFew(c, rank);
    SettleIfFewEffect(c, rank);
    EndBettingRoundSeats(c, settled, rank);
    AdvanceRoundEffect(settled, rank);
  }

  /** From the cleared table on, the seats keep their flags and hands and have no bets. */
  lemma EndBettingRoundSeats(c: Snapshot, settled: Snapshot, rank: seq<Card> -> int)
    requires forall i :: 0 <= i < |c.players| ==> c.players[i].bet == 0 && c.players[i].lastAction == NoAction
    requires SameSeats(settled.players, c.players)
    requires NeededCards(settled.currentBettingRound + 1) <= |settled.deck|
    ensures var r := AdvanceRound(settled, rank);
      SameSeats(r.players, settled.players) ==>
      forall i :: 0 <= i < |r.players| ==>
        r.players[i].bet == 0 && r.players[i].lastAction == NoAction &&
        r.players[i].inGame == c.players[i].inGame && r.players[i].hand == c.players[i].hand
  {
  }

  /** Chips on the table grow by one payout per settlement: none while two or more players are
      in game before the fourth round, and two when a lone survivor reaches it. The pot itself
      is never emptied. */
  lemma EndBettingRoundChips(s: Snapshot, rank: seq<Card> -> int)
    requires NeededCards(s.currentBettingRound + 1) <= |s.deck|
    ensures ChipsSum(EndBettingRound(s, rank).players) == ChipsSum(s.players) + Settlements(s) * Payout(s, rank)
  {
    var c := s.(players := ClearBets(s.players));
    ClearBetsEffect(s);
    PayoutSameSeats(c, s, rank);
    var settled := SettleIfFew(c, rank);
    SettleIfFewEffect(c, rank);
    PayoutSameSeats(settled, s, rank);
    AdvanceRoundEffect(settled, rank);
    var p := Payout(s, rank);
    var total := ChipsSum(EndBettingRound(s, rank).players);
    assert total == ChipsSum(s.players) + (if ActiveCount(s.players) < 2 then p else 0)
      + (if s.currentBettingRound + 1 >= 4 then p else 0);
    SettlementsTimes(s, p);
  }

  lemma SettlementsTimes(s: Snapshot, p: int)
    ensures Settlements(s) * p == (if ActiveCount(s.players) < 2 then p else 0) + (if s.currentBettingRound + 1 >= 4 then p else 0)
  {
  }

  /** The double payout: a lone survivor who reaches the fourth round collects the pot twice,
      and the pot still holds it. */
  lemma EndBettingRoundPaysSurvivorTwice(s: Snapshot, rank: seq<Card> -> int, w: nat)
    requires s.currentBettingRound >= 3
    requires ActiveCount(s.players) == 1 && w < |s.players| && s.players[w].inGame
    ensures var r := EndBettingRound(s, rank);
      r.players[w].chips == s.players[w].chips + 2 * s.pot && r.pot == s.pot && r.winner == Won(w)
  {
    var c := s.(players := ClearBets(s.players));
    ActiveSeatsSameInGame(c.players, s.players);
    assert c.players[w].inGame;
    SoleSurvivorTakesPot(c, rank, w);
    var settled := EvaluateWinner(c, rank);
    EvaluateWinnerKeepsSeats(c, rank);
    var advanced := settled.(currentBettingRound := settled.currentBettingRound + 1);
    ActiveSeatsSameInGame(advanced.players, s.players);
    SoleSurvivorTakesPot(advanced, rank, w);
  }

  /** `handleActions`: the move, then the round check, then either the end of the round or
      the turn advance. A throw while applying the move skips the rest. */
  function HandleActions(s: Snapshot, move: Move, callBet: int, rank: seq<Card> -> int): Step
    requires NeededCards(s.currentBettingRound + 1) <= |s.deck|
  {
    var a := ApplyAction(s, move, callBet);
    ApplyActionEffect(s, move, callBet);
    if a.outcome == TypeError then a
    else if RoundCompleted(a.state.players) then Step(EndBettingRound(a.state, rank), Completed)
    else
      NotCompletedHasActive(a.state.players);
      NextPlayer(a.state, rank)
  }

  /** A whole turn neither creates nor loses a card. */
  lemma HandleActionsKeepsCards(s: Snapshot, move: Move, callBet: int, rank: seq<Card> -> int)
    requires NeededCards(s.currentBettingRound + 1) <= |s.deck|
    ensures CardsInPlay(HandleActions(s, move, callBet, rank).state) == CardsInPlay(s)
  {
    var a := ApplyAction(s, move, callBet);
    ApplyActionEffect(s, move, callBet);
    ApplyActionKeepsCards(s, move, callBet);
    if a.outcome == Completed {
      if RoundCompleted(a.state.players) {
        EndBettingRoundResets(a.state, rank);
      } else {
        NotCompletedHasActive(a.state.players);
        EvaluateWinnerKeepsSeats(a.state, rank);
      }
    }
  }

  /** A move by the current seat that leaves the round open with two or more players in game
      conserves the chips on the table and hands the turn to the next seat in game after the
      mover, which is another seat. */
  lemma HandleActionsPassesTurn(s: Snapshot, move: Move, callBet: int, rank: seq<Card> -> int)
    requires NeededCards(s.currentBettingRound + 1) <= |s.deck|
    requires 0 <= s.currentPlayerIndex < |s.players|
    requires var a := ApplyAction(s, move, callBet).state;
      !RoundCompleted(a.players) && ActiveCount(a.players) >= 2
    ensures var r, a := HandleActions(s, move, callBet, rank), ApplyAction(s, move, callBet).state;
      var n, from, j := |s.players|, s.currentPlayerIndex, r.state.currentPlayerIndex;
      r.outcome == Completed &&
      Bank(r.state) == Bank(s) &&
      0 <= j < n && j != from && a.players[j].inGame &&
      (forall e :: 1 <= e < Gap(from, j, n) ==> !a.players[Cyc(from, e, n)].inGame)
  {
    var a := ApplyAction(s, move, callBet);
    ApplyActionEffect(s, move, callBet);
    NotCompletedHasActive(a.state.players);
    NextPlayerTurn(a.state, rank);
  }
}
