/** Pot settlement (`evaluateWinner`), with hand ranking delegated to an oracle: `rank`
    stands for the external hand solver and maps a player's cards (hole cards followed by
    the board) to a value; higher is better and equal values tie. */
module Settlement {
  import opened Cards
  import opened Table

  /** The oracle's ranking of a player's cards. */
  function HandValue(p: Player, board: seq<Card>, rank: seq<Card> -> int): int
  {
    rank(p.hand + board)
  }

  /** `player.handInfo = Hand.solve(...)` for every active player. */
  function WithHandInfo(ps: seq<Player>, board: seq<Card>, rank: seq<Card> -> int): (r: seq<Player>)
    ensures |r| == |ps|
    ensures forall i :: 0 <= i < |ps| ==> r[i].(handInfo := ps[i].handInfo) == ps[i]
    ensures forall i :: 0 <= i < |ps| && ps[i].inGame ==> r[i].handInfo == Some(rank(ps[i].hand + board))
    ensures forall i :: 0 <= i < |ps| && !ps[i].inGame ==> r[i] == ps[i]
  {
    seq(|ps|, i requires 0 <= i < |ps| =>
      if ps[i].inGame then ps[i].(handInfo := Some(HandValue(ps[i], board, rank))) else ps[i])
  }

  /** The largest value of a non-empty sequence. */
  function MaxOf(vals: seq<int>): (m: int)
    requires |vals| > 0
    ensures m in vals
    ensures forall k :: 0 <= k < |vals| ==> vals[k] <= m
  {
    if |vals| == 1 then vals[0]
    else
      var rest := MaxOf(vals[1..]);
      if vals[0] >= rest then vals[0] else rest
  }

  /** The seats whose value equals best, in the order given. */
  function TopSeats(seats: seq<nat>, vals: seq<int>, best: int): (r: seq<nat>)
    requires |seats| == |vals|
    ensures |r| <= |seats|
    ensures forall x :: x in r <==> exists k :: 0 <= k < |seats| && seats[k] == x && vals[k] == best
  {
    if seats == [] then []
    else
      var rest := TopSeats(seats[1..], vals[1..], best);
      assert forall x :: x in rest <==> exists k :: 1 <= k < |seats| && seats[k] == x && vals[k] == best by {
        forall x | x in rest ensures exists k :: 1 <= k < |seats| && seats[k] == x && vals[k] == best {
          var k :| 0 <= k < |seats| - 1 && seats[1..][k] == x && vals[1..][k] == best;
          assert seats[k + 1] == x && vals[k + 1] == best;
        }
        forall x | exists k :: 1 <= k < |seats| && seats[k] == x && vals[k] == best ensures x in rest {
          var k :| 1 <= k < |seats| && seats[k] == x && vals[k] == best;
          assert seats[1..][k - 1] == x && vals[1..][k - 1] == best;
        }
      }
      (if vals[0] == best then [seats[0]] else []) + rest
  }

  /** Filtering keeps the seats in increasing order. */
  lemma {:induction false} TopSeatsSorted(seats: seq<nat>, vals: seq<int>, best: int)
    requires |seats| == |vals|
    requires Increasing(seats)
    ensures Increasing(TopSeats(seats, vals, best))
  {
    if seats != [] {
      var rest := TopSeats(seats[1..], vals[1..], best);
      TopSeatsSorted(seats[1..], vals[1..], best);
      forall x | x in rest ensures seats[0] < x {
        var k :| 0 <= k < |seats| - 1 && seats[1..][k] == x && vals[1..][k] == best;
        assert seats[k + 1] == x;
      }
      var r := TopSeats(seats, vals, best);
      if vals[0] == best {
        assert r == [seats[0]] + rest;
        forall k, l | 0 <= k < l < |r| ensures r[k] < r[l] {
          assert r[l] == rest[l - 1] && rest[l - 1] in rest;
          if k > 0 {
            assert r[k] == rest[k - 1];
          }
        }
      }
    }
  }

  /** The values the oracle gives the active seats, in seat order. */
  function ActiveValues(ps: seq<Player>, board: seq<Card>, rank: seq<Card> -> int): (vals: seq<int>)
    ensures |vals| == ActiveCount(ps)
    ensures forall k :: 0 <= k < |vals| ==> vals[k] == HandValue(ps[ActiveSeats(ps)[k]], board, rank)
  {
    var act := ActiveSeats(ps);
    seq(|act|, k requires 0 <= k < |act| => HandValue(ps[act[k]], board, rank))
  }

  /** `Hand.winners`: the active seats whose hands rank highest, ties included. */
  function Winners(ps: seq<Player>, board: seq<Card>, rank: seq<Card> -> int): seq<nat>
  {
    var vals := ActiveValues(ps, board, rank);
    if |vals| == 0 then [] else TopSeats(ActiveSeats(ps), vals, MaxOf(vals))
  }

  /** Seat j is in game and no seat in game ranks above it. */
  ghost predicate IsBestActive(ps: seq<Player>, board: seq<Card>, rank: seq<Card> -> int, j: nat)
  {
    j < |ps| && ps[j].inGame &&
    forall i :: 0 <= i < |ps| && ps[i].inGame ==> HandValue(ps[i], board, rank) <= HandValue(ps[j], board, rank)
  }

  /** A seat is a winner exactly when it is in game and no seat in game outranks it. */
  lemma WinnerIffBestActive(ps: seq<Player>, board: seq<Card>, rank: seq<Card> -> int, j: nat)
    ensures j in Winners(ps, board, rank) <==> IsBestActive(ps, board, rank, j)
  {
    if j in Winners(ps, board, rank) {
      WinnerIsBestActive(ps, board, rank, j);
    }
    if IsBestActive(ps, board, rank, j) {
      BestActiveIsWinner(ps, board, rank, j);
    }
  }

  lemma WinnerIsBestActive(ps: seq<Player>, board: seq<Card>, rank: seq<Card> -> int, j: nat)
    requires j in Winners(ps, board, rank)
    ensures IsBestActive(ps, board, rank, j)
  {
    var act := ActiveSeats(ps);
    var vals := ActiveValues(ps, board, rank);
    var best := MaxOf(vals);
    var k :| 0 <= k < |act| && act[k] == j && vals[k] == best;
    forall i | 0 <= i < |ps| && ps[i].inGame
      ensures HandValue(ps[i], board, rank) <= HandValue(ps[j], board, rank)
    {
      assert i in act;
      var m :| 0 <= m < |act| && act[m] == i;
      assert vals[m] <= best;
    }
  }

  lemma BestActiveIsWinner(ps: seq<Player>, board: seq<Card>, rank: seq<Card> -> int, j: nat)
    requires IsBestActive(ps, board, rank, j)
    ensures j in Winners(ps, board, rank)
  {
    var act := ActiveSeats(ps);
    var vals := ActiveValues(ps, board, rank);
    assert j in act;
    var k :| 0 <= k < |act| && act[k] == j;
    var best := MaxOf(vals);
    var m :| 0 <= m < |vals| && vals[m] == best;
    assert ps[act[m]].inGame;
    assert vals[k] == best;
  }

  lemma WinnersAreBestActive(ps: seq<Player>, board: seq<Card>, rank: seq<Card> -> int)
    ensures forall j: nat :: j in Winners(ps, board, rank) <==> IsBestActive(ps, board, rank, j)
  {
    forall j: nat ensures j in Winners(ps, board, rank) <==> IsBestActive(ps, board, rank, j) {
      WinnerIffBestActive(ps, board, rank, j);
    }
  }

  /** The winners are distinct seats in increasing order, and there is one exactly when a seat
      is in game. */
  lemma WinnersShape(ps: seq<Player>, board: seq<Card>, rank: seq<Card> -> int)
    ensures var ws := Winners(ps, board, rank);
      Increasing(ws) &&
      (forall k :: 0 <= k < |ws| ==> ws[k] < |ps| && ps[ws[k]].inGame) &&
      (|ws| > 0 <==> HasActive(ps))
  {
    var act := ActiveSeats(ps);
    var vals := ActiveValues(ps, board, rank);
    var ws := Winners(ps, board, rank);
    WinnersAreBestActive(ps, board, rank);
    ActiveCountPositive(ps);
    forall k | 0 <= k < |ws| ensures ws[k] < |ps| && ps[ws[k]].inGame {
      assert ws[k] in ws;
    }
    if |vals| > 0 {
      TopSeatsSorted(act, vals, MaxOf(vals));
      var m :| 0 <= m < |vals| && vals[m] == MaxOf(vals);
      assert act[m] in ws;
    }
  }

  /** Two tables whose seats agree on who is in game and on the hands have the same winners. */
  lemma WinnersSameHands(ps: seq<Player>, qs: seq<Player>, board: seq<Card>, rank: seq<Card> -> int)
    requires |ps| == |qs|
    requires forall i :: 0 <= i < |ps| ==> ps[i].inGame == qs[i].inGame && ps[i].hand == qs[i].hand
    ensures Winners(ps, board, rank) == Winners(qs, board, rank)
  {
    ActiveSeatsSameInGame(ps, qs);
    assert ActiveValues(ps, board, rank) == ActiveValues(qs, board, rank);
  }

  /** `winner.chips += potPerWinner` for each winner in turn. */
  function PayEach(ps: seq<Player>, ws: seq<nat>, share: int): (r: seq<Player>)
    requires forall k :: 0 <= k < |ws| ==> ws[k] < |ps|
    ensures |r| == |ps|
  {
    if ws == [] then ps
    else
      var r := PayEach(ps, ws[..|ws| - 1], share);
      var w := ws[|ws| - 1];
      r[w := r[w].(chips := r[w].chips + share)]
  }

  /** Paying distinct winners raises each winner's chips by the share and changes nothing else. */
  lemma {:induction false} PayEachAt(ps: seq<Player>, ws: seq<nat>, share: int)
    requires forall k :: 0 <= k < |ws| ==> ws[k] < |ps|
    requires forall k, l :: 0 <= k < l < |ws| ==> ws[k] != ws[l]
    ensures forall i :: 0 <= i < |ps| ==>
      PayEach(ps, ws, share)[i] == ps[i].(chips := ps[i].chips + if i in ws then share else 0)
  {
    if ws != [] {
      var init := ws[..|ws| - 1];
      PayEachAt(ps, init, share);
      forall i | 0 <= i < |ps|
        ensures PayEach(ps, ws, share)[i] == ps[i].(chips := ps[i].chips + if i in ws then share else 0)
      {
        assert i in ws <==> i in init || i == ws[|ws| - 1];
        if i == ws[|ws| - 1] {
          assert i !in init;
        }
      }
    }
  }

  /** Paying k winners a share each adds k shares to the chips on the table. */
  lemma {:induction false} PayEachSum(ps: seq<Player>, ws: seq<nat>, share: int)
    requires forall k :: 0 <= k < |ws| ==> ws[k] < |ps|
    ensures ChipsSum(PayEach(ps, ws, share)) == ChipsSum(ps) + |ws| * share
  {
    if ws != [] {
      var init := ws[..|ws| - 1];
      var r := PayEach(ps, init, share);
      var w := ws[|ws| - 1];
      PayEachSum(ps, init, share);
      ChipsSumUpdate(r, w, r[w].(chips := r[w].chips + share));
      assert |ws| * share == |init| * share + share;
    }
  }

  /** The single-winner branch: `winner.chips += this.pot; this.winner = winner`. */
  function Award(s: Snapshot, w: nat): Snapshot
    requires w < |s.players|
  {
    s.(players := s.players[w := s.players[w].(chips := s.players[w].chips + s.pot)], winner := Won(w))
  }

  /** `evaluateWinner`. Note that it never clears the pot, and that a split pot sets no winner. */
  function EvaluateWinner(s: Snapshot, rank: seq<Card> -> int): (r: Snapshot)
    ensures r.(players := s.players, winner := s.winner) == s
    ensures |r.players| == |s.players|
  {
    var act := ActiveSeats(s.players);
    if |act| == 1 then Award(s, act[0])
    else
      var ranked := WithHandInfo(s.players, s.communityCards, rank);
      var ws := Winners(s.players, s.communityCards, rank);
      WinnersShape(s.players, s.communityCards, rank);
      if |ws| == 1 then Award(s.(players := ranked), ws[0])
      else s.(players := PayEach(ranked, ws, if |ws| == 0 then 0 else s.pot / |ws|))
  }

  /** The showdown branch of `evaluateWinner`, spelled out for callers that follow it step by step. */
  lemma ShowdownSteps(s: Snapshot, rank: seq<Card> -> int, ranked: seq<Player>, ws: seq<nat>)
    requires ActiveCount(s.players) != 1
    requires ranked == WithHandInfo(s.players, s.communityCards, rank)
    requires ws == Winners(ranked, s.communityCards, rank)
    ensures ws == Winners(s.players, s.communityCards, rank)
    ensures |ranked| == |s.players| && forall i :: 0 <= i < |ranked| ==> ranked[i].chips == s.players[i].chips
    ensures forall k :: 0 <= k < |ws| ==> ws[k] < |ranked|
    ensures |ws| == 1 ==> EvaluateWinner(s, rank) == Award(s.(players := ranked), ws[0])
    ensures |ws| != 1 ==> EvaluateWinner(s, rank) == s.(players := PayEach(ranked, ws, if |ws| == 0 then 0 else s.pot / |ws|))
  {
    WinnersSameHands(s.players, ranked, s.communityCards, rank);
    WinnersShape(s.players, s.communityCards, rank);
  }

  /** What each winner receives: the whole pot for one winner, the floor of pot / k for k tied winners. */
  function Share(s: Snapshot, rank: seq<Card> -> int): int
  {
    var k := |Winners(s.players, s.communityCards, rank)|;
    if k == 0 then 0 else s.pot / k
  }

  /** The players as settlement leaves them apart from chips: with a sole survivor unchanged,
      otherwise with `handInfo` stored for every active seat. */
  function Ranked(s: Snapshot, rank: seq<Card> -> int): seq<Player>
  {
    if ActiveCount(s.players) == 1 then s.players else WithHandInfo(s.players, s.communityCards, rank)
  }

  /** With a single seat in game, the winners are that seat alone. */
  lemma SoleSurvivorWins(ps: seq<Player>, board: seq<Card>, rank: seq<Card> -> int)
    requires ActiveCount(ps) == 1
    ensures Winners(ps, board, rank) == ActiveSeats(ps)
  {
    var ws := Winners(ps, board, rank);
    var w := ActiveSeats(ps)[0];
    WinnersShape(ps, board, rank);
    ActiveCountPositive(ps);
    assert |ws| == 1;
    SoleActive(ps, ws[0]);
    assert ws == [w];
  }

  /** The seats paid are exactly the oracle's winners, each gains Share, and no other seat's
      chips change. */
  lemma EvaluateWinnerPlayers(s: Snapshot, rank: seq<Card> -> int)
    ensures var r, ws := EvaluateWinner(s, rank), Winners(s.players, s.communityCards, rank);
      |r.players| == |s.players| &&
      forall i :: 0 <= i < |s.players| ==>
        r.players[i] == Ranked(s, rank)[i].(chips := s.players[i].chips + if i in ws then Share(s, rank) else 0)
  {
    var ps, board := s.players, s.communityCards;
    if ActiveCount(ps) == 1 {
      SoleSurvivorWins(ps, board, rank);
    } else {
      ShowdownPlayers(s, rank);
    }
  }

  lemma ShowdownPlayers(s: Snapshot, rank: seq<Card> -> int)
    requires ActiveCount(s.players) != 1
    ensures var r, ws := EvaluateWinner(s, rank), Winners(s.players, s.communityCards, rank);
      forall i :: 0 <= i < |s.players| ==>
        r.players[i] == Ranked(s, rank)[i].(chips := s.players[i].chips + if i in ws then Share(s, rank) else 0)
  {
    if |Winners(s.players, s.communityCards, rank)| == 1 {
      SingleWinnerPlayers(s, rank);
    } else {
      SplitPlayers(s, rank);
    }
  }

  lemma SingleWinnerPlayers(s: Snapshot, rank: seq<Card> -> int)
    requires ActiveCount(s.players) != 1
    requires |Winners(s.players, s.communityCards, rank)| == 1
    ensures var r, ws := EvaluateWinner(s, rank), Winners(s.players, s.communityCards, rank);
      forall i :: 0 <= i < |s.players| ==>
        r.players[i] == Ranked(s, rank)[i].(chips := s.players[i].chips + if i in ws then Share(s, rank) else 0)
  {
    var ranked := WithHandInfo(s.players, s.communityCards, rank);
    var ws := Winners(ranked, s.communityCards, rank);
    ShowdownSteps(s, rank, ranked, ws);
    assert Ranked(s, rank) == ranked;
    assert ws == [ws[0]];
    AwardAt(s.players, ranked, ws, ws[0], s.pot);
  }

  lemma SplitPlayers(s: Snapshot, rank: seq<Card> -> int)
    requires ActiveCount(s.players) != 1
    requires |Winners(s.players, s.communityCards, rank)| != 1
    ensures var r, ws := EvaluateWinner(s, rank), Winners(s.players, s.communityCards, rank);
      forall i :: 0 <= i < |s.players| ==>
        r.players[i] == Ranked(s, rank)[i].(chips := s.players[i].chips + if i in ws then Share(s, rank) else 0)
  {
    var ranked := WithHandInfo(s.players, s.communityCards, rank);
    var ws := Winners(ranked, s.communityCards, rank);
    ShowdownSteps(s, rank, ranked, ws);
    WinnersShape(s.players, s.communityCards, rank);
    assert Ranked(s, rank) == ranked;
    PaySeats(s.players, ranked, ws, Share(s, rank));
  }

  /** Paying distinct seats a share each, seat by seat, on a table with the chips of ps. */
  lemma PaySeats(ps: seq<Player>, ranked: seq<Player>, ws: seq<nat>, share: int)
    requires |ranked| == |ps| && forall i :: 0 <= i < |ps| ==> ranked[i].chips == ps[i].chips
    requires Increasing(ws) && forall k :: 0 <= k < |ws| ==> ws[k] < |ranked|
    ensures forall i :: 0 <= i < |ps| ==>
      PayEach(ranked, ws, share)[i] == ranked[i].(chips := ps[i].chips + if i in ws then share else 0)
  {
    PayEachAt(ranked, ws, share);
  }

  /** Adding an amount to the chips of the one seat of ws, seat by seat. */
  lemma AwardAt(ps: seq<Player>, ranked: seq<Player>, ws: seq<nat>, w: nat, amount: int)
    requires |ranked| == |ps| && w < |ps| && ws == [w]
    requires forall i :: 0 <= i < |ps| ==> ranked[i].chips == ps[i].chips
    ensures forall i :: 0 <= i < |ps| ==>
      ranked[w := ranked[w].(chips := ranked[w].chips + amount)][i] ==
        ranked[i].(chips := ps[i].chips + if i in ws then amount else 0)
  {
  }

  /** Settlement changes only chips, the stored hand rankings and `winner`: who is in game,
      hands, bets, last actions, the deck, the board and the pot are as they were. */
  lemma EvaluateWinnerKeepsSeats(s: Snapshot, rank: seq<Card> -> int)
    ensures forall i :: 0 <= i < |s.players| ==>
      var p, q := s.players[i], EvaluateWinner(s, rank).players[i];
      q.inGame == p.inGame && q.hand == p.hand && q.bet == p.bet && q.lastAction == p.lastAction &&
      q.id == p.id && q.name == p.name && q.lastBet == p.lastBet
    ensures CardsInPlay(EvaluateWinner(s, rank)) == CardsInPlay(s)
  {
    EvaluateWinnerPlayers(s, rank);
    HeldSameHands(EvaluateWinner(s, rank).players, s.players);
  }

  /** Chips on the table grow by one Share per winner, and a single winner is recorded in
      `winner` while a split leaves it as it was. */
  lemma EvaluateWinnerPays(s: Snapshot, rank: seq<Card> -> int)
    ensures var r, ws := EvaluateWinner(s, rank), Winners(s.players, s.communityCards, rank);
      ChipsSum(r.players) == ChipsSum(s.players) + |ws| * Share(s, rank) &&
      r.winner == (if |ws| == 1 then Won(ws[0]) else s.winner)
  {
    var ps, board := s.players, s.communityCards;
    var ws := Winners(ps, board, rank);
    if ActiveCount(ps) == 1 {
      SoleSurvivorWins(ps, board, rank);
      var w := ws[0];
      ChipsSumUpdate(ps, w, ps[w].(chips := ps[w].chips + s.pot));
    } else {
      ShowdownPays(s, rank);
    }
  }

  lemma ShowdownPays(s: Snapshot, rank: seq<Card> -> int)
    requires ActiveCount(s.players) != 1
    ensures var r, ws := EvaluateWinner(s, rank), Winners(s.players, s.communityCards, rank);
      ChipsSum(r.players) == ChipsSum(s.players) + |ws| * Share(s, rank) &&
      r.winner == (if |ws| == 1 then Won(ws[0]) else s.winner)
  {
    var ws := Winners(s.players, s.communityCards, rank);
    var share := Share(s, rank);
    if |ws| == 1 {
      SingleWinnerSum(s, rank);
      assert |ws| * share == share;
    } else {
      SplitSum(s, rank);
    }
  }

  lemma SingleWinnerSum(s: Snapshot, rank: seq<Card> -> int)
    requires ActiveCount(s.players) != 1
    requires |Winners(s.players, s.communityCards, rank)| == 1
    ensures var r, ws := EvaluateWinner(s, rank), Winners(s.players, s.communityCards, rank);
      ChipsSum(r.players) == ChipsSum(s.players) + Share(s, rank) && r.winner == Won(ws[0])
  {
    var ranked := WithHandInfo(s.players, s.communityCards, rank);
    var ws := Winners(ranked, s.communityCards, rank);
    ShowdownSteps(s, rank, ranked, ws);
    AwardSum(s.(players := ranked), ws[0]);
    ChipsSumSameChips(ranked, s.players);
  }

  /** Awarding the pot to one seat adds the pot to the chips and names that seat the winner. */
  lemma AwardSum(t: Snapshot, w: nat)
    requires w < |t.players|
    ensures ChipsSum(Award(t, w).players) == ChipsSum(t.players) + t.pot && Award(t, w).winner == Won(w)
  {
    ChipsSumUpdate(t.players, w, t.players[w].(chips := t.players[w].chips + t.pot));
  }

  lemma SplitSum(s: Snapshot, rank: seq<Card> -> int)
    requires ActiveCount(s.players) != 1
    requires |Winners(s.players, s.communityCards, rank)| != 1
    ensures var r, ws := EvaluateWinner(s, rank), Winners(s.players, s.communityCards, rank);
      ChipsSum(r.players) == ChipsSum(s.players) + |ws| * Share(s, rank) && r.winner == s.winner
  {
    var ranked := WithHandInfo(s.players, s.communityCards, rank);
    var ws := Winners(ranked, s.communityCards, rank);
    ShowdownSteps(s, rank, ranked, ws);
    ChipsSumSameChips(ranked, s.players);
    PayEachSum(ranked, ws, Share(s, rank));
  }

  /** With a player in game, settlement hands out at most the pot and falls short of it by less
      than the number of winners: nothing for one winner, the remainder pot % k for k tied ones. */
  lemma EvaluateWinnerBounds(s: Snapshot, rank: seq<Card> -> int)
    requires HasActive(s.players)
    ensures var k := |Winners(s.players, s.communityCards, rank)|;
      k >= 1 && 0 <= s.pot - k * Share(s, rank) < k
  {
    var k := |Winners(s.players, s.communityCards, rank)|;
    WinnersShape(s.players, s.communityCards, rank);
    FloorShareBounds(s.pot, k);
  }

  lemma FloorShareBounds(pot: int, k: int)
    requires k >= 1
    ensures 0 <= pot - k * (pot / k) < k
  {
    assert pot == k * (pot / k) + pot % k;
  }

  /** A sole survivor takes the whole pot without the oracle being asked: only that seat's chips
      and `winner` change. */
  lemma SoleSurvivorTakesPot(s: Snapshot, rank: seq<Card> -> int, w: nat)
    requires ActiveCount(s.players) == 1
    requires w < |s.players| && s.players[w].inGame
    ensures EvaluateWinner(s, rank) ==
      s.(players := s.players[w := s.players[w].(chips := s.players[w].chips + s.pot)], winner := Won(w))
  {
    SoleActive(s.players, w);
  }
}
