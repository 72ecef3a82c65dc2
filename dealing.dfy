/** Dealing: building and shuffling the deck into a game, hole cards dealt round-robin by
    popping from the end of the deck, and community cards popped onto the board. */
module Dealing {
  import opened Cards
  import opened Table

  /** `initializeDeck`: push the 52 standard cards after whatever the deck holds, then shuffle. */
  function InitializeDeck(s: Snapshot, rand: nat -> nat): Snapshot
  {
    s.(deck := Shuffled(s.deck + StandardDeck(), rand))
  }

  /** Initializing the deck adds the 52 standard cards and changes nothing else. */
  lemma InitializeDeckAddsStandardDeck(s: Snapshot, rand: nat -> nat)
    ensures |InitializeDeck(s, rand).deck| == |s.deck| + 52
    ensures multiset(InitializeDeck(s, rand).deck) == multiset(s.deck) + multiset(StandardDeck())
    ensures CardsInPlay(InitializeDeck(s, rand)) == CardsInPlay(s) + multiset(StandardDeck())
    ensures InitializeDeck(s, rand).(deck := s.deck) == s
  {
    ShuffledPermutes(s.deck + StandardDeck(), rand);
  }

  /** One `player.hand.push(this.deck.pop())`. */
  function DealOne(s: Snapshot, p: nat): (r: Snapshot)
    requires p < |s.players| && |s.deck| >= 1
    ensures |r.players| == |s.players| && |r.deck| == |s.deck| - 1
  {
    var top := s.deck[|s.deck| - 1];
    s.(players := s.players[p := s.players[p].(hand := s.players[p].hand + [top])],
       deck := s.deck[..|s.deck| - 1])
  }

  /** One card each to the first k seats, in seat order. */
  function DealPass(s: Snapshot, k: nat): (r: Snapshot)
    requires k <= |s.players| && k <= |s.deck|
    ensures |r.players| == |s.players| && |r.deck| == |s.deck| - k
  {
    if k == 0 then s else DealOne(DealPass(s, k - 1), k - 1)
  }

  /** `dealInitialCards`: two passes of one card to every seat. */
  function DealInitialCards(s: Snapshot): (r: Snapshot)
    requires 2 * |s.players| <= |s.deck|
    ensures |r.players| == |s.players| && |r.deck| == |s.deck| - 2 * |s.players|
  {
    DealPass(DealPass(s, |s.players|), |s.players|)
  }

  /** After one pass over the first k seats, seat p < k has gained the card p places from the
      end of the deck, the other seats nothing, and only hands and the deck have changed. */
  lemma {:induction false} DealPassHands(s: Snapshot, k: nat)
    requires k <= |s.players| && k <= |s.deck|
    ensures DealPass(s, k).deck == s.deck[..|s.deck| - k]
    ensures forall p :: 0 <= p < |s.players| ==>
      DealPass(s, k).players[p] ==
        if p < k then s.players[p].(hand := s.players[p].hand + [s.deck[|s.deck| - 1 - p]])
        else s.players[p]
    ensures DealPass(s, k).(players := s.players, deck := s.deck) == s
  {
    if k > 0 {
      DealPassHands(s, k - 1);
    }
  }

  /** Every seat p gains exactly two cards: first the one p places from the end of the deck,
      then the one n + p places from the end, and the deck shrinks by 2n. Nothing else changes. */
  lemma DealInitialCardsHands(s: Snapshot)
    requires 2 * |s.players| <= |s.deck|
    ensures var n, d := |s.players|, s.deck;
      DealInitialCards(s).deck == d[..|d| - 2 * n] &&
      forall p :: 0 <= p < n ==>
        DealInitialCards(s).players[p] ==
          s.players[p].(hand := s.players[p].hand + [d[|d| - 1 - p], d[|d| - 1 - n - p]])
    ensures DealInitialCards(s).(players := s.players, deck := s.deck) == s
  {
    var n, d := |s.players|, s.deck;
    var first := DealPass(s, n);
    DealPassHands(s, n);
    DealPassHands(first, n);
    assert first.deck[..|first.deck| - n] == d[..|d| - 2 * n];
    forall p | 0 <= p < n
      ensures DealInitialCards(s).players[p] ==
        s.players[p].(hand := s.players[p].hand + [d[|d| - 1 - p], d[|d| - 1 - n - p]])
    {
      assert first.deck[|first.deck| - 1 - p] == d[|d| - 1 - n - p];
      assert s.players[p].hand + [d[|d| - 1 - p]] + [d[|d| - 1 - n - p]]
          == s.players[p].hand + [d[|d| - 1 - p], d[|d| - 1 - n - p]];
    }
  }

  /** Dealing a hole card moves it from the deck to a hand. */
  lemma DealOneKeepsCards(s: Snapshot, p: nat)
    requires p < |s.players| && |s.deck| >= 1
    ensures CardsInPlay(DealOne(s, p)) == CardsInPlay(s)
  {
    var d := s.deck;
    var top := d[|d| - 1];
    var h := s.players[p].hand;
    var q := s.players[p].(hand := h + [top]);
    var r := DealOne(s, p);
    assert r.players == s.players[p := q] && r.deck == d[..|d| - 1];
    HeldUpdate(s.players, p, q);
    assert multiset(q.hand) == multiset(h) + multiset{top};
    var held := Held(r.players);
    assert held + multiset(h) == Held(s.players) + multiset{top} + multiset(h);
    MultisetCancel(held, Held(s.players) + multiset{top}, multiset(h));
    assert d == d[..|d| - 1] + [top];
    assert multiset(d) == multiset(r.deck) + multiset{top};
    calc {
      CardsInPlay(r);
      multiset(r.deck) + multiset(s.communityCards) + held;
      multiset(r.deck) + multiset(s.communityCards) + (Held(s.players) + multiset{top});
      (multiset(r.deck) + multiset{top}) + multiset(s.communityCards) + Held(s.players);
      CardsInPlay(s);
    }
  }

  lemma {:induction false} DealPassKeepsCards(s: Snapshot, k: nat)
    requires k <= |s.players| && k <= |s.deck|
    ensures CardsInPlay(DealPass(s, k)) == CardsInPlay(s)
  {
    if k > 0 {
      DealPassKeepsCards(s, k - 1);
      DealOneKeepsCards(DealPass(s, k - 1), k - 1);
    }
  }

  /** Dealing the hole cards neither creates nor loses a card. */
  lemma DealInitialCardsKeepsCards(s: Snapshot)
    requires 2 * |s.players| <= |s.deck|
    ensures CardsInPlay(DealInitialCards(s)) == CardsInPlay(s)
  {
    DealPassKeepsCards(s, |s.players|);
    DealPassKeepsCards(DealPass(s, |s.players|), |s.players|);
  }

  /** One `this.communityCards.push(this.deck.pop())`. */
  function BurnToBoard(s: Snapshot): (r: Snapshot)
    requires |s.deck| >= 1
    ensures |r.deck| == |s.deck| - 1 && |r.players| == |s.players|
  {
    s.(communityCards := s.communityCards + [s.deck[|s.deck| - 1]], deck := s.deck[..|s.deck| - 1])
  }

  /** `dealCommunityCards(count)`: count successive pops onto the board. */
  function DealCommunityCards(s: Snapshot, count: nat): (r: Snapshot)
    requires count <= |s.deck|
    ensures |r.deck| == |s.deck| - count && |r.players| == |s.players|
  {
    if count == 0 then s else BurnToBoard(DealCommunityCards(s, count - 1))
  }

  /** The board gains the last count deck cards in pop order; only the board and the deck change. */
  lemma {:induction false} DealCommunityCardsMoves(s: Snapshot, count: nat)
    requires count <= |s.deck|
    ensures DealCommunityCards(s, count).communityCards == s.communityCards + Popped(s.deck, count)
    ensures DealCommunityCards(s, count).deck == s.deck[..|s.deck| - count]
    ensures DealCommunityCards(s, count).(communityCards := s.communityCards, deck := s.deck) == s
  {
    var d := s.deck;
    if count == 0 {
      assert d[..|d|] == d;
    } else {
      DealCommunityCardsMoves(s, count - 1);
      var before := DealCommunityCards(s, count - 1);
      assert before.deck[|before.deck| - 1] == d[|d| - count];
      assert before.deck[..|before.deck| - 1] == d[..|d| - count];
    }
  }

  /** Popping one card onto the board moves it from the deck to the board. */
  lemma BurnKeepsCards(s: Snapshot)
    requires |s.deck| >= 1
    ensures CardsInPlay(BurnToBoard(s)) == CardsInPlay(s)
  {
    var d, top := s.deck, s.deck[|s.deck| - 1];
    assert d == d[..|d| - 1] + [top];
    assert multiset(d) == multiset(d[..|d| - 1]) + multiset{top};
    assert multiset(s.communityCards + [top]) == multiset(s.communityCards) + multiset{top};
  }

  /** Dealing to the board neither creates nor loses a card. */
  lemma {:induction false} DealCommunityCardsKeepsCards(s: Snapshot, count: nat)
    requires count <= |s.deck|
    ensures CardsInPlay(DealCommunityCards(s, count)) == CardsInPlay(s)
  {
    if count > 0 {
      DealCommunityCardsKeepsCards(s, count - 1);
      BurnKeepsCards(DealCommunityCards(s, count - 1));
    }
  }
}
