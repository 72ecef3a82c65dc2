/** Cards, the standard 52-card deck, the swap shuffle and popping from the end of a deck. */
module Cards {

  datatype Suit = Hearts | Diamonds | Clubs | Spades

  datatype Rank = Two | Three | Four | Five | Six | Seven | Eight | Nine | Ten | Jack | Queen | King | Ace

  datatype Card = Card(suit: Suit, rank: Rank)

  /** The suits in the order the deck is built. */
  const SUITS: seq<Suit> := [Hearts, Diamonds, Clubs, Spades]

  /** The ranks in the order the deck is built, "2" up to "A". */
  const RANKS: seq<Rank> := [Two, Three, Four, Five, Six, Seven, Eight, Nine, Ten, Jack, Queen, King, Ace]

  function SuitIndex(s: Suit): (k: nat)
    ensures k < |SUITS| && SUITS[k] == s
  {
    match s
    case Hearts => 0
    case Diamonds => 1
    case Clubs => 2
    case Spades => 3
  }

  function RankIndex(r: Rank): (k: nat)
    ensures k < |RANKS| && RANKS[k] == r
  {
    match r
    case Two => 0
    case Three => 1
    case Four => 2
    case Five => 3
    case Six => 4
    case Seven => 5
    case Eight => 6
    case Nine => 7
    case Ten => 8
    case Jack => 9
    case Queen => 10
    case King => 11
    case Ace => 12
  }

  lemma SuitIndexOfPosition(k: nat)
    requires k < |SUITS|
    ensures SuitIndex(SUITS[k]) == k
  {
    if k == 0 {} else if k == 1 {} else if k == 2 {} else {}
  }

  lemma RankIndexOfPosition(k: nat)
    requires k < |RANKS|
    ensures RankIndex(RANKS[k]) == k
  {
    if k < 4 {
      if k == 0 {} else if k == 1 {} else if k == 2 {} else {}
    } else if k < 8 {
      if k == 4 {} else if k == 5 {} else if k == 6 {} else {}
    } else if k < 12 {
      if k == 8 {} else if k == 9 {} else if k == 10 {} else {}
    } else {}
  }

  /** The cards of one suit, one per rank, in rank order. */
  function SuitRun(s: Suit): seq<Card>
  {
    seq(|RANKS|, k requires 0 <= k < |RANKS| => Card(s, RANKS[k]))
  }

  /** The unshuffled deck: for each suit in turn, one card of every rank. */
  function StandardDeck(): (d: seq<Card>)
    ensures |d| == 52
  {
    SuitRun(Hearts) + SuitRun(Diamonds) + SuitRun(Clubs) + SuitRun(Spades)
  }

  /** Position k of the unshuffled deck holds suit k / 13 and rank k % 13. */
  lemma StandardDeckAt(k: nat)
    requires k < 52
    ensures StandardDeck()[k] == Card(SUITS[k / 13], RANKS[k % 13])
  {
    var d := StandardDeck();
    if k < 13 {
      assert d[k] == SuitRun(Hearts)[k];
    } else if k < 26 {
      assert d[k] == SuitRun(Diamonds)[k - 13];
    } else if k < 39 {
      assert d[k] == SuitRun(Clubs)[k - 26];
    } else {
      assert d[k] == SuitRun(Spades)[k - 39];
    }
  }

  /** The nested suit-then-rank loop pushes card 13 * si + ri as suit si, rank ri. */
  lemma StandardDeckPair(si: nat, ri: nat)
    requires si < |SUITS| && ri < |RANKS|
    ensures 13 * si + ri < 52 && StandardDeck()[13 * si + ri] == Card(SUITS[si], RANKS[ri])
  {
    var k := 13 * si + ri;
    assert k / 13 == si && k % 13 == ri;
    StandardDeckAt(k);
  }

  /** The unshuffled deck holds every (suit, rank) pair, each exactly once. */
  lemma StandardDeckIsComplete()
    ensures forall c: Card :: c in StandardDeck()
    ensures forall i, j :: 0 <= i < j < 52 ==> StandardDeck()[i] != StandardDeck()[j]
    ensures forall c: Card :: multiset(StandardDeck())[c] == 1
  {
    var d := StandardDeck();
    forall c: Card ensures c in d {
      var k := SuitIndex(c.suit) * 13 + RankIndex(c.rank);
      StandardDeckAt(k);
    }
    forall i, j | 0 <= i < j < 52 ensures d[i] != d[j] {
      StandardDeckAt(i);
      StandardDeckAt(j);
      SuitIndexOfPosition(i / 13);
      SuitIndexOfPosition(j / 13);
      RankIndexOfPosition(i % 13);
      RankIndexOfPosition(j % 13);
    }
    forall c: Card ensures multiset(d)[c] == 1 {
      DistinctOccursOnce(d, c);
    }
  }

  lemma {:induction false} DistinctOccursOnce<T>(s: seq<T>, x: T)
    requires x in s
    requires forall i, j :: 0 <= i < j < |s| ==> s[i] != s[j]
    ensures multiset(s)[x] == 1
  {
    assert s == [s[0]] + s[1..];
    if s[0] == x {
      assert x !in s[1..];
    } else {
      DistinctOccursOnce(s[1..], x);
    }
  }

  /** Exchanges positions i and j, as the destructuring assignment of the shuffle does. */
  function Swap<T>(s: seq<T>, i: nat, j: nat): (r: seq<T>)
    requires i < |s| && j < |s|
    ensures |r| == |s| && r[i] == s[j] && r[j] == s[i]
    ensures forall k :: 0 <= k < |s| && k != i && k != j ==> r[k] == s[k]
    ensures multiset(r) == multiset(s)
  {
    s[i := s[j]][j := s[i]]
  }

  /** The deck after the swap steps for positions i, i - 1, ..., 1 of the Fisher-Yates loop,
      where `rand(t)` is the random draw made at position t and `rand(t) % (t + 1)` the
      partner position it picks. */
  function ShuffledFrom<T>(s: seq<T>, i: int, rand: nat -> nat): seq<T>
    requires i < |s|
    decreases i
  {
    if i <= 0 then s else ShuffledFrom(Swap(s, i, rand(i) % (i + 1)), i - 1, rand)
  }

  /** The whole shuffle, starting from the last position. */
  function Shuffled<T>(s: seq<T>, rand: nat -> nat): seq<T>
  {
    ShuffledFrom(s, |s| - 1, rand)
  }

  /** One swap of the shuffle, written as the two element assignments, leaves a sequence the rest
      of the shuffle finishes the same way. */
  lemma ShuffleStep<T>(s: seq<T>, i: int, rand: nat -> nat)
    requires 0 < i < |s|
    ensures var j := rand(i) % (i + 1);
      j <= i && ShuffledFrom(s[i := s[j]][j := s[i]], i - 1, rand) == ShuffledFrom(s, i, rand)
  {
    assert s[i := s[rand(i) % (i + 1)]][rand(i) % (i + 1) := s[i]] == Swap(s, i, rand(i) % (i + 1));
  }

  /** The shuffle only swaps, so it is a permutation whatever the random draws are. */
  lemma {:induction false} ShuffledFromPermutes<T>(s: seq<T>, i: int, rand: nat -> nat)
    requires i < |s|
    ensures |ShuffledFrom(s, i, rand)| == |s|
    ensures multiset(ShuffledFrom(s, i, rand)) == multiset(s)
    decreases i
  {
    if i > 0 {
      var swapped := Swap(s, i, rand(i) % (i + 1));
      assert ShuffledFrom(s, i, rand) == ShuffledFrom(swapped, i - 1, rand);
      ShuffledFromPermutes(swapped, i - 1, rand);
    }
  }

  lemma ShuffledPermutes<T>(s: seq<T>, rand: nat -> nat)
    ensures |Shuffled(s, rand)| == |s|
    ensures multiset(Shuffled(s, rand)) == multiset(s)
  {
    ShuffledFromPermutes(s, |s| - 1, rand);
  }

  /** The last k cards of d, in the order k successive pops return them. */
  function Popped<T>(d: seq<T>, k: nat): (r: seq<T>)
    requires k <= |d|
    ensures |r| == k
  {
    if k == 0 then [] else Popped(d, k - 1) + [d[|d| - k]]
  }

  /** The t-th pop returns the card t places from the end. */
  lemma {:induction false} PoppedAt<T>(d: seq<T>, k: nat, t: nat)
    requires k <= |d| && t < k
    ensures Popped(d, k)[t] == d[|d| - 1 - t]
  {
    if t < k - 1 {
      PoppedAt(d, k - 1, t);
    }
  }

  /** Popping k cards splits the deck: what is left plus what was popped is the old deck. */
  lemma {:induction false} PoppedSplits<T>(d: seq<T>, k: nat)
    requires k <= |d|
    ensures multiset(d[..|d| - k]) + multiset(Popped(d, k)) == multiset(d)
  {
    if k == 0 {
      assert d[..|d|] == d;
    } else {
      PoppedSplits(d, k - 1);
      var i := |d| - k;
      var left, prev, top := d[..i], d[..i + 1], d[i];
      assert prev == left + [top];
      var was, now := multiset(Popped(d, k - 1)), multiset(Popped(d, k));
      assert now == was + multiset{top};
      calc {
        multiset(left) + now;
        multiset(left) + multiset{top} + was;
        multiset(prev) + was;
        multiset(d);
      }
    }
  }
}
