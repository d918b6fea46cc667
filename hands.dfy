/**
 * Concrete hands worked through the evaluator: the comparisons the
 * evaluator's own test cases expect, and the front-row entry threshold.
 * Cards are written as `rank * 4 + suit` (Two = 0 .. Ace = 12; c, d, h, s =
 * 0 .. 3) and listed high rank first, so that their ranks are already in the
 * order `evaluate_5` and `evaluate_3` sort them into;
 * `Evaluate5Permutation` and `Evaluate3Permutation` carry every result over
 * to any other order of the same cards.
 */
module Hands {
  import opened Seqs
  import opened Cards
  import opened Evaluator
  import opened Scoring

  /** Five cards whose ranks are already high to low evaluate as those ranks. */
  lemma Eval5(cards: seq<Card>, ranks: seq<int>)
    requires |cards| == 5 && RanksOf(cards) == ranks && SortedDesc(ranks)
    ensures ValidRanks(ranks) && |ranks| == 5
    ensures Evaluate5(cards) == Classify5(ranks, IsFlush(cards))
  {
    SortDescOfSorted(ranks);
    RanksOfValid(cards);
  }

  /** Two cards of different suits rule out a flush. */
  lemma NotFlush(cards: seq<Card>, i: nat, j: nat)
    requires i < |cards| && j < |cards| && CardSuit(cards[i]) != CardSuit(cards[j])
    ensures !IsFlush(cards)
  {
    assert {CardSuit(cards[i]), CardSuit(cards[j])} <= SuitSet(cards);
    SubsetSize({CardSuit(cards[i]), CardSuit(cards[j])}, SuitSet(cards));
  }

  /** 6h 5c 4d 3s 2h. */
  const SIX_HIGH: seq<Card> := [18, 12, 9, 7, 2]
  /** Ah 5h 4s 3d 2c. */
  const WHEEL: seq<Card> := [50, 14, 11, 5, 0]

  lemma SixHighIsStraight()
    ensures Evaluate5(SIX_HIGH) == HandEval(HAND_STRAIGHT, 4)
  {
    NotFlush(SIX_HIGH, 0, 1);
    Eval5Is(SIX_HIGH, [4, 3, 2, 1, 0], HandEval(HAND_STRAIGHT, 4));
  }

  lemma WheelIsStraight()
    ensures Evaluate5(WHEEL) == HandEval(HAND_STRAIGHT, 3)
  {
    NotFlush(WHEEL, 0, 4);
    Eval5Is(WHEEL, [12, 3, 2, 1, 0], HandEval(HAND_STRAIGHT, 3));
  }

  /** The wheel is the lowest straight: a six-high straight beats it. */
  lemma WheelLosesToSixHigh()
    ensures Compare5(SIX_HIGH, WHEEL) == 1
  {
    SixHighIsStraight();
    WheelIsStraight();
  }

  /** Ah Kh Qh Jh Th. */
  const ROYAL_HEARTS: seq<Card> := [50, 46, 42, 38, 34]
  /** As Ks Qs Js Ts. */
  const ROYAL_SPADES: seq<Card> := [51, 47, 43, 39, 35]

  /** Five cards that share the first card's suit are a flush. */
  lemma Flush5(cards: seq<Card>)
    requires |cards| == 5
    requires CardSuit(cards[1]) == CardSuit(cards[0]) && CardSuit(cards[2]) == CardSuit(cards[0])
    requires CardSuit(cards[3]) == CardSuit(cards[0]) && CardSuit(cards[4]) == CardSuit(cards[0])
    ensures IsFlush(cards)
  {
    FlushIffOneSuit(cards);
  }

  /** Suits never break a tie: the two royal flushes compare equal. */
  lemma RoyalsTie()
    ensures Compare5(ROYAL_HEARTS, ROYAL_SPADES) == 0
  {
    Flush5(ROYAL_HEARTS);
    Flush5(ROYAL_SPADES);
    assert RanksOf(ROYAL_HEARTS) == RanksOf(ROYAL_SPADES);
    Evaluate5Invariant(ROYAL_HEARTS, ROYAL_SPADES);
  }

  /** Three cards whose ranks are already high to low evaluate to the spelled-out outcome. */
  lemma Eval3(cards: seq<Card>, ranks: seq<int>)
    requires |cards| == 3 && RanksOf(cards) == ranks && SortedDesc(ranks)
    ensures Evaluate3(cards) == FrontOutcome(ranks[0], ranks[1], ranks[2])
  {
    SortDescOfSorted(ranks);
    RanksOfValid(cards);
    Classify3Cases(ranks);
  }

  /** 2c 2d 2h. */
  const TRIP_DEUCES: seq<Card> := [0, 1, 2]
  /** Ah Ac Kd. */
  const ACES_KING_FRONT: seq<Card> := [50, 48, 45]

  lemma TripDeuces()
    ensures Evaluate3(TRIP_DEUCES) == HandEval(FRONT_THREE_KIND, 0)
  {
    Eval3(TRIP_DEUCES, [0, 0, 0]);
  }

  lemma AcesKingFront()
    ensures Evaluate3(ACES_KING_FRONT) == HandEval(FRONT_ONE_PAIR, 12 * 13 + 11)
  {
    Eval3(ACES_KING_FRONT, [12, 12, 11]);
  }

  /** Three of a kind, even Deuces, beats any pair on the front row. */
  lemma TripsBeatPair()
    ensures Compare3(TRIP_DEUCES, ACES_KING_FRONT) == 1
  {
    TripDeuces();
    AcesKingFront();
  }

  /** Ah 2c 2d. */
  const ACE_DEUCES: seq<Card> := [50, 0, 1]
  /** Ah Kc Qd. */
  const ACE_KING_QUEEN: seq<Card> := [50, 44, 41]
  /** Ah Ac 2d. */
  const ACES_DEUCE: seq<Card> := [50, 48, 1]
  /** Kh Kc Qd. */
  const KINGS_QUEEN: seq<Card> := [46, 44, 41]

  lemma AceDeuces()
    ensures Evaluate3(ACE_DEUCES) == HandEval(FRONT_ONE_PAIR, 0 * 13 + 12)
  {
    Eval3(ACE_DEUCES, [12, 0, 0]);
  }

  lemma AceKingQueen()
    ensures Evaluate3(ACE_KING_QUEEN) == HandEval(FRONT_HIGH_CARD, 12 * 169 + 11 * 13 + 10)
  {
    Eval3(ACE_KING_QUEEN, [12, 11, 10]);
  }

  /** A pair of Deuces beats Ace-King-Queen high. */
  lemma PairBeatsHighCard()
    ensures Compare3(ACE_DEUCES, ACE_KING_QUEEN) == 1
  {
    AceDeuces();
    AceKingQueen();
  }

  lemma AcesDeuce()
    ensures Evaluate3(ACES_DEUCE) == HandEval(FRONT_ONE_PAIR, 12 * 13 + 0)
  {
    Eval3(ACES_DEUCE, [12, 12, 0]);
  }

  lemma KingsQueen()
    ensures Evaluate3(KINGS_QUEEN) == HandEval(FRONT_ONE_PAIR, 11 * 13 + 10)
  {
    Eval3(KINGS_QUEEN, [11, 11, 10]);
  }

  /** Between pairs the pair's rank decides before the kicker. */
  lemma HigherPairWins()
    ensures Compare3(ACES_DEUCE, KINGS_QUEEN) == 1
  {
    AcesDeuce();
    KingsQueen();
  }

  /** Qh Qc 2d. */
  const QUEENS_FRONT: seq<Card> := [42, 40, 1]
  /** Jh Jc 2d. */
  const JACKS_FRONT: seq<Card> := [38, 36, 1]

  /** A pair of Queens on the front row meets the Fantasyland entry threshold... */
  lemma QueensQualify()
    ensures FrontQualifies(Evaluate3(QUEENS_FRONT))
  {
    Eval3(QUEENS_FRONT, [10, 10, 0]);
  }

  /** ...and a pair of Jacks does not. */
  lemma JacksDoNotQualify()
    ensures !FrontQualifies(Evaluate3(JACKS_FRONT))
  {
    Eval3(JACKS_FRONT, [9, 9, 0]);
  }

  // ---------------------------------------------------------------------------
  // One hand of every class, and the class hierarchy
  // ---------------------------------------------------------------------------

  /** Five cards whose ranks are already high to low evaluate to the spelled-out outcome `e`. */
  lemma Eval5Is(cards: seq<Card>, ranks: seq<int>, e: HandEval)
    requires |cards| == 5 && RanksOf(cards) == ranks && SortedDesc(ranks) && |ranks| == 5
    requires Outcome5(ranks[0], ranks[1], ranks[2], ranks[3], ranks[4], IsFlush(cards)) == e
    ensures Evaluate5(cards) == e
  {
    Eval5(cards, ranks);
    Classify5Cases(ranks, IsFlush(cards));
  }


  /** 9h 8h 7h 6h 5h. */
  const NINE_HIGH_FLUSH: seq<Card> := [30, 26, 22, 18, 14]
  /** Ac Ad As Ah 2c. */
  const FOUR_ACES: seq<Card> := [48, 49, 51, 50, 0]
  /** Kc Kd Ks Qh Qc. */
  const KINGS_FULL: seq<Card> := [44, 45, 47, 42, 40]
  /** Ah Th 8h 5h 3h. */
  const ACE_HIGH_FLUSH: seq<Card> := [50, 34, 26, 14, 6]
  /** Ts 9c 8h 7d 6s. */
  const TEN_HIGH: seq<Card> := [35, 28, 26, 21, 19]
  /** Jc Jd Js 8h 3c. */
  const TRIP_JACKS: seq<Card> := [36, 37, 39, 26, 4]
  /** Tc Td 9h 9s 3c. */
  const TENS_AND_NINES: seq<Card> := [32, 33, 30, 31, 4]
  /** Ah Ks 8c 8d 3c. */
  const PAIR_OF_EIGHTS: seq<Card> := [50, 47, 24, 25, 4]
  /** Ac Tc 8d 5s 3h. */
  const ACE_TEN_HIGH: seq<Card> := [48, 32, 25, 15, 6]

  lemma RoyalFlushHand()
    ensures Evaluate5(ROYAL_HEARTS) == HandEval(HAND_ROYAL_FLUSH, Key5(12, 11, 10, 9, 8))
  {
    Flush5(ROYAL_HEARTS);
    Eval5Is(ROYAL_HEARTS, [12, 11, 10, 9, 8], HandEval(HAND_ROYAL_FLUSH, Key5(12, 11, 10, 9, 8)));
  }

  lemma StraightFlushHand()
    ensures Evaluate5(NINE_HIGH_FLUSH) == HandEval(HAND_STRAIGHT_FLUSH, 7)
  {
    Flush5(NINE_HIGH_FLUSH);
    Eval5Is(NINE_HIGH_FLUSH, [7, 6, 5, 4, 3], HandEval(HAND_STRAIGHT_FLUSH, 7));
  }

  lemma FourOfAKindHand()
    ensures Evaluate5(FOUR_ACES) == HandEval(HAND_FOUR_KIND, 12 * 13 + 0)
  {
    Eval5Is(FOUR_ACES, [12, 12, 12, 12, 0], HandEval(HAND_FOUR_KIND, 12 * 13 + 0));
  }

  lemma FullHouseHand()
    ensures Evaluate5(KINGS_FULL) == HandEval(HAND_FULL_HOUSE, 11 * 13 + 10)
  {
    Eval5Is(KINGS_FULL, [11, 11, 11, 10, 10], HandEval(HAND_FULL_HOUSE, 11 * 13 + 10));
  }

  lemma FlushHand()
    ensures Evaluate5(ACE_HIGH_FLUSH) == HandEval(HAND_FLUSH, Key5(12, 8, 6, 3, 1))
  {
    Flush5(ACE_HIGH_FLUSH);
    Eval5Is(ACE_HIGH_FLUSH, [12, 8, 6, 3, 1], HandEval(HAND_FLUSH, Key5(12, 8, 6, 3, 1)));
  }

  lemma StraightHand()
    ensures Evaluate5(TEN_HIGH) == HandEval(HAND_STRAIGHT, 8)
  {
    NotFlush(TEN_HIGH, 0, 1);
    Eval5Is(TEN_HIGH, [8, 7, 6, 5, 4], HandEval(HAND_STRAIGHT, 8));
  }

  lemma ThreeOfAKindHand()
    ensures Evaluate5(TRIP_JACKS) == HandEval(HAND_THREE_KIND, 9 * 169 + 6 * 13 + 1)
  {
    NotFlush(TRIP_JACKS, 0, 1);
    Eval5Is(TRIP_JACKS, [9, 9, 9, 6, 1], HandEval(HAND_THREE_KIND, 9 * 169 + 6 * 13 + 1));
  }

  lemma TwoPairHand()
    ensures Evaluate5(TENS_AND_NINES) == HandEval(HAND_TWO_PAIR, 8 * 169 + 7 * 13 + 1)
  {
    NotFlush(TENS_AND_NINES, 0, 1);
    Eval5Is(TENS_AND_NINES, [8, 8, 7, 7, 1], HandEval(HAND_TWO_PAIR, 8 * 169 + 7 * 13 + 1));
  }

  lemma OnePairHand()
    ensures Evaluate5(PAIR_OF_EIGHTS) == HandEval(HAND_ONE_PAIR, 6 * 2197 + 12 * 169 + 11 * 13 + 1)
  {
    NotFlush(PAIR_OF_EIGHTS, 0, 2);
    Eval5Is(PAIR_OF_EIGHTS, [12, 11, 6, 6, 1], HandEval(HAND_ONE_PAIR, 6 * 2197 + 12 * 169 + 11 * 13 + 1));
  }

  lemma HighCardHand()
    ensures Evaluate5(ACE_TEN_HIGH) == HandEval(HAND_HIGH_CARD, Key5(12, 8, 6, 3, 1))
  {
    NotFlush(ACE_TEN_HIGH, 0, 2);
    Eval5Is(ACE_TEN_HIGH, [12, 8, 6, 3, 1], HandEval(HAND_HIGH_CARD, Key5(12, 8, 6, 3, 1)));
  }

  /** Ah Ac Ad Ks Kc. */
  const ACES_FULL: seq<Card> := [50, 48, 49, 47, 44]

  /** Ah Ac Ad Ks 3c. */
  const TRIP_ACES: seq<Card> := [50, 48, 49, 47, 4]

  /** Ah Ac Kd Ks 3c. */
  const ACES_AND_KINGS: seq<Card> := [50, 48, 45, 47, 4]

  /** Ah Ac Kd Qs 3c. */
  const PAIR_OF_ACES: seq<Card> := [50, 48, 45, 43, 4]

  /** Ah Tc 8d 5s 3c. */
  const ACE_HIGH: seq<Card> := [50, 32, 25, 15, 4]

  /** Kh Kc Kd Qs Qc. */
  const KINGS_FULL_OF_QUEENS: seq<Card> := [46, 44, 45, 43, 40]

  /** Kh Kc Qd Js 3c. */
  const PAIR_OF_KINGS: seq<Card> := [46, 44, 41, 39, 4]

  /** Ah As Kd 5c 3d. */
  const ACES_KING_KICKER: seq<Card> := [50, 51, 45, 12, 5]

  /** Ah As Qd 5c 3d. */
  const ACES_QUEEN_KICKER: seq<Card> := [50, 51, 41, 12, 5]

  lemma AcesFullHand()
    ensures Evaluate5(ACES_FULL) == HandEval(HAND_FULL_HOUSE, 12 * 13 + 11)
  {
    NotFlush(ACES_FULL, 0, 1);
    Eval5Is(ACES_FULL, [12, 12, 12, 11, 11], HandEval(HAND_FULL_HOUSE, 12 * 13 + 11));
  }

  lemma TripAcesHand()
    ensures Evaluate5(TRIP_ACES) == HandEval(HAND_THREE_KIND, 12 * 169 + 11 * 13 + 1)
  {
    NotFlush(TRIP_ACES, 0, 1);
    Eval5Is(TRIP_ACES, [12, 12, 12, 11, 1], HandEval(HAND_THREE_KIND, 12 * 169 + 11 * 13 + 1));
  }

  lemma AcesAndKingsHand()
    ensures Evaluate5(ACES_AND_KINGS) == HandEval(HAND_TWO_PAIR, 12 * 169 + 11 * 13 + 1)
  {
    NotFlush(ACES_AND_KINGS, 0, 1);
    Eval5Is(ACES_AND_KINGS, [12, 12, 11, 11, 1], HandEval(HAND_TWO_PAIR, 12 * 169 + 11 * 13 + 1));
  }

  lemma PairOfAcesHand()
    ensures Evaluate5(PAIR_OF_ACES) == HandEval(HAND_ONE_PAIR, 12 * 2197 + 11 * 169 + 10 * 13 + 1)
  {
    NotFlush(PAIR_OF_ACES, 0, 1);
    Eval5Is(PAIR_OF_ACES, [12, 12, 11, 10, 1], HandEval(HAND_ONE_PAIR, 12 * 2197 + 11 * 169 + 10 * 13 + 1));
  }

  lemma AceHighHand()
    ensures Evaluate5(ACE_HIGH) == HandEval(HAND_HIGH_CARD, Key5(12, 8, 6, 3, 1))
  {
    NotFlush(ACE_HIGH, 0, 1);
    Eval5Is(ACE_HIGH, [12, 8, 6, 3, 1], HandEval(HAND_HIGH_CARD, Key5(12, 8, 6, 3, 1)));
  }

  lemma KingsFullOfQueensHand()
    ensures Evaluate5(KINGS_FULL_OF_QUEENS) == HandEval(HAND_FULL_HOUSE, 11 * 13 + 10)
  {
    NotFlush(KINGS_FULL_OF_QUEENS, 0, 1);
    Eval5Is(KINGS_FULL_OF_QUEENS, [11, 11, 11, 10, 10], HandEval(HAND_FULL_HOUSE, 11 * 13 + 10));
  }

  lemma PairOfKingsHand()
    ensures Evaluate5(PAIR_OF_KINGS) == HandEval(HAND_ONE_PAIR, 11 * 2197 + 10 * 169 + 9 * 13 + 1)
  {
    NotFlush(PAIR_OF_KINGS, 0, 1);
    Eval5Is(PAIR_OF_KINGS, [11, 11, 10, 9, 1], HandEval(HAND_ONE_PAIR, 11 * 2197 + 10 * 169 + 9 * 13 + 1));
  }

  lemma AcesKingKickerHand()
    ensures Evaluate5(ACES_KING_KICKER) == HandEval(HAND_ONE_PAIR, 12 * 2197 + 11 * 169 + 3 * 13 + 1)
  {
    NotFlush(ACES_KING_KICKER, 0, 1);
    Eval5Is(ACES_KING_KICKER, [12, 12, 11, 3, 1], HandEval(HAND_ONE_PAIR, 12 * 2197 + 11 * 169 + 3 * 13 + 1));
  }

  lemma AcesQueenKickerHand()
    ensures Evaluate5(ACES_QUEEN_KICKER) == HandEval(HAND_ONE_PAIR, 12 * 2197 + 10 * 169 + 3 * 13 + 1)
  {
    NotFlush(ACES_QUEEN_KICKER, 0, 1);
    Eval5Is(ACES_QUEEN_KICKER, [12, 12, 10, 3, 1], HandEval(HAND_ONE_PAIR, 12 * 2197 + 10 * 169 + 3 * 13 + 1));
  }

  /** A royal flush beats a straight flush. */
  lemma RoyalOverStraightFlush()
    ensures Compare5(ROYAL_HEARTS, NINE_HIGH_FLUSH) == 1
  {
    RoyalFlushHand();
    StraightFlushHand();
  }

  /** A straight flush beats four of a kind. */
  lemma StraightFlushOverQuads()
    ensures Compare5(NINE_HIGH_FLUSH, FOUR_ACES) == 1
  {
    StraightFlushHand();
    FourOfAKindHand();
  }

  /** Four of a kind beats a full house. */
  lemma QuadsOverFullHouse()
    ensures Compare5(FOUR_ACES, KINGS_FULL) == 1
  {
    FourOfAKindHand();
    FullHouseHand();
  }

  /** A full house beats a flush. */
  lemma FullHouseOverFlush()
    ensures Compare5(KINGS_FULL, ACE_HIGH_FLUSH) == 1
  {
    FullHouseHand();
    FlushHand();
  }

  /** A flush beats a straight. */
  lemma FlushOverStraight()
    ensures Compare5(ACE_HIGH_FLUSH, TEN_HIGH) == 1
  {
    FlushHand();
    StraightHand();
  }

  /** A straight beats three of a kind. */
  lemma StraightOverTrips()
    ensures Compare5(TEN_HIGH, TRIP_JACKS) == 1
  {
    StraightHand();
    ThreeOfAKindHand();
  }

  /** Three of a kind beats two pair. */
  lemma TripsOverTwoPair()
    ensures Compare5(TRIP_JACKS, TENS_AND_NINES) == 1
  {
    ThreeOfAKindHand();
    TwoPairHand();
  }

  /** Two pair beats one pair. */
  lemma TwoPairOverPair()
    ensures Compare5(TENS_AND_NINES, PAIR_OF_EIGHTS) == 1
  {
    TwoPairHand();
    OnePairHand();
  }

  /** One pair beats high card. */
  lemma PairOverHighCard()
    ensures Compare5(PAIR_OF_EIGHTS, ACE_TEN_HIGH) == 1
  {
    OnePairHand();
    HighCardHand();
  }

  /** Four Aces beat Kings full of Queens. */
  lemma QuadAcesOverKingsFull()
    ensures Compare5(FOUR_ACES, KINGS_FULL_OF_QUEENS) == 1
  {
    FourOfAKindHand();
    KingsFullOfQueensHand();
  }

  /** A pair of Aces beats a pair of Kings. */
  lemma HigherPairWins5()
    ensures Compare5(PAIR_OF_ACES, PAIR_OF_KINGS) == 1
  {
    PairOfAcesHand();
    PairOfKingsHand();
  }

  /** Between equal pairs the first differing kicker decides. */
  lemma HigherKickerWins()
    ensures Compare5(ACES_KING_KICKER, ACES_QUEEN_KICKER) == 1
  {
    AcesKingKickerHand();
    AcesQueenKickerHand();
  }
}
