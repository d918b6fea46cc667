/**
 * OFC Pineapple scoring: royalties per row, the royalty total of a board,
 * head-to-head points between two complete boards, and the Fantasyland
 * entry and stay rules.
 *
 * Every function that looks at whether a board is fouled takes the abstract
 * front-versus-middle comparison `cmf` (see the Board module).
 */
module Scoring {
  import opened Seqs
  import opened Cards
  import opened Evaluator
  import opened Board

  // ---------------------------------------------------------------------------
  // Royalty tables
  // ---------------------------------------------------------------------------

  /** `BACK_ROYALTIES`. */
  const BACK_ROYALTIES: map<int, nat> := map[
    HAND_STRAIGHT := 2, HAND_FLUSH := 4, HAND_FULL_HOUSE := 6,
    HAND_FOUR_KIND := 10, HAND_STRAIGHT_FLUSH := 15, HAND_ROYAL_FLUSH := 25]

  /** `MIDDLE_ROYALTIES`: double the back, and Trips as well. */
  const MIDDLE_ROYALTIES: map<int, nat> := map[
    HAND_THREE_KIND := 2, HAND_STRAIGHT := 4, HAND_FLUSH := 8, HAND_FULL_HOUSE := 12,
    HAND_FOUR_KIND := 20, HAND_STRAIGHT_FLUSH := 30, HAND_ROYAL_FLUSH := 50]

  /** `FRONT_PAIR_ROYALTIES`: a pair of Sixes (rank 4) earns 1, up to a pair of Aces (rank 12) earning 9. */
  const FRONT_PAIR_ROYALTIES: map<int, nat> := map[
    4 := 1, 5 := 2, 6 := 3, 7 := 4, 8 := 5, 9 := 6, 10 := 7, 11 := 8, 12 := 9]

  /** Trips of Twos earn 10, up to trips of Aces earning 22. */
  const FRONT_TRIP_BASE_ROYALTY := 10

  /** `table.get(key, 0)`. */
  function Lookup(table: map<int, nat>, key: int): nat {
    if key in table then table[key] else 0
  }

  // ---------------------------------------------------------------------------
  // Royalties per row
  // ---------------------------------------------------------------------------

  /** `royalties_back`: 0 unless the row holds five cards, then the table entry for its class. */
  function RoyaltiesBack(cards: seq<Card>): (r: nat)
    ensures r <= 25
    ensures r > 0 <==> |cards| == 5 && Evaluate5(cards).cls <= HAND_STRAIGHT
  {
    BackHelper(cards);
    if |cards| != 5 then 0 else Lookup(BACK_ROYALTIES, Evaluate5(cards).cls)
  }

  /** `royalties_middle`. */
  function RoyaltiesMiddle(cards: seq<Card>): (r: nat)
    ensures r <= 50
    ensures r > 0 <==> |cards| == 5 && Evaluate5(cards).cls <= HAND_THREE_KIND
  {
    MiddleHelper(cards);
    if |cards| != 5 then 0 else Lookup(MIDDLE_ROYALTIES, Evaluate5(cards).cls)
  }

  /** `royalties_front`: trips earn 10 + rank, a pair the table entry for its rank, anything else 0. */
  function RoyaltiesFront(cards: seq<Card>): (r: nat)
    ensures |cards| == 3 && Evaluate3(cards).cls == FRONT_THREE_KIND ==> r >= 10
    ensures |cards| != 3 || Evaluate3(cards).cls == FRONT_HIGH_CARD ==> r == 0
    ensures r <= 22
  {
    FrontHelper(cards);
    if |cards| != 3 then 0 else FrontRoyaltyOf(Evaluate3(cards))
  }

  /** The front royalty of an evaluated front row. */
  function FrontRoyaltyOf(e: HandEval): nat
    requires 0 <= e.value
  {
    if e.cls == FRONT_THREE_KIND then FRONT_TRIP_BASE_ROYALTY + e.value
    else if e.cls == FRONT_ONE_PAIR then Lookup(FRONT_PAIR_ROYALTIES, e.value / 13)
    else 0
  }

  /** The back-row table written out class by class. */
  function BackRoyaltyOf(cls: int): (r: nat)
    ensures r <= 25
  {
    if cls == HAND_ROYAL_FLUSH then 25
    else if cls == HAND_STRAIGHT_FLUSH then 15
    else if cls == HAND_FOUR_KIND then 10
    else if cls == HAND_FULL_HOUSE then 6
    else if cls == HAND_FLUSH then 4
    else if cls == HAND_STRAIGHT then 2
    else 0
  }

  /** The table entry of a five-card back row lies in 0..25, and is positive exactly from a straight up. */
  lemma BackHelper(cards: seq<Card>)
    ensures |cards| == 5 ==> Lookup(BACK_ROYALTIES, Evaluate5(cards).cls) <= 25
    ensures |cards| == 5 ==> (Lookup(BACK_ROYALTIES, Evaluate5(cards).cls) > 0 <==> Evaluate5(cards).cls <= HAND_STRAIGHT)
  {
    if |cards| == 5 {
      BackTable(Evaluate5(cards).cls);
    }
  }

  /** The table entry of a five-card middle row lies in 0..50, and is positive exactly from trips up. */
  lemma MiddleHelper(cards: seq<Card>)
    ensures |cards| == 5 ==> Lookup(MIDDLE_ROYALTIES, Evaluate5(cards).cls) <= 50
    ensures |cards| == 5 ==> (Lookup(MIDDLE_ROYALTIES, Evaluate5(cards).cls) > 0 <==> Evaluate5(cards).cls <= HAND_THREE_KIND)
  {
    if |cards| == 5 {
      MiddleTable(Evaluate5(cards).cls);
    }
  }

  /** The royalty of a three-card front row is at most 22, for trip Aces. */
  lemma FrontHelper(cards: seq<Card>)
    ensures |cards| == 3 ==> FrontRoyaltyOf(Evaluate3(cards)) <= 22
  {
    if |cards| == 3 {
      var r := SortDesc(RanksOf(cards));
      Evaluate3Cases(cards);
      FrontOutcomeRoyalty(r[0], r[1], r[2]);
    }
  }

  /** The back table holds exactly the listed classes. */
  lemma BackTable(cls: int)
    ensures Lookup(BACK_ROYALTIES, cls) == BackRoyaltyOf(cls)
  {
  }

  /** The middle table doubles the back table, and adds 2 for Trips, which the back does not reward. */
  lemma MiddleTable(cls: int)
    ensures Lookup(MIDDLE_ROYALTIES, cls) == if cls == HAND_THREE_KIND then 2 else 2 * BackRoyaltyOf(cls)
  {
  }

  /** The back royalty of a five-card row is the entry for its class; unlisted classes earn nothing. */
  lemma BackRoyalties(cards: seq<Card>)
    ensures RoyaltiesBack(cards) == if |cards| != 5 then 0 else BackRoyaltyOf(Evaluate5(cards).cls)
  {
    if |cards| == 5 {
      BackTable(Evaluate5(cards).cls);
    }
  }

  /** The middle royalty of a five-card row doubles the back royalty, except for Trips, which earn 2. */
  lemma MiddleDoublesBack(cards: seq<Card>)
    ensures |cards| == 5 ==>
      RoyaltiesMiddle(cards) == (if Evaluate5(cards).cls == HAND_THREE_KIND then 2 else 2 * BackRoyaltyOf(Evaluate5(cards).cls))
    ensures |cards| != 5 ==> RoyaltiesMiddle(cards) == 0
  {
    if |cards| == 5 {
      MiddleTable(Evaluate5(cards).cls);
    }
  }

  /** Back royalties range over 0..25. */
  lemma BackRoyaltyBound(cards: seq<Card>)
    ensures RoyaltiesBack(cards) <= 25
  {
    BackRoyalties(cards);
  }

  /** Middle royalties range over 0..50. */
  lemma MiddleRoyaltyBound(cards: seq<Card>)
    ensures RoyaltiesMiddle(cards) <= 50
  {
    MiddleDoublesBack(cards);
  }

  /** The pair rank packed in a front pair's value is recovered by `// 13`. */
  lemma PairRankOfValue(pair: int, kicker: int)
    requires 0 <= kicker < 13
    ensures (pair * 13 + kicker) / 13 == pair
  {
  }

  /** The royalty of each front outcome: trips 10 + rank, a pair of Sixes or better its rank minus 3. */
  lemma FrontOutcomeRoyalty(x: int, y: int, z: int)
    requires 0 <= z <= y <= x < 13
    ensures FrontRoyaltyOf(FrontOutcome(x, y, z)) ==
      if x == z then 10 + x
      else if (x == y || y == z) && y >= 4 then y - 3
      else 0
  {
    if x != z && x == y {
      PairRankOfValue(x, z);
    } else if x != z && y == z {
      PairRankOfValue(y, x);
    }
  }

  /**
   * Front royalties in terms of the sorted ranks r: trips earn 10 + r[0];
   * a pair's rank is always r[1], and a pair of Sixes or better earns its
   * rank minus 3; anything else earns nothing.
   */
  lemma FrontRoyalties(cards: seq<Card>)
    requires |cards| == 3
    ensures var r := SortDesc(RanksOf(cards));
      |r| == 3 &&
      RoyaltiesFront(cards) ==
        if r[0] == r[2] then 10 + r[0]
        else if (r[0] == r[1] || r[1] == r[2]) && r[1] >= 4 then r[1] - 3
        else 0
  {
    var r := SortDesc(RanksOf(cards));
    Evaluate3Cases(cards);
    FrontOutcomeRoyalty(r[0], r[1], r[2]);
  }

  /** Front royalties range over 0..22. */
  lemma FrontRoyaltyBound(cards: seq<Card>)
    ensures RoyaltiesFront(cards) <= 22
  {
    if |cards| == 3 {
      FrontRoyalties(cards);
    }
  }

  // ---------------------------------------------------------------------------
  // Board totals
  // ---------------------------------------------------------------------------

  /** `total_royalties`: 0 for an incomplete or fouled board, else the sum over the three rows. */
  function TotalRoyalties(l: Layout, cmf: FrontVsMiddle): (r: nat)
    requires l.RowsFit()
    ensures r <= 97
    ensures r > 0 ==> l.IsComplete() && !l.IsFouled(cmf)
  {
    if !l.IsComplete() then 0
    else if l.IsFouled(cmf) then 0
    else RoyaltiesFront(l.front) + RoyaltiesMiddle(l.middle) + RoyaltiesBack(l.back)
  }

  /** `estimate_royalties`: the royalties of the rows that are already full, as a running total. */
  function EstimateRoyalties(l: Layout): (r: nat)
    ensures r <= 97
    ensures r > 0 ==> l.IsFrontFull() || l.IsMiddleFull() || l.IsBackFull()
  {
    var total := 0;
    var total := if l.IsFrontFull() then total + RoyaltiesFront(l.front) else total;
    var total := if l.IsMiddleFull() then total + RoyaltiesMiddle(l.middle) else total;
    if l.IsBackFull() then total + RoyaltiesBack(l.back) else total
  }

  /** Fouled and incomplete boards earn no royalties. */
  lemma NoRoyaltiesWhenFouled(l: Layout, cmf: FrontVsMiddle)
    requires l.RowsFit() && (!l.IsComplete() || l.IsFouled(cmf))
    ensures TotalRoyalties(l, cmf) == 0
  {
  }

  /** On a complete clean board the estimate is the actual total. */
  lemma EstimateMatchesTotal(l: Layout, cmf: FrontVsMiddle)
    requires l.WithinCapacity() && l.IsComplete()
    requires (CompleteIffAllFull(l); !l.IsFouled(cmf))
    ensures TotalRoyalties(l, cmf) == EstimateRoyalties(l)
  {
    CompleteIffAllFull(l);
  }

  /** An empty or partial row adds nothing to the estimate. */
  lemma EstimateOfFullRows(l: Layout)
    ensures EstimateRoyalties(l) ==
      (if l.IsFrontFull() then RoyaltiesFront(l.front) else 0) +
      (if l.IsMiddleFull() then RoyaltiesMiddle(l.middle) else 0) +
      (if l.IsBackFull() then RoyaltiesBack(l.back) else 0)
  {
  }

  // ---------------------------------------------------------------------------
  // Head-to-head scoring
  // ---------------------------------------------------------------------------

  /** `sum(1 for r in results if r > 0)`. */
  function CountPositive(results: seq<int>): nat {
    if results == [] then 0 else (if results[0] > 0 then 1 else 0) + CountPositive(results[1..])
  }

  /** `sum(1 for r in results if r < 0)`. */
  function CountNegative(results: seq<int>): nat {
    if results == [] then 0 else (if results[0] < 0 then 1 else 0) + CountNegative(results[1..])
  }

  /** The three row results, front, middle, back: 1 when mine wins, -1 when it loses, 0 on a tie. */
  function RowResults(mine: Layout, opp: Layout): seq<int>
    requires |mine.front| == 3 && |mine.middle| == 5 && |mine.back| == 5
    requires |opp.front| == 3 && |opp.middle| == 5 && |opp.back| == 5
  {
    [Compare3(mine.front, opp.front), Compare5(mine.middle, opp.middle), Compare5(mine.back, opp.back)]
  }

  /** Row points: one per row won, minus one per row lost, and 3 more for sweeping all three either way. */
  function RowPoints(results: seq<int>): int {
    var won, lost := CountPositive(results), CountNegative(results);
    var score := won - lost;
    if won == 3 then score + 3 else if lost == 3 then score - 3 else score
  }

  /** `score_head_to_head`: the net points my complete board earns against the opponent's. */
  function ScoreHeadToHead(mine: Layout, opp: Layout, cmf: FrontVsMiddle): (r: int)
    requires mine.IsComplete() && opp.IsComplete() && mine.RowsFit() && opp.RowsFit()
    ensures -103 <= r <= 103
    ensures mine.IsFouled(cmf) && opp.IsFouled(cmf) ==> r == 0
    ensures mine.IsFouled(cmf) && !opp.IsFouled(cmf) ==> r <= -6
    ensures !mine.IsFouled(cmf) && opp.IsFouled(cmf) ==> r >= 6
  {
    RowPointsSwapBoards(mine, opp);
    var myFouled, oppFouled := mine.IsFouled(cmf), opp.IsFouled(cmf);
    if myFouled && oppFouled then 0
    else if myFouled then -(6 + TotalRoyalties(opp, cmf))
    else if oppFouled then 6 + TotalRoyalties(mine, cmf)
    else RowPoints(RowResults(mine, opp)) + TotalRoyalties(mine, cmf) - TotalRoyalties(opp, cmf)
  }

  /** Swapping the boards negates every row result. */
  lemma RowResultsSwap(mine: Layout, opp: Layout)
    requires |mine.front| == 3 && |mine.middle| == 5 && |mine.back| == 5
    requires |opp.front| == 3 && |opp.middle| == 5 && |opp.back| == 5
    ensures Compare3(opp.front, mine.front) == -Compare3(mine.front, opp.front)
    ensures Compare5(opp.middle, mine.middle) == -Compare5(mine.middle, opp.middle)
    ensures Compare5(opp.back, mine.back) == -Compare5(mine.back, opp.back)
  {
    Compare3Antisymmetric(mine.front, opp.front);
    Compare5Antisymmetric(mine.middle, opp.middle);
    Compare5Antisymmetric(mine.back, opp.back);
  }

  /** Negating the results swaps the rows won and the rows lost. */
  lemma {:induction false} CountsSwap(a: seq<int>, b: seq<int>)
    requires |a| == |b| && forall i :: 0 <= i < |a| ==> b[i] == -a[i]
    ensures CountPositive(b) == CountNegative(a) && CountNegative(b) == CountPositive(a)
  {
    if a != [] {
      CountsSwap(a[1..], b[1..]);
    }
  }

  lemma {:induction false} CountsBound(a: seq<int>)
    ensures CountPositive(a) + CountNegative(a) <= |a|
  {
    if a != [] {
      CountsBound(a[1..]);
    }
  }

  /** Row points are antisymmetric, and one of -6, -2, -1, 0, 1, 2, 6. */
  lemma RowPointsSwap(a: seq<int>, b: seq<int>)
    requires |a| == |b| == 3 && b[0] == -a[0] && b[1] == -a[1] && b[2] == -a[2]
    ensures RowPoints(b) == -RowPoints(a)
    ensures RowPoints(a) in {-6, -2, -1, 0, 1, 2, 6}
  {
    assert forall i :: 0 <= i < |a| ==> b[i] == -a[i] by {
      forall i | 0 <= i < |a|
        ensures b[i] == -a[i]
      {
        assert i == 0 || i == 1 || i == 2;
      }
    }
    CountsSwap(a, b);
    CountsBound(a);
  }

  /** Negating the three row results negates the row points. */
  lemma RowPointsNegate(x: int, y: int, z: int)
    ensures RowPoints([-x, -y, -z]) == -RowPoints([x, y, z])
    ensures RowPoints([x, y, z]) in {-6, -2, -1, 0, 1, 2, 6}
  {
    RowPointsSwap([x, y, z], [-x, -y, -z]);
  }

  /** Swapping the boards negates the row points. */
  lemma RowPointsSwapBoards(mine: Layout, opp: Layout)
    requires |mine.front| == 3 && |mine.middle| == 5 && |mine.back| == 5
    requires |opp.front| == 3 && |opp.middle| == 5 && |opp.back| == 5
    ensures RowPoints(RowResults(opp, mine)) == -RowPoints(RowResults(mine, opp))
    ensures RowPoints(RowResults(mine, opp)) in {-6, -2, -1, 0, 1, 2, 6}
  {
    RowResultsSwap(mine, opp);
    RowPointsNegate(Compare3(mine.front, opp.front), Compare5(mine.middle, opp.middle), Compare5(mine.back, opp.back));
  }

  /** Head-to-head scoring is zero-sum: swapping the boards negates the score. */
  lemma ScoreAntisymmetric(mine: Layout, opp: Layout, cmf: FrontVsMiddle)
    requires mine.IsComplete() && opp.IsComplete() && mine.RowsFit() && opp.RowsFit()
    ensures ScoreHeadToHead(mine, opp, cmf) == -ScoreHeadToHead(opp, mine, cmf)
  {
    var fm, fo := mine.IsFouled(cmf), opp.IsFouled(cmf);
    var tm, to := TotalRoyalties(mine, cmf), TotalRoyalties(opp, cmf);
    if !fm && !fo {
      var p, q := RowPoints(RowResults(mine, opp)), RowPoints(RowResults(opp, mine));
      assert q == -p by {
        RowPointsSwapBoards(mine, opp);
      }
      assert ScoreHeadToHead(mine, opp, cmf) == p + tm - to;
      assert ScoreHeadToHead(opp, mine, cmf) == q + to - tm;
    }
  }

  /** Counting over three results, one row at a time. */
  lemma CountsOfThree(x: int, y: int, z: int)
    ensures CountPositive([x, y, z]) == (if x > 0 then 1 else 0) + (if y > 0 then 1 else 0) + (if z > 0 then 1 else 0)
    ensures CountNegative([x, y, z]) == (if x < 0 then 1 else 0) + (if y < 0 then 1 else 0) + (if z < 0 then 1 else 0)
  {
    assert [x, y, z][1..] == [y, z];
    assert [y, z][1..] == [z];
    assert [z][1..] == [];
    assert CountPositive([z]) == (if z > 0 then 1 else 0) + CountPositive([]);
    assert CountNegative([z]) == (if z < 0 then 1 else 0) + CountNegative([]);
  }

  /**
   * With both boards clean, the score is one point per row won (front by
   * `Compare3`, middle and back by `Compare5`) minus one per row lost, 3 more
   * for winning all three rows or 3 fewer for losing all three, plus my
   * royalties minus the opponent's.
   */
  lemma CleanScore(mine: Layout, opp: Layout, cmf: FrontVsMiddle)
    requires mine.IsComplete() && opp.IsComplete() && mine.RowsFit() && opp.RowsFit()
    requires !mine.IsFouled(cmf) && !opp.IsFouled(cmf)
    ensures var f, m, b := Compare3(mine.front, opp.front), Compare5(mine.middle, opp.middle), Compare5(mine.back, opp.back);
      var won := (if f > 0 then 1 else 0) + (if m > 0 then 1 else 0) + (if b > 0 then 1 else 0);
      var lost := (if f < 0 then 1 else 0) + (if m < 0 then 1 else 0) + (if b < 0 then 1 else 0);
      ScoreHeadToHead(mine, opp, cmf) ==
        won - lost + (if won == 3 then 3 else if lost == 3 then -3 else 0) +
        TotalRoyalties(mine, cmf) - TotalRoyalties(opp, cmf)
    ensures var d := ScoreHeadToHead(mine, opp, cmf) - (TotalRoyalties(mine, cmf) - TotalRoyalties(opp, cmf));
      d in {-6, -2, -1, 0, 1, 2, 6}
  {
    CountsOfThree(Compare3(mine.front, opp.front), Compare5(mine.middle, opp.middle), Compare5(mine.back, opp.back));
    RowPointsSwapBoards(mine, opp);
  }

  /** A fouled board pays 6 plus the clean opponent's royalties; two fouled boards exchange nothing. */
  lemma FoulScores(mine: Layout, opp: Layout, cmf: FrontVsMiddle)
    requires mine.IsComplete() && opp.IsComplete() && mine.RowsFit() && opp.RowsFit()
    ensures mine.IsFouled(cmf) && opp.IsFouled(cmf) ==> ScoreHeadToHead(mine, opp, cmf) == 0
    ensures mine.IsFouled(cmf) && !opp.IsFouled(cmf) ==>
      ScoreHeadToHead(mine, opp, cmf) == -(6 + RoyaltiesFront(opp.front) + RoyaltiesMiddle(opp.middle) + RoyaltiesBack(opp.back))
    ensures !mine.IsFouled(cmf) && opp.IsFouled(cmf) ==>
      ScoreHeadToHead(mine, opp, cmf) == 6 + RoyaltiesFront(mine.front) + RoyaltiesMiddle(mine.middle) + RoyaltiesBack(mine.back)
  {
  }

  // ---------------------------------------------------------------------------
  // Fantasyland
  // ---------------------------------------------------------------------------

  /** `qualifies_fantasyland`: a complete clean board whose front is trips, or a pair of Queens or better. */
  function QualifiesFantasyland(l: Layout, cmf: FrontVsMiddle): (b: bool)
    requires l.RowsFit()
    ensures b ==> l.IsComplete() && !l.IsFouled(cmf) && Evaluate3(l.front).cls != FRONT_HIGH_CARD
    ensures l.IsComplete() && !l.IsFouled(cmf) && Evaluate3(l.front).cls == FRONT_THREE_KIND ==> b
  {
    if !l.IsComplete() || l.IsFouled(cmf) then false
    else FrontQualifies(Evaluate3(l.front))
  }

  /** The front-row part of the entry rule: trips, or a pair of Queens (rank 10) or better. */
  predicate FrontQualifies(e: HandEval) {
    if e.cls == FRONT_THREE_KIND then true
    else if e.cls == FRONT_ONE_PAIR then e.value / 13 >= 10
    else false
  }

  /** `stays_fantasyland`: a complete clean board with front trips, a full house or better in the middle, or quads or better in the back. */
  function StaysFantasyland(l: Layout, cmf: FrontVsMiddle): (b: bool)
    requires l.RowsFit()
    ensures b <==>
      && l.IsComplete() && !l.IsFouled(cmf)
      && (Evaluate3(l.front).cls == FRONT_THREE_KIND || Evaluate5(l.middle).cls <= HAND_FULL_HOUSE ||
          Evaluate5(l.back).cls <= HAND_FOUR_KIND)
  {
    if !l.IsComplete() || l.IsFouled(cmf) then false
    else
      var front := Evaluate3(l.front).cls;
      var middle := Evaluate5(l.middle).cls;
      var back := Evaluate5(l.back).cls;
      if front == FRONT_THREE_KIND then true
      else if middle <= HAND_FULL_HOUSE then true
      else if back <= HAND_FOUR_KIND then true
      else false
  }

  /** Which front outcomes qualify: trips, or a pair of rank y of Queens or better. */
  lemma FrontOutcomeQualifies(x: int, y: int, z: int)
    requires 0 <= z <= y <= x < 13
    ensures FrontQualifies(FrontOutcome(x, y, z)) <==> x == z || ((x == y || y == z) && y >= 10)
  {
    if x != z && x == y {
      PairRankOfValue(x, z);
    } else if x != z && y == z {
      PairRankOfValue(y, x);
    }
  }

  /**
   * Fantasyland entry in terms of the front's sorted ranks r: trips, or a
   * pair (of rank r[1]) of Queens or better.
   */
  lemma QualifiesIff(l: Layout, cmf: FrontVsMiddle)
    requires l.IsComplete() && l.RowsFit()
    ensures var r := SortDesc(RanksOf(l.front));
      |r| == 3 &&
      (QualifiesFantasyland(l, cmf) <==>
        !l.IsFouled(cmf) && (r[0] == r[2] || ((r[0] == r[1] || r[1] == r[2]) && r[1] >= 10)))
  {
    var r := SortDesc(RanksOf(l.front));
    CompleteIffAllFull(l);
    Evaluate3Cases(l.front);
    FrontOutcomeQualifies(r[0], r[1], r[2]);
  }

  /** Five sorted ranks with flushness make quads, a straight flush or a royal flush. */
  predicate QuadsOrBetterRanks(a: int, b: int, c: int, d: int, e: int, flush: bool) {
    && a != e
    && (a == d || b == e ||
        (flush && a > b > c > d > e && (a - e == 4 || (a == 12 && b == 3 && c == 2 && d == 1 && e == 0))))
  }

  /** Five sorted ranks with flushness make a full house or better. */
  predicate FullHouseOrBetterRanks(a: int, b: int, c: int, d: int, e: int, flush: bool) {
    || QuadsOrBetterRanks(a, b, c, d, e, flush)
    || (a != e && ((a == c && d == e) || (a == b && c == e)))
  }

  /** The two stay thresholds on five sorted ranks, in terms of the ranks alone. */
  lemma Outcome5Thresholds(a: int, b: int, c: int, d: int, e: int, flush: bool)
    requires 0 <= e <= d <= c <= b <= a < 13
    ensures Outcome5(a, b, c, d, e, flush).cls <= HAND_FOUR_KIND <==> QuadsOrBetterRanks(a, b, c, d, e, flush)
    ensures Outcome5(a, b, c, d, e, flush).cls <= HAND_FULL_HOUSE <==> FullHouseOrBetterRanks(a, b, c, d, e, flush)
  {
  }

  /**
   * The stay rule in terms of each row's sorted ranks f, m, k and its
   * flushness: front trips, a full house or better in the middle, or quads
   * or better in the back, on a board that is not fouled.
   */
  lemma StaysIff(l: Layout, cmf: FrontVsMiddle)
    requires l.IsComplete() && l.RowsFit()
    ensures var f := SortDesc(RanksOf(l.front));
      var m := SortDesc(RanksOf(l.middle));
      var k := SortDesc(RanksOf(l.back));
      && |f| == 3 && |m| == 5 && |k| == 5
      && (StaysFantasyland(l, cmf) <==>
        && !l.IsFouled(cmf)
        && (|| f[0] == f[2]
            || FullHouseOrBetterRanks(m[0], m[1], m[2], m[3], m[4], IsFlush(l.middle))
            || QuadsOrBetterRanks(k[0], k[1], k[2], k[3], k[4], IsFlush(l.back))))
  {
    var m := SortDesc(RanksOf(l.middle));
    var k := SortDesc(RanksOf(l.back));
    CompleteIffAllFull(l);
    Evaluate3Cases(l.front);
    Evaluate5Cases(l.middle);
    Evaluate5Cases(l.back);
    Outcome5Thresholds(m[0], m[1], m[2], m[3], m[4], IsFlush(l.middle));
    Outcome5Thresholds(k[0], k[1], k[2], k[3], k[4], IsFlush(l.back));
  }

  /** A board that enters Fantasyland with front trips also stays there. */
  lemma TripsQualifyAndStay(l: Layout, cmf: FrontVsMiddle)
    requires l.RowsFit() && l.IsComplete() && !l.IsFouled(cmf)
    requires Evaluate3(l.front).cls == FRONT_THREE_KIND
    ensures QualifiesFantasyland(l, cmf) && StaysFantasyland(l, cmf)
  {
  }

  /** Neither rule admits an incomplete or fouled board. */
  lemma FantasylandNeedsCleanBoard(l: Layout, cmf: FrontVsMiddle)
    requires l.RowsFit()
    ensures QualifiesFantasyland(l, cmf) ==> l.IsComplete() && !l.IsFouled(cmf)
    ensures StaysFantasyland(l, cmf) ==> l.IsComplete() && !l.IsFouled(cmf)
  {
  }
}
