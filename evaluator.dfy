/**
 * Poker hand evaluation for the OFC rows.
 *
 * A five-card hand is put in one of ten classes (1 = Royal Flush best, 10 =
 * High Card worst) with a tie-break value where higher is better; a
 * three-card front hand is put in one of three classes (trips, pair, high
 * card). A single score `class * K - value` orders hands, lower being
 * better.
 *
 * Python's `Counter(ranks)` over the descending rank list is modelled by the
 * run-length groups of that list: a `Counter` iterates its keys in order of
 * first insertion, which for a descending list is descending rank order.
 */
module Evaluator {
  import opened Wrappers
  import opened Seqs
  import opened Cards

  const HAND_ROYAL_FLUSH := 1
  const HAND_STRAIGHT_FLUSH := 2
  const HAND_FOUR_KIND := 3
  const HAND_FULL_HOUSE := 4
  const HAND_FLUSH := 5
  const HAND_STRAIGHT := 6
  const HAND_THREE_KIND := 7
  const HAND_TWO_PAIR := 8
  const HAND_ONE_PAIR := 9
  const HAND_HIGH_CARD := 10

  const FRONT_THREE_KIND := 1
  const FRONT_ONE_PAIR := 2
  const FRONT_HIGH_CARD := 3

  /** 13^5: every five-card tie-break value lies below it. */
  const VALUE_BOUND_5 := 371293
  /** 13^3: every three-card tie-break value lies below it. */
  const VALUE_BOUND_3 := 2197

  /** `(hand_class, rank_value)`. */
  datatype HandEval = HandEval(cls: int, value: int)

  /** A rank occurring `count` times; the items of the `Counter`. */
  datatype Group = Group(rank: int, count: nat)

  // ---------------------------------------------------------------------------
  // Ranks, suits and counts
  // ---------------------------------------------------------------------------

  /** `[card_rank(c) for c in cards]`. */
  function RanksOf(cards: seq<Card>): (rs: seq<int>)
    ensures |rs| == |cards|
    ensures forall i :: 0 <= i < |cards| ==> rs[i] == CardRank(cards[i])
  {
    if cards == [] then [] else [CardRank(cards[0])] + RanksOf(cards[1..])
  }

  predicate ValidRanks(rs: seq<int>) {
    forall x :: x in rs ==> 0 <= x < 13
  }

  predicate ValidGroups(g: seq<Group>) {
    forall x :: x in g ==> 0 <= x.rank < 13
  }

  /** `set(card_suit(c) for c in cards)`. */
  function SuitSet(cards: seq<Card>): set<int> {
    set c | c in cards :: CardSuit(c)
  }

  /** `len(set(suits)) == 1`. */
  predicate IsFlush(cards: seq<Card>) {
    |SuitSet(cards)| == 1
  }

  /** The run-length groups of a list: `Counter` of a descending list, in its iteration order. */
  function Tally(s: seq<int>): (g: seq<Group>)
    ensures s != [] ==> g != [] && g[0].rank == s[0]
  {
    if s == [] then []
    else
      var t := Tally(s[1..]);
      if t != [] && t[0].rank == s[0] then [Group(s[0], t[0].count + 1)] + t[1..]
      else [Group(s[0], 1)] + t
  }

  /** Every group is a rank of the list, counted at least once. */
  lemma {:induction false} TallyMembers(s: seq<int>)
    ensures forall i :: 0 <= i < |Tally(s)| ==> Tally(s)[i].rank in s && Tally(s)[i].count >= 1
  {
    if s != [] {
      TallyMembers(s[1..]);
      assert forall x :: x in s[1..] ==> x in s;
    }
  }

  /** The groups of valid ranks are valid. */
  lemma TallyValid(s: seq<int>)
    requires ValidRanks(s)
    ensures ValidGroups(Tally(s))
  {
    TallyMembers(s);
  }

  /** The ranks of the groups: `sorted(set(ranks), reverse=True)` (see `UniqueRanksSorted`). */
  function GroupRanks(g: seq<Group>): (rs: seq<int>)
    ensures |rs| == |g| && forall i :: 0 <= i < |g| ==> rs[i] == g[i].rank
  {
    if g == [] then [] else [g[0].rank] + GroupRanks(g[1..])
  }

  /** `rank_counts.values()` in iteration order. */
  function CountsOf(g: seq<Group>): (cs: seq<int>)
    ensures |cs| == |g| && forall i :: 0 <= i < |g| ==> cs[i] == g[i].count
  {
    if g == [] then [] else [g[0].count as int] + CountsOf(g[1..])
  }

  /** `_rank_with_count` as a value: the first rank counted exactly n times, if any. */
  function FirstRankWithCount(g: seq<Group>, n: int): Option<int> {
    if g == [] then None
    else if g[0].count == n then Some(g[0].rank)
    else FirstRankWithCount(g[1..], n)
  }

  /** The lookup succeeds exactly when some group has count n, and then names such a group. */
  lemma {:induction false} FirstRankWithCountSpec(g: seq<Group>, n: int)
    ensures FirstRankWithCount(g, n).Some? <==> n in CountsOf(g)
    ensures FirstRankWithCount(g, n).Some? ==> Group(FirstRankWithCount(g, n).value, n) in g
  {
    if g != [] {
      assert CountsOf(g) == [g[0].count as int] + CountsOf(g[1..]);
      FirstRankWithCountSpec(g[1..], n);
    }
  }

  /** `_ranks_with_count`: every rank counted exactly n times, in iteration order. */
  function RanksWithCount(g: seq<Group>, n: int): seq<int> {
    if g == [] then []
    else (if g[0].count == n then [g[0].rank] else []) + RanksWithCount(g[1..], n)
  }

  /** One rank per group with count n, each naming such a group. */
  lemma {:induction false} RanksWithCountSpec(g: seq<Group>, n: int)
    ensures |RanksWithCount(g, n)| == multiset(CountsOf(g))[n]
    ensures forall x :: x in RanksWithCount(g, n) ==> Group(x, n) in g
  {
    if g != [] {
      assert CountsOf(g) == [g[0].count as int] + CountsOf(g[1..]);
      RanksWithCountSpec(g[1..], n);
    }
  }

  // ---------------------------------------------------------------------------
  // Base-13 packing (`_rank_key`)
  // ---------------------------------------------------------------------------

  /** `result = result * 13 + r` over the list, as a value. */
  function Base13(s: seq<int>): int {
    if s == [] then 0 else Base13(s[..|s| - 1]) * 13 + s[|s| - 1]
  }

  /** A list of ranks packs into a value below 13^|s|. */
  lemma {:induction false} Base13Bound(s: seq<int>)
    requires ValidRanks(s)
    ensures 0 <= Base13(s) < Pow(13, |s|)
  {
    if s != [] {
      var p := s[..|s| - 1];
      assert ValidRanks(p) by {
        forall x | x in p ensures 0 <= x < 13 {
          assert x in s;
        }
      }
      Base13Bound(p);
      PowUnfoldLast(|s|);
      assert s[|s| - 1] in s;
    }
  }

  lemma PowUnfoldLast(n: nat)
    requires n > 0
    ensures Pow(13, n) == Pow(13, n - 1) * 13
  {
  }

  /** Packing appends a digit: the earlier digits weigh more. */
  lemma Base13Append(s: seq<int>, x: int)
    ensures Base13(s + [x]) == Base13(s) * 13 + x
  {
    assert (s + [x])[..|s|] == s;
  }

  /** Equal-length rank lists compare lexicographically under packing. */
  lemma {:induction false} Base13Lex(a: seq<int>, b: seq<int>, k: nat)
    requires |a| == |b| && ValidRanks(a) && ValidRanks(b)
    requires k < |a| && a[..k] == b[..k] && a[k] > b[k]
    ensures Base13(a) > Base13(b)
    decreases |a|
  {
    var n := |a|;
    var pa, pb := a[..n - 1], b[..n - 1];
    assert a[n - 1] in a && b[n - 1] in b;
    assert ValidRanks(pa) && ValidRanks(pb) by {
      assert forall x :: x in pa ==> x in a;
      assert forall x :: x in pb ==> x in b;
    }
    if k == n - 1 {
      assert pa == a[..k] && pb == b[..k];
    } else {
      assert pa[..k] == a[..k] && pb[..k] == b[..k];
      Base13Lex(pa, pb, k);
      Base13Bound(pb);
      assert Base13(pa) >= Base13(pb) + 1;
    }
  }

  /** `_rank_key`: the loop over the sorted ranks. */
  method RankKey(sortedRanks: seq<int>) returns (result: int)
    ensures result == Base13(sortedRanks)
  {
    result := 0;
    var i := 0;
    while i < |sortedRanks|
      invariant 0 <= i <= |sortedRanks|
      invariant result == Base13(sortedRanks[..i])
    {
      assert sortedRanks[..i + 1][..i] == sortedRanks[..i];
      result := result * 13 + sortedRanks[i];
      i := i + 1;
    }
    assert sortedRanks[..i] == sortedRanks;
  }

  datatype NoRankWithCount = NoRankWithCount(n: int)

  /** `_rank_with_count`: scans the items, returns on the first match, raises when none matches. */
  method RankWithCount(counts: seq<Group>, n: int) returns (r: Result<int, NoRankWithCount>)
    ensures FirstRankWithCount(counts, n).Some? ==> r == Ok(FirstRankWithCount(counts, n).value)
    ensures FirstRankWithCount(counts, n).None? ==> r == Err(NoRankWithCount(n))
  {
    var i := 0;
    while i < |counts|
      invariant 0 <= i <= |counts|
      invariant FirstRankWithCount(counts, n) == FirstRankWithCount(counts[i..], n)
    {
      if counts[i].count == n {
        return Ok(counts[i].rank);
      }
      assert counts[i..][1..] == counts[i + 1..];
      i := i + 1;
    }
    return Err(NoRankWithCount(n));
  }

  // ---------------------------------------------------------------------------
  // Straights
  // ---------------------------------------------------------------------------

  /** The straight's high rank over the distinct ranks, with the A-2-3-4-5 wheel as 3. */
  function StraightHigh(unique: seq<int>): Option<int> {
    if |unique| != 5 then None
    else if unique[0] - unique[4] == 4 then Some(unique[0])
    else if unique == [12, 3, 2, 1, 0] then Some(3)
    else None
  }

  // ---------------------------------------------------------------------------
  // Five-card evaluation
  // ---------------------------------------------------------------------------

  /** Four of a kind: the quad rank, then the kicker. */
  function QuadsValue(g: seq<Group>): (v: int)
    requires ValidGroups(g) && multiset(CountsOf(g)) == multiset{4, 1}
    ensures 0 <= v < 169
  {
    FirstRankWithCountSpec(g, 4);
    FirstRankWithCountSpec(g, 1);
    assert 4 in multiset(CountsOf(g)) && 1 in multiset(CountsOf(g));
    var quad := FirstRankWithCount(g, 4).value;
    var kicker := FirstRankWithCount(g, 1).value;
    quad * 13 + kicker
  }

  /** Full house: the triple rank, then the pair rank. */
  function FullHouseValue(g: seq<Group>): (v: int)
    requires ValidGroups(g) && multiset(CountsOf(g)) == multiset{3, 2}
    ensures 0 <= v < 169
  {
    FirstRankWithCountSpec(g, 3);
    FirstRankWithCountSpec(g, 2);
    assert 3 in multiset(CountsOf(g)) && 2 in multiset(CountsOf(g));
    var triple := FirstRankWithCount(g, 3).value;
    var pair := FirstRankWithCount(g, 2).value;
    triple * 13 + pair
  }

  /** Three of a kind: the triple rank, then the two kickers high to low. */
  function TripsValue(g: seq<Group>): (v: int)
    requires ValidGroups(g) && multiset(CountsOf(g)) == multiset{3, 1, 1}
    ensures 0 <= v < 2197
  {
    FirstRankWithCountSpec(g, 3);
    RanksWithCountSpec(g, 1);
    assert 3 in multiset(CountsOf(g));
    var triple := FirstRankWithCount(g, 3).value;
    var kickers := SortDesc(RanksWithCount(g, 1));
    assert kickers[0] in kickers && kickers[1] in kickers;
    triple * 169 + kickers[0] * 13 + kickers[1]
  }

  /** Two pair: the pairs high to low, then the kicker. */
  function TwoPairValue(g: seq<Group>): (v: int)
    requires ValidGroups(g) && multiset(CountsOf(g)) == multiset{2, 2, 1}
    ensures 0 <= v < 2197
  {
    FirstRankWithCountSpec(g, 1);
    RanksWithCountSpec(g, 2);
    assert 1 in multiset(CountsOf(g));
    var pairs := SortDesc(RanksWithCount(g, 2));
    var kicker := FirstRankWithCount(g, 1).value;
    assert pairs[0] in pairs && pairs[1] in pairs;
    pairs[0] * 169 + pairs[1] * 13 + kicker
  }

  /** One pair: the pair rank, then the three kickers high to low. */
  function OnePairValue(g: seq<Group>): (v: int)
    requires ValidGroups(g) && multiset(CountsOf(g)) == multiset{2, 1, 1, 1}
    ensures 0 <= v < 28561
  {
    FirstRankWithCountSpec(g, 2);
    RanksWithCountSpec(g, 1);
    assert 2 in multiset(CountsOf(g));
    var pair := FirstRankWithCount(g, 2).value;
    var kickers := SortDesc(RanksWithCount(g, 1));
    assert kickers[0] in kickers && kickers[1] in kickers && kickers[2] in kickers;
    pair * 2197 + kickers[0] * 169 + kickers[1] * 13 + kickers[2]
  }

  /** A packed five-rank key lies below 13^5. */
  function RankKey5(ranks: seq<int>): (v: int)
    requires |ranks| == 5 && ValidRanks(ranks)
    ensures 0 <= v < VALUE_BOUND_5
  {
    Base13Bound(ranks);
    Base13(ranks)
  }

  /** What `evaluate_5` does once the ranks are sorted and the flush is known. */
  function Classify5(ranks: seq<int>, flush: bool): (r: HandEval)
    requires |ranks| == 5 && ValidRanks(ranks)
    ensures 1 <= r.cls <= 10 && 0 <= r.value < VALUE_BOUND_5
  {
    var g := Tally(ranks);
    var straight := StraightHigh(GroupRanks(g));
    TallyValid(ranks);
    assert straight.Some? ==> 0 <= straight.value < 13 by {
      if straight.Some? && straight.value != 3 {
        assert GroupRanks(g)[0] == g[0].rank;
      }
    }
    Decide5(ranks, g, straight, SortDesc(CountsOf(g)), flush)
  }

  /** The chain of tests of `evaluate_5`, in the source's order, given the groups, straight and counts. */
  function Decide5(ranks: seq<int>, g: seq<Group>, straight: Option<int>, counts: seq<int>, flush: bool): (r: HandEval)
    requires |ranks| == 5 && ValidRanks(ranks) && ValidGroups(g)
    requires multiset(counts) == multiset(CountsOf(g))
    requires straight.Some? ==> 0 <= straight.value < 13
    ensures 1 <= r.cls <= 10 && 0 <= r.value < VALUE_BOUND_5
  {
    if straight.Some? && flush then
      if straight.value == 12 then HandEval(HAND_ROYAL_FLUSH, RankKey5(ranks))
      else HandEval(HAND_STRAIGHT_FLUSH, straight.value)
    else if counts == [4, 1] then HandEval(HAND_FOUR_KIND, QuadsValue(g))
    else if counts == [3, 2] then HandEval(HAND_FULL_HOUSE, FullHouseValue(g))
    else if flush then HandEval(HAND_FLUSH, RankKey5(ranks))
    else if straight.Some? then HandEval(HAND_STRAIGHT, straight.value)
    else if counts == [3, 1, 1] then HandEval(HAND_THREE_KIND, TripsValue(g))
    else if counts == [2, 2, 1] then HandEval(HAND_TWO_PAIR, TwoPairValue(g))
    else if counts == [2, 1, 1, 1] then HandEval(HAND_ONE_PAIR, OnePairValue(g))
    else HandEval(HAND_HIGH_CARD, RankKey5(ranks))
  }

  /** `evaluate_5`: the hand class in 1..10 and a tie-break value below 13^5. */
  function Evaluate5(cards: seq<Card>): (r: HandEval)
    requires |cards| == 5
    ensures 1 <= r.cls <= 10 && 0 <= r.value < VALUE_BOUND_5
  {
    var ranks := SortDesc(RanksOf(cards));
    Classify5(ranks, IsFlush(cards))
  }

  /** `evaluate_5_score`: lower is better; each class owns a band of 100_000_000 scores. */
  function Evaluate5Score(cards: seq<Card>): (s: int)
    requires |cards| == 5
    ensures Evaluate5(cards).cls * 100_000_000 - VALUE_BOUND_5 < s <= Evaluate5(cards).cls * 100_000_000
  {
    var e := Evaluate5(cards);
    e.cls * 100_000_000 - e.value
  }

  /** `compare_5`: 1 when a wins, -1 when b wins, 0 on a tie. */
  function Compare5(a: seq<Card>, b: seq<Card>): (r: int)
    requires |a| == 5 && |b| == 5
    ensures -1 <= r <= 1
  {
    var sa, sb := Evaluate5Score(a), Evaluate5Score(b);
    if sa < sb then 1 else if sa > sb then -1 else 0
  }

  // ---------------------------------------------------------------------------
  // Three-card evaluation
  // ---------------------------------------------------------------------------

  /** What `evaluate_3` does once the ranks are sorted. */
  function Classify3(ranks: seq<int>): (r: HandEval)
    requires |ranks| == 3 && ValidRanks(ranks)
    ensures 1 <= r.cls <= 3 && 0 <= r.value < VALUE_BOUND_3
  {
    var g := Tally(ranks);
    TallyValid(ranks);
    Decide3(ranks, g, SortDesc(CountsOf(g)))
  }

  /** The chain of tests of `evaluate_3`, given the groups and the sorted counts. */
  function Decide3(ranks: seq<int>, g: seq<Group>, counts: seq<int>): (r: HandEval)
    requires |ranks| == 3 && ValidRanks(ranks) && ValidGroups(g)
    requires multiset(counts) == multiset(CountsOf(g))
    ensures 1 <= r.cls <= 3 && 0 <= r.value < VALUE_BOUND_3
  {
    assert ranks[0] in ranks && ranks[1] in ranks && ranks[2] in ranks;
    if counts == [3] then
      HandEval(FRONT_THREE_KIND, ranks[0])
    else if counts == [2, 1] then
      assert 2 in counts && 1 in counts;
      FirstRankWithCountSpec(g, 2);
      FirstRankWithCountSpec(g, 1);
      var pair := FirstRankWithCount(g, 2).value;
      var kicker := FirstRankWithCount(g, 1).value;
      HandEval(FRONT_ONE_PAIR, pair * 13 + kicker)
    else
      HandEval(FRONT_HIGH_CARD, ranks[0] * 169 + ranks[1] * 13 + ranks[2])
  }

  /** `evaluate_3`: trips, pair or high card; straights and flushes do not count. */
  function Evaluate3(cards: seq<Card>): (r: HandEval)
    requires |cards| == 3
    ensures 1 <= r.cls <= 3 && 0 <= r.value < VALUE_BOUND_3
  {
    Classify3(SortDesc(RanksOf(cards)))
  }

  /** `evaluate_3_score`: lower is better; each class owns a band of 100_000 scores. */
  function Evaluate3Score(cards: seq<Card>): (s: int)
    requires |cards| == 3
    ensures Evaluate3(cards).cls * 100_000 - VALUE_BOUND_3 < s <= Evaluate3(cards).cls * 100_000
  {
    var e := Evaluate3(cards);
    e.cls * 100_000 - e.value
  }

  /** `compare_3`: 1 when a wins, -1 when b wins, 0 on a tie. */
  function Compare3(a: seq<Card>, b: seq<Card>): (r: int)
    requires |a| == 3 && |b| == 3
    ensures -1 <= r <= 1
  {
    var sa, sb := Evaluate3Score(a), Evaluate3Score(b);
    if sa < sb then 1 else if sa > sb then -1 else 0
  }

  // ---------------------------------------------------------------------------
  // What the evaluation depends on
  // ---------------------------------------------------------------------------

  lemma RanksOfConcat(u: seq<Card>, v: seq<Card>)
    ensures RanksOf(u + v) == RanksOf(u) + RanksOf(v)
  {
    var l, r := RanksOf(u + v), RanksOf(u) + RanksOf(v);
    assert |l| == |r|;
    forall i | 0 <= i < |l| ensures l[i] == r[i] {
      if i < |u| {
        assert (u + v)[i] == u[i];
      } else {
        assert (u + v)[i] == v[i - |u|];
      }
    }
  }

  lemma RanksOfDrop(b: seq<Card>, i: nat)
    requires i < |b|
    ensures RanksOf(b[..i] + b[i + 1..]) == RanksOf(b)[..i] + RanksOf(b)[i + 1..]
  {
    var rest := b[..i] + b[i + 1..];
    var rr, ro := RanksOf(rest), RanksOf(b)[..i] + RanksOf(b)[i + 1..];
    assert |rr| == |ro| == |b| - 1;
    forall k | 0 <= k < |rr| ensures rr[k] == ro[k] {
      if k < i {
        assert rest[k] == b[k];
      } else {
        assert rest[k] == b[k + 1];
      }
    }
  }

  /** Taking the card at i out of a hand takes its rank out of the ranks. */
  lemma RanksOfRemove(b: seq<Card>, i: nat)
    requires i < |b|
    ensures multiset(RanksOf(b)) == multiset{CardRank(b[i])} + multiset(RanksOf(b[..i] + b[i + 1..]))
  {
    var rb := RanksOf(b);
    RanksOfDrop(b, i);
    MultisetRemove(rb, i);
    assert rb[i] in multiset(rb);
  }

  lemma MultisetRemove<T>(b: seq<T>, i: nat)
    requires i < |b|
    ensures multiset(b[..i] + b[i + 1..]) == multiset(b) - multiset{b[i]}
  {
    assert b == b[..i] + [b[i]] + b[i + 1..];
  }

  /** Removing the same card from two rearrangements of one hand leaves rearrangements. */
  lemma RemoveMatching<T>(a: seq<T>, b: seq<T>, i: nat)
    requires multiset(a) == multiset(b) && a != [] && i < |b| && b[i] == a[0]
    ensures multiset(a[1..]) == multiset(b[..i] + b[i + 1..])
  {
    MultisetRemove(a, 0);
    MultisetRemove(b, i);
    assert a[..0] + a[1..] == a[1..];
  }

  /** Rearranging the cards rearranges their ranks. */
  lemma {:induction false} RanksOfPermutation(a: seq<Card>, b: seq<Card>)
    requires multiset(a) == multiset(b)
    ensures multiset(RanksOf(a)) == multiset(RanksOf(b))
    decreases |a|
  {
    if a == [] {
      assert |b| == |multiset(b)| == 0;
    } else {
      assert a[0] in multiset(b);
      var i :| 0 <= i < |b| && b[i] == a[0];
      RemoveMatching(a, b, i);
      RanksOfPermutation(a[1..], b[..i] + b[i + 1..]);
      RanksOfRemove(b, i);
      RanksOfRemove(a, 0);
      assert a[..0] + a[1..] == a[1..];
    }
  }

  /** The ranks of real cards are valid ranks. */
  lemma RanksOfValid(cards: seq<Card>)
    ensures ValidRanks(RanksOf(cards))
  {
  }

  /** The sorted ranks of real cards are sorted valid ranks. */
  lemma SortedRanksValid(cards: seq<Card>)
    ensures var r := SortDesc(RanksOf(cards));
      |r| == |cards| && ValidRanks(r) && SortedDesc(r)
  {
  }

  /** Sorting makes the evaluation depend only on the multiset of ranks. */
  lemma SortedRanksEqual(a: seq<Card>, b: seq<Card>)
    requires multiset(RanksOf(a)) == multiset(RanksOf(b))
    ensures SortDesc(RanksOf(a)) == SortDesc(RanksOf(b))
  {
    SortedDescUnique(SortDesc(RanksOf(a)), SortDesc(RanksOf(b)));
  }

  /** A five-card evaluation depends only on the ranks and on whether the hand is a flush. */
  lemma Evaluate5Invariant(a: seq<Card>, b: seq<Card>)
    requires |a| == 5 && |b| == 5
    requires multiset(RanksOf(a)) == multiset(RanksOf(b)) && IsFlush(a) == IsFlush(b)
    ensures Evaluate5(a) == Evaluate5(b)
  {
    SortedRanksEqual(a, b);
  }

  /** Rearranging the five cards does not change the evaluation. */
  lemma Evaluate5Permutation(a: seq<Card>, b: seq<Card>)
    requires |a| == 5 && multiset(a) == multiset(b)
    ensures |b| == 5 && Evaluate5(a) == Evaluate5(b)
  {
    assert |b| == |multiset(b)| == |multiset(a)| == |a|;
    RanksOfPermutation(a, b);
    assert forall c :: c in a <==> c in b by {
      forall c ensures c in a <==> c in b {
        assert c in a <==> c in multiset(a);
        assert c in b <==> c in multiset(b);
      }
    }
    assert SuitSet(a) == SuitSet(b);
    Evaluate5Invariant(a, b);
  }

  /** A three-card evaluation depends only on the ranks: suits never matter. */
  lemma Evaluate3SuitBlind(a: seq<Card>, b: seq<Card>)
    requires |a| == 3 && |b| == 3
    requires multiset(RanksOf(a)) == multiset(RanksOf(b))
    ensures Evaluate3(a) == Evaluate3(b)
  {
    SortedRanksEqual(a, b);
  }

  /** Rearranging the three cards does not change the evaluation. */
  lemma Evaluate3Permutation(a: seq<Card>, b: seq<Card>)
    requires |a| == 3 && multiset(a) == multiset(b)
    ensures |b| == 3 && Evaluate3(a) == Evaluate3(b)
  {
    assert |b| == |multiset(b)| == |multiset(a)| == |a|;
    RanksOfPermutation(a, b);
    Evaluate3SuitBlind(a, b);
  }

  /** `len(set(suits)) == 1` says that every card has the suit of the first. */
  lemma FlushIffOneSuit(cards: seq<Card>)
    requires |cards| > 0
    ensures IsFlush(cards) <==> forall i :: 0 <= i < |cards| ==> CardSuit(cards[i]) == CardSuit(cards[0])
  {
    var s0 := CardSuit(cards[0]);
    var S := SuitSet(cards);
    assert s0 in S;
    if forall i :: 0 <= i < |cards| ==> CardSuit(cards[i]) == s0 {
      assert S == {s0};
    }
    if IsFlush(cards) {
      forall i | 0 <= i < |cards| ensures CardSuit(cards[i]) == s0 {
        var si := CardSuit(cards[i]);
        assert si in S;
        if si != s0 {
          assert {s0, si} <= S;
          assert |{s0, si}| == 2;
          SubsetSize({s0, si}, S);
        }
      }
    }
  }

  lemma SubsetSize(a: set<int>, b: set<int>)
    requires a <= b
    ensures |a| <= |b|
  {
    assert b == a + (b - a);
  }

  // ---------------------------------------------------------------------------
  // Distinct ranks, straights and straight flushes
  // ---------------------------------------------------------------------------

  predicate StrictlyDesc(s: seq<int>) {
    forall i, j :: 0 <= i < j < |s| ==> s[i] > s[j]
  }

  /** Distinct descending ranks each form a group of one. */
  lemma {:induction false} TallyDistinct(s: seq<int>)
    requires StrictlyDesc(s)
    ensures |Tally(s)| == |s|
    ensures forall i :: 0 <= i < |s| ==> Tally(s)[i] == Group(s[i], 1)
  {
    if s != [] {
      assert StrictlyDesc(s[1..]) by {
        forall i, j | 0 <= i < j < |s| - 1 ensures s[1..][i] > s[1..][j] {
          assert s[1..][i] == s[i + 1] && s[1..][j] == s[j + 1];
        }
      }
      TallyDistinct(s[1..]);
      var t := Tally(s[1..]);
      if t != [] {
        assert t[0].rank == s[1] < s[0];
      }
      assert Tally(s) == [Group(s[0], 1)] + t;
    }
  }

  lemma StrictlyDescCons(x: int, u: seq<int>)
    requires StrictlyDesc(u) && forall y :: y in u ==> y < x
    ensures StrictlyDesc([x] + u)
  {
    var r := [x] + u;
    forall i, j | 0 <= i < j < |r| ensures r[i] > r[j] {
      if i == 0 {
        assert r[j] == u[j - 1] && u[j - 1] in u;
      } else {
        assert r[i] == u[i - 1] && r[j] == u[j - 1];
      }
    }
  }

  lemma TallyJoinShape(s: seq<int>)
    requires s != [] && Tally(s[1..]) != [] && Tally(s[1..])[0].rank == s[0]
    ensures Tally(s) == [Group(s[0], Tally(s[1..])[0].count + 1)] + Tally(s[1..])[1..]
  {
  }

  /** The first rank joins the first group of the rest. */
  lemma TallyJoins(s: seq<int>)
    requires s != [] && Tally(s[1..]) != [] && Tally(s[1..])[0].rank == s[0]
    ensures GroupRanks(Tally(s)) == GroupRanks(Tally(s[1..]))
  {
    var t := Tally(s[1..]);
    TallyJoinShape(s);
    assert GroupRanks([Group(s[0], t[0].count + 1)] + t[1..]) == [s[0]] + GroupRanks(t[1..]);
    assert GroupRanks(t) == [t[0].rank] + GroupRanks(t[1..]);
  }

  /** The first rank starts a group of its own. */
  lemma TallyStarts(s: seq<int>)
    requires s != [] && !(Tally(s[1..]) != [] && Tally(s[1..])[0].rank == s[0])
    ensures Tally(s) == [Group(s[0], 1)] + Tally(s[1..])
    ensures GroupRanks(Tally(s)) == [s[0]] + GroupRanks(Tally(s[1..]))
  {
    assert Tally(s) == [Group(s[0], 1)] + Tally(s[1..]);
    assert GroupRanks([Group(s[0], 1)] + Tally(s[1..])) == [s[0]] + GroupRanks(Tally(s[1..]));
  }

  /** In a descending list whose first two ranks differ, every later rank is below the first. */
  lemma BelowHead(s: seq<int>)
    requires SortedDesc(s) && |s| >= 2 && s[1] != s[0]
    ensures forall x :: x in s[1..] ==> x < s[0]
  {
    forall x | x in s[1..] ensures x < s[0] {
      var k :| 0 <= k < |s| - 1 && s[1..][k] == x;
      assert s[k + 1] == x;
      assert s[1] >= s[k + 1];
    }
  }

  /**
   * Over a descending list the group ranks are `sorted(set(ranks), reverse=True)`:
   * strictly descending, and holding exactly the ranks of the list.
   */
  lemma {:induction false} UniqueRanksSorted(s: seq<int>)
    requires SortedDesc(s)
    ensures StrictlyDesc(GroupRanks(Tally(s)))
    ensures forall x :: x in GroupRanks(Tally(s)) <==> x in s
  {
    if s != [] {
      var tail := s[1..];
      SortedTail(s);
      UniqueRanksSorted(tail);
      var t := Tally(tail);
      assert forall x :: x in s <==> x == s[0] || x in tail by {
        assert s == [s[0]] + tail;
      }
      if t != [] && t[0].rank == s[0] {
        TallyJoins(s);
      } else {
        TallyStarts(s);
        if t != [] {
          assert t[0].rank == s[1];
          BelowHead(s);
        }
        StrictlyDescCons(s[0], GroupRanks(t));
      }
    }
  }

  /** Every group's count is the multiplicity of its rank in m. */
  predicate Counted(m: multiset<int>, g: seq<Group>) {
    forall i :: 0 <= i < |g| ==> g[i].count == m[g[i].rank]
  }

  lemma CountedJoin(x: int, m: multiset<int>, t: seq<Group>, g: seq<Group>)
    requires t != [] && t[0].rank == x && g == [Group(x, t[0].count + 1)] + t[1..]
    requires Counted(m, t) && StrictlyDesc(GroupRanks(t))
    ensures Counted(m + multiset{x}, g)
  {
    forall i | 0 <= i < |g| ensures g[i].count == (m + multiset{x})[g[i].rank] {
      if i > 0 {
        assert g[i] == t[i];
        assert GroupRanks(t)[0] > GroupRanks(t)[i];
      }
    }
  }

  lemma CountedStart(x: int, m: multiset<int>, t: seq<Group>, g: seq<Group>)
    requires x !in m && g == [Group(x, 1)] + t
    requires Counted(m, t) && forall i :: 0 <= i < |t| ==> t[i].rank in m
    ensures Counted(m + multiset{x}, g)
  {
    forall i | 0 <= i < |g| ensures g[i].count == (m + multiset{x})[g[i].rank] {
      if i > 0 {
        assert g[i] == t[i - 1];
      }
    }
  }

  /** Each group counts its rank: `rank_counts[r]` is the number of times r occurs. */
  lemma {:induction false} TallyCounts(s: seq<int>)
    requires SortedDesc(s)
    ensures Counted(multiset(s), Tally(s))
  {
    if s != [] {
      var tail := s[1..];
      SortedTail(s);
      TallyCounts(tail);
      var t := Tally(tail);
      assert multiset(s) == multiset(tail) + multiset{s[0]} by {
        assert s == [s[0]] + tail;
      }
      if t != [] && t[0].rank == s[0] {
        UniqueRanksSorted(tail);
        TallyJoinShape(s);
        CountedJoin(s[0], multiset(tail), t, Tally(s));
      } else {
        if t != [] {
          assert t[0].rank == s[1];
          BelowHead(s);
        }
        assert s[0] !in multiset(tail);
        TallyMembers(tail);
        TallyStarts(s);
        CountedStart(s[0], multiset(tail), t, Tally(s));
      }
    }
  }

  /** Distinct ranks are their own groups, each counted once. */
  lemma DistinctGroups(ranks: seq<int>)
    requires StrictlyDesc(ranks)
    ensures GroupRanks(Tally(ranks)) == ranks && |CountsOf(Tally(ranks))| == |ranks|
  {
    TallyDistinct(ranks);
  }

  /** With five groups no count test fires: only the straight and the flush decide. */
  lemma DecideDistinct(ranks: seq<int>, g: seq<Group>, straight: Option<int>, counts: seq<int>, flush: bool)
    requires |ranks| == 5 && ValidRanks(ranks) && ValidGroups(g)
    requires multiset(counts) == multiset(CountsOf(g))
    requires straight.Some? ==> 0 <= straight.value < 13
    requires |counts| == 5
    ensures Decide5(ranks, g, straight, counts, flush) ==
      if straight.Some? && flush then
        (if straight.value == 12 then HandEval(HAND_ROYAL_FLUSH, Base13(ranks))
         else HandEval(HAND_STRAIGHT_FLUSH, straight.value))
      else if flush then HandEval(HAND_FLUSH, Base13(ranks))
      else if straight.Some? then HandEval(HAND_STRAIGHT, straight.value)
      else HandEval(HAND_HIGH_CARD, Base13(ranks))
  {
  }

  /** Five distinct ranks: only the straight and flush tests can fire. */
  lemma Classify5Distinct(ranks: seq<int>, flush: bool)
    requires |ranks| == 5 && ValidRanks(ranks) && StrictlyDesc(ranks)
    ensures var straight := StraightHigh(ranks);
      Classify5(ranks, flush) ==
        if straight.Some? && flush then
          (if straight.value == 12 then HandEval(HAND_ROYAL_FLUSH, Base13(ranks))
           else HandEval(HAND_STRAIGHT_FLUSH, straight.value))
        else if flush then HandEval(HAND_FLUSH, Base13(ranks))
        else if straight.Some? then HandEval(HAND_STRAIGHT, straight.value)
        else HandEval(HAND_HIGH_CARD, Base13(ranks))
  {
    DistinctGroups(ranks);
    TallyValid(ranks);
    var g := Tally(ranks);
    var counts := SortDesc(CountsOf(g));
    assert |counts| == 5 && multiset(counts) == multiset(CountsOf(g));
    assert ranks[0] in ranks;
    DecideDistinct(ranks, g, StraightHigh(ranks), counts, flush);
  }

  /** Five consecutive ranks form a straight; of one suit, a straight flush, and a royal flush when Ace-high. */
  lemma ConsecutiveRanks(high: int, flush: bool)
    requires 4 <= high < 13
    ensures var ranks := [high, high - 1, high - 2, high - 3, high - 4];
      Classify5(ranks, flush) ==
        if !flush then HandEval(HAND_STRAIGHT, high)
        else if high == 12 then HandEval(HAND_ROYAL_FLUSH, Base13(ranks))
        else HandEval(HAND_STRAIGHT_FLUSH, high)
  {
    var ranks := [high, high - 1, high - 2, high - 3, high - 4];
    assert StrictlyDesc(ranks);
    assert StraightHigh(ranks) == Some(high);
    Classify5Distinct(ranks, flush);
  }

  /** The A-2-3-4-5 wheel is a straight (or straight flush) whose high rank is the Five. */
  lemma Wheel(flush: bool)
    ensures Classify5([12, 3, 2, 1, 0], flush) ==
      if flush then HandEval(HAND_STRAIGHT_FLUSH, 3) else HandEval(HAND_STRAIGHT, 3)
  {
    var ranks := [12, 3, 2, 1, 0];
    assert StrictlyDesc(ranks);
    Classify5Distinct(ranks, flush);
  }

  // ---------------------------------------------------------------------------
  // Paired ranks: the five-card outcome spelled out
  // ---------------------------------------------------------------------------

  /** A rank in front of a list whose groups do not start with it starts a group of its own. */
  lemma TallyNew(x: int, s: seq<int>, t: seq<Group>, l: seq<int>)
    requires l == [x] + s && Tally(s) == t && (t == [] || t[0].rank != x)
    ensures Tally(l) == [Group(x, 1)] + t
  {
    assert l[1..] == s;
  }

  /** A rank in front of a list whose groups start with it joins the first group. */
  lemma TallySame(x: int, s: seq<int>, t: seq<Group>, l: seq<int>)
    requires l == [x] + s && Tally(s) == t && t != [] && t[0].rank == x
    ensures Tally(l) == [Group(x, t[0].count + 1)] + t[1..]
  {
    assert l[1..] == s;
  }

  lemma TallyFiveOfARank(x: int)
    ensures Tally([x, x, x, x, x]) == [Group(x, 5)]
  {
    TallyNew(x, [], [], [x]);
    TallySame(x, [x], [Group(x, 1)], [x, x]);
    TallySame(x, [x, x], [Group(x, 2)], [x, x, x]);
    TallySame(x, [x, x, x], [Group(x, 3)], [x, x, x, x]);
    TallySame(x, [x, x, x, x], [Group(x, 4)], [x, x, x, x, x]);
  }

  lemma TallyQuadsHigh(x: int, y: int)
    requires x != y
    ensures Tally([x, x, x, x, y]) == [Group(x, 4), Group(y, 1)]
  {
    TallyNew(y, [], [], [y]);
    TallyNew(x, [y], [Group(y, 1)], [x, y]);
    TallySame(x, [x, y], [Group(x, 1), Group(y, 1)], [x, x, y]);
    TallySame(x, [x, x, y], [Group(x, 2), Group(y, 1)], [x, x, x, y]);
    TallySame(x, [x, x, x, y], [Group(x, 3), Group(y, 1)], [x, x, x, x, y]);
  }

  lemma TallyQuadsLow(y: int, x: int)
    requires y != x
    ensures Tally([y, x, x, x, x]) == [Group(y, 1), Group(x, 4)]
  {
    TallyNew(x, [], [], [x]);
    TallySame(x, [x], [Group(x, 1)], [x, x]);
    TallySame(x, [x, x], [Group(x, 2)], [x, x, x]);
    TallySame(x, [x, x, x], [Group(x, 3)], [x, x, x, x]);
    TallyNew(y, [x, x, x, x], [Group(x, 4)], [y, x, x, x, x]);
  }

  lemma TallyFullHigh(x: int, y: int)
    requires x != y
    ensures Tally([x, x, x, y, y]) == [Group(x, 3), Group(y, 2)]
  {
    TallyNew(y, [], [], [y]);
    TallySame(y, [y], [Group(y, 1)], [y, y]);
    TallyNew(x, [y, y], [Group(y, 2)], [x, y, y]);
    TallySame(x, [x, y, y], [Group(x, 1), Group(y, 2)], [x, x, y, y]);
    TallySame(x, [x, x, y, y], [Group(x, 2), Group(y, 2)], [x, x, x, y, y]);
  }

  lemma TallyFullLow(y: int, x: int)
    requires y != x
    ensures Tally([y, y, x, x, x]) == [Group(y, 2), Group(x, 3)]
  {
    TallyNew(x, [], [], [x]);
    TallySame(x, [x], [Group(x, 1)], [x, x]);
    TallySame(x, [x, x], [Group(x, 2)], [x, x, x]);
    TallyNew(y, [x, x, x], [Group(x, 3)], [y, x, x, x]);
    TallySame(y, [y, x, x, x], [Group(y, 1), Group(x, 3)], [y, y, x, x, x]);
  }

  lemma TallyTripsFirst(t: int, k: int, l: int)
    requires t != k && k != l
    ensures Tally([t, t, t, k, l]) == [Group(t, 3), Group(k, 1), Group(l, 1)]
  {
    TallyNew(l, [], [], [l]);
    TallyNew(k, [l], [Group(l, 1)], [k, l]);
    TallyNew(t, [k, l], [Group(k, 1), Group(l, 1)], [t, k, l]);
    TallySame(t, [t, k, l], [Group(t, 1), Group(k, 1), Group(l, 1)], [t, t, k, l]);
    TallySame(t, [t, t, k, l], [Group(t, 2), Group(k, 1), Group(l, 1)], [t, t, t, k, l]);
  }

  lemma TallyTripsMiddle(k: int, t: int, l: int)
    requires k != t && t != l
    ensures Tally([k, t, t, t, l]) == [Group(k, 1), Group(t, 3), Group(l, 1)]
  {
    TallyNew(l, [], [], [l]);
    TallyNew(t, [l], [Group(l, 1)], [t, l]);
    TallySame(t, [t, l], [Group(t, 1), Group(l, 1)], [t, t, l]);
    TallySame(t, [t, t, l], [Group(t, 2), Group(l, 1)], [t, t, t, l]);
    TallyNew(k, [t, t, t, l], [Group(t, 3), Group(l, 1)], [k, t, t, t, l]);
  }

  lemma TallyTripsLast(k: int, l: int, t: int)
    requires k != l && l != t
    ensures Tally([k, l, t, t, t]) == [Group(k, 1), Group(l, 1), Group(t, 3)]
  {
    TallyNew(t, [], [], [t]);
    TallySame(t, [t], [Group(t, 1)], [t, t]);
    TallySame(t, [t, t], [Group(t, 2)], [t, t, t]);
    TallyNew(l, [t, t, t], [Group(t, 3)], [l, t, t, t]);
    TallyNew(k, [l, t, t, t], [Group(l, 1), Group(t, 3)], [k, l, t, t, t]);
  }

  lemma TallyTwoPairKickerLast(p: int, q: int, k: int)
    requires p != q && q != k
    ensures Tally([p, p, q, q, k]) == [Group(p, 2), Group(q, 2), Group(k, 1)]
  {
    TallyNew(k, [], [], [k]);
    TallyNew(q, [k], [Group(k, 1)], [q, k]);
    TallySame(q, [q, k], [Group(q, 1), Group(k, 1)], [q, q, k]);
    TallyNew(p, [q, q, k], [Group(q, 2), Group(k, 1)], [p, q, q, k]);
    TallySame(p, [p, q, q, k], [Group(p, 1), Group(q, 2), Group(k, 1)], [p, p, q, q, k]);
  }

  lemma TallyTwoPairKickerMiddle(p: int, k: int, q: int)
    requires p != k && k != q
    ensures Tally([p, p, k, q, q]) == [Group(p, 2), Group(k, 1), Group(q, 2)]
  {
    TallyNew(q, [], [], [q]);
    TallySame(q, [q], [Group(q, 1)], [q, q]);
    TallyNew(k, [q, q], [Group(q, 2)], [k, q, q]);
    TallyNew(p, [k, q, q], [Group(k, 1), Group(q, 2)], [p, k, q, q]);
    TallySame(p, [p, k, q, q], [Group(p, 1), Group(k, 1), Group(q, 2)], [p, p, k, q, q]);
  }

  lemma TallyTwoPairKickerFirst(k: int, p: int, q: int)
    requires k != p && p != q
    ensures Tally([k, p, p, q, q]) == [Group(k, 1), Group(p, 2), Group(q, 2)]
  {
    TallyNew(q, [], [], [q]);
    TallySame(q, [q], [Group(q, 1)], [q, q]);
    TallyNew(p, [q, q], [Group(q, 2)], [p, q, q]);
    TallySame(p, [p, q, q], [Group(p, 1), Group(q, 2)], [p, p, q, q]);
    TallyNew(k, [p, p, q, q], [Group(p, 2), Group(q, 2)], [k, p, p, q, q]);
  }

  lemma TallyPairFirst(p: int, k: int, l: int, m: int)
    requires p != k && k != l && l != m
    ensures Tally([p, p, k, l, m]) == [Group(p, 2), Group(k, 1), Group(l, 1), Group(m, 1)]
  {
    TallyNew(m, [], [], [m]);
    TallyNew(l, [m], [Group(m, 1)], [l, m]);
    TallyNew(k, [l, m], [Group(l, 1), Group(m, 1)], [k, l, m]);
    TallyNew(p, [k, l, m], [Group(k, 1), Group(l, 1), Group(m, 1)], [p, k, l, m]);
    TallySame(p, [p, k, l, m], [Group(p, 1), Group(k, 1), Group(l, 1), Group(m, 1)], [p, p, k, l, m]);
  }

  lemma TallyPairSecond(k: int, p: int, l: int, m: int)
    requires k != p && p != l && l != m
    ensures Tally([k, p, p, l, m]) == [Group(k, 1), Group(p, 2), Group(l, 1), Group(m, 1)]
  {
    TallyNew(m, [], [], [m]);
    TallyNew(l, [m], [Group(m, 1)], [l, m]);
    TallyNew(p, [l, m], [Group(l, 1), Group(m, 1)], [p, l, m]);
    TallySame(p, [p, l, m], [Group(p, 1), Group(l, 1), Group(m, 1)], [p, p, l, m]);
    TallyNew(k, [p, p, l, m], [Group(p, 2), Group(l, 1), Group(m, 1)], [k, p, p, l, m]);
  }

  lemma TallyPairThird(k: int, l: int, p: int, m: int)
    requires k != l && l != p && p != m
    ensures Tally([k, l, p, p, m]) == [Group(k, 1), Group(l, 1), Group(p, 2), Group(m, 1)]
  {
    TallyNew(m, [], [], [m]);
    TallyNew(p, [m], [Group(m, 1)], [p, m]);
    TallySame(p, [p, m], [Group(p, 1), Group(m, 1)], [p, p, m]);
    TallyNew(l, [p, p, m], [Group(p, 2), Group(m, 1)], [l, p, p, m]);
    TallyNew(k, [l, p, p, m], [Group(l, 1), Group(p, 2), Group(m, 1)], [k, l, p, p, m]);
  }

  lemma TallyPairLast(k: int, l: int, m: int, p: int)
    requires k != l && l != m && m != p
    ensures Tally([k, l, m, p, p]) == [Group(k, 1), Group(l, 1), Group(m, 1), Group(p, 2)]
  {
    TallyNew(p, [], [], [p]);
    TallySame(p, [p], [Group(p, 1)], [p, p]);
    TallyNew(m, [p, p], [Group(p, 2)], [m, p, p]);
    TallyNew(l, [m, p, p], [Group(m, 1), Group(p, 2)], [l, m, p, p]);
    TallyNew(k, [l, m, p, p], [Group(l, 1), Group(m, 1), Group(p, 2)], [k, l, m, p, p]);
  }

  /** Sorting a list yields the descending list holding the same elements. */
  lemma SortDescIs(s: seq<int>, t: seq<int>)
    requires SortedDesc(t) && multiset(s) == multiset(t)
    ensures SortDesc(s) == t
  {
    SortedDescUnique(SortDesc(s), t);
  }

  /** The count patterns, each sorted from the largest count down and equal as multisets to its display. */
  lemma PatternSorted(counts: seq<int>)
    requires counts in {[5], [4, 1], [3, 2], [3, 1, 1], [2, 2, 1], [2, 1, 1, 1]}
    ensures SortedDesc(counts)
    ensures counts == [3, 1, 1] ==> multiset(counts) == multiset{3, 1, 1}
    ensures counts == [2, 2, 1] ==> multiset(counts) == multiset{2, 2, 1}
    ensures counts == [2, 1, 1, 1] ==> multiset(counts) == multiset{2, 1, 1, 1}
  {
    forall i, j | 0 <= i < j < |counts| ensures counts[i] >= counts[j] {
    }
    assert [3, 1, 1] == [3] + [1] + [1];
    assert [2, 2, 1] == [2] + [2] + [1];
    assert [2, 1, 1, 1] == [2] + [1] + [1] + [1];
  }


  /** Fewer than five groups rule out a straight: the chain starts at the count tests. */
  lemma ClassifyByGroups(ranks: seq<int>, flush: bool, g: seq<Group>, counts: seq<int>)
    requires |ranks| == 5 && ValidRanks(ranks) && Tally(ranks) == g && |g| < 5
    requires SortedDesc(counts) && multiset(counts) == multiset(CountsOf(g))
    ensures ValidGroups(g)
    ensures Classify5(ranks, flush) == Decide5(ranks, g, None, counts, flush)
  {
    TallyValid(ranks);
    SortDescIs(CountsOf(g), counts);
  }

  /** `_rank_key` of five ranks written out. */
  function Key5(a: int, b: int, c: int, d: int, e: int): int {
    a * 28561 + b * 2197 + c * 169 + d * 13 + e
  }

  lemma Base13Five(a: int, b: int, c: int, d: int, e: int)
    ensures Base13([a, b, c, d, e]) == Key5(a, b, c, d, e)
  {
    Base13Append([], a);
    assert [] + [a] == [a];
    Base13Append([a], b);
    assert [a] + [b] == [a, b];
    Base13Append([a, b], c);
    assert [a, b] + [c] == [a, b, c];
    Base13Append([a, b, c], d);
    assert [a, b, c] + [d] == [a, b, c, d];
    Base13Append([a, b, c, d], e);
    assert [a, b, c, d] + [e] == [a, b, c, d, e];
  }

  /** One step of `CountsOf`, `FirstRankWithCount` and `RanksWithCount`. */
  lemma GroupsCons(x: Group, s: seq<Group>, l: seq<Group>, n: int)
    requires l == [x] + s
    ensures CountsOf(l) == [x.count as int] + CountsOf(s)
    ensures FirstRankWithCount(l, n) == if x.count == n then Some(x.rank) else FirstRankWithCount(s, n)
    ensures RanksWithCount(l, n) == (if x.count == n then [x.rank] else []) + RanksWithCount(s, n)
  {
    assert l[1..] == s;
  }

  /** The branches of `evaluate_5` once no straight is possible. */
  lemma DecideNoStraight(ranks: seq<int>, g: seq<Group>, counts: seq<int>, flush: bool)
    requires |ranks| == 5 && ValidRanks(ranks) && ValidGroups(g)
    requires multiset(counts) == multiset(CountsOf(g))
    ensures counts == [4, 1] ==> Decide5(ranks, g, None, counts, flush) == HandEval(HAND_FOUR_KIND, QuadsValue(g))
    ensures counts == [3, 2] ==> Decide5(ranks, g, None, counts, flush) == HandEval(HAND_FULL_HOUSE, FullHouseValue(g))
    ensures counts != [4, 1] && counts != [3, 2] && flush ==>
      Decide5(ranks, g, None, counts, flush) == HandEval(HAND_FLUSH, Base13(ranks))
    ensures counts == [3, 1, 1] && !flush ==>
      Decide5(ranks, g, None, counts, flush) == HandEval(HAND_THREE_KIND, TripsValue(g))
    ensures counts == [2, 2, 1] && !flush ==>
      Decide5(ranks, g, None, counts, flush) == HandEval(HAND_TWO_PAIR, TwoPairValue(g))
    ensures counts == [2, 1, 1, 1] && !flush ==>
      Decide5(ranks, g, None, counts, flush) == HandEval(HAND_ONE_PAIR, OnePairValue(g))
    ensures counts == [5] && !flush ==> Decide5(ranks, g, None, counts, flush) == HandEval(HAND_HIGH_CARD, Base13(ranks))
  {
  }

  lemma SortTwo(k: int, l: int)
    requires k >= l
    ensures SortDesc([k, l]) == [k, l]
  {
    SortDescIs([k, l], [k, l]);
  }

  lemma SortThree(k: int, l: int, m: int)
    requires k >= l >= m
    ensures SortDesc([k, l, m]) == [k, l, m]
  {
    var s := [k, l, m];
    assert SortedDesc(s) by {
      forall i, j | 0 <= i < j < 3 ensures s[i] >= s[j] {
      }
    }
    SortDescIs(s, s);
  }

  /** The value of four of a kind, from the two lookups. */
  lemma QuadsValueOf(g: seq<Group>, q: int, k: int)
    requires ValidGroups(g) && multiset(CountsOf(g)) == multiset{4, 1}
    requires FirstRankWithCount(g, 4) == Some(q) && FirstRankWithCount(g, 1) == Some(k)
    ensures QuadsValue(g) == q * 13 + k
  {
  }

  lemma FullHouseValueOf(g: seq<Group>, t: int, p: int)
    requires ValidGroups(g) && multiset(CountsOf(g)) == multiset{3, 2}
    requires FirstRankWithCount(g, 3) == Some(t) && FirstRankWithCount(g, 2) == Some(p)
    ensures FullHouseValue(g) == t * 13 + p
  {
  }

  lemma TripsValueOf(g: seq<Group>, t: int, k: int, l: int)
    requires ValidGroups(g) && multiset(CountsOf(g)) == multiset{3, 1, 1} && k > l
    requires FirstRankWithCount(g, 3) == Some(t) && RanksWithCount(g, 1) == [k, l]
    ensures TripsValue(g) == t * 169 + k * 13 + l
  {
    SortTwo(k, l);
  }

  lemma TwoPairValueOf(g: seq<Group>, p: int, q: int, k: int)
    requires ValidGroups(g) && multiset(CountsOf(g)) == multiset{2, 2, 1} && p > q
    requires RanksWithCount(g, 2) == [p, q] && FirstRankWithCount(g, 1) == Some(k)
    ensures TwoPairValue(g) == p * 169 + q * 13 + k
  {
    SortTwo(p, q);
  }

  lemma OnePairValueOf(g: seq<Group>, p: int, k: int, l: int, m: int)
    requires ValidGroups(g) && multiset(CountsOf(g)) == multiset{2, 1, 1, 1} && k > l > m
    requires FirstRankWithCount(g, 2) == Some(p) && RanksWithCount(g, 1) == [k, l, m]
    ensures OnePairValue(g) == p * 2197 + k * 169 + l * 13 + m
  {
    SortThree(k, l, m);
  }

  /** The counts and the rank lookups of two literal groups. */
  lemma Groups2(g: seq<Group>, x: Group, y: Group, n: int)
    requires g == [x, y]
    ensures CountsOf(g) == [x.count, y.count]
    ensures FirstRankWithCount(g, n) ==
      if x.count == n then Some(x.rank) else if y.count == n then Some(y.rank) else None
    ensures RanksWithCount(g, n) == (if x.count == n then [x.rank] else []) + (if y.count == n then [y.rank] else [])
  {
    GroupsCons(y, [], [y], n);
    GroupsCons(x, [y], g, n);
  }

  /** The counts and the rank lookups of three literal groups. */
  lemma Groups3(g: seq<Group>, x: Group, y: Group, z: Group, n: int)
    requires g == [x, y, z]
    ensures CountsOf(g) == [x.count, y.count, z.count]
    ensures FirstRankWithCount(g, n) ==
      if x.count == n then Some(x.rank) else if y.count == n then Some(y.rank)
      else if z.count == n then Some(z.rank) else None
    ensures RanksWithCount(g, n) ==
      (if x.count == n then [x.rank] else []) + (if y.count == n then [y.rank] else []) +
      (if z.count == n then [z.rank] else [])
  {
    Groups2([y, z], y, z, n);
    GroupsCons(x, [y, z], g, n);
  }

  /** The counts and the rank lookups of four literal groups. */
  lemma Groups4(g: seq<Group>, w: Group, x: Group, y: Group, z: Group, n: int)
    requires g == [w, x, y, z]
    ensures CountsOf(g) == [w.count, x.count, y.count, z.count]
    ensures FirstRankWithCount(g, n) ==
      if w.count == n then Some(w.rank) else if x.count == n then Some(x.rank)
      else if y.count == n then Some(y.rank) else if z.count == n then Some(z.rank) else None
    ensures RanksWithCount(g, n) ==
      (if w.count == n then [w.rank] else []) + (if x.count == n then [x.rank] else []) +
      (if y.count == n then [y.rank] else []) + (if z.count == n then [z.rank] else [])
  {
    Groups3([x, y, z], x, y, z, n);
    GroupsCons(w, [x, y, z], g, n);
  }

  /** Five equal ranks (a hand with a repeated card): no count test fires. */
  lemma FiveOfARank(ranks: seq<int>, x: int, flush: bool)
    requires 0 <= x < 13 && ranks == [x, x, x, x, x]
    ensures Classify5(ranks, flush) ==
      if flush then HandEval(HAND_FLUSH, Base13(ranks)) else HandEval(HAND_HIGH_CARD, Base13(ranks))
  {
    var g := [Group(x, 5)];
    FiveValid(ranks, x, x, x, x, x);
    TallyFiveOfARank(x);
    assert CountsOf(g) == [5] by {
      assert g[1..] == [];
    }
    assert multiset(CountsOf(g)) == multiset{5};
    ClassifyByGroups(ranks, flush, g, [5]);
    DecideNoStraight(ranks, g, [5], flush);
  }

  /** Four of a kind above its kicker. */
  lemma QuadsHigh(ranks: seq<int>, x: int, y: int, flush: bool)
    requires 0 <= y < x < 13 && ranks == [x, x, x, x, y]
    ensures Classify5(ranks, flush) ==
      HandEval(HAND_FOUR_KIND, x * 13 + y)
  {
    var g := [Group(x, 4), Group(y, 1)];
    FiveValid(ranks, x, x, x, x, y);
    TallyQuadsHigh(x, y);
    Groups2(g, g[0], g[1], 4);
    Groups2(g, g[0], g[1], 1);
    assert multiset(CountsOf(g)) == multiset{4, 1};
    ClassifyByGroups(ranks, flush, g, [4, 1]);
    DecideNoStraight(ranks, g, [4, 1], flush);
    QuadsValueOf(g, x, y);
  }

  /** Four of a kind below its kicker. */
  lemma QuadsLow(ranks: seq<int>, y: int, x: int, flush: bool)
    requires 0 <= x < y < 13 && ranks == [y, x, x, x, x]
    ensures Classify5(ranks, flush) ==
      HandEval(HAND_FOUR_KIND, x * 13 + y)
  {
    var g := [Group(y, 1), Group(x, 4)];
    FiveValid(ranks, y, x, x, x, x);
    TallyQuadsLow(y, x);
    Groups2(g, g[0], g[1], 4);
    Groups2(g, g[0], g[1], 1);
    assert multiset(CountsOf(g)) == multiset{4, 1};
    ClassifyByGroups(ranks, flush, g, [4, 1]);
    DecideNoStraight(ranks, g, [4, 1], flush);
    QuadsValueOf(g, x, y);
  }

  /** A full house whose triple is above its pair. */
  lemma FullHouseHigh(ranks: seq<int>, x: int, y: int, flush: bool)
    requires 0 <= y < x < 13 && ranks == [x, x, x, y, y]
    ensures Classify5(ranks, flush) ==
      HandEval(HAND_FULL_HOUSE, x * 13 + y)
  {
    var g := [Group(x, 3), Group(y, 2)];
    FiveValid(ranks, x, x, x, y, y);
    TallyFullHigh(x, y);
    Groups2(g, g[0], g[1], 3);
    Groups2(g, g[0], g[1], 2);
    assert multiset(CountsOf(g)) == multiset{3, 2};
    ClassifyByGroups(ranks, flush, g, [3, 2]);
    DecideNoStraight(ranks, g, [3, 2], flush);
    FullHouseValueOf(g, x, y);
  }

  /** A full house whose triple is below its pair. */
  lemma FullHouseLow(ranks: seq<int>, y: int, x: int, flush: bool)
    requires 0 <= x < y < 13 && ranks == [y, y, x, x, x]
    ensures Classify5(ranks, flush) ==
      HandEval(HAND_FULL_HOUSE, x * 13 + y)
  {
    var g := [Group(y, 2), Group(x, 3)];
    FiveValid(ranks, y, y, x, x, x);
    TallyFullLow(y, x);
    Groups2(g, g[0], g[1], 3);
    Groups2(g, g[0], g[1], 2);
    assert multiset(CountsOf(g)) == multiset{3, 2};
    ClassifyByGroups(ranks, flush, g, [3, 2]);
    DecideNoStraight(ranks, g, [3, 2], flush);
    FullHouseValueOf(g, x, y);
  }

  /** Five ranks in range make a valid rank sequence. */
  lemma FiveValid(ranks: seq<int>, a: int, b: int, c: int, d: int, e: int)
    requires ranks == [a, b, c, d, e] && 0 <= a < 13 && 0 <= b < 13 && 0 <= c < 13 && 0 <= d < 13 && 0 <= e < 13
    ensures ValidRanks(ranks)
  {
    forall x | x in ranks ensures 0 <= x < 13 {
    }
  }

  /** The orders of the count pattern of three of a kind, as one multiset. */
  lemma TripsCounts(c: seq<int>)
    requires c in {[3, 1, 1], [1, 3, 1], [1, 1, 3]}
    ensures multiset(c) == multiset{3, 1, 1}
  {
    assert c == [c[0]] + [c[1]] + [c[2]];
  }

  /** The orders of the count pattern of two pair, as one multiset. */
  lemma TwoPairCounts(c: seq<int>)
    requires c in {[2, 2, 1], [2, 1, 2], [1, 2, 2]}
    ensures multiset(c) == multiset{2, 2, 1}
  {
    assert c == [c[0]] + [c[1]] + [c[2]];
  }

  /** The orders of the count pattern of one pair, as one multiset. */
  lemma PairCounts(c: seq<int>)
    requires c in {[2, 1, 1, 1], [1, 2, 1, 1], [1, 1, 2, 1], [1, 1, 1, 2]}
    ensures multiset(c) == multiset{2, 1, 1, 1}
  {
    assert c == [c[0]] + [c[1]] + [c[2]] + [c[3]];
  }

  /** The facts that make `ranks` three of a kind: its groups `g` hold a triple of rank `t` and kickers `k` above `l`. */
  predicate TripsShape(ranks: seq<int>, g: seq<Group>, t: int, k: int, l: int) {
    |ranks| == 5 && ValidRanks(ranks) && Tally(ranks) == g && |g| == 3 && k > l &&
    multiset(CountsOf(g)) == multiset{3, 1, 1} &&
    FirstRankWithCount(g, 3) == Some(t) && RanksWithCount(g, 1) == [k, l]
  }

  /** Three of a kind, whatever the order of its groups. */
  lemma ClassifyTrips(ranks: seq<int>, g: seq<Group>, t: int, k: int, l: int, flush: bool)
    requires TripsShape(ranks, g, t, k, l)
    ensures Classify5(ranks, flush) ==
      if flush then HandEval(HAND_FLUSH, Base13(ranks)) else HandEval(HAND_THREE_KIND, t * 169 + k * 13 + l)
  {
    PatternSorted([3, 1, 1]);
    ClassifyByGroups(ranks, flush, g, [3, 1, 1]);
    DecideNoStraight(ranks, g, [3, 1, 1], flush);
    TripsValueOf(g, t, k, l);
  }

  /** The facts that make `ranks` two pair: its groups `g` hold pairs of ranks `p` above `q` and kicker `k`. */
  predicate TwoPairShape(ranks: seq<int>, g: seq<Group>, p: int, q: int, k: int) {
    |ranks| == 5 && ValidRanks(ranks) && Tally(ranks) == g && |g| == 3 && p > q &&
    multiset(CountsOf(g)) == multiset{2, 2, 1} &&
    RanksWithCount(g, 2) == [p, q] && FirstRankWithCount(g, 1) == Some(k)
  }

  /** Two pair, whatever the order of its groups. */
  lemma ClassifyTwoPair(ranks: seq<int>, g: seq<Group>, p: int, q: int, k: int, flush: bool)
    requires TwoPairShape(ranks, g, p, q, k)
    ensures Classify5(ranks, flush) ==
      if flush then HandEval(HAND_FLUSH, Base13(ranks)) else HandEval(HAND_TWO_PAIR, p * 169 + q * 13 + k)
  {
    PatternSorted([2, 2, 1]);
    ClassifyByGroups(ranks, flush, g, [2, 2, 1]);
    DecideNoStraight(ranks, g, [2, 2, 1], flush);
    TwoPairValueOf(g, p, q, k);
  }

  /** The facts that make `ranks` one pair: its groups `g` hold a pair of rank `p` and kickers `k` above `l` above `m`. */
  predicate PairShape(ranks: seq<int>, g: seq<Group>, p: int, k: int, l: int, m: int) {
    |ranks| == 5 && ValidRanks(ranks) && Tally(ranks) == g && |g| == 4 && k > l > m &&
    multiset(CountsOf(g)) == multiset{2, 1, 1, 1} &&
    FirstRankWithCount(g, 2) == Some(p) && RanksWithCount(g, 1) == [k, l, m]
  }

  /** One pair, whatever the order of its groups. */
  lemma ClassifyPair(ranks: seq<int>, g: seq<Group>, p: int, k: int, l: int, m: int, flush: bool)
    requires PairShape(ranks, g, p, k, l, m)
    ensures Classify5(ranks, flush) ==
      if flush then HandEval(HAND_FLUSH, Base13(ranks)) else HandEval(HAND_ONE_PAIR, p * 2197 + k * 169 + l * 13 + m)
  {
    PatternSorted([2, 1, 1, 1]);
    ClassifyByGroups(ranks, flush, g, [2, 1, 1, 1]);
    DecideNoStraight(ranks, g, [2, 1, 1, 1], flush);
    OnePairValueOf(g, p, k, l, m);
  }

  /** The groups of the shape `tttkl`. */
  lemma TripsFirstGroups(ranks: seq<int>, t: int, k: int, l: int, g: seq<Group>)
    requires 0 <= l < k < t < 13 && ranks == [t, t, t, k, l] && g == [Group(t, 3), Group(k, 1), Group(l, 1)]
    ensures TripsShape(ranks, g, t, k, l)
  {
    assert Tally(ranks) == g by {
      TallyTripsFirst(t, k, l);
    }
    assert FirstRankWithCount(g, 3) == Some(t) by {
      Groups3(g, g[0], g[1], g[2], 3);
    }
    assert RanksWithCount(g, 1) == [k, l] by {
      Groups3(g, g[0], g[1], g[2], 1);
    }
    assert CountsOf(g) == [3, 1, 1] by {
      Groups3(g, g[0], g[1], g[2], 1);
    }
    TripsCounts(CountsOf(g));
    FiveValid(ranks, t, t, t, k, l);
  }

  /** Three of a kind above both kickers. */
  lemma TripsFirst(ranks: seq<int>, t: int, k: int, l: int, flush: bool)
    requires 0 <= l < k < t < 13 && ranks == [t, t, t, k, l]
    ensures Classify5(ranks, flush) ==
      if flush then HandEval(HAND_FLUSH, Base13(ranks)) else HandEval(HAND_THREE_KIND, t * 169 + k * 13 + l)
  {
    var g := [Group(t, 3), Group(k, 1), Group(l, 1)];
    TripsFirstGroups(ranks, t, k, l, g);
    ClassifyTrips(ranks, g, t, k, l, flush);
  }

  /** The groups of the shape `ktttl`. */
  lemma TripsMiddleGroups(ranks: seq<int>, k: int, t: int, l: int, g: seq<Group>)
    requires 0 <= l < t < k < 13 && ranks == [k, t, t, t, l] && g == [Group(k, 1), Group(t, 3), Group(l, 1)]
    ensures TripsShape(ranks, g, t, k, l)
  {
    assert Tally(ranks) == g by {
      TallyTripsMiddle(k, t, l);
    }
    assert FirstRankWithCount(g, 3) == Some(t) by {
      Groups3(g, g[0], g[1], g[2], 3);
    }
    assert RanksWithCount(g, 1) == [k, l] by {
      Groups3(g, g[0], g[1], g[2], 1);
    }
    assert CountsOf(g) == [1, 3, 1] by {
      Groups3(g, g[0], g[1], g[2], 1);
    }
    TripsCounts(CountsOf(g));
    FiveValid(ranks, k, t, t, t, l);
  }

  /** Three of a kind between the kickers. */
  lemma TripsMiddle(ranks: seq<int>, k: int, t: int, l: int, flush: bool)
    requires 0 <= l < t < k < 13 && ranks == [k, t, t, t, l]
    ensures Classify5(ranks, flush) ==
      if flush then HandEval(HAND_FLUSH, Base13(ranks)) else HandEval(HAND_THREE_KIND, t * 169 + k * 13 + l)
  {
    var g := [Group(k, 1), Group(t, 3), Group(l, 1)];
    TripsMiddleGroups(ranks, k, t, l, g);
    ClassifyTrips(ranks, g, t, k, l, flush);
  }

  /** The groups of the shape `klttt`. */
  lemma TripsLastGroups(ranks: seq<int>, k: int, l: int, t: int, g: seq<Group>)
    requires 0 <= t < l < k < 13 && ranks == [k, l, t, t, t] && g == [Group(k, 1), Group(l, 1), Group(t, 3)]
    ensures TripsShape(ranks, g, t, k, l)
  {
    assert Tally(ranks) == g by {
      TallyTripsLast(k, l, t);
    }
    assert FirstRankWithCount(g, 3) == Some(t) by {
      Groups3(g, g[0], g[1], g[2], 3);
    }
    assert RanksWithCount(g, 1) == [k, l] by {
      Groups3(g, g[0], g[1], g[2], 1);
    }
    assert CountsOf(g) == [1, 1, 3] by {
      Groups3(g, g[0], g[1], g[2], 1);
    }
    TripsCounts(CountsOf(g));
    FiveValid(ranks, k, l, t, t, t);
  }

  /** Three of a kind below both kickers. */
  lemma TripsLast(ranks: seq<int>, k: int, l: int, t: int, flush: bool)
    requires 0 <= t < l < k < 13 && ranks == [k, l, t, t, t]
    ensures Classify5(ranks, flush) ==
      if flush then HandEval(HAND_FLUSH, Base13(ranks)) else HandEval(HAND_THREE_KIND, t * 169 + k * 13 + l)
  {
    var g := [Group(k, 1), Group(l, 1), Group(t, 3)];
    TripsLastGroups(ranks, k, l, t, g);
    ClassifyTrips(ranks, g, t, k, l, flush);
  }

  /** The groups of the shape `ppqqk`. */
  lemma TwoPairKickerLastGroups(ranks: seq<int>, p: int, q: int, k: int, g: seq<Group>)
    requires 0 <= k < q < p < 13 && ranks == [p, p, q, q, k] && g == [Group(p, 2), Group(q, 2), Group(k, 1)]
    ensures TwoPairShape(ranks, g, p, q, k)
  {
    assert Tally(ranks) == g by {
      TallyTwoPairKickerLast(p, q, k);
    }
    assert RanksWithCount(g, 2) == [p, q] by {
      Groups3(g, g[0], g[1], g[2], 2);
    }
    assert FirstRankWithCount(g, 1) == Some(k) by {
      Groups3(g, g[0], g[1], g[2], 1);
    }
    assert CountsOf(g) == [2, 2, 1] by {
      Groups3(g, g[0], g[1], g[2], 1);
    }
    TwoPairCounts(CountsOf(g));
    FiveValid(ranks, p, p, q, q, k);
  }

  /** Two pair above the kicker. */
  lemma TwoPairKickerLast(ranks: seq<int>, p: int, q: int, k: int, flush: bool)
    requires 0 <= k < q < p < 13 && ranks == [p, p, q, q, k]
    ensures Classify5(ranks, flush) ==
      if flush then HandEval(HAND_FLUSH, Base13(ranks)) else HandEval(HAND_TWO_PAIR, p * 169 + q * 13 + k)
  {
    var g := [Group(p, 2), Group(q, 2), Group(k, 1)];
    TwoPairKickerLastGroups(ranks, p, q, k, g);
    ClassifyTwoPair(ranks, g, p, q, k, flush);
  }

  /** The groups of the shape `ppkqq`. */
  lemma TwoPairKickerMiddleGroups(ranks: seq<int>, p: int, k: int, q: int, g: seq<Group>)
    requires 0 <= q < k < p < 13 && ranks == [p, p, k, q, q] && g == [Group(p, 2), Group(k, 1), Group(q, 2)]
    ensures TwoPairShape(ranks, g, p, q, k)
  {
    assert Tally(ranks) == g by {
      TallyTwoPairKickerMiddle(p, k, q);
    }
    assert RanksWithCount(g, 2) == [p, q] by {
      Groups3(g, g[0], g[1], g[2], 2);
    }
    assert FirstRankWithCount(g, 1) == Some(k) by {
      Groups3(g, g[0], g[1], g[2], 1);
    }
    assert CountsOf(g) == [2, 1, 2] by {
      Groups3(g, g[0], g[1], g[2], 1);
    }
    TwoPairCounts(CountsOf(g));
    FiveValid(ranks, p, p, k, q, q);
  }

  /** Two pair with the kicker between the pairs. */
  lemma TwoPairKickerMiddle(ranks: seq<int>, p: int, k: int, q: int, flush: bool)
    requires 0 <= q < k < p < 13 && ranks == [p, p, k, q, q]
    ensures Classify5(ranks, flush) ==
      if flush then HandEval(HAND_FLUSH, Base13(ranks)) else HandEval(HAND_TWO_PAIR, p * 169 + q * 13 + k)
  {
    var g := [Group(p, 2), Group(k, 1), Group(q, 2)];
    TwoPairKickerMiddleGroups(ranks, p, k, q, g);
    ClassifyTwoPair(ranks, g, p, q, k, flush);
  }

  /** The groups of the shape `kppqq`. */
  lemma TwoPairKickerFirstGroups(ranks: seq<int>, k: int, p: int, q: int, g: seq<Group>)
    requires 0 <= q < p < k < 13 && ranks == [k, p, p, q, q] && g == [Group(k, 1), Group(p, 2), Group(q, 2)]
    ensures TwoPairShape(ranks, g, p, q, k)
  {
    assert Tally(ranks) == g by {
      TallyTwoPairKickerFirst(k, p, q);
    }
    assert RanksWithCount(g, 2) == [p, q] by {
      Groups3(g, g[0], g[1], g[2], 2);
    }
    assert FirstRankWithCount(g, 1) == Some(k) by {
      Groups3(g, g[0], g[1], g[2], 1);
    }
    assert CountsOf(g) == [1, 2, 2] by {
      Groups3(g, g[0], g[1], g[2], 1);
    }
    TwoPairCounts(CountsOf(g));
    FiveValid(ranks, k, p, p, q, q);
  }

  /** Two pair below the kicker. */
  lemma TwoPairKickerFirst(ranks: seq<int>, k: int, p: int, q: int, flush: bool)
    requires 0 <= q < p < k < 13 && ranks == [k, p, p, q, q]
    ensures Classify5(ranks, flush) ==
      if flush then HandEval(HAND_FLUSH, Base13(ranks)) else HandEval(HAND_TWO_PAIR, p * 169 + q * 13 + k)
  {
    var g := [Group(k, 1), Group(p, 2), Group(q, 2)];
    TwoPairKickerFirstGroups(ranks, k, p, q, g);
    ClassifyTwoPair(ranks, g, p, q, k, flush);
  }

  /** The groups of the shape `ppklm`. */
  lemma PairFirstGroups(ranks: seq<int>, p: int, k: int, l: int, m: int, g: seq<Group>)
    requires 0 <= m < l < k < p < 13 && ranks == [p, p, k, l, m] && g == [Group(p, 2), Group(k, 1), Group(l, 1), Group(m, 1)]
    ensures PairShape(ranks, g, p, k, l, m)
  {
    assert Tally(ranks) == g by {
      TallyPairFirst(p, k, l, m);
    }
    assert FirstRankWithCount(g, 2) == Some(p) by {
      Groups4(g, g[0], g[1], g[2], g[3], 2);
    }
    assert RanksWithCount(g, 1) == [k, l, m] by {
      Groups4(g, g[0], g[1], g[2], g[3], 1);
    }
    assert CountsOf(g) == [2, 1, 1, 1] by {
      Groups4(g, g[0], g[1], g[2], g[3], 1);
    }
    PairCounts(CountsOf(g));
    FiveValid(ranks, p, p, k, l, m);
  }

  /** One pair above the three kickers. */
  lemma PairFirst(ranks: seq<int>, p: int, k: int, l: int, m: int, flush: bool)
    requires 0 <= m < l < k < p < 13 && ranks == [p, p, k, l, m]
    ensures Classify5(ranks, flush) ==
      if flush then HandEval(HAND_FLUSH, Base13(ranks)) else HandEval(HAND_ONE_PAIR, p * 2197 + k * 169 + l * 13 + m)
  {
    var g := [Group(p, 2), Group(k, 1), Group(l, 1), Group(m, 1)];
    PairFirstGroups(ranks, p, k, l, m, g);
    ClassifyPair(ranks, g, p, k, l, m, flush);
  }

  /** The groups of the shape `kpplm`. */
  lemma PairSecondGroups(ranks: seq<int>, k: int, p: int, l: int, m: int, g: seq<Group>)
    requires 0 <= m < l < p < k < 13 && ranks == [k, p, p, l, m] && g == [Group(k, 1), Group(p, 2), Group(l, 1), Group(m, 1)]
    ensures PairShape(ranks, g, p, k, l, m)
  {
    assert Tally(ranks) == g by {
      TallyPairSecond(k, p, l, m);
    }
    assert FirstRankWithCount(g, 2) == Some(p) by {
      Groups4(g, g[0], g[1], g[2], g[3], 2);
    }
    assert RanksWithCount(g, 1) == [k, l, m] by {
      Groups4(g, g[0], g[1], g[2], g[3], 1);
    }
    assert CountsOf(g) == [1, 2, 1, 1] by {
      Groups4(g, g[0], g[1], g[2], g[3], 1);
    }
    PairCounts(CountsOf(g));
    FiveValid(ranks, k, p, p, l, m);
  }

  /** One pair below the first kicker. */
  lemma PairSecond(ranks: seq<int>, k: int, p: int, l: int, m: int, flush: bool)
    requires 0 <= m < l < p < k < 13 && ranks == [k, p, p, l, m]
    ensures Classify5(ranks, flush) ==
      if flush then HandEval(HAND_FLUSH, Base13(ranks)) else HandEval(HAND_ONE_PAIR, p * 2197 + k * 169 + l * 13 + m)
  {
    var g := [Group(k, 1), Group(p, 2), Group(l, 1), Group(m, 1)];
    PairSecondGroups(ranks, k, p, l, m, g);
    ClassifyPair(ranks, g, p, k, l, m, flush);
  }

  /** The groups of the shape `klppm`. */
  lemma PairThirdGroups(ranks: seq<int>, k: int, l: int, p: int, m: int, g: seq<Group>)
    requires 0 <= m < p < l < k < 13 && ranks == [k, l, p, p, m] && g == [Group(k, 1), Group(l, 1), Group(p, 2), Group(m, 1)]
    ensures PairShape(ranks, g, p, k, l, m)
  {
    assert Tally(ranks) == g by {
      TallyPairThird(k, l, p, m);
    }
    assert FirstRankWithCount(g, 2) == Some(p) by {
      Groups4(g, g[0], g[1], g[2], g[3], 2);
    }
    assert RanksWithCount(g, 1) == [k, l, m] by {
      Groups4(g, g[0], g[1], g[2], g[3], 1);
    }
    assert CountsOf(g) == [1, 1, 2, 1] by {
      Groups4(g, g[0], g[1], g[2], g[3], 1);
    }
    PairCounts(CountsOf(g));
    FiveValid(ranks, k, l, p, p, m);
  }

  /** One pair above the last kicker only. */
  lemma PairThird(ranks: seq<int>, k: int, l: int, p: int, m: int, flush: bool)
    requires 0 <= m < p < l < k < 13 && ranks == [k, l, p, p, m]
    ensures Classify5(ranks, flush) ==
      if flush then HandEval(HAND_FLUSH, Base13(ranks)) else HandEval(HAND_ONE_PAIR, p * 2197 + k * 169 + l * 13 + m)
  {
    var g := [Group(k, 1), Group(l, 1), Group(p, 2), Group(m, 1)];
    PairThirdGroups(ranks, k, l, p, m, g);
    ClassifyPair(ranks, g, p, k, l, m, flush);
  }

  /** The groups of the shape `klmpp`. */
  lemma PairLastGroups(ranks: seq<int>, k: int, l: int, m: int, p: int, g: seq<Group>)
    requires 0 <= p < m < l < k < 13 && ranks == [k, l, m, p, p] && g == [Group(k, 1), Group(l, 1), Group(m, 1), Group(p, 2)]
    ensures PairShape(ranks, g, p, k, l, m)
  {
    assert Tally(ranks) == g by {
      TallyPairLast(k, l, m, p);
    }
    assert FirstRankWithCount(g, 2) == Some(p) by {
      Groups4(g, g[0], g[1], g[2], g[3], 2);
    }
    assert RanksWithCount(g, 1) == [k, l, m] by {
      Groups4(g, g[0], g[1], g[2], g[3], 1);
    }
    assert CountsOf(g) == [1, 1, 1, 2] by {
      Groups4(g, g[0], g[1], g[2], g[3], 1);
    }
    PairCounts(CountsOf(g));
    FiveValid(ranks, k, l, m, p, p);
  }

  /** One pair below the three kickers. */
  lemma PairLast(ranks: seq<int>, k: int, l: int, m: int, p: int, flush: bool)
    requires 0 <= p < m < l < k < 13 && ranks == [k, l, m, p, p]
    ensures Classify5(ranks, flush) ==
      if flush then HandEval(HAND_FLUSH, Base13(ranks)) else HandEval(HAND_ONE_PAIR, p * 2197 + k * 169 + l * 13 + m)
  {
    var g := [Group(k, 1), Group(l, 1), Group(m, 1), Group(p, 2)];
    PairLastGroups(ranks, k, l, m, p, g);
    ClassifyPair(ranks, g, p, k, l, m, flush);
  }


  /**
   * The five-card outcome spelled out for sorted ranks a >= b >= c >= d >= e:
   * the rank pattern decides the class and the tie-break value, in the order
   * `evaluate_5` tests them.
   */
  function Outcome5(a: int, b: int, c: int, d: int, e: int, flush: bool): HandEval {
    var key := Key5(a, b, c, d, e);
    if a == e then (if flush then HandEval(HAND_FLUSH, key) else HandEval(HAND_HIGH_CARD, key))
    else if a == d then HandEval(HAND_FOUR_KIND, a * 13 + e)
    else if b == e then HandEval(HAND_FOUR_KIND, b * 13 + a)
    else if a == c && d == e then HandEval(HAND_FULL_HOUSE, a * 13 + d)
    else if a == b && c == e then HandEval(HAND_FULL_HOUSE, c * 13 + a)
    else if a > b > c > d > e then
      var straight := if a - e == 4 then Some(a) else if a == 12 && b == 3 && c == 2 && d == 1 && e == 0 then Some(3) else None;
      if straight.Some? && flush then
        (if straight.value == 12 then HandEval(HAND_ROYAL_FLUSH, key) else HandEval(HAND_STRAIGHT_FLUSH, straight.value))
      else if flush then HandEval(HAND_FLUSH, key)
      else if straight.Some? then HandEval(HAND_STRAIGHT, straight.value)
      else HandEval(HAND_HIGH_CARD, key)
    else if flush then HandEval(HAND_FLUSH, key)
    else if a == c then HandEval(HAND_THREE_KIND, a * 169 + d * 13 + e)
    else if b == d then HandEval(HAND_THREE_KIND, b * 169 + a * 13 + e)
    else if c == e then HandEval(HAND_THREE_KIND, c * 169 + a * 13 + b)
    else if a == b && c == d then HandEval(HAND_TWO_PAIR, a * 169 + c * 13 + e)
    else if a == b && d == e then HandEval(HAND_TWO_PAIR, a * 169 + d * 13 + c)
    else if b == c && d == e then HandEval(HAND_TWO_PAIR, b * 169 + d * 13 + a)
    else if a == b then HandEval(HAND_ONE_PAIR, a * 2197 + c * 169 + d * 13 + e)
    else if b == c then HandEval(HAND_ONE_PAIR, b * 2197 + a * 169 + d * 13 + e)
    else if c == d then HandEval(HAND_ONE_PAIR, c * 2197 + a * 169 + b * 13 + e)
    else HandEval(HAND_ONE_PAIR, d * 2197 + a * 169 + b * 13 + c)
  }

  /** Five distinct sorted ranks: the straight and flush branches of the spelled-out outcome. */
  lemma Classify5Unpaired(ranks: seq<int>, a: int, b: int, c: int, d: int, e: int, flush: bool)
    requires ranks == [a, b, c, d, e] && 0 <= e < d < c < b < a < 13
    ensures Classify5(ranks, flush) == Outcome5(a, b, c, d, e, flush)
  {
    FiveValid(ranks, a, b, c, d, e);
    Base13Five(a, b, c, d, e);
    assert StrictlyDesc(ranks);
    Classify5Distinct(ranks, flush);
  }

  /** `evaluate_5` on sorted ranks is the spelled-out outcome. */
  lemma Classify5Cases(ranks: seq<int>, flush: bool)
    requires |ranks| == 5 && ValidRanks(ranks) && SortedDesc(ranks)
    ensures Classify5(ranks, flush) == Outcome5(ranks[0], ranks[1], ranks[2], ranks[3], ranks[4], flush)
  {
    var a, b, c, d, e := ranks[0], ranks[1], ranks[2], ranks[3], ranks[4];
    assert ranks == [a, b, c, d, e] && 0 <= e <= d <= c <= b <= a < 13 by {
      assert a in ranks && e in ranks;
    }
    Base13Five(a, b, c, d, e);
    if a == e {
      FiveOfARank(ranks, a, flush);
    } else if a == d {
      QuadsHigh(ranks, a, e, flush);
    } else if b == e {
      QuadsLow(ranks, a, b, flush);
    } else if a == c && d == e {
      FullHouseHigh(ranks, a, d, flush);
    } else if a == b && c == e {
      FullHouseLow(ranks, a, c, flush);
    } else if a > b > c > d > e {
      Classify5Unpaired(ranks, a, b, c, d, e, flush);
    } else {
      Classify5Paired(ranks, a, b, c, d, e, flush);
    }
  }

  /** The sorted patterns with exactly one or two repeated ranks and no count of four or full house. */
  lemma Classify5Paired(ranks: seq<int>, a: int, b: int, c: int, d: int, e: int, flush: bool)
    requires ranks == [a, b, c, d, e] && 0 <= e <= d <= c <= b <= a < 13
    requires a != d && b != e && !(a == c && d == e) && !(a == b && c == e) && !(a > b > c > d > e)
    ensures Classify5(ranks, flush) ==
      if flush then HandEval(HAND_FLUSH, Base13(ranks)) else Outcome5(a, b, c, d, e, false)
  {
    if a == c {
      TripsFirst(ranks, a, d, e, flush);
    } else if b == d {
      TripsMiddle(ranks, a, b, e, flush);
    } else if c == e {
      TripsLast(ranks, a, b, c, flush);
    } else if a == b && c == d {
      TwoPairKickerLast(ranks, a, c, e, flush);
    } else if a == b && d == e {
      TwoPairKickerMiddle(ranks, a, c, d, flush);
    } else if b == c && d == e {
      TwoPairKickerFirst(ranks, a, b, d, flush);
    } else if a == b {
      PairFirst(ranks, a, c, d, e, flush);
    } else if b == c {
      PairSecond(ranks, a, b, d, e, flush);
    } else if c == d {
      PairThird(ranks, a, b, c, e, flush);
    } else {
      PairLast(ranks, a, b, c, d, flush);
    }
  }


  /** `evaluate_5` on any five cards, in terms of their ranks sorted high to low and their flushness. */
  lemma Evaluate5Cases(cards: seq<Card>)
    requires |cards| == 5
    ensures var r := SortDesc(RanksOf(cards));
      |r| == 5 && 0 <= r[4] <= r[3] <= r[2] <= r[1] <= r[0] < 13 &&
      Evaluate5(cards) == Outcome5(r[0], r[1], r[2], r[3], r[4], IsFlush(cards))
  {
    var r := SortDesc(RanksOf(cards));
    SortedRanksValid(cards);
    assert 0 <= r[4] && r[0] < 13 by {
      assert r[0] in r && r[4] in r;
    }
    Classify5Cases(r, IsFlush(cards));
  }

  // ---------------------------------------------------------------------------
  // Scores and comparisons
  // ---------------------------------------------------------------------------

  /** The class decides first; within a class the higher tie-break value wins. */
  lemma Score5Order(a: seq<Card>, b: seq<Card>)
    requires |a| == 5 && |b| == 5
    ensures Evaluate5(a).cls < Evaluate5(b).cls ==> Evaluate5Score(a) < Evaluate5Score(b)
    ensures Evaluate5(a).cls == Evaluate5(b).cls ==>
      (Evaluate5Score(a) < Evaluate5Score(b) <==> Evaluate5(a).value > Evaluate5(b).value)
    ensures Evaluate5Score(a) == Evaluate5Score(b) <==> Evaluate5(a) == Evaluate5(b)
  {
  }

  /** The same for the front row's three-card scores. */
  lemma Score3Order(a: seq<Card>, b: seq<Card>)
    requires |a| == 3 && |b| == 3
    ensures Evaluate3(a).cls < Evaluate3(b).cls ==> Evaluate3Score(a) < Evaluate3Score(b)
    ensures Evaluate3(a).cls == Evaluate3(b).cls ==>
      (Evaluate3Score(a) < Evaluate3Score(b) <==> Evaluate3(a).value > Evaluate3(b).value)
    ensures Evaluate3Score(a) == Evaluate3Score(b) <==> Evaluate3(a) == Evaluate3(b)
  {
  }

  /**
   * `compare_5` on the evaluations: a better class wins outright; within a
   * class the higher tie-break value wins; equal evaluations tie.
   */
  lemma Compare5Classes(a: seq<Card>, b: seq<Card>)
    requires |a| == 5 && |b| == 5
    ensures Evaluate5(a).cls < Evaluate5(b).cls ==> Compare5(a, b) == 1
    ensures Evaluate5(a).cls > Evaluate5(b).cls ==> Compare5(a, b) == -1
    ensures Evaluate5(a).cls == Evaluate5(b).cls ==>
      Compare5(a, b) == (if Evaluate5(a).value > Evaluate5(b).value then 1
                         else if Evaluate5(a).value < Evaluate5(b).value then -1 else 0)
  {
    Score5Order(a, b);
    Score5Order(b, a);
  }

  /** The same for `compare_3` on front rows. */
  lemma Compare3Classes(a: seq<Card>, b: seq<Card>)
    requires |a| == 3 && |b| == 3
    ensures Evaluate3(a).cls < Evaluate3(b).cls ==> Compare3(a, b) == 1
    ensures Evaluate3(a).cls > Evaluate3(b).cls ==> Compare3(a, b) == -1
    ensures Evaluate3(a).cls == Evaluate3(b).cls ==>
      Compare3(a, b) == (if Evaluate3(a).value > Evaluate3(b).value then 1
                         else if Evaluate3(a).value < Evaluate3(b).value then -1 else 0)
  {
    Score3Order(a, b);
    Score3Order(b, a);
  }

  /** `compare_5` is antisymmetric, and positive exactly when a scores lower. */
  lemma Compare5Antisymmetric(a: seq<Card>, b: seq<Card>)
    requires |a| == 5 && |b| == 5
    ensures Compare5(a, b) == -Compare5(b, a)
    ensures Compare5(a, b) > 0 <==> Evaluate5Score(a) < Evaluate5Score(b)
    ensures Compare5(a, b) == 0 <==> Evaluate5(a) == Evaluate5(b)
  {
    Score5Order(a, b);
  }

  /** `compare_3` is antisymmetric, and positive exactly when a scores lower. */
  lemma Compare3Antisymmetric(a: seq<Card>, b: seq<Card>)
    requires |a| == 3 && |b| == 3
    ensures Compare3(a, b) == -Compare3(b, a)
    ensures Compare3(a, b) > 0 <==> Evaluate3Score(a) < Evaluate3Score(b)
    ensures Compare3(a, b) == 0 <==> Evaluate3(a) == Evaluate3(b)
  {
    Score3Order(a, b);
  }

  // ---------------------------------------------------------------------------
  // The three front-row outcomes
  // ---------------------------------------------------------------------------

  lemma Classify3Trips(x: int)
    requires 0 <= x < 13
    ensures Classify3([x, x, x]) == HandEval(FRONT_THREE_KIND, x)
  {
    var ranks := [x, x, x];
    assert ranks[1..] == [x, x] && ranks[1..][1..] == [x];
    assert Tally([x]) == [Group(x, 1)];
    assert Tally([x, x]) == [Group(x, 2)];
    assert Tally(ranks) == [Group(x, 3)];
    assert CountsOf([Group(x, 3)]) == [3];
  }

  lemma SortCountsPair()
    ensures SortDesc([2, 1]) == [2, 1] && SortDesc([1, 2]) == [2, 1]
  {
    assert SortDesc([1]) == [1] && SortDesc([2]) == [2];
    assert [2, 1][1..] == [1] && [1, 2][1..] == [2];
  }

  /** The pair-and-kicker branch of `evaluate_3`. */
  lemma Decide3Pair(ranks: seq<int>, g: seq<Group>, pair: int, kicker: int)
    requires |ranks| == 3 && ValidRanks(ranks) && ValidGroups(g)
    requires g == [Group(pair, 2), Group(kicker, 1)] || g == [Group(kicker, 1), Group(pair, 2)]
    requires multiset(CountsOf(g)) == multiset{2, 1}
    ensures Decide3(ranks, g, [2, 1]) == HandEval(FRONT_ONE_PAIR, pair * 13 + kicker)
  {
    assert FirstRankWithCount(g, 2) == Some(pair) && FirstRankWithCount(g, 1) == Some(kicker) by {
      assert g[1..] == [g[1]];
    }
  }

  /** Three ranks in range make a valid rank sequence. */
  lemma ThreeValid(ranks: seq<int>, a: int, b: int, c: int)
    requires ranks == [a, b, c] && 0 <= a < 13 && 0 <= b < 13 && 0 <= c < 13
    ensures ValidRanks(ranks)
  {
    forall x | x in ranks ensures 0 <= x < 13 {
    }
  }

  /** A pair above its kicker. */
  lemma Classify3PairHigh(x: int, z: int)
    requires 0 <= z < x < 13
    ensures Classify3([x, x, z]) == HandEval(FRONT_ONE_PAIR, x * 13 + z)
  {
    var ranks := [x, x, z];
    var g := [Group(x, 2), Group(z, 1)];
    ThreeValid(ranks, x, x, z);
    assert Tally(ranks) == g by {
      TallyNew(z, [], [], [z]);
      TallyNew(x, [z], [Group(z, 1)], [x, z]);
      TallySame(x, [x, z], [Group(x, 1), Group(z, 1)], ranks);
    }
    assert CountsOf(g) == [2, 1] by {
      assert g[1..] == [g[1]];
    }
    SortCountsPair();
    TallyValid(ranks);
    assert Classify3(ranks) == Decide3(ranks, g, [2, 1]);
    Decide3Pair(ranks, g, x, z);
  }

  /** A pair below its kicker. */
  lemma Classify3PairLow(x: int, y: int)
    requires 0 <= y < x < 13
    ensures Classify3([x, y, y]) == HandEval(FRONT_ONE_PAIR, y * 13 + x)
  {
    var ranks := [x, y, y];
    var g := [Group(x, 1), Group(y, 2)];
    ThreeValid(ranks, x, y, y);
    assert Tally(ranks) == g by {
      TallyNew(y, [], [], [y]);
      TallySame(y, [y], [Group(y, 1)], [y, y]);
      TallyNew(x, [y, y], [Group(y, 2)], ranks);
    }
    assert CountsOf(g) == [1, 2] by {
      assert g[1..] == [g[1]];
    }
    SortCountsPair();
    TallyValid(ranks);
    assert Classify3(ranks) == Decide3(ranks, g, [2, 1]);
    Decide3Pair(ranks, g, y, x);
  }

  lemma Classify3High(x: int, y: int, z: int)
    requires 0 <= z < y < x < 13
    ensures Classify3([x, y, z]) == HandEval(FRONT_HIGH_CARD, x * 169 + y * 13 + z)
  {
    var ranks := [x, y, z];
    assert |SortDesc(CountsOf(Tally(ranks)))| == 3 by {
      assert StrictlyDesc(ranks);
      TallyDistinct(ranks);
    }
  }

  /**
   * The front-row outcome spelled out for sorted ranks x >= y >= z: trips,
   * a pair with its kicker, or the three ranks packed in base 13.
   */
  function FrontOutcome(x: int, y: int, z: int): HandEval {
    if x == z then HandEval(FRONT_THREE_KIND, x)
    else if x == y then HandEval(FRONT_ONE_PAIR, x * 13 + z)
    else if y == z then HandEval(FRONT_ONE_PAIR, y * 13 + x)
    else HandEval(FRONT_HIGH_CARD, x * 169 + y * 13 + z)
  }

  /** `evaluate_3` on sorted ranks is the spelled-out outcome. */
  lemma Classify3Cases(ranks: seq<int>)
    requires |ranks| == 3 && ValidRanks(ranks) && SortedDesc(ranks)
    ensures Classify3(ranks) == FrontOutcome(ranks[0], ranks[1], ranks[2])
  {
    var x, y, z := ranks[0], ranks[1], ranks[2];
    assert ranks == [x, y, z] && 0 <= z <= y <= x < 13 by {
      assert x in ranks && y in ranks && z in ranks;
    }
    if x == z {
      Classify3Trips(x);
    } else if x == y {
      Classify3PairHigh(x, z);
    } else if y == z {
      Classify3PairLow(x, y);
    } else {
      Classify3High(x, y, z);
    }
  }

  /** `evaluate_3` on any three cards, in terms of their ranks sorted high to low. */
  lemma Evaluate3Cases(cards: seq<Card>)
    requires |cards| == 3
    ensures var r := SortDesc(RanksOf(cards));
      |r| == 3 && 0 <= r[2] <= r[1] <= r[0] < 13 && Evaluate3(cards) == FrontOutcome(r[0], r[1], r[2])
  {
    var r := SortDesc(RanksOf(cards));
    SortedRanksValid(cards);
    assert 0 <= r[2] <= r[1] <= r[0] < 13 by {
      assert r[0] in r && r[2] in r;
    }
    Classify3Cases(r);
  }
}
