/**
 * The deterministic parts of the Monte Carlo solver: the legal placements of
 * an initial five-card deal and of a three-card Pineapple deal (each
 * deduplicated), the greedy back-middle-front fill, the capped binomial that
 * bounds the number of trials, the score of a finished trial board, and the
 * mean over the trials: the expected value of one option. Module `Solve`
 * ranks the options by it.
 *
 * The random draws of the trials are an input: `draw(t)` is the list of cards
 * drawn for trial t. The mean is an exact rational number.
 */
module Solver {
  import opened Wrappers
  import opened Seqs
  import opened Cards
  import opened Evaluator
  import opened Board
  import opened Scoring
  import opened Binomial

  // ---------------------------------------------------------------------------
  // Options
  // ---------------------------------------------------------------------------

  /** `Placement`: which card goes to which row. */
  datatype Placement = Placement(card: Card, row: Row)

  /** One option of a deal: the placements in order, and the discarded card of a Pineapple deal. */
  datatype Candidate = Candidate(placements: seq<Placement>, discard: Option<Card>)

  /** The errors `solve` and the generators raise. */
  datatype SolveError =
    | WrongHandSize(expected: nat, actual: nat)  // the generators' hand-size assertions
    | NoValidPlacements                          // `solve` with nothing to choose from
    | PlacementFailed(row: Row)                  // `place_card` on a full row while evaluating

  /** The rows of a list of placements. */
  function RowsOf(ps: seq<Placement>): (rows: seq<Row>)
    ensures |rows| == |ps| && forall i :: 0 <= i < |ps| ==> rows[i] == ps[i].row
  {
    seq(|ps|, i requires 0 <= i < |ps| => ps[i].row)
  }

  /** The cards of a list of placements. */
  function CardsOf(ps: seq<Placement>): (cards: seq<Card>)
    ensures |cards| == |ps| && forall i :: 0 <= i < |ps| ==> cards[i] == ps[i].card
  {
    seq(|ps|, i requires 0 <= i < |ps| => ps[i].card)
  }

  /** `zip(cards, rows)` as placements: as long as the shorter list. */
  function Zip(cards: seq<Card>, rows: seq<Row>): (ps: seq<Placement>)
    ensures |ps| == if |cards| < |rows| then |cards| else |rows|
    ensures forall i :: 0 <= i < |ps| ==> ps[i] == Placement(cards[i], rows[i])
  {
    if cards == [] || rows == [] then [] else [Placement(cards[0], rows[0])] + Zip(cards[1..], rows[1..])
  }

  /**
   * The deduplication key: `tuple(sorted((p.card, p.row) for p in placements))`,
   * followed by the discard in a Pineapple deal. Two placement lists sort to the
   * same tuple exactly when they hold the same multiset of pairs.
   */
  function DedupKey(c: Candidate): (multiset<Placement>, Option<Card>) {
    (multiset(c.placements), c.discard)
  }

  /** The `seen`-set loop both generators end with: keeps the first option of every key, in order. */
  method Deduplicate(options: seq<Candidate>) returns (unique: seq<Candidate>)
    ensures unique == Dedup(options, DedupKey)
  {
    var seen: set<(multiset<Placement>, Option<Card>)> := {};
    unique := [];
    var i := 0;
    while i < |options|
      invariant 0 <= i <= |options|
      invariant unique == Dedup(options[..i], DedupKey)
      invariant seen == KeysOf(options[..i], DedupKey)
    {
      var key := DedupKey(options[i]);
      DedupSnoc(options, DedupKey, i);
      if key !in seen {
        seen := seen + {key};
        unique := unique + [options[i]];
      }
      i := i + 1;
    }
    assert options[..i] == options;
  }

  // ---------------------------------------------------------------------------
  // The initial deal
  // ---------------------------------------------------------------------------

  /** How many entries of a row assignment name row r. */
  function CountRow(rows: seq<Row>, r: Row): nat {
    multiset(rows)[r]
  }

  /** The capacity check of the initial generator: row counts start from zero, not from the board. */
  predicate FitsFromZero(rows: seq<Row>) {
    forall r: Row :: CountRow(rows, r) <= Capacity(r)
  }

  lemma PrefixCount(rows: seq<Row>, i: nat, r: Row)
    requires i <= |rows|
    ensures CountRow(rows[..i], r) <= CountRow(rows, r)
  {
    assert rows == rows[..i] + rows[i..];
  }

  /** The `row_counts` loop with its early `break`: true exactly when no row is over its capacity. */
  method FitsCapacity(rows: seq<Row>) returns (ok: bool)
    ensures ok <==> FitsFromZero(rows)
  {
    var counts: map<Row, nat> := map[Front := 0, Middle := 0, Back := 0];
    var i := 0;
    forall r: Row
      ensures r in counts && counts[r] == CountRow(rows[..0], r) == 0
    {
      assert rows[..0] == [];
      match r
      case Front =>
      case Middle =>
      case Back =>
    }
    while i < |rows|
      invariant 0 <= i <= |rows|
      invariant forall r: Row :: r in counts && counts[r] == CountRow(rows[..i], r) <= Capacity(r)
    {
      var r := rows[i];
      assert rows[..i + 1] == rows[..i] + [r];
      counts := counts[r := counts[r] + 1];
      if counts[r] > Capacity(r) {
        PrefixCount(rows, i + 1, r);
        return false;
      }
      i := i + 1;
    }
    assert rows[..i] == rows;
    return true;
  }

  /** The options of the initial deal before deduplication, in product order. */
  function InitialRaw(hand: seq<Card>, assignments: seq<seq<Row>>): seq<Candidate> {
    if assignments == [] then []
    else
      var a := assignments[|assignments| - 1];
      InitialRaw(hand, assignments[..|assignments| - 1])
        + (if FitsFromZero(a) then [Candidate(Zip(hand, a), None)] else [])
  }

  /** What `_generate_initial_placements` returns for a five-card hand: `product(rows, repeat=5)` is over one row per card. */
  function InitialOptions(hand: seq<Card>): seq<Candidate> {
    Dedup(InitialRaw(hand, Product(ALL_ROWS, |hand|)), DedupKey)
  }

  /** `_generate_initial_placements`: every distribution of the five cards over the rows, deduplicated. */
  method GenerateInitialPlacements(hand: seq<Card>) returns (r: Result<seq<Candidate>, SolveError>)
    ensures |hand| != 5 ==> r == Err(WrongHandSize(5, |hand|))
    ensures |hand| == 5 ==> r == Ok(InitialOptions(hand))
  {
    if |hand| != 5 {
      return Err(WrongHandSize(5, |hand|));
    }
    var assignments := Product(ALL_ROWS, |hand|);
    var options: seq<Candidate> := [];
    var i := 0;
    while i < |assignments|
      invariant 0 <= i <= |assignments|
      invariant options == InitialRaw(hand, assignments[..i])
    {
      var fits := FitsCapacity(assignments[i]);
      assert assignments[..i + 1][..i] == assignments[..i];
      if fits {
        options := options + [Candidate(Zip(hand, assignments[i]), None)];
      }
      i := i + 1;
    }
    assert assignments[..i] == assignments;
    var unique := Deduplicate(options);
    return Ok(unique);
  }

  /** Every raw initial option comes from a fitting assignment of the list. */
  lemma {:induction false} InitialRawMember(hand: seq<Card>, assignments: seq<seq<Row>>, c: Candidate)
    requires c in InitialRaw(hand, assignments)
    ensures exists a :: a in assignments && FitsFromZero(a) && c == Candidate(Zip(hand, a), None)
  {
    var init := assignments[..|assignments| - 1];
    var a := assignments[|assignments| - 1];
    if c in InitialRaw(hand, init) {
      InitialRawMember(hand, init, c);
      var b :| b in init && FitsFromZero(b) && c == Candidate(Zip(hand, b), None);
      assert b in assignments;
    } else {
      assert FitsFromZero(a) && c == Candidate(Zip(hand, a), None);
    }
  }

  /** Every fitting assignment of the list yields a raw initial option. */
  lemma {:induction false} InitialRawComplete(hand: seq<Card>, assignments: seq<seq<Row>>, a: seq<Row>)
    requires a in assignments && FitsFromZero(a)
    ensures Candidate(Zip(hand, a), None) in InitialRaw(hand, assignments)
  {
    var init := assignments[..|assignments| - 1];
    if a != assignments[|assignments| - 1] {
      assert assignments == init + [assignments[|assignments| - 1]];
      InitialRawComplete(hand, init, a);
    }
  }

  /**
   * Each initial option pairs hand[i] with the i-th row of an assignment that
   * puts at most 3 cards in the front and 5 in the middle and the back,
   * counted from an empty board, and discards nothing.
   */
  lemma InitialOptionShape(hand: seq<Card>, c: Candidate)
    requires |hand| == 5 && c in InitialOptions(hand)
    ensures c.discard == None && |c.placements| == 5
    ensures forall i :: 0 <= i < 5 ==> c.placements[i].card == hand[i]
    ensures FitsFromZero(RowsOf(c.placements))
  {
    var raw := InitialRaw(hand, Product(ALL_ROWS, |hand|));
    DedupSubset(raw, DedupKey);
    InitialRawMember(hand, Product(ALL_ROWS, |hand|), c);
    var a :| a in Product(ALL_ROWS, |hand|) && FitsFromZero(a) && c == Candidate(Zip(hand, a), None);
    ProductMember(ALL_ROWS, |hand|, a);
    RowsOfZip(hand, a);
  }

  /** Zipping cards with as many rows keeps the rows. */
  lemma RowsOfZip(cards: seq<Card>, rows: seq<Row>)
    requires |cards| == |rows|
    ensures RowsOf(Zip(cards, rows)) == rows
  {
    var ps := Zip(cards, rows);
    assert forall i :: 0 <= i < |rows| ==> RowsOf(ps)[i] == ps[i].row == rows[i];
  }

  /** No raw initial option discards a card. */
  lemma {:induction false} InitialRawDiscardsNothing(hand: seq<Card>, assignments: seq<seq<Row>>)
    ensures forall c :: c in InitialRaw(hand, assignments) ==> c.discard == None
  {
    if assignments != [] {
      InitialRawDiscardsNothing(hand, assignments[..|assignments| - 1]);
    }
  }

  /** After deduplication no two options built from any assignment list hold the same (card, row) pairs. */
  lemma InitialDedupDistinct(hand: seq<Card>, assignments: seq<seq<Row>>)
    ensures var opts := Dedup(InitialRaw(hand, assignments), DedupKey);
      forall i, j :: 0 <= i < j < |opts| ==> multiset(opts[i].placements) != multiset(opts[j].placements)
  {
    var raw := InitialRaw(hand, assignments);
    var opts := Dedup(raw, DedupKey);
    InitialRawDiscardsNothing(hand, assignments);
    DedupSubset(raw, DedupKey);
    DedupDistinct(raw, DedupKey);
    forall i, j | 0 <= i < j < |opts|
      ensures multiset(opts[i].placements) != multiset(opts[j].placements)
    {
      assert opts[i] in opts && opts[j] in opts;
      assert DedupKey(opts[i]) != DedupKey(opts[j]);
    }
  }

  /** No two initial options hold the same (card, row) pairs. */
  lemma InitialOptionsDistinct(hand: seq<Card>)
    ensures var opts := InitialOptions(hand);
      forall i, j :: 0 <= i < j < |opts| ==> multiset(opts[i].placements) != multiset(opts[j].placements)
  {
    var opts := InitialOptions(hand);
    InitialDedupDistinct(hand, Product(ALL_ROWS, |hand|));
    assert opts == Dedup(InitialRaw(hand, Product(ALL_ROWS, |hand|)), DedupKey);
  }

  /** Every distribution of the hand over the rows that fits is offered, up to the order of the pairs. */
  lemma InitialOptionsComplete(hand: seq<Card>, a: seq<Row>)
    requires |hand| == 5 && |a| == 5 && FitsFromZero(a)
    ensures exists c :: c in InitialOptions(hand) && multiset(c.placements) == multiset(Zip(hand, a))
  {
    var assignments := Product(ALL_ROWS, |hand|);
    forall i | 0 <= i < 5
      ensures a[i] in ALL_ROWS
    {
      assert a[i] == Front || a[i] == Middle || a[i] == Back;
    }
    ProductComplete(ALL_ROWS, |hand|, a);
    var c0 := Candidate(Zip(hand, a), None);
    assert c0 in InitialRaw(hand, assignments) by {
      InitialRawComplete(hand, assignments, a);
    }
    DedupCovers(InitialRaw(hand, assignments), DedupKey, c0);
  }

  // ---------------------------------------------------------------------------
  // The capped binomial
  // ---------------------------------------------------------------------------

  /** The cap of `_max_combinations`. */
  const COMBINATIONS_CAP: nat := 1_000_000

  function Min(a: int, b: int): int {
    if a < b then a else b
  }

  /** C(n, k), or the cap when it is larger, and 0 when k > n. */
  function CappedBinom(n: nat, k: nat): nat {
    if k > n then 0 else Min(Binom(n, k), COMBINATIONS_CAP)
  }

  /**
   * `_max_combinations(n, k)`: the multiplicative formula over the smaller of
   * k and n - k, returning the cap as soon as a partial product exceeds it.
   */
  method MaxCombinations(n: nat, k: nat) returns (result: nat)
    ensures result == CappedBinom(n, k)
  {
    if k > n {
      return 0;
    }
    if k == 0 || k == n {
      BinomAll(n);
      return 1;
    }
    var m := if k < n - k then k else n - k;
    BinomSymmetric(n, k);
    assert Binom(n, k) == Binom(n, m);
    result := 1;
    var i := 0;
    while i < m
      invariant 0 <= i <= m
      invariant result == Binom(n, i) <= COMBINATIONS_CAP
    {
      BinomStep(n, i);
      result := result * (n - i) / (i + 1);
      if result > COMBINATIONS_CAP {
        BinomGrows(n, i + 1, m);
        return COMBINATIONS_CAP;
      }
      i := i + 1;
    }
  }

  /** The cap is reached, never exceeded, and below it the count is exact. */
  lemma CappedBinomBounds(n: nat, k: nat)
    ensures CappedBinom(n, k) <= COMBINATIONS_CAP
    ensures k <= n && Binom(n, k) <= COMBINATIONS_CAP ==> CappedBinom(n, k) == Binom(n, k)
    ensures k <= n ==> CappedBinom(n, k) >= 1
  {
    if k <= n {
      BinomPositive(n, k);
    }
  }

  /** Within the row there is at least one subset of each size. */
  lemma {:induction false} BinomPositive(n: nat, k: nat)
    requires k <= n
    ensures Binom(n, k) >= 1
    decreases n
  {
    if k > 0 && k < n {
      BinomPositive(n - 1, k);
    } else if k > 0 {
      BinomAll(n);
    }
  }

  // ---------------------------------------------------------------------------
  // The score of a trial board
  // ---------------------------------------------------------------------------

  /** What a fouled board scores in a trial. */
  const FOUL_PENALTY: int := -10

  /** `FANTASYLAND_BONUS`. */
  const FANTASYLAND_BONUS: int := 8

  /** `_score_board`: the estimate for an incomplete board, -10 when fouled, else royalties plus the bonus. */
  function ScoreBoard(l: Layout, cmf: FrontVsMiddle): (s: int)
    requires l.RowsFit()
    ensures -10 <= s <= 105
    ensures s == FOUL_PENALTY <==> l.IsComplete() && l.IsFouled(cmf)
  {
    if !l.IsComplete() then EstimateRoyalties(l)
    else if l.IsFouled(cmf) then FOUL_PENALTY
    else TotalRoyalties(l, cmf) + if QualifiesFantasyland(l, cmf) then FANTASYLAND_BONUS else 0
  }

  /**
   * A complete clean board scores the royalties of its three rows, plus 8 when
   * its front is trips or a pair of Queens or better; a fouled one scores -10.
   */
  lemma ScoreCompleteBoard(l: Layout, cmf: FrontVsMiddle)
    requires l.IsComplete() && l.RowsFit()
    ensures l.IsFouled(cmf) ==> ScoreBoard(l, cmf) == -10
    ensures !l.IsFouled(cmf) ==>
      var r := SortDesc(RanksOf(l.front));
      var qualifies := r[0] == r[2] || ((r[0] == r[1] || r[1] == r[2]) && r[1] >= 10);
      ScoreBoard(l, cmf) ==
        RoyaltiesFront(l.front) + RoyaltiesMiddle(l.middle) + RoyaltiesBack(l.back) + (if qualifies then 8 else 0)
  {
    QualifiesIff(l, cmf);
  }

  /** A fouled board scores below every clean board and every partial one. */
  lemma FoulScoresLowest(l: Layout, m: Layout, cmf: FrontVsMiddle)
    requires l.IsComplete() && l.RowsFit() && l.IsFouled(cmf)
    requires m.RowsFit() && !m.IsFouled(cmf)
    ensures ScoreBoard(l, cmf) < ScoreBoard(m, cmf)
  {
  }

  /** A trial score is -10, or between 0 and the royalties of the three rows plus the bonus. */
  lemma ScoreBoardParts(l: Layout, cmf: FrontVsMiddle)
    requires l.RowsFit()
    ensures var sum := RoyaltiesFront(l.front) + RoyaltiesMiddle(l.middle) + RoyaltiesBack(l.back);
      ScoreBoard(l, cmf) == -10 || 0 <= ScoreBoard(l, cmf) <= sum + 8
  {
    EstimateOfFullRows(l);
  }

  /** A trial score lies in -10..105: 22 + 50 + 25 royalties and the bonus at most. */
  lemma ScoreBoardRange(l: Layout, cmf: FrontVsMiddle)
    requires l.RowsFit()
    ensures -10 <= ScoreBoard(l, cmf) <= 105
  {
    var f, m, b := RoyaltiesFront(l.front), RoyaltiesMiddle(l.middle), RoyaltiesBack(l.back);
    ScoreBoardParts(l, cmf);
    assert f <= 22 by {
      FrontRoyaltyBound(l.front);
    }
    assert m <= 50 by {
      MiddleRoyaltyBound(l.middle);
    }
    assert b <= 25 by {
      BackRoyaltyBound(l.back);
    }
    RangeArith(ScoreBoard(l, cmf), f, m, b);
  }

  lemma RangeArith(s: int, f: int, m: int, b: int)
    requires s == -10 || 0 <= s <= f + m + b + 8
    requires f <= 22 && m <= 50 && b <= 25
    ensures -10 <= s <= 105
  {
  }

  // ---------------------------------------------------------------------------
  // Placing a list of cards
  // ---------------------------------------------------------------------------

  /** `place_card` for each placement in turn; the first full row ends it with that row's error. */
  function ApplyPlacements(l: Layout, ps: seq<Placement>): Result<Layout, PlaceError> {
    if ps == [] then Ok(l)
    else
      match ApplyPlacements(l, ps[..|ps| - 1])
      case Err(e) => Err(e)
      case Ok(m) => m.Place(ps[|ps| - 1].row, ps[|ps| - 1].card)
  }

  /** Once a prefix fails, the whole list fails with the same error. */
  lemma {:induction false} ApplyErrPropagates(l: Layout, ps: seq<Placement>, k: nat, e: PlaceError)
    requires k <= |ps| && ApplyPlacements(l, ps[..k]) == Err(e)
    ensures ApplyPlacements(l, ps) == Err(e)
    decreases |ps|
  {
    if k < |ps| {
      var init := ps[..|ps| - 1];
      assert init[..k] == ps[..k];
      ApplyErrPropagates(l, init, k, e);
    } else {
      assert ps[..k] == ps;
    }
  }

  /** Placing cards one at a time never overfills a row, and adds one card per placement. */
  lemma {:induction false} ApplyKeepsCapacity(l: Layout, ps: seq<Placement>)
    requires l.WithinCapacity() && ApplyPlacements(l, ps).Ok?
    ensures ApplyPlacements(l, ps).value.WithinCapacity()
    ensures ApplyPlacements(l, ps).value.TotalCards() == l.TotalCards() + |ps|
  {
    if ps != [] {
      var init := ps[..|ps| - 1];
      var p := ps[|ps| - 1];
      ApplyKeepsCapacity(l, init);
      PlaceKeepsCapacity(ApplyPlacements(l, init).value, p.row, p.card);
    }
  }

  /** The placed board holds the cards of the original board and the placed cards, each row in order. */
  lemma {:induction false} ApplyContents(l: Layout, ps: seq<Placement>, r: Row)
    requires ApplyPlacements(l, ps).Ok?
    ensures ApplyPlacements(l, ps).value.RowCards(r) == l.RowCards(r) + CardsIn(ps, r)
  {
    if ps != [] {
      var init := ps[..|ps| - 1];
      ApplyContents(l, init, r);
    }
  }

  /** The cards that the placements send to row r, in order. */
  function CardsIn(ps: seq<Placement>, r: Row): seq<Card> {
    if ps == [] then []
    else CardsIn(ps[..|ps| - 1], r) + (if ps[|ps| - 1].row == r then [ps[|ps| - 1].card] else [])
  }

  // ---------------------------------------------------------------------------
  // A Pineapple deal
  // ---------------------------------------------------------------------------

  /** `[r for r in Row if board.can_place(r)]`. */
  function AvailableRows(l: Layout): (rows: seq<Row>)
    ensures forall r :: r in rows <==> l.CanPlace(r)
    ensures forall i, j :: 0 <= i < j < |rows| ==> rows[i] != rows[j]
  {
    (if l.CanPlace(Front) then [Front] else [])
      + (if l.CanPlace(Middle) then [Middle] else [])
      + (if l.CanPlace(Back) then [Back] else [])
  }

  /** A Pineapple deal keeps two of its three cards: `product(available_rows, repeat=2)`. */
  const KEPT_CARDS: nat := 2

  /** The hand without the card at index d, in order. */
  function Without(hand: seq<Card>, d: nat): (rest: seq<Card>)
    requires d < |hand|
    ensures |rest| == |hand| - 1
  {
    hand[..d] + hand[d + 1..]
  }

  /** The options keeping all but hand[d], over the row pairs in order: those whose two cards both fit. */
  function CombosFor(l: Layout, hand: seq<Card>, d: nat, combos: seq<seq<Row>>): seq<Candidate>
    requires d < |hand|
  {
    if combos == [] then []
    else
      var ps := Zip(Without(hand, d), combos[|combos| - 1]);
      CombosFor(l, hand, d, combos[..|combos| - 1])
        + (if ApplyPlacements(l, ps).Ok? && |ps| == 2 then [Candidate(ps, Some(hand[d]))] else [])
  }

  lemma CombosForStep(l: Layout, hand: seq<Card>, d: nat, combos: seq<seq<Row>>, k: nat)
    requires d < |hand| && k < |combos|
    ensures var ps := Zip(Without(hand, d), combos[k]);
      CombosFor(l, hand, d, combos[..k + 1]) == CombosFor(l, hand, d, combos[..k])
        + (if ApplyPlacements(l, ps).Ok? && |ps| == 2 then [Candidate(ps, Some(hand[d]))] else [])
  {
    assert combos[..k + 1][..k] == combos[..k];
  }

  /** The Pineapple options before deduplication, for the discard indices below d. */
  function PineappleRaw(l: Layout, hand: seq<Card>, d: nat): seq<Candidate>
    requires d <= |hand|
  {
    if d == 0 then []
    else PineappleRaw(l, hand, d - 1) + CombosFor(l, hand, d - 1, Product(AvailableRows(l), KEPT_CARDS))
  }

  /** What `_generate_pineapple_placements` returns for a three-card hand. */
  function PineappleOptions(l: Layout, hand: seq<Card>): seq<Candidate>
    requires |hand| == 3
  {
    Dedup(PineappleRaw(l, hand, 3), DedupKey)
  }

  /**
   * The inner loop of `_generate_pineapple_placements`: place each pair on a
   * copy of the board, stopping at the first row that has no room.
   */
  method PlaceOnBoardCopy(board: OFCBoard, pairs: seq<Placement>) returns (valid: bool, placements: seq<Placement>)
    ensures valid <==> ApplyPlacements(board.View(), pairs).Ok?
    ensures valid ==> placements == pairs
  {
    ghost var l := board.View();
    var copy := board.Copy();
    valid := true;
    placements := [];
    var j := 0;
    while j < |pairs|
      invariant 0 <= j <= |pairs|
      invariant valid ==> placements == pairs[..j] && ApplyPlacements(l, pairs[..j]) == Ok(copy.View())
      invariant !valid ==> ApplyPlacements(l, pairs).Err?
    {
      var p := pairs[j];
      assert pairs[..j + 1][..j] == pairs[..j];
      if copy.View().CanPlace(p.row) {
        var placed := copy.PlaceCard(p.row, p.card);
        placements := placements + [Placement(p.card, p.row)];
        j := j + 1;
      } else {
        ApplyErrPropagates(l, pairs, j + 1, RowFull(p.row));
        valid := false;
        break;
      }
    }
    if valid {
      assert pairs[..j] == pairs;
    }
  }

  /**
   * `_generate_pineapple_placements`: for each discard and each pair of
   * available rows, place the two kept cards on a copy of the board, keep the
   * option when both fit, then deduplicate.
   */
  method GeneratePineapplePlacements(board: OFCBoard, hand: seq<Card>) returns (r: Result<seq<Candidate>, SolveError>)
    ensures |hand| != 3 ==> r == Err(WrongHandSize(3, |hand|))
    ensures |hand| == 3 ==> r == Ok(PineappleOptions(board.View(), hand))
  {
    if |hand| != 3 {
      return Err(WrongHandSize(3, |hand|));
    }
    var l := board.View();
    var availableRows := AvailableRows(l);
    var combos := Product(availableRows, KEPT_CARDS);
    var options: seq<Candidate> := [];
    for d := 0 to 3
      invariant options == PineappleRaw(l, hand, d)
    {
      var discard := hand[d];
      var place := hand[..d] + hand[d + 1..];
      var found: seq<Candidate> := [];
      for k := 0 to |combos|
        invariant found == CombosFor(l, hand, d, combos[..k])
      {
        var pairs := Zip(place, combos[k]);
        var valid, placements := PlaceOnBoardCopy(board, pairs);
        CombosForStep(l, hand, d, combos, k);
        assert pairs == Zip(Without(hand, d), combos[k]);
        if valid && |placements| == 2 {
          found := found + [Candidate(placements, Some(discard))];
        }
      }
      assert combos[..|combos|] == combos;
      options := options + found;
    }
    var unique := Deduplicate(options);
    return Ok(unique);
  }

  /** Every option kept for discard index d leaves out hand[d], uses a pair of rows from the list, and fits. */
  lemma {:induction false} CombosForMember(l: Layout, hand: seq<Card>, d: nat, combos: seq<seq<Row>>, c: Candidate)
    requires d < |hand| && c in CombosFor(l, hand, d, combos)
    ensures exists rows :: rows in combos && c == Candidate(Zip(Without(hand, d), rows), Some(hand[d]))
                          && ApplyPlacements(l, c.placements).Ok? && |c.placements| == 2
  {
    var init := combos[..|combos| - 1];
    if c in CombosFor(l, hand, d, init) {
      CombosForMember(l, hand, d, init, c);
      var rows :| rows in init && c == Candidate(Zip(Without(hand, d), rows), Some(hand[d]))
        && ApplyPlacements(l, c.placements).Ok? && |c.placements| == 2;
      assert rows in combos;
    } else {
      assert combos[|combos| - 1] in combos;
    }
  }

  /** Every option that fits for discard index d and a pair of rows of the list is kept. */
  lemma {:induction false} CombosForComplete(l: Layout, hand: seq<Card>, d: nat, combos: seq<seq<Row>>, rows: seq<Row>)
    requires d < |hand| && rows in combos
    requires var ps := Zip(Without(hand, d), rows); ApplyPlacements(l, ps).Ok? && |ps| == 2
    ensures Candidate(Zip(Without(hand, d), rows), Some(hand[d])) in CombosFor(l, hand, d, combos)
  {
    var init := combos[..|combos| - 1];
    if rows != combos[|combos| - 1] {
      assert combos == init + [combos[|combos| - 1]];
      CombosForComplete(l, hand, d, init, rows);
    }
  }

  lemma {:induction false} PineappleRawMember(l: Layout, hand: seq<Card>, d: nat, c: Candidate)
    requires d <= |hand| && c in PineappleRaw(l, hand, d)
    ensures exists e, rows :: 0 <= e < d && rows in Product(AvailableRows(l), KEPT_CARDS)
                             && c == Candidate(Zip(Without(hand, e), rows), Some(hand[e]))
                             && ApplyPlacements(l, c.placements).Ok? && |c.placements| == 2
  {
    var combos := Product(AvailableRows(l), KEPT_CARDS);
    if c in PineappleRaw(l, hand, d - 1) {
      PineappleRawMember(l, hand, d - 1, c);
    } else {
      CombosForMember(l, hand, d - 1, combos, c);
    }
  }

  lemma {:induction false} PineappleRawComplete(l: Layout, hand: seq<Card>, d: nat, e: nat, rows: seq<Row>)
    requires e < d <= |hand| && rows in Product(AvailableRows(l), KEPT_CARDS)
    requires var ps := Zip(Without(hand, e), rows); ApplyPlacements(l, ps).Ok? && |ps| == 2
    ensures Candidate(Zip(Without(hand, e), rows), Some(hand[e])) in PineappleRaw(l, hand, d)
  {
    if e < d - 1 {
      PineappleRawComplete(l, hand, d - 1, e, rows);
    } else {
      CombosForComplete(l, hand, e, Product(AvailableRows(l), KEPT_CARDS), rows);
    }
  }

  /**
   * Each Pineapple option discards one card of the hand and places the other
   * two in order, each into a row that had room on the board, and both fit
   * together; with distinct hand cards the discard is not among the placed ones.
   */
  lemma PineappleOptionShape(l: Layout, hand: seq<Card>, c: Candidate)
    requires |hand| == 3 && c in PineappleOptions(l, hand)
    ensures exists e :: 0 <= e < 3 && c.discard == Some(hand[e]) && CardsOf(c.placements) == Without(hand, e)
    ensures |c.placements| == 2 && ApplyPlacements(l, c.placements).Ok?
    ensures forall i :: 0 <= i < 2 ==> l.CanPlace(c.placements[i].row)
    ensures Distinct(hand) ==> c.discard.Some? && c.discard.value !in CardsOf(c.placements)
  {
    var raw := PineappleRaw(l, hand, 3);
    DedupSubset(raw, DedupKey);
    PineappleRawMember(l, hand, 3, c);
    var e, rows :| 0 <= e < 3 && rows in Product(AvailableRows(l), KEPT_CARDS)
      && c == Candidate(Zip(Without(hand, e), rows), Some(hand[e]))
      && ApplyPlacements(l, c.placements).Ok? && |c.placements| == 2;
    BuiltOptionShape(l, hand, e, rows);
  }

  /** The option built from discard index e and a pair of available rows. */
  lemma BuiltOptionShape(l: Layout, hand: seq<Card>, e: nat, rows: seq<Row>)
    requires e < |hand| == 3 && rows in Product(AvailableRows(l), KEPT_CARDS)
    ensures var ps := Zip(Without(hand, e), rows);
      CardsOf(ps) == Without(hand, e) && |ps| == 2 && forall i :: 0 <= i < 2 ==> l.CanPlace(ps[i].row)
    ensures Distinct(hand) ==> hand[e] !in CardsOf(Zip(Without(hand, e), rows))
  {
    ProductMember(AvailableRows(l), KEPT_CARDS, rows);
    assert CardsOf(Zip(Without(hand, e), rows)) == Without(hand, e);
    if Distinct(hand) {
      WithoutExcludes(hand, e);
    }
  }

  /** With distinct cards, removing hand[e] leaves no copy of it. */
  lemma WithoutExcludes(hand: seq<Card>, e: nat)
    requires Distinct(hand) && e < |hand|
    ensures hand[e] !in Without(hand, e)
  {
    var w := Without(hand, e);
    forall i | 0 <= i < |w|
      ensures w[i] != hand[e]
    {
      if i < e {
        assert w[i] == hand[i];
      } else {
        assert w[i] == hand[i + 1];
      }
    }
  }

  /** No two Pineapple options hold the same (card, row) pairs and the same discard. */
  lemma PineappleOptionsDistinct(l: Layout, hand: seq<Card>)
    requires |hand| == 3
    ensures var opts := PineappleOptions(l, hand);
      forall i, j :: 0 <= i < j < |opts| ==>
        multiset(opts[i].placements) != multiset(opts[j].placements) || opts[i].discard != opts[j].discard
  {
    var opts := PineappleOptions(l, hand);
    DedupDistinct(PineappleRaw(l, hand, 3), DedupKey);
    assert opts == Dedup(PineappleRaw(l, hand, 3), DedupKey);
    forall i, j | 0 <= i < j < |opts|
      ensures multiset(opts[i].placements) != multiset(opts[j].placements) || opts[i].discard != opts[j].discard
    {
      assert DedupKey(opts[i]) != DedupKey(opts[j]);
    }
  }

  /**
   * Every way to keep two of the three cards and send them to rows with room
   * on the board, in the hand's order, is offered up to the order of the pairs.
   */
  lemma PineappleOptionsComplete(l: Layout, hand: seq<Card>, e: nat, rows: seq<Row>)
    requires |hand| == 3 && e < 3 && |rows| == 2
    requires l.CanPlace(rows[0]) && l.CanPlace(rows[1])
    requires ApplyPlacements(l, Zip(Without(hand, e), rows)).Ok?
    ensures exists c :: c in PineappleOptions(l, hand)
                        && multiset(c.placements) == multiset(Zip(Without(hand, e), rows)) && c.discard == Some(hand[e])
  {
    ProductComplete(AvailableRows(l), KEPT_CARDS, rows);
    var c0 := Candidate(Zip(Without(hand, e), rows), Some(hand[e]));
    assert c0 in PineappleRaw(l, hand, 3) by {
      PineappleRawComplete(l, hand, 3, e, rows);
    }
    DedupCovers(PineappleRaw(l, hand, 3), DedupKey, c0);
  }

  // ---------------------------------------------------------------------------
  // The greedy fill of a trial
  // ---------------------------------------------------------------------------

  /** `_fill_board_greedy` fills the back first, then the middle, then the front. */
  const GREEDY_ORDER: seq<Row> := [Back, Middle, Front]

  /** The board with cs appended to row r. */
  function Extend(l: Layout, r: Row, cs: seq<Card>): (m: Layout)
    ensures m.RowCards(r) == l.RowCards(r) + cs
    ensures forall o :: o != r ==> m.RowCards(o) == l.RowCards(o)
  {
    match r
    case Front => l.(front := l.front + cs)
    case Middle => l.(middle := l.middle + cs)
    case Back => l.(back := l.back + cs)
  }

  lemma ExtendAppend(l: Layout, r: Row, cs: seq<Card>, c: Card)
    ensures Extend(l, r, cs).Append(r, c) == Extend(l, r, cs + [c])
  {
    match r
    case Front => assert l.front + cs + [c] == l.front + (cs + [c]);
    case Middle => assert l.middle + cs + [c] == l.middle + (cs + [c]);
    case Back => assert l.back + cs + [c] == l.back + (cs + [c]);
  }

  /** How many of the avail unused cards row r takes: none when it has no room, else up to its room. */
  function Take(l: Layout, r: Row, avail: nat): nat {
    if l.RowRemaining(r) <= 0 then 0 else Min(l.RowRemaining(r), avail)
  }

  /** A board and how many of the cards it has used. */
  datatype Fill = Fill(layout: Layout, used: nat)

  /** One row of the greedy fill: row r takes the next unused cards it has room for. */
  function FillStep(prev: Fill, r: Row, cards: seq<Card>): (f: Fill)
    requires prev.used <= |cards|
    ensures prev.used <= f.used <= |cards|
  {
    var n := Take(prev.layout, r, |cards| - prev.used);
    Fill(Extend(prev.layout, r, cards[prev.used..prev.used + n]), prev.used + n)
  }

  /** The greedy fill over the rows of order in turn. */
  function FillRows(l: Layout, cards: seq<Card>, order: seq<Row>): (f: Fill)
    ensures f.used <= |cards|
  {
    if order == [] then Fill(l, 0)
    else FillStep(FillRows(l, cards, order[..|order| - 1]), order[|order| - 1], cards)
  }

  /** The board `_fill_board_greedy(board, cards)` leaves. */
  function GreedyFill(l: Layout, cards: seq<Card>): Layout {
    FillRows(l, cards, GREEDY_ORDER).layout
  }

  /** The `while` loop of `_fill_board_greedy` for one row: place cards from index idx on while the row has room. */
  method FillRow(board: OFCBoard, row: Row, cards: seq<Card>, idx: nat) returns (next: nat)
    requires idx <= |cards|
    modifies board
    ensures Fill(board.View(), next) == FillStep(Fill(old(board.View()), idx), row, cards)
  {
    ghost var base := board.View();
    next := idx;
    while board.View().CanPlace(row) && next < |cards|
      invariant idx <= next <= |cards|
      invariant next - idx <= Take(base, row, |cards| - idx)
      invariant board.View() == Extend(base, row, cards[idx..next])
      decreases |cards| - next
    {
      FillRowStep(base, board.View(), row, cards, idx, next);
      var placed := board.PlaceCard(row, cards[next]);
      next := next + 1;
    }
    FillRowDone(base, board.View(), row, cards, idx, next);
  }

  /** One pass of the row loop: the row has room, the card is placed, and one more card is taken. */
  lemma FillRowStep(base: Layout, cur: Layout, row: Row, cards: seq<Card>, idx: nat, next: nat)
    requires idx <= next < |cards|
    requires next - idx <= Take(base, row, |cards| - idx)
    requires cur == Extend(base, row, cards[idx..next])
    requires cur.CanPlace(row)
    ensures cur.Place(row, cards[next]) == Ok(Extend(base, row, cards[idx..next + 1]))
    ensures next + 1 - idx <= Take(base, row, |cards| - idx)
  {
    CanPlaceIffPlaces(cur, row, cards[next]);
    ExtendAppend(base, row, cards[idx..next], cards[next]);
    assert cards[idx..next + 1] == cards[idx..next] + [cards[next]];
  }

  /** When the row loop stops, it has done one step of the greedy fill. */
  lemma FillRowDone(base: Layout, cur: Layout, row: Row, cards: seq<Card>, idx: nat, next: nat)
    requires idx <= next <= |cards|
    requires next - idx <= Take(base, row, |cards| - idx)
    requires cur == Extend(base, row, cards[idx..next])
    requires !cur.CanPlace(row) || next == |cards|
    ensures Fill(cur, next) == FillStep(Fill(base, idx), row, cards)
  {
    assert cur.RowRemaining(row) == base.RowRemaining(row) - (next - idx);
    TakeArith(base.RowRemaining(row), |cards| - idx, next - idx);
  }

  /** The row loop stops having taken what `Take` allows: when the row is full or the cards run out. */
  lemma TakeArith(room: int, avail: nat, taken: nat)
    requires taken <= (if room <= 0 then 0 else Min(room, avail))
    requires room - taken <= 0 || taken == avail
    ensures taken == (if room <= 0 then 0 else Min(room, avail))
  {
  }

  lemma FillRowsStep(l: Layout, cards: seq<Card>, order: seq<Row>, k: nat)
    requires k < |order|
    ensures FillRows(l, cards, order[..k + 1]) == FillStep(FillRows(l, cards, order[..k]), order[k], cards)
  {
    assert order[..k + 1][..k] == order[..k];
  }

  /** `_fill_board_greedy`: for each row in turn, place the next card while the row has room and cards remain. */
  method FillBoardGreedy(board: OFCBoard, cards: seq<Card>)
    modifies board
    ensures board.View() == GreedyFill(old(board.View()), cards)
  {
    ghost var l0 := board.View();
    var idx := 0;
    for k := 0 to |GREEDY_ORDER|
      invariant FillRows(l0, cards, GREEDY_ORDER[..k]) == Fill(board.View(), idx)
    {
      FillRowsStep(l0, cards, GREEDY_ORDER, k);
      idx := FillRow(board, GREEDY_ORDER[k], cards, idx);
    }
    assert GREEDY_ORDER[..3] == GREEDY_ORDER;
  }

  /** The greedy fill is one fill step for the back, then the middle, then the front. */
  lemma GreedyFillSteps(l: Layout, cards: seq<Card>)
    ensures GreedyFill(l, cards) == FillStep(FillStep(FillStep(Fill(l, 0), Back, cards), Middle, cards), Front, cards).layout
  {
    var o := GREEDY_ORDER;
    assert o[..0] == [];
    FillRowsStep(l, cards, o, 0);
    FillRowsStep(l, cards, o, 1);
    FillRowsStep(l, cards, o, 2);
    assert o[..3] == o;
  }

  /** A fill step appends the next cards to its row and leaves the other rows alone. */
  lemma FillStepRows(prev: Fill, r: Row, cards: seq<Card>)
    requires prev.used <= |cards|
    ensures var n := Take(prev.layout, r, |cards| - prev.used);
      var f := FillStep(prev, r, cards);
      f.used == prev.used + n
      && f.layout.RowCards(r) == prev.layout.RowCards(r) + cards[prev.used..prev.used + n]
      && forall o :: o != r ==> f.layout.RowCards(o) == prev.layout.RowCards(o)
  {
  }

  /** A fill step keeps the rows within capacity and adds the cards it takes. */
  lemma FillStepKeeps(prev: Fill, r: Row, cards: seq<Card>)
    requires prev.used <= |cards| && prev.layout.WithinCapacity()
    ensures var f := FillStep(prev, r, cards);
      f.layout.WithinCapacity() && f.layout.TotalCards() == prev.layout.TotalCards() + (f.used - prev.used)
      && f.used - prev.used == Take(prev.layout, r, |cards| - prev.used)
      && forall o :: o != r ==> f.layout.RowCards(o) == prev.layout.RowCards(o)
  {
    FillStepRows(prev, r, cards);
  }

  /** The back row takes the first cards, as many as it has room for. */
  lemma GreedyFillBackFirst(l: Layout, cards: seq<Card>)
    ensures GreedyFill(l, cards).back == l.back + cards[..Take(l, Back, |cards|)]
  {
    GreedyFillSteps(l, cards);
    var f0 := Fill(l, 0);
    var f1 := FillStep(f0, Back, cards);
    var f2 := FillStep(f1, Middle, cards);
    FillStepRows(f0, Back, cards);
    FillStepRows(f1, Middle, cards);
    FillStepRows(f2, Front, cards);
    assert cards[0..f1.used] == cards[..f1.used];
  }

  /** The fill only appends: every row of the board is a prefix of the same row after it. */
  lemma GreedyFillExtends(l: Layout, cards: seq<Card>, r: Row)
    ensures l.RowCards(r) <= GreedyFill(l, cards).RowCards(r)
  {
    GreedyFillSteps(l, cards);
    var f0 := Fill(l, 0);
    var f1 := FillStep(f0, Back, cards);
    var f2 := FillStep(f1, Middle, cards);
    FillStepRows(f0, Back, cards);
    FillStepRows(f1, Middle, cards);
    FillStepRows(f2, Front, cards);
  }

  /** The greedy fill keeps rows within capacity and places min(|cards|, 13 - total) cards. */
  lemma GreedyFillCapacity(l: Layout, cards: seq<Card>)
    requires l.WithinCapacity()
    ensures GreedyFill(l, cards).WithinCapacity()
    ensures GreedyFill(l, cards).TotalCards() == l.TotalCards() + Min(|cards|, 13 - l.TotalCards())
  {
    GreedyFillSteps(l, cards);
    var f0 := Fill(l, 0);
    var f1 := FillStep(f0, Back, cards);
    var f2 := FillStep(f1, Middle, cards);
    var f3 := FillStep(f2, Front, cards);
    FillStepKeeps(f0, Back, cards);
    FillStepKeeps(f1, Middle, cards);
    FillStepKeeps(f2, Front, cards);
    assert f1.layout.middle == l.middle && f2.layout.front == l.front;
    ThreeTakes(l, f1.layout, f2.layout, |cards|, f1.used, f2.used - f1.used, f3.used - f2.used);
  }

  /** The counts the three rows take add up to min(|cards|, empty slots). */
  lemma ThreeTakes(l: Layout, l1: Layout, l2: Layout, a: nat, nb: nat, nm: nat, nf: nat)
    requires l.WithinCapacity() && l1.middle == l.middle && l2.front == l.front
    requires nb == Take(l, Back, a) && nm == Take(l1, Middle, a - nb) && nf == Take(l2, Front, a - nb - nm)
    ensures nb + nm + nf == Min(a, 13 - l.TotalCards())
  {
    TakeRoom(l, Back, a);
    TakeRoom(l1, Middle, a - nb);
    TakeRoom(l2, Front, a - nb - nm);
    GreedyArith(5 - |l.back|, 5 - |l.middle|, 3 - |l.front|, a, nb, nm, nf);
  }

  lemma TakeRoom(l: Layout, r: Row, a: nat)
    ensures var room := Capacity(r) - |l.RowCards(r)|;
      Take(l, r, a) == if room <= 0 then 0 else Min(room, a)
  {
  }

  lemma GreedyArith(rb: nat, rm: nat, rf: nat, a: nat, nb: nat, nm: nat, nf: nat)
    requires nb == (if rb <= 0 then 0 else Min(rb, a))
    requires nm == (if rm <= 0 then 0 else Min(rm, a - nb))
    requires nf == (if rf <= 0 then 0 else Min(rf, a - nb - nm))
    ensures nb + nm + nf == Min(a, rb + rm + rf)
  {
  }

  /** Cards enough for the empty slots complete the board. */
  lemma GreedyFillCompletes(l: Layout, cards: seq<Card>)
    requires l.WithinCapacity() && |cards| >= 13 - l.TotalCards()
    ensures GreedyFill(l, cards).IsComplete()
  {
    GreedyFillCapacity(l, cards);
    TotalBound(l);
  }

  // ---------------------------------------------------------------------------
  // The expected value of one option
  // ---------------------------------------------------------------------------

  /** The cards numbered below n that are not known, in increasing order. */
  function DeckBelow(known: set<Card>, n: nat): (deck: seq<Card>)
    requires n <= 52
    ensures forall c: Card :: c in deck <==> c < n && c !in known
    ensures forall i, j :: 0 <= i < j < |deck| ==> deck[i] < deck[j]
    ensures |deck| <= n
  {
    if n == 0 then []
    else
      var prev := DeckBelow(known, n - 1);
      assert forall i :: 0 <= i < |prev| ==> prev[i] in prev;
      prev + (if n - 1 in known then [] else [n - 1])
  }

  /** The number of cards in a deck. */
  const DECK_SIZE: nat := 52

  /** `[c for c in range(52) if c not in known]`. */
  function RemainingDeck(known: set<Card>): seq<Card> {
    DeckBelow(known, DECK_SIZE)
  }

  /** The remaining deck holds every unknown card exactly once, in increasing order. */
  lemma RemainingDeckSpec(known: set<Card>)
    ensures forall c: Card :: c in RemainingDeck(known) <==> c !in known
    ensures Distinct(RemainingDeck(known))
  {
  }

  /** Which cards are known once an option is played: the placed cards and the discard join them. */
  function KnownAfter(known: set<Card>, c: Candidate): (k: set<Card>)
    ensures forall x :: x in k <==> x in known || x in CardsOf(c.placements) || c.discard == Some(x)
  {
    known + SetOf(CardsOf(c.placements)) + (if c.discard.Some? then {c.discard.value} else {})
  }

  /** `min(num_simulations, _max_combinations(len(remaining_deck), slots_needed))`. */
  function TrialCount(numSims: nat, remaining: nat, slots: nat): (n: nat)
    ensures n <= numSims && n <= COMBINATIONS_CAP
    ensures n == 0 <==> numSims == 0 || slots > remaining
  {
    CappedBinomBounds(remaining, slots);
    Min(numSims, CappedBinom(remaining, slots))
  }

  /**
   * The trial count is the number of ways to fill the slots from the remaining
   * deck whenever that binomial is within the cap, and the cap otherwise, each
   * cut down to the number of simulations asked for.
   */
  lemma TrialCountExact(numSims: nat, remaining: nat, slots: nat)
    ensures slots <= remaining && Binom(remaining, slots) <= COMBINATIONS_CAP ==>
      TrialCount(numSims, remaining, slots) == Min(numSims, Binom(remaining, slots))
    ensures slots <= remaining && Binom(remaining, slots) > COMBINATIONS_CAP ==>
      TrialCount(numSims, remaining, slots) == Min(numSims, COMBINATIONS_CAP)
  {
  }

  /** The source of the random draws: the cards `random.sample` gives to trial t. */
  type Sampler = nat -> seq<Card>

  /**
   * The sum of the scores of trials 0..n-1, each the greedy fill of the board
   * with that trial's draw. Every trial scores in -10..105, so n trials sum to
   * between -10n and 105n.
   */
  function TrialTotal(l: Layout, draw: Sampler, n: nat, cmf: FrontVsMiddle): (total: int)
    requires l.WithinCapacity()
    ensures -10 * n <= total <= 105 * n
  {
    if n == 0 then 0 else TrialTotal(l, draw, n - 1, cmf) + TrialScore(l, draw(n - 1), cmf)
  }

  /** One trial: the score of the board filled greedily with the trial's draw, in -10..105. */
  function TrialScore(l: Layout, cards: seq<Card>, cmf: FrontVsMiddle): (score: int)
    requires l.WithinCapacity()
    ensures -10 <= score <= 105
  {
    var filled := GreedyFill(l, cards);
    GreedyFillCapacity(l, cards);
    CompleteIffAllFull(filled);
    ScoreBoardRange(filled, cmf);
    ScoreBoard(filled, cmf)
  }

  /**
   * `_evaluate_placement` with the draws given: a placement into a full row
   * fails; otherwise the option is worth the value of the board it leaves.
   */
  function ExpectedValue(l0: Layout, known: set<Card>, c: Candidate, numSims: nat, draw: Sampler,
                         cmf: FrontVsMiddle): (r: Result<real, SolveError>)
    requires l0.WithinCapacity()
    ensures r.Err? <==> ApplyPlacements(l0, c.placements).Err?
    ensures r.Err? ==> r.error == PlacementFailed(ApplyPlacements(l0, c.placements).error.row)
    ensures r.Ok? ==> -10.0 <= r.value <= 105.0
  {
    match ApplyPlacements(l0, c.placements)
    case Err(e) => Err(PlacementFailed(e.row))
    case Ok(l) =>
      ApplyKeepsCapacity(l0, c.placements);
      PlacedValueRange(l, known, c, numSims, draw, cmf);
      Ok(PlacedValue(l, known, c, numSims, draw, cmf))
  }

  /**
   * The value of the board an option leaves: its own score when complete,
   * else the mean score of the trials, or 0 when there are none.
   */
  function PlacedValue(l: Layout, known: set<Card>, c: Candidate, numSims: nat, draw: Sampler,
                       cmf: FrontVsMiddle): real
    requires l.WithinCapacity()
  {
    CompleteIffAllFull(l);
    if l.IsComplete() then ScoreBoard(l, cmf) as real
    else
      TrialsValue(l, known, c, numSims, draw, cmf)
  }

  /**
   * The value of a board left incomplete: as many trials as asked for but no
   * more than there are ways to deal the empty slots from the unseen cards,
   * and the mean of their scores, 0 when there are none.
   */
  function TrialsValue(l: Layout, known: set<Card>, c: Candidate, numSims: nat, draw: Sampler,
                       cmf: FrontVsMiddle): (v: real)
    requires l.WithinCapacity()
    ensures -10.0 <= v <= 105.0
  {
    TotalBound(l);
    var n := TrialCount(numSims, |RemainingDeck(KnownAfter(known, c))|, 13 - l.TotalCards());
    var total := TrialTotal(l, draw, n, cmf);
    MeanRange(total, n);
    Mean(total, n)
  }

  /** TrialsValue once the number of trials is known. */
  lemma TrialsValueIs(l: Layout, known: set<Card>, c: Candidate, numSims: nat, draw: Sampler, cmf: FrontVsMiddle, n: nat)
    requires l.WithinCapacity() && l.TotalCards() <= 13
    requires n == TrialCount(numSims, |RemainingDeck(KnownAfter(known, c))|, 13 - l.TotalCards())
    ensures TrialsValue(l, known, c, numSims, draw, cmf) == Mean(TrialTotal(l, draw, n, cmf), n)
  {
  }

  /** An option fails exactly when one of its placements meets a full row, with that row. */
  lemma ExpectedValueFails(l0: Layout, known: set<Card>, c: Candidate, numSims: nat, draw: Sampler, cmf: FrontVsMiddle)
    requires l0.WithinCapacity()
    ensures ApplyPlacements(l0, c.placements).Err? <==> ExpectedValue(l0, known, c, numSims, draw, cmf).Err?
    ensures ApplyPlacements(l0, c.placements).Err? ==>
      ExpectedValue(l0, known, c, numSims, draw, cmf) == Err(PlacementFailed(ApplyPlacements(l0, c.placements).error.row))
  {
  }

  /** A board is worth between -10 and 105. */
  lemma PlacedValueRange(l: Layout, known: set<Card>, c: Candidate, numSims: nat, draw: Sampler, cmf: FrontVsMiddle)
    requires l.WithinCapacity()
    ensures -10.0 <= PlacedValue(l, known, c, numSims, draw, cmf) <= 105.0
  {
    CompleteIffAllFull(l);
    if l.IsComplete() {
      ScoreBoardRange(l, cmf);
    }
  }

  /** An option that can be played is worth between -10 and 105. */
  lemma ExpectedValueRange(l0: Layout, known: set<Card>, c: Candidate, numSims: nat, draw: Sampler, cmf: FrontVsMiddle)
    requires l0.WithinCapacity()
    ensures ExpectedValue(l0, known, c, numSims, draw, cmf).Ok? ==>
      -10.0 <= ExpectedValue(l0, known, c, numSims, draw, cmf).value <= 105.0
  {
    if ApplyPlacements(l0, c.placements).Ok? {
      ApplyKeepsCapacity(l0, c.placements);
      PlacedValueRange(ApplyPlacements(l0, c.placements).value, known, c, numSims, draw, cmf);
    }
  }

  /** `total_score / actual_sims if actual_sims > 0 else 0.0`. */
  function Mean(total: int, n: nat): real {
    if n > 0 then total as real / n as real else 0.0
  }

  /** The mean of n scores that each lie in -10..105 lies there too; no trials give 0. */
  lemma MeanRange(total: int, n: nat)
    requires -10 * n <= total <= 105 * n
    ensures -10.0 <= Mean(total, n) <= 105.0
    ensures n == 0 ==> Mean(total, n) == 0.0
  {
    if n > 0 {
      var q := total as real / n as real;
      assert q * n as real == total as real;
    }
  }

  lemma SetOfSnoc(cs: seq<Card>, i: nat)
    requires i < |cs|
    ensures SetOf(cs[..i + 1]) == SetOf(cs[..i]) + {cs[i]}
  {
    assert cs[..i + 1] == cs[..i] + [cs[i]];
  }

  /** The first loop of `_evaluate_placement`: `place_card` for each placement on a copy of the board. */
  method PlaceAllOnCopy(original: OFCBoard, ps: seq<Placement>) returns (board: OFCBoard, r: Result<(), PlaceError>)
    ensures fresh(board)
    ensures r.Ok? ==> ApplyPlacements(original.View(), ps) == Ok(board.View())
    ensures r.Err? ==> ApplyPlacements(original.View(), ps) == Err(r.error)
  {
    ghost var l0 := original.View();
    board := original.Copy();
    for i := 0 to |ps|
      invariant ApplyPlacements(l0, ps[..i]) == Ok(board.View())
    {
      assert ps[..i + 1][..i] == ps[..i];
      var placed := board.PlaceCard(ps[i].row, ps[i].card);
      if placed.Err? {
        ApplyErrPropagates(l0, ps, i + 1, placed.error);
        return board, Err(placed.error);
      }
    }
    assert ps[..|ps|] == ps;
    r := Ok(());
  }

  /** The known cards with the option's placed cards and discard added. */
  method AddKnown(base: set<Card>, c: Candidate) returns (known: set<Card>)
    ensures known == KnownAfter(base, c)
  {
    known := base;
    var cards := CardsOf(c.placements);
    for i := 0 to |cards|
      invariant known == base + SetOf(cards[..i])
    {
      SetOfSnoc(cards, i);
      known := known + {c.placements[i].card};
    }
    if c.discard.Some? {
      known := known + {c.discard.value};
    }
    assert cards[..|cards|] == cards;
  }

  /** The trial loop of `_evaluate_placement`: n greedy fills of copies of the board, scored and summed. */
  method RunTrials(board: OFCBoard, draw: Sampler, n: nat, cmf: FrontVsMiddle) returns (total: int)
    requires board.View().WithinCapacity()
    ensures total == TrialTotal(board.View(), draw, n, cmf)
  {
    total := 0;
    for t := 0 to n
      invariant total == TrialTotal(board.View(), draw, t, cmf)
    {
      var score := PlayTrial(board, draw(t), cmf);
      total := total + score;
    }
  }

  /** One trial of `_evaluate_placement`: fill a copy of the board greedily with the drawn cards and score it. */
  method PlayTrial(board: OFCBoard, cards: seq<Card>, cmf: FrontVsMiddle) returns (score: int)
    requires board.View().WithinCapacity()
    ensures score == TrialScore(board.View(), cards, cmf)
  {
    var sim := board.Copy();
    FillBoardGreedy(sim, cards);
    GreedyFillCapacity(board.View(), cards);
    CompleteIffAllFull(sim.View());
    score := ScoreBoard(sim.View(), cmf);
  }

  /**
   * `_evaluate_placement`: place the option on a copy of the board; score it
   * if that completes the board; otherwise mark the placed cards and the
   * discard as known, run `min(num_simulations, _max_combinations(...))`
   * trials that each fill a copy greedily with the trial's draw, and average.
   */
  method EvaluatePlacement(state: GameState, c: Candidate, numSims: nat, draw: Sampler, cmf: FrontVsMiddle)
    returns (r: Result<real, SolveError>)
    requires state.board.View().WithinCapacity()
    ensures r == ExpectedValue(state.board.View(), state.AllKnownCards(), c, numSims, draw, cmf)
  {
    ghost var l0 := state.board.View();
    var known := state.AllKnownCards();
    var board, placed := PlaceAllOnCopy(state.board, c.placements);
    if placed.Err? {
      return Err(PlacementFailed(placed.error.row));
    }
    var l := board.View();
    ApplyKeepsCapacity(l0, c.placements);
    CompleteIffAllFull(l);
    if l.IsComplete() {
      return Ok(ScoreBoard(l, cmf) as real);
    }
    var ev := SimulateRest(board, known, c, numSims, draw, cmf);
    return Ok(ev);
  }

  /** The part of `_evaluate_placement` for a board the option leaves incomplete: the mean over the trials. */
  method SimulateRest(board: OFCBoard, known0: set<Card>, c: Candidate, numSims: nat, draw: Sampler, cmf: FrontVsMiddle)
    returns (ev: real)
    requires board.View().WithinCapacity() && !board.View().IsComplete()
    ensures ev == PlacedValue(board.View(), known0, c, numSims, draw, cmf)
  {
    TotalBound(board.View());
    var known := AddKnown(known0, c);
    var remaining := RemainingDeck(known);
    var slots := 13 - board.View().TotalCards();
    var combinations := MaxCombinations(|remaining|, slots);
    var actual := Min(numSims, combinations);
    TrialsValueIs(board.View(), known0, c, numSims, draw, cmf, actual);
    var total := RunTrials(board, draw, actual, cmf);
    ev := Mean(total, actual);
  }
}
