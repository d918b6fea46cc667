# OFC Pineapple solver core, modelled in Dafny

This project models the core of a solver for Open-Face Chinese Poker, Pineapple
variant. It covers:

- **Cards.** Cards are numbered 0..51 as `rank * 4 + suit`. The core parses and
  prints them as text, and keeps a deck of the cards that remain.
- **Evaluators.** There is a five-card evaluator for the back and middle rows
  (ten hand classes, lower is better, with a tie-break value) and a three-card
  evaluator for the front row (trips, pair, high card).
- **Boards.** A board has three rows. The front holds 3 cards, the middle 5 and
  the back 5. The game state adds the opponent's board, the hand, the dead cards
  and the round number.
- **Scoring.** This covers royalties, head-to-head points between two complete
  boards, and the Fantasyland entry and stay rules.
- **Solver.** Only its deterministic parts are modelled:
  - the legal placements of an initial five-card deal and of a three-card
    Pineapple deal (keep two, discard one), each deduplicated;
  - the greedy back-middle-front completion of a board;
  - the capped binomial that bounds the number of trials;
  - the score of a finished trial board;
  - the mean over the trials, which is an option's expected value;
  - the ranking of the options, highest expected value first, stable on ties.

## Layout

| module | file | models |
|---|---|---|
| `Wrappers` | `wrappers.dfy` | `Option` and `Result` |
| `Seqs` | `seqs.dfy` | descending sort, `itertools.product`, first-per-key dedup, mapping with a failing function |
| `Cards` | `cards.dfy` | `ofc/card.py`: card functions, text forms, the `Deck` class |
| `Evaluator` | `evaluator.dfy` | `ofc/evaluator.py` |
| `Board` | `board.dfy` | `ofc/board.py`: `Row`, the `Layout` value of a board, the `OFCBoard` and `GameState` classes |
| `Scoring` | `scoring.dfy` | `ofc/scoring.py` |
| `Binomial` | `binomial.dfy` | Pascal's binomial and the facts `_max_combinations` relies on |
| `Solver` | `solver.dfy` | `ofc/solver.py`: generators, greedy fill, trial count, board score, expected value |
| `Solve` | `solve.dfy` | `ofc/solver.py`: `solve`, its ranking and result |
| `Hands` | `hands.dfy` | concrete hands from the repository's tests, worked through the evaluators |

### How the source maps onto the model

**Classes and values.**
- `OFCBoard`, `GameState` and `Deck` are classes whose methods update their
  fields.
- The queries of a board are functions of its value `Layout`, reached through
  `OFCBoard.View()`. The scoring and the solver's specifications work on that value.

**What becomes a precondition, and what becomes an error value.**
- The source's `assert`s on row sizes (`evaluate_5`, `evaluate_3`,
  `score_head_to_head`) become `requires` clauses.
- The generators' hand-size `assert`s become the `WrongHandSize` error value.
- Every `ValueError` becomes a `Result` error:
  - the three parse errors of `card_from_str`;
  - a full row in `place_card`;
  - too few cards in `Deck.deal` (`InsufficientCards`), and a negative count
    (`NegativeCount`);
  - no options in `solve`.

**Randomness.**
- `Deck.deal` picks its cards by nondeterministic choice.
- The Monte Carlo draws are a parameter: `draw(t)` is the card list that trial
  `t` samples, and `Solve` gives option `i` the draws `draws(i, t)`.
- The floating-point mean is an exact real `total / n`.

### Where the model follows the code rather than the description

- **Parse errors.** The description has a single malformed-token failure. The
  code raises three distinct errors, checked in order: length, then rank, then
  suit. The model keeps all three (`InvalidLength`, `InvalidRank`, `InvalidSuit`).
- **Trial count.** The description caps the trial count at C(unseen, slots). The
  code also caps C(n, k) itself at 1,000,000 (`_max_combinations`), and the
  model keeps that cap.
- **Score multiplier.** The docstring of `evaluate_5` gives the combined score as
  class × 10,000,000. The code multiplies by 100,000,000, and the model follows
  the code. (Every five-card tie-break value is below 13^5, so both constants
  order hands the same way.)
- **Initial rows.** The initial-deal generator counts rows from zero. It ignores
  cards already on the board, as the code does (`FitsFromZero`).

## Model

Three modelled queries have no contract of their own, and no row:
- `Cards.Deck.Size` and `Cards.Deck.Contains` (`Deck.size` and
  `Deck.__contains__`, ofc/card.py:112-113 and 142-143) only read the
  `remaining` set. Every `Deck` row below states that set.
- `Board.Layout.IsFouled` (`is_fouled`, ofc/board.py:82-101) is stated by the
  rows of `Board.FouledIff`, `Board.IncompleteNotFouled` and
  `Board.WeakBackFouls`.

| member | source | states |
|---|---|---|
| `Cards.CardRank` | ofc/card.py:38-40 | the rank of a card is below 13, and the card lies in its rank's block of four |
| `Cards.CardSuit` | ofc/card.py:43-45 | the suit is below 4, and rank * 4 + suit rebuilds the card |
| `Cards.MakeCard` | ofc/card.py:64 | the card built from a rank and a suit has exactly that rank and suit |
| `Cards.IndexOf` | ofc/card.py:23-24 | the `RANK_MAP`/`SUIT_MAP` lookup finds a character exactly when the string holds it, at its first position |
| `Cards.Upper` | ofc/card.py:59 | upper-casing shifts only `a`..`z` |
| `Cards.Lower` | ofc/card.py:59 | lower-casing shifts only `A`..`Z` |
| `Cards.Normalize` | ofc/card.py:54-55 | a three-character token starting "10" becomes its "T" form; every other string is unchanged |
| `Cards.CardFromStr` | ofc/card.py:48-64 | a token parses exactly when, after the "10" rewrite, it has two characters, a known upper-cased rank and a known lower-cased suit; the parsed card prints as those two characters |
| `Cards.CardFromStrCases` | ofc/card.py:48-64 | `card_from_str` fails on the length exactly when the normalised token is not two characters; on the rank exactly when the upper-cased rank character is unknown; on the suit exactly when the rank is known and the lower-cased suit is not; a parsed card has the token's rank and suit |
| `Cards.CardToStr` | ofc/card.py:67-69 | a card prints as two characters |
| `Cards.ParseRankSuit` | ofc/card.py:64 | the token of rank character i and suit character j parses to the card of rank i and suit j |
| `Cards.CardRoundTrip` | ofc/card.py:48-69 | parsing a printed card gives the card back |
| `Cards.TokenRoundTrip` | ofc/card.py:48-69 | a canonical token parses, and printing the card gives the token back |
| `Cards.CaseInsensitive` | ofc/card.py:59 | tokens that agree after upper-casing the rank and lower-casing the suit parse alike |
| `Cards.TenForm` | ofc/card.py:54-55 | "10x" parses exactly like "Tx" |
| `Cards.ReplaceCommas` | ofc/card.py:82 | commas become spaces, and every other character stays in place |
| `Cards.SplitJoin` | ofc/card.py:83 | splitting whitespace-free tokens joined by single spaces gives the tokens back |
| `Cards.ReplaceCommasJoin` | ofc/card.py:82 | comma-joined tokens become the space-joined text |
| `Cards.TokenCards` | ofc/card.py:84 | tokens that all parse give one card per token, each the token's card |
| `Cards.ParseTokensSpec` | ofc/card.py:84 | the list comprehension succeeds exactly when every token parses, and then gives the tokens' cards in order |
| `Cards.CardsFromStr` | ofc/card.py:77-84 | the text parses exactly when every whitespace- or comma-separated token is a card, and then gives those cards in order |
| `Cards.CardsToStr` | ofc/card.py:87-89 | the text of n cards is 3n - 1 characters, or empty for no cards |
| `Cards.JoinPairsLength` | ofc/card.py:89 | joining two-character tokens by single spaces takes three characters per token, less one |
| `Cards.ParseCardStrings` | ofc/card.py:84 | parsing the printed tokens of a card list gives the list |
| `Cards.CardsRoundTrip` | ofc/card.py:77-89 | `cards_from_str(cards_to_str(cs))` succeeds with `cs` |
| `Cards.CanonicalTextRoundTrip` | ofc/card.py:77-89 | canonical tokens joined by single spaces parse, and print back to the same text |
| `Cards.CommaSeparated` | ofc/card.py:82-83 | commas separate cards exactly as spaces do |
| `Cards.CardsBelow` | ofc/card.py:104-105 | the cards below n are exactly the numbers below n, n of them |
| `Cards.SetOf` | ofc/card.py:115-123 | the set of a list holds exactly the list's cards |
| `Cards.Deck.constructor` | ofc/card.py:104-105 | a new deck holds all 52 cards |
| `Cards.Deck.Remove` | ofc/card.py:115-118 | the deck loses exactly the given cards; cards it lacks are ignored |
| `Cards.Deck.RemoveStr` | ofc/card.py:120-123 | a parse error leaves the deck unchanged and is reported; otherwise the deck loses exactly the parsed cards |
| `Cards.Deck.Deal` | ofc/card.py:125-134 | asking for more cards than remain fails with `InsufficientCards` and a negative count fails with `NegativeCount`, both leaving the deck unchanged; otherwise n distinct cards of the deck are dealt and removed, and the size drops by n |
| `Cards.Deck.Copy` | ofc/card.py:136-140 | the copy is a new deck with the same cards |
| `Evaluator.RanksOf` | ofc/evaluator.py:87 | the ranks are the cards' ranks, position by position |
| `Evaluator.Tally` | ofc/evaluator.py:105 | each group names a rank of the list with a positive count, and the first group is the first rank |
| `Evaluator.TallyMembers` | ofc/evaluator.py:105 | every group's rank occurs in the list, with a count of at least 1 |
| `Evaluator.TallyValid` | ofc/evaluator.py:105 | the groups of valid ranks have valid ranks and counts |
| `Evaluator.FirstRankWithCountSpec` | ofc/evaluator.py:243-248 | a rank is found exactly when some group has count n, and then (rank, n) is a group |
| `Evaluator.RanksWithCountSpec` | ofc/evaluator.py:251-253 | as many ranks as groups with count n, each naming such a group |
| `Evaluator.Base13Bound` | ofc/evaluator.py:235-240 | a packed list of k ranks lies in 0..13^k-1 |
| `Evaluator.Base13Lex` | ofc/evaluator.py:235-240 | packing preserves the lexicographic order of equal-length rank lists |
| `Evaluator.RankKey` | ofc/evaluator.py:235-240 | the loop computes the base-13 packing of the sorted ranks |
| `Evaluator.RankWithCount` | ofc/evaluator.py:243-248 | the scan returns the first rank with count n, or the error when none has it |
| `Evaluator.QuadsValue` | ofc/evaluator.py:113-117 | a four-of-a-kind value is below 169 |
| `Evaluator.FullHouseValue` | ofc/evaluator.py:119-123 | a full-house value is below 169 |
| `Evaluator.TripsValue` | ofc/evaluator.py:131-134 | a trips value is below 13^3 |
| `Evaluator.TwoPairValue` | ofc/evaluator.py:136-139 | a two-pair value is below 13^3 |
| `Evaluator.OnePairValue` | ofc/evaluator.py:141-144 | a one-pair value is below 13^4 |
| `Evaluator.Evaluate5` | ofc/evaluator.py:75-146 | the class is in 1..10 and the tie-break value in 0..13^5-1 (the outcome itself is `Evaluate5Cases`) |
| `Evaluator.Evaluate3` | ofc/evaluator.py:159-183 | the class is in 1..3 and the tie-break value in 0..13^3-1 |
| `Evaluator.DecideDistinct` | ofc/evaluator.py:108-146 | with five distinct ranks the decision is royal flush, straight flush, flush, straight or high card, in the source's order |
| `Evaluator.DecideNoStraight` | ofc/evaluator.py:113-146 | without a straight, the sorted counts [4,1], [3,2], [3,1,1], [2,2,1], [2,1,1,1] pick quads, full house, trips, two pair, pair, and a flush overrides every pattern but quads and full house |
| `Evaluator.ClassifyByGroups` | ofc/evaluator.py:93-106 | with a repeated rank no straight is found, and the decision rests on the groups and their sorted counts |
| `Evaluator.QuadsValueOf` | ofc/evaluator.py:113-117 | the quads value is quad rank * 13 + kicker |
| `Evaluator.FullHouseValueOf` | ofc/evaluator.py:119-123 | the full-house value is trips rank * 13 + pair rank |
| `Evaluator.TripsValueOf` | ofc/evaluator.py:131-134 | the trips value is trips rank * 169 + the two kickers high to low in base 13 |
| `Evaluator.TwoPairValueOf` | ofc/evaluator.py:136-139 | the two-pair value is high pair * 169 + low pair * 13 + kicker |
| `Evaluator.OnePairValueOf` | ofc/evaluator.py:141-144 | the one-pair value is pair rank * 13^3 + the three kickers high to low in base 13 |
| `Evaluator.FiveOfARank` | ofc/evaluator.py:106-146 | five equal ranks, which only a repeated card can give, fall through every count test: flush or high card |
| `Evaluator.QuadsHigh` | ofc/evaluator.py:113-117 | four of a kind above its kicker is quads valued quad rank * 13 + kicker, flush or not |
| `Evaluator.QuadsLow` | ofc/evaluator.py:113-117 | four of a kind below its kicker is valued the same way |
| `Evaluator.FullHouseHigh` | ofc/evaluator.py:119-123 | trips above the pair make a full house valued trips * 13 + pair, flush or not |
| `Evaluator.FullHouseLow` | ofc/evaluator.py:119-123 | trips below the pair make a full house valued the same way |
| `Evaluator.ClassifyTrips` | ofc/evaluator.py:125-134 | trips with two kickers are a flush when suited, else trips valued by rank and kickers |
| `Evaluator.ClassifyTwoPair` | ofc/evaluator.py:125-139 | two pair with a kicker is a flush when suited, else two pair valued by both pairs and the kicker |
| `Evaluator.ClassifyPair` | ofc/evaluator.py:125-144 | one pair with three kickers is a flush when suited, else one pair valued by the pair and the kickers |
| `Evaluator.TripsFirst` | ofc/evaluator.py:125-134 | sorted ranks t-t-t-k-l are trips valued t, k, l (or a flush) |
| `Evaluator.TripsMiddle` | ofc/evaluator.py:125-134 | sorted ranks k-t-t-t-l are trips valued t, k, l (or a flush) |
| `Evaluator.TripsLast` | ofc/evaluator.py:125-134 | sorted ranks k-l-t-t-t are trips valued t, k, l (or a flush) |
| `Evaluator.TwoPairKickerLast` | ofc/evaluator.py:125-139 | sorted ranks p-p-q-q-k are two pair valued p, q, k (or a flush) |
| `Evaluator.TwoPairKickerMiddle` | ofc/evaluator.py:125-139 | sorted ranks p-p-k-q-q are two pair valued p, q, k (or a flush) |
| `Evaluator.TwoPairKickerFirst` | ofc/evaluator.py:125-139 | sorted ranks k-p-p-q-q are two pair valued p, q, k (or a flush) |
| `Evaluator.PairFirst` | ofc/evaluator.py:125-144 | sorted ranks p-p-k-l-m are one pair valued p, k, l, m (or a flush) |
| `Evaluator.PairSecond` | ofc/evaluator.py:125-144 | sorted ranks k-p-p-l-m are one pair valued p, k, l, m (or a flush) |
| `Evaluator.PairThird` | ofc/evaluator.py:125-144 | sorted ranks k-l-p-p-m are one pair valued p, k, l, m (or a flush) |
| `Evaluator.PairLast` | ofc/evaluator.py:125-144 | sorted ranks k-l-m-p-p are one pair valued p, k, l, m (or a flush) |
| `Evaluator.Classify5Unpaired` | ofc/evaluator.py:93-129 | five distinct sorted ranks evaluate to the straight and flush branches of the spelled-out outcome |
| `Evaluator.Classify5Paired` | ofc/evaluator.py:125-146 | sorted ranks with trips, two pair or one pair evaluate to a flush when suited, else the spelled-out outcome |
| `Evaluator.Classify5Cases` | ofc/evaluator.py:87-146 | on sorted ranks `evaluate_5` is the spelled-out outcome of every rank pattern, in the source's test order |
| `Evaluator.Evaluate5Cases` | ofc/evaluator.py:75-146 | on any five cards the evaluation is that outcome for their ranks sorted high to low and their flushness |
| `Evaluator.RanksOfPermutation` | ofc/evaluator.py:87 | rearranging the cards rearranges their ranks |
| `Evaluator.SortedRanksEqual` | ofc/evaluator.py:87 | hands with the same ranks in any order have the same sorted ranks |
| `Evaluator.Evaluate5Invariant` | ofc/evaluator.py:75-146 | the five-card evaluation depends only on the multiset of ranks and on whether the hand is a flush |
| `Evaluator.Evaluate5Permutation` | ofc/evaluator.py:75-146 | rearranging five cards does not change their evaluation |
| `Evaluator.Evaluate3SuitBlind` | ofc/evaluator.py:159-183 | the three-card evaluation ignores suits |
| `Evaluator.Evaluate3Permutation` | ofc/evaluator.py:159-183 | rearranging three cards does not change their evaluation |
| `Evaluator.FlushIffOneSuit` | ofc/evaluator.py:90 | one distinct suit means every card has the first card's suit, and conversely |
| `Evaluator.TallyDistinct` | ofc/evaluator.py:105-106 | distinct descending ranks each form a group of count 1 |
| `Evaluator.UniqueRanksSorted` | ofc/evaluator.py:95 | the group ranks are strictly descending and hold exactly the ranks: `sorted(set(ranks), reverse=True)` |
| `Evaluator.TallyCounts` | ofc/evaluator.py:105 | every group's count is the number of times its rank occurs, as `Counter` gives it |
| `Evaluator.Classify5Distinct` | ofc/evaluator.py:93-129 | for five distinct ranks only the straight and flush tests decide, in the source's order, with the royal flush for an Ace-high straight flush |
| `Evaluator.ConsecutiveRanks` | ofc/evaluator.py:96-111 | five consecutive ranks are a straight with their top rank; of one suit they are a straight flush, or a royal flush when Ace-high |
| `Evaluator.Wheel` | ofc/evaluator.py:100-103 | A-2-3-4-5 is a straight, or a straight flush, whose high rank is the Five |
| `Evaluator.Score5Order` | ofc/evaluator.py:149-152 | a better class always scores lower; within a class a higher tie-break scores lower; equal scores mean equal evaluations |
| `Evaluator.Score3Order` | ofc/evaluator.py:186-189 | the same for three-card scores |
| `Evaluator.Evaluate5Score` | ofc/evaluator.py:149-152 | the score lies in the class's band: above class * 100,000,000 - 13^5 and at most class * 100,000,000 |
| `Evaluator.Evaluate3Score` | ofc/evaluator.py:186-189 | the score lies in the class's band: above class * 100,000 - 13^3 and at most class * 100,000 |
| `Evaluator.Compare5` | ofc/evaluator.py:208-217 | the result is -1, 0 or 1 |
| `Evaluator.Compare3` | ofc/evaluator.py:220-228 | the result is -1, 0 or 1 |
| `Evaluator.Compare5Classes` | ofc/evaluator.py:208-217 | a better class wins outright, a worse one loses; within a class the higher tie-break wins, and equal tie-breaks tie |
| `Evaluator.Compare3Classes` | ofc/evaluator.py:220-228 | the same for front rows |
| `Evaluator.Compare5Antisymmetric` | ofc/evaluator.py:208-217 | swapping the hands negates the result; a wins exactly when it scores lower, and ties exactly when the evaluations are equal |
| `Evaluator.Compare3Antisymmetric` | ofc/evaluator.py:220-228 | the same for front rows |
| `Evaluator.Classify3Trips` | ofc/evaluator.py:173-175 | three equal ranks are trips valued by that rank |
| `Evaluator.Classify3PairHigh` | ofc/evaluator.py:177-180 | a pair above its kicker is valued pair * 13 + kicker |
| `Evaluator.Classify3PairLow` | ofc/evaluator.py:177-180 | a pair below its kicker is also valued pair * 13 + kicker |
| `Evaluator.Classify3High` | ofc/evaluator.py:183 | three distinct ranks are high card valued by their base-13 packing, high to low |
| `Evaluator.Classify3Cases` | ofc/evaluator.py:169-183 | on sorted ranks the three-card evaluation is trips, pair or high card, as the ranks dictate |
| `Evaluator.Evaluate3Cases` | ofc/evaluator.py:159-183 | on any three cards the evaluation is that outcome for their ranks sorted high to low |
| `Board.Layout.Append` | ofc/board.py:58-63 | the row gets the card at its end, and the other rows are unchanged |
| `Board.Layout.Place` | ofc/board.py:58-63 | placing succeeds exactly when the row is below capacity, and then appends; otherwise it fails with that row's `RowFull` |
| `Board.Layout.AllCards` | ofc/board.py:103-105 | all cards hold the three rows' cards, as many as the board's total |
| `Board.Layout.RowRemaining` | ofc/board.py:50-52 | the room left plus the row's length is its capacity; within capacity it lies between 0 and the capacity |
| `Board.Layout.CanPlace` | ofc/board.py:54-56 | a row can take a card exactly when placing any card there succeeds |
| `Board.Layout.TotalCards` | ofc/board.py:65-67 | within capacity a board holds at most 13 cards |
| `Board.Layout.IsComplete` | ofc/board.py:69-71 | within capacity a board is complete exactly when all three rows are full |
| `Board.Layout.IsFrontFull` | ofc/board.py:73-74 | within capacity the front is full exactly when it cannot take a card |
| `Board.Layout.IsMiddleFull` | ofc/board.py:76-77 | within capacity the middle is full exactly when it cannot take a card |
| `Board.Layout.IsBackFull` | ofc/board.py:79-80 | within capacity the back is full exactly when it cannot take a card |
| `Board.CanPlaceIffPlaces` | ofc/board.py:50-63 | `can_place` is true exactly when `place_card` succeeds, and the room left is capacity minus length |
| `Board.PlaceKeepsCapacity` | ofc/board.py:58-63 | placing keeps every row within capacity and adds one card |
| `Board.CompleteIffAllFull` | ofc/board.py:69-80 | within capacity, 13 cards means all three rows are full, and conversely |
| `Board.TotalBound` | ofc/board.py:65-67 | within capacity, a board holds at most 13 cards |
| `Board.IncompleteNotFouled` | ofc/board.py:88-89 | an incomplete board is never fouled |
| `Board.FouledIff` | ofc/board.py:82-101 | a complete board is fouled exactly when the middle beats the back under `compare_5`, or `compare_middle_front` says the front beats the middle; equivalently, the back's class is worse than the middle's, or the same class with a lower tie-break, or the front beats the middle |
| `Board.WeakBackFouls` | ofc/board.py:91-95 | a back that loses to the middle fouls the board, whatever the front |
| `Board.OFCBoard.constructor` | ofc/board.py:34-39 | a new board is empty |
| `Board.OFCBoard.FromRows` | ofc/board.py:34-39 | a board built from rows holds those rows |
| `Board.OFCBoard.PlaceCard` | ofc/board.py:58-63 | on success the board becomes the placed layout; on a full row the error is reported and the board is unchanged |
| `Board.OFCBoard.Copy` | ofc/board.py:107-113 | the copy is a new board with the same rows |
| `Board.PlaceOnCopy` | ofc/board.py:107-113 | placing on a copy leaves the original board unchanged |
| `Board.GameState.constructor` | ofc/board.py:143-151 | a new state has two distinct empty boards, no cards, no Fantasyland and round 0 |
| `Board.GameState.FromParts` | ofc/board.py:143-151 | a state built from parts holds those parts |
| `Board.GameState.AllKnownCards` | ofc/board.py:172-178 | a card is known exactly when it is on either board, in the hand or among the dead cards |
| `Board.GameState.Copy` | ofc/board.py:180-188 | the copy has fresh boards with the same rows, and the same hand, dead cards, flag and round |
| `Board.GameState.CardsToPlace` | ofc/board.py:158-164 | five cards are placed exactly in round 0, and two in every other round |
| `Board.GameState.CardsToDiscard` | ofc/board.py:165-170 | no card is discarded exactly in round 0; placed plus discarded is the five dealt in round 0 and the three dealt later |
| `Board.DealSizes` | ofc/board.py:153-170 | round 0 places all five cards and discards none; later rounds place two and discard one |
| `Scoring.BackRoyaltyOf` | ofc/scoring.py:39-46 | no back royalty exceeds 25 |
| `Scoring.BackTable` | ofc/scoring.py:39-46 | the back table holds exactly the listed classes; every other class earns 0 |
| `Scoring.MiddleTable` | ofc/scoring.py:49-57 | the middle table doubles the back table, and adds 2 for trips, which the back does not reward |
| `Scoring.RoyaltiesBack` | ofc/scoring.py:81-86 | a back row earns at most 25, and earns something exactly when it holds five cards that make a straight or better |
| `Scoring.RoyaltiesMiddle` | ofc/scoring.py:89-94 | a middle row earns at most 50, and earns something exactly when it holds five cards that make trips or better |
| `Scoring.RoyaltiesFront` | ofc/scoring.py:97-111 | a front row earns at most 22; trips earn at least 10; high card, or any length but 3, earns 0 |
| `Scoring.BackRoyalties` | ofc/scoring.py:81-86 | a five-card back row earns its class's entry, and any other length earns 0 |
| `Scoring.MiddleDoublesBack` | ofc/scoring.py:89-94 | a five-card middle row earns twice the back royalty, or 2 for trips; any other length earns 0 |
| `Scoring.BackRoyaltyBound` | ofc/scoring.py:81-86 | back royalties lie in 0..25 |
| `Scoring.MiddleRoyaltyBound` | ofc/scoring.py:89-94 | middle royalties lie in 0..50 |
| `Scoring.FrontOutcomeRoyalty` | ofc/scoring.py:97-111 | trips of rank x earn 10 + x; a pair of Sixes or better earns its rank minus 3; anything else earns 0 |
| `Scoring.FrontRoyalties` | ofc/scoring.py:97-111 | front royalties in terms of the sorted ranks: trips, a pair (always the middle rank) of Sixes or better, or 0 |
| `Scoring.FrontRoyaltyBound` | ofc/scoring.py:97-111 | front royalties lie in 0..22 |
| `Scoring.NoRoyaltiesWhenFouled` | ofc/scoring.py:114-119 | incomplete and fouled boards earn no royalties |
| `Scoring.TotalRoyalties` | ofc/scoring.py:114-119 | a board earns at most 97, and earns something only when it is complete and clean |
| `Scoring.EstimateRoyalties` | ofc/scoring.py:237-250 | the estimate is at most 97, and positive only when some row is full |
| `Scoring.EstimateMatchesTotal` | ofc/scoring.py:237-250 | on a complete, clean board the estimate equals the actual royalty total |
| `Scoring.EstimateOfFullRows` | ofc/scoring.py:237-250 | the estimate adds the royalties of the full rows only |
| `Scoring.CountsSwap` | ofc/scoring.py:164-165 | negating the row results swaps rows won and rows lost |
| `Scoring.RowPointsSwap` | ofc/scoring.py:164-174 | row points are antisymmetric and always one of -6, -2, -1, 0, 1, 2, 6 |
| `Scoring.RowPointsSwapBoards` | ofc/scoring.py:157-174 | swapping the boards negates the row points |
| `Scoring.ScoreAntisymmetric` | ofc/scoring.py:131-179 | head-to-head scoring is zero-sum: swapping the boards negates the score |
| `Scoring.CleanScore` | ofc/scoring.py:154-179 | with both boards clean, the score is rows won minus rows lost under `compare_3`/`compare_5`, plus 3 for a sweep or minus 3 for being swept, plus my royalties minus the opponent's; the row points are one of -6, -2, -1, 0, 1, 2, 6 |
| `Scoring.FoulScores` | ofc/scoring.py:139-152 | two fouled boards exchange nothing; a fouled board pays 6 plus the clean opponent's royalties |
| `Scoring.ScoreHeadToHead` | ofc/scoring.py:131-179 | the score lies in -103..103; two fouled boards score 0; a fouled board loses at least 6, and a clean one against a fouled board wins at least 6 |
| `Scoring.QualifiesFantasyland` | ofc/scoring.py:186-205 | only a complete, clean board with a front better than high card qualifies, and front trips always do |
| `Scoring.StaysFantasyland` | ofc/scoring.py:208-230 | a board can only stay when it is complete and not fouled; the rule in terms of ranks and suits is `Scoring.StaysIff` |
| `Scoring.StaysIff` | ofc/scoring.py:208-230 | a complete board stays exactly when it is not fouled and either its front's sorted ranks are all equal, or the middle's sorted ranks and flushness form a full house, quads, a straight flush or a royal flush, or the back's form quads, a straight flush or a royal flush |
| `Scoring.Outcome5Thresholds` | ofc/evaluator.py:92-123 | on five sorted ranks, the class is quads or better exactly when four ranks match or the five run in sequence (the A-2-3-4-5 wheel included) in one suit, and full house or better when, in addition, three ranks match and the other two pair |
| `Scoring.FrontOutcomeQualifies` | ofc/scoring.py:194-205 | a front outcome qualifies exactly when it is trips or a pair of Queens or better |
| `Scoring.QualifiesIff` | ofc/scoring.py:186-205 | a complete board enters Fantasyland exactly when it is clean and its front, by its sorted ranks, is trips or a pair of Queens or better |
| `Scoring.TripsQualifyAndStay` | ofc/scoring.py:186-230 | a clean board with front trips both enters and stays in Fantasyland |
| `Scoring.FantasylandNeedsCleanBoard` | ofc/scoring.py:191-192 | neither Fantasyland rule admits an incomplete or fouled board |
| `Binomial.BinomStep` | ofc/solver.py:318-319 | the step `result * (n - i) // (i + 1)` takes C(n, i) to C(n, i + 1) exactly |
| `Binomial.BinomSymmetric` | ofc/solver.py:316 | C(n, k) = C(n, n - k), so `k = min(k, n - k)` changes nothing |
| `Binomial.BinomGrows` | ofc/solver.py:318-321 | the coefficients grow up to the middle of the row, so the first value over the cap means the result is over it |
| `Seqs.SortDesc` | ofc/evaluator.py:87 | the sorted list is descending and a rearrangement of the input |
| `Seqs.SortedDescUnique` | ofc/evaluator.py:87 | two descending lists holding the same values are equal |
| `Seqs.ProductMember` | ofc/solver.py:206 | every entry of `product(xs, repeat=n)` is a length-n list over xs |
| `Seqs.ProductComplete` | ofc/solver.py:206 | every length-n list over xs is an entry of the product |
| `Seqs.DedupKeys` | ofc/solver.py:217-224 | deduplication keeps every key |
| `Seqs.DedupDistinct` | ofc/solver.py:179-185 | the kept options have pairwise distinct keys |
| `Seqs.DedupKeepsFirst` | ofc/solver.py:179-185 | each kept option comes from the input and is the first with its key |
| `Seqs.MapResultOk` | ofc/card.py:84 | the list comprehension succeeds exactly when every element parses, and then yields their results in order |
| `Seqs.MapResultFirstError` | ofc/card.py:84 | when it fails, the error is that of the first failing element |
| `Solver.Zip` | ofc/solver.py:214 | `zip` is as long as the shorter list and pairs the elements position by position |
| `Solver.Deduplicate` | ofc/solver.py:178-185 | the `seen`-set loop computes the first-per-key deduplication |
| `Solver.FitsCapacity` | ofc/solver.py:208-213 | the counting loop with its `break` accepts an assignment exactly when no row count exceeds its capacity |
| `Solver.GenerateInitialPlacements` | ofc/solver.py:190-226 | a hand of any size but 5 fails with `WrongHandSize`; otherwise the result is the deduplicated fitting assignments |
| `Solver.InitialOptionShape` | ofc/solver.py:206-215 | every initial option discards nothing and places the five hand cards in order, on rows that fit |
| `Solver.InitialOptionsDistinct` | ofc/solver.py:217-224 | no two initial options hold the same (card, row) pairs |
| `Solver.InitialOptionsComplete` | ofc/solver.py:205-224 | every fitting distribution of the hand is offered, up to the order of its pairs |
| `Solver.MaxCombinations` | ofc/solver.py:310-322 | the loop returns C(n, k) capped at 1,000,000: 0 when k > n, 1 at the ends |
| `Solver.CappedBinomBounds` | ofc/solver.py:310-322 | the result never exceeds the cap, is exact below it, and is at least 1 when k <= n |
| `Solver.ScoreBoard` | ofc/solver.py:280-294 | a board scores in -10..105, and scores -10 exactly when it is complete and fouled |
| `Solver.ScoreCompleteBoard` | ofc/solver.py:280-294 | a fouled complete board scores -10; a clean one scores its royalties, plus 8 when it qualifies for Fantasyland |
| `Solver.FoulScoresLowest` | ofc/solver.py:280-294 | a fouled board scores below every clean or partial board |
| `Solver.ScoreBoardParts` | ofc/solver.py:280-294 | a board's score is -10, or between 0 and its three row royalties plus the bonus |
| `Solver.ScoreBoardRange` | ofc/solver.py:280-294 | a board's score lies in -10..105 |
| `Solver.ApplyErrPropagates` | ofc/solver.py:245-246 | once a prefix of the placements meets a full row, the whole list fails with that error |
| `Solver.ApplyKeepsCapacity` | ofc/solver.py:245-246 | placing one by one keeps rows within capacity and adds one card per placement |
| `Solver.ApplyContents` | ofc/solver.py:245-246 | each row of the placed board is the old row followed by the cards sent to it, in order |
| `Solver.AvailableRows` | ofc/solver.py:154 | the available rows are exactly the rows with room, without repeats |
| `Solver.Without` | ofc/solver.py:159 | the cards to place are the hand with one card fewer |
| `Solver.PlaceOnBoardCopy` | ofc/solver.py:164-173 | the copy-and-place loop succeeds exactly when both placements fit in turn, and then keeps them |
| `Solver.GeneratePineapplePlacements` | ofc/solver.py:146-187 | a hand of any size but 3 fails with `WrongHandSize`; otherwise the result is the deduplicated options that fit |
| `Solver.PineappleOptionShape` | ofc/solver.py:156-176 | every option discards one hand card, places the other two in order on available rows, and fits; with distinct cards the discard is not placed |
| `Solver.PineappleOptionsDistinct` | ofc/solver.py:178-185 | no two Pineapple options hold the same pairs and the same discard |
| `Solver.PineappleOptionsComplete` | ofc/solver.py:156-185 | every fitting choice of discard and two available rows is offered, up to the order of the pairs |
| `Solver.FillRow` | ofc/solver.py:305-307 | the `while` loop for one row takes the next cards that the row has room for |
| `Solver.FillBoardGreedy` | ofc/solver.py:297-307 | the board becomes the greedy fill of the old board |
| `Solver.GreedyFillSteps` | ofc/solver.py:304 | the fill treats the back, then the middle, then the front |
| `Solver.GreedyFillBackFirst` | ofc/solver.py:304-307 | the back takes the first cards, as many as it has room for |
| `Solver.GreedyFillExtends` | ofc/solver.py:297-307 | the fill only appends: each old row is a prefix of the new one |
| `Solver.GreedyFillCapacity` | ofc/solver.py:297-307 | the fill keeps rows within capacity and places min(cards, empty slots) cards |
| `Solver.GreedyFillCompletes` | ofc/solver.py:297-307 | enough cards for the empty slots complete the board |
| `Solver.DeckBelow` | ofc/solver.py:260 | the list holds exactly the unknown cards below n, in increasing order |
| `Solver.RemainingDeckSpec` | ofc/solver.py:260 | the remaining deck holds every unknown card exactly once |
| `Solver.KnownAfter` | ofc/solver.py:253-258 | the known cards after an option are the old ones, the placed cards and the discard |
| `Solver.TrialCountExact` | ofc/solver.py:268 | the trial count is the smaller of the requested simulations and the number of ways C(remaining, slots) to fill the slots when that is within the cap, and the smaller of the requested simulations and the cap otherwise |
| `Solver.TrialCount` | ofc/solver.py:268 | the bounds on the trial count: no more than requested or the cap, and 0 exactly when none are requested or the slots outnumber the deck |
| `Solver.TrialTotal` | ofc/solver.py:267-275 | the total of n trials lies in -10n..105n |
| `Solver.TrialScore` | ofc/solver.py:271-275 | one trial's score lies in -10..105 |
| `Solver.TrialsValue` | ofc/solver.py:252-277 | the mean over the trials lies in -10..105 |
| `Solver.TrialsValueIs` | ofc/solver.py:266-277 | the value is the mean of the trial total over the trial count |
| `Solver.ExpectedValueFails` | ofc/solver.py:244-246 | an option fails exactly when a placement meets a full row, with that row's error |
| `Solver.PlacedValueRange` | ofc/solver.py:248-277 | a placed board is worth between -10 and 105 |
| `Solver.ExpectedValueRange` | ofc/solver.py:233-277 | an option that can be played is worth between -10 and 105 |
| `Solver.ExpectedValue` | ofc/solver.py:233-277 | an option fails exactly when a placement meets a full row, with that row's `PlacementFailed`; otherwise it is worth between -10 and 105 |
| `Solver.MeanRange` | ofc/solver.py:277 | the mean of scores in -10..105 lies there too; no trials give 0 |
| `Solver.PlaceAllOnCopy` | ofc/solver.py:244-246 | the loop on a fresh copy ends in the placed layout, or reports the first full row |
| `Solver.AddKnown` | ofc/solver.py:253-258 | the loop adds the placed cards and the discard to the known cards |
| `Solver.RunTrials` | ofc/solver.py:267-275 | the trial loop sums the trial scores |
| `Solver.PlayTrial` | ofc/solver.py:271-275 | one trial fills a copy greedily and scores it |
| `Solver.EvaluatePlacement` | ofc/solver.py:233-277 | `_evaluate_placement` computes the option's expected value, or the full-row error |
| `Solver.SimulateRest` | ofc/solver.py:252-277 | for a board left incomplete, the loop computes the mean over the trials |
| `Solve.InsertByEv` | ofc/solver.py:127 | insertion adds one entry |
| `Solve.InsertPerm` | ofc/solver.py:127 | insertion adds exactly the entry |
| `Solve.InsertSorted` | ofc/solver.py:127 | insertion keeps the ranking highest first |
| `Solve.InsertStable` | ofc/solver.py:127 | insertion puts the entry after the entries of equal value |
| `Solve.SortByEv` | ofc/solver.py:127 | the ranking has as many entries as the input |
| `Solve.SortByEvSorted` | ofc/solver.py:127 | the ranking is highest expected value first |
| `Solve.SortByEvPerm` | ofc/solver.py:127 | the ranking holds the same entries, each as often |
| `Solve.SortByEvStable` | ofc/solver.py:127 | entries of equal value keep their order: Python's sort is stable, even with `reverse=True` |
| `Solve.SortByEvFirst` | ofc/solver.py:127-129 | the first entry of the ranking is an entry, and none is worth more |
| `Solve.OptionValues` | ofc/solver.py:122-124 | each option gets the expected value computed from its own draws |
| `Solve.ScoreOptionsSpec` | ofc/solver.py:121-124 | on success every option gets an entry, in order, holding its value |
| `Solve.ScoreOptionsFails` | ofc/solver.py:121-124 | the evaluation loop fails exactly when some option's value is a failure |
| `Solve.ScoreErrPropagates` | ofc/solver.py:121-124 | a failure among the first options is the failure of the whole loop |
| `Solve.RankedBest` | ofc/solver.py:127-138 | the result is the first entry of a stable, highest-first ranking of all entries, and no entry is worth more |
| `Solve.SolveSpec` | ofc/solver.py:95-139 | a generator error is the result; no options give `NoValidPlacements`; a solution reports the requested simulations and a non-empty highest-first ranking whose first entry gives the result's placements, discard and value |
| `Solve.Solve` | ofc/solver.py:95-139 | the method computes the solver's specification for the state and draws |
| `Solve.ScoreAll` | ofc/solver.py:121-124 | the loop computes the entries of all options, or the first failure |
| `Solve.SolveFails` | ofc/solver.py:112-124 | `solve` fails exactly when the generator rejects the hand, there are no options (`NoValidPlacements`), or an option cannot be placed |
| `Solve.SolveBest` | ofc/solver.py:127-138 | a solution is the ranking of the options' entries, each worth between -10 and 105 |
| `Solve.SolveRanksEveryOption` | ofc/solver.py:121-138 | every option appears in the ranking, with its expected value |
| `Solve.EntriesFromOptions` | ofc/solver.py:121-127 | entries holding the same values as the scored options each come from an option, with that option's value |
| `Solve.SolveEntriesAreOptions` | ofc/solver.py:121-138 | every entry of the ranking is an option from the generator, with the expected value it gets from its own draws |
| `Solve.SolveChoosesAnOption` | ofc/solver.py:127-138 | the result's placements and discard are those of a generator option, and its expected value is that option's |
| `Solve.SolveInitialShape` | tests/test_solver.py:13-47 | in round 0 the result places the five hand cards in order, discards nothing, and puts at most 3, 5 and 5 cards in the rows |
| `Solve.SolvePineappleShape` | tests/test_solver.py:54-83 | after round 0 the result discards one hand card and places the other two in order, both fitting on the board; with distinct cards the discard is not placed |
| `Solve.InitialOptionsNonEmpty` | ofc/solver.py:190-226 | a five-card initial deal always has options |
| `Hands.RoyalFlushHand` | tests/test_evaluator.py:32-35 | Ah Kh Qh Jh Th is a royal flush |
| `Hands.StraightFlushHand` | tests/test_evaluator.py:37-40 | 9h 8h 7h 6h 5h is a straight flush, Nine high |
| `Hands.FourOfAKindHand` | tests/test_evaluator.py:42-45 | four Aces with a Two are four of a kind valued Ace, Two |
| `Hands.AcesFullHand` | tests/test_evaluator.py:47-50 | Ah Ac Ad Ks Kc is a full house, Aces full of Kings |
| `Hands.FlushHand` | tests/test_evaluator.py:52-55 | Ah Th 8h 5h 3h is a flush valued A-T-8-5-3 |
| `Hands.StraightHand` | tests/test_evaluator.py:57-60 | Ts 9c 8h 7d 6s is a straight, Ten high |
| `Hands.TripAcesHand` | tests/test_evaluator.py:68-71 | Ah Ac Ad Ks 3c is trip Aces with King and Three |
| `Hands.AcesAndKingsHand` | tests/test_evaluator.py:73-76 | Ah Ac Kd Ks 3c is Aces and Kings with a Three |
| `Hands.PairOfAcesHand` | tests/test_evaluator.py:78-81 | Ah Ac Kd Qs 3c is a pair of Aces with King, Queen, Three |
| `Hands.AceHighHand` | tests/test_evaluator.py:83-86 | Ah Tc 8d 5s 3c is high card valued A-T-8-5-3 |
| `Hands.RoyalOverStraightFlush` | tests/test_evaluator.py:92-95 | the royal flush beats the straight flush |
| `Hands.KingsFullOfQueensHand` | tests/test_evaluator.py:97-100 | Kh Kc Kd Qs Qc is Kings full of Queens |
| `Hands.QuadAcesOverKingsFull` | tests/test_evaluator.py:97-100 | four Aces beat Kings full of Queens |
| `Hands.FlushOverStraight` | tests/test_evaluator.py:102-105 | the Ace-high flush beats the Ten-high straight |
| `Hands.PairOfKingsHand` | tests/test_evaluator.py:107-110 | Kh Kc Qd Js 3c is a pair of Kings with Queen, Jack, Three |
| `Hands.HigherPairWins5` | tests/test_evaluator.py:107-110 | a pair of Aces beats a pair of Kings |
| `Hands.AcesKingKickerHand` | tests/test_evaluator.py:117 | Ah As Kd 5c 3d is a pair of Aces with King, Five, Three |
| `Hands.AcesQueenKickerHand` | tests/test_evaluator.py:118 | Ah As Qd 5c 3d is a pair of Aces with Queen, Five, Three |
| `Hands.HigherKickerWins` | tests/test_evaluator.py:112-119 | between the two pairs of Aces the King kicker wins |
| `Hands.FullHouseHand` | tests/test_evaluator.py:137 | Kc Kd Ks Qh Qc is Kings full of Queens |
| `Hands.ThreeOfAKindHand` | tests/test_evaluator.py:140 | Jc Jd Js 8h 3c is trip Jacks with Eight and Three |
| `Hands.TwoPairHand` | tests/test_evaluator.py:141 | Tc Td 9h 9s 3c is Tens and Nines with a Three |
| `Hands.OnePairHand` | tests/test_evaluator.py:142 | 8c 8d Ah Ks 3c is a pair of Eights with Ace, King, Three |
| `Hands.HighCardHand` | tests/test_evaluator.py:143 | Ac Tc 8d 5s 3h is high card valued A-T-8-5-3 |
| `Hands.StraightFlushOverQuads` | tests/test_evaluator.py:131-150 | in the hierarchy, the straight flush beats four Aces |
| `Hands.QuadsOverFullHouse` | tests/test_evaluator.py:131-150 | four Aces beat Kings full |
| `Hands.FullHouseOverFlush` | tests/test_evaluator.py:131-150 | Kings full beat the Ace-high flush |
| `Hands.StraightOverTrips` | tests/test_evaluator.py:131-150 | the Ten-high straight beats trip Jacks |
| `Hands.TripsOverTwoPair` | tests/test_evaluator.py:131-150 | trip Jacks beat Tens and Nines |
| `Hands.TwoPairOverPair` | tests/test_evaluator.py:131-150 | Tens and Nines beat a pair of Eights |
| `Hands.PairOverHighCard` | tests/test_evaluator.py:131-150 | a pair of Eights beats Ace-Ten high |
| `Hands.SixHighIsStraight` | tests/test_evaluator.py:121-124 | 6-5-4-3-2 of mixed suits is a straight whose high rank is the Six |
| `Hands.WheelIsStraight` | tests/test_evaluator.py:121-124 | A-2-3-4-5 of mixed suits is a straight whose high rank is the Five |
| `Hands.WheelLosesToSixHigh` | tests/test_evaluator.py:121-124 | the six-high straight beats the wheel |
| `Hands.RoyalsTie` | tests/test_evaluator.py:126-129 | royal flushes in hearts and in spades tie |
| `Hands.TripDeuces` | tests/test_evaluator.py:171-174 | 2-2-2 in front is trips of Twos |
| `Hands.AcesKingFront` | tests/test_evaluator.py:161-164 | A-A-K in front is a pair of Aces with a King kicker |
| `Hands.TripsBeatPair` | tests/test_evaluator.py:171-174 | trip Twos beat a pair of Aces in front |
| `Hands.AceDeuces` | tests/test_evaluator.py:176-179 | 2-2-A in front is a pair of Twos with an Ace kicker |
| `Hands.AceKingQueen` | tests/test_evaluator.py:166-169 | A-K-Q in front is high card |
| `Hands.PairBeatsHighCard` | tests/test_evaluator.py:176-179 | a pair of Twos beats Ace-high in front |
| `Hands.AcesDeuce` | tests/test_evaluator.py:181-184 | A-A-2 in front is a pair of Aces with a Two kicker |
| `Hands.KingsQueen` | tests/test_evaluator.py:181-184 | K-K-Q in front is a pair of Kings with a Queen kicker |
| `Hands.HigherPairWins` | tests/test_evaluator.py:181-184 | a pair of Aces beats a pair of Kings in front |
| `Hands.QueensQualify` | tests/test_scoring.py:141-151 | a front of Q-Q-2 meets Fantasyland's front rule |
| `Hands.JacksDoNotQualify` | tests/test_scoring.py:153-162 | a front of J-J-2 does not |

## Left out

- Board.OFCBoard.FromRows: builds the board from the row sequences as values.
  Python's constructor keeps the caller's list objects, so later changes to
  those lists would show through the board. Nothing in the core relies on
  that sharing: `copy` passes fresh lists.
- **Missing comparison.** `compare_middle_front` is imported by `ofc/board.py`
  but not defined in `ofc/evaluator.py`. The model takes it as the abstract
  parameter `cmf`, and gives it no meaning of its own.
- **Outside the core.** The model leaves out display and pretty-printing
  (`card_to_pretty`, `display`, `__repr__`, row names), the command-line
  program, the device bridge, timing (`elapsed_seconds`) and the
  multiprocessing option of `solve`. They are I/O or presentation.
- **Randomness.**
  - `random.sample` in `Deck.deal` becomes a nondeterministic choice.
  - The trial draws are a parameter, so the model does not state that they
    are uniform. It also does not state that they avoid the known cards.
  - The mean of the trial scores is an exact real, not a floating-point
    number.
- **Letter case.** `str.upper()`/`str.lower()` are modelled for ASCII
  letters only. `str.split()` splits on the characters Python treats as
  whitespace (`Cards.IsSpace`): tab through carriage return, the separators
  0x1C-0x1F, the space, and the Unicode spaces and line separators.
- **Deduplication key.** The source uses a sorted tuple of (card, row) pairs.
  The model uses the multiset of placements, which identifies the same options.
- **Unreachable branch.** `_evaluate_placement`'s branch for zero empty slots
  (`ofc/solver.py:263-264`) is omitted. It cannot be reached once the board is
  known to be incomplete.
- **Extra preconditions.**
  - `Board.Layout.IsFouled`, `Scoring.TotalRoyalties` and `Solver.ScoreBoard`
    require that a complete board's rows have their exact sizes. The source
    would fail an assertion otherwise.
  - `Solver.EvaluatePlacement` and `Solve.Solve` require the board to be
    within capacity, as every board built by `place_card` is.
- Solver.GeneratePineapplePlacements: the model does not prove that a board
  with room always yields at least one Pineapple option.
- Solver.GreedyFill: what the fill leaves is stated by its row-by-row steps,
  the back row's cards, capacity, card count and completion. Closed forms for
  the middle and front rows are not given.
- Solver.TrialCount: the model does not prove that the remaining deck has
  52 minus the number of known cards.
- Solver.TrialCount: the number of simulations is a `nat`, so a negative
  `num_simulations` is not modelled. Python would take an empty range and
  return 0.0 for the option.
