/**
 * An OFC board: three rows of capacity 3 (front), 5 (middle) and 5 (back)
 * that cards are appended to one at a time, and the bookkeeping of a
 * Pineapple hand.
 *
 * `OFCBoard` is a class whose three row fields `PlaceCard` updates in place.
 * Its read-only queries depend only on the three rows, so they are defined
 * once, on the value `Layout` that `View()` returns; the scoring and the
 * solver use the same value.
 *
 * `compare_middle_front`, which the foul check calls, is not defined by the
 * evaluator this board imports; it is an abstract parameter `cmf` here, of
 * which nothing is assumed.
 */
module Board {
  import opened Wrappers
  import opened Cards
  import opened Evaluator

  /** `Row`: FRONT = 0, MIDDLE = 1, BACK = 2. */
  datatype Row = Front | Middle | Back

  /** `list(Row)`, in declaration order. */
  const ALL_ROWS: seq<Row> := [Front, Middle, Back]

  /** `ROW_CAPACITY`. */
  function Capacity(r: Row): nat {
    match r
    case Front => 3
    case Middle => 5
    case Back => 5
  }

  /** The missing `compare_middle_front(middle, front)`: negative when the front beats the middle. */
  type FrontVsMiddle = (seq<Card>, seq<Card>) -> int

  /** The `ValueError` raised by `place_card` on a full row. */
  datatype PlaceError = RowFull(row: Row)

  /** The three rows of a board, as a value. */
  datatype Layout = Layout(front: seq<Card>, middle: seq<Card>, back: seq<Card>) {

    /** `row(r)`. */
    function RowCards(r: Row): seq<Card> {
      match r
      case Front => front
      case Middle => middle
      case Back => back
    }

    /** `row_remaining(r)`: may be negative only for a row built over capacity. */
    function RowRemaining(r: Row): (n: int)
      ensures |RowCards(r)| + n == Capacity(r)
      ensures WithinCapacity() ==> 0 <= n <= Capacity(r)
    {
      Capacity(r) - |RowCards(r)|
    }

    /** `can_place(r)`. */
    function CanPlace(r: Row): (b: bool)
      ensures forall card: Card :: b <==> Place(r, card).Ok?
    {
      RowRemaining(r) > 0
    }

    /** The board with card appended to row r. */
    function Append(r: Row, card: Card): (l: Layout)
      ensures l.RowCards(r) == RowCards(r) + [card]
      ensures forall o :: o != r ==> l.RowCards(o) == RowCards(o)
    {
      match r
      case Front => this.(front := front + [card])
      case Middle => this.(middle := middle + [card])
      case Back => this.(back := back + [card])
    }

    /** `place_card(r, card)` as a value: the appended board, or `RowFull` when the row has no room. */
    function Place(r: Row, card: Card): (res: Result<Layout, PlaceError>)
      ensures res.Ok? <==> |RowCards(r)| < Capacity(r)
      ensures res.Ok? ==> res.value == Append(r, card)
      ensures res.Err? ==> res.error == RowFull(r)
    {
      if |RowCards(r)| >= Capacity(r) then Err(RowFull(r)) else Ok(Append(r, card))
    }

    /** `total_cards()`. */
    function TotalCards(): (n: nat)
      ensures WithinCapacity() ==> n <= 13
    {
      |front| + |middle| + |back|
    }

    /** `is_complete()`: all 13 slots filled. */
    function IsComplete(): (b: bool)
      ensures WithinCapacity() ==> (b <==> IsFrontFull() && IsMiddleFull() && IsBackFull())
    {
      TotalCards() == 13
    }

    function IsFrontFull(): (b: bool)
      ensures WithinCapacity() ==> (b <==> !CanPlace(Front))
    {
      |front| == 3
    }

    function IsMiddleFull(): (b: bool)
      ensures WithinCapacity() ==> (b <==> !CanPlace(Middle))
    {
      |middle| == 5
    }

    function IsBackFull(): (b: bool)
      ensures WithinCapacity() ==> (b <==> !CanPlace(Back))
    {
      |back| == 5
    }

    /** No row holds more than its capacity: what every board built by `place_card` satisfies. */
    predicate WithinCapacity() {
      |front| <= 3 && |middle| <= 5 && |back| <= 5
    }

    /** What `is_fouled` needs to evaluate the rows of a complete board without an assertion failing. */
    predicate RowsFit() {
      IsComplete() ==> |front| == 3 && |middle| == 5 && |back| == 5
    }

    /** `is_fouled()`: a complete board whose back is weaker than its middle, or whose front beats its middle. */
    predicate IsFouled(cmf: FrontVsMiddle)
      requires RowsFit()
    {
      if !IsComplete() then false
      else if Evaluate5Score(back) > Evaluate5Score(middle) then true
      else cmf(middle, front) < 0
    }

    /** `all_cards()`. */
    function AllCards(): (cs: seq<Card>)
      ensures |cs| == TotalCards()
      ensures multiset(cs) == multiset(front) + multiset(middle) + multiset(back)
    {
      front + middle + back
    }
  }

  /** `OFCBoard()`: three empty rows. */
  const EMPTY: Layout := Layout([], [], [])

  // ---------------------------------------------------------------------------
  // Properties of the board value
  // ---------------------------------------------------------------------------

  /** `can_place` says exactly when `place_card` succeeds. */
  lemma CanPlaceIffPlaces(l: Layout, r: Row, card: Card)
    ensures l.CanPlace(r) <==> l.Place(r, card).Ok?
    ensures l.RowRemaining(r) == Capacity(r) - |l.RowCards(r)|
  {
  }

  /** Placing a card keeps every row within its capacity, and adds one card. */
  lemma PlaceKeepsCapacity(l: Layout, r: Row, card: Card)
    requires l.WithinCapacity() && l.Place(r, card).Ok?
    ensures l.Place(r, card).value.WithinCapacity()
    ensures l.Place(r, card).value.TotalCards() == l.TotalCards() + 1
  {
    var n := l.Place(r, card).value;
    assert n.RowCards(r) == l.RowCards(r) + [card];
    match r
    case Front => assert n.middle == l.middle && n.back == l.back;
    case Middle => assert n.front == l.front && n.back == l.back;
    case Back => assert n.front == l.front && n.middle == l.middle;
  }

  /** Within capacity, 13 cards means every row is full, and conversely. */
  lemma CompleteIffAllFull(l: Layout)
    requires l.WithinCapacity()
    ensures l.IsComplete() <==> l.IsFrontFull() && l.IsMiddleFull() && l.IsBackFull()
    ensures l.RowsFit()
  {
  }

  /** Within capacity the total never exceeds 13. */
  lemma TotalBound(l: Layout)
    requires l.WithinCapacity()
    ensures l.TotalCards() <= 13
  {
  }

  /** An incomplete board is never fouled. */
  lemma IncompleteNotFouled(l: Layout, cmf: FrontVsMiddle)
    requires !l.IsComplete()
    ensures l.RowsFit() && !l.IsFouled(cmf)
  {
  }

  /**
   * A complete board is fouled exactly when the middle beats the back under
   * `compare_5` (a better class, or the same class and a higher tie-break), or
   * the front beats the middle.
   */
  lemma FouledIff(l: Layout, cmf: FrontVsMiddle)
    requires l.IsComplete() && l.RowsFit()
    ensures l.IsFouled(cmf) <==> Compare5(l.middle, l.back) == 1 || cmf(l.middle, l.front) < 0
    ensures l.IsFouled(cmf) <==>
      Evaluate5(l.back).cls > Evaluate5(l.middle).cls ||
      (Evaluate5(l.back).cls == Evaluate5(l.middle).cls && Evaluate5(l.back).value < Evaluate5(l.middle).value) ||
      cmf(l.middle, l.front) < 0
  {
    Compare5Antisymmetric(l.middle, l.back);
    Score5Order(l.back, l.middle);
    Score5Order(l.middle, l.back);
  }

  /** A back weaker than the middle fouls a complete board, whatever `compare_middle_front` says. */
  lemma WeakBackFouls(l: Layout, cmf: FrontVsMiddle)
    requires l.IsComplete() && l.RowsFit()
    requires Compare5(l.back, l.middle) < 0
    ensures l.IsFouled(cmf)
  {
    Compare5Antisymmetric(l.back, l.middle);
  }

  // ---------------------------------------------------------------------------
  // The board object
  // ---------------------------------------------------------------------------

  class OFCBoard {
    var front: seq<Card>
    var middle: seq<Card>
    var back: seq<Card>

    /** `OFCBoard()`. */
    constructor ()
      ensures View() == EMPTY
    {
      front, middle, back := [], [], [];
    }

    /** `OFCBoard(front=..., middle=..., back=...)`. */
    constructor FromRows(f: seq<Card>, m: seq<Card>, b: seq<Card>)
      ensures View() == Layout(f, m, b)
    {
      front, middle, back := f, m, b;
    }

    /** The three rows as a value. */
    function View(): Layout
      reads this
    {
      Layout(front, middle, back)
    }

    /** `place_card(r, card)`: appends to row r, or reports the row full and changes nothing. */
    method PlaceCard(r: Row, card: Card) returns (res: Result<(), PlaceError>)
      modifies this
      ensures res.Ok? ==> old(View()).Place(r, card) == Ok(View())
      ensures res.Err? ==> old(View()).Place(r, card) == Err(res.error) && View() == old(View())
    {
      var rowCards := View().RowCards(r);
      if |rowCards| >= Capacity(r) {
        return Err(RowFull(r));
      }
      match r {
        case Front => front := front + [card];
        case Middle => middle := middle + [card];
        case Back => back := back + [card];
      }
      return Ok(());
    }

    /** `copy()`: a new board with fresh row lists. */
    method Copy() returns (b: OFCBoard)
      ensures fresh(b) && b.View() == View()
    {
      b := new OFCBoard.FromRows(front, middle, back);
    }
  }

  /** Placing a card on a copy leaves the original board as it was. */
  method PlaceOnCopy(original: OFCBoard, r: Row, card: Card) returns (copy: OFCBoard, res: Result<(), PlaceError>)
    ensures fresh(copy) && original.View() == old(original.View())
    ensures res.Ok? ==> original.View().Place(r, card) == Ok(copy.View())
  {
    copy := original.Copy();
    res := copy.PlaceCard(r, card);
  }

  // ---------------------------------------------------------------------------
  // Game state
  // ---------------------------------------------------------------------------

  class GameState {
    var board: OFCBoard
    var opponentBoard: OFCBoard
    var hand: seq<Card>
    var deadCards: seq<Card>
    var fantasyland: bool
    /** 0 for the initial five-card deal, 1 and up for the Pineapple rounds. */
    var roundNum: int

    /** `GameState()`: empty boards, no cards, round 0. */
    constructor ()
      ensures board.View() == EMPTY && opponentBoard.View() == EMPTY && board != opponentBoard
      ensures hand == [] && deadCards == [] && !fantasyland && roundNum == 0
      ensures fresh(board) && fresh(opponentBoard)
    {
      board := new OFCBoard();
      opponentBoard := new OFCBoard();
      hand, deadCards, fantasyland, roundNum := [], [], false, 0;
    }

    /** A state with the given fields. */
    constructor FromParts(b: OFCBoard, ob: OFCBoard, h: seq<Card>, dead: seq<Card>, fl: bool, round: int)
      ensures board == b && opponentBoard == ob && hand == h && deadCards == dead
      ensures fantasyland == fl && roundNum == round
    {
      board, opponentBoard, hand, deadCards, fantasyland, roundNum := b, ob, h, dead, fl, round;
    }

    /** `is_initial_deal`. */
    predicate IsInitialDeal()
      reads this
    {
      roundNum == 0
    }

    /** `cards_to_place`. */
    function CardsToPlace(): (n: nat)
      reads this
      ensures n == 5 <==> roundNum == 0
      ensures n in {2, 5}
    {
      if IsInitialDeal() then 5 else 2
    }

    /** `cards_to_discard`. */
    function CardsToDiscard(): (n: nat)
      reads this
      ensures n == 0 <==> roundNum == 0
      ensures CardsToPlace() + n == if roundNum == 0 then 5 else 3
    {
      if IsInitialDeal() then 0 else 1
    }

    /** `all_known_cards()`: the cards of both boards, the hand and the dead cards. */
    function AllKnownCards(): (known: set<Card>)
      reads this, board, opponentBoard
      ensures forall c :: c in known <==>
        c in board.View().AllCards() || c in opponentBoard.View().AllCards() || c in hand || c in deadCards
    {
      SetOf(board.View().AllCards()) + SetOf(opponentBoard.View().AllCards()) + SetOf(hand) + SetOf(deadCards)
    }

    /** `copy()`: fresh boards with the same rows, and the same hand, dead cards, flag and round. */
    method Copy() returns (g: GameState)
      ensures fresh(g) && fresh(g.board) && fresh(g.opponentBoard)
      ensures g.board.View() == board.View() && g.opponentBoard.View() == opponentBoard.View()
      ensures g.hand == hand && g.deadCards == deadCards
      ensures g.fantasyland == fantasyland && g.roundNum == roundNum
    {
      var b := board.Copy();
      var ob := opponentBoard.Copy();
      g := new GameState.FromParts(b, ob, hand, deadCards, fantasyland, roundNum);
    }
  }

  /** The initial deal places all five cards; a Pineapple round places two of three and discards one. */
  lemma DealSizes(g: GameState)
    ensures g.IsInitialDeal() <==> g.roundNum == 0
    ensures g.IsInitialDeal() ==> g.CardsToPlace() == 5 && g.CardsToDiscard() == 0
    ensures !g.IsInitialDeal() ==> g.CardsToPlace() == 2 && g.CardsToDiscard() == 1
    ensures g.CardsToPlace() + g.CardsToDiscard() == if g.roundNum == 0 then 5 else 3
  {
  }
}
