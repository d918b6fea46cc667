/**
 * Cards and the deck of the OFC Pineapple engine.
 *
 * A card is the integer rank * 4 + suit in 0..51, with ranks 2..A numbered
 * 0..12 and suits clubs, diamonds, hearts, spades numbered 0..3. Its text
 * form is a rank character from "23456789TJQKA" followed by a suit character
 * from "cdhs". The deck is the mutable set of cards not yet dealt.
 */
module Cards {
  import opened Wrappers
  import opened Seqs

  type Card = c: int | 0 <= c < 52

  const RANK_CHARS: string := "23456789TJQKA"
  const SUIT_CHARS: string := "cdhs"

  // ---------------------------------------------------------------------------
  // Rank and suit
  // ---------------------------------------------------------------------------

  /** `card >> 2`: the rank index, 0 for a Two up to 12 for an Ace. */
  function CardRank(c: Card): (r: nat)
    ensures r < 13
    ensures r * 4 <= c < r * 4 + 4
  {
    c / 4
  }

  /** `card & 3`: the suit index; together with the rank it rebuilds the card. */
  function CardSuit(c: Card): (s: nat)
    ensures s < 4
    ensures CardRank(c) * 4 + s == c
  {
    c % 4
  }

  /** The card with the given rank and suit indices. */
  function MakeCard(rank: nat, suit: nat): (c: Card)
    requires rank < 13 && suit < 4
    ensures CardRank(c) == rank && CardSuit(c) == suit
  {
    rank * 4 + suit
  }

  // ---------------------------------------------------------------------------
  // Characters
  // ---------------------------------------------------------------------------

  /** The position of the first `ch` in `s`, as `RANK_MAP` / `SUIT_MAP` look it up. */
  function IndexOf(s: string, ch: char): (r: Option<nat>)
    ensures r.Some? <==> ch in s
    ensures r.Some? ==> r.value < |s| && s[r.value] == ch && ch !in s[..r.value]
  {
    if s == [] then None
    else if s[0] == ch then Some(0)
    else
      var rest := IndexOf(s[1..], ch);
      assert s == [s[0]] + s[1..];
      match rest
      case None => None
      case Some(i) =>
        assert s[..i + 1] == [s[0]] + s[1..][..i];
        Some(i + 1)
  }

  /** `str.upper()` on one character; only ASCII letters change. */
  function Upper(ch: char): (u: char)
    ensures 'a' <= ch <= 'z' ==> u as int == ch as int - 32
    ensures !('a' <= ch <= 'z') ==> u == ch
  {
    if 'a' <= ch <= 'z' then (ch as int - 32) as char else ch
  }

  /** `str.lower()` on one character; only ASCII letters change. */
  function Lower(ch: char): (l: char)
    ensures 'A' <= ch <= 'Z' ==> l as int == ch as int + 32
    ensures !('A' <= ch <= 'Z') ==> l == ch
  {
    if 'A' <= ch <= 'Z' then (ch as int + 32) as char else ch
  }

  /** The characters Python's `str.split()` treats as whitespace. */
  predicate IsSpace(ch: char) {
    var n := ch as int;
    9 <= n <= 13 || 28 <= n <= 32 || n == 0x85 || n == 0xA0 || n == 0x1680
    || 0x2000 <= n <= 0x200A || n == 0x2028 || n == 0x2029 || n == 0x202F
    || n == 0x205F || n == 0x3000
  }

  predicate DistinctChars(s: string) {
    forall i, j :: 0 <= i < j < |s| ==> s[i] != s[j]
  }

  /** In a string of distinct characters each character is found at its own position. */
  lemma IndexOfDistinct(s: string, i: nat)
    requires DistinctChars(s) && i < |s|
    ensures IndexOf(s, s[i]) == Some(i)
  {
  }

  /** The rank characters are distinct upper-case letters and digits. */
  lemma RankChars()
    ensures DistinctChars(RANK_CHARS)
    ensures forall i :: 0 <= i < |RANK_CHARS| ==> Upper(RANK_CHARS[i]) == RANK_CHARS[i]
    ensures forall i :: 0 <= i < |RANK_CHARS| ==> !IsSpace(RANK_CHARS[i]) && RANK_CHARS[i] != ','
  {
    var r := RANK_CHARS;
    assert r[0] == '2' && r[1] == '3' && r[2] == '4' && r[3] == '5' && r[4] == '6'
      && r[5] == '7' && r[6] == '8' && r[7] == '9' && r[8] == 'T' && r[9] == 'J'
      && r[10] == 'Q' && r[11] == 'K' && r[12] == 'A';
  }

  /** The suit characters are distinct lower-case letters. */
  lemma SuitChars()
    ensures DistinctChars(SUIT_CHARS)
    ensures forall i :: 0 <= i < |SUIT_CHARS| ==> Lower(SUIT_CHARS[i]) == SUIT_CHARS[i]
    ensures forall i :: 0 <= i < |SUIT_CHARS| ==> !IsSpace(SUIT_CHARS[i]) && SUIT_CHARS[i] != ','
  {
    var u := SUIT_CHARS;
    assert u[0] == 'c' && u[1] == 'd' && u[2] == 'h' && u[3] == 's';
  }

  // ---------------------------------------------------------------------------
  // One card as text
  // ---------------------------------------------------------------------------

  datatype ParseError = InvalidLength | InvalidRank | InvalidSuit

  /** A three-character token starting "10" is rewritten to its "T" form. */
  function Normalize(s: string): (t: string)
    ensures |s| == 3 && s[..2] == "10" ==> t == ['T', s[2]]
    ensures !(|s| == 3 && s[..2] == "10") ==> t == s
  {
    if |s| == 3 && s[..2] == "10" then ['T'] + s[2..] else s
  }

  /** `card_from_str`: the length is checked first, then the rank, then the suit. */
  function CardFromStr(s: string): (r: Result<Card, ParseError>)
    ensures var t := Normalize(s);
      r.Ok? <==> |t| == 2 && Upper(t[0]) in RANK_CHARS && Lower(t[1]) in SUIT_CHARS
    ensures var t := Normalize(s);
      r.Ok? ==> CardToStr(r.value) == [Upper(t[0]), Lower(t[1])]
  {
    ParseNormalized(Normalize(s))
  }

  /** `card_from_str` after the "10" rewrite. */
  function ParseNormalized(t: string): Result<Card, ParseError> {
    if |t| != 2 then Err(InvalidLength)
    else
      match IndexOf(RANK_CHARS, Upper(t[0]))
      case None => Err(InvalidRank)
      case Some(rank) =>
        match IndexOf(SUIT_CHARS, Lower(t[1]))
        case None => Err(InvalidSuit)
        case Some(suit) => Ok(MakeCard(rank, suit))
  }

  /**
   * Which error `card_from_str` raises, and that a parsed card has the
   * (case-mapped) rank and suit characters of the token.
   */
  lemma CardFromStrCases(s: string)
    ensures var r := CardFromStr(s); var t := Normalize(s);
      && (r == Err(InvalidLength) <==> |t| != 2)
      && (r == Err(InvalidRank) <==> |t| == 2 && Upper(t[0]) !in RANK_CHARS)
      && (r == Err(InvalidSuit) <==> |t| == 2 && Upper(t[0]) in RANK_CHARS && Lower(t[1]) !in SUIT_CHARS)
      && (r.Ok? ==> RANK_CHARS[CardRank(r.value)] == Upper(t[0])
                    && SUIT_CHARS[CardSuit(r.value)] == Lower(t[1]))
  {
  }

  /** `card_to_str`: the rank character followed by the suit character. */
  function CardToStr(c: Card): (s: string)
    ensures |s| == 2
  {
    [RANK_CHARS[CardRank(c)], SUIT_CHARS[CardSuit(c)]]
  }

  /** Canonical tokens: an upper-case rank character then a lower-case suit character. */
  predicate Canonical(t: string) {
    exists i, j :: 0 <= i < |RANK_CHARS| && 0 <= j < |SUIT_CHARS| && t == [RANK_CHARS[i], SUIT_CHARS[j]]
  }

  /** The token of a rank character and a suit character parses to that rank and suit. */
  lemma ParseRankSuit(s: string, i: nat, j: nat)
    requires i < 13 && j < 4 && s == [RANK_CHARS[i], SUIT_CHARS[j]]
    ensures CardFromStr(s) == Ok(MakeCard(i, j))
  {
    RankChars();
    SuitChars();
    assert Normalize(s) == s;
    assert Upper(s[0]) == s[0];
    assert Lower(s[1]) == s[1];
    IndexOfDistinct(RANK_CHARS, i);
    IndexOfDistinct(SUIT_CHARS, j);
  }

  /** Printing a card and parsing the text gives the card back. */
  lemma CardRoundTrip(c: Card)
    ensures CardFromStr(CardToStr(c)) == Ok(c)
  {
    var i, j := CardRank(c), CardSuit(c);
    assert MakeCard(i, j) == c;
    assert CardToStr(c) == [RANK_CHARS[i], SUIT_CHARS[j]];
    ParseRankSuit(CardToStr(c), i, j);
    assert CardFromStr(CardToStr(c)) == Ok(MakeCard(i, j));
  }

  /** Parsing a canonical token and printing the card gives the token back. */
  lemma TokenRoundTrip(t: string)
    requires Canonical(t)
    ensures CardFromStr(t).Ok? && CardToStr(CardFromStr(t).value) == t
  {
    var i, j :| 0 <= i < |RANK_CHARS| && 0 <= j < |SUIT_CHARS| && t == [RANK_CHARS[i], SUIT_CHARS[j]];
    ParseRankSuit(t, i, j);
  }

  /** Two-character tokens that agree up to rank upper-casing and suit lower-casing parse alike. */
  lemma CaseInsensitive(s: string, t: string)
    requires |s| == 2 && |t| == 2
    requires Upper(s[0]) == Upper(t[0]) && Lower(s[1]) == Lower(t[1])
    ensures CardFromStr(s) == CardFromStr(t)
  {
    assert Normalize(s) == s && Normalize(t) == t;
  }

  /** "10x" parses exactly like "Tx". */
  lemma TenForm(x: char)
    ensures CardFromStr(['1', '0', x]) == CardFromStr(['T', x])
  {
    assert ['1', '0', x][..2] == "10";
    assert Normalize(['1', '0', x]) == ['T', x] == Normalize(['T', x]);
  }

  // ---------------------------------------------------------------------------
  // Lists of cards as text
  // ---------------------------------------------------------------------------

  /** `s.replace(",", " ")`. */
  function ReplaceCommas(s: string): (r: string)
    ensures |r| == |s|
    ensures forall i :: 0 <= i < |s| ==> r[i] == (if s[i] == ',' then ' ' else s[i])
  {
    if s == [] then [] else [if s[0] == ',' then ' ' else s[0]] + ReplaceCommas(s[1..])
  }

  /** The longest prefix holding no whitespace. */
  function TakeWord(s: string): (w: string)
    ensures |w| <= |s|
    ensures s != [] && !IsSpace(s[0]) ==> w != []
  {
    if s == [] || IsSpace(s[0]) then [] else [s[0]] + TakeWord(s[1..])
  }

  /** A token: non-empty and free of whitespace. */
  predicate IsToken(t: string) {
    t != [] && forall i :: 0 <= i < |t| ==> !IsSpace(t[i])
  }

  /** `s.split()`: the maximal runs of non-whitespace characters, in order. */
  function Split(s: string): seq<string>
    decreases |s|
  {
    if s == [] then []
    else if IsSpace(s[0]) then Split(s[1..])
    else
      var w := TakeWord(s);
      [w] + Split(s[|w|..])
  }

  /** `sep.join(ts)`. */
  function Join(ts: seq<string>, sep: string): string {
    if ts == [] then []
    else if |ts| == 1 then ts[0]
    else ts[0] + sep + Join(ts[1..], sep)
  }

  /** `[card_from_str(t) for t in ts]`: the first token that fails decides the error. */
  function ParseTokens(ts: seq<string>): Result<seq<Card>, ParseError> {
    MapResult(ts, CardFromStr)
  }

  /** Every token is a card. */
  predicate AllTokensParse(ts: seq<string>) {
    forall k :: 0 <= k < |ts| ==> CardFromStr(ts[k]).Ok?
  }

  /** The cards of tokens that all parse, token by token. */
  function TokenCards(ts: seq<string>): (cs: seq<Card>)
    requires AllTokensParse(ts)
    ensures |cs| == |ts| && forall k :: 0 <= k < |ts| ==> cs[k] == CardFromStr(ts[k]).value
  {
    if ts == [] then [] else [CardFromStr(ts[0]).value] + TokenCards(ts[1..])
  }

  /** The token list parses exactly when every token does, and then to the tokens' cards in order. */
  lemma ParseTokensSpec(ts: seq<string>)
    ensures ParseTokens(ts).Ok? <==> AllTokensParse(ts)
    ensures ParseTokens(ts).Ok? ==> ParseTokens(ts).value == TokenCards(ts)
  {
    MapResultOk(ts, CardFromStr);
    if ParseTokens(ts).Ok? {
      assert AllTokensParse(ts);
      var cs := TokenCards(ts);
      assert |cs| == |ts| && forall k :: 0 <= k < |ts| ==> cs[k] == CardFromStr(ts[k]).value;
    }
  }

  /** `cards_from_str`: commas count as spaces, then every token is parsed. */
  function CardsFromStr(s: string): (r: Result<seq<Card>, ParseError>)
    ensures r.Ok? <==> AllTokensParse(Split(ReplaceCommas(s)))
    ensures r.Ok? ==> r.value == TokenCards(Split(ReplaceCommas(s)))
  {
    ParseTokensSpec(Split(ReplaceCommas(s)));
    ParseTokens(Split(ReplaceCommas(s)))
  }

  function CardStrings(cs: seq<Card>): (ts: seq<string>)
    ensures |ts| == |cs| && forall k :: 0 <= k < |cs| ==> ts[k] == CardToStr(cs[k])
  {
    if cs == [] then [] else [CardToStr(cs[0])] + CardStrings(cs[1..])
  }

  /** `cards_to_str`: the cards' text forms joined by single spaces. */
  function CardsToStr(cs: seq<Card>): (s: string)
    ensures |s| == if cs == [] then 0 else 3 * |cs| - 1
  {
    JoinPairsLength(CardStrings(cs));
    Join(CardStrings(cs), " ")
  }

  /** Joining two-character tokens by single spaces takes three characters per token, less one. */
  lemma {:induction false} JoinPairsLength(ts: seq<string>)
    requires forall k :: 0 <= k < |ts| ==> |ts[k]| == 2
    ensures |Join(ts, " ")| == if ts == [] then 0 else 3 * |ts| - 1
  {
    if |ts| > 1 {
      assert forall k :: 0 <= k < |ts[1..]| ==> ts[1..][k] == ts[k + 1];
      JoinPairsLength(ts[1..]);
    }
  }

  // ---------------------------------------------------------------------------
  // Splitting undoes joining
  // ---------------------------------------------------------------------------

  lemma {:induction false} TakeWordOfToken(t: string, rest: string)
    requires IsToken(t)
    requires rest == [] || IsSpace(rest[0])
    ensures TakeWord(t + rest) == t
    decreases |t|
  {
    if |t| > 1 {
      assert (t + rest)[1..] == t[1..] + rest;
      TakeWordOfToken(t[1..], rest);
    } else {
      assert (t + rest)[1..] == rest;
    }
  }

  /** A token followed by nothing or by whitespace is split off whole. */
  lemma SplitToken(t: string, rest: string)
    requires IsToken(t)
    requires rest == [] || IsSpace(rest[0])
    ensures Split(t + rest) == [t] + Split(rest)
  {
    TakeWordOfToken(t, rest);
    assert (t + rest)[|t|..] == rest;
  }

  /** Leading whitespace does not change the split. */
  lemma SplitLeadingSpace(ch: char, s: string)
    requires IsSpace(ch)
    ensures Split([ch] + s) == Split(s)
  {
    assert ([ch] + s)[1..] == s;
  }

  lemma SplitTokenSpace(t: string, tail: string)
    requires IsToken(t)
    ensures Split(t + ([' '] + tail)) == [t] + Split(tail)
  {
    SplitToken(t, [' '] + tail);
    SplitLeadingSpace(' ', tail);
  }

  lemma SplitJoinCons(ts: seq<string>)
    requires |ts| > 1 && IsToken(ts[0])
    requires Split(Join(ts[1..], " ")) == ts[1..]
    ensures Split(Join(ts, " ")) == ts
  {
    var tail := Join(ts[1..], " ");
    assert Join(ts, " ") == ts[0] + ([' '] + tail);
    SplitTokenSpace(ts[0], tail);
    assert ts == [ts[0]] + ts[1..];
  }

  /** Splitting tokens joined by one space gives the tokens back. */
  lemma {:induction false} SplitJoin(ts: seq<string>)
    requires forall k :: 0 <= k < |ts| ==> IsToken(ts[k])
    ensures Split(Join(ts, " ")) == ts
    decreases |ts|
  {
    if |ts| == 1 {
      SplitToken(ts[0], []);
      assert ts[0] + [] == ts[0];
    } else if |ts| > 1 {
      assert forall k :: 0 <= k < |ts[1..]| ==> ts[1..][k] == ts[k + 1];
      SplitJoin(ts[1..]);
      SplitJoinCons(ts);
    }
  }

  /** Replacing commas works piece by piece. */
  lemma {:induction false} ReplaceCommasConcat(a: string, b: string)
    ensures ReplaceCommas(a + b) == ReplaceCommas(a) + ReplaceCommas(b)
  {
    var l, r := ReplaceCommas(a + b), ReplaceCommas(a) + ReplaceCommas(b);
    assert |l| == |r|;
    forall i | 0 <= i < |l| ensures l[i] == r[i] {
      if i < |a| {
        assert (a + b)[i] == a[i];
      } else {
        assert (a + b)[i] == b[i - |a|];
      }
    }
  }

  lemma ReplaceCommasCons(t: string, tail: string)
    requires ',' !in t
    ensures ReplaceCommas(t + ([','] + tail)) == t + ([' '] + ReplaceCommas(tail))
  {
    ReplaceCommasNoComma(t);
    ReplaceCommasConcat(t, [','] + tail);
    ReplaceCommasConcat([','], tail);
  }

  /** Joining with commas gives the space-joined text once commas count as spaces. */
  lemma {:induction false} ReplaceCommasJoin(ts: seq<string>)
    requires forall k :: 0 <= k < |ts| ==> ',' !in ts[k]
    ensures ReplaceCommas(Join(ts, ",")) == Join(ts, " ")
    decreases |ts|
  {
    if |ts| == 1 {
      ReplaceCommasNoComma(ts[0]);
    } else if |ts| > 1 {
      assert forall k :: 0 <= k < |ts[1..]| ==> ts[1..][k] == ts[k + 1];
      ReplaceCommasJoin(ts[1..]);
      assert Join(ts, ",") == ts[0] + ([','] + Join(ts[1..], ","));
      assert Join(ts, " ") == ts[0] + ([' '] + Join(ts[1..], " "));
      ReplaceCommasCons(ts[0], Join(ts[1..], ","));
    }
  }

  lemma ReplaceCommasNoComma(s: string)
    requires ',' !in s
    ensures ReplaceCommas(s) == s
  {
    assert forall i :: 0 <= i < |s| ==> s[i] in s;
  }

  lemma ParseCardStrings(cs: seq<Card>)
    ensures ParseTokens(CardStrings(cs)) == Ok(cs)
  {
    var ts := CardStrings(cs);
    forall k | 0 <= k < |cs| ensures CardFromStr(ts[k]) == Ok(cs[k]) {
      CardRoundTrip(cs[k]);
    }
    MapResultOk(ts, CardFromStr);
    var r := ParseTokens(ts);
    assert r.Ok?;
    assert |r.value| == |cs|;
    assert forall k :: 0 <= k < |cs| ==> r.value[k] == cs[k];
    assert r.value == cs;
  }

  /** The text of a list of cards has no commas and only single spaces. */
  lemma CardStringsAreTokens(cs: seq<Card>)
    ensures forall k :: 0 <= k < |cs| ==> IsToken(CardStrings(cs)[k]) && ',' !in CardStrings(cs)[k]
  {
    forall k | 0 <= k < |cs| ensures IsToken(CardStrings(cs)[k]) && ',' !in CardStrings(cs)[k] {
      CardStringIsToken(cs[k]);
    }
  }

  /** The text of one card is a two-character token without a comma. */
  lemma CardStringIsToken(c: Card)
    ensures IsToken(CardToStr(c)) && ',' !in CardToStr(c)
  {
    RankChars();
    SuitChars();
    var t := CardToStr(c);
    assert t[0] == RANK_CHARS[CardRank(c)] && t[1] == SUIT_CHARS[CardSuit(c)];
  }

  lemma {:induction false} JoinHasNoComma(ts: seq<string>)
    requires forall k :: 0 <= k < |ts| ==> ',' !in ts[k]
    ensures ',' !in Join(ts, " ")
    decreases |ts|
  {
    if |ts| > 1 {
      JoinHasNoComma(ts[1..]);
    }
  }

  /** Space-joined tokens without commas parse token by token. */
  lemma CardsFromJoin(ts: seq<string>)
    requires forall k :: 0 <= k < |ts| ==> IsToken(ts[k]) && ',' !in ts[k]
    ensures CardsFromStr(Join(ts, " ")) == ParseTokens(ts)
  {
    JoinHasNoComma(ts);
    ReplaceCommasNoComma(Join(ts, " "));
    SplitJoin(ts);
  }

  /** Printing a list of cards and parsing the text gives the list back. */
  lemma CardsRoundTrip(cs: seq<Card>)
    ensures CardsFromStr(CardsToStr(cs)) == Ok(cs)
  {
    CardStringsAreTokens(cs);
    CardsFromJoin(CardStrings(cs));
    ParseCardStrings(cs);
  }

  /** A canonical token is a whitespace-free, comma-free token. */
  lemma CanonicalIsToken(t: string)
    requires Canonical(t)
    ensures IsToken(t) && ',' !in t
  {
    RankChars();
    SuitChars();
  }

  /** Canonical tokens parse, and the parsed cards print as the same tokens. */
  lemma ParseCanonical(ts: seq<string>)
    requires forall k :: 0 <= k < |ts| ==> Canonical(ts[k])
    ensures ParseTokens(ts).Ok? && CardStrings(ParseTokens(ts).value) == ts
  {
    forall k | 0 <= k < |ts| ensures CardFromStr(ts[k]).Ok? && CardToStr(CardFromStr(ts[k]).value) == ts[k] {
      TokenRoundTrip(ts[k]);
    }
    MapResultOk(ts, CardFromStr);
    var cs := ParseTokens(ts).value;
    assert CardStrings(cs) == ts;
  }

  /** Canonical tokens joined by single spaces survive parsing and printing unchanged. */
  lemma CanonicalTextRoundTrip(ts: seq<string>)
    requires forall k :: 0 <= k < |ts| ==> Canonical(ts[k])
    ensures CardsFromStr(Join(ts, " ")).Ok?
    ensures CardsToStr(CardsFromStr(Join(ts, " ")).value) == Join(ts, " ")
  {
    forall k | 0 <= k < |ts| ensures IsToken(ts[k]) && ',' !in ts[k] {
      CanonicalIsToken(ts[k]);
    }
    CardsFromJoin(ts);
    ParseCanonical(ts);
  }

  /** Commas separate cards exactly as single spaces do. */
  lemma CommaSeparated(ts: seq<string>)
    requires forall k :: 0 <= k < |ts| ==> ',' !in ts[k]
    ensures CardsFromStr(Join(ts, ",")) == CardsFromStr(Join(ts, " "))
  {
    ReplaceCommasJoin(ts);
    JoinHasNoComma(ts);
    ReplaceCommasNoComma(Join(ts, " "));
  }

  // ---------------------------------------------------------------------------
  // The deck
  // ---------------------------------------------------------------------------

  /** The cards numbered below n. */
  function CardsBelow(n: nat): (r: set<Card>)
    requires n <= 52
    ensures forall c: Card :: c in r <==> c < n
    ensures |r| == n
  {
    if n == 0 then {} else CardsBelow(n - 1) + {n - 1}
  }

  /** `set(range(52))`. */
  function FullDeck(): set<Card> {
    CardsBelow(52)
  }

  /** The cards of a list, as a set. */
  function SetOf(cs: seq<Card>): (s: set<Card>)
    ensures forall c :: c in s <==> c in cs
  {
    set c | c in cs
  }

  predicate Distinct(cs: seq<Card>) {
    forall i, j :: 0 <= i < j < |cs| ==> cs[i] != cs[j]
  }

  datatype DealError = InsufficientCards | NegativeCount

  class Deck {
    var remaining: set<Card>

    /** A fresh deck holds all 52 cards. */
    constructor ()
      ensures remaining == FullDeck()
    {
      remaining := FullDeck();
    }

    function Size(): nat
      reads this
    {
      |remaining|
    }

    function Contains(card: int): bool
      reads this
    {
      card in remaining
    }

    /** Discards each given card; cards not in the deck are ignored. */
    method Remove(cards: seq<int>)
      modifies this
      ensures remaining == set c | c in old(remaining) && c !in cards
    {
      var i := 0;
      while i < |cards|
        invariant 0 <= i <= |cards|
        invariant remaining == set c | c in old(remaining) && c !in cards[..i]
      {
        remaining := set c | c in remaining && c != cards[i];
        assert cards[..i + 1] == cards[..i] + [cards[i]];
        i := i + 1;
      }
      assert cards[..i] == cards;
    }

    /** Parses the whole text first; a parse error leaves the deck untouched. */
    method RemoveStr(s: string) returns (r: Result<(), ParseError>)
      modifies this
      ensures CardsFromStr(s).Err? ==> r == Err(CardsFromStr(s).error) && remaining == old(remaining)
      ensures CardsFromStr(s).Ok? ==> r == Ok(()) && remaining == old(remaining) - SetOf(CardsFromStr(s).value)
    {
      match CardsFromStr(s)
      case Err(e) =>
        r := Err(e);
      case Ok(cs) =>
        Remove(cs);
        r := Ok(());
    }

    /**
     * Deals n cards chosen arbitrarily from the deck. Asking for more cards
     * than remain fails first; a negative count fails as `random.sample` does.
     */
    method Deal(n: int) returns (r: Result<seq<Card>, DealError>)
      modifies this
      ensures n > |old(remaining)| ==> r == Err(InsufficientCards) && remaining == old(remaining)
      ensures n < 0 ==> r == Err(NegativeCount) && remaining == old(remaining)
      ensures 0 <= n <= |old(remaining)| ==>
        && r.Ok? && |r.value| == n && Distinct(r.value)
        && SetOf(r.value) <= old(remaining)
        && remaining == old(remaining) - SetOf(r.value)
        && |remaining| == |old(remaining)| - n
    {
      if n > |remaining| {
        return Err(InsufficientCards);
      }
      if n < 0 {
        return Err(NegativeCount);
      }
      var dealt: seq<Card> := [];
      while |dealt| < n
        invariant |dealt| <= n
        invariant Distinct(dealt)
        invariant SetOf(dealt) <= old(remaining)
        invariant remaining == old(remaining) - SetOf(dealt)
        invariant |remaining| == |old(remaining)| - |dealt|
        decreases n - |dealt|
      {
        var c :| c in remaining;
        assert SetOf(dealt + [c]) == SetOf(dealt) + {c};
        dealt := dealt + [c];
        remaining := remaining - {c};
      }
      r := Ok(dealt);
    }

    /** An independent deck with the same remaining cards. */
    method Copy() returns (d: Deck)
      ensures fresh(d) && d.remaining == remaining
    {
      d := new Deck();
      d.remaining := remaining;
    }
  }
}
