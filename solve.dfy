/**
 * `solve`: generate the options of the deal, value each one, and rank them
 * by expected value, highest first. Python's `sort(key=..., reverse=True)`
 * is stable, so options of equal value keep the order they were generated in.
 *
 * The random draws are an input: `draws(i, t)` is the list of cards drawn for
 * trial t of the i-th option, in the order the options are evaluated.
 */
module Solve {
  import opened Wrappers
  import opened Cards
  import opened Board
  import opened Solver

  /** One entry of `all_options`: an option and its expected value. */
  datatype Scored = Scored(option: Candidate, ev: real)

  /** `SolverResult` without the elapsed time. */
  datatype Solution = Solution(placements: seq<Placement>, discard: Option<Card>, expectedValue: real,
                               simulations: nat, allOptions: seq<Scored>)

  /** The draws of every trial of every option. */
  type Draws = (nat, nat) -> seq<Card>

  // ---------------------------------------------------------------------------
  // The stable ranking
  // ---------------------------------------------------------------------------

  /** Highest expected value first. */
  predicate EvDesc(xs: seq<Scored>) {
    forall i, j :: 0 <= i < j < |xs| ==> xs[i].ev >= xs[j].ev
  }

  /** Puts x after every entry worth at least as much as x: after its equals, which came before it. */
  function InsertByEv(x: Scored, xs: seq<Scored>): (r: seq<Scored>)
    ensures |r| == |xs| + 1
  {
    if xs == [] then [x]
    else if xs[0].ev >= x.ev then [xs[0]] + InsertByEv(x, xs[1..])
    else [x] + xs
  }

  /** `sort(key=lambda x: x[2], reverse=True)`, as an insertion of each entry in turn. */
  function SortByEv(xs: seq<Scored>): (r: seq<Scored>)
    ensures |r| == |xs|
  {
    if xs == [] then []
    else InsertByEv(xs[|xs| - 1], SortByEv(xs[..|xs| - 1]))
  }

  /** The entries worth exactly v, in order. */
  function WithEv(xs: seq<Scored>, v: real): seq<Scored> {
    if xs == [] then []
    else (if xs[0].ev == v then [xs[0]] else []) + WithEv(xs[1..], v)
  }

  lemma {:induction false} InsertPerm(x: Scored, xs: seq<Scored>)
    ensures multiset(InsertByEv(x, xs)) == multiset(xs) + multiset{x}
  {
    if xs != [] && xs[0].ev >= x.ev {
      InsertPerm(x, xs[1..]);
      assert xs == [xs[0]] + xs[1..];
    }
  }

  lemma {:induction false} InsertSorted(x: Scored, xs: seq<Scored>)
    requires EvDesc(xs)
    ensures EvDesc(InsertByEv(x, xs))
  {
    if xs == [] {
    } else if xs[0].ev >= x.ev {
      var rest := InsertByEv(x, xs[1..]);
      InsertSorted(x, xs[1..]);
      InsertPerm(x, xs[1..]);
      forall k | 0 <= k < |rest|
        ensures xs[0].ev >= rest[k].ev
      {
        assert rest[k] in multiset(xs[1..]) + multiset{x};
        if rest[k] != x {
          var j :| 0 <= j < |xs[1..]| && xs[1..][j] == rest[k];
          assert xs[j + 1] == rest[k];
        }
      }
      ConsSorted(xs[0], rest);
    } else {
      ConsSorted(x, xs);
    }
  }

  /** An entry worth at least every entry of a ranking can go in front of it. */
  lemma ConsSorted(y: Scored, rest: seq<Scored>)
    requires EvDesc(rest)
    requires forall k :: 0 <= k < |rest| ==> y.ev >= rest[k].ev
    ensures EvDesc([y] + rest)
  {
    var r := [y] + rest;
    forall i, j | 0 <= i < j < |r|
      ensures r[i].ev >= r[j].ev
    {
      assert r[j] == rest[j - 1];
      if i > 0 {
        assert r[i] == rest[i - 1];
      }
    }
  }

  lemma {:induction false} WithEvConcat(a: seq<Scored>, b: seq<Scored>, v: real)
    ensures WithEv(a + b, v) == WithEv(a, v) + WithEv(b, v)
  {
    if a != [] {
      WithEvConcat(a[1..], b, v);
      assert (a + b)[1..] == a[1..] + b;
    } else {
      assert a + b == b;
    }
  }

  lemma {:induction false} WithEvNone(xs: seq<Scored>, v: real)
    requires forall i :: 0 <= i < |xs| ==> xs[i].ev < v
    ensures WithEv(xs, v) == []
  {
    if xs != [] {
      WithEvNone(xs[1..], v);
    }
  }

  /** Inserting x leaves the entries of every value in order, with x after its equals. */
  lemma {:induction false} InsertStable(x: Scored, xs: seq<Scored>, v: real)
    requires EvDesc(xs)
    ensures WithEv(InsertByEv(x, xs), v) == WithEv(xs, v) + WithEv([x], v)
  {
    if xs == [] {
      assert [x][1..] == [];
    } else if xs[0].ev >= x.ev {
      var rest := InsertByEv(x, xs[1..]);
      InsertStable(x, xs[1..], v);
      assert ([xs[0]] + rest)[1..] == rest;
    } else {
      assert ([x] + xs)[1..] == xs;
      assert [x][1..] == [];
      if x.ev == v {
        WithEvNone(xs, v);
      }
    }
  }

  /** The ranking is highest first. */
  lemma {:induction false} SortByEvSorted(xs: seq<Scored>)
    ensures EvDesc(SortByEv(xs))
  {
    if xs != [] {
      SortByEvSorted(xs[..|xs| - 1]);
      InsertSorted(xs[|xs| - 1], SortByEv(xs[..|xs| - 1]));
    }
  }

  /** The ranking holds the same entries, each as often. */
  lemma {:induction false} SortByEvPerm(xs: seq<Scored>)
    ensures multiset(SortByEv(xs)) == multiset(xs)
  {
    if xs != [] {
      SortByEvPerm(xs[..|xs| - 1]);
      InsertPerm(xs[|xs| - 1], SortByEv(xs[..|xs| - 1]));
      assert xs == xs[..|xs| - 1] + [xs[|xs| - 1]];
    }
  }

  /** The ranking is stable: entries of equal value keep their order. */
  lemma {:induction false} SortByEvStable(xs: seq<Scored>, v: real)
    ensures WithEv(SortByEv(xs), v) == WithEv(xs, v)
  {
    if xs != [] {
      var init, last := xs[..|xs| - 1], xs[|xs| - 1];
      SortByEvStable(init, v);
      SortByEvSorted(init);
      InsertStable(last, SortByEv(init), v);
      assert xs == init + [last];
      WithEvConcat(init, [last], v);
    }
  }

  /** The first entry of a ranking is one of the entries, and none is worth more. */
  lemma SortByEvFirst(xs: seq<Scored>)
    requires xs != []
    ensures SortByEv(xs)[0] in xs
    ensures forall i :: 0 <= i < |xs| ==> xs[i].ev <= SortByEv(xs)[0].ev
  {
    var r := SortByEv(xs);
    SortByEvSorted(xs);
    SortByEvPerm(xs);
    assert r[0] in multiset(r);
    forall i | 0 <= i < |xs|
      ensures xs[i].ev <= r[0].ev
    {
      assert xs[i] in multiset(xs);
      var j :| 0 <= j < |r| && r[j] == xs[i];
      assert j == 0 || r[0].ev >= r[j].ev;
    }
  }

  // ---------------------------------------------------------------------------
  // Valuing the options
  // ---------------------------------------------------------------------------

  /** The draws of option i. */
  function OptionDraws(draws: Draws, i: nat): Sampler {
    (t: nat) => draws(i, t)
  }

  /** `_evaluate_placement` of each option, option i with its own draws. */
  function OptionValues(l: Layout, known: set<Card>, opts: seq<Candidate>, numSims: nat, draws: Draws,
                        cmf: FrontVsMiddle): (vals: seq<Result<real, SolveError>>)
    requires l.WithinCapacity()
    ensures |vals| == |opts|
    ensures forall i :: 0 <= i < |opts| ==>
      vals[i] == ExpectedValue(l, known, opts[i], numSims, OptionDraws(draws, i), cmf)
  {
    seq(|opts|, i requires 0 <= i < |opts| => ExpectedValue(l, known, opts[i], numSims, OptionDraws(draws, i), cmf))
  }

  /**
   * The `for placements, discard in options` loop over the options and their
   * values: the first value that is a failure stops it with that failure.
   */
  function ScoreOptions(opts: seq<Candidate>, vals: seq<Result<real, SolveError>>): Result<seq<Scored>, SolveError>
    requires |vals| == |opts|
  {
    if opts == [] then Ok([])
    else
      var n := |opts| - 1;
      match ScoreOptions(opts[..n], vals[..n])
      case Err(e) => Err(e)
      case Ok(prev) =>
        match vals[n]
        case Err(e) => Err(e)
        case Ok(ev) => Ok(prev + [Scored(opts[n], ev)])
  }

  /** Every option gets an entry, in order, holding its value. */
  lemma {:induction false} ScoreOptionsSpec(opts: seq<Candidate>, vals: seq<Result<real, SolveError>>)
    requires |vals| == |opts|
    ensures var r := ScoreOptions(opts, vals);
      r.Ok? ==>
        && |r.value| == |opts|
        && forall i :: 0 <= i < |opts| ==> r.value[i].option == opts[i] && vals[i] == Ok(r.value[i].ev)
  {
    if opts != [] {
      var n := |opts| - 1;
      ScoreOptionsSpec(opts[..n], vals[..n]);
    }
  }

  /** The loop fails exactly when some option's value is a failure. */
  lemma {:induction false} ScoreOptionsFails(opts: seq<Candidate>, vals: seq<Result<real, SolveError>>)
    requires |vals| == |opts|
    ensures ScoreOptions(opts, vals).Err? <==> exists i :: 0 <= i < |vals| && vals[i].Err?
  {
    if opts != [] {
      var n := |opts| - 1;
      ScoreOptionsFails(opts[..n], vals[..n]);
      if ScoreOptions(opts[..n], vals[..n]).Err? {
        var i :| 0 <= i < n && vals[..n][i].Err?;
        assert vals[i].Err?;
      } else if vals[n].Ok? {
        forall i | 0 <= i < |vals|
          ensures vals[i].Ok?
        {
          if i < n {
            assert vals[..n][i] == vals[i];
          }
        }
      }
    }
  }

  /** A failure among the first k options is the failure of all of them. */
  lemma {:induction false} ScoreErrPropagates(opts: seq<Candidate>, vals: seq<Result<real, SolveError>>, k: nat,
                                               e: SolveError)
    requires |vals| == |opts| && k <= |opts|
    requires ScoreOptions(opts[..k], vals[..k]) == Err(e)
    ensures ScoreOptions(opts, vals) == Err(e)
  {
    if k == |opts| {
      assert opts[..k] == opts && vals[..k] == vals;
    } else {
      var n := |opts| - 1;
      assert opts[..n][..k] == opts[..k] && vals[..n][..k] == vals[..k];
      ScoreErrPropagates(opts[..n], vals[..n], k, e);
    }
  }

  // ---------------------------------------------------------------------------
  // solve
  // ---------------------------------------------------------------------------

  /** The generator `solve` calls: the initial one in round 0, the Pineapple one after. */
  function OptionsFor(l: Layout, hand: seq<Card>, initial: bool): Result<seq<Candidate>, SolveError> {
    if initial then
      if |hand| != 5 then Err(WrongHandSize(5, |hand|)) else Ok(InitialOptions(hand))
    else
      if |hand| != 3 then Err(WrongHandSize(3, |hand|)) else Ok(PineappleOptions(l, hand))
  }

  /**
   * What `solve` returns for a board, the known cards, the hand and the
   * round: the best option of the ranking, its value, and the whole ranking.
   */
  function SolveSpec(l: Layout, known: set<Card>, hand: seq<Card>, initial: bool, numSims: nat, draws: Draws,
                     cmf: FrontVsMiddle): (r: Result<Solution, SolveError>)
    requires l.WithinCapacity()
    ensures OptionsFor(l, hand, initial).Err? ==> r == Err(OptionsFor(l, hand, initial).error)
    ensures OptionsFor(l, hand, initial) == Ok([]) ==> r == Err(NoValidPlacements)
    ensures r.Ok? ==>
      && r.value.simulations == numSims
      && r.value.allOptions != []
      && EvDesc(r.value.allOptions)
      && r.value.expectedValue == r.value.allOptions[0].ev
      && r.value.placements == r.value.allOptions[0].option.placements
      && r.value.discard == r.value.allOptions[0].option.discard
  {
    match OptionsFor(l, hand, initial)
    case Err(e) => Err(e)
    case Ok(opts) =>
      if opts == [] then Err(NoValidPlacements)
      else
        var vals := OptionValues(l, known, opts, numSims, draws, cmf);
        match ScoreOptions(opts, vals)
        case Err(e) => Err(e)
        case Ok(scored) =>
          ScoreOptionsSpec(opts, vals);
          RankedBest(scored, numSims);
          Ok(Ranked(scored, numSims))
  }

  /** The result built from the entries: the first entry of the ranking and the whole ranking. */
  function Ranked(scored: seq<Scored>, numSims: nat): Solution
    requires scored != []
  {
    var ranked := SortByEv(scored);
    Solution(ranked[0].option.placements, ranked[0].option.discard, ranked[0].ev, numSims, ranked)
  }

  /**
   * The result is the first entry of the ranking; the ranking holds the
   * entries, highest value first, with ties in their original order; and
   * no entry is worth more than the one chosen.
   */
  lemma RankedBest(scored: seq<Scored>, numSims: nat)
    requires scored != []
    ensures var s := Ranked(scored, numSims);
      && s.allOptions != []
      && s.placements == s.allOptions[0].option.placements
      && s.discard == s.allOptions[0].option.discard
      && s.expectedValue == s.allOptions[0].ev
      && s.simulations == numSims
      && s.allOptions[0] in scored
      && EvDesc(s.allOptions)
      && multiset(s.allOptions) == multiset(scored)
      && (forall v :: WithEv(s.allOptions, v) == WithEv(scored, v))
      && (forall i :: 0 <= i < |scored| ==> scored[i].ev <= s.expectedValue)
  {
    SortByEvSorted(scored);
    SortByEvPerm(scored);
    forall v
      ensures WithEv(SortByEv(scored), v) == WithEv(scored, v)
    {
      SortByEvStable(scored, v);
    }
    SortByEvFirst(scored);
  }

  /** `solve`, with the draws of the trials given. */
  method Solve(state: GameState, numSims: nat, draws: Draws, cmf: FrontVsMiddle) returns (r: Result<Solution, SolveError>)
    requires state.board.View().WithinCapacity()
    ensures r == SolveSpec(state.board.View(), state.AllKnownCards(), state.hand, state.IsInitialDeal(),
                           numSims, draws, cmf)
  {
    ghost var l := state.board.View();
    ghost var known := state.AllKnownCards();
    var generated;
    if state.IsInitialDeal() {
      generated := GenerateInitialPlacements(state.hand);
    } else {
      generated := GeneratePineapplePlacements(state.board, state.hand);
    }
    assert generated == OptionsFor(l, state.hand, state.IsInitialDeal());
    if generated.Err? {
      return Err(generated.error);
    }
    var options := generated.value;
    if |options| == 0 {
      return Err(NoValidPlacements);
    }
    ghost var vals := OptionValues(l, known, options, numSims, draws, cmf);
    var scored := ScoreAll(state, options, numSims, draws, cmf);
    if scored.Err? {
      return Err(scored.error);
    }
    ScoreOptionsSpec(options, vals);
    var ranked := SortByEv(scored.value);
    return Ok(Solution(ranked[0].option.placements, ranked[0].option.discard, ranked[0].ev, numSims, ranked));
  }

  /** The evaluation loop of `solve`. */
  method ScoreAll(state: GameState, options: seq<Candidate>, numSims: nat, draws: Draws, cmf: FrontVsMiddle)
    returns (r: Result<seq<Scored>, SolveError>)
    requires state.board.View().WithinCapacity()
    ensures r == ScoreOptions(options, OptionValues(state.board.View(), state.AllKnownCards(), options, numSims, draws, cmf))
  {
    ghost var l := state.board.View();
    ghost var known := state.AllKnownCards();
    ghost var vals := OptionValues(l, known, options, numSims, draws, cmf);
    var scored: seq<Scored> := [];
    for i := 0 to |options|
      invariant state.board.View() == l && state.AllKnownCards() == known
      invariant ScoreOptions(options[..i], vals[..i]) == Ok(scored)
    {
      var ev := EvaluatePlacement(state, options[i], numSims, OptionDraws(draws, i), cmf);
      assert ev == vals[i];
      assert options[..i + 1][..i] == options[..i] && vals[..i + 1][..i] == vals[..i];
      if ev.Err? {
        ScoreErrPropagates(options, vals, i + 1, ev.error);
        return Err(ev.error);
      }
      scored := scored + [Scored(options[i], ev.value)];
    }
    assert options[..|options|] == options && vals[..|options|] == vals;
    return Ok(scored);
  }

  // ---------------------------------------------------------------------------
  // What solve promises
  // ---------------------------------------------------------------------------

  /**
   * `solve` fails exactly when the generator rejects the hand, when there is
   * no option, or when some option cannot be placed.
   */
  lemma SolveFails(l: Layout, known: set<Card>, hand: seq<Card>, initial: bool, numSims: nat, draws: Draws,
                   cmf: FrontVsMiddle)
    requires l.WithinCapacity()
    ensures var opts := OptionsFor(l, hand, initial);
      SolveSpec(l, known, hand, initial, numSims, draws, cmf).Err? <==>
        || opts.Err?
        || opts.value == []
        || exists i :: 0 <= i < |opts.value| &&
             ExpectedValue(l, known, opts.value[i], numSims, OptionDraws(draws, i), cmf).Err?
    ensures OptionsFor(l, hand, initial) == Ok([]) ==>
      SolveSpec(l, known, hand, initial, numSims, draws, cmf) == Err(NoValidPlacements)
  {
    if OptionsFor(l, hand, initial).Ok? {
      var opts := OptionsFor(l, hand, initial).value;
      ScoreOptionsFails(opts, OptionValues(l, known, opts, numSims, draws, cmf));
    }
  }

  /**
   * A solution is the ranking of the options' entries (see RankedBest), and
   * every entry's value lies in -10..105.
   */
  lemma SolveBest(l: Layout, known: set<Card>, hand: seq<Card>, initial: bool, numSims: nat, draws: Draws,
                  cmf: FrontVsMiddle)
    requires l.WithinCapacity()
    ensures var s := SolveSpec(l, known, hand, initial, numSims, draws, cmf);
      s.Ok? ==>
        var opts := OptionsFor(l, hand, initial).value;
        var scored := ScoreOptions(opts, OptionValues(l, known, opts, numSims, draws, cmf)).value;
        && scored != []
        && s.value == Ranked(scored, numSims)
        && forall i :: 0 <= i < |s.value.allOptions| ==> -10.0 <= s.value.allOptions[i].ev <= 105.0
  {
    var s := SolveSpec(l, known, hand, initial, numSims, draws, cmf);
    if s.Ok? {
      var opts := OptionsFor(l, hand, initial).value;
      var vals := OptionValues(l, known, opts, numSims, draws, cmf);
      var scored := ScoreOptions(opts, vals).value;
      ScoreOptionsSpec(opts, vals);
      assert s.value == Ranked(scored, numSims);
      EntriesInRange(l, known, opts, numSims, draws, cmf);
      SortByEvPerm(scored);
      forall i | 0 <= i < |s.value.allOptions|
        ensures -10.0 <= s.value.allOptions[i].ev <= 105.0
      {
        assert s.value.allOptions[i] in multiset(scored);
      }
    }
  }

  /** Every entry the options get is worth between -10 and 105. */
  lemma EntriesInRange(l: Layout, known: set<Card>, opts: seq<Candidate>, numSims: nat, draws: Draws,
                       cmf: FrontVsMiddle)
    requires l.WithinCapacity()
    ensures var r := ScoreOptions(opts, OptionValues(l, known, opts, numSims, draws, cmf));
      r.Ok? ==> forall x :: x in r.value ==> -10.0 <= x.ev <= 105.0
  {
    var vals := OptionValues(l, known, opts, numSims, draws, cmf);
    var r := ScoreOptions(opts, vals);
    if r.Ok? {
      ScoreOptionsSpec(opts, vals);
      forall x | x in r.value
        ensures -10.0 <= x.ev <= 105.0
      {
        var j :| 0 <= j < |r.value| && r.value[j] == x;
        ExpectedValueRange(l, known, opts[j], numSims, OptionDraws(draws, j), cmf);
      }
    }
  }

  /** Every option is in the ranking, with its expected value. */
  lemma SolveRanksEveryOption(l: Layout, known: set<Card>, hand: seq<Card>, initial: bool, numSims: nat, draws: Draws,
                              cmf: FrontVsMiddle, i: nat)
    requires l.WithinCapacity()
    requires SolveSpec(l, known, hand, initial, numSims, draws, cmf).Ok?
    requires i < |OptionsFor(l, hand, initial).value|
    ensures var opts := OptionsFor(l, hand, initial).value;
      var ev := ExpectedValue(l, known, opts[i], numSims, OptionDraws(draws, i), cmf);
      ev.Ok? && Scored(opts[i], ev.value) in SolveSpec(l, known, hand, initial, numSims, draws, cmf).value.allOptions
  {
    var opts := OptionsFor(l, hand, initial).value;
    var vals := OptionValues(l, known, opts, numSims, draws, cmf);
    var scored := ScoreOptions(opts, vals).value;
    ScoreOptionsSpec(opts, vals);
    SortByEvPerm(scored);
    assert scored[i] in multiset(scored);
  }

  /**
   * The converse of SolveRanksEveryOption: every entry of the ranking is one
   * of the generator's options, holding the value that option gets from its
   * own draws.
   */
  lemma SolveEntriesAreOptions(l: Layout, known: set<Card>, hand: seq<Card>, initial: bool, numSims: nat, draws: Draws,
                               cmf: FrontVsMiddle)
    requires l.WithinCapacity()
    ensures var s := SolveSpec(l, known, hand, initial, numSims, draws, cmf);
      s.Ok? ==>
        var opts := OptionsFor(l, hand, initial).value;
        forall x :: x in s.value.allOptions ==>
          exists i :: 0 <= i < |opts| && x.option == opts[i] &&
            ExpectedValue(l, known, opts[i], numSims, OptionDraws(draws, i), cmf) == Ok(x.ev)
  {
    var s := SolveSpec(l, known, hand, initial, numSims, draws, cmf);
    if s.Ok? {
      var opts := OptionsFor(l, hand, initial).value;
      var vals := OptionValues(l, known, opts, numSims, draws, cmf);
      var scored := ScoreOptions(opts, vals).value;
      assert s.value == Ranked(scored, numSims);
      RankedBest(scored, numSims);
      EntriesFromOptions(opts, vals, s.value.allOptions);
    }
  }

  /** Entries holding the same values as the scored options each come from an option and its value. */
  lemma EntriesFromOptions(opts: seq<Candidate>, vals: seq<Result<real, SolveError>>, ranking: seq<Scored>)
    requires |vals| == |opts| && ScoreOptions(opts, vals).Ok?
    requires multiset(ranking) == multiset(ScoreOptions(opts, vals).value)
    ensures forall x :: x in ranking ==> exists i :: 0 <= i < |opts| && x.option == opts[i] && vals[i] == Ok(x.ev)
  {
    var scored := ScoreOptions(opts, vals).value;
    ScoreOptionsSpec(opts, vals);
    forall x | x in ranking
      ensures exists i :: 0 <= i < |opts| && x.option == opts[i] && vals[i] == Ok(x.ev)
    {
      assert x in multiset(scored);
      var j :| 0 <= j < |scored| && scored[j] == x;
      assert x.option == opts[j] && vals[j] == Ok(x.ev);
    }
  }

  /** The result's placements and discard are those of an option, and its value is that option's. */
  lemma SolveChoosesAnOption(l: Layout, known: set<Card>, hand: seq<Card>, initial: bool, numSims: nat, draws: Draws,
                             cmf: FrontVsMiddle)
    requires l.WithinCapacity()
    ensures var s := SolveSpec(l, known, hand, initial, numSims, draws, cmf);
      s.Ok? ==>
        var opts := OptionsFor(l, hand, initial).value;
        exists i ::
          && 0 <= i < |opts|
          && s.value.placements == opts[i].placements
          && s.value.discard == opts[i].discard
          && ExpectedValue(l, known, opts[i], numSims, OptionDraws(draws, i), cmf) == Ok(s.value.expectedValue)
  {
    var s := SolveSpec(l, known, hand, initial, numSims, draws, cmf);
    SolveEntriesAreOptions(l, known, hand, initial, numSims, draws, cmf);
    if s.Ok? {
      assert s.value.allOptions[0] in s.value.allOptions;
    }
  }

  /**
   * In round 0 the result places the five hand cards, in order, discards
   * nothing, and puts no more cards in a row than it holds.
   */
  lemma SolveInitialShape(l: Layout, known: set<Card>, hand: seq<Card>, numSims: nat, draws: Draws, cmf: FrontVsMiddle)
    requires l.WithinCapacity()
    ensures var s := SolveSpec(l, known, hand, true, numSims, draws, cmf);
      s.Ok? ==>
        && s.value.discard == None
        && |s.value.placements| == 5
        && (forall k :: 0 <= k < 5 ==> s.value.placements[k].card == hand[k])
        && FitsFromZero(RowsOf(s.value.placements))
  {
    var s := SolveSpec(l, known, hand, true, numSims, draws, cmf);
    SolveChoosesAnOption(l, known, hand, true, numSims, draws, cmf);
    if s.Ok? {
      var opts := OptionsFor(l, hand, true).value;
      var i :| 0 <= i < |opts| && s.value.placements == opts[i].placements && s.value.discard == opts[i].discard;
      InitialOptionShape(hand, opts[i]);
    }
  }

  /**
   * After round 0 the result discards one hand card and places the other two
   * in order, both fitting on the board; with distinct hand cards the discard
   * is not placed.
   */
  lemma SolvePineappleShape(l: Layout, known: set<Card>, hand: seq<Card>, numSims: nat, draws: Draws,
                            cmf: FrontVsMiddle)
    requires l.WithinCapacity()
    ensures var s := SolveSpec(l, known, hand, false, numSims, draws, cmf);
      s.Ok? ==>
        && |hand| == 3
        && (exists e :: 0 <= e < 3 && s.value.discard == Some(hand[e]) && CardsOf(s.value.placements) == Without(hand, e))
        && |s.value.placements| == 2
        && ApplyPlacements(l, s.value.placements).Ok?
        && (Distinct(hand) ==> s.value.discard.Some? && s.value.discard.value !in CardsOf(s.value.placements))
  {
    var s := SolveSpec(l, known, hand, false, numSims, draws, cmf);
    SolveChoosesAnOption(l, known, hand, false, numSims, draws, cmf);
    if s.Ok? {
      var opts := OptionsFor(l, hand, false).value;
      var i :| 0 <= i < |opts| && s.value.placements == opts[i].placements && s.value.discard == opts[i].discard;
      PineappleOptionShape(l, hand, opts[i]);
    }
  }

  /** A five-card initial deal always has options: all five cards in the back row fit. */
  lemma InitialOptionsNonEmpty(hand: seq<Card>)
    requires |hand| == 5
    ensures InitialOptions(hand) != []
  {
    var a := [Back, Back, Back, Back, Back];
    assert multiset(a) == multiset{Back, Back, Back, Back, Back};
    assert FitsFromZero(a);
    InitialOptionsComplete(hand, a);
  }
}
