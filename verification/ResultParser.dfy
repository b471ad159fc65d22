/** The result row of a match: set scores in numbered columns, empty columns after the last set, and two
    totals. */
module ResultParser {
  import opened Wrappers
  import opened SetScore

  /** A JSON cell: null or absent, an integer, or something else. */
  datatype Cell = Null | Number(n: int) | Other

  /** The columns of a row, by set number. */
  datatype Row = Row(home: nat -> Cell, away: nat -> Cell, homeTotal: Cell, awayTotal: Cell)

  datatype Issue =
    | RuleUnverified | IncompleteSet | NonContiguousSets | SetAfterMatchEnd | InvalidSetScore | IncompleteResult
    | TotalScoreMismatch | InvalidSetResult

  datatype SetFact = SetFact(number: nat, home: int, away: int)

  datatype ResultFact = ResultFact(homeSets: int, awaySets: int, homePoints: int, awayPoints: int, sets: seq<SetFact>)

  datatype ParseResult = Parsed(fact: ResultFact) | NoResult | Rejected(issue: Issue) | ContractError

  // ---- A match ----

  type Match = seq<Score>

  function HomeWins(m: Match): nat {
    if m == [] then 0 else HomeWins(m[..|m| - 1]) + if m[|m| - 1].home > m[|m| - 1].away then 1 else 0
  }

  function AwayWins(m: Match): nat {
    if m == [] then 0 else AwayWins(m[..|m| - 1]) + if m[|m| - 1].away > m[|m| - 1].home then 1 else 0
  }

  function HomePoints(m: Match): nat {
    if m == [] then 0 else HomePoints(m[..|m| - 1]) + m[|m| - 1].home
  }

  function AwayPoints(m: Match): nat {
    if m == [] then 0 else AwayPoints(m[..|m| - 1]) + m[|m| - 1].away
  }

  function SetFacts(m: Match): seq<SetFact> {
    if m == [] then [] else SetFacts(m[..|m| - 1]) + [SetFact(|m|, m[|m| - 1].home, m[|m| - 1].away)]
  }

  function FactOf(m: Match): ResultFact {
    ResultFact(HomeWins(m), AwayWins(m), HomePoints(m), AwayPoints(m), SetFacts(m))
  }

  predicate Undecided(m: Match, rule: SetRule) {
    HomeWins(m) != rule.setsToWin && AwayWins(m) != rule.setsToWin
  }

  predicate ValidSet(m: Match, i: nat, rule: SetRule)
    requires i < |m|
  {
    ValidScore(rule.TargetOf(i + 1), rule.margin, m[i].home, m[i].away)
  }

  /** A match as rule 6.3 has it: valid sets, undecided before every set, decided after the last. */
  ghost predicate Legal(m: Match, rule: SetRule) {
    && |m| <= rule.maximumSets
    && (forall i :: 0 <= i < |m| ==> ValidSet(m, i, rule) && Undecided(m[..i], rule))
    && !Undecided(m, rule)
  }

  function LosingSets(m: Match): nat {
    if HomeWins(m) < AwayWins(m) then HomeWins(m) else AwayWins(m)
  }

  predicate EmptyPair(row: Row, number: nat) {
    || (row.home(number) == Null && row.away(number) == Null)
    || (row.home(number) == Number(0) && row.away(number) == Number(0))
  }

  predicate HoldsScore(row: Row, number: nat, s: Score) {
    row.home(number) == Number(s.home) && row.away(number) == Number(s.away)
  }

  /** The row writes the match down, with null or 0:0 in the columns after the last set. */
  ghost predicate Encodes(row: Row, m: Match, rule: SetRule) {
    && |m| <= rule.maximumSets
    && (forall i :: 0 <= i < |m| ==> HoldsScore(row, i + 1, m[i]))
    && (forall number :: |m| < number <= rule.maximumSets ==> EmptyPair(row, number))
    && row.homeTotal == Number(HomePoints(m)) && row.awayTotal == Number(AwayPoints(m))
  }

  /** The source accepts at most two sets for the loser, whatever the rule says. */
  ghost predicate Acceptable(row: Row, m: Match, rule: SetRule) {
    Legal(m, rule) && Encodes(row, m, rule) && LosingSets(m) <= 2
  }

  // ---- Reading a prefix of the columns ----

  /** The sets read so far: they fill the columns up to `number`, or an empty column follows them. */
  ghost predicate ReadSoFar(row: Row, m: Match, rule: SetRule, number: nat, gap: bool) {
    && |m| <= number <= rule.maximumSets
    && (forall i :: 0 <= i < |m| ==> HoldsScore(row, i + 1, m[i]) && ValidSet(m, i, rule) && Undecided(m[..i], rule))
    && (forall k :: |m| < k <= number ==> EmptyPair(row, k))
    && (gap <==> |m| < number)
  }

  lemma ValidSetIsNotEmpty(row: Row, m: Match, i: nat, rule: SetRule)
    requires rule.Valid() && i < |m| && ValidSet(m, i, rule) && HoldsScore(row, i + 1, m[i])
    ensures !EmptyPair(row, i + 1)
  {
  }

  /** The column after the shorter match is empty for it and holds a set of the longer one. */
  lemma ColumnsAround(row: Row, m: Match, rule: SetRule, number: nat, gap: bool, other: Match)
    requires rule.Valid() && ReadSoFar(row, m, rule, number, gap) && Acceptable(row, other, rule)
    ensures |other| < |m| ==> !EmptyPair(row, |other| + 1) && EmptyPair(row, |other| + 1)
    ensures gap && |m| < |other| ==> !EmptyPair(row, |m| + 1) && EmptyPair(row, |m| + 1)
  {
    if |other| < |m| {
      ValidSetIsNotEmpty(row, m, |other|, rule);
    }
    if gap && |m| < |other| {
      ValidSetIsNotEmpty(row, other, |m|, rule);
    }
  }

  /** Any match the row can stand for agrees with what has been read, and is longer only without a gap. */
  lemma PrefixIsForced(row: Row, m: Match, rule: SetRule, number: nat, gap: bool, other: Match)
    requires rule.Valid() && ReadSoFar(row, m, rule, number, gap) && Acceptable(row, other, rule)
    ensures |m| <= |other| && other[..|m|] == m
    ensures gap ==> other == m
  {
    ColumnsAround(row, m, rule, number, gap, other);
    assert forall i :: 0 <= i < |m| ==> HoldsScore(row, i + 1, other[i]) && HoldsScore(row, i + 1, m[i]);
  }

  /** A further column that is not empty cannot belong to any match after a gap, after the end, or with
      a score no set has. */
  lemma NextColumnExcludes(row: Row, m: Match, rule: SetRule, number: nat, gap: bool, other: Match)
    requires rule.Valid() && ReadSoFar(row, m, rule, number, gap) && number < rule.maximumSets
    requires !EmptyPair(row, number + 1) && Acceptable(row, other, rule)
    ensures !gap && row.home(number + 1).Number? && row.away(number + 1).Number? && Undecided(m, rule)
    ensures row.home(number + 1).n >= 0 && row.away(number + 1).n >= 0
    ensures ValidScore(rule.TargetOf(number + 1), rule.margin, row.home(number + 1).n, row.away(number + 1).n)
  {
    PrefixIsForced(row, m, rule, number, gap, other);
    assert |other| > number;
    assert HoldsScore(row, number + 1, other[number]) && ValidSet(other, number, rule) &&
              Undecided(other[..number], rule);
  }

  lemma OneMoreSet(row: Row, m: Match, rule: SetRule, number: nat, s: Score)
    requires ReadSoFar(row, m, rule, number, false) && number < rule.maximumSets
    requires HoldsScore(row, number + 1, s) && Undecided(m, rule)
    requires ValidScore(rule.TargetOf(number + 1), rule.margin, s.home, s.away)
    ensures ReadSoFar(row, m + [s], rule, number + 1, false)
    ensures FactOf(m + [s]) == ResultFact(
      HomeWins(m) + if s.home > s.away then 1 else 0, AwayWins(m) + if s.away > s.home then 1 else 0,
      HomePoints(m) + s.home, AwayPoints(m) + s.away, SetFacts(m) + [SetFact(number + 1, s.home, s.away)])
  {
    assert (m + [s])[..|m|] == m;
    forall i | 0 <= i < |m + [s]|
      ensures HoldsScore(row, i + 1, (m + [s])[i]) && ValidSet(m + [s], i, rule) && Undecided((m + [s])[..i], rule)
    {
      assert i < |m| ==> (m + [s])[..i] == m[..i] && ValidSet(m, i, rule);
    }
  }

  predicate AllEmpty(row: Row, rule: SetRule) {
    forall number :: 1 <= number <= rule.maximumSets ==> EmptyPair(row, number)
  }

  lemma NothingRead(row: Row, rule: SetRule)
    requires rule.Valid()
    ensures ReadSoFar(row, [], rule, 0, false) && FactOf([]) == ResultFact(0, 0, 0, 0, [])
  {
  }

  lemma GapRead(row: Row, m: Match, rule: SetRule, number: nat, gap: bool)
    requires ReadSoFar(row, m, rule, number, gap) && number < rule.maximumSets && EmptyPair(row, number + 1)
    ensures ReadSoFar(row, m, rule, number + 1, true)
  {
  }

  /** A column that can continue the match read so far. */
  predicate FitsNext(row: Row, number: nat, rule: SetRule, gap: bool, decided: bool) {
    && !gap && !decided && row.home(number).Number? && row.away(number).Number?
    && row.home(number).n >= 0 && row.away(number).n >= 0
    && ValidScore(rule.TargetOf(number), rule.margin, row.home(number).n, row.away(number).n)
  }

  ghost predicate FitsNoMatch(row: Row, rule: SetRule) {
    !AllEmpty(row, rule) && forall other :: !Acceptable(row, other, rule)
  }

  /** NextColumnExcludes for every match at once. */
  lemma ColumnExcludes(row: Row, m: Match, rule: SetRule, number: nat, gap: bool)
    requires rule.Valid() && ReadSoFar(row, m, rule, number, gap) && number < rule.maximumSets
    requires !EmptyPair(row, number + 1) && !FitsNext(row, number + 1, rule, gap, !Undecided(m, rule))
    ensures FitsNoMatch(row, rule)
  {
    hide ReadSoFar, Acceptable;
    if exists other :: Acceptable(row, other, rule) {
      var other :| Acceptable(row, other, rule);
      NextColumnExcludes(row, m, rule, number, gap, other);
    }
  }

  /** No side is past the winning number of sets, and before the last set none has it. */
  lemma {:induction false} WinsStayBelow(m: Match, rule: SetRule)
    requires rule.Valid() && forall i :: 0 <= i < |m| ==> Undecided(m[..i], rule)
    ensures HomeWins(m) <= rule.setsToWin && AwayWins(m) <= rule.setsToWin
    ensures HomeWins(m) < rule.setsToWin || AwayWins(m) < rule.setsToWin
  {
    if m != [] {
      var init := m[..|m| - 1];
      assert forall i :: 0 <= i < |init| ==> init[..i] == m[..i];
      WinsStayBelow(init, rule);
      assert Undecided(m[..|m| - 1], rule);
    }
  }

  lemma {:induction false} WinsGrow(m: Match, i: nat)
    requires i <= |m|
    ensures HomeWins(m[..i]) <= HomeWins(m) && AwayWins(m[..i]) <= AwayWins(m)
  {
    if i == |m| {
      assert m[..i] == m;
    } else {
      var init := m[..|m| - 1];
      WinsGrow(init, i);
      assert init[..i] == m[..i];
    }
  }

  /** A legal match without its history: valid sets, as many as allowed, one side with the winning number of
      them and the other with fewer, and the last set won by the winner. */
  lemma LegalIff(m: Match, rule: SetRule)
    requires rule.Valid()
    ensures Legal(m, rule) <==>
            && 0 < |m| <= rule.maximumSets
            && (forall i :: 0 <= i < |m| ==>
                  ValidScore(if i + 1 == rule.maximumSets then rule.decidingTarget else rule.regularTarget, rule.margin,
                             m[i].home, m[i].away))
            && if m[|m| - 1].home > m[|m| - 1].away
               then HomeWins(m) == rule.setsToWin && AwayWins(m) < rule.setsToWin
               else AwayWins(m) == rule.setsToWin && HomeWins(m) < rule.setsToWin
  {
    hide ValidScore;
    assert forall i :: 0 <= i < |m| ==>
             (ValidSet(m, i, rule) <==>
              ValidScore(if i + 1 == rule.maximumSets then rule.decidingTarget else rule.regularTarget, rule.margin,
                         m[i].home, m[i].away));
    hide ValidSet;
    if m != [] {
      var n := |m| - 1;
      LastSetCounts(m, rule);
      if Legal(m, rule) {
        assert Undecided(m[..n], rule) && ValidSet(m, n, rule);
        WinsStayBelow(m, rule);
      } else {
        forall i | 0 <= i < |m|
          ensures HomeWins(m[..i]) <= HomeWins(m[..n]) && AwayWins(m[..i]) <= AwayWins(m[..n])
        {
          WinsGrow(m[..n], i);
          assert m[..n][..i] == m[..i];
        }
      }
    }
  }

  lemma LastSetCounts(m: Match, rule: SetRule)
    requires m != []
    ensures ValidSet(m, |m| - 1, rule) ==> m[|m| - 1].home != m[|m| - 1].away
    ensures m[|m| - 1].home > m[|m| - 1].away ==>
              HomeWins(m) == HomeWins(m[..|m| - 1]) + 1 && AwayWins(m) == AwayWins(m[..|m| - 1])
    ensures m[|m| - 1].home < m[|m| - 1].away ==>
              AwayWins(m) == AwayWins(m[..|m| - 1]) + 1 && HomeWins(m) == HomeWins(m[..|m| - 1])
  {
  }

  function PlacesWith(m: Match, p: Score -> bool): set<nat> {
    set i: nat | i < |m| && p(m[i])
  }

  lemma OneMorePlace(m: Match, p: Score -> bool)
    requires m != []
    ensures |PlacesWith(m, p)| == |PlacesWith(m[..|m| - 1], p)| + if p(m[|m| - 1]) then 1 else 0
  {
    var n := |m| - 1;
    assert PlacesWith(m, p) == PlacesWith(m[..n], p) + if p(m[n]) then {n} else {};
  }

  /** The wins are the numbers of sets in which a side has more points. */
  lemma {:induction false} WinsAreCounts(m: Match)
    ensures HomeWins(m) == |PlacesWith(m, (s: Score) => s.home > s.away)|
    ensures AwayWins(m) == |PlacesWith(m, (s: Score) => s.away > s.home)|
  {
    if m == [] {
      assert forall p :: PlacesWith(m, p) == {};
    } else {
      WinsAreCounts(m[..|m| - 1]);
      hide PlacesWith;
      OneMorePlace(m, (s: Score) => s.home > s.away);
      OneMorePlace(m, (s: Score) => s.away > s.home);
    }
  }

  /** Null and 0:0 are the same in a column after the last set: rows that differ in nothing else stand for
      the same matches. */
  lemma PaddingDoesNotMatter(row: Row, other: Row, m: Match, rule: SetRule)
    requires row.homeTotal == other.homeTotal && row.awayTotal == other.awayTotal
    requires forall n: nat ::
               || (row.home(n) == other.home(n) && row.away(n) == other.away(n))
               || (row.home(n) == row.away(n) == Null && other.home(n) == other.away(n) == Number(0))
               || (row.home(n) == row.away(n) == Number(0) && other.home(n) == other.away(n) == Null)
    requires rule.Valid()
    ensures Acceptable(row, m, rule) <==> Acceptable(other, m, rule)
  {
    if Legal(m, rule) {
      forall i | 0 <= i < |m|
        ensures HoldsScore(row, i + 1, m[i]) <==> HoldsScore(other, i + 1, m[i])
      {
        assert ValidSet(m, i, rule);
      }
      forall n: nat | |m| < n <= rule.maximumSets
        ensures EmptyPair(row, n) <==> EmptyPair(other, n)
      {
      }
    }
  }

  /** Once all columns are read, only the match read can be acceptable, and the totals and the winning
      number of sets decide. */
  lemma ColumnsDecide(row: Row, m: Match, rule: SetRule, gap: bool)
    requires rule.Valid() && ReadSoFar(row, m, rule, rule.maximumSets, gap)
    ensures forall other :: Acceptable(row, other, rule) ==> other == m
    ensures Acceptable(row, m, rule) <==>
            && row.homeTotal == Number(HomePoints(m)) && row.awayTotal == Number(AwayPoints(m))
            && Max(HomeWins(m), AwayWins(m)) == rule.setsToWin && Min(HomeWins(m), AwayWins(m)) <= 2
    ensures m == [] <==> AllEmpty(row, rule)
    ensures m == [] <==> SetFacts(m) == []
    ensures FactOf(m) == ResultFact(HomeWins(m), AwayWins(m), HomePoints(m), AwayPoints(m), SetFacts(m))
    ensures m == [] ==> HomeWins(m) == 0 && AwayWins(m) == 0
  {
    forall other | Acceptable(row, other, rule)
      ensures other == m
    {
      PrefixIsForced(row, m, rule, rule.maximumSets, gap, other);
      assert other[..|other|] == other;
    }
    WinsStayBelow(m, rule);
    if m != [] {
      assert ValidSet(m, 0, rule);
      ValidSetIsNotEmpty(row, m, 0, rule);
    }
  }

  /** Under the default rule the loser never has more than two sets, so every legal match is acceptable
      once written down; and each of its sets is one that rallies can produce. */
  lemma DefaultRuleAcceptsEveryMatch(row: Row, m: Match)
    requires Legal(m, DEFAULT_RULE)
    ensures Acceptable(row, m, DEFAULT_RULE) <==> Encodes(row, m, DEFAULT_RULE)
    ensures forall i :: 0 <= i < |m| ==> Reachable(DEFAULT_RULE.TargetOf(i + 1), DEFAULT_RULE.margin, m[i])
    ensures 3 <= |m| <= 5
  {
    LoserHasFewSets(m, DEFAULT_RULE);
    WinsStayBelow(m, DEFAULT_RULE);
    WinsAddUp(m, DEFAULT_RULE);
    forall i | 0 <= i < |m|
      ensures Reachable(DEFAULT_RULE.TargetOf(i + 1), DEFAULT_RULE.margin, m[i])
    {
      assert ValidSet(m, i, DEFAULT_RULE);
      ClosedFormIsTheGame(DEFAULT_RULE.TargetOf(i + 1), DEFAULT_RULE.margin, m[i]);
    }
  }

  lemma OneMoreWin(m: Match, n: nat)
    requires 0 < n <= |m|
    ensures HomeWins(m[..n]) == HomeWins(m[..n - 1]) + if m[n - 1].home > m[n - 1].away then 1 else 0
    ensures AwayWins(m[..n]) == AwayWins(m[..n - 1]) + if m[n - 1].away > m[n - 1].home then 1 else 0
  {
    assert m[..n][..n - 1] == m[..n - 1];
  }

  lemma NoWins()
    ensures HomeWins([]) == 0 && AwayWins([]) == 0
  {
  }

  /** An instance: with four sets to win out of seven, a match of seven sets is legal and no row of it is
      accepted. */
  lemma FourSetsToWinLosesAMatch()
    ensures var rule := SetRule(25, 15, 2, 4, 7);
            var a, b := Score(25, 20), Score(20, 25);
            var m := [a, a, a, b, b, b, Score(15, 10)];
            rule.Valid() && Legal(m, rule) && LosingSets(m) == 3 && forall row :: !Acceptable(row, m, rule)
  {
    var rule := SetRule(25, 15, 2, 4, 7);
    var a, b := Score(25, 20), Score(20, 25);
    var m := [a, a, a, b, b, b, Score(15, 10)];
    NoWins();
    hide HomeWins, AwayWins;
    assert m[..0] == [] && m[..7] == m;
    OneMoreWin(m, 1);
    OneMoreWin(m, 2);
    OneMoreWin(m, 3);
    OneMoreWin(m, 4);
    OneMoreWin(m, 5);
    OneMoreWin(m, 6);
    OneMoreWin(m, 7);
  }

  /** The first n sets of a match in which the home side loses three sets and wins all others to nil. */
  function Comeback(rule: SetRule, n: nat): Match
    requires rule.Valid()
  {
    if n == 0 then [] else
      var points := Max(rule.TargetOf(n), rule.margin);
      Comeback(rule, n - 1) + [if n <= 3 then Score(0, points) else Score(points, 0)]
  }

  lemma {:induction false} ComebackSets(rule: SetRule, n: nat)
    requires rule.Valid()
    ensures |Comeback(rule, n)| == n
    ensures forall i :: 0 <= i < n ==>
              Comeback(rule, n)[..i] == Comeback(rule, i) && ValidSet(Comeback(rule, n), i, rule)
    ensures HomeWins(Comeback(rule, n)) == Max(0, n - 3) && AwayWins(Comeback(rule, n)) == Min(n, 3)
  {
    if n > 0 {
      var init, m := Comeback(rule, n - 1), Comeback(rule, n);
      ComebackSets(rule, n - 1);
      assert m[..n - 1] == init;
      forall i | 0 <= i < n - 1
        ensures m[..i] == Comeback(rule, i) && ValidSet(m, i, rule)
      {
        assert m[..i] == init[..i] && ValidSet(init, i, rule);
      }
    }
  }

  /** A row that writes the match down. */
  function RowOf(m: Match): Row {
    Row(n => if 1 <= n <= |m| then Number(m[n - 1].home) else Null,
        n => if 1 <= n <= |m| then Number(m[n - 1].away) else Null, Number(HomePoints(m)), Number(AwayPoints(m)))
  }

  /** Every legal match is acceptable once written down. */
  ghost predicate LosesNoMatch(rule: SetRule) {
    forall m, row :: Legal(m, rule) && Encodes(row, m, rule) ==> Acceptable(row, m, rule)
  }

  lemma LoserHasFewSets(m: Match, rule: SetRule)
    requires rule.Valid() && Legal(m, rule)
    requires rule.setsToWin <= 3 || rule.maximumSets < rule.setsToWin + 3
    ensures LosingSets(m) <= 2
  {
    hide HomeWins, AwayWins, ValidSet;
    WinsStayBelow(m, rule);
    WinsAddUp(m, rule);
  }

  lemma ComebackIsLegal(rule: SetRule)
    requires rule.Valid() && 3 < rule.setsToWin && rule.setsToWin + 3 <= rule.maximumSets
    ensures var m := Comeback(rule, rule.setsToWin + 3);
            Legal(m, rule) && LosingSets(m) == 3 && Encodes(RowOf(m), m, rule)
  {
    hide HomeWins, AwayWins, HomePoints, AwayPoints, ValidSet, Comeback;
    var n: nat := rule.setsToWin + 3;
    ComebackSets(rule, n);
    forall i | 0 <= i < n
      ensures Undecided(Comeback(rule, n)[..i], rule)
    {
      ComebackSets(rule, i);
    }
  }

  /** A rule loses no match exactly when it takes at most three sets to win, or allows too few sets for
      a loser with three. */
  lemma NoMatchIsLostIff(rule: SetRule)
    requires rule.Valid()
    ensures LosesNoMatch(rule) <==> rule.setsToWin <= 3 || rule.maximumSets < rule.setsToWin + 3
  {
    hide Legal, Encodes, LosingSets;
    if rule.setsToWin <= 3 || rule.maximumSets < rule.setsToWin + 3 {
      forall m, row | Legal(m, rule) && Encodes(row, m, rule)
        ensures Acceptable(row, m, rule)
      {
        LoserHasFewSets(m, rule);
      }
    } else {
      ComebackIsLegal(rule);
      var m := Comeback(rule, rule.setsToWin + 3);
      assert !Acceptable(RowOf(m), m, rule);
    }
  }

  lemma {:induction false} WinsAddUp(m: Match, rule: SetRule)
    requires forall i :: 0 <= i < |m| ==> ValidSet(m, i, rule)
    ensures HomeWins(m) + AwayWins(m) == |m|
  {
    if m != [] {
      var init := m[..|m| - 1];
      forall i | 0 <= i < |init|
        ensures ValidSet(init, i, rule)
      {
        assert ValidSet(m, i, rule);
      }
      WinsAddUp(init, rule);
      assert ValidSet(m, |m| - 1, rule);
    }
  }

  // ---- Why a row yields no result ----

  predicate IsReadable(c: Cell) {
    c == Null || (c.Number? && c.n >= 0)
  }

  /** Why a column cannot continue what has been read, if it cannot. */
  function ColumnFailure(row: Row, number: nat, rule: SetRule, gap: bool, decided: bool): Option<ParseResult> {
    var home, away := row.home(number), row.away(number);
    if !IsReadable(home) || !IsReadable(away) then Some(ContractError)
    else if EmptyPair(row, number) then None
    else if home == Null || away == Null then Some(Rejected(IncompleteSet))
    else if gap then Some(Rejected(NonContiguousSets))
    else if decided then Some(Rejected(SetAfterMatchEnd))
    else if !ValidScore(rule.TargetOf(number), rule.margin, home.n, away.n) then Some(Rejected(InvalidSetScore))
    else None
  }

  /** After these sets the next column is the one that fails so. */
  ghost predicate FailsAfter(row: Row, rule: SetRule, m: Match, number: nat, gap: bool, r: ParseResult) {
    && number < rule.maximumSets && ReadSoFar(row, m, rule, number, gap)
    && ColumnFailure(row, number + 1, rule, gap, !Undecided(m, rule)) == Some(r)
  }

  /** All columns read, the totals decide. */
  predicate TotalsDecide(row: Row, rule: SetRule, m: Match, r: ParseResult) {
    var home, away := row.homeTotal, row.awayTotal;
    if !IsReadable(home) || !IsReadable(away) then r == ContractError
    else if m == [] && home == Null && away == Null then r == NoResult
    else if m == [] || home == Null || away == Null then r == Rejected(IncompleteResult)
    else if home.n != HomePoints(m) || away.n != AwayPoints(m) then r == Rejected(TotalScoreMismatch)
    else if (HomeWins(m) == rule.setsToWin && AwayWins(m) <= 2 && AwayWins(m) <= HomeWins(m))
            || (AwayWins(m) == rule.setsToWin && HomeWins(m) <= 2 && HomeWins(m) <= AwayWins(m))
    then r == Parsed(FactOf(m))
    else r == Rejected(InvalidSetResult)
  }

  /** The first column that cannot continue the match gives the reason, or else the totals do. */
  ghost predicate Explains(row: Row, rule: SetRule, r: ParseResult)
    requires rule.Valid()
  {
    || (exists m, number, gap :: FailsAfter(row, rule, m, number, gap, r))
    || (exists m, gap :: ReadSoFar(row, m, rule, rule.maximumSets, gap) && TotalsDecide(row, rule, m, r))
  }

  // ---- The parser ----

  method NullableInteger(c: Cell) returns (ok: bool, value: Option<int>)
    ensures ok <==> c.Null? || (c.Number? && c.n >= 0)
    ensures ok ==> value == (if c.Null? then None else Some(c.n))
  {
    match c {
      case Null => ok, value := true, None;
      case Number(n) => ok, value := n >= 0, Some(n);
      case Other => ok, value := false, None;
    }
  }

  /** One column: why it cannot continue the match, or the set it holds, or neither when it is empty. */
  method ReadColumn(row: Row, number: nat, rule: SetRule, gapSeen: bool, decided: bool)
    returns (failure: Option<ParseResult>, score: Option<Score>)
    ensures failure.Some? ==>
              && (failure.value.ContractError? || (failure.value.Rejected? && failure.value.issue != RuleUnverified))
              && !EmptyPair(row, number) && !FitsNext(row, number, rule, gapSeen, decided)
    ensures failure == ColumnFailure(row, number, rule, gapSeen, decided)
    ensures failure.None? && score.None? ==> EmptyPair(row, number)
    ensures failure.None? && score.Some? ==>
              !EmptyPair(row, number) && HoldsScore(row, number, score.value)
              && FitsNext(row, number, rule, gapSeen, decided)
  {
    failure, score := None, None;
    var homeOk, home := NullableInteger(row.home(number));
    if !homeOk {
      return Some(ContractError), None;
    }
    var awayOk, away := NullableInteger(row.away(number));
    if !awayOk {
      return Some(ContractError), None;
    }
    if (home.None? && away.None?) || (home == Some(0) && away == Some(0)) {
      return;
    }
    if home.None? || away.None? {
      return Some(Rejected(IncompleteSet)), None;
    }
    if gapSeen {
      return Some(Rejected(NonContiguousSets)), None;
    }
    if decided {
      return Some(Rejected(SetAfterMatchEnd)), None;
    }
    if !ValidScore(rule.TargetOf(number), rule.margin, home.value, away.value) {
      return Some(Rejected(InvalidSetScore)), None;
    }
    score := Some(Score(home.value, away.value));
  }

  /** The loop over the numbered columns: either some column fits no match at all, or the columns hold
      exactly the sets of `m`. */
  method ReadColumns(row: Row, rule: SetRule)
    returns (failure: Option<ParseResult>, fact: ResultFact, ghost m: Match, ghost gap: bool)
    requires rule.Valid()
    ensures failure.Some? ==>
              && (failure.value.ContractError? || (failure.value.Rejected? && failure.value.issue != RuleUnverified))
              && FitsNoMatch(row, rule)
    ensures failure.Some? ==> exists number, g, read :: FailsAfter(row, rule, read, number, g, failure.value)
    ensures failure.None? ==> ReadSoFar(row, m, rule, rule.maximumSets, gap) && fact == FactOf(m)
  {
    hide ReadSoFar, FitsNoMatch, FitsNext, ColumnFailure, EmptyPair, HoldsScore, HomeWins, AwayWins, HomePoints,
         AwayPoints, SetFacts;
    var sets: seq<SetFact> := [];
    var gapSeen := false;
    var homeWins, awayWins, homeSum, awaySum := 0, 0, 0, 0;
    m, gap := [], false;
    NothingRead(row, rule);
    var number := 0;
    fact := ResultFact(0, 0, 0, 0, []);
    while number < rule.maximumSets
      invariant 0 <= number <= rule.maximumSets
      invariant gap == gapSeen && ReadSoFar(row, m, rule, number, gapSeen)
      invariant FactOf(m) == ResultFact(homeWins, awayWins, homeSum, awaySum, sets)
    {
      var decided := homeWins == rule.setsToWin || awayWins == rule.setsToWin;
      var problem, score := ReadColumn(row, number + 1, rule, gapSeen, decided);
      if problem.Some? {
        ColumnExcludes(row, m, rule, number, gapSeen);
        assert FailsAfter(row, rule, m, number, gapSeen, problem.value);
        return problem, fact, m, gap;
      }
      if score.None? {
        GapRead(row, m, rule, number, gapSeen);
        gapSeen, gap := true, true;
        number := number + 1;
        continue;
      }
      FittingSet(row, number + 1, rule, gapSeen, decided, score.value);
      OneMoreSet(row, m, rule, number, score.value);
      m := m + [score.value];
      homeWins := homeWins + if score.value.home > score.value.away then 1 else 0;
      awayWins := awayWins + if score.value.away > score.value.home then 1 else 0;
      homeSum, awaySum := homeSum + score.value.home, awaySum + score.value.away;
      number := number + 1;
      sets := sets + [SetFact(number, score.value.home, score.value.away)];
    }
    failure := None;
    fact := ResultFact(homeWins, awayWins, homeSum, awaySum, sets);
  }

  lemma FittingSet(row: Row, number: nat, rule: SetRule, gap: bool, decided: bool, s: Score)
    requires FitsNext(row, number, rule, gap, decided) && HoldsScore(row, number, s)
    ensures !gap && !decided && ValidScore(rule.TargetOf(number), rule.margin, s.home, s.away)
  {
  }

  /** A row yields a result exactly when it writes down a legal match whose loser won at most two sets,
      and then it yields that match; it yields nothing exactly when every column and both totals are empty. */
  method ParseResultRow(row: Row, reviewed: Option<SetRule>) returns (r: ParseResult)
    requires reviewed.Some? ==> reviewed.value.Valid()
    ensures r == Rejected(RuleUnverified) <==> reviewed.None?
    ensures reviewed.Some? ==> forall m :: Acceptable(row, m, reviewed.value) ==> r == Parsed(FactOf(m))
    ensures r.Parsed? ==> reviewed.Some? && exists m :: Acceptable(row, m, reviewed.value) && r.fact == FactOf(m)
    ensures reviewed.Some? ==> Explains(row, reviewed.value, r)
    ensures r.NoResult? <==>
            reviewed.Some? && row.homeTotal == Null && row.awayTotal == Null && AllEmpty(row, reviewed.value)
  {
    if reviewed.None? {
      return Rejected(RuleUnverified);
    }
    hide ReadSoFar, Acceptable, FactOf, AllEmpty, FailsAfter;
    var rule := reviewed.value;
    var failure, fact, m, gap := ReadColumns(row, rule);
    if failure.Some? {
      return failure.value;
    }
    ColumnsDecide(row, m, rule, gap);
    var homeTotalOk, homeTotal := NullableInteger(row.homeTotal);
    if !homeTotalOk {
      return ContractError;
    }
    var awayTotalOk, awayTotal := NullableInteger(row.awayTotal);
    if !awayTotalOk {
      return ContractError;
    }
    if fact.sets == [] && homeTotal.None? && awayTotal.None? {
      return NoResult;
    }
    if fact.sets == [] || homeTotal.None? || awayTotal.None? {
      return Rejected(IncompleteResult);
    }
    if fact.homePoints != homeTotal.value || fact.awayPoints != awayTotal.value {
      return Rejected(TotalScoreMismatch);
    }
    var low, high := Min(fact.homeSets, fact.awaySets), Max(fact.homeSets, fact.awaySets);
    if high != rule.setsToWin || low !in {0, 1, 2} {
      return Rejected(InvalidSetResult);
    }
    r := Parsed(fact);
  }
}
