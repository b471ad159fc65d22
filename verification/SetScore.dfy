/** The closed-form test for a set score, and the rally-by-rally game of rule 6.2 of the FIVB Official
    Volleyball Rules it stands for. */
module SetScore {
  datatype SetRule = SetRule(regularTarget: int, decidingTarget: int, margin: int, setsToWin: int, maximumSets: int) {
    predicate Valid() {
      regularTarget > 0 && decidingTarget > 0 && margin > 0 && setsToWin > 0 && maximumSets > 0
    }

    function TargetOf(number: nat): int {
      if number == maximumSets then decidingTarget else regularTarget
    }
  }

  const DEFAULT_RULE := SetRule(25, 15, 2, 3, 5)

  function Max(a: int, b: int): int {
    if a < b then b else a
  }

  function Min(a: int, b: int): int {
    if a < b then a else b
  }

  predicate ValidScore(target: int, margin: int, home: int, away: int) {
    var winner, loser := Max(home, away), Min(home, away);
    if home == away || winner < target then false
    else if loser <= target - margin then winner == target
    else winner == loser + margin
  }

  // ---- The game itself ----

  datatype Side = Home | Away

  datatype Score = Score(home: nat, away: nat) {
    function Plus(side: Side, n: nat): Score {
      if side == Home then Score(home + n, away) else Score(home, away + n)
    }
  }

  function ScoreAfter(rallies: seq<Side>): Score {
    if rallies == [] then Score(0, 0) else ScoreAfter(rallies[..|rallies| - 1]).Plus(rallies[|rallies| - 1], 1)
  }

  /** A side has the target with the margin. */
  predicate Finished(target: int, margin: int, s: Score) {
    Max(s.home, s.away) >= target && Max(s.home, s.away) - Min(s.home, s.away) >= margin
  }

  /** These rallies play one whole set: it is open before every rally and finished after the last. */
  ghost predicate PlaysSet(target: int, margin: int, rallies: seq<Side>) {
    && Finished(target, margin, ScoreAfter(rallies))
    && forall k :: 0 <= k < |rallies| ==> !Finished(target, margin, ScoreAfter(rallies[..k]))
  }

  ghost predicate Reachable(target: int, margin: int, s: Score) {
    exists rallies :: PlaysSet(target, margin, rallies) && ScoreAfter(rallies) == s
  }

  /** Rallies after which the set is still open, as it was all along. */
  ghost predicate StillOpen(target: int, margin: int, rallies: seq<Side>) {
    forall k :: 0 <= k <= |rallies| ==> !Finished(target, margin, ScoreAfter(rallies[..k]))
  }

  lemma OneMoreRally(target: int, margin: int, rallies: seq<Side>, side: Side)
    requires StillOpen(target, margin, rallies)
    ensures ScoreAfter(rallies + [side]) == ScoreAfter(rallies).Plus(side, 1)
    ensures !Finished(target, margin, ScoreAfter(rallies + [side])) ==> StillOpen(target, margin, rallies + [side])
    ensures Finished(target, margin, ScoreAfter(rallies + [side])) ==> PlaysSet(target, margin, rallies + [side])
  {
    var more := rallies + [side];
    assert more[..|rallies|] == rallies && more[|rallies|] == side;
    assert ScoreAfter(more) == ScoreAfter(rallies).Plus(side, 1);
    hide ScoreAfter, Finished;
    forall k | 0 <= k <= |rallies|
      ensures !Finished(target, margin, ScoreAfter(more[..k]))
    {
      assert more[..k] == rallies[..k];
    }
    assert more[..|more|] == more;
  }

  /** One side scores n times in a row without finishing the set on the way. */
  lemma {:induction false} Streak(target: int, margin: int, rallies: seq<Side>, side: Side, n: nat)
    returns (r: seq<Side>)
    requires target > 0 && StillOpen(target, margin, rallies)
    requires forall i: nat :: i < n ==> !Finished(target, margin, ScoreAfter(rallies).Plus(side, i))
    ensures ScoreAfter(r) == ScoreAfter(rallies).Plus(side, n)
    ensures if Finished(target, margin, ScoreAfter(r)) && n > 0 then PlaysSet(target, margin, r)
            else StillOpen(target, margin, r)
  {
    if n == 0 {
      r := rallies;
      assert rallies[..|rallies|] == rallies;
    } else {
      var init := Streak(target, margin, rallies, side, n - 1);
      assert n - 1 > 0 ==> !Finished(target, margin, ScoreAfter(init));
      OneMoreRally(target, margin, init, side);
      r := init + [side];
    }
  }

  /** Level play up to n all never finishes a set that needs a lead of two. */
  lemma {:induction false} LevelPlay(target: int, margin: int, n: nat) returns (r: seq<Side>)
    requires target > 0 && margin >= 2
    ensures StillOpen(target, margin, r) && ScoreAfter(r) == Score(n, n)
  {
    r := [];
    if n > 0 {
      r := LevelPlay(target, margin, n - 1);
      OneMoreRally(target, margin, r, Home);
      OneMoreRally(target, margin, r + [Home], Away);
      r := r + [Home] + [Away];
    }
  }

  lemma ValidScoreIsPlayed(target: int, margin: int, s: Score)
    requires target > 0 && margin > 0 && ValidScore(target, margin, s.home, s.away)
    requires margin >= 2 || Min(s.home, s.away) < target
    ensures Reachable(target, margin, s)
  {
    var winner, loser := if s.home > s.away then Home else Away, if s.home > s.away then Away else Home;
    var low: nat := Min(s.home, s.away);
    var r: seq<Side> := [];
    if low <= target - margin || margin == 1 {
      r := Streak(target, margin, [], loser, low);
      r := Streak(target, margin, r, winner, Max(s.home, s.away));
    } else {
      r := LevelPlay(target, margin, low);
      r := Streak(target, margin, r, winner, margin);
    }
    assert PlaysSet(target, margin, r);
  }

  /** With a margin of one, a set is over as soon as a side has the target. */
  lemma {:induction false} OpenMeansBelowTarget(target: int, rallies: seq<Side>)
    requires target > 0 && StillOpen(target, 1, rallies)
    ensures Max(ScoreAfter(rallies).home, ScoreAfter(rallies).away) < target
  {
    if rallies != [] {
      var init := rallies[..|rallies| - 1];
      assert forall k :: 0 <= k <= |init| ==> init[..k] == rallies[..k];
      assert rallies[..|rallies|] == rallies;
      OpenMeansBelowTarget(target, init);
    }
  }

  lemma PlayedScoreIsValid(target: int, margin: int, rallies: seq<Side>)
    requires target > 0 && margin > 0 && PlaysSet(target, margin, rallies)
    ensures var s := ScoreAfter(rallies);
            ValidScore(target, margin, s.home, s.away) && (margin >= 2 || Min(s.home, s.away) < target)
  {
    assert rallies != [];
    var init := rallies[..|rallies| - 1];
    assert forall k :: 0 <= k <= |init| ==> init[..k] == rallies[..k];
    assert StillOpen(target, margin, init);
    assert init[..|init|] == init;
    if margin == 1 {
      OpenMeansBelowTarget(target, init);
    }
  }

  /** The closed form accepts a score exactly when it can be played, for every target and every margin
      of at least two; with a margin of one it also accepts scores no play reaches, and these are the
      ones where the losing side already has the target. */
  lemma ClosedFormIsTheGame(target: int, margin: int, s: Score)
    requires target > 0 && margin > 0
    ensures Reachable(target, margin, s) <==>
            ValidScore(target, margin, s.home, s.away) && (margin >= 2 || Min(s.home, s.away) < target)
  {
    if Reachable(target, margin, s) {
      var rallies :| PlaysSet(target, margin, rallies) && ScoreAfter(rallies) == s;
      PlayedScoreIsValid(target, margin, rallies);
    }
    if ValidScore(target, margin, s.home, s.away) && (margin >= 2 || Min(s.home, s.away) < target) {
      ValidScoreIsPlayed(target, margin, s);
    }
  }

  /** A margin of one: 26 to 25 passes the closed form, but no play gets there. */
  lemma MarginOneAcceptsTooMuch()
    ensures ValidScore(25, 1, 26, 25) && !Reachable(25, 1, Score(26, 25))
  {
    ClosedFormIsTheGame(25, 1, Score(26, 25));
  }
}
