/**
 The prediction harness of prediction.go: train on every round but the last,
 score the last round's matches against the trained ratings, and the
 objective the optimizer minimises over (r, rd, sigma, tau).
 */
module Prediction {
  import opened Types
  import opened Clamping
  import Engine
  import Tables

  /** A floating-point mean: a number, or NaN for the 0/0 of an empty average. */
  datatype Score = Mean(value: real) | NaN

  /** Every pair names two players below `n`. */
  ghost predicate PairsIn(pairs: seq<(nat, nat)>, n: nat) {
    forall k :: 0 <= k < |pairs| ==> pairs[k].0 < n && pairs[k].1 < n
  }

  /**
   The sum of the per-match scores of `pairs`, each scored from the current
   triples of its winner and loser. `score` stands for the log-loss of the
   expected outcome, which is floating-point and not modelled.
   */
  function Total(ps: seq<Player>, pairs: seq<(nat, nat)>, score: (Rating, Rating) -> real): (t: real)
    requires PairsIn(pairs, |ps|)
    ensures |pairs| == 0 ==> t == 0.0
    ensures |pairs| == 1 ==> t == score(ps[pairs[0].0].RatingOf(), ps[pairs[0].1].RatingOf())
  {
    if pairs == [] then 0.0
    else
      var q := pairs[|pairs| - 1];
      Total(ps, pairs[..|pairs| - 1], score) + score(ps[q.0].RatingOf(), ps[q.1].RatingOf())
  }

  /** The mean per-match score; NaN when there is no match to score. */
  function PredictMatches(ps: seq<Player>, pairs: seq<(nat, nat)>, score: (Rating, Rating) -> real): (s: Score)
    requires PairsIn(pairs, |ps|)
    ensures s.NaN? <==> |pairs| == 0
    ensures s.Mean? ==> s.value * (|pairs| as real) == Total(ps, pairs, score)
  {
    if |pairs| == 0 then NaN
    else Mean(Total(ps, pairs, score) / (|pairs| as real))
  }

  /** If every match scores within [lo, hi], so does the sum scaled by the count. */
  lemma {:induction false} TotalWithin(ps: seq<Player>, pairs: seq<(nat, nat)>, score: (Rating, Rating) -> real, lo: real, hi: real)
    requires PairsIn(pairs, |ps|)
    requires forall k :: 0 <= k < |pairs| ==> lo <= score(ps[pairs[k].0].RatingOf(), ps[pairs[k].1].RatingOf()) <= hi
    ensures lo * (|pairs| as real) <= Total(ps, pairs, score) <= hi * (|pairs| as real)
    decreases |pairs|
  {
    if pairs != [] {
      var init := pairs[..|pairs| - 1];
      var q := pairs[|pairs| - 1];
      var x := score(ps[q.0].RatingOf(), ps[q.1].RatingOf());
      SplitWithin(ps, pairs, score, lo, hi);
      TotalWithin(ps, init, score, lo, hi);
      assert Total(ps, pairs, score) == Total(ps, init, score) + x;
      BoundsStep(lo, hi, Total(ps, init, score), x, |init|, |pairs|);
    }
  }

  /** Per-match bounds on a list carry over to its prefix and to its last match. */
  lemma SplitWithin(ps: seq<Player>, pairs: seq<(nat, nat)>, score: (Rating, Rating) -> real, lo: real, hi: real)
    requires PairsIn(pairs, |ps|) && pairs != []
    requires forall k :: 0 <= k < |pairs| ==> lo <= score(ps[pairs[k].0].RatingOf(), ps[pairs[k].1].RatingOf()) <= hi
    ensures var init := pairs[..|pairs| - 1];
            && PairsIn(init, |ps|)
            && forall k :: 0 <= k < |init| ==> lo <= score(ps[init[k].0].RatingOf(), ps[init[k].1].RatingOf()) <= hi
    ensures var q := pairs[|pairs| - 1];
            lo <= score(ps[q.0].RatingOf(), ps[q.1].RatingOf()) <= hi
  {
    var init := pairs[..|pairs| - 1];
    assert forall k :: 0 <= k < |init| ==> init[k] == pairs[k];
  }

  /** Adding one more term within [lo, hi] to a sum of `n` such terms keeps the bounds of `n + 1` terms. */
  lemma BoundsStep(lo: real, hi: real, sum: real, x: real, n: nat, n': nat)
    requires n' == n + 1
    requires lo * (n as real) <= sum <= hi * (n as real)
    requires lo <= x <= hi
    ensures lo * (n' as real) <= sum + x <= hi * (n' as real)
  {
    assert lo * (n' as real) == lo * (n as real) + lo;
    assert hi * (n' as real) == hi * (n as real) + hi;
  }

  /** If every match scores within [lo, hi], so does the mean. */
  lemma MeanWithin(ps: seq<Player>, pairs: seq<(nat, nat)>, score: (Rating, Rating) -> real, lo: real, hi: real)
    requires PairsIn(pairs, |ps|)
    requires |pairs| > 0
    requires forall k :: 0 <= k < |pairs| ==> lo <= score(ps[pairs[k].0].RatingOf(), ps[pairs[k].1].RatingOf()) <= hi
    ensures lo <= PredictMatches(ps, pairs, score).value <= hi
  {
    TotalWithin(ps, pairs, score, lo, hi);
    var n := |pairs| as real;
    var mean := PredictMatches(ps, pairs, score).value;
    assert mean * n == Total(ps, pairs, score);
    ScaleBounds(lo, hi, mean, n);
  }

  /** Dividing bounds on `x * n` by a positive `n` bounds `x`. */
  lemma ScaleBounds(lo: real, hi: real, x: real, n: real)
    requires n > 0.0
    requires lo * n <= x * n <= hi * n
    ensures lo <= x <= hi
  {
    assert (x - lo) * n >= 0.0;
    assert (hi - x) * n >= 0.0;
  }

  /** The sum over a concatenation is the sum of the sums. */
  lemma {:induction false} TotalAppend(ps: seq<Player>, a: seq<(nat, nat)>, b: seq<(nat, nat)>, score: (Rating, Rating) -> real)
    requires PairsIn(a, |ps|) && PairsIn(b, |ps|)
    ensures PairsIn(a + b, |ps|)
    ensures Total(ps, a + b, score) == Total(ps, a, score) + Total(ps, b, score)
    decreases |b|
  {
    if b == [] {
      assert a + b == a;
    } else {
      var init := b[..|b| - 1];
      TotalAppend(ps, a, init, score);
      assert (a + b)[..|a + b| - 1] == a + init;
      assert (a + b)[|a + b| - 1] == b[|b| - 1];
    }
  }

  /** Taking one match out of a list takes its score out of the sum. */
  lemma TotalRemove(ps: seq<Player>, before: seq<(nat, nat)>, q: (nat, nat), after: seq<(nat, nat)>, score: (Rating, Rating) -> real)
    requires PairsIn(before, |ps|) && PairsIn(after, |ps|)
    requires q.0 < |ps| && q.1 < |ps|
    ensures PairsIn(before + [q] + after, |ps|)
    ensures Total(ps, before + [q] + after, score) == Total(ps, before + after, score) + score(ps[q.0].RatingOf(), ps[q.1].RatingOf())
  {
    TotalAppend(ps, before, after, score);
    TotalAppend(ps, before, [q], score);
    TotalAppend(ps, before + [q], after, score);
    assert Total(ps, [q], score) == score(ps[q.0].RatingOf(), ps[q.1].RatingOf()) by {
      assert [q][..0] == [];
    }
  }

  /** Removing the same element from two equal multisets of a list leaves equal multisets. */
  lemma MultisetRemove<T>(init: seq<T>, q: T, before: seq<T>, after: seq<T>)
    requires multiset(init + [q]) == multiset(before + [q] + after)
    ensures multiset(init) == multiset(before + after)
  {
    assert multiset(init + [q]) == multiset(init) + multiset{q};
    assert multiset(before + [q] + after) == multiset(before + after) + multiset{q} by {
      assert before + [q] + after == before + ([q] + after);
      assert multiset(before + after) == multiset(before) + multiset(after);
    }
    AddCancel(multiset(init), multiset(before + after), q);
  }

  /** Adding the same element to two multisets keeps them apart or together. */
  lemma AddCancel<T>(x: multiset<T>, y: multiset<T>, q: T)
    requires x + multiset{q} == y + multiset{q}
    ensures x == y
  {
    forall z
      ensures x[z] == y[z]
    {
      assert (x + multiset{q})[z] == (y + multiset{q})[z];
    }
  }

  /** A pair that occurs in a list splits it around one of its occurrences; both sides keep naming players below `n`. */
  lemma PickOut(ys: seq<(nat, nat)>, q: (nat, nat), n: nat) returns (before: seq<(nat, nat)>, after: seq<(nat, nat)>)
    requires q in multiset(ys)
    requires PairsIn(ys, n)
    ensures ys == before + [q] + after
    ensures PairsIn(before, n) && PairsIn(after, n)
  {
    var j :| 0 <= j < |ys| && ys[j] == q;
    before, after := ys[..j], ys[j + 1..];
    assert ys == before + [q] + after;
  }

  /** The sum does not depend on the order the matches are listed in. */
  lemma {:induction false} TotalPermutation(ps: seq<Player>, xs: seq<(nat, nat)>, ys: seq<(nat, nat)>, score: (Rating, Rating) -> real)
    requires PairsIn(xs, |ps|) && PairsIn(ys, |ps|)
    requires multiset(xs) == multiset(ys)
    ensures Total(ps, xs, score) == Total(ps, ys, score)
    decreases |xs|
  {
    if xs == [] {
      assert |ys| == |multiset(ys)| == 0;
    } else {
      var q := xs[|xs| - 1];
      var init := xs[..|xs| - 1];
      assert xs == init + [q];
      assert q in multiset(ys) by {
        assert q in xs;
      }
      var before, after := PickOut(ys, q, |ps|);
      TotalRemove(ps, before, q, after, score);
      MultisetRemove(init, q, before, after);
      TotalAppend(ps, before, after, score);
      TotalPermutation(ps, init, before + after, score);
    }
  }

  /** The mean does not depend on the order the matches are listed in. */
  lemma PredictMatchesOrderFree(ps: seq<Player>, xs: seq<(nat, nat)>, ys: seq<(nat, nat)>, score: (Rating, Rating) -> real)
    requires PairsIn(xs, |ps|) && PairsIn(ys, |ps|)
    requires multiset(xs) == multiset(ys)
    ensures PredictMatches(ps, xs, score) == PredictMatches(ps, ys, score)
  {
    assert |xs| == |multiset(xs)| == |multiset(ys)| == |ys|;
    TotalPermutation(ps, xs, ys, score);
  }

  /** The sum reads the players' triples only. */
  lemma {:induction false} TotalReadsRatingsOnly(ps: seq<Player>, qs: seq<Player>, pairs: seq<(nat, nat)>, score: (Rating, Rating) -> real)
    requires SameRatings(ps, qs)
    requires PairsIn(pairs, |ps|)
    ensures Total(ps, pairs, score) == Total(qs, pairs, score)
    decreases |pairs|
  {
    if pairs != [] {
      TotalReadsRatingsOnly(ps, qs, pairs[..|pairs| - 1], score);
    }
  }

  /**
   Trains on every round but the last with the engine, in chunks of the size
   rank.go's `rank` uses, then scores the last round's matches, each once
   from its winner's side, against the trained triples. The trained players
   are returned because prediction.go's `predict` updates the caller's
   players in place.
   */
  method Predict(ts: seq<Tournament>, ps: seq<Player>, m: Table, c: Conf, g: RatingMath, score: (Rating, Rating) -> real)
    returns (trained: seq<Player>, s: Score)
    requires |ts| >= 1
    requires WellFormed(m, |ps|) && HasRounds(m, |ts|)
    ensures trained == Engine.Run(0, |ts| - 1, ps, m, c.tau, g)
    ensures PairsIn(Tables.TourneyMatches(m, |ts| - 1), |trained|)
    ensures s == PredictMatches(trained, Tables.TourneyMatches(m, |ts| - 1), score)
  {
    var n := |ts|;
    var train := ts[0..n - 1];
    assert |train| == n - 1 && HasRounds(m, |train|);
    trained := Engine.Rank(train, ps, m, c.tau, g, Engine.ChunkSize);
    var pairs := Tables.TourneyMatches(m, n - 1);
    assert PairsIn(pairs, |trained|) by {
      assert |trained| == |m| && WellFormed(m, |m|);
    }
    s := PredictMatches(trained, pairs, score);
  }

  /** The triples the last round is scored against do not depend on the last round's matches. */
  lemma TrainingSkipsLastRound(n: nat, ps: seq<Player>, m1: Table, m2: Table, tau: real, g: RatingMath)
    requires n >= 1
    requires WellFormed(m1, |ps|) && WellFormed(m2, |ps|)
    requires HasRounds(m1, n) && HasRounds(m2, n)
    requires forall p, t :: 0 <= p < |ps| && 0 <= t < n - 1 ==> m1[p][t] == m2[p][t]
    ensures Engine.Run(0, n - 1, ps, m1, tau, g) == Engine.Run(0, n - 1, ps, m2, tau, g)
  {
    Engine.RunReadsPrefixOnly(0, n - 1, ps, m1, m2, tau, g);
  }

  /** Lower and upper bounds of the four optimised coordinates (r, rd, sigma, tau). */
  const Lows: seq<real> := [1200.0, 50.0, 0.04, 0.1]
  const Highs: seq<real> := [2500.0, 450.0, 0.1, 1.5]

  /** The first four coordinates lie within their bounds. */
  ghost predicate InBox(v: seq<real>) {
    && |v| >= 4
    && forall i :: 0 <= i < 4 ==> Lows[i] <= v[i] <= Highs[i]
  }

  /**
   Projects a candidate point into the box: each of the first four
   coordinates is clamped into its own bounds, the rest are left alone.
   */
  function Constrain(v: seq<real>): (w: seq<real>)
    requires |v| >= 4
    ensures |w| == |v|
    ensures InBox(w)
    ensures forall i :: 0 <= i < 4 ==> w[i] == Clamp(Lows[i], v[i], Highs[i])
    ensures forall i :: 4 <= i < |v| ==> w[i] == v[i]
    ensures InBox(v) ==> w == v
  {
    ClampWithin(1200.0, v[0], 2500.0);
    ClampWithin(50.0, v[1], 450.0);
    ClampWithin(0.04, v[2], 0.1);
    ClampWithin(0.1, v[3], 1.5);
    v[0 := Clamp(1200.0, v[0], 2500.0)]
     [1 := Clamp(50.0, v[1], 450.0)]
     [2 := Clamp(0.04, v[2], 0.1)]
     [3 := Clamp(0.1, v[3], 1.5)]
  }

  /** Projecting twice is projecting once. */
  lemma ConstrainIdempotent(v: seq<real>)
    requires |v| >= 4
    ensures Constrain(Constrain(v)) == Constrain(v)
  {
  }

  /** The configuration an objective evaluation uses for the vector (r, rd, sigma, tau). */
  function OptConf(v: seq<real>): (c: Conf)
    requires |v| >= 4
    ensures [c.r, c.rd, c.sigma, c.tau] == v[..4]
  {
    Conf(v[0], v[1], v[2], v[3])
  }

  /**
   A projected vector yields a configuration inside the box, and every field
   of the configuration is the matching coordinate.
   */
  lemma OptConfOfConstrained(v: seq<real>)
    requires |v| >= 4
    ensures var c := OptConf(Constrain(v));
            && 1200.0 <= c.r <= 2500.0 && 50.0 <= c.rd <= 450.0
            && 0.04 <= c.sigma <= 0.1 && 0.1 <= c.tau <= 1.5
    ensures InBox(v) ==> OptConf(Constrain(v)) == Conf(v[0], v[1], v[2], v[3])
  {
  }

  /** What a Go slice operation gives: its value, or the panic of an index at or beyond the length. */
  datatype Checked<T> = Done(value: T) | IndexPanic(index: nat)

  /** The optimizer's three start points, as listed in rank.go's `main`: two coordinates each. */
  const StartPoints: seq<seq<real>> := [[350.0, 0.5], [150.0, 0.8], [400.0, 0.1]]

  /**
   The projection as prediction.go's `constrain` runs it on a slice of any length: it writes
   v[0], v[1], v[2], v[3] in turn, so a slice shorter than four panics at
   index |v|, the first coordinate it lacks.
   */
  function ConstrainAsWritten(v: seq<real>): (r: Checked<seq<real>>)
    ensures r.IndexPanic? <==> |v| < 4
    ensures r.IndexPanic? ==> r.index == |v|
    ensures r.Done? ==> |r.value| == |v| && InBox(r.value) && (InBox(v) ==> r.value == v)
  {
    if |v| < 4 then IndexPanic(|v|) else Done(Constrain(v))
  }

  /** The objective's configuration as prediction.go's `mkOptFun` builds it on a slice of any length: it reads v[0] .. v[3]. */
  function OptConfAsWritten(v: seq<real>): (r: Checked<Conf>)
    ensures r.IndexPanic? <==> |v| < 4
    ensures r.IndexPanic? ==> r.index == |v|
    ensures r.Done? ==> [r.value.r, r.value.rd, r.value.sigma, r.value.tau] == v[..4]
  {
    if |v| < 4 then IndexPanic(|v|) else Done(OptConf(v))
  }

  /** Every start point panics both the projection and the objective, at index 2. */
  lemma StartPointsPanic()
    ensures forall s :: s in StartPoints ==>
              ConstrainAsWritten(s) == IndexPanic(2) && OptConfAsWritten(s) == IndexPanic(2)
  {
  }

  /** The score one objective evaluation reports for configuration `c` on base players `ps`. */
  ghost function EvaluationScore(ts: seq<Tournament>, ps: seq<Player>, m: Table, g: RatingMath, score: (Rating, Rating) -> real, c: Conf): Score
    requires |ts| >= 1
    requires WellFormed(m, |ps|) && HasRounds(m, |ts|)
  {
    var trained := Engine.Run(0, |ts| - 1, Tables.ConfigPlayers(ps, c), m, c.tau, g);
    PredictMatches(trained, Tables.TourneyMatches(m, |ts| - 1), score)
  }

  /**
   The optimizer's objective at `v`: a fresh configured copy of the base
   players, then a prediction run with that configuration.
   */
  method Objective(ts: seq<Tournament>, ps: seq<Player>, m: Table, g: RatingMath, score: (Rating, Rating) -> real, v: seq<real>)
    returns (s: Score)
    requires |v| >= 4
    requires |ts| >= 1
    requires WellFormed(m, |ps|) && HasRounds(m, |ts|)
    ensures s == EvaluationScore(ts, ps, m, g, score, Conf(v[0], v[1], v[2], v[3]))
  {
    var c := OptConf(v);
    var cps := Tables.ConfigPlayers(ps, c);
    var trained;
    trained, s := Predict(ts, cps, m, c, g, score);
  }

  /**
   An evaluation reads nothing of the base players but their number: base
   players left with any triples or flags, for instance by an earlier
   evaluation, give the same score.
   */
  lemma EvaluationIgnoresBaseState(ts: seq<Tournament>, ps: seq<Player>, qs: seq<Player>, m: Table, g: RatingMath, score: (Rating, Rating) -> real, c: Conf)
    requires |ts| >= 1
    requires |ps| == |qs|
    requires WellFormed(m, |ps|) && HasRounds(m, |ts|)
    ensures EvaluationScore(ts, ps, m, g, score, c) == EvaluationScore(ts, qs, m, g, score, c)
  {
    var ps', qs' := Tables.ConfigPlayers(ps, c), Tables.ConfigPlayers(qs, c);
    Tables.ConfigPlayersForgetsState(ps, qs, c);
    Engine.RunReadsStateOnly(0, |ts| - 1, ps', qs', m, c.tau, g);
    var tp := Engine.Run(0, |ts| - 1, ps', m, c.tau, g);
    var tq := Engine.Run(0, |ts| - 1, qs', m, c.tau, g);
    var pairs := Tables.TourneyMatches(m, |ts| - 1);
    TotalReadsRatingsOnly(tp, tq, pairs, score);
  }
}
