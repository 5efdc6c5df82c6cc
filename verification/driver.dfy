/**
 The main.go revision of the program: the same match recording and player
 reset as rank.go, the empty match table built at start-up, the loading of a
 tournament's matches one round below its id, and a two-dimensional
 optimizer over (rd, tau) with r and sigma fixed.
 */
module Driver {
  import opened Types
  import opened Clamping
  import Tables

  /** Records that `wi` beat `li` in round `t`; this revision's code is the same as rank.go's. */
  function AddMatch(m: Table, t: nat, wi: nat, li: nat): (m': Table)
    requires wi < |m| && li < |m|
    requires t < |m[wi]| && t < |m[li]|
    ensures |m'| == |m|
    ensures forall p :: 0 <= p < |m| ==> |m'[p]| == |m[p]|
    ensures forall p, u :: 0 <= p < |m| && 0 <= u < |m[p]| && !(u == t && (p == wi || p == li)) ==> m'[p][u] == m[p][u]
    ensures wi != li ==> m'[wi][t] == m[wi][t] + [Duel(li, 1.0)] && m'[li][t] == m[li][t] + [Duel(wi, 0.0)]
    ensures wi == li ==> m'[wi][t] == m[wi][t] + [Duel(li, 1.0), Duel(wi, 0.0)]
  {
    Tables.AddMatch(m, t, wi, li)
  }

  /** A fresh configured copy of the players; this revision's code is the same as rank.go's. */
  function ConfigPlayers(ps: seq<Player>, c: Conf): (qs: seq<Player>)
    ensures |qs| == |ps|
    ensures forall i :: 0 <= i < |ps| ==>
              && qs[i].id == ps[i].id && qs[i].name == ps[i].name
              && qs[i].RatingOf() == Rating(c.r, c.rd, c.sigma)
              && !qs[i].active
  {
    Tables.ConfigPlayers(ps, c)
  }

  /** The table built at start-up: one row per player, one empty cell per tournament. */
  function NewTable(players: nat, rounds: nat): (m: Table)
    ensures |m| == players
    ensures forall p :: 0 <= p < players ==> |m[p]| == rounds
    ensures forall p, t :: 0 <= p < players && 0 <= t < rounds ==> m[p][t] == []
    ensures WellFormed(m, players) && HasRounds(m, rounds)
  {
    seq(players, _ => seq(rounds, _ => []))
  }

  /** A fresh table lists no match in any round. */
  lemma NewTableHasNoMatches(players: nat, rounds: nat, t: nat)
    requires t < rounds
    ensures Tables.TourneyMatches(NewTable(players, rounds), t) == []
  {
    NoWinsBelow(NewTable(players, rounds), t, players);
  }

  /** Players whose cells of round `t` are all empty contribute no pair. */
  lemma {:induction false} NoWinsBelow(m: Table, t: nat, k: nat)
    requires k <= |m| && HasRounds(m, t + 1)
    requires forall p :: 0 <= p < k ==> m[p][t] == []
    ensures Tables.WinsBelow(m, t, k) == []
    decreases k
  {
    if k > 0 {
      NoWinsBelow(m, t, k - 1);
    }
  }

  /**
   Loads the (winner, loser) pairs of the tournament with id `k`, in order.
   Tournament ids count from one and the table's rounds from zero, so the
   matches go to round `k - 1`; no other round changes.
   */
  function ReadMatches(m: Table, k: nat, pairs: seq<(nat, nat)>): (m': Table)
    requires 1 <= k
    requires WellFormed(m, |m|) && HasRounds(m, k)
    requires forall j :: 0 <= j < |pairs| ==> pairs[j].0 < |m| && pairs[j].1 < |m|
    ensures |m'| == |m|
    ensures forall p :: 0 <= p < |m| ==> |m'[p]| == |m[p]|
    ensures WellFormed(m', |m|) && HasRounds(m', k)
    ensures forall p, u :: 0 <= p < |m| && 0 <= u < |m[p]| && u != k - 1 ==> m'[p][u] == m[p][u]
    decreases |pairs|
  {
    if pairs == [] then m
    else
      var q := pairs[|pairs| - 1];
      var loaded := ReadMatches(m, k, pairs[..|pairs| - 1]);
      Tables.AddMatchKeepsShape(loaded, k - 1, q.0, q.1, k);
      Tables.AddMatch(loaded, k - 1, q.0, q.1)
  }

  /**
   Loading a tournament's pairs adds exactly those pairs, each once as
   (winner, loser), to the list of that tournament's round.
   */
  lemma {:induction false} ReadMatchesListsEachMatchOnce(m: Table, k: nat, pairs: seq<(nat, nat)>)
    requires 1 <= k
    requires WellFormed(m, |m|) && HasRounds(m, k)
    requires forall j :: 0 <= j < |pairs| ==> pairs[j].0 < |m| && pairs[j].1 < |m|
    ensures multiset(Tables.TourneyMatches(ReadMatches(m, k, pairs), k - 1))
            == multiset(Tables.TourneyMatches(m, k - 1)) + multiset(pairs)
    decreases |pairs|
  {
    if pairs != [] {
      var q := pairs[|pairs| - 1];
      var init := pairs[..|pairs| - 1];
      var before := multiset(Tables.TourneyMatches(m, k - 1));
      var mid := multiset(Tables.TourneyMatches(ReadMatches(m, k, init), k - 1));
      var after := multiset(Tables.TourneyMatches(ReadMatches(m, k, pairs), k - 1));
      assert mid == before + multiset(init) by {
        ReadMatchesListsEachMatchOnce(m, k, init);
      }
      assert pairs == init + [q];
      assert after == mid + multiset{q} by {
        LoadOneMore(m, k, init, q);
      }
      assert multiset(pairs) == multiset(init) + multiset{q};
      AddAssociates(before, multiset(init), multiset{q});
    }
  }

  /** Loading one more pair adds that pair once to the round's list. */
  lemma LoadOneMore(m: Table, k: nat, init: seq<(nat, nat)>, q: (nat, nat))
    requires 1 <= k
    requires WellFormed(m, |m|) && HasRounds(m, k)
    requires forall j :: 0 <= j < |init| ==> init[j].0 < |m| && init[j].1 < |m|
    requires q.0 < |m| && q.1 < |m|
    ensures multiset(Tables.TourneyMatches(ReadMatches(m, k, init + [q]), k - 1))
            == multiset(Tables.TourneyMatches(ReadMatches(m, k, init), k - 1)) + multiset{q}
  {
    ReadMatchesSnoc(m, k, init, q);
    ListAfterAdd(ReadMatches(m, k, init), ReadMatches(m, k, init + [q]), k - 1, q);
  }

  /** Loading one more pair is one more `addMatch` on the table loaded so far. */
  lemma ReadMatchesSnoc(m: Table, k: nat, init: seq<(nat, nat)>, q: (nat, nat))
    requires 1 <= k
    requires WellFormed(m, |m|) && HasRounds(m, k)
    requires forall j :: 0 <= j < |init| ==> init[j].0 < |m| && init[j].1 < |m|
    requires q.0 < |m| && q.1 < |m|
    ensures var loaded := ReadMatches(m, k, init);
            q.0 < |loaded| && q.1 < |loaded| && HasRounds(loaded, k)
            && ReadMatches(m, k, init + [q]) == Tables.AddMatch(loaded, k - 1, q.0, q.1)
  {
    var pairs := init + [q];
    assert pairs[..|pairs| - 1] == init;
  }

  /** A table that is `loaded` plus one match lists that match once more in its round. */
  lemma ListAfterAdd(loaded: Table, next: Table, t: nat, q: (nat, nat))
    requires q.0 < |loaded| && q.1 < |loaded| && HasRounds(loaded, t + 1)
    requires next == Tables.AddMatch(loaded, t, q.0, q.1)
    ensures HasRounds(next, t + 1)
    ensures multiset(Tables.TourneyMatches(next, t)) == multiset(Tables.TourneyMatches(loaded, t)) + multiset{q}
  {
    Tables.AddMatchAddsOnePair(loaded, t, q.0, q.1, t);
  }

  /** Multiset union is associative; stated once so that the step above needs no search for it. */
  lemma AddAssociates<T>(a: multiset<T>, b: multiset<T>, c: multiset<T>)
    ensures (a + b) + c == a + (b + c)
  {
  }

  /** On a fresh table, a tournament's round lists exactly the loaded matches. */
  lemma FreshTableListsExactlyTheMatches(players: nat, rounds: nat, k: nat, pairs: seq<(nat, nat)>)
    requires 1 <= k <= rounds
    requires forall j :: 0 <= j < |pairs| ==> pairs[j].0 < players && pairs[j].1 < players
    ensures multiset(Tables.TourneyMatches(ReadMatches(NewTable(players, rounds), k, pairs), k - 1)) == multiset(pairs)
  {
    var m := NewTable(players, rounds);
    assert HasRounds(m, k);
    var before := multiset(Tables.TourneyMatches(m, k - 1));
    assert before == multiset{} by {
      NewTableHasNoMatches(players, rounds, k - 1);
    }
    assert multiset(Tables.TourneyMatches(ReadMatches(m, k, pairs), k - 1)) == before + multiset(pairs) by {
      ReadMatchesListsEachMatchOnce(m, k, pairs);
    }
  }

  /** The first two coordinates, rd and tau, lie within [50,450] and [0.1,1.5]. */
  ghost predicate InBox(v: seq<real>) {
    |v| >= 2 && 50.0 <= v[0] <= 450.0 && 0.1 <= v[1] <= 1.5
  }

  /** Projects a candidate (rd, tau) into the box, leaving any further coordinates alone. */
  function Constrain(v: seq<real>): (w: seq<real>)
    requires |v| >= 2
    ensures |w| == |v|
    ensures InBox(w)
    ensures w[0] == Clamp(50.0, v[0], 450.0) && w[1] == Clamp(0.1, v[1], 1.5)
    ensures forall i :: 2 <= i < |v| ==> w[i] == v[i]
    ensures InBox(v) ==> w == v
  {
    ClampWithin(50.0, v[0], 450.0);
    ClampWithin(0.1, v[1], 1.5);
    v[0 := Clamp(50.0, v[0], 450.0)][1 := Clamp(0.1, v[1], 1.5)]
  }

  /** Projecting twice is projecting once. */
  lemma ConstrainIdempotent(v: seq<real>)
    requires |v| >= 2
    ensures Constrain(Constrain(v)) == Constrain(v)
  {
  }

  /** The configuration an evaluation uses: r 1200 and sigma 0.06 fixed, rd and tau from the vector. */
  function OptConf(v: seq<real>): (c: Conf)
    requires |v| >= 2
    ensures c.r == 1200.0 && c.sigma == 0.06
    ensures [c.rd, c.tau] == v[..2]
  {
    Conf(1200.0, v[0], 0.06, v[1])
  }

  /** Whatever the vector, a projected vector gives r 1200, sigma 0.06 and rd, tau inside the box. */
  lemma OptConfOfConstrained(v: seq<real>)
    requires |v| >= 2
    ensures var c := OptConf(Constrain(v));
            && c.r == 1200.0 && c.sigma == 0.06
            && 50.0 <= c.rd <= 450.0 && 0.1 <= c.tau <= 1.5
    ensures InBox(v) ==> OptConf(Constrain(v)) == Conf(1200.0, v[0], 0.06, v[1])
  {
  }

  /**
   The optimizer's objective at `v`: the prediction run (not part of this
   model, so a parameter here) on a fresh configured copy of the base players.
   */
  function Objective(ts: seq<Tournament>, ps: seq<Player>, v: seq<real>, runPredict: (seq<Tournament>, seq<Player>, Conf) -> real): (r: real)
    requires |v| >= 2
    ensures var c := Conf(1200.0, v[0], 0.06, v[1]);
            r == runPredict(ts, Tables.ConfigPlayers(ps, c), c)
  {
    var c := OptConf(v);
    runPredict(ts, ConfigPlayers(ps, c), c)
  }

  /**
   Whatever the prediction run does, the objective never sees the base
   players' triples or flags: lists with the same ids and names evaluate alike.
   */
  lemma ObjectiveIgnoresBaseRatings(ts: seq<Tournament>, ps: seq<Player>, qs: seq<Player>, v: seq<real>, runPredict: (seq<Tournament>, seq<Player>, Conf) -> real)
    requires |v| >= 2
    requires |ps| == |qs|
    requires forall i :: 0 <= i < |ps| ==> ps[i].id == qs[i].id && ps[i].name == qs[i].name
    ensures Objective(ts, ps, v, runPredict) == Objective(ts, qs, v, runPredict)
  {
    var c := OptConf(v);
    assert ConfigPlayers(ps, c) == ConfigPlayers(qs, c);
  }

  /** The optimizer's three start points (rd, tau). */
  const StartPoints: seq<seq<real>> := [[350.0, 0.5], [150.0, 0.8], [400.0, 0.1]]

  /**
   Every start point has the two coordinates this revision's projection and
   objective read, already lies in the box, and so is left alone by the
   projection and evaluated under r 1200, sigma 0.06 and its own rd and tau.
   */
  lemma StartPointsInBox()
    ensures forall s :: s in StartPoints ==>
              && |s| == 2 && InBox(s)
              && Constrain(s) == s
              && OptConf(s) == Conf(1200.0, s[0], 0.06, s[1])
  {
  }
}
