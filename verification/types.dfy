/**
 The data model shared by the rating engine, the prediction harness and the
 driver: players with their Glicko-2 triple, duel records, the dense
 [player][round] match table, the configuration record, and the rating math
 the engine calls but does not define.
 */
module Types {

  /** A rating triple (r, rd, sigma); also the engine's per-player scratch entry. */
  datatype Rating = Rating(r: real, rd: real, sigma: real)

  /** A player record. `active` records whether the player has ever appeared in a processed round. */
  datatype Player = Player(id: string, name: string, r: real, rd: real, sigma: real, active: bool)
  {
    /** The rating triple carried by this player. */
    function RatingOf(): Rating {
      Rating(r, rd, sigma)
    }
  }

  /** One player's record of one game in one round: the opponent's index and the outcome (1.0 win, 0.0 loss). */
  datatype Duel = Duel(idx: nat, sj: real)

  /** A tournament; the engine only uses its position in the sequence of tournaments. */
  datatype Tournament = Tournament(id: int)

  /** Initial rating values for every player and the volatility constraint tau. */
  datatype Conf = Conf(r: real, rd: real, sigma: real, tau: real)

  /** What the Glicko update sees of one opponent: its rating triple and the game's outcome. */
  datatype Opponent = Opponent(rating: Rating, sj: real)

  /**
   The Glicko-2 arithmetic, which lives in an external library and is not modelled.
   `rank` is the per-round update of a player from its own triple, the views of
   its opponents and tau; `decay` is the idle-round deviation growth, returning
   the new rd from the player's triple.
   */
  datatype RatingMath = RatingMath(rank: (Rating, seq<Opponent>, real) -> Rating, decay: Rating -> real)

  /** The match table: `m[p][t]` is the ordered list of duels player `p` had in round `t`. */
  type Table = seq<seq<seq<Duel>>>

  /** One row per player, and every duel names an existing player. */
  ghost predicate WellFormed(m: Table, players: nat) {
    && |m| == players
    && forall p, t, k :: 0 <= p < |m| && 0 <= t < |m[p]| && 0 <= k < |m[p][t]| ==> m[p][t][k].idx < players
  }

  /** Every row has a cell for each of the first `n` rounds. */
  ghost predicate HasRounds(m: Table, n: nat) {
    forall p :: 0 <= p < |m| ==> n <= |m[p]|
  }

  /** Every duel in the cell names a player below `players`. */
  ghost predicate DuelsIn(ds: seq<Duel>, players: nat) {
    forall k :: 0 <= k < |ds| ==> ds[k].idx < players
  }

  /** Two player sequences agree on every rating triple. */
  ghost predicate SameRatings(ps: seq<Player>, qs: seq<Player>) {
    && |ps| == |qs|
    && forall i :: 0 <= i < |ps| ==> ps[i].RatingOf() == qs[i].RatingOf()
  }

  /** Two player sequences agree on every rating triple and every active flag; ids and names may differ. */
  ghost predicate SameState(ps: seq<Player>, qs: seq<Player>) {
    && SameRatings(ps, qs)
    && forall i :: 0 <= i < |ps| ==> ps[i].active == qs[i].active
  }

  /** Two tables agree on every cell of the first `n` rounds. */
  ghost predicate AgreeBefore(m1: Table, m2: Table, n: nat) {
    && |m1| == |m2|
    && HasRounds(m1, n) && HasRounds(m2, n)
    && forall p, t :: 0 <= p < |m1| && 0 <= t < n ==> m1[p][t] == m2[p][t]
  }
}
