/**
 The match-table helpers of rank.go: recording a match as two mirrored duels,
 looking up a cell, listing a round's matches from the winners' side, and
 resetting the players to a configuration.
 */
module Tables {
  import opened Types

  /**
   Records that player `wi` beat player `li` in round `t`: a win against `li`
   is appended to the winner's cell, then a loss against `wi` to the loser's
   cell. No other cell changes and no row changes length.
   */
  function AddMatch(m: Table, t: nat, wi: nat, li: nat): (m': Table)
    requires wi < |m| && li < |m|
    requires t < |m[wi]| && t < |m[li]|
    ensures |m'| == |m|
    ensures forall p :: 0 <= p < |m| ==> |m'[p]| == |m[p]|
    ensures forall p, u :: 0 <= p < |m| && 0 <= u < |m[p]| && !(u == t && (p == wi || p == li)) ==> m'[p][u] == m[p][u]
    ensures wi != li ==> m'[wi][t] == m[wi][t] + [Duel(li, 1.0)] && m'[li][t] == m[li][t] + [Duel(wi, 0.0)]
    ensures wi == li ==> m'[wi][t] == m[wi][t] + [Duel(li, 1.0), Duel(wi, 0.0)]
  {
    var won := m[wi := m[wi][t := m[wi][t] + [Duel(li, 1.0)]]];
    won[li := won[li][t := won[li][t] + [Duel(wi, 0.0)]]]
  }

  /** Recording a match between existing players keeps the table well formed and keeps its rounds. */
  lemma AddMatchKeepsShape(m: Table, t: nat, wi: nat, li: nat, n: nat)
    requires WellFormed(m, |m|) && HasRounds(m, n)
    requires wi < |m| && li < |m|
    requires t < |m[wi]| && t < |m[li]|
    ensures WellFormed(AddMatch(m, t, wi, li), |m|)
    ensures HasRounds(AddMatch(m, t, wi, li), n)
  {
    var m': Table := AddMatch(m, t, wi, li);
    forall p: nat, u: nat, k: nat | p < |m'| && u < |m'[p]| && k < |m'[p][u]|
      ensures m'[p][u][k].idx < |m|
    {
      if u == t && (p == wi || p == li) {
        if k < |m[p][u]| {
          assert m'[p][u][k] == m[p][u][k];
        }
      }
    }
  }

  /** The duels player `p` had in round `t`; in a well-formed table they all name existing players. */
  function Opponents(m: Table, t: nat, p: nat): (os: seq<Duel>)
    requires p < |m| && t < |m[p]|
    ensures WellFormed(m, |m|) ==> DuelsIn(os, |m|)
  {
    m[p][t]
  }

  /**
   A fresh copy of the players for one evaluation: ids and names kept, every
   triple set from the configuration, every player inactive.
   */
  function ConfigPlayers(ps: seq<Player>, c: Conf): (qs: seq<Player>)
    ensures |qs| == |ps|
    ensures forall i :: 0 <= i < |ps| ==>
              && qs[i].id == ps[i].id && qs[i].name == ps[i].name
              && qs[i].RatingOf() == Rating(c.r, c.rd, c.sigma)
              && !qs[i].active
  {
    seq(|ps|, i requires 0 <= i < |ps| => ps[i].(r := c.r, rd := c.rd, sigma := c.sigma, active := false))
  }

  /** Two player lists of the same length configure to the same state: nothing of the old ratings or flags survives. */
  lemma ConfigPlayersForgetsState(ps: seq<Player>, qs: seq<Player>, c: Conf)
    requires |ps| == |qs|
    ensures SameState(ConfigPlayers(ps, c), ConfigPlayers(qs, c))
  {
  }

  /** Reconfiguring a configured list is configuring the original: the later configuration wins. */
  lemma ConfigPlayersTwice(ps: seq<Player>, c1: Conf, c2: Conf)
    ensures ConfigPlayers(ConfigPlayers(ps, c1), c2) == ConfigPlayers(ps, c2)
  {
    assert forall i :: 0 <= i < |ps| ==> ConfigPlayers(ConfigPlayers(ps, c1), c2)[i] == ConfigPlayers(ps, c2)[i];
  }

  /** The pairs (pi, opponent) for the winning duels of one cell, in list order. */
  function CellWins(pi: nat, ds: seq<Duel>): seq<(nat, nat)>
  {
    if ds == [] then []
    else CellWins(pi, ds[..|ds| - 1]) + (if ds[|ds| - 1].sj == 1.0 then [(pi, ds[|ds| - 1].idx)] else [])
  }

  /** Appending a duel to a cell appends its pair when it is a win, and nothing otherwise. */
  lemma CellWinsAppend(pi: nat, ds: seq<Duel>, d: Duel)
    ensures CellWins(pi, ds + [d]) == CellWins(pi, ds) + (if d.sj == 1.0 then [(pi, d.idx)] else [])
  {
    assert (ds + [d])[..|ds|] == ds;
  }

  /** The pairs of a cell are exactly its winning duels, all from player `pi`. */
  lemma {:induction false} CellWinsMembers(pi: nat, ds: seq<Duel>)
    ensures forall q :: q in CellWins(pi, ds) ==> q.0 == pi
    ensures forall q :: q in CellWins(pi, ds) <==> exists j :: 0 <= j < |ds| && ds[j].sj == 1.0 && q == (pi, ds[j].idx)
    decreases |ds|
  {
    if ds != [] {
      var init := ds[..|ds| - 1];
      CellWinsMembers(pi, init);
      forall q | (exists j :: 0 <= j < |ds| && ds[j].sj == 1.0 && q == (pi, ds[j].idx))
        ensures q in CellWins(pi, ds)
      {
        var j :| 0 <= j < |ds| && ds[j].sj == 1.0 && q == (pi, ds[j].idx);
        if j < |ds| - 1 {
          assert init[j] == ds[j];
        }
      }
      forall q | q in CellWins(pi, ds)
        ensures exists j :: 0 <= j < |ds| && ds[j].sj == 1.0 && q == (pi, ds[j].idx)
      {
        if q in CellWins(pi, init) {
          var j :| 0 <= j < |init| && init[j].sj == 1.0 && q == (pi, init[j].idx);
          assert ds[j] == init[j];
        } else {
          assert ds[|ds| - 1].sj == 1.0 && q == (pi, ds[|ds| - 1].idx);
        }
      }
    }
  }

  /** The winners' pairs of round `t` for players 0 .. k-1, in player order. */
  function WinsBelow(m: Table, t: nat, k: nat): seq<(nat, nat)>
    requires k <= |m| && HasRounds(m, t + 1)
  {
    if k == 0 then [] else WinsBelow(m, t, k - 1) + CellWins(k - 1, m[k - 1][t])
  }

  /** The pairs listed for players below `k` are exactly the winning duels of those players. */
  lemma {:induction false} WinsBelowMembers(m: Table, t: nat, k: nat)
    requires k <= |m| && HasRounds(m, t + 1)
    ensures forall q :: q in WinsBelow(m, t, k) <==>
              exists pi, j :: 0 <= pi < k && 0 <= j < |m[pi][t]| && m[pi][t][j].sj == 1.0 && q == (pi, m[pi][t][j].idx)
    decreases k
  {
    if k > 0 {
      var pre := WinsBelow(m, t, k - 1);
      var cell := CellWins(k - 1, m[k - 1][t]);
      WinsBelowMembers(m, t, k - 1);
      CellWinsMembers(k - 1, m[k - 1][t]);
      assert WinsBelow(m, t, k) == pre + cell;
      forall q | q in pre + cell
        ensures exists pi, j :: 0 <= pi < k && 0 <= j < |m[pi][t]| && m[pi][t][j].sj == 1.0 && q == (pi, m[pi][t][j].idx)
      {
        if q in pre {
          var pi, j :| 0 <= pi < k - 1 && 0 <= j < |m[pi][t]| && m[pi][t][j].sj == 1.0 && q == (pi, m[pi][t][j].idx);
        } else {
          assert q in cell;
          var j :| 0 <= j < |m[k - 1][t]| && m[k - 1][t][j].sj == 1.0 && q == (k - 1, m[k - 1][t][j].idx);
        }
      }
      forall q | exists pi, j :: 0 <= pi < k && 0 <= j < |m[pi][t]| && m[pi][t][j].sj == 1.0 && q == (pi, m[pi][t][j].idx)
        ensures q in pre + cell
      {
        var pi, j :| 0 <= pi < k && 0 <= j < |m[pi][t]| && m[pi][t][j].sj == 1.0 && q == (pi, m[pi][t][j].idx);
        if pi == k - 1 {
          assert q in cell;
        } else {
          assert q in pre;
        }
      }
    }
  }

  /** The pairs listed for players below `k` come from those players, in player order. */
  lemma {:induction false} WinsBelowSorted(m: Table, t: nat, k: nat)
    requires k <= |m| && HasRounds(m, t + 1)
    ensures forall q :: q in WinsBelow(m, t, k) ==> q.0 < k
    ensures forall a, b :: 0 <= a < b < |WinsBelow(m, t, k)| ==> WinsBelow(m, t, k)[a].0 <= WinsBelow(m, t, k)[b].0
    decreases k
  {
    if k > 0 {
      var pre := WinsBelow(m, t, k - 1);
      var cell := CellWins(k - 1, m[k - 1][t]);
      WinsBelowSorted(m, t, k - 1);
      CellWinsMembers(k - 1, m[k - 1][t]);
      var ws := pre + cell;
      assert WinsBelow(m, t, k) == ws;
      forall a, b | 0 <= a < b < |ws|
        ensures ws[a].0 <= ws[b].0
      {
        if b < |pre| {
        } else if a < |pre| {
          assert ws[a] in pre;
          assert ws[b] == cell[b - |pre|];
          assert ws[b] in cell;
        } else {
          assert ws[a] == cell[a - |pre|];
          assert ws[b] == cell[b - |pre|];
          assert ws[a] in cell && ws[b] in cell;
        }
      }
    }
  }

  /**
   The matches of round `t` as (winner, loser) pairs: one pair per duel with
   outcome 1.0, listed in player-index order and, within a player, in the
   order of its duel list. In a well-formed table both indices of every pair
   name existing players.
   */
  function TourneyMatches(m: Table, t: nat): (ws: seq<(nat, nat)>)
    requires HasRounds(m, t + 1)
    ensures WellFormed(m, |m|) ==> forall k :: 0 <= k < |ws| ==> ws[k].0 < |m| && ws[k].1 < |m|
  {
    var ws := WinsBelow(m, t, |m|);
    assert WellFormed(m, |m|) ==> forall k :: 0 <= k < |ws| ==> ws[k].0 < |m| && ws[k].1 < |m| by {
      if WellFormed(m, |m|) {
        WinsBelowMembers(m, t, |m|);
        forall k | 0 <= k < |ws|
          ensures ws[k].0 < |m| && ws[k].1 < |m|
        {
          assert ws[k] in ws;
          var pi, j :| 0 <= pi < |m| && 0 <= j < |m[pi][t]| && m[pi][t][j].sj == 1.0 && ws[k] == (pi, m[pi][t][j].idx);
        }
      }
    }
    ws
  }

  /** The round's pairs are exactly (pi, opponent) for the winning duels of round `t`, in player-index order. */
  lemma TourneyMatchesMembers(m: Table, t: nat)
    requires HasRounds(m, t + 1)
    ensures forall q :: q in TourneyMatches(m, t) <==>
              exists pi, j :: 0 <= pi < |m| && 0 <= j < |m[pi][t]| && m[pi][t][j].sj == 1.0 && q == (pi, m[pi][t][j].idx)
    ensures var ws := TourneyMatches(m, t);
            forall a, b :: 0 <= a < b < |ws| ==> ws[a].0 <= ws[b].0
  {
    WinsBelowMembers(m, t, |m|);
    WinsBelowSorted(m, t, |m|);
  }

  /** Position `a` = (player, list index) comes before position `b` in the table's reading order. */
  predicate Precedes(a: (nat, nat), b: (nat, nat)) {
    a.0 < b.0 || (a.0 == b.0 && a.1 < b.1)
  }

  /** The positions (pi, j) of the winning duels of one cell, in list order. */
  ghost function CellPositions(pi: nat, ds: seq<Duel>): seq<(nat, nat)>
  {
    if ds == [] then []
    else CellPositions(pi, ds[..|ds| - 1]) + (if ds[|ds| - 1].sj == 1.0 then [(pi, |ds| - 1)] else [])
  }

  /**
   The winning positions of a cell are winning duels of player `pi`, in
   increasing list order, and the cell's pairs are read off them one by one.
   */
  lemma {:induction false} CellPositionsSound(pi: nat, ds: seq<Duel>)
    ensures var pos := CellPositions(pi, ds);
            forall i :: 0 <= i < |pos| ==> pos[i].0 == pi && pos[i].1 < |ds| && ds[pos[i].1].sj == 1.0
    ensures var pos := CellPositions(pi, ds);
            forall a, b :: 0 <= a < b < |pos| ==> pos[a].1 < pos[b].1
    ensures var pos := CellPositions(pi, ds);
            |CellWins(pi, ds)| == |pos| && forall i :: 0 <= i < |pos| ==> CellWins(pi, ds)[i] == (pi, ds[pos[i].1].idx)
    decreases |ds|
  {
    if ds != [] {
      var init := ds[..|ds| - 1];
      CellPositionsSound(pi, init);
      var pre := CellPositions(pi, init);
      var last: seq<(nat, nat)> := if ds[|ds| - 1].sj == 1.0 then [(pi, |ds| - 1)] else [];
      var pos := pre + last;
      assert CellPositions(pi, ds) == pos;
      assert CellWins(pi, ds) == CellWins(pi, init) + (if ds[|ds| - 1].sj == 1.0 then [(pi, ds[|ds| - 1].idx)] else []);
      forall i | 0 <= i < |pre|
        ensures pos[i] == pre[i] && ds[pre[i].1] == init[pre[i].1]
      {
      }
    }
  }

  /** Every winning duel of a cell has its position listed. */
  lemma {:induction false} CellPositionsComplete(pi: nat, ds: seq<Duel>)
    ensures forall j :: 0 <= j < |ds| && ds[j].sj == 1.0 ==> (pi, j) in CellPositions(pi, ds)
    decreases |ds|
  {
    if ds != [] {
      var init := ds[..|ds| - 1];
      CellPositionsComplete(pi, init);
      forall j | 0 <= j < |ds| && ds[j].sj == 1.0
        ensures (pi, j) in CellPositions(pi, ds)
      {
        if j < |ds| - 1 {
          assert init[j] == ds[j];
          assert (pi, j) in CellPositions(pi, init);
        }
      }
    }
  }

  /** The positions of the winning duels of round `t` for players 0 .. k-1, in reading order. */
  ghost function WinPositions(m: Table, t: nat, k: nat): seq<(nat, nat)>
    requires k <= |m| && HasRounds(m, t + 1)
  {
    if k == 0 then [] else WinPositions(m, t, k - 1) + CellPositions(k - 1, m[k - 1][t])
  }

  /** The winning positions of the first `k` rows name winning duels, and the round's pairs are read off them. */
  lemma {:induction false} WinPositionsSound(m: Table, t: nat, k: nat)
    requires k <= |m| && HasRounds(m, t + 1)
    ensures var pos := WinPositions(m, t, k);
            forall i :: 0 <= i < |pos| ==> pos[i].0 < k && pos[i].1 < |m[pos[i].0][t]| && m[pos[i].0][t][pos[i].1].sj == 1.0
    ensures var pos := WinPositions(m, t, k);
            |WinsBelow(m, t, k)| == |pos| &&
            forall i :: 0 <= i < |pos| ==> WinsBelow(m, t, k)[i] == (pos[i].0, m[pos[i].0][t][pos[i].1].idx)
    decreases k
  {
    if k > 0 {
      WinPositionsSound(m, t, k - 1);
      CellPositionsSound(k - 1, m[k - 1][t]);
      var pre := WinPositions(m, t, k - 1);
      var cell := CellPositions(k - 1, m[k - 1][t]);
      assert WinPositions(m, t, k) == pre + cell;
      assert WinsBelow(m, t, k) == WinsBelow(m, t, k - 1) + CellWins(k - 1, m[k - 1][t]);
    }
  }

  /** The winning positions of the first `k` rows are strictly increasing in reading order: no position twice. */
  lemma {:induction false} WinPositionsSorted(m: Table, t: nat, k: nat)
    requires k <= |m| && HasRounds(m, t + 1)
    ensures var pos := WinPositions(m, t, k);
            forall a, b :: 0 <= a < b < |pos| ==> Precedes(pos[a], pos[b])
    decreases k
  {
    if k > 0 {
      WinPositionsSorted(m, t, k - 1);
      WinPositionsSound(m, t, k - 1);
      CellPositionsSound(k - 1, m[k - 1][t]);
      var pre := WinPositions(m, t, k - 1);
      var cell := CellPositions(k - 1, m[k - 1][t]);
      var pos := pre + cell;
      assert WinPositions(m, t, k) == pos;
      forall a, b | 0 <= a < b < |pos|
        ensures Precedes(pos[a], pos[b])
      {
        if b < |pre| {
          assert pos[a] == pre[a] && pos[b] == pre[b];
        } else if a < |pre| {
          assert pos[a] == pre[a] && pos[b] == cell[b - |pre|];
        } else {
          assert pos[a] == cell[a - |pre|] && pos[b] == cell[b - |pre|];
        }
      }
    }
  }

  /** Every winning duel of the first `k` rows has its position listed. */
  lemma {:induction false} WinPositionsComplete(m: Table, t: nat, k: nat)
    requires k <= |m| && HasRounds(m, t + 1)
    ensures forall pi, j :: 0 <= pi < k && 0 <= j < |m[pi][t]| && m[pi][t][j].sj == 1.0 ==> (pi, j) in WinPositions(m, t, k)
    decreases k
  {
    if k > 0 {
      WinPositionsComplete(m, t, k - 1);
      CellPositionsComplete(k - 1, m[k - 1][t]);
      assert WinPositions(m, t, k) == WinPositions(m, t, k - 1) + CellPositions(k - 1, m[k - 1][t]);
    }
  }

  /**
   The round's list has one entry per winning duel and no other: with the
   winning positions listed once each in reading order (player index, then
   position in the player's duel list), entry `i` is the pair of the `i`-th
   winning duel.
   */
  lemma TourneyMatchesListsEachWinOnce(m: Table, t: nat)
    requires HasRounds(m, t + 1)
    ensures var pos := WinPositions(m, t, |m|);
            forall a, b :: 0 <= a < b < |pos| ==> Precedes(pos[a], pos[b])
    ensures var pos := WinPositions(m, t, |m|);
            forall pi, j :: 0 <= pi < |m| && 0 <= j < |m[pi][t]| ==> ((pi, j) in pos <==> m[pi][t][j].sj == 1.0)
    ensures var pos, ws := WinPositions(m, t, |m|), TourneyMatches(m, t);
            && |ws| == |pos|
            && forall i :: 0 <= i < |pos| ==>
                 pos[i].0 < |m| && pos[i].1 < |m[pos[i].0][t]| && ws[i] == (pos[i].0, m[pos[i].0][t][pos[i].1].idx)
  {
    var pos := WinPositions(m, t, |m|);
    WinPositionsSound(m, t, |m|);
    WinPositionsSorted(m, t, |m|);
    WinPositionsComplete(m, t, |m|);
    forall pi, j | 0 <= pi < |m| && 0 <= j < |m[pi][t]| && (pi, j) in pos
      ensures m[pi][t][j].sj == 1.0
    {
      var i :| 0 <= i < |pos| && pos[i] == (pi, j);
    }
  }

  /** Recording a match appends the pair (wi, li) to the winner's cell of round `t` and no pair to any other cell. */
  lemma CellWinsAfterAddMatch(m: Table, t: nat, wi: nat, li: nat, u: nat, p: nat)
    requires wi < |m| && li < |m|
    requires t < |m[wi]| && t < |m[li]|
    requires p < |m| && u < |m[p]|
    ensures u < |AddMatch(m, t, wi, li)[p]|
    ensures CellWins(p, AddMatch(m, t, wi, li)[p][u])
            == CellWins(p, m[p][u]) + (if u == t && p == wi then [(wi, li)] else [])
  {
    var m' := AddMatch(m, t, wi, li);
    if u == t && p == wi && p == li {
      assert m'[p][u] == (m[p][u] + [Duel(li, 1.0)]) + [Duel(wi, 0.0)];
      CellWinsAppend(p, m[p][u] + [Duel(li, 1.0)], Duel(wi, 0.0));
      CellWinsAppend(p, m[p][u], Duel(li, 1.0));
    } else if u == t && p == wi {
      CellWinsAppend(p, m[p][u], Duel(li, 1.0));
    } else if u == t && p == li {
      CellWinsAppend(p, m[p][u], Duel(wi, 0.0));
    } else {
      assert m'[p][u] == m[p][u];
    }
  }

  /** Tables whose cells of round `u` list the same pairs for players below `k` list the same pairs for the round. */
  lemma {:induction false} WinsBelowSameCells(m: Table, m': Table, u: nat, k: nat)
    requires k <= |m| == |m'|
    requires HasRounds(m, u + 1) && HasRounds(m', u + 1)
    requires forall p :: 0 <= p < k ==> CellWins(p, m'[p][u]) == CellWins(p, m[p][u])
    ensures WinsBelow(m', u, k) == WinsBelow(m, u, k)
    decreases k
  {
    if k > 0 {
      WinsBelowSameCells(m, m', u, k - 1);
    }
  }

  /**
   If one table's cells of round `u` list the same pairs as another's except
   that player `w`'s cell lists one more pair `x` at its end, then over any
   range of players containing `w` the round's list is the other's with `x`
   inserted right after the pairs of players up to `w`.
   */
  lemma {:induction false} WinsBelowGrows(m: Table, m': Table, u: nat, w: nat, x: (nat, nat), k: nat)
    requires w < k <= |m| == |m'|
    requires HasRounds(m, u + 1) && HasRounds(m', u + 1)
    requires forall p :: 0 <= p < |m| && p != w ==> CellWins(p, m'[p][u]) == CellWins(p, m[p][u])
    requires CellWins(w, m'[w][u]) == CellWins(w, m[w][u]) + [x]
    ensures |WinsBelow(m, u, w + 1)| <= |WinsBelow(m, u, k)|
    ensures var s, i := WinsBelow(m, u, k), |WinsBelow(m, u, w + 1)|;
            WinsBelow(m', u, k) == s[..i] + [x] + s[i..]
    decreases k
  {
    var cell := CellWins(k - 1, m[k - 1][u]);
    var s := WinsBelow(m, u, k);
    if k - 1 == w {
      assert WinsBelow(m', u, w) == WinsBelow(m, u, w) by {
        WinsBelowSameCells(m, m', u, w);
      }
      assert s == WinsBelow(m, u, w) + cell;
      assert WinsBelow(m', u, k) == s + [x] by {
        assert WinsBelow(m', u, k) == WinsBelow(m', u, w) + CellWins(w, m'[w][u]);
      }
      assert s + [x] == s[..|s|] + [x] + s[|s|..] by {
        InsertAtEnd(s, x);
      }
      assert WinsBelow(m, u, w + 1) == s;
      assert WinsBelow(m', u, k) == s[..|WinsBelow(m, u, w + 1)|] + [x] + s[|WinsBelow(m, u, w + 1)|..];
    } else {
      var s0 := WinsBelow(m, u, k - 1);
      var i := |WinsBelow(m, u, w + 1)|;
      assert i <= |s0| && WinsBelow(m', u, k - 1) == s0[..i] + [x] + s0[i..] by {
        WinsBelowGrows(m, m', u, w, x, k - 1);
      }
      assert s == s0 + cell;
      assert WinsBelow(m', u, k) == (s0[..i] + [x] + s0[i..]) + cell by {
        assert WinsBelow(m', u, k) == WinsBelow(m', u, k - 1) + CellWins(k - 1, m'[k - 1][u]);
      }
      assert (s0[..i] + [x] + s0[i..]) + cell == (s0 + cell)[..i] + [x] + (s0 + cell)[i..] by {
        InsertThenAppend(s0, i, x, cell);
      }
      assert WinsBelow(m', u, k) == s[..i] + [x] + s[i..];
    }
  }

  /** Appending an element is inserting it at the end. */
  lemma InsertAtEnd<T>(s: seq<T>, x: T)
    ensures s + [x] == s[..|s|] + [x] + s[|s|..]
  {
    assert s[..|s|] == s && s[|s|..] == [];
  }

  /** Appending after an insertion is inserting at the same place into the longer list. */
  lemma InsertThenAppend<T>(s: seq<T>, i: nat, x: T, tail: seq<T>)
    requires i <= |s|
    ensures i <= |s + tail|
    ensures s[..i] + [x] + s[i..] + tail == (s + tail)[..i] + [x] + (s + tail)[i..]
  {
    assert (s + tail)[..i] == s[..i];
    assert (s + tail)[i..] == s[i..] + tail;
  }

  /** Inserting an element anywhere in a list adds it once to the list's multiset. */
  lemma InsertAddsOnce<T>(s: seq<T>, i: nat, x: T)
    requires i <= |s|
    ensures multiset(s[..i] + [x] + s[i..]) == multiset(s) + multiset{x}
  {
    assert s == s[..i] + s[i..];
  }

  /** Recording a match adds exactly its (winner, loser) pair to that round's list and leaves other rounds' lists alone. */
  lemma AddMatchAddsOnePair(m: Table, t: nat, wi: nat, li: nat, u: nat)
    requires wi < |m| && li < |m|
    requires t < |m[wi]| && t < |m[li]|
    requires HasRounds(m, u + 1)
    ensures HasRounds(AddMatch(m, t, wi, li), u + 1)
    ensures u == t ==> multiset(TourneyMatches(AddMatch(m, t, wi, li), u)) == multiset(TourneyMatches(m, u)) + multiset{(wi, li)}
    ensures u != t ==> TourneyMatches(AddMatch(m, t, wi, li), u) == TourneyMatches(m, u)
  {
    var m': Table := AddMatch(m, t, wi, li);
    forall p | 0 <= p < |m| && !(u == t && p == wi)
      ensures CellWins(p, m'[p][u]) == CellWins(p, m[p][u])
    {
      CellWinsAfterAddMatch(m, t, wi, li, u, p);
    }
    if u == t {
      CellWinsAfterAddMatch(m, t, wi, li, u, wi);
      WinsBelowGrows(m, m', u, wi, (wi, li), |m|);
      InsertAddsOnce(WinsBelow(m, u, |m|), |WinsBelow(m, u, wi + 1)|, (wi, li));
    } else {
      WinsBelowSameCells(m, m', u, |m|);
    }
  }

  /** The pairs of round `u` read column `u` only. */
  lemma {:induction false} WinsBelowColumn(m1: Table, m2: Table, u: nat, k: nat)
    requires k <= |m1| == |m2|
    requires HasRounds(m1, u + 1) && HasRounds(m2, u + 1)
    requires forall p :: 0 <= p < |m1| ==> m1[p][u] == m2[p][u]
    ensures WinsBelow(m1, u, k) == WinsBelow(m2, u, k)
    decreases k
  {
    if k > 0 {
      WinsBelowColumn(m1, m2, u, k - 1);
    }
  }
}
