/**
 The round engine of rank.go: every round, each player gets a scratch entry
 computed from the ratings committed after the previous round, and the scratch
 buffer is copied back once the whole round is done. rank.go's `rank` splits the
 player range into chunks run concurrently; here the chunks run one after the
 other, which the disjoint-write contract of `RankChunk` justifies.
 */
module Engine {
  import opened Types
  import opened Clamping
  import Tables

  /** Number of players handled by one chunk of a round. */
  const ChunkSize: nat := 5000

  /** What processing one player in one round produces: its scratch entry and its new active flag. */
  datatype Step = Step(scratch: Rating, active: bool)

  /** The opponents of one duel list as the rating update sees them, read from `ps`. */
  function Views(duels: seq<Duel>, ps: seq<Player>): (vs: seq<Opponent>)
    requires DuelsIn(duels, |ps|)
    ensures |vs| == |duels|
    ensures forall k :: 0 <= k < |duels| ==> vs[k] == Opponent(ps[duels[k].idx].RatingOf(), duels[k].sj)
  {
    seq(|duels|, k requires 0 <= k < |duels| => Opponent(ps[duels[k].idx].RatingOf(), duels[k].sj))
  }

  /** The views of a duel list depend on the ratings in `ps` only. */
  lemma ViewsReadRatingsOnly(duels: seq<Duel>, ps: seq<Player>, qs: seq<Player>)
    requires DuelsIn(duels, |ps|)
    requires SameRatings(ps, qs)
    ensures Views(duels, ps) == Views(duels, qs)
  {
  }

  /**
   The per-player rule of a round. A player without duels keeps its triple,
   except that an active one has its deviation grown by the idle decay (not
   clamped). A player with duels gets the Glicko update of its triple against
   its opponents' committed triples, clamped into r in [0,3000], rd in [0,400]
   and sigma in [0,0.1], and becomes active.
   */
  function RankPlayer(p: Player, duels: seq<Duel>, ps: seq<Player>, tau: real, g: RatingMath): (s: Step)
    requires DuelsIn(duels, |ps|)
    ensures |duels| == 0 && !p.active ==> s.scratch == p.RatingOf() && !s.active
    ensures |duels| == 0 && p.active ==>
              s.scratch.r == p.r && s.scratch.sigma == p.sigma && s.scratch.rd == g.decay(p.RatingOf()) && s.active
    ensures |duels| > 0 ==>
              && 0.0 <= s.scratch.r <= 3000.0
              && 0.0 <= s.scratch.rd <= 400.0
              && 0.0 <= s.scratch.sigma <= 0.1
    ensures |duels| > 0 ==>
              var u := g.rank(p.RatingOf(), Views(duels, ps), tau);
              s.scratch == Rating(Clamp(0.0, u.r, 3000.0), Clamp(0.0, u.rd, 400.0), Clamp(0.0, u.sigma, 0.1))
    ensures s.active <==> p.active || |duels| > 0
  {
    if |duels| == 0 then
      var rd := if p.active then g.decay(p.RatingOf()) else p.rd;
      Step(Rating(p.r, rd, p.sigma), p.active)
    else
      var u := g.rank(p.RatingOf(), Views(duels, ps), tau);
      ClampWithin(0.0, u.r, 3000.0);
      ClampWithin(0.0, u.rd, 400.0);
      ClampWithin(0.0, u.sigma, 0.1);
      Step(Rating(Clamp(0.0, u.r, 3000.0), Clamp(0.0, u.rd, 400.0), Clamp(0.0, u.sigma, 0.1)), true)
  }

  /** The per-player rule reads the player's own triple and flag and the other players' triples, nothing else. */
  lemma RankPlayerReadsRatingsOnly(p: Player, q: Player, duels: seq<Duel>, ps: seq<Player>, qs: seq<Player>, tau: real, g: RatingMath)
    requires p.RatingOf() == q.RatingOf() && p.active == q.active
    requires DuelsIn(duels, |ps|)
    requires SameRatings(ps, qs)
    ensures RankPlayer(p, duels, ps, tau, g) == RankPlayer(q, duels, qs, tau, g)
  {
    ViewsReadRatingsOnly(duels, ps, qs);
  }

  /** The rule applied to player `i` in round `ti`. */
  function StepAt(ti: nat, i: nat, ps: seq<Player>, m: Table, tau: real, g: RatingMath): Step
    requires WellFormed(m, |ps|) && HasRounds(m, ti + 1)
    requires i < |ps|
  {
    RankPlayer(ps[i], Tables.Opponents(m, ti, i), ps, tau, g)
  }

  /** The scratch buffer after every chunk of round `ti` has run. */
  function Scratch(ti: nat, ps: seq<Player>, m: Table, tau: real, g: RatingMath): (sc: seq<Rating>)
    requires WellFormed(m, |ps|) && HasRounds(m, ti + 1)
    ensures |sc| == |ps|
  {
    seq(|ps|, i requires 0 <= i < |ps| => StepAt(ti, i, ps, m, tau, g).scratch)
  }

  /** The players after every chunk of round `ti` has run: only active flags have changed. */
  function Activated(ti: nat, ps: seq<Player>, m: Table, tau: real, g: RatingMath): (qs: seq<Player>)
    requires WellFormed(m, |ps|) && HasRounds(m, ti + 1)
    ensures |qs| == |ps|
  {
    seq(|ps|, i requires 0 <= i < |ps| => ps[i].(active := StepAt(ti, i, ps, m, tau, g).active))
  }

  /**
   Ends a round: every player takes its triple from the scratch buffer; ids,
   names and active flags are left as they are.
   */
  function CloseRound(scratch: seq<Rating>, ps: seq<Player>): (qs: seq<Player>)
    requires |ps| <= |scratch|
    ensures |qs| == |ps|
    ensures forall i :: 0 <= i < |ps| ==>
              && qs[i].RatingOf() == scratch[i]
              && qs[i].id == ps[i].id && qs[i].name == ps[i].name && qs[i].active == ps[i].active
  {
    seq(|ps|, i requires 0 <= i < |ps| => ps[i].(r := scratch[i].r, rd := scratch[i].rd, sigma := scratch[i].sigma))
  }

  /** One whole round: all chunks, then the commit. */
  function Round(ti: nat, ps: seq<Player>, m: Table, tau: real, g: RatingMath): (qs: seq<Player>)
    requires WellFormed(m, |ps|) && HasRounds(m, ti + 1)
    ensures |qs| == |ps|
    ensures forall i :: 0 <= i < |ps| ==>
              && qs[i].RatingOf() == StepAt(ti, i, ps, m, tau, g).scratch
              && qs[i].active == StepAt(ti, i, ps, m, tau, g).active
              && qs[i].id == ps[i].id && qs[i].name == ps[i].name
  {
    CloseRound(Scratch(ti, ps, m, tau, g), Activated(ti, ps, m, tau, g))
  }

  /**
   Rounds `ti`, `ti+1`, ..., `n-1`, in order, starting from `ps`. Ids and
   names never change, and a player once active stays active.
   */
  function Run(ti: nat, n: nat, ps: seq<Player>, m: Table, tau: real, g: RatingMath): (qs: seq<Player>)
    requires ti <= n
    requires WellFormed(m, |ps|) && HasRounds(m, n)
    ensures |qs| == |ps|
    ensures forall i :: 0 <= i < |ps| ==> qs[i].id == ps[i].id && qs[i].name == ps[i].name
    ensures forall i :: 0 <= i < |ps| && ps[i].active ==> qs[i].active
    decreases n - ti
  {
    if ti == n then ps
    else Run(ti + 1, n, Round(ti, ps, m, tau, g), m, tau, g)
  }

  /** Round-prefix determinism: running one more round is one more `Round` on the earlier result. */
  lemma {:induction false} RunExtend(ti: nat, k: nat, ps: seq<Player>, m: Table, tau: real, g: RatingMath)
    requires ti <= k
    requires WellFormed(m, |ps|) && HasRounds(m, k + 1)
    ensures Run(ti, k + 1, ps, m, tau, g) == Round(k, Run(ti, k, ps, m, tau, g), m, tau, g)
    decreases k - ti
  {
    if ti < k {
      RunExtend(ti + 1, k, Round(ti, ps, m, tau, g), m, tau, g);
    }
  }

  /** Running rounds up to `k` and then from `k` on is the same as running them all at once. */
  lemma {:induction false} RunSplit(ti: nat, k: nat, n: nat, ps: seq<Player>, m: Table, tau: real, g: RatingMath)
    requires ti <= k <= n
    requires WellFormed(m, |ps|) && HasRounds(m, n)
    ensures Run(ti, n, ps, m, tau, g) == Run(k, n, Run(ti, k, ps, m, tau, g), m, tau, g)
    decreases k - ti
  {
    if ti < k {
      RunSplit(ti + 1, k, n, Round(ti, ps, m, tau, g), m, tau, g);
    }
  }

  /** A player is active after the run exactly when it was before or had duels in one of the rounds run. */
  lemma {:induction false} RunActive(ti: nat, n: nat, ps: seq<Player>, m: Table, tau: real, g: RatingMath, i: nat)
    requires ti <= n
    requires WellFormed(m, |ps|) && HasRounds(m, n)
    requires i < |ps|
    ensures Run(ti, n, ps, m, tau, g)[i].active <==> ps[i].active || exists t :: ti <= t < n && |m[i][t]| > 0
    decreases n - ti
  {
    if ti < n {
      var qs := Round(ti, ps, m, tau, g);
      RunActive(ti + 1, n, qs, m, tau, g, i);
      assert qs[i].active <==> ps[i].active || |m[i][ti]| > 0;
      if |m[i][ti]| > 0 {
        assert ti <= ti < n && |m[i][ti]| > 0;
      }
      if exists t :: ti + 1 <= t < n && |m[i][t]| > 0 {
        var t :| ti + 1 <= t < n && |m[i][t]| > 0;
        assert ti <= t < n;
      }
      if exists t :: ti <= t < n && |m[i][t]| > 0 {
        var t :| ti <= t < n && |m[i][t]| > 0;
        if t > ti {
          assert ti + 1 <= t < n;
        }
      }
    }
  }

  /** Every player's r lies in [0,3000] and sigma in [0,0.1]. */
  ghost predicate RAndSigmaInRange(ps: seq<Player>) {
    forall i :: 0 <= i < |ps| ==> 0.0 <= ps[i].r <= 3000.0 && 0.0 <= ps[i].sigma <= 0.1
  }

  /**
   If every r and sigma starts in range they stay in range: idle players keep
   both and players with duels are clamped. (rd has no such invariant: the idle
   decay is not clamped.)
   */
  lemma {:induction false} RunKeepsRAndSigmaInRange(ti: nat, n: nat, ps: seq<Player>, m: Table, tau: real, g: RatingMath)
    requires ti <= n
    requires WellFormed(m, |ps|) && HasRounds(m, n)
    requires RAndSigmaInRange(ps)
    ensures RAndSigmaInRange(Run(ti, n, ps, m, tau, g))
    decreases n - ti
  {
    if ti < n {
      var qs := Round(ti, ps, m, tau, g);
      assert RAndSigmaInRange(qs) by {
        forall i | 0 <= i < |qs|
          ensures 0.0 <= qs[i].r <= 3000.0 && 0.0 <= qs[i].sigma <= 0.1
        {
          var s := StepAt(ti, i, ps, m, tau, g);
          assert qs[i].RatingOf() == s.scratch;
        }
      }
      RunKeepsRAndSigmaInRange(ti + 1, n, qs, m, tau, g);
    }
  }

  /** A round's outcome depends only on the players' triples and flags, not on ids or names. */
  lemma RoundReadsStateOnly(ti: nat, ps: seq<Player>, qs: seq<Player>, m: Table, tau: real, g: RatingMath)
    requires SameState(ps, qs)
    requires WellFormed(m, |ps|) && HasRounds(m, ti + 1)
    ensures SameState(Round(ti, ps, m, tau, g), Round(ti, qs, m, tau, g))
  {
    var ps' := Round(ti, ps, m, tau, g);
    var qs' := Round(ti, qs, m, tau, g);
    forall i | 0 <= i < |ps|
      ensures ps'[i].RatingOf() == qs'[i].RatingOf() && ps'[i].active == qs'[i].active
    {
      RankPlayerReadsRatingsOnly(ps[i], qs[i], m[i][ti], ps, qs, tau, g);
    }
  }

  /** A run's outcome depends only on the players' triples and flags, not on ids or names. */
  lemma {:induction false} RunReadsStateOnly(ti: nat, n: nat, ps: seq<Player>, qs: seq<Player>, m: Table, tau: real, g: RatingMath)
    requires ti <= n
    requires SameState(ps, qs)
    requires WellFormed(m, |ps|) && HasRounds(m, n)
    ensures SameState(Run(ti, n, ps, m, tau, g), Run(ti, n, qs, m, tau, g))
    decreases n - ti
  {
    if ti < n {
      RoundReadsStateOnly(ti, ps, qs, m, tau, g);
      RunReadsStateOnly(ti + 1, n, Round(ti, ps, m, tau, g), Round(ti, qs, m, tau, g), m, tau, g);
    }
  }

  /** Round `ti` reads column `ti` of the table and nothing else of it. */
  lemma RoundReadsOneColumn(ti: nat, ps: seq<Player>, m1: Table, m2: Table, tau: real, g: RatingMath)
    requires WellFormed(m1, |ps|) && WellFormed(m2, |ps|)
    requires HasRounds(m1, ti + 1) && HasRounds(m2, ti + 1)
    requires forall p :: 0 <= p < |ps| ==> m1[p][ti] == m2[p][ti]
    ensures Round(ti, ps, m1, tau, g) == Round(ti, ps, m2, tau, g)
  {
    assert Scratch(ti, ps, m1, tau, g) == Scratch(ti, ps, m2, tau, g);
    assert Activated(ti, ps, m1, tau, g) == Activated(ti, ps, m2, tau, g);
  }

  /** Running rounds before `n` never looks at a table cell of round `n` or later. */
  lemma {:induction false} RunReadsPrefixOnly(ti: nat, n: nat, ps: seq<Player>, m1: Table, m2: Table, tau: real, g: RatingMath)
    requires ti <= n
    requires WellFormed(m1, |ps|) && WellFormed(m2, |ps|)
    requires AgreeBefore(m1, m2, n)
    ensures Run(ti, n, ps, m1, tau, g) == Run(ti, n, ps, m2, tau, g)
    decreases n - ti
  {
    if ti < n {
      RoundReadsOneColumn(ti, ps, m1, m2, tau, g);
      RunReadsPrefixOnly(ti + 1, n, Round(ti, ps, m1, tau, g), m1, m2, tau, g);
    }
  }

  /**
   The chunks a round is split into: [from, from+size), [from+size, from+2*size), ...,
   the last one cut at `n`. Each is non-empty, at most `size` long, and each
   starts where the previous one ends.
   */
  function Chunks(from: nat, n: nat, size: nat): (cs: seq<(nat, nat)>)
    requires size > 0
    ensures forall k1, k2 :: 0 <= k1 < k2 < |cs| && k2 == k1 + 1 ==> cs[k1].1 == cs[k2].0
    ensures from < n ==> |cs| > 0 && cs[0].0 == from && cs[|cs| - 1].1 == n
    ensures n <= from ==> cs == []
    decreases n - from
  {
    if n <= from then []
    else
      var hi := if from + size < n then from + size else n;
      var rest := Chunks(from + size, n, size);
      assert rest != [] ==> rest[0].0 == hi;
      [(from, hi)] + rest
  }

  /** Each chunk is non-empty, lies within [from, n) and is at most `size` long. */
  lemma {:induction false} ChunksBounds(from: nat, n: nat, size: nat, k: nat)
    requires size > 0
    requires k < |Chunks(from, n, size)|
    ensures var c := Chunks(from, n, size)[k];
            from <= c.0 < c.1 <= n && c.1 - c.0 <= size
    decreases n - from
  {
    var hi := if from + size < n then from + size else n;
    var rest := Chunks(from + size, n, size);
    assert Chunks(from, n, size) == [(from, hi)] + rest;
    if k > 0 {
      ChunksBounds(from + size, n, size, k - 1);
      assert Chunks(from, n, size)[k] == rest[k - 1];
    }
  }

  /** Later chunks lie entirely after earlier ones. */
  lemma {:induction false} ChunksOrdered(from: nat, n: nat, size: nat, k1: nat, k2: nat)
    requires size > 0
    requires k1 < k2 < |Chunks(from, n, size)|
    ensures Chunks(from, n, size)[k1].1 <= Chunks(from, n, size)[k2].0
    decreases k2 - k1
  {
    var cs := Chunks(from, n, size);
    if k1 + 1 < k2 {
      ChunksOrdered(from, n, size, k1 + 1, k2);
      ChunksBounds(from, n, size, k1 + 1);
    }
  }

  /** Every index of [from, n) lies in some chunk. */
  lemma {:induction false} ChunksCover(from: nat, n: nat, size: nat, j: nat) returns (k: nat)
    requires size > 0
    requires from <= j < n
    ensures k < |Chunks(from, n, size)| && Chunks(from, n, size)[k].0 <= j < Chunks(from, n, size)[k].1
    decreases n - from
  {
    var cs := Chunks(from, n, size);
    var hi := if from + size < n then from + size else n;
    var rest := Chunks(from + size, n, size);
    assert cs == [(from, hi)] + rest;
    assert |cs| == |rest| + 1;
    if j < hi {
      k := 0;
      assert cs[0] == (from, hi);
    } else {
      var k' := ChunksCover(from + size, n, size, j);
      k := k' + 1;
      assert cs[k] == rest[k'];
    }
  }

  /** Chunk `k` is [from + k*size, min(from + (k+1)*size, n)): the ranges the loop of rank.go's `rank` visits with its step of `size`. */
  lemma {:induction false} ChunksAt(from: nat, n: nat, size: nat, k: nat)
    requires size > 0
    requires k < |Chunks(from, n, size)|
    ensures from + k * size < n
    ensures Chunks(from, n, size)[k] == (from + k * size, if from + k * size + size < n then from + k * size + size else n)
    decreases n - from
  {
    var hi := if from + size < n then from + size else n;
    var rest := Chunks(from + size, n, size);
    assert Chunks(from, n, size) == [(from, hi)] + rest;
    if k > 0 {
      ChunksAt(from + size, n, size, k - 1);
      assert Chunks(from, n, size)[k] == rest[k - 1];
      MulStep(k, size);
    }
  }

  /** One more step of `size` is `size` more. */
  lemma MulStep(k: nat, size: nat)
    requires k > 0
    ensures (k - 1) * size + size == k * size
  {
  }

  /** There is a chunk `k` exactly when from + k*size is still below `n`. */
  lemma {:induction false} ChunksCount(from: nat, n: nat, size: nat, k: nat)
    requires size > 0
    ensures k < |Chunks(from, n, size)| <==> from + k * size < n
    decreases n - from
  {
    if from < n {
      var hi := if from + size < n then from + size else n;
      var rest := Chunks(from + size, n, size);
      assert Chunks(from, n, size) == [(from, hi)] + rest;
      if k > 0 {
        ChunksCount(from + size, n, size, k - 1);
        MulStep(k, size);
      }
    }
  }

  /** Every index of [from, n) lies in exactly one chunk. */
  lemma ChunksPartition(from: nat, n: nat, size: nat, j: nat)
    requires size > 0
    requires from <= j < n
    ensures exists k :: 0 <= k < |Chunks(from, n, size)| && Chunks(from, n, size)[k].0 <= j < Chunks(from, n, size)[k].1
    ensures forall k1, k2 ::
              && 0 <= k1 < |Chunks(from, n, size)| && Chunks(from, n, size)[k1].0 <= j < Chunks(from, n, size)[k1].1
              && 0 <= k2 < |Chunks(from, n, size)| && Chunks(from, n, size)[k2].0 <= j < Chunks(from, n, size)[k2].1
              ==> k1 == k2
  {
    var cs := Chunks(from, n, size);
    var k := ChunksCover(from, n, size, j);
    forall k1, k2 |
      && 0 <= k1 < |cs| && cs[k1].0 <= j < cs[k1].1
      && 0 <= k2 < |cs| && cs[k2].0 <= j < cs[k2].1
      ensures k1 == k2
    {
      if k1 < k2 {
        ChunksOrdered(from, n, size, k1, k2);
      } else if k2 < k1 {
        ChunksOrdered(from, n, size, k2, k1);
      }
    }
  }

  /**
   One chunk of a round over the live arrays: for each index in [lo, hi) it
   writes that index's scratch entry and may set that player's active flag.
   Nothing outside [lo, hi) is written and no rating in `ps` changes.
   */
  method RankChunk(ti: nat, lo: nat, hi: nat, ps: array<Player>, scratch: array<Rating>, m: Table, tau: real, g: RatingMath)
    requires lo <= hi <= ps.Length == scratch.Length
    requires WellFormed(m, ps.Length) && HasRounds(m, ti + 1)
    modifies ps, scratch
    ensures SameRatings(ps[..], old(ps[..]))
    ensures forall i :: lo <= i < hi ==>
              && scratch[i] == StepAt(ti, i, old(ps[..]), m, tau, g).scratch
              && ps[i] == old(ps[i]).(active := StepAt(ti, i, old(ps[..]), m, tau, g).active)
    ensures forall i :: 0 <= i < ps.Length && !(lo <= i < hi) ==> scratch[i] == old(scratch[i]) && ps[i] == old(ps[i])
  {
    ghost var pre := ps[..];
    var i := lo;
    while i < hi
      invariant lo <= i <= hi
      invariant SameRatings(ps[..], pre)
      invariant forall j :: lo <= j < i ==>
                  && scratch[j] == StepAt(ti, j, pre, m, tau, g).scratch
                  && ps[j] == pre[j].(active := StepAt(ti, j, pre, m, tau, g).active)
      invariant forall j :: 0 <= j < ps.Length && !(lo <= j < i) ==> scratch[j] == old(scratch[j]) && ps[j] == pre[j]
    {
      var player := ps[i];
      var opponents := m[i][ti];
      assert DuelsIn(opponents, ps.Length);
      RankPlayerReadsRatingsOnly(player, pre[i], opponents, ps[..], pre, tau, g);
      if |opponents| == 0 {
        if player.active {
          player := player.(rd := g.decay(player.RatingOf()));
        }
        scratch[i] := Rating(player.r, player.rd, player.sigma);
      } else {
        var u := g.rank(player.RatingOf(), Views(opponents, ps[..]), tau);
        if !player.active {
          ps[i] := ps[i].(active := true);
        }
        scratch[i] := Rating(Clamp(0.0, u.r, 3000.0), Clamp(0.0, u.rd, 400.0), Clamp(0.0, u.sigma, 0.1));
      }
      i := i + 1;
    }
  }

  /** The commit at the end of a round, in place: triples from the scratch buffer, nothing else changed. */
  method CommitScratch(scratch: array<Rating>, ps: array<Player>)
    requires ps.Length <= scratch.Length
    modifies ps
    ensures ps[..] == CloseRound(scratch[..], old(ps[..]))
  {
    var i := 0;
    while i < ps.Length
      invariant 0 <= i <= ps.Length
      invariant forall j :: 0 <= j < i ==> ps[j] == CloseRound(scratch[..], old(ps[..]))[j]
      invariant forall j :: i <= j < ps.Length ==> ps[j] == old(ps[j])
    {
      ps[i] := ps[i].(r := scratch[i].r, rd := scratch[i].rd, sigma := scratch[i].sigma);
      i := i + 1;
    }
  }

  /**
   The chunks of round `ti` over the live arrays: the loop hands chunk `k` of
   `Chunks(0, n, chunk)` to `RankChunk` at its `k`-th step, so every chunk
   runs exactly once, in order. Afterwards every scratch entry and active
   flag is the player's step on the state before the round.
   */
  method RunChunks(ti: nat, a: array<Player>, scratch: array<Rating>, m: Table, tau: real, g: RatingMath, chunk: nat)
    requires chunk > 0
    requires a.Length == scratch.Length
    requires WellFormed(m, a.Length) && HasRounds(m, ti + 1)
    modifies a, scratch
    ensures a[..] == Activated(ti, old(a[..]), m, tau, g)
    ensures scratch[..] == Scratch(ti, old(a[..]), m, tau, g)
  {
    ghost var pre := a[..];
    var cs := Chunks(0, a.Length, chunk);
    var k := 0;
    ghost var i := 0;
    while k < |cs|
      invariant k <= |cs| && i <= a.Length
      invariant k < |cs| ==> cs[k].0 == i
      invariant k == |cs| ==> i == a.Length
      invariant SameRatings(a[..], pre)
      invariant forall j :: 0 <= j < a.Length && j < i ==>
                  && a[j] == Activated(ti, pre, m, tau, g)[j]
                  && scratch[j] == Scratch(ti, pre, m, tau, g)[j]
      invariant forall j :: i <= j < a.Length ==> a[j] == pre[j]
    {
      var lo, hi := cs[k].0, cs[k].1;
      assert lo == i && lo < hi <= a.Length && (k + 1 < |cs| ==> cs[k + 1].0 == hi) && (k + 1 == |cs| ==> hi == a.Length) by {
        ChunksBounds(0, a.Length, chunk, k);
      }
      ghost var before := a[..];
      forall j | lo <= j < hi
        ensures StepAt(ti, j, before, m, tau, g) == StepAt(ti, j, pre, m, tau, g)
      {
        RankPlayerReadsRatingsOnly(before[j], pre[j], m[j][ti], before, pre, tau, g);
      }
      RankChunk(ti, lo, hi, a, scratch, m, tau, g);
      i := hi;
      k := k + 1;
    }
    assert a[..] == Activated(ti, pre, m, tau, g);
    assert scratch[..] == Scratch(ti, pre, m, tau, g);
  }

  /**
   The engine: for every tournament in order, run the chunks of `chunk`
   players each, then commit. Whatever the chunk size, the result is the
   round-by-round reference `Run`.
   */
  method Rank(ts: seq<Tournament>, ps: seq<Player>, m: Table, tau: real, g: RatingMath, chunk: nat) returns (out: seq<Player>)
    requires chunk > 0
    requires WellFormed(m, |ps|) && HasRounds(m, |ts|)
    ensures out == Run(0, |ts|, ps, m, tau, g)
  {
    var a := new Player[|ps|](i requires 0 <= i < |ps| => ps[i]);
    var scratch := new Rating[|ps|](_ => Rating(0.0, 0.0, 0.0));
    assert a[..] == ps;
    var ti := 0;
    while ti < |ts|
      invariant 0 <= ti <= |ts|
      invariant a.Length == |ps| && scratch.Length == |ps|
      invariant a[..] == Run(0, ti, ps, m, tau, g)
    {
      RunChunks(ti, a, scratch, m, tau, g, chunk);
      CommitScratch(scratch, a);
      RunExtend(0, ti, ps, m, tau, g);
      ti := ti + 1;
    }
    out := a[..];
  }
}
