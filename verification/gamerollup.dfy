/** The per-game view (`renderJogos`): one fold over the selected plays that
    have a game reference into a map from game id to running totals, then
    one row per game in first-seen order. */
module GameRollup {
  import opened Wrappers
  import opened Model
  import opened Seqs
  import opened Index
  import opened Duration
  import opened Fractions

  /** The accumulator of one game: label, plays, summed known minutes and the
      distinct participants. */
  datatype GameStats = GameStats(jogo: string, partidas: nat, tempoMin: int, jogadoresUnicos: set<int>)

  /** A JavaScript `Map`: the keys in insertion order and the entries. */
  datatype GameAgg = GameAgg(order: seq<int>, stats: map<int, GameStats>)

  const EmptyAgg: GameAgg := GameAgg([], map[])

  /** The loop body for one play of resolved duration `dur`; a play without a
      game reference is skipped. */
  function AddPlay(games: map<int, Record<int>>, agg: GameAgg, p: Play, dur: Option<int>): GameAgg {
    match p.gameRefId
    case None => agg
    case Some(g) =>
      var isNew := g !in agg.stats;
      var s := if isNew then GameStats(GameLabel(games, Some(g)), 0, 0, {}) else agg.stats[g];
      var s' := s.(
        partidas := s.partidas + 1,
        tempoMin := if dur.Some? then s.tempoMin + dur.value else s.tempoMin,
        jogadoresUnicos := s.jogadoresUnicos + ParticipantIds(p.playerScores));
      GameAgg(if isNew then agg.order + [g] else agg.order, agg.stats[g := s'])
  }

  function Aggregate(games: map<int, Record<int>>, plays: seq<Play>): GameAgg {
    if |plays| == 0 then EmptyAgg
    else
      var p := plays[|plays| - 1];
      AddPlay(games, Aggregate(games, plays[..|plays| - 1]), p, DurationMin(p.durations))
  }

  // ----- reference totals, one game at a time -----

  /** Number of plays of game `g`. */
  function PlaysOf(plays: seq<Play>, g: int): nat {
    if |plays| == 0 then 0
    else PlaysOf(plays[..|plays| - 1], g) + (if plays[|plays| - 1].gameRefId == Some(g) then 1 else 0)
  }

  /** Known minutes of the plays of game `g`; unknown durations add nothing. */
  function MinutesOf(plays: seq<Play>, g: int): int {
    if |plays| == 0 then 0
    else
      var p := plays[|plays| - 1];
      MinutesOf(plays[..|plays| - 1], g) + (if p.gameRefId == Some(g) then MinutesOrZero(DurationMin(p.durations)) else 0)
  }

  /** Everyone who took part in a play of game `g`. */
  function PlayersOf(plays: seq<Play>, g: int): set<int> {
    if |plays| == 0 then {}
    else
      var p := plays[|plays| - 1];
      PlayersOf(plays[..|plays| - 1], g) + (if p.gameRefId == Some(g) then ParticipantIds(p.playerScores) else {})
  }

  /** Participant entries (player references) over the plays of game `g`. */
  function EntriesOf(plays: seq<Play>, g: int): nat {
    if |plays| == 0 then 0
    else
      var p := plays[|plays| - 1];
      EntriesOf(plays[..|plays| - 1], g) + (if p.gameRefId == Some(g) then |p.playerScores| else 0)
  }

  /** Number of plays that carry a game reference. */
  function WithGame(plays: seq<Play>): nat {
    if |plays| == 0 then 0
    else WithGame(plays[..|plays| - 1]) + (if plays[|plays| - 1].gameRefId.Some? then 1 else 0)
  }

  /** The game ids of the plays that carry one, in play order: the keys the
      loop feeds to `agg`. */
  function GameKeys(plays: seq<Play>): seq<int> {
    if |plays| == 0 then []
    else
      var p := plays[|plays| - 1];
      GameKeys(plays[..|plays| - 1]) + (if p.gameRefId.Some? then [p.gameRefId.value] else [])
  }

  /** A game never has more distinct players than player references seen
      in its plays. */
  lemma {:induction false} DistinctPlayersAtMostEntries(plays: seq<Play>, g: int)
    ensures |PlayersOf(plays, g)| <= EntriesOf(plays, g)
  {
    if |plays| > 0 {
      var n := |plays| - 1;
      var p := plays[n];
      DistinctPlayersAtMostEntries(plays[..n], g);
      if p.gameRefId == Some(g) {
        var a, b := PlayersOf(plays[..n], g), ParticipantIds(p.playerScores);
        assert |a + b| + |a * b| == |a| + |b|;
      }
    }
  }

  // ----- invariants of the accumulator -----

  ghost predicate StatsOk(games: map<int, Record<int>>, g: int, s: GameStats) {
    && s.jogo == GameLabel(games, Some(g))
    && 1 <= s.partidas
  }

  ghost predicate Wf(games: map<int, Record<int>>, agg: GameAgg) {
    && NoDups(agg.order)
    && (forall k :: k in agg.order <==> k in agg.stats)
    && (forall k :: k in agg.stats ==> StatsOk(games, k, agg.stats[k]))
  }

  /** The entry for `g`, or all-zero totals when it has none yet. */
  function Get(agg: GameAgg, g: int): GameStats {
    if g in agg.stats then agg.stats[g] else GameStats("", 0, 0, {})
  }

  function Counts(agg: GameAgg): (c: map<int, nat>)
    ensures forall k :: k in c <==> k in agg.stats
    ensures forall k :: k in c ==> c[k] == agg.stats[k].partidas
  {
    map k | k in agg.stats :: agg.stats[k].partidas
  }

  /** Sum of `partidas` over the listed games. */
  ghost function SumPartidas(agg: GameAgg): nat
    requires forall k :: k in agg.order ==> k in agg.stats
  {
    SumOf(agg.order, Counts(agg))
  }

  lemma AddPlayKeepsWf(games: map<int, Record<int>>, agg: GameAgg, p: Play, d: Option<int>)
    requires Wf(games, agg)
    ensures Wf(games, AddPlay(games, agg, p, d))
  {
    if p.gameRefId.Some? {
      var r, k := AddPlay(games, agg, p, d), p.gameRefId.value;
      assert StatsOk(games, k, r.stats[k]);
      if k !in agg.stats {
        assert k !in agg.order;
        assert NoDups(r.order) by {
          forall i, j | 0 <= i < j < |r.order| ensures r.order[i] != r.order[j] {
            if j == |agg.order| { assert r.order[i] in agg.order; }
          }
        }
      }
    }
  }

  /** What one play with a game reference does to the key list and counts. */
  lemma AddPlayShape(games: map<int, Record<int>>, agg: GameAgg, p: Play, d: Option<int>)
    requires p.gameRefId.Some?
    ensures var r, k := AddPlay(games, agg, p, d), p.gameRefId.value;
      && r.order == (if k in agg.stats then agg.order else agg.order + [k])
      && k in r.stats
      && r.stats[k].partidas == Get(agg, k).partidas + 1
      && (forall x :: x != k ==> (x in r.stats <==> x in agg.stats))
      && (forall x :: x != k && x in agg.stats ==> r.stats[x] == agg.stats[x])
  {
  }

  lemma AddPlayCounts(games: map<int, Record<int>>, agg: GameAgg, p: Play, d: Option<int>)
    requires Wf(games, agg)
    ensures Wf(games, AddPlay(games, agg, p, d))
    ensures SumPartidas(AddPlay(games, agg, p, d)) == SumPartidas(agg) + (if p.gameRefId.Some? then 1 else 0)
  {
    AddPlayKeepsWf(games, agg, p, d);
    if p.gameRefId.Some? {
      var r, k := AddPlay(games, agg, p, d), p.gameRefId.value;
      AddPlayShape(games, agg, p, d);
      var c1, c2 := Counts(agg), Counts(r);
      forall x | x in agg.order ensures x in c1 && x in c2 {
        assert x in agg.stats;
      }
      forall x | x in agg.order && x != k ensures c2[x] == c1[x] {
        assert r.stats[x] == agg.stats[x];
      }
      assert k in agg.order <==> k in agg.stats;
      SumOfBump(agg.order, c1, r.order, c2, k);
    }
  }

  lemma AddPlayEntry(games: map<int, Record<int>>, agg: GameAgg, p: Play, d: Option<int>, g: int)
    ensures var r, hit := AddPlay(games, agg, p, d), p.gameRefId == Some(g);
      && (g in r.stats <==> g in agg.stats || hit)
      && Get(r, g).partidas == Get(agg, g).partidas + (if hit then 1 else 0)
      && Get(r, g).tempoMin == Get(agg, g).tempoMin + (if hit then MinutesOrZero(d) else 0)
      && Get(r, g).jogadoresUnicos == Get(agg, g).jogadoresUnicos + (if hit then ParticipantIds(p.playerScores) else {})
  {
  }

  /** The rollup agrees, game by game, with the reference totals: a game has
      an entry iff some selected play references it; `partidas` counts those
      plays (unknown durations included), `tempoMin` adds their known
      minutes, `jogadoresUnicos` is the set of their participants. The
      `partidas` of all games sum to the number of plays with a game
      reference: plays without one are skipped, every other play is counted
      exactly once. */
  lemma {:induction false} AggregateMatchesReference(games: map<int, Record<int>>, plays: seq<Play>, g: int)
    ensures var r := Aggregate(games, plays);
      && Wf(games, r)
      && (g in r.stats <==> PlaysOf(plays, g) > 0)
      && Get(r, g).partidas == PlaysOf(plays, g)
      && Get(r, g).tempoMin == MinutesOf(plays, g)
      && Get(r, g).jogadoresUnicos == PlayersOf(plays, g)
      && SumPartidas(r) == WithGame(plays)
  {
    AggregateCounts(games, plays);
    AggregateEntry(games, plays, g);
    AggregateMinutes(games, plays, g);
    AggregatePlayers(games, plays, g);
  }

  lemma {:induction false} AggregateCounts(games: map<int, Record<int>>, plays: seq<Play>)
    ensures Wf(games, Aggregate(games, plays))
    ensures SumPartidas(Aggregate(games, plays)) == WithGame(plays)
  {
    if |plays| > 0 {
      var n := |plays| - 1;
      AggregateCounts(games, plays[..n]);
      AddPlayCounts(games, Aggregate(games, plays[..n]), plays[n], DurationMin(plays[n].durations));
    }
  }

  lemma {:induction false} AggregateEntry(games: map<int, Record<int>>, plays: seq<Play>, g: int)
    ensures var r := Aggregate(games, plays);
      && (g in r.stats <==> PlaysOf(plays, g) > 0)
      && Get(r, g).partidas == PlaysOf(plays, g)
  {
    if |plays| > 0 {
      var n := |plays| - 1;
      AggregateEntry(games, plays[..n], g);
      AddPlayEntry(games, Aggregate(games, plays[..n]), plays[n], DurationMin(plays[n].durations), g);
    }
  }

  lemma {:induction false} AggregateMinutes(games: map<int, Record<int>>, plays: seq<Play>, g: int)
    ensures Get(Aggregate(games, plays), g).tempoMin == MinutesOf(plays, g)
  {
    if |plays| > 0 {
      var n := |plays| - 1;
      AggregateMinutes(games, plays[..n], g);
      AddPlayEntry(games, Aggregate(games, plays[..n]), plays[n], DurationMin(plays[n].durations), g);
    }
  }

  lemma {:induction false} AggregatePlayers(games: map<int, Record<int>>, plays: seq<Play>, g: int)
    ensures Get(Aggregate(games, plays), g).jogadoresUnicos == PlayersOf(plays, g)
  {
    if |plays| > 0 {
      var n := |plays| - 1;
      AggregatePlayers(games, plays[..n], g);
      AddPlayEntry(games, Aggregate(games, plays[..n]), plays[n], DurationMin(plays[n].durations), g);
    }
  }

  lemma AggregateListed(games: map<int, Record<int>>, plays: seq<Play>)
    ensures Wf(games, Aggregate(games, plays))
    ensures Listed(Aggregate(games, plays).order, Aggregate(games, plays).stats)
  {
    var r := Aggregate(games, plays);
    AggregateCounts(games, plays);
    assert forall k :: k in r.order ==> k in r.stats;
    KeysListed(r.order, r.stats);
  }

  // ----- rows -----

  /** A row of the games table. */
  datatype GameRow = GameRow(
    jogo: string,
    partidas: nat,
    tempoTotalH: Rational,
    tempoMedioMin: Rational,
    jogadoresUnicos: nat)

  /** Summed minutes over plays, or 0 for a game without plays. */
  function AverageMinutes(tempoMin: int, partidas: nat): (avg: Rational)
    ensures avg.den > 0
    ensures partidas == 0 ==> avg.num == 0
    ensures partidas > 0 ==> avg.num * partidas == tempoMin * avg.den
  {
    if partidas == 0 then Rational(0, 1) else Rational(tempoMin, partidas)
  }

  function RowOf(s: GameStats): GameRow {
    GameRow(s.jogo, s.partidas, Hours(s.tempoMin), AverageMinutes(s.tempoMin, s.partidas), |s.jogadoresUnicos|)
  }

  function Rows(order: seq<int>, stats: map<int, GameStats>): (rows: seq<GameRow>)
    requires Listed(order, stats)
    ensures |rows| == |order|
    ensures forall i :: 0 <= i < |order| ==> rows[i] == RowOf(stats[order[i]])
  {
    if |order| == 0 then []
    else Rows(order[..|order| - 1], stats) + [RowOf(stats[order[|order| - 1]])]
  }

  function SumRowPartidas(rows: seq<GameRow>): nat {
    if |rows| == 0 then 0 else SumRowPartidas(rows[..|rows| - 1]) + rows[|rows| - 1].partidas
  }

  lemma {:induction false} RowsSum(agg: GameAgg)
    requires Listed(agg.order, agg.stats)
    ensures SumRowPartidas(Rows(agg.order, agg.stats)) == SumOf(agg.order, Counts(agg))
    decreases |agg.order|
  {
    if |agg.order| > 0 {
      var n := |agg.order| - 1;
      var pre := agg.(order := agg.order[..n]);
      RowsSum(pre);
      assert Rows(agg.order, agg.stats)[..n] == Rows(pre.order, agg.stats);
    }
  }

  /** `renderJogos` over the selected plays. */
  function GamesTable(games: map<int, Record<int>>, plays: seq<Play>): seq<GameRow> {
    var agg := Aggregate(games, plays);
    AggregateListed(games, plays);
    Rows(agg.order, agg.stats)
  }

  /** The games table has one row per distinct referenced game, in
      first-seen order and without repeats. */
  /** The key list of the rollup is in first-seen order: each referenced game
      once, ordered by its first appearance among the plays. */
  lemma {:induction false} AggregateFirstSeen(games: map<int, Record<int>>, plays: seq<Play>)
    ensures FirstSeen(Aggregate(games, plays).order, GameKeys(plays))
  {
    if |plays| > 0 {
      var n := |plays| - 1;
      var p, mid := plays[n], Aggregate(games, plays[..n]);
      var r := AddPlay(games, mid, p, DurationMin(p.durations));
      assert Aggregate(games, plays) == r;
      AggregateFirstSeen(games, plays[..n]);
      if p.gameRefId.Some? {
        var k := p.gameRefId.value;
        assert GameKeys(plays) == GameKeys(plays[..n]) + [k];
        AggregateCounts(games, plays[..n]);
        AddPlayShape(games, mid, p, DurationMin(p.durations));
        assert k in mid.order <==> k in mid.stats;
        assert r.order == if k in mid.order then mid.order else mid.order + [k];
        FirstSeenAppend(mid.order, GameKeys(plays[..n]), k);
      } else {
        assert GameKeys(plays) == GameKeys(plays[..n]);
      }
    }
  }

  /** The games table has one row per game referenced by a selected play,
      without repeats, in the order of each game's first appearance. */
  lemma GamesTableOrder(games: map<int, Record<int>>, plays: seq<Play>)
    ensures var agg := Aggregate(games, plays);
      && |GamesTable(games, plays)| == |agg.order|
      && NoDups(agg.order)
      && (forall g :: g in agg.order <==> PlaysOf(plays, g) > 0)
      && (forall i, j :: 0 <= i < j < |agg.order| ==>
            FirstIndex(GameKeys(plays), agg.order[i]) < FirstIndex(GameKeys(plays), agg.order[j]))
  {
    var agg := Aggregate(games, plays);
    AggregateListed(games, plays);
    AggregateFirstSeen(games, plays);
    forall g ensures g in agg.order <==> PlaysOf(plays, g) > 0 {
      AggregateMatchesReference(games, plays, g);
    }
  }

  /** Row `i` counts its game's plays; its distinct players are the
      participants of those plays, at most its player references; its total
      is their known minutes in hours, and its average is those minutes over
      all its plays, so an unknown-duration play counts in the denominator
      only. */
  lemma GamesTableRow(games: map<int, Record<int>>, plays: seq<Play>, i: int)
    requires 0 <= i < |Aggregate(games, plays).order|
    ensures var g, rows := Aggregate(games, plays).order[i], GamesTable(games, plays);
      && i < |rows|
      && rows[i].jogo == GameLabel(games, Some(g))
      && rows[i].partidas == PlaysOf(plays, g) > 0
      && rows[i].jogadoresUnicos == |PlayersOf(plays, g)| <= EntriesOf(plays, g)
      && rows[i].tempoTotalH == Hours(MinutesOf(plays, g))
      && rows[i].tempoMedioMin == Rational(MinutesOf(plays, g), PlaysOf(plays, g))
  {
    var agg := Aggregate(games, plays);
    AggregateListed(games, plays);
    var g := agg.order[i];
    assert g in agg.order;
    AggregateMatchesReference(games, plays, g);
    DistinctPlayersAtMostEntries(plays, g);
  }

  /** Conservation: the plays of all rows add up to the number of selected
      plays that carry a game reference. */
  lemma GamesTableConservation(games: map<int, Record<int>>, plays: seq<Play>)
    ensures SumRowPartidas(GamesTable(games, plays)) == WithGame(plays)
  {
    AggregateMatchesReference(games, plays, 0);
    AggregateListed(games, plays);
    RowsSum(Aggregate(games, plays));
  }
}
