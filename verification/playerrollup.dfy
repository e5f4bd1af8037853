/** The per-player view (`renderJogadores`): one fold over the selected
    plays' participant entries into a map from player id to running totals,
    then one row per player in first-seen order. */
module PlayerRollup {
  import opened Wrappers
  import opened Model
  import opened Seqs
  import opened Index
  import opened Duration
  import opened Fractions

  /** The accumulator of one player: label, plays, wins, distinct games and
      summed known minutes. */
  datatype PlayerStats = PlayerStats(jogador: string, partidas: nat, vitorias: nat, games: set<int>, tempoMin: int)

  /** A JavaScript `Map`: the keys in insertion order and the entries. */
  datatype PlayerAgg = PlayerAgg(order: seq<int>, stats: map<int, PlayerStats>)

  const EmptyAgg: PlayerAgg := PlayerAgg([], map[])

  /** The loop body for one participant entry of a play of game `gameId` and
      resolved duration `dur`. */
  function AddScore(players: map<int, Record<int>>, agg: PlayerAgg, gameId: Option<int>, dur: Option<int>, ps: PlayerScore): PlayerAgg {
    var id := ps.playerRefId;
    var isNew := id !in agg.stats;
    var s := if isNew then PlayerStats(PlayerLabel(players, id), 0, 0, {}, 0) else agg.stats[id];
    var s' := s.(
      partidas := s.partidas + 1,
      vitorias := if ps.winner then s.vitorias + 1 else s.vitorias,
      games := if gameId.Some? then s.games + {gameId.value} else s.games,
      tempoMin := if dur.Some? then s.tempoMin + dur.value else s.tempoMin);
    PlayerAgg(if isNew then agg.order + [id] else agg.order, agg.stats[id := s'])
  }

  /** The inner loop over one play's participant entries. */
  function AddScores(players: map<int, Record<int>>, agg: PlayerAgg, gameId: Option<int>, dur: Option<int>, scores: seq<PlayerScore>): PlayerAgg {
    if |scores| == 0 then agg
    else
      var n := |scores| - 1;
      AddScore(players, AddScores(players, agg, gameId, dur, scores[..n]), gameId, dur, scores[n])
  }

  /** The outer loop over the selected plays. */
  function Aggregate(players: map<int, Record<int>>, plays: seq<Play>): PlayerAgg {
    if |plays| == 0 then EmptyAgg
    else
      var n := |plays| - 1;
      var p := plays[n];
      AddScores(players, Aggregate(players, plays[..n]), p.gameRefId, DurationMin(p.durations), p.playerScores)
  }

  // ----- reference totals, one player at a time -----

  /** Number of entries of player `id` among a play's participants. */
  function CountId(scores: seq<PlayerScore>, id: int): nat {
    if |scores| == 0 then 0
    else CountId(scores[..|scores| - 1], id) + (if scores[|scores| - 1].playerRefId == id then 1 else 0)
  }

  /** Number of those entries flagged `winner`. */
  function CountWins(scores: seq<PlayerScore>, id: int): (w: nat)
    ensures w <= CountId(scores, id)
  {
    if |scores| == 0 then 0
    else
      var ps := scores[|scores| - 1];
      CountWins(scores[..|scores| - 1], id) + (if ps.playerRefId == id && ps.winner then 1 else 0)
  }

  /** Participant entries of `id` over all plays. */
  function Appearances(plays: seq<Play>, id: int): nat {
    if |plays| == 0 then 0
    else Appearances(plays[..|plays| - 1], id) + CountId(plays[|plays| - 1].playerScores, id)
  }

  function WinsOf(plays: seq<Play>, id: int): nat {
    if |plays| == 0 then 0
    else WinsOf(plays[..|plays| - 1], id) + CountWins(plays[|plays| - 1].playerScores, id)
  }

  /** `m` added up `c` times. */
  function Times(c: nat, m: int): int {
    if c == 0 then 0 else Times(c - 1, m) + m
  }

  lemma {:induction false} TimesIsProduct(c: nat, m: int)
    ensures Times(c, m) == c * m
  {
    if c > 0 {
      TimesIsProduct(c - 1, m);
      assert c * m == (c - 1) * m + m;
    }
  }

  /** Every known play duration counted in full once per entry of `id` in
      that play; unknown durations contribute nothing. */
  function MinutesOf(plays: seq<Play>, id: int): int {
    if |plays| == 0 then 0
    else
      var p := plays[|plays| - 1];
      MinutesOf(plays[..|plays| - 1], id) + Times(CountId(p.playerScores, id), MinutesOrZero(DurationMin(p.durations)))
  }

  /** The games (with a known game id) of the plays `id` took part in. */
  function GamesOf(plays: seq<Play>, id: int): set<int> {
    if |plays| == 0 then {}
    else
      var p := plays[|plays| - 1];
      GamesOf(plays[..|plays| - 1], id) + (if CountId(p.playerScores, id) > 0 && p.gameRefId.Some? then {p.gameRefId.value} else {})
  }

  /** The player ids of a play's entries, in entry order. */
  function Ids(scores: seq<PlayerScore>): seq<int> {
    if |scores| == 0 then []
    else Ids(scores[..|scores| - 1]) + [scores[|scores| - 1].playerRefId]
  }

  /** The player ids of all entries, play after play: the keys the nested
      loop feeds to `agg`. */
  function EntryIds(plays: seq<Play>): seq<int> {
    if |plays| == 0 then []
    else EntryIds(plays[..|plays| - 1]) + Ids(plays[|plays| - 1].playerScores)
  }

  /** Participant entries over all plays. */
  function Entries(plays: seq<Play>): nat {
    if |plays| == 0 then 0
    else Entries(plays[..|plays| - 1]) + |plays[|plays| - 1].playerScores|
  }

  // ----- invariants of the accumulator -----

  ghost predicate StatsOk(players: map<int, Record<int>>, id: int, s: PlayerStats) {
    && s.jogador == PlayerLabel(players, id)
    && 1 <= s.partidas
    && s.vitorias <= s.partidas
    && |s.games| <= s.partidas
  }

  ghost predicate Wf(players: map<int, Record<int>>, agg: PlayerAgg) {
    && NoDups(agg.order)
    && (forall k :: k in agg.order <==> k in agg.stats)
    && (forall k :: k in agg.stats ==> StatsOk(players, k, agg.stats[k]))
  }

  /** The entry for `id`, or all-zero totals when it has none yet. */
  function Get(agg: PlayerAgg, id: int): PlayerStats {
    if id in agg.stats then agg.stats[id] else PlayerStats("", 0, 0, {}, 0)
  }

  function Counts(agg: PlayerAgg): (c: map<int, nat>)
    ensures forall k :: k in c <==> k in agg.stats
    ensures forall k :: k in c ==> c[k] == agg.stats[k].partidas
  {
    map k | k in agg.stats :: agg.stats[k].partidas
  }

  /** Sum of `partidas` over the listed players. */
  ghost function SumPartidas(agg: PlayerAgg): nat
    requires forall k :: k in agg.order ==> k in agg.stats
  {
    SumOf(agg.order, Counts(agg))
  }

  lemma AddScoreKeepsWf(players: map<int, Record<int>>, agg: PlayerAgg, g: Option<int>, d: Option<int>, ps: PlayerScore)
    requires Wf(players, agg)
    ensures Wf(players, AddScore(players, agg, g, d, ps))
  {
    var r := AddScore(players, agg, g, d, ps);
    var k := ps.playerRefId;
    var s := r.stats[k];
    var prev := Get(agg, k);
    assert k in agg.stats ==> StatsOk(players, k, prev);
    assert |s.games| <= |prev.games| + 1 by {
      if g.Some? { assert s.games == prev.games + {g.value}; }
    }
    assert StatsOk(players, k, s);
    if k !in agg.stats {
      assert k !in agg.order;
      assert NoDups(r.order) by {
        forall i, j | 0 <= i < j < |r.order| ensures r.order[i] != r.order[j] {
          if j == |agg.order| { assert r.order[i] in agg.order; }
        }
      }
    }
  }

  /** What one participant entry does to the key list and counts. */
  lemma AddScoreShape(players: map<int, Record<int>>, agg: PlayerAgg, g: Option<int>, d: Option<int>, ps: PlayerScore)
    ensures var r, k := AddScore(players, agg, g, d, ps), ps.playerRefId;
      && r.order == (if k in agg.stats then agg.order else agg.order + [k])
      && k in r.stats
      && r.stats[k].partidas == Get(agg, k).partidas + 1
      && (forall x :: x != k ==> (x in r.stats <==> x in agg.stats))
      && (forall x :: x != k && x in agg.stats ==> r.stats[x] == agg.stats[x])
  {
  }

  lemma AddScoreAddsOne(players: map<int, Record<int>>, agg: PlayerAgg, g: Option<int>, d: Option<int>, ps: PlayerScore)
    requires Wf(players, agg)
    ensures Wf(players, AddScore(players, agg, g, d, ps))
    ensures SumPartidas(AddScore(players, agg, g, d, ps)) == SumPartidas(agg) + 1
  {
    AddScoreKeepsWf(players, agg, g, d, ps);
    var r, k := AddScore(players, agg, g, d, ps), ps.playerRefId;
    AddScoreShape(players, agg, g, d, ps);
    var c1, c2 := Counts(agg), Counts(r);
    forall x | x in agg.order ensures x in c1 && x in c2 {
      assert x in agg.stats;
    }
    forall x | x in agg.order && x != k ensures c2[x] == c1[x] {
      assert r.stats[x] == agg.stats[x];
    }
    assert k in agg.order <==> k in agg.stats;
    SumOfBump(agg.order, c1, r.order, c2, k);
  }

  lemma AddScoreEntry(players: map<int, Record<int>>, agg: PlayerAgg, g: Option<int>, d: Option<int>, ps: PlayerScore, id: int)
    ensures var r := AddScore(players, agg, g, d, ps);
      var hit := ps.playerRefId == id;
      && (id in r.stats <==> id in agg.stats || hit)
      && Get(r, id).partidas == Get(agg, id).partidas + (if hit then 1 else 0)
      && Get(r, id).vitorias == Get(agg, id).vitorias + (if hit && ps.winner then 1 else 0)
      && Get(r, id).tempoMin == Get(agg, id).tempoMin + (if hit then MinutesOrZero(d) else 0)
      && Get(r, id).games == Get(agg, id).games + (if hit && g.Some? then {g.value} else {})
  {
  }

  lemma {:induction false} AddScoresKeepsWf(players: map<int, Record<int>>, agg: PlayerAgg, g: Option<int>, d: Option<int>, scores: seq<PlayerScore>)
    requires Wf(players, agg)
    ensures Wf(players, AddScores(players, agg, g, d, scores))
    ensures SumPartidas(AddScores(players, agg, g, d, scores)) == SumPartidas(agg) + |scores|
  {
    if |scores| > 0 {
      var n := |scores| - 1;
      AddScoresKeepsWf(players, agg, g, d, scores[..n]);
      AddScoreAddsOne(players, AddScores(players, agg, g, d, scores[..n]), g, d, scores[n]);
    }
  }

  lemma {:induction false} AddScoresEntry(players: map<int, Record<int>>, agg: PlayerAgg, g: Option<int>, d: Option<int>, scores: seq<PlayerScore>, id: int)
    ensures var r := AddScores(players, agg, g, d, scores);
      var c := CountId(scores, id);
      && (id in r.stats <==> id in agg.stats || c > 0)
      && Get(r, id).partidas == Get(agg, id).partidas + c
      && Get(r, id).vitorias == Get(agg, id).vitorias + CountWins(scores, id)
      && Get(r, id).games == Get(agg, id).games + (if c > 0 && g.Some? then {g.value} else {})
  {
    if |scores| > 0 {
      var n := |scores| - 1;
      AddScoresEntry(players, agg, g, d, scores[..n], id);
      AddScoreEntry(players, AddScores(players, agg, g, d, scores[..n]), g, d, scores[n], id);
    }
  }

  lemma AddScoreMinutes(players: map<int, Record<int>>, agg: PlayerAgg, g: Option<int>, d: Option<int>, ps: PlayerScore, id: int)
    ensures Get(AddScore(players, agg, g, d, ps), id).tempoMin
      == Get(agg, id).tempoMin + (if ps.playerRefId == id then MinutesOrZero(d) else 0)
  {
  }

  lemma {:induction false} AddScoresMinutes(players: map<int, Record<int>>, agg: PlayerAgg, g: Option<int>, d: Option<int>, scores: seq<PlayerScore>, id: int)
    ensures Get(AddScores(players, agg, g, d, scores), id).tempoMin == Get(agg, id).tempoMin + Times(CountId(scores, id), MinutesOrZero(d))
  {
    if |scores| > 0 {
      var n := |scores| - 1;
      var mid := AddScores(players, agg, g, d, scores[..n]);
      assert AddScores(players, agg, g, d, scores) == AddScore(players, mid, g, d, scores[n]);
      AddScoresMinutes(players, agg, g, d, scores[..n], id);
      AddScoreMinutes(players, mid, g, d, scores[n], id);
      var c0, m := CountId(scores[..n], id), MinutesOrZero(d);
      if scores[n].playerRefId == id {
        assert CountId(scores, id) == c0 + 1;
        assert Times(c0 + 1, m) == Times(c0, m) + m;
      } else {
        assert CountId(scores, id) == c0;
      }
    }
  }

  /** The rollup agrees, player by player, with the reference totals: a
      player has an entry iff they have a participant entry in some selected
      play; `partidas` counts those entries, `vitorias` the winning ones,
      `tempoMin` adds each known duration in full per entry, `games` holds
      the known game ids of their plays. The `partidas` of all players sum to
      the number of participant entries, so every entry is counted once. */
  lemma {:induction false} AggregateMatchesReference(players: map<int, Record<int>>, plays: seq<Play>, id: int)
    ensures var r := Aggregate(players, plays);
      && Wf(players, r)
      && (id in r.stats <==> Appearances(plays, id) > 0)
      && Get(r, id).partidas == Appearances(plays, id)
      && Get(r, id).vitorias == WinsOf(plays, id)
      && Get(r, id).tempoMin == MinutesOf(plays, id)
      && Get(r, id).games == GamesOf(plays, id)
      && SumPartidas(r) == Entries(plays)
  {
    AggregateCounts(players, plays);
    AggregateEntry(players, plays, id);
    AggregateMinutes(players, plays, id);
  }

  lemma {:induction false} AggregateCounts(players: map<int, Record<int>>, plays: seq<Play>)
    ensures Wf(players, Aggregate(players, plays))
    ensures SumPartidas(Aggregate(players, plays)) == Entries(plays)
  {
    if |plays| > 0 {
      var n := |plays| - 1;
      var p := plays[n];
      AggregateCounts(players, plays[..n]);
      AddScoresKeepsWf(players, Aggregate(players, plays[..n]), p.gameRefId, DurationMin(p.durations), p.playerScores);
    }
  }

  lemma {:induction false} AggregateEntry(players: map<int, Record<int>>, plays: seq<Play>, id: int)
    ensures var r := Aggregate(players, plays);
      && (id in r.stats <==> Appearances(plays, id) > 0)
      && Get(r, id).partidas == Appearances(plays, id)
      && Get(r, id).vitorias == WinsOf(plays, id)
      && Get(r, id).games == GamesOf(plays, id)
  {
    if |plays| > 0 {
      var n := |plays| - 1;
      var p := plays[n];
      AggregateEntry(players, plays[..n], id);
      AddScoresEntry(players, Aggregate(players, plays[..n]), p.gameRefId, DurationMin(p.durations), p.playerScores, id);
    }
  }

  lemma {:induction false} AggregateMinutes(players: map<int, Record<int>>, plays: seq<Play>, id: int)
    ensures Get(Aggregate(players, plays), id).tempoMin == MinutesOf(plays, id)
  {
    if |plays| > 0 {
      var n := |plays| - 1;
      var p := plays[n];
      AggregateMinutes(players, plays[..n], id);
      AddScoresMinutes(players, Aggregate(players, plays[..n]), p.gameRefId, DurationMin(p.durations), p.playerScores, id);
    }
  }

  /** Adding one more play: each of its participant entries adds one play to
      that player, and its duration once per entry when known; an unknown
      duration adds no minutes but the play still counts. */
  lemma AppendPlay(players: map<int, Record<int>>, plays: seq<Play>, p: Play, id: int)
    ensures var before, after := Aggregate(players, plays), Aggregate(players, plays + [p]);
      var c := CountId(p.playerScores, id);
      && Get(after, id).partidas == Get(before, id).partidas + c
      && Get(after, id).vitorias == Get(before, id).vitorias + CountWins(p.playerScores, id)
      && (DurationMin(p.durations).None? ==> Get(after, id).tempoMin == Get(before, id).tempoMin)
      && (DurationMin(p.durations).Some? ==>
            Get(after, id).tempoMin == Get(before, id).tempoMin + c * DurationMin(p.durations).value)
  {
    var d, before := DurationMin(p.durations), Aggregate(players, plays);
    var c, m := CountId(p.playerScores, id), MinutesOrZero(d);
    assert (plays + [p])[..|plays|] == plays;
    assert Aggregate(players, plays + [p]) == AddScores(players, before, p.gameRefId, d, p.playerScores);
    AddScoresEntry(players, before, p.gameRefId, d, p.playerScores, id);
    AddScoresMinutes(players, before, p.gameRefId, d, p.playerScores, id);
    TimesIsProduct(c, m);
    if d.None? {
      assert c * m == 0;
    }
  }

  // ----- rows -----

  /** A row of the players table. */
  datatype PlayerRow = PlayerRow(
    jogador: string,
    partidas: nat,
    jogosDiferentes: nat,
    tempoTotalH: Rational,
    vitorias: nat,
    winrate: Winrate)

  function RowOf(s: PlayerStats): PlayerRow {
    PlayerRow(s.jogador, s.partidas, |s.games|, Hours(s.tempoMin), s.vitorias, WinrateOf(s.vitorias, s.partidas))
  }

  /** `[...agg.values()].map(...)`: one row per entry, in insertion order. */
  function Rows(order: seq<int>, stats: map<int, PlayerStats>): (rows: seq<PlayerRow>)
    requires Listed(order, stats)
    ensures |rows| == |order|
    ensures forall i :: 0 <= i < |order| ==> rows[i] == RowOf(stats[order[i]])
  {
    if |order| == 0 then []
    else Rows(order[..|order| - 1], stats) + [RowOf(stats[order[|order| - 1]])]
  }

  function SumRowPartidas(rows: seq<PlayerRow>): nat {
    if |rows| == 0 then 0 else SumRowPartidas(rows[..|rows| - 1]) + rows[|rows| - 1].partidas
  }

  lemma {:induction false} RowsSum(agg: PlayerAgg)
    requires Listed(agg.order, agg.stats)
    ensures SumRowPartidas(Rows(agg.order, agg.stats)) == SumOf(agg.order, Counts(agg))
    decreases |agg.order|
  {
    if |agg.order| > 0 {
      var n := |agg.order| - 1;
      var pre := agg.(order := agg.order[..n]);
      RowsSum(pre);
      assert Counts(pre) == Counts(agg);
      assert Rows(agg.order, agg.stats)[..n] == Rows(pre.order, agg.stats);
    }
  }

  lemma AggregateListed(players: map<int, Record<int>>, plays: seq<Play>)
    ensures Wf(players, Aggregate(players, plays))
    ensures Listed(Aggregate(players, plays).order, Aggregate(players, plays).stats)
  {
    var r := Aggregate(players, plays);
    AggregateCounts(players, plays);
    assert forall k :: k in r.order ==> k in r.stats;
    KeysListed(r.order, r.stats);
  }

  /** `renderJogadores` over the selected plays. */
  function PlayersTable(players: map<int, Record<int>>, plays: seq<Play>): seq<PlayerRow> {
    var agg := Aggregate(players, plays);
    AggregateListed(players, plays);
    Rows(agg.order, agg.stats)
  }

  lemma {:induction false} AddScoresFirstSeen(players: map<int, Record<int>>, agg: PlayerAgg, g: Option<int>, d: Option<int>, scores: seq<PlayerScore>, s: seq<int>)
    requires Wf(players, agg)
    requires FirstSeen(agg.order, s)
    ensures FirstSeen(AddScores(players, agg, g, d, scores).order, s + Ids(scores))
  {
    if |scores| > 0 {
      var n := |scores| - 1;
      var k, mid := scores[n].playerRefId, AddScores(players, agg, g, d, scores[..n]);
      var r := AddScore(players, mid, g, d, scores[n]);
      assert AddScores(players, agg, g, d, scores) == r;
      assert s + Ids(scores) == (s + Ids(scores[..n])) + [k];
      AddScoresFirstSeen(players, agg, g, d, scores[..n], s);
      AddScoresKeepsWf(players, agg, g, d, scores[..n]);
      AddScoreShape(players, mid, g, d, scores[n]);
      assert k in mid.order <==> k in mid.stats;
      assert r.order == if k in mid.order then mid.order else mid.order + [k];
      FirstSeenAppend(mid.order, s + Ids(scores[..n]), k);
    } else {
      assert s + Ids(scores) == s;
    }
  }

  /** The key list of the rollup is in first-seen order: each participant
      once, ordered by their first entry over the plays. */
  lemma {:induction false} AggregateFirstSeen(players: map<int, Record<int>>, plays: seq<Play>)
    ensures FirstSeen(Aggregate(players, plays).order, EntryIds(plays))
  {
    if |plays| > 0 {
      var n := |plays| - 1;
      var p, mid := plays[n], Aggregate(players, plays[..n]);
      assert Aggregate(players, plays) == AddScores(players, mid, p.gameRefId, DurationMin(p.durations), p.playerScores);
      AggregateFirstSeen(players, plays[..n]);
      AggregateCounts(players, plays[..n]);
      AddScoresFirstSeen(players, mid, p.gameRefId, DurationMin(p.durations), p.playerScores, EntryIds(plays[..n]));
    }
  }

  /** The players table has one row per participant of the selected plays,
      without repeats, in the order of each player's first entry. */
  lemma PlayersTableOrder(players: map<int, Record<int>>, plays: seq<Play>)
    ensures var agg := Aggregate(players, plays);
      && |PlayersTable(players, plays)| == |agg.order|
      && NoDups(agg.order)
      && (forall id :: id in agg.order <==> Appearances(plays, id) > 0)
      && (forall i, j :: 0 <= i < j < |agg.order| ==>
            FirstIndex(EntryIds(plays), agg.order[i]) < FirstIndex(EntryIds(plays), agg.order[j]))
  {
    var agg := Aggregate(players, plays);
    AggregateListed(players, plays);
    AggregateFirstSeen(players, plays);
    forall id ensures id in agg.order <==> Appearances(plays, id) > 0 {
      AggregateMatchesReference(players, plays, id);
    }
  }

  /** Row `i` is labelled and counted as the reference totals say: its plays
      are the player's entries, its wins the winning ones, its distinct games
      the games of those plays, its hours their known minutes, and its
      winrate wins over plays. */
  lemma PlayersTableRow(players: map<int, Record<int>>, plays: seq<Play>, i: int)
    requires 0 <= i < |Aggregate(players, plays).order|
    ensures var id, rows := Aggregate(players, plays).order[i], PlayersTable(players, plays);
      && i < |rows|
      && rows[i].jogador == PlayerLabel(players, id)
      && rows[i].partidas == Appearances(plays, id)
      && rows[i].vitorias == WinsOf(plays, id)
      && rows[i].jogosDiferentes == |GamesOf(plays, id)|
      && rows[i].tempoTotalH == Hours(MinutesOf(plays, id))
      && rows[i].winrate == WinrateOf(WinsOf(plays, id), Appearances(plays, id))
  {
    var agg := Aggregate(players, plays);
    AggregateListed(players, plays);
    var id := agg.order[i];
    assert id in agg.order;
    AggregateMatchesReference(players, plays, id);
  }

  /** In every row the wins and the distinct games are at most the plays, and
      the winrate is a percentage in [0, 100] (never the `"0%"` of a player
      without plays, since every listed player has at least one). */
  lemma PlayersTableBounds(players: map<int, Record<int>>, plays: seq<Play>)
    ensures var rows := PlayersTable(players, plays);
      forall i :: 0 <= i < |rows| ==>
        && rows[i].vitorias <= rows[i].partidas
        && rows[i].jogosDiferentes <= rows[i].partidas
        && rows[i].winrate.Percent?
        && 0 <= rows[i].winrate.value.num <= 100 * rows[i].winrate.value.den
  {
    var agg, rows := Aggregate(players, plays), PlayersTable(players, plays);
    AggregateMatchesReference(players, plays, 0);
    forall i | 0 <= i < |rows|
      ensures rows[i].vitorias <= rows[i].partidas
      ensures rows[i].jogosDiferentes <= rows[i].partidas
      ensures rows[i].winrate.Percent?
      ensures 0 <= rows[i].winrate.value.num <= 100 * rows[i].winrate.value.den
    {
      var id := agg.order[i];
      assert id in agg.order;
      assert StatsOk(players, id, agg.stats[id]);
    }
  }

  /** Conservation: the plays of all rows add up to the number of participant
      entries of the selected plays, so every entry is counted exactly once. */
  lemma PlayersTableConservation(players: map<int, Record<int>>, plays: seq<Play>)
    ensures SumRowPartidas(PlayersTable(players, plays)) == Entries(plays)
  {
    var agg := Aggregate(players, plays);
    AggregateMatchesReference(players, plays, 0);
    AggregateListed(players, plays);
    RowsSum(agg);
  }
}
