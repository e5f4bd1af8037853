/** The render pipeline: select the plays, then build the table of the
    current view. */
module Render {
  import opened Wrappers
  import opened Model
  import opened Index
  import opened Duration
  import opened Fractions
  import opened Filters
  import PlayRows
  import PlayerRollup
  import GameRollup

  /** The three tabs of the page. */
  datatype View = Partidas | Jogadores | Jogos

  /** The view named by the tab state; anything unrecognised shows plays. */
  function ViewOf(name: string): (v: View)
    ensures name == "jogadores" <==> v == Jogadores
    ensures name == "jogos" <==> v == Jogos
  {
    if name == "jogadores" then Jogadores else if name == "jogos" then Jogos else Partidas
  }

  datatype Table =
    | PlaysTable(playRows: seq<PlayRows.PlayRow>)
    | PlayersTable(playerRows: seq<PlayerRollup.PlayerRow>)
    | GamesTable(gameRows: seq<GameRollup.GameRow>)

  /** `render()`: filter, then build the table of the selected view. The
      plays table has one row per selected play; the rows of the players
      table count every participant entry of the selected plays once; the
      rows of the games table count every selected play with a game
      reference once. */
  function RenderView(raw: Raw, c: Criteria, view: View): (t: Table)
    ensures var sel := Filtered(c, raw.plays);
      match view
      case Partidas => t.PlaysTable? && |t.playRows| == |sel|
      case Jogadores => t.PlayersTable? && PlayerRollup.SumRowPartidas(t.playerRows) == PlayerRollup.Entries(sel)
      case Jogos => t.GamesTable? && GameRollup.SumRowPartidas(t.gameRows) == GameRollup.WithGame(sel)
  {
    var sel := Filtered(c, raw.plays);
    match view
    case Partidas => PlaysTable(PlayRows.PlayRows(raw, sel))
    case Jogadores =>
      PlayerRollup.PlayersTableConservation(raw.playersById, sel);
      PlayersTable(PlayerRollup.PlayersTable(raw.playersById, sel))
    case Jogos =>
      GameRollup.GamesTableConservation(raw.gamesById, sel);
      GamesTable(GameRollup.GamesTable(raw.gamesById, sel))
  }

  /** One play of 2025 lasting 45 minutes, won by player 2 against player 3,
      with no player names exported. */
  const ScenarioPlay: Play := Play(
    "2025", Some(10), None, map["durationMin" := Num(45)],
    [PlayerScore(2, true), PlayerScore(3, false)])

  const ScenarioData: Dataset := Dataset([ScenarioPlay], [], [], [])

  const Year2025: Criteria := Criteria(Some("2025"), None, None, [], Or, [], Or)

  /** Filtering by year 2025 keeps the play. */
  lemma ScenarioSelection()
    ensures Filtered(Year2025, ScenarioData.plays) == [ScenarioPlay]
  {
    var plays := ScenarioData.plays;
    assert DurationMin(ScenarioPlay.durations) == Some(45);
    assert Matches(Year2025, ScenarioPlay);
    Seqs.SelectAllKept(plays, Mask(Year2025, plays));
  }

  /** Player 2 gets 1 play, 1 win, game 10 and 45 minutes; player 3 the same
      without the win; player 2 is listed first. */
  lemma ScenarioRollup()
    ensures PlayerRollup.Aggregate(map[], [ScenarioPlay]) == PlayerRollup.PlayerAgg([2, 3], map[
      2 := PlayerRollup.PlayerStats("Player 2", 1, 1, {10}, 45),
      3 := PlayerRollup.PlayerStats("Player 3", 1, 0, {10}, 45)])
  {
    var players: map<int, Record<int>> := map[];
    assert DurationMin(ScenarioPlay.durations) == Some(45);
    assert PlayerLabel(players, 2) == "Player 2";
    assert PlayerLabel(players, 3) == "Player 3";
    var scores := ScenarioPlay.playerScores;
    var s2 := PlayerRollup.PlayerStats("Player 2", 1, 1, {10}, 45);
    var s3 := PlayerRollup.PlayerStats("Player 3", 1, 0, {10}, 45);
    var e := PlayerRollup.EmptyAgg;
    assert PlayerRollup.AddScores(players, e, Some(10), Some(45), []) == e;
    var b1 := PlayerRollup.AddScore(players, e, Some(10), Some(45), scores[0]);
    assert b1.order == [] + [2] == [2];
    assert {} + {10} == {10};
    assert b1.stats[2] == s2;
    assert b1.stats == map[2 := s2];
    assert scores[..1][..0] == [];
    assert PlayerRollup.AddScores(players, e, Some(10), Some(45), scores[..1]) == b1;
    var b2 := PlayerRollup.AddScore(players, b1, Some(10), Some(45), scores[1]);
    assert b2.order == [2] + [3] == [2, 3];
    assert b2.stats[3] == s3;
    assert b2.stats == map[2 := s2, 3 := s3];
    assert [ScenarioPlay][..0] == [];
    assert scores[..|scores| - 1] == scores[..1];
    assert PlayerRollup.Aggregate(players, [ScenarioPlay][..0]) == e;
    assert PlayerRollup.AddScores(players, e, Some(10), Some(45), scores) == b2;
  }

  /** End to end: the players table for year 2025 lists player 2 with 1 play,
      1 win, 100% and 45/60 h, then player 3 with 1 play, 0 wins and 0%. */
  lemma YearScenario()
    ensures RenderView(Load(ScenarioData), Year2025, Jogadores) == PlayersTable([
      PlayerRollup.PlayerRow("Player 2", 1, 1, Rational(45, 60), 1, Percent(Rational(100, 1))),
      PlayerRollup.PlayerRow("Player 3", 1, 1, Rational(45, 60), 0, Percent(Rational(0, 1)))])
  {
    ScenarioSelection();
    ScenarioRollup();
    var raw := Load(ScenarioData);
    assert raw.playersById == map[];
    var agg := PlayerRollup.Aggregate(map[], [ScenarioPlay]);
    assert agg.order[..1] == [2] && agg.order[..1][..0] == [];
  }
}
