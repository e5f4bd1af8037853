/** The per-play view (`renderPartidas`): one display row per selected play. */
module PlayRows {
  import opened Wrappers
  import opened Model
  import opened Seqs
  import opened Index
  import opened Duration

  /** A row of the plays table. The players and winners are the label lists
      that the page joins with ", ". */
  datatype PlayRow = PlayRow(
    ano: string,
    jogo: string,
    local: string,
    tempo: Option<int>,
    jogadores: seq<string>,
    vencedores: seq<string>)

  function WinnerMask(scores: seq<PlayerScore>): (keep: seq<bool>)
    ensures |keep| == |scores|
    ensures forall i :: 0 <= i < |scores| ==> keep[i] == scores[i].winner
  {
    seq(|scores|, i requires 0 <= i < |scores| => scores[i].winner)
  }

  /** `playerScores.filter(ps => ps.winner)`. */
  function Winners(scores: seq<PlayerScore>): seq<PlayerScore> {
    Select(scores, WinnerMask(scores))
  }

  /** Positions of the winners among the participants. */
  function WinnerIndices(scores: seq<PlayerScore>): seq<int> {
    SelectedIndices(WinnerMask(scores))
  }

  /** The winners are exactly the participants flagged `winner`, kept in
      participant order; so there are never more winners than participants. */
  lemma WinnersAreOrderedSelection(scores: seq<PlayerScore>)
    ensures Embeds(Winners(scores), scores, WinnerIndices(scores))
    ensures forall j :: 0 <= j < |scores| ==> (scores[j].winner <==> j in WinnerIndices(scores))
    ensures forall k :: 0 <= k < |Winners(scores)| ==> Winners(scores)[k].winner
    ensures |Winners(scores)| <= |scores|
  {
    SelectEmbeds(scores, WinnerMask(scores));
  }

  /** Each participant's player label, in participant order. */
  function Labels(players: map<int, Record<int>>, scores: seq<PlayerScore>): (names: seq<string>)
    ensures |names| == |scores|
    ensures forall i :: 0 <= i < |scores| ==> names[i] == PlayerLabel(players, scores[i].playerRefId)
  {
    seq(|scores|, i requires 0 <= i < |scores| => PlayerLabel(players, scores[i].playerRefId))
  }

  function RowOf(raw: Raw, p: Play): PlayRow {
    PlayRow(
      p.year,
      GameLabel(raw.gamesById, p.gameRefId),
      LocationLabel(raw.locationsById, p.locationRefId),
      DurationMin(p.durations),
      Labels(raw.playersById, p.playerScores),
      Labels(raw.playersById, Winners(p.playerScores)))
  }

  /** `filteredPlays.map(...)`: row `i` describes play `i` with its year,
      its game and location labels, its resolved duration (unknown stays
      unknown), the label of each participant in entry order, and the labels
      of the winners in entry order. */
  function PlayRows(raw: Raw, plays: seq<Play>): (rows: seq<PlayRow>)
    ensures |rows| == |plays|
    ensures forall i :: 0 <= i < |plays| ==>
      && rows[i].ano == plays[i].year
      && rows[i].jogo == GameLabel(raw.gamesById, plays[i].gameRefId)
      && rows[i].local == LocationLabel(raw.locationsById, plays[i].locationRefId)
      && rows[i].tempo == DurationMin(plays[i].durations)
      && rows[i].jogadores == Labels(raw.playersById, plays[i].playerScores)
      && rows[i].vencedores == Labels(raw.playersById, Winners(plays[i].playerScores))
  {
    seq(|plays|, i requires 0 <= i < |plays| => RowOf(raw, plays[i]))
  }

  /** The winners of row `i` are the labels of play `i`'s winning
      participants: an order-preserving subsequence of its participant
      labels, taken at exactly the flagged positions. */
  lemma PlayRowWinners(raw: Raw, plays: seq<Play>, i: int)
    requires 0 <= i < |plays|
    ensures var row, scores := PlayRows(raw, plays)[i], plays[i].playerScores;
      && Embeds(row.vencedores, row.jogadores, WinnerIndices(scores))
      && (forall j :: 0 <= j < |scores| ==> (scores[j].winner <==> j in WinnerIndices(scores)))
  {
    WinnersAreOrderedSelection(plays[i].playerScores);
  }
}
