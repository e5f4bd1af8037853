/** The records of one exported play history, as the engine sees them after
    the JSON load. Player and game ids are numbers; location ids are kept as
    the strings the location filter compares. */
module Model {
  import opened Wrappers

  /** What `Number(v)` makes of an optional field that is present: a JSON
      `null`, the empty string, a value that coerces to an (integer) number,
      or one that coerces to `NaN`. A field missing from the record is
      `undefined` and is absent from the field map. */
  datatype FieldValue = Null | Blank | Num(n: int) | NotNumeric

  /** The duration-like fields of a play, by field name. */
  type Fields = map<string, FieldValue>

  /** One participant's result: the player reference and the winner flag. */
  datatype PlayerScore = PlayerScore(playerRefId: int, winner: bool)

  /** A play. `year` is the calendar year of `playDate` as a string, or the
      empty string when the date is missing or unparseable. */
  datatype Play = Play(
    year: string,
    gameRefId: Option<int>,
    locationRefId: Option<string>,
    durations: Fields,
    playerScores: seq<PlayerScore>)

  /** An element of one of the `players`, `games` or `locations` arrays: a
      JSON `null` (or other falsy value), or an object with an optional `id`
      and an optional display `name`. */
  datatype Record<K> = NullRecord | Entity(id: Option<K>, name: Option<string>)

  /** The loaded JSON document; a missing top-level array is empty. */
  datatype Dataset = Dataset(
    plays: seq<Play>,
    players: seq<Record<int>>,
    games: seq<Record<int>>,
    locations: seq<Record<string>>)

  /** The set of player ids taking part in a play
      (`new Set(playerScores.map(ps => ps.playerRefId))`). */
  function ParticipantIds(scores: seq<PlayerScore>): (ids: set<int>)
    ensures forall id :: id in ids <==> exists j :: 0 <= j < |scores| && scores[j].playerRefId == id
    ensures |ids| <= |scores|
  {
    if |scores| == 0 then {}
    else
      var n := |scores| - 1;
      var ids := ParticipantIds(scores[..n]) + {scores[n].playerRefId};
      assert forall j :: 0 <= j < n ==> scores[..n][j] == scores[j];
      ids
  }
}
