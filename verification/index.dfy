/** Lookup tables from id to record, and the display labels that fall back
    to a synthesized name when a reference points at nothing. */
module Index {
  import opened Wrappers
  import opened Model

  predicate HasId<K(==)>(r: Record<K>, k: K) {
    r.Entity? && r.id == Some(k)
  }

  /** A `Map` filled by `set(o.id, o)` for every object with a defined id, in
      array order: a later record with the same id replaces an earlier one. */
  function IndexById<K(==)>(arr: seq<Record<K>>): (m: map<K, Record<K>>)
    ensures forall k :: k in m ==> HasId(m[k], k)
  {
    if |arr| == 0 then map[]
    else
      var m := IndexById(arr[..|arr| - 1]);
      var o := arr[|arr| - 1];
      if o.Entity? && o.id.Some? then m[o.id.value := o] else m
  }

  /** The position of the last record carrying id `k`, or -1 when none does. */
  function LastWithId<K(==)>(arr: seq<Record<K>>, k: K): (i: int)
    ensures -1 <= i < |arr|
    ensures i >= 0 ==> HasId(arr[i], k)
    ensures forall j :: i < j < |arr| ==> !HasId(arr[j], k)
  {
    if |arr| == 0 then -1
    else if HasId(arr[|arr| - 1], k) then |arr| - 1
    else LastWithId(arr[..|arr| - 1], k)
  }

  /** `indexById` holds exactly the ids some object defines, and each maps to
      the last object that defines it. */
  lemma {:induction false} IndexByIdLastWins<K>(arr: seq<Record<K>>, k: K)
    ensures k in IndexById(arr) <==> exists i :: 0 <= i < |arr| && HasId(arr[i], k)
    ensures k in IndexById(arr) <==> LastWithId(arr, k) >= 0
    ensures k in IndexById(arr) ==> IndexById(arr)[k] == arr[LastWithId(arr, k)]
  {
    if |arr| > 0 {
      var n := |arr| - 1;
      IndexByIdLastWins(arr[..n], k);
      if !HasId(arr[n], k) {
        if exists i :: 0 <= i < |arr| && HasId(arr[i], k) {
          var i :| 0 <= i < |arr| && HasId(arr[i], k);
          assert arr[..n][i] == arr[i];
        }
      }
    }
  }

  /** The record's name when `id` is indexed and the name is present and
      non-empty (`index.get(id)?.name` is truthy). */
  function NameOf<K(==)>(index: map<K, Record<K>>, id: K): Option<string> {
    if id in index && index[id].Entity? && index[id].name.Some? && index[id].name.value != ""
    then Some(index[id].name.value)
    else None
  }

  function DigitChar(d: nat): char
    requires d < 10
  {
    "0123456789"[d]
  }

  /** Decimal rendering of a natural number, as a template literal prints it. */
  function NatToString(n: nat): (s: string)
    ensures |s| >= 1
    ensures forall i :: 0 <= i < |s| ==> '0' <= s[i] <= '9'
  {
    if n < 10 then [DigitChar(n)] else NatToString(n / 10) + [DigitChar(n % 10)]
  }

  function IntToString(i: int): string {
    if i < 0 then "-" + NatToString(-i) else NatToString(i)
  }

  /** `playersById.get(id)?.name || "Player <id>"`. */
  function PlayerLabel(players: map<int, Record<int>>, id: int): string {
    NameOf(players, id).GetOr("Player " + IntToString(id))
  }

  /** `gamesById.get(id)?.name || "Game <id>"`; a missing reference prints as
      `null`. */
  function GameLabel(games: map<int, Record<int>>, id: Option<int>): string {
    match id
    case None => "Game null"
    case Some(g) => NameOf(games, g).GetOr("Game " + IntToString(g))
  }

  /** `locationsById.get(id)?.name || (id ?? "")`. */
  function LocationLabel(locations: map<string, Record<string>>, id: Option<string>): string {
    match id
    case None => ""
    case Some(l) => NameOf(locations, l).GetOr(l)
  }

  /** The player label shown for `id` is the name of the last player record
      with that id when that name is non-empty, and `Player <id>` otherwise:
      an unknown reference never fails. */
  lemma PlayerLabelFromArray(arr: seq<Record<int>>, id: int)
    ensures var i := LastWithId(arr, id);
      PlayerLabel(IndexById(arr), id) ==
        if i >= 0 && arr[i].name.Some? && arr[i].name.value != "" then arr[i].name.value
        else "Player " + IntToString(id)
  {
    IndexByIdLastWins(arr, id);
  }

  /** The game label of a play is the name of the last game record with its
      id when that name is non-empty, `Game <id>` for any other id, and
      `Game null` for a play without a game reference. */
  lemma GameLabelFromArray(arr: seq<Record<int>>, id: Option<int>)
    ensures id.None? ==> GameLabel(IndexById(arr), id) == "Game null"
    ensures id.Some? ==> var i := LastWithId(arr, id.value);
      GameLabel(IndexById(arr), id) ==
        if i >= 0 && arr[i].name.Some? && arr[i].name.value != "" then arr[i].name.value
        else "Game " + IntToString(id.value)
  {
    if id.Some? {
      IndexByIdLastWins(arr, id.value);
    }
  }

  /** The location label of a play is empty without a location reference, the
      name of the last location record with its id when that name is
      non-empty, and the raw id otherwise. */
  lemma LocationLabelFromArray(arr: seq<Record<string>>, id: Option<string>)
    ensures id.None? ==> LocationLabel(IndexById(arr), id) == ""
    ensures id.Some? ==> var i := LastWithId(arr, id.value);
      LocationLabel(IndexById(arr), id) ==
        if i >= 0 && arr[i].name.Some? && arr[i].name.value != "" then arr[i].name.value
        else id.value
  {
    if id.Some? {
      IndexByIdLastWins(arr, id.value);
    }
  }

  /** The lookup tables built once at load time. */
  datatype Raw = Raw(
    plays: seq<Play>,
    playersById: map<int, Record<int>>,
    gamesById: map<int, Record<int>>,
    locationsById: map<string, Record<string>>)

  function Load(d: Dataset): (raw: Raw)
    ensures raw.plays == d.plays
    ensures forall k :: k in raw.playersById <==> exists i :: 0 <= i < |d.players| && HasId(d.players[i], k)
    ensures forall k :: k in raw.gamesById <==> exists i :: 0 <= i < |d.games| && HasId(d.games[i], k)
    ensures forall k :: k in raw.locationsById <==> exists i :: 0 <= i < |d.locations| && HasId(d.locations[i], k)
  {
    var raw := Raw(d.plays, IndexById(d.players), IndexById(d.games), IndexById(d.locations));
    assert forall k :: k in raw.playersById <==> exists i :: 0 <= i < |d.players| && HasId(d.players[i], k) by {
      forall k { IndexByIdLastWins(d.players, k); }
    }
    assert forall k :: k in raw.gamesById <==> exists i :: 0 <= i < |d.games| && HasId(d.games[i], k) by {
      forall k { IndexByIdLastWins(d.games, k); }
    }
    assert forall k :: k in raw.locationsById <==> exists i :: 0 <= i < |d.locations| && HasId(d.locations[i], k) by {
      forall k { IndexByIdLastWins(d.locations, k); }
    }
    raw
  }
}
