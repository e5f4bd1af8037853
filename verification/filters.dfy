/** The play selector: a filter record chosen in the page's controls, the
    predicate it defines on one play, and the order-preserving selection of
    the plays that satisfy it. */
module Filters {
  import opened Wrappers
  import opened Model
  import opened Seqs
  import opened Duration

  /** How a multi-valued filter combines its selected values. */
  datatype Combinator = Or | And

  /** The filter controls as read from the page: the selected year (already
      `|| null`-normalised), the minute bounds, and the selected locations and
      players in option order with their combinators. */
  datatype Criteria = Criteria(
    year: Option<string>,
    minT: Option<int>,
    maxT: Option<int>,
    locations: seq<string>,
    locMode: Combinator,
    players: seq<int>,
    plMode: Combinator)

  /** Year dimension: a set (non-empty) year must equal the play's year. */
  function YearOk(year: Option<string>, playYear: string): (ok: bool)
    ensures year.None? ==> ok
    ensures year.Some? && year.value != "" ==> (ok <==> playYear == year.value)
  {
    if year.Some? && year.value != "" && playYear != year.value then false else true
  }

  /** Duration dimension: each set bound is inclusive, and an unknown duration
      fails as soon as either bound is set. */
  function DurationOk(minT: Option<int>, maxT: Option<int>, dur: Option<int>): (ok: bool)
    ensures minT.None? && maxT.None? ==> ok
    ensures (minT.Some? || maxT.Some?) && dur.None? ==> !ok
    ensures dur.Some? ==>
      (ok <==> (minT.None? || minT.value <= dur.value) && (maxT.None? || dur.value <= maxT.value))
  {
    if minT.Some? && (dur.None? || dur.value < minT.value) then false
    else if maxT.Some? && (dur.None? || dur.value > maxT.value) then false
    else true
  }

  /** The location id as the filter compares it: `String(locationRefId ?? "")`. */
  function LocId(loc: Option<string>): string {
    loc.GetOr("")
  }

  /** Location dimension. A play has one location, so AND is satisfiable only
      by a selection of exactly that one location. */
  function LocationOk(sel: seq<string>, mode: Combinator, loc: Option<string>): (ok: bool)
    ensures |sel| == 0 ==> ok
    ensures mode == Or ==> (ok <==> |sel| == 0 || LocId(loc) in sel)
    ensures mode == And && |sel| >= 2 ==> !ok
    ensures mode == And && |sel| == 1 ==> (ok <==> LocId(loc) == sel[0])
  {
    if |sel| == 0 then true
    else if mode == Or then LocId(loc) in sel
    else |sel| == 1 && sel[0] == LocId(loc)
  }

  /** The early-exit loop of the OR branch. */
  function AnySelected(sel: seq<int>, ids: set<int>): (found: bool)
    ensures found <==> exists i :: 0 <= i < |sel| && sel[i] in ids
  {
    if |sel| == 0 then false
    else if sel[0] in ids then true
    else
      assert forall i :: 1 <= i < |sel| ==> sel[i] == sel[1..][i - 1];
      AnySelected(sel[1..], ids)
  }

  /** The early-exit loop of the AND branch. */
  function AllSelected(sel: seq<int>, ids: set<int>): (all: bool)
    ensures all <==> forall i :: 0 <= i < |sel| ==> sel[i] in ids
  {
    if |sel| == 0 then true
    else if sel[0] !in ids then false
    else
      assert forall i :: 1 <= i < |sel| ==> sel[i] == sel[1..][i - 1];
      AllSelected(sel[1..], ids)
  }

  /** Player dimension: OR needs some selected player among the
      participants, AND needs every selected player among them. */
  function PlayersOk(sel: seq<int>, mode: Combinator, scores: seq<PlayerScore>): (ok: bool)
    ensures |sel| == 0 ==> ok
    ensures mode == Or && |sel| > 0 ==>
      (ok <==> exists i, j :: 0 <= i < |sel| && 0 <= j < |scores| && sel[i] == scores[j].playerRefId)
    ensures mode == And ==>
      (ok <==> forall i :: 0 <= i < |sel| ==> exists j :: 0 <= j < |scores| && sel[i] == scores[j].playerRefId)
  {
    if |sel| == 0 then true
    else
      var ids := ParticipantIds(scores);
      if mode == Or then AnySelected(sel, ids) else AllSelected(sel, ids)
  }

  /** The predicate `applyFilters` passes to `raw.plays.filter`. */
  function Matches(c: Criteria, p: Play): bool {
    && YearOk(c.year, p.year)
    && DurationOk(c.minT, c.maxT, DurationMin(p.durations))
    && LocationOk(c.locations, c.locMode, p.locationRefId)
    && PlayersOk(c.players, c.plMode, p.playerScores)
  }

  function Mask(c: Criteria, plays: seq<Play>): (keep: seq<bool>)
    ensures |keep| == |plays|
    ensures forall i :: 0 <= i < |plays| ==> keep[i] == Matches(c, plays[i])
  {
    seq(|plays|, i requires 0 <= i < |plays| => Matches(c, plays[i]))
  }

  /** `filteredPlays`: the plays satisfying every dimension, in dataset order. */
  function Filtered(c: Criteria, plays: seq<Play>): (r: seq<Play>)
    ensures |r| <= |plays|
    ensures forall p :: p in r <==> p in plays && Matches(c, p)
  {
    SelectMembers(plays, Mask(c, plays));
    Select(plays, Mask(c, plays))
  }

  /** Positions of the selected plays in the dataset. */
  function MatchingIndices(c: Criteria, plays: seq<Play>): seq<int> {
    SelectedIndices(Mask(c, plays))
  }

  /** The selection is an order-preserving subsequence of the plays, and the
      position of a play is kept iff the play satisfies all four dimensions. */
  lemma FilteredIsOrderedSelection(c: Criteria, plays: seq<Play>)
    ensures Embeds(Filtered(c, plays), plays, MatchingIndices(c, plays))
    ensures forall i :: 0 <= i < |plays| ==> (Matches(c, plays[i]) <==> i in MatchingIndices(c, plays))
  {
    SelectEmbeds(plays, Mask(c, plays));
  }

  /** `applyFilters` as a loop: the selected plays together with the positions
      they were taken from. */
  method ApplyFilters(c: Criteria, plays: seq<Play>) returns (filtered: seq<Play>, kept: seq<int>)
    ensures filtered == Filtered(c, plays)
    ensures Embeds(filtered, plays, kept)
    ensures forall i :: 0 <= i < |plays| ==> (Matches(c, plays[i]) <==> i in kept)
  {
    ghost var keep := Mask(c, plays);
    filtered, kept := [], [];
    var i := 0;
    while i < |plays|
      invariant 0 <= i <= |plays|
      invariant filtered == Select(plays[..i], keep[..i])
      invariant kept == SelectedIndices(keep[..i])
    {
      assert plays[..i + 1][..i] == plays[..i];
      assert keep[..i + 1][..i] == keep[..i];
      assert keep[i] == Matches(c, plays[i]);
      if Matches(c, plays[i]) {
        filtered := filtered + [plays[i]];
        kept := kept + [i];
      }
      i := i + 1;
    }
    assert plays[..i] == plays && keep[..i] == keep;
    FilteredIsOrderedSelection(c, plays);
  }

  /** With a year set, every selected play is from that year. */
  lemma YearFilterSelectsYear(c: Criteria, plays: seq<Play>, p: Play)
    requires c.year.Some? && c.year.value != ""
    requires p in Filtered(c, plays)
    ensures p.year == c.year.value
  {
  }

  /** An unbounded duration filter keeps unknown-duration plays; a bounded one
      never does. */
  lemma UnknownDurationOnlyPassesUnbounded(c: Criteria, p: Play)
    requires DurationMin(p.durations).None?
    ensures Matches(c, p) ==> c.minT.None? && c.maxT.None?
  {
  }

  /** Location AND with two or more selected locations selects nothing, for
      every dataset. */
  lemma LocationAndOfSeveralSelectsNothing(c: Criteria, plays: seq<Play>)
    requires c.locMode == And && |c.locations| >= 2
    ensures Filtered(c, plays) == []
  {
    SelectNoneKept(plays, Mask(c, plays));
  }

  /** Two criteria that accept the same plays select the same sequence. */
  lemma SameVerdictsSameSelection(c1: Criteria, c2: Criteria, plays: seq<Play>)
    requires forall i :: 0 <= i < |plays| ==> Matches(c1, plays[i]) == Matches(c2, plays[i])
    ensures Filtered(c1, plays) == Filtered(c2, plays)
  {
    assert Mask(c1, plays) == Mask(c2, plays);
  }

  /** Location AND with exactly one selected location is the same filter as
      location OR. */
  lemma LocationAndOfOneIsOr(c: Criteria, plays: seq<Play>)
    requires |c.locations| == 1
    ensures Filtered(c.(locMode := And), plays) == Filtered(c.(locMode := Or), plays)
  {
    SameVerdictsSameSelection(c.(locMode := And), c.(locMode := Or), plays);
  }

  /** Player AND never selects a play that player OR would reject. */
  lemma PlayerAndNarrowsOr(c: Criteria, plays: seq<Play>)
    requires |c.players| > 0
    ensures forall p :: p in Filtered(c.(plMode := And), plays) ==> p in Filtered(c.(plMode := Or), plays)
  {
    forall p | p in Filtered(c.(plMode := And), plays)
      ensures p in Filtered(c.(plMode := Or), plays)
    {
      var sel, scores := c.players, p.playerScores;
      assert PlayersOk(sel, And, scores);
      var j :| 0 <= j < |scores| && sel[0] == scores[j].playerRefId;
      assert PlayersOk(sel, Or, scores);
    }
  }

  /** The cleared form (no year, no bounds, no selections) selects every play. */
  lemma ClearedCriteriaSelectsAll(c: Criteria, plays: seq<Play>)
    requires c.year.None? && c.minT.None? && c.maxT.None?
    requires |c.locations| == 0 && |c.players| == 0
    ensures Filtered(c, plays) == plays
  {
    SelectAllKept(plays, Mask(c, plays));
  }
}
