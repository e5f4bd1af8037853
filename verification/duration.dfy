/** The duration resolver: a play's length in whole minutes, probed from an
    ordered list of optional fields, or `None` ("unknown", never zero). */
module Duration {
  import opened Wrappers
  import opened Model

  const CanonicalKey: string := "durationMin"
  /** Alternate minute-valued field names, in priority order. */
  const MinuteKeys: seq<string> := ["durationMinutes", "playTimeMinutes", "playTime", "length", "duration", "time"]
  /** Second-valued field names, in priority order. */
  const SecondKeys: seq<string> := ["durationSec", "durationSeconds", "playTimeSeconds", "lengthSeconds"]

  /** The number a field holds, when it is present, not `null`, not the empty
      string, and `Number(...)` of it is not `NaN`. */
  function Probe(fields: Fields, k: string): Option<int> {
    if k in fields && fields[k].Num? then Some(fields[k].n) else None
  }

  /** `keys[i]` is the first key of the list whose field parses. */
  ghost predicate FirstAt(fields: Fields, keys: seq<string>, i: int) {
    && 0 <= i < |keys|
    && Probe(fields, keys[i]).Some?
    && forall j :: 0 <= j < i ==> Probe(fields, keys[j]).None?
  }

  ghost predicate NoneParses(fields: Fields, keys: seq<string>) {
    forall j :: 0 <= j < |keys| ==> Probe(fields, keys[j]).None?
  }

  /** Position of the first key whose field parses, or `|keys|`. */
  function FirstParsed(fields: Fields, keys: seq<string>): (i: nat)
    ensures i <= |keys|
    ensures i == |keys| <==> NoneParses(fields, keys)
    ensures i < |keys| ==> FirstAt(fields, keys, i)
  {
    if |keys| == 0 then 0
    else if Probe(fields, keys[0]).Some? then 0
    else
      var i := 1 + FirstParsed(fields, keys[1..]);
      assert forall j :: 1 <= j < |keys| ==> keys[j] == keys[1..][j - 1];
      i
  }

  /** `Math.round(v / 60)` for an integer `v`: the nearest whole minute, an
      exact half rounding up (towards positive infinity). */
  function SecondsToMinutes(v: int): (m: int)
    ensures 60 * m - 30 <= v < 60 * m + 30
  {
    (v + 30) / 60
  }

  /** The resolved duration: the canonical field, else the first parseable
      minute field, else the first parseable second field converted to
      minutes, else unknown. */
  function DurationMin(fields: Fields): (d: Option<int>)
    ensures Probe(fields, CanonicalKey).Some? ==> d == Probe(fields, CanonicalKey)
    ensures Probe(fields, CanonicalKey).None? ==>
      forall i :: FirstAt(fields, MinuteKeys, i) ==> d == Probe(fields, MinuteKeys[i])
    ensures Probe(fields, CanonicalKey).None? && NoneParses(fields, MinuteKeys) ==>
      forall i :: FirstAt(fields, SecondKeys, i) ==>
        d == Some(SecondsToMinutes(Probe(fields, SecondKeys[i]).value))
    ensures d.None? <==>
      Probe(fields, CanonicalKey).None? && NoneParses(fields, MinuteKeys) && NoneParses(fields, SecondKeys)
  {
    if Probe(fields, CanonicalKey).Some? then Probe(fields, CanonicalKey)
    else
      var i := FirstParsed(fields, MinuteKeys);
      if i < |MinuteKeys| then Probe(fields, MinuteKeys[i])
      else
        var j := FirstParsed(fields, SecondKeys);
        if j < |SecondKeys| then Some(SecondsToMinutes(Probe(fields, SecondKeys[j]).value))
        else None
  }

  /** Known minutes, or nothing added for an unknown duration. */
  function MinutesOrZero(d: Option<int>): int {
    d.GetOr(0)
  }

  /** A play with none of the probed fields has unknown duration, not zero. */
  lemma NoFieldsIsUnknown()
    ensures DurationMin(map[]) == None
  {
  }

  /** A seconds-only play of 90 s resolves to 2 minutes: 1.5 rounds up. */
  lemma NinetySecondsIsTwoMinutes()
    ensures DurationMin(map["durationSec" := Num(90)]) == Some(2)
  {
    assert FirstAt(map["durationSec" := Num(90)], SecondKeys, 0);
  }

  /** A blank canonical field falls through to the first parseable minute
      key in list order, ahead of later ones. */
  lemma BlankCanonicalFallsThrough()
    ensures DurationMin(map["durationMin" := Blank, "playTime" := Num(40), "time" := Num(99)]) == Some(40)
  {
    assert FirstAt(map["durationMin" := Blank, "playTime" := Num(40), "time" := Num(99)], MinuteKeys, 2);
  }

  /** A non-numeric canonical field and -90 s give -1 minute: the half
      rounds toward positive infinity. */
  lemma NegativeSecondsRoundUp()
    ensures DurationMin(map["durationMin" := NotNumeric, "lengthSeconds" := Num(-90)]) == Some(-1)
  {
    var f := map["durationMin" := NotNumeric, "lengthSeconds" := Num(-90)];
    assert NoneParses(f, MinuteKeys);
    assert FirstAt(f, SecondKeys, 3);
  }
}
