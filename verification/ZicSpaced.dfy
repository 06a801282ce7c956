/** zic.c, outzone: a zone of two lines that is spaced, with its run. */
module ZicSpaced {
  import opened Machine
  import opened ZicTime
  import opened ZicTables
  import opened ZicOutzone
  import opened ZicRuns
  import opened ZicSound
  import opened ZicZones
  import opened ZicOvertaken

  /** Standard time again from the second day of 1970 on. */
  function BackRule(): Rule {
    Rule("D", 1970, 1970, {1970}, 0, Dom, 2, 0, 0, false, 0, "")
  }

  function LastLine(): (z: Zone)
    ensures RuleX(z, 0)
  {
    Zone(0, 0, "X", [BackRule()], 0, false, 0)
  }

  /** An hour is saved from New Year's Eve 1969 on; from UNTIL on the second line goes back to standard time. */
  function Lines(): (zs: seq<Zone>)
    ensures ZonesOk(zs)
  {
    [FirstLine(), LastLine()]
  }

  const AFTER_BACK := Tables([-86400, 82800], [0, 1], [3600, 0], [true, false], [0, 0], "X\0")

  lemma BackGrows()
    ensures OnlyX(AFTER_EVE) && WithType(AFTER_EVE, 82800, 0, false) == AFTER_BACK
  {
  }

  lemma BackTime()
    ensures RuleTime(BackRule(), 1970) == Ok(86400)
  {
    assert DayNumber(1970, 0, 2) == 1;
  }

  lemma OneTime(z: Zone, year: int, a: int)
    requires ZoneOk(z) && |z.rules| == 1 && IsMarked(z.rules[0], year) && RuleTime(z.rules[0], year) == Ok(a)
    ensures MarkTimes(z, year, 0, [0]) == Ok([a]) && Marks(z, year) == [true]
  {
    assert [0][0 := a] == [a];
    assert MarkTimes(z, year, 1, [a]) == Ok([a]);
  }

  lemma BackTimes()
    ensures MarkTimes(LastLine(), 1970, 0, [0]) == Ok([86400]) && Marks(LastLine(), 1970) == [true]
  {
    BackTime();
    OneTime(LastLine(), 1970, 86400);
  }

  lemma BackPick()
    ensures Pick(LastLine(), [86400], [true], 0, 3600, 0, None) == Ok(Some((0, 82800)))
  {
    assert Pick(LastLine(), [86400], [true], 0, 3600, 1, Some((0, 82800))) == Ok(Some((0, 82800)));
  }

  lemma BackYear(st: State, p: Place) returns (s: State)
    requires At(st, 3600, true, 1000, AFTER_EVE) && p == Place(1, LastLine(), false, 1970)
    ensures RunYear(st, p, [86400], [true]) == Ok(s) && At(s, 0, false, 1000, AFTER_BACK)
  {
    BackGrows();
    BackPick();
    assert [true][0 := false] == [false];
    s := TakesX(st, p, [86400], [true], [false], 0, 82800, 1000, true, AFTER_EVE, AFTER_BACK);
    YearOver(s, p, [86400], [false]);
  }

  lemma LastLineRuns(st: State) returns (s: State)
    requires At(st, 3600, true, 1000, AFTER_EVE)
    ensures RunYears(st, Place(1, LastLine(), false, MIN_YEAR), [0]) == Ok(s) && At(s, 0, false, 1000, AFTER_BACK)
  {
    var p := Place(1, LastLine(), false, MIN_YEAR);
    QuietYears(st, p, [0], 1970);
    var q := p.(year := 1970);
    BackTimes();
    s := BackYear(st, q);
    BusyYear(st, q, [0], [86400], s);
    QuietYears(s, NextYear(q), [86400], MAX_YEAR + 1);
  }

  lemma LastEnds(stray: nat, n: State) returns (s: State)
    requires At(n, 3600, false, 1000, AFTER_EVE)
    ensures StepLine(Lines(), stray, n, 1) == Ok(s) && At(s, 0, false, 1000, AFTER_BACK)
  {
    var zs := Lines();
    assert NoTimes(zs[1]) == [0];
    s := LastLineRuns(LineStart(n, 1));
    assert RunLine(n, zs, 1) == Ok(s);
  }

  lemma LinesAreSpaced()
    ensures SpacedZone(Lines(), 0, 3600)
  {
    var zs := Lines();
    EveTimes();
    assert RuleTime(EveRule(), 1969) == Ok(-86400);
    assert forall a: nat, y: int :: FiresIn(zs[0], a, y) ==> a == 0 && y == 1969;
    assert forall a: nat, y: int :: FiresIn(zs[1], a, y) ==> a == 0 && y == 1970;
  }

  /** Such a zone is spaced and its run goes through, with the two transitions in order. */
  lemma SpacedExample(stray: nat) returns (zs: seq<Zone>)
    ensures ZonesOk(zs) && |zs| == 2 && SpacedZone(zs, 0, 3600)
    ensures RunZone(zs, stray).Ok? && RunZone(zs, stray).value.tables == AFTER_BACK
  {
    zs := Lines();
    LinesAreSpaced();
    var n := FirstStarts(zs, stray);
    var s := LastEnds(stray, n);
    TwoSteps(zs, stray, n, s);
  }
}
