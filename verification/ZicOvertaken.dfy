/** zic.c, outzone: a zone of two lines whose second starts at 1000 and then gets a transition at -2590, because
    the local times of its rules are closer than its saved hours. */
module ZicOvertaken {
  import opened Machine
  import opened ZicTime
  import opened ZicTables
  import opened ZicOutzone
  import opened ZicSound

  // ---------------------------------------------------------------- years without rules

  predicate Quiet(z: Zone, year: int) {
    forall j :: 0 <= j < |z.rules| ==> !IsMarked(z.rules[j], year)
  }

  lemma {:induction false} MarksNothing(z: Zone, year: int, j: nat, times: seq<int>)
    requires ZoneOk(z) && TimesOk(z, times) && j <= |z.rules| && Quiet(z, year)
    ensures MarkTimes(z, year, j, times) == Ok(times)
    decreases |z.rules| - j
  {
    if j < |z.rules| {
      MarksNothing(z, year, j + 1, times);
    }
  }

  lemma {:induction false} PicksNothing(z: Zone, times: seq<int>, todo: seq<bool>, gmtoff: int, stdoff: int, j: nat)
    requires TimesOk(z, times) && |todo| == |times| && j <= |todo|
    requires -SECS_PER_DAY < gmtoff < SECS_PER_DAY && -SECS_PER_DAY < stdoff < SECS_PER_DAY
    requires forall k :: 0 <= k < |todo| ==> !todo[k]
    ensures Pick(z, times, todo, gmtoff, stdoff, j, None) == Ok(None)
    decreases |todo| - j
  {
    if j < |todo| {
      PicksNothing(z, times, todo, gmtoff, stdoff, j + 1);
    }
  }

  lemma YearOver(st: State, p: Place, times: seq<int>, todo: seq<bool>)
    requires StateOk(st) && ZoneOk(p.z) && TimesOk(p.z, times) && |todo| == |times| && Until(st, p).Ok?
    requires forall k :: 0 <= k < |todo| ==> !todo[k]
    ensures RunYear(st, p, times, todo) == Ok(st)
  {
    PicksNothing(p.z, times, todo, st.gmtoff, st.stdoff, 0);
  }

  lemma QuietYear(st: State, p: Place, times: seq<int>)
    requires StateOk(st) && ZoneOk(p.z) && TimesOk(p.z, times) && Until(st, p).Ok? && Quiet(p.z, p.year)
    ensures OneYear(st, p, times) == Ok((st, times))
  {
    MarksNothing(p.z, p.year, 0, times);
    YearOver(st, p, times, Marks(p.z, p.year));
  }

  /** Years without rules leave everything as it is. */
  lemma {:induction false} QuietYears(st: State, p: Place, times: seq<int>, year: int)
    requires StateOk(st) && ZoneOk(p.z) && TimesOk(p.z, times) && Until(st, p).Ok?
    requires p.year <= year <= MAX_YEAR + 1 && (p.useuntil ==> year <= p.z.untilHiyear + 1)
    requires forall y :: p.year <= y < year ==> Quiet(p.z, y)
    ensures RunYears(st, p, times) == RunYears(st, p.(year := year), times)
    decreases year - p.year
  {
    if p.year < year {
      QuietYear(st, p, times);
      QuietYears(st, NextYear(p), times, year);
      assert NextYear(p).(year := year) == p.(year := year);
    } else {
      assert p.(year := year) == p;
    }
  }

  lemma BusyYear(st: State, p: Place, times: seq<int>, m: seq<int>, s: State)
    requires StateOk(st) && ZoneOk(p.z) && TimesOk(p.z, times) && p.year <= MAX_YEAR
    requires p.useuntil ==> p.year <= p.z.untilHiyear
    requires MarkTimes(p.z, p.year, 0, times) == Ok(m) && TimesOk(p.z, m)
    requires RunYear(st, p, m, Marks(p.z, p.year)) == Ok(s) && StateOk(s)
    ensures RunYears(st, p, times) == RunYears(s, NextYear(p), m)
  {
  }

  // ---------------------------------------------------------------- one rule

  /** The parts of a state that the run goes by. */
  predicate At(st: State, stdoff: int, usestart: bool, starttime: int, t: Tables) {
    && StateOk(st) && st.gmtoff == 0 && st.stdoff == stdoff && st.usestart == usestart && st.starttime == starttime
    && st.start == NoStart && st.tables == t
  }

  /** Tables whose only abbreviation is X, or none. */
  predicate OnlyX(t: Tables) {
    && Shaped(t) && (t.chars == "X\0" || t == EMPTY)
    && |t.gmtoffs| < TZ_MAX_TYPES && |t.ats| < TZ_MAX_TIMES
  }

  function WithType(t: Tables, time: int, gmtoff: int, isdst: bool): Tables {
    Tables(t.ats + [time], t.types + [|t.gmtoffs|], t.gmtoffs + [gmtoff], t.isdsts + [isdst], t.abbrinds + [0], "X\0")
  }

  lemma {:induction false} FindsNone(t: Tables, k: nat, gmtoff: int, abbr: string, isdst: bool)
    requires Shaped(t) && k <= |t.gmtoffs| && gmtoff !in t.gmtoffs
    ensures FindType(t, k, gmtoff, abbr, isdst) == Ok(|t.gmtoffs|)
    decreases |t.gmtoffs| - k
  {
    if k < |t.gmtoffs| {
      FindsNone(t, k + 1, gmtoff, abbr, isdst);
    }
  }

  lemma AddsX(t: Tables, gmtoff: int, isdst: bool)
    requires OnlyX(t) && gmtoff !in t.gmtoffs
    ensures AddType(t, gmtoff, "X", isdst)
         == Ok((WithType(t, 0, gmtoff, isdst).(ats := t.ats, types := t.types), |t.gmtoffs|))
  {
    FindsNone(t, 0, gmtoff, "X", isdst);
    if t == EMPTY {
      assert FindAbbr([], 0, "X") == 0 && [] + "X" + "\0" == "X\0";
    } else {
      assert CString(t.chars, 1) == "" && CString(t.chars, 0) == "X";
      assert FindAbbr(t.chars, 0, "X") == 0;
    }
  }

  /** A transition to a new offset. */
  lemma AppliesX(t: Tables, time: int, gmtoff: int, isdst: bool)
    requires OnlyX(t) && gmtoff !in t.gmtoffs
    ensures Apply(t, Transition(time, gmtoff, "X", isdst)) == Ok(WithType(t, time, gmtoff, isdst))
  {
    AddsX(t, gmtoff, isdst);
  }

  predicate RuleX(z: Zone, k: nat) {
    ZoneOk(z) && z.gmtoff == 0 && z.format == "X" && k < |z.rules| && z.rules[k].abbrvar == ""
  }

  lemma FiresX(st: State, p: Place, k: nat, local: int, ktime: int, t: Tables, starttime: int, usestart: bool)
      returns (s: State)
    requires RuleX(p.z, k) && At(st, st.stdoff, usestart, starttime, t) && OnlyX(t)
    requires p.z.rules[k].stdoff !in t.gmtoffs && (t.ats != [] || p.z.rules[k].stdoff != 0)
    ensures Fire(st, p, k, local, ktime, Taken) == Ok(s)
    ensures At(s, p.z.rules[k].stdoff, false, starttime,
               WithType(t, ktime, p.z.rules[k].stdoff, p.z.rules[k].stdoff != 0))
  {
    var r := p.z.rules[k];
    AppliesX(t, ktime, r.stdoff, r.stdoff != 0);
    assert r in p.z.rules && Expand("X", "") == "X";
    var logged := Log(st, p, k, local, ktime, Taken);
    var begun := Open(logged, ktime).value;
    assert RuleOp(begun, p.z, r, ktime) == Transition(ktime, r.stdoff, "X", r.stdoff != 0);
    s := Fire(st, p, k, local, ktime, Taken).value;
  }

  lemma RoundX(st: State, p: Place, times: seq<int>, todo: seq<bool>, k: nat, ktime: int, s: State)
    requires StateOk(st) && ZoneOk(p.z) && TimesOk(p.z, times) && |todo| == |times| && Until(st, p).Ok?
    requires Pick(p.z, times, todo, st.gmtoff, st.stdoff, 0, None) == Ok(Some((k, ktime)))
    requires Judge(st, p, ktime, Until(st, p).value) == Taken && Fire(st, p, k, times[k], ktime, Taken) == Ok(s)
    ensures StateOk(s) && RunYear(st, p, times, todo) == RunYear(s, p, times, todo[k := false])
  {
  }

  /** A round in which rule k is taken. */
  lemma TakesX(st: State, p: Place, times: seq<int>, todo: seq<bool>, rest: seq<bool>, k: nat, ktime: int,
               starttime: int, usestart: bool, t: Tables, u: Tables) returns (s: State)
    requires RuleX(p.z, k) && At(st, st.stdoff, usestart, starttime, t) && OnlyX(t)
    requires TimesOk(p.z, times) && |todo| == |times| && k < |todo| && rest == todo[k := false] && Until(st, p).Ok?
    requires Pick(p.z, times, todo, 0, st.stdoff, 0, None) == Ok(Some((k, ktime)))
    requires Judge(st, p, ktime, Until(st, p).value) == Taken
    requires p.z.rules[k].stdoff !in t.gmtoffs && (t.ats != [] || p.z.rules[k].stdoff != 0)
    requires u == WithType(t, ktime, p.z.rules[k].stdoff, p.z.rules[k].stdoff != 0)
    ensures At(s, p.z.rules[k].stdoff, false, starttime, u)
    ensures RunYear(st, p, times, todo) == RunYear(s, p, times, rest)
  {
    s := FiresX(st, p, k, times[k], ktime, t, starttime, usestart);
    RoundX(st, p, times, todo, k, ktime, s);
  }

  // ---------------------------------------------------------------- the zone

  /** New Year's Eve 1969 saves an hour; on New Year's Day 1970, UNTIL having passed, two hours are saved at 4600
      and none ten seconds later. */
  function EveRule(): Rule {
    Rule("E", 1969, 1969, {1969}, 11, Dom, 31, 0, 0, false, 3600, "")
  }

  function DayRule(tod: int, stdoff: int): Rule {
    Rule("D", 1970, 1970, {1970}, 0, Dom, 1, 0, tod, false, stdoff, "")
  }

  function FirstLine(): (z: Zone)
    ensures RuleX(z, 0)
  {
    Zone(0, 0, "X", [EveRule()], 1970, false, 4600)
  }

  function SecondLine(): (z: Zone)
    ensures RuleX(z, 0) && RuleX(z, 1)
  {
    Zone(0, 0, "X", [DayRule(4600, 7200), DayRule(4610, 0)], 0, false, 0)
  }

  function TwoLines(): (zs: seq<Zone>)
    ensures ZonesOk(zs)
  {
    [FirstLine(), SecondLine()]
  }

  const AFTER_EVE := Tables([-86400], [0], [3600], [true], [0], "X\0")
  const AFTER_FIRST := Tables([-86400, 1000], [0, 1], [3600, 7200], [true, true], [0, 0], "X\0")
  const AFTER_SECOND := Tables([-86400, 1000, -2590], [0, 1, 2], [3600, 7200, 0], [true, true, false], [0, 0, 0], "X\0")

  lemma EveGrows()
    ensures OnlyX(EMPTY) && WithType(EMPTY, -86400, 3600, true) == AFTER_EVE
  {
  }

  lemma FirstGrows()
    ensures OnlyX(AFTER_EVE) && WithType(AFTER_EVE, 1000, 7200, true) == AFTER_FIRST
  {
  }

  lemma SecondGrows()
    ensures OnlyX(AFTER_FIRST) && WithType(AFTER_FIRST, -2590, 0, false) == AFTER_SECOND
  {
  }

  lemma EveTimes()
    ensures MarkTimes(FirstLine(), 1969, 0, [0]) == Ok([-86400]) && Marks(FirstLine(), 1969) == [true]
  {
    var z := FirstLine();
    assert DayNumber(1969, 11, 31) == -1;
    assert RuleTime(EveRule(), 1969) == Ok(-86400);
    assert [0][0 := -86400] == [-86400];
    assert MarkTimes(z, 1969, 1, [-86400]) == Ok([-86400]);
  }

  lemma DayTime(tod: int, stdoff: int)
    requires 0 <= tod < SECS_PER_DAY && -SECS_PER_DAY < stdoff < SECS_PER_DAY
    ensures RuleTime(DayRule(tod, stdoff), 1970) == Ok(tod)
  {
    assert DayNumber(1970, 0, 1) == 0;
  }

  lemma TwoTimes(z: Zone, year: int, a: int, b: int)
    requires ZoneOk(z) && |z.rules| == 2 && IsMarked(z.rules[0], year) && IsMarked(z.rules[1], year)
    requires RuleTime(z.rules[0], year) == Ok(a) && RuleTime(z.rules[1], year) == Ok(b)
    ensures MarkTimes(z, year, 0, [0, 0]) == Ok([a, b]) && Marks(z, year) == [true, true]
  {
    assert [0, 0][0 := a] == [a, 0] && [a, 0][1 := b] == [a, b];
    assert MarkTimes(z, year, 2, [a, b]) == Ok([a, b]);
    assert MarkTimes(z, year, 1, [a, 0]) == Ok([a, b]);
  }

  lemma DayTimes()
    ensures MarkTimes(SecondLine(), 1970, 0, [0, 0]) == Ok([4600, 4610]) && Marks(SecondLine(), 1970) == [true, true]
  {
    DayTime(4600, 7200);
    DayTime(4610, 0);
    TwoTimes(SecondLine(), 1970, 4600, 4610);
  }

  lemma EvePick()
    ensures Pick(FirstLine(), [-86400], [true], 0, 0, 0, None) == Ok(Some((0, -86400)))
  {
    assert Pick(FirstLine(), [-86400], [true], 0, 0, 1, Some((0, -86400))) == Ok(Some((0, -86400)));
  }

  lemma FirstPick()
    ensures Pick(SecondLine(), [4600, 4610], [true, true], 0, 3600, 0, None) == Ok(Some((0, 1000)))
  {
    assert Pick(SecondLine(), [4600, 4610], [true, true], 0, 3600, 1, Some((0, 1000))) == Ok(Some((0, 1000)));
  }

  lemma SecondPick()
    ensures Pick(SecondLine(), [4600, 4610], [false, true], 0, 7200, 0, None) == Ok(Some((1, -2590)))
  {
    assert Pick(SecondLine(), [4600, 4610], [false, true], 0, 7200, 1, None) == Ok(Some((1, -2590)));
  }

  lemma EveYear(st: State, p: Place) returns (s: State)
    requires At(st, 0, false, 0, EMPTY) && p == Place(0, FirstLine(), true, 1969)
    ensures RunYear(st, p, [-86400], [true]) == Ok(s) && At(s, 3600, false, 0, AFTER_EVE)
  {
    EveGrows();
    EvePick();
    assert [true][0 := false] == [false];
    s := TakesX(st, p, [-86400], [true], [false], 0, -86400, 0, false, EMPTY, AFTER_EVE);
    YearOver(s, p, [-86400], [false]);
  }

  lemma DayFirst(st: State, p: Place) returns (s: State)
    requires At(st, 3600, true, 1000, AFTER_EVE) && p == Place(1, SecondLine(), false, 1970)
    ensures At(s, 7200, false, 1000, AFTER_FIRST)
    ensures RunYear(st, p, [4600, 4610], [true, true]) == RunYear(s, p, [4600, 4610], [false, true])
  {
    FirstGrows();
    FirstPick();
    assert [true, true][0 := false] == [false, true];
    s := TakesX(st, p, [4600, 4610], [true, true], [false, true], 0, 1000, 1000, true, AFTER_EVE, AFTER_FIRST);
  }

  lemma DaySecond(st: State, p: Place) returns (s: State)
    requires At(st, 7200, false, 1000, AFTER_FIRST) && p == Place(1, SecondLine(), false, 1970)
    ensures RunYear(st, p, [4600, 4610], [false, true]) == Ok(s) && At(s, 0, false, 1000, AFTER_SECOND)
  {
    SecondGrows();
    SecondPick();
    assert [false, true][1 := false] == [false, false];
    s := TakesX(st, p, [4600, 4610], [false, true], [false, false], 1, -2590, 1000, false, AFTER_FIRST, AFTER_SECOND);
    YearOver(s, p, [4600, 4610], [false, false]);
  }

  lemma FirstLineRuns(st: State) returns (s: State)
    requires At(st, 0, false, 0, EMPTY)
    ensures RunYears(st, Place(0, FirstLine(), true, MIN_YEAR), [0]) == Ok(s) && At(s, 3600, false, 0, AFTER_EVE)
  {
    var p := Place(0, FirstLine(), true, MIN_YEAR);
    QuietYears(st, p, [0], 1969);
    var q := p.(year := 1969);
    EveTimes();
    s := EveYear(st, q);
    BusyYear(st, q, [0], [-86400], s);
    QuietYears(s, NextYear(q), [-86400], 1971);
  }

  lemma DayYear(st: State, p: Place) returns (s: State)
    requires At(st, 3600, true, 1000, AFTER_EVE) && p == Place(1, SecondLine(), false, 1970)
    ensures At(s, 0, false, 1000, AFTER_SECOND)
    ensures RunYears(st, p, [0, 0]) == RunYears(s, NextYear(p), [4600, 4610])
  {
    DayTimes();
    var s0 := DayFirst(st, p);
    s := DaySecond(s0, p);
    BusyYear(st, p, [0, 0], [4600, 4610], s);
  }

  lemma SecondLineRuns(st: State) returns (s: State)
    requires At(st, 3600, true, 1000, AFTER_EVE)
    ensures RunYears(st, Place(1, SecondLine(), false, MIN_YEAR), [0, 0]) == Ok(s)
    ensures At(s, 0, false, 1000, AFTER_SECOND)
  {
    var p := Place(1, SecondLine(), false, MIN_YEAR);
    QuietYears(st, p, [0, 0], 1970);
    s := DayYear(st, p.(year := 1970));
    QuietYears(s, p.(year := 1971), [4600, 4610], MAX_YEAR + 1);
  }

  lemma FirstStarts(zs: seq<Zone>, stray: nat) returns (n: State)
    requires ZonesOk(zs) && |zs| == 2 && zs[0] == FirstLine()
    ensures StepLine(zs, stray, Initial(zs), 0) == Ok(n) && At(n, 3600, false, 1000, AFTER_EVE)
  {
    var b := Initial(zs);
    assert LineStart(b, 0) == b && NoTimes(zs[0]) == [0];
    var s := FirstLineRuns(b);
    assert RunLine(b, zs, 0) == Ok(s);
    n := NextStart(s, zs[0], stray).value;
  }

  lemma SecondEnds(stray: nat, n: State) returns (s: State)
    requires At(n, 3600, false, 1000, AFTER_EVE)
    ensures StepLine(TwoLines(), stray, n, 1) == Ok(s) && At(s, 0, false, 1000, AFTER_SECOND)
  {
    var zs := TwoLines();
    assert NoTimes(zs[1]) == [0, 0];
    s := SecondLineRuns(LineStart(n, 1));
    assert RunLine(n, zs, 1) == Ok(s);
  }

  lemma TwoSteps(zs: seq<Zone>, stray: nat, n: State, s: State)
    requires ZonesOk(zs) && |zs| == 2 && StepLine(zs, stray, Initial(zs), 0) == Ok(n)
    requires StepLine(zs, stray, n, 1) == Ok(s)
    ensures StartOf(zs, stray, 1) == Ok(n) && RunZone(zs, stray) == Ok(s)
  {
    var step := LineStep(zs, stray);
    assert Iterate(step, Initial(zs), 1) == Ok(n) by {
      assert Iterate(step, Initial(zs), 0) == Ok(Initial(zs));
    }
    assert Iterate(step, Initial(zs), 2) == Ok(s);
    RunIsIterated(zs, stray);
  }

  /** A run reaches the second line's start at 1000, writes a transition there and then one at -2590. */
  lemma StartCanBeOvertaken(stray: nat) returns (zs: seq<Zone>, n: State)
    ensures ZonesOk(zs) && |zs| == 2 && StartOf(zs, stray, 1) == Ok(n) && n.starttime == 1000
    ensures RunZone(zs, stray).Ok? && RunZone(zs, stray).value.tables.ats == [-86400, 1000, -2590]
  {
    zs := TwoLines();
    n := FirstStarts(zs, stray);
    var s := SecondEnds(stray, n);
    TwoSteps(zs, stray, n, s);
  }
}
