/** zic.c, outzone: what the first line of a zone writes. Until a saving is taken it runs under its standard offset,
    and nothing is written but types. */
module ZicFirstLine {
  import opened Machine
  import opened ZicTime
  import opened ZicTables
  import opened ZicOutzone
  import opened ZicFirings
  import opened ZicRuns

  // ---------------------------------------------------------------- the first line

  /** A rule with a non-zero saving has been taken. */
  predicate TookSaving(z: Zone, fs: seq<Firing>) {
    exists i :: 0 <= i < |fs| && fs[i].verdict.Taken? && fs[i].rule < |z.rules| && z.rules[fs[i].rule].stdoff != 0
  }

  lemma TookMore(z: Zone, fs: seq<Firing>, e: Firing)
    ensures TookSaving(z, fs + [e]) <==>
            TookSaving(z, fs) || (e.verdict.Taken? && e.rule < |z.rules| && z.rules[e.rule].stdoff != 0)
  {
    var gs := fs + [e];
    assert gs[|fs|] == e && forall i :: 0 <= i < |fs| ==> gs[i] == fs[i];
  }

  /** On the first line transitions are written from the first saving on. */
  predicate FirstLineLog(st: State, z: Zone) {
    !st.usestart && (st.tables.ats == [] <==> !TookSaving(z, st.fired))
  }

  lemma SettleFirst(st: State, z: Zone, r: Rule, ktime: int)
    requires StateOk(st) && ZoneOk(z) && r in z.rules && Settle(st, z, r, ktime).Ok?
    ensures Settle(st, z, r, ktime).value.tables.ats == [] <==> st.tables.ats == [] && r.stdoff == 0
  {
  }

  lemma FirstFire(st: State, p: Place, k: nat, local: int, ktime: int, verdict: Verdict)
    requires StateOk(st) && ZoneOk(p.z) && k < |p.z.rules| && !st.usestart && Fire(st, p, k, local, ktime, verdict).Ok?
    ensures Fire(st, p, k, local, ktime, verdict).value.tables.ats == []
       <==> st.tables.ats == [] && !(verdict.Taken? && p.z.rules[k].stdoff != 0)
  {
    if verdict.Taken? {
      var logged := Log(st, p, k, local, ktime, verdict);
      assert Open(logged, ktime) == Ok(logged);
      assert p.z.rules[k] in p.z.rules;
      SettleFirst(logged, p.z, p.z.rules[k], ktime);
    }
  }

  lemma FirstRound(st: State, p: Place, times: seq<int>, todo: seq<bool>, k: nat, e: Firing, s: State)
    requires StateOk(st) && ZoneOk(p.z) && TimesOk(p.z, times) && |todo| == |times|
    requires Round(st, p, times, todo, k, e, s) && FirstLineLog(st, p.z)
    ensures FirstLineLog(s, p.z)
  {
    FireKeepsStart(st, p, k, times[k], e.time, e.verdict);
    FirstFire(st, p, k, times[k], e.time, e.verdict);
    TookMore(p.z, st.fired, e);
  }

  lemma {:induction false} FirstYear(st: State, p: Place, times: seq<int>, todo: seq<bool>)
    requires StateOk(st) && ZoneOk(p.z) && TimesOk(p.z, times) && |todo| == |times|
    requires RunYear(st, p, times, todo).Ok? && FirstLineLog(st, p.z)
    ensures FirstLineLog(RunYear(st, p, times, todo).value, p.z)
    decreases CountTrue(todo)
  {
    var over, k, e, s := Unroll(st, p, times, todo);
    if !over {
      FirstRound(st, p, times, todo, k, e, s);
      if !e.verdict.Stopped? {
        FirstYear(s, p, times, todo[k := false]);
      }
    }
  }

  lemma {:induction false} FirstYears(st: State, p: Place, times: seq<int>)
    requires StateOk(st) && ZoneOk(p.z) && TimesOk(p.z, times) && RunYears(st, p, times).Ok? && FirstLineLog(st, p.z)
    ensures FirstLineLog(RunYears(st, p, times).value, p.z)
    decreases MAX_YEAR + 1 - p.year
  {
    if p.year <= MAX_YEAR && !(p.useuntil && p.year > p.z.untilHiyear) {
      var (s, m) := OneYear(st, p, times).value;
      FirstYear(st, p, m, Marks(p.z, p.year));
      FirstYears(s, NextYear(p), m);
    }
  }

  lemma FirstPlain(st: State, z: Zone)
    requires StateOk(st) && ZoneOk(z) && FirstLineLog(st, z) && RunPlain(st, z).Ok?
    ensures FirstLineLog(RunPlain(st, z).value, z)
  {
  }

  /** Behind the first line no transition has been written exactly if the line has no rules or took none with a
      saving. */
  lemma FirstLineWrites(zs: seq<Zone>, s: State)
    requires ZonesOk(zs) && StateOk(Initial(zs)) && RunLine(Initial(zs), zs, 0) == Ok(s)
    ensures s.tables.types == [] <==> !TookSaving(zs[0], s.fired)
    ensures zs[0].rules == [] ==> s.tables.types == []
  {
    assert zs[0] in zs;
    var b := Initial(zs);
    assert LineStart(b, 0) == b;
    if zs[0].rules == [] {
      FirstPlain(b, zs[0]);
      assert !TookSaving(zs[0], s.fired);
    } else {
      FirstYears(b, LinePlace(zs, 0), NoTimes(zs[0]));
    }
  }

  // ---------------------------------------------------------------- which savings are taken

  /** UNTIL under the standard offset of the line. */
  function StandardUntil(z: Zone): Outcome<int>
    requires ZoneOk(z)
  {
    ToGmt(z.untiltime, z.untilTodisstd, z.gmtoff, 0)
  }

  /** A rule with a saving comes before UNTIL, both under the standard offset of the line. */
  predicate EarlySaving(z: Zone, a: nat, y: int)
    requires ZoneOk(z)
  {
    && FiresIn(z, a, y) && y <= z.untilHiyear && z.rules[a].stdoff != 0
    && StandardUntil(z).Ok? && LocalTime(z, a, y) - z.gmtoff < StandardUntil(z).value
  }

  ghost predicate SavesEarly(z: Zone)
    requires ZoneOk(z)
  {
    exists a: nat, y: int :: EarlySaving(z, a, y)
  }

  /** No saving has been taken, so the standard offset is in force. */
  predicate Standard(st: State, z: Zone) {
    !st.usestart && st.gmtoff == z.gmtoff && st.stdoff == 0 && !TookSaving(z, st.fired)
  }

  predicate DueSaving(z: Zone, times: seq<int>, todo: seq<bool>, j: nat, until: int)
    requires |todo| == |times| == |z.rules|
  {
    Candidate(times, todo, j) && z.rules[j].stdoff != 0 && times[j] - z.gmtoff < until
  }

  ghost predicate SomeDue(z: Zone, times: seq<int>, todo: seq<bool>, until: int)
    requires |todo| == |times| == |z.rules|
  {
    exists j: nat :: DueSaving(z, times, todo, j, until)
  }

  lemma TookStays(z: Zone, fs: seq<Firing>, gs: seq<Firing>)
    requires fs <= gs && TookSaving(z, fs)
    ensures TookSaving(z, gs)
  {
    var i :| 0 <= i < |fs| && fs[i].verdict.Taken? && fs[i].rule < |z.rules| && z.rules[fs[i].rule].stdoff != 0;
    assert gs[i] == fs[i];
  }

  /** A round under the standard offset: stopped where nothing is due any more, or a rule taken. */
  lemma StandardRound(st: State, p: Place, times: seq<int>, todo: seq<bool>, k: nat, e: Firing, s: State, until: int)
    requires StateOk(st) && ZoneOk(p.z) && TimesOk(p.z, times) && |todo| == |times| && p.useuntil
    requires Round(st, p, times, todo, k, e, s) && Standard(st, p.z) && StandardUntil(p.z) == Ok(until)
    ensures e.verdict.Stopped? ==> !SomeDue(p.z, times, todo, until) && !TookSaving(p.z, s.fired)
    ensures !e.verdict.Stopped? ==> e.verdict.Taken? && e.time == times[k] - p.z.gmtoff < until
    ensures !e.verdict.Stopped? && p.z.rules[k].stdoff != 0 ==> TookSaving(p.z, s.fired)
    ensures !e.verdict.Stopped? && p.z.rules[k].stdoff == 0 ==> Standard(s, p.z)
  {
    FireKeepsStart(st, p, k, times[k], e.time, e.verdict);
    TookMore(p.z, st.fired, e);
    if e.verdict.Stopped? {
      forall j: nat ensures !DueSaving(p.z, times, todo, j, until) {
        if Candidate(times, todo, j) {
          assert e.time <= Instant(p.z, times, j, st.gmtoff, st.stdoff);
        }
      }
    }
  }

  /** Taking a standard-time rule off the list leaves due what was due. */
  lemma StillDue(z: Zone, times: seq<int>, todo: seq<bool>, rest: seq<bool>, k: nat, until: int)
    requires |todo| == |times| == |z.rules| && k < |todo| && z.rules[k].stdoff == 0 && rest == todo[k := false]
    ensures SomeDue(z, times, todo, until) <==> SomeDue(z, times, rest, until)
  {
    if j: nat :| DueSaving(z, times, todo, j, until) {
      assert DueSaving(z, times, rest, j, until);
    }
    if j: nat :| DueSaving(z, times, rest, j, until) {
      assert DueSaving(z, times, todo, j, until);
    }
  }

  /** In a year that starts under the standard offset a saving is taken exactly if one is due. */
  lemma {:induction false} YearSaves(st: State, p: Place, times: seq<int>, todo: seq<bool>, until: int, s: State)
    requires StateOk(st) && ZoneOk(p.z) && TimesOk(p.z, times) && |todo| == |times| && p.useuntil
    requires RunYear(st, p, times, todo) == Ok(s) && Standard(st, p.z) && StandardUntil(p.z) == Ok(until)
    ensures TookSaving(p.z, s.fired) <==> SomeDue(p.z, times, todo, until)
    ensures !TookSaving(p.z, s.fired) ==> Standard(s, p.z)
    decreases CountTrue(todo)
  {
    var over, k, e, n := Unroll(st, p, times, todo);
    if !over {
      StandardRound(st, p, times, todo, k, e, n, until);
      if e.verdict.Stopped? {
        FireKeepsStart(st, p, k, times[k], e.time, e.verdict);
      } else if p.z.rules[k].stdoff == 0 {
        YearSaves(n, p, times, todo[k := false], until, s);
        StillDue(p.z, times, todo, todo[k := false], k, until);
      } else {
        assert DueSaving(p.z, times, todo, k, until);
        YearFirings(n, p, times, todo[k := false]);
        TookStays(p.z, n.fired, s.fired);
      }
    }
  }

  ghost predicate SavesFrom(z: Zone, year: int)
    requires ZoneOk(z)
  {
    exists a: nat, y: int :: y >= year && EarlySaving(z, a, y)
  }

  lemma DueInYear(z: Zone, year: int, times: seq<int>, m: seq<int>, until: int)
    requires ZoneOk(z) && TimesOk(z, times) && MarkTimes(z, year, 0, times) == Ok(m) && TimesOk(z, m)
    requires MIN_YEAR <= year <= MAX_YEAR && year <= z.untilHiyear && StandardUntil(z) == Ok(until)
    ensures SomeDue(z, m, Marks(z, year), until) <==> exists a: nat :: EarlySaving(z, a, year)
  {
    forall j: nat | j < |z.rules|
      ensures DueSaving(z, m, Marks(z, year), j, until) <==> EarlySaving(z, j, year)
    {
      CandidatesFire(z, year, times, m, j);
    }
    if SomeDue(z, m, Marks(z, year), until) {
      var j: nat :| DueSaving(z, m, Marks(z, year), j, until);
      assert EarlySaving(z, j, year);
    }
    if a: nat :| EarlySaving(z, a, year) {
      assert DueSaving(z, m, Marks(z, year), a, until);
    }
  }

  lemma SavesNext(z: Zone, year: int)
    requires ZoneOk(z)
    ensures SavesFrom(z, year) <==> (exists a: nat :: EarlySaving(z, a, year)) || SavesFrom(z, year + 1)
  {
    if a: nat, y: int :| y >= year && EarlySaving(z, a, y) {
      assert y == year || y >= year + 1;
    }
  }

  lemma YearsOnlyLog(st: State, p: Place, times: seq<int>, s: State)
    requires StateOk(st) && ZoneOk(p.z) && TimesOk(p.z, times) && RunYears(st, p, times) == Ok(s)
    requires MIN_YEAR <= p.year <= MAX_YEAR + 1
    ensures st.fired <= s.fired
  {
    var n := |st.fired|;
    assert st.fired[n..] == [];
    YearsFirings(st, p, times, n);
  }

  /** The loop over the years takes a saving exactly if there is an early one from its first year on. */
  lemma {:induction false} YearsSave(st: State, p: Place, times: seq<int>, s: State)
    requires StateOk(st) && ZoneOk(p.z) && TimesOk(p.z, times) && RunYears(st, p, times) == Ok(s) && p.useuntil
    requires MIN_YEAR <= p.year <= MAX_YEAR + 1 && Standard(st, p.z)
    ensures TookSaving(p.z, s.fired) <==> SavesFrom(p.z, p.year)
    decreases MAX_YEAR + 1 - p.year
  {
    if p.year > MAX_YEAR || p.year > p.z.untilHiyear {
    } else {
      var (n, m) := OneYear(st, p, times).value;
      var todo := Marks(p.z, p.year);
      StandardYear(st, p, m, todo);
      var until := StandardUntil(p.z).value;
      YearSaves(st, p, m, todo, until, n);
      DueInYear(p.z, p.year, times, m, until);
      SavesNext(p.z, p.year);
      if TookSaving(p.z, n.fired) {
        YearsOnlyLog(n, NextYear(p), m, s);
        TookStays(p.z, n.fired, s.fired);
      } else {
        YearsSave(n, NextYear(p), m, s);
      }
    }
  }

  lemma StandardYear(st: State, p: Place, times: seq<int>, todo: seq<bool>)
    requires StateOk(st) && ZoneOk(p.z) && TimesOk(p.z, times) && |todo| == |times| && p.useuntil
    requires Standard(st, p.z) && RunYear(st, p, times, todo).Ok?
    ensures StandardUntil(p.z).Ok?
  {
  }

  /** The first of several lines takes a saving exactly if it has an early one. */
  lemma FirstLineSaves(zs: seq<Zone>, z: Zone, s: State)
    requires ZonesOk(zs) && |zs| > 1 && z == zs[0] && ZoneOk(z)
    requires StateOk(Initial(zs)) && RunLine(Initial(zs), zs, 0) == Ok(s)
    ensures TookSaving(z, s.fired) <==> SavesEarly(z)
  {
    var b := Initial(zs);
    assert LineStart(b, 0) == b;
    if z.rules == [] {
      assert !TookSaving(z, s.fired);
    } else {
      YearsSave(b, LinePlace(zs, 0), NoTimes(z), s);
      if SavesEarly(z) {
        var a: nat, y: int :| EarlySaving(z, a, y);
        assert y >= MIN_YEAR;
      }
    }
  }
}
