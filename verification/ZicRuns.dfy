/** What outzone promises over all years of a line and over whole zones. */
module ZicRuns {
  import opened Machine
  import opened ZicTime
  import opened ZicTables
  import opened ZicOutzone
  import opened ZicFirings

  // ---------------------------------------------------------------- from times to rules

  /** Rule a of line z has a time in year y, and not an extreme one. */
  predicate FiresIn(z: Zone, a: nat, y: int)
    requires ZoneOk(z)
  {
    && a < |z.rules| && MIN_YEAR <= y <= MAX_YEAR
    && z.rules[a].loyear <= y <= z.rules[a].hiyear && y in z.rules[a].years
    && RuleTime(z.rules[a], y).Ok? && !Saturated(RuleTime(z.rules[a], y).value)
  }

  function LocalTime(z: Zone, a: nat, y: int): int
    requires ZoneOk(z) && FiresIn(z, a, y)
  {
    RuleTime(z.rules[a], y).value
  }

  lemma {:induction false} MarkedTimes(z: Zone, year: int, j: nat, times: seq<int>)
    requires ZoneOk(z) && TimesOk(z, times) && j <= |z.rules| && MarkTimes(z, year, j, times).Ok?
    ensures var m := MarkTimes(z, year, j, times).value;
            && (forall k :: 0 <= k < j ==> m[k] == times[k])
            && (forall k :: j <= k < |m| && IsMarked(z.rules[k], year) ==> RuleTime(z.rules[k], year) == Ok(m[k]))
    decreases |z.rules| - j
  {
    if j < |z.rules| {
      if IsMarked(z.rules[j], year) {
        MarkedTimes(z, year, j + 1, times[j := RuleTime(z.rules[j], year).value]);
      } else {
        MarkedTimes(z, year, j + 1, times);
      }
    }
  }

  /** The candidates of a year are exactly the rules that fire in it. */
  lemma CandidatesFire(z: Zone, year: int, times: seq<int>, m: seq<int>, j: nat)
    requires ZoneOk(z) && TimesOk(z, times) && MarkTimes(z, year, 0, times) == Ok(m)
    requires MIN_YEAR <= year <= MAX_YEAR && j < |z.rules|
    ensures Candidate(m, Marks(z, year), j) <==> FiresIn(z, j, year)
    ensures FiresIn(z, j, year) ==> m[j] == LocalTime(z, j, year)
  {
    MarkedTimes(z, year, 0, times);
  }

  /** e is about a rule of the line in a year in which that rule fires. */
  predicate Genuine(line: nat, z: Zone, e: Firing)
    requires ZoneOk(z)
  {
    e.line == line && FiresIn(z, e.rule, e.year) && e.local == LocalTime(z, e.rule, e.year)
  }

  predicate Distinct(fs: seq<Firing>) {
    forall i, j :: 0 <= i < j < |fs| ==> (fs[i].line, fs[i].year, fs[i].rule) != (fs[j].line, fs[j].year, fs[j].rule)
  }

  /** The firings of a line from index n on. */
  predicate LineFirings(p: Place, starttime: int, fs: seq<Firing>)
    requires ZoneOk(p.z)
  {
    forall i :: 0 <= i < |fs| ==> Genuine(p.line, p.z, fs[i]) && fs[i].year < p.year && Justified(p, starttime, fs[i])
  }

  lemma OneYearFirings(st: State, p: Place, times: seq<int>, n: nat)
    requires StateOk(st) && ZoneOk(p.z) && TimesOk(p.z, times) && OneYear(st, p, times).Ok?
    requires MIN_YEAR <= p.year <= MAX_YEAR && n <= |st.fired|
    requires LineFirings(p, st.starttime, st.fired[n..]) && Distinct(st.fired[n..])
    ensures var s := OneYear(st, p, times).value.0;
            && st.fired <= s.fired && s.starttime == st.starttime
            && LineFirings(NextYear(p), s.starttime, s.fired[n..]) && Distinct(s.fired[n..])
  {
    var (s, m) := OneYear(st, p, times).value;
    var todo := Marks(p.z, p.year);
    YearFirings(st, p, m, todo);
    YearKeepsStart(st, p, m, todo);
    forall i | 0 <= i < |s.fired[n..]|
      ensures Genuine(p.line, p.z, s.fired[n..][i]) && s.fired[n..][i].year < p.year + 1
      ensures Justified(NextYear(p), s.starttime, s.fired[n..][i])
    {
      if n + i < |st.fired| {
        assert s.fired[n..][i] == st.fired[n..][i];
      } else {
        var e := s.fired[n + i];
        assert ForYear(p, m, todo, e);
        CandidatesFire(p.z, p.year, times, m, e.rule);
      }
    }
    forall i, j | 0 <= i < j < |s.fired[n..]|
      ensures s.fired[n..][i].year != s.fired[n..][j].year || s.fired[n..][i].rule != s.fired[n..][j].rule
    {
      if n + j < |st.fired| {
        assert s.fired[n..][i] == st.fired[n..][i] && s.fired[n..][j] == st.fired[n..][j];
      } else {
        assert ForYear(p, m, todo, s.fired[n + j]);
        if n + i < |st.fired| {
          assert s.fired[n..][i] == st.fired[n..][i];
        }
      }
    }
  }

  lemma {:induction false} YearKeepsStart(st: State, p: Place, times: seq<int>, todo: seq<bool>)
    requires StateOk(st) && ZoneOk(p.z) && TimesOk(p.z, times) && |todo| == |times|
    requires RunYear(st, p, times, todo).Ok?
    ensures RunYear(st, p, times, todo).value.starttime == st.starttime
    decreases CountTrue(todo)
  {
    var over, k, e, s := Unroll(st, p, times, todo);
    if !over {
      FireKeepsStart(st, p, k, times[k], e.time, e.verdict);
      if !e.verdict.Stopped? {
        YearKeepsStart(s, p, times, todo[k := false]);
      }
    }
  }

  /** Over all years of a line: every firing is genuine and justified, and none happens twice. */
  lemma {:induction false} YearsFirings(st: State, p: Place, times: seq<int>, n: nat)
    requires StateOk(st) && ZoneOk(p.z) && TimesOk(p.z, times) && RunYears(st, p, times).Ok?
    requires MIN_YEAR <= p.year <= MAX_YEAR + 1 && n <= |st.fired|
    requires LineFirings(p, st.starttime, st.fired[n..]) && Distinct(st.fired[n..])
    ensures var s := RunYears(st, p, times).value;
            && st.fired <= s.fired && s.starttime == st.starttime
            && LineFirings(p.(year := MAX_YEAR + 1), s.starttime, s.fired[n..]) && Distinct(s.fired[n..])
    decreases MAX_YEAR + 1 - p.year
  {
    if p.year <= MAX_YEAR && !(p.useuntil && p.year > p.z.untilHiyear) {
      OneYearFirings(st, p, times, n);
      var (s, m) := OneYear(st, p, times).value;
      YearsFirings(s, NextYear(p), m, n);
      assert NextYear(p).(year := MAX_YEAR + 1) == p.(year := MAX_YEAR + 1);
    }
  }

  // ---------------------------------------------------------------- order

  /** All local times of the line, over all years, are further apart than spread. */
  ghost predicate SpacedBy(z: Zone, spread: int)
    requires ZoneOk(z)
  {
    forall a: nat, y: int, b: nat, x: int :: FiresIn(z, a, y) && FiresIn(z, b, x) && (a, y) != (b, x) ==>
      LocalTime(z, a, y) + spread < LocalTime(z, b, x) || LocalTime(z, b, x) + spread < LocalTime(z, a, y)
  }

  lemma TimesAreApart(z: Zone, year: int, times: seq<int>, m: seq<int>, spread: int)
    requires ZoneOk(z) && TimesOk(z, times) && MarkTimes(z, year, 0, times) == Ok(m)
    requires MIN_YEAR <= year <= MAX_YEAR && SpacedBy(z, spread)
    ensures Apart(m, Marks(z, year), spread)
  {
    var todo := Marks(z, year);
    forall i, j | 0 <= i < j < |todo| && Candidate(m, todo, i) && Candidate(m, todo, j)
      ensures m[i] + spread < m[j] || m[j] + spread < m[i]
    {
      CandidatesFire(z, year, times, m, i);
      CandidatesFire(z, year, times, m, j);
    }
  }

  lemma LaterYearsComeAfter(p: Place, starttime: int, times: seq<int>, m: seq<int>, fs: seq<Firing>, spread: int,
                            j: nat)
    requires ZoneOk(p.z) && TimesOk(p.z, times) && MarkTimes(p.z, p.year, 0, times) == Ok(m)
    requires MIN_YEAR <= p.year <= MAX_YEAR && SpacedBy(p.z, spread) && spread >= 0
    requires LineFirings(p, starttime, fs) && j < |p.z.rules| && Candidate(m, Marks(p.z, p.year), j)
    ensures Before(fs, m[j], spread)
  {
    CandidatesFire(p.z, p.year, times, m, j);
    forall i | 0 <= i < |fs|
      ensures fs[i].local + spread < m[j]
    {
      var e := fs[i];
      assert p.z.rules[e.rule] in p.z.rules && p.z.rules[j] in p.z.rules;
      YearsAreOrdered(p.z.rules[e.rule], e.year, p.z.rules[j], p.year);
      assert LocalTime(p.z, e.rule, e.year) < LocalTime(p.z, j, p.year);
    }
  }

  /** If the line's local times are spaced further than its offsets can differ, its rules fire in
      local-time order over all years and their GMT instants strictly increase. */
  lemma {:induction false} YearsInOrder(st: State, p: Place, times: seq<int>, n: nat, lo: int, spread: int)
    requires StateOk(st) && ZoneOk(p.z) && TimesOk(p.z, times) && RunYears(st, p, times).Ok?
    requires MIN_YEAR <= p.year <= MAX_YEAR + 1 && n <= |st.fired| && spread >= 0
    requires SpacedBy(p.z, spread) && InForce(st, p.z, lo, spread)
    requires LineFirings(p, st.starttime, st.fired[n..]) && Distinct(st.fired[n..])
    requires InOrder(st.fired[n..]) && AllNear(st.fired[n..], lo, spread)
    ensures n <= |RunYears(st, p, times).value.fired| && InOrder(RunYears(st, p, times).value.fired[n..])
    decreases MAX_YEAR + 1 - p.year
  {
    if p.year <= MAX_YEAR && !(p.useuntil && p.year > p.z.untilHiyear) {
      var (s, m) := OneYear(st, p, times).value;
      OneYearFirings(st, p, times, n);
      TimesAreApart(p.z, p.year, times, m, spread);
      forall j | 0 <= j < |m| && Candidate(m, Marks(p.z, p.year), j)
        ensures Before(st.fired[n..], m[j], spread)
      {
        LaterYearsComeAfter(p, st.starttime, times, m, st.fired[n..], spread, j);
      }
      YearInOrder(st, p, m, Marks(p.z, p.year), n, lo, spread);
      YearsInOrder(s, NextYear(p), m, n, lo, spread);
    }
  }

  // ---------------------------------------------------------------- transitions of a line

  predicate HasTaken(fs: seq<Firing>) {
    exists i :: 0 <= i < |fs| && fs[i].verdict.Taken?
  }

  /** The first firing taken is not before the line's start. */
  predicate OpensAfter(fs: seq<Firing>, starttime: int) {
    forall i :: 0 <= i < |fs| && fs[i].verdict.Taken? && !HasTaken(fs[..i]) ==> starttime <= fs[i].time
  }

  predicate TakenAt(fs: seq<Firing>, t: int) {
    exists i :: 0 <= i < |fs| && fs[i].verdict.Taken? && fs[i].time == t
  }

  /** A transition may be asked for at t: at the line's start, or at a firing taken. */
  predicate Due(st: State, n: nat, late: bool, t: int)
    requires n <= |st.fired|
  {
    (late && t == st.starttime) || TakenAt(st.fired[n..], t)
  }

  /** Bookkeeping of a line: its firings begin at n, its transitions at m, and those it asked for at o; late says
      that the line has a start. Before a firing has been taken nothing is asked for. */
  predicate LineLog(st: State, n: nat, m: nat, o: nat, late: bool) {
    && n <= |st.fired| && m <= |st.tables.ats| && o <= |Times(st.ops)|
    && (st.usestart <==> late && !HasTaken(st.fired[n..]))
    && (late ==> OpensAfter(st.fired[n..], st.starttime))
    && (|st.tables.ats| > m || |Times(st.ops)| > o ==> HasTaken(st.fired[n..]))
    && (forall k :: m <= k < |st.tables.ats| ==> Due(st, n, late, st.tables.ats[k]))
    && forall k :: o <= k < |Times(st.ops)| ==> Due(st, n, late, Times(st.ops)[k])
  }

  lemma PerformWrites(st: State, op: Op)
    requires StateOk(st) && -2 * SECS_PER_DAY < op.gmtoff < 2 * SECS_PER_DAY && Perform(st, op).Ok?
    ensures var s := Perform(st, op).value;
            && s == st.(tables := s.tables, ops := s.ops)
            && (s.tables.ats == st.tables.ats || (op.Transition? && s.tables.ats == st.tables.ats + [op.time]))
            && Times(s.ops) == Times(st.ops) + if op.Transition? then [op.time] else []
  {
    TimesSnoc(st.ops, op);
  }

  predicate AddsOne(before: seq<int>, after: seq<int>, t: int) {
    after == before || after == before + [t]
  }

  /** What is behind a prefix of the times is the line's start or the rule's time. */
  predicate Adds(before: seq<int>, after: seq<int>, starts: bool, starttime: int, ktime: int) {
    before <= after && forall i :: |before| <= i < |after| ==> after[i] == ktime || (starts && after[i] == starttime)
  }

  lemma OpenWrites(st: State, ktime: int, begun: State)
    requires StateOk(st) && Open(st, ktime) == Ok(begun)
    ensures AddsOne(st.tables.ats, begun.tables.ats, st.starttime)
    ensures AddsOne(Times(st.ops), Times(begun.ops), st.starttime)
    ensures !st.usestart ==> begun == st
  {
    if st.usestart && ktime != st.starttime && st.start.Start? {
      PerformWrites(st, Transition(st.starttime, st.start.gmtoff, st.start.abbr, st.start.isdst));
    }
  }

  lemma SettleWrites(st: State, z: Zone, r: Rule, ktime: int, s: State)
    requires StateOk(st) && ZoneOk(z) && r in z.rules && Settle(st, z, r, ktime) == Ok(s)
    ensures AddsOne(st.tables.ats, s.tables.ats, ktime) && AddsOne(Times(st.ops), Times(s.ops), ktime)
  {
    PerformWrites(st, RuleOp(st, z, r, ktime));
  }

  lemma AddsBoth(a: seq<int>, b: seq<int>, c: seq<int>, starts: bool, starttime: int, ktime: int)
    requires AddsOne(a, b, starttime) && AddsOne(b, c, ktime) && (!starts ==> b == a)
    ensures Adds(a, c, starts, starttime, ktime)
  {
  }

  lemma TakeWrites(st: State, z: Zone, r: Rule, ktime: int, s: State)
    requires StateOk(st) && ZoneOk(z) && r in z.rules && Take(st, z, r, ktime) == Ok(s)
    ensures Adds(st.tables.ats, s.tables.ats, st.usestart, st.starttime, ktime)
    ensures Adds(Times(st.ops), Times(s.ops), st.usestart, st.starttime, ktime)
  {
    var begun := Open(st, ktime).value;
    OpenWrites(st, ktime, begun);
    SettleWrites(begun, z, r, ktime, s);
    AddsBoth(st.tables.ats, begun.tables.ats, s.tables.ats, st.usestart, st.starttime, ktime);
    AddsBoth(Times(st.ops), Times(begun.ops), Times(s.ops), st.usestart, st.starttime, ktime);
  }

  lemma FireWrites(st: State, p: Place, k: nat, local: int, ktime: int, verdict: Verdict)
    requires StateOk(st) && ZoneOk(p.z) && k < |p.z.rules| && Fire(st, p, k, local, ktime, verdict).Ok?
    ensures var s := Fire(st, p, k, local, ktime, verdict).value;
            && (verdict.Taken? ==> Adds(st.tables.ats, s.tables.ats, st.usestart, st.starttime, ktime)
                                   && Adds(Times(st.ops), Times(s.ops), st.usestart, st.starttime, ktime))
            && (!verdict.Taken? ==> s.tables == st.tables && s.ops == st.ops)
  {
    if verdict.Taken? {
      assert p.z.rules[k] in p.z.rules;
      TakeWrites(Log(st, p, k, local, ktime, verdict), p.z, p.z.rules[k], ktime,
                 Fire(st, p, k, local, ktime, verdict).value);
    }
  }

  lemma AppendTaken(fs: seq<Firing>, e: Firing)
    ensures HasTaken(fs + [e]) <==> HasTaken(fs) || e.verdict.Taken?
    ensures forall t :: TakenAt(fs, t) ==> TakenAt(fs + [e], t)
    ensures e.verdict.Taken? ==> TakenAt(fs + [e], e.time)
  {
    var gs := fs + [e];
    assert gs[|fs|] == e && forall i :: 0 <= i < |fs| ==> gs[i] == fs[i];
  }

  /** What was due stays due, and what a round adds is due. */
  lemma AddsDue(st: State, s: State, n: nat, late: bool, e: Firing, before: seq<int>, after: seq<int>, m: nat)
    requires n <= |st.fired| && s.fired == st.fired + [e] && s.starttime == st.starttime && m <= |before|
    requires forall k :: m <= k < |before| ==> Due(st, n, late, before[k])
    requires st.usestart ==> late
    requires if e.verdict.Taken? then Adds(before, after, st.usestart, st.starttime, e.time) else after == before
    ensures forall k :: m <= k < |after| ==> Due(s, n, late, after[k])
  {
    var fs := st.fired[n..];
    assert s.fired[n..] == fs + [e];
    AppendTaken(fs, e);
    forall k | m <= k < |after| ensures Due(s, n, late, after[k]) {
      if k < |before| {
        assert after[k] == before[k] && Due(st, n, late, before[k]);
      }
    }
  }

  lemma StillOpensAfter(fs: seq<Firing>, e: Firing, starttime: int)
    requires OpensAfter(fs, starttime) && (e.verdict.Taken? && !HasTaken(fs) ==> starttime <= e.time)
    ensures OpensAfter(fs + [e], starttime)
  {
    var gs := fs + [e];
    forall i | 0 <= i < |gs| && gs[i].verdict.Taken? && !HasTaken(gs[..i])
      ensures starttime <= gs[i].time
    {
      assert gs[..i] == fs[..i];
      assert i == |fs| ==> fs[..i] == fs;
    }
  }

  lemma RoundKeepsLog(st: State, p: Place, times: seq<int>, todo: seq<bool>, k: nat, e: Firing, s: State, n: nat,
                      m: nat, o: nat, late: bool)
    requires StateOk(st) && ZoneOk(p.z) && TimesOk(p.z, times) && |todo| == |times|
    requires Round(st, p, times, todo, k, e, s) && LineLog(st, n, m, o, late)
    ensures LineLog(s, n, m, o, late)
  {
    FireKeepsStart(st, p, k, times[k], e.time, e.verdict);
    FireWrites(st, p, k, times[k], e.time, e.verdict);
    assert s.fired[n..] == st.fired[n..] + [e];
    AppendTaken(st.fired[n..], e);
    AddsDue(st, s, n, late, e, st.tables.ats, s.tables.ats, m);
    AddsDue(st, s, n, late, e, Times(st.ops), Times(s.ops), o);
    if late {
      StillOpensAfter(st.fired[n..], e, st.starttime);
    }
  }

  lemma {:induction false} YearKeepsLog(st: State, p: Place, times: seq<int>, todo: seq<bool>, n: nat, m: nat, o: nat,
                                        late: bool)
    requires StateOk(st) && ZoneOk(p.z) && TimesOk(p.z, times) && |todo| == |times|
    requires RunYear(st, p, times, todo).Ok? && LineLog(st, n, m, o, late)
    ensures LineLog(RunYear(st, p, times, todo).value, n, m, o, late)
    decreases CountTrue(todo)
  {
    var over, k, e, s := Unroll(st, p, times, todo);
    if !over {
      RoundKeepsLog(st, p, times, todo, k, e, s, n, m, o, late);
      if !e.verdict.Stopped? {
        YearKeepsLog(s, p, times, todo[k := false], n, m, o, late);
      }
    }
  }

  lemma {:induction false} YearsKeepLog(st: State, p: Place, times: seq<int>, n: nat, m: nat, o: nat, late: bool)
    requires StateOk(st) && ZoneOk(p.z) && TimesOk(p.z, times) && RunYears(st, p, times).Ok?
    requires LineLog(st, n, m, o, late)
    ensures LineLog(RunYears(st, p, times).value, n, m, o, late)
    decreases MAX_YEAR + 1 - p.year
  {
    if p.year <= MAX_YEAR && !(p.useuntil && p.year > p.z.untilHiyear) {
      var (s, t) := OneYear(st, p, times).value;
      YearKeepsLog(st, p, t, Marks(p.z, p.year), n, m, o, late);
      YearsKeepLog(s, NextYear(p), t, n, m, o, late);
    }
  }

  lemma {:induction false} FirstTaken(fs: seq<Firing>, j: nat) returns (i: nat)
    requires j < |fs| && fs[j].verdict.Taken?
    ensures i <= j && fs[i].verdict.Taken? && !HasTaken(fs[..i])
    decreases j
  {
    if HasTaken(fs[..j]) {
      var k :| 0 <= k < |fs[..j]| && fs[..j][k].verdict.Taken?;
      i := FirstTaken(fs, k);
    } else {
      i := j;
    }
  }

  /** t is strictly before UNTIL, if there is one, under the offsets in force when e fired. */
  predicate BeforeUntil(p: Place, e: Firing, t: int)
    requires ZoneOk(p.z)
  {
    && -SECS_PER_DAY < e.gmtoff < SECS_PER_DAY && -SECS_PER_DAY < e.stdoff < SECS_PER_DAY
    && (p.useuntil ==> var u := ToGmt(p.z.untiltime, p.z.untilTodisstd, e.gmtoff, e.stdoff); u.Ok? && t < u.value)
  }

  /** A transition at t is written for firing f, which is taken: at its time or, for the first firing taken, at
      the line's start, which is not after it. Either is before UNTIL. */
  predicate WrittenFor(p: Place, starttime: int, fs: seq<Firing>, f: nat, t: int)
    requires ZoneOk(p.z)
  {
    && f < |fs| && fs[f].verdict.Taken? && BeforeUntil(p, fs[f], t)
    && (t == fs[f].time || (p.line > 0 && t == starttime && !HasTaken(fs[..f]) && starttime <= fs[f].time))
  }

  predicate Accounted(p: Place, starttime: int, fs: seq<Firing>, t: int)
    requires ZoneOk(p.z)
  {
    exists f :: 0 <= f < |fs| && WrittenFor(p, starttime, fs, f, t)
  }

  /** The tables grow only when a rule is taken, so the line's start is before UNTIL as well. */
  lemma StartBeforeUntil(p: Place, starttime: int, fs: seq<Firing>)
    requires ZoneOk(p.z) && p.line > 0 && HasTaken(fs) && OpensAfter(fs, starttime)
    requires forall f :: 0 <= f < |fs| ==> Justified(p, starttime, fs[f])
    ensures Accounted(p, starttime, fs, starttime)
  {
    var j :| 0 <= j < |fs| && fs[j].verdict.Taken?;
    var f := FirstTaken(fs, j);
    assert WrittenFor(p, starttime, fs, f, starttime);
  }

  lemma TakenIsAccounted(p: Place, starttime: int, fs: seq<Firing>, t: int)
    requires ZoneOk(p.z) && TakenAt(fs, t)
    requires forall f :: 0 <= f < |fs| ==> Justified(p, starttime, fs[f])
    ensures Accounted(p, starttime, fs, t)
  {
    var f :| 0 <= f < |fs| && fs[f].verdict.Taken? && fs[f].time == t;
    assert WrittenFor(p, starttime, fs, f, t);
  }

  lemma DueIsAccounted(s: State, p: Place, n: nat, t: int)
    requires ZoneOk(p.z) && n <= |s.fired| && Due(s, n, p.line > 0, t) && HasTaken(s.fired[n..])
    requires p.line > 0 ==> OpensAfter(s.fired[n..], s.starttime)
    requires forall f :: 0 <= f < |s.fired[n..]| ==> Justified(p, s.starttime, s.fired[n..][f])
    ensures Accounted(p, s.starttime, s.fired[n..], t)
  {
    if TakenAt(s.fired[n..], t) {
      TakenIsAccounted(p, s.starttime, s.fired[n..], t);
    } else {
      StartBeforeUntil(p, s.starttime, s.fired[n..]);
    }
  }

  lemma LineIsLogged(st: State, zs: seq<Zone>, i: nat)
    requires StateOk(st) && ZonesOk(zs) && i < |zs| && ZoneOk(zs[i]) && zs[i].rules != [] && RunLine(st, zs, i).Ok?
    ensures st.fired <= RunLine(st, zs, i).value.fired
    ensures var s := RunLine(st, zs, i).value;
            var fs := s.fired[|st.fired|..];
            && s.starttime == st.starttime && Distinct(fs)
            && LineLog(s, |st.fired|, |st.tables.ats|, |Times(st.ops)|, i > 0)
            && forall f :: 0 <= f < |fs| ==>
                 Genuine(i, zs[i], fs[f]) && Justified(LinePlace(zs, i), st.starttime, fs[f])
  {
    var p := LinePlace(zs, i);
    var b := LineStart(st, i);
    var n, m, o := |st.fired|, |st.tables.ats|, |Times(st.ops)|;
    assert b.fired[n..] == [];
    YearsFirings(b, p, NoTimes(zs[i]), n);
    YearsKeepLog(b, p, NoTimes(zs[i]), n, m, o, i > 0);
    var fs := RunLine(st, zs, i).value.fired[n..];
    forall f | 0 <= f < |fs|
      ensures Justified(p, st.starttime, fs[f])
    {
      assert Justified(p.(year := MAX_YEAR + 1), st.starttime, fs[f]);
    }
  }

  /** A rule-driven line i run from any state st. Firings are genuine, justified and never repeated. Every
      transition the line asks for or writes is for a rule taken, at its time or at the line's start, and strictly
      before UNTIL under the offsets then in force. */
  lemma LineIsAccounted(st: State, zs: seq<Zone>, i: nat)
    requires StateOk(st) && ZonesOk(zs) && i < |zs| && ZoneOk(zs[i]) && zs[i].rules != [] && RunLine(st, zs, i).Ok?
    ensures st.fired <= RunLine(st, zs, i).value.fired
    ensures var s := RunLine(st, zs, i).value;
            var fs := s.fired[|st.fired|..];
            && s.starttime == st.starttime
            && Distinct(fs)
            && (forall f :: 0 <= f < |fs| ==>
                  Genuine(i, zs[i], fs[f]) && Justified(LinePlace(zs, i), st.starttime, fs[f]))
            && (forall k :: |st.tables.ats| <= k < |s.tables.ats| ==>
                  Accounted(LinePlace(zs, i), st.starttime, fs, s.tables.ats[k]))
            && (forall k :: |Times(st.ops)| <= k < |Times(s.ops)| ==>
                  Accounted(LinePlace(zs, i), st.starttime, fs, Times(s.ops)[k]))
            && (i > 0 ==> OpensAfter(fs, st.starttime))
  {
    LineIsLogged(st, zs, i);
    var s := RunLine(st, zs, i).value;
    forall k | |st.tables.ats| <= k < |s.tables.ats|
      ensures Accounted(LinePlace(zs, i), st.starttime, s.fired[|st.fired|..], s.tables.ats[k])
    {
      DueIsAccounted(s, LinePlace(zs, i), |st.fired|, s.tables.ats[k]);
    }
    forall k | |Times(st.ops)| <= k < |Times(s.ops)|
      ensures Accounted(LinePlace(zs, i), st.starttime, s.fired[|st.fired|..], Times(s.ops)[k])
    {
      DueIsAccounted(s, LinePlace(zs, i), |st.fired|, Times(s.ops)[k]);
    }
  }

  lemma OrderedMeansLater(fs: seq<Firing>, starttime: int, t: int)
    requires InOrder(fs) && OpensAfter(fs, starttime) && TakenAt(fs, t)
    ensures starttime <= t
  {
    var f :| 0 <= f < |fs| && fs[f].verdict.Taken? && fs[f].time == t;
    var g := FirstTaken(fs, f);
    assert starttime <= fs[g].time;
  }

  lemma AccountedIsLater(p: Place, starttime: int, fs: seq<Firing>, t: int)
    requires ZoneOk(p.z) && Accounted(p, starttime, fs, t) && InOrder(fs) && OpensAfter(fs, starttime)
    ensures starttime <= t
  {
    var f :| 0 <= f < |fs| && WrittenFor(p, starttime, fs, f, t);
    if t != starttime {
      assert TakenAt(fs, t);
      OrderedMeansLater(fs, starttime, t);
    }
  }

  /** With spaced local times the rules of a line fire in local-time order, and no transition of the
      line comes before the line's start. */
  lemma LineStartsOnTime(st: State, zs: seq<Zone>, i: nat, lo: int, spread: int)
    requires StateOk(st) && ZonesOk(zs) && i < |zs| && ZoneOk(zs[i]) && zs[i].rules != [] && RunLine(st, zs, i).Ok?
    requires SpacedBy(zs[i], spread) && InForce(st, zs[i], lo, spread) && spread >= 0
    ensures |st.fired| <= |RunLine(st, zs, i).value.fired| && InOrder(RunLine(st, zs, i).value.fired[|st.fired|..])
    ensures i > 0 ==> forall k :: |st.tables.ats| <= k < |RunLine(st, zs, i).value.tables.ats| ==>
                                    st.starttime <= RunLine(st, zs, i).value.tables.ats[k]
  {
    var b := LineStart(st, i);
    var n := |st.fired|;
    var s := RunLine(st, zs, i).value;
    assert b.fired[n..] == [];
    YearsInOrder(b, LinePlace(zs, i), NoTimes(zs[i]), n, lo, spread);
    if i > 0 {
      LineIsAccounted(st, zs, i);
      forall k | |st.tables.ats| <= k < |s.tables.ats|
        ensures st.starttime <= s.tables.ats[k]
      {
        AccountedIsLater(LinePlace(zs, i), st.starttime, s.fired[n..], s.tables.ats[k]);
      }
    }
  }
}
