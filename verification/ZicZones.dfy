/** zic.c, outzone: a zone of any number of lines. If local times and UNTIL times are further apart than the offsets
    can differ, the times written strictly increase across all lines. */
module ZicZones {
  import opened Machine
  import opened ZicTime
  import opened ZicTables
  import opened ZicOutzone
  import opened ZicFirings
  import opened ZicRuns
  import opened ZicLookup
  import opened ZicSound

  // ---------------------------------------------------------------- what every round keeps

  predicate RoundKeeps(p: Place, st: State, times: seq<int>, todo: seq<bool>, k: nat, e: Firing, s: State,
                       holds: State -> bool) {
    (&& ZoneOk(p.z) && StateOk(st) && TimesOk(p.z, times) && |todo| == |times|
     && Round(st, p, times, todo, k, e, s) && holds(st)) ==>
      holds(s)
  }

  ghost predicate RoundsKeep(p: Place, holds: State -> bool) {
    forall year: int, st: State, times: seq<int>, todo: seq<bool>, k: nat, e: Firing, s: State ::
      RoundKeeps(p.(year := year), st, times, todo, k, e, s, holds)
  }

  lemma {:induction false} YearKeeps(st: State, p: Place, times: seq<int>, todo: seq<bool>, holds: State -> bool)
    requires StateOk(st) && ZoneOk(p.z) && TimesOk(p.z, times) && |todo| == |times| && RunYear(st, p, times, todo).Ok?
    requires RoundsKeep(p, holds) && holds(st)
    ensures holds(RunYear(st, p, times, todo).value)
    decreases CountTrue(todo)
  {
    var over, k, e, s := Unroll(st, p, times, todo);
    if !over {
      assert p.(year := p.year) == p;
      assert RoundKeeps(p.(year := p.year), st, times, todo, k, e, s, holds);
      if !e.verdict.Stopped? {
        YearKeeps(s, p, times, todo[k := false], holds);
      }
    }
  }

  lemma NextRoundsKeep(p: Place, holds: State -> bool)
    requires RoundsKeep(p, holds)
    ensures RoundsKeep(NextYear(p), holds)
  {
    forall year: int, st: State, times: seq<int>, todo: seq<bool>, k: nat, e: Firing, s: State
      ensures RoundKeeps(NextYear(p).(year := year), st, times, todo, k, e, s, holds)
    {
      assert NextYear(p).(year := year) == p.(year := year);
      assert RoundKeeps(p.(year := year), st, times, todo, k, e, s, holds);
    }
  }

  lemma {:induction false} YearsKeep(st: State, p: Place, times: seq<int>, holds: State -> bool)
    requires StateOk(st) && ZoneOk(p.z) && TimesOk(p.z, times) && RunYears(st, p, times).Ok?
    requires RoundsKeep(p, holds) && holds(st)
    ensures holds(RunYears(st, p, times).value)
    decreases MAX_YEAR + 1 - p.year
  {
    if p.year <= MAX_YEAR && !(p.useuntil && p.year > p.z.untilHiyear) {
      var (s, m) := OneYear(st, p, times).value;
      YearKeeps(st, p, m, Marks(p.z, p.year), holds);
      NextRoundsKeep(p, holds);
      YearsKeep(s, NextYear(p), m, holds);
    }
  }

  // ---------------------------------------------------------------- offsets

  /** Any offset that can come into force while g is the offset of the zone. */
  predicate GmtWithin(zs: seq<Zone>, g: int, lo: int, spread: int) {
    && lo <= g <= lo + spread
    && forall b :: 0 <= b < |zs| ==> LineWithin(zs[b], g, lo, spread)
  }

  predicate LineWithin(z: Zone, g: int, lo: int, spread: int) {
    && (z.rules == [] ==> lo <= g + z.stdoff <= lo + spread)
    && forall r :: r in z.rules ==> lo <= g + r.stdoff <= lo + spread
  }

  predicate ZoneWithin(zs: seq<Zone>, lo: int, spread: int) {
    forall a :: 0 <= a < |zs| ==> GmtWithin(zs, zs[a].gmtoff, lo, spread)
  }

  predicate TypesWithin(t: Tables, lo: int, spread: int) {
    forall k :: 0 <= k < |t.gmtoffs| ==> lo <= t.gmtoffs[k] <= lo + spread
  }

  /** All offsets a state holds lie within the range. */
  predicate Within(st: State, zs: seq<Zone>, lo: int, spread: int) {
    && GmtWithin(zs, st.gmtoff, lo, spread) && lo <= st.gmtoff + st.stdoff <= lo + spread
    && TypesWithin(st.tables, lo, spread)
    && (st.start.Start? ==> lo <= st.start.gmtoff <= lo + spread)
  }

  lemma PerformWithin(st: State, op: Op, lo: int, spread: int)
    requires StateOk(st) && -2 * SECS_PER_DAY < op.gmtoff < 2 * SECS_PER_DAY && Perform(st, op).Ok?
    requires TypesWithin(st.tables, lo, spread) && lo <= op.gmtoff <= lo + spread
    ensures TypesWithin(Perform(st, op).value.tables, lo, spread)
  {
    var u := AddType(st.tables, op.gmtoff, op.abbr, op.isdst).value.0;
    assert u.gmtoffs == st.tables.gmtoffs || u.gmtoffs == st.tables.gmtoffs + [op.gmtoff];
  }

  lemma TakeWithin(st: State, z: Zone, r: Rule, ktime: int, lo: int, spread: int)
    requires StateOk(st) && ZoneOk(z) && r in z.rules && Take(st, z, r, ktime).Ok?
    requires TypesWithin(st.tables, lo, spread) && (st.start.Start? ==> lo <= st.start.gmtoff <= lo + spread)
    requires lo <= z.gmtoff + r.stdoff <= lo + spread
    ensures var s := Take(st, z, r, ktime).value;
            TypesWithin(s.tables, lo, spread) && s.start == st.start && s.gmtoff == z.gmtoff && s.stdoff == r.stdoff
  {
    if st.usestart && ktime != st.starttime && st.start.Start? {
      PerformWithin(st, Transition(st.starttime, st.start.gmtoff, st.start.abbr, st.start.isdst), lo, spread);
    }
    var begun := Open(st, ktime).value;
    PerformWithin(begun, RuleOp(begun, z, r, ktime), lo, spread);
  }

  lemma FireWithin(st: State, zs: seq<Zone>, p: Place, k: nat, local: int, ktime: int, verdict: Verdict, s: State,
                   lo: int, spread: int)
    requires StateOk(st) && ZoneOk(p.z) && p.z in zs && k < |p.z.rules|
    requires Fire(st, p, k, local, ktime, verdict) == Ok(s)
    requires ZoneWithin(zs, lo, spread) && Within(st, zs, lo, spread)
    ensures Within(s, zs, lo, spread)
  {
    var i :| 0 <= i < |zs| && zs[i] == p.z;
    var r := p.z.rules[k];
    assert r in p.z.rules && GmtWithin(zs, zs[i].gmtoff, lo, spread) && LineWithin(zs[i], zs[i].gmtoff, lo, spread);
    assert LineWithin(zs[i], st.gmtoff, lo, spread);
    if verdict.Taken? {
      TakeWithin(Log(st, p, k, local, ktime, verdict), p.z, r, ktime, lo, spread);
    }
  }

  lemma LineStaysWithin(st: State, zs: seq<Zone>, i: nat, s: State, lo: int, spread: int)
    requires StateOk(st) && ZonesOk(zs) && i < |zs| && RunLine(st, zs, i) == Ok(s)
    requires ZoneWithin(zs, lo, spread) && Within(st, zs, lo, spread)
    ensures Within(s, zs, lo, spread)
  {
    var z, b := zs[i], LineStart(st, i);
    assert z in zs && GmtWithin(zs, z.gmtoff, lo, spread) && LineWithin(z, z.gmtoff, lo, spread);
    if z.rules == [] {
      PerformWithin(b, PlainOp(b, z), lo, spread);
    } else {
      var p := LinePlace(zs, i);
      var holds := (q: State) => Within(q, zs, lo, spread);
      forall year: int, q: State, times: seq<int>, todo: seq<bool>, k: nat, e: Firing, r: State
        ensures RoundKeeps(p.(year := year), q, times, todo, k, e, r, holds)
      {
        if ZoneOk(z) && StateOk(q) && TimesOk(z, times) && |todo| == |times|
           && Round(q, p.(year := year), times, todo, k, e, r) && holds(q) {
          FireWithin(q, zs, p.(year := year), k, times[k], e.time, e.verdict, r, lo, spread);
        }
      }
      YearsKeep(b, p, NoTimes(z), holds);
    }
  }

  // ---------------------------------------------------------------- times

  predicate AllBelow(ats: seq<int>, t: int) {
    forall k :: 0 <= k < |ats| ==> ats[k] < t
  }

  predicate AllUpTo(ats: seq<int>, t: int) {
    forall k :: 0 <= k < |ats| ==> ats[k] <= t
  }

  /** The times asked for increase; before the line has opened they are below its start, and then none is after
      the last firing. n is where the line's firings begin. */
  predicate Rising(st: State, n: nat) {
    && Increasing(Times(st.ops)) && n <= |st.fired|
    && (st.usestart ==> AllBelow(Times(st.ops), st.starttime))
    && (!st.usestart ==>
          Times(st.ops) == [] || (n < |st.fired| && AllUpTo(Times(st.ops), st.fired[|st.fired| - 1].time)))
  }

  lemma PerformRises(st: State, op: Op, t: int)
    requires StateOk(st) && -2 * SECS_PER_DAY < op.gmtoff < 2 * SECS_PER_DAY && Perform(st, op).Ok?
    requires Increasing(Times(st.ops)) && AllBelow(Times(st.ops), t) && (op.Transition? ==> op.time == t)
    ensures var s := Perform(st, op).value; Increasing(Times(s.ops)) && AllUpTo(Times(s.ops), t)
  {
    PerformWrites(st, op);
  }

  lemma OpenRises(st: State, ktime: int, begun: State)
    requires StateOk(st) && Open(st, ktime) == Ok(begun) && Increasing(Times(st.ops))
    requires if st.usestart then st.starttime <= ktime && AllBelow(Times(st.ops), st.starttime)
             else AllBelow(Times(st.ops), ktime)
    ensures Increasing(Times(begun.ops)) && AllBelow(Times(begun.ops), ktime) && !begun.usestart
    ensures begun.fired == st.fired
  {
    if st.usestart && ktime != st.starttime && st.start.Start? {
      PerformRises(st, Transition(st.starttime, st.start.gmtoff, st.start.abbr, st.start.isdst), st.starttime);
    }
  }

  lemma TakeRises(st: State, z: Zone, r: Rule, ktime: int, s: State)
    requires StateOk(st) && ZoneOk(z) && r in z.rules && Take(st, z, r, ktime) == Ok(s) && Increasing(Times(st.ops))
    requires if st.usestart then st.starttime <= ktime && AllBelow(Times(st.ops), st.starttime)
             else AllBelow(Times(st.ops), ktime)
    ensures Increasing(Times(s.ops)) && AllUpTo(Times(s.ops), ktime) && !s.usestart && s.fired == st.fired
  {
    var begun := Open(st, ktime).value;
    OpenRises(st, ktime, begun);
    PerformRises(begun, RuleOp(begun, z, r, ktime), ktime);
  }

  /** In order, e comes behind the last firing. */
  lemma LastBefore(fs: seq<Firing>, e: Firing, n: nat)
    requires n < |fs| && InOrder((fs + [e])[n..])
    ensures fs[|fs| - 1].time < e.time
  {
    var gs := (fs + [e])[n..];
    assert gs[|fs| - 1 - n] == fs[|fs| - 1] && gs[|fs| - n] == e;
  }

  lemma TakenRises(st: State, p: Place, k: nat, local: int, ktime: int, s: State)
    requires ZoneOk(p.z) && StateOk(st) && k < |p.z.rules| && Fire(st, p, k, local, ktime, Taken) == Ok(s)
    requires Increasing(Times(st.ops))
    requires if st.usestart then st.starttime <= ktime && AllBelow(Times(st.ops), st.starttime)
             else AllBelow(Times(st.ops), ktime)
    ensures Increasing(Times(s.ops)) && AllUpTo(Times(s.ops), ktime) && !s.usestart
  {
    assert p.z.rules[k] in p.z.rules;
    TakeRises(Log(st, p, k, local, ktime, Taken), p.z, p.z.rules[k], ktime, s);
  }

  lemma SkippedRises(st: State, e: Firing, s: State, n: nat)
    requires Rising(st, n) && s.fired == st.fired + [e] && (n < |st.fired| ==> st.fired[|st.fired| - 1].time < e.time)
    requires s.ops == st.ops && s.usestart == st.usestart && s.starttime == st.starttime
    ensures Rising(s, n)
  {
  }

  lemma FireRises(st: State, p: Place, k: nat, local: int, e: Firing, s: State, n: nat)
    requires ZoneOk(p.z) && StateOk(st) && k < |p.z.rules| && Fire(st, p, k, local, e.time, e.verdict) == Ok(s)
    requires e.verdict.Taken? && st.usestart ==> st.starttime <= e.time
    requires Rising(st, n) && s.fired == st.fired + [e] && (n < |st.fired| ==> st.fired[|st.fired| - 1].time < e.time)
    ensures Rising(s, n)
  {
    if e.verdict.Taken? {
      TakenRises(st, p, k, local, e.time, s);
    } else {
      FireKeepsStart(st, p, k, local, e.time, e.verdict);
      SkippedRises(st, e, s, n);
    }
  }

  lemma RoundRises(st: State, p: Place, times: seq<int>, todo: seq<bool>, k: nat, e: Firing, s: State, n: nat)
    requires ZoneOk(p.z) && StateOk(st) && TimesOk(p.z, times) && |todo| == |times|
    requires Round(st, p, times, todo, k, e, s)
    requires Rising(st, n) && InOrder(s.fired[n..])
    ensures Rising(s, n)
  {
    if n < |st.fired| {
      LastBefore(st.fired, e, n);
    }
    FireRises(st, p, k, times[k], e, s, n);
  }

  lemma OrderedBefore(fs: seq<Firing>, gs: seq<Firing>, n: nat)
    requires fs <= gs && n <= |fs| && InOrder(gs[n..])
    ensures InOrder(fs[n..])
  {
    assert forall i :: 0 <= i < |fs[n..]| ==> fs[n..][i] == gs[n..][i];
  }

  /** Where a line's firings are in order, its times rise. */
  lemma YearsRise(st: State, p: Place, times: seq<int>, s: State)
    requires StateOk(st) && ZoneOk(p.z) && TimesOk(p.z, times) && RunYears(st, p, times) == Ok(s)
    requires Rising(st, |st.fired|) && |st.fired| <= |s.fired| && InOrder(s.fired[|st.fired|..])
    ensures Rising(s, |st.fired|)
  {
    var n := |st.fired|;
    var holds := (q: State) => n <= |q.fired| && (q.fired <= s.fired ==> Rising(q, n));
    forall year: int, q: State, ts: seq<int>, todo: seq<bool>, k: nat, e: Firing, r: State
      ensures RoundKeeps(p.(year := year), q, ts, todo, k, e, r, holds)
    {
      if StateOk(q) && TimesOk(p.z, ts) && |todo| == |ts| && Round(q, p.(year := year), ts, todo, k, e, r) && holds(q)
         && r.fired <= s.fired {
        OrderedBefore(r.fired, s.fired, n);
        RoundRises(q, p.(year := year), ts, todo, k, e, r, n);
      }
    }
    YearsKeep(st, p, times, holds);
  }

  // ---------------------------------------------------------------- one line

  /** e fired under offsets within the range. */
  predicate FiredWithin(e: Firing, lo: int, spread: int) {
    Near(e, lo, spread) && lo <= e.gmtoff <= lo + spread && lo <= e.gmtoff + e.stdoff <= lo + spread
  }

  predicate AllFiredWithin(fs: seq<Firing>, lo: int, spread: int) {
    forall i :: 0 <= i < |fs| ==> FiredWithin(fs[i], lo, spread)
  }

  /** The invariant of a line whose firings begin at n. */
  predicate FiringWithin(q: State, zs: seq<Zone>, n: nat, lo: int, spread: int) {
    Within(q, zs, lo, spread) && n <= |q.fired| && AllFiredWithin(q.fired[n..], lo, spread)
  }

  lemma RoundFiresWithin(zs: seq<Zone>, p: Place, st: State, times: seq<int>, todo: seq<bool>, k: nat, e: Firing,
                         s: State, n: nat, lo: int, spread: int)
    requires ZoneOk(p.z) && p.z in zs && StateOk(st) && TimesOk(p.z, times) && |todo| == |times|
    requires Round(st, p, times, todo, k, e, s) && ZoneWithin(zs, lo, spread) && FiringWithin(st, zs, n, lo, spread)
    ensures FiringWithin(s, zs, n, lo, spread)
  {
    FireWithin(st, zs, p, k, times[k], e.time, e.verdict, s, lo, spread);
    assert s.fired[n..] == st.fired[n..] + [e] && FiredWithin(e, lo, spread);
  }

  lemma YearsFireWithin(st: State, zs: seq<Zone>, p: Place, times: seq<int>, s: State, lo: int, spread: int)
    requires StateOk(st) && ZoneOk(p.z) && p.z in zs && TimesOk(p.z, times) && RunYears(st, p, times) == Ok(s)
    requires ZoneWithin(zs, lo, spread) && Within(st, zs, lo, spread)
    ensures FiringWithin(s, zs, |st.fired|, lo, spread)
  {
    var n := |st.fired|;
    var holds := (q: State) => FiringWithin(q, zs, n, lo, spread);
    forall year: int, q: State, ts: seq<int>, todo: seq<bool>, k: nat, e: Firing, r: State
      ensures RoundKeeps(p.(year := year), q, ts, todo, k, e, r, holds)
    {
      if StateOk(q) && TimesOk(p.z, ts) && |todo| == |ts| && Round(q, p.(year := year), ts, todo, k, e, r) && holds(q) {
        RoundFiresWithin(zs, p.(year := year), q, ts, todo, k, e, r, n, lo, spread);
      }
    }
    assert st.fired[n..] == [];
    YearsKeep(st, p, times, holds);
  }

  /** No local time of the line is near its UNTIL. */
  ghost predicate ApartFromUntil(z: Zone, spread: int)
    requires ZoneOk(z)
  {
    && !Saturated(z.untiltime)
    && forall a: nat, y: int :: FiresIn(z, a, y) ==>
         LocalTime(z, a, y) + spread < z.untiltime || z.untiltime + spread < LocalTime(z, a, y)
  }

  /** Local times and UNTIL times are further apart than the offsets of the zone can differ. */
  ghost predicate SpacedZone(zs: seq<Zone>, lo: int, spread: int)
    requires ZonesOk(zs)
  {
    && spread >= 0 && ZoneWithin(zs, lo, spread)
    && (forall i :: 0 <= i < |zs| ==> ZoneOk(zs[i]) && SpacedBy(zs[i], spread))
    && (forall i :: 0 <= i < |zs| - 1 ==> ApartFromUntil(zs[i], spread))
    && forall i, j :: 0 <= i < j < |zs| - 1 ==> zs[i].untiltime + spread < zs[j].untiltime
  }

  /** The state in which line i starts, or after the last line. */
  predicate Ready(st: State, zs: seq<Zone>, i: nat, lo: int, spread: int) {
    && StateOk(st) && Within(st, zs, lo, spread) && Increasing(Times(st.ops))
    && (i == 0 ==> Times(st.ops) == [] && !st.usestart)
    && (0 < i < |zs| ==>
          && AllBelow(Times(st.ops), st.starttime)
          && zs[i - 1].untiltime - lo - spread <= st.starttime <= zs[i - 1].untiltime - lo)
  }

  lemma UntilWithin(p: Place, e: Firing, lo: int, spread: int, u: Outcome<int>)
    requires ZoneOk(p.z) && p.useuntil && !Saturated(p.z.untiltime) && FiredWithin(e, lo, spread)
    requires -SECS_PER_DAY < e.gmtoff < SECS_PER_DAY && -SECS_PER_DAY < e.stdoff < SECS_PER_DAY
    requires u == ToGmt(p.z.untiltime, p.z.untilTodisstd, e.gmtoff, e.stdoff)
    ensures u.Ok? ==> u.value <= p.z.untiltime - lo
  {
  }

  /** A rule that fires before UNTIL is before it by more than the spread. */
  lemma FarFromUntil(p: Place, e: Firing, lo: int, spread: int)
    requires ZoneOk(p.z) && p.useuntil && ApartFromUntil(p.z, spread) && spread >= 0
    requires Genuine(p.line, p.z, e) && FiredWithin(e, lo, spread) && BeforeUntil(p, e, e.time)
    ensures e.time < p.z.untiltime - lo - spread
  {
    UntilWithin(p, e, lo, spread, ToGmt(p.z.untiltime, p.z.untilTodisstd, e.gmtoff, e.stdoff));
    assert FiresIn(p.z, e.rule, e.year) && e.local == LocalTime(p.z, e.rule, e.year);
  }

  /** Taken firings are before UNTIL. */
  predicate TakenInTime(p: Place, fs: seq<Firing>)
    requires ZoneOk(p.z)
  {
    forall f :: 0 <= f < |fs| && fs[f].verdict.Taken? ==> BeforeUntil(p, fs[f], fs[f].time)
  }

  lemma JustifiedInTime(p: Place, starttime: int, fs: seq<Firing>)
    requires ZoneOk(p.z) && forall f :: 0 <= f < |fs| ==> Justified(p, starttime, fs[f])
    ensures TakenInTime(p, fs)
  {
  }

  /** Whatever a line with an UNTIL writes is before it by more than the spread. */
  lemma WrittenIsBelow(p: Place, starttime: int, fs: seq<Firing>, t: int, lo: int, spread: int)
    requires ZoneOk(p.z) && p.useuntil && ApartFromUntil(p.z, spread) && spread >= 0 && AllFiredWithin(fs, lo, spread)
    requires TakenInTime(p, fs) && Accounted(p, starttime, fs, t)
    requires forall f :: 0 <= f < |fs| ==> Genuine(p.line, p.z, fs[f])
    ensures t < p.z.untiltime - lo - spread
  {
    var f :| 0 <= f < |fs| && WrittenFor(p, starttime, fs, f, t);
    FarFromUntil(p, fs[f], lo, spread);
  }

  /** A line only adds to the times. */
  lemma YearsExtend(st: State, p: Place, times: seq<int>, s: State)
    requires StateOk(st) && ZoneOk(p.z) && TimesOk(p.z, times) && RunYears(st, p, times) == Ok(s)
    ensures Times(st.ops) <= Times(s.ops)
  {
    var holds := (q: State) => Times(st.ops) <= Times(q.ops);
    forall year: int, q: State, ts: seq<int>, todo: seq<bool>, k: nat, e: Firing, r: State
      ensures RoundKeeps(p.(year := year), q, ts, todo, k, e, r, holds)
    {
      if StateOk(q) && TimesOk(p.z, ts) && |todo| == |ts| && Round(q, p.(year := year), ts, todo, k, e, r) && holds(q) {
        FireWrites(q, p.(year := year), k, ts[k], e.time, e.verdict);
      }
    }
    YearsKeep(st, p, times, holds);
  }

  lemma RuleLineRises(st: State, zs: seq<Zone>, i: nat, s: State, lo: int, spread: int)
    requires ZonesOk(zs) && i < |zs| && SpacedZone(zs, lo, spread) && Ready(st, zs, i, lo, spread)
    requires zs[i].rules != [] && RunLine(st, zs, i) == Ok(s)
    ensures Increasing(Times(s.ops)) && Times(st.ops) <= Times(s.ops)
    ensures st.fired <= s.fired && InOrder(s.fired[|st.fired|..])
  {
    var z, b := zs[i], LineStart(st, i);
    assert z in zs && GmtWithin(zs, z.gmtoff, lo, spread);
    assert LineWithin(z, z.gmtoff, lo, spread) && LineWithin(z, st.gmtoff, lo, spread);
    assert InForce(st, z, lo, spread);
    LineIsLogged(st, zs, i);
    LineStartsOnTime(st, zs, i, lo, spread);
    YearsRise(b, LinePlace(zs, i), NoTimes(z), s);
    YearsExtend(b, LinePlace(zs, i), NoTimes(z), s);
  }

  /** The times a rule-driven line adds are before its UNTIL. */
  lemma RuleLineBelow(st: State, zs: seq<Zone>, i: nat, s: State, k: nat, lo: int, spread: int)
    requires ZonesOk(zs) && i < |zs| - 1 && SpacedZone(zs, lo, spread) && Ready(st, zs, i, lo, spread)
    requires zs[i].rules != [] && RunLine(st, zs, i) == Ok(s) && |Times(st.ops)| <= k < |Times(s.ops)|
    ensures Times(s.ops)[k] < zs[i].untiltime - lo - spread
  {
    var z, p := zs[i], LinePlace(zs, i);
    assert z in zs;
    LineIsAccounted(st, zs, i);
    var fs := s.fired[|st.fired|..];
    YearsFireWithin(LineStart(st, i), zs, p, NoTimes(z), s, lo, spread);
    JustifiedInTime(p, st.starttime, fs);
    WrittenIsBelow(p, st.starttime, fs, Times(s.ops)[k], lo, spread);
  }

  /** A line without rules writes at its start or not at all. */
  lemma PlainLineRises(st: State, zs: seq<Zone>, i: nat, s: State, lo: int, spread: int)
    requires ZonesOk(zs) && i < |zs| && SpacedZone(zs, lo, spread) && Ready(st, zs, i, lo, spread)
    requires zs[i].rules == [] && RunLine(st, zs, i) == Ok(s)
    ensures Increasing(Times(s.ops)) && Times(st.ops) <= Times(s.ops)
    ensures forall k :: |Times(st.ops)| <= k < |Times(s.ops)| ==> i > 0 && Times(s.ops)[k] == st.starttime
  {
    assert zs[i] in zs;
    var b := LineStart(st, i);
    PerformWrites(b, PlainOp(b, zs[i]));
  }

  /** What the lines before have written is before UNTIL. */
  lemma EarlierIsBelow(st: State, zs: seq<Zone>, i: nat, lo: int, spread: int)
    requires ZonesOk(zs) && i < |zs| - 1 && SpacedZone(zs, lo, spread) && Ready(st, zs, i, lo, spread)
    ensures AllBelow(Times(st.ops), zs[i].untiltime - lo - spread)
    ensures i > 0 ==> st.starttime < zs[i].untiltime - lo - spread
  {
    if i > 0 {
      assert zs[i - 1].untiltime + spread < zs[i].untiltime;
    }
  }

  lemma LineRises(st: State, zs: seq<Zone>, i: nat, s: State, lo: int, spread: int)
    requires ZonesOk(zs) && i < |zs| && SpacedZone(zs, lo, spread) && Ready(st, zs, i, lo, spread)
    requires RunLine(st, zs, i) == Ok(s)
    ensures Increasing(Times(s.ops))
    ensures i < |zs| - 1 ==> AllBelow(Times(s.ops), zs[i].untiltime - lo - spread)
  {
    if zs[i].rules == [] {
      PlainLineRises(st, zs, i, s, lo, spread);
    } else {
      RuleLineRises(st, zs, i, s, lo, spread);
    }
    if i < |zs| - 1 {
      EarlierIsBelow(st, zs, i, lo, spread);
      forall k | 0 <= k < |Times(s.ops)| ensures Times(s.ops)[k] < zs[i].untiltime - lo - spread {
        if |Times(st.ops)| <= k && zs[i].rules != [] {
          RuleLineBelow(st, zs, i, s, k, lo, spread);
        }
      }
    }
  }

  // ---------------------------------------------------------------- the zone

  lemma NextStartReady(s: State, zs: seq<Zone>, i: nat, stray: nat, n: State, lo: int, spread: int)
    requires ZonesOk(zs) && i < |zs| - 1 && SpacedZone(zs, lo, spread) && StateOk(s) && ZoneOk(zs[i])
    requires Within(s, zs, lo, spread) && Increasing(Times(s.ops))
    requires AllBelow(Times(s.ops), zs[i].untiltime - lo - spread) && NextStart(s, zs[i], stray) == Ok(n)
    ensures Ready(n, zs, i + 1, lo, spread)
  {
    assert ApartFromUntil(zs[i], spread);
    var off := s.tables.gmtoffs[LastType(s.tables, stray)];
    assert lo <= off <= lo + spread && off in s.tables.gmtoffs;
    assert n.starttime == zs[i].untiltime - off;
  }

  lemma StepReady(st: State, zs: seq<Zone>, i: nat, stray: nat, n: State, lo: int, spread: int)
    requires ZonesOk(zs) && i < |zs| && SpacedZone(zs, lo, spread) && Ready(st, zs, i, lo, spread)
    requires StepLine(zs, stray, st, i) == Ok(n)
    ensures Ready(n, zs, i + 1, lo, spread)
  {
    var s := RunLine(st, zs, i).value;
    assert zs[i] in zs;
    LineRises(st, zs, i, s, lo, spread);
    LineStaysWithin(st, zs, i, s, lo, spread);
    if i < |zs| - 1 {
      NextStartReady(s, zs, i, stray, n, lo, spread);
    }
  }

  lemma InitialReady(zs: seq<Zone>, lo: int, spread: int)
    requires ZonesOk(zs) && SpacedZone(zs, lo, spread)
    ensures Ready(Initial(zs), zs, 0, lo, spread)
  {
    InitialGoing(zs);
    assert GmtWithin(zs, zs[0].gmtoff, lo, spread);
  }

  predicate ReadyKept(zs: seq<Zone>, n: Outcome<State>, s: State, j: nat, lo: int, spread: int) {
    j < |zs| && Ready(s, zs, j, lo, spread) && n.Ok? ==> Ready(n.value, zs, j + 1, lo, spread)
  }

  lemma StepsKeepReady(zs: seq<Zone>, stray: nat, lo: int, spread: int, step: (State, nat) -> Outcome<State>)
    requires ZonesOk(zs) && SpacedZone(zs, lo, spread) && step == LineStep(zs, stray)
    ensures forall s: State, j: nat :: ReadyKept(zs, step(s, j), s, j, lo, spread)
  {
    forall s: State, j: nat ensures ReadyKept(zs, step(s, j), s, j, lo, spread) {
      if j < |zs| && Ready(s, zs, j, lo, spread) && step(s, j).Ok? {
        StepReady(s, zs, j, stray, step(s, j).value, lo, spread);
      }
    }
  }

  lemma IterateReady(zs: seq<Zone>, lo: int, spread: int, step: (State, nat) -> Outcome<State>, st: State)
    requires Ready(st, zs, 0, lo, spread) && Iterate(step, st, |zs|).Ok?
    requires forall s: State, j: nat :: ReadyKept(zs, step(s, j), s, j, lo, spread)
    ensures Ready(Iterate(step, st, |zs|).value, zs, |zs|, lo, spread)
  {
    var ready := (s: State, j: nat) => Ready(s, zs, j, lo, spread);
    forall s: State, j: nat | j < |zs| && ready(s, j) && step(s, j).Ok? ensures ready(step(s, j).value, j + 1) {
      assert ReadyKept(zs, step(s, j), s, j, lo, spread);
    }
    IterateKeeps(step, st, |zs|, ready);
  }

  /** A zone of any number of lines, with and without rules. If local times and UNTIL times are further apart than
      the offsets can differ, transitions are asked for in the order of their times, through every line and from
      line to line. */
  lemma ZoneInOrder(zs: seq<Zone>, stray: nat, lo: int, spread: int)
    requires ZonesOk(zs) && SpacedZone(zs, lo, spread) && RunZone(zs, stray).Ok?
    ensures Increasing(Times(RunZone(zs, stray).value.ops))
  {
    var step := LineStep(zs, stray);
    InitialReady(zs, lo, spread);
    StepsKeepReady(zs, stray, lo, spread, step);
    RunIsIterated(zs, stray);
    IterateReady(zs, lo, spread, step, Initial(zs));
  }
}
