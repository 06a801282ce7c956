/** A zone of one line: the transitions written for it answer every look-up with the type of the
    last rule that fired. */
module ZicLookup {
  import opened Machine
  import opened ZicTime
  import opened ZicTables
  import opened ZicOutzone
  import opened ZicFirings
  import opened ZicRuns

  /** How localtime uses a time zone file: the last transition at or before t. */
  function LastAt(ats: seq<int>, t: int): (i: int)
    ensures -1 <= i < |ats|
    ensures i >= 0 ==> ats[i] <= t
    ensures forall j :: i < j < |ats| ==> ats[j] > t
  {
    if ats == [] then -1
    else if ats[|ats| - 1] <= t then |ats| - 1
    else LastAt(ats[..|ats| - 1], t)
  }

  function LastFired(fs: seq<Firing>, t: int): (i: int)
    ensures -1 <= i < |fs|
    ensures i >= 0 ==> fs[i].time <= t
    ensures forall j :: i < j < |fs| ==> fs[j].time > t
  {
    if fs == [] then -1
    else if fs[|fs| - 1].time <= t then |fs| - 1
    else LastFired(fs[..|fs| - 1], t)
  }

  predicate Increasing(ats: seq<int>) {
    forall i, j :: 0 <= i < j < |ats| ==> ats[i] < ats[j]
  }

  /** Type i of the table is the one rule r stands for on line z. */
  predicate IsRuleType(t: Tables, i: nat, z: Zone, r: Rule)
    requires Shaped(t)
  {
    IsType(t, i, z.gmtoff + r.stdoff, Expand(z.format, r.abbrvar), r.stdoff != 0)
  }

  /** The table at t agrees with the log at t. */
  predicate AnswersAt(tables: Tables, fs: seq<Firing>, z: Zone, t: int)
    requires Shaped(tables)
  {
    tables.ats != [] && tables.ats[0] <= t ==>
      var f := LastFired(fs, t);
      var i := LastAt(tables.ats, t);
      && f >= 0 && fs[f].rule < |z.rules| && i >= 0
      && IsRuleType(tables, tables.types[i], z, z.rules[fs[f].rule])
  }

  /** The table describes the firings so far. */
  ghost predicate Faithful(st: State, z: Zone) {
    && StateOk(st) && Sound(st.tables) && Increasing(st.tables.ats)
    && (forall k :: 0 <= k < |st.tables.ats| ==> st.fired != [] && st.tables.ats[k] <= st.fired[|st.fired| - 1].time)
    && forall t :: AnswersAt(st.tables, st.fired, z, t)
  }

  lemma TypesKeepMeaning(t: Tables, u: Tables, i: nat, z: Zone, r: Rule)
    requires Shaped(t) && Shaped(u) && Extends(t, u) && IsRuleType(t, i, z, r)
    ensures IsRuleType(u, i, z, r)
  {
    assert Name(t, i) == Name(u, i);
  }

  /** Looking up before an appended entry ignores it. */
  lemma BeforeAppended(ats: seq<int>, fs: seq<Firing>, e: Firing, t: int)
    requires t < e.time
    ensures LastAt(ats + [e.time], t) == LastAt(ats, t)
    ensures LastFired(fs + [e], t) == LastFired(fs, t)
  {
    assert (ats + [e.time])[..|ats|] == ats && (fs + [e])[..|fs|] == fs;
  }

  /** Looking up at or after the newest firing finds the newest transition. */
  lemma AtNewest(t0: Tables, e: Firing, kind: nat, t1: Tables, t: int)
    requires Shaped(t0) && AddTt(t0, e.time, kind) == Ok(t1) && e.time <= t
    requires forall k :: 0 <= k < |t0.ats| ==> t0.ats[k] <= e.time
    ensures LastAt(t1.ats, t) == |t1.ats| - 1 && t1.types != [] && t1.types[|t1.types| - 1] == kind
  {
  }

  /** The two ways a firing changes the table u, to which its type has already been added. */
  predicate Added(u: Tables, time: int, kind: nat, t1: Tables) {
    (t1 == u && u.ats == []) || AddTt(u, time, kind) == Ok(t1)
  }

  /** One firing: the table after addtype and addtt still answers every look-up. */
  lemma FiringAnswers(fs: seq<Firing>, z: Zone, e: Firing, u: Tables, kind: nat, t1: Tables, t: int)
    requires Sound(u) && Sound(t1) && Added(u, e.time, kind, t1) && Extends(u, t1)
    requires e.rule < |z.rules| && IsRuleType(u, kind, z, z.rules[e.rule])
    requires forall k :: 0 <= k < |u.ats| ==> u.ats[k] < e.time
    requires AnswersAt(u, fs, z, t)
    ensures AnswersAt(t1, fs + [e], z, t)
  {
    if t1.ats != [] && t1.ats[0] <= t {
      if e.time <= t {
        AtNewest(u, e, kind, t1, t);
        TypesKeepMeaning(u, t1, kind, z, z.rules[e.rule]);
        assert LastFired(fs + [e], t) == |fs|;
      } else {
        BeforeAppended(u.ats, fs, e, t);
        assert u.ats != [] && u.ats[0] <= t;
        var f, i := LastFired(fs, t), LastAt(u.ats, t);
        assert t1.ats == u.ats || t1.ats == u.ats + [e.time];
        assert LastAt(t1.ats, t) == i && t1.types[i] == u.types[i];
        TypesKeepMeaning(u, t1, u.types[i], z, z.rules[fs[f].rule]);
      }
    }
  }

  lemma TypeAddedAnswers(t0: Tables, u: Tables, fs: seq<Firing>, z: Zone, t: int)
    requires Shaped(t0) && Shaped(u) && Extends(t0, u) && u.ats == t0.ats && u.types == t0.types
    requires AnswersAt(t0, fs, z, t)
    ensures AnswersAt(u, fs, z, t)
  {
    if u.ats != [] && u.ats[0] <= t {
      var f, i := LastFired(fs, t), LastAt(u.ats, t);
      TypesKeepMeaning(t0, u, t0.types[i], z, z.rules[fs[f].rule]);
    }
  }

  /** Settling a rule on a one-line zone: a type, and a transition unless nothing was written yet. */
  lemma SettleAdds(st: State, z: Zone, r: Rule, ktime: int) returns (u: Tables, kind: nat)
    requires StateOk(st) && ZoneOk(z) && r in z.rules && Sound(st.tables) && Settle(st, z, r, ktime).Ok?
    ensures Sound(u) && Extends(st.tables, u) && u.ats == st.tables.ats && u.types == st.tables.types
    ensures IsRuleType(u, kind, z, r)
    ensures var s := Settle(st, z, r, ktime).value;
            Added(u, ktime, kind, s.tables) && Sound(s.tables) && Extends(u, s.tables) && s.fired == st.fired
  {
    var op := RuleOp(st, z, r, ktime);
    AddTypeIsSound(st.tables, op.gmtoff, op.abbr, op.isdst);
    var a := AddType(st.tables, op.gmtoff, op.abbr, op.isdst).value;
    u, kind := a.0, a.1;
    if op.Transition? {
      AddTtIsSound(u, ktime, kind);
    } else {
      NamesKept(u, u);
    }
  }

  /** FiringAnswers at every instant, with the times still increasing. */
  lemma FiringFaithful(t0: Tables, fs: seq<Firing>, z: Zone, e: Firing, u: Tables, kind: nat, t1: Tables)
    requires Shaped(t0) && Sound(u) && Sound(t1) && Extends(t0, u) && u.ats == t0.ats && u.types == t0.types
    requires Added(u, e.time, kind, t1) && Extends(u, t1)
    requires e.rule < |z.rules| && IsRuleType(u, kind, z, z.rules[e.rule])
    requires Increasing(t0.ats) && forall k :: 0 <= k < |t0.ats| ==> t0.ats[k] < e.time
    requires forall t :: AnswersAt(t0, fs, z, t)
    ensures Increasing(t1.ats) && forall k :: 0 <= k < |t1.ats| ==> t1.ats[k] <= e.time
    ensures forall t :: AnswersAt(t1, fs + [e], z, t)
  {
    assert t1.ats == t0.ats || t1.ats == t0.ats + [e.time];
    forall t
      ensures AnswersAt(t1, fs + [e], z, t)
    {
      TypeAddedAnswers(t0, u, fs, z, t);
      FiringAnswers(fs, z, e, u, kind, t1, t);
    }
  }

  lemma RoundSettles(st: State, p: Place, times: seq<int>, todo: seq<bool>, k: nat, e: Firing, s: State)
    requires StateOk(st) && ZoneOk(p.z) && TimesOk(p.z, times) && |todo| == |times|
    requires Round(st, p, times, todo, k, e, s) && !p.useuntil && !st.usestart
    ensures e.verdict.Taken? && e.rule == k && p.z.rules[k] in p.z.rules && !s.usestart
    ensures Settle(Log(st, p, k, times[k], e.time, Taken), p.z, p.z.rules[k], e.time) == Ok(s)
  {
    FireKeepsStart(st, p, k, times[k], e.time, e.verdict);
  }

  lemma RoundFaithful(st: State, p: Place, times: seq<int>, todo: seq<bool>, k: nat, e: Firing, s: State)
    requires StateOk(st) && ZoneOk(p.z) && TimesOk(p.z, times) && |todo| == |times|
    requires Round(st, p, times, todo, k, e, s) && Faithful(st, p.z) && !p.useuntil && !st.usestart
    requires st.fired != [] ==> st.fired[|st.fired| - 1].time < e.time
    ensures Faithful(s, p.z) && !s.usestart
  {
    RoundSettles(st, p, times, todo, k, e, s);
    var logged := Log(st, p, k, times[k], e.time, Taken);
    var u, kind := SettleAdds(logged, p.z, p.z.rules[k], e.time);
    FiringFaithful(st.tables, st.fired, p.z, e, u, kind, s.tables);
  }

  lemma {:induction false} YearFaithful(st: State, p: Place, times: seq<int>, todo: seq<bool>)
    requires StateOk(st) && ZoneOk(p.z) && TimesOk(p.z, times) && |todo| == |times|
    requires RunYear(st, p, times, todo).Ok? && InOrder(RunYear(st, p, times, todo).value.fired)
    requires Faithful(st, p.z) && !p.useuntil && !st.usestart
    ensures Faithful(RunYear(st, p, times, todo).value, p.z) && !RunYear(st, p, times, todo).value.usestart
    decreases CountTrue(todo)
  {
    var over, k, e, s := Unroll(st, p, times, todo);
    if !over {
      var end := RunYear(st, p, times, todo).value;
      if !e.verdict.Stopped? {
        YearFirings(s, p, times, todo[k := false]);
      }
      assert s.fired <= end.fired && end.fired[|st.fired|] == e;
      if st.fired != [] {
        assert end.fired[|st.fired| - 1] == st.fired[|st.fired| - 1];
      }
      RoundFaithful(st, p, times, todo, k, e, s);
      YearFaithful(s, p, times, todo[k := false]);
    }
  }

  lemma {:induction false} YearsFaithful(st: State, p: Place, times: seq<int>)
    requires StateOk(st) && ZoneOk(p.z) && TimesOk(p.z, times) && MIN_YEAR <= p.year <= MAX_YEAR + 1
    requires RunYears(st, p, times).Ok? && InOrder(RunYears(st, p, times).value.fired)
    requires LineFirings(p, st.starttime, st.fired) && Distinct(st.fired)
    requires Faithful(st, p.z) && !p.useuntil && !st.usestart
    ensures Faithful(RunYears(st, p, times).value, p.z)
    decreases MAX_YEAR + 1 - p.year
  {
    if p.year <= MAX_YEAR {
      var (s, m) := OneYear(st, p, times).value;
      var end := RunYears(st, p, times).value;
      assert st.fired[0..] == st.fired && s.fired[0..] == s.fired;
      OneYearFirings(st, p, times, 0);
      YearsFirings(s, NextYear(p), m, 0);
      assert s.fired <= end.fired;
      assert InOrder(s.fired) by {
        assert forall i :: 0 <= i < |s.fired| ==> s.fired[i] == end.fired[i];
      }
      YearFaithful(st, p, m, Marks(p.z, p.year));
      YearsFaithful(s, NextYear(p), m);
    }
  }

  predicate HasFired(fs: seq<Firing>, a: nat, y: int) {
    exists i :: 0 <= i < |fs| && fs[i].rule == a && fs[i].year == y
  }

  lemma OneYearIsComplete(st: State, p: Place, times: seq<int>, a: nat)
    requires StateOk(st) && ZoneOk(p.z) && TimesOk(p.z, times) && OneYear(st, p, times).Ok? && !p.useuntil
    requires FiresIn(p.z, a, p.year)
    ensures HasFired(OneYear(st, p, times).value.0.fired, a, p.year)
  {
    var m := OneYear(st, p, times).value.1;
    CandidatesFire(p.z, p.year, times, m, a);
    YearIsComplete(st, p, m, Marks(p.z, p.year), a);
  }

  lemma FirstYearIsComplete(st: State, p: Place, times: seq<int>, a: nat)
    requires StateOk(st) && ZoneOk(p.z) && TimesOk(p.z, times) && RunYears(st, p, times).Ok? && !p.useuntil
    requires MIN_YEAR <= p.year <= MAX_YEAR && FiresIn(p.z, a, p.year)
    requires LineFirings(p, st.starttime, st.fired[0..]) && Distinct(st.fired[0..])
    ensures HasFired(RunYears(st, p, times).value.fired, a, p.year)
  {
    var (s, m) := OneYear(st, p, times).value;
    OneYearFirings(st, p, times, 0);
    OneYearIsComplete(st, p, times, a);
    YearsFirings(s, NextYear(p), m, 0);
    FiredStays(s.fired, RunYears(st, p, times).value.fired, a, p.year);
  }

  lemma {:induction false} YearsAreComplete(st: State, p: Place, times: seq<int>, a: nat, y: int)
    requires StateOk(st) && ZoneOk(p.z) && TimesOk(p.z, times) && RunYears(st, p, times).Ok? && !p.useuntil
    requires MIN_YEAR <= p.year <= y <= MAX_YEAR && FiresIn(p.z, a, y)
    requires LineFirings(p, st.starttime, st.fired[0..]) && Distinct(st.fired[0..])
    ensures HasFired(RunYears(st, p, times).value.fired, a, y)
    decreases MAX_YEAR + 1 - p.year
  {
    if y == p.year {
      FirstYearIsComplete(st, p, times, a);
    } else {
      var (s, m) := OneYear(st, p, times).value;
      OneYearFirings(st, p, times, 0);
      YearsAreComplete(s, NextYear(p), m, a, y);
    }
  }

  lemma FiredStays(fs: seq<Firing>, gs: seq<Firing>, a: nat, y: int)
    requires fs <= gs && HasFired(fs, a, y)
    ensures HasFired(gs, a, y)
  {
    var i :| 0 <= i < |fs| && fs[i].rule == a && fs[i].year == y;
    assert gs[i] == fs[i];
  }

  /** A zone of one rule-driven line whose local firing times are further apart than its offsets can
      differ. Every rule fires exactly once in each of its years, in local-time order; the written
      times strictly increase; and a look-up at any instant from the first transition on gives
      offset, abbreviation and flag of the last rule fired. */
  lemma OneLineZone(z: Zone, lo: int, spread: int, stray: nat)
    requires ZoneOk(z) && z.rules != [] && RunZone([z], stray).Ok?
    requires spread >= 0 && SpacedBy(z, spread) && OffsetsWithin(z, z.gmtoff, lo, spread)
    ensures var s := RunZone([z], stray).value;
            && InOrder(s.fired) && Distinct(s.fired) && (forall i :: 0 <= i < |s.fired| ==> Genuine(0, z, s.fired[i]))
    ensures var s := RunZone([z], stray).value; forall a: nat, y: int :: FiresIn(z, a, y) ==> HasFired(s.fired, a, y)
    ensures var s := RunZone([z], stray).value;
            Shaped(s.tables) && Increasing(s.tables.ats) && forall t :: AnswersAt(s.tables, s.fired, z, t)
  {
    var zs := [z];
    var b := Initial(zs);
    var p := LinePlace(zs, 0);
    var s := RunYears(b, p, NoTimes(z)).value;
    assert LineStart(b, 0) == b;
    assert RunZone(zs, stray) == Ok(s) by {
      assert RunLine(b, zs, 0) == Ok(s);
      assert RunLines(b, zs, 0, stray) == RunLines(s, zs, 1, stray);
    }
    assert b.fired[0..] == [] && s.fired[0..] == s.fired;
    YearsFirings(b, p, NoTimes(z), 0);
    YearsInOrder(b, p, NoTimes(z), 0, lo, spread);
    YearsFaithful(b, p, NoTimes(z));
    forall a: nat, y: int | FiresIn(z, a, y)
      ensures HasFired(s.fired, a, y)
    {
      YearsAreComplete(b, p, NoTimes(z), a, y);
    }
  }
}
