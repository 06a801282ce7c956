/** zic.c, outzone: a spaced zone of any number of lines. At the time of every rule taken the tables give the type of
    the rule, or nothing if it is standard time that comes before the first transition. */
module ZicInForce {
  import opened Machine
  import opened ZicTime
  import opened ZicTables
  import opened ZicOutzone
  import opened ZicFirings
  import opened ZicRuns
  import opened ZicLookup
  import opened ZicSound
  import opened ZicAnswers
  import opened ZicZones

  // ---------------------------------------------------------------- what a rule asks for

  /** A transition to the type of a rule taken has been asked for at its time; or it is standard time, and whatever
      has been asked for is later. */
  predicate AskedFor(ops: seq<Op>, z: Zone, e: Firing)
    requires e.rule < |z.rules|
  {
    var r := z.rules[e.rule];
    || Transition(e.time, z.gmtoff + r.stdoff, Expand(z.format, r.abbrvar), r.stdoff != 0) in ops
    || (r.stdoff == 0 && AllAbove(Times(ops), e.time))
  }

  predicate AllAbove(ats: seq<int>, t: int) {
    forall k :: 0 <= k < |ats| ==> t < ats[k]
  }

  predicate Recorded(st: State, zs: seq<Zone>) {
    forall i :: 0 <= i < |st.fired| && st.fired[i].verdict.Taken? ==>
      && st.fired[i].line < |zs| && st.fired[i].rule < |zs[st.fired[i].line].rules|
      && AskedFor(st.ops, zs[st.fired[i].line], st.fired[i])
  }

  /** Something has been written exactly if something has been asked for. */
  predicate Paired(st: State) {
    st.tables.ats == [] <==> Times(st.ops) == []
  }

  lemma PerformPairs(st: State, op: Op, s: State)
    requires StateOk(st) && -2 * SECS_PER_DAY < op.gmtoff < 2 * SECS_PER_DAY && Perform(st, op) == Ok(s) && Paired(st)
    ensures Paired(s) && s.ops == st.ops + [op] && s.fired == st.fired
  {
    PerformWrites(st, op);
    var u := AddType(st.tables, op.gmtoff, op.abbr, op.isdst).value.0;
    assert u.types == st.tables.types && u.ats == st.tables.ats;
  }

  lemma OpenPairs(st: State, ktime: int, begun: State)
    requires StateOk(st) && Open(st, ktime) == Ok(begun) && Paired(st)
    ensures Paired(begun) && st.ops <= begun.ops && begun.fired == st.fired
  {
    if st.usestart && ktime != st.starttime && st.start.Start? {
      var op := Transition(st.starttime, st.start.gmtoff, st.start.abbr, st.start.isdst);
      PerformPairs(st, op, begun.(usestart := true));
    }
  }

  lemma SettlePairs(st: State, z: Zone, r: Rule, ktime: int, s: State)
    requires StateOk(st) && ZoneOk(z) && r in z.rules && Settle(st, z, r, ktime) == Ok(s) && Paired(st)
    ensures Paired(s) && s.ops == st.ops + [RuleOp(st, z, r, ktime)] && s.fired == st.fired
  {
    PerformPairs(st, RuleOp(st, z, r, ktime), s.(gmtoff := st.gmtoff, stdoff := st.stdoff));
  }

  predicate Asked(ops: seq<Op>, z: Zone, r: Rule, ktime: int) {
    || Transition(ktime, z.gmtoff + r.stdoff, Expand(z.format, r.abbrvar), r.stdoff != 0) in ops
    || (r.stdoff == 0 && Times(ops) == [])
  }

  lemma OpAsks(st: State, z: Zone, r: Rule, ktime: int, ops: seq<Op>)
    requires Paired(st) && ops == st.ops + [RuleOp(st, z, r, ktime)]
    ensures Asked(ops, z, r, ktime)
  {
    assert ops[|st.ops|] == RuleOp(st, z, r, ktime);
    TimesSnoc(st.ops, RuleOp(st, z, r, ktime));
  }

  /** What taking a rule asks for. */
  lemma TakeAsks(st: State, z: Zone, r: Rule, ktime: int, s: State)
    requires StateOk(st) && ZoneOk(z) && r in z.rules && Take(st, z, r, ktime) == Ok(s) && Paired(st)
    ensures Paired(s) && st.ops <= s.ops && s.fired == st.fired && Asked(s.ops, z, r, ktime)
  {
    var begun := Open(st, ktime).value;
    OpenPairs(st, ktime, begun);
    SettlePairs(begun, z, r, ktime, s);
    OpAsks(begun, z, r, ktime, s.ops);
  }

  /** What has been asked for stays so as long as nothing is asked for before it. */
  lemma StaysAskedFor(ops: seq<Op>, more: seq<Op>, z: Zone, e: Firing)
    requires ops <= more && e.rule < |z.rules| && AskedFor(ops, z, e)
    requires Times(ops) <= Times(more) && forall k :: |Times(ops)| <= k < |Times(more)| ==> e.time < Times(more)[k]
    ensures AskedFor(more, z, e)
  {
    assert forall op :: op in ops ==> op in more;
  }

  // ---------------------------------------------------------------- one round

  predicate TakenBelow(fs: seq<Firing>, t: int) {
    forall i :: 0 <= i < |fs| && fs[i].verdict.Taken? ==> fs[i].time < t
  }

  /** Before the line has opened all rules taken are before its start, and then none is after the last firing. n is
      where the line's firings begin. */
  predicate Noted(st: State, zs: seq<Zone>, n: nat) {
    && Paired(st) && Recorded(st, zs) && n <= |st.fired|
    && (st.usestart ==> TakenBelow(st.fired, st.starttime))
    && (!st.usestart ==>
          || (forall i :: 0 <= i < |st.fired| ==> !st.fired[i].verdict.Taken?)
          || (n < |st.fired| && TakenBelow(st.fired, st.fired[|st.fired| - 1].time + 1)))
  }

  /** All earlier rules taken are before e, and before the line's start if it has still to open. */
  lemma EarlierTaken(st: State, zs: seq<Zone>, n: nat, e: Firing)
    requires Noted(st, zs, n) && InOrder((st.fired + [e])[n..])
    requires e.verdict.Taken? && st.usestart ==> st.starttime <= e.time
    ensures e.verdict.Taken? || !st.usestart ==> TakenBelow(st.fired, e.time)
  {
    if n < |st.fired| {
      LastBefore(st.fired, e, n);
    }
  }

  /** One more rule taken, which asks for nothing before the rules taken so far. */
  lemma RecordsGrow(st: State, zs: seq<Zone>, e: Firing, s: State)
    requires Recorded(st, zs) && s.fired == st.fired + [e] && st.ops <= s.ops
    requires e.line < |zs| && e.rule < |zs[e.line].rules| && AskedFor(s.ops, zs[e.line], e)
    requires Adds(Times(st.ops), Times(s.ops), st.usestart, st.starttime, e.time)
    requires TakenBelow(st.fired, e.time) && (st.usestart ==> TakenBelow(st.fired, st.starttime))
    ensures Recorded(s, zs)
  {
    forall i | 0 <= i < |s.fired| && s.fired[i].verdict.Taken?
      ensures s.fired[i].line < |zs| && s.fired[i].rule < |zs[s.fired[i].line].rules|
      ensures AskedFor(s.ops, zs[s.fired[i].line], s.fired[i])
    {
      if i < |st.fired| {
        StaysAskedFor(st.ops, s.ops, zs[s.fired[i].line], s.fired[i]);
      }
    }
  }

  lemma TakenAsks(st: State, p: Place, k: nat, local: int, ktime: int, s: State)
    requires ZoneOk(p.z) && StateOk(st) && k < |p.z.rules| && Fire(st, p, k, local, ktime, Taken) == Ok(s) && Paired(st)
    ensures Paired(s) && st.ops <= s.ops && Asked(s.ops, p.z, p.z.rules[k], ktime)
    ensures Adds(Times(st.ops), Times(s.ops), st.usestart, st.starttime, ktime)
  {
    var logged := Log(st, p, k, local, ktime, Taken);
    assert p.z.rules[k] in p.z.rules;
    TakeAsks(logged, p.z, p.z.rules[k], ktime, s);
    TakeWrites(logged, p.z, p.z.rules[k], ktime, s);
  }

  lemma TakenRecords(st: State, zs: seq<Zone>, p: Place, k: nat, local: int, e: Firing, s: State)
    requires ZoneOk(p.z) && p.line < |zs| && zs[p.line] == p.z && StateOk(st) && k < |p.z.rules| && e.rule == k
    requires e.verdict.Taken? && e.line == p.line && Fire(st, p, k, local, e.time, Taken) == Ok(s)
    requires s.fired == st.fired + [e] && Paired(st) && Recorded(st, zs)
    requires TakenBelow(st.fired, e.time) && (st.usestart ==> TakenBelow(st.fired, st.starttime))
    ensures Paired(s) && Recorded(s, zs)
  {
    TakenAsks(st, p, k, local, e.time, s);
    RecordsGrow(st, zs, e, s);
  }

  lemma SkippedRecords(st: State, zs: seq<Zone>, p: Place, k: nat, local: int, e: Firing, s: State)
    requires ZoneOk(p.z) && StateOk(st) && k < |p.z.rules| && Fire(st, p, k, local, e.time, e.verdict) == Ok(s)
    requires !e.verdict.Taken? && s.fired == st.fired + [e] && Paired(st) && Recorded(st, zs)
    ensures Paired(s) && Recorded(s, zs)
  {
    assert s.ops == st.ops && s.tables == st.tables;
  }

  lemma NotedNext(st: State, zs: seq<Zone>, e: Firing, s: State, n: nat)
    requires Noted(st, zs, n) && Paired(s) && Recorded(s, zs) && s.fired == st.fired + [e]
    requires s.usestart == (st.usestart && !e.verdict.Taken?) && s.starttime == st.starttime
    requires e.verdict.Taken? || !st.usestart ==> TakenBelow(st.fired, e.time)
    ensures Noted(s, zs, n)
  {
  }

  lemma FireNotes(zs: seq<Zone>, p: Place, st: State, k: nat, local: int, e: Firing, s: State, n: nat)
    requires ZoneOk(p.z) && p.line < |zs| && zs[p.line] == p.z && StateOk(st) && k < |p.z.rules| && e.rule == k
    requires e.line == p.line && Fire(st, p, k, local, e.time, e.verdict) == Ok(s) && s.fired == st.fired + [e]
    requires e.verdict.Taken? && st.usestart ==> st.starttime <= e.time
    requires Noted(st, zs, n) && InOrder(s.fired[n..])
    ensures Noted(s, zs, n)
  {
    FireKeepsStart(st, p, k, local, e.time, e.verdict);
    EarlierTaken(st, zs, n, e);
    if e.verdict.Taken? {
      TakenRecords(st, zs, p, k, local, e, s);
    } else {
      SkippedRecords(st, zs, p, k, local, e, s);
    }
    NotedNext(st, zs, e, s, n);
  }

  lemma RoundNotes(zs: seq<Zone>, p: Place, st: State, times: seq<int>, todo: seq<bool>, k: nat, e: Firing, s: State,
                   n: nat)
    requires ZoneOk(p.z) && p.line < |zs| && zs[p.line] == p.z && StateOk(st) && TimesOk(p.z, times)
    requires |todo| == |times| && Round(st, p, times, todo, k, e, s)
    requires Noted(st, zs, n) && InOrder(s.fired[n..])
    ensures Noted(s, zs, n)
  {
    FireNotes(zs, p, st, k, times[k], e, s, n);
  }

  lemma YearsNote(st: State, zs: seq<Zone>, p: Place, times: seq<int>, s: State)
    requires StateOk(st) && ZoneOk(p.z) && p.line < |zs| && zs[p.line] == p.z && TimesOk(p.z, times)
    requires RunYears(st, p, times) == Ok(s) && Noted(st, zs, |st.fired|)
    requires |st.fired| <= |s.fired| && InOrder(s.fired[|st.fired|..])
    ensures Noted(s, zs, |st.fired|)
  {
    var n := |st.fired|;
    var holds := (q: State) => n <= |q.fired| && (q.fired <= s.fired ==> Noted(q, zs, n));
    forall year: int, q: State, ts: seq<int>, todo: seq<bool>, k: nat, e: Firing, r: State
      ensures RoundKeeps(p.(year := year), q, ts, todo, k, e, r, holds)
    {
      if StateOk(q) && TimesOk(p.z, ts) && |todo| == |ts| && Round(q, p.(year := year), ts, todo, k, e, r) && holds(q)
         && r.fired <= s.fired {
        OrderedBefore(r.fired, s.fired, n);
        RoundNotes(zs, p.(year := year), q, ts, todo, k, e, r, n);
      }
    }
    YearsKeep(st, p, times, holds);
  }

  // ---------------------------------------------------------------- one line

  /** The state in which line i starts, or after the last line. */
  predicate NotedAt(st: State, zs: seq<Zone>, i: nat) {
    && Paired(st) && Recorded(st, zs)
    && (i == 0 ==> st.fired == [])
    && (0 < i < |zs| ==> TakenBelow(st.fired, st.starttime))
  }

  lemma RuleLineNotes(st: State, zs: seq<Zone>, i: nat, s: State, lo: int, spread: int)
    requires ZonesOk(zs) && i < |zs| && SpacedZone(zs, lo, spread) && Ready(st, zs, i, lo, spread) && NotedAt(st, zs, i)
    requires zs[i].rules != [] && RunLine(st, zs, i) == Ok(s)
    ensures Paired(s) && Recorded(s, zs)
  {
    assert zs[i] in zs;
    RuleLineRises(st, zs, i, s, lo, spread);
    YearsNote(LineStart(st, i), zs, LinePlace(zs, i), NoTimes(zs[i]), s);
  }

  lemma PlainLineNotes(st: State, zs: seq<Zone>, i: nat, s: State)
    requires ZonesOk(zs) && i < |zs| && StateOk(st) && NotedAt(st, zs, i)
    requires zs[i].rules == [] && RunLine(st, zs, i) == Ok(s)
    ensures Paired(s) && Recorded(s, zs) && s.fired == st.fired
  {
    var z, b := zs[i], LineStart(st, i);
    assert z in zs;
    var op := PlainOp(b, z);
    PerformPairs(b, op, s.(gmtoff := b.gmtoff, stdoff := b.stdoff));
    TimesSnoc(b.ops, op);
    forall k | 0 <= k < |s.fired| && s.fired[k].verdict.Taken?
      ensures AskedFor(s.ops, zs[s.fired[k].line], s.fired[k])
    {
      StaysAskedFor(st.ops, s.ops, zs[s.fired[k].line], s.fired[k]);
    }
  }

  lemma OneAccounted(st: State, zs: seq<Zone>, i: nat, s: State, f: nat)
    requires StateOk(st) && ZonesOk(zs) && i < |zs| && ZoneOk(zs[i]) && zs[i].rules != [] && RunLine(st, zs, i) == Ok(s)
    requires |st.fired| <= f < |s.fired|
    ensures Genuine(i, zs[i], s.fired[f]) && Justified(LinePlace(zs, i), st.starttime, s.fired[f])
  {
    LineIsAccounted(st, zs, i);
    assert s.fired[|st.fired|..][f - |st.fired|] == s.fired[f];
  }

  lemma TakenBeforeUntil(p: Place, starttime: int, e: Firing, lo: int, spread: int)
    requires ZoneOk(p.z) && p.useuntil && ApartFromUntil(p.z, spread) && spread >= 0 && e.verdict.Taken?
    requires Genuine(p.line, p.z, e) && Justified(p, starttime, e) && FiredWithin(e, lo, spread)
    ensures e.time < p.z.untiltime - lo - spread
  {
    JustifiedInTime(p, starttime, [e]);
    assert [e][0] == e;
    FarFromUntil(p, e, lo, spread);
  }

  /** The rules a line takes are before its UNTIL. */
  lemma TakenIsBelow(st: State, zs: seq<Zone>, i: nat, s: State, f: nat, lo: int, spread: int)
    requires ZonesOk(zs) && i < |zs| - 1 && SpacedZone(zs, lo, spread) && Ready(st, zs, i, lo, spread)
    requires zs[i].rules != [] && RunLine(st, zs, i) == Ok(s)
    requires |st.fired| <= f < |s.fired| && s.fired[f].verdict.Taken?
    ensures s.fired[f].time < zs[i].untiltime - lo - spread
  {
    var z, p := zs[i], LinePlace(zs, i);
    assert z in zs;
    OneAccounted(st, zs, i, s, f);
    YearsFireWithin(LineStart(st, i), zs, p, NoTimes(z), s, lo, spread);
    TakenBeforeUntil(p, st.starttime, s.fired[f], lo, spread);
  }

  lemma LineNotes(st: State, zs: seq<Zone>, i: nat, s: State, lo: int, spread: int)
    requires ZonesOk(zs) && i < |zs| && SpacedZone(zs, lo, spread) && Ready(st, zs, i, lo, spread) && NotedAt(st, zs, i)
    requires RunLine(st, zs, i) == Ok(s)
    ensures Paired(s) && Recorded(s, zs)
    ensures i < |zs| - 1 ==> TakenBelow(s.fired, zs[i].untiltime - lo - spread)
  {
    if zs[i].rules == [] {
      PlainLineNotes(st, zs, i, s);
    } else {
      RuleLineNotes(st, zs, i, s, lo, spread);
      RuleLineRises(st, zs, i, s, lo, spread);
    }
    if i < |zs| - 1 {
      EarlierIsBelow(st, zs, i, lo, spread);
      forall f | 0 <= f < |s.fired| && s.fired[f].verdict.Taken?
        ensures s.fired[f].time < zs[i].untiltime - lo - spread
      {
        if f < |st.fired| {
          assert s.fired[f] == st.fired[f];
        } else {
          TakenIsBelow(st, zs, i, s, f, lo, spread);
        }
      }
    }
  }

  // ---------------------------------------------------------------- the zone

  predicate ReadyAndNoted(st: State, zs: seq<Zone>, i: nat, lo: int, spread: int) {
    Ready(st, zs, i, lo, spread) && NotedAt(st, zs, i)
  }

  lemma NextStartNotes(s: State, z: Zone, stray: nat, n: State)
    requires StateOk(s) && ZoneOk(z) && NextStart(s, z, stray) == Ok(n)
    ensures n == s.(starttime := n.starttime)
  {
  }

  lemma StepNotes(st: State, zs: seq<Zone>, i: nat, stray: nat, n: State, lo: int, spread: int)
    requires ZonesOk(zs) && i < |zs| && SpacedZone(zs, lo, spread) && ReadyAndNoted(st, zs, i, lo, spread)
    requires StepLine(zs, stray, st, i) == Ok(n)
    ensures ReadyAndNoted(n, zs, i + 1, lo, spread)
  {
    var s := RunLine(st, zs, i).value;
    assert zs[i] in zs;
    StepReady(st, zs, i, stray, n, lo, spread);
    LineNotes(st, zs, i, s, lo, spread);
    if i < |zs| - 1 {
      NextStartNotes(s, zs[i], stray, n);
    }
  }

  predicate NotingKept(zs: seq<Zone>, n: Outcome<State>, s: State, j: nat, lo: int, spread: int) {
    j < |zs| && ReadyAndNoted(s, zs, j, lo, spread) && n.Ok? ==> ReadyAndNoted(n.value, zs, j + 1, lo, spread)
  }

  lemma StepsKeepNoting(zs: seq<Zone>, stray: nat, lo: int, spread: int, step: (State, nat) -> Outcome<State>)
    requires ZonesOk(zs) && SpacedZone(zs, lo, spread) && step == LineStep(zs, stray)
    ensures forall s: State, j: nat :: NotingKept(zs, step(s, j), s, j, lo, spread)
  {
    forall s: State, j: nat ensures NotingKept(zs, step(s, j), s, j, lo, spread) {
      if j < |zs| && ReadyAndNoted(s, zs, j, lo, spread) && step(s, j).Ok? {
        StepNotes(s, zs, j, stray, step(s, j).value, lo, spread);
      }
    }
  }

  lemma IterateNotes(zs: seq<Zone>, lo: int, spread: int, step: (State, nat) -> Outcome<State>, st: State)
    requires ReadyAndNoted(st, zs, 0, lo, spread) && Iterate(step, st, |zs|).Ok?
    requires forall s: State, j: nat :: NotingKept(zs, step(s, j), s, j, lo, spread)
    ensures ReadyAndNoted(Iterate(step, st, |zs|).value, zs, |zs|, lo, spread)
  {
    var noted := (s: State, j: nat) => ReadyAndNoted(s, zs, j, lo, spread);
    forall s: State, j: nat | j < |zs| && noted(s, j) && step(s, j).Ok? ensures noted(step(s, j).value, j + 1) {
      assert NotingKept(zs, step(s, j), s, j, lo, spread);
    }
    IterateKeeps(step, st, |zs|, noted);
  }

  lemma ZoneRecords(zs: seq<Zone>, stray: nat, lo: int, spread: int)
    requires ZonesOk(zs) && SpacedZone(zs, lo, spread) && RunZone(zs, stray).Ok?
    ensures Recorded(RunZone(zs, stray).value, zs)
  {
    var step := LineStep(zs, stray);
    InitialReady(zs, lo, spread);
    assert NotedAt(Initial(zs), zs, 0);
    StepsKeepNoting(zs, stray, lo, spread, step);
    RunIsIterated(zs, stray);
    IterateNotes(zs, lo, spread, step, Initial(zs));
  }

  // ---------------------------------------------------------------- what the tables answer

  /** From the time of a rule taken the tables give its type; if they give none, it is standard time. */
  predicate InForceFrom(tables: Tables, z: Zone, e: Firing)
    requires Shaped(tables) && e.rule < |z.rules|
  {
    var i := LastAt(tables.ats, e.time);
    if i >= 0 then IsRuleType(tables, tables.types[i], z, z.rules[e.rule]) else z.rules[e.rule].stdoff == 0
  }

  lemma {:induction false} NothingBy(ops: seq<Op>, t: int)
    requires AllAbove(Times(ops), t)
    ensures LastOp(ops, t) == -1
    decreases |ops|
  {
    if ops != [] {
      var n := |ops| - 1;
      var times := Times(ops[..n]);
      forall k | 0 <= k < |times| ensures t < times[k] {
        assert Times(ops)[k] == times[k];
      }
      if ops[n].Transition? {
        assert Times(ops)[|times|] == ops[n].time;
      }
      NothingBy(ops[..n], t);
    }
  }

  lemma RuleIsAnswered(tables: Tables, ops: seq<Op>, z: Zone, e: Firing)
    requires Told(tables, ops) && Increasing(Times(ops)) && e.rule < |z.rules| && AskedFor(ops, z, e)
    ensures InForceFrom(tables, z, e)
  {
    var r := z.rules[e.rule];
    var op := Transition(e.time, z.gmtoff + r.stdoff, Expand(z.format, r.abbrvar), r.stdoff != 0);
    if op in ops {
      var k :| 0 <= k < |ops| && ops[k] == op;
      OpIsAnswered(tables, ops, k);
    } else {
      NothingBy(ops, e.time);
      assert TellsAt(tables, ops, e.time);
    }
  }

  /** Such a zone: the times written strictly increase, a look-up at any instant gives the last type asked for by
      then, and at the time of each rule taken, on whichever line, that is the type of the rule. Where there is
      nothing to look up the rule is standard time. */
  lemma ZoneAnswers(zs: seq<Zone>, stray: nat, lo: int, spread: int, s: State)
    requires ZonesOk(zs) && SpacedZone(zs, lo, spread) && RunZone(zs, stray) == Ok(s)
    ensures Shaped(s.tables) && Increasing(s.tables.ats) && forall t :: TellsAt(s.tables, s.ops, t)
    ensures Recorded(s, zs)
    ensures forall i :: 0 <= i < |s.fired| && s.fired[i].verdict.Taken? ==>
              InForceFrom(s.tables, zs[s.fired[i].line], s.fired[i])
  {
    ZoneInOrder(zs, stray, lo, spread);
    RunReplays(zs, stray);
    TablesTell(s.ops, s.tables);
    ZoneRecords(zs, stray, lo, spread);
    forall i | 0 <= i < |s.fired| && s.fired[i].verdict.Taken?
      ensures InForceFrom(s.tables, zs[s.fired[i].line], s.fired[i])
    {
      RuleIsAnswered(s.tables, s.ops, zs[s.fired[i].line], s.fired[i]);
    }
  }
}
