/** zic.c, outzone: what a line asks for, told from the rules that fired alone, and the type in force at its start. */
module ZicAsked {
  import opened Machine
  import opened ZicTime
  import opened ZicTables
  import opened ZicOutzone
  import opened ZicFirings
  import opened ZicRuns
  import opened ZicLookup
  import opened ZicSound
  import opened ZicAnswers
  import opened ZicZones
  import opened ZicInForce

  // ---------------------------------------------------------------- a line as its firings tell it

  /** The last rule before the line's start, or none. */
  function LastEarly(fs: seq<Firing>): (k: int)
    ensures -1 <= k < |fs| && (k >= 0 ==> fs[k].verdict.Early?)
    ensures forall j :: k < j < |fs| ==> !fs[j].verdict.Early?
  {
    if fs == [] then -1
    else if fs[|fs| - 1].verdict.Early? then |fs| - 1
    else LastEarly(fs[..|fs| - 1])
  }

  predicate RulesOf(z: Zone, fs: seq<Firing>) {
    forall j :: 0 <= j < |fs| ==> fs[j].rule < |z.rules|
  }

  /** The type of rule r: its saving on top of the offset of the line, its letters in the format. */
  function TypeFrom(time: int, z: Zone, r: Rule): Op {
    Transition(time, z.gmtoff + r.stdoff, Expand(z.format, r.abbrvar), r.stdoff != 0)
  }

  /** At the line's start the last rule before it is in force, if there is one; the first rule taken makes that known
      unless it comes at the start itself. */
  function OpsAtStart(z: Zone, starttime: int, before: seq<Firing>, ktime: int): seq<Op>
    requires RulesOf(z, before)
  {
    var k := LastEarly(before);
    if k < 0 || ktime == starttime then [] else [TypeFrom(starttime, z, z.rules[before[k].rule])]
  }

  /** A transition to the type of a rule taken; only the type as long as there is no transition and nothing is saved. */
  function OpAtRule(z: Zone, e: Firing, ops: seq<Op>): Op
    requires e.rule < |z.rules|
  {
    var r := z.rules[e.rule];
    if r.stdoff != 0 || Times(ops) != [] then TypeFrom(e.time, z, r)
    else JustType(z.gmtoff + r.stdoff, Expand(z.format, r.abbrvar), r.stdoff != 0)
  }

  /** What has been asked for behind a line, told from its firings fs and what had been asked for before it. late says
      that the line has a start. */
  function LineOps(z: Zone, late: bool, starttime: int, fs: seq<Firing>, ops: seq<Op>): seq<Op>
    requires RulesOf(z, fs)
  {
    if fs == [] then ops
    else
      var before, e := fs[..|fs| - 1], fs[|fs| - 1];
      var done := LineOps(z, late, starttime, before, ops);
      if !e.verdict.Taken? then done
      else
        var begun := done + if late && !HasTaken(before) then OpsAtStart(z, starttime, before, e.time) else [];
        begun + [OpAtRule(z, e, begun)]
  }

  lemma LineOpsSnoc(z: Zone, late: bool, starttime: int, fs: seq<Firing>, e: Firing, ops: seq<Op>, done: seq<Op>)
    requires RulesOf(z, fs + [e]) && RulesOf(z, fs) && e.rule < |z.rules|
    requires done == LineOps(z, late, starttime, fs, ops)
    ensures LineOps(z, late, starttime, fs + [e], ops)
         == if !e.verdict.Taken? then done
            else var begun := done + if late && !HasTaken(fs) then OpsAtStart(z, starttime, fs, e.time) else [];
                 begun + [OpAtRule(z, e, begun)]
  {
    assert (fs + [e])[..|fs|] == fs && (fs + [e])[|fs|] == e;
  }

  /** The offsets in force behind firings fs: of the line from the first rule taken on, and the saving of the last rule
      taken or before the start. */
  function GmtoffBehind(z: Zone, gmtoff: int, fs: seq<Firing>): int {
    if HasTaken(fs) then z.gmtoff else gmtoff
  }

  function StdoffBehind(z: Zone, stdoff: int, fs: seq<Firing>): int
    requires RulesOf(z, fs)
  {
    if fs == [] then stdoff
    else
      var e := fs[|fs| - 1];
      if e.verdict.Stopped? then StdoffBehind(z, stdoff, fs[..|fs| - 1]) else z.rules[e.rule].stdoff
  }

  /** Each firing is judged under the offsets that those before it have left. */
  predicate JudgedInForce(z: Zone, gmtoff: int, stdoff: int, fs: seq<Firing>)
    requires RulesOf(z, fs)
  {
    forall j :: 0 <= j < |fs| ==>
      fs[j].gmtoff == GmtoffBehind(z, gmtoff, fs[..j]) && fs[j].stdoff == StdoffBehind(z, stdoff, fs[..j])
  }

  /** The rule's time is on the clock of the line, or on its standard time if it says so. */
  predicate TimedInForce(z: Zone, e: Firing)
    requires e.rule < |z.rules|
  {
    e.time == e.local - if z.rules[e.rule].todisstd then e.gmtoff else e.gmtoff + e.stdoff
  }

  /** UNTIL likewise; the two extreme times are left as they are. */
  predicate PastUntil(z: Zone, e: Firing) {
    var off := if z.untilTodisstd then e.gmtoff else e.gmtoff + e.stdoff;
    var stays := (z.untiltime == TIME_MAX && off < 0) || (z.untiltime == TIME_MIN && off > 0);
    e.time >= if stays then z.untiltime else z.untiltime - off
  }

  /** A rule at or past UNTIL stops the year, one before the line's start only counts until a rule has been taken, and
      any other is taken. */
  predicate VerdictInForce(p: Place, late: bool, starttime: int, before: seq<Firing>, e: Firing) {
    e.verdict == if p.useuntil && PastUntil(p.z, e) then Stopped
                 else if late && !HasTaken(before) && e.time < starttime then Early
                 else Taken
  }

  predicate FiredRight(p: Place, late: bool, starttime: int, fs: seq<Firing>)
    requires RulesOf(p.z, fs)
  {
    forall j :: 0 <= j < |fs| ==> TimedInForce(p.z, fs[j]) && VerdictInForce(p, late, starttime, fs[..j], fs[j])
  }

  // ---------------------------------------------------------------- one firing

  /** The guess for the line's start. */
  function Guess(z: Zone, fs: seq<Firing>): Start
    requires RulesOf(z, fs)
  {
    var k := LastEarly(fs);
    if k < 0 then NoStart
    else
      var r := z.rules[fs[k].rule];
      Start(z.gmtoff + r.stdoff, Expand(z.format, r.abbrvar), r.stdoff != 0)
  }

  lemma UntilIsPast(st: State, p: Place, e: Firing)
    requires StateOk(st) && ZoneOk(p.z) && Until(st, p).Ok? && e.gmtoff == st.gmtoff && e.stdoff == st.stdoff
    ensures p.useuntil ==> (e.time >= Until(st, p).value <==> PastUntil(p.z, e))
  {
  }

  lemma FiresRight(p: Place, late: bool, starttime: int, fs: seq<Firing>, e: Firing)
    requires RulesOf(p.z, fs) && e.rule < |p.z.rules| && FiredRight(p, late, starttime, fs)
    requires TimedInForce(p.z, e) && VerdictInForce(p, late, starttime, fs, e)
    ensures RulesOf(p.z, fs + [e]) && FiredRight(p, late, starttime, fs + [e])
  {
    var gs := fs + [e];
    assert gs[..|fs|] == fs && gs[|fs|] == e;
    forall j | 0 <= j < |gs| ensures TimedInForce(p.z, gs[j]) && VerdictInForce(p, late, starttime, gs[..j], gs[j]) {
      if j < |fs| {
        assert gs[..j] == fs[..j] && gs[j] == fs[j];
      }
    }
  }

  lemma RoundFiresRight(st: State, p: Place, times: seq<int>, todo: seq<bool>, k: nat, e: Firing, s: State, late: bool,
                        b: State, fs: seq<Firing>)
    requires ZoneOk(p.z) && StateOk(st) && TimesOk(p.z, times) && |todo| == |times|
    requires Round(st, p, times, todo, k, e, s) && st.starttime == b.starttime && st.usestart == (late && !HasTaken(fs))
    ensures TimedInForce(p.z, e) && VerdictInForce(p, late, b.starttime, fs, e)
  {
    UntilIsPast(st, p, e);
  }

  /** The state in the middle of the line that started in b, whose firings so far are fs. */
  predicate ToldBy(st: State, z: Zone, late: bool, b: State, fs: seq<Firing>) {
    && RulesOf(z, fs) && Paired(st)
    && st.fired == b.fired + fs && st.starttime == b.starttime
    && st.ops == LineOps(z, late, b.starttime, fs, b.ops)
    && st.usestart == (late && !HasTaken(fs)) && (st.usestart ==> st.start == Guess(z, fs))
    && st.gmtoff == GmtoffBehind(z, b.gmtoff, fs) && st.stdoff == StdoffBehind(z, b.stdoff, fs)
    && JudgedInForce(z, b.gmtoff, b.stdoff, fs)
  }

  lemma LogsMore(z: Zone, gmtoff: int, stdoff: int, fs: seq<Firing>, e: Firing)
    requires RulesOf(z, fs) && e.rule < |z.rules| && JudgedInForce(z, gmtoff, stdoff, fs)
    requires e.gmtoff == GmtoffBehind(z, gmtoff, fs) && e.stdoff == StdoffBehind(z, stdoff, fs)
    ensures RulesOf(z, fs + [e]) && JudgedInForce(z, gmtoff, stdoff, fs + [e])
    ensures GmtoffBehind(z, gmtoff, fs + [e])
         == if e.verdict.Taken? then z.gmtoff else GmtoffBehind(z, gmtoff, fs)
    ensures StdoffBehind(z, stdoff, fs + [e])
         == if e.verdict.Stopped? then StdoffBehind(z, stdoff, fs) else z.rules[e.rule].stdoff
  {
    var gs := fs + [e];
    AppendTaken(fs, e);
    assert gs[..|fs|] == fs && gs[|fs|] == e;
    forall j | 0 <= j < |gs|
      ensures gs[j].gmtoff == GmtoffBehind(z, gmtoff, gs[..j]) && gs[j].stdoff == StdoffBehind(z, stdoff, gs[..j])
    {
      if j < |fs| {
        assert gs[..j] == fs[..j] && gs[j] == fs[j];
      }
    }
  }

  lemma GuessMore(z: Zone, fs: seq<Firing>, e: Firing)
    requires RulesOf(z, fs) && e.rule < |z.rules|
    ensures RulesOf(z, fs + [e])
    ensures Guess(z, fs + [e])
         == if e.verdict.Early? then var r := z.rules[e.rule];
                                     Start(z.gmtoff + r.stdoff, Expand(z.format, r.abbrvar), r.stdoff != 0)
            else Guess(z, fs)
  {
    var gs := fs + [e];
    assert gs[..|fs|] == fs && gs[|fs|] == e;
    assert LastEarly(gs) == if e.verdict.Early? then |fs| else LastEarly(fs);
  }

  lemma OpenAsks(st: State, ktime: int, begun: State)
    requires StateOk(st) && Open(st, ktime) == Ok(begun) && Paired(st)
    ensures Paired(begun) && begun.fired == st.fired && begun.starttime == st.starttime && !begun.usestart
    ensures begun.ops == st.ops + if st.usestart && ktime != st.starttime && st.start.Start?
                                  then [Transition(st.starttime, st.start.gmtoff, st.start.abbr, st.start.isdst)]
                                  else []
  {
    if st.usestart && ktime != st.starttime && st.start.Start? {
      var op := Transition(st.starttime, st.start.gmtoff, st.start.abbr, st.start.isdst);
      PerformPairs(st, op, begun.(usestart := true));
    } else {
      assert st.ops + [] == st.ops;
    }
  }

  lemma SettleAsks(st: State, z: Zone, e: Firing, s: State)
    requires StateOk(st) && ZoneOk(z) && e.rule < |z.rules| && z.rules[e.rule] in z.rules && Paired(st)
    requires Settle(st, z, z.rules[e.rule], e.time) == Ok(s)
    ensures Paired(s) && s.ops == st.ops + [OpAtRule(z, e, st.ops)]
    ensures s.fired == st.fired && s.starttime == st.starttime && s.usestart == st.usestart
  {
    SettlePairs(st, z, z.rules[e.rule], e.time, s);
  }

  /** What the first rule taken makes known of the start is what the firings before it tell. */
  lemma StartIsTold(st: State, z: Zone, late: bool, b: State, fs: seq<Firing>, ktime: int)
    requires ToldBy(st, z, late, b, fs)
    ensures (if st.usestart && ktime != st.starttime && st.start.Start?
             then [Transition(st.starttime, st.start.gmtoff, st.start.abbr, st.start.isdst)] else [])
         == if late && !HasTaken(fs) then OpsAtStart(z, b.starttime, fs, ktime) else []
  {
  }

  /** A rule taken. */
  lemma TakenTold(st: State, p: Place, k: nat, local: int, e: Firing, s: State, late: bool, b: State, fs: seq<Firing>)
    requires ZoneOk(p.z) && StateOk(st) && k < |p.z.rules| && e.rule == k && e.verdict.Taken?
    requires Fire(st, p, k, local, e.time, Taken) == Ok(s) && ToldBy(st, p.z, late, b, fs)
    ensures RulesOf(p.z, fs + [e]) && s.ops == LineOps(p.z, late, b.starttime, fs + [e], b.ops) && Paired(s)
  {
    var z := p.z;
    var logged := Log(st, p, k, local, e.time, Taken);
    assert z.rules[k] in z.rules;
    var begun := Open(logged, e.time).value;
    OpenAsks(logged, e.time, begun);
    StartIsTold(st, z, late, b, fs, e.time);
    SettleAsks(begun, z, e, s);
    RulesMore(z, fs, e);
    LineOpsSnoc(z, late, b.starttime, fs, e, b.ops, st.ops);
  }

  lemma RulesMore(z: Zone, fs: seq<Firing>, e: Firing)
    requires RulesOf(z, fs) && e.rule < |z.rules|
    ensures RulesOf(z, fs + [e])
  {
  }

  lemma OtherTold(st: State, p: Place, k: nat, local: int, e: Firing, s: State, late: bool, b: State, fs: seq<Firing>)
    requires ZoneOk(p.z) && StateOk(st) && k < |p.z.rules| && e.rule == k && !e.verdict.Taken?
    requires Fire(st, p, k, local, e.time, e.verdict) == Ok(s) && ToldBy(st, p.z, late, b, fs)
    ensures RulesOf(p.z, fs + [e]) && s.ops == LineOps(p.z, late, b.starttime, fs + [e], b.ops) && Paired(s)
  {
    assert s.ops == st.ops && s.tables == st.tables;
    RulesMore(p.z, fs, e);
    LineOpsSnoc(p.z, late, b.starttime, fs, e, b.ops, st.ops);
  }

  lemma GuessTold(st: State, p: Place, k: nat, local: int, e: Firing, s: State, fs: seq<Firing>)
    requires ZoneOk(p.z) && StateOk(st) && k < |p.z.rules| && e.rule == k && RulesOf(p.z, fs)
    requires Fire(st, p, k, local, e.time, e.verdict) == Ok(s) && !e.verdict.Taken? && st.start == Guess(p.z, fs)
    ensures RulesOf(p.z, fs + [e]) && s.start == Guess(p.z, fs + [e])
  {
    GuessMore(p.z, fs, e);
  }

  lemma FireTold(st: State, p: Place, k: nat, local: int, e: Firing, s: State, late: bool, b: State, fs: seq<Firing>)
    requires ZoneOk(p.z) && StateOk(st) && k < |p.z.rules| && e.rule == k
    requires Fire(st, p, k, local, e.time, e.verdict) == Ok(s) && s.fired == st.fired + [e]
    requires e.gmtoff == st.gmtoff && e.stdoff == st.stdoff && ToldBy(st, p.z, late, b, fs)
    ensures ToldBy(s, p.z, late, b, fs + [e])
  {
    FireKeepsStart(st, p, k, local, e.time, e.verdict);
    LogsMore(p.z, b.gmtoff, b.stdoff, fs, e);
    AppendTaken(fs, e);
    if e.verdict.Taken? {
      TakenTold(st, p, k, local, e, s, late, b, fs);
    } else {
      OtherTold(st, p, k, local, e, s, late, b, fs);
      if st.usestart {
        GuessTold(st, p, k, local, e, s, fs);
      }
    }
    assert b.fired + fs + [e] == b.fired + (fs + [e]);
  }

  // ---------------------------------------------------------------- a line

  /** The firings of the line so far tell the state. */
  predicate Tells(st: State, p: Place, late: bool, b: State) {
    && |b.fired| <= |st.fired| && ToldBy(st, p.z, late, b, st.fired[|b.fired|..])
    && FiredRight(p, late, b.starttime, st.fired[|b.fired|..])
  }

  lemma RoundTold(p: Place, st: State, times: seq<int>, todo: seq<bool>, k: nat, e: Firing, s: State, late: bool,
                  b: State, fs: seq<Firing>)
    requires ZoneOk(p.z) && StateOk(st) && TimesOk(p.z, times) && |todo| == |times|
    requires Round(st, p, times, todo, k, e, s) && ToldBy(st, p.z, late, b, fs)
    ensures ToldBy(s, p.z, late, b, fs + [e]) && s.fired == b.fired + (fs + [e])
  {
    FireTold(st, p, k, times[k], e, s, late, b, fs);
  }

  lemma RoundTells(p: Place, st: State, times: seq<int>, todo: seq<bool>, k: nat, e: Firing, s: State, late: bool,
                   b: State)
    requires ZoneOk(p.z) && StateOk(st) && TimesOk(p.z, times) && |todo| == |times|
    requires Round(st, p, times, todo, k, e, s) && Tells(st, p, late, b)
    ensures Tells(s, p, late, b)
  {
    var fs := st.fired[|b.fired|..];
    RoundTold(p, st, times, todo, k, e, s, late, b, fs);
    assert s.fired[|b.fired|..] == fs + [e];
    RoundFiresRight(st, p, times, todo, k, e, s, late, b, fs);
    FiresRight(p, late, b.starttime, fs, e);
  }

  /** The year the run has come to does not matter. */
  lemma AnyYear(st: State, p: Place, year: int, late: bool, b: State)
    ensures Tells(st, p.(year := year), late, b) == Tells(st, p, late, b)
  {
    var q := p.(year := year);
    if |b.fired| <= |st.fired| && RulesOf(p.z, st.fired[|b.fired|..]) {
      var fs := st.fired[|b.fired|..];
      assert forall j :: 0 <= j < |fs| ==>
        VerdictInForce(p, late, b.starttime, fs[..j], fs[j]) == VerdictInForce(q, late, b.starttime, fs[..j], fs[j]);
    }
  }

  lemma YearsTell(st: State, p: Place, times: seq<int>, s: State, late: bool)
    requires StateOk(st) && ZoneOk(p.z) && TimesOk(p.z, times) && RunYears(st, p, times) == Ok(s)
    requires Tells(st, p, late, st)
    ensures Tells(s, p, late, st)
  {
    var holds := (q: State) => Tells(q, p, late, st);
    forall year: int, q: State, ts: seq<int>, todo: seq<bool>, k: nat, e: Firing, r: State
      ensures RoundKeeps(p.(year := year), q, ts, todo, k, e, r, holds)
    {
      if StateOk(q) && TimesOk(p.z, ts) && |todo| == |ts| && Round(q, p.(year := year), ts, todo, k, e, r) && holds(q) {
        AnyYear(q, p, year, late, st);
        RoundTells(p.(year := year), q, ts, todo, k, e, r, late, st);
        AnyYear(r, p, year, late, st);
      }
    }
    YearsKeep(st, p, times, holds);
  }

  /** Any rule-driven line run from any state: what it asks for is told by its firings alone. A rule taken asks for a
      transition to its offset, letters and flag. The first rule taken behind the line's start also asks for one at the
      start, to those of the last rule before the start; if there is none, or it comes at the start itself, for nothing
      there. Each firing is timed and judged under the offsets that the ones before it leave. */
  lemma LineAsks(st: State, zs: seq<Zone>, i: nat, s: State)
    requires StateOk(st) && Paired(st) && ZonesOk(zs) && i < |zs| && zs[i].rules != [] && RunLine(st, zs, i) == Ok(s)
    ensures |st.fired| <= |s.fired| && s.fired[..|st.fired|] == st.fired && Paired(s)
    ensures var fs := s.fired[|st.fired|..];
            && RulesOf(zs[i], fs) && s.ops == LineOps(zs[i], i > 0, st.starttime, fs, st.ops)
            && JudgedInForce(zs[i], st.gmtoff, st.stdoff, fs) && FiredRight(LinePlace(zs, i), i > 0, st.starttime, fs)
            && s.gmtoff == GmtoffBehind(zs[i], st.gmtoff, fs) && s.stdoff == StdoffBehind(zs[i], st.stdoff, fs)
  {
    assert zs[i] in zs;
    var b := LineStart(st, i);
    assert b.fired[|b.fired|..] == [] && b.fired + [] == b.fired;
    YearsTell(b, LinePlace(zs, i), NoTimes(zs[i]), s, i > 0);
    var fs := s.fired[|st.fired|..];
    assert s.fired == st.fired + fs;
  }

  /** A line without rules asks for its one type, from its start on if it has one. */
  lemma PlainLineAsks(st: State, zs: seq<Zone>, i: nat, s: State)
    requires StateOk(st) && ZonesOk(zs) && i < |zs| && zs[i].rules == [] && RunLine(st, zs, i) == Ok(s)
    ensures var z := zs[i];
            && s.fired == st.fired && s.gmtoff == z.gmtoff && s.stdoff == z.stdoff
            && s.ops == st.ops + [if i > 0 then Transition(st.starttime, z.gmtoff + z.stdoff, z.format, z.stdoff != 0)
                                  else JustType(z.gmtoff + z.stdoff, z.format, z.stdoff != 0)]
  {
    assert zs[i] in zs;
  }

  // ---------------------------------------------------------------- a run

  lemma {:induction false} NoneTaken(z: Zone, late: bool, starttime: int, fs: seq<Firing>, ops: seq<Op>)
    requires RulesOf(z, fs) && !HasTaken(fs)
    ensures LineOps(z, late, starttime, fs, ops) == ops
    decreases |fs|
  {
    if fs != [] {
      var n := |fs| - 1;
      assert fs == fs[..n] + [fs[n]];
      AppendTaken(fs[..n], fs[n]);
      NoneTaken(z, late, starttime, fs[..n], ops);
    }
  }

  lemma {:induction false} LineOpsGrow(z: Zone, late: bool, starttime: int, fs: seq<Firing>, j: nat, ops: seq<Op>)
    requires RulesOf(z, fs) && j <= |fs|
    ensures LineOps(z, late, starttime, fs[..j], ops) <= LineOps(z, late, starttime, fs, ops)
    decreases |fs|
  {
    if j < |fs| {
      var n := |fs| - 1;
      assert fs[..n][..j] == fs[..j];
      LineOpsGrow(z, late, starttime, fs[..n], j, ops);
    } else {
      assert fs[..j] == fs;
    }
  }

  lemma PlainPairs(st: State, zs: seq<Zone>, i: nat, s: State)
    requires StateOk(st) && Paired(st) && ZonesOk(zs) && i < |zs| && zs[i].rules == [] && RunLine(st, zs, i) == Ok(s)
    ensures Paired(s)
  {
    assert zs[i] in zs;
    var b := LineStart(st, i);
    PerformPairs(b, PlainOp(b, zs[i]), s.(gmtoff := b.gmtoff, stdoff := b.stdoff));
  }

  /** A line only adds to what has been asked for and to what has fired. */
  predicate GoesOn(st: State, s: State) {
    Paired(s) && st.ops <= s.ops && st.fired <= s.fired
  }

  lemma LineGoesOn(st: State, zs: seq<Zone>, i: nat, s: State)
    requires StateOk(st) && Paired(st) && ZonesOk(zs) && i < |zs| && RunLine(st, zs, i) == Ok(s)
    ensures GoesOn(st, s)
  {
    if zs[i].rules == [] {
      PlainLineAsks(st, zs, i, s);
      PlainPairs(st, zs, i, s);
    } else {
      LineAsks(st, zs, i, s);
      var fs := s.fired[|st.fired|..];
      LineOpsGrow(zs[i], i > 0, st.starttime, fs, 0, st.ops);
      assert LineOps(zs[i], i > 0, st.starttime, fs[..0], st.ops) == st.ops;
      assert s.fired == s.fired[..|st.fired|] + fs;
    }
  }

  lemma StepGoesOn(st: State, zs: seq<Zone>, i: nat, stray: nat, n: State)
    requires ZonesOk(zs) && StateOk(st) && Paired(st) && StepLine(zs, stray, st, i) == Ok(n)
    ensures GoesOn(st, n) && RunLine(st, zs, i).Ok? && n.ops == RunLine(st, zs, i).value.ops
    ensures n.fired == RunLine(st, zs, i).value.fired
  {
    var s := RunLine(st, zs, i).value;
    assert zs[i] in zs;
    LineGoesOn(st, zs, i, s);
    if i < |zs| - 1 {
      NextStartNotes(s, zs[i], stray, n);
    }
  }

  lemma NextOf(step: (State, nat) -> Outcome<State>, st: State, j: nat)
    requires Iterate(step, st, j + 1).Ok?
    ensures Iterate(step, st, j).Ok? && Iterate(step, st, j + 1) == step(Iterate(step, st, j).value, j)
  {
  }

  predicate Good(st: State) {
    StateOk(st) && Paired(st)
  }

  lemma StepIsGood(zs: seq<Zone>, stray: nat, st: State, i: nat, n: State)
    requires ZonesOk(zs) && Good(st) && StepLine(zs, stray, st, i) == Ok(n)
    ensures Good(n)
  {
    StepGoesOn(st, zs, i, stray, n);
  }

  lemma StartIsPaired(zs: seq<Zone>, stray: nat, i: nat)
    requires ZonesOk(zs) && StartOf(zs, stray, i).Ok?
    ensures Good(StartOf(zs, stray, i).value)
  {
    var step := LineStep(zs, stray);
    InitialGoing(zs);
    forall s: State, j: nat | Good(s) && step(s, j).Ok? ensures Good(step(s, j).value) {
      StepIsGood(zs, stray, s, j, step(s, j).value);
    }
    IterateKeeps(step, Initial(zs), i, (s: State, j: nat) => Good(s));
  }

  predicate StepAdds(st: State, n: Outcome<State>) {
    Good(st) && n.Ok? ==> Good(n.value) && GoesOn(st, n.value)
  }

  lemma {:induction false} IterateAdds(step: (State, nat) -> Outcome<State>, st: State, i: nat, j: nat)
    requires i <= j && Good(st) && Iterate(step, st, j).Ok?
    requires forall s: State, k: nat :: StepAdds(s, step(s, k))
    ensures Iterate(step, st, i).Ok? && Good(Iterate(step, st, j).value)
    ensures GoesOn(Iterate(step, st, i).value, Iterate(step, st, j).value)
    decreases j
  {
    if j == 0 {
    } else {
      NextOf(step, st, j - 1);
      assert StepAdds(Iterate(step, st, j - 1).value, step(Iterate(step, st, j - 1).value, j - 1));
      if i < j {
        IterateAdds(step, st, i, j - 1);
      } else {
        IterateAdds(step, st, j - 1, j - 1);
      }
    }
  }

  /** Whatever a line has asked for stays, up to the end of the run. */
  lemma LaterLinesAdd(zs: seq<Zone>, stray: nat, i: nat, j: nat)
    requires ZonesOk(zs) && i <= j && StartOf(zs, stray, j).Ok?
    ensures StartOf(zs, stray, i).Ok? && GoesOn(StartOf(zs, stray, i).value, StartOf(zs, stray, j).value)
  {
    var step := LineStep(zs, stray);
    InitialGoing(zs);
    forall s: State, k: nat ensures StepAdds(s, step(s, k)) {
      if Good(s) && step(s, k).Ok? {
        StepGoesOn(s, zs, k, stray, step(s, k).value);
        StepIsGood(zs, stray, s, k, step(s, k).value);
      }
    }
    IterateAdds(step, Initial(zs), i, j);
  }

  /** What line i of a run that goes through has asked for and fired is at the front of the whole. */
  lemma LineIsInRun(zs: seq<Zone>, stray: nat, s: State, i: nat, st: State) returns (s1: State)
    requires ZonesOk(zs) && RunZone(zs, stray) == Ok(s) && i < |zs| && StartOf(zs, stray, i) == Ok(st)
    ensures StateOk(st) && Paired(st) && RunLine(st, zs, i) == Ok(s1) && s1.ops <= s.ops && s1.fired <= s.fired
  {
    RunIsIterated(zs, stray);
    StartIsPaired(zs, stray, i);
    LaterLinesAdd(zs, stray, i + 1, |zs|);
    NextOf(LineStep(zs, stray), Initial(zs), i);
    StepGoesOn(st, zs, i, stray, StartOf(zs, stray, i + 1).value);
    s1 := RunLine(st, zs, i).value;
  }

  /** The same for every line of a run that is reached, whatever becomes of the run behind it. */
  lemma ReachedLineAsks(zs: seq<Zone>, stray: nat, i: nat, st: State, s: State)
    requires ZonesOk(zs) && i < |zs| && StartOf(zs, stray, i) == Ok(st) && StateOk(st)
    requires zs[i].rules != [] && RunLine(st, zs, i) == Ok(s)
    ensures |st.fired| <= |s.fired| && s.fired[..|st.fired|] == st.fired
    ensures var fs := s.fired[|st.fired|..];
            && RulesOf(zs[i], fs) && s.ops == LineOps(zs[i], i > 0, st.starttime, fs, st.ops)
            && JudgedInForce(zs[i], st.gmtoff, st.stdoff, fs) && FiredRight(LinePlace(zs, i), i > 0, st.starttime, fs)
            && s.gmtoff == GmtoffBehind(zs[i], st.gmtoff, fs) && s.stdoff == StdoffBehind(zs[i], st.stdoff, fs)
  {
    StartIsPaired(zs, stray, i);
    LineAsks(st, zs, i, s);
  }

  // ---------------------------------------------------------------- abbreviations

  lemma {:induction false} ExpandKeeps(format: string, letters: string)
    requires '%' !in format
    ensures Expand(format, letters) == format
  {
    if |format| >= 2 {
      ExpandKeeps(format[1..], letters);
    }
  }

  lemma FirstApart(a: string, b: string, c: string)
    requires a != ""
    ensures a + b + c == [a[0]] + (a[1..] + b + c)
  {
  }

  lemma ExpandStep(c: char, rest: string, letters: string)
    requires c != '%' && rest != ""
    ensures Expand([c] + rest, letters) == [c] + Expand(rest, letters)
  {
    assert ([c] + rest)[1..] == rest;
  }

  lemma ExpandHere(letters: string, behind: string)
    ensures Expand("%s" + behind, letters) == letters + behind
  {
    assert ("%s" + behind)[2..] == behind;
  }

  /** The letters of a rule stand where the format has its %s, and a format without one is the abbreviation. */
  lemma {:induction false} ExpandInserts(before: string, letters: string, behind: string)
    requires '%' !in before
    ensures Expand(before + "%s" + behind, letters) == before + letters + behind
    decreases |before|
  {
    if before == "" {
      ExpandHere(letters, behind);
      assert "" + "%s" + behind == "%s" + behind && "" + letters + behind == letters + behind;
    } else {
      FirstApart(before, "%s", behind);
      FirstApart(before, letters, behind);
      ExpandStep(before[0], before[1..] + "%s" + behind, letters);
      ExpandInserts(before[1..], letters, behind);
    }
  }

  // ---------------------------------------------------------------- the type in force at the start

  /** Between a transition and the next one it is the last that has been asked for. */
  lemma {:induction false} LastOpBetween(ops: seq<Op>, k: nat, t: int)
    requires k < |ops| && ops[k].Transition? && ops[k].time <= t && Increasing(Times(ops))
    requires k + 1 < |ops| && ops[k + 1].Transition? && t < ops[k + 1].time
    ensures LastOp(ops, t) == k
    decreases |ops|
  {
    var n := |ops| - 1;
    var first := ops[..n];
    assert ops == first + [ops[n]];
    IncreasingBefore(first, ops[n]);
    if k + 1 < n {
      LastOpBetween(first, k, t);
      if ops[n].Transition? {
        LaterIsLater(first, k + 1, ops[n]);
      }
    } else {
      assert LastOp(first, t) == k;
    }
  }

  lemma LaterIsLater(first: seq<Op>, k: nat, op: Op)
    requires k < |first| && first[k].Transition? && Increasing(Times(first + [op])) && op.Transition?
    ensures first[k].time < op.time
  {
    var j := TimeOfOp(first, k);
    TimesSnoc(first, op);
    var times := Times(first + [op]);
    assert times[j] == first[k].time && times[|Times(first)|] == op.time;
  }

  /** f is the first rule taken of a line whose firings are fs, and k the last one before the line's start. */
  predicate Opens(fs: seq<Firing>, k: nat, f: nat) {
    && k < f < |fs| && fs[f].verdict.Taken? && fs[k].verdict.Early?
    && forall j :: 0 <= j < f ==> !fs[j].verdict.Taken? && (j > k ==> !fs[j].verdict.Early?)
  }

  lemma OpeningOps(z: Zone, starttime: int, fs: seq<Firing>, k: nat, f: nat, ops: seq<Op>)
    requires RulesOf(z, fs) && Opens(fs, k, f) && fs[f].time != starttime
    ensures ops + [TypeFrom(starttime, z, z.rules[fs[k].rule]), TypeFrom(fs[f].time, z, z.rules[fs[f].rule])]
         <= LineOps(z, true, starttime, fs, ops)
  {
    var before, e := fs[..f], fs[f];
    assert !HasTaken(before);
    NoneTaken(z, true, starttime, before, ops);
    assert LastEarly(before) == k;
    var start := TypeFrom(starttime, z, z.rules[fs[k].rule]);
    assert fs[..f + 1] == before + [e];
    LineOpsSnoc(z, true, starttime, before, e, ops, ops);
    TimesSnoc(ops, start);
    assert ops + [start] + [TypeFrom(e.time, z, z.rules[e.rule])]
        == ops + [start, TypeFrom(e.time, z, z.rules[e.rule])];
    LineOpsGrow(z, true, starttime, fs, f + 1, ops);
  }

  lemma StartIsLast(ops: seq<Op>, n: nat, all: seq<Op>, start: Op, next: Op, t: int)
    requires n == |ops| && ops + [start, next] <= all && start.Transition? && next.Transition? && Increasing(Times(all))
    requires start.time <= t < next.time
    ensures LastOp(all, t) == n && all[n] == start
  {
    var front := ops + [start, next];
    assert front[n] == start && front[n + 1] == next;
    assert all[n] == front[n] && all[n + 1] == front[n + 1];
    LastOpBetween(all, n, t);
  }

  /** Line i of a spaced zone, which starts in st. From its start up to the first rule taken, the tables give the type
      of the last rule before the start: the offset of the line with the saving of that rule, and its letters and
      flag. */
  lemma StartIsAnswered(zs: seq<Zone>, stray: nat, lo: int, spread: int, s: State, i: nat, st: State, fs: seq<Firing>,
                        k: nat, f: nat, t: int)
    requires ZonesOk(zs) && SpacedZone(zs, lo, spread) && RunZone(zs, stray) == Ok(s)
    requires 0 < i < |zs| && zs[i].rules != [] && StartOf(zs, stray, i) == Ok(st)
    requires StateOk(st) && RunLine(st, zs, i).Ok? && RunLine(st, zs, i).value.fired == st.fired + fs
    requires Opens(fs, k, f) && st.starttime <= t < fs[f].time
    ensures Shaped(s.tables) && RulesOf(zs[i], fs) && st.fired + fs <= s.fired && LastAt(s.tables.ats, t) >= 0
    ensures IsRuleType(s.tables, s.tables.types[LastAt(s.tables.ats, t)], zs[i], zs[i].rules[fs[k].rule])
  {
    var z := zs[i];
    var s1 := LineIsInRun(zs, stray, s, i, st);
    LineAsks(st, zs, i, s1);
    assert s1.fired[|st.fired|..] == fs;
    OpeningOps(z, st.starttime, fs, k, f, st.ops);
    ZoneAnswers(zs, stray, lo, spread, s);
    ZoneInOrder(zs, stray, lo, spread);
    var start, next := TypeFrom(st.starttime, z, z.rules[fs[k].rule]), TypeFrom(fs[f].time, z, z.rules[fs[f].rule]);
    StartIsLast(st.ops, |st.ops|, s.ops, start, next, t);
    assert TellsAt(s.tables, s.ops, t);
  }
}
