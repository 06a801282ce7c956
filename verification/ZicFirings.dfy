/** What the inner loop of outzone does in one year: which rules fire, in which order, when, and
    what is written for them. */
module ZicFirings {
  import opened Machine
  import opened ZicTime
  import opened ZicTables
  import opened ZicOutzone

  // ---------------------------------------------------------------- picking

  predicate Candidate(times: seq<int>, todo: seq<bool>, j: nat)
    requires |todo| == |times|
  {
    j < |todo| && todo[j] && !Saturated(times[j])
  }

  function Instant(z: Zone, times: seq<int>, j: nat, gmtoff: int, stdoff: int): int
    requires |times| == |z.rules| && j < |times|
  {
    times[j] - TotalOffset(z.rules[j].todisstd, gmtoff, stdoff)
  }

  predicate IsEarliest(z: Zone, times: seq<int>, todo: seq<bool>, gmtoff: int, stdoff: int, n: nat,
                       best: Option<(nat, int)>)
    requires TimesOk(z, times) && |todo| == |times| && n <= |todo|
  {
    match best
    case None => forall j :: 0 <= j < n ==> !Candidate(times, todo, j)
    case Some((k, t)) =>
      && k < n && Candidate(times, todo, k) && t == Instant(z, times, k, gmtoff, stdoff) && InTime(t)
      && forall j :: 0 <= j < n && Candidate(times, todo, j) ==> t <= Instant(z, times, j, gmtoff, stdoff)
  }

  lemma {:induction false} PickIsEarliest(z: Zone, times: seq<int>, todo: seq<bool>, gmtoff: int, stdoff: int,
                                          j: nat, best: Option<(nat, int)>)
    requires TimesOk(z, times) && |todo| == |times| && j <= |todo|
    requires -SECS_PER_DAY < gmtoff < SECS_PER_DAY && -SECS_PER_DAY < stdoff < SECS_PER_DAY
    requires IsEarliest(z, times, todo, gmtoff, stdoff, j, best)
    requires Pick(z, times, todo, gmtoff, stdoff, j, best).Ok?
    ensures IsEarliest(z, times, todo, gmtoff, stdoff, |todo|, Pick(z, times, todo, gmtoff, stdoff, j, best).value)
    decreases |todo| - j
  {
    if j < |todo| {
      if !todo[j] || Saturated(times[j]) {
        PickIsEarliest(z, times, todo, gmtoff, stdoff, j + 1, best);
      } else {
        var t := Instant(z, times, j, gmtoff, stdoff);
        PickIsEarliest(z, times, todo, gmtoff, stdoff, j + 1,
                       if best.None? || t < best.value.1 then Some((j, t)) else best);
      }
    }
  }

  // ---------------------------------------------------------------- one round

  /** One round of the inner loop with everything a proof wants to know about it. */
  predicate Round(st: State, p: Place, times: seq<int>, todo: seq<bool>, k: nat, e: Firing, s: State)
    requires StateOk(st) && ZoneOk(p.z) && TimesOk(p.z, times) && |todo| == |times|
  {
    && Candidate(times, todo, k)
    && s.fired == st.fired + [e]
    && e == Firing(p.line, p.year, k, times[k], Instant(p.z, times, k, st.gmtoff, st.stdoff), st.gmtoff, st.stdoff,
                   e.verdict)
    && InTime(e.time)
    && Until(st, p).Ok? && e.verdict == Judge(st, p, e.time, Until(st, p).value)
    && Fire(st, p, k, times[k], e.time, e.verdict) == Ok(s)
    && StateOk(s)
    && (forall j :: 0 <= j < |todo| && Candidate(times, todo, j) ==>
          e.time <= Instant(p.z, times, j, st.gmtoff, st.stdoff))
  }

  lemma FireLogs(st: State, p: Place, k: nat, local: int, ktime: int, verdict: Verdict)
    requires StateOk(st) && ZoneOk(p.z) && k < |p.z.rules| && Fire(st, p, k, local, ktime, verdict).Ok?
    ensures Fire(st, p, k, local, ktime, verdict).value.fired == Log(st, p, k, local, ktime, verdict).fired
  {
  }

  /** The inner loop either ends with no candidate left or makes a round and perhaps goes on. */
  lemma Unroll(st: State, p: Place, times: seq<int>, todo: seq<bool>) returns (over: bool, k: nat, e: Firing, s: State)
    requires StateOk(st) && ZoneOk(p.z) && TimesOk(p.z, times) && |todo| == |times|
    requires RunYear(st, p, times, todo).Ok?
    ensures over ==> RunYear(st, p, times, todo) == Ok(st) && forall j :: 0 <= j < |todo| ==> !Candidate(times, todo, j)
    ensures !over ==> Round(st, p, times, todo, k, e, s)
    ensures !over && e.verdict.Stopped? ==> RunYear(st, p, times, todo) == Ok(s)
    ensures !over && !e.verdict.Stopped? ==>
              && RunYear(st, p, times, todo) == RunYear(s, p, times, todo[k := false])
              && CountTrue(todo[k := false]) < CountTrue(todo)
  {
    var pick := Pick(p.z, times, todo, st.gmtoff, st.stdoff, 0, None).value;
    PickIsEarliest(p.z, times, todo, st.gmtoff, st.stdoff, 0, None);
    k, s := 0, st;
    e := Firing(0, 0, 0, 0, 0, 0, 0, Early);
    over := pick.None?;
    if pick.Some? {
      k := pick.value.0;
      var verdict := Judge(st, p, pick.value.1, Until(st, p).value);
      s := Fire(st, p, k, times[k], pick.value.1, verdict).value;
      e := Firing(p.line, p.year, k, times[k], pick.value.1, st.gmtoff, st.stdoff, verdict);
      FireLogs(st, p, k, times[k], pick.value.1, verdict);
      CountDrops(todo, k);
    }
  }

  // ---------------------------------------------------------------- one year

  /** e is about a rule to do in this year, and its GMT time follows from the offsets it records. */
  predicate ForYear(p: Place, times: seq<int>, todo: seq<bool>, e: Firing)
    requires TimesOk(p.z, times) && |todo| == |times|
  {
    && e.line == p.line && e.year == p.year
    && Candidate(times, todo, e.rule) && e.local == times[e.rule]
    && e.time == e.local - TotalOffset(p.z.rules[e.rule].todisstd, e.gmtoff, e.stdoff)
  }

  /** The verdict of e: stopped exactly at or after the UNTIL instant under the offsets in force,
      early only before the line's start. */
  predicate Justified(p: Place, starttime: int, e: Firing)
    requires ZoneOk(p.z)
  {
    && -SECS_PER_DAY < e.gmtoff < SECS_PER_DAY && -SECS_PER_DAY < e.stdoff < SECS_PER_DAY
    && (if p.useuntil
        then var u := ToGmt(p.z.untiltime, p.z.untilTodisstd, e.gmtoff, e.stdoff);
             u.Ok? && (e.verdict.Stopped? <==> e.time >= u.value)
        else !e.verdict.Stopped?)
    && (e.verdict.Early? ==> e.time < starttime)
  }

  predicate Firings(st: State, p: Place, times: seq<int>, todo: seq<bool>, s: State)
    requires ZoneOk(p.z) && TimesOk(p.z, times) && |todo| == |times|
  {
    && st.fired <= s.fired
    && (forall i :: |st.fired| <= i < |s.fired| ==>
          ForYear(p, times, todo, s.fired[i]) && Justified(p, st.starttime, s.fired[i]))
    && (forall i, j :: |st.fired| <= i < j < |s.fired| ==> s.fired[i].rule != s.fired[j].rule)
  }

  lemma RoundIsJustified(st: State, p: Place, times: seq<int>, todo: seq<bool>, k: nat, e: Firing, s: State)
    requires StateOk(st) && ZoneOk(p.z) && TimesOk(p.z, times) && |todo| == |times|
    requires Round(st, p, times, todo, k, e, s)
    ensures ForYear(p, times, todo, e) && Justified(p, st.starttime, e) && s.starttime == st.starttime
  {
    FireKeepsStart(st, p, k, times[k], e.time, e.verdict);
  }

  lemma FiringsStep(st: State, p: Place, times: seq<int>, todo: seq<bool>, k: nat, e: Firing, s: State, z: State)
    requires ZoneOk(p.z) && TimesOk(p.z, times) && |todo| == |times|
    requires s.fired == st.fired + [e] && e.rule == k && k < |todo| && s.starttime == st.starttime
    requires ForYear(p, times, todo, e) && Justified(p, st.starttime, e)
    requires Firings(s, p, times, todo[k := false], z)
    ensures Firings(st, p, times, todo, z)
  {
    assert z.fired[|st.fired|] == e;
    forall i | |st.fired| <= i < |z.fired|
      ensures ForYear(p, times, todo, z.fired[i]) && Justified(p, st.starttime, z.fired[i])
      ensures (i > |st.fired| ==> z.fired[i].rule != k)
    {
      if i > |st.fired| {
        assert ForYear(p, times, todo[k := false], z.fired[i]);
      }
    }
  }

  /** No rule fires twice in a year, so the loop makes at most as many rounds as there are rules to
      do; and every firing is what the conditions of the source say. */
  lemma {:induction false} YearFirings(st: State, p: Place, times: seq<int>, todo: seq<bool>)
    requires StateOk(st) && ZoneOk(p.z) && TimesOk(p.z, times) && |todo| == |times|
    requires RunYear(st, p, times, todo).Ok?
    ensures Firings(st, p, times, todo, RunYear(st, p, times, todo).value)
    ensures |RunYear(st, p, times, todo).value.fired| - |st.fired| <= CountTrue(todo)
    decreases CountTrue(todo)
  {
    var over, k, e, s := Unroll(st, p, times, todo);
    if !over {
      RoundIsJustified(st, p, times, todo, k, e, s);
      if e.verdict.Stopped? {
        FiringsStep(st, p, times, todo, k, e, s, s);
        CountDrops(todo, k);
      } else {
        YearFirings(s, p, times, todo[k := false]);
        FiringsStep(st, p, times, todo, k, e, s, RunYear(st, p, times, todo).value);
      }
    }
  }

  lemma FireKeepsStart(st: State, p: Place, k: nat, local: int, ktime: int, verdict: Verdict)
    requires StateOk(st) && ZoneOk(p.z) && k < |p.z.rules| && Fire(st, p, k, local, ktime, verdict).Ok?
    ensures Fire(st, p, k, local, ktime, verdict).value.starttime == st.starttime
    ensures Fire(st, p, k, local, ktime, verdict).value.usestart == (st.usestart && !verdict.Taken?)
    ensures var s := Fire(st, p, k, local, ktime, verdict).value;
            && s.gmtoff == (if verdict.Taken? then p.z.gmtoff else st.gmtoff)
            && s.stdoff == (if verdict.Stopped? then st.stdoff else p.z.rules[k].stdoff)
  {
  }

  /** Without an UNTIL a year goes on until every rule to do has fired. */
  lemma {:induction false} YearIsComplete(st: State, p: Place, times: seq<int>, todo: seq<bool>, j: nat)
    requires StateOk(st) && ZoneOk(p.z) && TimesOk(p.z, times) && |todo| == |times| && !p.useuntil
    requires RunYear(st, p, times, todo).Ok? && Candidate(times, todo, j)
    ensures var s := RunYear(st, p, times, todo).value;
            exists i :: |st.fired| <= i < |s.fired| && s.fired[i].rule == j && s.fired[i].year == p.year
    decreases CountTrue(todo)
  {
    var over, k, e, s := Unroll(st, p, times, todo);
    YearFirings(st, p, times, todo);
    if k == j {
      YearFirings(s, p, times, todo[k := false]);
      assert RunYear(st, p, times, todo).value.fired[|st.fired|] == e;
    } else {
      YearIsComplete(s, p, times, todo[k := false], j);
    }
  }

  // ---------------------------------------------------------------- order

  /** All total offsets that can come into force on a line lie within [lo, lo + spread]. */
  predicate OffsetsWithin(z: Zone, g: int, lo: int, spread: int) {
    && lo <= g <= lo + spread
    && lo <= z.gmtoff <= lo + spread
    && forall r :: r in z.rules ==> lo <= g + r.stdoff <= lo + spread && lo <= z.gmtoff + r.stdoff <= lo + spread
  }

  predicate InForce(st: State, z: Zone, lo: int, spread: int) {
    && OffsetsWithin(z, st.gmtoff, lo, spread)
    && lo <= st.gmtoff + st.stdoff <= lo + spread
  }

  /** e's GMT time is its local time less an offset within the range. */
  predicate Near(e: Firing, lo: int, spread: int) {
    lo <= e.local - e.time <= lo + spread
  }

  predicate InOrder(fs: seq<Firing>) {
    forall i, j :: 0 <= i < j < |fs| ==> fs[i].local < fs[j].local && fs[i].time < fs[j].time
  }

  predicate AllNear(fs: seq<Firing>, lo: int, spread: int) {
    forall i :: 0 <= i < |fs| ==> Near(fs[i], lo, spread)
  }

  /** Every firing so far is more than the spread before local time t. */
  predicate Before(fs: seq<Firing>, t: int, spread: int) {
    forall i :: 0 <= i < |fs| ==> fs[i].local + spread < t
  }

  predicate Apart(times: seq<int>, todo: seq<bool>, spread: int)
    requires |todo| == |times|
  {
    forall i, j :: 0 <= i < j < |todo| && Candidate(times, todo, i) && Candidate(times, todo, j) ==>
                     times[i] + spread < times[j] || times[j] + spread < times[i]
  }

  /** The line's firings so far are in order, and every rule still to do comes after all of them. */
  predicate Orderly(st: State, p: Place, times: seq<int>, todo: seq<bool>, n: nat, lo: int, spread: int)
    requires |todo| == |times|
  {
    && n <= |st.fired| && InForce(st, p.z, lo, spread) && Apart(times, todo, spread)
    && InOrder(st.fired[n..]) && AllNear(st.fired[n..], lo, spread)
    && forall j :: 0 <= j < |todo| && Candidate(times, todo, j) ==> Before(st.fired[n..], times[j], spread)
  }

  lemma RoundInForce(st: State, p: Place, times: seq<int>, todo: seq<bool>, k: nat, e: Firing, s: State, lo: int,
                     spread: int)
    requires StateOk(st) && ZoneOk(p.z) && TimesOk(p.z, times) && |todo| == |times|
    requires Round(st, p, times, todo, k, e, s) && InForce(st, p.z, lo, spread)
    ensures InForce(s, p.z, lo, spread) && Near(e, lo, spread)
  {
    FireKeepsStart(st, p, k, times[k], e.time, e.verdict);
    assert p.z.rules[k] in p.z.rules;
  }

  lemma OneMoreInOrder(fs: seq<Firing>, e: Firing, lo: int, spread: int)
    requires InOrder(fs) && AllNear(fs, lo, spread) && Near(e, lo, spread) && Before(fs, e.local, spread)
    ensures InOrder(fs + [e]) && AllNear(fs + [e], lo, spread)
  {
  }

  lemma RoundInOrder(st: State, p: Place, times: seq<int>, todo: seq<bool>, k: nat, e: Firing, s: State, n: nat,
                     lo: int, spread: int)
    requires StateOk(st) && ZoneOk(p.z) && TimesOk(p.z, times) && |todo| == |times|
    requires Round(st, p, times, todo, k, e, s) && Orderly(st, p, times, todo, n, lo, spread)
    ensures Orderly(s, p, times, todo[k := false], n, lo, spread)
  {
    var rest := todo[k := false];
    RoundInForce(st, p, times, todo, k, e, s, lo, spread);
    assert s.fired[n..] == st.fired[n..] + [e];
    assert Before(st.fired[n..], times[k], spread);
    OneMoreInOrder(st.fired[n..], e, lo, spread);
    forall j | 0 <= j < |rest| && Candidate(times, rest, j)
      ensures Before(s.fired[n..], times[j], spread)
    {
      assert Candidate(times, todo, j);
      LaterIsLater(st, p, times, todo, k, j, lo, spread);
    }
  }

  /** If the local times of the rules to do are further apart than the offsets can differ, rules fire
      in local-time order and their instants increase. n is where the line's firings begin. */
  lemma {:induction false} YearInOrder(st: State, p: Place, times: seq<int>, todo: seq<bool>, n: nat, lo: int,
                                       spread: int)
    requires StateOk(st) && ZoneOk(p.z) && TimesOk(p.z, times) && |todo| == |times|
    requires RunYear(st, p, times, todo).Ok?
    requires Orderly(st, p, times, todo, n, lo, spread)
    ensures var s := RunYear(st, p, times, todo).value;
            n <= |s.fired| && InOrder(s.fired[n..]) && AllNear(s.fired[n..], lo, spread) && InForce(s, p.z, lo, spread)
    decreases CountTrue(todo)
  {
    var over, k, e, s := Unroll(st, p, times, todo);
    if !over {
      RoundInOrder(st, p, times, todo, k, e, s, n, lo, spread);
      if !e.verdict.Stopped? {
        YearInOrder(s, p, times, todo[k := false], n, lo, spread);
      }
    }
  }

  /** The candidate with the earliest instant has the earliest local time. */
  lemma LaterIsLater(st: State, p: Place, times: seq<int>, todo: seq<bool>, k: nat, j: nat, lo: int, spread: int)
    requires TimesOk(p.z, times) && |todo| == |times| && Apart(times, todo, spread)
    requires Candidate(times, todo, k) && Candidate(times, todo, j) && j != k
    requires InForce(st, p.z, lo, spread)
    requires Instant(p.z, times, k, st.gmtoff, st.stdoff) <= Instant(p.z, times, j, st.gmtoff, st.stdoff)
    ensures times[k] + spread < times[j]
  {
  }
}
