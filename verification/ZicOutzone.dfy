/** zic.c: outzone, which runs the lines of a zone through the years and fills the output tables. */
module ZicOutzone {
  import opened Machine
  import opened ZicTime
  import opened ZicTables

  // The years of the extreme times: 1901-12-13 and 2038-01-19.
  const MIN_YEAR := 1901
  const MAX_YEAR := 2038

  /** One line of a zone with the rules associate attached to it; the last line has no UNTIL. */
  datatype Zone = Zone(gmtoff: int, stdoff: int, format: string, rules: seq<Rule>,
                       untilHiyear: int, untilTodisstd: bool, untiltime: int)

  /** What inzsub, gethms and associate leave in a line. */
  predicate ZoneOk(z: Zone) {
    && -SECS_PER_DAY < z.gmtoff < SECS_PER_DAY && -SECS_PER_DAY < z.stdoff < SECS_PER_DAY
    && InTime(z.untiltime)
    && IsCString(z.format)
    && forall r :: r in z.rules ==> RuleOk(r) && IsCString(r.abbrvar)
  }

  predicate ZonesOk(zs: seq<Zone>) {
    zs != [] && forall z :: z in zs ==> ZoneOk(z)
  }

  /** sprintf with a format whose only conversion is one %s. */
  function Expand(format: string, word: string): (s: string)
    ensures IsCString(format) && IsCString(word) ==> IsCString(s)
  {
    if |format| < 2 then format
    else if format[0] == '%' then word + format[2..]
    else [format[0]] + Expand(format[1..], word)
  }

  // ---------------------------------------------------------------- state

  /** The guess for the type in force when a line starts; startisdst is -1 for NoStart. */
  datatype Start = NoStart | Start(gmtoff: int, abbr: string, isdst: bool)

  /** Early: before the line starts. Taken: in force from its time on. Stopped: at or after UNTIL. */
  datatype Verdict = Early | Taken | Stopped

  /** A rule being picked: its time in local and in GMT seconds, and the offsets then in force. */
  datatype Firing = Firing(line: nat, year: int, rule: nat, local: int, time: int,
                           gmtoff: int, stdoff: int, verdict: Verdict)

  /** The locals of outzone and the tables; ops and fired record the run. */
  datatype State = State(gmtoff: int, stdoff: int, usestart: bool, starttime: int, start: Start,
                         tables: Tables, ops: seq<Op>, fired: seq<Firing>)

  predicate StateOk(st: State) {
    && -SECS_PER_DAY < st.gmtoff < SECS_PER_DAY && -SECS_PER_DAY < st.stdoff < SECS_PER_DAY
    && InTime(st.starttime)
    && (st.start.Start? ==> IsCString(st.start.abbr))
    && (st.start.Start? ==> -2 * SECS_PER_DAY < st.start.gmtoff < 2 * SECS_PER_DAY)
    && Shaped(st.tables)
    && forall g :: g in st.tables.gmtoffs ==> -2 * SECS_PER_DAY < g < 2 * SECS_PER_DAY
  }

  /** addtype, and addtt if the operation says so. */
  function Perform(st: State, op: Op): (o: Outcome<State>)
    requires StateOk(st) && -2 * SECS_PER_DAY < op.gmtoff < 2 * SECS_PER_DAY
    ensures o.Ok? ==> StateOk(o.value)
  {
    var t :- Apply(st.tables, op);
    Ok(st.(tables := t, ops := st.ops + [op]))
  }

  // ---------------------------------------------------------------- one year

  /** Wall-clock or standard time to GMT under the offsets in force. */
  function ToGmt(t: int, todisstd: bool, gmtoff: int, stdoff: int): (o: Outcome<int>)
    requires InTime(t) && -SECS_PER_DAY < gmtoff < SECS_PER_DAY && -SECS_PER_DAY < stdoff < SECS_PER_DAY
    ensures o.Ok? ==> InTime(o.value)
    ensures TIME_MIN < t < TIME_MAX && o.Ok? ==> o.value == t - TotalOffset(todisstd, gmtoff, stdoff)
  {
    Tadd(t, -TotalOffset(todisstd, gmtoff, stdoff))
  }

  function TotalOffset(todisstd: bool, gmtoff: int, stdoff: int): int {
    if todisstd then gmtoff else gmtoff + stdoff
  }

  predicate IsMarked(r: Rule, year: int) {
    r.loyear <= year <= r.hiyear && year in r.years
  }

  function Marks(z: Zone, year: int): seq<bool> {
    seq(|z.rules|, j requires 0 <= j < |z.rules| => IsMarked(z.rules[j], year))
  }

  /** One time per rule, kept from year to year; only those of marked rules are looked at. */
  predicate TimesOk(z: Zone, times: seq<int>) {
    |times| == |z.rules| && forall j :: 0 <= j < |times| ==> InTime(times[j])
  }

  /** The marking loop from rule j on: store the time of every marked rule, exit with the first
      failure. */
  function MarkTimes(z: Zone, year: int, j: nat, times: seq<int>): (o: Outcome<seq<int>>)
    requires ZoneOk(z) && TimesOk(z, times) && j <= |z.rules|
    ensures o.Ok? ==> TimesOk(z, o.value)
    decreases |z.rules| - j
  {
    if j == |z.rules| then
      Ok(times)
    else if IsMarked(z.rules[j], year) then
      var t :- RuleTime(z.rules[j], year);
      MarkTimes(z, year, j + 1, times[j := t])
    else
      MarkTimes(z, year, j + 1, times)
  }

  predicate Saturated(t: int) {
    t == TIME_MIN || t == TIME_MAX
  }

  /** The search for the earliest pending rule, from rule j on with best so far. */
  function Pick(z: Zone, times: seq<int>, todo: seq<bool>, gmtoff: int, stdoff: int, j: nat, best: Option<(nat, int)>)
    : (o: Outcome<Option<(nat, int)>>)
    requires TimesOk(z, times) && |todo| == |times| && j <= |todo|
    requires -SECS_PER_DAY < gmtoff < SECS_PER_DAY && -SECS_PER_DAY < stdoff < SECS_PER_DAY
    requires best.Some? ==> best.value.0 < j && todo[best.value.0]
    ensures o.Ok? && o.value.Some? ==> o.value.value.0 < |todo| && todo[o.value.value.0]
    decreases |todo| - j
  {
    if j == |todo| then
      Ok(best)
    else if !todo[j] || Saturated(times[j]) then
      Pick(z, times, todo, gmtoff, stdoff, j + 1, best)
    else
      var jtime :- ToGmt(times[j], z.rules[j].todisstd, gmtoff, stdoff);
      Pick(z, times, todo, gmtoff, stdoff, j + 1,
           if best.None? || jtime < best.value.1 then Some((j, jtime)) else best)
  }

  function CountTrue(s: seq<bool>): nat {
    if s == [] then 0 else (if s[0] then 1 else 0) + CountTrue(s[1..])
  }

  lemma {:induction false} CountDrops(s: seq<bool>, k: nat)
    requires k < |s| && s[k]
    ensures CountTrue(s[k := false]) == CountTrue(s) - 1
  {
    if k == 0 {
      assert s[0 := false][1..] == s[1..];
    } else {
      CountDrops(s[1..], k - 1);
      assert s[k := false][1..] == s[1..][k - 1 := false];
    }
  }

  /** Where a run is: line number, line, whether an UNTIL applies, year. */
  datatype Place = Place(line: nat, z: Zone, useuntil: bool, year: int)

  function Log(st: State, p: Place, k: nat, local: int, ktime: int, verdict: Verdict): State {
    st.(fired := st.fired + [Firing(p.line, p.year, k, local, ktime, st.gmtoff, st.stdoff, verdict)])
  }

  /** A rule before the line's start only sets the guess for the start. */
  function TakeEarly(st: State, z: Zone, r: Rule): (s: State)
    requires StateOk(st) && ZoneOk(z) && r in z.rules
    ensures StateOk(s)
  {
    st.(stdoff := r.stdoff, start := Start(z.gmtoff + r.stdoff, Expand(z.format, r.abbrvar), r.stdoff != 0))
  }

  /** The first rule at or after the line's start opens the line, with a transition of its own when
      the guess is known and the rule comes later. */
  function Open(st: State, ktime: int): (o: Outcome<State>)
    requires StateOk(st)
    ensures o.Ok? ==> StateOk(o.value)
  {
    if !st.usestart then Ok(st)
    else
      var s :- if ktime != st.starttime && st.start.Start?
               then Perform(st, Transition(st.starttime, st.start.gmtoff, st.start.abbr, st.start.isdst))
               else Ok(st);
      Ok(s.(usestart := false))
  }

  function RuleOp(st: State, z: Zone, r: Rule, ktime: int): Op {
    if st.tables.ats != [] || r.stdoff != 0
    then Transition(ktime, z.gmtoff + r.stdoff, Expand(z.format, r.abbrvar), r.stdoff != 0)
    else JustType(z.gmtoff + r.stdoff, Expand(z.format, r.abbrvar), r.stdoff != 0)
  }

  /** The rule's type, a transition to it unless nothing has been written yet and the rule is
      standard time, and the new offsets. */
  function Settle(st: State, z: Zone, r: Rule, ktime: int): (o: Outcome<State>)
    requires StateOk(st) && ZoneOk(z) && r in z.rules
    ensures o.Ok? ==> StateOk(o.value)
  {
    var s :- Perform(st, RuleOp(st, z, r, ktime));
    Ok(s.(gmtoff := z.gmtoff, stdoff := r.stdoff))
  }

  function Take(st: State, z: Zone, r: Rule, ktime: int): (o: Outcome<State>)
    requires StateOk(st) && ZoneOk(z) && r in z.rules
    ensures o.Ok? ==> StateOk(o.value)
  {
    var begun :- Open(st, ktime);
    Settle(begun, z, r, ktime)
  }

  function Judge(st: State, p: Place, ktime: int, until: int): Verdict {
    if p.useuntil && ktime >= until then Stopped
    else if st.usestart && ktime < st.starttime then Early
    else Taken
  }

  /** What happens to the picked rule. */
  function Fire(st: State, p: Place, k: nat, local: int, ktime: int, verdict: Verdict): (o: Outcome<State>)
    requires StateOk(st) && ZoneOk(p.z) && k < |p.z.rules|
    ensures o.Ok? ==> StateOk(o.value)
  {
    var logged := Log(st, p, k, local, ktime, verdict);
    match verdict
    case Stopped => Ok(logged)
    case Early => Ok(TakeEarly(logged, p.z, p.z.rules[k]))
    case Taken => Take(logged, p.z, p.z.rules[k], ktime)
  }

  /** The UNTIL time in GMT under the offsets in force. */
  function Until(st: State, p: Place): Outcome<int>
    requires StateOk(st) && ZoneOk(p.z)
  {
    if p.useuntil then ToGmt(p.z.untiltime, p.z.untilTodisstd, st.gmtoff, st.stdoff) else Ok(0)
  }

  /** The inner loop of a year: it ends because every round clears one mark. */
  function RunYear(st: State, p: Place, times: seq<int>, todo: seq<bool>): (o: Outcome<State>)
    requires StateOk(st) && ZoneOk(p.z) && TimesOk(p.z, times) && |todo| == |times|
    ensures o.Ok? ==> StateOk(o.value)
    decreases CountTrue(todo)
  {
    var until :- Until(st, p);
    var pick :- Pick(p.z, times, todo, st.gmtoff, st.stdoff, 0, None);
    if pick.None? then
      Ok(st)
    else
      var (k, ktime) := pick.value;
      var verdict := Judge(st, p, ktime, until);
      var s :- Fire(st, p, k, times[k], ktime, verdict);
      CountDrops(todo, k);
      if verdict.Stopped? then Ok(s) else RunYear(s, p, times, todo[k := false])
  }

  // ---------------------------------------------------------------- all years, all lines

  function OneYear(st: State, p: Place, times: seq<int>): (o: Outcome<(State, seq<int>)>)
    requires StateOk(st) && ZoneOk(p.z) && TimesOk(p.z, times)
    ensures o.Ok? ==> StateOk(o.value.0) && TimesOk(p.z, o.value.1)
  {
    var marked :- MarkTimes(p.z, p.year, 0, times);
    var s :- RunYear(st, p, marked, Marks(p.z, p.year));
    Ok((s, marked))
  }

  function NextYear(p: Place): Place {
    p.(year := p.year + 1)
  }

  function RunYears(st: State, p: Place, times: seq<int>): (o: Outcome<State>)
    requires StateOk(st) && ZoneOk(p.z) && TimesOk(p.z, times)
    ensures o.Ok? ==> StateOk(o.value)
    decreases MAX_YEAR + 1 - p.year
  {
    if p.year > MAX_YEAR || (p.useuntil && p.year > p.z.untilHiyear) then
      Ok(st)
    else
      var (s, marked) :- OneYear(st, p, times);
      RunYears(s, NextYear(p), marked)
  }

  /** What a line without rules adds. */
  function PlainOp(st: State, z: Zone): Op {
    if st.usestart then Transition(st.starttime, z.gmtoff + z.stdoff, z.format, z.stdoff != 0)
    else JustType(z.gmtoff + z.stdoff, z.format, z.stdoff != 0)
  }

  /** A line without rules: one type, in force from the line's start. */
  function RunPlain(st: State, z: Zone): (o: Outcome<State>)
    requires StateOk(st) && ZoneOk(z)
    ensures o.Ok? ==> StateOk(o.value)
  {
    var s :- Perform(st, PlainOp(st, z));
    Ok(s.(gmtoff := z.gmtoff, stdoff := z.stdoff))
  }

  function LineStart(st: State, i: nat): State {
    st.(usestart := i > 0, start := NoStart)
  }

  function LinePlace(zs: seq<Zone>, i: nat): Place
    requires i < |zs|
  {
    Place(i, zs[i], i < |zs| - 1, MIN_YEAR)
  }

  function NoTimes(z: Zone): (times: seq<int>)
    ensures TimesOk(z, times)
  {
    seq(|z.rules|, _ => 0)
  }

  function RunLine(st: State, zs: seq<Zone>, i: nat): (o: Outcome<State>)
    requires StateOk(st) && ZonesOk(zs) && i < |zs|
    ensures o.Ok? ==> StateOk(o.value)
  {
    if zs[i].rules == [] then RunPlain(LineStart(st, i), zs[i])
    else RunYears(LineStart(st, i), LinePlace(zs, i), NoTimes(zs[i]))
  }

  /** types[timecnt - 1]: the last type written or, where no transition has been written, stray, the byte that
      happens to lie in front of types. */
  function LastType(t: Tables, stray: nat): nat {
    if t.types == [] then stray else t.types[|t.types| - 1]
  }

  /** The start of the next line, in GMT under the last type written. */
  function NextStart(st: State, z: Zone, stray: nat): (o: Outcome<State>)
    requires StateOk(st) && ZoneOk(z)
    ensures o.Ok? ==> StateOk(o.value)
  {
    var kind := LastType(st.tables, stray);
    if kind >= |st.tables.gmtoffs| then Exit(WildRead)
    else
      var off := st.tables.gmtoffs[kind];
      assert off in st.tables.gmtoffs;
      var t :- Tadd(z.untiltime, -off);
      Ok(st.(starttime := t))
  }

  /** One line, and the start of the next. */
  function LineAndStart(st: State, zs: seq<Zone>, i: nat, stray: nat): (o: Outcome<State>)
    requires StateOk(st) && ZonesOk(zs) && i < |zs|
    ensures o.Ok? ==> StateOk(o.value)
  {
    assert zs[i] in zs;
    var s :- RunLine(st, zs, i);
    if i < |zs| - 1 then NextStart(s, zs[i], stray) else Ok(s)
  }

  function RunLines(st: State, zs: seq<Zone>, i: nat, stray: nat): (o: Outcome<State>)
    requires StateOk(st) && ZonesOk(zs) && i <= |zs|
    ensures o.Ok? ==> StateOk(o.value)
    decreases |zs| - i
  {
    if i == |zs| then
      Ok(st)
    else
      var n :- LineAndStart(st, zs, i, stray);
      RunLines(n, zs, i + 1, stray)
  }

  function Initial(zs: seq<Zone>): State
    requires ZonesOk(zs)
  {
    State(zs[0].gmtoff, 0, false, 0, NoStart, EMPTY, [], [])
  }

  function RunZone(zs: seq<Zone>, stray: nat): Outcome<State>
    requires ZonesOk(zs)
  {
    assert zs[0] in zs;
    RunLines(Initial(zs), zs, 0, stray)
  }
}
