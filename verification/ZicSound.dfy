/** The tables outzone leaves, line by line, are those its recorded operations build, so they are sound. */
module ZicSound {
  import opened Machine
  import opened ZicTime
  import opened ZicTables
  import opened ZicOutzone
  import opened ZicFirings

  /** The tables of a state are what its operations build from nothing. */
  predicate Replayed(st: State) {
    Run(EMPTY, st.ops) == Ok(st.tables) && forall op :: op in st.ops ==> IsCString(op.abbr)
  }

  lemma {:induction false} RunSnoc(t: Tables, ops: seq<Op>, op: Op)
    requires Shaped(t) && Run(t, ops).Ok?
    ensures Run(t, ops + [op]) == Apply(Run(t, ops).value, op)
    decreases |ops|
  {
    var all := ops + [op];
    if ops == [] {
      assert all[1..] == [];
    } else {
      assert all[1..] == ops[1..] + [op];
      RunSnoc(Apply(t, ops[0]).value, ops[1..], op);
    }
  }

  lemma PerformReplays(st: State, op: Op)
    requires StateOk(st) && Replayed(st) && IsCString(op.abbr)
    requires -2 * SECS_PER_DAY < op.gmtoff < 2 * SECS_PER_DAY && Perform(st, op).Ok?
    ensures Replayed(Perform(st, op).value)
  {
    RunSnoc(EMPTY, st.ops, op);
  }

  lemma FireReplays(st: State, p: Place, k: nat, local: int, ktime: int, verdict: Verdict)
    requires StateOk(st) && ZoneOk(p.z) && k < |p.z.rules| && Replayed(st)
    requires Fire(st, p, k, local, ktime, verdict).Ok?
    ensures Replayed(Fire(st, p, k, local, ktime, verdict).value)
  {
    if verdict.Taken? {
      var logged := Log(st, p, k, local, ktime, verdict);
      if logged.usestart && ktime != logged.starttime && logged.start.Start? {
        PerformReplays(logged,
                       Transition(logged.starttime, logged.start.gmtoff, logged.start.abbr, logged.start.isdst));
      }
      var begun := Open(logged, ktime).value;
      assert p.z.rules[k] in p.z.rules;
      PerformReplays(begun, RuleOp(begun, p.z, p.z.rules[k], ktime));
    }
  }

  lemma {:induction false} YearReplays(st: State, p: Place, times: seq<int>, todo: seq<bool>)
    requires StateOk(st) && ZoneOk(p.z) && TimesOk(p.z, times) && |todo| == |times| && Replayed(st)
    requires RunYear(st, p, times, todo).Ok?
    ensures Replayed(RunYear(st, p, times, todo).value)
    decreases CountTrue(todo)
  {
    var over, k, e, s := Unroll(st, p, times, todo);
    if !over {
      FireReplays(st, p, k, times[k], e.time, e.verdict);
      if !e.verdict.Stopped? {
        YearReplays(s, p, times, todo[k := false]);
      }
    }
  }

  lemma {:induction false} YearsReplay(st: State, p: Place, times: seq<int>)
    requires StateOk(st) && ZoneOk(p.z) && TimesOk(p.z, times) && Replayed(st) && RunYears(st, p, times).Ok?
    ensures Replayed(RunYears(st, p, times).value)
    decreases MAX_YEAR + 1 - p.year
  {
    if p.year <= MAX_YEAR && !(p.useuntil && p.year > p.z.untilHiyear) {
      var (s, m) := OneYear(st, p, times).value;
      YearReplays(st, p, m, Marks(p.z, p.year));
      YearsReplay(s, NextYear(p), m);
    }
  }

  lemma PlainReplays(st: State, z: Zone)
    requires StateOk(st) && ZoneOk(z) && Replayed(st) && RunPlain(st, z).Ok?
    ensures Replayed(RunPlain(st, z).value)
  {
    PerformReplays(st, PlainOp(st, z));
  }

  lemma LineReplays(st: State, zs: seq<Zone>, i: nat)
    requires StateOk(st) && ZonesOk(zs) && i < |zs| && Replayed(st) && RunLine(st, zs, i).Ok?
    ensures Replayed(RunLine(st, zs, i).value)
  {
    assert zs[i] in zs;
    if zs[i].rules == [] {
      PlainReplays(LineStart(st, i), zs[i]);
    } else {
      YearsReplay(LineStart(st, i), LinePlace(zs, i), NoTimes(zs[i]));
    }
  }

  // ---------------------------------------------------------------- from line to line

  /** What k steps lead to. */
  function Iterate(step: (State, nat) -> Outcome<State>, st: State, k: nat): Outcome<State> {
    if k == 0 then Ok(st)
    else
      var s :- Iterate(step, st, k - 1);
      step(s, k - 1)
  }

  /** What every step leads on to holds after any number of steps. */
  lemma {:induction false} IterateKeeps(step: (State, nat) -> Outcome<State>, st: State, k: nat,
                                        holds: (State, nat) -> bool)
    requires holds(st, 0) && Iterate(step, st, k).Ok?
    requires forall s: State, j: nat :: j < k && holds(s, j) && step(s, j).Ok? ==> holds(step(s, j).value, j + 1)
    ensures holds(Iterate(step, st, k).value, k)
  {
    if k > 0 {
      IterateKeeps(step, st, k - 1, holds);
    }
  }

  /** Line i and the start of the next, as a step from state to state. */
  function StepLine(zs: seq<Zone>, stray: nat, st: State, i: nat): Outcome<State>
    requires ZonesOk(zs)
  {
    if StateOk(st) && i < |zs| then LineAndStart(st, zs, i, stray) else Exit(WildRead)
  }

  function LineStep(zs: seq<Zone>, stray: nat): (step: (State, nat) -> Outcome<State>)
    requires ZonesOk(zs)
    ensures forall st: State, i: nat :: step(st, i) == StepLine(zs, stray, st, i)
  {
    (st: State, i: nat) => StepLine(zs, stray, st, i)
  }

  /** The state in which line i starts. */
  function StartOf(zs: seq<Zone>, stray: nat, i: nat): Outcome<State>
    requires ZonesOk(zs)
  {
    Iterate(LineStep(zs, stray), Initial(zs), i)
  }

  predicate Going(st: State) {
    StateOk(st) && Replayed(st)
  }

  lemma NextStartReplays(s: State, z: Zone, stray: nat, n: State)
    requires StateOk(s) && ZoneOk(z) && Replayed(s) && NextStart(s, z, stray) == Ok(n)
    ensures Going(n)
  {
  }

  lemma StepReplays(zs: seq<Zone>, stray: nat, st: State, i: nat, n: State)
    requires ZonesOk(zs) && Going(st) && StepLine(zs, stray, st, i) == Ok(n)
    ensures Going(n)
  {
    LineReplays(st, zs, i);
    if i < |zs| - 1 {
      assert zs[i] in zs;
      NextStartReplays(RunLine(st, zs, i).value, zs[i], stray, n);
    }
  }

  lemma InitialGoing(zs: seq<Zone>)
    requires ZonesOk(zs)
    ensures Going(Initial(zs))
  {
    assert zs[0] in zs;
  }

  lemma StartReplays(zs: seq<Zone>, stray: nat, i: nat)
    requires ZonesOk(zs) && StartOf(zs, stray, i).Ok?
    ensures Going(StartOf(zs, stray, i).value)
  {
    var step := LineStep(zs, stray);
    InitialGoing(zs);
    forall s: State, j: nat | Going(s) && step(s, j).Ok? ensures Going(step(s, j).value) {
      StepReplays(zs, stray, s, j, step(s, j).value);
    }
    IterateKeeps(step, Initial(zs), i, (s: State, j: nat) => Going(s));
  }

  lemma ReplayedIsSound(st: State)
    requires Going(st)
    ensures Sound(st.tables)
  {
    RunIsSound(EMPTY, st.ops);
  }

  /** The tables with which a line starts and those it leaves are sound, whatever becomes of the run after it. */
  lemma LinesAreSound(zs: seq<Zone>, stray: nat, i: nat)
    requires ZonesOk(zs) && i < |zs| && StartOf(zs, stray, i).Ok?
    ensures var st := StartOf(zs, stray, i).value;
            && StateOk(st) && Sound(st.tables)
            && (RunLine(st, zs, i).Ok? ==> Sound(RunLine(st, zs, i).value.tables))
  {
    var st := StartOf(zs, stray, i).value;
    StartReplays(zs, stray, i);
    ReplayedIsSound(st);
    if RunLine(st, zs, i).Ok? {
      LineReplays(st, zs, i);
      ReplayedIsSound(RunLine(st, zs, i).value);
    }
  }

  // ---------------------------------------------------------------- the whole run

  function IterateFrom(step: (State, nat) -> Outcome<State>, st: State, i: nat, n: nat): Outcome<State>
    decreases n - i
  {
    if i >= n then Ok(st)
    else
      var s :- step(st, i);
      IterateFrom(step, s, i + 1, n)
  }

  lemma {:induction false} IterateMeets(step: (State, nat) -> Outcome<State>, st0: State, i: nat, n: nat)
    requires i <= n
    ensures Iterate(step, st0, n) == match Iterate(step, st0, i)
                                     case Ok(st) => IterateFrom(step, st, i, n)
                                     case Exit(e) => Exit(e)
    decreases n - i
  {
    if i < n {
      IterateMeets(step, st0, i + 1, n);
    }
  }

  /** run does step i and then goes on, or ends behind the last step. */
  predicate Unrolls(step: (State, nat) -> Outcome<State>, run: (State, nat) -> Outcome<State>, n: nat, st: State,
                    i: nat) {
    if i >= n then run(st, n) == Ok(st)
    else match step(st, i)
         case Ok(s) => StateOk(s) && run(st, i) == run(s, i + 1)
         case Exit(e) => run(st, i) == Exit(e)
  }

  lemma {:induction false} UnrollsIterate(step: (State, nat) -> Outcome<State>, run: (State, nat) -> Outcome<State>,
                                          n: nat, st: State, i: nat)
    requires i <= n && StateOk(st)
    requires forall s: State, k: nat :: StateOk(s) ==> Unrolls(step, run, n, s, k)
    ensures run(st, i) == IterateFrom(step, st, i, n)
    decreases n - i
  {
    assert Unrolls(step, run, n, st, i);
    if i < n && step(st, i).Ok? {
      UnrollsIterate(step, run, n, step(st, i).value, i + 1);
    }
  }

  function RunFrom(zs: seq<Zone>, stray: nat, st: State, i: nat): Outcome<State>
    requires ZonesOk(zs)
  {
    if StateOk(st) && i <= |zs| then RunLines(st, zs, i, stray) else Exit(WildRead)
  }

  lemma LinesUnroll(zs: seq<Zone>, stray: nat, step: (State, nat) -> Outcome<State>,
                    run: (State, nat) -> Outcome<State>, st: State, i: nat)
    requires ZonesOk(zs) && StateOk(st)
    requires forall s: State, k: nat :: step(s, k) == StepLine(zs, stray, s, k)
    requires forall s: State, k: nat :: run(s, k) == RunFrom(zs, stray, s, k)
    ensures Unrolls(step, run, |zs|, st, i)
  {
  }

  /** A run is its lines one after the other: it ends in the state that would start a further line. */
  lemma RunIsIterated(zs: seq<Zone>, stray: nat)
    requires ZonesOk(zs)
    ensures RunZone(zs, stray) == StartOf(zs, stray, |zs|)
  {
    var step := LineStep(zs, stray);
    var run := (s: State, k: nat) => RunFrom(zs, stray, s, k);
    InitialGoing(zs);
    forall s: State, k: nat | StateOk(s) ensures Unrolls(step, run, |zs|, s, k) {
      LinesUnroll(zs, stray, step, run, s, k);
    }
    UnrollsIterate(step, run, |zs|, Initial(zs), 0);
    IterateMeets(step, Initial(zs), 0, |zs|);
  }

  lemma RunReplays(zs: seq<Zone>, stray: nat)
    requires ZonesOk(zs) && RunZone(zs, stray).Ok?
    ensures Going(RunZone(zs, stray).value)
  {
    RunIsIterated(zs, stray);
    StartReplays(zs, stray, |zs|);
  }

  /** Whatever the zone, a run that ends well leaves sound tables. */
  lemma ZoneTablesAreSound(zs: seq<Zone>, stray: nat)
    requires ZonesOk(zs) && RunZone(zs, stray).Ok?
    ensures Sound(RunZone(zs, stray).value.tables)
  {
    RunReplays(zs, stray);
    ReplayedIsSound(RunZone(zs, stray).value);
  }
}
