/** zic.c, outzone: where the start of the next line comes from. The last type written is looked up even if no
    transition has been written yet; which zones do that is decided on their first line. */
module ZicStart {
  import opened Machine
  import opened ZicTime
  import opened ZicTables
  import opened ZicOutzone
  import opened ZicFirings
  import opened ZicRuns
  import opened ZicSound
  import opened ZicFirstLine

  // ---------------------------------------------------------------- the lines after it

  predicate Written(st: State) {
    StateOk(st) && st.tables.ats != []
  }

  lemma LineStaysWritten(st: State, zs: seq<Zone>, i: nat, s: State)
    requires ZonesOk(zs) && i < |zs| && Written(st) && RunLine(st, zs, i) == Ok(s)
    ensures Written(s)
  {
    assert zs[i] in zs;
    if zs[i].rules == [] {
      PerformWrites(LineStart(st, i), PlainOp(LineStart(st, i), zs[i]));
    } else {
      LineIsLogged(st, zs, i);
    }
  }

  /** Once a transition has been written, stray is not looked at. */
  lemma NextIgnoresStray(s: State, z: Zone, a: nat, b: nat)
    requires Written(s) && ZoneOk(z)
    ensures NextStart(s, z, a) == NextStart(s, z, b)
    ensures NextStart(s, z, a).Ok? ==> Written(NextStart(s, z, a).value)
  {
  }

  lemma StepIgnoresStray(zs: seq<Zone>, a: nat, b: nat, st: State, i: nat)
    requires ZonesOk(zs) && i < |zs| && StateOk(st)
    requires RunLine(st, zs, i).Ok? ==> Written(RunLine(st, zs, i).value)
    ensures StepLine(zs, a, st, i) == StepLine(zs, b, st, i)
    ensures StepLine(zs, a, st, i).Ok? ==> Written(StepLine(zs, a, st, i).value)
  {
    assert zs[i] in zs;
    if RunLine(st, zs, i).Ok? {
      NextIgnoresStray(RunLine(st, zs, i).value, zs[i], a, b);
    }
  }

  /** Two step functions that agree where it matters lead to the same states. */
  lemma {:induction false} IterateAgree(f: (State, nat) -> Outcome<State>, g: (State, nat) -> Outcome<State>, st: State,
                                        k: nat)
    requires k > 0 && f(st, 0) == g(st, 0) && (f(st, 0).Ok? ==> Written(f(st, 0).value))
    requires forall s: State, j: nat :: Written(s) ==> f(s, j) == g(s, j) && (f(s, j).Ok? ==> Written(f(s, j).value))
    ensures Iterate(f, st, k) == Iterate(g, st, k) && (Iterate(f, st, k).Ok? ==> Written(Iterate(f, st, k).value))
  {
    if k == 1 {
      assert Iterate(f, st, 0) == Ok(st) && Iterate(g, st, 0) == Ok(st);
    } else {
      IterateAgree(f, g, st, k - 1);
    }
  }

  lemma StepsAgree(zs: seq<Zone>, a: nat, b: nat, s: State, j: nat)
    requires ZonesOk(zs) && Written(s)
    ensures StepLine(zs, a, s, j) == StepLine(zs, b, s, j)
    ensures StepLine(zs, a, s, j).Ok? ==> Written(StepLine(zs, a, s, j).value)
  {
    if j < |zs| {
      if RunLine(s, zs, j).Ok? {
        LineStaysWritten(s, zs, j, RunLine(s, zs, j).value);
      }
      StepIgnoresStray(zs, a, b, s, j);
    }
  }

  lemma StrayIsIdle(zs: seq<Zone>, s: State, a: nat, b: nat)
    requires ZonesOk(zs) && StateOk(Initial(zs)) && RunLine(Initial(zs), zs, 0) == Ok(s) && Written(s)
    ensures RunZone(zs, a) == RunZone(zs, b)
  {
    var f, g := LineStep(zs, a), LineStep(zs, b);
    StepIgnoresStray(zs, a, b, Initial(zs), 0);
    forall s: State, j: nat | Written(s)
      ensures f(s, j) == g(s, j) && (f(s, j).Ok? ==> Written(f(s, j).value))
    {
      StepsAgree(zs, a, b, s, j);
    }
    IterateAgree(f, g, Initial(zs), |zs|);
    RunIsIterated(zs, a);
    RunIsIterated(zs, b);
  }

  lemma StrayIsWild(zs: seq<Zone>, s: State, stray: nat)
    requires ZonesOk(zs) && |zs| > 1 && StateOk(Initial(zs)) && RunLine(Initial(zs), zs, 0) == Ok(s)
    requires s.tables.types == [] && stray >= |s.tables.gmtoffs|
    ensures RunZone(zs, stray) == Exit(WildRead)
  {
    assert zs[0] in zs;
    assert StepLine(zs, stray, Initial(zs), 0) == Exit(WildRead);
    assert Iterate(LineStep(zs, stray), Initial(zs), 0) == Ok(Initial(zs));
    IterateMeets(LineStep(zs, stray), Initial(zs), 1, |zs|);
    RunIsIterated(zs, stray);
  }

  lemma FirstStep(zs: seq<Zone>, s: State, stray: nat)
    requires ZonesOk(zs) && StateOk(Initial(zs)) && RunLine(Initial(zs), zs, 0) == Ok(s)
    ensures StartOf(zs, stray, 1) == if |zs| == 1 then Ok(s)
                                     else (assert zs[0] in zs; NextStart(s, zs[0], stray))
  {
    assert zs[0] in zs;
    assert Iterate(LineStep(zs, stray), Initial(zs), 0) == Ok(Initial(zs));
    assert StepLine(zs, stray, Initial(zs), 0) == LineAndStart(Initial(zs), zs, 0, stray);
  }

  lemma NextStartIsWild(s: State, z: Zone, stray: nat)
    requires StateOk(s) && ZoneOk(z) && stray >= TZ_MAX_TYPES
    ensures NextStart(s, z, stray) == Exit(WildRead) <==> s.tables.types == []
  {
  }

  /** The start of the second line is taken from what lies in front of types exactly if the first line, z, has no
      rule with a saving that comes before UNTIL under the line's standard offset. Then the run exits unless a type
      of the first line happens to lie there; otherwise no zone's result depends on it, whatever its further
      lines. */
  lemma WhenStrayIsRead(zs: seq<Zone>, z: Zone, s: State)
    requires ZonesOk(zs) && z == zs[0] && ZoneOk(z) && |zs| > 1
    requires StateOk(Initial(zs)) && RunLine(Initial(zs), zs, 0) == Ok(s)
    ensures StartOf(zs, TZ_MAX_TYPES, 1) == Exit(WildRead) <==> !SavesEarly(z)
    ensures !SavesEarly(z) ==> forall stray: nat :: stray >= |s.tables.gmtoffs| ==> RunZone(zs, stray) == Exit(WildRead)
    ensures SavesEarly(z) ==> forall a: nat, b: nat :: RunZone(zs, a) == RunZone(zs, b)
  {
    FirstLineWrites(zs, s);
    FirstLineSaves(zs, z, s);
    FirstStep(zs, s, TZ_MAX_TYPES);
    NextStartIsWild(s, z, TZ_MAX_TYPES);
    if SavesEarly(z) {
      forall a: nat, b: nat ensures RunZone(zs, a) == RunZone(zs, b) {
        StrayIsIdle(zs, s, a, b);
      }
    } else {
      forall stray: nat | stray >= |s.tables.gmtoffs| ensures RunZone(zs, stray) == Exit(WildRead) {
        StrayIsWild(zs, s, stray);
      }
    }
  }

  /** With one line only there is no start to look up. */
  lemma OneLineIgnoresStray(zs: seq<Zone>, a: nat, b: nat)
    requires ZonesOk(zs) && |zs| == 1
    ensures RunZone(zs, a) == RunZone(zs, b)
  {
    InitialGoing(zs);
    assert StepLine(zs, a, Initial(zs), 0) == StepLine(zs, b, Initial(zs), 0);
    assert Iterate(LineStep(zs, a), Initial(zs), 0) == Iterate(LineStep(zs, b), Initial(zs), 0) == Ok(Initial(zs));
    RunIsIterated(zs, a);
    RunIsIterated(zs, b);
  }

  lemma OneType(st: State, z: Zone, s: State)
    requires StateOk(st) && ZoneOk(z) && st.tables == EMPTY && !st.usestart && RunPlain(st, z) == Ok(s)
    ensures s.tables.types == [] && s.tables.gmtoffs == [z.gmtoff + z.stdoff]
  {
  }

  lemma PlainExits(zs: seq<Zone>, stray: nat, r: Outcome<State>)
    requires ZonesOk(zs) && StateOk(Initial(zs)) && r == RunLine(Initial(zs), zs, 0) && r.Exit?
    ensures RunZone(zs, stray) == r && StartOf(zs, stray, 1) == r
  {
    assert StepLine(zs, stray, Initial(zs), 0) == r;
    assert Iterate(LineStep(zs, stray), Initial(zs), 0) == Ok(Initial(zs));
    IterateMeets(LineStep(zs, stray), Initial(zs), 1, |zs|);
    RunIsIterated(zs, stray);
  }

  lemma PlainStart(zs: seq<Zone>, z: Zone, s: State)
    requires ZonesOk(zs) && |zs| > 1 && z == zs[0] && ZoneOk(z) && z.rules == []
    requires StateOk(Initial(zs)) && RunLine(Initial(zs), zs, 0) == Ok(s)
    ensures s.tables.types == [] && s.tables.gmtoffs == [z.gmtoff + z.stdoff]
  {
    var b := Initial(zs);
    assert LineStart(b, 0) == b;
    OneType(b, z, s);
  }

  lemma StartUnderOwnOffset(s: State, z: Zone, n: State)
    requires StateOk(s) && ZoneOk(z) && s.tables.types == [] && s.tables.gmtoffs == [z.gmtoff + z.stdoff]
    requires NextStart(s, z, 0) == Ok(n)
    ensures Tadd(z.untiltime, -(z.gmtoff + z.stdoff)) == Ok(n.starttime)
  {
  }

  /** A zone of two lines or more whose first, z, has no rules: if type 0 happens to lie in front of types, the
      second line starts at UNTIL under the offset of the first, as it should; otherwise the run never ends well. */
  lemma PlainFirstLine(zs: seq<Zone>, z: Zone, stray: nat)
    requires ZonesOk(zs) && |zs| > 1 && z == zs[0] && ZoneOk(z) && z.rules == []
    ensures stray > 0 ==> RunZone(zs, stray).Exit?
    ensures stray == 0 ==> match StartOf(zs, 0, 1)
                           case Ok(n) => Tadd(z.untiltime, -(z.gmtoff + z.stdoff)) == Ok(n.starttime)
                           case Exit(e) => RunZone(zs, 0) == Exit(e)
  {
    InitialGoing(zs);
    var r := RunLine(Initial(zs), zs, 0);
    if r.Exit? {
      PlainExits(zs, stray, r);
    } else {
      PlainStart(zs, z, r.value);
      FirstStep(zs, r.value, stray);
      if stray > 0 {
        StrayIsWild(zs, r.value, stray);
      } else if StartOf(zs, 0, 1).Ok? {
        StartUnderOwnOffset(r.value, z, StartOf(zs, 0, 1).value);
      } else {
        ExitsFromStart(zs, 0, 1);
      }
    }
  }

  /** Where a line cannot start the run exits. */
  lemma ExitsFromStart(zs: seq<Zone>, stray: nat, i: nat)
    requires ZonesOk(zs) && i <= |zs| && StartOf(zs, stray, i).Exit?
    ensures RunZone(zs, stray) == StartOf(zs, stray, i)
  {
    IterateMeets(LineStep(zs, stray), Initial(zs), i, |zs|);
    RunIsIterated(zs, stray);
  }
}
