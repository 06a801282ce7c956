/** From the zone to the clock: what localtime finds in the file that zic wrote. */
module ZicClock {
  import opened Machine
  import opened ZicTime
  import opened ZicTables
  import opened ZicOutzone
  import opened ZicFirings
  import opened ZicRuns
  import opened ZicLookup
  import opened ZicSound
  import opened ZicAnswers
  import opened ZicZones
  import opened TzFile
  import opened TzLoad

  // ---------------------------------------------------------------- times of 32 bits

  predicate TimesFit(st: State) {
    forall k :: 0 <= k < |st.tables.ats| ==> InTime(st.tables.ats[k])
  }

  lemma RoundFits(p: Place, st: State, times: seq<int>, todo: seq<bool>, k: nat, e: Firing, s: State)
    requires ZoneOk(p.z) && StateOk(st) && TimesOk(p.z, times) && |todo| == |times|
    requires Round(st, p, times, todo, k, e, s) && TimesFit(st)
    ensures TimesFit(s)
  {
    FireWrites(st, p, k, times[k], e.time, e.verdict);
    forall j | 0 <= j < |s.tables.ats| ensures InTime(s.tables.ats[j]) {
      if j < |st.tables.ats| {
        assert s.tables.ats[j] == st.tables.ats[j];
      }
    }
  }

  lemma LineFits(st: State, zs: seq<Zone>, i: nat, s: State)
    requires StateOk(st) && ZonesOk(zs) && i < |zs| && RunLine(st, zs, i) == Ok(s) && TimesFit(st)
    ensures TimesFit(s)
  {
    var z, b, p := zs[i], LineStart(st, i), LinePlace(zs, i);
    assert z in zs;
    if z.rules == [] {
      PerformWrites(b, PlainOp(b, z));
    } else {
      var holds := (q: State) => TimesFit(q);
      forall year: int, q: State, ts: seq<int>, todo: seq<bool>, k: nat, e: Firing, r: State
        ensures RoundKeeps(p.(year := year), q, ts, todo, k, e, r, holds)
      {
        if StateOk(q) && TimesOk(z, ts) && |todo| == |ts| && Round(q, p.(year := year), ts, todo, k, e, r) && holds(q) {
          RoundFits(p.(year := year), q, ts, todo, k, e, r);
        }
      }
      YearsKeep(b, p, NoTimes(z), holds);
    }
  }

  predicate Fitting(st: State) {
    StateOk(st) && TimesFit(st)
  }

  lemma StepFits(zs: seq<Zone>, stray: nat, st: State, i: nat, n: State)
    requires ZonesOk(zs) && Fitting(st) && StepLine(zs, stray, st, i) == Ok(n)
    ensures Fitting(n)
  {
    LineFits(st, zs, i, RunLine(st, zs, i).value);
    assert zs[i] in zs;
  }

  /** Every transition of any zone fits a time_t. */
  lemma RunFits(zs: seq<Zone>, stray: nat, s: State)
    requires ZonesOk(zs) && RunZone(zs, stray) == Ok(s)
    ensures Fitting(s)
  {
    var step := LineStep(zs, stray);
    InitialGoing(zs);
    RunIsIterated(zs, stray);
    forall q: State, j: nat | Fitting(q) && step(q, j).Ok? ensures Fitting(step(q, j).value) {
      StepFits(zs, stray, q, j, step(q, j).value);
    }
    IterateKeeps(step, Initial(zs), |zs|, (q: State, j: nat) => Fitting(q));
  }

  /** Characters are bytes. */
  predicate InBytes(chars: string) {
    forall k :: 0 <= k < |chars| ==> chars[k] as int < 256
  }

  lemma RunIsWritable(zs: seq<Zone>, stray: nat, s: State)
    requires ZonesOk(zs) && RunZone(zs, stray) == Ok(s) && InBytes(s.tables.chars)
    ensures Writable(s.tables)
  {
    RunFits(zs, stray, s);
    forall k | 0 <= k < |s.tables.gmtoffs| ensures InTime(s.tables.gmtoffs[k]) {
      assert s.tables.gmtoffs[k] in s.tables.gmtoffs;
    }
  }

  // ---------------------------------------------------------------- the clock

  /** The text at position p of the characters read, up to its NUL. */
  predicate TextAt(chars: seq<Byte>, p: nat, text: string) {
    && p + |text| < |chars| && chars[p + |text|] == 0
    && forall k :: 0 <= k < |text| ==> chars[p + k] != 0 && chars[p + k] == text[k] as int
  }

  lemma {:induction false} EndsInNul(chars: string, j: nat)
    requires j < |chars| && chars[|chars| - 1] == '\0'
    ensures j + |CString(chars, j)| < |chars| && chars[j + |CString(chars, j)|] == '\0'
    decreases |chars| - j
  {
    if chars[j] != '\0' {
      EndsInNul(chars, j + 1);
    }
  }

  lemma NameIsRead(t: Tables, l: Loaded, i: nat)
    requires Writable(t) && Recovered(t, l) && i < |t.gmtoffs|
    ensures TextAt(l.chars, l.abbrinds[i] as int, Name(t, i))
  {
    var p, name := Position(t.abbrinds[i]), Name(t, i);
    EndsInNul(t.chars, p);
    assert l.abbrinds[i] == p && l.chars[p + |name|] == t.chars[p + |name|] as int;
    forall k | 0 <= k < |name| ensures l.chars[p + k] != 0 && l.chars[p + k] == name[k] as int {
      assert name[k] == t.chars[p + k] && name[k] in name;
    }
  }

  /** What localtime finds in the state for type i: offset, flag and abbreviation of op. */
  predicate Finds(l: Loaded, i: nat, op: Op) {
    && i < |l.gmtoffs| == |l.isdsts| == |l.abbrinds|
    && l.gmtoffs[i] == op.gmtoff && l.isdsts[i] == (if op.isdst then 1 else 0)
    && TextAt(l.chars, l.abbrinds[i] as int, op.abbr)
  }

  lemma TypeIsFound(t: Tables, l: Loaded, i: nat, op: Op)
    requires Writable(t) && Recovered(t, l) && IsTypeOf(t, i, op)
    ensures Finds(l, i, op)
  {
    NameIsRead(t, l, i);
  }

  /** From the first transition on localtime takes the type of the last one. */
  lemma LastIsTaken(t: Tables, l: Loaded, ats: seq<int>, types: seq<Byte>, isdsts: seq<Byte>, time: int)
    requires Writable(t) && Recovered(t, l) && Increasing(t.ats) && LastAt(t.ats, time) >= 0
    requires |ats| == |types| == TZ_MAX_TIMES && |isdsts| == TZ_MAX_TYPES
    requires ats[..|t.ats|] == l.ats && types[..|t.ats|] == l.types
    ensures TypeFor(|t.ats|, ats, types, isdsts, time) == Some(t.types[LastAt(t.ats, time)])
  {
    assert t.ats[0] <= t.ats[LastAt(t.ats, time)] && ats[0] == ats[..|t.ats|][0];
    SegmentIsLast(t.ats, time, 1);
    assert types[..|t.ats|][LastAt(t.ats, time)] == types[LastAt(t.ats, time)];
  }

  lemma ClockFinds(t: Tables, ops: seq<Op>, l: Loaded, ats: seq<int>, types: seq<Byte>, isdsts: seq<Byte>, time: int)
    requires Writable(t) && Recovered(t, l) && Told(t, ops) && LastOp(ops, time) >= 0
    requires |ats| == |types| == TZ_MAX_TIMES && |isdsts| == TZ_MAX_TYPES
    requires ats[..|t.ats|] == l.ats && types[..|t.ats|] == l.types
    ensures var k := TypeFor(|t.ats|, ats, types, isdsts, time); k.Some? && Finds(l, k.value, ops[LastOp(ops, time)])
  {
    assert TellsAt(t, ops, time);
    LastIsTaken(t, l, ats, types, isdsts, time);
    TypeIsFound(t, l, t.types[LastAt(t.ats, time)], ops[LastOp(ops, time)]);
  }

  lemma ZoneIsTold(zs: seq<Zone>, stray: nat, lo: int, spread: int, s: State)
    requires ZonesOk(zs) && SpacedZone(zs, lo, spread) && RunZone(zs, stray) == Ok(s)
    ensures Told(s.tables, s.ops)
  {
    ZoneInOrder(zs, stray, lo, spread);
    RunReplays(zs, stray);
    TablesTell(s.ops, s.tables);
  }

  lemma HasTypes(t: Tables, ops: seq<Op>, time: int)
    requires Told(t, ops) && LastOp(ops, time) >= 0
    ensures t.gmtoffs != []
  {
    assert TellsAt(t, ops, time);
  }

  /** tzload and localtime on the file of some tables: what the state then holds, and what is found at t. */
  method LoadAndLookUp(state: TzState, buf: seq<Byte>, n: nat, t: int, ghost tables: Tables, ghost ops: seq<Op>)
    returns (loaded: bool, found: bool, i: nat, typecnt: int, charcnt: int)
    requires state.Valid() && |buf| == STATE_SIZE
    requires Writable(tables) && Told(tables, ops) && FileBytes(tables) <= buf && n == |FileBytes(tables)|
    modifies state`timecnt, state.ats, state.types, state.gmtoffs, state.isdsts, state.abbrinds, state.chars
    ensures loaded <==> tables.gmtoffs != []
    ensures loaded ==> state.timecnt == |tables.ats| && typecnt == |tables.gmtoffs| && charcnt == |tables.chars|
    ensures loaded ==> Recovered(tables, state.View(typecnt, charcnt))
    ensures LastOp(ops, t) >= 0 ==>
              loaded && found && Finds(state.View(typecnt, charcnt), i, ops[LastOp(ops, t)])
  {
    found, i := false, 0;
    loaded, typecnt, charcnt := state.Tzload(buf, n);
    ghost var l := if loaded then state.View(typecnt, charcnt) else Loaded(0, [], [], [], [], [], []);
    LoadInvertsWrite(tables, buf, l);
    if loaded {
      found, i := state.LookUp(t);
      if LastOp(ops, t) >= 0 {
        ClockFinds(tables, ops, l, state.ats[..], state.types[..], state.isdsts[..], t);
      }
    }
    if LastOp(ops, t) >= 0 {
      HasTypes(tables, ops, t);
    }
  }

  /** The whole way, for a spaced zone: zic's tables are written to a file; tzload reads the file; localtime looks up a
      time. From the first transition asked for on, it finds offset, flag and abbreviation of the last one that the
      lines of the zone have asked for by then. */
  method CompileAndLookUp(state: TzState, buf: seq<Byte>, n: nat, t: int, ghost zs: seq<Zone>, ghost stray: nat,
                          ghost lo: int, ghost spread: int, ghost s: State)
    returns (loaded: bool, found: bool, i: nat, typecnt: int, charcnt: int)
    requires state.Valid() && |buf| == STATE_SIZE
    requires ZonesOk(zs) && SpacedZone(zs, lo, spread) && RunZone(zs, stray) == Ok(s) && InBytes(s.tables.chars)
    requires Shaped(s.tables) && FileBytes(s.tables) <= buf && n == |FileBytes(s.tables)|
    modifies state`timecnt, state.ats, state.types, state.gmtoffs, state.isdsts, state.abbrinds, state.chars
    ensures loaded ==> state.timecnt <= TZ_MAX_TIMES && typecnt <= TZ_MAX_TYPES && charcnt <= TZNAME_MAX
    ensures LastOp(s.ops, t) >= 0 ==>
              loaded && found && Finds(state.View(typecnt, charcnt), i, s.ops[LastOp(s.ops, t)])
  {
    RunIsWritable(zs, stray, s);
    ZoneIsTold(zs, stray, lo, spread, s);
    loaded, found, i, typecnt, charcnt := LoadAndLookUp(state, buf, n, t, s.tables, s.ops);
  }
}
