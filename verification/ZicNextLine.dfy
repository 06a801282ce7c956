/** zic.c, outzone: when the next line starts. The source takes the offset of the last type written from the tables;
    it is the offset of the last transition asked for, whatever the order of their times. */
module ZicNextLine {
  import opened Machine
  import opened ZicTime
  import opened ZicTables
  import opened ZicOutzone
  import opened ZicSound
  import opened ZicAnswers
  import opened ZicInForce
  import opened ZicAsked

  /** The last transition asked for, or none. */
  function LastTransition(ops: seq<Op>): (k: int)
    ensures -1 <= k < |ops| && (k >= 0 ==> ops[k].Transition?)
    ensures forall j :: k < j < |ops| ==> !ops[j].Transition?
  {
    if ops == [] then -1
    else if ops[|ops| - 1].Transition? then |ops| - 1
    else LastTransition(ops[..|ops| - 1])
  }

  lemma LastSnoc(ops: seq<Op>, op: Op)
    ensures LastTransition(ops + [op]) == if op.Transition? then |ops| else LastTransition(ops)
  {
    assert (ops + [op])[..|ops|] == ops;
  }

  /** Nothing is written as long as no transition has been asked for, and otherwise the last type written is that of the
      last one. */
  predicate EndsWith(t: Tables, ops: seq<Op>)
    requires Shaped(t)
  {
    var k := LastTransition(ops);
    (k < 0 <==> t.types == []) && (k >= 0 ==> IsTypeOf(t, t.types[|t.types| - 1], ops[k]))
  }

  lemma TypeEnds(t0: Tables, ops: seq<Op>, op: Op, u: Tables)
    requires Shaped(t0) && Shaped(u) && Extends(t0, u) && u.types == t0.types && EndsWith(t0, ops) && op.JustType?
    ensures EndsWith(u, ops + [op])
  {
    LastSnoc(ops, op);
    var k := LastTransition(ops);
    if k >= 0 {
      TypeOfStays(t0, u, t0.types[|t0.types| - 1], ops[k]);
    }
  }

  lemma TransitionEnds(u: Tables, ops: seq<Op>, op: Op, kind: nat, t1: Tables)
    requires Sound(u) && kind < |u.gmtoffs| && op.Transition? && AddTt(u, op.time, kind) == Ok(t1)
    requires IsTypeOf(u, kind, op)
    ensures Sound(t1) && EndsWith(t1, ops + [op])
  {
    LastSnoc(ops, op);
    AddTtIsSound(u, op.time, kind);
    TypeOfStays(u, t1, kind, op);
  }

  lemma OpEnds(t0: Tables, ops: seq<Op>, op: Op, t1: Tables)
    requires Sound(t0) && EndsWith(t0, ops) && IsCString(op.abbr) && Apply(t0, op) == Ok(t1)
    ensures Sound(t1) && EndsWith(t1, ops + [op])
  {
    var (u, kind) := AddType(t0, op.gmtoff, op.abbr, op.isdst).value;
    AddTypeIsSound(t0, op.gmtoff, op.abbr, op.isdst);
    if op.Transition? {
      TransitionEnds(u, ops, op, kind, t1);
    } else {
      TypeEnds(t0, ops, op, u);
    }
  }

  lemma {:induction false} RunEnds(ops: seq<Op>, tables: Tables)
    requires Run(EMPTY, ops) == Ok(tables) && forall op :: op in ops ==> IsCString(op.abbr)
    ensures Sound(tables) && EndsWith(tables, ops)
    decreases |ops|
  {
    if ops != [] {
      var n := |ops| - 1;
      var first, op := ops[..n], ops[n];
      assert ops == first + [op];
      RunFront(first, op, tables);
      RunEnds(first, Run(EMPTY, first).value);
      OpEnds(Run(EMPTY, first).value, first, op, tables);
    }
  }

  /** The difference, but the extreme times stay what they are where it would lie further out. */
  function Shifted(time: int, off: int): int {
    if (time == TIME_MAX && off < 0) || (time == TIME_MIN && off > 0) then time else time - off
  }

  lemma NextIsShifted(s: State, z: Zone, stray: nat)
    requires StateOk(s) && ZoneOk(z) && Sound(s.tables) && EndsWith(s.tables, s.ops) && LastTransition(s.ops) >= 0
    ensures var start := Shifted(z.untiltime, s.ops[LastTransition(s.ops)].gmtoff);
            NextStart(s, z, stray) == if InTime(start) then Ok(s.(starttime := start)) else Exit(TimeOverflow)
  {
    var off := s.tables.gmtoffs[LastType(s.tables, stray)];
    assert off == s.ops[LastTransition(s.ops)].gmtoff && off in s.tables.gmtoffs;
  }

  lemma LineEnds(st: State, zs: seq<Zone>, i: nat, s: State)
    requires Going(st) && ZonesOk(zs) && i < |zs| && RunLine(st, zs, i) == Ok(s)
    ensures StateOk(s) && Sound(s.tables) && EndsWith(s.tables, s.ops)
  {
    LineReplays(st, zs, i);
    RunEnds(s.ops, s.tables);
  }

  /** The line behind line i of any run, if that has asked for a transition, starts at the UNTIL time of line i less the
      offset of the last transition asked for; zic gives up exactly if that is no time. Nothing else changes. */
  lemma NextLineStarts(zs: seq<Zone>, stray: nat, i: nat, st: State, s: State)
    requires ZonesOk(zs) && i < |zs| - 1 && StartOf(zs, stray, i) == Ok(st) && StateOk(st)
    requires RunLine(st, zs, i) == Ok(s) && LastTransition(s.ops) >= 0
    ensures var start := Shifted(zs[i].untiltime, s.ops[LastTransition(s.ops)].gmtoff);
            StartOf(zs, stray, i + 1) == if InTime(start) then Ok(s.(starttime := start)) else Exit(TimeOverflow)
  {
    assert zs[i] in zs;
    StartReplays(zs, stray, i);
    LineEnds(st, zs, i, s);
    NextIsShifted(s, zs[i], stray);
  }
}
