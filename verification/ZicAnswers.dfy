/** zic.c: what the tables of a zone answer. Whatever additions built them, if the transitions were asked for in
    the order of their times, a look-up at any instant gives the type asked for last. */
module ZicAnswers {
  import opened Machine
  import opened ZicTables
  import opened ZicOutzone
  import opened ZicLookup
  import opened ZicSound

  /** The last transition asked for at or before t. */
  function LastOp(ops: seq<Op>, t: int): (k: int)
    ensures -1 <= k < |ops| && (k >= 0 ==> ops[k].Transition? && ops[k].time <= t)
  {
    if ops == [] then -1
    else
      var op := ops[|ops| - 1];
      if op.Transition? && op.time <= t then |ops| - 1 else LastOp(ops[..|ops| - 1], t)
  }

  /** Type i of the table is the one op asked for. */
  predicate IsTypeOf(t: Tables, i: nat, op: Op)
    requires Shaped(t)
  {
    IsType(t, i, op.gmtoff, op.abbr, op.isdst)
  }

  /** A look-up at t finds no transition where none was asked for by then, and otherwise the last type asked for. */
  predicate TellsAt(tables: Tables, ops: seq<Op>, t: int)
    requires Shaped(tables)
  {
    var k, i := LastOp(ops, t), LastAt(tables.ats, t);
    (k < 0 <==> i < 0) && (k >= 0 ==> IsTypeOf(tables, tables.types[i], ops[k]))
  }

  predicate UpToLast(ats: seq<int>, times: seq<int>) {
    ats != [] ==> times != [] && forall k :: 0 <= k < |ats| ==> ats[k] <= times[|times| - 1]
  }

  ghost predicate Told(tables: Tables, ops: seq<Op>) {
    && Sound(tables) && Increasing(tables.ats) && UpToLast(tables.ats, Times(ops))
    && forall t :: TellsAt(tables, ops, t)
  }

  lemma TypeOfStays(t: Tables, u: Tables, i: nat, op: Op)
    requires Shaped(t) && Shaped(u) && Extends(t, u) && IsTypeOf(t, i, op)
    ensures IsTypeOf(u, i, op)
  {
    assert Name(t, i) == Name(u, i);
  }

  lemma LastOpSnoc(ops: seq<Op>, op: Op, t: int)
    ensures LastOp(ops + [op], t) == if op.Transition? && op.time <= t then |ops| else LastOp(ops, t)
  {
    assert (ops + [op])[..|ops|] == ops;
  }

  /** A type added changes no answer. */
  lemma TypeTells(t0: Tables, u: Tables, ops: seq<Op>, t: int)
    requires Shaped(t0) && Shaped(u) && Extends(t0, u) && u.ats == t0.ats && u.types == t0.types && TellsAt(t0, ops, t)
    ensures TellsAt(u, ops, t)
  {
    var k, i := LastOp(ops, t), LastAt(t0.ats, t);
    if k >= 0 {
      TypeOfStays(t0, u, t0.types[i], ops[k]);
    }
  }

  lemma JustTypeTells(u: Tables, ops: seq<Op>, op: Op, t: int)
    requires Shaped(u) && !op.Transition? && TellsAt(u, ops, t)
    ensures TellsAt(u, ops + [op], t)
  {
    LastOpSnoc(ops, op, t);
  }

  lemma BeforeNew(ats: seq<int>, time: int, t: int)
    requires t < time
    ensures LastAt(ats + [time], t) == LastAt(ats, t)
  {
    assert (ats + [time])[..|ats|] == ats;
  }

  /** A transition later than all others. */
  lemma TransitionTells(u: Tables, ops: seq<Op>, op: Op, kind: nat, t1: Tables, t: int)
    requires Shaped(u) && Shaped(t1) && Extends(u, t1) && op.Transition? && AddTt(u, op.time, kind) == Ok(t1)
    requires IsTypeOf(u, kind, op) && TellsAt(u, ops, t) && forall k :: 0 <= k < |u.ats| ==> u.ats[k] < op.time
    ensures TellsAt(t1, ops + [op], t)
  {
    LastOpSnoc(ops, op, t);
    if op.time <= t {
      TypeOfStays(u, t1, kind, op);
      assert LastAt(t1.ats, t) == |t1.ats| - 1 && t1.types[|t1.types| - 1] == kind;
    } else {
      BeforeNew(u.ats, op.time, t);
      TypeTellsStill(u, ops, t1, t);
    }
  }

  lemma TypeTellsStill(u: Tables, ops: seq<Op>, t1: Tables, t: int)
    requires Shaped(u) && Shaped(t1) && Extends(u, t1) && TellsAt(u, ops, t) && LastAt(t1.ats, t) == LastAt(u.ats, t)
    ensures TellsAt(t1, ops, t)
  {
    var k, i := LastOp(ops, t), LastAt(u.ats, t);
    if k >= 0 {
      assert t1.types[i] == u.types[i];
      TypeOfStays(u, t1, u.types[i], ops[k]);
    }
  }

  lemma LastIsLater(ops: seq<Op>, op: Op, ats: seq<int>)
    requires op.Transition? && Increasing(Times(ops + [op])) && UpToLast(ats, Times(ops))
    ensures forall k :: 0 <= k < |ats| ==> ats[k] < op.time
    ensures Times(ops + [op]) == Times(ops) + [op.time]
  {
    TimesSnoc(ops, op);
    if ats != [] {
      var times := Times(ops + [op]);
      assert times[|Times(ops)|] == op.time && times[|Times(ops)| - 1] == Times(ops)[|Times(ops)| - 1];
    }
  }

  lemma IncreasingBefore(ops: seq<Op>, op: Op)
    requires Increasing(Times(ops + [op]))
    ensures Increasing(Times(ops))
  {
    TimesSnoc(ops, op);
    assert forall i :: 0 <= i < |Times(ops)| ==> Times(ops + [op])[i] == Times(ops)[i];
  }

  lemma TypeTold(t0: Tables, ops: seq<Op>, op: Op, u: Tables)
    requires Told(t0, ops) && Sound(u) && Extends(t0, u) && u.ats == t0.ats && u.types == t0.types
    ensures Told(u, ops)
  {
    forall t ensures TellsAt(u, ops, t) {
      TypeTells(t0, u, ops, t);
    }
  }

  lemma TransitionTold(u: Tables, ops: seq<Op>, op: Op, kind: nat, t1: Tables)
    requires Told(u, ops) && op.Transition? && IsTypeOf(u, kind, op) && AddTt(u, op.time, kind) == Ok(t1)
    requires Increasing(Times(ops + [op]))
    ensures Told(t1, ops + [op])
  {
    AddTtIsSound(u, op.time, kind);
    LastIsLater(ops, op, u.ats);
    forall t ensures TellsAt(t1, ops + [op], t) {
      TransitionTells(u, ops, op, kind, t1, t);
    }
  }

  lemma OpTold(t0: Tables, ops: seq<Op>, op: Op, t1: Tables)
    requires Told(t0, ops) && IsCString(op.abbr) && Apply(t0, op) == Ok(t1) && Increasing(Times(ops + [op]))
    ensures Told(t1, ops + [op])
  {
    var (u, kind) := AddType(t0, op.gmtoff, op.abbr, op.isdst).value;
    AddTypeIsSound(t0, op.gmtoff, op.abbr, op.isdst);
    TypeTold(t0, ops, op, u);
    if op.Transition? {
      TransitionTold(u, ops, op, kind, t1);
    } else {
      TimesSnoc(ops, op);
      assert Times(ops) + [] == Times(ops);
      forall t ensures TellsAt(u, ops + [op], t) {
        JustTypeTells(u, ops, op, t);
      }
    }
  }

  lemma NothingTold()
    ensures Told(EMPTY, [])
  {
  }

  /** Any additions, with transitions asked for in the order of their times: the times written increase, and a
      look-up at any instant gives the last type asked for by then, although a transition to the type in force is
      not written. */
  lemma {:induction false} TablesTell(ops: seq<Op>, tables: Tables)
    requires Run(EMPTY, ops) == Ok(tables) && (forall op :: op in ops ==> IsCString(op.abbr)) && Increasing(Times(ops))
    ensures Told(tables, ops)
    decreases |ops|
  {
    if ops == [] {
      NothingTold();
    } else {
      var n := |ops| - 1;
      var first, op := ops[..n], ops[n];
      assert ops == first + [op];
      RunFront(first, op, tables);
      IncreasingBefore(first, op);
      TablesTell(first, Run(EMPTY, first).value);
      OpTold(Run(EMPTY, first).value, first, op, tables);
    }
  }

  lemma {:induction false} RunFrom(t: Tables, ops: seq<Op>, op: Op)
    requires Shaped(t) && Run(t, ops + [op]).Ok?
    ensures Run(t, ops).Ok?
    decreases |ops|
  {
    if ops != [] {
      assert (ops + [op])[1..] == ops[1..] + [op];
      RunFrom(Apply(t, ops[0]).value, ops[1..], op);
    }
  }

  lemma RunFront(first: seq<Op>, op: Op, tables: Tables)
    requires Run(EMPTY, first + [op]) == Ok(tables)
    ensures Run(EMPTY, first).Ok? && Apply(Run(EMPTY, first).value, op) == Ok(tables)
  {
    RunFrom(EMPTY, first, op);
    RunSnoc(EMPTY, first, op);
  }

  lemma {:induction false} TimeOfOp(ops: seq<Op>, k: nat) returns (j: nat)
    requires k < |ops| && ops[k].Transition?
    ensures j < |Times(ops)| && Times(ops)[j] == ops[k].time
    decreases |ops|
  {
    var n := |ops| - 1;
    if k == n {
      j := |Times(ops)| - 1;
    } else {
      j := TimeOfOp(ops[..n], k);
    }
  }

  /** At its own time a transition is the last one asked for. */
  lemma {:induction false} LastOpAtItsTime(ops: seq<Op>, k: nat)
    requires k < |ops| && ops[k].Transition? && Increasing(Times(ops))
    ensures LastOp(ops, ops[k].time) == k
    decreases |ops|
  {
    var n := |ops| - 1;
    if k < n {
      var first := ops[..n];
      assert ops == first + [ops[n]];
      IncreasingBefore(first, ops[n]);
      LastOpAtItsTime(first, k);
      var j := TimeOfOp(first, k);
      TimesSnoc(first, ops[n]);
      if ops[n].Transition? {
        assert Times(ops)[j] == ops[k].time && Times(ops)[|Times(first)|] == ops[n].time;
      }
    }
  }

  /** So a look-up at that time gives its type. */
  lemma OpIsAnswered(tables: Tables, ops: seq<Op>, k: nat)
    requires Told(tables, ops) && Increasing(Times(ops)) && k < |ops| && ops[k].Transition?
    ensures LastAt(tables.ats, ops[k].time) >= 0
    ensures IsTypeOf(tables, tables.types[LastAt(tables.ats, ops[k].time)], ops[k])
  {
    LastOpAtItsTime(ops, k);
    assert TellsAt(tables, ops, ops[k].time);
  }
}
