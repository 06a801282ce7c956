/** zic.c: outzone as it is written, with its locals and the global tables changed in place. The
    contracts tie every loop to the specification in ZicOutzone. */
module ZicOutzoneRun {
  import opened Machine
  import opened ZicTime
  import opened ZicTables
  import opened ZicOutzone

  class ZoneRun {
    const out: TzOutput
    const stray: nat        // what lies in front of types
    var gmtoff: int
    var stdoff: int
    var usestart: bool
    var starttime: int
    var startoff: int
    var startbuf: string
    var startisdst: int
    ghost var ops: seq<Op>
    ghost var fired: seq<Firing>

    ghost predicate Valid()
      reads this, out, out.Repr
    {
      && this !in out.Repr && out.Valid()
      && -1 <= startisdst <= 1
      && StateOk(Model())
    }

    ghost function Model(): State
      requires out.Valid()
      reads this, out, out.Repr
    {
      State(gmtoff, stdoff, usestart, starttime,
            if startisdst < 0 then NoStart else Start(startoff, startbuf, startisdst == 1),
            out.Model(), ops, fired)
    }

    constructor (z: Zone, stray: nat)
      requires ZoneOk(z)
      ensures this.stray == stray && Valid() && fresh(out) && fresh(out.Repr)
      ensures Model() == State(z.gmtoff, 0, false, 0, NoStart, EMPTY, [], [])
    {
      out := new TzOutput();
      this.stray := stray;
      gmtoff, stdoff, usestart, starttime := z.gmtoff, 0, false, 0;
      startoff, startbuf, startisdst := 0, "", -1;
      ops, fired := [], [];
    }

    /** addtype, followed by addtt when op is a transition. */
    method DoOp(op: Op) returns (r: Outcome<()>)
      requires Valid() && IsCString(op.abbr) && -2 * SECS_PER_DAY < op.gmtoff < 2 * SECS_PER_DAY
      modifies this`ops, out.Repr
      ensures var o := ZicOutzone.Perform(old(Model()), op);
              && (o.Exit? ==> r.Exit? && r.error == o.error)
              && (o.Ok? ==> r.Ok? && Valid() && Model() == o.value)
    {
      r := out.Add(op);
      if r.Ok? {
        ops := ops + [op];
      }
    }

    /** Turn the UNTIL time into GMT under the offsets in force. */
    method UntilTime(p: Place) returns (r: Outcome<int>)
      requires Valid() && ZoneOk(p.z)
      ensures r == ZicOutzone.Until(Model(), p)
    {
      if !p.useuntil {
        return Ok(0);
      }
      var offset := gmtoff;
      if !p.z.untilTodisstd {
        offset := Oadd(offset, stdoff).value;
      }
      r := Tadd(p.z.untiltime, -offset);
    }

    /** The transition to the guessed type when the first rule comes after the line's start. */
    method OpenLine(ktime: int) returns (r: Outcome<()>)
      requires Valid()
      modifies this`usestart, this`ops, out.Repr
      ensures ZicOutzone.Open(old(Model()), ktime).Exit? ==>
          r.Exit? && r.error == ZicOutzone.Open(old(Model()), ktime).error
      ensures ZicOutzone.Open(old(Model()), ktime).Ok? ==>
          r.Ok? && Valid() && Model() == ZicOutzone.Open(old(Model()), ktime).value
    {
      r := Ok(());
      if usestart {
        if ktime != starttime && startisdst >= 0 {
          r := DoOp(Transition(starttime, startoff, startbuf, startisdst == 1));
          if r.Exit? {
            return;
          }
        }
        usestart := false;
      }
    }

    method SetOffsets(g: int, s: int)
      requires Valid() && -SECS_PER_DAY < g < SECS_PER_DAY && -SECS_PER_DAY < s < SECS_PER_DAY
      modifies this`gmtoff, this`stdoff
      ensures Valid() && Model() == old(Model()).(gmtoff := g, stdoff := s)
    {
      gmtoff, stdoff := g, s;
    }

    /** The end of the inner loop: the rule's type, a transition to it, and the new offsets. */
    method SettleRule(z: Zone, rule: Rule, ktime: int) returns (r: Outcome<()>)
      requires Valid() && ZoneOk(z) && rule in z.rules
      modifies this`ops, this`gmtoff, this`stdoff, out.Repr
      ensures var o := Settle(old(Model()), z, rule, ktime);
              && (o.Exit? ==> r.Exit? && r.error == o.error)
              && (o.Ok? ==> r.Ok? && Valid() && Model() == o.value)
    {
      ghost var st := Model();
      var offset := Oadd(z.gmtoff, rule.stdoff).value;
      var buf := Expand(z.format, rule.abbrvar);
      var op := if out.timecnt != 0 || rule.stdoff != 0
                then Transition(ktime, offset, buf, rule.stdoff != 0)
                else JustType(offset, buf, rule.stdoff != 0);
      assert op == RuleOp(st, z, rule, ktime);
      r := DoOp(op);
      if r.Exit? {
        return;
      }
      SetOffsets(z.gmtoff, rule.stdoff);
    }

    method TakeRule(z: Zone, rule: Rule, ktime: int) returns (r: Outcome<()>)
      requires Valid() && ZoneOk(z) && rule in z.rules
      modifies this`usestart, this`ops, this`gmtoff, this`stdoff, out.Repr
      ensures var o := Take(old(Model()), z, rule, ktime);
              && (o.Exit? ==> r.Exit? && r.error == o.error)
              && (o.Ok? ==> r.Ok? && Valid() && Model() == o.value)
    {
      r := OpenLine(ktime);
      if r.Ok? {
        r := SettleRule(z, rule, ktime);
      }
    }

    /** The part of the inner loop after a rule has been picked; true when the year is over. */
    method FireRule(p: Place, k: nat, ghost local: int, ktime: int, until: int) returns (r: Outcome<bool>)
      requires Valid() && ZoneOk(p.z) && k < |p.z.rules|
      modifies this, out.Repr
      ensures var v := Judge(old(Model()), p, ktime, until);
              var o := ZicOutzone.Fire(old(Model()), p, k, local, ktime, v);
              && (o.Exit? ==> r.Exit? && r.error == o.error)
              && (o.Ok? ==> r == Ok(v.Stopped?) && Valid() && Model() == o.value)
    {
      var rule := p.z.rules[k];
      ghost var st := Model();
      ghost var logged := Log(st, p, k, local, ktime, Judge(st, p, ktime, until));
      fired := logged.fired;
      assert Model() == logged;
      if p.useuntil && ktime >= until {
        return Ok(true);
      }
      if usestart && ktime < starttime {
        NoteEarly(p.z, rule);
        return Ok(false);
      }
      var taken := TakeRule(p.z, rule, ktime);
      r := if taken.Exit? then Exit(taken.error) else Ok(false);
    }

    method NoteEarly(z: Zone, rule: Rule)
      requires Valid() && ZoneOk(z) && rule in z.rules
      modifies this`stdoff, this`startoff, this`startbuf, this`startisdst
      ensures Valid() && Model() == TakeEarly(old(Model()), z, rule)
    {
      stdoff := rule.stdoff;
      startoff := Oadd(z.gmtoff, rule.stdoff).value;
      startbuf := Expand(z.format, rule.abbrvar);
      startisdst := if rule.stdoff != 0 then 1 else 0;
    }

    /** One round of the inner loop: pick a rule, clear its mark and let it fire; true when the year is
        over. */
    method DoRound(p: Place, todo: array<bool>, temp: array<int>) returns (r: Outcome<bool>)
      requires Valid() && ZoneOk(p.z) && TimesOk(p.z, temp[..]) && todo.Length == temp.Length
      requires todo !in out.Repr && temp !in out.Repr
      modifies this, out.Repr, todo
      ensures r.Ok? ==> Valid() && temp[..] == old(temp[..])
      ensures r == Ok(false) ==> CountTrue(todo[..]) < CountTrue(old(todo[..]))
      ensures RunYear(old(Model()), p, old(temp[..]), old(todo[..]))
           == match r
              case Exit(e) => Exit(e)
              case Ok(over) => if over then Ok(Model()) else RunYear(Model(), p, temp[..], todo[..])
    {
      var until := UntilTime(p);
      if until.Exit? {
        return Exit(until.error);
      }
      var pick := PickRule(p.z, todo, temp, gmtoff, stdoff);
      if pick.Exit? {
        return Exit(pick.error);
      }
      if pick.value.None? {
        return Ok(true);
      }
      var (k, ktime) := pick.value.value;
      ghost var marks, times := todo[..], temp[..];
      CountDrops(marks, k);
      todo[k] := false;
      assert todo[..] == marks[k := false];
      r := FireRule(p, k, times[k], ktime, until.value);
      assert temp[..] == times;
    }

    /** The inner loop: every round clears one mark. */
    method DoYear(p: Place, todo: array<bool>, temp: array<int>) returns (r: Outcome<()>)
      requires Valid() && ZoneOk(p.z) && TimesOk(p.z, temp[..]) && todo.Length == temp.Length
      requires todo !in out.Repr && temp !in out.Repr
      modifies this, out.Repr, todo
      ensures var o := RunYear(old(Model()), p, temp[..], old(todo[..]));
              && (o.Exit? ==> r.Exit? && r.error == o.error)
              && (o.Ok? ==> r.Ok? && Valid() && Model() == o.value)
    {
      ghost var goal := RunYear(Model(), p, temp[..], todo[..]);
      ghost var times := temp[..];
      while true
        invariant Valid() && temp[..] == times
        invariant RunYear(Model(), p, times, todo[..]) == goal
        decreases CountTrue(todo[..])
      {
        var over := DoRound(p, todo, temp);
        if over.Exit? {
          return Exit(over.error);
        }
        if over.value {
          return Ok(());
        }
      }
    }

    method DoOneYear(p: Place, todo: array<bool>, temp: array<int>) returns (r: Outcome<()>)
      requires Valid() && ZoneOk(p.z) && YearOk(p.year) && TimesOk(p.z, temp[..]) && todo.Length == temp.Length
      requires todo !in out.Repr && temp !in out.Repr
      modifies this, out.Repr, todo, temp
      ensures var o := OneYear(old(Model()), p, old(temp[..]));
              && (o.Exit? ==> r.Exit? && r.error == o.error)
              && (o.Ok? ==> r.Ok? && Valid() && Model() == o.value.0 && temp[..] == o.value.1)
    {
      r := MarkRules(p.z, p.year, todo, temp);
      if r.Ok? {
        r := DoYear(p, todo, temp);
      }
    }

    /** The loop over the years of one line. */
    method DoYears(p0: Place) returns (r: Outcome<()>)
      requires Valid() && ZoneOk(p0.z) && p0.year == MIN_YEAR
      modifies this, out.Repr
      ensures var o := RunYears(old(Model()), p0, NoTimes(p0.z));
              && (o.Exit? ==> r.Exit? && r.error == o.error)
              && (o.Ok? ==> r.Ok? && Valid() && Model() == o.value)
    {
      var p := p0;
      var todo := new bool[|p.z.rules|];
      var temp := new int[|p.z.rules|](_ => 0);
      assert temp[..] == NoTimes(p.z);
      ghost var goal := RunYears(Model(), p, temp[..]);
      while p.year <= MAX_YEAR
        invariant MIN_YEAR <= p.year && p.z == p0.z && p.useuntil == p0.useuntil
        invariant Valid() && TimesOk(p.z, temp[..])
        invariant RunYears(Model(), p, temp[..]) == goal
        decreases MAX_YEAR - p.year
      {
        if p.useuntil && p.year > p.z.untilHiyear {
          break;
        }
        r := DoOneYear(p, todo, temp);
        if r.Exit? {
          return;
        }
        p := NextYear(p);
      }
      r := Ok(());
    }

    /** A line without rules. */
    method DoPlain(z: Zone) returns (r: Outcome<()>)
      requires Valid() && ZoneOk(z)
      modifies this, out.Repr
      ensures var o := RunPlain(old(Model()), z);
              && (o.Exit? ==> r.Exit? && r.error == o.error)
              && (o.Ok? ==> r.Ok? && Valid() && Model() == o.value)
    {
      var offset := Oadd(z.gmtoff, z.stdoff).value;
      var op := if usestart then Transition(starttime, offset, z.format, z.stdoff != 0)
                else JustType(offset, z.format, z.stdoff != 0);
      assert op == PlainOp(Model(), z);
      r := DoOp(op);
      if r.Ok? {
        SetOffsets(z.gmtoff, z.stdoff);
      }
    }

    /** The time from which the next line applies. */
    method SetNextStart(z: Zone) returns (r: Outcome<()>)
      requires Valid() && ZoneOk(z)
      modifies this`starttime
      ensures var o := NextStart(old(Model()), z, stray);
              && (o.Exit? ==> r.Exit? && r.error == o.error)
              && (o.Ok? ==> r.Ok? && Valid() && Model() == o.value)
    {
      var kind := stray;
      if out.timecnt != 0 {
        kind := out.types[out.timecnt - 1];
      }
      if kind >= out.typecnt {
        return Exit(WildRead);
      }
      assert out.gmtoffs[kind] in Model().tables.gmtoffs;
      var t := Tadd(z.untiltime, -out.gmtoffs[kind]);
      if t.Exit? {
        return Exit(t.error);
      }
      starttime := t.value;
      r := Ok(());
    }

    /** All lines of a zone. */
    method Outzone(zs: seq<Zone>) returns (r: Outcome<()>)
      requires ZonesOk(zs) && Valid() && Model() == Initial(zs)
      modifies this, out.Repr
      ensures var o := RunZone(zs, stray);
              && (o.Exit? ==> r.Exit? && r.error == o.error)
              && (o.Ok? ==> r.Ok? && Valid() && Model() == o.value)
    {
      for i := 0 to |zs|
        invariant Valid() && RunLines(Model(), zs, i, stray) == RunZone(zs, stray)
      {
        r := LineThenStart(zs, i);
        if r.Exit? {
          return;
        }
      }
      r := Ok(());
    }

    /** One turn of the loop over the lines. */
    method LineThenStart(zs: seq<Zone>, i: nat) returns (r: Outcome<()>)
      requires ZonesOk(zs) && Valid() && i < |zs|
      modifies this, out.Repr
      ensures var o := LineAndStart(old(Model()), zs, i, stray);
              && (o.Exit? ==> r.Exit? && r.error == o.error)
              && (o.Ok? ==> r.Ok? && Valid() && Model() == o.value)
    {
      assert zs[i] in zs;
      usestart := i > 0;
      startisdst := -1;
      r := DoLine(zs, i);
      if r.Ok? && i < |zs| - 1 {
        r := SetNextStart(zs[i]);
      }
    }

    method DoLine(zs: seq<Zone>, i: nat) returns (r: Outcome<()>)
      requires ZonesOk(zs) && i < |zs| && Valid() && LineStart(Model(), i) == Model()
      modifies this, out.Repr
      ensures var o := RunLine(old(Model()), zs, i);
              && (o.Exit? ==> r.Exit? && r.error == o.error)
              && (o.Ok? ==> r.Ok? && Valid() && Model() == o.value)
    {
      if zs[i].rules == [] {
        r := DoPlain(zs[i]);
      } else {
        r := DoYears(LinePlace(zs, i));
      }
    }
  }

  /** Mark which rules to do in a year and compute their times. */
  method MarkRules(z: Zone, year: int, todo: array<bool>, temp: array<int>) returns (r: Outcome<()>)
    requires ZoneOk(z) && YearOk(year) && todo.Length == temp.Length && TimesOk(z, temp[..])
    modifies todo, temp
    ensures var o := MarkTimes(z, year, 0, old(temp[..]));
            && (o.Exit? ==> r.Exit? && r.error == o.error)
            && (o.Ok? ==> r.Ok? && temp[..] == o.value && todo[..] == Marks(z, year))
  {
    ghost var goal := MarkTimes(z, year, 0, temp[..]);
    for j := 0 to |z.rules|
      invariant TimesOk(z, temp[..]) && goal == MarkTimes(z, year, j, temp[..])
      invariant forall k :: 0 <= k < j ==> todo[k] == IsMarked(z.rules[k], year)
    {
      assert z.rules[j] in z.rules;
      ghost var before := temp[..];
      todo[j] := IsMarked(z.rules[j], year);
      if todo[j] {
        var t := Rpytime(z.rules[j], year);
        if t.Exit? {
          return Exit(t.error);
        }
        temp[j] := t.value;
        assert temp[..] == before[j := t.value];
      }
    }
    r := Ok(());
  }

  /** Find the rule of those to do, if any, that takes effect earliest. */
  method PickRule(z: Zone, todo: array<bool>, temp: array<int>, gmtoff: int, stdoff: int)
    returns (r: Outcome<Option<(nat, int)>>)
    requires TimesOk(z, temp[..]) && todo.Length == temp.Length
    requires -SECS_PER_DAY < gmtoff < SECS_PER_DAY && -SECS_PER_DAY < stdoff < SECS_PER_DAY
    ensures r == Pick(z, temp[..], todo[..], gmtoff, stdoff, 0, None)
  {
    var best: Option<(nat, int)> := None;
    for j := 0 to todo.Length
      invariant best.Some? ==> best.value.0 < j && todo[best.value.0]
      invariant Pick(z, temp[..], todo[..], gmtoff, stdoff, 0, None)
             == Pick(z, temp[..], todo[..], gmtoff, stdoff, j, best)
    {
      if todo[j] && temp[j] != TIME_MIN && temp[j] != TIME_MAX {
        var offset := gmtoff;
        if !z.rules[j].todisstd {
          offset := Oadd(offset, stdoff).value;
        }
        var gmt := Tadd(temp[j], -offset);
        if gmt.Exit? {
          return Exit(gmt.error);
        }
        if best.None? || gmt.value < best.value.1 {
          best := Some((j, gmt.value));
        }
      }
    }
    r := Ok(best);
  }
}
