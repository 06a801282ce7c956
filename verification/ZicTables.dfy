/** zic.c: the output tables of one zone. addtt appends transitions, addtype interns local time
    types, newabbr interns abbreviations; all of them grow fixed-size global arrays. */
module ZicTables {
  import opened Machine

  // Limits of the arrays: usr/include/tzfile.h:80 and :87, and kernel/sys/syslimits.h:72.
  const TZ_MAX_TIMES := 370
  const TZ_MAX_TYPES := 10
  const TZNAME_MAX := 255

  /** The live parts of the arrays. */
  datatype Tables = Tables(ats: seq<int>, types: seq<nat>,
                           gmtoffs: seq<int>, isdsts: seq<bool>, abbrinds: seq<int>, chars: string)

  const EMPTY := Tables([], [], [], [], [], [])

  predicate IsCString(s: string) {
    '\0' !in s
  }

  /** The C string that starts at index j. */
  function CString(s: string, j: nat): (r: string)
    requires j <= |s|
    ensures IsCString(r) && j + |r| <= |s| && r == s[j..j + |r|]
    decreases |s| - j
  {
    if j == |s| || s[j] == '\0' then "" else [s[j]] + CString(s, j + 1)
  }

  /** abbrinds is an array of plain char, which is signed. */
  function SignedChar(j: nat): (r: int)
    requires j < 256
    ensures -128 <= r < 128 && Position(r) == j
  {
    if j < 128 then j else j - 256
  }

  /** The reader of the file takes the stored byte as unsigned. */
  function Position(abbrind: int): nat
    requires -128 <= abbrind
  {
    if abbrind < 0 then abbrind + 256 else abbrind
  }

  // ---------------------------------------------------------------- specification

  /** The facts the loops rely on. */
  predicate Shaped(t: Tables) {
    && |t.ats| == |t.types| <= TZ_MAX_TIMES
    && |t.gmtoffs| == |t.isdsts| == |t.abbrinds| <= TZ_MAX_TYPES
    && |t.chars| < TZNAME_MAX
    && (t.chars != [] ==> t.chars[|t.chars| - 1] == '\0')
    && (forall i :: 0 <= i < |t.types| ==> t.types[i] < |t.gmtoffs|)
    && (forall i :: 0 <= i < |t.abbrinds| ==> -128 <= t.abbrinds[i] < 128 && Position(t.abbrinds[i]) < |t.chars|)
  }

  /** The abbreviation a reader of the written file finds for type i: the low byte of the index. */
  function Name(t: Tables, i: nat): string
    requires Shaped(t) && i < |t.abbrinds|
  {
    CString(t.chars, Position(t.abbrinds[i]))
  }

  /** Adjacent transitions differ in type and no type is stored twice. */
  predicate Sound(t: Tables) {
    && Shaped(t)
    && (forall i :: 0 < i < |t.types| ==> t.types[i - 1] != t.types[i])
    && (forall i, j :: 0 <= i < j < |t.gmtoffs| ==>
          t.gmtoffs[i] != t.gmtoffs[j] || t.isdsts[i] != t.isdsts[j] || Name(t, i) != Name(t, j))
  }

  function AddTt(t: Tables, time: int, kind: nat): Outcome<Tables> {
    if t.types != [] && kind == t.types[|t.types| - 1] then
      Ok(t)
    else if |t.types| >= TZ_MAX_TIMES then
      Exit(TooManyTransitions)
    else
      Ok(t.(ats := t.ats + [time], types := t.types + [kind]))
  }

  /** The first type from k on that matches, or the number of types. A negative index is followed
      only when offset and flag agree already. */
  function FindType(t: Tables, k: nat, gmtoff: int, abbr: string, isdst: bool): (r: Outcome<nat>)
    requires Shaped(t) && k <= |t.gmtoffs|
    ensures r.Ok? ==> k <= r.value <= |t.gmtoffs|
    decreases |t.gmtoffs| - k
  {
    if k == |t.gmtoffs| then Ok(k)
    else if gmtoff == t.gmtoffs[k] && isdst == t.isdsts[k] then
      if t.abbrinds[k] < 0 then Exit(WildRead)
      else if CString(t.chars, t.abbrinds[k]) == abbr then Ok(k)
      else FindType(t, k + 1, gmtoff, abbr, isdst)
    else FindType(t, k + 1, gmtoff, abbr, isdst)
  }

  /** The first index from j on where the C string is abbr, or the length. */
  function FindAbbr(chars: string, j: nat, abbr: string): (r: nat)
    requires j <= |chars|
    ensures j <= r <= |chars|
    ensures r < |chars| ==> CString(chars, r) == abbr
    decreases |chars| - j
  {
    if j == |chars| then j
    else if CString(chars, j) == abbr then j
    else FindAbbr(chars, j + 1, abbr)
  }

  function NewAbbr(chars: string, abbr: string): Outcome<string> {
    if |chars| + |abbr| + 1 >= TZNAME_MAX then Exit(TooManyAbbreviations) else Ok(chars + abbr + "\0")
  }

  function AddType(t: Tables, gmtoff: int, abbr: string, isdst: bool): (r: Outcome<(Tables, nat)>)
    requires Shaped(t)
    ensures r.Ok? ==> Shaped(r.value.0) && r.value.1 < |r.value.0.gmtoffs|
  {
    var i :- FindType(t, 0, gmtoff, abbr, isdst);
    if i < |t.gmtoffs| then
      Ok((t, i))
    else if |t.gmtoffs| >= TZ_MAX_TYPES then
      Exit(TooManyTypes)
    else
      var j := FindAbbr(t.chars, 0, abbr);
      var chars :- if j == |t.chars| then NewAbbr(t.chars, abbr) else Ok(t.chars);
      Ok((t.(gmtoffs := t.gmtoffs + [gmtoff], isdsts := t.isdsts + [isdst],
             abbrinds := t.abbrinds + [SignedChar(j)], chars := chars),
          i))
  }

  // ---------------------------------------------------------------- reachable tables

  /** Everything a table says keeps its meaning when the table grows. */
  predicate Extends(t: Tables, u: Tables)
    requires Shaped(t) && Shaped(u)
  {
    && t.ats <= u.ats && t.types <= u.types
    && t.gmtoffs <= u.gmtoffs && t.isdsts <= u.isdsts && t.abbrinds <= u.abbrinds && t.chars <= u.chars
    && (forall i :: 0 <= i < |t.gmtoffs| ==> Name(t, i) == Name(u, i))
  }

  /** Type i is (offset, abbreviation, flag). */
  predicate IsType(t: Tables, i: nat, gmtoff: int, abbr: string, isdst: bool)
    requires Shaped(t)
  {
    i < |t.gmtoffs| && t.gmtoffs[i] == gmtoff && t.isdsts[i] == isdst && Name(t, i) == abbr
  }

  lemma {:induction false} CStringInLonger(s: string, more: string, j: nat)
    requires j < |s| && s[|s| - 1] == '\0'
    ensures CString(s + more, j) == CString(s, j)
    decreases |s| - j
  {
    if s[j] != '\0' {
      CStringInLonger(s, more, j + 1);
    }
  }

  lemma {:induction false} CStringIsWhole(s: string, abbr: string, k: nat)
    requires IsCString(abbr) && k <= |abbr|
    ensures CString(s + abbr + "\0", |s| + k) == abbr[k..]
    decreases |abbr| - k
  {
    var whole := s + abbr + "\0";
    if k < |abbr| {
      CStringIsWhole(s, abbr, k + 1);
      assert whole[|s| + k] == abbr[k];
    } else {
      assert whole[|s| + k] == '\0';
    }
  }

  lemma {:induction false} FindTypeDecides(t: Tables, k: nat, gmtoff: int, abbr: string, isdst: bool, r: Outcome<nat>)
    requires Shaped(t) && k <= |t.gmtoffs| && r == FindType(t, k, gmtoff, abbr, isdst)
    ensures r.Ok? ==> k <= r.value <= |t.gmtoffs| && forall n :: k <= n < r.value ==> !IsType(t, n, gmtoff, abbr, isdst)
    ensures r.Ok? && r.value < |t.gmtoffs| ==> IsType(t, r.value, gmtoff, abbr, isdst)
    ensures r.Exit? ==> r.error == WildRead
    decreases |t.gmtoffs| - k
  {
    if k < |t.gmtoffs| {
      if t.gmtoffs[k] != gmtoff || t.isdsts[k] != isdst {
        FindTypeDecides(t, k + 1, gmtoff, abbr, isdst, r);
      } else if t.abbrinds[k] >= 0 && r != Ok(k) {
        FindTypeDecides(t, k + 1, gmtoff, abbr, isdst, r);
      }
    }
  }

  /** A type added at the end carries the requested abbreviation, found or appended. */
  lemma NewTypeIsNamed(t: Tables, u: Tables, gmtoff: int, abbr: string, isdst: bool, j: nat)
    requires Shaped(t) && Shaped(u) && IsCString(abbr) && j == FindAbbr(t.chars, 0, abbr) && j < 256
    requires u.gmtoffs == t.gmtoffs + [gmtoff] && u.isdsts == t.isdsts + [isdst]
    requires u.abbrinds == t.abbrinds + [SignedChar(j)]
    requires u.chars == if j == |t.chars| then t.chars + abbr + "\0" else t.chars
    ensures IsType(u, |t.gmtoffs|, gmtoff, abbr, isdst)
  {
    if j == |t.chars| {
      CStringIsWhole(t.chars, abbr, 0);
    }
  }

  lemma TypesDiffer(t: Tables, u: Tables, gmtoff: int, abbr: string, isdst: bool, m: nat, n: nat)
    requires Sound(t) && Shaped(u) && Extends(t, u) && |u.gmtoffs| == |t.gmtoffs| + 1 && m < n < |u.gmtoffs|
    requires IsType(u, |t.gmtoffs|, gmtoff, abbr, isdst) && !IsType(t, m, gmtoff, abbr, isdst)
    ensures u.gmtoffs[m] != u.gmtoffs[n] || u.isdsts[m] != u.isdsts[n] || Name(u, m) != Name(u, n)
  {
    assert Name(u, m) == Name(t, m);
    if n < |t.gmtoffs| {
      assert Name(u, n) == Name(t, n);
    }
  }

  lemma NewTypeIsDistinct(t: Tables, u: Tables, gmtoff: int, abbr: string, isdst: bool)
    requires Sound(t) && Shaped(u) && u.types == t.types && Extends(t, u)
    requires |u.gmtoffs| == |t.gmtoffs| + 1 && IsType(u, |t.gmtoffs|, gmtoff, abbr, isdst)
    requires forall n :: 0 <= n < |t.gmtoffs| ==> !IsType(t, n, gmtoff, abbr, isdst)
    ensures Sound(u)
  {
    forall m, n | 0 <= m < n < |u.gmtoffs|
      ensures u.gmtoffs[m] != u.gmtoffs[n] || u.isdsts[m] != u.isdsts[n] || Name(u, m) != Name(u, n)
    {
      TypesDiffer(t, u, gmtoff, abbr, isdst, m, n);
    }
  }

  /** addtype answers the index of exactly the requested type, makes no duplicates, and leaves all
      earlier entries and abbreviations as they were, even when a new abbreviation is found inside
      an old one. */
  lemma AddTypeIsSound(t: Tables, gmtoff: int, abbr: string, isdst: bool)
    requires Sound(t) && IsCString(abbr) && AddType(t, gmtoff, abbr, isdst).Ok?
    ensures var (u, i) := AddType(t, gmtoff, abbr, isdst).value;
            Sound(u) && IsType(u, i, gmtoff, abbr, isdst) && Extends(t, u)
            && u.ats == t.ats && u.types == t.types
  {
    var (u, i) := AddType(t, gmtoff, abbr, isdst).value;
    FindTypeDecides(t, 0, gmtoff, abbr, isdst, FindType(t, 0, gmtoff, abbr, isdst));
    if i == |t.gmtoffs| {
      NewTypeIsNamed(t, u, gmtoff, abbr, isdst, FindAbbr(t.chars, 0, abbr));
      NamesKept(t, u);
      NewTypeIsDistinct(t, u, gmtoff, abbr, isdst);
    }
  }

  lemma NamesKept(t: Tables, u: Tables)
    requires Shaped(t) && Shaped(u) && t.abbrinds <= u.abbrinds && t.chars <= u.chars
    ensures forall i :: 0 <= i < |t.abbrinds| ==> Name(t, i) == Name(u, i)
  {
    forall i | 0 <= i < |t.abbrinds|
      ensures Name(t, i) == Name(u, i)
    {
      assert u.chars == t.chars + u.chars[|t.chars|..];
      assert u.abbrinds[i] == t.abbrinds[i];
      CStringInLonger(t.chars, u.chars[|t.chars|..], Position(t.abbrinds[i]));
    }
  }

  lemma AddTtIsSound(t: Tables, time: int, kind: nat)
    requires Sound(t) && kind < |t.gmtoffs| && AddTt(t, time, kind).Ok?
    ensures Sound(AddTt(t, time, kind).value) && Extends(t, AddTt(t, time, kind).value)
    ensures AddTt(t, time, kind).value.types != []
    ensures AddTt(t, time, kind).value.types[|AddTt(t, time, kind).value.types| - 1] == kind
  {
    var u := AddTt(t, time, kind).value;
    NamesKept(t, u);
    assert forall i :: 0 <= i < |u.gmtoffs| ==> Name(u, i) == Name(t, i);
  }

  /** What outzone does to the tables: a type, perhaps followed by a transition to it. */
  datatype Op = JustType(gmtoff: int, abbr: string, isdst: bool)
              | Transition(time: int, gmtoff: int, abbr: string, isdst: bool)

  /** The times of the transitions asked for, also where addtt finds that the type is in force already. */
  function Times(ops: seq<Op>): seq<int> {
    if ops == [] then []
    else
      var op := ops[|ops| - 1];
      Times(ops[..|ops| - 1]) + if op.Transition? then [op.time] else []
  }

  lemma TimesSnoc(ops: seq<Op>, op: Op)
    ensures Times(ops + [op]) == Times(ops) + if op.Transition? then [op.time] else []
  {
    assert (ops + [op])[..|ops|] == ops;
  }

  function Apply(t: Tables, op: Op): (r: Outcome<Tables>)
    requires Shaped(t)
    ensures r.Ok? ==> Shaped(r.value)
  {
    var (u, i) :- AddType(t, op.gmtoff, op.abbr, op.isdst);
    if op.Transition? then AddTt(u, op.time, i) else Ok(u)
  }

  function Run(t: Tables, ops: seq<Op>): (r: Outcome<Tables>)
    requires Shaped(t)
    ensures r.Ok? ==> Shaped(r.value)
    decreases |ops|
  {
    if ops == [] then Ok(t)
    else
      var u :- Apply(t, ops[0]);
      Run(u, ops[1..])
  }

  /** Every reachable state of the output tables is sound, and later operations only extend it. */
  lemma {:induction false} RunIsSound(t: Tables, ops: seq<Op>)
    requires Sound(t) && Run(t, ops).Ok?
    requires forall op :: op in ops ==> IsCString(op.abbr)
    ensures Sound(Run(t, ops).value) && Extends(t, Run(t, ops).value)
    decreases |ops|
  {
    if ops != [] {
      var op := ops[0];
      var (u, i) := AddType(t, op.gmtoff, op.abbr, op.isdst).value;
      AddTypeIsSound(t, op.gmtoff, op.abbr, op.isdst);
      if op.Transition? {
        AddTtIsSound(u, op.time, i);
      }
      RunIsSound(Apply(t, op).value, ops[1..]);
    }
  }

  lemma ReachableTablesAreSound(ops: seq<Op>)
    requires Run(EMPTY, ops).Ok? && forall op :: op in ops ==> IsCString(op.abbr)
    ensures Sound(Run(EMPTY, ops).value)
  {
    RunIsSound(EMPTY, ops);
  }

  /** Type n agrees in offset and flag but its index, stored as a signed char, has turned negative. */
  predicate Negative(t: Tables, n: nat, gmtoff: int, isdst: bool)
    requires Shaped(t)
  {
    n < |t.gmtoffs| && t.gmtoffs[n] == gmtoff && t.isdsts[n] == isdst && t.abbrinds[n] < 0
  }

  predicate NegativeFirst(t: Tables, k: nat, n: nat, gmtoff: int, abbr: string, isdst: bool)
    requires Shaped(t)
  {
    k <= n && Negative(t, n, gmtoff, isdst) && forall m :: k <= m < n ==> !IsType(t, m, gmtoff, abbr, isdst)
  }

  /** The compiler's own look-up reads outside chars exactly when such a type comes before any match. */
  lemma {:induction false} WildReadsExactly(t: Tables, k: nat, gmtoff: int, abbr: string, isdst: bool)
    requires Shaped(t) && k <= |t.gmtoffs|
    ensures FindType(t, k, gmtoff, abbr, isdst) == Exit(WildRead) <==>
            exists n: nat :: NegativeFirst(t, k, n, gmtoff, abbr, isdst)
    decreases |t.gmtoffs| - k
  {
    if k < |t.gmtoffs| {
      WildReadsExactly(t, k + 1, gmtoff, abbr, isdst);
      if Negative(t, k, gmtoff, isdst) {
        assert NegativeFirst(t, k, k, gmtoff, abbr, isdst);
      } else if FindType(t, k, gmtoff, abbr, isdst) == Exit(WildRead) {
        var n: nat :| NegativeFirst(t, k + 1, n, gmtoff, abbr, isdst);
        assert NegativeFirst(t, k, n, gmtoff, abbr, isdst);
      } else if n: nat :| NegativeFirst(t, k, n, gmtoff, abbr, isdst) {
        assert !IsType(t, k, gmtoff, abbr, isdst);
        assert NegativeFirst(t, k + 1, n, gmtoff, abbr, isdst);
      }
    }
  }

  lemma IndexIsPosition(t: Tables, k: nat)
    requires Shaped(t) && k < |t.abbrinds| && |t.chars| <= 128
    ensures t.abbrinds[k] == Position(t.abbrinds[k])
  {
  }

  /** As long as the abbreviations fill at most 128 bytes it never does. */
  lemma {:induction false} FewCharsAreSafe(t: Tables, k: nat, gmtoff: int, abbr: string, isdst: bool)
    requires Shaped(t) && k <= |t.gmtoffs| && |t.chars| <= 128
    ensures FindType(t, k, gmtoff, abbr, isdst).Ok?
    decreases |t.gmtoffs| - k
  {
    if k < |t.gmtoffs| {
      FewCharsAreSafe(t, k + 1, gmtoff, abbr, isdst);
      IndexIsPosition(t, k);
    }
  }

  /** An index is always below the limit of chars, so the byte that is stored still tells which it was. */
  lemma IndicesFitAByte(t: Tables, abbr: string)
    requires Shaped(t)
    ensures FindAbbr(t.chars, 0, abbr) < TZNAME_MAX
    ensures Position(SignedChar(FindAbbr(t.chars, 0, abbr))) == FindAbbr(t.chars, 0, abbr)
  {
  }

  lemma {:induction false} NotAmong(chars: string, j: nat, abbr: string)
    requires j <= |chars| && abbr != "" && abbr[0] !in chars
    ensures FindAbbr(chars, j, abbr) == |chars|
    decreases |chars| - j
  {
    if j < |chars| {
      var c := CString(chars, j);
      if |c| > 0 {
        assert c[0] == chars[j] && chars[j] in chars;
      }
      NotAmong(chars, j + 1, abbr);
    }
  }

  lemma FirstAbbr(abbr: string, gmtoff: int)
    requires |abbr| + 1 < TZNAME_MAX
    ensures Apply(EMPTY, JustType(gmtoff, abbr, false)) == Ok(Tables([], [], [gmtoff], [false], [0], abbr + "\0"))
  {
    assert FindAbbr([], 0, abbr) == 0 && [] + abbr + "\0" == abbr + "\0";
    var u := AddType(EMPTY, gmtoff, abbr, false).value.0;
    assert u.gmtoffs == [gmtoff] && u.isdsts == [false] && u.abbrinds == [0];
  }

  lemma SecondAbbr(chars: string, gmtoff: int, abbr: string, t: Tables)
    requires t == Tables([], [], [0], [false], [0], chars) && Shaped(t) && gmtoff != 0
    requires abbr != "" && abbr[0] !in chars && |chars| + |abbr| + 1 < TZNAME_MAX
    ensures Apply(t, JustType(gmtoff, abbr, false))
         == Ok(Tables([], [], [0, gmtoff], [false, false], [0, SignedChar(|chars|)], chars + abbr + "\0"))
  {
    assert FindType(t, 1, gmtoff, abbr, false) == Ok(1);
    NotAmong(chars, 0, abbr);
    var u := AddType(t, gmtoff, abbr, false).value.0;
    assert u.gmtoffs == [0, gmtoff] && u.isdsts == [false, false] && u.abbrinds == [0, SignedChar(|chars|)];
  }

  /** A run reaches the wild read: behind a first abbreviation of 130 bytes the index of the second is negative, and
      asking for the second type once more follows it. */
  lemma WildReadIsReached(long: string)
    requires |long| == 130 && IsCString(long) && 'B' !in long
    ensures var r := Run(EMPTY, [JustType(0, long, false), JustType(3600, "B", false)]);
            r.Ok? && AddType(r.value, 3600, "B", false) == Exit(WildRead)
  {
    var ops := [JustType(0, long, false), JustType(3600, "B", false)];
    var chars := long + "\0";
    var t := Tables([], [], [0], [false], [0], chars);
    FirstAbbr(long, 0);
    SecondAbbr(chars, 3600, "B", t);
    var u := Tables([], [], [0, 3600], [false, false], [0, SignedChar(131)], chars + "B" + "\0");
    assert ops[1..] == [ops[1]] && ops[1..][1..] == [];
    assert Run(u, []) == Ok(u) && Run(t, ops[1..]) == Ok(u) && Run(EMPTY, ops) == Ok(u);
    assert Negative(u, 1, 3600, false);
    assert NegativeFirst(u, 0, 1, 3600, "B", false) by {
      assert !IsType(u, 0, 3600, "B", false);
    }
    WildReadsExactly(u, 0, 3600, "B", false);
  }

  // ---------------------------------------------------------------- the arrays

  class TzOutput {
    const ats: array<int>
    const types: array<nat>
    const gmtoffs: array<int>
    const isdsts: array<bool>
    const abbrinds: array<int>
    const chars: array<char>
    var timecnt: nat
    var typecnt: nat
    var charcnt: nat

    ghost predicate Valid()
      reads this, ats, types, gmtoffs, isdsts, abbrinds, chars
    {
      && ats.Length == types.Length == TZ_MAX_TIMES
      && gmtoffs.Length == isdsts.Length == abbrinds.Length == TZ_MAX_TYPES
      && chars.Length == TZNAME_MAX
      && ats != gmtoffs && ats != abbrinds && gmtoffs != abbrinds
      && timecnt <= TZ_MAX_TIMES && typecnt <= TZ_MAX_TYPES && charcnt < TZNAME_MAX
      && Shaped(Model())
    }

    ghost function Model(): Tables
      requires timecnt <= ats.Length && timecnt <= types.Length
      requires typecnt <= gmtoffs.Length && typecnt <= isdsts.Length && typecnt <= abbrinds.Length
      requires charcnt <= chars.Length
      reads this, ats, types, gmtoffs, isdsts, abbrinds, chars
    {
      Tables(ats[..timecnt], types[..timecnt],
             gmtoffs[..typecnt], isdsts[..typecnt], abbrinds[..typecnt], chars[..charcnt])
    }

    ghost const Repr: set<object> := {this, ats, types, gmtoffs, isdsts, abbrinds, chars}

    constructor ()
      ensures Valid() && Model() == EMPTY && fresh(Repr)
    {
      ats := new int[TZ_MAX_TIMES];
      types := new nat[TZ_MAX_TIMES];
      gmtoffs := new int[TZ_MAX_TYPES];
      isdsts := new bool[TZ_MAX_TYPES];
      abbrinds := new int[TZ_MAX_TYPES];
      chars := new char[TZNAME_MAX];
      timecnt, typecnt, charcnt := 0, 0, 0;
    }

    method Addtt(time: int, kind: nat) returns (r: Outcome<()>)
      requires Valid() && kind < typecnt
      modifies this`timecnt, ats, types
      ensures match AddTt(old(Model()), time, kind)
              case Ok(t) => r == Ok(()) && Valid() && Model() == t
              case Exit(e) => r == Exit(e)
    {
      if timecnt != 0 && kind == types[timecnt - 1] {
        return Ok(());
      }
      if timecnt >= TZ_MAX_TIMES {
        return Exit(TooManyTransitions);
      }
      ats[timecnt] := time;
      types[timecnt] := kind;
      timecnt := timecnt + 1;
      r := Ok(());
    }

    method Newabbr(abbr: string) returns (r: Outcome<()>)
      requires Valid() && IsCString(abbr)
      modifies this`charcnt, chars
      ensures match NewAbbr(old(chars[..charcnt]), abbr)
              case Ok(s) => r == Ok(()) && charcnt < TZNAME_MAX && chars[..charcnt] == s
              case Exit(e) => r == Exit(e)
    {
      var i := |abbr| + 1;
      if charcnt + i >= TZNAME_MAX {
        return Exit(TooManyAbbreviations);
      }
      forall k | 0 <= k < |abbr| {
        chars[charcnt + k] := abbr[k];
      }
      chars[charcnt + |abbr|] := '\0';
      charcnt := charcnt + i;
      r := Ok(());
    }

    /** The first loop of addtype: is there already such a type? */
    method SearchTypes(gmtoff: int, abbr: string, isdst: bool) returns (r: Outcome<nat>)
      requires Valid()
      ensures r == FindType(Model(), 0, gmtoff, abbr, isdst)
    {
      var i := 0;
      while i < typecnt
        invariant i <= typecnt
        invariant FindType(Model(), 0, gmtoff, abbr, isdst) == FindType(Model(), i, gmtoff, abbr, isdst)
      {
        if gmtoff == gmtoffs[i] && isdst == isdsts[i] {
          if abbrinds[i] < 0 {
            return Exit(WildRead);
          }
          if CString(chars[..charcnt], abbrinds[i]) == abbr {
            return Ok(i);
          }
        }
        i := i + 1;
      }
      r := Ok(i);
    }

    /** The second loop of addtype: does the abbreviation occur already, perhaps as a suffix? */
    method SearchChars(abbr: string) returns (j: nat)
      requires Valid()
      ensures j == FindAbbr(chars[..charcnt], 0, abbr)
    {
      j := 0;
      while j < charcnt
        invariant j <= charcnt
        invariant FindAbbr(chars[..charcnt], 0, abbr) == FindAbbr(chars[..charcnt], j, abbr)
      {
        if CString(chars[..charcnt], j) == abbr {
          break;
        }
        j := j + 1;
      }
    }

    /** The assignments of addtype for a new type. */
    method StoreType(gmtoff: int, isdst: bool, j: nat)
      requires Valid() && typecnt < TZ_MAX_TYPES && j < charcnt
      modifies this`typecnt, gmtoffs, isdsts, abbrinds
      ensures typecnt == old(typecnt) + 1
      ensures Valid()
      ensures Model() == old(Model()).(gmtoffs := old(gmtoffs[..typecnt]) + [gmtoff],
                                       isdsts := old(isdsts[..typecnt]) + [isdst],
                                       abbrinds := old(abbrinds[..typecnt]) + [SignedChar(j)])
    {
      gmtoffs[typecnt], isdsts[typecnt], abbrinds[typecnt] := gmtoff, isdst, SignedChar(j);
      typecnt := typecnt + 1;
    }

    method Addtype(gmtoff: int, abbr: string, isdst: bool) returns (r: Outcome<nat>)
      requires Valid() && IsCString(abbr)
      modifies this`typecnt, this`charcnt, gmtoffs, isdsts, abbrinds, chars
      ensures AddType(old(Model()), gmtoff, abbr, isdst).Exit? ==>
          r == AddType(old(Model()), gmtoff, abbr, isdst).PropagateFailure()
      ensures AddType(old(Model()), gmtoff, abbr, isdst).Ok? ==>
                && r == Ok(AddType(old(Model()), gmtoff, abbr, isdst).value.1)
                && Valid() && Model() == AddType(old(Model()), gmtoff, abbr, isdst).value.0
                && r.value < typecnt
    {
      ghost var t := Model();
      r := SearchTypes(gmtoff, abbr, isdst);
      if r.Exit? || r.value < typecnt {
        return;
      }
      if typecnt >= TZ_MAX_TYPES {
        return Exit(TooManyTypes);
      }
      var j := SearchChars(abbr);
      if j == charcnt {
        var n := Newabbr(abbr);
        if n.Exit? {
          return Exit(n.error);
        }
      }
      StoreType(gmtoff, isdst, j);
    }

    /** addtype, and addtt where op is a transition. */
    method Add(op: Op) returns (r: Outcome<()>)
      requires Valid() && IsCString(op.abbr)
      modifies this`typecnt, this`charcnt, this`timecnt, Repr
      ensures match Apply(old(Model()), op)
              case Ok(t) => r == Ok(()) && Valid() && Model() == t
              case Exit(e) => r == Exit(e)
    {
      var kind := Addtype(op.gmtoff, op.abbr, op.isdst);
      if kind.Exit? {
        return Exit(kind.error);
      }
      r := Ok(());
      if op.Transition? {
        r := Addtt(op.time, kind.value);
      }
    }
  }
}
