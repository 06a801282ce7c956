/** The C library's side of a time zone file: tzload of tzset.c, which reads it, and localtime of ctime.c, which looks a
    time up in what was read. */
module TzLoad {
  import opened Machine
  import opened ZicTables
  import opened ZicLookup
  import opened TzFile

  // ---------------------------------------------------------------- what a file holds

  const HEAD := RESERVED + 12

  /** sizeof (struct state): an int, 370 times of 4 bytes, 370 bytes, 10 types of 16 bytes and 512 characters,
      aligned. */
  const STATE_SIZE := 2528

  /** size_t counts modulo 2^64. */
  const SIZE_SPAN := 0x1_0000_0000_0000_0000

  /** detzcode, with its sign. */
  function Signed(bs: seq<Byte>): int {
    WrapTime(Value(bs))
  }

  /** struct state, as far as it is filled. */
  datatype Loaded = Loaded(timecnt: int, ats: seq<int>, types: seq<Byte>, gmtoffs: seq<int>, isdsts: seq<Byte>,
                           abbrinds: seq<Byte>, chars: seq<Byte>)

  function Count(n: int): nat {
    if n > 0 then n else 0
  }

  function CodeIn(buf: seq<Byte>, p: nat): int
    requires p + 4 <= |buf|
  {
    Signed(buf[p..p + 4])
  }

  // Where the parts of a file are: behind the head the times, then the types in force from them, the types, and the
  // characters.
  function TimePlace(k: nat): nat {
    HEAD + 4 * k
  }

  function KindPlace(timecnt: int, k: nat): nat {
    HEAD + 4 * Count(timecnt) + k
  }

  function InfoPlace(timecnt: int, k: nat): nat {
    HEAD + 5 * Count(timecnt) + 6 * k
  }

  function CharPlace(timecnt: int, typecnt: int, k: nat): nat {
    HEAD + 5 * Count(timecnt) + 6 * Count(typecnt) + k
  }

  /** What is found at its place in the buffer. */
  predicate Holds(buf: seq<Byte>, timecnt: int, typecnt: int, charcnt: int, l: Loaded) {
    && l.timecnt == timecnt && CharPlace(timecnt, typecnt, Count(charcnt)) <= |buf|
    && |l.ats| == |l.types| == Count(timecnt) && |l.gmtoffs| == |l.isdsts| == |l.abbrinds| == Count(typecnt)
    && |l.chars| == Count(charcnt)
    && (forall k :: 0 <= k < |l.ats| ==> l.ats[k] == CodeIn(buf, TimePlace(k)))
    && (forall k :: 0 <= k < |l.types| ==> l.types[k] == buf[KindPlace(timecnt, k)])
    && (forall k :: 0 <= k < |l.gmtoffs| ==>
          && l.gmtoffs[k] == CodeIn(buf, InfoPlace(timecnt, k))
          && l.isdsts[k] == buf[InfoPlace(timecnt, k) + 4] && l.abbrinds[k] == buf[InfoPlace(timecnt, k) + 5])
    && (forall k :: 0 <= k < |l.chars| ==> l.chars[k] == buf[CharPlace(timecnt, typecnt, k)])
  }

  /** The space that counts call for. */
  function Needed(timecnt: int, typecnt: int, charcnt: int): nat {
    (HEAD + 5 * timecnt + 6 * typecnt + charcnt) % SIZE_SPAN
  }

  /** tzload takes a file of which n bytes have been read into the buffer. */
  predicate Accepts(buf: seq<Byte>, n: nat)
    requires |buf| == STATE_SIZE
  {
    var timecnt, typecnt, charcnt := CodeIn(buf, RESERVED), CodeIn(buf, RESERVED + 4), CodeIn(buf, RESERVED + 8);
    && n >= HEAD && timecnt <= TZ_MAX_TIMES && typecnt != 0 && typecnt <= TZ_MAX_TYPES && charcnt <= TZNAME_MAX
    && n >= Needed(timecnt, typecnt, charcnt)
    && IndicesOk(buf, timecnt, typecnt, charcnt)
  }

  /** The indices of types and abbreviations are in use. */
  predicate IndicesOk(buf: seq<Byte>, timecnt: int, typecnt: int, charcnt: int)
    requires |buf| == STATE_SIZE && timecnt <= TZ_MAX_TIMES && typecnt <= TZ_MAX_TYPES
  {
    && (forall k :: 0 <= k < Count(timecnt) ==> buf[KindPlace(timecnt, k)] as int < typecnt)
    && (forall k :: 0 <= k < Count(typecnt) ==> buf[InfoPlace(timecnt, k) + 5] as int < charcnt)
  }

  /** detzcode; the bits above the sign are set where it is set. */
  method Detzcode(code: seq<Byte>) returns (result: int)
    requires |code| == 4
    ensures result == Signed(code)
  {
    result := Tzdecode(code);
    FourIsSmall(code);
    if result / 0x8000_0000 != 0 {
      result := result - TIME_SPAN;
    }
  }

  lemma FourIsSmall(bs: seq<Byte>)
    requires |bs| == 4
    ensures Value(bs) < TIME_SPAN
  {
    ValueOfFour(bs);
  }

  // ---------------------------------------------------------------- looking a time up

  /** The last transition up to t, as localtime searches for it from i on. */
  function Segment(ats: seq<int>, t: int, i: nat): (k: nat)
    requires i >= 1
    ensures k < |ats| || k == i - 1
    decreases |ats| - i
  {
    if i >= |ats| || t < ats[i] then i - 1 else Segment(ats, t, i + 1)
  }

  /** Before the first transition: the first type from i on that is standard time, or else type 0. The search goes by
      the number of transitions, so it can leave the types; it then fails. */
  function FirstStandard(isdsts: seq<Byte>, timecnt: int, i: nat): (k: Option<nat>)
    requires i <= |isdsts| == TZ_MAX_TYPES
    ensures k.Some? ==> k.value < TZ_MAX_TYPES
    decreases |isdsts| - i
  {
    if i == |isdsts| then None
    else if isdsts[i] == 0 then Some(i)
    else if i + 1 >= timecnt then Some(0)
    else FirstStandard(isdsts, timecnt, i + 1)
  }

  /** The type that localtime takes. */
  function TypeFor(timecnt: int, ats: seq<int>, types: seq<Byte>, isdsts: seq<Byte>, t: int): Option<nat>
    requires |ats| == |types| == TZ_MAX_TIMES && |isdsts| == TZ_MAX_TYPES && timecnt <= TZ_MAX_TIMES
  {
    if timecnt == 0 || t < ats[0] then FirstStandard(isdsts, timecnt, 0)
    else Some(types[Segment(ats[..Count(timecnt)], t, 1)] as int)
  }

  lemma {:induction false} SegmentIsLast(ats: seq<int>, t: int, i: nat)
    requires 1 <= i <= |ats| && Increasing(ats) && ats[i - 1] <= t
    ensures Segment(ats, t, i) == LastAt(ats, t)
    decreases |ats| - i
  {
    if i < |ats| && t >= ats[i] {
      SegmentIsLast(ats, t, i + 1);
    }
  }

  /** Before the first transition localtime takes the first standard-time type among as many as there are transitions,
      and type 0 where they all save; it reads beyond the types exactly if all that there is room for save and there are
      more transitions. */
  lemma {:induction false} FirstStandardIs(isdsts: seq<Byte>, timecnt: int, i: nat, k: Option<nat>)
    requires i <= |isdsts| == TZ_MAX_TYPES && (i == 0 || i < timecnt) && k == FirstStandard(isdsts, timecnt, i)
    requires forall j :: 0 <= j < i ==> isdsts[j] != 0
    ensures k.None? <==> timecnt > TZ_MAX_TYPES && forall j :: 0 <= j < TZ_MAX_TYPES ==> isdsts[j] != 0
    ensures k.Some? && isdsts[k.value] == 0 ==>
              (k.value == 0 || k.value < timecnt) && forall j :: 0 <= j < k.value ==> isdsts[j] != 0
    ensures k.Some? && isdsts[k.value] != 0 ==>
              k.value == 0 && forall j :: 0 <= j < timecnt && j < TZ_MAX_TYPES ==> isdsts[j] != 0
    decreases |isdsts| - i
  {
    if i < |isdsts| && isdsts[i] != 0 && i + 1 < timecnt {
      FirstStandardIs(isdsts, timecnt, i + 1, k);
    }
  }

  // ---------------------------------------------------------------- tzload

  class TzState {
    var timecnt: int
    const ats: array<int>
    const types: array<Byte>
    const gmtoffs: array<int>
    const isdsts: array<Byte>
    const abbrinds: array<Byte>
    const chars: array<Byte>

    ghost predicate Valid() {
      && ats.Length == types.Length == TZ_MAX_TIMES
      && gmtoffs.Length == isdsts.Length == abbrinds.Length == TZ_MAX_TYPES && chars.Length == 2 * TZNAME_MAX + 2
      && ats != gmtoffs && types != isdsts && types != abbrinds && types != chars && isdsts != abbrinds
      && isdsts != chars && abbrinds != chars
    }

    constructor ()
      ensures Valid() && timecnt == 0
    {
      timecnt := 0;
      ats, types := new int[TZ_MAX_TIMES], new Byte[TZ_MAX_TIMES];
      gmtoffs, isdsts := new int[TZ_MAX_TYPES], new Byte[TZ_MAX_TYPES];
      abbrinds, chars := new Byte[TZ_MAX_TYPES], new Byte[2 * TZNAME_MAX + 2];
    }

    ghost function View(typecnt: int, charcnt: int): Loaded
      requires Valid() && timecnt <= TZ_MAX_TIMES && typecnt <= TZ_MAX_TYPES && charcnt <= TZNAME_MAX
      reads this, ats, types, gmtoffs, isdsts, abbrinds, chars
    {
      Loaded(timecnt, ats[..Count(timecnt)], types[..Count(timecnt)], gmtoffs[..Count(typecnt)],
             isdsts[..Count(typecnt)], abbrinds[..Count(typecnt)], chars[..Count(charcnt)])
    }

    method LoadTimes(buf: seq<Byte>) returns (p: nat)
      requires Valid() && timecnt <= TZ_MAX_TIMES && |buf| == STATE_SIZE
      modifies ats
      ensures p == KindPlace(timecnt, 0)
      ensures forall k :: 0 <= k < Count(timecnt) ==> ats[k] == CodeIn(buf, TimePlace(k))
    {
      p := HEAD;
      var i := 0;
      while i < timecnt
        invariant 0 <= i <= Count(timecnt) && p == TimePlace(i)
        invariant forall k :: 0 <= k < i ==> ats[k] == CodeIn(buf, TimePlace(k))
      {
        ats[i] := Detzcode(buf[p..p + 4]);
        p := p + 4;
        i := i + 1;
      }
    }

    method LoadKinds(buf: seq<Byte>, start: nat) returns (p: nat)
      requires Valid() && timecnt <= TZ_MAX_TIMES && |buf| == STATE_SIZE && start == KindPlace(timecnt, 0)
      modifies types
      ensures p == InfoPlace(timecnt, 0)
      ensures forall k :: 0 <= k < Count(timecnt) ==> types[k] == buf[KindPlace(timecnt, k)]
    {
      p := start;
      var i := 0;
      while i < timecnt
        invariant 0 <= i <= Count(timecnt) && p == KindPlace(timecnt, i)
        invariant forall k :: 0 <= k < i ==> types[k] == buf[KindPlace(timecnt, k)]
      {
        types[i] := buf[p];
        p := p + 1;
        i := i + 1;
      }
    }

    /** Type k stands in the buffer at its place. */
    ghost predicate InfoLoaded(buf: seq<Byte>, place: nat, k: nat)
      requires k < gmtoffs.Length && k < isdsts.Length && k < abbrinds.Length && place + 6 <= |buf|
      reads gmtoffs, isdsts, abbrinds
    {
      gmtoffs[k] == CodeIn(buf, place) && isdsts[k] == buf[place + 4] && abbrinds[k] == buf[place + 5]
    }

    method LoadInfo(buf: seq<Byte>, place: nat, i: nat)
      requires Valid() && i < TZ_MAX_TYPES && place + 6 <= |buf|
      modifies gmtoffs, isdsts, abbrinds
      ensures InfoLoaded(buf, place, i)
      ensures forall k :: 0 <= k < TZ_MAX_TYPES && k != i ==>
                gmtoffs[k] == old(gmtoffs[k]) && isdsts[k] == old(isdsts[k]) && abbrinds[k] == old(abbrinds[k])
    {
      var p := place;
      gmtoffs[i] := Detzcode(buf[p..p + 4]);
      p := p + 4;
      isdsts[i] := buf[p];
      p := p + 1;
      abbrinds[i] := buf[p];
    }

    method LoadInfos(buf: seq<Byte>, start: nat, typecnt: int) returns (p: nat)
      requires Valid() && timecnt <= TZ_MAX_TIMES && typecnt <= TZ_MAX_TYPES && |buf| == STATE_SIZE
      requires start == InfoPlace(timecnt, 0)
      modifies gmtoffs, isdsts, abbrinds
      ensures p == CharPlace(timecnt, typecnt, 0)
      ensures forall k :: 0 <= k < Count(typecnt) ==> InfoLoaded(buf, InfoPlace(timecnt, k), k)
    {
      p := start;
      var i := 0;
      while i < typecnt
        invariant 0 <= i <= Count(typecnt) && p == InfoPlace(timecnt, i)
        invariant forall k :: 0 <= k < i ==> InfoLoaded(buf, InfoPlace(timecnt, k), k)
      {
        LoadInfo(buf, p, i);
        p := p + 6;
        i := i + 1;
      }
    }

    /** The characters, and a NUL behind them. */
    method LoadChars(buf: seq<Byte>, start: nat, typecnt: int, charcnt: int)
      requires Valid() && charcnt <= TZNAME_MAX && start == CharPlace(timecnt, typecnt, 0)
      requires start + TZNAME_MAX <= |buf|
      modifies chars
      ensures forall k :: 0 <= k < Count(charcnt) ==> chars[k] == buf[CharPlace(timecnt, typecnt, k)]
      ensures chars[Count(charcnt)] == 0
    {
      var p, i := start, 0;
      while i < charcnt
        invariant 0 <= i <= Count(charcnt) && p == CharPlace(timecnt, typecnt, i)
        invariant forall k :: 0 <= k < i ==> chars[k] == buf[CharPlace(timecnt, typecnt, k)]
      {
        chars[i] := buf[p];
        p := p + 1;
        i := i + 1;
      }
      chars[i] := 0;
    }

    /** The last two loops of tzload. */
    method CheckIndices(typecnt: int, charcnt: int) returns (ok: bool)
      requires Valid() && timecnt <= TZ_MAX_TIMES && typecnt <= TZ_MAX_TYPES
      ensures ok <==> && (forall k :: 0 <= k < Count(timecnt) ==> types[k] as int < typecnt)
                      && forall k :: 0 <= k < Count(typecnt) ==> abbrinds[k] as int < charcnt
    {
      var i := 0;
      while i < timecnt
        invariant 0 <= i <= Count(timecnt) && forall k :: 0 <= k < i ==> types[k] as int < typecnt
      {
        if types[i] as int >= typecnt {
          return false;
        }
        i := i + 1;
      }
      i := 0;
      while i < typecnt
        invariant 0 <= i <= Count(typecnt) && forall k :: 0 <= k < i ==> abbrinds[k] as int < charcnt
      {
        if abbrinds[i] as int >= charcnt {
          return false;
        }
        i := i + 1;
      }
      ok := true;
    }

    /** The loops that fill the state. */
    method Fill(buf: seq<Byte>, typecnt: int, charcnt: int)
      requires Valid() && |buf| == STATE_SIZE
      requires timecnt <= TZ_MAX_TIMES && typecnt <= TZ_MAX_TYPES && charcnt <= TZNAME_MAX
      modifies ats, types, gmtoffs, isdsts, abbrinds, chars
      ensures Holds(buf, timecnt, typecnt, charcnt, View(typecnt, charcnt))
    {
      var p := LoadTimes(buf);
      p := LoadKinds(buf, p);
      p := LoadInfos(buf, p, typecnt);
      LoadChars(buf, p, typecnt, charcnt);
      assert forall k :: 0 <= k < Count(typecnt) ==> InfoLoaded(buf, InfoPlace(timecnt, k), k);
    }

    /** tzload, once n bytes of the file are in the buffer. Where it fails the state may be half filled; the caller then
        sets another one up. */
    method Tzload(buf: seq<Byte>, n: nat) returns (ok: bool, typecnt: int, charcnt: int)
      requires Valid() && |buf| == STATE_SIZE
      modifies this`timecnt, ats, types, gmtoffs, isdsts, abbrinds, chars
      ensures ok <==> Accepts(buf, n)
      ensures ok ==>
          && timecnt == CodeIn(buf, RESERVED) <= TZ_MAX_TIMES && typecnt == CodeIn(buf, RESERVED + 4) <= TZ_MAX_TYPES
          && charcnt == CodeIn(buf, RESERVED + 8) <= TZNAME_MAX
          && Holds(buf, timecnt, typecnt, charcnt, View(typecnt, charcnt))
    {
      typecnt, charcnt := 0, 0;
      if n < HEAD {
        return false, typecnt, charcnt;
      }
      timecnt := Detzcode(buf[RESERVED..RESERVED + 4]);
      typecnt := Detzcode(buf[RESERVED + 4..RESERVED + 8]);
      charcnt := Detzcode(buf[RESERVED + 8..RESERVED + 12]);
      if timecnt > TZ_MAX_TIMES || typecnt == 0 || typecnt > TZ_MAX_TYPES || charcnt > TZNAME_MAX {
        return false, typecnt, charcnt;
      }
      if n < Needed(timecnt, typecnt, charcnt) {
        return false, typecnt, charcnt;
      }
      Fill(buf, typecnt, charcnt);
      ok := CheckIndices(typecnt, charcnt);
      HoldsIndices(buf, timecnt, typecnt, charcnt, View(typecnt, charcnt));
    }

    /** The search of localtime for the type at t. */
    method LookUp(t: int) returns (ok: bool, i: nat)
      requires Valid() && timecnt <= TZ_MAX_TIMES
      ensures match TypeFor(timecnt, ats[..], types[..], isdsts[..], t)
              case None => !ok
              case Some(k) => ok && i == k
    {
      i := 0;
      if timecnt == 0 || t < ats[0] {
        while isdsts[i] != 0
          invariant i < TZ_MAX_TYPES
          invariant FirstStandard(isdsts[..], timecnt, i) == FirstStandard(isdsts[..], timecnt, 0)
          decreases TZ_MAX_TYPES - i
        {
          i := i + 1;
          if i >= timecnt {
            return true, 0;
          }
          if i == TZ_MAX_TYPES {
            return false, i;
          }
        }
      } else {
        i := 1;
        while i < timecnt && t >= ats[i]
          invariant 1 <= i && (i == 1 || i <= timecnt)
          invariant Segment(ats[..Count(timecnt)], t, i) == Segment(ats[..Count(timecnt)], t, 1)
        {
          i := i + 1;
        }
        i := types[i - 1] as int;
      }
      ok := true;
    }
  }

  // ---------------------------------------------------------------- the indices

  lemma HoldsIndices(buf: seq<Byte>, timecnt: int, typecnt: int, charcnt: int, l: Loaded)
    requires |buf| == STATE_SIZE && timecnt <= TZ_MAX_TIMES && typecnt <= TZ_MAX_TYPES
    requires Holds(buf, timecnt, typecnt, charcnt, l)
    ensures IndicesOk(buf, timecnt, typecnt, charcnt) <==>
            && (forall k :: 0 <= k < |l.types| ==> l.types[k] as int < typecnt)
            && forall k :: 0 <= k < |l.abbrinds| ==> l.abbrinds[k] as int < charcnt
  {
    assert forall k :: 0 <= k < |l.types| ==> l.types[k] == buf[KindPlace(timecnt, k)];
    assert forall k :: 0 <= k < |l.abbrinds| ==> l.abbrinds[k] == buf[InfoPlace(timecnt, k) + 5];
  }

  // ---------------------------------------------------------------- what was written is read

  /** What writezone writes without loss: times and offsets of 32 bits, and characters of 8. */
  predicate Writable(t: Tables) {
    && Shaped(t) && (forall k :: 0 <= k < |t.ats| ==> InTime(t.ats[k]))
    && (forall k :: 0 <= k < |t.gmtoffs| ==> InTime(t.gmtoffs[k]))
    && (forall k :: 0 <= k < |t.chars| ==> t.chars[k] as int < 256)
  }

  /** The state holds the tables. */
  predicate Recovered(t: Tables, l: Loaded)
    requires Shaped(t)
  {
    && l.timecnt == |t.ats| && l.ats == t.ats && l.gmtoffs == t.gmtoffs
    && |l.types| == |t.types| && (forall k :: 0 <= k < |t.types| ==> l.types[k] == t.types[k])
    && |l.isdsts| == |t.isdsts| && (forall k :: 0 <= k < |t.isdsts| ==> l.isdsts[k] == if t.isdsts[k] then 1 else 0)
    && |l.abbrinds| == |t.abbrinds|
    && (forall k :: 0 <= k < |t.abbrinds| ==> l.abbrinds[k] == Position(t.abbrinds[k]))
    && |l.chars| == |t.chars| && (forall k :: 0 <= k < |t.chars| ==> l.chars[k] == t.chars[k] as int)
  }

  lemma {:induction false} InfoLength(gmtoffs: seq<int>, isdsts: seq<bool>, abbrinds: seq<int>)
    requires |gmtoffs| == |isdsts| == |abbrinds|
    ensures |InfoBytes(gmtoffs, isdsts, abbrinds)| == 6 * |gmtoffs|
    decreases |gmtoffs|
  {
    if gmtoffs != [] {
      var n := |gmtoffs| - 1;
      InfoLength(gmtoffs[..n], isdsts[..n], abbrinds[..n]);
    }
  }

  /** The bytes of type k. */
  predicate InfoAt(bs: seq<Byte>, k: nat, gmtoff: int, isdst: bool, abbrind: int) {
    && 6 * k + 6 <= |bs| && bs[6 * k..6 * k + 4] == Code(gmtoff) && bs[6 * k + 4] == (if isdst then 1 else 0)
    && bs[6 * k + 5] == LowByte(abbrind)
  }

  lemma InfoStays(a: seq<Byte>, b: seq<Byte>, k: nat, gmtoff: int, isdst: bool, abbrind: int)
    requires InfoAt(a, k, gmtoff, isdst, abbrind)
    ensures InfoAt(a + b, k, gmtoff, isdst, abbrind)
  {
    assert (a + b)[6 * k..6 * k + 4] == a[6 * k..6 * k + 4];
  }

  lemma InfoLast(a: seq<Byte>, k: nat, gmtoff: int, isdst: bool, abbrind: int)
    requires |a| == 6 * k
    ensures InfoAt(a + Code(gmtoff) + [if isdst then 1 else 0, LowByte(abbrind)], k, gmtoff, isdst, abbrind)
  {
    var last: seq<Byte> := [if isdst then 1 else 0, LowByte(abbrind)];
    var all := a + Code(gmtoff) + last;
    assert all[6 * k..6 * k + 4] == Code(gmtoff);
    assert all[6 * k + 4] == last[0] && all[6 * k + 5] == last[1];
  }

  lemma {:induction false} InfosStand(gmtoffs: seq<int>, isdsts: seq<bool>, abbrinds: seq<int>, k: nat)
    requires |gmtoffs| == |isdsts| == |abbrinds| && k < |gmtoffs|
    ensures InfoAt(InfoBytes(gmtoffs, isdsts, abbrinds), k, gmtoffs[k], isdsts[k], abbrinds[k])
    decreases |gmtoffs|
  {
    var n := |gmtoffs| - 1;
    var a := InfoBytes(gmtoffs[..n], isdsts[..n], abbrinds[..n]);
    InfoLength(gmtoffs[..n], isdsts[..n], abbrinds[..n]);
    if k == n {
      InfoLast(a, n, gmtoffs[n], isdsts[n], abbrinds[n]);
    } else {
      var last: seq<Byte> := [if isdsts[n] then 1 else 0, LowByte(abbrinds[n])];
      InfosStand(gmtoffs[..n], isdsts[..n], abbrinds[..n], k);
      InfoStays(a, Code(gmtoffs[n]), k, gmtoffs[k], isdsts[k], abbrinds[k]);
      InfoStays(a + Code(gmtoffs[n]), last, k, gmtoffs[k], isdsts[k], abbrinds[k]);
    }
  }

  /** part stands in buf from at on. */
  predicate PartAt(buf: seq<Byte>, at: nat, part: seq<Byte>) {
    at + |part| <= |buf| && buf[at..at + |part|] == part
  }

  lemma FivePartsStand(buf: seq<Byte>, a: seq<Byte>, b: seq<Byte>, c: seq<Byte>, d: seq<Byte>, e: seq<Byte>)
    requires a + b + (c + d + e) <= buf
    ensures PartAt(buf, 0, a) && PartAt(buf, |a|, b) && PartAt(buf, |a| + |b|, c) && PartAt(buf, |a| + |b| + |c|, d)
    ensures PartAt(buf, |a| + |b| + |c| + |d|, e)
  {
    var all := a + b + (c + d + e);
    assert all == buf[..|all|];
    var m, n, o := |a| + |b|, |a| + |b| + |c|, |a| + |b| + |c| + |d|;
    assert all[0..|a|] == a && all[|a|..m] == b && all[m..n] == c && all[n..o] == d && all[o..o + |e|] == e;
    forall i: nat, j: nat | i <= j <= |all| ensures all[i..j] == buf[i..j] {
    }
  }

  lemma InPart(buf: seq<Byte>, at: nat, part: seq<Byte>, i: nat, j: nat)
    requires PartAt(buf, at, part) && i <= j <= |part|
    ensures at + j <= |buf| && buf[at + i..at + j] == part[i..j]
  {
    var a, b := buf[at + i..at + j], part[i..j];
    forall k | 0 <= k < j - i ensures a[k] == b[k] {
      assert buf[at..at + |part|][i + k] == buf[at + (i + k)];
    }
  }

  lemma ByteInPart(buf: seq<Byte>, at: nat, part: seq<Byte>, i: nat)
    requires PartAt(buf, at, part) && i < |part|
    ensures at + i < |buf| && buf[at + i] == part[i]
  {
    assert buf[at..at + |part|][i] == buf[at + i];
  }

  /** The parts of the file of t are at the places where tzload looks. */
  predicate PartsStand(t: Tables, buf: seq<Byte>)
    requires Shaped(t)
  {
    && PartAt(buf, 0, Header(t)) && PartAt(buf, TimePlace(0), Codes(t.ats))
    && PartAt(buf, KindPlace(|t.ats|, 0), TypeBytes(t.types))
    && PartAt(buf, InfoPlace(|t.ats|, 0), InfoBytes(t.gmtoffs, t.isdsts, t.abbrinds))
    && PartAt(buf, CharPlace(|t.ats|, |t.gmtoffs|, 0), CharBytes(t.chars))
  }

  lemma FileLength(t: Tables)
    requires Shaped(t)
    ensures |InfoBytes(t.gmtoffs, t.isdsts, t.abbrinds)| == 6 * |t.gmtoffs|
    ensures |FileBytes(t)| == HEAD + 5 * |t.ats| + 6 * |t.gmtoffs| + |t.chars| <= STATE_SIZE
  {
    InfoLength(t.gmtoffs, t.isdsts, t.abbrinds);
  }

  lemma PlacesMeet(t: Tables, buf: seq<Byte>, a: seq<Byte>, b: seq<Byte>, c: seq<Byte>, d: seq<Byte>, e: seq<Byte>)
    requires Shaped(t) && a == Header(t) && b == Codes(t.ats) && c == TypeBytes(t.types)
    requires d == InfoBytes(t.gmtoffs, t.isdsts, t.abbrinds) && e == CharBytes(t.chars) && |d| == 6 * |t.gmtoffs|
    requires PartAt(buf, 0, a) && PartAt(buf, |a|, b) && PartAt(buf, |a| + |b|, c)
    requires PartAt(buf, |a| + |b| + |c|, d) && PartAt(buf, |a| + |b| + |c| + |d|, e)
    ensures PartsStand(t, buf)
  {
    assert |a| == HEAD && |b| == 4 * |t.ats| && |c| == |t.ats|;
  }

  lemma FileStands(t: Tables, buf: seq<Byte>)
    requires Shaped(t) && FileBytes(t) <= buf
    ensures PartsStand(t, buf)
  {
    var a, b, c, e := Header(t), Codes(t.ats), TypeBytes(t.types), CharBytes(t.chars);
    var d := InfoBytes(t.gmtoffs, t.isdsts, t.abbrinds);
    FileLength(t);
    FivePartsStand(buf, a, b, c, d, e);
    PlacesMeet(t, buf, a, b, c, d, e);
  }

  lemma CodeIsRead(buf: seq<Byte>, p: nat, v: int)
    requires p + 4 <= |buf| && buf[p..p + 4] == Code(v) && InTime(v)
    ensures CodeIn(buf, p) == v
  {
    DecodeInvertsCode(v);
  }

  lemma CountsAreRead(t: Tables, buf: seq<Byte>)
    requires Shaped(t) && PartsStand(t, buf)
    ensures CodeIn(buf, RESERVED) == |t.ats| && CodeIn(buf, RESERVED + 4) == |t.gmtoffs|
    ensures CodeIn(buf, RESERVED + 8) == |t.chars|
  {
    var h := Header(t);
    InPart(buf, 0, h, RESERVED, RESERVED + 4);
    InPart(buf, 0, h, RESERVED + 4, RESERVED + 8);
    InPart(buf, 0, h, RESERVED + 8, RESERVED + 12);
    assert h[RESERVED..RESERVED + 4] == Code(|t.ats|) && h[RESERVED + 4..RESERVED + 8] == Code(|t.gmtoffs|);
    assert h[RESERVED + 8..RESERVED + 12] == Code(|t.chars|);
    CodeIsRead(buf, RESERVED, |t.ats|);
    CodeIsRead(buf, RESERVED + 4, |t.gmtoffs|);
    CodeIsRead(buf, RESERVED + 8, |t.chars|);
  }

  lemma TimeIsRead(t: Tables, buf: seq<Byte>, k: nat)
    requires Writable(t) && PartsStand(t, buf) && k < |t.ats|
    ensures TimePlace(k) + 4 <= |buf| && CodeIn(buf, TimePlace(k)) == t.ats[k]
  {
    CodeAt(t.ats, k);
    InPart(buf, TimePlace(0), Codes(t.ats), 4 * k, 4 * k + 4);
    CodeIsRead(buf, TimePlace(k), t.ats[k]);
  }

  lemma KindIsRead(t: Tables, buf: seq<Byte>, k: nat)
    requires Shaped(t) && PartsStand(t, buf) && k < |t.types|
    ensures KindPlace(|t.ats|, k) < |buf| && buf[KindPlace(|t.ats|, k)] == t.types[k]
  {
    var kinds := TypeBytes(t.types);
    assert kinds[k] == LowByte(t.types[k]) == t.types[k];
    ByteInPart(buf, KindPlace(|t.ats|, 0), kinds, k);
  }

  lemma InfoStands(buf: seq<Byte>, start: nat, infos: seq<Byte>, k: nat, p: nat, gmtoff: int, isdst: bool,
                   abbrind: int)
    requires PartAt(buf, start, infos) && InfoAt(infos, k, gmtoff, isdst, abbrind) && p == start + 6 * k
    ensures p + 6 <= |buf| && buf[p..p + 4] == Code(gmtoff) && buf[p + 4] == (if isdst then 1 else 0)
    ensures buf[p + 5] == LowByte(abbrind)
  {
    InPart(buf, start, infos, 6 * k, 6 * k + 4);
    ByteInPart(buf, start, infos, 6 * k + 4);
    ByteInPart(buf, start, infos, 6 * k + 5);
  }

  lemma LowIsPosition(abbrind: int)
    requires -128 <= abbrind < 128
    ensures LowByte(abbrind) == Position(abbrind)
  {
  }

  lemma InfoAtPlace(t: Tables, buf: seq<Byte>, k: nat, p: nat)
    requires Shaped(t) && PartsStand(t, buf) && k < |t.gmtoffs| && p == InfoPlace(|t.ats|, k)
    ensures p + 6 <= |buf| && buf[p..p + 4] == Code(t.gmtoffs[k]) && buf[p + 4] == (if t.isdsts[k] then 1 else 0)
    ensures buf[p + 5] == LowByte(t.abbrinds[k])
  {
    var infos := InfoBytes(t.gmtoffs, t.isdsts, t.abbrinds);
    InfosStand(t.gmtoffs, t.isdsts, t.abbrinds, k);
    InfoStands(buf, InfoPlace(|t.ats|, 0), infos, k, p, t.gmtoffs[k], t.isdsts[k], t.abbrinds[k]);
  }

  lemma InfoIsRead(t: Tables, buf: seq<Byte>, k: nat, p: nat)
    requires Writable(t) && PartsStand(t, buf) && k < |t.gmtoffs| && p == InfoPlace(|t.ats|, k)
    ensures p + 6 <= |buf| && CodeIn(buf, p) == t.gmtoffs[k] && buf[p + 4] == (if t.isdsts[k] then 1 else 0)
    ensures buf[p + 5] == Position(t.abbrinds[k])
  {
    InfoAtPlace(t, buf, k, p);
    CodeIsRead(buf, p, t.gmtoffs[k]);
    LowIsPosition(t.abbrinds[k]);
  }

  lemma CharIsRead(t: Tables, buf: seq<Byte>, k: nat)
    requires Writable(t) && PartsStand(t, buf) && k < |t.chars|
    ensures CharPlace(|t.ats|, |t.gmtoffs|, k) < |buf|
    ensures buf[CharPlace(|t.ats|, |t.gmtoffs|, k)] == t.chars[k] as int
  {
    var chars := CharBytes(t.chars);
    assert chars[k] == LowByte(t.chars[k] as int) == t.chars[k] as int;
    ByteInPart(buf, CharPlace(|t.ats|, |t.gmtoffs|, 0), chars, k);
  }

  lemma HoldsTables(t: Tables, buf: seq<Byte>, l: Loaded)
    requires Writable(t) && PartsStand(t, buf) && Holds(buf, |t.ats|, |t.gmtoffs|, |t.chars|, l)
    ensures Recovered(t, l)
  {
    forall k | 0 <= k < |t.ats| ensures l.ats[k] == t.ats[k] && l.types[k] == t.types[k] {
      TimeIsRead(t, buf, k);
      KindIsRead(t, buf, k);
    }
    forall k | 0 <= k < |t.gmtoffs|
      ensures l.gmtoffs[k] == t.gmtoffs[k] && l.isdsts[k] == (if t.isdsts[k] then 1 else 0)
      ensures l.abbrinds[k] == Position(t.abbrinds[k])
    {
      InfoIsRead(t, buf, k, InfoPlace(|t.ats|, k));
    }
    forall k | 0 <= k < |t.chars| ensures l.chars[k] == t.chars[k] as int {
      CharIsRead(t, buf, k);
    }
  }

  lemma IndicesAreOk(t: Tables, buf: seq<Byte>)
    requires Writable(t) && PartsStand(t, buf) && |buf| == STATE_SIZE
    ensures IndicesOk(buf, |t.ats|, |t.gmtoffs|, |t.chars|)
  {
    forall k | 0 <= k < |t.ats| ensures buf[KindPlace(|t.ats|, k)] as int < |t.gmtoffs| {
      KindIsRead(t, buf, k);
    }
    forall k | 0 <= k < |t.gmtoffs| ensures buf[InfoPlace(|t.ats|, k) + 5] as int < |t.chars| {
      InfoIsRead(t, buf, k, InfoPlace(|t.ats|, k));
    }
  }

  lemma AcceptsWritten(t: Tables, buf: seq<Byte>, n: nat)
    requires Shaped(t) && |buf| == STATE_SIZE && n == HEAD + 5 * |t.ats| + 6 * |t.gmtoffs| + |t.chars|
    requires CodeIn(buf, RESERVED) == |t.ats| && CodeIn(buf, RESERVED + 4) == |t.gmtoffs|
    requires CodeIn(buf, RESERVED + 8) == |t.chars| && IndicesOk(buf, |t.ats|, |t.gmtoffs|, |t.chars|)
    ensures Accepts(buf, n) <==> t.gmtoffs != []
  {
  }

  /** A file that writezone wrote fits tzload's buffer, whatever lies behind it there. tzload takes it exactly if it has
      a type at all, and then has the tables in its state as they were, the indices into the abbreviations, which are
      stored in plain characters, as the positions they stand for. */
  lemma LoadInvertsWrite(t: Tables, buf: seq<Byte>, l: Loaded)
    requires Writable(t) && FileBytes(t) <= buf && |buf| == STATE_SIZE
    ensures Accepts(buf, |FileBytes(t)|) <==> t.gmtoffs != []
    ensures CodeIn(buf, RESERVED) == |t.ats| && CodeIn(buf, RESERVED + 4) == |t.gmtoffs|
    ensures CodeIn(buf, RESERVED + 8) == |t.chars|
    ensures Holds(buf, |t.ats|, |t.gmtoffs|, |t.chars|, l) ==> Recovered(t, l)
  {
    FileLength(t);
    FileStands(t, buf);
    CountsAreRead(t, buf);
    IndicesAreOk(t, buf);
    AcceptsWritten(t, buf, |FileBytes(t)|);
    if Holds(buf, |t.ats|, |t.gmtoffs|, |t.chars|, l) {
      HoldsTables(t, buf, l);
    }
  }
}
