/** pickapart.c: prune takes the partitions in use, and whatever overlaps them, off the list of a disk by
    setting their sizes to zero; Overlap lists the partitions that overlap one. */
module Pickapart {

  import opened Machine

  const U_INT_SPAN := 0x1_0000_0000
  const MAXPARTITIONS := 8

  /** p_offset and p_size; sums are unsigned. */
  datatype Partition = Partition(offset: nat, size: nat)

  function End(p: Partition): nat {
    (p.offset + p.size) % U_INT_SPAN
  }

  /** Partitions lie within the range of an unsigned int. */
  predicate InRange(parts: seq<Partition>) {
    forall j :: 0 <= j < |parts| ==> parts[j].offset + parts[j].size < U_INT_SPAN
  }

  /** The overlap test that prune and Overlap share, against the span from start to end. */
  predicate Touches(p: Partition, start: nat, end: nat) {
    p.offset < end && End(p) > start
  }

  predicate Overlapping(a: Partition, b: Partition) {
    Touches(a, b.offset, End(b))
  }

  /** Overlap keeps its own end in an unsigned long, so that one is not cut off. */
  predicate Listed(a: Partition, b: Partition) {
    Touches(a, b.offset, b.offset + b.size)
  }

  // ---------------------------------------------------------------- arguments

  predicate IsAlpha(c: char) {
    'a' <= c <= 'z' || 'A' <= c <= 'Z'
  }

  function ToLower(c: char): char {
    if 'A' <= c <= 'Z' then c - 'A' + 'a' else c
  }

  /** The partition an argument names: the disk's name and a letter. */
  function Named(disk: string, arg: string, npartitions: nat): (r: Option<nat>)
    ensures r.Some? ==> r.value < npartitions
  {
    if disk <= arg && |disk| < |arg| && IsAlpha(arg[|disk|]) then
      var i := ToLower(arg[|disk|]) as int - 'a' as int;
      if i >= npartitions then None else Some(i)
    else None
  }

  /** An argument names partition i exactly if it is the name of the disk with the letter of the partition behind it,
      small or large, whatever follows. */
  lemma NamedExactly(disk: string, arg: string, npartitions: nat, i: nat)
    requires npartitions <= MAXPARTITIONS
    ensures Named(disk, arg, npartitions) == Some(i) <==>
            && i < npartitions && |disk| < |arg| && arg[..|disk|] == disk
            && (arg[|disk|] == "abcdefgh"[i] || arg[|disk|] == "ABCDEFGH"[i])
  {
  }

  /** The partitions named as in use, in the order of the arguments. */
  function Used(disk: string, args: seq<string>, npartitions: nat): (r: seq<nat>)
    ensures forall i :: i in r ==> i < npartitions
  {
    if args == [] then []
    else match Named(disk, args[0], npartitions)
         case None => Used(disk, args[1..], npartitions)
         case Some(i) => [i] + Used(disk, args[1..], npartitions)
  }

  /** A partition is in use exactly if some argument names it. */
  lemma {:induction false} UsedExactly(disk: string, args: seq<string>, npartitions: nat, i: nat)
    ensures i in Used(disk, args, npartitions) <==>
            exists a :: 0 <= a < |args| && Named(disk, args[a], npartitions) == Some(i)
  {
    if args != [] {
      UsedExactly(disk, args[1..], npartitions, i);
      if a :| 0 <= a < |args| && Named(disk, args[a], npartitions) == Some(i) && a > 0 {
        assert args[1..][a - 1] == args[a];
      }
    }
  }

  // ---------------------------------------------------------------- one partition in use

  function Zero(p: Partition): Partition {
    p.(size := 0)
  }

  /** What partition i in use does to the label. */
  function PruneOne(parts: seq<Partition>, i: nat): (r: seq<Partition>)
    requires i < |parts|
    ensures |r| == |parts|
    ensures forall j :: 0 <= j < |parts| ==>
              r[j] == if j == i || Touches(parts[j], parts[i].offset, End(parts[i])) then Zero(parts[j]) else parts[j]
  {
    seq(|parts|, j requires 0 <= j < |parts| =>
      if j == i || Touches(parts[j], parts[i].offset, End(parts[i])) then Zero(parts[j]) else parts[j])
  }

  function Prune(parts: seq<Partition>, used: seq<nat>): (r: seq<Partition>)
    requires forall i :: i in used ==> i < |parts|
    ensures |r| == |parts|
    decreases |used|
  {
    if used == [] then parts
    else
      assert used[0] in used && forall i :: i in used[1..] ==> i in used;
      Prune(PruneOne(parts, used[0]), used[1..])
  }

  class Label {
    const parts: array<Partition>

    constructor (parts: array<Partition>)
      ensures this.parts == parts
    {
      this.parts := parts;
    }

    /** The inner part of prune. */
    method PruneAround(i: nat)
      requires i < parts.Length && parts[i].offset + parts[i].size < U_INT_SPAN
      modifies parts
      ensures parts[..] == PruneOne(old(parts[..]), i)
    {
      ghost var was := parts[..];
      var start, end := parts[i].offset, End(parts[i]);
      parts[i] := Zero(parts[i]);
      for j := 0 to parts.Length
        invariant forall k :: 0 <= k < j ==> parts[k] == PruneOne(was, i)[k]
        invariant forall k :: j <= k < parts.Length ==> parts[k] == if k == i then Zero(was[k]) else was[k]
      {
        if parts[j].offset >= end {
        } else if End(parts[j]) <= start {
        } else {
          parts[j] := Zero(parts[j]);
        }
      }
    }

    /** prune */
    method PruneAll(disk: string, args: seq<string>)
      requires InRange(parts[..])
      modifies parts
      ensures parts[..] == Prune(old(parts[..]), Used(disk, args, parts.Length))
    {
      ghost var goal := Prune(parts[..], Used(disk, args, parts.Length));
      assert args[0..] == args;
      for a := 0 to |args|
        invariant InRange(parts[..])
        invariant Prune(parts[..], Used(disk, args[a..], parts.Length)) == goal
      {
        assert args[a..][1..] == args[a + 1..];
        var named := Named(disk, args[a], parts.Length);
        if named.Some? {
          ghost var more := Used(disk, args[a + 1..], parts.Length);
          assert ([named.value] + more)[1..] == more;
          PruneAround(named.value);
        }
      }
      assert args[|args|..] == [];
    }

    /** Overlap: the letters of the partitions that overlap partition i. */
    method Overlap(i: nat) returns (outbuf: string)
      requires i < parts.Length <= MAXPARTITIONS
      ensures outbuf == Letters(parts[..], i, 0)
    {
      outbuf := "";
      var comma := false;
      var start, end := parts[i].offset, parts[i].offset + parts[i].size;
      for j := 0 to parts.Length
        invariant comma <==> outbuf != ""
        invariant Joined(outbuf, Letters(parts[..], i, j)) == Letters(parts[..], i, 0)
      {
        if j == i || end <= parts[j].offset || start >= End(parts[j]) {
        } else {
          JoinedGrows(outbuf, Letter(j), Letters(parts[..], i, j + 1));
          if comma {
            outbuf := outbuf + ", ";
          }
          comma := true;
          outbuf := outbuf + [Letter(j)];
        }
      }
    }
  }

  /** Two lists of letters as one. */
  function Joined(a: string, b: string): string {
    if a == "" then b else if b == "" then a else a + ", " + b
  }

  lemma JoinedGrows(a: string, c: char, more: string)
    ensures Joined(a, Joined([c], more)) == Joined(Joined(a, [c]), more)
  {
    if a != "" && more != "" {
      assert a + ", " + ([c] + ", " + more) == a + ", " + [c] + ", " + more;
    }
  }

  function Letter(j: nat): char
    requires j < MAXPARTITIONS
  {
    'a' + j as char
  }

  /** The letters, from j on, of the partitions overlapping i, separated by commas. */
  function Letters(parts: seq<Partition>, i: nat, j: nat): string
    requires i < |parts| <= MAXPARTITIONS && j <= |parts|
    decreases |parts| - j
  {
    if j == |parts| then ""
    else
      var more := Letters(parts, i, j + 1);
      if j != i && Listed(parts[j], parts[i]) then Joined([Letter(j)], more) else more
  }

  // ---------------------------------------------------------------- what prune leaves

  predicate AllIn(parts: seq<Partition>, used: seq<nat>) {
    forall i :: i in used ==> i < |parts|
  }

  /** Partition j is in use or overlaps one in use. */
  ghost predicate Hit(parts: seq<Partition>, used: seq<nat>, j: nat)
    requires AllIn(parts, used) && j < |parts|
  {
    j in used || exists u :: u in used && Overlapping(parts[j], parts[u])
  }

  /** The partitions in use do not overlap each other. */
  predicate Disjoint(parts: seq<Partition>, used: seq<nat>)
    requires AllIn(parts, used)
  {
    forall a, b :: a in used && b in used && a != b ==> !Overlapping(parts[a], parts[b])
  }

  ghost predicate Pruned(parts: seq<Partition>, used: seq<nat>, now: seq<Partition>)
    requires AllIn(parts, used) && |now| == |parts|
  {
    forall j :: 0 <= j < |parts| ==> now[j] == if Hit(parts, used, j) then Zero(parts[j]) else parts[j]
  }

  lemma HitSnoc(parts: seq<Partition>, done: seq<nat>, u: nat, j: nat)
    requires AllIn(parts, done) && u < |parts| && j < |parts|
    ensures Hit(parts, done + [u], j) <==> Hit(parts, done, j) || j == u || Overlapping(parts[j], parts[u])
  {
    assert u in done + [u];
    assert forall v :: v in done ==> v in done + [u];
    assert forall v :: v in done + [u] ==> v in done || v == u;
  }

  lemma ZeroTouchesLess(p: Partition, q: Partition, now: Partition, used: Partition)
    requires p.offset + p.size < U_INT_SPAN && q.offset + q.size < U_INT_SPAN
    requires (now == p || now == Zero(p)) && (used == q || used == Zero(q))
    ensures Touches(now, used.offset, End(used)) ==> Overlapping(p, q)
  {
  }

  lemma OneMore(parts: seq<Partition>, done: seq<nat>, u: nat, now: seq<Partition>)
    requires InRange(parts) && AllIn(parts, done + [u]) && AllIn(parts, done) && u < |parts|
    requires Disjoint(parts, done + [u])
    requires |now| == |parts| && Pruned(parts, done, now)
    ensures Pruned(parts, done + [u], PruneOne(now, u))
  {
    var next := PruneOne(now, u);
    assert u !in done ==> !Hit(parts, done, u) by {
      assert u in done + [u];
      assert forall v :: v in done ==> v in done + [u];
    }
    forall j | 0 <= j < |parts| ensures next[j] == if Hit(parts, done + [u], j) then Zero(parts[j]) else parts[j] {
      HitSnoc(parts, done, u, j);
      ZeroTouchesLess(parts[j], parts[u], now[j], now[u]);
    }
  }

  lemma TakeOne(parts: seq<Partition>, done: seq<nat>, used: seq<nat>)
    requires AllIn(parts, done) && AllIn(parts, used) && used != []
    ensures used[0] in used && done + [used[0]] + used[1..] == done + used
    ensures forall v :: v in done + [used[0]] ==> v in done + used
    ensures AllIn(parts, done + [used[0]]) && AllIn(parts, used[1..])
  {
    assert forall v :: v in used[1..] ==> v in used;
    assert forall v :: v in done + [used[0]] ==> v in done || v == used[0];
    forall v | v in done + [used[0]] ensures v in done + used {
      if v in done {
        var k :| 0 <= k < |done| && done[k] == v;
        assert (done + used)[k] == v;
      } else {
        assert (done + used)[|done|] == v;
      }
    }
  }

  lemma {:induction false} PruneFrom(parts: seq<Partition>, done: seq<nat>, used: seq<nat>, now: seq<Partition>)
    requires InRange(parts) && AllIn(parts, done + used) && AllIn(parts, done) && AllIn(parts, used)
    requires Disjoint(parts, done + used)
    requires |now| == |parts| && Pruned(parts, done, now)
    ensures Pruned(parts, done + used, Prune(now, used))
    decreases |used|
  {
    if used == [] {
      assert done + [] == done;
    } else {
      var u := used[0];
      TakeOne(parts, done, used);
      OneMore(parts, done, u, now);
      PruneFrom(parts, done + [u], used[1..], PruneOne(now, u));
    }
  }

  /** If the partitions in use do not overlap each other, prune leaves size 0 on exactly those in use and
      those that overlap one of them, and leaves every other partition alone. */
  lemma PruneIsExact(parts: seq<Partition>, used: seq<nat>)
    requires InRange(parts) && AllIn(parts, used) && Disjoint(parts, used)
    ensures Pruned(parts, used, Prune(parts, used))
  {
    assert [] + used == used;
    PruneFrom(parts, [], used, parts);
  }

  /** Neither the order of the arguments matters nor whether one is repeated. */
  lemma OrderDoesNotMatter(parts: seq<Partition>, used: seq<nat>, again: seq<nat>)
    requires InRange(parts) && AllIn(parts, used) && Disjoint(parts, used)
    requires forall u :: u in used <==> u in again
    ensures AllIn(parts, again) && Prune(parts, used) == Prune(parts, again)
  {
    PruneIsExact(parts, used);
    PruneIsExact(parts, again);
    forall j | 0 <= j < |parts| ensures Hit(parts, used, j) <==> Hit(parts, again, j) {
    }
  }

  // ---------------------------------------------------------------- in sectors

  /** Sector x belongs to the partition. */
  predicate Holds(p: Partition, x: nat) {
    p.offset <= x < p.offset + p.size
  }

  /** Some sector belongs to both. */
  ghost predicate Shares(a: Partition, b: Partition) {
    exists x: nat :: Holds(a, x) && Holds(b, x)
  }

  /** Of partitions with a size the test finds exactly those that share a sector. One without a size counts if it lies
      behind the first sector of the other and before its end. */
  lemma OverlapIsShared(a: Partition, b: Partition)
    requires a.offset + a.size < U_INT_SPAN && b.offset + b.size < U_INT_SPAN
    ensures a.size > 0 && b.size > 0 ==> (Overlapping(a, b) <==> Shares(a, b))
    ensures b.size == 0 ==> (Overlapping(a, b) <==> Holds(a, b.offset) && b.offset != a.offset)
    ensures a.size == 0 ==> (Overlapping(a, b) <==> Holds(b, a.offset) && a.offset != b.offset)
  {
    if a.size > 0 && b.size > 0 && Overlapping(a, b) {
      var x := if a.offset < b.offset then b.offset else a.offset;
      assert Holds(a, x) && Holds(b, x);
    }
  }

  predicate Sized(parts: seq<Partition>) {
    forall j :: 0 <= j < |parts| ==> parts[j].size > 0
  }

  /** Partitions with a size, of which those in use have no sector in common: prune leaves each where it is, and takes
      the size of exactly those in use and those that share a sector with one in use. */
  lemma PruneInSectors(parts: seq<Partition>, used: seq<nat>, j: nat)
    requires InRange(parts) && Sized(parts) && AllIn(parts, used) && j < |parts|
    requires forall a, b :: a in used && b in used && a != b ==> !Shares(parts[a], parts[b])
    ensures Prune(parts, used)[j].offset == parts[j].offset
    ensures var hit := j in used || exists u :: u in used && Shares(parts[j], parts[u]);
            Prune(parts, used)[j].size == if hit then 0 else parts[j].size
  {
    forall a: nat, b: nat | a < |parts| && b < |parts|
      ensures Overlapping(parts[a], parts[b]) <==> Shares(parts[a], parts[b])
    {
      OverlapIsShared(parts[a], parts[b]);
    }
    PruneIsExact(parts, used);
  }

  // ---------------------------------------------------------------- partitions in use that overlap

  ghost predicate AtMost(parts: seq<Partition>, used: seq<nat>, now: seq<Partition>)
    requires AllIn(parts, used) && |now| == |parts|
  {
    forall j :: 0 <= j < |parts| ==>
      (now[j] == parts[j] || now[j] == Zero(parts[j])) && (now[j] != parts[j] ==> Hit(parts, used, j))
  }

  lemma {:induction false} PruneAtMost(parts: seq<Partition>, done: seq<nat>, used: seq<nat>, now: seq<Partition>)
    requires InRange(parts) && AllIn(parts, done + used) && AllIn(parts, done) && AllIn(parts, used)
    requires |now| == |parts| && AtMost(parts, done, now)
    ensures AtMost(parts, done + used, Prune(now, used))
    decreases |used|
  {
    if used == [] {
      assert done + [] == done;
    } else {
      var u := used[0];
      TakeOne(parts, done, used);
      var next := PruneOne(now, u);
      forall j | 0 <= j < |parts| ensures (next[j] == parts[j] || next[j] == Zero(parts[j]))
                                          && (next[j] != parts[j] ==> Hit(parts, done + [u], j)) {
        HitSnoc(parts, done, u, j);
        ZeroTouchesLess(parts[j], parts[u], now[j], now[u]);
      }
      PruneAtMost(parts, done + [u], used[1..], next);
    }
  }

  /** Whatever the partitions in use, prune never touches one that is neither in use nor overlaps one. */
  lemma NeverTooMuch(parts: seq<Partition>, used: seq<nat>, j: nat)
    requires InRange(parts) && AllIn(parts, used) && j < |parts| && !Hit(parts, used, j)
    ensures Prune(parts, used)[j] == parts[j]
  {
    assert [] + used == used;
    PruneAtMost(parts, [], used, parts);
  }

  /** But where they overlap, it may prune too little, and the order then matters: the second one has size
      0 by the time its turn comes, and what only it overlaps stays. */
  lemma OverlapsAreMissed()
    ensures var parts := [Partition(0, 10), Partition(5, 10), Partition(12, 8)];
            && Hit(parts, [0, 1], 2) && Prune(parts, [0, 1])[2].size == 8
            && Prune(parts, [1, 0])[2].size == 0
  {
    var parts := [Partition(0, 10), Partition(5, 10), Partition(12, 8)];
    assert 1 in [0, 1] && Overlapping(parts[2], parts[1]);
    var a := PruneOne(parts, 0);
    assert a[1] == Partition(5, 0) && a[2] == parts[2];
    var b := PruneOne(a, 1);
    assert b[2] == parts[2];
    assert [0, 1][1..] == [1] && [1][1..] == [];
    var c := PruneOne(parts, 1);
    assert c[2] == Partition(12, 0) && c[0] == Partition(0, 0);
    var d := PruneOne(c, 0);
    assert d[2].size == 0;
    assert [1, 0][1..] == [0] && [0][1..] == [];
  }

  lemma PruneTwo(parts: seq<Partition>, a: nat, b: nat)
    requires a < |parts| && b < |parts|
    ensures Prune(parts, [a, b]) == PruneOne(PruneOne(parts, a), b)
  {
    var first := PruneOne(parts, a);
    assert [a, b][1..] == [b] && [b][1..] == [];
    assert Prune(PruneOne(first, b), []) == PruneOne(first, b);
    assert Prune(first, [b]) == PruneOne(first, b);
  }

  lemma HitTwo(parts: seq<Partition>, a: nat, b: nat, j: nat)
    requires a < |parts| && b < |parts| && j < |parts|
    ensures Hit(parts, [a, b], j) <==>
        j == a || j == b || Overlapping(parts[j], parts[a]) || Overlapping(parts[j], parts[b])
  {
    assert a in [a, b] && b in [a, b];
  }

  /** Partition j is one that b alone reaches: it has a size and overlaps b, but neither a nor the point where b
      starts. */
  predicate OnlySecondReaches(parts: seq<Partition>, a: nat, b: nat, j: nat)
    requires a < |parts| && b < |parts| && j < |parts|
  {
    && j != a && j != b && parts[j].size > 0 && Overlapping(parts[j], parts[b])
    && !Overlapping(parts[j], parts[a]) && !Touches(parts[j], parts[b].offset, parts[b].offset)
  }

  predicate ExactAt(parts: seq<Partition>, a: nat, b: nat, j: nat, now: Partition)
    requires a < |parts| && b < |parts| && j < |parts|
  {
    now == if j == a || j == b || Overlapping(parts[j], parts[a]) || Overlapping(parts[j], parts[b])
           then Zero(parts[j]) else parts[j]
  }

  lemma TwoAt(parts: seq<Partition>, a: nat, b: nat, j: nat)
    requires InRange(parts) && a < |parts| && b < |parts| && a != b && j < |parts|
    ensures ExactAt(parts, a, b, j, PruneOne(PruneOne(parts, a), b)[j])
       <==> !(Overlapping(parts[a], parts[b]) && OnlySecondReaches(parts, a, b, j))
  {
    var first := PruneOne(parts, a);
    assert first[b] == if Overlapping(parts[b], parts[a]) then Zero(parts[b]) else parts[b];
  }

  /** Two partitions in use: prune is exact if and only if they do not overlap or there is no partition that only
      the second reaches. */
  lemma TwoInUseExactly(parts: seq<Partition>, a: nat, b: nat)
    requires InRange(parts) && a < |parts| && b < |parts| && a != b
    ensures Pruned(parts, [a, b], Prune(parts, [a, b])) <==>
            !Overlapping(parts[a], parts[b]) || forall j :: 0 <= j < |parts| ==> !OnlySecondReaches(parts, a, b, j)
  {
    PruneTwo(parts, a, b);
    var now := Prune(parts, [a, b]);
    forall j | 0 <= j < |parts|
      ensures now[j] == (if Hit(parts, [a, b], j) then Zero(parts[j]) else parts[j])
         <==> !(Overlapping(parts[a], parts[b]) && OnlySecondReaches(parts, a, b, j))
    {
      HitTwo(parts, a, b, j);
      TwoAt(parts, a, b, j);
    }
  }

  // ---------------------------------------------------------------- any number of them

  /** What a partition in use cuts when its turn comes. */
  datatype Span = Span(start: nat, end: nat)

  predicate Cut(p: Partition, spans: seq<Span>) {
    exists k :: 0 <= k < |spans| && Touches(p, spans[k].start, spans[k].end)
  }

  /** The greedy pass over the partitions in use: one that has not been named before and that no span so far cuts
      still has its size, and its whole extent counts; of any other only the point where it starts does. */
  function Spans(parts: seq<Partition>, used: seq<nat>): (r: seq<Span>)
    requires AllIn(parts, used)
    ensures |r| == |used|
    decreases |used|
  {
    if used == [] then []
    else
      var before, u := used[..|used| - 1], used[|used| - 1];
      assert u in used && forall v :: v in before ==> v in used;
      var spans := Spans(parts, before);
      var p := parts[u];
      spans + [Span(p.offset, if u in before || Cut(p, spans) then p.offset else End(p))]
  }

  predicate Taken(parts: seq<Partition>, used: seq<nat>, j: nat)
    requires AllIn(parts, used) && j < |parts|
  {
    j in used || Cut(parts[j], Spans(parts, used))
  }

  predicate TakenOff(parts: seq<Partition>, used: seq<nat>, now: seq<Partition>)
    requires AllIn(parts, used) && |now| == |parts|
  {
    forall j :: 0 <= j < |parts| ==> now[j] == if Taken(parts, used, j) then Zero(parts[j]) else parts[j]
  }

  lemma CutSnoc(p: Partition, spans: seq<Span>, s: Span)
    ensures Cut(p, spans + [s]) <==> Cut(p, spans) || Touches(p, s.start, s.end)
  {
    var more := spans + [s];
    assert more[|spans|] == s && forall k :: 0 <= k < |spans| ==> more[k] == spans[k];
  }

  lemma TakenSnoc(parts: seq<Partition>, done: seq<nat>, u: nat, j: nat)
    requires AllIn(parts, done) && AllIn(parts, done + [u]) && u < |parts| && j < |parts|
    ensures var e := if Taken(parts, done, u) then parts[u].offset else End(parts[u]);
            Taken(parts, done + [u], j) <==> Taken(parts, done, j) || j == u || Touches(parts[j], parts[u].offset, e)
  {
    var more := done + [u];
    assert more[..|more| - 1] == done && more[|more| - 1] == u;
    assert j in more <==> j in done || j == u;
    var e := if Taken(parts, done, u) then parts[u].offset else End(parts[u]);
    CutSnoc(parts[j], Spans(parts, done), Span(parts[u].offset, e));
  }

  lemma TakeOneOff(parts: seq<Partition>, done: seq<nat>, u: nat, now: seq<Partition>)
    requires InRange(parts) && AllIn(parts, done) && AllIn(parts, done + [u]) && u < |parts|
    requires |now| == |parts| && TakenOff(parts, done, now)
    ensures TakenOff(parts, done + [u], PruneOne(now, u))
  {
    forall j | 0 <= j < |parts|
      ensures PruneOne(now, u)[j] == if Taken(parts, done + [u], j) then Zero(parts[j]) else parts[j]
    {
      TakenSnoc(parts, done, u, j);
    }
  }

  lemma {:induction false} TakesOff(parts: seq<Partition>, done: seq<nat>, used: seq<nat>, now: seq<Partition>)
    requires InRange(parts) && AllIn(parts, done + used) && AllIn(parts, done) && AllIn(parts, used)
    requires |now| == |parts| && TakenOff(parts, done, now)
    ensures TakenOff(parts, done + used, Prune(now, used))
    decreases |used|
  {
    if used == [] {
      assert done + [] == done;
    } else {
      var u := used[0];
      TakeOne(parts, done, used);
      TakeOneOff(parts, done, u, now);
      TakesOff(parts, done + [u], used[1..], PruneOne(now, u));
    }
  }

  /** Any number of partitions in use, overlapping or not, in any order: prune is exact if and only if every partition
      with a size that is in use or overlaps one in use is in use itself or cut by a span of the greedy pass. */
  lemma AnyInUseExactly(parts: seq<Partition>, used: seq<nat>)
    requires InRange(parts) && AllIn(parts, used)
    ensures Pruned(parts, used, Prune(parts, used)) <==>
            forall j :: 0 <= j < |parts| && parts[j].size > 0 && Hit(parts, used, j) ==> Taken(parts, used, j)
  {
    var now := Prune(parts, used);
    assert [] + used == used;
    TakesOff(parts, [], used, parts);
    forall j | 0 <= j < |parts|
      ensures now[j] == (if Hit(parts, used, j) then Zero(parts[j]) else parts[j]) <==>
              (parts[j].size > 0 && Hit(parts, used, j) ==> Taken(parts, used, j))
    {
      if !Hit(parts, used, j) {
        NeverTooMuch(parts, used, j);
      }
    }
  }

  // ---------------------------------------------------------------- prune and Overlap agree

  lemma {:induction false} LettersAre(parts: seq<Partition>, i: nat, j: nat, k: nat)
    requires i < |parts| <= MAXPARTITIONS && j <= |parts| && k < |parts|
    ensures Letter(k) in Letters(parts, i, j) <==> k >= j && k != i && Listed(parts[k], parts[i])
    decreases |parts| - j
  {
    if j < |parts| {
      LettersAre(parts, i, j + 1, k);
      var more := Letters(parts, i, j + 1);
      assert Letter(k) in ", " + more <==> Letter(k) in more;
    }
  }

  /** Letters with commas between. */
  function Commas(list: seq<nat>): string
    requires forall k :: 0 <= k < |list| ==> list[k] < MAXPARTITIONS
  {
    if list == [] then ""
    else if |list| == 1 then ["abcdefgh"[list[0]]]
    else ["abcdefgh"[list[0]]] + ", " + Commas(list[1..])
  }

  lemma CommasInFront(j: nat, more: seq<nat>)
    requires j < MAXPARTITIONS && forall k :: 0 <= k < |more| ==> more[k] < MAXPARTITIONS
    ensures forall k :: 0 <= k < |[j] + more| ==> ([j] + more)[k] < MAXPARTITIONS
    ensures Commas([j] + more) == Joined([Letter(j)], Commas(more))
  {
    assert ([j] + more)[1..] == more && Letter(j) == "abcdefgh"[j];
    assert Commas(more) == "" <==> more == [];
  }

  /** The partitions from j on that overlap partition i, in their order and each once. */
  ghost predicate Overlappers(parts: seq<Partition>, i: nat, j: nat, list: seq<nat>)
    requires i < |parts|
  {
    && (forall k :: 0 <= k < |list| ==> j <= list[k] < |parts|)
    && (forall k, m :: 0 <= k < m < |list| ==> list[k] < list[m])
    && (forall k: nat :: k in list <==> j <= k < |parts| && k != i && Listed(parts[k], parts[i]))
  }

  lemma OneMoreOverlapper(parts: seq<Partition>, i: nat, j: nat, more: seq<nat>)
    requires i < |parts| && j < |parts| && Overlappers(parts, i, j + 1, more)
    ensures Overlappers(parts, i, j, if j != i && Listed(parts[j], parts[i]) then [j] + more else more)
  {
    if j != i && Listed(parts[j], parts[i]) {
      var list := [j] + more;
      forall k: nat ensures k in list <==> k == j || k in more {
      }
    }
  }

  /** The letters stand in the order of the partitions, each once, with commas between. */
  lemma {:induction false} LettersInOrder(parts: seq<Partition>, i: nat, j: nat) returns (list: seq<nat>)
    requires i < |parts| <= MAXPARTITIONS && j <= |parts|
    ensures Overlappers(parts, i, j, list)
    ensures Letters(parts, i, j) == Commas(list)
    decreases |parts| - j
  {
    list := [];
    if j < |parts| {
      var more := LettersInOrder(parts, i, j + 1);
      OneMoreOverlapper(parts, i, j, more);
      CommasInFront(j, more);
      list := if j != i && Listed(parts[j], parts[i]) then [j] + more else more;
    }
  }

  /** With one partition in use, prune takes off that one and those that Overlap lists. */
  lemma PruneTakesListed(parts: seq<Partition>, i: nat, k: nat)
    requires InRange(parts) && i < |parts| <= MAXPARTITIONS && k < |parts|
    ensures Prune(parts, [i])[k] == if k == i || Letter(k) in Letters(parts, i, 0) then Zero(parts[k]) else parts[k]
  {
    LettersAre(parts, i, 0, k);
    assert [i][1..] == [];
  }
}
