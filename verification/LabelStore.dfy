/** labelcomp.c, l_dbstore: the compiled tables are one block of memory full of pointers into itself. For
    writing, every pointer is turned into an offset, in place, and afterwards turned back. Addresses count
    slots, and each field of a structure takes one slot. */
module LabelStore {

  const L_END := -1

  // struct l_word, l_constraints, l_accreditation_range and l_tables
  const WORD_SLOTS := 13
  const OUTPUT_NAME := 0
  const LONG_NAME := 1
  const SHORT_NAME := 2
  const CM_MASK := 6
  const CM_VALUE := 7
  const MK_MASK := 8
  const MK_VALUE := 9
  const CONSTRAINT_SLOTS := 4
  const RANGE_SLOTS := 3
  const NUM_ENTRIES := 0
  const WORDS_PTR := 3
  const REQUIRED_PTR := 4
  const CONSTRAINTS_PTR := 5
  const TABLE_SLOTS := 6

  /** The pointer variables outside the block, as slots: *l_max_classification, the compartments of the two
      minimum labels, the four arrays and the ranges by classification, and the five l_tables. */
  datatype Globals = Globals(maxClass: nat, clearance: nat, sensitivity: nat, long: nat, short: nat, inComp: nat,
                             inMark: nat, ranges: nat, tables: seq<nat>)

  /** The pointers that one step of l_dbstore adjusts; Fixed is anything else. */
  datatype Group =
    | Fixed
    | Clearance
    | Sensitivity
    | Classes
    | Words(t: nat)
    | WordsPtr(t: nat)
    | Required(t: nat)
    | Constraints(t: nat)
    | ConstraintsPtr(t: nat)

  /** What each slot is for: the step that adjusts it, and the turn of that step's loop. */
  datatype Tag = Tag(group: Group, item: int)

  /** The tables with combinations come first. */
  const WITH_COMBINATIONS := 3
  const ALL_TABLES := 5

  // ---------------------------------------------------------------- what the steps rely on

  predicate InClass(g: Globals, m: seq<int>, k: int, i: int)
    requires 0 <= g.long + i < |m| && 0 <= g.ranges + RANGE_SLOTS * i + 1 < |m|
  {
    || (m[g.long + i] != 0 && (k == g.long + i || k == g.short + i || k == g.inComp + i || k == g.inMark + i))
    || (m[g.ranges + RANGE_SLOTS * i + 1] != 0
        && (k == g.ranges + RANGE_SLOTS * i + 1 || k == g.ranges + RANGE_SLOTS * i + 2))
  }

  /** Exactly the live pointers of classification i are tagged so. */
  ghost predicate ClassAt(g: Globals, tags: seq<Tag>, m: seq<int>, i: int)
    requires |tags| == |m| && 0 <= g.long + i < |m| && 0 <= g.ranges + RANGE_SLOTS * i + 1 < |m|
  {
    forall k :: 0 <= k < |m| ==> (tags[k] == Tag(Classes, i) <==> InClass(g, m, k, i))
  }

  /** The arrays by classification lie one behind the other. */
  ghost predicate ClassesOk(g: Globals, tags: seq<Tag>, m: seq<int>) {
    && |tags| == |m| && g.maxClass < |m| && tags[g.maxClass].group == Fixed
    && var n := m[g.maxClass] + 1;
    && n >= 0
    && g.long + n <= g.short && g.short + n <= g.inComp && g.inComp + n <= g.inMark && g.inMark + n <= g.ranges
    && g.ranges + RANGE_SLOTS * n <= |m|
    && (forall i :: 0 <= i < n ==> ClassAt(g, tags, m, i))
    && (forall k :: 0 <= k < |m| && tags[k].group == Classes ==> 0 <= tags[k].item < n)
  }

  predicate InWord(m: seq<int>, at: int, k: int)
    requires 0 <= at && at + SHORT_NAME < |m|
  {
    || k == at + OUTPUT_NAME || k == at + LONG_NAME || (k == at + SHORT_NAME && m[at + SHORT_NAME] != 0)
    || k == at + CM_MASK || k == at + CM_VALUE || k == at + MK_MASK || k == at + MK_VALUE
  }

  ghost predicate WordAt(tags: seq<Tag>, m: seq<int>, t: nat, at: int, i: int)
    requires |tags| == |m| && 0 <= at && at + SHORT_NAME < |m|
  {
    forall k :: 0 <= k < |m| ==> (tags[k] == Tag(Words(t), i) <==> InWord(m, at, k))
  }

  /** The words of table t are an array in the block, behind the arrays of names by classification; l_words holds
      its address. */
  ghost predicate WordsOk(g: Globals, tags: seq<Tag>, m: seq<int>, base: int, t: nat) {
    && |tags| == |m| && t < |g.tables| && g.tables[t] + TABLE_SLOTS <= |m|
    && tags[g.tables[t] + NUM_ENTRIES].group == Fixed && tags[g.tables[t] + WORDS_PTR] == Tag(WordsPtr(t), 0)
    && var n, at := m[g.tables[t] + NUM_ENTRIES], m[g.tables[t] + WORDS_PTR] - base;
    && n >= 0 && at >= g.inComp && at + WORD_SLOTS * n <= |m|
    && (forall i :: 0 <= i < n ==> WordAt(tags, m, t, at + WORD_SLOTS * i, i))
    && (forall k :: 0 <= k < |m| && tags[k].group == Words(t) ==> 0 <= tags[k].item < n)
  }

  predicate InConstraint(at: int, k: int) {
    k == at + 1 || k == at + 2 || k == at + 3
  }

  ghost predicate ConstraintAt(tags: seq<Tag>, m: seq<int>, t: nat, at: int, i: int)
    requires |tags| == |m|
  {
    forall k :: 0 <= k < |m| ==> (tags[k] == Tag(Constraints(t), i) <==> InConstraint(at, k))
  }

  /** n constraints at at, followed by an L_END. */
  ghost predicate ListOk(tags: seq<Tag>, m: seq<int>, t: nat, at: int, n: nat) {
    && |tags| == |m| && at >= 0 && at + CONSTRAINT_SLOTS * n < |m|
    && m[at + CONSTRAINT_SLOTS * n] == L_END
    && (forall i :: 0 <= i <= n ==> tags[at + CONSTRAINT_SLOTS * i].group == Fixed)
    && (forall i :: 0 <= i < n ==>
          m[at + CONSTRAINT_SLOTS * i] != L_END && ConstraintAt(tags, m, t, at + CONSTRAINT_SLOTS * i, i))
    && (forall k :: 0 <= k < |m| && tags[k].group == Constraints(t) ==> 0 <= tags[k].item < n)
  }

  /** The constraints of table t are a list in the block; l_constraints holds its address. */
  ghost predicate ConstraintsOk(g: Globals, tags: seq<Tag>, m: seq<int>, base: int, t: nat, n: nat) {
    && |tags| == |m| && t < |g.tables| && g.tables[t] + TABLE_SLOTS <= |m|
    && tags[g.tables[t] + CONSTRAINTS_PTR] == Tag(ConstraintsPtr(t), 0)
    && ListOk(tags, m, t, m[g.tables[t] + CONSTRAINTS_PTR] - base, n)
  }

  /** The single pointer of a group. */
  ghost predicate OnlyAt(tags: seq<Tag>, k: nat, g: Group) {
    k < |tags| && forall j :: 0 <= j < |tags| ==> (tags[j].group == g <==> j == k)
  }

  // ---------------------------------------------------------------- the steps

  class Block {
    const mem: array<int>
    const g: Globals
    const base: int
    ghost const tags: seq<Tag>

    constructor (mem: array<int>, g: Globals, base: int, ghost tags: seq<Tag>)
      ensures this.mem == mem && this.g == g && this.base == base && this.tags == tags
    {
      this.mem, this.g, this.base, this.tags := mem, g, base, tags;
    }

    /** Adjust(ptr, incr) */
    method Adjust(k: nat, incr: int)
      requires k < mem.Length
      modifies mem
      ensures mem[k] == old(mem[k]) + incr
      ensures forall j :: 0 <= j < mem.Length && j != k ==> mem[j] == old(mem[j])
    {
      mem[k] := mem[k] + incr;
    }

    method AdjustClass(i: nat, incr: int)
      requires |tags| == mem.Length
      requires g.long + i < g.short && g.short + i < g.inComp && g.inComp + i < g.inMark && g.inMark + i < g.ranges
      requires g.ranges + RANGE_SLOTS * i + 2 < mem.Length
      requires ClassAt(g, tags, mem[..], i)
      modifies mem
      ensures forall k :: 0 <= k < mem.Length ==> mem[k] == old(mem[k]) + if tags[k] == Tag(Classes, i) then incr else 0
    {
      ghost var m := mem[..];
      if mem[g.long + i] != 0 {
        Adjust(g.long + i, incr);
        Adjust(g.short + i, incr);
        Adjust(g.inComp + i, incr);
        Adjust(g.inMark + i, incr);
      }
      if mem[g.ranges + RANGE_SLOTS * i + 1] != 0 {
        Adjust(g.ranges + RANGE_SLOTS * i + 1, incr);
        Adjust(g.ranges + RANGE_SLOTS * i + 2, incr);
      }
      forall k | 0 <= k < mem.Length ensures mem[k] == m[k] + if tags[k] == Tag(Classes, i) then incr else 0 {
        assert tags[k] == Tag(Classes, i) <==> InClass(g, m, k, i);
      }
    }

    /** The loop over the classifications. */
    method AdjustClasses(incr: int)
      requires ClassesOk(g, tags, mem[..])
      modifies mem
      ensures forall k :: 0 <= k < mem.Length ==> mem[k] == old(mem[k]) + if tags[k].group == Classes then incr else 0
    {
      ghost var m := mem[..];
      var i := 0;
      while i <= mem[g.maxClass]
        invariant 0 <= i <= m[g.maxClass] + 1
        invariant forall k :: 0 <= k < mem.Length ==>
                    mem[k] == m[k] + if tags[k].group == Classes && tags[k].item < i then incr else 0
      {
        ClassStays(g, tags, m, mem[..], i, incr);
        AdjustClass(i, incr);
        i := i + 1;
      }
    }

    method AdjustWord(ghost t: nat, at: nat, ghost i: int, incr: int)
      requires |tags| == mem.Length && at + WORD_SLOTS <= mem.Length && WordAt(tags, mem[..], t, at, i)
      modifies mem
      ensures forall k :: 0 <= k < mem.Length ==>
                mem[k] == old(mem[k]) + if tags[k] == Tag(Words(t), i) then incr else 0
    {
      ghost var m := mem[..];
      Adjust(at + OUTPUT_NAME, incr);
      Adjust(at + LONG_NAME, incr);
      if mem[at + SHORT_NAME] != 0 {
        Adjust(at + SHORT_NAME, incr);
      }
      Adjust(at + CM_MASK, incr);
      Adjust(at + CM_VALUE, incr);
      Adjust(at + MK_MASK, incr);
      Adjust(at + MK_VALUE, incr);
      forall k | 0 <= k < mem.Length ensures mem[k] == m[k] + if tags[k] == Tag(Words(t), i) then incr else 0 {
        assert tags[k] == Tag(Words(t), i) <==> InWord(m, at, k);
      }
    }

    /** AdjustWords: from the last word down. */
    method AdjustWords(t: nat, incr: int)
      requires WordsOk(g, tags, mem[..], base, t)
      modifies mem
      ensures forall k :: 0 <= k < mem.Length ==> mem[k] == old(mem[k]) + if tags[k].group == Words(t) then incr else 0
    {
      ghost var m := mem[..];
      var wp := mem[g.tables[t] + WORDS_PTR] - base;
      var i := mem[g.tables[t] + NUM_ENTRIES];
      while i > 0
        invariant 0 <= i <= m[g.tables[t] + NUM_ENTRIES]
        invariant forall k :: 0 <= k < mem.Length ==>
                    mem[k] == m[k] + if tags[k].group == Words(t) && tags[k].item >= i then incr else 0
      {
        i := i - 1;
        WordStays(g, tags, m, mem[..], base, t, wp + WORD_SLOTS * i, i, incr);
        AdjustWord(t, wp + WORD_SLOTS * i, i, incr);
      }
    }

    method AdjustConstraint(ghost t: nat, at: nat, ghost i: int, incr: int)
      requires |tags| == mem.Length && at + CONSTRAINT_SLOTS <= mem.Length && ConstraintAt(tags, mem[..], t, at, i)
      modifies mem
      ensures forall k :: 0 <= k < mem.Length ==>
                mem[k] == old(mem[k]) + if tags[k] == Tag(Constraints(t), i) then incr else 0
    {
      ghost var m := mem[..];
      Adjust(at + 1, incr);
      Adjust(at + 2, incr);
      Adjust(at + 3, incr);
      forall k | 0 <= k < mem.Length ensures mem[k] == m[k] + if tags[k] == Tag(Constraints(t), i) then incr else 0 {
        assert tags[k] == Tag(Constraints(t), i) <==> InConstraint(at, k);
      }
    }

    /** AdjustConstraints: up to the L_END. */
    method AdjustConstraints(t: nat, incr: int, ghost n: nat)
      requires ConstraintsOk(g, tags, mem[..], base, t, n)
      modifies mem
      ensures forall k :: 0 <= k < mem.Length ==>
                mem[k] == old(mem[k]) + if tags[k].group == Constraints(t) then incr else 0
    {
      ghost var m := mem[..];
      var start := mem[g.tables[t] + CONSTRAINTS_PTR] - base;
      var cp := start;
      ghost var i := 0;
      while mem[cp] != L_END
        invariant 0 <= i <= n && cp == start + CONSTRAINT_SLOTS * i
        invariant forall k :: 0 <= k < mem.Length ==>
                    mem[k] == m[k] + if tags[k].group == Constraints(t) && tags[k].item < i then incr else 0
        decreases n - i
      {
        assert i < n;
        AdjustConstraint(t, cp, i, incr);
        cp := cp + CONSTRAINT_SLOTS;
        i := i + 1;
      }
    }

    /** One pointer of its own. */
    method AdjustPointer(k: nat, ghost group: Group, incr: int)
      requires OnlyAt(tags, k, group) && |tags| == mem.Length
      modifies mem
      ensures forall j :: 0 <= j < mem.Length ==> mem[j] == old(mem[j]) + if tags[j].group == group then incr else 0
    {
      Adjust(k, incr);
    }

    // ------------------------------------------------------------ out and back

    /** The words and the word table pointer of table t: the words first, while the pointer is good. */
    method WordsOut(t: nat, ghost m: seq<int>, ghost s: set<Group>)
      requires TableOk(g, tags, m, base, t) && PointersOk(g, tags, m, base) && Offsets(tags, m, mem[..], s, base)
      requires Words(t) !in s && WordsPtr(t) !in s
      modifies mem
      ensures Offsets(tags, m, mem[..], s + {Words(t)} + {WordsPtr(t)}, base)
    {
      WordsOkIn(g, tags, m, base, mem[..], s, t);
      ghost var now := mem[..];
      AdjustWords(t, -base);
      StepOut(tags, m, now, mem[..], s, Words(t), base);
      now := mem[..];
      AdjustPointer(g.tables[t] + WORDS_PTR, WordsPtr(t), -base);
      StepOut(tags, m, now, mem[..], s + {Words(t)}, WordsPtr(t), base);
    }

    /** The way back: the pointer first. */
    method WordsBack(t: nat, ghost m: seq<int>, ghost s: set<Group>)
      requires TableOk(g, tags, m, base, t) && PointersOk(g, tags, m, base) && Offsets(tags, m, mem[..], s, base)
      requires Words(t) in s && WordsPtr(t) in s
      modifies mem
      ensures Offsets(tags, m, mem[..], s - {WordsPtr(t)} - {Words(t)}, base)
    {
      ghost var now := mem[..];
      AdjustPointer(g.tables[t] + WORDS_PTR, WordsPtr(t), base);
      StepBack(tags, m, now, mem[..], s, WordsPtr(t), base);
      now := mem[..];
      WordsOkIn(g, tags, m, base, now, s - {WordsPtr(t)}, t);
      AdjustWords(t, base);
      StepBack(tags, m, now, mem[..], s - {WordsPtr(t)}, Words(t), base);
    }

    method CombinationsOut(t: nat, ghost m: seq<int>, ghost s: set<Group>, ghost n: nat)
      requires CombinationsOk(g, tags, m, base, t, n) && Offsets(tags, m, mem[..], s, base)
      requires Required(t) !in s && Constraints(t) !in s && ConstraintsPtr(t) !in s
      modifies mem
      ensures Offsets(tags, m, mem[..], s + {Required(t)} + {Constraints(t)} + {ConstraintsPtr(t)}, base)
    {
      ghost var now := mem[..];
      AdjustPointer(g.tables[t] + REQUIRED_PTR, Required(t), -base);
      StepOut(tags, m, now, mem[..], s, Required(t), base);
      now := mem[..];
      ConstraintsOkIn(g, tags, m, base, now, s + {Required(t)}, t, n);
      AdjustConstraints(t, -base, n);
      StepOut(tags, m, now, mem[..], s + {Required(t)}, Constraints(t), base);
      now := mem[..];
      AdjustPointer(g.tables[t] + CONSTRAINTS_PTR, ConstraintsPtr(t), -base);
      StepOut(tags, m, now, mem[..], s + {Required(t)} + {Constraints(t)}, ConstraintsPtr(t), base);
    }

    method CombinationsBack(t: nat, ghost m: seq<int>, ghost s: set<Group>, ghost n: nat)
      requires CombinationsOk(g, tags, m, base, t, n) && Offsets(tags, m, mem[..], s, base)
      requires Required(t) in s && Constraints(t) in s && ConstraintsPtr(t) in s
      modifies mem
      ensures Offsets(tags, m, mem[..], s - {Required(t)} - {ConstraintsPtr(t)} - {Constraints(t)}, base)
    {
      ghost var now := mem[..];
      AdjustPointer(g.tables[t] + REQUIRED_PTR, Required(t), base);
      StepBack(tags, m, now, mem[..], s, Required(t), base);
      now := mem[..];
      AdjustPointer(g.tables[t] + CONSTRAINTS_PTR, ConstraintsPtr(t), base);
      StepBack(tags, m, now, mem[..], s - {Required(t)}, ConstraintsPtr(t), base);
      now := mem[..];
      ConstraintsOkIn(g, tags, m, base, now, s - {Required(t)} - {ConstraintsPtr(t)}, t, n);
      AdjustConstraints(t, base, n);
      StepBack(tags, m, now, mem[..], s - {Required(t)} - {ConstraintsPtr(t)}, Constraints(t), base);
    }

    /** The minimum labels and the classifications. */
    method ClassesOut(ghost m: seq<int>, ghost counts: seq<nat>)
      requires Reachable(g, tags, m, base, counts) && mem[..] == m
      modifies mem
      ensures Offsets(tags, m, mem[..], {Clearance} + {Sensitivity} + {Classes}, base)
    {
      AdjustPointer(g.clearance, Clearance, -base);
      StepOut(tags, m, m, mem[..], {}, Clearance, base);
      assert {} + {Clearance} == {Clearance};
      ghost var now := mem[..];
      AdjustPointer(g.sensitivity, Sensitivity, -base);
      StepOut(tags, m, now, mem[..], {Clearance}, Sensitivity, base);
      now := mem[..];
      ClassesOkIn(g, tags, m, base, now, {Clearance} + {Sensitivity});
      AdjustClasses(-base);
      StepOut(tags, m, now, mem[..], {Clearance} + {Sensitivity}, Classes, base);
    }

    method ClassesBack(ghost m: seq<int>, ghost counts: seq<nat>, ghost s: set<Group>)
      requires Reachable(g, tags, m, base, counts) && Offsets(tags, m, mem[..], s, base)
      requires Clearance in s && Sensitivity in s && Classes in s
      modifies mem
      ensures Offsets(tags, m, mem[..], s - {Clearance} - {Sensitivity} - {Classes}, base)
    {
      ghost var now := mem[..];
      AdjustPointer(g.clearance, Clearance, base);
      StepBack(tags, m, now, mem[..], s, Clearance, base);
      now := mem[..];
      AdjustPointer(g.sensitivity, Sensitivity, base);
      StepBack(tags, m, now, mem[..], s - {Clearance}, Sensitivity, base);
      now := mem[..];
      ClassesOkIn(g, tags, m, base, now, s - {Clearance} - {Sensitivity});
      AdjustClasses(base);
      StepBack(tags, m, now, mem[..], s - {Clearance} - {Sensitivity}, Classes, base);
    }

    /** All the pointers of table t. */
    method TableOut(t: nat, ghost m: seq<int>, ghost counts: seq<nat>)
      requires t < ALL_TABLES && Reachable(g, tags, m, base, counts) && Offsets(tags, m, mem[..], Below(t), base)
      modifies mem
      ensures Offsets(tags, m, mem[..], Below(t + 1), base)
    {
      assert TableOk(g, tags, m, base, t);
      NotYetBelow(t);
      WordsOut(t, m, Below(t));
      if t < WITH_COMBINATIONS {
        CombinationsOut(t, m, Below(t) + {Words(t)} + {WordsPtr(t)}, counts[t]);
      }
    }

    method TableBack(t: nat, ghost m: seq<int>, ghost counts: seq<nat>)
      requires t < ALL_TABLES && Reachable(g, tags, m, base, counts) && Offsets(tags, m, mem[..], From(t), base)
      modifies mem
      ensures Offsets(tags, m, mem[..], From(t + 1), base)
    {
      assert TableOk(g, tags, m, base, t);
      StillFrom(t);
      WordsBack(t, m, From(t));
      if t < WITH_COMBINATIONS {
        CombinationsBack(t, m, From(t) - {WordsPtr(t)} - {Words(t)}, counts[t]);
      }
    }

    /** l_dbstore: in the image that is written every pointer is an offset, and everything else is as in memory;
        afterwards the block is as it was before. The offset is inside the block or right behind it and not zero,
        so that null pointers, which are left alone, stay recognizable, unless it stands for a short
        classification name that is missing: that one is adjusted although it is null. */
    method Dbstore(ghost counts: seq<nat>) returns (image: seq<int>)
      requires WellFormed(g, tags, mem[..], base, counts)
      modifies mem
      ensures mem[..] == old(mem[..])
      ensures IsImage(tags, old(mem[..]), image, base)
      ensures forall k :: 0 <= k < mem.Length && tags[k].group != Fixed ==>
                (0 < image[k] <= mem.Length <==> !NoShort(g, tags, old(mem[..]), k))
    {
      ghost var m := mem[..];
      ClassesOut(m, counts);
      TableOut(0, m, counts);
      TableOut(1, m, counts);
      TableOut(2, m, counts);
      TableOut(3, m, counts);
      TableOut(4, m, counts);
      image := mem[..];
      ImageOk(g, tags, m, image, base);
      FirstFrom();
      ClassesBack(m, counts, Below(ALL_TABLES));
      TableBack(0, m, counts);
      TableBack(1, m, counts);
      TableBack(2, m, counts);
      TableBack(3, m, counts);
      TableBack(4, m, counts);
      RestoredOk(tags, m, mem[..], base);
    }
  }

  /** The groups that are offsets when the tables below t are done. */
  function Below(t: nat): set<Group>
    requires t <= ALL_TABLES
  {
    if t == 0 then {Clearance} + {Sensitivity} + {Classes}
    else if t > WITH_COMBINATIONS then Below(t - 1) + {Words(t - 1)} + {WordsPtr(t - 1)}
    else
      Below(t - 1) + {Words(t - 1)} + {WordsPtr(t - 1)}
      + {Required(t - 1)} + {Constraints(t - 1)} + {ConstraintsPtr(t - 1)}
  }

  /** The groups that are still offsets on the way back when the tables below t are done. */
  function From(t: nat): set<Group>
    requires t <= ALL_TABLES
  {
    Below(ALL_TABLES) - Below(t)
  }

  lemma BelowNext(t: nat, group: Group)
    requires t < ALL_TABLES
    ensures group in Below(t + 1) <==> group in Below(t) || (Known(group) && TableOf(group) == t)
  {
  }

  lemma BelowFirst(group: Group)
    ensures group in Below(0) <==> Known(group) && TableOf(group) < 0
  {
    assert Below(0) == {Clearance} + {Sensitivity} + {Classes};
  }

  predicate IsBelow(t: nat, group: Group) {
    Known(group) && TableOf(group) < t
  }

  /** Sets that grow by the groups of one table at a time. */
  lemma {:induction false} SetsGrow(sets: nat -> set<Group>, t: nat, group: Group)
    requires group in sets(0) <==> IsBelow(0, group)
    requires forall i: nat :: i < t ==>
               (group in sets(i + 1) <==> group in sets(i) || (Known(group) && TableOf(group) == i))
    ensures group in sets(t) <==> IsBelow(t, group)
  {
    if t > 0 {
      SetsGrow(sets, t - 1, group);
      assert group in sets(t - 1 + 1) <==> group in sets(t - 1) || (Known(group) && TableOf(group) == t - 1);
    }
  }

  lemma BelowGrows(sets: nat -> set<Group>, t: nat, group: Group)
    requires t < ALL_TABLES && sets(t) == Below(t) && sets(t + 1) == Below(t + 1)
    ensures group in sets(t + 1) <==> group in sets(t) || (Known(group) && TableOf(group) == t)
  {
    BelowNext(t, group);
  }

  lemma SetsAreBelow(sets: nat -> set<Group>, t: nat, group: Group)
    requires t <= ALL_TABLES && forall i: nat :: i <= ALL_TABLES ==> sets(i) == Below(i)
    ensures group in sets(t) <==> IsBelow(t, group)
  {
    BelowFirst(group);
    forall i: nat | i < t
      ensures group in sets(i + 1) <==> group in sets(i) || (Known(group) && TableOf(group) == i)
    {
      BelowGrows(sets, i, group);
    }
    SetsGrow(sets, t, group);
  }

  lemma BelowIs(t: nat, group: Group)
    requires t <= ALL_TABLES
    ensures group in Below(t) <==> IsBelow(t, group)
  {
    SetsAreBelow((i: nat) => if i <= ALL_TABLES then Below(i) else {}, t, group);
  }

  lemma FromIs(t: nat, group: Group)
    requires t <= ALL_TABLES
    ensures group in From(t) <==> Known(group) && TableOf(group) >= t
  {
    BelowIs(ALL_TABLES, group);
    BelowIs(t, group);
  }

  lemma NotYetBelow(t: nat)
    requires t < ALL_TABLES
    ensures Words(t) !in Below(t) && WordsPtr(t) !in Below(t)
    ensures Required(t) !in Below(t) && Constraints(t) !in Below(t) && ConstraintsPtr(t) !in Below(t)
  {
    BelowIs(t, Words(t));
    BelowIs(t, WordsPtr(t));
    BelowIs(t, Required(t));
    BelowIs(t, Constraints(t));
    BelowIs(t, ConstraintsPtr(t));
  }

  lemma StillFrom(t: nat)
    requires t < ALL_TABLES
    ensures Words(t) in From(t) && WordsPtr(t) in From(t)
    ensures t < WITH_COMBINATIONS ==>
              && Required(t) in From(t) && Constraints(t) in From(t) && ConstraintsPtr(t) in From(t)
              && From(t) - {WordsPtr(t)} - {Words(t)} - {Required(t)} - {ConstraintsPtr(t)} - {Constraints(t)}
                 == From(t + 1)
    ensures t >= WITH_COMBINATIONS ==> From(t) - {WordsPtr(t)} - {Words(t)} == From(t + 1)
  {
    FromIs(t, Words(t));
    FromIs(t, WordsPtr(t));
    FromIs(t, Required(t));
    FromIs(t, Constraints(t));
    FromIs(t, ConstraintsPtr(t));
    assert Below(t + 1) == if t < WITH_COMBINATIONS
                           then Below(t) + {Words(t)} + {WordsPtr(t)}
                                + {Required(t)} + {Constraints(t)} + {ConstraintsPtr(t)}
                           else Below(t) + {Words(t)} + {WordsPtr(t)};
  }

  lemma FirstFrom()
    ensures Below(ALL_TABLES) - {Clearance} - {Sensitivity} - {Classes} == From(0)
    ensures Clearance in Below(ALL_TABLES) && Sensitivity in Below(ALL_TABLES) && Classes in Below(ALL_TABLES)
  {
    BelowIs(ALL_TABLES, Clearance);
    BelowIs(ALL_TABLES, Sensitivity);
    BelowIs(ALL_TABLES, Classes);
    assert Below(0) == {Clearance} + {Sensitivity} + {Classes};
  }

  /** Every pointer is an offset, and all else is as it is in memory. */
  predicate IsImage(tags: seq<Tag>, m: seq<int>, image: seq<int>, base: int) {
    && |tags| == |m| == |image|
    && forall k :: 0 <= k < |m| ==> image[k] == m[k] - if tags[k].group != Fixed then base else 0
  }

  lemma ImageOk(g: Globals, tags: seq<Tag>, m: seq<int>, image: seq<int>, base: int)
    requires PointersOk(g, tags, m, base) && Offsets(tags, m, image, Below(ALL_TABLES), base)
    requires forall k :: 0 <= k < |m| && ShortSlot(g, tags, k) ==> m[k] == 0 || PointsInto(m[k], m, base)
    ensures IsImage(tags, m, image, base)
    ensures forall k :: 0 <= k < |m| && tags[k].group != Fixed ==> (0 < image[k] <= |m| <==> !NoShort(g, tags, m, k))
  {
    OffsetsAreImage(g, tags, m, image, base);
  }

  /** When all steps are done, and only then, the block is its image. */
  lemma OffsetsAreImage(g: Globals, tags: seq<Tag>, m: seq<int>, image: seq<int>, base: int)
    requires PointersOk(g, tags, m, base)
    ensures Offsets(tags, m, image, Below(ALL_TABLES), base) <==> IsImage(tags, m, image, base)
  {
    BelowIs(ALL_TABLES, Fixed);
    forall k | 0 <= k < |m| ensures tags[k].group in Below(ALL_TABLES) <==> tags[k].group != Fixed {
      BelowIs(ALL_TABLES, tags[k].group);
    }
  }

  lemma RestoredOk(tags: seq<Tag>, m: seq<int>, now: seq<int>, base: int)
    requires Offsets(tags, m, now, From(ALL_TABLES), base)
    ensures now == m
  {
    forall k | 0 <= k < |m| ensures now[k] == m[k] {
      assert tags[k].group !in From(ALL_TABLES);
    }
  }

  function TableOf(group: Group): int {
    match group
    case Fixed => -1
    case Clearance => -1
    case Sensitivity => -1
    case Classes => -1
    case Words(t) => t
    case WordsPtr(t) => t
    case Required(t) => t
    case Constraints(t) => t
    case ConstraintsPtr(t) => t
  }

  lemma StepOut(tags: seq<Tag>, m: seq<int>, before: seq<int>, after: seq<int>, s: set<Group>, group: Group, base: int)
    requires Offsets(tags, m, before, s, base) && group !in s && group != Fixed && |after| == |before|
    requires forall k :: 0 <= k < |m| ==> after[k] == before[k] + if tags[k].group == group then -base else 0
    ensures Offsets(tags, m, after, s + {group}, base)
  {
  }

  lemma StepBack(tags: seq<Tag>, m: seq<int>, before: seq<int>, after: seq<int>, s: set<Group>, group: Group, base: int)
    requires Offsets(tags, m, before, s, base) && group in s && |after| == |before|
    requires forall k :: 0 <= k < |m| ==> after[k] == before[k] + if tags[k].group == group then base else 0
    ensures Offsets(tags, m, after, s - {group}, base)
  {
  }

  /** A slot that decides about classification i is tagged for i or not for a classification. */
  lemma ClassSlot(g: Globals, tags: seq<Tag>, m: seq<int>, i: nat, k: nat)
    requires ClassesOk(g, tags, m) && i <= m[g.maxClass] && (k == g.long + i || k == g.ranges + RANGE_SLOTS * i + 1)
    ensures tags[k].group == Classes ==> tags[k].item == i
  {
    if tags[k].group == Classes {
      var j := tags[k].item;
      assert ClassAt(g, tags, m, j);
      assert InClass(g, m, k, j);
    }
  }

  lemma ClassStays(g: Globals, tags: seq<Tag>, m: seq<int>, now: seq<int>, i: nat, incr: int)
    requires ClassesOk(g, tags, m) && i <= m[g.maxClass] && |now| == |m|
    requires forall k :: 0 <= k < |m| ==>
               now[k] == m[k] + if tags[k].group == Classes && tags[k].item < i then incr else 0
    ensures ClassAt(g, tags, now, i)
  {
    assert ClassAt(g, tags, m, i);
    ClassSlot(g, tags, m, i, g.long + i);
    ClassSlot(g, tags, m, i, g.ranges + RANGE_SLOTS * i + 1);
    forall k | 0 <= k < |m| ensures tags[k] == Tag(Classes, i) <==> InClass(g, now, k, i) {
      assert tags[k] == Tag(Classes, i) <==> InClass(g, m, k, i);
    }
  }

  lemma WordStays(g: Globals, tags: seq<Tag>, m: seq<int>, now: seq<int>, base: int, t: nat, at: nat, i: nat, incr: int)
    requires WordsOk(g, tags, m, base, t) && i < m[g.tables[t] + NUM_ENTRIES] && |now| == |m|
    requires at == m[g.tables[t] + WORDS_PTR] - base + WORD_SLOTS * i
    requires forall k :: 0 <= k < |m| ==>
               now[k] == m[k] + if tags[k].group == Words(t) && tags[k].item >= i + 1 then incr else 0
    ensures WordAt(tags, now, t, at, i)
  {
    assert WordAt(tags, m, t, at, i);
    var k := at + SHORT_NAME;
    if tags[k].group == Words(t) {
      var start, j := m[g.tables[t] + WORDS_PTR] - base, tags[k].item;
      assert WordAt(tags, m, t, start + WORD_SLOTS * j, j);
      assert InWord(m, start + WORD_SLOTS * j, k);
    }
    assert now[k] == m[k];
  }

  // ---------------------------------------------------------------- the whole block

  /** The groups that l_dbstore knows of. */
  predicate Known(group: Group) {
    match group
    case Fixed => false
    case Clearance => true
    case Sensitivity => true
    case Classes => true
    case Words(t) => t < ALL_TABLES
    case WordsPtr(t) => t < ALL_TABLES
    case Required(t) => t < WITH_COMBINATIONS
    case Constraints(t) => t < WITH_COMBINATIONS
    case ConstraintsPtr(t) => t < WITH_COMBINATIONS
  }

  ghost predicate TableOk(g: Globals, tags: seq<Tag>, m: seq<int>, base: int, t: nat) {
    WordsOk(g, tags, m, base, t) && OnlyAt(tags, g.tables[t] + WORDS_PTR, WordsPtr(t))
  }

  ghost predicate CombinationsOk(g: Globals, tags: seq<Tag>, m: seq<int>, base: int, t: nat, n: nat) {
    && ConstraintsOk(g, tags, m, base, t, n)
    && OnlyAt(tags, g.tables[t] + REQUIRED_PTR, Required(t))
    && OnlyAt(tags, g.tables[t] + CONSTRAINTS_PTR, ConstraintsPtr(t))
  }

  predicate PointsInto(p: int, m: seq<int>, base: int) {
    base < p <= base + |m|
  }

  /** A slot of the array of short classification names that is adjusted: the name itself need not be there. */
  predicate ShortSlot(g: Globals, tags: seq<Tag>, k: int)
    requires 0 <= k < |tags|
  {
    tags[k].group == Classes && g.short <= k < g.inComp
  }

  /** Every pointer that is adjusted points into the block or right behind it, where the end of the last range is
      when the strings fill the block; but never at the first slot, where *l_min_classification is. Nothing is
      said here of short classification names. */
  ghost predicate PointersOk(g: Globals, tags: seq<Tag>, m: seq<int>, base: int) {
    && base > 0 && |tags| == |m|
    && forall k :: 0 <= k < |m| && tags[k].group != Fixed ==>
         Known(tags[k].group) && (ShortSlot(g, tags, k) || PointsInto(m[k], m, base))
  }

  /** l_dbstore and l_dbload find their way through the block: every pointer that they adjust is tagged. */
  ghost predicate Reachable(g: Globals, tags: seq<Tag>, m: seq<int>, base: int, counts: seq<nat>) {
    && PointersOk(g, tags, m, base) && |g.tables| == ALL_TABLES && |counts| == WITH_COMBINATIONS
    && OnlyAt(tags, g.clearance, Clearance) && OnlyAt(tags, g.sensitivity, Sensitivity)
    && ClassesOk(g, tags, m)
    && (forall t :: 0 <= t < ALL_TABLES ==> TableOk(g, tags, m, base, t))
    && (forall t :: 0 <= t < WITH_COMBINATIONS ==> CombinationsOk(g, tags, m, base, t, counts[t]))
  }

  /** The compiled tables. Only the last classification of the file can be without a short name. */
  ghost predicate WellFormed(g: Globals, tags: seq<Tag>, m: seq<int>, base: int, counts: seq<nat>) {
    && Reachable(g, tags, m, base, counts)
    && forall k :: 0 <= k < |m| && ShortSlot(g, tags, k) ==> m[k] == 0 || PointsInto(m[k], m, base)
  }

  /** The short name is missing of a classification that has a long one. */
  predicate NoShort(g: Globals, tags: seq<Tag>, m: seq<int>, k: int)
    requires 0 <= k < |tags| == |m|
  {
    ShortSlot(g, tags, k) && m[k] == 0
  }

  /** The pointers of the groups in s are offsets, and the others are still addresses. */
  predicate Offsets(tags: seq<Tag>, m: seq<int>, now: seq<int>, s: set<Group>, base: int) {
    && |now| == |m| == |tags| && Fixed !in s
    && forall k :: 0 <= k < |m| ==> now[k] == m[k] - if tags[k].group in s then base else 0
  }

  /** A slot, of a short classification name aside, reads null as an offset exactly if it does as an address. */
  lemma NullStays(g: Globals, tags: seq<Tag>, m: seq<int>, base: int, now: seq<int>, s: set<Group>, k: nat)
    requires PointersOk(g, tags, m, base) && Offsets(tags, m, now, s, base) && k < |m|
    requires !(g.short <= k < g.inComp)
    ensures now[k] == 0 <==> m[k] == 0
  {
  }

  lemma ClassesOkIn(g: Globals, tags: seq<Tag>, m: seq<int>, base: int, now: seq<int>, s: set<Group>)
    requires ClassesOk(g, tags, m) && PointersOk(g, tags, m, base) && Offsets(tags, m, now, s, base)
    ensures ClassesOk(g, tags, now)
  {
    forall i | 0 <= i <= m[g.maxClass] ensures ClassAt(g, tags, now, i) {
      assert ClassAt(g, tags, m, i);
      NullStays(g, tags, m, base, now, s, g.long + i);
      NullStays(g, tags, m, base, now, s, g.ranges + RANGE_SLOTS * i + 1);
      forall k | 0 <= k < |m| ensures tags[k] == Tag(Classes, i) <==> InClass(g, now, k, i) {
        assert tags[k] == Tag(Classes, i) <==> InClass(g, m, k, i);
      }
    }
  }

  /** The words of a table can be reached while l_words is an address. */
  lemma WordsOkIn(g: Globals, tags: seq<Tag>, m: seq<int>, base: int, now: seq<int>, s: set<Group>, t: nat)
    requires WordsOk(g, tags, m, base, t) && PointersOk(g, tags, m, base) && Offsets(tags, m, now, s, base)
    requires WordsPtr(t) !in s
    ensures WordsOk(g, tags, now, base, t)
  {
    var n, at := m[g.tables[t] + NUM_ENTRIES], m[g.tables[t] + WORDS_PTR] - base;
    forall i | 0 <= i < n ensures WordAt(tags, now, t, at + WORD_SLOTS * i, i) {
      assert WordAt(tags, m, t, at + WORD_SLOTS * i, i);
      NullStays(g, tags, m, base, now, s, at + WORD_SLOTS * i + SHORT_NAME);
    }
  }

  lemma ConstraintsOkIn(g: Globals, tags: seq<Tag>, m: seq<int>, base: int, now: seq<int>, s: set<Group>, t: nat,
                        n: nat)
    requires ConstraintsOk(g, tags, m, base, t, n) && Offsets(tags, m, now, s, base)
    requires ConstraintsPtr(t) !in s
    ensures ConstraintsOk(g, tags, now, base, t, n)
  {
    var at := m[g.tables[t] + CONSTRAINTS_PTR] - base;
    forall i | 0 <= i < n
      ensures now[at + CONSTRAINT_SLOTS * i] != L_END && ConstraintAt(tags, now, t, at + CONSTRAINT_SLOTS * i, i)
    {
      assert ConstraintAt(tags, m, t, at + CONSTRAINT_SLOTS * i, i);
      assert tags[at + CONSTRAINT_SLOTS * i].group == Fixed;
    }
  }
}
