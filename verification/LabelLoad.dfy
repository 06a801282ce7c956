/** mandlib.c, l_dbload: the image that l_dbstore writes is read back into memory at another address, and every
    pointer in it is moved there. */
module LabelLoad {

  import opened LabelStore

  /** The block with every pointer moved, and nothing else. */
  function MovedBy(tags: seq<Tag>, m: seq<int>, shift: int): (r: seq<int>)
    requires |tags| == |m|
    ensures |r| == |m|
    ensures forall k :: 0 <= k < |m| ==> r[k] == m[k] + if tags[k].group != Fixed then shift else 0
  {
    seq(|m|, k requires 0 <= k < |m| => m[k] + if tags[k].group != Fixed then shift else 0)
  }

  // ---------------------------------------------------------------- the way through the block stays

  lemma MovedNull(g: Globals, tags: seq<Tag>, m: seq<int>, base: int, to: int, k: nat)
    requires PointersOk(g, tags, m, base) && to > 0 && k < |m| && !(g.short <= k < g.inComp)
    ensures MovedBy(tags, m, to - base)[k] == 0 <==> m[k] == 0
  {
  }

  lemma MovedClasses(g: Globals, tags: seq<Tag>, m: seq<int>, base: int, to: int, now: seq<int>)
    requires PointersOk(g, tags, m, base) && to > 0 && ClassesOk(g, tags, m) && now == MovedBy(tags, m, to - base)
    ensures ClassesOk(g, tags, now)
  {
    forall i | 0 <= i <= m[g.maxClass] ensures ClassAt(g, tags, now, i) {
      assert ClassAt(g, tags, m, i);
      MovedNull(g, tags, m, base, to, g.long + i);
      MovedNull(g, tags, m, base, to, g.ranges + RANGE_SLOTS * i + 1);
      forall k | 0 <= k < |m| ensures tags[k] == Tag(Classes, i) <==> InClass(g, now, k, i) {
        assert tags[k] == Tag(Classes, i) <==> InClass(g, m, k, i);
      }
    }
  }

  lemma MovedWords(g: Globals, tags: seq<Tag>, m: seq<int>, base: int, to: int, now: seq<int>, t: nat)
    requires PointersOk(g, tags, m, base) && to > 0 && WordsOk(g, tags, m, base, t)
    requires now == MovedBy(tags, m, to - base)
    ensures WordsOk(g, tags, now, to, t)
  {
    var n, at := m[g.tables[t] + NUM_ENTRIES], m[g.tables[t] + WORDS_PTR] - base;
    forall i | 0 <= i < n ensures WordAt(tags, now, t, at + WORD_SLOTS * i, i) {
      assert WordAt(tags, m, t, at + WORD_SLOTS * i, i);
      MovedNull(g, tags, m, base, to, at + WORD_SLOTS * i + SHORT_NAME);
    }
  }

  lemma MovedConstraint(tags: seq<Tag>, m: seq<int>, shift: int, now: seq<int>, t: nat, at: nat, i: int)
    requires |tags| == |m| && now == MovedBy(tags, m, shift) && at < |m| && tags[at].group == Fixed
    requires m[at] != L_END && ConstraintAt(tags, m, t, at, i)
    ensures now[at] != L_END && ConstraintAt(tags, now, t, at, i)
  {
  }

  lemma MovedList(tags: seq<Tag>, m: seq<int>, shift: int, now: seq<int>, t: nat, at: nat, n: nat)
    requires ListOk(tags, m, t, at, n) && now == MovedBy(tags, m, shift)
    ensures ListOk(tags, now, t, at, n)
  {
    assert tags[at + CONSTRAINT_SLOTS * n].group == Fixed;
    forall i | 0 <= i < n
      ensures now[at + CONSTRAINT_SLOTS * i] != L_END && ConstraintAt(tags, now, t, at + CONSTRAINT_SLOTS * i, i)
    {
      MovedConstraint(tags, m, shift, now, t, at + CONSTRAINT_SLOTS * i, i);
    }
  }

  lemma MovedConstraints(g: Globals, tags: seq<Tag>, m: seq<int>, base: int, to: int, now: seq<int>, t: nat, n: nat)
    requires ConstraintsOk(g, tags, m, base, t, n) && now == MovedBy(tags, m, to - base)
    ensures ConstraintsOk(g, tags, now, to, t, n)
  {
    var k := g.tables[t] + CONSTRAINTS_PTR;
    assert now[k] - to == m[k] - base;
    MovedList(tags, m, to - base, now, t, m[k] - base, n);
  }

  lemma MovedPointers(g: Globals, tags: seq<Tag>, m: seq<int>, base: int, to: int, now: seq<int>)
    requires PointersOk(g, tags, m, base) && to > 0 && now == MovedBy(tags, m, to - base)
    ensures PointersOk(g, tags, now, to)
  {
  }

  lemma MovedIsReachable(g: Globals, tags: seq<Tag>, m: seq<int>, base: int, to: int, counts: seq<nat>, now: seq<int>)
    requires Reachable(g, tags, m, base, counts) && to > 0 && now == MovedBy(tags, m, to - base)
    ensures Reachable(g, tags, now, to, counts)
  {
    MovedPointers(g, tags, m, base, to, now);
    MovedClasses(g, tags, m, base, to, now);
    forall t | 0 <= t < ALL_TABLES ensures TableOk(g, tags, now, to, t) {
      assert TableOk(g, tags, m, base, t);
      MovedWords(g, tags, m, base, to, now, t);
    }
    forall t | 0 <= t < WITH_COMBINATIONS ensures CombinationsOk(g, tags, now, to, t, counts[t]) {
      assert CombinationsOk(g, tags, m, base, t, counts[t]);
      MovedConstraints(g, tags, m, base, to, now, t, counts[t]);
    }
  }

  // ---------------------------------------------------------------- l_dbload

  /** Read the image of m, which was at wasAt, into b. Afterwards b is m with every pointer moved to where b is. */
  method Dbload(b: Block, ghost m: seq<int>, ghost wasAt: int, ghost counts: seq<nat>)
    requires Reachable(b.g, b.tags, m, wasAt, counts) && IsImage(b.tags, m, b.mem[..], wasAt) && b.base > 0
    modifies b.mem
    ensures b.mem[..] == MovedBy(b.tags, m, b.base - wasAt)
  {
    ghost var there := MovedBy(b.tags, m, b.base - wasAt);
    MovedIsReachable(b.g, b.tags, m, wasAt, b.base, counts, there);
    OffsetsAreImage(b.g, b.tags, there, b.mem[..], b.base);
    FirstFrom();
    b.ClassesBack(there, counts, Below(ALL_TABLES));
    b.TableBack(0, there, counts);
    b.TableBack(1, there, counts);
    b.TableBack(2, there, counts);
    b.TableBack(3, there, counts);
    b.TableBack(4, there, counts);
    RestoredOk(b.tags, there, b.mem[..], b.base);
  }

  /** Store at one address and load at another. */
  method StoreAndLoad(b: Block, c: Block, ghost counts: seq<nat>)
    requires WellFormed(b.g, b.tags, b.mem[..], b.base, counts) && b.mem != c.mem && b.mem.Length == c.mem.Length
    requires c.g == b.g && c.tags == b.tags && c.base > 0
    modifies b.mem, c.mem
    ensures b.mem[..] == old(b.mem[..])
    ensures c.mem[..] == MovedBy(b.tags, old(b.mem[..]), c.base - b.base)
  {
    ghost var m := b.mem[..];
    var image := b.Dbstore(counts);
    forall k | 0 <= k < c.mem.Length {
      c.mem[k] := image[k];
    }
    assert c.mem[..] == image && b.mem[..] == m;
    Dbload(c, m, b.base, counts);
  }

  // ---------------------------------------------------------------- what may be missing

  /** Classification i has a short name if it has a long one. */
  predicate Named(g: Globals, m: seq<int>, i: nat)
    requires g.long + i < |m| && g.short + i < |m|
  {
    m[g.long + i] != 0 ==> m[g.short + i] != 0
  }

  predicate AllNamed(g: Globals, tags: seq<Tag>, m: seq<int>)
    requires ClassesOk(g, tags, m)
  {
    forall i :: 0 <= i <= m[g.maxClass] ==> Named(g, m, i)
  }

  predicate NoneMissing(g: Globals, tags: seq<Tag>, m: seq<int>)
    requires |tags| == |m|
  {
    forall k :: 0 <= k < |m| ==> !NoShort(g, tags, m, k)
  }

  lemma ShortSlotOf(g: Globals, tags: seq<Tag>, m: seq<int>, k: nat) returns (i: nat)
    requires ClassesOk(g, tags, m) && k < |m| && ShortSlot(g, tags, k)
    ensures i <= m[g.maxClass] && k == g.short + i && m[g.long + i] != 0
  {
    i := tags[k].item;
    assert ClassAt(g, tags, m, i);
    assert InClass(g, m, k, i);
  }

  lemma SlotOfShort(g: Globals, tags: seq<Tag>, m: seq<int>, i: nat)
    requires ClassesOk(g, tags, m) && i <= m[g.maxClass] && m[g.long + i] != 0
    ensures ShortSlot(g, tags, g.short + i)
  {
    assert ClassAt(g, tags, m, i);
    assert InClass(g, m, g.short + i, i);
  }

  lemma NamedExactly(g: Globals, tags: seq<Tag>, m: seq<int>)
    requires ClassesOk(g, tags, m)
    ensures AllNamed(g, tags, m) <==> NoneMissing(g, tags, m)
  {
    if NoneMissing(g, tags, m) {
      forall i | 0 <= i <= m[g.maxClass] ensures Named(g, m, i) {
        if m[g.long + i] != 0 {
          SlotOfShort(g, tags, m, i);
          assert !NoShort(g, tags, m, g.short + i);
        }
      }
    }
    if AllNamed(g, tags, m) {
      forall k | 0 <= k < |m| ensures !NoShort(g, tags, m, k) {
        if ShortSlot(g, tags, k) {
          var i := ShortSlotOf(g, tags, m, k);
          assert Named(g, m, i);
        }
      }
    }
  }

  /** All the pointers in the image are offsets inside the block, and those of a missing name are not zero, if and
      only if every classification that has a long name has a short one. */
  lemma ImageIsGoodExactly(g: Globals, tags: seq<Tag>, m: seq<int>, base: int, counts: seq<nat>, image: seq<int>)
    requires WellFormed(g, tags, m, base, counts) && IsImage(tags, m, image, base)
    ensures (forall k :: 0 <= k < |m| && tags[k].group != Fixed ==> 0 < image[k] <= |m|) <==> AllNamed(g, tags, m)
  {
    NamedExactly(g, tags, m);
    OffsetsAreImage(g, tags, m, image, base);
    ImageOk(g, tags, m, image, base);
  }

  /** A block that is stored and loaded elsewhere is a compiled table there if and only if every classification that
      has a long name has a short one. Otherwise null becomes the distance of the two addresses. */
  lemma LoadedExactly(g: Globals, tags: seq<Tag>, m: seq<int>, base: int, counts: seq<nat>, to: int, now: seq<int>)
    requires WellFormed(g, tags, m, base, counts) && to > 0 && to != base && now == MovedBy(tags, m, to - base)
    ensures WellFormed(g, tags, now, to, counts) <==> AllNamed(g, tags, m)
    ensures forall k :: 0 <= k < |m| && NoShort(g, tags, m, k) ==> now[k] == to - base
  {
    NamedExactly(g, tags, m);
    MovedIsReachable(g, tags, m, base, to, counts, now);
    forall k | 0 <= k < |m| && ShortSlot(g, tags, k)
      ensures (now[k] == 0 || PointsInto(now[k], now, to)) <==> !NoShort(g, tags, m, k)
    {
    }
  }

  // ---------------------------------------------------------------- a block without a short name

  /** Tables without words and constraints, and one classification, which has no short name. The five l_tables are
      at 11, 17, 23, 29 and 35, and the three L_END at 41, 42 and 43. */
  const UNNAMED := Globals(1, 2, 3, 4, 5, 6, 7, 8, [11, 17, 23, 29, 35])
  const SLOTS := 45

  function TableTag(t: nat, field: int): Tag {
    if field == WORDS_PTR then Tag(WordsPtr(t), 0)
    else if t < WITH_COMBINATIONS && field == REQUIRED_PTR then Tag(Required(t), 0)
    else if t < WITH_COMBINATIONS && field == CONSTRAINTS_PTR then Tag(ConstraintsPtr(t), 0)
    else Tag(Fixed, 0)
  }

  function TagAt(k: nat): Tag {
    if k == 2 then Tag(Clearance, 0)
    else if k == 3 then Tag(Sensitivity, 0)
    else if 4 <= k < 8 then Tag(Classes, 0)
    else if 11 <= k < 41 then TableTag((k - 11) / TABLE_SLOTS, (k - 11) % TABLE_SLOTS)
    else Tag(Fixed, 0)
  }

  function SlotAt(k: nat, base: int): int {
    match TagAt(k).group
    case ConstraintsPtr(t) => base + 41 + t
    case Fixed => if 41 <= k < 44 then L_END else 0
    case Classes => if k == 5 then 0 else base + 44
    case _ => base + 44
  }

  function UnnamedTags(): (r: seq<Tag>)
    ensures |r| == SLOTS && forall k :: 0 <= k < SLOTS ==> r[k] == TagAt(k)
  {
    seq(SLOTS, k requires 0 <= k < SLOTS => TagAt(k))
  }

  function UnnamedBlock(base: int): (r: seq<int>)
    ensures |r| == SLOTS && forall k :: 0 <= k < SLOTS ==> r[k] == SlotAt(k, base)
  {
    seq(SLOTS, k requires 0 <= k < SLOTS => SlotAt(k, base))
  }

  lemma UnnamedClasses(tags: seq<Tag>, m: seq<int>, base: int)
    requires base > 0 && tags == UnnamedTags() && m == UnnamedBlock(base)
    ensures ClassesOk(UNNAMED, tags, m) && m[5] == 0
  {
    assert ClassAt(UNNAMED, tags, m, 0) by {
      forall k | 0 <= k < |m| ensures tags[k] == Tag(Classes, 0) <==> InClass(UNNAMED, m, k, 0) {
        assert tags[k] == TagAt(k) && m[4] == base + 44 && m[9] == 0;
      }
    }
    assert m[1] == 0;
    forall k | 0 <= k < |m| && tags[k].group == Classes ensures tags[k].item == 0 {
      assert tags[k] == TagAt(k);
    }
  }

  lemma UnnamedTable(tags: seq<Tag>, m: seq<int>, base: int, t: nat)
    requires base > 0 && tags == UnnamedTags() && m == UnnamedBlock(base) && t < ALL_TABLES
    ensures TableOk(UNNAMED, tags, m, base, t)
  {
    var at := 11 + TABLE_SLOTS * t;
    assert UNNAMED.tables[t] == at;
    forall k | 0 <= k < |m|
      ensures tags[k].group != Words(t) && (tags[k].group == WordsPtr(t) <==> k == at + WORDS_PTR)
    {
      assert tags[k] == TagAt(k);
    }
    assert m[at + NUM_ENTRIES] == 0 && m[at + WORDS_PTR] == base + 44;
  }

  lemma UnnamedCombinations(tags: seq<Tag>, m: seq<int>, base: int, t: nat)
    requires base > 0 && tags == UnnamedTags() && m == UnnamedBlock(base) && t < WITH_COMBINATIONS
    ensures CombinationsOk(UNNAMED, tags, m, base, t, 0)
  {
    var at := 11 + TABLE_SLOTS * t;
    assert UNNAMED.tables[t] == at;
    forall k | 0 <= k < |m|
      ensures tags[k].group != Constraints(t)
      ensures tags[k].group == Required(t) <==> k == at + REQUIRED_PTR
      ensures tags[k].group == ConstraintsPtr(t) <==> k == at + CONSTRAINTS_PTR
    {
      assert tags[k] == TagAt(k);
    }
    assert m[at + CONSTRAINTS_PTR] == base + 41 + t && m[41 + t] == L_END && tags[41 + t].group == Fixed;
  }

  lemma UnnamedPointers(tags: seq<Tag>, m: seq<int>, base: int)
    requires base > 0 && tags == UnnamedTags() && m == UnnamedBlock(base)
    ensures PointersOk(UNNAMED, tags, m, base)
    ensures forall k :: 0 <= k < |m| && ShortSlot(UNNAMED, tags, k) ==> m[k] == 0
    ensures OnlyAt(tags, 2, Clearance) && OnlyAt(tags, 3, Sensitivity)
  {
    forall k | 0 <= k < |m|
      ensures tags[k].group != Fixed ==>
                Known(tags[k].group) && (ShortSlot(UNNAMED, tags, k) || PointsInto(m[k], m, base))
      ensures ShortSlot(UNNAMED, tags, k) ==> m[k] == 0
      ensures (tags[k].group == Clearance <==> k == 2) && (tags[k].group == Sensitivity <==> k == 3)
    {
      assert tags[k] == TagAt(k) && m[k] == SlotAt(k, base);
    }
  }

  /** A block that the compiler may leave: it is well formed, and in its image the missing name is a negative
      offset. */
  lemma UnnamedIsStoredWrong(tags: seq<Tag>, m: seq<int>, base: int, image: seq<int>)
    requires base > 0 && tags == UnnamedTags() && m == UnnamedBlock(base) && IsImage(tags, m, image, base)
    ensures WellFormed(UNNAMED, tags, m, base, [0, 0, 0]) && !AllNamed(UNNAMED, tags, m) && image[5] == -base
  {
    UnnamedPointers(tags, m, base);
    UnnamedClasses(tags, m, base);
    forall t | 0 <= t < ALL_TABLES ensures TableOk(UNNAMED, tags, m, base, t) {
      UnnamedTable(tags, m, base, t);
    }
    forall t | 0 <= t < WITH_COMBINATIONS ensures CombinationsOk(UNNAMED, tags, m, base, t, [0, 0, 0][t]) {
      UnnamedCombinations(tags, m, base, t);
    }
    assert tags[5] == Tag(Classes, 0) && m[4] == base + 44 && !Named(UNNAMED, m, 0);
  }
}
