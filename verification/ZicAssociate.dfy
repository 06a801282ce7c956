/** zic.c: associate sorts the rules by name and attaches to every zone line the slice of rules that
    bear the name in its rule field. */
module ZicAssociate {
  import opened ZicTime

  /** strcmp order. */
  predicate StrLeq(a: string, b: string) {
    if a == [] then true
    else if b == [] then false
    else a[0] < b[0] || (a[0] == b[0] && StrLeq(a[1..], b[1..]))
  }

  lemma {:induction false} StrLeqAntisymmetric(a: string, b: string)
    requires StrLeq(a, b) && StrLeq(b, a)
    ensures a == b
    decreases |a|
  {
    if a != [] && b != [] {
      StrLeqAntisymmetric(a[1..], b[1..]);
      assert a == [a[0]] + a[1..] && b == [b[0]] + b[1..];
    }
  }

  /** All that qsort promises: the same rules in some order that is sorted by name. */
  predicate QsortMayGive(input: seq<Rule>, sorted: seq<Rule>) {
    && multiset(input) == multiset(sorted)
    && forall i, j :: 0 <= i < j < |sorted| ==> StrLeq(sorted[i].name, sorted[j].name)
  }

  /** The rules bearing a name, in input order. */
  function Named(rules: seq<Rule>, name: string): seq<Rule> {
    if rules == [] then []
    else (if rules[0].name == name then [rules[0]] else []) + Named(rules[1..], name)
  }

  lemma {:induction false} NamedCounts(rules: seq<Rule>, name: string, r: Rule)
    ensures multiset(Named(rules, name))[r] == if r.name == name then multiset(rules)[r] else 0
    decreases |rules|
  {
    if rules != [] {
      NamedCounts(rules[1..], name, r);
      assert rules == [rules[0]] + rules[1..];
    }
  }

  lemma NamedPermutes(a: seq<Rule>, b: seq<Rule>, name: string)
    requires multiset(a) == multiset(b)
    ensures multiset(Named(a, name)) == multiset(Named(b, name))
  {
    forall r: Rule
      ensures multiset(Named(a, name))[r] == multiset(Named(b, name))[r]
    {
      NamedCounts(a, name, r);
      NamedCounts(b, name, r);
    }
  }

  /** [first, first + count) are exactly the positions below base that bear the name. */
  predicate IsSlice(rules: seq<Rule>, base: nat, name: string, first: int, count: nat)
    requires base <= |rules|
  {
    && (count > 0 ==> 0 <= first && first + count <= base)
    && (count == 0 ==> first == -1)
    && forall k :: 0 <= k < base ==> (rules[k].name == name <==> first <= k < first + count)
  }

  lemma {:induction false} SliceIsNamed(rules: seq<Rule>, name: string, first: nat, count: nat)
    requires first + count <= |rules|
    requires forall k :: 0 <= k < |rules| ==> (rules[k].name == name <==> first <= k < first + count)
    ensures rules[first..first + count] == Named(rules, name)
    decreases |rules|
  {
    if rules == [] {
    } else if first > 0 {
      SliceIsNamed(rules[1..], name, first - 1, count);
      assert rules[1..][first - 1..first - 1 + count] == rules[first..first + count];
    } else if count > 0 {
      SliceIsNamed(rules[1..], name, 0, count - 1);
      assert rules[..count] == [rules[0]] + rules[1..][..count - 1];
    } else {
      SliceIsNamed(rules[1..], name, 0, 0);
    }
  }

  /** A group of equal names that ends at out is separated from everything after it. */
  lemma GroupIsClosed(rules: seq<Rule>, base: nat, out: nat)
    requires base < out <= |rules|
    requires forall i, j :: 0 <= i < j < |rules| ==> StrLeq(rules[i].name, rules[j].name)
    requires forall k :: base <= k < out ==> rules[k].name == rules[base].name
    requires out < |rules| ==> rules[out].name != rules[base].name
    ensures forall j :: out <= j < |rules| ==> rules[j].name != rules[base].name
  {
    forall j | out <= j < |rules|
      ensures rules[j].name != rules[base].name
    {
      if rules[j].name == rules[base].name {
        StrLeqAntisymmetric(rules[base].name, rules[out].name);
      }
    }
  }

  /** What a line must end up with. */
  predicate Attached(input: seq<Rule>, sorted: seq<Rule>, name: string, first: int, count: nat) {
    && (count == 0 ==> first == -1)
    && (count > 0 ==> 0 <= first && first + count <= |sorted|
                      && sorted[first..first + count] == Named(sorted, name)
                      && multiset(sorted[first..first + count]) == multiset(Named(input, name)))
    && (count == 0 <==> Named(input, name) == [])
  }

  lemma SliceIsAttached(input: seq<Rule>, sorted: seq<Rule>, name: string, first: int, count: nat)
    requires multiset(input) == multiset(sorted) && IsSlice(sorted, |sorted|, name, first, count)
    ensures Attached(input, sorted, name, first, count)
  {
    var f := if count > 0 then first else 0;
    SliceIsNamed(sorted, name, f, count);
    NamedPermutes(input, sorted, name);
    assert |multiset(Named(input, name))| == |Named(input, name)|;
    assert |multiset(Named(sorted, name))| == |Named(sorted, name)|;
  }

  /** The innermost loop of the grouping: give the group [base, out) to every line that names it. */
  method AttachGroup(sorted: seq<Rule>, base: nat, out: nat, zones: seq<string>, first: array<int>, count: array<nat>)
    requires base < out <= |sorted| && first.Length == count.Length == |zones|
    requires forall k :: base <= k < out ==> sorted[k].name == sorted[base].name
    requires forall k :: 0 <= k < base ==> sorted[k].name != sorted[base].name
    requires forall i :: 0 <= i < |zones| ==> IsSlice(sorted, base, zones[i], first[i], count[i])
    modifies first, count
    ensures forall i :: 0 <= i < |zones| ==> IsSlice(sorted, out, zones[i], first[i], count[i])
  {
    for i := 0 to |zones|
      invariant forall k :: 0 <= k < i ==> IsSlice(sorted, out, zones[k], first[k], count[k])
      invariant forall k :: i <= k < |zones| ==> first[k] == old(first[k]) && count[k] == old(count[k])
    {
      assert IsSlice(sorted, base, zones[i], first[i], count[i]);
      if zones[i] == sorted[base].name {
        first[i], count[i] := base, out - base;
      }
    }
  }

  /** zones[i] is the rule field of line i; first[i] and count[i] stand for z_rules and z_nrules, with
      -1 for NULL. sorted is what qsort made of the rules. */
  method Associate(input: seq<Rule>, sorted: seq<Rule>, zones: seq<string>, first: array<int>, count: array<nat>)
    requires QsortMayGive(input, sorted)
    requires first.Length == count.Length == |zones|
    modifies first, count
    ensures forall i :: 0 <= i < |zones| ==> Attached(input, sorted, zones[i], first[i], count[i])
  {
    for i := 0 to |zones|
      invariant forall k :: 0 <= k < i ==> first[k] == -1 && count[k] == 0
    {
      first[i], count[i] := -1, 0;
    }
    var base := 0;
    while base < |sorted|
      invariant base <= |sorted|
      invariant forall i :: 0 <= i < |zones| ==> IsSlice(sorted, base, zones[i], first[i], count[i])
      invariant forall k, j :: 0 <= k < base <= j < |sorted| ==> sorted[k].name != sorted[j].name
    {
      var out := base + 1;
      while out < |sorted| && sorted[base].name == sorted[out].name
        invariant base < out <= |sorted|
        invariant forall k :: base <= k < out ==> sorted[k].name == sorted[base].name
      {
        out := out + 1;
      }
      GroupIsClosed(sorted, base, out);
      AttachGroup(sorted, base, out, zones, first, count);
      base := out;
    }
    forall i | 0 <= i < |zones|
      ensures Attached(input, sorted, zones[i], first[i], count[i])
    {
      SliceIsAttached(input, sorted, zones[i], first[i], count[i]);
    }
  }

  /** Being without rules means naming none. */
  lemma {:induction false} NamedIsEmpty(rules: seq<Rule>, name: string)
    ensures Named(rules, name) == [] <==> forall r :: r in rules ==> r.name != name
    decreases |rules|
  {
    if rules != [] {
      NamedIsEmpty(rules[1..], name);
      assert rules == [rules[0]] + rules[1..];
    }
  }
}
