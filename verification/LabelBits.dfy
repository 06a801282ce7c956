/** labelcomp.c: parse_bits, the reader of bit lists such as "1 3-5 ~7". */
module LabelBits {

  import opened Machine

  // ---------------------------------------------------------------- numbers

  predicate IsDigit(c: char) {
    '0' <= c <= '9'
  }

  predicate AllDigits(ds: string) {
    forall i :: 0 <= i < |ds| ==> IsDigit(ds[i])
  }

  function Digit(c: char): nat
    requires IsDigit(c)
  {
    c as int - '0' as int
  }

  function Decimal(ds: string): nat
    requires AllDigits(ds)
  {
    if ds == "" then 0 else 10 * Decimal(ds[..|ds| - 1]) + Digit(ds[|ds| - 1])
  }

  const UINT_SPAN := 0x1_0000_0000

  /** CONVERT_TO_DECIMAL accumulates in an unsigned int. */
  function Number(ds: string): nat
    requires AllDigits(ds)
  {
    if ds == "" then 0 else (10 * Number(ds[..|ds| - 1]) + Digit(ds[|ds| - 1])) % UINT_SPAN
  }

  lemma WrappedStep(v: nat, w: nat, d: nat)
    requires w == v % UINT_SPAN
    ensures (10 * w + d) % UINT_SPAN == (10 * v + d) % UINT_SPAN
  {
    assert 10 * v + d == 10 * (v / UINT_SPAN) * UINT_SPAN + (10 * w + d);
  }

  /** A number is its decimal value modulo 2^32. */
  lemma {:induction false} NumberIsDecimal(ds: string)
    requires AllDigits(ds)
    ensures Number(ds) == Decimal(ds) % UINT_SPAN
    decreases |ds|
  {
    if ds != "" {
      var front := ds[..|ds| - 1];
      NumberIsDecimal(front);
      WrappedStep(Decimal(front), Number(front), Digit(ds[|ds| - 1]));
    }
  }

  function DigitsEnd(s: string, p: nat): (q: nat)
    requires p <= |s|
    ensures p <= q <= |s| && AllDigits(s[p..q]) && (q < |s| ==> !IsDigit(s[q]))
    decreases |s| - p
  {
    if p < |s| && IsDigit(s[p]) then
      var q := DigitsEnd(s, p + 1);
      assert s[p..q] == [s[p]] + s[p + 1..q];
      q
    else p
  }

  // ---------------------------------------------------------------- grammar

  /** [~]N or [~]N1-N2 with the digits as written, and whether a blank follows. */
  datatype Item = Item(on: bool, first: string, last: Option<string>, blank: bool)

  function ItemText(it: Item): string {
    (if it.on then "" else "~") + it.first + (if it.last.Some? then "-" + it.last.value else "")
    + (if it.blank then " " else "")
  }

  function Text(items: seq<Item>): string {
    if items == [] then "" else ItemText(items[0]) + Text(items[1..])
  }

  predicate ItemOk(it: Item, maxBit: nat) {
    && it.first != "" && AllDigits(it.first) && Number(it.first) <= maxBit
    && (it.last.Some? ==>
          it.last.value != "" && AllDigits(it.last.value) && Number(it.first) < Number(it.last.value) <= maxBit)
  }

  /** Items may stand side by side only where the next one begins with ~. */
  predicate ItemsOk(items: seq<Item>, maxBit: nat) {
    items != [] ==>
      && ItemOk(items[0], maxBit)
      && (|items| > 1 ==> items[0].blank || !items[1].on)
      && ItemsOk(items[1..], maxBit)
  }

  function Interval(lo: nat, hi: nat): (bits: set<nat>)
    ensures forall b :: b in bits <==> lo <= b <= hi
    decreases hi
  {
    if lo > hi then {} else if hi == 0 then {0} else Interval(lo, hi - 1) + {hi}
  }

  function Bits(it: Item): set<nat> {
    if AllDigits(it.first) && (it.last.Some? ==> AllDigits(it.last.value)) then
      Interval(Number(it.first), if it.last.Some? then Number(it.last.value) else Number(it.first))
    else
      {}
  }

  /** All bits listed. */
  function MaskOf(items: seq<Item>): set<nat> {
    if items == [] then {} else Bits(items[0]) + MaskOf(items[1..])
  }

  /** All bits listed without ~ in front. */
  function ValueOf(items: seq<Item>): set<nat> {
    if items == [] then {} else (if items[0].on then Bits(items[0]) else {}) + ValueOf(items[1..])
  }

  // ---------------------------------------------------------------- parsing

  /** The end of a bit number at p, None if there is none or it is too large. */
  function NumberEnd(s: string, p: nat, maxBit: nat): (r: Option<nat>)
    requires p <= |s|
    ensures r.Some? ==> p < r.value <= |s| && r.value == DigitsEnd(s, p) && Number(s[p..r.value]) <= maxBit
  {
    var q := DigitsEnd(s, p);
    if q == p || Number(s[p..q]) > maxBit then None else Some(q)
  }

  /** The end of a range whose first number ends at b; b itself without a minus sign. */
  function RangeEnd(s: string, a: nat, b: nat, maxBit: nat): (r: Option<nat>)
    requires a < b <= |s| && AllDigits(s[a..b])
    ensures r.Some? ==>
        b <= r.value <= |s| && (r.value == b || (b + 1 < r.value && s[b] == '-' && AllDigits(s[b + 1..r.value])))
  {
    if b < |s| && s[b] == '-' then
      match NumberEnd(s, b + 1, maxBit)
      case None => None
      case Some(c) => if Number(s[b + 1..c]) <= Number(s[a..b]) then None else Some(c)
    else
      Some(b)
  }

  /** One round of the loop: the item at p and the position behind it, or None. */
  function ItemAt(s: string, p: nat, maxBit: nat): (r: Option<(Item, nat)>)
    requires p < |s|
    ensures r.Some? ==> p < r.value.1 <= |s| && ItemOk(r.value.0, maxBit)
  {
    var a := if s[p] == '~' then p + 1 else p;
    match NumberEnd(s, a, maxBit)
    case None => None
    case Some(b) =>
      match RangeEnd(s, a, b, maxBit)
      case None => None
      case Some(c) =>
        var blank := c < |s| && s[c] == ' ';
        Some((Item(s[p] != '~', s[a..b], if c == b then None else Some(s[b + 1..c]), blank),
              if blank then c + 1 else c))
  }

  function ItemsAt(s: string, p: nat, maxBit: nat): (r: Option<seq<Item>>)
    requires p <= |s|
    decreases |s| - p
  {
    if p == |s| then Some([])
    else match ItemAt(s, p, maxBit)
         case None => None
         case Some((it, q)) =>
           match ItemsAt(s, q, maxBit)
           case None => None
           case Some(more) => Some([it] + more)
  }

  function Start(s: string): (p: nat)
    ensures p <= |s|
  {
    if s != "" && s[0] == ' ' then 1 else 0
  }

  /** A mask and a value as the set routines change them, bit by bit. */
  class BitPair {
    var mask: set<nat>
    var value: set<nat>

    constructor (mask: set<nat>, value: set<nat>)
      ensures this.mask == mask && this.value == value
    {
      this.mask, this.value := mask, value;
    }

    /** set_compartment and set_marking. */
    method SetBit(bit: nat, bitOn: bool)
      modifies this
      ensures mask == old(mask) + {bit} && value == if bitOn then old(value) + {bit} else old(value)
    {
      mask := mask + {bit};
      if bitOn {
        value := value + {bit};
      }
    }

    method SetRange(firstBit: nat, lastBit: nat, bitOn: bool)
      requires firstBit <= lastBit
      modifies this
      ensures mask == old(mask) + Interval(firstBit, lastBit)
      ensures value == if bitOn then old(value) + Interval(firstBit, lastBit) else old(value)
    {
      var bit := firstBit;
      ghost var done: set<nat> := {};
      while bit <= lastBit
        invariant firstBit <= bit <= lastBit + 1
        invariant forall b :: b in done <==> firstBit <= b < bit
        invariant mask == old(mask) + done
        invariant value == if bitOn then old(value) + done else old(value)
      {
        SetBit(bit, bitOn);
        done := done + {bit};
        bit := bit + 1;
      }
      assert done == Interval(firstBit, lastBit);
    }

    /** parse_bits: true exactly when the text is a list of items, and then every listed bit is added
        to the mask and every bit listed without ~ to the value. */
    method ParseBits(s: string, maxBit: nat) returns (ok: bool)
      modifies this
      ensures ok <==> ItemsAt(s, Start(s), maxBit).Some?
      ensures ok ==> mask == old(mask) + MaskOf(ItemsAt(s, Start(s), maxBit).value)
      ensures ok ==> value == old(value) + ValueOf(ItemsAt(s, Start(s), maxBit).value)
    {
      var p := Start(s);
      ghost var goal := ItemsAt(s, p, maxBit);
      while p < |s|
        invariant p <= |s|
        invariant goal.Some? <==> ItemsAt(s, p, maxBit).Some?
        invariant goal.Some? ==>
                    && old(mask) + MaskOf(goal.value) == mask + MaskOf(ItemsAt(s, p, maxBit).value)
                    && old(value) + ValueOf(goal.value) == value + ValueOf(ItemsAt(s, p, maxBit).value)
        decreases |s| - p
      {
        var good, bitOn, firstBit, lastBit, q := ScanItem(s, p, maxBit);
        if !good {
          return false;
        }
        SetRange(firstBit, lastBit, bitOn);
        p := q;
      }
      ok := true;
    }
  }

  lemma NumberSnoc(s: string, p: nat, q: nat)
    requires p <= q < |s| && AllDigits(s[p..q]) && IsDigit(s[q])
    ensures AllDigits(s[p..q + 1]) && Number(s[p..q + 1]) == (10 * Number(s[p..q]) + Digit(s[q])) % UINT_SPAN
  {
    var ds := s[p..q + 1];
    assert ds[..|ds| - 1] == s[p..q] && ds[|ds| - 1] == s[q];
  }

  /** CONVERT_TO_DECIMAL. */
  method ConvertToDecimal(s: string, p: nat) returns (d: nat, q: nat)
    requires p <= |s|
    ensures q == DigitsEnd(s, p) && d == Number(s[p..q])
  {
    d, q := 0, p;
    assert s[p..p] == "";
    while q < |s| && IsDigit(s[q])
      invariant p <= q <= |s| && DigitsEnd(s, q) == DigitsEnd(s, p)
      invariant AllDigits(s[p..q]) && d == Number(s[p..q])
      decreases |s| - q
    {
      NumberSnoc(s, p, q);
      d := (10 * d + Digit(s[q])) % UINT_SPAN;
      q := q + 1;
    }
  }

  method ScanNumber(s: string, p: nat, maxBit: nat) returns (good: bool, d: nat, q: nat)
    requires p <= |s|
    ensures good <==> NumberEnd(s, p, maxBit).Some?
    ensures good ==> NumberEnd(s, p, maxBit) == Some(q) && d == Number(s[p..q])
  {
    if p == |s| || !IsDigit(s[p]) {
      return false, 0, p;
    }
    d, q := ConvertToDecimal(s, p);
    good := d <= maxBit;
  }

  method ScanRange(s: string, a: nat, b: nat, firstBit: nat, maxBit: nat) returns (good: bool, lastBit: nat, q: nat)
    requires a < b <= |s| && AllDigits(s[a..b]) && firstBit == Number(s[a..b])
    ensures good <==> RangeEnd(s, a, b, maxBit).Some?
    ensures good ==> RangeEnd(s, a, b, maxBit) == Some(q) && firstBit <= lastBit
                     && lastBit == if q == b then firstBit else Number(s[b + 1..q])
  {
    good, lastBit, q := true, firstBit, b;
    if b < |s| && s[b] == '-' {
      good, lastBit, q := ScanNumber(s, b + 1, maxBit);
      good := good && lastBit > firstBit;
    }
  }

  /** The part of the loop that reads one item. */
  method ScanItem(s: string, p: nat, maxBit: nat) returns (good: bool, bitOn: bool, firstBit: nat, lastBit: nat, q: nat)
    requires p < |s|
    ensures good <==> ItemAt(s, p, maxBit).Some?
    ensures good ==> var (it, e) := ItemAt(s, p, maxBit).value;
                     && bitOn == it.on && q == e && firstBit <= lastBit && Bits(it) == Interval(firstBit, lastBit)
  {
    bitOn := s[p] != '~';
    lastBit := 0;
    var a := if bitOn then p else p + 1;
    good, firstBit, q := ScanNumber(s, a, maxBit);
    if !good {
      return;
    }
    good, lastBit, q := ScanRange(s, a, q, firstBit, maxBit);
    if good && q < |s| && s[q] == ' ' {
      q := q + 1;
    }
  }

  // ---------------------------------------------------------------- the accepted texts

  lemma {:induction false} DigitsEndAt(s: string, p: nat, q: nat)
    requires p <= q <= |s| && AllDigits(s[p..q]) && (q < |s| ==> !IsDigit(s[q]))
    ensures DigitsEnd(s, p) == q
    decreases q - p
  {
    if p < q {
      var ds := s[p..q];
      assert s[p] == ds[0] && s[p + 1..q] == ds[1..];
      DigitsEndAt(s, p + 1, q);
    }
  }

  lemma RangeReadsItsText(s: string, a: nat, b: nat, maxBit: nat)
    requires a < b <= |s| && AllDigits(s[a..b]) && RangeEnd(s, a, b, maxBit).Some?
    ensures var c := RangeEnd(s, a, b, maxBit).value;
            && s[b..c] == (if c == b then "" else "-" + s[b + 1..c])
            && (b < |s| && c < |s| && !IsDigit(s[b]) ==> !IsDigit(s[c]))
  {
    var c := RangeEnd(s, a, b, maxBit).value;
    if c != b {
      assert s[b..c] == [s[b]] + s[b + 1..c];
    }
  }

  lemma FourParts(s: string, p: nat, a: nat, b: nat, c: nat, q: nat)
    requires p <= a <= b <= c <= q <= |s|
    ensures s[p..q] == s[p..a] + s[a..b] + s[b..c] + s[c..q]
  {
    TwoParts(s, p, c, q);
    TwoParts(s, p, b, c);
    TwoParts(s, p, a, b);
  }

  lemma TwoParts(s: string, p: nat, a: nat, q: nat)
    requires p <= a <= q <= |s|
    ensures s[p..q] == s[p..a] + s[a..q]
  {
  }

  lemma TextOfParts(s: string, p: nat, a: nat, b: nat, c: nat, q: nat, it: Item)
    requires p <= a < b <= c <= q <= |s| && s[a..b] == it.first
    requires s[p..a] == if it.on then "" else "~"
    requires s[b..c] == if it.last.Some? then "-" + it.last.value else ""
    requires s[c..q] == if it.blank then " " else ""
    ensures s[p..q] == ItemText(it)
  {
    FourParts(s, p, a, b, c, q);
  }

  lemma OneChar(s: string, p: nat)
    requires p < |s|
    ensures s[p..p + 1] == [s[p]] && s[p..p] == ""
  {
  }

  lemma ItemParts(s: string, p: nat, maxBit: nat) returns (a: nat, b: nat, c: nat, it: Item, q: nat)
    requires p < |s| && ItemAt(s, p, maxBit).Some?
    ensures ItemAt(s, p, maxBit) == Some((it, q)) && p <= a < b <= c <= q <= |s| && s[a..b] == it.first
    ensures s[p..a] == if it.on then "" else "~"
    ensures AllDigits(s[a..b]) && RangeEnd(s, a, b, maxBit) == Some(c)
    ensures it.last == if c == b then None else Some(s[b + 1..c])
    ensures (b < |s| ==> !IsDigit(s[b])) && s[c..q] == if it.blank then " " else ""
    ensures !it.blank ==> q == c
  {
    a := if s[p] == '~' then p + 1 else p;
    b := NumberEnd(s, a, maxBit).value;
    c := RangeEnd(s, a, b, maxBit).value;
    it, q := ItemAt(s, p, maxBit).value.0, ItemAt(s, p, maxBit).value.1;
    OneChar(s, p);
    if q == c + 1 {
      OneChar(s, c);
    }
  }

  /** What an item was read from is its text. */
  lemma ItemReadsItsText(s: string, p: nat, maxBit: nat)
    requires p < |s| && ItemAt(s, p, maxBit).Some?
    ensures var (it, q) := ItemAt(s, p, maxBit).value;
            && s[p..q] == ItemText(it)
            && (q < |s| && !it.blank ==> !IsDigit(s[q]))
  {
    var a, b, c, it, q := ItemParts(s, p, maxBit);
    RangeReadsItsText(s, a, b, maxBit);
    TextOfParts(s, p, a, b, c, q, it);
  }

  lemma TextOfRest(s: string, p: nat, q: nat, items: seq<Item>)
    requires p <= q <= |s| && items != [] && s[p..q] == ItemText(items[0]) && s[q..] == Text(items[1..])
    ensures s[p..] == Text(items)
  {
    assert s[p..] == s[p..q] + s[q..];
  }

  lemma NeighboursFit(s: string, q: nat, it: Item, more: seq<Item>)
    requires q <= |s| && more != [] && s[q..] == Text(more) && more[0].first != "" && AllDigits(more[0].first)
    requires !it.blank && q < |s| ==> !IsDigit(s[q])
    ensures it.blank || !more[0].on
  {
    OnStartsWithDigit(more[0]);
    assert Text(more)[0] == ItemText(more[0])[0];
    assert s[q] == s[q..][0];
  }

  /** Every accepted text is the text of a well-formed list of items. */
  lemma {:induction false} AcceptedIsText(s: string, p: nat, maxBit: nat)
    requires p <= |s| && ItemsAt(s, p, maxBit).Some?
    ensures ItemsOk(ItemsAt(s, p, maxBit).value, maxBit) && s[p..] == Text(ItemsAt(s, p, maxBit).value)
    decreases |s| - p
  {
    if p < |s| {
      var items := ItemsAt(s, p, maxBit).value;
      var (it, q) := ItemAt(s, p, maxBit).value;
      var more := ItemsAt(s, q, maxBit).value;
      assert items[0] == it && items[1..] == more;
      ItemReadsItsText(s, p, maxBit);
      AcceptedIsText(s, q, maxBit);
      TextOfRest(s, p, q, items);
      if more != [] {
        NeighboursFit(s, q, it, more);
      }
    }
  }

  lemma OnStartsWithDigit(it: Item)
    requires it.first != "" && AllDigits(it.first)
    ensures ItemText(it) != "" && (it.on ==> ItemText(it)[0] == it.first[0] && IsDigit(ItemText(it)[0]))
    ensures !it.on ==> ItemText(it)[0] == '~'
  {
  }

  lemma NumberIsRead(s: string, p: nat, q: nat, ds: string, maxBit: nat)
    requires p <= q <= |s| && s[p..q] == ds && ds != "" && AllDigits(ds) && Number(ds) <= maxBit
    requires q < |s| ==> !IsDigit(s[q])
    ensures NumberEnd(s, p, maxBit) == Some(q)
  {
    DigitsEndAt(s, p, q);
  }

  lemma RangeIsRead(s: string, a: nat, b: nat, c: nat, it: Item, maxBit: nat)
    requires a < b <= c <= |s| && s[a..b] == it.first && ItemOk(it, maxBit)
    requires it.last.None? ==> c == b && (c < |s| ==> s[c] != '-')
    requires it.last.Some? ==> b < c && s[b] == '-' && s[b + 1..c] == it.last.value && (c < |s| ==> !IsDigit(s[c]))
    ensures RangeEnd(s, a, b, maxBit) == Some(c)
  {
    if it.last.Some? {
      NumberIsRead(s, b + 1, c, it.last.value, maxBit);
    }
  }

  lemma LaidOutIsRead(s: string, p: nat, a: nat, b: nat, c: nat, q: nat, it: Item, maxBit: nat)
    requires p <= a < b <= c <= q <= |s| && ItemOk(it, maxBit) && s[a..b] == it.first
    requires (s[p] == '~' <==> !it.on) && a == if it.on then p else p + 1
    requires it.last.None? ==> c == b
    requires it.last.Some? ==> b < c && s[b] == '-' && s[b + 1..c] == it.last.value
    requires if it.blank then q == c + 1 && s[c] == ' ' else q == c && (c < |s| ==> s[c] == '~')
    ensures ItemAt(s, p, maxBit) == Some((it, q))
  {
    NumberIsRead(s, a, b, it.first, maxBit);
    RangeIsRead(s, a, b, c, it, maxBit);
    Assembled(s, p, a, b, c, maxBit);
  }

  lemma Assembled(s: string, p: nat, a: nat, b: nat, c: nat, maxBit: nat)
    requires p < |s| && a == (if s[p] == '~' then p + 1 else p) <= |s| && NumberEnd(s, a, maxBit) == Some(b)
    requires RangeEnd(s, a, b, maxBit) == Some(c)
    ensures ItemAt(s, p, maxBit) ==
            Some((Item(s[p] != '~', s[a..b], if c == b then None else Some(s[b + 1..c]), c < |s| && s[c] == ' '),
                  if c < |s| && s[c] == ' ' then c + 1 else c))
  {
  }

  /** A well-formed item that stands at p, with nothing behind it that would continue it, is read. */
  lemma ItemIsRead(s: string, p: nat, it: Item, rest: string, maxBit: nat) returns (q: nat)
    requires p <= |s| && s[p..] == ItemText(it) + rest && ItemOk(it, maxBit)
    requires it.blank || rest == "" || rest[0] == '~'
    ensures p < |s| && q <= |s| && ItemAt(s, p, maxBit) == Some((it, q)) && s[q..] == rest
  {
    var a, b, c;
    a, b, c, q := ItemLayout(s, p, it, rest);
    if !it.blank && q < |s| {
      assert s[q] == s[q..][0];
    }
    LaidOutIsRead(s, p, a, b, c, q, it, maxBit);
  }

  /** Where the parts of an item stand. */
  lemma ItemLayout(s: string, p: nat, it: Item, rest: string) returns (a: nat, b: nat, c: nat, q: nat)
    requires p <= |s| && s[p..] == ItemText(it) + rest && it.first != "" && AllDigits(it.first)
    ensures p <= a < b <= c <= q <= |s| && s[q..] == rest && s[a..b] == it.first
    ensures (s[p] == '~' <==> !it.on) && a == if it.on then p else p + 1
    ensures it.last.None? ==> c == b
    ensures it.last.Some? ==> b < c && s[b] == '-' && s[b + 1..c] == it.last.value
    ensures if it.blank then q == c + 1 && s[c] == ' ' else q == c
  {
    var x := if it.on then "" else "~";
    var y := if it.last.Some? then "-" + it.last.value else "";
    var z := if it.blank then " " else "";
    a := p + |x|;
    b := a + |it.first|;
    c := b + |y|;
    q := c + |z|;
    PartsOf(s, p, x, it.first, y, z, rest);
    OnStartsWithDigit(it);
    assert s[p] == s[p..][0] == ItemText(it)[0];
    if it.last.Some? {
      DashedPart(s, b, c, it.last.value);
    }
    if it.blank {
      assert s[c] == s[c..q][0];
    }
  }

  lemma DashedPart(s: string, b: nat, c: nat, ds: string)
    requires b <= c <= |s| && s[b..c] == "-" + ds
    ensures b < c && s[b] == '-' && s[b + 1..c] == ds
  {
    assert s[b] == s[b..c][0];
    assert s[b + 1..c] == s[b..c][1..];
    assert ("-" + ds)[1..] == ds;
  }

  lemma PartsOf(s: string, p: nat, w: string, x: string, y: string, z: string, rest: string)
    requires p <= |s| && s[p..] == w + x + y + z + rest
    ensures var a := p + |w|;
            var b := a + |x|;
            var c := b + |y|;
            var q := c + |z|;
            q <= |s| && s[a..b] == x && s[b..c] == y && s[c..q] == z && s[q..] == rest
  {
    var t := w + x + y + z + rest;
    var a, b, c := |w|, |w| + |x|, |w| + |x| + |y|;
    assert t[a..b] == x && t[b..c] == y && t[c..c + |z|] == z && t[c + |z|..] == rest;
    assert s[p..][a..b] == s[p + a..p + b] && s[p..][b..c] == s[p + b..p + c];
    assert s[p..][c..c + |z|] == s[p + c..p + c + |z|] && s[p..][c + |z|..] == s[p + c + |z|..];
  }

  /** Every well-formed list of items is read back from its text. */
  lemma {:induction false} TextIsAccepted(s: string, p: nat, items: seq<Item>, maxBit: nat)
    requires p <= |s| && s[p..] == Text(items) && ItemsOk(items, maxBit)
    ensures ItemsAt(s, p, maxBit) == Some(items)
    decreases |items|
  {
    if items != [] {
      var it, rest := items[0], Text(items[1..]);
      if |items| > 1 && !it.blank {
        OnStartsWithDigit(items[1]);
        assert rest[0] == ItemText(items[1])[0];
      }
      var q := ItemIsRead(s, p, it, rest, maxBit);
      TextIsAccepted(s, q, items[1..], maxBit);
      assert [it] + items[1..] == items;
    } else {
      assert |s| == p;
    }
  }

  /** The accepted language: an optional blank and the text of a well-formed list of items, which the
      text determines. */
  lemma AcceptsExactly(s: string, items: seq<Item>, maxBit: nat)
    ensures ItemsAt(s, Start(s), maxBit) == Some(items) <==> s[Start(s)..] == Text(items) && ItemsOk(items, maxBit)
  {
    if ItemsAt(s, Start(s), maxBit) == Some(items) {
      AcceptedIsText(s, Start(s), maxBit);
    }
    if s[Start(s)..] == Text(items) && ItemsOk(items, maxBit) {
      TextIsAccepted(s, Start(s), items, maxBit);
    }
  }

  /** No bit beyond the limit is ever set, and the value stays within the mask. */
  lemma {:induction false} BitsWithinLimit(items: seq<Item>, maxBit: nat)
    requires ItemsOk(items, maxBit)
    ensures ValueOf(items) <= MaskOf(items) && forall b :: b in MaskOf(items) ==> b <= maxBit
    decreases |items|
  {
    if items != [] {
      BitsWithinLimit(items[1..], maxBit);
    }
  }

  // ---------------------------------------------------------------- printing a mask and a value

  function Digits(n: nat): (ds: string)
    ensures ds != "" && AllDigits(ds)
  {
    if n < 10 then ['0' + n as char] else Digits(n / 10) + ['0' + (n % 10) as char]
  }

  lemma {:induction false} DigitsDecimal(n: nat)
    ensures Decimal(Digits(n)) == n
  {
    if n >= 10 {
      DigitsDecimal(n / 10);
      assert Digits(n)[..|Digits(n)| - 1] == Digits(n / 10);
    } else {
      assert Digits(n)[..0] == "";
    }
  }

  lemma SmallNumber(ds: string)
    requires AllDigits(ds) && Decimal(ds) < UINT_SPAN
    ensures Number(ds) == Decimal(ds)
  {
    NumberIsDecimal(ds);
  }

  lemma OneBit(ds: string, on: bool, maxBit: nat)
    requires ds != "" && AllDigits(ds) && Number(ds) <= maxBit
    ensures ItemOk(Item(on, ds, None, true), maxBit) && Bits(Item(on, ds, None, true)) == {Number(ds)}
  {
  }

  lemma ConsMeans(it: Item, rest: seq<Item>, maxBit: nat)
    requires ItemOk(it, maxBit) && it.blank && ItemsOk(rest, maxBit)
    ensures ItemsOk([it] + rest, maxBit)
    ensures MaskOf([it] + rest) == Bits(it) + MaskOf(rest)
    ensures ValueOf([it] + rest) == (if it.on then Bits(it) else {}) + ValueOf(rest)
  {
    assert ([it] + rest)[1..] == rest;
  }

  /** spell writes every bit number up to the limit in decimal. */
  ghost predicate Spells(spell: nat -> string, maxBit: nat) {
    forall n: nat :: n <= maxBit ==> spell(n) != "" && AllDigits(spell(n)) && Number(spell(n)) == n
  }

  /** One item for every bit of the mask from k on: N if the value has it, ~N if not. */
  function ItemsFor(mask: set<nat>, value: set<nat>, spell: nat -> string, k: nat, maxBit: nat): seq<Item>
    decreases maxBit + 1 - k
  {
    if k > maxBit then []
    else
      var rest := ItemsFor(mask, value, spell, k + 1, maxBit);
      if k in mask then [Item(k in value, spell(k), None, true)] + rest else rest
  }

  function From(bits: set<nat>, k: nat): set<nat> {
    set b | b in bits && k <= b
  }

  lemma FromStep(bits: set<nat>, k: nat)
    ensures From(bits, k) == (if k in bits then {k} else {}) + From(bits, k + 1)
  {
  }

  lemma {:induction false} ItemsForMeans(mask: set<nat>, value: set<nat>, spell: nat -> string, k: nat, maxBit: nat)
    requires value <= mask && Spells(spell, maxBit) && forall b :: b in mask ==> b <= maxBit
    ensures var items := ItemsFor(mask, value, spell, k, maxBit);
            ItemsOk(items, maxBit) && MaskOf(items) == From(mask, k) && ValueOf(items) == From(value, k)
    decreases maxBit + 1 - k
  {
    if k > maxBit {
      assert From(mask, k) == {} && From(value, k) == {};
    } else {
      ItemsForMeans(mask, value, spell, k + 1, maxBit);
      FromStep(mask, k);
      FromStep(value, k);
      if k in mask {
        OneBit(spell(k), k in value, maxBit);
        ConsMeans(Item(k in value, spell(k), None, true), ItemsFor(mask, value, spell, k + 1, maxBit), maxBit);
      }
    }
  }

  /** Any mask within the limit with a value inside it can be written down, bit by bit, and is read
      back. */
  lemma ParseInvertsPrint(mask: set<nat>, value: set<nat>, spell: nat -> string, maxBit: nat)
    requires value <= mask && Spells(spell, maxBit) && forall b :: b in mask ==> b <= maxBit
    ensures var items := ItemsFor(mask, value, spell, 0, maxBit);
            && ItemsAt(Text(items), Start(Text(items)), maxBit) == Some(items)
            && MaskOf(items) == mask && ValueOf(items) == value
  {
    var items := ItemsFor(mask, value, spell, 0, maxBit);
    ItemsForMeans(mask, value, spell, 0, maxBit);
    assert From(mask, 0) == mask && From(value, 0) == value;
    if items != [] {
      OnStartsWithDigit(items[0]);
      assert Text(items)[0] == ItemText(items[0])[0];
    }
    assert Text(items)[0..] == Text(items);
    AcceptsExactly(Text(items), items, maxBit);
  }

  lemma DigitsSpell(maxBit: nat)
    requires maxBit < UINT_SPAN
    ensures Spells(Digits, maxBit)
  {
    forall n: nat | n <= maxBit
      ensures Number(Digits(n)) == n
    {
      DigitsDecimal(n);
      SmallNumber(Digits(n));
    }
  }

  /** The plain decimals are one way to spell the numbers. */
  lemma DecimalsAreReadBack(mask: set<nat>, value: set<nat>, maxBit: nat)
    requires value <= mask && maxBit < UINT_SPAN && forall b :: b in mask ==> b <= maxBit
    ensures var items := ItemsFor(mask, value, Digits, 0, maxBit);
            && ItemsAt(Text(items), Start(Text(items)), maxBit) == Some(items)
            && MaskOf(items) == mask && ValueOf(items) == value
  {
    DigitsSpell(maxBit);
    ParseInvertsPrint(mask, value, Digits, maxBit);
  }

  lemma OneItemMeans(it: Item, items: seq<Item>)
    requires items == [it]
    ensures Text(items) == ItemText(it) && MaskOf(items) == Bits(it) && ValueOf(items) == if it.on then Bits(it) else {}
  {
    assert items[1..] == [] && MaskOf([]) == {} && ValueOf([]) == {} && ItemText(it) + "" == ItemText(it);
  }

  lemma RangeText(a: string, b: string, on: bool, it: Item)
    requires it == Item(on, a, Some(b), false) && a != "" && AllDigits(a)
    ensures ItemText(it) == (if on then "" else "~") + a + "-" + b && Start(ItemText(it)) == 0
  {
    var text := (if on then "" else "~") + a + "-" + b;
    assert ItemText(it) == (if on then "" else "~") + a + ("-" + b) + "" == text;
    assert on ==> text[0] == a[0] && IsDigit(a[0]);
  }

  lemma RangeBits(a: nat, b: nat, it: Item)
    requires it.first == Digits(a) && it.last == Some(Digits(b)) && Number(Digits(a)) == a && Number(Digits(b)) == b
    ensures forall x :: x in Bits(it) <==> a <= x <= b
  {
  }

  lemma OneItemIsRead(text: string, it: Item, maxBit: nat)
    requires text == ItemText(it) && Start(text) == 0 && ItemOk(it, maxBit)
    ensures ItemsAt(text, 0, maxBit) == Some([it])
  {
    var items := [it];
    OneItemMeans(it, items);
    assert items[1..] == [] && text[0..] == text;
    AcceptsExactly(text, items, maxBit);
  }

  /** A range stands for all its bits, both ends included, which are on unless there is a ~ in front. */
  lemma RangeIsWhole(a: nat, b: nat, on: bool, maxBit: nat, it: Item)
    requires a < b <= maxBit < UINT_SPAN && it == Item(on, Digits(a), Some(Digits(b)), false)
    ensures ItemsAt((if on then "" else "~") + Digits(a) + "-" + Digits(b), 0, maxBit) == Some([it])
    ensures forall x :: x in MaskOf([it]) <==> a <= x <= b
    ensures forall x :: x in ValueOf([it]) <==> on && a <= x <= b
  {
    DigitsSpell(maxBit);
    assert Number(Digits(a)) == a && Number(Digits(b)) == b;
    RangeText(Digits(a), Digits(b), on, it);
    OneItemIsRead(ItemText(it), it, maxBit);
    OneItemMeans(it, [it]);
    RangeBits(a, b, it);
  }

  /** The comment promises numbers as written; the code takes them modulo 2^32, so a bit number is
      accepted exactly when its low 32 bits are within the limit. */
  lemma NumbersWrap(ds: string, maxBit: nat)
    requires ds != "" && AllDigits(ds)
    ensures ItemsAt(ds, 0, maxBit) == Some([Item(true, ds, None, false)]) <==> Decimal(ds) % UINT_SPAN <= maxBit
  {
    var items := [Item(true, ds, None, false)];
    NumberIsDecimal(ds);
    assert Text(items) == ds && ds[0..] == ds;
    AcceptsExactly(ds, items, maxBit);
  }

  /** The comment also promises blanks between items; a ~ ends the item before it as well. */
  lemma BlankIsOptional(a: string, b: string, maxBit: nat)
    requires a != "" && AllDigits(a) && Number(a) <= maxBit
    requires b != "" && AllDigits(b) && Number(b) <= maxBit
    ensures ItemsAt(a + "~" + b, 0, maxBit) == Some([Item(true, a, None, false), Item(false, b, None, false)])
  {
    var x, y := Item(true, a, None, false), Item(false, b, None, false);
    assert [x, y][1..] == [y] && [y][1..] == [];
    assert ItemText(x) == a && ItemText(y) == "~" + b;
    assert Text([y]) == "~" + b;
    assert Text([x, y]) == a + ("~" + b) == a + "~" + b;
    assert ItemsOk([y], maxBit) && ItemsOk([x, y], maxBit);
    assert (a + "~" + b)[0..] == a + "~" + b;
    TextIsAccepted(a + "~" + b, 0, [x, y], maxBit);
  }
}
