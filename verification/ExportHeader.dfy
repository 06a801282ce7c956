/** sec_export.c: the security part of a multilevel tape's file header. The exporter packs strings under a
    mask of format bits, the importer settles on a mask with the tape, and ie_unpack takes the strings
    apart again. A mask is the set of its bit numbers. */
module ExportHeader {

  import opened Machine

  type Mask = set<nat>

  const TYPE_FLAGS := 0
  const PRIVS := 1
  const SENS_LABEL := 2
  const INFO_LABEL := 3
  const ACL := 4
  const NCAV := 5
  const PACL := 6
  const PDACL := 7
  const MAX_HEADER_BIT := 7
  const DONT_SET_TYPE_FLAGS := 8
  const DONT_SET_PRIVS := 9
  const DONT_SET_ACL := 10
  const MAGIC := 0x73d7      // 071727

  // ---------------------------------------------------------------- negotiation

  /** The device is configured for fields only. */
  predicate FieldsOnly(configured: Mask) {
    forall b :: b in configured ==> b <= MAX_HEADER_BIT
  }

  predicate IsLabel(b: nat) {
    b == SENS_LABEL || b == INFO_LABEL || b == NCAV
  }

  predicate Same(tape: Mask, configured: Mask, b: nat) {
    b in tape <==> b in configured
  }

  /** The field is on the tape, but the device is not configured for it. */
  predicate Unwanted(tape: Mask, configured: Mask, b: nat) {
    b in tape && b !in configured
  }

  /** Bit b of the format when the bits below x have been gone through. */
  predicate BitBelow(tape: Mask, configured: Mask, x: nat, b: nat, on: bool) {
    if b <= MAX_HEADER_BIT then on == if b < x then b in tape else b in configured
    else if b == DONT_SET_TYPE_FLAGS then on == (TYPE_FLAGS < x && Unwanted(tape, configured, TYPE_FLAGS))
    else if b == DONT_SET_PRIVS then on == (PRIVS < x && Unwanted(tape, configured, PRIVS))
    else if b == DONT_SET_ACL then
      on == ((ACL < x && Unwanted(tape, configured, ACL)) || (PACL < x && Unwanted(tape, configured, PACL))
             || (PDACL < x && Unwanted(tape, configured, PDACL)))
    else !on
  }

  ghost predicate Below(tape: Mask, configured: Mask, x: nat, f: Mask) {
    forall b: nat :: BitBelow(tape, configured, x, b, b in f)
  }

  /** What a field bit x on which the formats differ does to the format. */
  function Adapt(tape: Mask, f: Mask, x: nat, dontSet: nat): Mask {
    if x in tape then f + {x} + {dontSet} else f - {x}
  }

  /** The loop over the header bits. None stands for the message and exit(1). */
  method Negotiate(magic: int, tape: Mask, configured: Mask) returns (format: Option<Mask>)
    requires FieldsOnly(configured)
    ensures format.Some? <==> magic == MAGIC && forall b: nat :: IsLabel(b) ==> Same(tape, configured, b)
    ensures format.Some? ==> Below(tape, configured, MAX_HEADER_BIT + 1, format.value)
  {
    if magic != MAGIC {
      return None;
    }
    var f := configured;
    var x: nat := 0;
    while x <= MAX_HEADER_BIT
      invariant x <= MAX_HEADER_BIT + 1
      invariant Below(tape, configured, x, f)
      invariant forall b: nat :: IsLabel(b) && b < x ==> Same(tape, configured, b)
    {
      if Same(tape, configured, x) {
      } else if x == TYPE_FLAGS {
        f := Adapt(tape, f, x, DONT_SET_TYPE_FLAGS);
      } else if x == PRIVS {
        f := Adapt(tape, f, x, DONT_SET_PRIVS);
      } else if x == ACL || x == PACL || x == PDACL {
        f := Adapt(tape, f, x, DONT_SET_ACL);
      } else {
        assert IsLabel(x);
        return None;
      }
      x := x + 1;
    }
    format := Some(f);
  }

  /** After negotiation the importer's field bits are the tape's, labels included, and the bits that say
      what not to set are exactly those of fields on the tape that the device is not configured for. */
  lemma SettledFormat(tape: Mask, configured: Mask, format: Mask)
    requires Below(tape, configured, MAX_HEADER_BIT + 1, format)
    ensures forall b: nat :: b <= MAX_HEADER_BIT ==> (b in format <==> b in tape)
    ensures DONT_SET_TYPE_FLAGS in format <==> TYPE_FLAGS in tape && TYPE_FLAGS !in configured
    ensures DONT_SET_PRIVS in format <==> PRIVS in tape && PRIVS !in configured
    ensures DONT_SET_ACL in format <==>
              || (ACL in tape && ACL !in configured) || (PACL in tape && PACL !in configured)
              || (PDACL in tape && PDACL !in configured)
  {
    forall b: nat | b <= MAX_HEADER_BIT ensures b in format <==> b in tape {
      assert BitBelow(tape, configured, MAX_HEADER_BIT + 1, b, b in format);
    }
    assert BitBelow(tape, configured, MAX_HEADER_BIT + 1, DONT_SET_TYPE_FLAGS, DONT_SET_TYPE_FLAGS in format);
    assert BitBelow(tape, configured, MAX_HEADER_BIT + 1, DONT_SET_PRIVS, DONT_SET_PRIVS in format);
    assert BitBelow(tape, configured, MAX_HEADER_BIT + 1, DONT_SET_ACL, DONT_SET_ACL in format);
  }

  // ---------------------------------------------------------------- packing

  const NUL: char := '\0'

  /** What the exporter knows of a file. The strings of the labels and lists may be missing; the
      privileges are the names of the bits set. */
  datatype Attributes = Attributes(opt: string, kid: string, lab: Option<string>, acl: Option<string>,
                                   pacl: Option<string>,
                                   pdacl: Option<string>, ncv: Option<string>, ilb: Option<string>,
                                   ppriv: seq<string>, gpriv: seq<string>)

  /** Each name with a blank behind it. */
  function Names(privs: seq<string>): string {
    if privs == [] then "" else privs[0] + " " + Names(privs[1..])
  }

  /** The fields in the order of the header, by the format bits they depend on. */
  const FIELD_BITS: seq<nat> := [TYPE_FLAGS, TYPE_FLAGS, SENS_LABEL, ACL, PACL, PDACL, NCAV, INFO_LABEL, PRIVS, PRIVS]

  /** The strings of the fields; the empty one, for which the exporter counts a byte, where one is
      missing. */
  function Texts(a: Attributes): (r: seq<string>)
    ensures |r| == |FIELD_BITS|
  {
    [a.opt, a.kid, OrEmpty(a.lab), OrEmpty(a.acl), OrEmpty(a.pacl), OrEmpty(a.pdacl), OrEmpty(a.ncv), OrEmpty(a.ilb),
     Names(a.ppriv), Names(a.gpriv)]
  }

  function OrEmpty(s: Option<string>): string {
    match s
    case None => ""
    case Some(t) => t
  }

  /** The fields whose bit is on, each ended by a NUL. */
  function Packed(format: Mask, bits: seq<nat>, texts: seq<string>): string
    requires |bits| == |texts|
  {
    if bits == [] then ""
    else (if bits[0] in format then texts[0] + [NUL] else "") + Packed(format, bits[1..], texts[1..])
  }

  /** The security part of the file header. */
  function Header(format: Mask, a: Attributes): string {
    Packed(format, FIELD_BITS, Texts(a))
  }

  /** The size of the buffer: room for every string, in the format or not. */
  function Room(texts: seq<string>): nat {
    if texts == [] then 0 else |texts[0]| + 1 + Room(texts[1..])
  }

  predicate AllOn(format: Mask, bits: seq<nat>) {
    forall b :: b in bits ==> b in format
  }

  /** The header fits the buffer, and fills it exactly if every field is in the format. */
  lemma {:induction false} PackedFits(format: Mask, bits: seq<nat>, texts: seq<string>)
    requires |bits| == |texts|
    ensures |Packed(format, bits, texts)| <= Room(texts)
    ensures |Packed(format, bits, texts)| == Room(texts) <==> AllOn(format, bits)
    decreases |bits|
  {
    if bits != [] {
      PackedFits(format, bits[1..], texts[1..]);
      assert AllOn(format, bits) <==> bits[0] in format && AllOn(format, bits[1..]);
    }
  }

  /** What ie_ml_export checks: four strings may not be missing if they are in the format. */
  predicate Refuses(format: Mask, a: Attributes) {
    || (SENS_LABEL in format && a.lab.None?) || (INFO_LABEL in format && a.ilb.None?)
    || (NCAV in format && a.ncv.None?) || (PACL in format && a.pacl.None?)
  }

  /** What it does not: a missing access list is copied from address 0. */
  predicate CopiesNull(format: Mask, a: Attributes) {
    (ACL in format && a.acl.None?) || (PDACL in format && a.pdacl.None?)
  }

  datatype Export = Refused | NullCopied | Written(size: nat)

  class Packer {
    var buffer: array<char>
    var bufptr: nat

    constructor ()
      ensures bufptr == 0 && fresh(buffer)
    {
      buffer, bufptr := new char[0], 0;
    }

    /** allocbuff */
    method Allocate(size: nat)
      modifies this
      ensures buffer == old(buffer) || fresh(buffer)
      ensures buffer.Length >= size && bufptr == 0
    {
      if size > buffer.Length {
        buffer := new char[size];
      }
      bufptr := 0;
    }

    /** memcpy to bufptr, and bufptr moved on. */
    method Copy(s: string)
      requires bufptr + |s| <= buffer.Length
      modifies this`bufptr, buffer
      ensures bufptr == old(bufptr) + |s|
      ensures buffer[..bufptr] == old(buffer[..bufptr]) + s
    {
      ghost var was := buffer[..bufptr];
      for i := 0 to |s|
        invariant bufptr == old(bufptr)
        invariant buffer[..bufptr] == was
        invariant buffer[bufptr..bufptr + i] == s[..i]
      {
        buffer[bufptr + i] := s[i];
      }
      assert buffer[..bufptr + |s|] == buffer[..bufptr] + buffer[bufptr..bufptr + |s|];
      assert buffer[bufptr..bufptr + |s|] == s[..|s|] == s;
      bufptr := bufptr + |s|;
    }

    /** The names of the privileges, each with a blank behind it. */
    method PutNames(privs: seq<string>)
      requires bufptr + |Names(privs)| <= buffer.Length
      modifies this`bufptr, buffer
      ensures bufptr == old(bufptr) + |Names(privs)|
      ensures buffer[..bufptr] == old(buffer[..bufptr]) + Names(privs)
    {
      ghost var was := buffer[..bufptr];
      for i := 0 to |privs|
        invariant bufptr <= buffer.Length && bufptr + |Names(privs[i..])| == old(bufptr) + |Names(privs)|
        invariant buffer[..bufptr] + Names(privs[i..]) == was + Names(privs)
      {
        assert privs[i..][1..] == privs[i + 1..];
        ghost var before := buffer[..bufptr];
        Copy(privs[i] + " ");
        assert before + (privs[i] + " " + Names(privs[i + 1..])) == before + (privs[i] + " ") + Names(privs[i + 1..]);
      }
      assert privs[|privs|..] == [];
    }

    /** What is packed, with the fields to come, makes up the goal, and there is room for them. */
    ghost predicate Upto(format: Mask, bits: seq<nat>, texts: seq<string>, goal: string)
      requires |bits| == |texts|
      reads this, buffer
    {
      bufptr + Room(texts) <= buffer.Length && buffer[..bufptr] + Packed(format, bits, texts) == goal
    }

    /** Field k, a string; its length counts the NUL. */
    method PutField(format: Mask, bit: nat, s: string, ghost k: nat, ghost bits: seq<nat>, ghost texts: seq<string>,
                    ghost goal: string)
      requires |bits| == |texts| && k < |bits| && bits[k] == bit && texts[k] == s
      requires Upto(format, bits[k..], texts[k..], goal)
      modifies this`bufptr, buffer
      ensures Upto(format, bits[k + 1..], texts[k + 1..], goal)
    {
      ghost var was, more := buffer[..bufptr], Packed(format, bits[k + 1..], texts[k + 1..]);
      assert bits[k..][1..] == bits[k + 1..] && texts[k..][1..] == texts[k + 1..];
      if bit in format {
        Copy(s + [NUL]);
        assert was + (s + [NUL] + more) == was + (s + [NUL]) + more;
      } else {
        assert "" + more == more;
      }
    }

    /** Field k, a list of privileges. */
    method PutPrivs(format: Mask, privs: seq<string>, ghost k: nat, ghost bits: seq<nat>, ghost texts: seq<string>,
                    ghost goal: string)
      requires |bits| == |texts| && k < |bits| && bits[k] in format && texts[k] == Names(privs)
      requires Upto(format, bits[k..], texts[k..], goal)
      modifies this`bufptr, buffer
      ensures Upto(format, bits[k + 1..], texts[k + 1..], goal)
    {
      ghost var was, more := buffer[..bufptr], Packed(format, bits[k + 1..], texts[k + 1..]);
      assert bits[k..][1..] == bits[k + 1..] && texts[k..][1..] == texts[k + 1..];
      PutNames(privs);
      Copy([NUL]);
      assert was + (Names(privs) + [NUL] + more) == was + Names(privs) + [NUL] + more;
    }

    /** The fields that are strings. */
    method PutStrings(format: Mask, a: Attributes, ghost bits: seq<nat>, ghost texts: seq<string>, ghost goal: string)
      requires bits == FIELD_BITS && texts == Texts(a) && Upto(format, bits[0..], texts[0..], goal)
      modifies this`bufptr, buffer
      ensures Upto(format, bits[8..], texts[8..], goal)
    {
      PutField(format, TYPE_FLAGS, a.opt, 0, bits, texts, goal);
      PutField(format, TYPE_FLAGS, a.kid, 1, bits, texts, goal);
      PutField(format, SENS_LABEL, OrEmpty(a.lab), 2, bits, texts, goal);
      PutField(format, ACL, OrEmpty(a.acl), 3, bits, texts, goal);
      PutField(format, PACL, OrEmpty(a.pacl), 4, bits, texts, goal);
      PutField(format, PDACL, OrEmpty(a.pdacl), 5, bits, texts, goal);
      PutField(format, NCAV, OrEmpty(a.ncv), 6, bits, texts, goal);
      PutField(format, INFO_LABEL, OrEmpty(a.ilb), 7, bits, texts, goal);
    }

    /** The two lists of privileges. */
    method PutPrivileges(format: Mask, a: Attributes, ghost bits: seq<nat>, ghost texts: seq<string>,
                         ghost goal: string)
      requires bits == FIELD_BITS && texts == Texts(a) && Upto(format, bits[8..], texts[8..], goal)
      modifies this`bufptr, buffer
      ensures bufptr <= buffer.Length && buffer[..bufptr] == goal
    {
      if PRIVS in format {
        PutPrivs(format, a.ppriv, 8, bits, texts, goal);
        PutPrivs(format, a.gpriv, 9, bits, texts, goal);
      } else {
        SkipsPrivileges(format, bits[8..], texts[8..]);
      }
      assert buffer[..bufptr] + "" == buffer[..bufptr];
    }

    /** The header part of ie_ml_export. */
    method BuildHeader(format: Mask, a: Attributes) returns (r: Export)
      modifies this, buffer
      ensures r == if Refuses(format, a) then Refused else if CopiesNull(format, a) then NullCopied
                   else Written(|Header(format, a)|)
      ensures r.Written? ==> r.size <= buffer.Length && buffer[..r.size] == Header(format, a)
    {
      if Refuses(format, a) {
        return Refused;
      }
      if CopiesNull(format, a) {
        return NullCopied;
      }
      Allocate(Size(a));
      ghost var goal := Header(format, a);
      ghost var bits, texts := FIELD_BITS, Texts(a);
      assert buffer[..bufptr] + goal == goal && bits[0..] == bits && texts[0..] == texts;
      PutStrings(format, a, bits, texts, goal);
      PutPrivileges(format, a, bits, texts, goal);
      r := Written(bufptr);
    }
  }

  lemma SkipsPrivileges(format: Mask, bits: seq<nat>, texts: seq<string>)
    requires bits == [PRIVS, PRIVS] && |texts| == 2 && PRIVS !in format
    ensures Packed(format, bits, texts) == ""
  {
    assert Packed(format, bits[1..][1..], texts[1..][1..]) == "";
    assert Packed(format, bits[1..], texts[1..]) == "" + "";
  }

  function OptLen(s: Option<string>): nat {
    |OrEmpty(s)| + 1
  }

  /** The sum of the lengths, each counting a NUL. */
  function Size(a: Attributes): (n: nat)
    ensures n == Room(Texts(a))
  {
    RoomIsSum(a);
    |a.opt| + 1 + OptLen(a.lab) + OptLen(a.acl) + OptLen(a.pacl) + OptLen(a.pdacl) + OptLen(a.ncv) + OptLen(a.ilb)
    + |a.kid| + 1 + |Names(a.ppriv)| + 1 + |Names(a.gpriv)| + 1
  }

  lemma RoomIsSum(a: Attributes)
    ensures Room(Texts(a))
            == |a.opt| + 1 + OptLen(a.lab) + OptLen(a.acl) + OptLen(a.pacl) + OptLen(a.pdacl) + OptLen(a.ncv)
                              + OptLen(a.ilb) + |a.kid| + 1 + |Names(a.ppriv)| + 1 + |Names(a.gpriv)| + 1
  {
    var t := Texts(a);
    assert Room(t[10..]) == 0;
    TwoMore(t, 8);
    TwoMore(t, 6);
    TwoMore(t, 4);
    TwoMore(t, 2);
    TwoMore(t, 0);
    assert t[0..] == t;
  }

  lemma TwoMore(texts: seq<string>, i: nat)
    requires i + 2 <= |texts|
    ensures Room(texts[i..]) == |texts[i]| + 1 + |texts[i + 1]| + 1 + Room(texts[i + 2..])
  {
    assert texts[i..][1..] == texts[i + 1..] && texts[i + 1..][1..] == texts[i + 2..];
  }

  // ---------------------------------------------------------------- unpacking

  /** The string at p, up to its NUL; None where the buffer ends first. */
  function StringAt(s: string, p: nat): (r: Option<string>)
    requires p <= |s|
    ensures r.Some? ==>
        p + |r.value| < |s| && s[p..p + |r.value|] == r.value && s[p + |r.value|] == NUL && NUL !in r.value
    decreases |s| - p
  {
    if p == |s| then None
    else if s[p] == NUL then Some("")
    else match StringAt(s, p + 1)
         case None => None
         case Some(t) => Some([s[p]] + t)
  }

  /** The pointers ie_unpack sets for these fields; None inside for a null pointer. The whole is None
      where strlen runs off the buffer. */
  function Unpacked(format: Mask, bits: seq<nat>, s: string, p: nat): (r: Option<seq<Option<string>>>)
    requires p <= |s|
    ensures r.Some? ==> |r.value| == |bits|
  {
    if bits == [] then Some([])
    else if bits[0] !in format then Behind(None, Unpacked(format, bits[1..], s, p))
    else match StringAt(s, p)
         case None => None
         case Some(t) => Behind(Some(t), Unpacked(format, bits[1..], s, p + |t| + 1))
  }

  // The pointers, in the order in which they are set.
  const OPT := 0
  const KID := 1
  const LAB := 2
  const ACL_TEXT := 3
  const PACL_TEXT := 4
  const PDACL_TEXT := 5
  const NCV := 6
  const ILB := 7
  const PPR := 8
  const GPR := 9

  /** Where the format has no type flags, kid is an empty string and not null. */
  function WithKid(format: Mask, list: seq<Option<string>>): seq<Option<string>>
    requires |list| == |FIELD_BITS|
  {
    if TYPE_FLAGS in format then list else list[KID := Some("")]
  }

  /** All the pointers of ie_unpack. */
  function Pointers(format: Mask, s: string): Option<seq<Option<string>>> {
    match Unpacked(format, FIELD_BITS, s, 0)
    case None => None
    case Some(list) => Some(WithKid(format, list))
  }

  function Behind(first: Option<string>, rest: Option<seq<Option<string>>>): Option<seq<Option<string>>> {
    match rest
    case None => None
    case Some(list) => Some([first] + list)
  }

  /** strlen from p on; ok is false where it would run off the buffer. */
  method Strlen(buffer: array<char>, p: nat) returns (ok: bool, n: nat)
    requires p <= buffer.Length
    ensures match StringAt(buffer[..], p)
            case None => !ok
            case Some(t) => ok && n == |t|
  {
    n := 0;
    while p + n < buffer.Length && buffer[p + n] != NUL
      invariant p + n <= buffer.Length
      invariant match StringAt(buffer[..], p + n)
                case None => StringAt(buffer[..], p).None?
                case Some(t) => StringAt(buffer[..], p).Some? && |StringAt(buffer[..], p).value| == n + |t|
    {
      n := n + 1;
    }
    ok := p + n < buffer.Length;
  }

  /** One pointer of ie_unpack: the string at buff_ptr and buff_ptr moved past it, or null. Nothing more
      is read once strlen has run off the buffer. */
  method TakeField(format: Mask, buffer: array<char>, good: bool, p: nat, ghost k: nat, bit: nat,
                   taken: seq<Option<string>>, ghost goal: Option<seq<Option<string>>>)
    returns (ok: bool, q: nat, more: seq<Option<string>>)
    requires p <= buffer.Length && k < |FIELD_BITS| && bit == FIELD_BITS[k]
    requires TakenUpTo(format, buffer[..], good, p, FIELD_BITS[k..], taken, goal)
    ensures q <= buffer.Length && TakenUpTo(format, buffer[..], ok, q, FIELD_BITS[k + 1..], more, goal)
  {
    ok, q, more := good, p, taken;
    if good {
      ghost var s, rest := buffer[..], FIELD_BITS[k..];
      assert rest[1..] == FIELD_BITS[k + 1..];
      if bit !in format {
        ReachedNext(taken, None, Unpacked(format, rest[1..], s, p));
        more := taken + [None];
      } else {
        var n;
        ok, n := Strlen(buffer, p);
        if ok {
          ReachedNext(taken, Some(buffer[p..p + n]), Unpacked(format, rest[1..], s, p + n + 1));
          q, more := p + n + 1, taken + [Some(buffer[p..p + n])];
        }
      }
    }
  }

  /** Reached, or given up. */
  predicate TakenUpTo(format: Mask, s: string, ok: bool, p: nat, bits: seq<nat>, taken: seq<Option<string>>,
                      goal: Option<seq<Option<string>>>)
    requires p <= |s|
  {
    if ok then Reached(format, s, p, bits, taken, goal) else goal.None?
  }

  /** The fields taken, with those still to come, make up the goal. */
  predicate Reached(format: Mask, s: string, p: nat, bits: seq<nat>, taken: seq<Option<string>>,
                    goal: Option<seq<Option<string>>>)
    requires p <= |s|
  {
    goal == match Unpacked(format, bits, s, p)
            case None => None
            case Some(rest) => Some(taken + rest)
  }

  lemma ReachedNext(taken: seq<Option<string>>, first: Option<string>, rest: Option<seq<Option<string>>>)
    ensures rest.Some? ==> taken + ([first] + rest.value) == taken + [first] + rest.value
  {
  }

  /** opt, kid, lab, acl and pacl */
  method TakeFirst(format: Mask, buffer: array<char>, ghost goal: Option<seq<Option<string>>>)
    returns (ok: bool, p: nat, fields: seq<Option<string>>)
    requires goal == Unpacked(format, FIELD_BITS, buffer[..], 0)
    ensures p <= buffer.Length && TakenUpTo(format, buffer[..], ok, p, FIELD_BITS[5..], fields, goal)
  {
    ok, p, fields := true, 0, [];
    assert FIELD_BITS[0..] == FIELD_BITS;
    assert goal.Some? ==> [] + goal.value == goal.value;
    ok, p, fields := TakeField(format, buffer, ok, p, 0, TYPE_FLAGS, fields, goal);
    ok, p, fields := TakeField(format, buffer, ok, p, 1, TYPE_FLAGS, fields, goal);
    ok, p, fields := TakeField(format, buffer, ok, p, 2, SENS_LABEL, fields, goal);
    ok, p, fields := TakeField(format, buffer, ok, p, 3, ACL, fields, goal);
    ok, p, fields := TakeField(format, buffer, ok, p, 4, PACL, fields, goal);
  }

  /** pdacl, ncv, ilb, ppr and gpr */
  method TakeSecond(format: Mask, buffer: array<char>, good: bool, start: nat, taken: seq<Option<string>>,
                    ghost goal: Option<seq<Option<string>>>)
    returns (ok: bool, fields: seq<Option<string>>)
    requires start <= buffer.Length && TakenUpTo(format, buffer[..], good, start, FIELD_BITS[5..], taken, goal)
    ensures match goal
            case None => !ok
            case Some(list) => ok && fields == list
  {
    var p := start;
    ok, p, fields := TakeField(format, buffer, good, p, 5, PDACL, taken, goal);
    ok, p, fields := TakeField(format, buffer, ok, p, 6, NCAV, fields, goal);
    ok, p, fields := TakeField(format, buffer, ok, p, 7, INFO_LABEL, fields, goal);
    ok, p, fields := TakeField(format, buffer, ok, p, 8, PRIVS, fields, goal);
    ok, p, fields := TakeField(format, buffer, ok, p, 9, PRIVS, fields, goal);
    assert ok ==> fields + [] == fields;
  }

  /** ie_unpack */
  method Unpack(format: Mask, buffer: array<char>) returns (ok: bool, fields: seq<Option<string>>)
    ensures match Pointers(format, buffer[..])
            case None => !ok
            case Some(list) => ok && fields == list
  {
    ghost var goal := Unpacked(format, FIELD_BITS, buffer[..], 0);
    var p;
    ok, p, fields := TakeFirst(format, buffer, goal);
    ok, fields := TakeSecond(format, buffer, ok, p, fields, goal);
    if ok && TYPE_FLAGS !in format {
      fields := fields[KID := Some("")];
    }
  }

  lemma {:induction false} StringIsRead(s: string, p: nat, t: string)
    requires NUL !in t && p + |t| < |s| && s[p..p + |t|] == t && s[p + |t|] == NUL
    ensures StringAt(s, p) == Some(t)
    decreases |t|
  {
    if t != "" {
      assert s[p] == t[0];
      assert s[p + 1..p + |t|] == t[1..];
      StringIsRead(s, p + 1, t[1..]);
    }
  }

  predicate NoNul(texts: seq<string>) {
    forall t :: t in texts ==> NUL !in t
  }

  /** What the importer should see of the fields. */
  function Expected(format: Mask, bits: seq<nat>, texts: seq<string>): (r: seq<Option<string>>)
    requires |bits| == |texts|
    ensures |r| == |bits|
    ensures forall k :: 0 <= k < |bits| ==> r[k] == if bits[k] in format then Some(texts[k]) else None
  {
    seq(|bits|, k requires 0 <= k < |bits| => if bits[k] in format then Some(texts[k]) else None)
  }

  lemma {:induction false} UnpackedIsExpected(format: Mask, importer: Mask, bits: seq<nat>, texts: seq<string>,
                                              s: string, p: nat)
    requires |bits| == |texts| && NoNul(texts) && p <= |s| && Packed(format, bits, texts) <= s[p..]
    requires forall b :: b in bits ==> (b in importer <==> b in format)
    ensures Unpacked(importer, bits, s, p) == Some(Expected(format, bits, texts))
    decreases |bits|
  {
    if bits != [] {
      var t, more := texts[0], Packed(format, bits[1..], texts[1..]);
      var first := if bits[0] in format then Some(t) else None;
      assert Expected(format, bits, texts) == [first] + Expected(format, bits[1..], texts[1..]);
      if bits[0] in format {
        FieldBehind(s, p, t, more);
        StringIsRead(s, p, t);
        UnpackedIsExpected(format, importer, bits[1..], texts[1..], s, p + |t| + 1);
      } else {
        assert "" + more == more;
        UnpackedIsExpected(format, importer, bits[1..], texts[1..], s, p);
      }
    }
  }

  lemma FieldBehind(s: string, p: nat, t: string, more: string)
    requires p <= |s| && t + [NUL] + more <= s[p..]
    ensures p + |t| < |s| && s[p..p + |t|] == t && s[p + |t|] == NUL && more <= s[p + |t| + 1..]
  {
    var all := t + [NUL] + more;
    assert s[p..][..|all|] == all;
    assert all[..|t|] == t && all[|t|] == NUL && all[|t| + 1..] == more;
    assert s[p..][..|t|] == s[p..p + |t|];
    assert s[p..][|t|] == s[p + |t|];
    assert s[p + |t| + 1..][..|more|] == s[p..][|t| + 1..|all|];
  }

  /** After negotiation the importer takes apart what the exporter packed; what lies behind the header in the buffer
      does not matter. */
  lemma PointersAreExpected(format: Mask, configured: Mask, settled: Mask, a: Attributes, buffer: string)
    requires NoNul(Texts(a)) && Below(format, configured, MAX_HEADER_BIT + 1, settled)
    requires Header(format, a) <= buffer
    ensures Pointers(settled, buffer) == Some(WithKid(format, Expected(format, FIELD_BITS, Texts(a))))
  {
    SettledFormat(format, configured, settled);
    assert buffer[0..] == buffer;
    UnpackedIsExpected(format, settled, FIELD_BITS, Texts(a), buffer, 0);
  }

  // ---------------------------------------------------------------- export and import, field by field

  /** The text is the names in order, each with a blank behind it. */
  predicate Lists(text: string, names: seq<string>) {
    if names == [] then text == ""
    else
      var n := |names[0]|;
      n < |text| && text[..n] == names[0] && text[n] == ' ' && Lists(text[n + 1..], names[1..])
  }

  lemma {:induction false} NamesAreListed(names: seq<string>)
    ensures Lists(Names(names), names)
  {
    if names != [] {
      var text := Names(names);
      assert text == names[0] + [' '] + Names(names[1..]);
      assert text[|names[0]| + 1..] == Names(names[1..]);
      NamesAreListed(names[1..]);
    }
  }

  predicate Free(s: Option<string>) {
    s.Some? ==> NUL !in s.value
  }

  /** C strings hold no NUL. */
  predicate CStrings(a: Attributes) {
    && NUL !in a.opt && NUL !in a.kid && Free(a.lab) && Free(a.acl) && Free(a.pacl) && Free(a.pdacl) && Free(a.ncv)
    && Free(a.ilb)
    && (forall n :: n in a.ppriv ==> NUL !in n) && (forall n :: n in a.gpriv ==> NUL !in n)
  }

  lemma {:induction false} NamesAreFree(names: seq<string>)
    requires forall n :: n in names ==> NUL !in n
    ensures NUL !in Names(names)
  {
    if names != [] {
      assert names[0] in names && forall n :: n in names[1..] ==> n in names;
      NamesAreFree(names[1..]);
    }
  }

  lemma TextsAreFree(a: Attributes)
    requires CStrings(a)
    ensures NoNul(Texts(a))
  {
    NamesAreFree(a.ppriv);
    NamesAreFree(a.gpriv);
  }

  /** Which strings may be missing. */
  predicate Complete(format: Mask, a: Attributes) {
    && (SENS_LABEL in format ==> a.lab.Some?) && (INFO_LABEL in format ==> a.ilb.Some?)
    && (NCAV in format ==> a.ncv.Some?) && (PACL in format ==> a.pacl.Some?)
  }

  /** Every attribute comes back under its own name, and null for what is not in the format; a kid that is not is an
      empty string. */
  predicate Recovered(format: Mask, a: Attributes, fields: seq<Option<string>>) {
    && |fields| == 10
    && fields[OPT] == (if TYPE_FLAGS in format then Some(a.opt) else None)
    && fields[KID] == (if TYPE_FLAGS in format then Some(a.kid) else Some(""))
    && fields[LAB] == (if SENS_LABEL in format then a.lab else None)
    && fields[ACL_TEXT] == (if ACL in format then a.acl else None)
    && fields[PACL_TEXT] == (if PACL in format then a.pacl else None)
    && fields[PDACL_TEXT] == (if PDACL in format then a.pdacl else None)
    && fields[NCV] == (if NCAV in format then a.ncv else None)
    && fields[ILB] == (if INFO_LABEL in format then a.ilb else None)
    && fields[PPR].Some? == fields[GPR].Some? == (PRIVS in format)
    && (PRIVS in format ==> Lists(fields[PPR].value, a.ppriv) && Lists(fields[GPR].value, a.gpriv))
  }

  lemma ExpectedIsRecovered(format: Mask, a: Attributes)
    requires !Refuses(format, a) && !CopiesNull(format, a)
    ensures Recovered(format, a, WithKid(format, Expected(format, FIELD_BITS, Texts(a))))
  {
    NamesAreListed(a.ppriv);
    NamesAreListed(a.gpriv);
  }

  /** Export and import. Whatever the exporter wrote in its format, the importer, after negotiation with the tape, gets
      every attribute back as it was. */
  lemma ImportRecoversExport(format: Mask, configured: Mask, settled: Mask, a: Attributes, buffer: string)
    requires CStrings(a) && Below(format, configured, MAX_HEADER_BIT + 1, settled)
    requires !Refuses(format, a) && !CopiesNull(format, a) && Header(format, a) <= buffer
    ensures Pointers(settled, buffer).Some? && Recovered(format, a, Pointers(settled, buffer).value)
  {
    TextsAreFree(a);
    PointersAreExpected(format, configured, settled, a, buffer);
    ExpectedIsRecovered(format, a);
  }

  /** The whole way over a tape. The file is refused exactly if a label, the caveats or the posix list is in the format
      and missing, and otherwise address 0 is read exactly if another list is. If the header is written and the
      importer agrees with the tape, ie_unpack finds every attribute in the buffer as it was. */
  method ExportAndImport(format: Mask, configured: Mask, a: Attributes, packer: Packer)
    returns (r: Export, settled: Option<Mask>, fields: seq<Option<string>>)
    requires FieldsOnly(configured) && CStrings(a)
    modifies packer, packer.buffer
    ensures r.Refused? <==> !Complete(format, a)
    ensures r.NullCopied? <==>
              Complete(format, a) && ((ACL in format && a.acl.None?) || (PDACL in format && a.pdacl.None?))
    ensures settled.Some? <==> && (SENS_LABEL in format <==> SENS_LABEL in configured)
                               && (INFO_LABEL in format <==> INFO_LABEL in configured)
                               && (NCAV in format <==> NCAV in configured)
    ensures r.Written? && settled.Some? ==> Recovered(format, a, fields)
  {
    fields := [];
    r := packer.BuildHeader(format, a);
    settled := Negotiate(MAGIC, format, configured);
    assert IsLabel(SENS_LABEL) && IsLabel(INFO_LABEL) && IsLabel(NCAV);
    if r.Written? && settled.Some? {
      ghost var s := packer.buffer[..];
      assert packer.buffer[..r.size] == s[..r.size];
      ImportRecoversExport(format, configured, settled.value, a, s);
      var ok;
      ok, fields := Unpack(settled.value, packer.buffer);
    }
  }

  // ---------------------------------------------------------------- the bytes of the header

  /** The string and its NUL, if the field is on. */
  function Part(on: bool, s: string): string {
    if on then s + [NUL] else ""
  }

  function Concat(parts: seq<string>): string {
    if parts == [] then "" else parts[0] + Concat(parts[1..])
  }

  lemma {:induction false} PackedIsConcat(format: Mask, bits: seq<nat>, texts: seq<string>, parts: seq<string>)
    requires |bits| == |texts| == |parts|
    requires forall k :: 0 <= k < |bits| ==> parts[k] == Part(bits[k] in format, texts[k])
    ensures Packed(format, bits, texts) == Concat(parts)
    decreases |bits|
  {
    if bits != [] {
      PackedIsConcat(format, bits[1..], texts[1..], parts[1..]);
    }
  }

  /** The strings of the fields by their places in the header. */
  predicate Laid(format: Mask, a: Attributes, parts: seq<string>) {
    && |parts| == 10
    && parts[OPT] == Part(TYPE_FLAGS in format, a.opt) && parts[KID] == Part(TYPE_FLAGS in format, a.kid)
    && parts[LAB] == Part(SENS_LABEL in format, OrEmpty(a.lab))
    && parts[ACL_TEXT] == Part(ACL in format, OrEmpty(a.acl))
    && parts[PACL_TEXT] == Part(PACL in format, OrEmpty(a.pacl))
    && parts[PDACL_TEXT] == Part(PDACL in format, OrEmpty(a.pdacl))
    && parts[NCV] == Part(NCAV in format, OrEmpty(a.ncv))
    && parts[ILB] == Part(INFO_LABEL in format, OrEmpty(a.ilb))
    && parts[PPR] == Part(PRIVS in format, Names(a.ppriv)) && parts[GPR] == Part(PRIVS in format, Names(a.gpriv))
  }

  lemma LaidAt(format: Mask, a: Attributes, parts: seq<string>, bits: seq<nat>, texts: seq<string>, k: nat)
    requires Laid(format, a, parts) && bits == FIELD_BITS && texts == Texts(a) && k < 10
    ensures parts[k] == Part(bits[k] in format, texts[k])
  {
    if k < 5 {
      assert k == OPT || k == KID || k == LAB || k == ACL_TEXT || k == PACL_TEXT;
    } else {
      assert k == PDACL_TEXT || k == NCV || k == ILB || k == PPR || k == GPR;
    }
  }

  /** The header, byte by byte: each string in its place with its NUL, if it is in the format. */
  lemma HeaderInOrder(format: Mask, a: Attributes, parts: seq<string>)
    requires Laid(format, a, parts)
    ensures Header(format, a) == Concat(parts)
  {
    var bits, texts := FIELD_BITS, Texts(a);
    forall k | 0 <= k < 10 ensures parts[k] == Part(bits[k] in format, texts[k]) {
      LaidAt(format, a, parts, bits, texts, k);
    }
    PackedIsConcat(format, bits, texts, parts);
  }
}
