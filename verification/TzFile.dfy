/** The time zone file: zic.c's puttzcode and writezone, and zdump.c's tzdecode and read loop. */
module TzFile {
  import opened Machine
  import opened ZicTables

  type Byte = b: int | 0 <= b < 256

  const RESERVED := 32

  // ---------------------------------------------------------------- four-byte codes

  /** val >> shift for the shifts in use; >> on a negative long rounds down. */
  function ShiftRight(val: int, shift: nat): int
    requires shift in {0, 8, 16, 24}
  {
    if shift == 24 then val / 0x100_0000
    else if shift == 16 then val / 0x1_0000
    else if shift == 8 then val / 0x100
    else val
  }

  function LowByte(c: int): Byte {
    c % 256
  }

  function Code(val: int): (bs: seq<Byte>)
    ensures |bs| == 4
  {
    [LowByte(ShiftRight(val, 24)), LowByte(ShiftRight(val, 16)), LowByte(ShiftRight(val, 8)), LowByte(val)]
  }

  method Puttzcode(val: int) returns (bs: seq<Byte>)
    ensures bs == Code(val)
  {
    bs := [];
    var shift := 24;
    while shift >= 0
      invariant shift in {-8, 0, 8, 16, 24}
      invariant |bs| == 3 - shift / 8 && bs == Code(val)[..|bs|]
      decreases shift + 8
    {
      bs := bs + [LowByte(ShiftRight(val, shift))];
      shift := shift - 8;
    }
  }

  /** The value of big-endian bytes; a shifted accumulator and a byte share no bits, so | is +. */
  function Value(bs: seq<Byte>): nat {
    if bs == [] then 0 else Value(bs[..|bs| - 1]) * 256 + bs[|bs| - 1]
  }

  method Tzdecode(code: seq<Byte>) returns (result: nat)
    requires |code| == 4
    ensures result == Value(code)
  {
    result := 0;
    for i := 0 to 4
      invariant result == Value(code[..i])
    {
      assert code[..i + 1][..i] == code[..i];
      result := result * 256 + code[i];
    }
    assert code[..4] == code;
  }

  lemma ByteSteps(v: int)
    ensures v == 256 * (v / 256) + v % 256
    ensures v / 256 / 256 == v / 0x1_0000
    ensures v / 0x1_0000 / 256 == v / 0x100_0000
    ensures v / 0x100_0000 / 256 == v / 0x1_0000_0000
  {
  }

  lemma ValueOfFour(bs: seq<Byte>)
    requires |bs| == 4
    ensures Value(bs) == (((bs[0] as int) * 256 + bs[1] as int) * 256 + bs[2] as int) * 256 + bs[3] as int
  {
    assert bs[..3][..2] == bs[..2] && bs[..2][..1] == bs[..1] && bs[..1][..0] == [];
    assert Value(bs[..1]) == bs[0];
    assert Value(bs[..2]) == (bs[0] as int) * 256 + bs[1] as int;
    assert Value(bs[..3]) == ((bs[0] as int) * 256 + bs[1] as int) * 256 + bs[2] as int;
  }

  lemma FourBytes(v: int, q1: int, q2: int, q3: int, q4: int)
    requires q1 == v / 256 && q2 == v / 0x1_0000 && q3 == v / 0x100_0000 && q4 == v / 0x1_0000_0000
    ensures (((q3 % 256) * 256 + q2 % 256) * 256 + q1 % 256) * 256 + v % 256 == v - q4 * 0x1_0000_0000
  {
    ByteSteps(v);
    ByteSteps(q1);
    ByteSteps(q2);
    ByteSteps(q3);
  }

  /** Decoding inverts encoding modulo 2^32, so a time_t survives exactly. */
  lemma DecodeInvertsCode(v: int)
    ensures Value(Code(v)) == v % 0x1_0000_0000
    ensures InTime(v) ==> WrapTime(Value(Code(v))) == v
  {
    ValueOfFour(Code(v));
    FourBytes(v, v / 256, v / 0x1_0000, v / 0x100_0000, v / 0x1_0000_0000);
  }

  // ---------------------------------------------------------------- writing

  function Codes(vs: seq<int>): (bs: seq<Byte>)
    ensures |bs| == 4 * |vs|
  {
    if vs == [] then [] else Codes(vs[..|vs| - 1]) + Code(vs[|vs| - 1])
  }

  function TypeBytes(types: seq<nat>): (bs: seq<Byte>)
    ensures |bs| == |types|
  {
    seq(|types|, i requires 0 <= i < |types| => LowByte(types[i]))
  }

  function InfoBytes(gmtoffs: seq<int>, isdsts: seq<bool>, abbrinds: seq<int>): seq<Byte>
    requires |gmtoffs| == |isdsts| == |abbrinds|
  {
    if gmtoffs == [] then []
    else
      var n := |gmtoffs| - 1;
      InfoBytes(gmtoffs[..n], isdsts[..n], abbrinds[..n])
      + Code(gmtoffs[n]) + [if isdsts[n] then 1 else 0, LowByte(abbrinds[n])]
  }

  function CharBytes(chars: string): (bs: seq<Byte>)
    ensures |bs| == |chars|
  {
    seq(|chars|, i requires 0 <= i < |chars| => LowByte(chars[i] as int))
  }

  function Header(t: Tables): (bs: seq<Byte>)
    ensures |bs| == RESERVED + 12
  {
    seq(RESERVED, _ => 0) + Code(|t.ats|) + Code(|t.gmtoffs|) + Code(|t.chars|)
  }

  /** The file writezone leaves; the skipped header bytes read as zero. */
  function FileBytes(t: Tables): seq<Byte>
    requires Shaped(t)
  {
    Header(t) + Codes(t.ats) + (TypeBytes(t.types) + InfoBytes(t.gmtoffs, t.isdsts, t.abbrinds) + CharBytes(t.chars))
  }

  method Writezone(out: TzOutput) returns (fp: seq<Byte>)
    requires out.Valid()
    ensures fp == FileBytes(out.Model())
  {
    fp := seq(RESERVED, _ => 0);
    var c := Puttzcode(out.timecnt);
    fp := fp + c;
    c := Puttzcode(out.typecnt);
    fp := fp + c;
    c := Puttzcode(out.charcnt);
    fp := fp + c;
    ghost var t := out.Model();
    assert fp == Header(t);
    var i := 0;
    while i < out.timecnt
      invariant i <= out.timecnt
      invariant fp == Header(t) + Codes(t.ats[..i])
    {
      c := Puttzcode(out.ats[i]);
      assert t.ats[..i + 1][..i] == t.ats[..i];
      fp := fp + c;
      i := i + 1;
    }
    assert t.ats[..i] == t.ats;
    var tail := WriteTail(out);
    fp := fp + tail;
  }

  method WriteInfos(out: TzOutput) returns (fp: seq<Byte>)
    requires out.Valid()
    ensures fp == InfoBytes(out.gmtoffs[..out.typecnt], out.isdsts[..out.typecnt], out.abbrinds[..out.typecnt])
  {
    fp := [];
    var i := 0;
    while i < out.typecnt
      invariant i <= out.typecnt
      invariant fp == InfoBytes(out.gmtoffs[..i], out.isdsts[..i], out.abbrinds[..i])
    {
      var c := Puttzcode(out.gmtoffs[i]);
      assert out.gmtoffs[..i + 1][..i] == out.gmtoffs[..i];
      assert out.isdsts[..i + 1][..i] == out.isdsts[..i];
      assert out.abbrinds[..i + 1][..i] == out.abbrinds[..i];
      fp := fp + c + [if out.isdsts[i] then 1 else 0, LowByte(out.abbrinds[i])];
      i := i + 1;
    }
  }

  /** The parts of the file after the transition times. */
  method WriteTail(out: TzOutput) returns (fp: seq<Byte>)
    requires out.Valid()
    ensures var t := out.Model();
            fp == TypeBytes(t.types) + InfoBytes(t.gmtoffs, t.isdsts, t.abbrinds) + CharBytes(t.chars)
  {
    var infos := WriteInfos(out);
    fp := TypeBytes(out.types[..out.timecnt]) + infos + CharBytes(out.chars[..out.charcnt]);
  }

  // ---------------------------------------------------------------- reading back

  /** The k-th time code of a file. */
  function TimeAt(file: seq<Byte>, k: nat): int
    requires RESERVED + 16 + 4 * k <= |file|
  {
    WrapTime(Value(file[RESERVED + 12 + 4 * k..RESERVED + 16 + 4 * k]))
  }

  /** The times a file announces; None when it is too short to hold them. */
  function TimesIn(file: seq<Byte>): Option<seq<int>> {
    if RESERVED + 4 > |file| then None
    else
      var n := Value(file[RESERVED..RESERVED + 4]);
      if n > 0 && RESERVED + 12 + 4 * n > |file| then None
      else Some(seq(n, k requires 0 <= k < n => TimeAt(file, k)))
  }

  /** zdump's sequential reads: the count behind the reserved bytes, two codes skipped, then that
      many times; a short read ends the program. Without a cutoff year every time is shown. */
  method ReadTimes(file: seq<Byte>) returns (ok: bool, shown: seq<int>)
    ensures TimesIn(file) == if ok then Some(shown) else None
  {
    shown := [];
    var cursor := RESERVED;
    if cursor + 4 > |file| {
      return false, shown;
    }
    var count := Tzdecode(file[cursor..cursor + 4]);
    cursor := cursor + 4 + 2 * 4;
    var timecnt := count;
    while timecnt > 0
      invariant |shown| + timecnt == count && cursor == RESERVED + 12 + 4 * |shown|
      invariant shown != [] ==> cursor <= |file|
      invariant forall k :: 0 <= k < |shown| ==> shown[k] == TimeAt(file, k)
    {
      timecnt := timecnt - 1;
      if cursor + 4 > |file| {
        return false, shown;
      }
      var t := Tzdecode(file[cursor..cursor + 4]);
      shown := shown + [WrapTime(t)];
      cursor := cursor + 4;
    }
    assert TimesIn(file).Some? && shown == TimesIn(file).value;
    ok := true;
  }

  lemma {:induction false} CodeAt(vs: seq<int>, k: nat)
    requires k < |vs|
    ensures Codes(vs)[4 * k..4 * k + 4] == Code(vs[k])
    decreases |vs|
  {
    var n := |vs| - 1;
    if k < n {
      CodeAt(vs[..n], k);
      assert Codes(vs)[4 * k..4 * k + 4] == Codes(vs[..n])[4 * k..4 * k + 4];
    }
  }

  lemma CountStands(t: Tables)
    requires Shaped(t)
    ensures |FileBytes(t)| >= RESERVED + 12 + 4 * |t.ats|
    ensures Value(FileBytes(t)[RESERVED..RESERVED + 4]) == |t.ats|
  {
    assert FileBytes(t)[RESERVED..RESERVED + 4] == Header(t)[RESERVED..RESERVED + 4] == Code(|t.ats|);
    DecodeInvertsCode(|t.ats|);
  }

  lemma TimeStands(t: Tables, k: nat)
    requires Shaped(t) && k < |t.ats| && InTime(t.ats[k])
    ensures RESERVED + 16 + 4 * k <= |FileBytes(t)| && TimeAt(FileBytes(t), k) == t.ats[k]
  {
    CodeAt(t.ats, k);
    assert FileBytes(t)[RESERVED + 12 + 4 * k..RESERVED + 16 + 4 * k] == Codes(t.ats)[4 * k..4 * k + 4];
    DecodeInvertsCode(t.ats[k]);
  }

  /** zdump shows exactly the transition times that were written, whatever else the tables hold. */
  lemma ZdumpReadsBack(t: Tables)
    requires Shaped(t) && forall k :: 0 <= k < |t.ats| ==> InTime(t.ats[k])
    ensures TimesIn(FileBytes(t)) == Some(t.ats)
  {
    CountStands(t);
    forall k | 0 <= k < |t.ats|
      ensures RESERVED + 16 + 4 * k <= |FileBytes(t)| && TimeAt(FileBytes(t), k) == t.ats[k]
    {
      TimeStands(t, k);
    }
    assert TimesIn(FileBytes(t)).value == t.ats;
  }
}
