/** labelcomp.c, next_keyword: which words of the file, which keyword and which data it hands on. */
module LabelLines {

  import opened LabelScan

  // ---------------------------------------------------------------- from the file to lines

  /** The words of a text, cur being the start of one. */
  function Words(s: string, cur: string): seq<string> {
    if s == "" then (if cur == "" then [] else [cur])
    else if IsBlank(s[0]) then (if cur == "" then [] else [cur]) + Words(s[1..], "")
    else Words(s[1..], cur + [s[0]])
  }

  /** Upper changes the small letters, and only those. */
  lemma UpperIsCapital(c: char, k: nat)
    requires k < 26
    ensures c == "abcdefghijklmnopqrstuvwxyz"[k] ==> Upper(c) == "ABCDEFGHIJKLMNOPQRSTUVWXYZ"[k]
    ensures Upper(c) != c <==> c in "abcdefghijklmnopqrstuvwxyz"
  {
  }

  function UpperCase(s: string): string {
    if s == "" then "" else [Upper(s[0])] + UpperCase(s[1..])
  }

  function AllUpper(ws: seq<string>): seq<string> {
    if ws == [] then [] else [UpperCase(ws[0])] + AllUpper(ws[1..])
  }

  /** What next_keyword makes of a line as it is written. */
  function Squeezed(raw: string, haveBlank: bool): string {
    if raw == "" then ""
    else if IsBlank(raw[0]) then (if haveBlank then "" else " ") + Squeezed(raw[1..], true)
    else [Upper(raw[0])] + Squeezed(raw[1..], false)
  }

  lemma {:induction false} UpperCaseGrows(s: string, c: char)
    ensures UpperCase(s + [c]) == UpperCase(s) + [Upper(c)]
  {
    if s == "" {
      assert s + [c] == [c] && [c][1..] == "";
    } else {
      assert (s + [c])[1..] == s[1..] + [c];
      UpperCaseGrows(s[1..], c);
    }
  }

  lemma {:induction false} AllUpperJoins(a: seq<string>, b: seq<string>)
    ensures AllUpper(a + b) == AllUpper(a) + AllUpper(b)
  {
    if a == [] {
      assert a + b == b;
    } else {
      assert (a + b)[1..] == a[1..] + b;
      AllUpperJoins(a[1..], b);
    }
  }

  lemma WordEnds(cur: string)
    ensures AllUpper(if cur == "" then [] else [cur]) == if UpperCase(cur) == "" then [] else [UpperCase(cur)]
  {
    if cur != "" {
      assert [cur][1..] == [];
    }
  }

  /** Squeezing keeps the words, in upper case, and only the words. */
  lemma {:induction false} WordsAreKept(raw: string, haveBlank: bool, cur: string)
    requires haveBlank ==> cur == ""
    ensures Words(Squeezed(raw, haveBlank), UpperCase(cur)) == AllUpper(Words(raw, cur))
    decreases |raw|
  {
    if raw == "" {
      WordEnds(cur);
    } else if IsBlank(raw[0]) {
      WordsAreKept(raw[1..], true, "");
      WordEnds(cur);
      AllUpperJoins(if cur == "" then [] else [cur], Words(raw[1..], ""));
      var out := Squeezed(raw, haveBlank);
      if !haveBlank {
        assert out[0] == ' ' && out[1..] == Squeezed(raw[1..], true);
      } else {
        assert out == Squeezed(raw[1..], true);
      }
    } else {
      var out := Squeezed(raw, haveBlank);
      assert out[0] == Upper(raw[0]) && out[1..] == Squeezed(raw[1..], false);
      UpperCaseGrows(cur, raw[0]);
      WordsAreKept(raw[1..], false, cur + [raw[0]]);
    }
  }

  /** A line that fits the buffer comes out squeezed, whatever follows it. */
  lemma {:induction false} LineIsSqueezed(raw: string, rest: string, buffer: string, haveBlank: bool, max: nat,
                                          notice: string)
    requires '\n' !in raw && |buffer| + |Squeezed(raw, haveBlank)| < max
    ensures Lines(raw + "\n" + rest, buffer, haveBlank, max, notice)
         == [buffer + Squeezed(raw, haveBlank)] + Lines(rest, "", true, max, notice)
    decreases |raw|
  {
    var file := raw + "\n" + rest;
    if raw == "" {
      assert file[0] == '\n' && file[1..] == rest && buffer + "" == buffer;
    } else {
      assert file[0] == raw[0] && file[1..] == raw[1..] + "\n" + rest;
      assert raw[0] in raw && forall c :: c in raw[1..] ==> c in raw;
      if IsBlank(raw[0]) && haveBlank {
        LineIsSqueezed(raw[1..], rest, buffer, true, max, notice);
        assert "" + Squeezed(raw[1..], true) == Squeezed(raw[1..], true);
      } else {
        var c := if IsBlank(raw[0]) then " " else [Upper(raw[0])];
        LineIsSqueezed(raw[1..], rest, buffer + c, IsBlank(raw[0]), max, notice);
        assert buffer + c + Squeezed(raw[1..], IsBlank(raw[0])) == buffer + Squeezed(raw, haveBlank);
      }
    }
  }

  function FileOf(raws: seq<string>): string {
    if raws == [] then "" else raws[0] + "\n" + FileOf(raws[1..])
  }

  predicate Fit(raws: seq<string>, max: nat) {
    forall k :: 0 <= k < |raws| ==> '\n' !in raws[k] && |Squeezed(raws[k], true)| < max
  }

  /** Any file whose lines fit the buffer is read line by line; each line has the words it is written with, in order and
      in upper case. */
  lemma {:induction false} LinesHaveWords(raws: seq<string>, max: nat, notice: string)
    requires Fit(raws, max)
    ensures var lines := Lines(FileOf(raws), "", true, max, notice);
            |lines| == |raws| && forall k :: 0 <= k < |raws| ==> Words(lines[k], "") == AllUpper(Words(raws[k], ""))
    decreases |raws|
  {
    if raws != [] {
      LineIsSqueezed(raws[0], FileOf(raws[1..]), "", true, max, notice);
      LinesHaveWords(raws[1..], max, notice);
      WordsAreKept(raws[0], true, "");
      assert "" + Squeezed(raws[0], true) == Squeezed(raws[0], true);
    }
  }

  // ---------------------------------------------------------------- comments

  predicate Skipped(line: string) {
    line == "" || line[0] == '*'
  }

  /** The next line is the first that is neither empty nor a comment. */
  lemma {:induction false} ReadsFirstLine(lines: seq<string>, k: nat)
    requires k <= |lines| && (forall j :: 0 <= j < k ==> Skipped(lines[j])) && (k < |lines| ==> !Skipped(lines[k]))
    ensures ReadLine(lines) == if k < |lines| then Scan(lines[k], lines[k + 1..]) else Scan("", [])
    decreases |lines|
  {
    if k > 0 {
      assert Skipped(lines[0]);
      ReadsFirstLine(lines[1..], k - 1);
    }
  }

  // ---------------------------------------------------------------- keywords and their data

  /** No semicolon in the data, and no blank in front of it. */
  predicate DataOk(gap: string, data: string) {
    (gap == "" || gap == " ") && ';' !in data && (gap == "" && data != "" ==> data[0] != ' ')
  }

  lemma {:induction false} DataEnds(data: string, tail: string)
    requires ';' !in data && (tail == "" || tail[0] == ';')
    ensures DataLength(data + tail) == |data|
    decreases |data|
  {
    if data == "" {
      assert data + tail == tail;
    } else {
      assert data[0] in data && forall c :: c in data[1..] ==> c in data;
      assert (data + tail)[0] == data[0] && (data + tail)[1..] == data[1..] + tail;
      DataEnds(data[1..], tail);
    }
  }

  lemma {:induction false} FindsKeyword(keys: seq<Keyword>, s: string, i: nat, k: nat)
    requires i <= k < |keys| && keys[k] <= s && forall j :: i <= j < k ==> !(keys[j] <= s)
    ensures KeywordAt(keys, s, i) == k
    decreases k - i
  {
    if i < k {
      FindsKeyword(keys, s, i + 1, k);
    }
  }

  lemma BehindKeyword(key: Keyword, s: string, gap: string, behind: string)
    requires s == key + (gap + behind) && DropBlank(gap + behind) == behind
    ensures key <= s && Behind(key, s) == behind
  {
    assert s[|key|..] == gap + behind;
  }

  lemma DataIsCut(data: string, tail: string, behind: string)
    requires ';' !in data && (tail == "" || tail[0] == ';') && behind == data + tail
    ensures DataLength(behind) == |data| && behind[..|data|] == data
    ensures Rest(behind) == if tail == "" then "" else tail[1..]
  {
    DataEnds(data, tail);
    assert tail != "" ==> behind[|data| + 1..] == tail[1..] && |data| < |behind|;
  }

  lemma FoundIs(keys: seq<Keyword>, sc: Scan, at: Scan, k: nat, behind: string)
    requires at == Prepare(sc) && k < |keys| && KeywordAt(keys, at.rest, 0) == k && at.rest != ""
    requires keys[k] <= at.rest && Behind(keys[k], at.rest) == behind && Followed(keys[k], behind)
    ensures NextKeyword(keys, sc) == Found(k, behind[..DataLength(behind)], Scan(Rest(behind), at.lines))
  {
  }

  /** The text is keyword k, a blank or none, and its data, up to the end or a semicolon: that keyword is answered, with
      just that data, and the scan goes on behind the semicolon. A keyword without an equals sign has no data. */
  lemma KeywordIsRead(keys: seq<Keyword>, sc: Scan, k: nat, gap: string, data: string, tail: string)
    requires k < |keys| && DataOk(gap, data) && (tail == "" || tail[0] == ';')
    requires Prepare(sc).rest == keys[k] + (gap + (data + tail)) && (keys[k][|keys[k]| - 1] == '=' || data == "")
    requires forall j :: 0 <= j < k ==> !(keys[j] <= Prepare(sc).rest)
    ensures NextKeyword(keys, sc) == Found(k, data, Scan(if tail == "" then "" else tail[1..], Prepare(sc).lines))
  {
    var at, behind := Prepare(sc), data + tail;
    BlankDropped(gap, data, tail);
    BehindKeyword(keys[k], at.rest, gap, behind);
    FindsKeyword(keys, at.rest, 0, k);
    DataIsCut(data, tail, behind);
    FoundIs(keys, sc, at, k, behind);
  }

  lemma BlankDropped(gap: string, data: string, tail: string)
    requires DataOk(gap, data) && (tail == "" || tail[0] == ';')
    ensures DropBlank(gap + (data + tail)) == data + tail
  {
    if gap == "" {
      assert gap + (data + tail) == data + tail;
    } else {
      assert (gap + (data + tail))[1..] == data + tail;
    }
  }

  /** No keyword begins the text. */
  lemma NoKeywordIsRead(keys: seq<Keyword>, sc: Scan)
    requires Prepare(sc).rest != "" && forall j :: 0 <= j < |keys| ==> !(keys[j] <= Prepare(sc).rest)
    ensures NextKeyword(keys, sc) == Found(-1, "", Prepare(sc))
  {
    assert KeywordAt(keys, Prepare(sc).rest, 0) == |keys|;
  }
}
