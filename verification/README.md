# Verification of the OSC200 tools

This project models the parts of the OSC200 source tree that compute something intricate, and proves what they
promise. `dafny verify dfyconfig.toml` checks all of it.

- **Time zone compiler** (`zic.c`, and the readers in `zdump.c`, `tzset.c` and `ctime.c`): `ZicTime` is the calendar
  arithmetic with its overflow tests, `ZicTables` the interned output tables, `ZicOutzone` what `outzone` computes and
  `ZicOutzoneRun` how it does so in place. `ZicFirings` and `ZicRuns` prove what a line of a zone guarantees: the
  order of firings and its bounds. `ZicLookup`, `ZicSound`, `ZicFirstLine`, `ZicStart`, `ZicAnswers`, `ZicZones` and
  `ZicInForce` prove what a run over a whole zone guarantees: sound tables, the start of each line, and that a look-up
  answers with the last rule fired. `ZicOvertaken` is a zone for which a line's start goes wrong, `ZicSpaced` one for
  which nothing does. `ZicAsked` and `ZicNextLine` say what each line asks for and when the next one starts, in terms
  of the rules that fired. `ZicAssociate` groups rules, `ZicFields` splits lines in place and `ZicLineText` says what
  the fields are. `TzFile` writes the file, `TzLoad` is the library's side of it (`tzset.c`, `ctime.c`), and
  `ZicClock` goes all the way from the zone to the look-up.
- **Label encodings compiler** (`labelcomp.c`): `LabelWords` is the word parser, `LabelBits` the bit-list parser,
  `LabelLength` the buffer size of a label together with the renderer it is meant for, and `LabelText` what that
  renders. `LabelScan`, `LabelConstraints`, `LabelAgreement`, `LabelPasses` and `LabelEncodings` are the two passes
  over an encodings file, one that counts and one that converts, `LabelCompiler` their loops, and `LabelOverrun` the
  input on which they part. `LabelLines` says which words and data of the file reach them, `LabelIndices` what a
  constraint converts to, `LabelContents` what stands in the strings, byte by byte, and `LabelAccepted` which files
  get through. `LabelStore` is the relocation of the compiled block for writing and back, `LabelLoad` the loading of
  what was written at another address (`mandlib.c`).
- **Secure export** (`sec_export.c`): `ExportHeader` packs, negotiates and unpacks the security strings of a file.
- **Printing** (`lplf.c`, `lpbanner.c`): `Lplf` is the line filter and its labelled pages, `LplfText` and `LplfPages`
  say what is printed and on which page, `LpBanner` is the line breaker.
- **Partitions** (`pickapart.c`): `Pickapart` prunes partitions that overlap those in use.

`Machine` holds what they share: the widths of C integers and the outcome of a program that may exit.

State that the programs change in place is changed in place here: tables, buffers, marks and cursors are fields and
arrays of classes, and each method's contract ties the new state to a function, about which the theorems are proved.
A read of memory the program does not own appears as the outcome `WildRead`, as a failure, or as a parse that is
`None`.

## Where the code departs from its own documentation

- A `<=` rule whose weekday comes after the anchor's in the week lands one day early (`zic.c:1513-1514`).
  `ZicTime.LeqIsNearest` says exactly when.
- `rpytime` tests midnight rather than the wanted second, so it rejects some representable times on one day,
  1901-12-13; `tadd` does not notice an overflow by 2^32 or more.
- Abbreviation indices are plain characters: beyond 128 bytes of abbreviations `addtype` may read in front of
  `chars` (`ZicTables.WildReadsExactly`, and `ZicTables.WildReadIsReached` for a run that does).
- `outzone` reads `types[-1]` when a line with an UNTIL ends before any transition was written. What lies there is the
  parameter `stray`. `ZicStart.WhenStrayIsRead` says exactly which zones depend on it: those of several lines whose
  first line has no rule with a saving before its UNTIL, both under the standard offset of the line, such as
  `US/Samoa`, `Australia/West` and `Australia/Queensland` of this tree. If that line has no rules at all, the second
  starts when it should if type 0 happens to lie there (`ZicStart.PlainFirstLine`).
- A line's first transition can be followed by an earlier one if local times are closer than the saved hours
  (`ZicOvertaken.StartCanBeOvertaken`).
- Before the first transition `localtime` looks for a type of standard time among as many types as there are
  transitions, not as there are types (`ctime.c:163-170`), so with more transitions than types and no standard time it
  reads beyond the types (`TzLoad.FirstStandardIs`).
- `getfields` leaves the line when a quote is never closed.
- In an encodings file, a continuation line that is a backslash alone ends the constraint for the conversion pass
  only; the strings may then overrun what was counted (`LabelOverrun.LoneBackslashOverruns`).
  `LabelAgreement.ConstraintFits` says that the passes part there and nowhere else, and
  `LabelEncodings.TwoPassesAgree` by how much the strings are overrun over a whole file: a short for each.
- Only a NAME that follows checks that a classification has an SNAME and a VALUE (`labelcomp.c:2219-2242`), so that the
  last one is stored unchecked (`labelcomp.c:2302-2308`). Without a VALUE it is stored at index -1, which is not part of
  this model. Without an SNAME its null pointer is adjusted like the others (`labelcomp.c:2929-2940`), and `l_dbload`
  makes a wild pointer of it; `LabelLoad.LoadedExactly` says that a block is loaded as it was compiled if and only if no
  short name is missing.
- The counting pass takes delimiters inside names for words, so it may reserve too much; without such names it
  reserves what is used.
- The conversion pass does not advance `tables` past a constraint, so it uses fewer tables than counted. The
  parameter `advance` restores the advance, and the tables then come out even.
- `l_max_length` is a short and counts long names only. `LabelLength.LongestExactly` says for any table when it
  suffices; where no word needs both a prefix and a suffix, `LabelLength.MaxLengthExactly` and
  `LabelLength.ShortNamesExactly` say it in terms of the worst case that is counted.
- `parse_bits` takes numbers modulo 2^32 and needs no blank before a `~`.
- A missing access list is not noticed on export (`sec_export.c:2468-2471`), and its byte is copied from address 0.
- `prune` misses overlaps of partitions in use that themselves overlap, as its own comment warns;
  `Pickapart.TwoInUseExactly` says for which two, and `Pickapart.AnyInUseExactly` for any number.
- `output` never sets `doneindent`, so it may print the indent more than once on a line (`Lplf.IndentRepeats`).
- `psarray` does not end for a line length of zero and a non-empty string; `output` makes no progress when the indent
  leaves no room on a line, unless the line starts with its newline.

## Model

| member | source | states |
|---|---|---|
| `ZicTime.Oadd` | usr/opt/OSC200/src/etc/zoneinfo/zic.c:1413-1426 | the sum, or exit exactly when the true sum does not fit a long, although the check only looks at the wrapped result |
| `ZicTime.Tadd` | usr/opt/OSC200/src/etc/zoneinfo/zic.c:1428-1445 | for addends of at most 32 bits: the saturated sum, or exit exactly when the true sum does not fit a time_t |
| `ZicTime.TaddMissesExactly` | usr/opt/OSC200/src/etc/zoneinfo/zic.c:1439-1444 | for any long addend that an extreme time does not absorb: the overflow goes unnoticed exactly when the addend is 2^32 or more in size and its low part alone moves the time the same way |
| `ZicTime.TaddWitness` | usr/opt/OSC200/src/etc/zoneinfo/zic.c:1439-1444 | 0 plus 2^32 + 1 is taken for 1 |
| `ZicTime.DaysToMonth` | usr/opt/OSC200/src/etc/zoneinfo/zic.c:1461-1478 | walking year by year in either direction, then month by month, gives the Gregorian day number of the first of the month, in closed form |
| `ZicTime.WeekdayOf` | usr/opt/OSC200/src/etc/zoneinfo/zic.c:1494-1504 | the weekday of a day number before or after 1970, without the remainder of a negative number |
| `ZicTime.SeekWeekday` | usr/opt/OSC200/src/etc/zoneinfo/zic.c:1505-1516 | moves by exactly the number of days the rule calls for, and by one more than that where a backward search passes Sunday |
| `ZicTime.CheapOverflowCheck` | usr/opt/OSC200/src/etc/zoneinfo/zic.c:1528-1532 | the division test holds exactly when midnight fits a time_t, and then the truncated product is exact |
| `ZicTime.DaysToSeconds` | usr/opt/OSC200/src/etc/zoneinfo/zic.c:1528-1540 | the time of the day, or the extreme time in the rule's own last or first year, or exit |
| `ZicTime.Rpytime` | usr/opt/OSC200/src/etc/zoneinfo/zic.c:1452-1541 | rpytime as written computes RuleTime |
| `ZicTime.RuleTimeIsExact` | usr/opt/OSC200/src/etc/zoneinfo/zic.c:1452-1541 | a time that did not saturate is day number * 86400 + time of day for a date in the wanted year and month; when midnight fits, saturation or exit happens exactly if the second does not fit |
| `ZicTime.MidnightTestIsTooStrict` | usr/opt/OSC200/src/etc/zoneinfo/zic.c:1528-1540 | the one case where the test fires although the second fits |
| `ZicTime.StrictOnOneDay` | usr/opt/OSC200/src/etc/zoneinfo/zic.c:1528-1540 | that case is the day 1901-12-13 and no other |
| `ZicTime.LeapDayRule` | usr/opt/OSC200/src/etc/zoneinfo/zic.c:1480-1488 | in a year without February 29 a rule for that day means the 28th if it looks backward from there, and otherwise ends the program |
| `ZicTime.DomIsNamed` | usr/opt/OSC200/src/etc/zoneinfo/zic.c:1479-1490 | any other rule for a day of the month names that day |
| `ZicTime.GeqIsNearest` | usr/opt/OSC200/src/etc/zoneinfo/zic.c:1505-1521 | a >= rule names day d exactly if d is the first day from the anchor on with the weekday, and the month has it |
| `ZicTime.LeqIsNearest` | usr/opt/OSC200/src/etc/zoneinfo/zic.c:1511-1521 | a <= rule lands on its weekday if and only if that weekday does not come after the anchor's in the week; otherwise one day early |
| `ZicTime.LeqWitness` | usr/opt/OSC200/src/etc/zoneinfo/zic.c:1513-1514 | Sat<=14 finds Saturday the 14th in February 1987 but Friday the 12th in February 1988 |
| `ZicTime.YearsAreOrdered` | usr/opt/OSC200/src/etc/zoneinfo/zic.c:1452-1541 | unsaturated times of an earlier year come before those of a later one |
| `ZicTables.TzOutput.Addtt` | usr/opt/OSC200/src/etc/zoneinfo/zic.c:1241-1254 | appends a transition unless it repeats the last type; exit when the array is full |
| `ZicTables.TzOutput.Newabbr` | usr/opt/OSC200/src/etc/zoneinfo/zic.c:1543-1556 | appends the abbreviation with its NUL, within the limit |
| `ZicTables.TzOutput.Addtype` | usr/opt/OSC200/src/etc/zoneinfo/zic.c:1256-1291 | finds or adds a type and its abbreviation, with the indices stored in signed characters |
| `ZicTables.AddTypeIsSound` | usr/opt/OSC200/src/etc/zoneinfo/zic.c:1256-1291 | the index answered is of exactly the type requested, no duplicate arises, and earlier entries and names keep their meaning, also where an abbreviation is shared as a suffix of another |
| `ZicTables.AddTtIsSound` | usr/opt/OSC200/src/etc/zoneinfo/zic.c:1241-1254 | adjacent transitions keep different types, and the last transition has the type just added |
| `ZicTables.RunIsSound` | usr/opt/OSC200/src/etc/zoneinfo/zic.c:1241-1291 | over every sequence of additions the tables stay sound and earlier entries stay as they were |
| `ZicTables.ReachableTablesAreSound` | usr/opt/OSC200/src/etc/zoneinfo/zic.c:1241-1291 | every state reachable from empty tables is sound: valid indices, no two equal types, adjacent transitions of different types |
| `ZicTables.WildReadsExactly` | usr/opt/OSC200/src/etc/zoneinfo/zic.c:1263-1274 | the search reads outside chars exactly when a type that agrees in offset and flag, and whose index has turned negative, comes before any match |
| `ZicTables.WildReadIsReached` | usr/opt/OSC200/src/etc/zoneinfo/zic.c:1263-1274 | a run reaches it: behind a first abbreviation of 130 bytes, asking twice for a second type |
| `ZicTables.IndicesFitAByte` | usr/opt/OSC200/src/etc/zoneinfo/zic.c:1281-1288 | an index always fits a byte, since chars is limited to 255, so the stored byte still tells which it was |
| `ZicTables.FewCharsAreSafe` | usr/opt/OSC200/src/etc/zoneinfo/zic.c:1263-1274 | with at most 128 bytes of abbreviations that never happens |
| `ZicOutzoneRun.ZoneRun.Outzone` | usr/opt/OSC200/src/etc/zoneinfo/zic.c:1095-1239 | outzone, as it changes its locals and the global tables, computes RunZone |
| `ZicOutzoneRun.ZoneRun.DoYear` | usr/opt/OSC200/src/etc/zoneinfo/zic.c:1154-1229 | the inner loop ends and computes RunYear |
| `ZicOutzoneRun.ZoneRun.DoRound` | usr/opt/OSC200/src/etc/zoneinfo/zic.c:1160-1228 | one round clears one mark and advances the run by one firing |
| `ZicOutzoneRun.ZoneRun.FireRule` | usr/opt/OSC200/src/etc/zoneinfo/zic.c:1200-1228 | what becomes of the rule picked: past UNTIL, before the start, or in force |
| `ZicOutzoneRun.ZoneRun.SetNextStart` | usr/opt/OSC200/src/etc/zoneinfo/zic.c:1234-1236 | the start of the next line under the last type written; a wild read where no transition was written |
| `ZicOutzoneRun.MarkRules` | usr/opt/OSC200/src/etc/zoneinfo/zic.c:1143-1153 | marks exactly the rules in force in a year and computes their times |
| `ZicOutzoneRun.PickRule` | usr/opt/OSC200/src/etc/zoneinfo/zic.c:1176-1195 | the search for the earliest rule to do |
| `ZicFirings.PickIsEarliest` | usr/opt/OSC200/src/etc/zoneinfo/zic.c:1176-1195 | the rule picked has the least instant under the offsets in force, the first such in the list, and extreme times are passed over |
| `ZicFirings.YearFirings` | usr/opt/OSC200/src/etc/zoneinfo/zic.c:1154-1229 | in a year no rule fires twice, the number of rounds is at most the number of rules to do, and every verdict (early, in force, stopped at UNTIL) is what the offsets then in force say |
| `ZicFirings.YearIsComplete` | usr/opt/OSC200/src/etc/zoneinfo/zic.c:1154-1229 | without an UNTIL every rule to do fires |
| `ZicFirings.YearInOrder` | usr/opt/OSC200/src/etc/zoneinfo/zic.c:1154-1229 | if local times are further apart than the offsets can differ, rules fire in local-time order and their instants increase |
| `ZicAsked.LineAsks` | usr/opt/OSC200/src/etc/zoneinfo/zic.c:1123-1237 | any rule-driven line from any state, told from its firings alone: each is timed and judged under the offsets that those before it leave; a rule taken asks for a transition to the offset of the line with its saving, its letters in the format, and its flag; the first one taken behind the start of the line also asks for one at the start, to offset, letters and flag of the last rule before the start, and for none if there is no such rule or it comes at the start itself |
| `ZicAsked.ReachedLineAsks` | usr/opt/OSC200/src/etc/zoneinfo/zic.c:1123-1237 | the same for every line of a run that is reached |
| `ZicAsked.PlainLineAsks` | usr/opt/OSC200/src/etc/zoneinfo/zic.c:1124-1135 | a line without rules asks for its one type, from its start on if it has one |
| `ZicAsked.StartIsAnswered` | usr/opt/OSC200/src/etc/zoneinfo/zic.c:1200-1228 | in a spaced zone a look-up at any instant from the start of a line up to its first rule taken gives the offset of the line with the saving of the last rule before the start, and the letters and flag of that rule |
| `ZicAsked.ExpandInserts` | usr/opt/OSC200/src/etc/zoneinfo/zic.c:1208-1210 | the letters of a rule stand where the format has its %s |
| `ZicAsked.ExpandKeeps` | usr/opt/OSC200/src/etc/zoneinfo/zic.c:1208-1210 | a format without a conversion is the abbreviation |
| `ZicNextLine.NextLineStarts` | usr/opt/OSC200/src/etc/zoneinfo/zic.c:1230-1237 | in any run the line behind one that has asked for a transition starts at the UNTIL time less the offset of the last transition asked for, the extreme times aside, and zic gives up exactly if that is no time |
| `ZicRuns.YearsFirings` | usr/opt/OSC200/src/etc/zoneinfo/zic.c:1136-1230 | over all years of a line no rule fires twice in a year, and every firing is of a rule in one of its years |
| `ZicRuns.YearsInOrder` | usr/opt/OSC200/src/etc/zoneinfo/zic.c:1136-1230 | the order of YearInOrder across all years of a line |
| `ZicRuns.LineIsAccounted` | usr/opt/OSC200/src/etc/zoneinfo/zic.c:1123-1237 | any rule-driven line from any state: every transition it asks for or writes is for a rule taken, at its time or, for the first one taken, at the start of the line; both are strictly before the UNTIL instant under the offsets then in force; and the first rule taken is not before the start |
| `ZicRuns.StartBeforeUntil` | usr/opt/OSC200/src/etc/zoneinfo/zic.c:1206-1228 | a transition at the start of a line is strictly before UNTIL as well |
| `ZicRuns.LineStartsOnTime` | usr/opt/OSC200/src/etc/zoneinfo/zic.c:1123-1237 | with spaced local times no transition of the line comes before its start |
| `ZicLookup.OneLineZone` | usr/opt/OSC200/src/etc/zoneinfo/zic.c:1136-1229 | a zone of one rule-driven line with spaced local times: each rule fires exactly once in each of its years, in local-time order, the times written strictly increase, and a look-up at any instant from the first on gives offset, abbreviation and flag of the last rule fired |
| `ZicSound.LinesAreSound` | usr/opt/OSC200/src/etc/zoneinfo/zic.c:1123-1238 | any zone, line by line: the tables with which a line starts and those it leaves are sound, whatever becomes of the run after it |
| `ZicSound.ZoneTablesAreSound` | usr/opt/OSC200/src/etc/zoneinfo/zic.c:1095-1291 | whatever the zone, a run that ends well leaves sound tables |
| `ZicSound.RunIsIterated` | usr/opt/OSC200/src/etc/zoneinfo/zic.c:1123-1237 | a run is its lines one after the other, each from the start the line before sets |
| `ZicOvertaken.StartCanBeOvertaken` | usr/opt/OSC200/src/etc/zoneinfo/zic.c:1200-1237 | without the spacing: a run over a zone of two lines starts the second at 1000, writes a transition there and then one at -2590 |
| `ZicFirstLine.FirstLineWrites` | usr/opt/OSC200/src/etc/zoneinfo/zic.c:1124-1228 | after the first line no transition has been written exactly if it has no rules or took none with a saving |
| `ZicFirstLine.FirstLineSaves` | usr/opt/OSC200/src/etc/zoneinfo/zic.c:1136-1229 | a first line with an UNTIL takes a rule with a saving exactly if one with a saving falls, in a year up to that of UNTIL, before UNTIL, both under the standard offset of the line, whatever other rules fire |
| `ZicStart.WhenStrayIsRead` | usr/opt/OSC200/src/etc/zoneinfo/zic.c:1234-1236 | types[-1] is read for the start of the second line exactly if no rule with a saving of the first line comes before its UNTIL under its standard offset; then the run exits unless a type of the first line happens to lie there, and otherwise no run depends on what lies there |
| `ZicStart.PlainFirstLine` | usr/opt/OSC200/src/etc/zoneinfo/zic.c:1128-1236 | a zone of several lines whose first has no rules: it starts its second line at UNTIL under its own offset if type 0 lies in front of types, and never ends well otherwise |
| `ZicAnswers.TablesTell` | usr/opt/OSC200/src/etc/zoneinfo/zic.c:1241-1291 | any additions, with transitions asked for in the order of their times: the times written increase, and a look-up at any instant gives the last type asked for by then, although a transition to the type in force is not written |
| `ZicZones.ZoneInOrder` | usr/opt/OSC200/src/etc/zoneinfo/zic.c:1123-1237 | a zone of any number of lines whose local times and UNTIL times are further apart than its offsets can differ: transitions are asked for in the order of their times, within and across lines |
| `ZicInForce.ZoneAnswers` | usr/opt/OSC200/src/etc/zoneinfo/zic.c:1095-1291 | for such a zone the times written strictly increase, a look-up at any instant gives the last type asked for by then, and at the time of each rule taken, on whichever line and in whichever year, that is the type of the rule; only a standard-time rule before the first transition finds nothing to look up |
| `ZicSpaced.SpacedExample` | usr/opt/OSC200/src/etc/zoneinfo/zic.c:1095-1239 | a zone of two rule-driven lines that is spaced in this sense, whose run goes through and writes two transitions |
| `ZicAssociate.Associate` | usr/opt/OSC200/src/etc/zoneinfo/zic.c:554-597 | every line gets exactly the rules bearing the name it asks for, as one contiguous slice, whatever order qsort leaves equal names in |
| `ZicAssociate.NamedPermutes` | usr/opt/OSC200/src/etc/zoneinfo/zic.c:554-597 | the rules of a name are the same multiset before and after sorting, so the input order does not matter |
| `ZicAssociate.NamedIsEmpty` | usr/opt/OSC200/src/etc/zoneinfo/zic.c:590-597 | a line is left without rules exactly if no rule bears its name |
| `ZicFields.Getfields` | usr/opt/OSC200/src/etc/zoneinfo/zic.c:1378-1411 | splits the line in its own buffer: the write cursor never passes the read cursor, the starts fit the array, and the fields are those of Split; it leaves the buffer exactly where Split is None |
| `ZicFields.ScanField` | usr/opt/OSC200/src/etc/zoneinfo/zic.c:1392-1406 | one field, copied down over its quotes |
| `ZicFields.SplitNeedsBalance` | usr/opt/OSC200/src/etc/zoneinfo/zic.c:1399-1402 | getfields stays inside its buffer exactly on the lines whose quotes are balanced, a # outside quotes ending the line |
| `ZicFields.SplitInvertsQuote` | usr/opt/OSC200/src/etc/zoneinfo/zic.c:1378-1411 | any list of quote-free fields, printed in double quotes with blanks between, splits into itself |
| `ZicLineText.SplitReadsLine` | usr/opt/OSC200/src/etc/zoneinfo/zic.c:1378-1411 | any line of fields, each of plain and quoted pieces in any order, with blanks around them and an optional # comment behind, splits into the texts of the fields: plain pieces as they stand and quoted ones without their quotes |
| `ZicLineText.SplitReadsPlain` | usr/opt/OSC200/src/etc/zoneinfo/zic.c:1378-1411 | any list of non-empty fields without blanks, quotes and #, printed with runs of blanks between and an optional comment, splits into itself |
| `TzFile.Puttzcode` | usr/opt/OSC200/src/etc/zoneinfo/zic.c:1034-1046 | four bytes, most significant first |
| `TzFile.Tzdecode` | usr/opt/OSC200/src/etc/zoneinfo/zdump.c:68-79 | the value of four bytes |
| `TzFile.DecodeInvertsCode` | usr/opt/OSC200/src/etc/zoneinfo/zic.c:1034-1046 | decoding inverts encoding modulo 2^32, so every time_t survives |
| `TzFile.Writezone` | usr/opt/OSC200/src/etc/zoneinfo/zic.c:1048-1093 | the file: three counts, times, type indices, types, abbreviations |
| `TzFile.ReadTimes` | usr/opt/OSC200/src/etc/zoneinfo/zdump.c:159-184 | zdump's reading of a file: ok exactly when it is long enough for the times it announces, and then those times |
| `TzFile.ZdumpReadsBack` | usr/opt/OSC200/src/etc/zoneinfo/zdump.c:159-184 | from any file writezone writes, zdump reads exactly the transition times |
| `TzLoad.TzState.Tzload` | usr/opt/OSC200/src/usr/ccs/lib/libc/tzset.c:150-207 | tzload, once the file is in its buffer: ok exactly if the counts are within the limits, the file is long enough and every index is in use; then the state holds what stands at its place in the buffer |
| `TzLoad.TzState.LookUp` | usr/opt/OSC200/src/usr/ccs/lib/libc/ctime.c:161-177 | the search of localtime ends with the type of TypeFor, or reads beyond the types |
| `TzLoad.SegmentIsLast` | usr/opt/OSC200/src/usr/ccs/lib/libc/ctime.c:171-175 | from the first transition on localtime takes the type of the last transition up to the time asked for |
| `TzLoad.FirstStandardIs` | usr/opt/OSC200/src/usr/ccs/lib/libc/ctime.c:163-170 | before it, the first standard-time type among as many as there are transitions, or type 0 |
| `TzLoad.LoadInvertsWrite` | usr/opt/OSC200/src/usr/ccs/lib/libc/tzset.c:150-207 | any file writezone writes fits the buffer of tzload and is taken exactly if it has a type; then the state holds the tables again: each time, type, offset, flag, abbreviation and character |
| `ZicClock.LoadAndLookUp` | usr/opt/OSC200/src/usr/ccs/lib/libc/ctime.c:161-177 | write, load and look up: from the first transition on the type found is the last one asked for by then |
| `ZicClock.CompileAndLookUp` | usr/opt/OSC200/src/etc/zoneinfo/zic.c:1048-1291 | from the zone to the clock: for a spaced zone of any number of lines, localtime finds in the file that zic wrote offset, flag and abbreviation of the last transition that the lines asked for |
| `LabelWords.Scanner.WordIndex` | usr/opt/OSC200/src/seccmd/labelcomp.c:1358-1530 | the scan ends, and index and scan pointer are those of Lookup |
| `LabelWords.LookupIsSound` | usr/opt/OSC200/src/seccmd/labelcomp.c:1358-1530 | an index is answered only for the word by itself, after the prefix it needs, or before the suffix it needs, each ending at a blank or the end, and the scan pointer is right behind |
| `LabelWords.LookupInvertsPrint` | usr/opt/OSC200/src/seccmd/labelcomp.c:1358-1530 | printing a word with its prefix and suffix, all with long names or all with short ones, from an unambiguous, well-referenced table and looking the text up gives the word back; behind a prefix the suffix is left unread |
| `LabelBits.BitPair.ParseBits` | usr/opt/OSC200/src/seccmd/labelcomp.c:685-735 | true exactly for a list of bits and ranges; the mask gains all bits listed, the value those listed without ~ |
| `LabelBits.AcceptsExactly` | usr/opt/OSC200/src/seccmd/labelcomp.c:685-735 | the language accepted is an optional blank and the text of a well-formed list, and the list is determined by the text |
| `LabelBits.BitsWithinLimit` | usr/opt/OSC200/src/seccmd/labelcomp.c:710-727 | no bit beyond the limit is set, and the value stays within the mask |
| `LabelBits.RangeIsWhole` | usr/opt/OSC200/src/seccmd/labelcomp.c:716-727 | a range stands for every bit from its first number to its last, and a number for its own bit |
| `LabelBits.ParseInvertsPrint` | usr/opt/OSC200/src/seccmd/labelcomp.c:685-772 | any mask within the limit with a value inside it can be written down bit by bit and is read back |
| `LabelBits.DecimalsAreReadBack` | usr/opt/OSC200/src/seccmd/labelcomp.c:141-143 | in particular with the bit numbers in plain decimal |
| `LabelBits.NumberIsDecimal` | usr/opt/OSC200/src/seccmd/labelcomp.c:141-143 | a number is its decimal value modulo 2^32 |
| `LabelBits.NumbersWrap` | usr/opt/OSC200/src/seccmd/labelcomp.c:710-715 | a bit number is accepted exactly when its low 32 bits are within the limit, which the comment does not say |
| `LabelBits.BlankIsOptional` | usr/opt/OSC200/src/seccmd/labelcomp.c:699-732 | a ~ separates items as well as a blank, which the comment does not say |
| `LabelLength.ComputeMaxLength` | usr/opt/OSC200/src/seccmd/labelcomp.c:1875-1956 | l_max_length is the worst case over the full table, cut to a short |
| `LabelLength.Convert` | usr/opt/OSC200/src/usr/ccs/lib/libsecurity/std_labels.c:1131-1269 | the renderer appends the words of Rendered, prefixes and suffixes once per run |
| `LabelText.LabelReads` | usr/opt/OSC200/src/usr/ccs/lib/libsecurity/std_labels.c:1131-1269 | the label of any selection from a table whose words need at most one affix, in groups: words with the same prefix or suffix stand together with slashes between, their prefix once in front and their suffix once behind, a blank between groups |
| `LabelLength.SelectionIsShorter` | usr/opt/OSC200/src/seccmd/labelcomp.c:1875-1956 | leaving words out never makes the counted length larger |
| `LabelLength.RenderedWithin` | usr/opt/OSC200/src/usr/ccs/lib/libsecurity/std_labels.c:1131-1269 | the renderer stays within the counted length although the prefix it keeps open may differ from the counted one |
| `LabelLength.MaxLengthSuffices` | usr/opt/OSC200/src/seccmd/labelcomp.c:1875-1956 | every label of any selection of main words fits l_max_length, NUL included, if the worst case fits a short and printed names are no longer than output names |
| `LabelLength.RenderedExactly` | usr/opt/OSC200/src/usr/ccs/lib/libsecurity/std_labels.c:1131-1269 | the bound is tight: with at most one prefix or suffix per word the label of all main words has exactly the counted length |
| `LabelLength.MaxLengthExactly` | usr/opt/OSC200/src/seccmd/labelcomp.c:1875-1956 | on such tables the stored length suffices for all selections with long names if and only if the worst case fits a short |
| `LabelLength.WorstCaseExactly` | usr/opt/OSC200/src/seccmd/labelcomp.c:1875-1956 | on such tables all labels with long names fit a limit if and only if the worst case does |
| `LabelLength.ShortNamesExactly` | usr/opt/OSC200/src/seccmd/labelcomp.c:1953-1956 | on such tables the stored length, which counts long names only, suffices for all labels with short names if and only if the worst case over the names printed is within it |
| `LabelLength.LongestExactly` | usr/opt/OSC200/src/seccmd/labelcomp.c:1875-1956 | any table, long names or short: all labels fit a limit if and only if the longest text does, a maximum over selecting or leaving out each main word |
| `LabelLength.WorstCaseIsLoose` | usr/opt/OSC200/src/seccmd/labelcomp.c:1914-1940 | a table whose words need a prefix and a suffix, with 12 bytes counted where the longest label takes 10 |
| `LabelLength.ShortNameTooLong` | usr/opt/OSC200/src/seccmd/labelcomp.c:1953-1956 | one word with a longer short name does not fit |
| `LabelScan.LinesAreNormal` | usr/opt/OSC200/src/seccmd/labelcomp.c:597-631 | whatever the file, next_keyword's buffer never holds a leading blank or two blanks in a row |
| `LabelLines.LinesHaveWords` | usr/opt/OSC200/src/seccmd/labelcomp.c:597-631 | any file whose lines fit the buffer is read line by line, and each line has the words it is written with, in order and in capitals |
| `LabelLines.LineIsSqueezed` | usr/opt/OSC200/src/seccmd/labelcomp.c:608-622 | one such line, whatever follows it |
| `LabelLines.WordsAreKept` | usr/opt/OSC200/src/seccmd/labelcomp.c:608-622 | squeezing blanks keeps the words and only the words |
| `LabelLines.UpperIsCapital` | usr/opt/OSC200/src/seccmd/labelcomp.c:616-619 | the small letters and only those become capitals |
| `LabelLines.ReadsFirstLine` | usr/opt/OSC200/src/seccmd/labelcomp.c:597-631 | the line scanned is the first that is neither empty nor a comment |
| `LabelLines.KeywordIsRead` | usr/opt/OSC200/src/seccmd/labelcomp.c:633-657 | a keyword, a blank or none, and data up to a semicolon or the end: that keyword is answered with just that data, and the scan goes on behind the semicolon |
| `LabelLines.NoKeywordIsRead` | usr/opt/OSC200/src/seccmd/labelcomp.c:633-660 | where no keyword begins the text none is answered, and the scan stays there |
| `LabelScan.NextKeywordIsScanned` | usr/opt/OSC200/src/seccmd/labelcomp.c:570-660 | a call makes progress, keeps the rest normalized, and moves only forward through the lines |
| `LabelCompiler.Input.NextKeyword` | usr/opt/OSC200/src/seccmd/labelcomp.c:570-660 | the loops over lines and keywords find what LabelScan.NextKeyword says |
| `LabelCompiler.CountLine` | usr/opt/OSC200/src/seccmd/labelcomp.c:1694-1710 | the counting loop over a line counts its delimiters as Delims does |
| `LabelCompiler.CountConstraint` | usr/opt/OSC200/src/seccmd/labelcomp.c:1690-1719 | the counting loop over a constraint and its continuation lines |
| `LabelCompiler.StoreWords` | usr/opt/OSC200/src/seccmd/labelcomp.c:1773-1845 | the conversion loop over the words of a constraint, with its two lists |
| `LabelAgreement.ConstraintFits` | usr/opt/OSC200/src/seccmd/labelcomp.c:1689-1847 | one constraint in both passes: check_continuation never goes astray, both passes end at the same place if and only if the constraint does not go on with a line that is a backslash alone, and if it does the counting pass has still to come to the same end; the indices stored and the words still to be counted are never more than were counted, and exactly as many if no name holds a delimiter |
| `LabelAgreement.ConvertLones` | usr/opt/OSC200/src/seccmd/labelcomp.c:1530-1560 | line_continues is on at the end of a constraint exactly if a lone backslash was ahead, and then one fewer is ahead |
| `LabelCompiler.Compiler.DoWords` | usr/opt/OSC200/src/seccmd/labelcomp.c:823-1345 | both passes over the words of a section |
| `LabelCompiler.Compiler.DoCombinations` | usr/opt/OSC200/src/seccmd/labelcomp.c:1572-1860 | both passes over the combinations of a section, with tables not advanced per constraint |
| `LabelPasses.NamesFit` | usr/opt/OSC200/src/seccmd/labelcomp.c:874-959 | what is stored for the words of a section takes exactly the bytes counted, and one record each is counted |
| `LabelContents.NamesStand` | usr/opt/OSC200/src/seccmd/labelcomp.c:861-1000 | behind the strings as they were stand, for each word, the characters of its name and a NUL; if words are not for output only and the name holds a slash, the same with blanks for slashes; then, on an even address, its masks; and its short names. Nothing stored before changes |
| `LabelContents.WordsAreNames` | usr/opt/OSC200/src/seccmd/labelcomp.c:861-880 | the words counted are the names of the section |
| `LabelContents.ClassesStand` | usr/opt/OSC200/src/seccmd/labelcomp.c:2188-2310 | likewise the masks and names of the classifications |
| `LabelContents.TopIsLargest` | usr/opt/OSC200/src/seccmd/labelcomp.c:2188-2310 | there is room for classifications up to the largest VALUE and no further |
| `LabelContents.ConstraintsStand` | usr/opt/OSC200/src/seccmd/labelcomp.c:1657-1857 | behind the strings as they were stands each constraint in order: from an even address on the indices it converts to, two bytes each |
| `LabelIndices.ConversionInvertsWriting` | usr/opt/OSC200/src/seccmd/labelcomp.c:1757-1845 | a constraint written with bars between the words of either list and & or ! between the lists converts into itself: the indices of both lists in order, where the second starts, and which of the two delimiters it has |
| `LabelIndices.PairIsRead` | usr/opt/OSC200/src/seccmd/labelcomp.c:1621-1631 | two words with a blank between them are a required combination |
| `LabelIndices.PairIsTwoWords` | usr/opt/OSC200/src/seccmd/labelcomp.c:1621-1631 | a required combination is two words, the second from the end of the first to the end of the line |
| `LabelPasses.ConstraintsFit` | usr/opt/OSC200/src/seccmd/labelcomp.c:1689-1857 | all constraints of a section that both passes accept: they end at the same place; the conversion takes at most a short more than counted for each lone backslash a constraint goes on with, just as many where each constraint stores what was counted, and no more tables than counted; with tables advanced past each constraint, a constraint more for each |
| `LabelEncodings.StageFits` | usr/opt/OSC200/src/seccmd/labelcomp.c:1966-2880 | every section moves strings by no more than was counted and a short for each lone backslash, and tables by no more than was counted |
| `LabelEncodings.TwoPassesAgree` | usr/opt/OSC200/src/seccmd/labelcomp.c:1966-2880 | any file that both passes get through, any word tables, an even base: they end at the same place in the file and the tables within what was reserved; strings overrun what was reserved by at most a short for each lone backslash that a constraint goes on with, and by exactly that if no name holds a delimiter, so that for such names they overrun if and only if there is one and are filled exactly otherwise |
| `LabelContents.StageStands` | usr/opt/OSC200/src/seccmd/labelcomp.c:2126-2880 | each section adds to the strings just what is read off the file for it, and nothing before changes |
| `LabelContents.StringsHoldFile` | usr/opt/OSC200/src/seccmd/labelcomp.c:2126-2880 | the strings of any file that gets through, from the first byte to the last: the masks that are always there, the version, the classifications, each section with its words and constraints, and the accreditation range |
| `LabelAccepted.FileIsAccepted` | usr/opt/OSC200/src/seccmd/labelcomp.c:2126-2880 | as far as its checks are modelled, the conversion gets through a file if and only if every section keyword is where it is expected, no classification keyword comes before the first NAME, each required combination is two words and the constraints follow, each constraint converts, each range has its labels in one of three ways, none where all are valid, and nothing is left behind |
| `LabelAccepted.PairsAccepted` | usr/opt/OSC200/src/seccmd/labelcomp.c:1600-1639 | a record for each required combination and one behind the last |
| `LabelOverrun.LoneBackslashOverruns` | usr/opt/OSC200/src/seccmd/labelcomp.c:1530-1560 | with a continuation line that is a backslash alone the conversion stores 8 bytes where 6 were counted |
| `LabelStore.Block.Dbstore` | usr/opt/OSC200/src/seccmd/labelcomp.c:2889-3028 | in the image every pointer the loops name is an offset and everything else is as in memory; the offset is within the block and not zero exactly where the pointer is not a short classification name that is missing; afterwards the block is restored |
| `LabelStore.Block.AdjustWords` | usr/opt/OSC200/src/seccmd/labelcomp.c:2899-2910 | exactly the live pointers of the words of a table move |
| `LabelStore.Block.AdjustConstraints` | usr/opt/OSC200/src/seccmd/labelcomp.c:2911-2917 | exactly the pointers of the constraints up to L_END move |
| `LabelStore.Block.AdjustClasses` | usr/opt/OSC200/src/seccmd/labelcomp.c:2929-2940 | exactly the live pointers by classification move |
| `LabelStore.WordsOkIn` | usr/opt/OSC200/src/seccmd/labelcomp.c:2942-2966 | the words of a table can be reached as long as its l_words is an address, whatever has been moved already |
| `LabelStore.ConstraintsOkIn` | usr/opt/OSC200/src/seccmd/labelcomp.c:2942-2966 | likewise the constraints as long as l_constraints is an address |
| `LabelStore.NullStays` | usr/opt/OSC200/src/seccmd/labelcomp.c:2907-2938 | a slot, of a short classification name aside, reads null as an offset exactly if it does as an address, because no live pointer is at offset 0 |
| `LabelLoad.Dbload` | usr/opt/OSC200/src/usr/ccs/lib/libsecurity/mandlib.c:453-628 | l_dbload, given the image of a block, leaves that block with every pointer moved to the new address and nothing else changed |
| `LabelLoad.StoreAndLoad` | usr/opt/OSC200/src/seccmd/labelcomp.c:2889-3028 | store at one address and load at another: the loaded block is the compiled one with its pointers moved, and the compiled one is as before |
| `LabelLoad.ImageIsGoodExactly` | usr/opt/OSC200/src/seccmd/labelcomp.c:2929-2940 | all pointers in the image are offsets within the block and not zero if and only if every classification with a long name has a short one |
| `LabelLoad.LoadedExactly` | usr/opt/OSC200/src/seccmd/labelcomp.c:2929-2940 | the loaded block is a compiled table at the new address if and only if every classification with a long name has a short one; a missing one becomes the distance of the two addresses |
| `LabelLoad.UnnamedIsStoredWrong` | usr/opt/OSC200/src/seccmd/labelcomp.c:2302-2308 | a block with one classification and no short name, as the unchecked last classification leaves it, with the image that results |
| `ExportHeader.Negotiate` | usr/opt/OSC200/src/seccmd/sec_export.c:1352-1455 | agreement exactly if the magic number is right and no label bit differs |
| `ExportHeader.SettledFormat` | usr/opt/OSC200/src/seccmd/sec_export.c:1361-1455 | after negotiation the field bits are the tape's, and each bit that says not to set something is on exactly if a field of it is on the tape but not configured; any of the three access lists turns off setting all of them |
| `ExportHeader.Packer.BuildHeader` | usr/opt/OSC200/src/seccmd/sec_export.c:2351-2621 | refusal exactly for the four strings checked, a copy from address 0 exactly for the two lists not checked, and otherwise the header in the buffer with its size |
| `ExportHeader.PackedFits` | usr/opt/OSC200/src/seccmd/sec_export.c:2491-2621 | the header fits the buffer, and fills it exactly if every field is in the format |
| `ExportHeader.Unpack` | usr/opt/OSC200/src/seccmd/sec_export.c:2089-2172 | the pointers are those of Pointers, with an empty kid where the format has no type flags; it runs off the buffer exactly where a NUL is missing |
| `ExportHeader.ImportRecoversExport` | usr/opt/OSC200/src/seccmd/sec_export.c:2089-2621 | export in any format, negotiation with any configuration, import: each of the ten pointers, by its name, is the attribute of that name if its format bit is on, the privilege names each with a blank behind it, and null otherwise, an empty kid aside |
| `ExportHeader.PointersAreExpected` | usr/opt/OSC200/src/seccmd/sec_export.c:2089-2172 | the same field by field for any list of strings |
| `ExportHeader.ExportAndImport` | usr/opt/OSC200/src/seccmd/sec_export.c:2089-2621 | the same on the buffer that BuildHeader leaves: refused exactly if a label, the caveats or the posix list is in the format and missing, a copy from address 0 exactly if another list is, and otherwise every attribute comes back under its own name |
| `ExportHeader.HeaderInOrder` | usr/opt/OSC200/src/seccmd/sec_export.c:2491-2621 | the bytes of the header: the strings of the fields that are on, each with a NUL, in the order options, kid, sensitivity label, the three access lists, caveats, information label, and the two privilege sets |
| `Lplf.Filter.PutLine` | usr/opt/OSC200/src/seccmd/lplf.c:320-428 | output prints the text of Filtered and shifts the rest down |
| `LplfText.FilteredShows` | usr/opt/OSC200/src/seccmd/lplf.c:356-428 | what is taken from the line and what is printed correspond in order: an unfiltered character as itself, a filtered one as a space, a tab as spaces to the next multiple of 8, an unfiltered escape with the character behind it as they are, a carriage return and a backspace as themselves, and a form feed as nothing, with eject; and the loop stops at the line length, the end of the line or a form feed, and leaves the rest |
| `LplfText.PlainIsPrinted` | usr/opt/OSC200/src/seccmd/lplf.c:356-428 | a line of characters that are neither controls nor filtered, and that fits, is printed as the indent, the line and a newline |
| `Lplf.OneNewline` | usr/opt/OSC200/src/seccmd/lplf.c:356-427 | each call prints exactly one newline, at the end; the pending text shrinks if and only if there is room on a line or the text starts with its newline |
| `Lplf.CountIsBounded` | usr/opt/OSC200/src/seccmd/lplf.c:366-413 | the column stays below linelen - indent + 8 |
| `Lplf.FilteredIsClean` | usr/opt/OSC200/src/seccmd/lplf.c:356-413 | nothing that the two maps filter reaches the printer: only unfiltered characters, spaces, carriage returns, backspaces and unfiltered escapes followed by unfiltered characters |
| `Lplf.IndentRepeats` | usr/opt/OSC200/src/seccmd/lplf.c:356-413 | doneindent is never set, so the indent is printed once too often for each character that comes to column 0 again without a carriage return; output prints what it should if and only if there is no indent or no such character |
| `Lplf.Paginator.Paginate` | usr/opt/OSC200/src/seccmd/lplf.c:208-282 | the main loop, with label, prints Job and counts its pages |
| `LplfPages.JobIsPages` | usr/opt/OSC200/src/seccmd/lplf.c:208-282 | which lines come on which page: each page takes lines until it has pagelen - 2 of them or one with a form feed, and is filled up with empty lines, between the two labels and with the form feed behind |
| `Lplf.WholePages` | usr/opt/OSC200/src/seccmd/lplf.c:218-282 | from a page length of three on, every page including the last is label line, exactly pagelen - 2 lines, label, form feed, and pages counts them |
| `Lplf.ShortPages` | usr/opt/OSC200/src/seccmd/lplf.c:218-282 | with a shorter page length that is never so, unless nothing is printed |
| `Lplf.NoTextIsLost` | usr/opt/OSC200/src/seccmd/lplf.c:218-282 | the pages hold exactly the lines output makes, in order |
| `LpBanner.PsArray` | usr/opt/OSC200/src/seccmd/lpbanner.c:949-1062 | psarray ends, although its cursor backs up, and breaks the string into the lines of Array |
| `LpBanner.PareBack` | usr/opt/OSC200/src/seccmd/lpbanner.c:1016-1044 | the backward search ends where LineEnd says |
| `LpBanner.LinesFit` | usr/opt/OSC200/src/seccmd/lpbanner.c:987-1054 | every line broken off a string fits and has no white space at either end |
| `LpBanner.ArrayFits` | usr/opt/OSC200/src/seccmd/lpbanner.c:972-1055 | every line of any string fits; none has white space at either end if and only if the string is as long as a line or has none itself |
| `LpBanner.ArrayKeeps` | usr/opt/OSC200/src/seccmd/lpbanner.c:979-1055 | the characters that are not white space are kept, in order |
| `LpBanner.ArrayIsCut` | usr/opt/OSC200/src/seccmd/lpbanner.c:979-1055 | the lines stand in the string one behind the other with nothing but white space between; none could take in another word, and one that does not fill its line ends at white space |
| `LpBanner.SplitsOnlyLongWords` | usr/opt/OSC200/src/seccmd/lpbanner.c:1016-1044 | a line ends inside a word exactly if a piece of one word fills it and the word goes on |
| `Pickapart.Label.PruneAll` | usr/opt/OSC200/src/isl/pickapart/pickapart.c:219-267 | prune computes Prune on the partitions named in the arguments |
| `Pickapart.NamedExactly` | usr/opt/OSC200/src/isl/pickapart/pickapart.c:232-242 | an argument names a partition exactly if it is the name of the disk with the letter of the partition behind it, small or large |
| `Pickapart.UsedExactly` | usr/opt/OSC200/src/isl/pickapart/pickapart.c:230-243 | a partition is in use exactly if some argument names it |
| `Pickapart.OverlapIsShared` | usr/opt/OSC200/src/isl/pickapart/pickapart.c:253-261 | of partitions with a size the test finds exactly those that share a sector; one without a size counts if it lies strictly inside the other |
| `Pickapart.PruneInSectors` | usr/opt/OSC200/src/isl/pickapart/pickapart.c:232-266 | partitions with a size, of which those in use share no sector: prune leaves each where it is and takes the size of exactly those in use and those that share a sector with one |
| `Pickapart.PruneIsExact` | usr/opt/OSC200/src/isl/pickapart/pickapart.c:232-266 | if the partitions in use do not overlap each other, size 0 is left exactly on those in use and those overlapping one, and all others are unchanged |
| `Pickapart.OrderDoesNotMatter` | usr/opt/OSC200/src/isl/pickapart/pickapart.c:232-266 | neither order nor repetition of the arguments matters then |
| `Pickapart.NeverTooMuch` | usr/opt/OSC200/src/isl/pickapart/pickapart.c:232-266 | whatever is in use, a partition that is not and overlaps none is never touched |
| `Pickapart.TwoInUseExactly` | usr/opt/OSC200/src/isl/pickapart/pickapart.c:232-266 | two partitions in use: prune is exact if and only if they do not overlap or no partition with a size is reached by the second only |
| `Pickapart.AnyInUseExactly` | usr/opt/OSC200/src/isl/pickapart/pickapart.c:232-266 | any number of partitions in use, overlapping or not: prune is exact if and only if every partition with a size that is in use or overlaps one is in use itself or cut by a span of a greedy pass, in which a partition in use that has lost its size counts as the point where it starts |
| `Pickapart.OverlapsAreMissed` | usr/opt/OSC200/src/isl/pickapart/pickapart.c:245-250 | three partitions for which too little is pruned in one order and not in the other |
| `Pickapart.Label.Overlap` | usr/opt/OSC200/src/isl/pickapart/pickapart.c:172-212 | the letters of the partitions that overlap one, separated by commas |
| `Pickapart.LettersInOrder` | usr/opt/OSC200/src/isl/pickapart/pickapart.c:190-211 | they stand in the order of the partitions, each once |
| `Pickapart.PruneTakesListed` | usr/opt/OSC200/src/isl/pickapart/pickapart.c:172-266 | with one partition in use, prune takes off that one and exactly those Overlap lists |

## Left out

- Files, tapes, devices, the message catalog, privileges and authorizations: input is a sequence of lines or bytes, and
  output a sequence of bytes, events or strings.
- `zic.c`: `time_t` is a signed 32-bit int (`usr/include/time.h:90`), so the branch for unsigned times is not modelled;
  a rule's year type is the set of years it answers for; the result of `qsort` is a parameter that is any sorted
  permutation; reading of rule, zone and link lines beyond `getfields`, conversion of field text to numbers, `byword`
  and `isabbr`, and linking of zones.
- `zic.c`: buffers that `sprintf` fills are taken to be long enough, and a zone's format is taken to hold at most one
  `%s`.
- ZicTime.Tadd: its contract covers addends of at most 32 bits, and TaddMissesExactly says what happens beyond.
- ZicRuns.LineStartsOnTime: one direction only. Each firing changes the offset by which the next is judged, so a
  condition that is also necessary would have to follow the run from firing to firing; ZicOvertaken has a run in which
  the spacing is missing and the start is overtaken.
- ZicInForce.ZoneAnswers: one direction only, for the same reason; LineIsAccounted and LinesAreSound hold of every zone.
- ZicLookup.OneLineZone: for one line without saturated times; ZicInForce has what holds of spaced zones of any
  number of lines.
- ZicStart.WhenStrayIsRead: a byte in front of types that is no index of a type in use counts as a failure, although
  the source would read an entry of `gmtoffs` that is not in use.
- ZicAssociate.Associate: the conversion of a ruleless line's rule field to a saving, and its refusal, are left out.
- ZicAsked.StartIsAnswered: for spaced zones, since only there the times written are known to increase; LineAsks holds
  of every line of every zone.
- ZicNextLine.NextLineStarts: where no transition has been asked for, ZicStart.WhenStrayIsRead says what is read.
- TzLoad.TzState.Tzload: finding and reading the file, and the variables `tzname`, `timezone` and `daylight` that are
  set at the end, are not modelled; a state that is half filled when the file is refused is not described.
- ZicClock.CompileAndLookUp: the characters of abbreviations are bytes.
- TzFile.Writezone: the part of the header that is skipped reads as zero.
- `labelcomp.c`: the checks of the conversion pass that only refuse a file (duplicate keywords, classifications and bits
  looked up, words without bits, labels that do not parse) are not modelled, and the tables in which it looks words up
  are arbitrary; what is proved of every file that gets through holds of those that get through all the checks.
- `labelcomp.c`: counts of words are unbounded, while the source keeps them in shorts; NUL and 255 are not expected in
  an encodings file; an overlong line is replaced by a notice whose text is a parameter.
- LabelCompiler.Compiler.DoWords: the checks of the conversion pass that refuse a word are left out.
- LabelCompiler.Compiler.DoCombinations: the parser of a required combination and the sizing and storing of one
  constraint are parameters; LabelWords.Scanner and the methods of LabelCompiler are what they stand for.
- LabelEncodings.TwoPassesAgree: where a name holds a delimiter the strings have an upper bound only, since such a
  delimiter is counted for a word in a line that uses the name.
- LabelEncodings.StageFits: the order of the sections is a list that both passes go through; the loops over
  classifications and accreditation ranges, and check_continuation, are modelled on values.
- LabelContents.StringsHoldFile: masks are cleared bytes as they are when they are set aside; the bits and flags then
  set in them, and the records in the tables, are not modelled.
- LabelAccepted.FileIsAccepted: the checks that are not modelled refuse further files.
- LabelIndices.ConversionInvertsWriting: for a constraint on one line, of words with one affix at most.
- LabelText.LabelReads: for tables in which no word needs both a prefix and a suffix.
- LabelStore.Block.Dbstore: addresses count slots, every field takes one slot, and the tags that say which slot is for
  what are given; the writing of the image itself is not modelled.
- LabelLoad.Dbload: the reading of the file, the check of the mask sizes, which compares unadjusted offsets, and the
  variables that point into the block from outside are not modelled.
- LabelLength.MaxLengthSuffices: prefix and suffix entries carry no bits of their own, so that they are not selected.
- LabelLength.ShortNamesExactly: for tables in which no word needs both a prefix and a suffix; LongestExactly holds of
  the others as well.
- LabelBits.BitPair: the masks are sets of bits; `set_flags`, which sets bits of a short, is not modelled.
- `sec_export.c`: masks are sets of bit numbers; the text form of the header, what the importer does with the strings,
  path splicing and the multilevel directory handling.
- Lplf.Filter.PutLine: literal mode is left out.
- Lplf.Paginator.Paginate: jobs without a label and printers that truncate lines are left out.
- `lplf.c`: the printer database; `lprcat.c` is nearly the same program.
- `lpbanner.c`: block letters, the header page and the escaping of characters in PostScript strings; the line length is
  given, and is at least one.
- Pickapart.Label.PruneAll: offsets and sizes are taken to add up within an unsigned int.
- `authck.c`, `setfiles.c`, `epa.c`, `finder.c`, `imake.c`, `cdl.c` and the other tools are not modelled.
