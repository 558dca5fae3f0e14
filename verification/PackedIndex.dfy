/** The text index of a packed weight file: writing it, what a file of any lines
    means to the parser, and when the parser gets the tensors back
    (sllm_store/sllm_store/torch.py, tools/layerpipe/convert_rank0_to_safetensors.py). */
module PackedIndex {
  import opened Common
  import opened PackedFiles

  // --------------------------------------------------------- text and lines

  /** The characters `str.splitlines` breaks at. */
  predicate Break(c: char) {
    var n := c as int;
    10 <= n <= 13 || 0x1c <= n <= 0x1e || n == 0x85 || n == 0x2028 || n == 0x2029
  }

  /** Line feed, vertical tab, form feed, carriage return, the file, group and record
      separators, next line, and the line and paragraph separators. */
  lemma {:induction false} Breaks(c: char)
    ensures Break(c) <==> c as int in {0xa, 0xb, 0xc, 0xd, 0x1c, 0x1d, 0x1e, 0x85, 0x2028, 0x2029}
  {
  }

  ghost predicate Unbroken(s: string) {
    forall c :: c in s ==> !Break(c)
  }

  function FirstBreak(text: string): (k: nat)
    ensures k <= |text| && Unbroken(text[..k])
    ensures k < |text| ==> Break(text[k])
  {
    if text == [] || Break(text[0]) then 0
    else
      var k := 1 + FirstBreak(text[1..]);
      assert text[..k] == [text[0]] + text[1..][..k - 1];
      k
  }

  /** `str.splitlines`: a carriage return and a line feed are one break. */
  function SplitLines(text: string): (lines: seq<string>)
    ensures forall i :: 0 <= i < |lines| ==> Unbroken(lines[i])
    decreases |text|
  {
    if text == [] then []
    else
      var k := FirstBreak(text);
      if k == |text| then [text[..k]]
      else
        var next := if k + 1 < |text| && text[k] == '\r' && text[k + 1] == '\n' then k + 2 else k + 1;
        [text[..k]] + SplitLines(text[next..])
  }

  function JoinLines(lines: seq<string>): string {
    if lines == [] then "" else lines[0] + ("\n" + JoinLines(lines[1..]))
  }

  lemma {:induction false} FirstBreakAt(text: string, k: nat)
    requires k < |text| && Unbroken(text[..k]) && Break(text[k])
    ensures FirstBreak(text) == k
  {
    if k > 0 {
      assert text[..k] == [text[0]] + text[1..][..k - 1];
      assert text[0] in text[..k];
      FirstBreakAt(text[1..], k - 1);
    }
  }

  /** A line ends at any line break, and a carriage return takes a line feed behind it
      along. */
  lemma {:induction false} SplitAtBreak(line: string, c: char, rest: string)
    requires Unbroken(line) && Break(c)
    ensures SplitLines(line + ([c] + rest)) ==
      [line] + SplitLines(if c == '\r' && rest != [] && rest[0] == '\n' then rest[1..] else rest)
  {
    var text := line + ([c] + rest);
    hide Unbroken, FirstBreak, Break;
    assert text[..|line|] == line && text[|line|] == c && text[|line| + 1..] == rest;
    FirstBreakAt(text, |line|);
    if rest != [] {
      assert text[|line| + 1] == rest[0] && text[|line| + 2..] == rest[1..];
    }
  }

  lemma {:induction false} SplitFirst(line: string, rest: string)
    requires Unbroken(line)
    ensures SplitLines(line + ("\n" + rest)) == [line] + SplitLines(rest)
  {
    hide Unbroken, SplitLines;
    SplitAtBreak(line, '\n', rest);
  }

  /** Splitting undoes joining whenever no line holds a break. */
  lemma {:induction false} SplitJoined(lines: seq<string>)
    requires forall i :: 0 <= i < |lines| ==> Unbroken(lines[i])
    ensures SplitLines(JoinLines(lines)) == lines
  {
    hide Unbroken, SplitLines;
    if lines == [] {
      NoLines();
    } else {
      SplitFirst(lines[0], JoinLines(lines[1..]));
      SplitJoined(lines[1..]);
    }
  }

  lemma {:induction false} NoLines()
    ensures SplitLines("") == []
  {
  }

  // ---------------------------------------------------------------- writing

  function Line(indent: string, tag: string, value: string): string {
    indent + (tag + ":" + (" " + value))
  }

  function TensorLines(t: TensorEntry): seq<string> {
    [Line("  ", "Tensor Name", t.name), Line("  ", "Offset", PrintInt(t.offset)), Line("  ", "Size", PrintInt(t.size))]
  }

  function AllTensorLines(ts: seq<TensorEntry>): seq<string> {
    if ts == [] then [] else AllTensorLines(ts[..|ts| - 1]) + TensorLines(ts[|ts| - 1])
  }

  function Header(g: GroupEntry): seq<string> {
    [Line("", "Group Offset", PrintInt(g.offset)), Line("", "Group Size", PrintInt(g.size))]
    + [Line("", "Fingerprint", g.fingerprint), "Tensor Group Index:"]
  }

  function GroupLines(g: GroupEntry): seq<string> {
    Header(g) + AllTensorLines(g.tensors) + [""]
  }

  function AllGroupLines(groups: seq<GroupEntry>): seq<string> {
    if groups == [] then [] else AllGroupLines(groups[..|groups| - 1]) + GroupLines(groups[|groups| - 1])
  }

  /** The lines of the index file. */
  function IndexLines(groups: seq<GroupEntry>): seq<string> {
    Preamble(|groups|) + AllGroupLines(groups)
  }

  function Preamble(n: nat): seq<string> {
    [Line("", "Number of tensor groups", PrintInt(n)), ""]
  }

  /** The text of the index file. */
  function IndexText(groups: seq<GroupEntry>): string {
    JoinLines(IndexLines(groups))
  }

  // ---------------------------------------------------------------- parsing

  datatype ParseError = BadNumber | Malformed | Duplicate | Empty

  datatype Place = Place(offset: int, size: int)

  datatype Parsed = Good(offsets: map<string, Place>) | Bad(error: ParseError)

  datatype State = Reading(group: Option<int>, name: Option<string>, offset: Option<int>, offsets: map<string, Place>)
                 | Failed(error: ParseError)

  const START := Reading(None, None, None, map[])

  /** What a line can be to the parser. */
  datatype Kind = GroupLine | NameLine | OffsetLine | SizeLine | OtherLine

  function KindOf(raw: string): Kind {
    var line := Strip(raw);
    if StartsWith(line, "Group Offset:") then GroupLine
    else if StartsWith(line, "Tensor Name:") then NameLine
    else if StartsWith(line, "Offset:") then OffsetLine
    else if StartsWith(line, "Size:") then SizeLine
    else OtherLine
  }

  /** The number, or the name, behind a line's first colon. */
  function NumberIn(raw: string): Option<int> {
    ParseInt(AfterColon(Strip(raw)))
  }

  function NameIn(raw: string): string {
    Strip(AfterColon(Strip(raw)))
  }

  /** What one line does to the parser. */
  function Step(s: State, raw: string): State {
    if s.Failed? then s
    else
      match KindOf(raw)
      case GroupLine =>
        if NumberIn(raw).None? then Failed(BadNumber) else s.(group := NumberIn(raw))
      case NameLine =>
        s.(name := Some(NameIn(raw)), offset := None)
      case OffsetLine =>
        if s.name.None? then s
        else if NumberIn(raw).None? then Failed(BadNumber)
        else s.(offset := NumberIn(raw))
      case SizeLine =>
        if s.name.None? then s
        else if s.group.None? || s.offset.None? then Failed(Malformed)
        else if s.name.value in s.offsets then Failed(Duplicate)
        else if NumberIn(raw).None? then Failed(BadNumber)
        else
          var place := Place(s.group.value + s.offset.value, NumberIn(raw).value);
          Reading(s.group, None, None, s.offsets[s.name.value := place])
      case OtherLine => s
  }

  function Run(s: State, lines: seq<string>): State {
    if lines == [] then s else Step(Run(s, lines[..|lines| - 1]), lines[|lines| - 1])
  }

  function Outcome(s: State): Parsed {
    if s.Failed? then Bad(s.error) else if s.offsets == map[] then Bad(Empty) else Good(s.offsets)
  }

  function ParsedText(text: string): Parsed {
    Outcome(Run(START, SplitLines(text)))
  }

  // ------------------------------------------------- what the lines mean

  /** The last line of a kind before line `i`. */
  function Last(lines: seq<string>, kind: Kind, i: nat): (j: Option<nat>)
    requires i <= |lines|
    ensures j.Some? ==> j.value < i && KindOf(lines[j.value]) == kind
    ensures forall k :: 0 <= k < i && (j.Some? ==> j.value < k) ==> KindOf(lines[k]) != kind
  {
    if i == 0 then None
    else if KindOf(lines[i - 1]) == kind then Some(i - 1)
    else Last(lines, kind, i - 1)
  }

  /** The name line still waiting for its size before line `i`, and the last offset
      line behind it. */
  function OpenName(lines: seq<string>, i: nat): (j: Option<nat>)
    requires i <= |lines|
    ensures j.Some? ==> j.value < i
  {
    var name, size := Last(lines, NameLine, i), Last(lines, SizeLine, i);
    if name.Some? && (size.Some? ==> size.value < name.value) then name else None
  }

  function OpenOffset(lines: seq<string>, i: nat): (j: Option<nat>)
    requires i <= |lines|
    ensures j.Some? ==> OpenName(lines, i).Some? && OpenName(lines, i).value < j.value < i
  {
    var name, offset := OpenName(lines, i), Last(lines, OffsetLine, i);
    if name.Some? && offset.Some? && name.value < offset.value then offset else None
  }

  /** Line `i` is the size of an open name behind a group offset and an offset. */
  predicate Closes(lines: seq<string>, i: nat)
    requires i < |lines|
  {
    && KindOf(lines[i]) == SizeLine
    && OpenName(lines, i).Some? && Last(lines, GroupLine, i).Some? && OpenOffset(lines, i).Some?
  }

  /** The tensor a size line completes: the last name, at the last group offset plus
      the last offset. */
  function Recorded(lines: seq<string>, i: nat): Option<(string, Place)>
    requires i < |lines|
  {
    if !Closes(lines, i) then None
    else
      var group := NumberIn(lines[Last(lines, GroupLine, i).value]);
      var offset, size := NumberIn(lines[OpenOffset(lines, i).value]), NumberIn(lines[i]);
      if group.None? || offset.None? || size.None? then None
      else Some((NameIn(lines[OpenName(lines, i).value]), Place(group.value + offset.value, size.value)))
  }

  /** Some line before line `n` records the name. */
  ghost predicate HasRecord(lines: seq<string>, n: nat, name: string)
    requires n <= |lines|
  {
    exists h :: 0 <= h < n && Recorded(lines, h).Some? && Recorded(lines, h).value.0 == name
  }

  /** What is wrong with line `i`, if the lines before it were fine. */
  ghost function Complaint(lines: seq<string>, i: nat): (e: Option<ParseError>)
    requires i < |lines|
    ensures e != Some(Empty)
  {
    match KindOf(lines[i])
    case GroupLine => if NumberIn(lines[i]).None? then Some(BadNumber) else None
    case OffsetLine => if OpenName(lines, i).Some? && NumberIn(lines[i]).None? then Some(BadNumber) else None
    case SizeLine =>
      if OpenName(lines, i).None? then None
      else if !Closes(lines, i) then Some(Malformed)
      else if HasRecord(lines, i, NameIn(lines[OpenName(lines, i).value])) then Some(Duplicate)
      else if NumberIn(lines[i]).None? then Some(BadNumber)
      else None
    case _ => None
  }

  ghost predicate FineBelow(lines: seq<string>, n: nat)
    requires n <= |lines|
  {
    forall i :: 0 <= i < n ==> Complaint(lines, i).None?
  }

  /** The map holds exactly what the lines before line `n` record. */
  ghost predicate Records(lines: seq<string>, n: nat, offsets: map<string, Place>)
    requires n <= |lines|
  {
    && (forall name :: name in offsets <==> HasRecord(lines, n, name))
    && forall h :: 0 <= h < n && Recorded(lines, h).Some? ==>
         Recorded(lines, h).value.0 in offsets && offsets[Recorded(lines, h).value.0] == Recorded(lines, h).value.1
  }

  /** What a file of these lines means: the first complaint, or what the size lines
      record, or that they record nothing. */
  ghost predicate Means(lines: seq<string>, r: Parsed) {
    match r
    case Good(offsets) => FineBelow(lines, |lines|) && Records(lines, |lines|, offsets) && offsets != map[]
    case Bad(e) =>
      if e == Empty then FineBelow(lines, |lines|) && Records(lines, |lines|, map[])
      else exists i :: 0 <= i < |lines| && FineBelow(lines, i) && Complaint(lines, i) == Some(e)
  }

  /** A file means one thing only. */
  lemma {:induction false} MeaningUnique(lines: seq<string>, r: Parsed, other: Parsed)
    requires Means(lines, r) && Means(lines, other)
    ensures r == other
  {
    hide Recorded, Complaint;
    var fine := FineBelow(lines, |lines|);
    if fine {
      var a: map<string, Place> := if r.Good? then r.offsets else map[];
      var b: map<string, Place> := if other.Good? then other.offsets else map[];
      SameRecords(lines, |lines|, a, b);
    } else {
      var i :| 0 <= i < |lines| && FineBelow(lines, i) && Complaint(lines, i) == Some(r.error);
      var j :| 0 <= j < |lines| && FineBelow(lines, j) && Complaint(lines, j) == Some(other.error);
    }
  }

  lemma {:induction false} SameRecords(lines: seq<string>, n: nat, a: map<string, Place>, b: map<string, Place>)
    requires n <= |lines| && Records(lines, n, a) && Records(lines, n, b)
    ensures a == b
  {
    hide Recorded;
    assert forall name :: name in a <==> name in b;
    forall name | name in a ensures a[name] == b[name] {
      assert HasRecord(lines, n, name);
      var h :| 0 <= h < n && Recorded(lines, h).Some? && Recorded(lines, h).value.0 == name;
    }
  }

  /** The state of the parser before line `n`. */
  ghost predicate Tracks(lines: seq<string>, n: nat, s: State)
    requires n <= |lines|
  {
    match s
    case Failed(e) => exists i :: 0 <= i < n && FineBelow(lines, i) && Complaint(lines, i) == Some(e)
    case Reading(group, name, offset, offsets) =>
      && FineBelow(lines, n)
      && Records(lines, n, offsets)
      && group == NumberAt(lines, Last(lines, GroupLine, n))
      && (group.Some? <==> Last(lines, GroupLine, n).Some?)
      && name == NameAt(lines, OpenName(lines, n))
      && offset == NumberAt(lines, OpenOffset(lines, n))
      && (offset.Some? <==> OpenOffset(lines, n).Some?)
  }

  function NumberAt(lines: seq<string>, j: Option<nat>): Option<int>
    requires j.Some? ==> j.value < |lines|
  {
    if j.None? then None else NumberIn(lines[j.value])
  }

  function NameAt(lines: seq<string>, j: Option<nat>): Option<string>
    requires j.Some? ==> j.value < |lines|
  {
    if j.None? then None else Some(NameIn(lines[j.value]))
  }

  lemma {:induction false} LastNext(lines: seq<string>, kind: Kind, n: nat)
    requires n < |lines|
    ensures Last(lines, kind, n + 1) == if KindOf(lines[n]) == kind then Some(n) else Last(lines, kind, n)
  {
  }

  /** The open lines before line `n + 1`. */
  lemma {:induction false} OpenNext(lines: seq<string>, n: nat)
    requires n < |lines|
    ensures OpenName(lines, n + 1) == match KindOf(lines[n])
      case NameLine => Some(n) case SizeLine => None case _ => OpenName(lines, n)
    ensures OpenOffset(lines, n + 1) == match KindOf(lines[n])
      case NameLine => None case SizeLine => None
      case OffsetLine => (if OpenName(lines, n).Some? then Some(n) else None)
      case _ => OpenOffset(lines, n)
  {
    hide KindOf;
    LastNext(lines, NameLine, n);
    LastNext(lines, SizeLine, n);
    LastNext(lines, OffsetLine, n);
  }

  lemma {:induction false} NothingRecorded(lines: seq<string>, n: nat, offsets: map<string, Place>)
    requires n < |lines| && Records(lines, n, offsets) && Recorded(lines, n).None?
    ensures Records(lines, n + 1, offsets)
  {
    hide Recorded;
    forall name ensures HasRecord(lines, n + 1, name) <==> HasRecord(lines, n, name) {
      if HasRecord(lines, n + 1, name) {
        var h :| 0 <= h < n + 1 && Recorded(lines, h).Some? && Recorded(lines, h).value.0 == name;
        assert h < n;
      }
    }
  }

  lemma {:induction false} OneRecorded(lines: seq<string>, n: nat, offsets: map<string, Place>, name: string, place: Place)
    requires n < |lines| && Records(lines, n, offsets) && Recorded(lines, n) == Some((name, place))
    requires !HasRecord(lines, n, name)
    ensures Records(lines, n + 1, offsets[name := place])
  {
    hide Recorded;
    forall other ensures HasRecord(lines, n + 1, other) <==> other == name || HasRecord(lines, n, other) {
      if HasRecord(lines, n + 1, other) {
        var h :| 0 <= h < n + 1 && Recorded(lines, h).Some? && Recorded(lines, h).value.0 == other;
        assert h < n || h == n;
      }
    }
    forall h | 0 <= h < n && Recorded(lines, h).Some? ensures Recorded(lines, h).value.0 != name {
      assert HasRecord(lines, n, Recorded(lines, h).value.0);
    }
  }

  lemma {:induction false} TracksFailure(lines: seq<string>, n: nat, s: State, e: ParseError)
    requires n < |lines| && Tracks(lines, n, s) && s.Reading? && Complaint(lines, n) == Some(e)
    ensures Tracks(lines, n + 1, Failed(e))
  {
    hide Complaint, Records;
    assert FineBelow(lines, n);
  }

  /** Without a complaint, a line completes a tensor or changes no record. */
  lemma {:induction false} FineNext(lines: seq<string>, n: nat)
    requires n < |lines| && FineBelow(lines, n) && Complaint(lines, n).None?
    ensures FineBelow(lines, n + 1)
  {
    hide Complaint;
  }

  lemma {:induction false} RecordedName(lines: seq<string>, n: nat, offsets: map<string, Place>, name: string)
    requires n < |lines| && Records(lines, n, offsets)
    ensures name in offsets <==> HasRecord(lines, n, name)
  {
    hide HasRecord;
  }

  /** A size line records its tensor, unless there is something wrong with it. */
  lemma {:induction false} TracksSize(lines: seq<string>, n: nat, s: State)
    requires n < |lines| && Tracks(lines, n, s) && s.Reading? && KindOf(lines[n]) == SizeLine
    ensures Tracks(lines, n + 1, Step(s, lines[n]))
  {
    hide KindOf, NumberIn, NameIn, Last, OpenName, OpenOffset, Records, FineBelow, HasRecord;
    OpenNext(lines, n);
    LastNext(lines, GroupLine, n);
    if s.name.Some? {
      RecordedName(lines, n, s.offsets, s.name.value);
    }
    var complaint := Complaint(lines, n);
    if complaint.Some? {
      TracksFailure(lines, n, s, complaint.value);
    } else {
      FineNext(lines, n);
      if Recorded(lines, n).None? {
        NothingRecorded(lines, n, s.offsets);
      } else {
        OneRecorded(lines, n, s.offsets, Recorded(lines, n).value.0, Recorded(lines, n).value.1);
      }
    }
  }

  lemma {:induction false} TracksOther(lines: seq<string>, n: nat, s: State)
    requires n < |lines| && Tracks(lines, n, s) && s.Reading? && KindOf(lines[n]) != SizeLine
    ensures Tracks(lines, n + 1, Step(s, lines[n]))
  {
    hide KindOf, NumberIn, NameIn, Last, OpenName, OpenOffset, Records, FineBelow;
    OpenNext(lines, n);
    LastNext(lines, GroupLine, n);
    var complaint := Complaint(lines, n);
    if complaint.Some? {
      TracksFailure(lines, n, s, complaint.value);
    } else {
      FineNext(lines, n);
      NothingRecorded(lines, n, s.offsets);
    }
  }

  lemma {:induction false} TracksStep(lines: seq<string>, n: nat, s: State)
    requires n < |lines| && Tracks(lines, n, s)
    ensures Tracks(lines, n + 1, Step(s, lines[n]))
  {
    hide KindOf, Complaint;
    if s.Reading? {
      if KindOf(lines[n]) == SizeLine {
        TracksSize(lines, n, s);
      } else {
        TracksOther(lines, n, s);
      }
    }
  }

  lemma {:induction false} RunTracks(lines: seq<string>, n: nat)
    requires n <= |lines|
    ensures Tracks(lines, n, Run(START, lines[..n]))
  {
    if n == 0 {
      assert lines[..0] == [];
    } else {
      RunTracks(lines, n - 1);
      assert lines[..n][..n - 1] == lines[..n - 1];
      TracksStep(lines, n - 1, Run(START, lines[..n - 1]));
    }
  }

  /** What the parser answers is what the lines mean. */
  lemma {:induction false} OutcomeMeans(lines: seq<string>)
    ensures Means(lines, Outcome(Run(START, lines)))
  {
    hide Complaint, Recorded, Last, OpenName, OpenOffset, Step;
    RunTracks(lines, |lines|);
    assert lines[..|lines|] == lines;
  }

  /** `parse_group_index`, line by line. */
  method ParseIndex(text: string) returns (r: Parsed)
    ensures r == ParsedText(text) && Means(SplitLines(text), r)
  {
    var lines, s := SplitLines(text), START;
    for i := 0 to |lines|
      invariant s == Run(START, lines[..i])
    {
      assert lines[..i + 1][..i] == lines[..i];
      s := Step(s, lines[i]);
    }
    assert lines[..|lines|] == lines;
    r := Outcome(s);
    OutcomeMeans(lines);
  }

  lemma {:induction false} RunAppend(s: State, a: seq<string>, b: seq<string>)
    ensures Run(s, a + b) == Run(Run(s, a), b)
  {
    if b == [] {
      assert a + b == a;
    } else {
      assert (a + b)[..|a + b| - 1] == a + b[..|b| - 1];
      RunAppend(s, a, b[..|b| - 1]);
    }
  }

  lemma {:induction false} RunOne(s: State, line: string)
    ensures Run(s, [line]) == Step(s, line)
  {
    assert [line][..0] == [];
  }

  lemma {:induction false} RunTwo(s: State, a: string, b: string)
    ensures Run(s, [a, b]) == Step(Step(s, a), b)
  {
    assert [a, b] == [a] + [b];
    RunAppend(s, [a], [b]);
    RunOne(s, a);
    RunOne(Step(s, a), b);
  }

  lemma {:induction false} RunThree(s: State, a: string, b: string, c: string)
    ensures Run(s, [a, b, c]) == Step(Step(Step(s, a), b), c)
  {
    assert [a, b, c] == [a, b] + [c];
    RunAppend(s, [a, b], [c]);
    RunTwo(s, a, b);
    RunOne(Step(Step(s, a), b), c);
  }

  // -------------------------------------------------------------- round trip

  const TAGS := ["Group Offset", "Tensor Name", "Offset", "Size"]

  /** Which of the four lines the parser looks for a written line is. */
  lemma {:induction false} TagsOf(indent: string, tag: string, rest: string)
    requires (indent == "" || indent == "  ") && Tag(tag)
    ensures var line := Strip(indent + (tag + ":" + rest));
      && (StartsWith(line, "Group Offset:") <==> tag == "Group Offset")
      && (StartsWith(line, "Tensor Name:") <==> tag == "Tensor Name")
      && (StartsWith(line, "Offset:") <==> tag == "Offset")
      && (StartsWith(line, "Size:") <==> tag == "Size")
      && AfterColon(line) == StripRight(rest)
  {
    LineTag(indent, tag, rest, "Group Offset");
    LineTag(indent, tag, rest, "Tensor Name");
    LineTag(indent, tag, rest, "Offset");
    LineTag(indent, tag, rest, "Size");
    assert "Group Offset" + ":" == "Group Offset:" && "Tensor Name" + ":" == "Tensor Name:";
    assert "Offset" + ":" == "Offset:" && "Size" + ":" == "Size:";
  }

  /** A number behind a tag is read back. */
  lemma {:induction false} NumberReads(n: int)
    ensures ParseInt(StripRight(" " + PrintInt(n))) == Some(n)
  {
    IntRoundTrip(n);
    StripClean(PrintInt(n));
  }

  /** Lines the parser does not look for change nothing. */
  lemma {:induction false} Ignored(s: State, indent: string, tag: string, rest: string)
    requires s.Reading? && (indent == "" || indent == "  ") && Tag(tag) && tag !in TAGS
    ensures Step(s, indent + (tag + ":" + rest)) == s
  {
    TagsOf(indent, tag, rest);
    assert TAGS[0] == "Group Offset" && TAGS[1] == "Tensor Name" && TAGS[2] == "Offset" && TAGS[3] == "Size";
  }

  lemma {:induction false} StepGroup(s: State, n: int)
    requires s.Reading?
    ensures Step(s, Line("", "Group Offset", PrintInt(n))) == s.(group := Some(n))
  {
    TagsOf("", "Group Offset", " " + PrintInt(n));
    NumberReads(n);
  }

  lemma {:induction false} StepName(s: State, name: string)
    requires s.Reading? && Clean(name)
    ensures Step(s, Line("  ", "Tensor Name", name)) == s.(name := Some(name), offset := None)
  {
    TagsOf("  ", "Tensor Name", " " + name);
    StripClean(name);
  }

  lemma {:induction false} StepOffset(s: State, n: int)
    requires s.Reading? && s.name.Some?
    ensures Step(s, Line("  ", "Offset", PrintInt(n))) == s.(offset := Some(n))
  {
    TagsOf("  ", "Offset", " " + PrintInt(n));
    NumberReads(n);
  }

  lemma {:induction false} StepSize(s: State, n: int)
    requires s.Reading? && s.group.Some? && s.name.Some? && s.offset.Some?
    ensures Step(s, Line("  ", "Size", PrintInt(n))) ==
      if s.name.value in s.offsets then Failed(Duplicate)
      else Reading(s.group, None, None, s.offsets[s.name.value := Place(s.group.value + s.offset.value, n)])
  {
    TagsOf("  ", "Size", " " + PrintInt(n));
    NumberReads(n);
  }

  /** The three lines of a tensor record it, once. */
  lemma {:induction false} RunTensor(s: State, t: TensorEntry)
    requires s.Reading? && s.group.Some? && Clean(t.name)
    ensures Run(s, TensorLines(t)) ==
      if t.name in s.offsets then Failed(Duplicate)
      else Reading(s.group, None, None, s.offsets[t.name := Place(s.group.value + t.offset, t.size)])
  {
    hide Run, Step, Line, Clean;
    var named := s.(name := Some(t.name), offset := None);
    RunThree(s, Line("  ", "Tensor Name", t.name), Line("  ", "Offset", PrintInt(t.offset)), Line("  ", "Size", PrintInt(t.size)));
    StepName(s, t.name);
    StepOffset(named, t.offset);
    StepSize(named.(offset := Some(t.offset)), t.size);
  }

  /** A parser that failed stays failed. */
  lemma {:induction false} RunFailed(e: ParseError, lines: seq<string>)
    ensures Run(Failed(e), lines) == Failed(e)
  {
    if lines != [] {
      RunFailed(e, lines[..|lines| - 1]);
    }
  }

  /** What the index says about a list of tensors. */
  function PlacesOf(ts: seq<TensorEntry>): map<string, Place> {
    if ts == [] then map[]
    else PlacesOf(ts[..|ts| - 1])[ts[|ts| - 1].name := Place(ts[|ts| - 1].offset, ts[|ts| - 1].size)]
  }

  ghost predicate Distinct(ts: seq<TensorEntry>) {
    forall i, j :: 0 <= i < j < |ts| ==> ts[i].name != ts[j].name
  }

  /** Every name has no space at its ends and no line break inside. */
  ghost predicate Whole(name: string) {
    Clean(name) && Unbroken(name)
  }

  ghost predicate WholeNames(ts: seq<TensorEntry>) {
    forall i :: 0 <= i < |ts| ==> Whole(ts[i].name)
  }

  lemma {:induction false} PlacesOfKeys(ts: seq<TensorEntry>, name: string)
    ensures name in PlacesOf(ts) <==> exists i :: 0 <= i < |ts| && ts[i].name == name
  {
    if ts != [] {
      PlacesOfKeys(ts[..|ts| - 1], name);
      if exists i :: 0 <= i < |ts| - 1 && ts[i].name == name {
        var i :| 0 <= i < |ts| - 1 && ts[i].name == name;
        assert ts[..|ts| - 1][i].name == name;
      }
    }
  }

  lemma {:induction false} OneMoreName(ts: seq<TensorEntry>, t: TensorEntry)
    ensures Distinct(ts + [t]) <==> Distinct(ts) && t.name !in PlacesOf(ts)
    ensures PlacesOf(ts + [t]) == PlacesOf(ts)[t.name := Place(t.offset, t.size)]
  {
    var whole := ts + [t];
    assert whole[..|ts|] == ts && whole[|ts|] == t;
    PlacesOfKeys(ts, t.name);
    if Distinct(whole) {
      forall i | 0 <= i < |ts| ensures ts[i].name != t.name {
        assert whole[i] == ts[i];
      }
      forall i, j | 0 <= i < j < |ts| ensures ts[i].name != ts[j].name {
        assert whole[i] == ts[i] && whole[j] == ts[j];
      }
    }
  }

  /** The parser behind the lines of these tensors, the last group at `group`. */
  ghost function Behind(group: Option<int>, ts: seq<TensorEntry>): State {
    if Distinct(ts) then Reading(group, None, None, PlacesOf(ts)) else Failed(Duplicate)
  }

  /** The tensors of a group, behind those before it. */
  lemma {:induction false} RunTensors(before: seq<TensorEntry>, g: int, ts: seq<TensorEntry>)
    requires WholeNames(ts)
    ensures Run(Behind(Some(g), before), AllTensorLines(ts)) == Behind(Some(g), before + RebaseAll(ts, g))
  {
    hide Behind, TensorLines, Whole;
    var s := Behind(Some(g), before);
    if ts == [] {
      assert before + RebaseAll(ts, g) == before;
    } else {
      var front, t := ts[..|ts| - 1], ts[|ts| - 1];
      var shorter := before + RebaseAll(front, g);
      assert before + RebaseAll(ts, g) == shorter + [Rebased(t, g)];
      RunTensors(before, g, front);
      RunAppend(s, AllTensorLines(front), TensorLines(t));
      RunOneMore(g, shorter, t);
    }
  }

  lemma {:induction false} RunOneMore(g: int, ts: seq<TensorEntry>, t: TensorEntry)
    requires Whole(t.name)
    ensures Run(Behind(Some(g), ts), TensorLines(t)) == Behind(Some(g), ts + [Rebased(t, g)])
  {
    hide Run, TensorLines, Distinct, PlacesOf;
    OneMoreName(ts, Rebased(t, g));
    if Distinct(ts) {
      RunTensor(Behind(Some(g), ts), t);
    } else {
      RunFailed(Duplicate, TensorLines(t));
    }
  }

  lemma {:induction false} RunHeader(s: State, g: GroupEntry)
    requires s.Reading?
    ensures Run(s, Header(g)) == s.(group := Some(g.offset))
  {
    hide Run, Step, Line;
    var a, b := Line("", "Group Offset", PrintInt(g.offset)), Line("", "Group Size", PrintInt(g.size));
    var c, d := Line("", "Fingerprint", g.fingerprint), "Tensor Group Index:";
    var next := s.(group := Some(g.offset));
    RunAppend(s, [a, b], [c, d]);
    RunTwo(s, a, b);
    RunTwo(next, c, d);
    StepGroup(s, g.offset);
    LineIgnored(next, "Group Size", PrintInt(g.size));
    LineIgnored(next, "Fingerprint", g.fingerprint);
    IndexLineIgnored(next);
  }

  lemma {:induction false} LineIgnored(s: State, tag: string, value: string)
    requires s.Reading? && Tag(tag) && tag !in TAGS
    ensures Step(s, Line("", tag, value)) == s
  {
    Ignored(s, "", tag, " " + value);
  }

  lemma {:induction false} IndexLineIgnored(s: State)
    requires s.Reading?
    ensures Step(s, "Tensor Group Index:") == s
  {
    Ignored(s, "", "Tensor Group Index", "");
    assert "" + ("Tensor Group Index" + ":" + "") == "Tensor Group Index:";
  }

  lemma {:induction false} BlankIgnored(s: State)
    ensures Step(s, "") == s
  {
    assert Strip("") == "";
  }

  lemma {:induction false} RunGroup(group: Option<int>, before: seq<TensorEntry>, g: GroupEntry)
    requires WholeNames(g.tensors)
    ensures Run(Behind(group, before), GroupLines(g)) == Behind(Some(g.offset), before + RebaseAll(g.tensors, g.offset))
  {
    hide Run, Step, Header, Distinct, PlacesOf;
    var s, header, body := Behind(group, before), Header(g), AllTensorLines(g.tensors);
    if s.Reading? {
      RunHeader(s, g);
    } else {
      RunFailed(Duplicate, header);
    }
    RunTensors(before, g.offset, g.tensors);
    RunAppend(s, header + body, [""]);
    RunAppend(s, header, body);
    RunOne(Run(s, header + body), "");
    BlankIgnored(Run(s, header + body));
  }

  lemma {:induction false} WholeParts(a: seq<TensorEntry>, ts: seq<TensorEntry>, shift: int)
    requires WholeNames(a + RebaseAll(ts, shift))
    ensures WholeNames(a) && WholeNames(ts)
  {
    var whole := a + RebaseAll(ts, shift);
    forall i | 0 <= i < |a| ensures Whole(a[i].name) {
      assert whole[i] == a[i];
    }
    RebasedNames(ts, shift);
    forall i | 0 <= i < |ts| ensures Whole(ts[i].name) {
      assert whole[|a| + i] == RebaseAll(ts, shift)[i];
    }
  }

  lemma {:induction false} RebasedNames(ts: seq<TensorEntry>, shift: int)
    ensures |RebaseAll(ts, shift)| == |ts|
    ensures forall i :: 0 <= i < |ts| ==> RebaseAll(ts, shift)[i].name == ts[i].name
  {
    if ts != [] {
      RebasedNames(ts[..|ts| - 1], shift);
    }
  }

  /** The group offset the parser has read last. */
  function LastGroup(groups: seq<GroupEntry>): Option<int> {
    if groups == [] then None else Some(groups[|groups| - 1].offset)
  }

  lemma {:induction false} RunGroups(groups: seq<GroupEntry>)
    requires WholeNames(Flatten(groups))
    ensures Run(START, AllGroupLines(groups)) == Behind(LastGroup(groups), Flatten(groups))
  {
    hide Whole, GroupLines, Behind;
    if groups == [] {
      assert Behind(None, []) == START by {
        EmptyBehind();
      }
    } else {
      var front, g := groups[..|groups| - 1], groups[|groups| - 1];
      WholeParts(Flatten(front), g.tensors, g.offset);
      RunGroups(front);
      RunAppend(START, AllGroupLines(front), GroupLines(g));
      RunGroup(LastGroup(front), Flatten(front), g);
    }
  }

  lemma {:induction false} EmptyBehind()
    ensures Behind(None, []) == START
  {
  }

  lemma {:induction false} RunPreamble(n: nat)
    ensures Run(START, Preamble(n)) == START
  {
    hide Run, Step, Line;
    RunTwo(START, Line("", "Number of tensor groups", PrintInt(n)), "");
    LineIgnored(START, "Number of tensor groups", PrintInt(n));
    BlankIgnored(START);
  }

  // --------------------------------------------- the index as a single text

  ghost predicate AllUnbroken(lines: seq<string>) {
    forall i :: 0 <= i < |lines| ==> Unbroken(lines[i])
  }

  lemma {:induction false} UnbrokenAppend(a: seq<string>, b: seq<string>)
    requires AllUnbroken(a) && AllUnbroken(b)
    ensures AllUnbroken(a + b)
  {
    hide Unbroken;
  }

  lemma {:induction false} OneUnbroken(line: string)
    requires Unbroken(line)
    ensures AllUnbroken([line])
  {
  }

  lemma {:induction false} PrintedUnbroken(n: int)
    ensures Unbroken(PrintInt(n))
  {
    NatUnbroken(if n < 0 then -n else n);
  }

  lemma {:induction false} NatUnbroken(n: nat)
    ensures Unbroken(PrintNat(n))
  {
    DigitRoundTrip(n % 10);
    if n >= 10 {
      NatUnbroken(n / 10);
    }
  }

  lemma {:induction false} LineUnbroken(indent: string, tag: string, value: string)
    requires Unbroken(indent) && Unbroken(tag) && Unbroken(value)
    ensures Unbroken(Line(indent, tag, value))
  {
  }

  lemma {:induction false} TensorLinesUnbroken(ts: seq<TensorEntry>)
    requires WholeNames(ts)
    ensures AllUnbroken(AllTensorLines(ts))
  {
    if ts != [] {
      hide Unbroken, Whole, TensorLines;
      var front, t := ts[..|ts| - 1], ts[|ts| - 1];
      TensorLinesUnbroken(front);
      OneTensorUnbroken(t);
      UnbrokenAppend(AllTensorLines(front), TensorLines(t));
    }
  }

  lemma {:induction false} OneTensorUnbroken(t: TensorEntry)
    requires Whole(t.name)
    ensures AllUnbroken(TensorLines(t))
  {
    PrintedUnbroken(t.offset);
    PrintedUnbroken(t.size);
    LineUnbroken("  ", "Tensor Name", t.name);
    LineUnbroken("  ", "Offset", PrintInt(t.offset));
    LineUnbroken("  ", "Size", PrintInt(t.size));
    hide Line, Unbroken;
  }

  lemma {:induction false} HeaderUnbroken(g: GroupEntry)
    requires Unbroken(g.fingerprint)
    ensures AllUnbroken(Header(g))
  {
    PrintedUnbroken(g.offset);
    PrintedUnbroken(g.size);
    LineUnbroken("", "Group Offset", PrintInt(g.offset));
    LineUnbroken("", "Group Size", PrintInt(g.size));
    LineUnbroken("", "Fingerprint", g.fingerprint);
    hide Line;
  }

  /** Fingerprints are hexadecimal digests, so they hold no line break. */
  ghost predicate Fingerprinted(groups: seq<GroupEntry>) {
    forall i :: 0 <= i < |groups| ==> Unbroken(groups[i].fingerprint)
  }

  lemma {:induction false} GroupLinesUnbroken(groups: seq<GroupEntry>)
    requires Fingerprinted(groups) && WholeNames(Flatten(groups))
    ensures AllUnbroken(AllGroupLines(groups))
  {
    if groups != [] {
      hide Header, Unbroken, Whole, AllTensorLines;
      var front, g := groups[..|groups| - 1], groups[|groups| - 1];
      WholeParts(Flatten(front), g.tensors, g.offset);
      GroupLinesUnbroken(front);
      HeaderUnbroken(g);
      TensorLinesUnbroken(g.tensors);
      EmptyUnbroken();
      UnbrokenAppend(Header(g), AllTensorLines(g.tensors));
      UnbrokenAppend(Header(g) + AllTensorLines(g.tensors), [""]);
      UnbrokenAppend(AllGroupLines(front), GroupLines(g));
    }
  }

  lemma {:induction false} EmptyUnbroken()
    ensures AllUnbroken([""])
  {
  }

  lemma {:induction false} PreambleUnbroken(n: nat)
    ensures AllUnbroken(Preamble(n))
  {
    hide Line;
    PrintedUnbroken(n);
    LineUnbroken("", "Number of tensor groups", PrintInt(n));
    EmptyUnbroken();
    OneUnbroken(Line("", "Number of tensor groups", PrintInt(n)));
    UnbrokenAppend([Line("", "Number of tensor groups", PrintInt(n))], [""]);
  }

  lemma {:induction false} IndexUnbroken(groups: seq<GroupEntry>)
    requires Fingerprinted(groups) && WholeNames(Flatten(groups))
    ensures AllUnbroken(IndexLines(groups))
  {
    hide Line, AllGroupLines, Fingerprinted, WholeNames;
    GroupLinesUnbroken(groups);
    PreambleUnbroken(|groups|);
    UnbrokenAppend(Preamble(|groups|), AllGroupLines(groups));
  }

  /** Whatever the text, a name the parser knows is a whole one. */
  lemma {:induction false} NamesAreWhole(lines: seq<string>)
    requires AllUnbroken(lines)
    ensures var s := Run(START, lines);
      s.Reading? ==> (s.name.Some? ==> Whole(s.name.value)) && forall name :: name in s.offsets ==> Whole(name)
  {
    if lines != [] {
      hide KindOf, NumberIn, NameIn, Whole, Unbroken;
      NamesAreWhole(lines[..|lines| - 1]);
      NameIsWhole(lines[|lines| - 1]);
    }
  }

  lemma {:induction false} NameIsWhole(raw: string)
    requires Unbroken(raw)
    ensures Whole(NameIn(raw))
  {
    var line := Strip(raw);
    StripPart(raw);
    AfterColonPart(line);
    StripPart(AfterColon(line));
  }

  lemma {:induction false} AfterColonPart(line: string)
    ensures forall c :: c in AfterColon(line) ==> c in line
  {
    if line != [] && line[0] != ':' {
      AfterColonPart(line[1..]);
    }
  }

  lemma {:induction false} StripPart(s: string)
    ensures Clean(Strip(s)) && forall c :: c in Strip(s) ==> c in s
  {
    StripLeftPart(s);
    StripRightPart(StripLeft(s));
  }

  lemma {:induction false} StripLeftPart(s: string)
    ensures StripLeft(s) == [] || !Space(StripLeft(s)[0])
    ensures forall c :: c in StripLeft(s) ==> c in s
  {
    if s != [] && Space(s[0]) {
      StripLeftPart(s[1..]);
    }
  }

  lemma {:induction false} StripRightPart(s: string)
    ensures StripRight(s) == [] || (!Space(StripRight(s)[|StripRight(s)| - 1]) && StripRight(s)[0] == s[0])
    ensures forall c :: c in StripRight(s) ==> c in s
  {
    if s != [] && Space(s[|s| - 1]) {
      StripRightPart(s[..|s| - 1]);
    }
  }

  /** What parsing the written index gives, for whole names. */
  lemma {:induction false} WholeNamesParse(groups: seq<GroupEntry>)
    requires Fingerprinted(groups) && WholeNames(Flatten(groups))
    ensures ParsedText(IndexText(groups)) ==
      if !Distinct(Flatten(groups)) then Bad(Duplicate)
      else if Flatten(groups) == [] then Bad(Empty)
      else Good(PlacesOf(Flatten(groups)))
  {
    hide Run, AllGroupLines, Preamble, Whole, Distinct;
    IndexUnbroken(groups);
    SplitJoined(IndexLines(groups));
    RunAppend(START, Preamble(|groups|), AllGroupLines(groups));
    RunPreamble(|groups|);
    RunGroups(groups);
    var ts := Flatten(groups);
    assert ts != [] ==> ts[|ts| - 1].name in PlacesOf(ts);
  }

  /** Whatever the grouping, parsing the written index gives every tensor's own
      offset and size back if and only if there are tensors, and their names are
      distinct, clean at both ends and free of line breaks. */
  lemma {:induction false} IndexRoundTrip(groups: seq<GroupEntry>)
    requires Fingerprinted(groups)
    ensures ParsedText(IndexText(groups)) == Good(PlacesOf(Flatten(groups))) <==>
      Flatten(groups) != [] && WholeNames(Flatten(groups)) && Distinct(Flatten(groups))
  {
    hide Run, Whole, Distinct, IndexText;
    var ts := Flatten(groups);
    if WholeNames(ts) {
      WholeNamesParse(groups);
    } else {
      NamesAreWhole(SplitLines(IndexText(groups)));
      var i :| 0 <= i < |ts| && !Whole(ts[i].name);
      PlacesOfKeys(ts, ts[i].name);
    }
  }
}
