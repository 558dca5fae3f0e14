/** Packed weight files: reading across partitions, the numbers and lines of the
    text index, and the groups it lists (tools/layerpipe/convert_rank0_to_safetensors.py,
    sllm_store/sllm_store/torch.py). */
module PackedFiles {
  import opened Common

  // ------------------------------------------------------ reading partitions

  /** The packed bytes: all partitions, one after the other. */
  function Concat(parts: seq<seq<int>>): seq<int> {
    if parts == [] then [] else Concat(parts[..|parts| - 1]) + parts[|parts| - 1]
  }

  lemma {:induction false} ConcatNext(parts: seq<seq<int>>, i: nat)
    requires i < |parts|
    ensures Concat(parts[..i + 1]) == Concat(parts[..i]) + parts[i]
  {
    assert parts[..i + 1][..i] == parts[..i];
  }

  lemma {:induction false} ConcatPrefix(parts: seq<seq<int>>, i: nat)
    requires i <= |parts|
    ensures Concat(parts[..i]) <= Concat(parts)
    decreases |parts| - i
  {
    if i < |parts| {
      ConcatNext(parts, i);
      ConcatPrefix(parts, i + 1);
    } else {
      assert parts[..i] == parts;
    }
  }

  datatype Reading = Bytes(data: seq<int>) | OutOfBounds | ShortRead

  lemma {:induction false} PartSlice(parts: seq<seq<int>>, i: nat, local: nat, count: nat)
    requires i < |parts| && local + count <= |parts[i]|
    ensures var start := |Concat(parts[..i])|;
      start + |parts[i]| <= |Concat(parts)|
      && parts[i][local..local + count] == Concat(parts)[start + local..start + local + count]
  {
    hide Concat;
    ConcatNext(parts, i);
    ConcatPrefix(parts, i + 1);
    MiddleSlice(Concat(parts[..i]), parts[i], Concat(parts), local, count);
  }

  lemma {:induction false} MiddleSlice(before: seq<int>, part: seq<int>, whole: seq<int>, local: nat, count: nat)
    requires before + part <= whole && local + count <= |part|
    ensures part[local..local + count] == whole[|before| + local..|before| + local + count]
  {
    var slice, other := part[local..local + count], whole[|before| + local..|before| + local + count];
    forall k | 0 <= k < count ensures slice[k] == other[k] {
      assert (before + part)[|before| + local + k] == part[local + k];
    }
  }

  lemma {:induction false} SliceOn(s: seq<int>, a: nat, b: nat, c: nat)
    requires a <= b <= c <= |s|
    ensures s[a..b] + s[b..c] == s[a..c]
  {
  }

  /** `PartitionReader.read`: a slice of the packed bytes. An empty read behind the
      last byte is the one request within bounds that fails. */
  method Read(parts: seq<seq<int>>, offset: int, size: int) returns (r: Reading)
    ensures r == OutOfBounds <==> offset < 0 || size < 0 || offset + size > |Concat(parts)|
    ensures r == ShortRead <==> size == 0 && offset == |Concat(parts)|
    ensures r.Bytes? ==> r.data == Concat(parts)[offset..offset + size]
  {
    var total := Concat(parts);
    if offset < 0 || size < 0 || offset + size > |total| {
      return OutOfBounds;
    }
    var output: seq<int>, position, start := [], offset, 0;
    for i := 0 to |parts|
      invariant start == |Concat(parts[..i])| <= position == offset + |output|
      invariant position <= |total| && output == total[offset..position]
      invariant |output| < size || (|output| == size == 0)
    {
      hide Concat;
      ConcatNext(parts, i);
      if position < start + |parts[i]| {
        var local := position - start;
        var count := if size - |output| < |parts[i]| - local then size - |output| else |parts[i]| - local;
        PartSlice(parts, i, local, count);
        SliceOn(total, offset, position, position + count);
        output := output + parts[i][local..local + count];
        position := position + count;
        if |output| == size {
          assert position == offset + size;
          return Bytes(output);
        }
      }
      start := start + |parts[i]|;
    }
    assert parts[..|parts|] == parts;
    r := ShortRead;
  }

  // ---------------------------------------------------------------- numbers

  function Digit(d: nat): char
    requires d < 10
  {
    "0123456789"[d]
  }

  function DigitValue(c: char): Option<nat> {
    if '0' <= c <= '9' then Some((c as int) - ('0' as int)) else None
  }

  lemma {:induction false} DigitRoundTrip(d: nat)
    requires d < 10
    ensures DigitValue(Digit(d)) == Some(d) && !Space(Digit(d)) && Digit(d) != '-' && Digit(d) != '+'
  {
  }

  function PrintNat(n: nat): string {
    if n < 10 then [Digit(n)] else PrintNat(n / 10) + [Digit(n % 10)]
  }

  /** Decimal digits, at least one; single underscores may stand between them. */
  function ParseNat(s: string): Option<nat> {
    if s == [] then None
    else
      var last := DigitValue(s[|s| - 1]);
      if last.None? then None
      else if |s| == 1 then last
      else
        var front := ParseNat(if s[|s| - 2] == '_' then s[..|s| - 2] else s[..|s| - 1]);
        if front.None? then None else Some(10 * front.value + last.value)
  }

  lemma {:induction false} OneDigit(d: nat)
    requires d < 10
    ensures ParseNat([Digit(d)]) == Some(d)
  {
    DigitRoundTrip(d);
  }

  lemma {:induction false} NatRoundTrip(n: nat)
    ensures ParseNat(PrintNat(n)) == Some(n)
    ensures PrintNat(n) != [] && PrintNat(n)[0] != '-' && PrintNat(n)[0] != '+' && Clean(PrintNat(n))
  {
    hide ParseNat, Digit, Space, DigitValue;
    DigitRoundTrip(n % 10);
    if n < 10 {
      OneDigit(n);
    } else {
      NatRoundTrip(n / 10);
      ParseSnoc(PrintNat(n / 10), n / 10, n % 10);
    }
  }

  lemma {:induction false} ParseSnoc(s: string, front: nat, d: nat)
    requires s != [] && ParseNat(s) == Some(front) && d < 10
    ensures ParseNat(s + [Digit(d)]) == Some(10 * front + d)
    ensures (s + [Digit(d)])[0] == s[0]
  {
    DigitRoundTrip(d);
    assert s[|s| - 1] != '_';
    assert (s + [Digit(d)])[..|s|] == s;
  }

  function PrintInt(n: int): string {
    if n < 0 then "-" + PrintNat(-n) else PrintNat(n)
  }

  /** `int(text)` for ASCII digits, a sign and surrounding space allowed. */
  function ParseInt(text: string): Option<int> {
    var s := Strip(text);
    if s != [] && s[0] == '-' then
      var n := ParseNat(s[1..]);
      if n.None? then None
      else
        var value: int := n.value;
        Some(0 - value)
    else
      var n := ParseNat(if s != [] && s[0] == '+' then s[1..] else s);
      if n.None? then None else Some(n.value)
  }

  // ------------------------------------------------------------------ lines

  /** Python's `str.isspace`, which `strip` and `int` go by. */
  predicate Space(c: char) {
    var n := c as int;
    || 9 <= n <= 13 || 0x1c <= n <= 0x20 || n == 0x85 || n == 0xa0 || n == 0x1680
    || 0x2000 <= n <= 0x200a || n == 0x2028 || n == 0x2029 || n == 0x202f || n == 0x205f || n == 0x3000
  }

  /** Tab to carriage return, the four separators, the space, next line, the no-break
      space, and the other spaces and separators of Unicode. */
  lemma {:induction false} Spaces(c: char)
    ensures var listed :=
        {0x9, 0xa, 0xb, 0xc, 0xd, 0x1c, 0x1d, 0x1e, 0x1f, 0x20, 0x85, 0xa0, 0x1680,
         0x2000, 0x2001, 0x2002, 0x2003, 0x2004, 0x2005, 0x2006, 0x2007, 0x2008, 0x2009, 0x200a,
         0x2028, 0x2029, 0x202f, 0x205f, 0x3000};
      Space(c) <==> c as int in listed
  {
  }

  function StripLeft(s: string): string {
    if s != [] && Space(s[0]) then StripLeft(s[1..]) else s
  }

  function StripRight(s: string): string {
    if s != [] && Space(s[|s| - 1]) then StripRight(s[..|s| - 1]) else s
  }

  function Strip(s: string): string {
    StripRight(StripLeft(s))
  }

  /** No space at either end. */
  predicate Clean(s: string) {
    s == [] || (!Space(s[0]) && !Space(s[|s| - 1]))
  }

  lemma {:induction false} StripRightKeeps(a: string, b: string)
    requires a != [] && !Space(a[|a| - 1])
    ensures StripRight(a + b) == a + StripRight(b)
  {
    if b != [] && Space(b[|b| - 1]) {
      assert (a + b)[..|a + b| - 1] == a + b[..|b| - 1];
      StripRightKeeps(a, b[..|b| - 1]);
    } else if b == [] {
      assert a + b == a;
    }
  }

  lemma {:induction false} StripClean(s: string)
    requires Clean(s)
    ensures StripLeft(s) == s && StripRight(s) == s && Strip(s) == s
    ensures Strip(" " + s) == s
    ensures Strip(StripRight(" " + s)) == s
  {
    assert (" " + s)[1..] == s;
    if s == [] {
      assert StripRight(" ") == "" by {
        assert " "[..0] == "";
      }
      assert " " + s == " ";
    } else {
      assert (" " + s)[|s|] == s[|s| - 1];
    }
  }

  function AfterColon(line: string): string {
    if line == [] then [] else if line[0] == ':' then line[1..] else AfterColon(line[1..])
  }

  predicate StartsWith(line: string, prefix: string) {
    |prefix| <= |line| && line[..|prefix|] == prefix
  }

  /** Tags are clean, not empty and without a colon. */
  predicate Tag(s: string) {
    s != [] && Clean(s) && ':' !in s
  }

  lemma {:induction false} AfterTag(tag: string, rest: string)
    requires ':' !in tag
    ensures AfterColon(tag + ":" + rest) == rest
  {
    var line := tag + ":" + rest;
    if tag == [] {
      assert line[0] == ':' && line[1..] == rest;
    } else {
      assert line[0] == tag[0] && tag[0] in tag;
      assert line[1..] == tag[1..] + ":" + rest;
      AfterTag(tag[1..], rest);
    }
  }

  /** A line with one tag starts with no other. */
  lemma {:induction false} OnlyItsTag(tag: string, rest: string, other: string)
    requires ':' !in tag && ':' !in other
    ensures StartsWith(tag + ":" + rest, other + ":") <==> other == tag
  {
    var line, prefix := tag + ":" + rest, other + ":";
    if tag == [] || other == [] {
      assert line[0] == if tag == [] then ':' else tag[0];
      assert prefix[0] == if other == [] then ':' else other[0];
      assert tag != [] ==> tag[0] in tag;
      assert other != [] ==> other[0] in other;
      assert line[..1] == [line[0]];
      assert StartsWith(line, prefix) ==> line[0] == prefix[0];
    } else {
      assert line[1..] == tag[1..] + ":" + rest && prefix[1..] == other[1..] + ":";
      OnlyItsTag(tag[1..], rest, other[1..]);
      FirstAndRest(line, prefix);
      assert tag == [tag[0]] + tag[1..] && other == [other[0]] + other[1..];
    }
  }

  lemma {:induction false} FirstAndRest(line: string, prefix: string)
    requires line != [] && prefix != []
    ensures StartsWith(line, prefix) <==> line[0] == prefix[0] && StartsWith(line[1..], prefix[1..])
  {
    if |prefix| <= |line| {
      assert line[..|prefix|] == [line[0]] + line[1..][..|prefix| - 1];
      assert prefix == [prefix[0]] + prefix[1..];
    }
  }

  /** A written line starts with its own tag and with no other. */
  lemma {:induction false} LineTag(indent: string, tag: string, rest: string, other: string)
    requires (indent == "" || indent == "  ") && Tag(tag) && ':' !in other
    ensures var line := Strip(indent + (tag + ":" + rest));
      && line == tag + ":" + StripRight(rest)
      && (StartsWith(line, other + ":") <==> other == tag)
      && AfterColon(line) == StripRight(rest)
  {
    var head, body := tag + ":", tag + ":" + rest;
    Indented(indent, body);
    StripRightKeeps(head, rest);
    assert body == head + rest;
    OnlyItsTag(tag, StripRight(rest), other);
    AfterTag(tag, StripRight(rest));
  }

  lemma {:induction false} Indented(indent: string, body: string)
    requires (indent == "" || indent == "  ") && body != [] && !Space(body[0])
    ensures StripLeft(indent + body) == body
  {
    if indent == "" {
      assert indent + body == body;
    } else {
      assert (indent + body)[0] == ' ' && (indent + body)[1..] == " " + body;
      assert (" " + body)[0] == ' ' && (" " + body)[1..] == body;
      assert StripLeft(" " + body) == StripLeft(body) == body;
    }
  }

  /** A number written as a value is read back. */
  lemma {:induction false} IntRoundTrip(n: int)
    ensures Clean(PrintInt(n)) && ParseInt(PrintInt(n)) == Some(n)
  {
    hide PrintNat, ParseNat, Strip, Clean;
    if n < 0 {
      NatRoundTrip(-n);
      Negated(PrintNat(-n));
    } else {
      NatRoundTrip(n);
    }
    StripClean(PrintInt(n));
  }

  lemma {:induction false} Negated(digits: string)
    requires digits != [] && Clean(digits)
    ensures Clean("-" + digits) && ("-" + digits)[0] == '-' && ("-" + digits)[1..] == digits
  {
    assert ("-" + digits)[|digits|] == digits[|digits| - 1];
  }

  // -------------------------------------------------------------- the index

  datatype TensorEntry = TensorEntry(name: string, offset: int, size: int)

  /** A group's offset and size, and its tensors with offsets from there. */
  datatype GroupEntry = GroupEntry(offset: int, size: int, fingerprint: string, tensors: seq<TensorEntry>)

  function Rebased(t: TensorEntry, shift: int): TensorEntry {
    TensorEntry(t.name, t.offset + shift, t.size)
  }

  function RebaseAll(ts: seq<TensorEntry>, shift: int): seq<TensorEntry> {
    if ts == [] then [] else RebaseAll(ts[..|ts| - 1], shift) + [Rebased(ts[|ts| - 1], shift)]
  }

  lemma {:induction false} RebaseBack(ts: seq<TensorEntry>, shift: int)
    ensures RebaseAll(RebaseAll(ts, -shift), shift) == ts
    ensures |RebaseAll(ts, -shift)| == |ts|
    ensures ts != [] ==> RebaseAll(ts, -shift)[0] == Rebased(ts[0], -shift)
  {
    if ts != [] {
      var front, last := ts[..|ts| - 1], ts[|ts| - 1];
      RebaseBack(front, shift);
      var moved := RebaseAll(front, -shift) + [Rebased(last, -shift)];
      assert moved[..|front|] == RebaseAll(front, -shift) && moved[|front|] == Rebased(last, -shift);
      assert ts == front + [last];
    }
  }

  /** All tensors of the groups at their own offsets. */
  function Flatten(groups: seq<GroupEntry>): seq<TensorEntry> {
    if groups == [] then []
    else
      var g := groups[|groups| - 1];
      Flatten(groups[..|groups| - 1]) + RebaseAll(g.tensors, g.offset)
  }

  function SizeSum(ts: seq<TensorEntry>): int {
    if ts == [] then 0 else SizeSum(ts[..|ts| - 1]) + ts[|ts| - 1].size
  }

  /** A finished group: offsets from its first tensor. */
  function Close(ts: seq<TensorEntry>, fingerprint: seq<TensorEntry> -> string): GroupEntry
    requires ts != []
  {
    GroupEntry(ts[0].offset, SizeSum(ts), fingerprint(ts), RebaseAll(ts, -ts[0].offset))
  }

  lemma {:induction false} CloseFlattens(groups: seq<GroupEntry>, ts: seq<TensorEntry>, fingerprint: seq<TensorEntry> -> string)
    requires ts != []
    ensures Flatten(groups + [Close(ts, fingerprint)]) == Flatten(groups) + ts
  {
    var g := Close(ts, fingerprint);
    assert (groups + [g])[..|groups|] == groups;
    RebaseBack(ts, ts[0].offset);
  }

  ghost predicate GroupRight(g: GroupEntry) {
    g.tensors != [] && g.tensors[0].offset == 0 && g.size == SizeSum(g.tensors)
  }

  /** Without its last tensor the group had not reached the chunk size. */
  ghost predicate Tight(tensors: seq<TensorEntry>, chunk: int) {
    |tensors| <= 1 || SizeSum(tensors[..|tensors| - 1]) < chunk
  }

  /** The tensors of `entries` are in the closed groups and the open one. */
  ghost predicate Grouping(entries: seq<TensorEntry>, chunk: int, groups: seq<GroupEntry>, current: seq<TensorEntry>) {
    && Flatten(groups) + current == entries
    && (forall i :: 0 <= i < |groups| ==> GroupRight(groups[i]) && groups[i].size >= chunk && Tight(groups[i].tensors, chunk))
    && Tight(current, chunk)
  }

  lemma {:induction false} NothingGrouped(chunk: int)
    ensures Grouping([], chunk, [], []) && SizeSum([]) == 0 && Tight([], chunk)
  {
  }

  lemma {:induction false} AddToGroup(entries: seq<TensorEntry>, chunk: int, groups: seq<GroupEntry>, current: seq<TensorEntry>, t: TensorEntry)
    requires Grouping(entries, chunk, groups, current) && (current == [] || SizeSum(current) < chunk)
    ensures Grouping(entries + [t], chunk, groups, current + [t])
    ensures SizeSum(current + [t]) == SizeSum(current) + t.size
  {
    assert (current + [t])[..|current|] == current;
    assert Flatten(groups) + (current + [t]) == Flatten(groups) + current + [t];
  }

  lemma {:induction false} RebasedFront(ts: seq<TensorEntry>, shift: int)
    requires ts != []
    ensures |RebaseAll(ts, shift)| == |ts| && RebaseAll(ts, shift)[..|ts| - 1] == RebaseAll(ts[..|ts| - 1], shift)
  {
    if |ts| > 1 {
      RebasedFront(ts[..|ts| - 1], shift);
    }
  }

  lemma {:induction false} CloseGroup(
    entries: seq<TensorEntry>, chunk: int, groups: seq<GroupEntry>, current: seq<TensorEntry>, fingerprint: seq<TensorEntry> -> string)
    requires Grouping(entries, chunk, groups, current) && current != []
    ensures GroupRight(Close(current, fingerprint)) && Flatten(groups + [Close(current, fingerprint)]) == entries
    ensures Tight(Close(current, fingerprint).tensors, chunk)
    ensures SizeSum(current) >= chunk ==> Grouping(entries, chunk, groups + [Close(current, fingerprint)], [])
  {
    hide SizeSum, RebaseAll, Flatten;
    CloseFlattens(groups, current, fingerprint);
    RebasedSize(current, -current[0].offset);
    RebasedSize(current[..|current| - 1], -current[0].offset);
    RebaseBack(current, current[0].offset);
    RebasedFront(current, -current[0].offset);
    assert entries + [] == entries;
  }

  /** The grouping loop of `save_tensor_group_dict`: a group is closed as soon as it
      reaches the chunk size. Nothing is lost, and adding a group's offset back to its
      tensors gives their offsets again. */
  method GroupTensors(entries: seq<TensorEntry>, chunk: int, fingerprint: seq<TensorEntry> -> string)
    returns (groups: seq<GroupEntry>)
    ensures Flatten(groups) == entries
    ensures forall i :: 0 <= i < |groups| ==> GroupRight(groups[i]) && (i < |groups| - 1 ==> groups[i].size >= chunk)
    ensures forall i :: 0 <= i < |groups| ==> Tight(groups[i].tensors, chunk)
  {
    hide Flatten, Close, GroupRight, Tight, SizeSum;
    groups := [];
    var current: seq<TensorEntry>, size := [], 0;
    NothingGrouped(chunk);
    for n := 0 to |entries|
      invariant Grouping(entries[..n], chunk, groups, current) && size == SizeSum(current)
      invariant current == [] || size < chunk
    {
      var t := entries[n];
      assert entries[..n + 1] == entries[..n] + [t];
      AddToGroup(entries[..n], chunk, groups, current, t);
      current, size := current + [t], size + t.size;
      if size >= chunk {
        CloseGroup(entries[..n + 1], chunk, groups, current, fingerprint);
        groups, current, size := groups + [Close(current, fingerprint)], [], 0;
        NothingGrouped(chunk);
      }
    }
    assert entries[..|entries|] == entries;
    if current != [] {
      CloseGroup(entries, chunk, groups, current, fingerprint);
      groups := groups + [Close(current, fingerprint)];
    }
  }

  lemma {:induction false} RebasedSize(ts: seq<TensorEntry>, shift: int)
    ensures SizeSum(RebaseAll(ts, shift)) == SizeSum(ts)
  {
    if ts != [] {
      var front := RebaseAll(ts[..|ts| - 1], shift);
      RebasedSize(ts[..|ts| - 1], shift);
      assert RebaseAll(ts, shift)[..|front|] == front;
    }
  }
}
