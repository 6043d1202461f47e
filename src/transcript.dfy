/** The transcript the USE tool prints when it checks a batch of
    snapshots, as `__parseValidationOutput` in
    `pyalaocl/useocl/evaluator.py` reads it: the split into one section
    per snapshot, and the blocks of the structure and invariant parts of
    a section.

    The source runs its regular expressions over the transcript text
    with `re.MULTILINE`; here they run over its lines (`text.split('\n')`),
    and each part of a section is the list of lines strictly between two
    delimiter lines. Each recogniser says, as a round-trip lemma, which
    lines it accepts and what it captures from them. */
module Transcript {
  import opened Wrappers
  import opened Text
  import opened CanonicalLines

  // Delimiter lines of a section.

  const OpenCommand := ".soil> open "
  const CheckCommand := ".soil> check -d"
  const StructureHeader := "checking structure..."
  const InvariantsHeader := "checking invariants..."

  /** `^[^\n]+\.soil> open [^\n]*\.soil$`: a prompt of at least one
      character, the `open` command and a path ending in `.soil`; the
      first occurrence of the command after the first character is the
      one to look at, since a later one leaves even less room for the
      path. */
  predicate IsOpenLine(line: string) {
    EndsWith(line, ".soil") &&
    match Find(line, OpenCommand, 1)
    case Some(k) => k + |OpenCommand| + 5 <= |line|
    case None => false
  }

  /** The line the tool echoes when the driver opens `file`. */
  function OpenLine(prompt: string, file: string): string {
    prompt + (OpenCommand + file)
  }

  /** `^[^\n]+\.soil> check -d$` */
  predicate IsCheckLine(line: string) {
    |line| > |CheckCommand| && EndsWith(line, CheckCommand)
  }

  /** `^checking invariants\.\.\.$` */
  predicate IsInvariantsHeader(line: string) {
    line == InvariantsHeader
  }

  /** `^checked \d+ invariants`; the rest of the line is not looked at. */
  predicate IsCheckedLine(line: string) {
    StartsWith(line, "checked ") &&
    var t := line[8..];
    var d := DigitSpan(t);
    d > 0 && StartsWith(t[d..], " invariants")
  }

  /** The line that closes the invariant part: the number of invariants
      checked, then whatever the tool adds (timing, failures). */
  function CheckedLine(count: nat, tail: string): string {
    "checked " + (NatToString(count) + (" invariants" + tail))
  }

  /** A prompt ending in `.soil` and a path ending in `.soil` make an
      open line. */
  lemma {:induction false} OpenLineRecognised(prompt: string, file: string)
    requires |prompt| >= 1 && EndsWith(file, ".soil")
    ensures IsOpenLine(OpenLine(prompt, file))
  {
    var line := OpenLine(prompt, file);
    assert line[|prompt|..|prompt| + |OpenCommand|] == OpenCommand;
    assert OccursAt(line, OpenCommand, |prompt|);
    assert line[|line| - 5..] == file[|file| - 5..];
    assert Find(line, OpenCommand, 1).Some?;
  }

  /** Every count and tail make a line that closes the invariant part. */
  lemma {:induction false} CheckedLineRecognised(count: nat, tail: string)
    ensures IsCheckedLine(CheckedLine(count, tail))
  {
    var line := CheckedLine(count, tail);
    var digits := NatToString(count);
    var rest := " invariants" + tail;
    assert line[8..] == digits + rest;
    SpanOfRun(digits, rest, IsDigit);
    assert (digits + rest)[|digits|..] == rest;
  }

  /** None of the fixed lines of a section is taken for another one. */
  lemma {:induction false} DelimitersDistinct(prompt: string, count: nat, tail: string)
    ensures !IsCheckLine(StructureHeader) && !IsCheckLine(InvariantsHeader)
    ensures !IsCheckedLine(InvariantsHeader) && !IsCheckedLine(StructureHeader)
    ensures StructureHeader != InvariantsHeader
    ensures |prompt| >= 1 ==> IsCheckLine(prompt + CheckCommand)
  {
    assert StructureHeader[5] != "checked "[5];
    assert InvariantsHeader[5] != "checked "[5];
    var line := prompt + CheckCommand;
    assert line[|line| - |CheckCommand|..] == CheckCommand;
  }

  // Searching the transcript.

  /** The delimiter lines searched for one at a time. */
  datatype Delimiter = Open | InvariantsStart | Checked

  predicate IsDelimiter(p: Delimiter, line: string) {
    match p
    case Open => IsOpenLine(line)
    case InvariantsStart => IsInvariantsHeader(line)
    case Checked => IsCheckedLine(line)
  }

  /** Index of the first line at or after `from` that is a `p` line. */
  function FirstLine(lines: seq<string>, p: Delimiter, from: nat): (r: Option<nat>)
    requires from <= |lines|
    ensures r.Some? ==> from <= r.value < |lines|
    decreases |lines| - from
  {
    if from == |lines| then None
    else if IsDelimiter(p, lines[from]) then Some(from)
    else FirstLine(lines, p, from + 1)
  }

  /** The line found is a `p` line, no line before it is, and when none
      is found no line is. */
  lemma {:induction false} FirstLineFirst(lines: seq<string>, p: Delimiter, from: nat)
    requires from <= |lines|
    ensures var r := FirstLine(lines, p, from);
      (r.Some? ==> IsDelimiter(p, lines[r.value])) &&
      (r.Some? ==> forall j {:trigger IsDelimiter(p, lines[j])} :: from <= j < r.value ==> !IsDelimiter(p, lines[j])) &&
      (r.None? ==> forall j {:trigger IsDelimiter(p, lines[j])} :: from <= j < |lines| ==> !IsDelimiter(p, lines[j]))
    decreases |lines| - from
  {
    if from < |lines| && !IsDelimiter(p, lines[from]) {
      FirstLineFirst(lines, p, from + 1);
    }
  }

  /** `^[^\n]+\.soil> check -d$\n^checking structure\.\.\.$`: a check
      line with the structure header right below it. */
  predicate IsCheckPair(lines: seq<string>, j: nat) {
    j + 1 < |lines| && IsCheckLine(lines[j]) && lines[j + 1] == StructureHeader
  }

  /** Index of the first check pair at or after `from`. */
  function FirstCheckPair(lines: seq<string>, from: nat): (r: Option<nat>)
    requires from <= |lines|
    ensures r.Some? ==> from <= r.value && r.value + 1 < |lines|
    decreases |lines| - from
  {
    if from == |lines| then None
    else if IsCheckPair(lines, from) then Some(from)
    else FirstCheckPair(lines, from + 1)
  }

  lemma {:induction false} FirstCheckPairFirst(lines: seq<string>, from: nat)
    requires from <= |lines|
    ensures var r := FirstCheckPair(lines, from);
      (r.Some? ==> IsCheckPair(lines, r.value)) &&
      (r.Some? ==> forall j :: from <= j < r.value ==> !IsCheckPair(lines, j)) &&
      (r.None? ==> forall j :: from <= j < |lines| ==> !IsCheckPair(lines, j))
    decreases |lines| - from
  {
    if from < |lines| && !IsCheckPair(lines, from) {
      FirstCheckPairFirst(lines, from + 1);
    }
  }

  /** The three parts of one snapshot's section: what the tool printed
      while loading it, the structure check and the invariant check. */
  datatype Section = Section(stateLines: seq<string>, structureLines: seq<string>, invariantLines: seq<string>)

  /** The parts hold no delimiter that would have ended them earlier: the
      non-greedy groups of the pattern stop at the first delimiter. */
  predicate AllDelimited(ss: seq<Section>) {
    forall i :: 0 <= i < |ss| ==> Delimited(ss[i])
  }

  predicate Delimited(s: Section) {
    (forall j :: 0 <= j < |s.stateLines| ==> !IsCheckPair(s.stateLines, j)) &&
    InvariantsHeader !in s.structureLines &&
    (forall j {:trigger IsCheckedLine(s.invariantLines[j])} :: 0 <= j < |s.invariantLines| ==> !IsCheckedLine(s.invariantLines[j]))
  }

  /** Where one match of the section pattern sits: its open line, its
      check line, its `checking invariants...` line and its `checked N
      invariants` line. */
  datatype Match = Match(open: nat, check: nat, invariants: nat, checked: nat)

  predicate Ordered(m: Match, size: nat) {
    m.open + 1 <= m.check && m.check + 2 <= m.invariants && m.invariants + 1 <= m.checked < size
  }

  predicate AllOrdered(ms: seq<Match>, size: nat) {
    forall i :: 0 <= i < |ms| ==> Ordered(ms[i], size)
  }

  /** The lines of `m` are a match of the section pattern: each of its
      delimiter lines is one, and each is the first one after the
      previous (the groups of the pattern are non-greedy). */
  predicate IsMatch(lines: seq<string>, m: Match) {
    Ordered(m, |lines|) &&
    IsDelimiter(Open, lines[m.open]) && IsCheckPair(lines, m.check) &&
    IsDelimiter(InvariantsStart, lines[m.invariants]) && IsDelimiter(Checked, lines[m.checked]) &&
    (forall j :: m.open + 1 <= j < m.check ==> !IsCheckPair(lines, j)) &&
    (forall j {:trigger IsDelimiter(InvariantsStart, lines[j])} ::
      m.check + 2 <= j < m.invariants ==> !IsDelimiter(InvariantsStart, lines[j])) &&
    (forall j {:trigger IsDelimiter(Checked, lines[j])} ::
      m.invariants + 1 <= j < m.checked ==> !IsDelimiter(Checked, lines[j]))
  }

  /** The three groups of a match: the lines between its delimiters. */
  function SectionOf(lines: seq<string>, m: Match): Section
    requires Ordered(m, |lines|)
  {
    Section(lines[m.open + 1..m.check], lines[m.check + 2..m.invariants], lines[m.invariants + 1..m.checked])
  }

  /** `__splitOutputAsSectionsGroups`: the groups of every match
      `finditer` finds in the transcript. */
  function Sections(lines: seq<string>): seq<Section> {
    SectionsAt(lines, Matches(lines, 0))
  }

  function SectionsAt(lines: seq<string>, ms: seq<Match>): (r: seq<Section>)
    requires AllOrdered(ms, |lines|)
    ensures |r| == |ms|
  {
    if ms == [] then [] else [SectionOf(lines, ms[0])] + SectionsAt(lines, ms[1..])
  }

  /** The matches found from line `from` on: the search resumes on the
      line after each match. */
  function Matches(lines: seq<string>, from: nat): (r: seq<Match>)
    requires from <= |lines|
    ensures AllOrdered(r, |lines|)
    decreases |lines| - from
  {
    match NextMatch(lines, from)
    case None => []
    case Some(m) => [m] + Matches(lines, m.checked + 1)
  }

  /** The first match at or after line `from`. A match starts at an open
      line, its state group ends at the first check pair, its structure
      group at the first `checking invariants...` line and its invariant
      group at the first `checked N invariants` line. When the first open
      line starts no complete match, no later one does either (every
      later candidate needs the same delimiters further down), so there
      is none. */
  function NextMatch(lines: seq<string>, from: nat): (r: Option<Match>)
    requires from <= |lines|
    ensures r.Some? ==> from <= r.value.open && Ordered(r.value, |lines|)
  {
    match FirstLine(lines, Open, from)
    case None => None
    case Some(o) => MatchFrom(lines, o)
  }

  function MatchFrom(lines: seq<string>, o: nat): (r: Option<Match>)
    requires o < |lines|
    ensures r.Some? ==> r.value.open == o && Ordered(r.value, |lines|)
  {
    match FirstCheckPair(lines, o + 1)
    case None => None
    case Some(c) => MatchAfterCheck(lines, o, c)
  }

  function MatchAfterCheck(lines: seq<string>, o: nat, c: nat): (r: Option<Match>)
    requires o + 1 <= c && c + 2 <= |lines|
    ensures r.Some? ==> r.value.open == o && r.value.check == c && Ordered(r.value, |lines|)
  {
    match FirstLine(lines, InvariantsStart, c + 2)
    case None => None
    case Some(i) => MatchAfterInvariants(lines, o, c, i)
  }

  function MatchAfterInvariants(lines: seq<string>, o: nat, c: nat, i: nat): (r: Option<Match>)
    requires o + 1 <= c && c + 2 <= i < |lines|
    ensures r.Some? ==> r.value.open == o && r.value.check == c && r.value.invariants == i && Ordered(r.value, |lines|)
  {
    match FirstLine(lines, Checked, i + 1)
    case None => None
    case Some(k) => Some(Match(o, c, i, k))
  }

  /** What the search finds is a match. */
  lemma {:induction false} NextMatchSound(lines: seq<string>, from: nat)
    requires from <= |lines|
    ensures NextMatch(lines, from).Some? ==> IsMatch(lines, NextMatch(lines, from).value)
  {
    FirstLineFirst(lines, Open, from);
    var fo := FirstLine(lines, Open, from);
    if fo.Some? {
      MatchFromSound(lines, fo.value);
    }
  }

  lemma {:induction false} MatchFromSound(lines: seq<string>, o: nat)
    requires o < |lines| && IsDelimiter(Open, lines[o])
    ensures MatchFrom(lines, o).Some? ==> IsMatch(lines, MatchFrom(lines, o).value)
  {
    FirstCheckPairFirst(lines, o + 1);
    var fc := FirstCheckPair(lines, o + 1);
    if fc.Some? {
      MatchAfterCheckSound(lines, o, fc.value);
    }
  }

  lemma {:induction false} MatchAfterCheckSound(lines: seq<string>, o: nat, c: nat)
    requires o + 1 <= c && c + 2 <= |lines|
    requires IsDelimiter(Open, lines[o]) && IsCheckPair(lines, c)
    requires forall j :: o + 1 <= j < c ==> !IsCheckPair(lines, j)
    ensures MatchAfterCheck(lines, o, c).Some? ==> IsMatch(lines, MatchAfterCheck(lines, o, c).value)
  {
    FirstLineFirst(lines, InvariantsStart, c + 2);
    var fi := FirstLine(lines, InvariantsStart, c + 2);
    if fi.Some? {
      MatchAfterInvariantsSound(lines, o, c, fi.value);
    }
  }

  lemma {:induction false} MatchAfterInvariantsSound(lines: seq<string>, o: nat, c: nat, i: nat)
    requires o + 1 <= c && c + 2 <= i < |lines|
    requires IsDelimiter(Open, lines[o]) && IsCheckPair(lines, c) && IsDelimiter(InvariantsStart, lines[i])
    requires forall j :: o + 1 <= j < c ==> !IsCheckPair(lines, j)
    requires forall j {:trigger IsDelimiter(InvariantsStart, lines[j])} :: c + 2 <= j < i ==> !IsDelimiter(InvariantsStart, lines[j])
    ensures MatchAfterInvariants(lines, o, c, i).Some? ==> IsMatch(lines, MatchAfterInvariants(lines, o, c, i).value)
  {
    FirstLineFirst(lines, Checked, i + 1);
  }

  /** Conversely, the search from the open line of a match finds it. */
  lemma {:induction false} NextMatchAt(lines: seq<string>, m: Match)
    requires IsMatch(lines, m)
    ensures NextMatch(lines, m.open) == Some(m)
  {
    FirstLineAt(lines, Checked, m.invariants + 1, m.checked);
    FirstLineAt(lines, InvariantsStart, m.check + 2, m.invariants);
    FirstCheckPairAt(lines, m.open + 1, m.check);
    FirstLineAt(lines, Open, m.open, m.open);
  }

  /** Every match found is one. */
  lemma {:induction false} MatchesSound(lines: seq<string>, from: nat)
    requires from <= |lines|
    ensures forall i :: 0 <= i < |Matches(lines, from)| ==> IsMatch(lines, Matches(lines, from)[i])
    decreases |lines| - from
  {
    NextMatchSound(lines, from);
    match NextMatch(lines, from)
    case None =>
    case Some(m) =>
      MatchesSound(lines, m.checked + 1);
  }

  /** Every section found stops at the first delimiter of each of its
      parts. */
  lemma {:induction false} SectionsDelimited(lines: seq<string>)
    ensures AllDelimited(Sections(lines))
  {
    MatchesSound(lines, 0);
    SectionsAtDelimited(lines, Matches(lines, 0));
  }

  lemma {:induction false} SectionsAtDelimited(lines: seq<string>, ms: seq<Match>)
    requires AllOrdered(ms, |lines|)
    requires forall i :: 0 <= i < |ms| ==> IsMatch(lines, ms[i])
    ensures AllDelimited(SectionsAt(lines, ms))
  {
    if ms != [] {
      SectionAtDelimited(lines, ms[0]);
      SectionsAtDelimited(lines, ms[1..]);
    }
  }

  lemma {:induction false} SectionAtDelimited(lines: seq<string>, m: Match)
    requires IsMatch(lines, m)
    ensures Delimited(SectionOf(lines, m))
  {
    var o, c, i, k := m.open, m.check, m.invariants, m.checked;
    var s := SectionOf(lines, m);
    forall j | 0 <= j < |s.stateLines| ensures !IsCheckPair(s.stateLines, j) {
      assert !IsCheckPair(lines, o + 1 + j);
      if j + 1 < |s.stateLines| {
        assert s.stateLines[j] == lines[o + 1 + j] && s.stateLines[j + 1] == lines[o + 2 + j];
      }
    }
    forall j | 0 <= j < |s.structureLines| ensures s.structureLines[j] != InvariantsHeader {
      assert s.structureLines[j] == lines[c + 2 + j];
      assert !IsDelimiter(InvariantsStart, lines[c + 2 + j]);
    }
    forall j | 0 <= j < |s.invariantLines| ensures !IsCheckedLine(s.invariantLines[j]) {
      assert s.invariantLines[j] == lines[i + 1 + j];
      assert !IsDelimiter(Checked, lines[i + 1 + j]);
    }
  }

  /** What the tool prints for one snapshot: the open line, the lines
      the snapshot's commands print, the check command and its three
      parts. */
  datatype SnapshotTranscript = SnapshotTranscript(prompt: string, file: string, section: Section, count: nat, tail: string)

  predicate WellFormedTranscript(t: SnapshotTranscript) {
    |t.prompt| >= 1 && EndsWith(t.file, ".soil") && Delimited(t.section)
  }

  function Render(t: SnapshotTranscript): seq<string> {
    [OpenLine(t.prompt, t.file)] + (t.section.stateLines + ([t.prompt + CheckCommand, StructureHeader] +
      (t.section.structureLines + ([InvariantsHeader] + (t.section.invariantLines + [CheckedLine(t.count, t.tail)])))))
  }

  function RenderAll(ts: seq<SnapshotTranscript>): seq<string> {
    if ts == [] then [] else Render(ts[0]) + RenderAll(ts[1..])
  }

  function SectionsOf(ts: seq<SnapshotTranscript>): (r: seq<Section>)
    ensures |r| == |ts| && forall i :: 0 <= i < |ts| ==> r[i] == ts[i].section
  {
    if ts == [] then [] else [ts[0].section] + SectionsOf(ts[1..])
  }

  /** The first line at or after `from` that satisfies `p` is at `k`
      when line `k` does and none before it does. */
  lemma {:induction false} FirstLineAt(lines: seq<string>, p: Delimiter, from: nat, k: nat)
    requires from <= k < |lines| && IsDelimiter(p, lines[k])
    requires forall j {:trigger IsDelimiter(p, lines[j])} :: from <= j < k ==> !IsDelimiter(p, lines[j])
    ensures FirstLine(lines, p, from) == Some(k)
    decreases k - from
  {
    if from < k {
      FirstLineAt(lines, p, from + 1, k);
    }
  }

  lemma {:induction false} FirstCheckPairAt(lines: seq<string>, from: nat, k: nat)
    requires from <= k && IsCheckPair(lines, k)
    requires forall j :: from <= j < k ==> !IsCheckPair(lines, j)
    ensures FirstCheckPair(lines, from) == Some(k)
    decreases k - from
  {
    if from < k {
      FirstCheckPairAt(lines, from + 1, k);
    }
  }

  /** Snapshot `t` is printed in `lines` from line `o` on. */
  predicate Lays(lines: seq<string>, o: nat, t: SnapshotTranscript) {
    o + |Render(t)| <= |lines| && forall m :: 0 <= m < |Render(t)| ==> LineAt(lines, o, m) == Render(t)[m]
  }

  /** Line `m` counted from line `o`. */
  function LineAt(lines: seq<string>, o: nat, m: nat): string
    requires o + m < |lines|
  {
    lines[o + m]
  }

  /** Where each line of a printed snapshot sits. */
  predicate LaidOut(lines: seq<string>, o: nat, t: SnapshotTranscript) {
    var st, sl, il := t.section.stateLines, t.section.structureLines, t.section.invariantLines;
    var c := o + 1 + |st|;
    var i := c + 2 + |sl|;
    var k := i + 1 + |il|;
    k < |lines| &&
    lines[o] == OpenLine(t.prompt, t.file) && lines[o + 1..c] == st &&
    lines[c] == t.prompt + CheckCommand && lines[c + 1] == StructureHeader &&
    lines[c + 2..i] == sl && lines[i] == InvariantsHeader &&
    lines[i + 1..k] == il && lines[k] == CheckedLine(t.count, t.tail)
  }

  /** Snapshots `ts` are printed one after the other in `lines` from line
      `from` on, and no open line follows them. */
  predicate LaysAll(lines: seq<string>, from: nat, ts: seq<SnapshotTranscript>)
    decreases |ts|
  {
    if ts == [] then
      from <= |lines| && forall j {:trigger IsOpenLine(lines[j])} :: from <= j < |lines| ==> !IsOpenLine(lines[j])
    else
      WellFormedTranscript(ts[0]) && Lays(lines, from, ts[0]) && LaysAll(lines, from + |Render(ts[0])|, ts[1..])
  }

  lemma {:induction false} RenderLength(t: SnapshotTranscript)
    ensures |Render(t)| ==
      1 + |t.section.stateLines| + 2 + |t.section.structureLines| + 1 + |t.section.invariantLines| + 1
  {
  }

  lemma {:induction false} RenderLayout(pre: seq<string>, t: SnapshotTranscript, post: seq<string>)
    ensures Lays(pre + (Render(t) + post), |pre|, t)
  {
  }

  /** Where the lines of a printed snapshot sit in the transcript. */
  lemma {:induction false} LaysParts(lines: seq<string>, o: nat, t: SnapshotTranscript)
    requires Lays(lines, o, t)
    ensures LaidOut(lines, o, t)
  {
    var st, sl, il := t.section.stateLines, t.section.structureLines, t.section.invariantLines;
    var r := Render(t);
    RenderIndices(t);
    var c := o + 1 + |st|;
    var i := c + 2 + |sl|;
    var k := i + 1 + |il|;
    assert LineAt(lines, o, 0) == r[0];
    assert LineAt(lines, o, 1 + |st|) == r[1 + |st|] && LineAt(lines, o, 2 + |st|) == r[2 + |st|];
    assert LineAt(lines, o, 3 + |st| + |sl|) == r[3 + |st| + |sl|];
    assert LineAt(lines, o, 4 + |st| + |sl| + |il|) == r[4 + |st| + |sl| + |il|];
    PartSlice(lines, o, r, 1, st);
    PartSlice(lines, o, r, 3 + |st|, sl);
    PartSlice(lines, o, r, 4 + |st| + |sl|, il);
  }

  /** A part of `r`, which sits in `lines` from line `o`, sits there too. */
  lemma {:induction false} PartSlice(lines: seq<string>, o: nat, r: seq<string>, from: nat, part: seq<string>)
    requires o + |r| <= |lines| && forall m :: 0 <= m < |r| ==> LineAt(lines, o, m) == r[m]
    requires from + |part| <= |r| && forall m :: 0 <= m < |part| ==> r[from + m] == part[m]
    ensures lines[o + from..o + from + |part|] == part
  {
    forall m | 0 <= m < |part| ensures lines[o + from..o + from + |part|][m] == part[m] {
      assert LineAt(lines, o, from + m) == r[from + m];
    }
  }

  /** The line at each position of a printed snapshot. */
  lemma {:induction false} RenderIndices(t: SnapshotTranscript)
    ensures var st, sl, il := t.section.stateLines, t.section.structureLines, t.section.invariantLines;
      var r := Render(t);
      |r| == 5 + |st| + |sl| + |il| &&
      r[0] == OpenLine(t.prompt, t.file) &&
      (forall m :: 0 <= m < |st| ==> r[1 + m] == st[m]) &&
      r[1 + |st|] == t.prompt + CheckCommand && r[2 + |st|] == StructureHeader &&
      (forall m :: 0 <= m < |sl| ==> r[3 + |st| + m] == sl[m]) &&
      r[3 + |st| + |sl|] == InvariantsHeader &&
      (forall m :: 0 <= m < |il| ==> r[4 + |st| + |sl| + m] == il[m]) &&
      r[4 + |st| + |sl| + |il|] == CheckedLine(t.count, t.tail)
  {
  }

  /** The rendering of snapshots followed by lines with no open line lays
      them out one after the other. */
  lemma {:induction false} RenderAllLayout(pre: seq<string>, ts: seq<SnapshotTranscript>, post: seq<string>)
    requires forall i :: 0 <= i < |ts| ==> WellFormedTranscript(ts[i])
    requires forall j :: 0 <= j < |post| ==> !IsOpenLine(post[j])
    ensures LaysAll(pre + (RenderAll(ts) + post), |pre|, ts)
    decreases |ts|
  {
    var lines := pre + (RenderAll(ts) + post);
    if ts == [] {
      assert lines == pre + post;
      forall j | |pre| <= j < |lines| ensures !IsOpenLine(lines[j]) {
        assert lines[j] == post[j - |pre|];
      }
    } else {
      Regroup(pre, Render(ts[0]), RenderAll(ts[1..]), post);
      RenderLayout(pre, ts[0], RenderAll(ts[1..]) + post);
      RenderAllLayout(pre + Render(ts[0]), ts[1..], post);
    }
  }

  /** Where the delimiters of snapshot `t`, printed from line `o`, sit. */
  function RenderedMatch(o: nat, t: SnapshotTranscript): Match {
    var c := o + 1 + |t.section.stateLines|;
    var i := c + 2 + |t.section.structureLines|;
    Match(o, c, i, i + 1 + |t.section.invariantLines|)
  }

  /** Where the delimiters of snapshots printed one after the other from
      line `from` sit. */
  function RenderedMatches(from: nat, ts: seq<SnapshotTranscript>): seq<Match>
    decreases |ts|
  {
    if ts == [] then [] else [RenderedMatch(from, ts[0])] + RenderedMatches(from + |Render(ts[0])|, ts[1..])
  }

  /** A snapshot printed as the tool prints it is a match. */
  lemma {:induction false} RenderedIsMatch(lines: seq<string>, t: SnapshotTranscript, o: nat)
    requires WellFormedTranscript(t) && Lays(lines, o, t)
    ensures IsMatch(lines, RenderedMatch(o, t))
    ensures RenderedMatch(o, t).checked + 1 == o + |Render(t)|
  {
    RenderLength(t);
    LaysParts(lines, o, t);
    LaidOutIsMatch(lines, o, t);
  }

  lemma {:induction false} LaidOutIsMatch(lines: seq<string>, o: nat, t: SnapshotTranscript)
    requires WellFormedTranscript(t) && LaidOut(lines, o, t)
    ensures IsMatch(lines, RenderedMatch(o, t))
  {
    var st, sl, il := t.section.stateLines, t.section.structureLines, t.section.invariantLines;
    var m := RenderedMatch(o, t);
    assert m.open == o && m.check == o + 1 + |st| && m.invariants == m.check + 2 + |sl| && m.checked == m.invariants + 1 + |il|;
    MatchOfParts(lines, m, t);
  }

  /** The delimiters of a printed snapshot, at the positions of `m`. */
  lemma {:induction false} MatchOfParts(lines: seq<string>, m: Match, t: SnapshotTranscript)
    requires WellFormedTranscript(t)
    requires m.check == m.open + 1 + |t.section.stateLines|
    requires m.invariants == m.check + 2 + |t.section.structureLines|
    requires m.checked == m.invariants + 1 + |t.section.invariantLines| < |lines|
    requires lines[m.open] == OpenLine(t.prompt, t.file) && lines[m.open + 1..m.check] == t.section.stateLines
    requires lines[m.check] == t.prompt + CheckCommand && lines[m.check + 1] == StructureHeader
    requires lines[m.check + 2..m.invariants] == t.section.structureLines && lines[m.invariants] == InvariantsHeader
    requires lines[m.invariants + 1..m.checked] == t.section.invariantLines
    requires lines[m.checked] == CheckedLine(t.count, t.tail)
    ensures IsMatch(lines, m)
  {
    OpenLineRecognised(t.prompt, t.file);
    CheckedLineRecognised(t.count, t.tail);
    StatePartAt(lines, m, t.section.stateLines, t.prompt);
    StructurePartAt(lines, m, t.section.structureLines);
    InvariantPartAt(lines, m, t.section.invariantLines);
  }

  /** The groups of that match are the snapshot's section. */
  lemma {:induction false} RenderedSectionOf(lines: seq<string>, t: SnapshotTranscript, o: nat)
    requires Lays(lines, o, t)
    ensures Ordered(RenderedMatch(o, t), |lines|) && SectionOf(lines, RenderedMatch(o, t)) == t.section
  {
    RenderLength(t);
    LaysParts(lines, o, t);
  }

  /** No check pair starts inside the state part of a laid-out section,
      and one starts right after it. */
  lemma {:induction false} StatePartAt(lines: seq<string>, m: Match, st: seq<string>, prompt: string)
    requires forall j :: 0 <= j < |st| ==> !IsCheckPair(st, j)
    requires |prompt| >= 1
    requires m.check == m.open + 1 + |st| && m.check + 1 < |lines|
    requires lines[m.open + 1..m.check] == st
    requires lines[m.check] == prompt + CheckCommand && lines[m.check + 1] == StructureHeader
    ensures IsCheckPair(lines, m.check)
    ensures forall j :: m.open + 1 <= j < m.check ==> !IsCheckPair(lines, j)
  {
    var o, c := m.open, m.check;
    DelimitersDistinct(prompt, 0, "");
    forall j | o + 1 <= j < c ensures !IsCheckPair(lines, j) {
      assert lines[j] == st[j - o - 1];
      if j + 1 < c {
        assert lines[j + 1] == st[j - o];
        assert !IsCheckPair(st, j - o - 1);
      }
    }
  }

  lemma {:induction false} StructurePartAt(lines: seq<string>, m: Match, sl: seq<string>)
    requires m.check + 2 + |sl| == m.invariants <= |lines|
    requires lines[m.check + 2..m.invariants] == sl && InvariantsHeader !in sl
    ensures forall j {:trigger IsDelimiter(InvariantsStart, lines[j])} ::
      m.check + 2 <= j < m.invariants ==> !IsDelimiter(InvariantsStart, lines[j])
  {
    forall j | m.check + 2 <= j < m.invariants ensures !IsDelimiter(InvariantsStart, lines[j]) {
      assert lines[j] == sl[j - m.check - 2];
    }
  }

  lemma {:induction false} InvariantPartAt(lines: seq<string>, m: Match, il: seq<string>)
    requires m.invariants + 1 + |il| == m.checked <= |lines|
    requires lines[m.invariants + 1..m.checked] == il
    requires forall j :: 0 <= j < |il| ==> !IsCheckedLine(il[j])
    ensures forall j {:trigger IsDelimiter(Checked, lines[j])} ::
      m.invariants + 1 <= j < m.checked ==> !IsDelimiter(Checked, lines[j])
  {
    forall j | m.invariants + 1 <= j < m.checked ensures !IsDelimiter(Checked, lines[j]) {
      assert lines[j] == il[j - m.invariants - 1];
    }
  }

  /** The search finds exactly the matches of snapshots laid out one
      after the other. */
  lemma {:induction false} MatchesRecognised(lines: seq<string>, from: nat, ts: seq<SnapshotTranscript>)
    requires LaysAll(lines, from, ts)
    ensures from <= |lines| && Matches(lines, from) == RenderedMatches(from, ts)
    decreases |ts|
  {
    if ts == [] {
      NoOpenLine(lines, from);
    } else {
      var m := RenderedMatch(from, ts[0]);
      RenderedIsMatch(lines, ts[0], from);
      NextMatchAt(lines, m);
      MatchesRecognised(lines, m.checked + 1, ts[1..]);
    }
  }

  /** Their groups are the snapshots' sections, in order. */
  lemma {:induction false} SectionsAtRecognised(lines: seq<string>, from: nat, ts: seq<SnapshotTranscript>)
    requires LaysAll(lines, from, ts)
    ensures AllOrdered(RenderedMatches(from, ts), |lines|)
    ensures SectionsAt(lines, RenderedMatches(from, ts)) == SectionsOf(ts)
    decreases |ts|
  {
    if ts != [] {
      RenderedSectionOf(lines, ts[0], from);
      SectionsAtRecognised(lines, from + |Render(ts[0])|, ts[1..]);
    }
  }

  lemma {:induction false} Regroup(p: seq<string>, a: seq<string>, b: seq<string>, q: seq<string>)
    ensures p + ((a + b) + q) == p + (a + (b + q)) == (p + a) + (b + q)
  {
  }

  /** Lines holding no open line hold no match. */
  lemma {:induction false} NoOpenLine(lines: seq<string>, from: nat)
    requires from <= |lines|
    requires forall j {:trigger IsOpenLine(lines[j])} :: from <= j < |lines| ==> !IsOpenLine(lines[j])
    ensures Matches(lines, from) == []
  {
    forall j | from <= j < |lines| ensures !IsDelimiter(Open, lines[j]) {
    }
    FirstLineFirst(lines, Open, from);
  }

  /** A preamble without open lines (the tool's banner) does not change
      the sections found: the whole transcript splits into the sections
      of its snapshots. */
  lemma {:induction false} TranscriptSections(preamble: seq<string>, ts: seq<SnapshotTranscript>, post: seq<string>)
    requires forall i :: 0 <= i < |ts| ==> WellFormedTranscript(ts[i])
    requires forall j :: 0 <= j < |preamble| ==> !IsOpenLine(preamble[j])
    requires forall j :: 0 <= j < |post| ==> !IsOpenLine(post[j])
    ensures Sections(preamble + (RenderAll(ts) + post)) == SectionsOf(ts)
  {
    var lines := preamble + (RenderAll(ts) + post);
    RenderAllLayout(preamble, ts, post);
    PreambleNoOpen(preamble, RenderAll(ts) + post);
    SectionsAfterPreamble(lines, |preamble|, ts);
  }

  lemma {:induction false} PreambleNoOpen(preamble: seq<string>, rest: seq<string>)
    requires forall j :: 0 <= j < |preamble| ==> !IsOpenLine(preamble[j])
    ensures forall j {:trigger IsDelimiter(Open, (preamble + rest)[j])} :: 0 <= j < |preamble| ==> !IsDelimiter(Open, (preamble + rest)[j])
  {
    forall j | 0 <= j < |preamble| ensures !IsDelimiter(Open, (preamble + rest)[j]) {
      assert (preamble + rest)[j] == preamble[j];
    }
  }

  lemma {:induction false} SectionsAfterPreamble(lines: seq<string>, from: nat, ts: seq<SnapshotTranscript>)
    requires LaysAll(lines, from, ts)
    requires forall j {:trigger IsDelimiter(Open, lines[j])} :: 0 <= j < from ==> !IsDelimiter(Open, lines[j])
    ensures Sections(lines) == SectionsOf(ts)
  {
    MatchesRecognised(lines, from, ts);
    SectionsAtRecognised(lines, from, ts);
    SkipNoOpen(lines, 0, from);
  }

  /** Lines without an open line before the first match can be skipped. */
  lemma {:induction false} SkipNoOpen(lines: seq<string>, from: nat, to: nat)
    requires from <= to <= |lines|
    requires forall j {:trigger IsDelimiter(Open, lines[j])} :: from <= j < to ==> !IsDelimiter(Open, lines[j])
    ensures Matches(lines, from) == Matches(lines, to)
  {
    FirstLineSkip(lines, Open, from, to);
  }

  lemma {:induction false} FirstLineSkip(lines: seq<string>, p: Delimiter, from: nat, to: nat)
    requires from <= to <= |lines|
    requires forall j {:trigger IsDelimiter(p, lines[j])} :: from <= j < to ==> !IsDelimiter(p, lines[j])
    ensures FirstLine(lines, p, from) == FirstLine(lines, p, to)
    decreases |lines| - from
  {
    if from < to {
      FirstLineSkip(lines, p, from + 1, to);
    }
  }
}
