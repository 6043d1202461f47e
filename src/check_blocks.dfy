/** The blocks that `__parseCheckingStructureSection` and
    `__parseCheckingInvariantsSection` in `pyalaocl/useocl/evaluator.py`
    find with `finditer` in the structure and invariant parts of one
    section of the check transcript. A part is given as the list of its
    lines; each pattern is recognised line by line, and each scan resumes
    where the previous match ended, as `finditer` does. */
module CheckBlocks {
  import opened Wrappers
  import opened Text
  import opened CanonicalLines

  // The structure part: three-line multiplicity violations.

  const AssociationPrefix := "Multiplicity constraint violation in association `"
  const ObjectPrefix := "  Object `"
  const ClassInfix := "' of class `"
  const ConnectedInfix := "' is connected to "
  const ObjectsInfix := " objects of class `"
  const EndPrefix := "  at association end `"
  const MultiplicityInfix := "' but the multiplicity is specified as `"

  /** The groups of one match of the multiplicity pattern. */
  datatype MultiplicityViolation = MultiplicityViolation(
    association: string, objectName: string, sourceClass: string, numberOfObjects: string,
    targetClass: string, role: string, cardinality: string)

  predicate IsUnquoted(c: char) { c != '\'' }

  predicate WellFormedViolation(v: MultiplicityViolation) {
    IsWord(v.association) && IsWord(v.objectName) && IsWord(v.sourceClass) && IsDigits(v.numberOfObjects) &&
    IsWord(v.targetClass) && IsWord(v.role) && |v.cardinality| > 0 && AllChars(v.cardinality, IsUnquoted)
  }

  function AssociationLine(association: string): string {
    AssociationPrefix + (association + "':")
  }

  function ConnectedLine(v: MultiplicityViolation): string {
    ObjectPrefix + (v.objectName + (ClassInfix + (v.sourceClass + (ConnectedInfix +
      (v.numberOfObjects + (ObjectsInfix + (v.targetClass + "'")))))))
  }

  /** The line USE prints, ending in `'.`; the pattern accepts any last
      character after the quote. */
  function EndLine(v: MultiplicityViolation, last: char): string {
    EndPrefix + (v.role + (MultiplicityInfix + (v.cardinality + ['\'', last])))
  }

  /** `^Multiplicity constraint violation in association `(?P<association>\w+)':$` */
  function MatchAssociationLine(line: string): (r: Option<string>)
    ensures r.Some? ==> IsWord(r.value) && line == AssociationLine(r.value)
  {
    match Expect(line, AssociationPrefix)
    case None => None
    case Some(t) =>
      var (a, u) := TakeWord(t);
      if a != [] && u == "':" then Some(a) else None
  }

  /** `^  Object `(?P<object>\w+)' of class `(?P<sourceClass>\w+)' is connected to
      (?P<numberOfObjects>\d+) objects of class `(?P<targetClass>\w+)'$`; the
      other groups of the result are left empty. */
  function MatchConnectedLine(line: string): (r: Option<MultiplicityViolation>)
    ensures r.Some? ==> (IsWord(r.value.objectName) && IsWord(r.value.sourceClass) &&
      IsDigits(r.value.numberOfObjects) && IsWord(r.value.targetClass))
    ensures r.Some? ==> line == ConnectedLine(r.value)
  {
    match Expect(line, ObjectPrefix)
    case None => None
    case Some(t) =>
      var (o, u) := TakeWord(t);
      match Expect(u, ClassInfix)
      case None => None
      case Some(u1) =>
        var (sc, u2) := TakeWord(u1);
        match Expect(u2, ConnectedInfix)
        case None => None
        case Some(u3) =>
          match MatchConnectedCount(u3)
          case None => None
          case Some((n, tc)) =>
            if o != [] && sc != [] then Some(MultiplicityViolation("", o, sc, n, tc, "", "")) else None
  }

  /** The rest of the line after `is connected to `: the count and the
      target class. */
  function MatchConnectedCount(u3: string): (r: Option<(string, string)>)
    ensures r.Some? ==> IsDigits(r.value.0) && IsWord(r.value.1)
    ensures r.Some? ==> u3 == r.value.0 + (ObjectsInfix + (r.value.1 + "'"))
  {
    var (n, u4) := TakeWhile(u3, IsDigit);
    match Expect(u4, ObjectsInfix)
    case None => None
    case Some(u5) =>
      var (tc, u6) := TakeWord(u5);
      if n != [] && tc != [] && u6 == "'" then Some((n, tc)) else None
  }

  /** `^  at association end `(?P<role>\w+)' but the multiplicity is specified
      as `(?P<cardinality>[^']+)'.$`: the role and the cardinality, read
      within this one line. */
  function MatchEndLine(line: string): (r: Option<(string, string)>)
    ensures r.Some? ==> IsWord(r.value.0) && |r.value.1| > 0 && AllChars(r.value.1, IsUnquoted)
    ensures r.Some? ==> (|line| > 0 &&
      line == EndPrefix + (r.value.0 + (MultiplicityInfix + (r.value.1 + ['\'', line[|line| - 1]]))))
  {
    match Expect(line, EndPrefix)
    case None => None
    case Some(t) =>
      var (role, u) := TakeWord(t);
      match Expect(u, MultiplicityInfix)
      case None => None
      case Some(u1) =>
        match MatchCardinality(u1)
        case None => None
        case Some((card, last)) =>
          if role != [] then
            assert line == EndPrefix + (role + (MultiplicityInfix + (card + ['\'', last])));
            Some((role, card))
          else None
  }

  /** The rest of the line after `but the multiplicity is specified as ``:
      the cardinality, its closing quote and one last character. */
  function MatchCardinality(u1: string): (r: Option<(string, char)>)
    ensures r.Some? ==> |r.value.0| > 0 && AllChars(r.value.0, IsUnquoted)
    ensures r.Some? ==> u1 == r.value.0 + ['\'', r.value.1]
  {
    var (card, u2) := TakeWhile(u1, IsUnquoted);
    if card != [] && |u2| == 2 && u2[0] == '\'' then
      assert u2 == ['\'', u2[1]];
      Some((card, u2[1]))
    else None
  }

  /** What the three line patterns of a violation capture from one line.
      The association and connection patterns are anchored at both ends of
      their line. The association-end pattern's `[^']+` also matches a line
      break, so in Python a cardinality could run on into the next lines;
      the model reads each pattern within one line. */
  datatype StructureLine = StructureLine(
    association: Option<string>, connected: Option<MultiplicityViolation>, end: Option<(string, string)>)

  function ClassifyStructure(line: string): StructureLine {
    StructureLine(MatchAssociationLine(line), MatchConnectedLine(line), MatchEndLine(line))
  }

  function StructureLines(lines: seq<string>): (r: seq<StructureLine>)
    ensures |r| == |lines|
    decreases |lines|, 1
  {
    if lines == [] then [] else StructureFirst(lines)
  }

  /** The first line classified, followed by the others. */
  function StructureFirst(lines: seq<string>): (r: seq<StructureLine>)
    requires lines != []
    ensures |r| == |lines|
    decreases |lines|, 0
  {
    [ClassifyStructure(lines[0])] + StructureLines(lines[1..])
  }

  /** The violation made of three consecutive lines, if they match the
      three patterns in turn. */
  function BlockOf(k0: StructureLine, k1: StructureLine, k2: StructureLine): Option<MultiplicityViolation> {
    if k0.association.Some? && k1.connected.Some? && k2.end.Some? then
      Some(k1.connected.value.(association := k0.association.value, role := k2.end.value.0,
        cardinality := k2.end.value.1))
    else None
  }

  /** The `finditer` scan from line `from` on. A match takes three whole
      lines, so the search resumes on the line after it. */
  function ScanStructure(kinds: seq<StructureLine>, from: nat): seq<MultiplicityViolation>
    requires from <= |kinds|
    decreases |kinds| - from
  {
    if from + 3 > |kinds| then []
    else match BlockOf(kinds[from], kinds[from + 1], kinds[from + 2])
      case Some(v) => [v] + ScanStructure(kinds, from + 3)
      case None => ScanStructure(kinds, from + 1)
  }

  /** `__parseCheckingStructureSection`: the multiplicity violations of a
      structure part, in order. */
  function StructureBlocks(lines: seq<string>): seq<MultiplicityViolation> {
    ScanStructure(StructureLines(lines), 0)
  }

  /** Three lines make a violation exactly when they are its association,
      connection and association-end lines. */
  lemma {:induction false} BlockOfLines(l0: string, l1: string, l2: string)
    ensures BlockOf(ClassifyStructure(l0), ClassifyStructure(l1), ClassifyStructure(l2)) == None <==>
      !exists v: MultiplicityViolation, last: char :: WellFormedViolation(v) &&
        l0 == AssociationLine(v.association) && l1 == ConnectedLine(v) && l2 == EndLine(v, last)
    ensures forall v :: BlockOf(ClassifyStructure(l0), ClassifyStructure(l1), ClassifyStructure(l2)) == Some(v) ==>
      (WellFormedViolation(v) && l0 == AssociationLine(v.association) && l1 == ConnectedLine(v) &&
       l2 == EndLine(v, l2[|l2| - 1]))
  {
    var b := BlockOf(ClassifyStructure(l0), ClassifyStructure(l1), ClassifyStructure(l2));
    if b.Some? {
      var v := b.value;
      var c := MatchConnectedLine(l1).value;
      assert ConnectedLine(v) == ConnectedLine(c);
      assert l2 == EndLine(v, l2[|l2| - 1]);
    }
    if v: MultiplicityViolation, last: char :| (WellFormedViolation(v) &&
        l0 == AssociationLine(v.association) && l1 == ConnectedLine(v) && l2 == EndLine(v, last)) {
      AssociationLineRecognised(v.association);
      ConnectedLineRecognised(v);
      EndLineRecognised(v, last);
    }
  }

  lemma {:induction false} AssociationLineRecognised(association: string)
    requires IsWord(association)
    ensures MatchAssociationLine(AssociationLine(association)) == Some(association)
  {
    ExpectToken(AssociationPrefix, association + "':");
    TakeWhileUnique(association, "':", IsWordChar);
  }

  lemma {:induction false} ConnectedLineRecognised(v: MultiplicityViolation)
    requires WellFormedViolation(v)
    ensures MatchConnectedLine(ConnectedLine(v)) ==
      Some(MultiplicityViolation("", v.objectName, v.sourceClass, v.numberOfObjects, v.targetClass, "", ""))
  {
    var u3 := v.numberOfObjects + (ObjectsInfix + (v.targetClass + "'"));
    var u2 := ConnectedInfix + u3;
    var u1 := v.sourceClass + u2;
    var u := ClassInfix + u1;
    ExpectToken(ObjectPrefix, v.objectName + u);
    TakeWhileUnique(v.objectName, u, IsWordChar);
    ExpectToken(ClassInfix, u1);
    TakeWhileUnique(v.sourceClass, u2, IsWordChar);
    ExpectToken(ConnectedInfix, u3);
    ConnectedCountRecognised(v.numberOfObjects, v.targetClass);
  }

  lemma {:induction false} ConnectedCountRecognised(n: string, targetClass: string)
    requires IsDigits(n) && IsWord(targetClass)
    ensures MatchConnectedCount(n + (ObjectsInfix + (targetClass + "'"))) == Some((n, targetClass))
  {
    var u5 := targetClass + "'";
    var u4 := ObjectsInfix + u5;
    TakeWhileUnique(n, u4, IsDigit);
    ExpectToken(ObjectsInfix, u5);
    TakeWhileUnique(targetClass, "'", IsWordChar);
  }

  lemma {:induction false} EndLineRecognised(v: MultiplicityViolation, last: char)
    requires WellFormedViolation(v)
    ensures MatchEndLine(EndLine(v, last)) == Some((v.role, v.cardinality))
  {
    var u2 := ['\'', last];
    var u1 := v.cardinality + u2;
    var u := MultiplicityInfix + u1;
    ExpectToken(EndPrefix, v.role + u);
    TakeWhileUnique(v.role, u, IsWordChar);
    ExpectToken(MultiplicityInfix, u1);
    TakeWhileUnique(v.cardinality, u2, IsUnquoted);
  }

  /** The three lines of a violation as USE prints them. */
  function BlockLines(v: MultiplicityViolation): seq<string> {
    [AssociationLine(v.association), ConnectedLine(v), EndLine(v, '.')]
  }

  /** What USE prints in the structure part: violation blocks, and other
      lines in between. */
  datatype StructureItem = Violation(v: MultiplicityViolation) | Note(line: string)

  predicate WellFormedItem(item: StructureItem) {
    match item
    case Violation(v) => WellFormedViolation(v)
    case Note(line) => MatchAssociationLine(line).None?
  }

  function RenderStructure(items: seq<StructureItem>): seq<string> {
    if items == [] then []
    else
      (match items[0]
       case Violation(v) => BlockLines(v)
       case Note(line) => [line]) + RenderStructure(items[1..])
  }

  function ViolationsOf(items: seq<StructureItem>): seq<MultiplicityViolation> {
    if items == [] then []
    else if items[0].Violation? then [items[0].v] + ViolationsOf(items[1..])
    else ViolationsOf(items[1..])
  }

  /** The violation blocks printed are found back, in order, and the
      other lines are skipped. */
  lemma {:induction false} StructureRoundTrip(items: seq<StructureItem>)
    requires forall i :: 0 <= i < |items| ==> WellFormedItem(items[i])
    ensures StructureBlocks(RenderStructure(items)) == ViolationsOf(items)
  {
    if items != [] {
      StructureRoundTrip(items[1..]);
      match items[0]
      case Violation(v) => ViolationFound(v, RenderStructure(items[1..]));
      case Note(line) => NoteSkipped(line, RenderStructure(items[1..]));
    }
  }

  lemma {:induction false} ViolationFound(v: MultiplicityViolation, rest: seq<string>)
    requires WellFormedViolation(v)
    ensures StructureBlocks(BlockLines(v) + rest) == [v] + StructureBlocks(rest)
  {
    StructureLinesAppend(BlockLines(v), rest);
    BlockLinesKinds(v);
    ScanBlock(StructureLines(BlockLines(v)), StructureLines(rest), v);
  }

  /** The three lines of a violation are classified as its three parts. */
  lemma {:induction false} BlockLinesKinds(v: MultiplicityViolation)
    requires WellFormedViolation(v)
    ensures |StructureLines(BlockLines(v))| == 3
    ensures BlockOf(StructureLines(BlockLines(v))[0], StructureLines(BlockLines(v))[1],
      StructureLines(BlockLines(v))[2]) == Some(v)
  {
    var ls := BlockLines(v);
    StructureLinesThree(ls[0], ls[1], ls[2]);
    assert ls == [ls[0], ls[1], ls[2]];
    AssociationLineRecognised(v.association);
    ConnectedLineRecognised(v);
    EndLineRecognised(v, '.');
  }

  lemma StructureLinesThree(l0: string, l1: string, l2: string)
    ensures StructureLines([l0, l1, l2]) == [ClassifyStructure(l0), ClassifyStructure(l1), ClassifyStructure(l2)]
  {
    assert [l2][1..] == [];
    assert StructureLines([l2]) == [ClassifyStructure(l2)];
    assert [l1, l2][1..] == [l2];
    assert StructureLines([l1, l2]) == [ClassifyStructure(l1)] + StructureLines([l2]);
    assert [l0, l1, l2][1..] == [l1, l2];
    assert StructureLines([l0, l1, l2]) == [ClassifyStructure(l0)] + StructureLines([l1, l2]);
  }

  /** A block found on the first three lines is followed by the scan of
      the lines after it. */
  lemma ScanBlock(block: seq<StructureLine>, rest: seq<StructureLine>, v: MultiplicityViolation)
    requires |block| == 3 && BlockOf(block[0], block[1], block[2]) == Some(v)
    ensures ScanStructure(block + rest, 0) == [v] + ScanStructure(rest, 0)
  {
    var kinds := block + rest;
    assert kinds[0] == block[0] && kinds[1] == block[1] && kinds[2] == block[2];
    ScanShift(block, rest, 0);
  }

  lemma {:induction false} NoteSkipped(line: string, rest: seq<string>)
    requires MatchAssociationLine(line).None?
    ensures StructureBlocks([line] + rest) == StructureBlocks(rest)
  {
    StructureLinesAppend([line], rest);
    assert StructureLines([line]) == [ClassifyStructure(line)] by {
      assert [line][1..] == [];
    }
    ScanSkip(StructureLines([line]), StructureLines(rest));
  }

  /** A first line that starts no block is skipped. */
  lemma ScanSkip(head: seq<StructureLine>, rest: seq<StructureLine>)
    requires |head| == 1 && head[0].association.None?
    ensures ScanStructure(head + rest, 0) == ScanStructure(rest, 0)
  {
    var kinds := head + rest;
    assert kinds[0] == head[0];
    ScanShift(head, rest, 0);
  }

  lemma {:induction false} StructureLinesAppend(p: seq<string>, q: seq<string>)
    ensures StructureLines(p + q) == StructureLines(p) + StructureLines(q)
  {
    if p != [] {
      assert StructureLines(p + q) == StructureFirst(p + q);
      assert StructureLines(p) == StructureFirst(p);
      assert (p + q)[0] == p[0];
      assert (p + q)[1..] == p[1..] + q;
      StructureLinesAppend(p[1..], q);
    } else {
      assert p + q == q;
    }
  }

  /** The scan of lines after a prefix does not depend on the prefix. */
  lemma {:induction false} ScanShift(p: seq<StructureLine>, q: seq<StructureLine>, k: nat)
    requires k <= |q|
    ensures ScanStructure(p + q, |p| + k) == ScanStructure(q, k)
    decreases |q| - k
  {
    if k + 3 <= |q| {
      var kinds := p + q;
      assert kinds[|p| + k] == q[k] && kinds[|p| + k + 1] == q[k + 1] && kinds[|p| + k + 2] == q[k + 2];
      if BlockOf(q[k], q[k + 1], q[k + 2]).Some? {
        ScanShift(p, q, k + 3);
      } else {
        ScanShift(p, q, k + 1);
      }
    }
  }

  // The invariant part: OK lines and four-line FAILED blocks.

  const CheckHead := "checking invariant ("
  const InstancesPrefix := "Instances of "
  const InstancesSuffix := " violating the invariant:"
  const ResultPrefix := "  -> "
  const SetPrefix := "  -> Set{"
  const SetInfix := "} : Set("

  /** What a `checking invariant (N) `C::I': ...` line captures: the
      number is not a named group, the class and the invariant are. */
  datatype InvariantCheck = InvariantCheck(number: string, className: string, invariantName: string)

  predicate WellFormedCheck(c: InvariantCheck) {
    IsDigits(c.number) && IsWord(c.className) && IsWord(c.invariantName)
  }

  function CheckLine(c: InvariantCheck, verdict: string): string {
    CheckHead + (c.number + (") `" + (c.className + ("::" + (c.invariantName + ("': " + verdict))))))
  }

  /** The part of a check line after `checking invariant (`, up to and
      including `': `, and what follows it. */
  function MatchCheckTail(t: string): (r: Option<(InvariantCheck, string)>)
    ensures r.Some? ==> WellFormedCheck(r.value.0)
    ensures r.Some? ==> CheckHead + t == CheckLine(r.value.0, r.value.1)
  {
    var (n, u) := TakeWhile(t, IsDigit);
    match Expect(u, ") `")
    case None => None
    case Some(u1) =>
      match MatchCheckNames(u1)
      case None => None
      case Some((cls, inv, verdict)) =>
        if n != [] then Some((InvariantCheck(n, cls, inv), verdict)) else None
  }

  /** `(?P<class>\w+)::(?P<invariant>\w+)': ` and what follows it. */
  function MatchCheckNames(u1: string): (r: Option<(string, string, string)>)
    ensures r.Some? ==> IsWord(r.value.0) && IsWord(r.value.1)
    ensures r.Some? ==> u1 == r.value.0 + ("::" + (r.value.1 + ("': " + r.value.2)))
  {
    var (cls, u2) := TakeWord(u1);
    match Expect(u2, "::")
    case None => None
    case Some(u3) =>
      var (inv, u4) := TakeWord(u3);
      match Expect(u4, "': ")
      case None => None
      case Some(verdict) =>
        if cls != [] && inv != [] then Some((cls, inv, verdict)) else None
  }

  lemma CheckTailRecognised(c: InvariantCheck, verdict: string)
    requires WellFormedCheck(c)
    ensures MatchCheckTail(CheckLine(c, verdict)[|CheckHead|..]) == Some((c, verdict))
  {
    var u1 := c.className + ("::" + (c.invariantName + ("': " + verdict)));
    var u := ") `" + u1;
    var t := c.number + u;
    assert CheckLine(c, verdict)[|CheckHead|..] == t;
    TakeWhileUnique(c.number, u, IsDigit);
    ExpectToken(") `", u1);
    CheckNamesRecognised(c.className, c.invariantName, verdict);
  }

  lemma CheckNamesRecognised(cls: string, inv: string, verdict: string)
    requires IsWord(cls) && IsWord(inv)
    ensures MatchCheckNames(cls + ("::" + (inv + ("': " + verdict)))) == Some((cls, inv, verdict))
  {
    var u4 := "': " + verdict;
    var u3 := inv + u4;
    var u2 := "::" + u3;
    TakeWhileUnique(cls, u2, IsWordChar);
    ExpectToken("::", u3);
    TakeWhileUnique(inv, u4, IsWordChar);
    ExpectToken("': ", verdict);
  }

  /** `^checking invariant \([0-9]+\) `(?P<class>\w+)::(?P<invariant>\w+)': OK\.`:
      the pattern has no `$`, so anything may follow. */
  function MatchOkLine(line: string): (r: Option<InvariantCheck>)
    ensures r.Some? ==> WellFormedCheck(r.value) && exists rest :: line == CheckLine(r.value, "OK." + rest)
  {
    match Expect(line, CheckHead)
    case None => None
    case Some(t) =>
      match MatchCheckTail(t)
      case None => None
      case Some((c, verdict)) =>
        if StartsWith(verdict, "OK.") then
          Peel(verdict, "OK.");
          assert line == CheckLine(c, "OK." + verdict[3..]);
          Some(c)
        else None
  }

  /** `checking invariant \([0-9]+\) `(?P<class>\w+)::(?P<invariant>\w+)': FAILED\.`
      followed by the end of the line: the pattern has no `^`, so the
      line only has to end with it; the leftmost such ending at or after
      `from` is the one found. */
  function MatchFailedLine(line: string, from: nat): (r: Option<InvariantCheck>)
    ensures r.Some? ==> WellFormedCheck(r.value) && EndsWith(line, CheckLine(r.value, "FAILED."))
    decreases |line| - from
  {
    match Find(line, CheckHead, from)
    case None => None
    case Some(p) =>
      assert line[p..] == CheckHead + line[p + |CheckHead|..];
      match MatchCheckTail(line[p + |CheckHead|..])
      case Some((c, verdict)) =>
        if verdict == "FAILED." then Some(c) else MatchFailedLine(line, p + 1)
      case None => MatchFailedLine(line, p + 1)
  }

  /** The groups of one match of the four-line FAILED pattern, and the
      objects `objectList.replace('@', '').split(',')`. */
  datatype FailedInvariant = FailedInvariant(
    check: InvariantCheck, result: string, instancesClass: string,
    objectList: string, setClass: string, objects: seq<string>)

  predicate IsObjectListChar(c: char) { IsWordChar(c) || c == '@' || c == ',' || c == ' ' }

  /** `^Instances of (?P<class2>\w+) violating the invariant:` followed
      by the `\n` that joins it to the set line: the line ends at the
      colon. */
  function MatchInstancesLine(line: string): (r: Option<string>)
    ensures r.Some? ==> IsWord(r.value) && line == InstancesPrefix + (r.value + InstancesSuffix)
  {
    match Expect(line, InstancesPrefix)
    case None => None
    case Some(t) =>
      var (cls, u) := TakeWord(t);
      if cls != [] && u == InstancesSuffix then Some(cls) else None
  }

  /** `  -> Set{(?P<objectList>[\w@, ]+)} : Set\((?P<class3>\w+)`: the
      object list, the class, and how many characters of the line the
      match takes. The `}` after the list is not a list character, so the
      greedy list can only be the longest run of list characters.
      `SetLineSound` states what a match means. */
  function MatchSetLine(line: string): Option<(string, string, nat)> {
    match Expect(line, SetPrefix)
    case None => None
    case Some(t) =>
      var (list, u) := TakeWhile(t, IsObjectListChar);
      if list == [] then None
      else
        match MatchSetClass(u)
        case None => None
        case Some((cls, end)) => Some((list, cls, |SetPrefix| + |list| + end))
  }

  /** The set pattern after the object list: `} : Set(` and a word. */
  function MatchSetClass(u: string): Option<(string, nat)> {
    match Expect(u, SetInfix)
    case None => None
    case Some(u1) =>
      var (cls, u2) := TakeWord(u1);
      if cls != [] then Some((cls, |u| - |u2|)) else None
  }

  /** A match of the set pattern: the line starts with `  -> Set{`, a
      non-empty object list, `} : Set(` and the class, and the match
      stops where the class word does. */
  lemma SetLineSound(line: string)
    ensures MatchSetLine(line).Some? ==> (
      var (list, cls, end) := MatchSetLine(line).value;
      |list| > 0 && AllChars(list, IsObjectListChar) && IsWord(cls) && end <= |line| &&
      line[..end] == SetPrefix + (list + (SetInfix + cls)) && (end < |line| ==> !IsWordChar(line[end])))
  {
    match Expect(line, SetPrefix)
    case None =>
    case Some(t) =>
      var (list, u) := TakeWhile(t, IsObjectListChar);
      SetClassSound(u);
      match MatchSetClass(u)
      case None =>
      case Some((cls, end)) =>
        SetParts(line, t, list, u, cls, end);
  }

  /** The pieces the set pattern takes, put back together. */
  lemma SetParts(line: string, t: string, list: string, u: string, cls: string, end: nat)
    requires line == SetPrefix + t && t == list + u
    requires end <= |u| && u[..end] == SetInfix + cls && (end < |u| ==> !IsWordChar(u[end]))
    ensures var e := |SetPrefix| + |list| + end;
      e <= |line| && line[..e] == SetPrefix + (list + (SetInfix + cls)) && (e < |line| ==> !IsWordChar(line[e]))
  {
    var e := |SetPrefix| + |list| + end;
    assert line == SetPrefix + (list + u);
    assert line[..e] == SetPrefix + (list + u[..end]);
    if e < |line| {
      assert line[e] == u[end];
    }
  }

  lemma SetClassSound(u: string)
    ensures MatchSetClass(u).Some? ==> (
      var (cls, end) := MatchSetClass(u).value;
      IsWord(cls) && end <= |u| && u[..end] == SetInfix + cls && (end < |u| ==> !IsWordChar(u[end])))
  {
    match Expect(u, SetInfix)
    case None =>
    case Some(u1) =>
      var (cls, u2) := TakeWord(u1);
      if cls != [] {
        assert u == SetInfix + cls + u2;
      }
  }

  /** What the patterns of the invariant part capture from one line. The
      first line of a FAILED block is searched from the start of the line,
      or, on the line where the previous block ended, from where that
      match ended (`failedAfterSet`). */
  datatype InvariantLine = InvariantLine(
    ok: Option<InvariantCheck>, failed: Option<InvariantCheck>, result: Option<string>,
    instances: Option<string>, objectSet: Option<(string, string, nat)>, failedAfterSet: Option<InvariantCheck>)

  function ClassifyInvariant(line: string): InvariantLine {
    InvariantLine(MatchOkLine(line), MatchFailedLine(line, 0), Expect(line, ResultPrefix),
      MatchInstancesLine(line), MatchSetLine(line), MatchFailedLine(line, SetEnd(line)))
  }

  /** Where a match of the set pattern ends in the line, or the end of
      the line when there is none. */
  function SetEnd(line: string): nat {
    match MatchSetLine(line)
    case Some((_, _, end)) => end
    case None => |line|
  }

  /** The lines of an invariant part, each classified. */
  function InvariantLines(lines: seq<string>): (r: seq<InvariantLine>)
    ensures |r| == |lines|
    decreases |lines|, 1
  {
    if lines == [] then [] else ClassifiedFirst(lines)
  }

  /** `kinds` is the classification of `lines`. */
  predicate Classifies(lines: seq<string>, kinds: seq<InvariantLine>) {
    kinds == InvariantLines(lines)
  }

  /** The first line classified, followed by the others. */
  function ClassifiedFirst(lines: seq<string>): (r: seq<InvariantLine>)
    requires lines != []
    ensures |r| == |lines|
    decreases |lines|, 0
  {
    [ClassifyInvariant(lines[0])] + InvariantLines(lines[1..])
  }

  /** The FAILED block whose first line is line `k`, searched from the
      start of that line or, when `resumed`, from where the previous block
      ended on it. The objects are `objectList.replace('@', '').split(',')`. */
  function FailedBlockAt(kinds: seq<InvariantLine>, k: nat, resumed: bool): Option<FailedInvariant>
    requires k + 4 <= |kinds|
  {
    var first := if resumed then kinds[k].failedAfterSet else kinds[k].failed;
    if first.Some? && kinds[k + 1].result.Some? && kinds[k + 2].instances.Some? && kinds[k + 3].objectSet.Some? then
      var (list, cls3, _) := kinds[k + 3].objectSet.value;
      Some(FailedInvariant(first.value, kinds[k + 1].result.value, kinds[k + 2].instances.value,
        list, cls3, Split(Remove(list, '@'), ",")))
    else None
  }

  /** The `finditer` scan for FAILED blocks from line `k` on. A block ends
      inside its fourth line, so the search resumes on that line. */
  function ScanFailed(kinds: seq<InvariantLine>, k: nat, resumed: bool): seq<FailedInvariant>
    requires k <= |kinds|
    decreases |kinds| - k
  {
    if k + 4 > |kinds| then []
    else match FailedBlockAt(kinds, k, resumed)
      case Some(f) => [f] + ScanFailed(kinds, k + 3, true)
      case None => ScanFailed(kinds, k + 1, false)
  }

  /** The OK lines, in order: the OK pattern is anchored at the start of
      a line, so each line holds at most one. */
  function OkChecks(kinds: seq<InvariantLine>): seq<InvariantCheck> {
    if kinds == [] then []
    else (if kinds[0].ok.Some? then [kinds[0].ok.value] else []) + OkChecks(kinds[1..])
  }

  /** `__parseCheckingInvariantsSection`: the OK lines and the FAILED
      blocks of an invariant part. */
  function InvariantBlocks(lines: seq<string>): (seq<InvariantCheck>, seq<FailedInvariant>) {
    var kinds := InvariantLines(lines);
    (OkChecks(kinds), ScanFailed(kinds, 0, false))
  }

  /** The object names of a FAILED block, joined back with commas, are
      its object list without the `@` signs. */
  lemma ObjectsOfList(f: FailedInvariant)
    requires f.objects == Split(Remove(f.objectList, '@'), ",")
    ensures Join(f.objects, ",") == Remove(f.objectList, '@')
    ensures forall i :: 0 <= i < |f.objects| ==> '@' !in f.objects[i]
  {
    JoinSplit(Remove(f.objectList, '@'), ",");
    SplitPieces(Remove(f.objectList, '@'), ",", '@');
  }

  lemma {:induction false} SplitPieces(s: string, sep: string, c: char)
    requires |sep| > 0 && c !in s
    ensures forall i :: 0 <= i < |Split(s, sep)| ==> c !in Split(s, sep)[i]
    decreases |s|
  {
    match Find(s, sep, 0)
    case None =>
    case Some(i) =>
      assert c !in s[..i];
      assert c !in s[i + |sep|..];
      SplitPieces(s[i + |sep|..], sep, c);
  }

  // What USE prints in the invariant part, and the round trip.

  /** A line per invariant that holds, a four-line block per invariant
      that does not, and other lines. */
  datatype InvariantItem =
    | Passed(check: InvariantCheck)
    | Failed(check: InvariantCheck, result: string, className: string, objectList: string)
    | Remark(line: string)

  predicate WellFormedInvariantItem(item: InvariantItem) {
    match item
    case Passed(c) => WellFormedCheck(c)
    case Failed(c, _, cls, list) => WellFormedCheck(c) && IsWord(cls) && |list| > 0 && AllChars(list, IsObjectListChar)
    case Remark(line) => MatchOkLine(line).None? && MatchFailedLine(line, 0).None?
  }

  function SetLine(list: string, cls: string): string {
    SetPrefix + (list + (SetInfix + (cls + ")")))
  }

  function FailedLines(c: InvariantCheck, result: string, cls: string, list: string): seq<string> {
    [CheckLine(c, "FAILED."), ResultPrefix + result, InstancesPrefix + (cls + InstancesSuffix), SetLine(list, cls)]
  }

  function RenderInvariants(items: seq<InvariantItem>): seq<string> {
    if items == [] then []
    else
      (match items[0]
       case Passed(c) => [CheckLine(c, "OK.")]
       case Failed(c, result, cls, list) => FailedLines(c, result, cls, list)
       case Remark(line) => [line]) + RenderInvariants(items[1..])
  }

  function PassedOf(items: seq<InvariantItem>): seq<InvariantCheck> {
    if items == [] then []
    else if items[0].Passed? then [items[0].check] + PassedOf(items[1..])
    else PassedOf(items[1..])
  }

  function FailuresOf(items: seq<InvariantItem>): seq<FailedInvariant> {
    if items == [] then []
    else
      match items[0]
      case Failed(c, result, cls, list) =>
        [FailedInvariant(c, result, cls, list, cls, Split(Remove(list, '@'), ","))] + FailuresOf(items[1..])
      case _ => FailuresOf(items[1..])
  }

  /** The invariants printed as holding are found back as OK lines, and
      the FAILED blocks printed are found back, in order, with their
      groups. */
  lemma InvariantRoundTrip(items: seq<InvariantItem>)
    requires forall i :: 0 <= i < |items| ==> WellFormedInvariantItem(items[i])
    ensures InvariantBlocks(RenderInvariants(items)) == (PassedOf(items), FailuresOf(items))
  {
    OkRoundTrip(items);
    FailedRoundTrip(items);
  }

  lemma {:induction false} OkRoundTrip(items: seq<InvariantItem>)
    requires forall i :: 0 <= i < |items| ==> WellFormedInvariantItem(items[i])
    ensures OkChecks(InvariantLines(RenderInvariants(items))) == PassedOf(items)
  {
    if items != [] {
      var lines := RenderInvariants(items);
      var rest := RenderInvariants(items[1..]);
      var kinds := InvariantLines(lines);
      OkRoundTrip(items[1..]);
      match items[0]
      case Passed(c) =>
        assert lines[0] == CheckLine(c, "OK.") && lines[1..] == rest;
        OkLineKind(lines, kinds, 0, c);
        InvariantLinesDrop(lines, 1);
      case Failed(c, result, cls, list) =>
        var ls := FailedLines(c, result, cls, list);
        assert lines[..4] == ls && lines[4..] == rest;
        assert lines[0] == ls[0] && lines[1] == ls[1] && lines[2] == ls[2] && lines[3] == ls[3];
        FailedBlockLines(lines, kinds, FailedInvariant(c, result, cls, list, cls, Split(Remove(list, '@'), ",")));
        OkChecksSplit(kinds, 4);
        InvariantLinesDrop(lines, 4);
      case Remark(line) =>
        assert lines[0] == line && lines[1..] == rest;
        KindNotOk(lines, kinds, 0);
        InvariantLinesDrop(lines, 1);
    }
  }

  lemma {:induction false} FailedRoundTrip(items: seq<InvariantItem>)
    requires forall i :: 0 <= i < |items| ==> WellFormedInvariantItem(items[i])
    ensures ScanFailed(InvariantLines(RenderInvariants(items)), 0, false) == FailuresOf(items)
  {
    if items != [] {
      var lines := RenderInvariants(items);
      var rest := RenderInvariants(items[1..]);
      var kinds := InvariantLines(lines);
      FailedRoundTrip(items[1..]);
      match items[0]
      case Passed(c) =>
        assert lines[0] == CheckLine(c, "OK.") && lines[1..] == rest;
        OkLineKind(lines, kinds, 0, c);
        InvariantLinesDrop(lines, 1);
        ScanFailedSkip(kinds);
      case Failed(c, result, cls, list) =>
        var ls := FailedLines(c, result, cls, list);
        assert lines[..4] == ls && lines[4..] == rest;
        assert lines[0] == ls[0] && lines[1] == ls[1] && lines[2] == ls[2] && lines[3] == ls[3];
        var f := FailedInvariant(c, result, cls, list, cls, Split(Remove(list, '@'), ","));
        FailedBlockLines(lines, kinds, f);
        InvariantLinesDrop(lines, 4);
        ScanFailedBlock(kinds, f);
      case Remark(line) =>
        assert lines[0] == line && lines[1..] == rest;
        KindNotFailed(lines, kinds, 0);
        InvariantLinesDrop(lines, 1);
        ScanFailedSkip(kinds);
    }
  }

  lemma OkChecksSplit(kinds: seq<InvariantLine>, n: nat)
    requires n <= |kinds|
    ensures OkChecks(kinds) == OkChecks(kinds[..n]) + OkChecks(kinds[n..])
  {
    assert kinds == kinds[..n] + kinds[n..];
    OkChecksAppend(kinds[..n], kinds[n..]);
  }

  /** The four lines of a FAILED block at the head of the lines are
      classified as the parts of that block, and none is an OK line. */
  lemma FailedBlockLines(lines: seq<string>, kinds: seq<InvariantLine>, f: FailedInvariant)
    requires Classifies(lines, kinds)
    requires WellFormedCheck(f.check) && IsWord(f.instancesClass) && f.setClass == f.instancesClass
    requires |f.objectList| > 0 && AllChars(f.objectList, IsObjectListChar)
    requires f.objects == Split(Remove(f.objectList, '@'), ",")
    requires |lines| >= 4 && lines[0] == CheckLine(f.check, "FAILED.") && lines[1] == ResultPrefix + f.result
    requires lines[2] == InstancesPrefix + (f.instancesClass + InstancesSuffix)
    requires lines[3] == SetLine(f.objectList, f.setClass)
    ensures OkChecks(kinds[..4]) == []
    ensures FailedBlockAt(kinds, 0, false) == Some(f)
    ensures kinds[3].failedAfterSet.None?
  {
    FailedLineKind(lines, kinds, 0, f.check);
    ResultLineKind(lines, kinds, 1, f.result);
    InstancesLineKind(lines, kinds, 2, f.instancesClass);
    SetLineKind(lines, kinds, 3, f.objectList, f.setClass);
    KindsBlock(kinds, f, |lines[3]| - 1);
  }

  lemma OkLineKind(ls: seq<string>, kinds: seq<InvariantLine>, i: nat, c: InvariantCheck)
    requires Classifies(ls, kinds)
    requires WellFormedCheck(c) && i < |ls| && ls[i] == CheckLine(c, "OK.")
    ensures kinds[i].ok == Some(c) && kinds[i].failed.None?
  {
    OkLineRecognised(c);
    KindOk(ls, kinds, i, c);
    NotFailedLine(ls[i], 'K');
    KindNotFailed(ls, kinds, i);
  }

  lemma FailedLineKind(ls: seq<string>, kinds: seq<InvariantLine>, i: nat, c: InvariantCheck)
    requires Classifies(ls, kinds)
    requires WellFormedCheck(c) && i < |ls| && ls[i] == CheckLine(c, "FAILED.")
    ensures kinds[i].failed == Some(c) && kinds[i].ok.None?
  {
    FailedLineRecognised(c);
    KindFailed(ls, kinds, i, c);
    FailedLineNotOk(c);
    KindNotOk(ls, kinds, i);
  }

  lemma ResultLineKind(ls: seq<string>, kinds: seq<InvariantLine>, i: nat, result: string)
    requires Classifies(ls, kinds)
    requires i < |ls| && ls[i] == ResultPrefix + result
    ensures kinds[i].result == Some(result) && kinds[i].ok.None?
  {
    ExpectToken(ResultPrefix, result);
    KindResult(ls, kinds, i, result);
    NotCheckHead(ls[i]);
    KindNotOk(ls, kinds, i);
  }

  lemma InstancesLineKind(ls: seq<string>, kinds: seq<InvariantLine>, i: nat, cls: string)
    requires Classifies(ls, kinds)
    requires IsWord(cls) && i < |ls| && ls[i] == InstancesPrefix + (cls + InstancesSuffix)
    ensures kinds[i].instances == Some(cls) && kinds[i].ok.None?
  {
    InstancesLineRecognised(cls);
    KindInstances(ls, kinds, i, cls);
    NotCheckHead(ls[i]);
    KindNotOk(ls, kinds, i);
  }

  lemma SetLineKind(ls: seq<string>, kinds: seq<InvariantLine>, i: nat, list: string, cls: string)
    requires Classifies(ls, kinds)
    requires IsWord(cls) && |list| > 0 && AllChars(list, IsObjectListChar)
    requires i < |ls| && ls[i] == SetLine(list, cls)
    ensures kinds[i].objectSet == Some((list, cls, |ls[i]| - 1))
    ensures kinds[i].failedAfterSet.None? && kinds[i].ok.None?
  {
    SetLineObjects(ls, kinds, i, list, cls);
    SetLineNotOk(ls, kinds, i, list, cls);
  }

  lemma SetLineObjects(ls: seq<string>, kinds: seq<InvariantLine>, i: nat, list: string, cls: string)
    requires Classifies(ls, kinds)
    requires IsWord(cls) && |list| > 0 && AllChars(list, IsObjectListChar)
    requires i < |ls| && ls[i] == SetLine(list, cls)
    ensures kinds[i].objectSet == Some((list, cls, |ls[i]| - 1)) && kinds[i].failedAfterSet.None?
  {
    SetLineRecognised(list, cls);
    SetLineRest(list, cls);
    KindSet(ls, kinds, i, list, cls, |ls[i]| - 1);
  }

  lemma SetLineNotOk(ls: seq<string>, kinds: seq<InvariantLine>, i: nat, list: string, cls: string)
    requires Classifies(ls, kinds)
    requires i < |ls| && ls[i] == SetLine(list, cls)
    ensures kinds[i].ok.None?
  {
    NotCheckHead(ls[i]);
    KindNotOk(ls, kinds, i);
  }

  /** Four classified lines holding the four parts of a FAILED block, and
      no OK line, make that block. */
  lemma KindsBlock(kinds: seq<InvariantLine>, f: FailedInvariant, end: nat)
    requires |kinds| >= 4 && kinds[0].failed == Some(f.check) && kinds[1].result == Some(f.result)
    requires kinds[2].instances == Some(f.instancesClass)
    requires kinds[3].objectSet == Some((f.objectList, f.setClass, end))
    requires f.objects == Split(Remove(f.objectList, '@'), ",")
    requires kinds[0].ok.None? && kinds[1].ok.None? && kinds[2].ok.None? && kinds[3].ok.None?
    ensures OkChecks(kinds[..4]) == []
    ensures FailedBlockAt(kinds, 0, false) == Some(f)
  {
    NoOkChecks(kinds[..4]);
  }

  lemma KindOk(ls: seq<string>, kinds: seq<InvariantLine>, i: nat, c: InvariantCheck)
    requires Classifies(ls, kinds)
    requires i < |ls| && MatchOkLine(ls[i]) == Some(c)
    ensures kinds[i].ok == Some(c)
  {
    ClassifiedAt(ls, kinds, i);
  }

  lemma KindNotOk(ls: seq<string>, kinds: seq<InvariantLine>, i: nat)
    requires Classifies(ls, kinds)
    requires i < |ls| && MatchOkLine(ls[i]).None?
    ensures kinds[i].ok.None?
  {
    ClassifiedAt(ls, kinds, i);
  }

  lemma KindFailed(ls: seq<string>, kinds: seq<InvariantLine>, i: nat, c: InvariantCheck)
    requires Classifies(ls, kinds)
    requires i < |ls| && MatchFailedLine(ls[i], 0) == Some(c)
    ensures kinds[i].failed == Some(c)
  {
    ClassifiedAt(ls, kinds, i);
  }

  lemma KindNotFailed(ls: seq<string>, kinds: seq<InvariantLine>, i: nat)
    requires Classifies(ls, kinds)
    requires i < |ls| && MatchFailedLine(ls[i], 0).None?
    ensures kinds[i].failed.None?
  {
    ClassifiedAt(ls, kinds, i);
  }

  lemma KindResult(ls: seq<string>, kinds: seq<InvariantLine>, i: nat, result: string)
    requires Classifies(ls, kinds)
    requires i < |ls| && Expect(ls[i], ResultPrefix) == Some(result)
    ensures kinds[i].result == Some(result)
  {
    ClassifiedAt(ls, kinds, i);
  }

  lemma KindInstances(ls: seq<string>, kinds: seq<InvariantLine>, i: nat, cls: string)
    requires Classifies(ls, kinds)
    requires i < |ls| && MatchInstancesLine(ls[i]) == Some(cls)
    ensures kinds[i].instances == Some(cls)
  {
    ClassifiedAt(ls, kinds, i);
  }

  lemma KindSet(ls: seq<string>, kinds: seq<InvariantLine>, i: nat, list: string, cls: string, end: nat)
    requires Classifies(ls, kinds)
    requires i < |ls| && MatchSetLine(ls[i]) == Some((list, cls, end)) && MatchFailedLine(ls[i], end).None?
    ensures kinds[i].objectSet == Some((list, cls, end))
    ensures kinds[i].failedAfterSet.None?
  {
    ClassifiedAt(ls, kinds, i);
  }

  /** Each line is classified on its own. */
  lemma ClassifiedAt(ls: seq<string>, kinds: seq<InvariantLine>, i: nat)
    requires Classifies(ls, kinds) && i < |ls|
    ensures kinds[i] == ClassifyInvariant(ls[i])
  {
    ClassifiedAtIndex(ls, i);
  }

  lemma {:induction false} ClassifiedAtIndex(ls: seq<string>, i: nat)
    requires i < |ls|
    ensures InvariantLines(ls)[i] == ClassifyInvariant(ls[i])
  {
    assert InvariantLines(ls) == ClassifiedFirst(ls);
    if i > 0 {
      ClassifiedAtIndex(ls[1..], i - 1);
      assert ls[1..][i - 1] == ls[i];
    }
  }

  /** Classifying the lines after the first `n` is dropping the first `n`
      classified lines. */
  lemma {:induction false} InvariantLinesDrop(ls: seq<string>, n: nat)
    requires n <= |ls|
    ensures InvariantLines(ls)[n..] == InvariantLines(ls[n..])
  {
    if n > 0 {
      assert InvariantLines(ls) == ClassifiedFirst(ls);
      InvariantLinesDrop(ls[1..], n - 1);
      assert ls[1..][n - 1..] == ls[n..];
    }
  }

  lemma {:induction false} OkChecksAppend(p: seq<InvariantLine>, q: seq<InvariantLine>)
    ensures OkChecks(p + q) == OkChecks(p) + OkChecks(q)
  {
    if p != [] {
      assert (p + q)[0] == p[0];
      assert (p + q)[1..] == p[1..] + q;
      OkChecksAppend(p[1..], q);
    } else {
      assert p + q == q;
    }
  }

  lemma {:induction false} NoOkChecks(kinds: seq<InvariantLine>)
    requires forall i :: 0 <= i < |kinds| ==> kinds[i].ok.None?
    ensures OkChecks(kinds) == []
  {
    if kinds != [] {
      NoOkChecks(kinds[1..]);
    }
  }

  lemma OkLineRecognised(c: InvariantCheck)
    requires WellFormedCheck(c)
    ensures MatchOkLine(CheckLine(c, "OK.")) == Some(c)
  {
    var line := CheckLine(c, "OK.");
    assert line == CheckHead + line[|CheckHead|..];
    ExpectToken(CheckHead, line[|CheckHead|..]);
    CheckTailRecognised(c, "OK.");
  }

  lemma FailedLineNotOk(c: InvariantCheck)
    requires WellFormedCheck(c)
    ensures MatchOkLine(CheckLine(c, "FAILED.")).None?
  {
    var line := CheckLine(c, "FAILED.");
    assert line == CheckHead + line[|CheckHead|..];
    ExpectToken(CheckHead, line[|CheckHead|..]);
    CheckTailRecognised(c, "FAILED.");
    assert !StartsWith("FAILED.", "OK.") by {
      assert "FAILED."[..3][0] != "OK."[0];
    }
  }

  lemma NotCheckHead(line: string)
    requires |line| > 0 && line[0] != 'c'
    ensures MatchOkLine(line).None?
  {
    assert !StartsWith(line, CheckHead);
  }

  /** A line that starts no FAILED block is skipped. */
  lemma ScanFailedSkip(kinds: seq<InvariantLine>)
    requires |kinds| >= 1 && kinds[0].failed.None?
    ensures ScanFailed(kinds, 0, false) == ScanFailed(kinds[1..], 0, false)
  {
    assert kinds == kinds[..1] + kinds[1..];
    FailedShift(kinds[..1], kinds[1..], 0, false);
  }

  /** A block found on the first four lines is followed by the scan of
      the lines after it: nothing starts after it on its last line. */
  lemma ScanFailedBlock(kinds: seq<InvariantLine>, f: FailedInvariant)
    requires |kinds| >= 4 && FailedBlockAt(kinds, 0, false) == Some(f) && kinds[3].failedAfterSet.None?
    ensures ScanFailed(kinds, 0, false) == [f] + ScanFailed(kinds[4..], 0, false)
  {
    assert kinds == kinds[..4] + kinds[4..];
    FailedShift(kinds[..4], kinds[4..], 0, false);
  }

  /** A line whose last-but-one character is not the `D` of `FAILED.`
      does not end a FAILED check line. */
  lemma NotFailedLine(line: string, x: char)
    requires |line| >= 2 && line[|line| - 2] == x && x != 'D'
    ensures MatchFailedLine(line, 0).None?
  {
  }

  lemma {:induction false} FailedLineRecognised(c: InvariantCheck)
    requires WellFormedCheck(c)
    ensures MatchFailedLine(CheckLine(c, "FAILED."), 0) == Some(c)
  {
    var line := CheckLine(c, "FAILED.");
    assert line[0..|CheckHead|] == CheckHead;
    assert line[|CheckHead|..] == line[0 + |CheckHead|..];
    CheckTailRecognised(c, "FAILED.");
  }

  lemma {:induction false} InstancesLineRecognised(cls: string)
    requires IsWord(cls)
    ensures MatchInstancesLine(InstancesPrefix + (cls + InstancesSuffix)) == Some(cls)
  {
    ExpectToken(InstancesPrefix, cls + InstancesSuffix);
    TakeWhileUnique(cls, InstancesSuffix, IsWordChar);
  }

  /** The set line is recognised up to its closing parenthesis. */
  lemma SetLineRecognised(list: string, cls: string)
    requires IsWord(cls) && |list| > 0 && AllChars(list, IsObjectListChar)
    ensures MatchSetLine(SetLine(list, cls)) == Some((list, cls, |SetLine(list, cls)| - 1))
  {
    var u := SetInfix + (cls + ")");
    SetClassRecognised(cls);
    assert !IsObjectListChar(u[0]);
    TakeWhileUnique(list, u, IsObjectListChar);
    ExpectToken(SetPrefix, list + u);
    assert |SetLine(list, cls)| - 1 == |SetPrefix| + |list| + (|SetInfix| + |cls|);
  }

  lemma SetClassRecognised(cls: string)
    requires IsWord(cls)
    ensures MatchSetClass(SetInfix + (cls + ")")) == Some((cls, |SetInfix| + |cls|))
  {
    ExpectToken(SetInfix, cls + ")");
    TakeWhileUnique(cls, ")", IsWordChar);
  }

  lemma SetLineRest(list: string, cls: string)
    ensures MatchFailedLine(SetLine(list, cls), |SetLine(list, cls)| - 1).None?
  {
    NoFailedLineAt(SetLine(list, cls), |SetLine(list, cls)| - 1);
  }

  /** Too few characters are left after `from` for a check line to start. */
  lemma NoFailedLineAt(line: string, from: nat)
    requires from + |CheckHead| > |line|
    ensures MatchFailedLine(line, from).None?
  {
  }

  /** The scan of lines after a prefix does not depend on the prefix. */
  lemma {:induction false} FailedShift(p: seq<InvariantLine>, q: seq<InvariantLine>, k: nat, resumed: bool)
    requires k <= |q|
    ensures ScanFailed(p + q, |p| + k, resumed) == ScanFailed(q, k, resumed)
    decreases |q| - k
  {
    if k + 4 <= |q| {
      BlockShift(p, q, k, resumed);
      if FailedBlockAt(q, k, resumed).Some? {
        FailedShift(p, q, k + 3, true);
      } else {
        FailedShift(p, q, k + 1, false);
      }
    }
  }

  /** A FAILED block reads the same lines after a prefix. */
  lemma BlockShift(p: seq<InvariantLine>, q: seq<InvariantLine>, k: nat, resumed: bool)
    requires k + 4 <= |q|
    ensures FailedBlockAt(p + q, |p| + k, resumed) == FailedBlockAt(q, k, resumed)
  {
    var kinds := p + q;
    assert kinds[|p| + k] == q[k] && kinds[|p| + k + 1] == q[k + 1] &&
      kinds[|p| + k + 2] == q[k + 2] && kinds[|p| + k + 3] == q[k + 3];
  }
}
