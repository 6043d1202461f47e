/** Marker-delimited fragments of a sequence of lines
    (`pyalaocl/utils/fragments.py`). A line holding `--oo<< value` opens a
    fragment nested in the innermost open one, `--oo>>` closes the
    innermost open fragment, and `--oo== value` marks a fragment of one
    line. The whole sequence is the root fragment.

    Fragment objects point to their parent and their children; here they
    live in a `Tree`, a sequence indexed by creation order with the root
    at index 0, and refer to each other by index. */
module Fragments {
  import opened Wrappers
  import opened Text

  /** A fragment: the positions of its first and last element (the last
      is unknown while the fragment is open), its value, its parent and
      its children in creation order. */
  datatype Fragment = Fragment(start: int, end: Option<int>, value: Option<string>, parent: Option<nat>, children: seq<nat>)

  type Tree = seq<Fragment>

  /** The root has no parent, every other fragment has an older parent,
      and parents and children point to each other. */
  predicate WellFormed(t: Tree) {
    |t| > 0 && t[0].parent.None? &&
    (forall i {:trigger t[i].parent} :: 0 < i < |t| ==>
       t[i].parent.Some? && t[i].parent.value < i && i in t[t[i].parent.value].children) &&
    (forall i, j :: 0 <= i < |t| && 0 <= j < |t[i].children| ==>
       i < t[i].children[j] < |t| && t[t[i].children[j]].parent == Some(i))
  }

  // ---------------------------------------------------------------------
  // Marker recognition (`RegexpFragmenter`, searched anywhere in a line)
  // ---------------------------------------------------------------------

  const OpeningMarker := "--oo<<"
  const ClosingMarker := "--oo>>"
  const HereMarker := "--oo=="

  /** `[^ \n]` */
  predicate IsValueChar(c: char) { c != ' ' && c != '\n' }

  /** ` *$`: spaces up to the end of the line, or up to a line break that
      ends it. */
  predicate AtLineEnd(r: string) {
    var b := SpaceSpan(r);
    r[b..] == "" || r[b..] == "\n"
  }

  /** The value captured when `marker *(?P<value>[^ \n]+) *$` matches at
      index `p`. */
  function ValueAt(s: string, marker: string, p: nat): (r: Option<string>)
    ensures r.Some? ==> OccursAt(s, marker, p) && |r.value| > 0 && AllChars(r.value, IsValueChar)
  {
    if !OccursAt(s, marker, p) then None
    else
      var rest := s[p + |marker|..];
      var a := SpaceSpan(rest);
      var v := Span(rest[a..], IsValueChar);
      if v > 0 && AtLineEnd(rest[a + v..]) then Some(rest[a..a + v]) else None
  }

  /** `re.search` of such a pattern from index `from`: the value of the
      leftmost match. */
  function SearchValue(s: string, marker: string, from: nat): (r: Option<string>)
    ensures r.Some? ==> exists p :: from <= p <= |s| && ValueAt(s, marker, p) == r
    ensures r.None? ==> forall p :: from <= p <= |s| ==> ValueAt(s, marker, p).None?
    decreases |s| - from
  {
    if from > |s| then None
    else
      match ValueAt(s, marker, from)
      case Some(v) => Some(v)
      case None => SearchValue(s, marker, from + 1)
  }

  /** Whether `--oo>> *$` matches at index `p`. */
  predicate ClosesAt(s: string, p: nat) {
    OccursAt(s, ClosingMarker, p) && AtLineEnd(s[p + |ClosingMarker|..])
  }

  /** `re.search` of the closing pattern from index `from`. */
  function SearchClosing(s: string, from: nat): (r: bool)
    ensures r <==> exists p :: from <= p <= |s| && ClosesAt(s, p)
    decreases |s| - from
  {
    if from > |s| then false
    else ClosesAt(s, from) || SearchClosing(s, from + 1)
  }

  /** `opening`: the value of an opening marker in the line, if any. */
  function Opening(line: string): Option<string> {
    SearchValue(line, OpeningMarker, 0)
  }

  /** `closing` */
  predicate Closing(line: string) {
    SearchClosing(line, 0)
  }

  /** `here`: the value of a here marker in the line, if any. */
  function Here(line: string): Option<string> {
    SearchValue(line, HereMarker, 0)
  }

  /** No match starts before the first `-` of the line. */
  lemma {:induction false} SearchSkipsPrefix(s: string, marker: string, from: nat, to: nat)
    requires from <= to <= |s|
    requires |marker| > 0 && marker[0] == '-'
    requires forall p :: from <= p < to ==> s[p] != '-'
    ensures SearchValue(s, marker, from) == SearchValue(s, marker, to)
    decreases |s| - from
  {
    if from < to {
      assert !OccursAt(s, marker, from) by {
        assert s[from] != marker[0];
      }
      SearchSkipsPrefix(s, marker, from + 1, to);
    }
  }

  /** After the marker, spaces and then a value up to the end of the
      line: the value is captured. */
  lemma ValueAfterMarker(s: string, marker: string, p: nat, spaces: string, v: string)
    requires OccursAt(s, marker, p) && s[p + |marker|..] == spaces + v
    requires forall i :: 0 <= i < |spaces| ==> spaces[i] == ' '
    requires |v| > 0 && AllChars(v, IsValueChar)
    ensures ValueAt(s, marker, p) == Some(v)
  {
    var rest := s[p + |marker|..];
    assert SpaceSpan(rest) == |spaces| by {
      assert rest[|spaces|] == v[0];
    }
    assert rest[|spaces|..] == v;
    assert Span(v, IsValueChar) == |v|;
    assert rest[|spaces| + |v|..] == "";
    assert SpaceSpan("") == 0;
    assert rest[|spaces|..|spaces| + |v|] == v;
  }

  /** The search for a marker starting with `-` skips text without `-`. */
  lemma SkipPrefix(prefix: string, tail: string, marker: string)
    requires |marker| > 0 && marker[0] == '-' && '-' !in prefix
    ensures SearchValue(prefix + tail, marker, 0) == SearchValue(prefix + tail, marker, |prefix|)
  {
    var s := prefix + tail;
    forall i | 0 <= i < |prefix| ensures s[i] != '-' {
      assert s[i] == prefix[i];
    }
    SearchSkipsPrefix(s, marker, 0, |prefix|);
  }

  /** A line made of text without `-`, a marker, spaces and a value
      yields that value: the marker lines are recognised. */
  lemma MarkerValue(prefix: string, marker: string, spaces: string, v: string)
    requires marker == OpeningMarker || marker == HereMarker
    requires '-' !in prefix
    requires forall i :: 0 <= i < |spaces| ==> spaces[i] == ' '
    requires |v| > 0 && AllChars(v, IsValueChar)
    ensures SearchValue(prefix + (marker + (spaces + v)), marker, 0) == Some(v)
  {
    var s := prefix + (marker + (spaces + v));
    SkipPrefix(prefix, marker + (spaces + v), marker);
    MarkerAfterPrefix(prefix, marker, spaces + v);
    ValueAfterMarker(s, marker, |prefix|, spaces, v);
  }

  /** The marker follows the prefix, and the rest follows the marker. */
  lemma MarkerAfterPrefix(prefix: string, marker: string, rest: string)
    ensures OccursAt(prefix + (marker + rest), marker, |prefix|)
    ensures (prefix + (marker + rest))[|prefix| + |marker|..] == rest
  {
    var s := prefix + (marker + rest);
    var p := |prefix|;
    assert s[p..] == marker + rest;
    assert s[p..p + |marker|] == s[p..][..|marker|] == marker;
    assert s[p + |marker|..] == s[p..][|marker|..] == rest;
  }

  /** A line ending with `--oo>>` and spaces is a closing line. */
  lemma ClosingLine(prefix: string, spaces: string)
    requires forall i :: 0 <= i < |spaces| ==> spaces[i] == ' '
    ensures Closing(prefix + ClosingMarker + spaces)
  {
    var s := prefix + ClosingMarker + spaces;
    var p := |prefix|;
    assert s[p..p + |ClosingMarker|] == ClosingMarker;
    assert s[p + |ClosingMarker|..] == spaces;
    assert ClosesAt(s, p);
  }

  /** What the three recognisers find in one line. */
  datatype Marks = Marks(opening: Option<string>, closing: bool, here: Option<string>)

  function MarksOf(line: string): Marks {
    Marks(Opening(line), Closing(line), Here(line))
  }

  function MarksOfLines(lines: seq<string>): (r: seq<Marks>)
    ensures |r| == |lines| && forall i :: 0 <= i < |lines| ==> r[i] == MarksOf(lines[i])
  {
    seq(|lines|, i requires 0 <= i < |lines| => MarksOf(lines[i]))
  }

  // ---------------------------------------------------------------------
  // Fragmentation (`Fragmenter.__doFragment`)
  // ---------------------------------------------------------------------

  /** The fragments built so far and the stack of enclosing fragments,
      innermost last. */
  datatype Fragmentation = Fragmentation(fragments: Tree, enclosing: seq<nat>)

  /** The stack holds fragments of the tree. */
  predicate StackIn(f: Fragmentation) {
    forall i :: 0 <= i < |f.enclosing| ==> f.enclosing[i] < |f.fragments|
  }

  /** The tree is well formed, and the stack holds fragments of the tree
      from the root inwards, oldest first. */
  predicate Inv(f: Fragmentation) {
    WellFormed(f.fragments) && StackIn(f) &&
    (forall i, j :: 0 <= i < j < |f.enclosing| ==> f.enclosing[i] < f.enclosing[j]) &&
    (f.enclosing != [] ==> f.enclosing[0] == 0)
  }

  /** The root keeps its start and its value. */
  predicate SameRoot(a: Tree, b: Tree) {
    |a| > 0 && |b| > 0 && a[0].start == b[0].start && a[0].value == b[0].value
  }

  /** Pushing a fragment younger than all others keeps the stack in
      order. */
  lemma PushKeepsInv(f: Fragmentation, t: Tree)
    requires Inv(f) && f.enclosing != [] && WellFormed(t) && |t| == |f.fragments| + 1
    ensures Inv(Fragmentation(t, f.enclosing + [|f.fragments|]))
  {
  }

  /** `Fragment(start, end, value, parent, children=[])` appended to the
      tree: its constructor adds it to its parent's children. */
  function AddFragment(t: Tree, parent: nat, start: int, end: Option<int>, value: string): Tree
    requires parent < |t|
  {
    t[parent := t[parent].(children := t[parent].children + [|t|])] + [Fragment(start, end, Some(value), Some(parent), [])]
  }

  /** A new fragment becomes the last child of its parent, and only the
      parent changes among the existing fragments; the tree stays well
      formed. */
  lemma AddFragmentWellFormed(t: Tree, parent: nat, start: int, end: Option<int>, value: string)
    requires WellFormed(t) && parent < |t|
    ensures var r := AddFragment(t, parent, start, end, value);
      WellFormed(r) && |r| == |t| + 1 &&
      r[|t|] == Fragment(start, end, Some(value), Some(parent), []) &&
      r[parent].children == t[parent].children + [|t|] &&
      (forall i :: 0 <= i < |t| && i != parent ==> r[i] == t[i]) &&
      (forall i :: 0 <= i < |t| ==> r[i].start == t[i].start && r[i].end == t[i].end && r[i].parent == t[i].parent)
  {
    var r := AddFragment(t, parent, start, end, value);
    assert forall i :: 0 <= i < |t| && i != parent ==> r[i] == t[i];
    AppendChildWellFormed(t, r, parent);
  }

  /** A tree with the same parent and children links as a well-formed
      tree is well formed. */
  lemma SameLinksWellFormed(t: Tree, r: Tree)
    requires WellFormed(t) && |r| == |t|
    requires forall i :: 0 <= i < |t| ==> r[i].parent == t[i].parent && r[i].children == t[i].children
    ensures WellFormed(r)
  {
  }

  /** Adding a last fragment as the last child of `parent`, with no other
      link changed, keeps a tree well formed. */
  lemma AppendChildWellFormed(t: Tree, r: Tree, parent: nat)
    requires WellFormed(t) && parent < |t| && |r| == |t| + 1
    requires r[|t|].parent == Some(parent) && r[|t|].children == []
    requires r[parent].children == t[parent].children + [|t|] && r[parent].parent == t[parent].parent
    requires forall i :: 0 <= i < |t| && i != parent ==> r[i].parent == t[i].parent && r[i].children == t[i].children
    ensures WellFormed(r)
  {
    forall i | 0 < i < |r|
      ensures r[i].parent.Some? && r[i].parent.value < i && i in r[r[i].parent.value].children
    {
      AppendChildParent(t, r, parent, i);
    }
    forall i, j | 0 <= i < |r| && 0 <= j < |r[i].children|
      ensures i < r[i].children[j] < |r| && r[r[i].children[j]].parent == Some(i)
    {
      if i == parent && j == |t[parent].children| {
        assert r[i].children[j] == |t|;
      } else {
        assert r[i].children[j] == t[i].children[j];
      }
    }
  }

  /** After the addition every fragment but the root is still among its
      parent's children. */
  lemma AppendChildParent(t: Tree, r: Tree, parent: nat, i: nat)
    requires WellFormed(t) && parent < |t| && |r| == |t| + 1
    requires r[|t|].parent == Some(parent)
    requires r[parent].children == t[parent].children + [|t|] && r[parent].parent == t[parent].parent
    requires forall i :: 0 <= i < |t| && i != parent ==> r[i].parent == t[i].parent && r[i].children == t[i].children
    requires 0 < i < |r|
    ensures r[i].parent.Some? && r[i].parent.value < i && i in r[r[i].parent.value].children
  {
    if i < |t| {
      var p := t[i].parent.value;
      assert i in t[p].children;
      assert r[p].children == t[p].children || r[p].children == t[p].children + [|t|];
    } else {
      assert r[parent].children[|t[parent].children|] == i;
    }
  }



  /** The opening marker of a line pushes a new child of the innermost
      open fragment; without an enclosing fragment,
      `enclosing_fragments[-1]` raises. */
  function OpenStep(st: Fragmentation, m: Marks, position: int): (r: Result<Fragmentation>)
    requires StackIn(st)
    ensures r.Ok? ==> StackIn(r.value)
  {
    match m.opening
    case None => Ok(st)
    case Some(v) =>
      if st.enclosing == [] then Err(IndexError)
      else
        var innermost := st.enclosing[|st.enclosing| - 1];
        Ok(Fragmentation(AddFragment(st.fragments, innermost, position, None, v), st.enclosing + [|st.fragments|]))
  }

  /** A closing marker ends the innermost open fragment at this position
      and pops it; without an enclosing fragment it raises. */
  function CloseStep(st: Fragmentation, m: Marks, position: int): (r: Result<Fragmentation>)
    requires StackIn(st)
    ensures r.Ok? ==> StackIn(r.value)
  {
    if !m.closing then Ok(st)
    else if st.enclosing == [] then Err(IndexError)
    else
      var innermost := st.enclosing[|st.enclosing| - 1];
      Ok(Fragmentation(st.fragments[innermost := st.fragments[innermost].(end := Some(position))],
                       st.enclosing[..|st.enclosing| - 1]))
  }

  /** A here marker adds a fragment of this one position to the innermost
      open fragment; without one it raises. */
  function HereStep(st: Fragmentation, m: Marks, position: int): (r: Result<Fragmentation>)
    requires StackIn(st)
    ensures r.Ok? ==> StackIn(r.value)
  {
    match m.here
    case None => Ok(st)
    case Some(v) =>
      if st.enclosing == [] then Err(IndexError)
      else
        var innermost := st.enclosing[|st.enclosing| - 1];
        Ok(Fragmentation(AddFragment(st.fragments, innermost, position, Some(position), v), st.enclosing))
  }

  /** The three sub-steps in the order the fragmenter applies them. */
  datatype Phase = OpenPhase | ClosePhase | HerePhase

  /** One sub-step. */
  function PhaseStep(phase: Phase, st: Fragmentation, m: Marks, position: int): (r: Result<Fragmentation>)
    requires StackIn(st)
    ensures r.Ok? ==> StackIn(r.value)
  {
    match phase
    case OpenPhase => OpenStep(st, m, position)
    case ClosePhase => CloseStep(st, m, position)
    case HerePhase => HereStep(st, m, position)
  }

  /** The sub-steps from `phases` on, each acting on what the previous
      one left; the first exception ends the element. */
  function Phases(phases: seq<Phase>, st: Fragmentation, m: Marks, position: int): (r: Result<Fragmentation>)
    requires StackIn(st)
    ensures r.Ok? ==> StackIn(r.value)
  {
    if phases == [] then Ok(st)
    else
      var next :- PhaseStep(phases[0], st, m, position);
      Phases(phases[1..], next, m, position)
  }

  /** One element of the sequence: opening, then closing, then here. */
  function Step(st: Fragmentation, m: Marks, position: int): (r: Result<Fragmentation>)
    requires StackIn(st)
    ensures r.Ok? ==> StackIn(r.value)
  {
    Phases([OpenPhase, ClosePhase, HerePhase], st, m, position)
  }

  /** An opening marker pushes a new child of the innermost open
      fragment, starting at this position and still open, and raises
      `IndexError` exactly when no fragment is open. */
  lemma OpenStepEffect(st: Fragmentation, m: Marks, position: int)
    requires Inv(st)
    ensures var r := OpenStep(st, m, position);
      (m.opening.None? ==> r == Ok(st)) &&
      (m.opening.Some? ==> (r.Err? <==> st.enclosing == [])) &&
      (r.Err? ==> r.error == IndexError) &&
      (r.Ok? ==> Inv(r.value) && SameRoot(r.value.fragments, st.fragments) &&
                 r.value.fragments[0].end == st.fragments[0].end) &&
      (r.Ok? && m.opening.Some? ==>
        var n := |st.fragments|;
        var innermost := st.enclosing[|st.enclosing| - 1];
        |r.value.fragments| == n + 1 && r.value.enclosing == st.enclosing + [n] &&
        r.value.fragments[n] == Fragment(position, None, m.opening, Some(innermost), []) &&
        r.value.fragments[innermost].children == st.fragments[innermost].children + [n])
  {
    if m.opening.Some? && st.enclosing != [] {
      var innermost := st.enclosing[|st.enclosing| - 1];
      AddFragmentWellFormed(st.fragments, innermost, position, None, m.opening.value);
      PushKeepsInv(st, AddFragment(st.fragments, innermost, position, None, m.opening.value));
    }
  }

  /** A closing marker sets the end of the innermost open fragment to
      this position, changes nothing else in the tree, and pops it; it
      raises `IndexError` exactly when no fragment is open. */
  lemma CloseStepEffect(st: Fragmentation, m: Marks, position: int)
    requires Inv(st)
    ensures var r := CloseStep(st, m, position);
      (!m.closing ==> r == Ok(st)) &&
      (m.closing ==> (r.Err? <==> st.enclosing == [])) &&
      (r.Err? ==> r.error == IndexError) &&
      (r.Ok? ==> Inv(r.value) && SameRoot(r.value.fragments, st.fragments) &&
                 (r.value.enclosing != [] ==> r.value.fragments[0].end == st.fragments[0].end)) &&
      (r.Ok? && m.closing ==>
        var innermost := st.enclosing[|st.enclosing| - 1];
        r.value.enclosing == st.enclosing[..|st.enclosing| - 1] &&
        |r.value.fragments| == |st.fragments| &&
        r.value.fragments[innermost] == st.fragments[innermost].(end := Some(position)) &&
        forall i :: 0 <= i < |st.fragments| && i != innermost ==> r.value.fragments[i] == st.fragments[i])
  {
    if m.closing && st.enclosing != [] {
      var t := CloseStep(st, m, position).value.fragments;
      assert forall i :: 0 <= i < |t| ==> t[i].parent == st.fragments[i].parent && t[i].children == st.fragments[i].children;
      SameLinksWellFormed(st.fragments, t);
    }
  }

  /** A here marker adds a child of the innermost open fragment that
      starts and ends at this position, leaving the stack as it is; it
      raises `IndexError` exactly when no fragment is open. */
  lemma HereStepEffect(st: Fragmentation, m: Marks, position: int)
    requires Inv(st)
    ensures var r := HereStep(st, m, position);
      (m.here.None? ==> r == Ok(st)) &&
      (m.here.Some? ==> (r.Err? <==> st.enclosing == [])) &&
      (r.Err? ==> r.error == IndexError) &&
      (r.Ok? ==> Inv(r.value) && SameRoot(r.value.fragments, st.fragments) &&
                 r.value.fragments[0].end == st.fragments[0].end) &&
      (r.Ok? && m.here.Some? ==>
        var n := |st.fragments|;
        var innermost := st.enclosing[|st.enclosing| - 1];
        |r.value.fragments| == n + 1 && r.value.enclosing == st.enclosing &&
        r.value.fragments[n] == Fragment(position, Some(position), m.here, Some(innermost), []) &&
        r.value.fragments[innermost].children == st.fragments[innermost].children + [n])
  {
    if m.here.Some? && st.enclosing != [] {
      var innermost := st.enclosing[|st.enclosing| - 1];
      AddFragmentWellFormed(st.fragments, innermost, position, Some(position), m.here.value);
    }
  }

  /** A step keeps the tree well formed and the stack in order, and
      keeps the root's start and value, and its end while it is open. */
  lemma StepKeepsInv(st: Fragmentation, m: Marks, position: int)
    requires Inv(st) && Step(st, m, position).Ok?
    ensures var r := Step(st, m, position).value;
      Inv(r) && SameRoot(r.fragments, st.fragments) &&
      (r.enclosing != [] ==> st.enclosing != [] && r.fragments[0].end == st.fragments[0].end)
  {
    var phases := [OpenPhase, ClosePhase, HerePhase];
    assert phases[1..] == [ClosePhase, HerePhase] && phases[1..][1..] == [HerePhase] && phases[1..][1..][1..] == [];
    OpenStepEffect(st, m, position);
    var a := OpenStep(st, m, position).value;
    assert Step(st, m, position) == Phases([ClosePhase, HerePhase], a, m, position);
    CloseStepEffect(a, m, position);
    var b := CloseStep(a, m, position).value;
    assert Step(st, m, position) == Phases([HerePhase], b, m, position);
    HereStepEffect(b, m, position);
    var c := HereStep(b, m, position).value;
    assert [HerePhase][1..] == [];
    assert Phases([], c, m, position) == Ok(c);
    assert Step(st, m, position) == Ok(c);
  }

  /** The root fragment alone, spanning the whole sequence, and the stack
      holding it. */
  function Initial(lines: seq<string>, mainValue: Option<string>, firstPosition: int): (r: Fragmentation)
    ensures Inv(r)
  {
    Fragmentation([Fragment(firstPosition, Some(|lines| - 1 + firstPosition), mainValue, None, [])], [0])
  }

  /** The steps over the first `n` lines, given by what their markers
      are, the first line at `firstPosition`; an exception ends the
      fragmentation. */
  function Run(start: Fragmentation, marks: seq<Marks>, firstPosition: int, n: nat): (r: Result<Fragmentation>)
    requires StackIn(start) && n <= |marks|
    ensures r.Ok? ==> StackIn(r.value)
  {
    if n == 0 then Ok(start)
    else
      var st :- Run(start, marks, firstPosition, n - 1);
      Step(st, marks[n - 1], firstPosition + n - 1)
  }

  /** Every run keeps the tree well formed and the stack in order, and
      keeps the root's start and value, and its end while it is open. */
  lemma {:induction false} RunKeepsInv(start: Fragmentation, marks: seq<Marks>, firstPosition: int, n: nat)
    requires Inv(start) && n <= |marks| && Run(start, marks, firstPosition, n).Ok?
    ensures var r := Run(start, marks, firstPosition, n).value;
      Inv(r) && SameRoot(r.fragments, start.fragments) &&
      (r.enclosing != [] ==> r.fragments[0].end == start.fragments[0].end)
  {
    if n > 0 {
      RunKeepsInv(start, marks, firstPosition, n - 1);
      var st := Run(start, marks, firstPosition, n - 1).value;
      RunNext(start, marks, firstPosition, n - 1, st);
      assert Run(start, marks, firstPosition, n) == Step(st, marks[n - 1], firstPosition + n - 1);
      StepKeepsInv(st, marks[n - 1], firstPosition + n - 1);
    }
  }

  /** The run over `n + 1` lines is one more step after the run over `n`. */
  lemma RunNext(start: Fragmentation, marks: seq<Marks>, firstPosition: int, n: nat, st: Fragmentation)
    requires StackIn(start) && n < |marks| && Run(start, marks, firstPosition, n) == Ok(st)
    ensures Run(start, marks, firstPosition, n + 1) == Step(st, marks[n], firstPosition + n)
  {
  }

  lemma {:induction false} RunFailsAfter(start: Fragmentation, marks: seq<Marks>, firstPosition: int, k: nat, n: nat)
    requires StackIn(start) && k <= n <= |marks| && Run(start, marks, firstPosition, k).Err?
    ensures Run(start, marks, firstPosition, n) == Run(start, marks, firstPosition, k)
    decreases n - k
  {
    if k < n {
      RunFailsAfter(start, marks, firstPosition, k, n - 1);
    }
  }

  /** `RegexpFragmenter(lines, mainValue, firstPosition).fragment`. */
  function Fragmentize(lines: seq<string>, mainValue: Option<string>, firstPosition: int): (r: Result<Fragmentation>)
  {
    Run(Initial(lines, mainValue, firstPosition), MarksOfLines(lines), firstPosition, |lines|)
  }

  /** The loop of `__doFragment` once the markers of each line are known:
      the steps one element after the other, stopping at the first
      exception. */
  method RunLoop(start: Fragmentation, marks: seq<Marks>, firstPosition: int) returns (r: Result<Fragmentation>)
    requires StackIn(start)
    ensures r == Run(start, marks, firstPosition, |marks|)
  {
    var st := start;
    var i := 0;
    while i < |marks|
      invariant 0 <= i <= |marks|
      invariant Run(start, marks, firstPosition, i) == Ok(st)
      invariant StackIn(st)
    {
      RunNext(start, marks, firstPosition, i, st);
      var next := Step(st, marks[i], firstPosition + i);
      if next.Err? {
        RunFailsAfter(start, marks, firstPosition, i + 1, |marks|);
        return next;
      }
      st := next.value;
      i := i + 1;
    }
    return Ok(st);
  }

  /** The fragment tree as `__doFragment` builds it: the markers of every
      line are recognised, then the loop runs over them. The result is a
      well-formed tree whose root starts at `firstPosition`. */
  method DoFragment(lines: seq<string>, mainValue: Option<string>, firstPosition: int) returns (r: Result<Tree>)
    ensures var run := Fragmentize(lines, mainValue, firstPosition);
      (r.Ok? <==> run.Ok?) && (r.Ok? ==> r.value == run.value.fragments) && (r.Err? ==> r.error == run.error)
    ensures r.Ok? ==> WellFormed(r.value) && r.value[0].start == firstPosition
  {
    var start := Initial(lines, mainValue, firstPosition);
    var marks := MarksOfLines(lines);
    var run := RunLoop(start, marks, firstPosition);
    if run.Err? {
      return Err(run.error);
    }
    RunKeepsInv(start, marks, firstPosition, |lines|);
    return Ok(run.value.fragments);
  }

  /** Unless a closing marker popped the root, the root spans the whole
      sequence, from `firstPosition` to `len(lines) - 1 + firstPosition`. */
  lemma RootSpan(lines: seq<string>, mainValue: Option<string>, firstPosition: int)
    requires Fragmentize(lines, mainValue, firstPosition).Ok?
    ensures var st := Fragmentize(lines, mainValue, firstPosition).value;
      |st.fragments| > 0 && st.fragments[0].start == firstPosition && st.fragments[0].value == mainValue &&
      (st.enclosing != [] ==> st.fragments[0].end == Some(|lines| - 1 + firstPosition))
  {
    RunKeepsInv(Initial(lines, mainValue, firstPosition), MarksOfLines(lines), firstPosition, |lines|);
  }
}
