/** Assertions written as comments of a snapshot file
    (`pyalaocl/useocl/assertion.py`): a line such as
    `-- @assert Person::Adult OK` states the result the USE engine is
    expected to give for an invariant on that snapshot. The file's text is
    given: reading it is left to the caller. */
module Assertions {
  import opened Wrappers
  import opened Text
  import opened CanonicalLines
  import opened UseModel

  /** One marker of the text: the class name (empty when the marker names
      none), the invariant name, and the result expected (`OK` is true,
      `KO` and `Failed` are false). */
  datatype AssertionString = AssertionString(className: string, invariantName: string, expected: bool)

  /** A marker and the text after it. */
  datatype Matched = Matched(assertion: AssertionString, rest: string)

  // The marker pattern
  //   --\ *@\s*(?:assert|validate)\s+(?:(\w+)[:_][:_])?(\w+)\s+(OK|KO|Failed)
  // with case ignored, one piece at a time. Each piece takes the text where
  // it starts and gives back what follows its match.

  /** `s` starts with `w` when case is ignored (`w` is in lower case). */
  predicate StartsWithNoCase(s: string, w: string) {
    |w| <= |s| && Lower(s[..|w|]) == w
  }

  /** `(OK|KO|Failed)`: the result the word stands for. */
  function Outcome(s: string): (r: Option<(bool, string)>)
    ensures r.Some? ==> |r.value.1| < |s|
  {
    if StartsWithNoCase(s, "ok") then Some((true, s[2..]))
    else if StartsWithNoCase(s, "ko") then Some((false, s[2..]))
    else if StartsWithNoCase(s, "failed") then Some((false, s[6..]))
    else None
  }

  /** `\s+` */
  function Blanks(s: string): (r: Option<string>)
    ensures r.Some? ==> |r.value| < |s|
  {
    var (b, rest) := TakeWhile(s, IsSpace);
    if b == [] then None else Some(rest)
  }

  /** `(\w+)\s+(OK|KO|Failed)`: the invariant name and the result. A
      shorter `\w+` is never followed by a blank, so the longest run is
      the only candidate. */
  function InvariantTail(s: string): (r: Option<(string, bool, string)>)
    ensures r.Some? ==> IsWord(r.value.0) && |r.value.2| < |s|
  {
    var (name, t) := TakeWord(s);
    if name == [] then None
    else match Blanks(t)
      case None => None
      case Some(u) =>
        match Outcome(u)
        case None => None
        case Some((expected, rest)) => Some((name, expected, rest))
  }

  /** `[:_]` */
  predicate IsSeparator(c: char) { c == ':' || c == '_' }

  /** `(\w+)[:_][:_]` with the class name `s[..k]`, then the rest of the
      pattern. */
  function QualifiedAt(s: string, k: nat): (r: Option<Matched>)
    requires k <= WordSpan(s)
    ensures r.Some? ==> IsWord(r.value.assertion.className) && IsWord(r.value.assertion.invariantName)
    ensures r.Some? ==> |r.value.rest| < |s|
  {
    if 0 < k && k + 2 <= |s| && IsSeparator(s[k]) && IsSeparator(s[k + 1]) then
      match InvariantTail(s[k + 2..])
      case None => None
      case Some((name, expected, rest)) =>
        assert IsWord(s[..k]) by { assert forall i :: 0 <= i < k ==> s[..k][i] == s[i]; }
        Some(Matched(AssertionString(s[..k], name, expected), rest))
    else None
  }

  /** The optional group is tried first, and its `\w+` backtracks from the
      longest class name `s[..k]` down to one character. */
  function Qualified(s: string, k: nat): (r: Option<Matched>)
    requires k <= WordSpan(s)
    ensures r.Some? ==> IsWord(r.value.assertion.className) && IsWord(r.value.assertion.invariantName)
    ensures r.Some? ==> |r.value.rest| < |s|
  {
    if k == 0 then None
    else match QualifiedAt(s, k)
      case Some(m) => Some(m)
      case None => Qualified(s, k - 1)
  }

  /** `(?:(\w+)[:_][:_])?(\w+)\s+(OK|KO|Failed)`: with a class name when
      one fits, else without (the class group is then empty). */
  function Body(s: string): (r: Option<Matched>)
    ensures r.Some? ==> (r.value.assertion.className == [] || IsWord(r.value.assertion.className))
    ensures r.Some? ==> IsWord(r.value.assertion.invariantName) && |r.value.rest| < |s|
  {
    match Qualified(s, WordSpan(s))
    case Some(m) => Some(m)
    case None =>
      match InvariantTail(s)
      case None => None
      case Some((name, expected, rest)) => Some(Matched(AssertionString("", name, expected), rest))
  }

  predicate IsBlank(c: char) { c == ' ' }

  /** `\s*(?:assert|validate)\s+`: what follows it. */
  function Keyword(u: string): (r: Option<string>)
    ensures r.Some? ==> |r.value| < |u|
  {
    var (_, v) := TakeWhile(u, IsSpace);
    if StartsWithNoCase(v, "assert") then Blanks(v[6..])
    else if StartsWithNoCase(v, "validate") then Blanks(v[8..])
    else None
  }

  /** `--\ *@\s*(?:assert|validate)\s+`: what follows it. */
  function MarkerHead(s: string): (r: Option<string>)
    ensures r.Some? ==> |r.value| < |s| && '@' in s
  {
    if !StartsWith(s, "--") then None
    else
      var (_, t) := TakeWhile(s[2..], IsBlank);
      if t == [] || t[0] != '@' then None
      else
        assert t == s[|s| - |t|..];
        assert s[|s| - |t|] == '@';
        Keyword(t[1..])
  }

  /** A match of the whole pattern at the start of `s`. */
  function MatchAt(s: string): (r: Option<Matched>)
    ensures r.Some? ==> |r.value.rest| < |s| && '@' in s
    ensures r.Some? ==> (r.value.assertion.className == [] || IsWord(r.value.assertion.className))
    ensures r.Some? ==> IsWord(r.value.assertion.invariantName)
  {
    match MarkerHead(s)
    case None => None
    case Some(t) =>
      match Body(t)
      case None => None
      case Some(m) => Some(m)
  }

  /** `_extractAssertionStringsFromFile` on the file's text: `re.findall`
      scans from left to right, and after a match goes on after it. */
  function ExtractAssertionStrings(text: string): (r: seq<AssertionString>)
    decreases |text|
  {
    if text == [] then []
    else match MatchAt(text)
      case Some(m) => [m.assertion] + ExtractAssertionStrings(m.rest)
      case None => ExtractAssertionStrings(text[1..])
  }

  // Properties of the marker recogniser.

  /** Every marker found names its invariant with a word, and its class
      with a word or not at all. */
  lemma {:induction false} ExtractedNamesAreWords(text: string)
    ensures forall a :: a in ExtractAssertionStrings(text) ==>
      IsWord(a.invariantName) && (a.className == [] || IsWord(a.className))
    decreases |text|
  {
    if text != [] {
      match MatchAt(text)
      case Some(m) => ExtractedNamesAreWords(m.rest);
      case None => ExtractedNamesAreWords(text[1..]);
    }
  }

  /** A text without `@` holds no marker. */
  lemma {:induction false} NoAtSignNoAssertion(text: string)
    requires '@' !in text
    ensures ExtractAssertionStrings(text) == []
    decreases |text|
  {
    if text != [] {
      assert MatchAt(text).None?;
      assert forall i :: 0 <= i < |text| - 1 ==> text[1..][i] == text[i + 1];
      NoAtSignNoAssertion(text[1..]);
    }
  }

  /** How a marker is written: `-- @assert [Class::]Invariant OK|Failed`. */
  function Render(a: AssertionString): string {
    "-- @assert " + (if a.className == [] then "" else a.className + "::") +
      (a.invariantName + (" " + OutcomeWord(a.expected)))
  }

  function OutcomeWord(expected: bool): string {
    if expected then "OK" else "Failed"
  }

  /** One marker per line. */
  function RenderAll(assertions: seq<AssertionString>): string {
    if assertions == [] then ""
    else Render(assertions[0]) + ("\n" + RenderAll(assertions[1..]))
  }

  /** Some `__` inside the name has a word after it: the pattern would read
      the name as `<class>__<invariant>`. */
  predicate SplitsAtDoubleUnderscore(name: string) {
    exists k :: 1 <= k && k + 2 < |name| && name[k] == '_' && name[k + 1] == '_'
  }

  /** The markers `Render` writes and the pattern reads back the same. */
  predicate Renderable(a: AssertionString) {
    IsWord(a.invariantName) &&
    (a.className == [] ==> !SplitsAtDoubleUnderscore(a.invariantName)) &&
    (a.className != [] ==> IsWord(a.className))
  }

  lemma OutcomeOf(expected: bool, rest: string)
    ensures Outcome(OutcomeWord(expected) + rest) == Some((expected, rest))
  {
    var s := OutcomeWord(expected) + rest;
    if expected {
      assert s[..2] == "OK";
      assert Lower("OK") == "ok";
    } else {
      assert s[..2] == "Fa";
      assert Lower("Fa") == "fa";
      assert s[..6] == "Failed";
      assert Lower("Failed") == "failed";
    }
  }

  lemma BlankThen(x: string)
    requires x != [] && !IsSpace(x[0])
    ensures Blanks(" " + x) == Some(x)
  {
    TakeWhileUnique(" ", x, IsSpace);
  }

  lemma InvariantTailOf(name: string, expected: bool, rest: string)
    requires IsWord(name)
    ensures InvariantTail(name + (" " + (OutcomeWord(expected) + rest))) == Some((name, expected, rest))
  {
    var t := " " + (OutcomeWord(expected) + rest);
    TakeWhileUnique(name, t, IsWordChar);
    assert (OutcomeWord(expected) + rest)[0] == OutcomeWord(expected)[0];
    BlankThen(OutcomeWord(expected) + rest);
    OutcomeOf(expected, rest);
  }

  /** The word run of `w + t` is `w` when `t` does not go on with a word
      character. */
  lemma WordSpanOf(w: string, t: string)
    requires IsWord(w) && t != [] && !IsWordChar(t[0])
    ensures WordSpan(w + t) == |w|
  {
    SpanOfRun(w, t, IsWordChar);
  }

  /** When no class name longer than `lo` fits, the backtracking ends as it
      would from `lo`. */
  lemma {:induction false} QualifiedFrom(s: string, lo: nat, k: nat)
    requires lo <= k <= WordSpan(s)
    requires forall j :: lo < j <= k ==> QualifiedAt(s, j).None?
    ensures Qualified(s, k) == Qualified(s, lo)
    decreases k
  {
    if k > lo {
      QualifiedFrom(s, lo, k - 1);
    }
  }

  /** The text of an unqualified marker, from its invariant name on. */
  lemma UnqualifiedBody(name: string, expected: bool, rest: string)
    requires IsWord(name) && !SplitsAtDoubleUnderscore(name)
    ensures Body(name + (" " + (OutcomeWord(expected) + rest))) ==
      Some(Matched(AssertionString("", name, expected), rest))
  {
    var s := name + (" " + (OutcomeWord(expected) + rest));
    WordSpanOf(name, " " + (OutcomeWord(expected) + rest));
    assert s[|name|] == ' ';
    forall j | 0 < j <= |name|
      ensures QualifiedAt(s, j).None?
    {
      if j + 2 < |name| {
        assert s[j] == name[j] && s[j + 1] == name[j + 1];
        assert !(name[j] == '_' && name[j + 1] == '_');
        assert IsWordChar(name[j]) && IsWordChar(name[j + 1]);
      } else if j + 2 == |name| {
        assert s[j + 2..] == " " + (OutcomeWord(expected) + rest);
        TakeWhileUnique([], s[j + 2..], IsWordChar);
      } else if j + 1 == |name| {
        assert s[j + 1] == ' ';
      }
    }
    QualifiedFrom(s, 0, |name|);
    InvariantTailOf(name, expected, rest);
  }

  /** The text of a qualified marker, from its class name on. */
  lemma QualifiedBody(className: string, name: string, expected: bool, rest: string)
    requires IsWord(className) && IsWord(name)
    ensures Body(className + ("::" + (name + (" " + (OutcomeWord(expected) + rest))))) ==
      Some(Matched(AssertionString(className, name, expected), rest))
  {
    var t := name + (" " + (OutcomeWord(expected) + rest));
    var s := className + ("::" + t);
    WordSpanOf(className, "::" + t);
    assert s[|className|] == ':' && s[|className| + 1] == ':';
    assert s[|className| + 2..] == t;
    assert s[..|className|] == className;
    InvariantTailOf(name, expected, rest);
  }

  /** Text without capitals is its own lower case. */
  lemma LowerUnchanged(w: string)
    requires forall i :: 0 <= i < |w| ==> !('A' <= w[i] <= 'Z')
    ensures Lower(w) == w
  {
  }

  lemma KeywordOf(x: string)
    requires x != [] && IsWordChar(x[0])
    ensures Keyword("assert " + x) == Some(x)
  {
    var v := "assert " + x;
    TakeWhileUnique([], v, IsSpace);
    assert v[..6] == "assert";
    LowerUnchanged("assert");
    assert v[6..] == " " + x;
    BlankThen(x);
  }

  /** What follows `-- @assert `. */
  lemma MarkerHeadOf(x: string)
    requires x != [] && IsWordChar(x[0])
    ensures MarkerHead("-- @assert " + x) == Some(x)
  {
    var s := "-- @assert " + x;
    var t := "@assert " + x;
    assert s[..2] == "--";
    assert s[2..] == " " + t;
    TakeWhileUnique(" ", t, IsBlank);
    assert t[1..] == "assert " + x;
    KeywordOf(x);
  }

  /** A rendered marker is read back, and the scan goes on after it. */
  lemma MatchRendered(a: AssertionString, rest: string)
    requires Renderable(a)
    ensures MatchAt(Render(a) + rest) == Some(Matched(a, rest))
  {
    var tail := a.invariantName + (" " + (OutcomeWord(a.expected) + rest));
    if a.className == [] {
      assert Render(a) + rest == "-- @assert " + tail;
      assert tail[0] == a.invariantName[0];
      MarkerHeadOf(tail);
      UnqualifiedBody(a.invariantName, a.expected, rest);
    } else {
      var x := a.className + ("::" + tail);
      assert Render(a) + rest == "-- @assert " + x;
      assert x[0] == a.className[0];
      MarkerHeadOf(x);
      QualifiedBody(a.className, a.invariantName, a.expected, rest);
    }
  }

  /** The scan goes on after a match. */
  lemma ExtractAfterMatch(text: string, m: Matched)
    requires MatchAt(text) == Some(m)
    ensures ExtractAssertionStrings(text) == [m.assertion] + ExtractAssertionStrings(m.rest)
  {
  }

  /** A line break starts no marker. */
  lemma ExtractAfterLineBreak(more: string)
    ensures ExtractAssertionStrings("\n" + more) == ExtractAssertionStrings(more)
  {
    var s := "\n" + more;
    assert s[0] == '\n';
    assert !StartsWith(s, "--") by {
      if |s| >= 2 { assert s[..2][0] == '\n'; }
    }
    assert MatchAt(s).None?;
    assert s[1..] == more;
  }

  /** Markers written one per line are all found, in order: extraction
      inverts rendering. */
  lemma {:induction false} ExtractRenderAll(assertions: seq<AssertionString>)
    requires forall a :: a in assertions ==> Renderable(a)
    ensures ExtractAssertionStrings(RenderAll(assertions)) == assertions
    decreases |assertions|
  {
    if assertions != [] {
      var a := assertions[0];
      assert Renderable(a);
      ExtractRenderOne(a, RenderAll(assertions[1..]));
      ExtractRenderAll(assertions[1..]);
      assert assertions == [a] + assertions[1..];
    }
  }

  /** A rendered marker and its line break are read back as that marker. */
  lemma ExtractRenderOne(a: AssertionString, more: string)
    requires Renderable(a)
    ensures ExtractAssertionStrings(Render(a) + ("\n" + more)) == [a] + ExtractAssertionStrings(more)
  {
    MatchRendered(a, "\n" + more);
    ExtractAfterMatch(Render(a) + ("\n" + more), Matched(a, "\n" + more));
    ExtractAfterLineBreak(more);
  }

  /** In `<class>__<name> OK`, no class name longer than `<class>` is
      followed by two separators and an invariant name. */
  lemma NoLongerClassName(className: string, name: string, u: string)
    requires IsWord(className) && IsWord(name) && name[0] != '_' && !SplitsAtDoubleUnderscore(name)
    requires u != [] && u[0] == ' '
    requires WordSpan(className + ("__" + name) + u) == |className| + 2 + |name|
    ensures var s := className + ("__" + name) + u;
      forall j :: |className| < j <= |className| + 2 + |name| ==> QualifiedAt(s, j).None?
  {
    var w := className + ("__" + name);
    var s := w + u;
    var n := |w|;
    forall j | |className| < j <= n
      ensures QualifiedAt(s, j).None?
    {
      if j == |className| + 1 {
        assert s[j + 1] == name[0];
      } else if j + 2 < n {
        var i := j - |className| - 2;
        assert s[j] == name[i] && s[j + 1] == name[i + 1];
        assert !(name[i] == '_' && name[i + 1] == '_');
        assert IsWordChar(name[i]) && IsWordChar(name[i + 1]);
      } else if j + 2 == n {
        assert s[j + 2..] == u;
        TakeWhileUnique([], u, IsWordChar);
      } else if j + 1 == n {
        assert s[j + 1] == ' ';
      } else {
        assert s[j] == ' ';
      }
    }
  }

  lemma DoubleUnderscoreWord(className: string, name: string)
    requires IsWord(className) && IsWord(name)
    ensures IsWord(className + ("__" + name))
  {
    var w := className + ("__" + name);
    forall i | 0 <= i < |w| ensures IsWordChar(w[i]) {
      if i >= |className| + 2 { assert w[i] == name[i - |className| - 2]; }
    }
  }

  /** The class name `<class>` followed by `__` fits. */
  lemma DoubleUnderscoreAt(className: string, name: string, expected: bool, rest: string)
    requires IsWord(className) && IsWord(name)
    requires |className| <= WordSpan(className + ("__" + (name + (" " + (OutcomeWord(expected) + rest)))))
    ensures QualifiedAt(className + ("__" + (name + (" " + (OutcomeWord(expected) + rest)))), |className|) ==
      Some(Matched(AssertionString(className, name, expected), rest))
  {
    var t := name + (" " + (OutcomeWord(expected) + rest));
    var s := className + ("__" + t);
    assert s[|className|] == '_' && s[|className| + 1] == '_';
    assert s[|className| + 2..] == t;
    assert s[..|className|] == className;
    InvariantTailOf(name, expected, rest);
  }

  /** The text of a marker whose class name ends with `__`, from its class
      name on. */
  lemma DoubleUnderscoreBody(className: string, name: string, expected: bool, rest: string)
    requires IsWord(className) && IsWord(name) && name[0] != '_' && !SplitsAtDoubleUnderscore(name)
    ensures Body(className + ("__" + (name + (" " + (OutcomeWord(expected) + rest))))) ==
      Some(Matched(AssertionString(className, name, expected), rest))
  {
    var u := " " + (OutcomeWord(expected) + rest);
    var w := className + ("__" + name);
    var s := w + u;
    assert className + ("__" + (name + u)) == s;
    DoubleUnderscoreWord(className, name);
    WordSpanOf(w, u);
    NoLongerClassName(className, name, u);
    QualifiedFrom(s, |className|, |w|);
    DoubleUnderscoreAt(className, name, expected, rest);
  }

  /** `[:_][:_]` also accepts `__`: `-- @assert Class__invariant OK` names
      the class. */
  lemma DoubleUnderscoreQualifies(className: string, name: string, expected: bool, rest: string)
    requires IsWord(className) && IsWord(name) && name[0] != '_' && !SplitsAtDoubleUnderscore(name)
    ensures MatchAt("-- @assert " + (className + ("__" + (name + (" " + (OutcomeWord(expected) + rest)))))) ==
      Some(Matched(AssertionString(className, name, expected), rest))
  {
    var s := className + ("__" + (name + (" " + (OutcomeWord(expected) + rest))));
    DoubleUnderscoreBody(className, name, expected, rest);
    assert s[0] == className[0];
    MarkerHeadOf(s);
  }

  // Binding markers to the model.

  /** `InvariantAssertion`: the expected result for an invariant of the
      model, on a snapshot file. */
  datatype InvariantAssertion = InvariantAssertion(stateFile: string, invariantId: InvariantId, expectedResult: bool)

  /** The exception `_extractAssertionsFromFile` raises for a marker whose
      invariant the model does not have. */
  function NotFound(file: string, a: AssertionString): PyError {
    RaisedException("error with assertion in " + file + ": " + a.className + "::" + a.invariantName + " not found")
  }

  predicate Resolves(s: Store, m: Model, a: AssertionString) {
    FindInvariant(s, m, a.className, a.invariantName).Ok?
  }

  /** `_extractAssertionsFromFile` on the markers found: each is bound to
      the invariant `findInvariant` finds; the first that fails raises. */
  function ResolvedAssertions(s: Store, m: Model, file: string, triples: seq<AssertionString>): Result<seq<InvariantAssertion>> {
    if triples == [] then Ok([])
    else
      var t := triples[0];
      match FindInvariant(s, m, t.className, t.invariantName)
      case Err(_) => Err(NotFound(file, t))
      case Ok(inv) =>
        var rest :- ResolvedAssertions(s, m, file, triples[1..]);
        Ok([InvariantAssertion(file, inv, t.expected)] + rest)
  }

  /** The assertion a resolving marker becomes. */
  function Bound(s: Store, m: Model, file: string, t: AssertionString): InvariantAssertion
    requires Resolves(s, m, t)
  {
    InvariantAssertion(file, FindInvariant(s, m, t.className, t.invariantName).value, t.expected)
  }

  /** When every marker resolves, there is one assertion per marker, in
      order, on the file, with the marker's invariant and result. */
  lemma {:induction false} ResolvedAll(s: Store, m: Model, file: string, triples: seq<AssertionString>)
    requires forall i :: 0 <= i < |triples| ==> Resolves(s, m, triples[i])
    ensures ResolvedAssertions(s, m, file, triples).Ok?
    ensures var r := ResolvedAssertions(s, m, file, triples).value;
      |r| == |triples| && forall i :: 0 <= i < |triples| ==> r[i] == Bound(s, m, file, triples[i])
    decreases |triples|
  {
    if triples != [] {
      assert Resolves(s, m, triples[0]);
      ResolvedAll(s, m, file, triples[1..]);
      assert forall i :: 1 <= i < |triples| ==> triples[1..][i - 1] == triples[i];
    }
  }

  /** The first marker that does not resolve decides the exception. */
  lemma {:induction false} ResolvedFirstFailure(s: Store, m: Model, file: string, triples: seq<AssertionString>, j: nat)
    requires j < |triples| && !Resolves(s, m, triples[j])
    requires forall i :: 0 <= i < j ==> Resolves(s, m, triples[i])
    ensures ResolvedAssertions(s, m, file, triples) == Err(NotFound(file, triples[j]))
    decreases j
  {
    if j > 0 {
      assert Resolves(s, m, triples[0]);
      assert forall i :: 0 <= i < j - 1 ==> triples[1..][i] == triples[i + 1];
      ResolvedFirstFailure(s, m, file, triples[1..], j - 1);
    }
  }

  /** The loop of `_extractAssertionsFromFile`: one assertion per marker,
      appended in order, until a marker does not resolve. */
  method ResolveAssertions(s: Store, m: Model, file: string, triples: seq<AssertionString>)
    returns (r: Result<seq<InvariantAssertion>>)
    ensures r == ResolvedAssertions(s, m, file, triples)
  {
    var found: seq<InvariantAssertion> := [];
    var i := 0;
    while i < |triples|
      invariant i <= |triples| && |found| == i
      invariant forall k :: 0 <= k < i ==> Resolves(s, m, triples[k]) && found[k] == Bound(s, m, file, triples[k])
    {
      var t := triples[i];
      var inv := FindInvariant(s, m, t.className, t.invariantName);
      if inv.Err? {
        ResolvedFirstFailure(s, m, file, triples, i);
        return Err(NotFound(file, t));
      }
      found := found + [InvariantAssertion(file, inv.value, t.expected)];
      i := i + 1;
    }
    ResolvedAll(s, m, file, triples);
    assert found == ResolvedAssertions(s, m, file, triples).value;
    return Ok(found);
  }

  /** `_extractAssertionsFromFile(useModel, soilFile)` on the file's text. */
  method ExtractAssertions(s: Store, m: Model, file: string, text: string)
    returns (r: Result<seq<InvariantAssertion>>)
    ensures r == ResolvedAssertions(s, m, file, ExtractAssertionStrings(text))
  {
    r := ResolveAssertions(s, m, file, ExtractAssertionStrings(text));
  }

  /** `InvariantAssertionEvaluation`: an assertion and the result the
      engine gave for its invariant. */
  datatype InvariantAssertionEvaluation = InvariantAssertionEvaluation(
    assertion: InvariantAssertion, actualResult: bool, isOK: bool)

  /** The constructor: the assertion holds when the engine gave the result
      it expects. */
  function Assess(a: InvariantAssertion, actualResult: bool): (r: InvariantAssertionEvaluation)
    ensures r.assertion == a && r.actualResult == actualResult
    ensures r.isOK <==> actualResult == a.expectedResult
  {
    InvariantAssertionEvaluation(a, actualResult, actualResult == a.expectedResult)
  }
}
