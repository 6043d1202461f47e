/** The analyzer of a USE model file (`pyalaocl/useocl/analyzer.py`): the
    USE tool checks the file and prints its canonical form; the analyzer
    keeps the canonical lines, parses them into a model and resolves the
    names in that model. When the tool rejects the file, its error lines
    become the errors of the source file instead.

    Running the tool is not part of this model: its exit code and its
    two output streams are given as an `EngineRun`. */
module Analyzer {
  import opened Wrappers
  import opened Text
  import opened UseModel
  import opened CanonicalLines
  import opened CanonicalParser
  import opened ModelResolver
  import opened SourceErrors

  /** What one run of the USE tool on the model file returns. */
  datatype EngineRun = EngineRun(exitCode: int, out: string, err: string)

  /** The canonical lines in the tool's output: the two lines the tool
      prints first (its banner and the command) and the two it prints
      last (an information line and `quit`) are dropped (`[2:-2]`). */
  function CanonicalSlice(out: string): (r: seq<string>)
    ensures var lines := SplitLines(out);
      |lines| >= 4 ==> lines == lines[..2] + r + lines[|lines| - 2..]
    ensures |SplitLines(out)| <= 4 ==> r == []
  {
    var lines := SplitLines(out);
    var r := PySlice(lines, 2, -2);
    assert |lines| >= 4 ==> r == lines[2..|lines| - 2];
    r
  }

  /** `int(column, fileName)`: the file name is passed as the base of the
      conversion, which Python refuses. */
  const BaseIsNotAnInteger := TypeError("an integer is required")

  /** The errors registered for the tool's error lines, and the exception
      that stopped the loop, if one did. */
  datatype Report = Report(entries: seq<ErrorEntry>, failure: Option<PyError>)

  /** The loop over the error lines of a rejected model, as written. A
      line in the `file:line:column: message` format makes
      `__parseErrorLine` raise before any error is built; any other line
      builds a plain error, which registers itself in the source file,
      and the loop then appends it a second time. */
  function ReportErrorLines(lines: seq<string>): (r: Report)
    decreases |lines|
  {
    if lines == [] then Report([], None)
    else
      var p := ReportErrorLines(lines[..|lines| - 1]);
      var line := lines[|lines| - 1];
      if p.failure.Some? then p
      else if MatchErrorLine(line).Some? then Report(p.entries, Some(BaseIsNotAnInteger))
      else Report(p.entries + [ErrorObject(SourceError(line)), ErrorObject(SourceError(line))], None)
  }

  /** Once the loop has raised, the lines after are not looked at. */
  lemma {:induction false} ReportStopsAtFailure(lines: seq<string>, k: nat)
    requires k <= |lines| && ReportErrorLines(lines[..k]).failure.Some?
    ensures ReportErrorLines(lines) == ReportErrorLines(lines[..k])
    decreases |lines| - k
  {
    if k < |lines| {
      assert lines[..k + 1][..k] == lines[..k];
      ReportStopsAtFailure(lines, k + 1);
    } else {
      assert lines[..k] == lines;
    }
  }

  /** `__parseErrorLine`, as written: a located line raises before any
      error is built, any other line becomes a plain error registered in
      `source`. */
  method ParseErrorLine(source: SourceFile, line: string) returns (r: Result<SourceError>)
    modifies source
    ensures MatchErrorLine(line).Some? ==> r == Err(BaseIsNotAnInteger) && source.errors == old(source.errors)
    ensures MatchErrorLine(line).None? ==>
      r == Ok(SourceError(line)) && source.errors == old(source.errors) + [ErrorObject(SourceError(line))]
    ensures source.fileName == old(source.fileName) && source.sourceLines == old(source.sourceLines)
  {
    if MatchErrorLine(line).Some? {
      return Err(BaseIsNotAnInteger);
    }
    var e := NewSourceError(source, line);
    return Ok(e);
  }

  /** The loop of `__createCanonicalForm` over the error lines of a
      rejected model: it registers errors in `source` until a line makes
      it raise, and answers with that exception. */
  method ReportErrors(source: SourceFile, lines: seq<string>) returns (failure: Option<PyError>)
    requires source.errors == []
    modifies source
    ensures ReportErrorLines(lines) == Report(source.errors, failure)
    ensures source.fileName == old(source.fileName) && source.sourceLines == old(source.sourceLines)
  {
    var i := 0;
    while i < |lines|
      invariant 0 <= i <= |lines|
      invariant ReportErrorLines(lines[..i]) == Report(source.errors, None)
      invariant source.fileName == old(source.fileName) && source.sourceLines == old(source.sourceLines)
    {
      assert lines[..i + 1][..i] == lines[..i];
      var e := ParseErrorLine(source, lines[i]);
      if e.Err? {
        ReportStopsAtFailure(lines, i + 1);
        return Some(e.error);
      }
      source.AddError(ErrorObject(e.value));
      i := i + 1;
    }
    assert lines[..i] == lines;
    return None;
  }

  /** Every error line appears twice in a row. */
  function Twice(lines: seq<string>): (r: seq<ErrorEntry>)
    ensures |r| == 2 * |lines|
    ensures forall i :: 0 <= i < |lines| ==>
      r[2 * i] == ErrorObject(SourceError(lines[i])) && r[2 * i + 1] == ErrorObject(SourceError(lines[i]))
    decreases |lines|
  {
    if lines == [] then []
    else
      var init := lines[..|lines| - 1];
      var last := lines[|lines| - 1];
      var r := Twice(init) + [ErrorObject(SourceError(last)), ErrorObject(SourceError(last))];
      assert forall i :: 0 <= i < |init| ==> init[i] == lines[i];
      r
  }

  /** As written, a rejected model whose error lines all carry a location
      stops at the first of them with a `TypeError`; the exception is
      raised exactly when some line has a location. */
  lemma {:induction false} ReportFailsOnLocatedLine(lines: seq<string>)
    ensures ReportErrorLines(lines).failure.Some? <==> exists i :: 0 <= i < |lines| && MatchErrorLine(lines[i]).Some?
    ensures ReportErrorLines(lines).failure.Some? ==> ReportErrorLines(lines).failure == Some(BaseIsNotAnInteger)
    ensures ReportErrorLines(lines).failure.None? ==> ReportErrorLines(lines).entries == Twice(lines)
    decreases |lines|
  {
    if lines != [] {
      var init := lines[..|lines| - 1];
      ReportFailsOnLocatedLine(init);
      assert forall i :: 0 <= i < |init| ==> init[i] == lines[i];
      if ReportErrorLines(init).failure.None? && MatchErrorLine(lines[|lines| - 1]).None? {
        assert forall i :: 0 <= i < |lines| ==> MatchErrorLine(lines[i]).None? by {
          forall i | 0 <= i < |lines| ensures MatchErrorLine(lines[i]).None? {
            if i < |init| { assert lines[i] == init[i]; }
          }
        }
      }
    }
  }

  /** The tool's answer `a:1:2: m` makes the analysis raise, and a line
      without a location is registered twice. */
  lemma ReportExamples()
    ensures MatchErrorLine("a:1:2: m").Some?
    ensures ReportErrorLines(["a:1:2: m"]).failure == Some(BaseIsNotAnInteger)
    ensures ReportErrorLines(["oops"]) == Report([ErrorObject(SourceError("oops")), ErrorObject(SourceError("oops"))], None)
  {
    var m := ErrorLineMatch("a", ":", "1", "2", true, " m");
    assert ErrorLineText(m) == "a:1:2: m";
    ErrorLineRecognised(m);
    assert ["a:1:2: m"][..0] == [];
    assert ["oops"][..0] == [];
    LocatedLineHasDigit("oops");
  }

  /** A line that carries a location has a digit: its line number. */
  lemma LocatedLineHasDigit(line: string)
    ensures MatchErrorLine(line).Some? ==> exists i :: 0 <= i < |line| && IsDigit(line[i])
  {
    if MatchErrorLine(line).Some? {
      var m := MatchErrorLine(line).value;
      var k := |m.fileName| + |m.separator|;
      assert line[k] == m.line[0];
    }
  }

  /** The error a tool error line evidently means: a located error with
      the file name, line, column and message of a `file:line:column:
      message` line, a plain error with the whole line otherwise. */
  function IntendedErrorOf(line: string): (e: SourceError)
    ensures MatchErrorLine(line).None? <==> e == SourceError(line)
    ensures MatchErrorLine(line).Some? ==>
      var m := MatchErrorLine(line).value;
      e == LocalizedError(m.message, DigitsValue(m.line), DigitsValue(m.column), Some(m.fileName))
  {
    match MatchErrorLine(line)
    case Some(m) => LocalizedError(m.message, DigitsValue(m.line), DigitsValue(m.column), Some(m.fileName))
    case None => SourceError(line)
  }

  /** The loop over the error lines as evidently intended: each line
      gives one error, registered once, in the order of the lines. */
  function IntendedReportErrorLines(lines: seq<string>): (r: seq<ErrorEntry>)
    ensures |r| == |lines|
    ensures forall i :: 0 <= i < |lines| ==> r[i] == ErrorObject(IntendedErrorOf(lines[i]))
  {
    seq(|lines|, i requires 0 <= i < |lines| => ErrorObject(IntendedErrorOf(lines[i])))
  }

  /** In the intended loop a located error keeps the message of its line
      and its `__str__` names the file, line and column it came from. */
  lemma IntendedLocatedError(line: string)
    requires MatchErrorLine(line).Some?
    ensures var m := MatchErrorLine(line).value;
      var e := IntendedErrorOf(line);
      e.LocalizedError? && e.message == m.message && line == ErrorLineText(m) &&
      Str(e) == m.fileName + ":" + IntToString(DigitsValue(m.line)) + ":" +
                IntToString(DigitsValue(m.column)) + ": " + m.message
  {
  }

  /** The lines no declaration pattern accepts, as the parser records them. */
  function CannotProcessAll(lines: seq<string>): (r: seq<ErrorEntry>)
    ensures |r| == |lines|
    ensures forall i :: 0 <= i < |lines| ==> r[i] == ErrorText(CannotProcess(lines[i]))
  {
    seq(|lines|, i requires 0 <= i < |lines| => ErrorText(CannotProcess(lines[i])))
  }

  /** Once a line has raised, the lines after it are not looked at: the
      parse of the whole list raises the same exception. The three
      resolution loops stop in the same way. */
  lemma {:induction false} ParseLinesFailsAfter(st: ParserState, lines: seq<string>, k: nat)
    requires Valid(st) && k <= |lines| && ParseLines(st, lines[..k]).Err?
    ensures ParseLines(st, lines) == ParseLines(st, lines[..k])
    decreases |lines| - k
  {
    if k < |lines| {
      assert lines[..k + 1] == lines[..k] + [lines[k]];
      ParseLinesErrorStays(st, lines[..k], lines[k]);
      ParseLinesFailsAfter(st, lines, k + 1);
    } else {
      assert lines[..k] == lines;
    }
  }

  /** One more line after a failed parse fails in the same way. */
  lemma ParseLinesErrorStays(st: ParserState, lines: seq<string>, line: string)
    requires Valid(st) && ParseLines(st, lines).Err?
    ensures ParseLines(st, lines + [line]) == ParseLines(st, lines)
  {
    assert (lines + [line])[..|lines|] == lines;
  }

  lemma {:induction false} ResolveClassesFailsAfter(r: Resolution, ids: seq<ElementId>, k: nat)
    requires k <= |ids| && ResolveClasses(r, ids[..k]).Err?
    ensures ResolveClasses(r, ids) == ResolveClasses(r, ids[..k])
    decreases |ids| - k
  {
    if k < |ids| {
      assert ids[..k + 1] == ids[..k] + [ids[k]];
      ResolveClassesErrorStays(r, ids[..k], ids[k]);
      ResolveClassesFailsAfter(r, ids, k + 1);
    } else {
      assert ids[..k] == ids;
    }
  }

  lemma ResolveClassesErrorStays(r: Resolution, ids: seq<ElementId>, id: ElementId)
    requires ResolveClasses(r, ids).Err?
    ensures ResolveClasses(r, ids + [id]) == ResolveClasses(r, ids)
  {
    assert (ids + [id])[..|ids|] == ids;
  }

  lemma {:induction false} ResolveAssociationsFailsAfter(r: Resolution, ids: seq<ElementId>, k: nat)
    requires k <= |ids| && ResolveAssociations(r, ids[..k]).Err?
    ensures ResolveAssociations(r, ids) == ResolveAssociations(r, ids[..k])
    decreases |ids| - k
  {
    if k < |ids| {
      assert ids[..k + 1] == ids[..k] + [ids[k]];
      ResolveAssociationsErrorStays(r, ids[..k], ids[k]);
      ResolveAssociationsFailsAfter(r, ids, k + 1);
    } else {
      assert ids[..k] == ids;
    }
  }

  lemma ResolveAssociationsErrorStays(r: Resolution, ids: seq<ElementId>, id: ElementId)
    requires ResolveAssociations(r, ids).Err?
    ensures ResolveAssociations(r, ids + [id]) == ResolveAssociations(r, ids)
  {
    assert (ids + [id])[..|ids|] == ids;
  }

  lemma {:induction false} ResolveInvariantsFailsAfter(r: Resolution, ids: seq<InvariantId>, k: nat)
    requires k <= |ids| && ResolveInvariants(r, ids[..k]).Err?
    ensures ResolveInvariants(r, ids) == ResolveInvariants(r, ids[..k])
    decreases |ids| - k
  {
    if k < |ids| {
      assert ids[..k + 1] == ids[..k] + [ids[k]];
      ResolveInvariantsErrorStays(r, ids[..k], ids[k]);
      ResolveInvariantsFailsAfter(r, ids, k + 1);
    } else {
      assert ids[..k] == ids;
    }
  }

  lemma ResolveInvariantsErrorStays(r: Resolution, ids: seq<InvariantId>, id: InvariantId)
    requires ResolveInvariants(r, ids).Err?
    ensures ResolveInvariants(r, ids + [id]) == ResolveInvariants(r, ids)
  {
    assert (ids + [id])[..|ids|] == ids;
  }

  /** The initial parser state: no entity, no model, no context. */
  const Start := ParserState(EmptyStore, None, NoContext)

  /** What analysing an accepted model computes: the parse of its
      canonical lines, then the resolution of the model they declare.
      Without any `model` line there is no model to resolve, and
      resolution raises `AttributeError` on `None`. */
  function Analysis(out: string): (r: Result<(Parsed, Resolution)>)
  {
    AnalysisOfLines(CanonicalSlice(out))
  }

  /** `Analysis` from the canonical lines on. */
  function AnalysisOfLines(lines: seq<string>): (r: Result<(Parsed, Resolution)>)
  {
    var p :- ParseLines(Start, lines);
    if p.state.model.None? then Err(AttributeError("classes"))
    else
      var q :- ResolveModel(p.state.store, p.state.model.value);
      Ok((p, q))
  }

  /** After a successful analysis every invariant of the model refers to
      the class it was declared for, and that class holds it under its
      name. */
  lemma AnalysisRegistersInvariants(out: string)
    requires Analysis(out).Ok?
    ensures var q := Analysis(out).value.1;
      forall k :: 0 <= k < |q.model.invariants| ==> Registered(q.store, q.model.invariants[k])
  {
    var p := ParseLines(Start, CanonicalSlice(out)).value;
    var s := p.state.store;
    var m := p.state.model.value;
    assert InStore(s, m);
    var r1 := ResolveClasses(Resolution(s, m), ClassIds(m)).value;
    var r2 := ResolveAssociations(r1, AssociationIds(m)).value;
    assert InStore(r2.store, r2.model);
    EveryInvariantRegistered(r2, m.invariants);
  }

  /** `UseOCLModel`: a source file with the results of its analysis. The
      source file's error list is the list the analyzer reports into. */
  class UseOclModel {
    const source: SourceFile
    var isValid: Option<bool>
    var canonicalLines: Option<seq<string>>
    var canonicalLength: nat
    var commandExitCode: Option<int>
    /** The entities of the model, addressed by the ids the model holds. */
    var store: Store
    var model: Option<Model>

    /** The fields before the analysis: nothing known yet, no errors. */
    constructor(fileName: string, text: string)
      ensures fresh(source)
      ensures source.fileName == fileName && source.sourceLines == SplitLines(text) && source.errors == []
      ensures isValid == None && canonicalLines == None && canonicalLength == 0 && commandExitCode == None
      ensures store == EmptyStore && model == None
    {
      source := new SourceFile(fileName, text);
      isValid := None;
      canonicalLines := None;
      canonicalLength := 0;
      commandExitCode := None;
      store := EmptyStore;
      model := None;
    }

    /** The rest of `UseOCLModel.__init__` once the tool has answered
      `run`: the canonical form is created and, when the tool accepted
      the model, the canonical lines are parsed and the model resolved.
      Resolution runs even when parsing found lines it could not
      process. */
    method Analyze(run: EngineRun) returns (r: Result<()>)
      requires store == EmptyStore && model == None
      modifies this, source
      ensures commandExitCode == Some(run.exitCode)
      ensures run.exitCode != 0 ==>
        var report := ReportErrorLines(SplitLines(run.err));
        isValid == Some(false) && model == None && source.errors == report.entries &&
        (r.Ok? <==> report.failure.None?)
      ensures run.exitCode == 0 ==>
        canonicalLines == Some(CanonicalSlice(run.out)) && (r.Ok? <==> Analysis(run.out).Ok?)
      ensures run.exitCode == 0 && r.Ok? ==>
        var (p, q) := Analysis(run.out).value;
        store == q.store && model == Some(q.model) &&
        source.errors == CannotProcessAll(p.unprocessed) && isValid == Some(p.unprocessed == [])
    {
      var valid := CreateCanonicalForm(run);
      if valid.Err? {
        return Err(valid.error);
      }
      if !valid.value {
        return Ok(());
      }
      r := ParseAndResolve(CanonicalSlice(run.out));
    }

    /** The canonical lines of an accepted model are parsed, then the
      model is resolved; the first exception stops the analysis. */
    method ParseAndResolve(ghost lines: seq<string>) returns (r: Result<()>)
      requires store == EmptyStore && model == None && canonicalLines == Some(lines)
      requires isValid == Some(true) && source.errors == []
      modifies this, source
      ensures commandExitCode == old(commandExitCode) && canonicalLines == old(canonicalLines)
      ensures r.Ok? <==> AnalysisOfLines(lines).Ok?
      ensures r.Ok? ==>
        var (p, q) := AnalysisOfLines(lines).value;
        store == q.store && model == Some(q.model) &&
        source.errors == CannotProcessAll(p.unprocessed) && isValid == Some(p.unprocessed == [])
    {
      assert ParserState(store, model, NoContext) == Start;
      var parsed := ParseCanonicalLines();
      if parsed.Err? {
        return parsed;
      }
      r := Resolve();
    }

    /** `__createCanonicalForm` on the tool's answer `run`: a rejected
      model keeps its error lines as errors, an accepted one its
      canonical lines. The result is `isValid`. */
    method CreateCanonicalForm(run: EngineRun) returns (r: Result<bool>)
      modifies this, source
      ensures commandExitCode == Some(run.exitCode)
      ensures store == old(store) && model == old(model)
      ensures source.fileName == old(source.fileName) && source.sourceLines == old(source.sourceLines)
      ensures run.exitCode != 0 ==>
        var report := ReportErrorLines(SplitLines(run.err));
        isValid == Some(false) && source.errors == report.entries &&
        canonicalLines == old(canonicalLines) && canonicalLength == old(canonicalLength) &&
        (if report.failure.Some? then r == Err(report.failure.value) else r == Ok(false))
      ensures run.exitCode == 0 ==>
        r == Ok(true) && isValid == Some(true) && source.errors == [] &&
        canonicalLines == Some(CanonicalSlice(run.out)) && canonicalLength == |CanonicalSlice(run.out)|
    {
      commandExitCode := Some(run.exitCode);
      if run.exitCode != 0 {
        isValid := Some(false);
        source.errors := [];
        var failure := ReportErrors(source, SplitLines(run.err));
        if failure.Some? {
          return Err(failure.value);
        }
        return Ok(false);
      } else {
        isValid := Some(true);
        source.errors := [];
        canonicalLines := Some(CanonicalSlice(run.out));
        canonicalLength := |CanonicalSlice(run.out)|;
        return Ok(true);
      }
    }

    /** `__parseCanonicalLinesAndCreateModel`: the parser's loop over the
      canonical lines. Each line that no pattern claims makes the model
      invalid and is reported; an exception ends the loop. */
    method ParseCanonicalLines() returns (r: Result<()>)
      requires ModelInStore(store, model)
      modifies this, source
      ensures canonicalLines == old(canonicalLines) && canonicalLength == old(canonicalLength)
      ensures commandExitCode == old(commandExitCode)
      ensures source.fileName == old(source.fileName) && source.sourceLines == old(source.sourceLines)
      ensures old(canonicalLines).None? ==> r.Err? && r.error.TypeError?
      ensures old(canonicalLines).Some? ==>
        var p := ParseLines(ParserState(old(store), old(model), NoContext), old(canonicalLines).value);
        (r.Ok? <==> p.Ok?) &&
        (r.Ok? ==>
          store == p.value.state.store && model == p.value.state.model &&
          source.errors == old(source.errors) + CannotProcessAll(p.value.unprocessed) &&
          isValid == (if p.value.unprocessed == [] then old(isValid) else Some(false)))
    {
      if canonicalLines.None? {
        return Err(TypeError("'NoneType' object is not iterable"));
      }
      var p := ParseLinesLoop(ParserState(store, model, NoContext), canonicalLines.value);
      if p.Err? {
        return Err(p.error);
      }
      store := p.value.state.store;
      model := p.value.state.model;
      if p.value.unprocessed != [] {
        isValid := Some(false);
      }
      source.AddErrors(CannotProcessAll(p.value.unprocessed));
      return Ok(());
    }

    /** `__resolveModel`: classes and association classes, then
      associations and association classes, then invariants; the first
      exception ends the resolution. Without a model it raises on `None`. */
    method Resolve() returns (r: Result<()>)
      modifies this
      ensures isValid == old(isValid) && commandExitCode == old(commandExitCode)
      ensures canonicalLines == old(canonicalLines) && canonicalLength == old(canonicalLength)
      ensures old(model).None? ==> r == Err(AttributeError("classes")) && store == old(store) && model == None
      ensures old(model).Some? ==>
        var q := ResolveModel(old(store), old(model).value);
        (r.Ok? <==> q.Ok?) && (r.Ok? ==> store == q.value.store && model == Some(q.value.model))
    {
      if model.None? {
        return Err(AttributeError("classes"));
      }
      var q := ResolveModelLoops(store, model.value);
      if q.Err? {
        return Err(q.error);
      }
      store := q.value.store;
      model := Some(q.value.model);
      return Ok(());
    }
  }

  /** The parser's loop over the canonical lines, line by line. */
  method ParseLinesLoop(start: ParserState, lines: seq<string>) returns (r: Result<Parsed>)
    requires Valid(start)
    ensures r == ParseLines(start, lines)
  {
    var st := start;
    var unprocessed: seq<string> := [];
    var i := 0;
    while i < |lines|
      invariant 0 <= i <= |lines|
      invariant ParseLines(start, lines[..i]) == Ok(Parsed(st, unprocessed))
      invariant Valid(st)
    {
      assert lines[..i + 1][..i] == lines[..i];
      var next := Step(st, lines[i]);
      if next.Err? {
        ParseLinesFailsAfter(start, lines, i + 1);
        return Err(next.error);
      }
      if next.value.None? {
        unprocessed := unprocessed + [lines[i]];
      } else {
        st := next.value.value;
      }
      i := i + 1;
    }
    assert lines[..i] == lines;
    return Ok(Parsed(st, unprocessed));
  }

  /** The three resolution loops one after the other: classes and
      association classes, associations and association classes,
      invariants. */
  method ResolveModelLoops(s: Store, m: Model) returns (q: Result<Resolution>)
    ensures q == ResolveModel(s, m)
  {
    var r1 := ResolveClassesLoop(Resolution(s, m), ClassIds(m));
    if r1.Err? {
      return Err(r1.error);
    }
    var r2 := ResolveAssociationsLoop(r1.value, AssociationIds(m));
    if r2.Err? {
      return Err(r2.error);
    }
    q := ResolveInvariantsLoop(r2.value, m.invariants);
  }

  /** The loop over the classes, resolving each in turn. */
  method ResolveClassesLoop(start: Resolution, ids: seq<ElementId>) returns (r: Result<Resolution>)
    ensures r == ResolveClasses(start, ids)
  {
    var res := start;
    var i := 0;
    while i < |ids|
      invariant 0 <= i <= |ids|
      invariant ResolveClasses(start, ids[..i]) == Ok(res)
    {
      assert ids[..i + 1][..i] == ids[..i];
      var next := ResolveClass(res, ids[i]);
      if next.Err? {
        ResolveClassesFailsAfter(start, ids, i + 1);
        return next;
      }
      res := next.value;
      i := i + 1;
    }
    assert ids[..i] == ids;
    return Ok(res);
  }

  /** The loop over the associations, resolving each in turn. */
  method ResolveAssociationsLoop(start: Resolution, ids: seq<ElementId>) returns (r: Result<Resolution>)
    ensures r == ResolveAssociations(start, ids)
  {
    var res := start;
    var i := 0;
    while i < |ids|
      invariant 0 <= i <= |ids|
      invariant ResolveAssociations(start, ids[..i]) == Ok(res)
    {
      assert ids[..i + 1][..i] == ids[..i];
      var next := ResolveAssociation(res, ids[i]);
      if next.Err? {
        ResolveAssociationsFailsAfter(start, ids, i + 1);
        return next;
      }
      res := next.value;
      i := i + 1;
    }
    assert ids[..i] == ids;
    return Ok(res);
  }

  /** The loop over the invariants, resolving each in turn. */
  method ResolveInvariantsLoop(start: Resolution, ids: seq<InvariantId>) returns (r: Result<Resolution>)
    ensures r == ResolveInvariants(start, ids)
  {
    var res := start;
    var i := 0;
    while i < |ids|
      invariant 0 <= i <= |ids|
      invariant ResolveInvariants(start, ids[..i]) == Ok(res)
    {
      assert ids[..i + 1][..i] == ids[..i];
      var next := ResolveInvariant(res, ids[i]);
      if next.Err? {
        ResolveInvariantsFailsAfter(start, ids, i + 1);
        return next;
      }
      res := next.value;
      i := i + 1;
    }
    assert ids[..i] == ids;
    return Ok(res);
  }
}
