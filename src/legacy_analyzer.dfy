/** The earlier copy of the analyzer (`alaocl/useocl/__init__.py`,
    `UseOCLSpecification`). It parses and resolves the canonical form with
    the same loop as the current analyzer, so it builds the same model;
    it differs in how it reports the tool's error lines: each becomes a
    `UseErrors` error, located ones pointing into the specification's
    source lines, and none registers itself anywhere.

    Running the tool and reading the files are not part of this model:
    the specification's text and the tool's answer are given. */
module LegacyAnalyzer {
  import opened Wrappers
  import opened Text
  import opened UseModel
  import opened CanonicalLines
  import opened CanonicalParser
  import opened ModelResolver
  import opened UseErrors
  import Analyzer

  /** An entry of the specification's error list: an error built from an
      error line of the tool, or the text recorded for a canonical line
      that no pattern accepts. */
  datatype ErrorEntry = ErrorValue(error: UseOclError) | ErrorLine(text: string)

  /** `_parseErrorLine`: a `file:line:column: message` line becomes a
      localized error with integer line and column; any other line a
      plain error with the line as its message. */
  function ErrorOf(sourceLines: seq<string>, line: string): (r: Result<UseOclError>)
  {
    match MatchErrorLine(line)
    case Some(m) => NewLocalizedError(sourceLines, m.message, m.fileName, DigitsValue(m.line), DigitsValue(m.column))
    case None => Ok(UseOclError(line))
  }

  /** This copy builds the error the current analyzer evidently means to
      build: the same kind, message, file name, line and column. It only
      raises for a location on line 0 of an empty specification. */
  lemma ErrorOfAgreesWithIntended(sourceLines: seq<string>, line: string)
    ensures ErrorOf(sourceLines, line).Err? <==>
      MatchErrorLine(line).Some? && DigitsValue(MatchErrorLine(line).value.line) == 0 && sourceLines == []
    ensures ErrorOf(sourceLines, line).Ok? ==>
      var e := ErrorOf(sourceLines, line).value;
      var intended := Analyzer.IntendedErrorOf(line);
      (e.LocalizedError? <==> intended.LocalizedError?) && e.message == intended.message &&
      (e.LocalizedError? ==> e.line == intended.line && e.column == intended.column &&
                             Some(e.filename) == intended.fileName)
  {
  }

  /** The loop over the tool's error lines: one error per line, in order;
      an exception ends the loop. */
  function ReportErrorLines(sourceLines: seq<string>, lines: seq<string>): (r: Result<seq<UseOclError>>)
    decreases |lines|
  {
    if lines == [] then Ok([])
    else
      var init :- ReportErrorLines(sourceLines, lines[..|lines| - 1]);
      var e :- ErrorOf(sourceLines, lines[|lines| - 1]);
      Ok(init + [e])
  }

  /** The loop of `__createCanonicalForm` over the error lines of a
      rejected specification: one error per line, until one of them
      raises. */
  method CollectErrors(sourceLines: seq<string>, lines: seq<string>) returns (r: Result<seq<UseOclError>>)
    ensures r == ReportErrorLines(sourceLines, lines)
  {
    var es: seq<UseOclError> := [];
    var i := 0;
    while i < |lines|
      invariant 0 <= i <= |lines|
      invariant ReportErrorLines(sourceLines, lines[..i]) == Ok(es)
    {
      assert lines[..i + 1][..i] == lines[..i];
      var e := ErrorOf(sourceLines, lines[i]);
      if e.Err? {
        ReportFailsAfter(sourceLines, lines, i + 1);
        return Err(e.error);
      }
      es := es + [e.value];
      i := i + 1;
    }
    assert lines[..i] == lines;
    return Ok(es);
  }

  /** Each error line gives exactly one error, the one `_parseErrorLine`
      builds for it, and the loop raises exactly when one of them does. */
  lemma {:induction false} ReportOnePerLine(sourceLines: seq<string>, lines: seq<string>)
    ensures ReportErrorLines(sourceLines, lines).Ok? <==> forall i :: 0 <= i < |lines| ==> ErrorOf(sourceLines, lines[i]).Ok?
    ensures ReportErrorLines(sourceLines, lines).Ok? ==>
      var es := ReportErrorLines(sourceLines, lines).value;
      |es| == |lines| && forall i :: 0 <= i < |lines| ==> ErrorOf(sourceLines, lines[i]) == Ok(es[i])
    decreases |lines|
  {
    if lines != [] {
      var init, last := lines[..|lines| - 1], lines[|lines| - 1];
      ReportOnePerLine(sourceLines, init);
      assert forall i :: 0 <= i < |init| ==> init[i] == lines[i];
      var p, e := ReportErrorLines(sourceLines, init), ErrorOf(sourceLines, last);
      if p.Ok? && e.Ok? {
        var es := p.value + [e.value];
        assert ReportErrorLines(sourceLines, lines) == Ok(es);
        assert forall i :: 0 <= i < |init| ==> es[i] == p.value[i];
      } else {
        assert ReportErrorLines(sourceLines, lines).Err?;
      }
    }
  }

  lemma {:induction false} ReportFailsAfter(sourceLines: seq<string>, lines: seq<string>, k: nat)
    requires k <= |lines| && ReportErrorLines(sourceLines, lines[..k]).Err?
    ensures ReportErrorLines(sourceLines, lines) == ReportErrorLines(sourceLines, lines[..k])
    decreases |lines| - k
  {
    if k < |lines| {
      assert lines[..k + 1][..k] == lines[..k];
      ReportFailsAfter(sourceLines, lines, k + 1);
    } else {
      assert lines[..k] == lines;
    }
  }

  /** The error list entries for errors, in order. */
  function Entries(es: seq<UseOclError>): (r: seq<ErrorEntry>)
    ensures |r| == |es| && forall i :: 0 <= i < |es| ==> r[i] == ErrorValue(es[i])
  {
    seq(|es|, i requires 0 <= i < |es| => ErrorValue(es[i]))
  }

  /** The entries recorded for canonical lines that no pattern accepts. */
  function Unprocessed(lines: seq<string>): (r: seq<ErrorEntry>)
    ensures |r| == |lines| && forall i :: 0 <= i < |lines| ==> r[i] == ErrorLine(CannotProcess(lines[i]))
  {
    seq(|lines|, i requires 0 <= i < |lines| => ErrorLine(CannotProcess(lines[i])))
  }

  /** `UseOCLSpecification`: the specification's file name and lines and
      the results of its analysis. */
  class UseOclSpecification {
    const sourceFileName: string
    const sourceLines: seq<string>
    var isValid: Option<bool>
    var canonicalLines: Option<seq<string>>
    var canonicalLength: nat
    var errors: seq<ErrorEntry>
    var commandExitCode: Option<int>
    var store: Store
    var model: Option<Model>

    /** The fields before the analysis: the lines of the file (`tuple`
      of its `splitlines()`), nothing known yet, no errors. */
    constructor(fileName: string, text: string)
      ensures sourceFileName == fileName && sourceLines == SplitLines(text)
      ensures isValid == None && canonicalLines == None && canonicalLength == 0 && errors == []
      ensures commandExitCode == None && store == EmptyStore && model == None
    {
      sourceFileName := fileName;
      sourceLines := SplitLines(text);
      isValid := None;
      canonicalLines := None;
      canonicalLength := 0;
      errors := [];
      commandExitCode := None;
      store := EmptyStore;
      model := None;
    }

    /** `_createCanonicalForm` once the tool has answered `run`: a rejected
      specification gets one error per error line, an accepted one its
      canonical lines, the tool's output without its first two and last
      two lines. The result is `isValid`. */
    method CreateCanonicalForm(run: Analyzer.EngineRun) returns (r: Result<bool>)
      modifies this
      ensures commandExitCode == Some(run.exitCode)
      ensures store == old(store) && model == old(model)
      ensures run.exitCode != 0 ==>
        var report := ReportErrorLines(sourceLines, SplitLines(run.err));
        isValid == Some(false) && canonicalLines == old(canonicalLines) && canonicalLength == old(canonicalLength) &&
        (r.Ok? <==> report.Ok?) && (r.Ok? ==> r.value == false && errors == Entries(report.value)) &&
        (r.Err? ==> r.error == report.error)
      ensures run.exitCode == 0 ==>
        r == Ok(true) && isValid == Some(true) && errors == [] &&
        canonicalLines == Some(Analyzer.CanonicalSlice(run.out)) && canonicalLength == |Analyzer.CanonicalSlice(run.out)|
    {
      commandExitCode := Some(run.exitCode);
      if run.exitCode != 0 {
        isValid := Some(false);
        var report := CollectErrors(sourceLines, SplitLines(run.err));
        if report.Err? {
          return Err(report.error);
        }
        var es := report.value;
        errors := Entries(es);
        return Ok(false);
      } else {
        isValid := Some(true);
        errors := [];
        canonicalLines := Some(Analyzer.CanonicalSlice(run.out));
        canonicalLength := |Analyzer.CanonicalSlice(run.out)|;
        return Ok(true);
      }
    }

    /** `_parseCanonicalLines`: the same loop as the current analyzer's.
      Each line that no pattern claims makes the specification invalid
      and is recorded; an exception ends the loop. */
    method ParseCanonicalLines() returns (r: Result<()>)
      requires ModelInStore(store, model)
      modifies this
      ensures canonicalLines == old(canonicalLines) && canonicalLength == old(canonicalLength)
      ensures commandExitCode == old(commandExitCode)
      ensures old(canonicalLines).None? ==> r.Err? && r.error.TypeError?
      ensures old(canonicalLines).Some? ==>
        var p := ParseLines(ParserState(old(store), old(model), NoContext), old(canonicalLines).value);
        (r.Ok? <==> p.Ok?) &&
        (r.Ok? ==>
          store == p.value.state.store && model == p.value.state.model &&
          errors == old(errors) + Unprocessed(p.value.unprocessed) &&
          isValid == (if p.value.unprocessed == [] then old(isValid) else Some(false)))
    {
      if canonicalLines.None? {
        return Err(TypeError("'NoneType' object is not iterable"));
      }
      var p := Analyzer.ParseLinesLoop(ParserState(store, model, NoContext), canonicalLines.value);
      if p.Err? {
        return Err(p.error);
      }
      store := p.value.state.store;
      model := p.value.state.model;
      if p.value.unprocessed != [] {
        isValid := Some(false);
      }
      errors := errors + Unprocessed(p.value.unprocessed);
      return Ok(());
    }

    /** `_resolveModel`: the same three loops as the current analyzer's.
      Without a model it raises on `None`. */
    method Resolve() returns (r: Result<()>)
      modifies this
      ensures isValid == old(isValid) && commandExitCode == old(commandExitCode) && errors == old(errors)
      ensures canonicalLines == old(canonicalLines) && canonicalLength == old(canonicalLength)
      ensures old(model).None? ==> r == Err(AttributeError("classes")) && store == old(store) && model == None
      ensures old(model).Some? ==>
        var q := ResolveModel(old(store), old(model).value);
        (r.Ok? <==> q.Ok?) && (r.Ok? ==> store == q.value.store && model == Some(q.value.model))
    {
      if model.None? {
        return Err(AttributeError("classes"));
      }
      var q := Analyzer.ResolveModelLoops(store, model.value);
      if q.Err? {
        return Err(q.error);
      }
      store := q.value.store;
      model := Some(q.value.model);
      return Ok(());
    }

    /** The rest of `UseOCLSpecification.__init__` once the tool has
      answered `run`. An accepted specification is parsed and resolved
      into the same model as the current analyzer's (`Analyzer.Analysis`). */
    method Analyze(run: Analyzer.EngineRun) returns (r: Result<()>)
      requires store == EmptyStore && model == None
      modifies this
      ensures commandExitCode == Some(run.exitCode)
      ensures run.exitCode != 0 ==>
        var report := ReportErrorLines(sourceLines, SplitLines(run.err));
        isValid == Some(false) && model == None && (r.Ok? <==> report.Ok?) &&
        (r.Ok? ==> errors == Entries(report.value))
      ensures run.exitCode == 0 ==>
        canonicalLines == Some(Analyzer.CanonicalSlice(run.out)) && (r.Ok? <==> Analyzer.Analysis(run.out).Ok?)
      ensures run.exitCode == 0 && r.Ok? ==>
        var (p, q) := Analyzer.Analysis(run.out).value;
        store == q.store && model == Some(q.model) &&
        errors == Unprocessed(p.unprocessed) && isValid == Some(p.unprocessed == [])
    {
      var valid := CreateCanonicalForm(run);
      if valid.Err? {
        return Err(valid.error);
      }
      if !valid.value {
        return Ok(());
      }
      var parsed := ParseCanonicalLines();
      if parsed.Err? {
        return parsed;
      }
      r := Resolve();
    }
  }
}
