/** Checking the assertions of snapshot files against what the USE engine
    reports (`pyalaocl/useocl/tester.py`): after the snapshots are
    evaluated, each snapshot's assertions are compared with the results of
    their invariants, and the assertions that do not hold are collected.
    Test suites packed as zip archives select their model and snapshot
    files by extension. */
module Tester {
  import opened Wrappers
  import opened Text
  import opened OrderedMaps
  import opened UseModel
  import opened Evaluation
  import opened Evaluator
  import opened Assertions

  // Assertions of one snapshot.

  /** The engine gave a result for the assertion's invariant. */
  predicate Evaluated(a: InvariantAssertion, e: EvaluationState) {
    e.invariantEvaluations.Contains(a.invariantId)
  }

  /** The result the engine gave for the assertion's invariant. */
  function ActualResult(a: InvariantAssertion, e: EvaluationState): bool
    requires Evaluated(a, e)
  {
    e.invariantEvaluations.Get(a.invariantId).value.IsOK()
  }

  /** The loop of `__evaluateAssertionsForState` over the assertions of
      `file`: each looks up the evaluation of the file (`KeyError` when
      the file has none) and the result of its invariant in it (`KeyError`
      when the engine gave none). */
  function AssertionEvaluations(assertions: seq<InvariantAssertion>, file: string, e: Option<EvaluationState>)
    : Result<seq<InvariantAssertionEvaluation>>
  {
    if assertions == [] then Ok([])
    else
      var a := assertions[0];
      match e
      case None => Err(KeyError(file))
      case Some(ev) =>
        match ev.invariantEvaluations.Get(a.invariantId)
        case None => Err(KeyError(IntToString(a.invariantId)))
        case Some(ie) =>
          var rest :- AssertionEvaluations(assertions[1..], file, e);
          Ok([Assess(a, ie.IsOK())] + rest)
  }

  /** When the file was evaluated and every invariant asserted has a
      result, each assertion is judged against that result, in order. */
  lemma {:induction false} AssertionEvaluationsAll(assertions: seq<InvariantAssertion>, file: string, e: EvaluationState)
    requires forall i :: 0 <= i < |assertions| ==> Evaluated(assertions[i], e)
    ensures AssertionEvaluations(assertions, file, Some(e)).Ok?
    ensures var r := AssertionEvaluations(assertions, file, Some(e)).value;
      |r| == |assertions| &&
      forall i :: 0 <= i < |assertions| ==> r[i] == Assess(assertions[i], ActualResult(assertions[i], e))
    decreases |assertions|
  {
    if assertions != [] {
      assert Evaluated(assertions[0], e);
      assert forall i :: 1 <= i < |assertions| ==> assertions[1..][i - 1] == assertions[i];
      AssertionEvaluationsAll(assertions[1..], file, e);
    }
  }

  /** The first assertion whose invariant has no result raises. */
  lemma {:induction false} AssertionEvaluationsFirstMissing(assertions: seq<InvariantAssertion>, file: string, e: EvaluationState, j: nat)
    requires j < |assertions| && !Evaluated(assertions[j], e)
    requires forall i :: 0 <= i < j ==> Evaluated(assertions[i], e)
    ensures AssertionEvaluations(assertions, file, Some(e)) == Err(KeyError(IntToString(assertions[j].invariantId)))
    decreases j
  {
    if j > 0 {
      assert Evaluated(assertions[0], e);
      assert forall i :: 0 <= i < j - 1 ==> assertions[1..][i] == assertions[i + 1];
      AssertionEvaluationsFirstMissing(assertions[1..], file, e, j - 1);
    }
  }

  /** An assertion expecting `OK` holds exactly when the engine validated
      its invariant, one expecting `KO` or `Failed` exactly when the engine
      reported it violated. */
  lemma AssertionHoldsIff(assertions: seq<InvariantAssertion>, file: string, e: EvaluationState, i: nat)
    requires AssertionEvaluations(assertions, file, Some(e)).Ok?
    requires i < |assertions|
    ensures Evaluated(assertions[i], e)
    ensures var r := AssertionEvaluations(assertions, file, Some(e)).value;
      var verdict := e.invariantEvaluations.Get(assertions[i].invariantId).value;
      i < |r| && r[i].assertion == assertions[i] &&
      (r[i].isOK <==>
        (assertions[i].expectedResult && verdict.InvariantValidation?) ||
        (!assertions[i].expectedResult && verdict.InvariantViolation?))
  {
    if exists j :: 0 <= j < |assertions| && !Evaluated(assertions[j], e) {
      var j := FirstMissing(assertions, e);
      AssertionEvaluationsFirstMissing(assertions, file, e, j);
    }
    AssertionEvaluationsAll(assertions, file, e);
  }

  /** The position of the first assertion without a result. */
  function FirstMissing(assertions: seq<InvariantAssertion>, e: EvaluationState): (j: nat)
    requires exists j :: 0 <= j < |assertions| && !Evaluated(assertions[j], e)
    ensures j < |assertions| && !Evaluated(assertions[j], e)
    ensures forall i :: 0 <= i < j ==> Evaluated(assertions[i], e)
  {
    if !Evaluated(assertions[0], e) then 0
    else
      assert exists j :: 0 <= j < |assertions[1..]| && !Evaluated(assertions[1..][j], e) by {
        var j :| 0 <= j < |assertions| && !Evaluated(assertions[j], e);
        assert assertions[1..][j - 1] == assertions[j];
      }
      1 + FirstMissing(assertions[1..], e)
  }

  /** An evaluation object of `objects` is in the state `values` gives for
      its file. */
  lemma MirrorsGet(objects: OrderedMap<string, ModelEvaluation>, values: OrderedMap<string, EvaluationState>, f: string)
    requires Mirrors(objects, values)
    ensures objects.Get(f).None? <==> values.Get(f).None?
    ensures objects.Get(f).Some? ==> values.Get(f) == Some(objects.Get(f).value.Snapshot())
  {
    OrderedMaps.SameKeysSameIndex(objects, values, f);
  }

  /** `__evaluateAssertionsForState(stateFile)` once the assertions of the
      file are extracted: the evaluation object is looked up again for
      each assertion, as the loop does. */
  method EvaluateAssertions(assertions: seq<InvariantAssertion>, file: string,
                            objects: OrderedMap<string, ModelEvaluation>, ghost values: OrderedMap<string, EvaluationState>)
    returns (r: Result<seq<InvariantAssertionEvaluation>>)
    requires Mirrors(objects, values)
    ensures r == AssertionEvaluations(assertions, file, values.Get(file))
  {
    MirrorsGet(objects, values, file);
    var found: seq<InvariantAssertionEvaluation> := [];
    var i := 0;
    while i < |assertions|
      invariant i <= |assertions| && |found| == i
      invariant i > 0 ==> values.Get(file).Some?
      invariant forall k :: 0 <= k < i ==>
        Evaluated(assertions[k], values.Get(file).value) &&
        found[k] == Assess(assertions[k], ActualResult(assertions[k], values.Get(file).value))
    {
      var a := assertions[i];
      var evaluation := objects.Get(file);
      if evaluation.None? {
        return Err(KeyError(file));
      }
      var e := values.Get(file).value;
      var verdict := evaluation.value.invariantEvaluations.Get(a.invariantId);
      if verdict.None? {
        AssertionEvaluationsFirstMissing(assertions, file, e, i);
        return Err(KeyError(IntToString(a.invariantId)));
      }
      found := found + [Assess(a, verdict.value.IsOK())];
      i := i + 1;
    }
    if |assertions| > 0 {
      AssertionEvaluationsAll(assertions, file, values.Get(file).value);
      assert found == AssertionEvaluations(assertions, file, values.Get(file)).value;
    }
    return Ok(found);
  }

  // All snapshots.

  /** A loop over the files storing each file's result under the file,
      stopping at the first failure. */
  function ByFile<V>(results: string -> Result<V>, files: seq<string>, acc: OrderedMap<string, V>): Result<OrderedMap<string, V>>
    decreases |files|
  {
    if files == [] then Ok(acc)
    else
      var v :- results(files[0]);
      ByFile(results, files[1..], acc.Put(files[0], v))
  }

  /** The fold fails exactly when some file's result does. */
  lemma {:induction false} ByFileOk<V>(results: string -> Result<V>, files: seq<string>, acc: OrderedMap<string, V>)
    ensures ByFile(results, files, acc).Ok? <==> forall f :: f in files ==> results(f).Ok?
    decreases |files|
  {
    if files != [] {
      var f := files[0];
      if results(f).Ok? {
        ByFileOk(results, files[1..], acc.Put(f, results(f).value));
      }
      assert forall g :: g in files <==> g == f || g in files[1..];
    }
  }

  lemma PutKeepsAbsent<V>(acc: OrderedMap<string, V>, f: string, v: V, files: seq<string>)
    requires files != [] && files[0] == f && f !in files[1..]
    requires forall g :: g in files ==> !acc.Contains(g)
    ensures forall g :: g in files[1..] ==> !acc.Put(f, v).Contains(g)
  {
    forall g | g in files[1..] ensures !acc.Put(f, v).Contains(g) {
      assert g in files && g != f;
      assert acc.Put(f, v).Get(g) == acc.Get(g);
    }
  }

  lemma ConsKeys(keys: seq<string>, files: seq<string>)
    requires files != []
    ensures keys + files == (keys + [files[0]]) + files[1..]
  {
    assert files == [files[0]] + files[1..];
  }

  /** A fold that succeeds adds one entry per file after the entries it
      started with. */
  lemma {:induction false} ByFileKeys<V>(results: string -> Result<V>, files: seq<string>, acc: OrderedMap<string, V>)
    requires Distinct(files) && forall f :: f in files ==> !acc.Contains(f)
    requires ByFile(results, files, acc).Ok?
    ensures ByFile(results, files, acc).value.Keys() == acc.Keys() + files
    decreases |files|
  {
    if files != [] {
      var f := files[0];
      DistinctTail(files);
      var acc' := acc.Put(f, results(f).value);
      PutKeepsAbsent(acc, f, results(f).value, files);
      ByFileKeys(results, files[1..], acc');
      assert acc'.Keys() == acc.Keys() + [f];
      ConsKeys(acc.Keys(), files);
    }
  }

  /** A fold that succeeds holds each file's result under the file, and
      the entries it started with under the other keys. */
  lemma {:induction false} ByFileGet<V>(results: string -> Result<V>, files: seq<string>, acc: OrderedMap<string, V>, g: string)
    requires Distinct(files)
    requires ByFile(results, files, acc).Ok?
    ensures g in files ==> results(g).Ok? && ByFile(results, files, acc).value.Get(g) == Some(results(g).value)
    ensures g !in files ==> ByFile(results, files, acc).value.Get(g) == acc.Get(g)
    decreases |files|
  {
    if files != [] {
      var f := files[0];
      DistinctTail(files);
      ByFileGet(results, files[1..], acc.Put(f, results(f).value), g);
      assert g in files <==> g == f || g in files[1..];
    }
  }

  /** `__evaluateAssertionsForState` for one file: its assertions judged
      against the evaluation of the file. */
  function FileResult(s: Store, m: Model, f: string, content: string -> string, values: OrderedMap<string, EvaluationState>)
    : Result<seq<InvariantAssertionEvaluation>>
  {
    var assertions :- ResolvedAssertions(s, m, f, ExtractAssertionStrings(content(f)));
    AssertionEvaluations(assertions, f, values.Get(f))
  }

  function FileResults(s: Store, m: Model, content: string -> string, values: OrderedMap<string, EvaluationState>)
    : string -> Result<seq<InvariantAssertionEvaluation>>
  {
    f => FileResult(s, m, f, content, values)
  }

  /** The assertion results of the files, by file: fails when the
      assertions of some file do, and then holds, for each file, the
      results of its own assertions. */
  function AssertionsByFile(s: Store, m: Model, files: seq<string>, content: string -> string,
                            values: OrderedMap<string, EvaluationState>)
    : Result<OrderedMap<string, seq<InvariantAssertionEvaluation>>>
  {
    ByFile(FileResults(s, m, content, values), files, Empty())
  }

  /** For distinct files, a result per file, in file order, each the
      results of that file's own assertions; an error exactly when some
      file's assertions fail. */
  lemma AssertionsByFileMeaning(s: Store, m: Model, files: seq<string>, content: string -> string,
                                values: OrderedMap<string, EvaluationState>)
    requires Distinct(files)
    ensures AssertionsByFile(s, m, files, content, values).Ok? <==>
      forall f :: f in files ==> FileResult(s, m, f, content, values).Ok?
    ensures var r := AssertionsByFile(s, m, files, content, values);
      r.Ok? ==> (r.value.Keys() == files &&
        forall f :: f in files ==> r.value.Get(f) == Some(FileResult(s, m, f, content, values).value))
  {
    var results := FileResults(s, m, content, values);
    ByFileOk(results, files, Empty());
    if ByFile(results, files, Empty()).Ok? {
      ByFileKeys(results, files, Empty());
      assert Empty<string, seq<InvariantAssertionEvaluation>>().Keys() + files == files;
      forall f | f in files
        ensures ByFile(results, files, Empty()).value.Get(f) == Some(FileResult(s, m, f, content, values).value)
      {
        ByFileGet(results, files, Empty(), f);
      }
    }
  }

  /** The loop of `__init__` over the state files, as intended. */
  method EvaluateAllAssertions(s: Store, m: Model, files: seq<string>, content: string -> string,
                               objects: OrderedMap<string, ModelEvaluation>, ghost values: OrderedMap<string, EvaluationState>)
    returns (r: Result<OrderedMap<string, seq<InvariantAssertionEvaluation>>>)
    requires Mirrors(objects, values)
    ensures r == AssertionsByFile(s, m, files, content, values)
  {
    var byFile: OrderedMap<string, seq<InvariantAssertionEvaluation>> := Empty();
    var i := 0;
    while i < |files|
      invariant i <= |files|
      invariant AssertionsByFile(s, m, files, content, values) == ByFile(FileResults(s, m, content, values), files[i..], byFile)
    {
      var f := files[i];
      assert files[i..][0] == f && files[i..][1..] == files[i + 1..];
      var assertions := ExtractAssertions(s, m, f, content(f));
      if assertions.Err? {
        return Err(assertions.error);
      }
      var evaluations := EvaluateAssertions(assertions.value, f, objects, values);
      if evaluations.Err? {
        return Err(evaluations.error);
      }
      byFile := byFile.Put(f, evaluations.value);
      i := i + 1;
    }
    return Ok(byFile);
  }

  // The summary.

  /** The evaluations that failed, in order. */
  function Failures(evaluations: seq<InvariantAssertionEvaluation>): (r: seq<InvariantAssertionEvaluation>)
    ensures forall ae :: ae in r <==> ae in evaluations && !ae.isOK
    ensures |r| <= |evaluations|
  {
    if evaluations == [] then []
    else (if evaluations[0].isOK then [] else [evaluations[0]]) + Failures(evaluations[1..])
  }

  /** `__buildSummmary`: the failed evaluations of every file, file after
      file. */
  function AssertionViolations(lists: seq<seq<InvariantAssertionEvaluation>>): seq<InvariantAssertionEvaluation> {
    if lists == [] then [] else Failures(lists[0]) + AssertionViolations(lists[1..])
  }

  /** `sum(map(len, ...))` */
  function TotalLength(lists: seq<seq<InvariantAssertionEvaluation>>): nat {
    if lists == [] then 0 else |lists[0]| + TotalLength(lists[1..])
  }

  /** The violations are exactly the failed evaluations of some file, and
      there are no more of them than evaluations. */
  lemma {:induction false} AssertionViolationsExactly(lists: seq<seq<InvariantAssertionEvaluation>>)
    ensures forall ae :: ae in AssertionViolations(lists) <==>
      !ae.isOK && exists j :: 0 <= j < |lists| && ae in lists[j]
    ensures |AssertionViolations(lists)| <= TotalLength(lists)
    decreases |lists|
  {
    if lists != [] {
      AssertionViolationsExactly(lists[1..]);
      forall ae ensures ae in AssertionViolations(lists) <==> !ae.isOK && exists j :: 0 <= j < |lists| && ae in lists[j] {
        if !ae.isOK && (exists j :: 0 <= j < |lists| && ae in lists[j]) {
          var j :| 0 <= j < |lists| && ae in lists[j];
          if j > 0 { assert lists[1..][j - 1] == lists[j]; }
        }
        if ae in AssertionViolations(lists[1..]) {
          var j :| 0 <= j < |lists[1..]| && ae in lists[1..][j];
          assert ae in lists[j + 1];
        }
      }
    }
  }

  /** The state of a `UseEvaluationAndAssertionResults` object: the
      evaluation it extends and the assertion results. */
  class UseEvaluationAndAssertionResults {
    const evaluation: UseEvaluationResults
    var assertionEvaluationsByStateFile: OrderedMap<string, seq<InvariantAssertionEvaluation>>
    var assertionViolations: seq<InvariantAssertionEvaluation>
    var nbOfAssertionViolations: nat
    var hasViolatedAssertions: bool
    var nbOfAssertionEvaluations: nat

    /** The end of `__init__`: the summary and the counts over the results
        by file. */
    constructor (evaluation: UseEvaluationResults, byFile: OrderedMap<string, seq<InvariantAssertionEvaluation>>)
      ensures this.evaluation == evaluation && assertionEvaluationsByStateFile == byFile
      ensures assertionViolations == AssertionViolations(byFile.Values())
      ensures nbOfAssertionViolations == |assertionViolations|
      ensures hasViolatedAssertions <==> nbOfAssertionViolations > 0
      ensures nbOfAssertionEvaluations == TotalLength(byFile.Values())
    {
      this.evaluation := evaluation;
      assertionEvaluationsByStateFile := byFile;
      assertionViolations := AssertionViolations(byFile.Values());
      nbOfAssertionViolations := |AssertionViolations(byFile.Values())|;
      hasViolatedAssertions := |AssertionViolations(byFile.Values())| > 0;
      nbOfAssertionEvaluations := TotalLength(byFile.Values());
    }
  }

  /** Some assertion of some file does not hold exactly when the results
      report a violated assertion. */
  lemma HasViolatedAssertionsIff(byFile: OrderedMap<string, seq<InvariantAssertionEvaluation>>)
    ensures |AssertionViolations(byFile.Values())| > 0 <==>
      exists j, k :: 0 <= j < |byFile.Values()| && 0 <= k < |byFile.Values()[j]| && !byFile.Values()[j][k].isOK
  {
    var lists := byFile.Values();
    AssertionViolationsExactly(lists);
    if |AssertionViolations(lists)| > 0 {
      var ae := AssertionViolations(lists)[0];
      assert ae in AssertionViolations(lists);
      var j :| 0 <= j < |lists| && ae in lists[j];
      var k :| 0 <= k < |lists[j]| && lists[j][k] == ae;
    }
    if exists j, k :: 0 <= j < |lists| && 0 <= k < |lists[j]| && !lists[j][k].isOK {
      var j, k :| 0 <= j < |lists| && 0 <= k < |lists[j]| && !lists[j][k].isOK;
      assert lists[j][k] in AssertionViolations(lists);
    }
  }

  /** What the assertion results are, from the files, the model and the
      batch run: nothing when the run is not correct, else the results of
      every file's assertions against the evaluations of the transcript. */
  function ExpectedAssertionResults(s: Store, m: Model, files: seq<string>, content: string -> string, run: EngineRun)
    : Result<OrderedMap<string, seq<InvariantAssertionEvaluation>>>
  {
    if |files| > 0 && run.exitCode == 0 then
      var values :- Evaluations(s, m, files, run.outAndErr);
      AssertionsByFile(s, m, files, content, values)
    else Ok(Empty())
  }

  /** `UseEvaluationAndAssertionResults(useOCLModel, stateFiles)` as
      written: once the evaluation is built, `self.wasExecutionValid` is
      read, and no class of the hierarchy sets it, so the constructor
      always raises. */
  method EvaluateWithAssertionsAsWritten(store: Store, model: Model, modelFile: string, soilFiles: StringList,
                                         content: string -> string, batch: seq<string> -> EngineRun)
    returns (r: Result<UseEvaluationAndAssertionResults>)
    modifies soilFiles
    ensures soilFiles.items == SkippingFilter(old(soilFiles.items), 0, EmptyIn(content)).0
    ensures r.Err?
    ensures r.error == if soilFiles.items != [] then AttributeError("checkSoilFileWithUSEModel")
      else AttributeError("wasExecutionValid")
  {
    var base := EvaluateAsWritten(store, model, modelFile, soilFiles, content, batch);
    if base.Err? {
      return Err(base.error);
    }
    return Err(AttributeError("wasExecutionValid"));
  }

  /** `UseEvaluationAndAssertionResults(useOCLModel, stateFiles)` with the
      assertions checked when the evaluation ran correctly (`isCorrect`),
      on top of the intended evaluation. */
  method EvaluateWithAssertions(store: Store, model: Model, modelFile: string, soilFiles: StringList,
                                content: string -> string, check: string -> EngineRun, batch: seq<string> -> EngineRun)
    returns (r: Result<UseEvaluationAndAssertionResults>)
    modifies soilFiles
    ensures soilFiles.items == CheckedFiles(old(soilFiles.items), content, check)
    ensures var files := soilFiles.items;
      r.Ok? <==> ExpectedAssertionResults(store, model, files, content, batch(files)).Ok?
    ensures var files := soilFiles.items;
      r.Ok? ==> r.value.assertionEvaluationsByStateFile == ExpectedAssertionResults(store, model, files, content, batch(files)).value
    ensures r.Ok? ==> r.value.evaluation.stateFiles == soilFiles
    ensures r.Ok? ==> r.value.assertionViolations == AssertionViolations(r.value.assertionEvaluationsByStateFile.Values())
    ensures r.Ok? ==> r.value.nbOfAssertionViolations == |r.value.assertionViolations|
    ensures r.Ok? ==> (r.value.hasViolatedAssertions <==> r.value.nbOfAssertionViolations > 0)
    ensures r.Ok? ==> r.value.nbOfAssertionEvaluations == TotalLength(r.value.assertionEvaluationsByStateFile.Values())
  {
    var base := Evaluate(store, model, modelFile, soilFiles, content, check, batch);
    if base.Err? {
      return Err(base.error);
    }
    var u := base.value;
    var byFile: OrderedMap<string, seq<InvariantAssertionEvaluation>> := Empty();
    if u.isCorrect {
      var files := soilFiles.items;
      ghost var values := Evaluations(store, model, files, batch(files).outAndErr).value;
      var all := EvaluateAllAssertions(store, model, files, content, u.modelEvaluationMap, values);
      if all.Err? {
        return Err(all.error);
      }
      byFile := all.value;
    }
    var t := new UseEvaluationAndAssertionResults(u, byFile);
    return Ok(t);
  }

  // Test suites packed as zip archives.

  const Protocols: seq<string> := ["http", "https", "ftp", "ftps"]

  /** `isZipRemote`: the archive is named by a URL of one of the four
      protocols. */
  predicate IsZipRemote(zipFileId: string) {
    exists p :: p in Protocols && StartsWith(zipFileId, p + "://")
  }

  /** A remote archive's name has `://` right after a protocol name of
      three to five letters, and conversely. */
  lemma ZipRemoteScheme(zipFileId: string)
    ensures IsZipRemote(zipFileId) <==>
      exists k :: 3 <= k <= 5 && OccursAt(zipFileId, "://", k) && zipFileId[..k] in Protocols
  {
    if IsZipRemote(zipFileId) {
      var p :| p in Protocols && StartsWith(zipFileId, p + "://");
      SchemeOfProtocol(zipFileId, p);
    }
    if exists k :: 3 <= k <= 5 && OccursAt(zipFileId, "://", k) && zipFileId[..k] in Protocols {
      var k :| 3 <= k <= 5 && OccursAt(zipFileId, "://", k) && zipFileId[..k] in Protocols;
      ProtocolOfScheme(zipFileId, k);
    }
  }

  lemma SchemeOfProtocol(zipFileId: string, p: string)
    requires p in Protocols && StartsWith(zipFileId, p + "://")
    ensures 3 <= |p| <= 5 && OccursAt(zipFileId, "://", |p|) && zipFileId[..|p|] in Protocols
  {
    var k := |p|;
    assert zipFileId[..k] == (p + "://")[..k] == p;
    assert zipFileId[k..k + 3] == (p + "://")[k..] == "://";
  }

  lemma ProtocolOfScheme(zipFileId: string, k: nat)
    requires OccursAt(zipFileId, "://", k) && zipFileId[..k] in Protocols
    ensures StartsWith(zipFileId, zipFileId[..k] + "://")
  {
    assert zipFileId[..k + 3] == zipFileId[..k] + "://";
  }

  /** The second half of `os.path.splitext`: from the last dot of the
      base name on, unless that dot only follows dots. */
  function Extension(path: string): (r: string)
    ensures r == [] || r[0] == '.'
  {
    var b := BaseName(path);
    b[|SplitExtRoot(b)|..]
  }

  /** A file stored as `<dir>/<name>.<ext>` has the extension `.<ext>`. */
  lemma ExtensionOf(dir: string, name: string, ext: string)
    requires name != [] && name[0] != '.' && '/' !in name
    requires '/' !in ext && '.' !in ext
    ensures Extension(dir + ("/" + (name + ("." + ext)))) == "." + ext
  {
    BaseNameOf(dir, name + ("." + ext));
    SplitExtRootOf(name, ext);
  }

  /** `_computeSelectEntry`: every entry when no extensions are given,
      else the entries with one of them. */
  predicate SelectEntry(extractOnly: Option<seq<string>>, entry: string) {
    extractOnly.None? || Extension(entry) in extractOnly.value
  }

  /** The default selection keeps exactly the model and snapshot files
      (see `ExtensionOf` for the extension of a path). */
  lemma DefaultSelection(entry: string, ext: string)
    requires Extension(entry) == "." + ext
    ensures SelectEntry(Some([".soil", ".use"]), entry) <==> ext == "soil" || ext == "use"
  {
    DefaultExtensions("." + ext, ext);
  }

  lemma DefaultExtensions(e: string, ext: string)
    requires e == "." + ext
    ensures e in [".soil", ".use"] <==> ext == "soil" || ext == "use"
  {
    assert ext == e[1..];
    assert e in [".soil", ".use"] <==> e == ".soil" || e == ".use";
    assert ".soil"[1..] == "soil" && ".use"[1..] == "use";
    if ext == "soil" { assert e == ".soil"; }
    if ext == "use" { assert e == ".use"; }
  }

  /** `os.path.isabs` on POSIX paths. */
  predicate IsAbsolute(path: string) {
    StartsWith(path, "/")
  }

  /** What `__extractZipFile` collects: the paths of the extracted
      entries, and the paths that are files, by extension. */
  datatype Extracted = Extracted(entries: seq<string>, filesByExtension: map<string, seq<string>>)

  /** `__extractZipEntry` once the entry is on disk at `expected`. */
  function RecordEntry(x: Extracted, entry: string, expected: string, isFile: bool): Extracted {
    var ext := Extension(entry);
    Extracted(
      x.entries + [expected],
      if isFile then x.filesByExtension[ext := (if ext in x.filesByExtension then x.filesByExtension[ext] else []) + [expected]]
      else x.filesByExtension)
  }

  /** Recording an entry lists its place under its extension when it is
      a file, and nothing else. */
  lemma RecordEntryFiles(x: Extracted, entry: string, expected: string, isFile: bool, ext: string, path: string)
    ensures var r := RecordEntry(x, entry, expected, isFile);
      (ext in r.filesByExtension && path in r.filesByExtension[ext]) <==>
      ((ext in x.filesByExtension && path in x.filesByExtension[ext]) || (isFile && Extension(entry) == ext && expected == path))
  {
  }

  /** The loop of `__extractZipFile` over the archive's entries, with the
      place each entry lands at (`normpath(join(directory, entry))`), the
      paths that exist after extraction and the paths that are files
      given. An absolute entry, or one that does not land where expected,
      raises `IOError`. */
  function ExtractEntries(zipFile: string, zipFileId: string, extractOnly: Option<seq<string>>, names: seq<string>,
                          place: string -> string, present: string -> bool, isFile: string -> bool, x: Extracted)
    : Result<Extracted>
    decreases |names|
  {
    if names == [] then Ok(x)
    else
      var entry := names[0];
      if IsAbsolute(entry) then Err(IOError("ERROR: " + zipFile + " contains absolute files"))
      else if !SelectEntry(extractOnly, entry) then
        ExtractEntries(zipFile, zipFileId, extractOnly, names[1..], place, present, isFile, x)
      else if !present(place(entry)) then
        Err(IOError("Cannot extract " + entry + " from " + zipFileId + " keeping this name"))
      else
        ExtractEntries(zipFile, zipFileId, extractOnly, names[1..], place, present, isFile,
          RecordEntry(x, entry, place(entry), isFile(place(entry))))
  }

  /** The files listed under an extension are the places of the selected
      entries of that extension that are files, and only those. */
  lemma {:induction false} ExtractEntriesFiles(zipFile: string, zipFileId: string, extractOnly: Option<seq<string>>,
                                               names: seq<string>, place: string -> string, present: string -> bool,
                                               isFile: string -> bool, x: Extracted, ext: string, path: string)
    requires ExtractEntries(zipFile, zipFileId, extractOnly, names, place, present, isFile, x).Ok?
    ensures var r := ExtractEntries(zipFile, zipFileId, extractOnly, names, place, present, isFile, x).value;
      (ext in r.filesByExtension && path in r.filesByExtension[ext]) <==>
      ((ext in x.filesByExtension && path in x.filesByExtension[ext]) || ListedEntry(extractOnly, names, place, isFile, ext, path))
    decreases |names|
  {
    if names != [] {
      var entry := names[0];
      var rest := names[1..];
      var selected := SelectEntry(extractOnly, entry);
      var x' := if selected then RecordEntry(x, entry, place(entry), isFile(place(entry))) else x;
      assert ExtractEntries(zipFile, zipFileId, extractOnly, names, place, present, isFile, x) ==
        ExtractEntries(zipFile, zipFileId, extractOnly, rest, place, present, isFile, x');
      ExtractEntriesFiles(zipFile, zipFileId, extractOnly, rest, place, present, isFile, x', ext, path);
      if selected {
        RecordEntryFiles(x, entry, place(entry), isFile(place(entry)), ext, path);
      }
      ListedEntryCons(extractOnly, names, place, isFile, ext, path);
    }
  }

  /** A selected entry of the archive of extension `ext` lands at `path`,
      which is a file. */
  predicate ListedEntry(extractOnly: Option<seq<string>>, names: seq<string>, place: string -> string,
                        isFile: string -> bool, ext: string, path: string) {
    exists e :: e in names && SelectEntry(extractOnly, e) && Extension(e) == ext && place(e) == path && isFile(path)
  }

  lemma ListedEntryCons(extractOnly: Option<seq<string>>, names: seq<string>, place: string -> string,
                        isFile: string -> bool, ext: string, path: string)
    requires names != []
    ensures ListedEntry(extractOnly, names, place, isFile, ext, path) <==>
      (SelectEntry(extractOnly, names[0]) && Extension(names[0]) == ext && place(names[0]) == path && isFile(path)) ||
      ListedEntry(extractOnly, names[1..], place, isFile, ext, path)
  {
    if ListedEntry(extractOnly, names, place, isFile, ext, path) {
      var e :| e in names && SelectEntry(extractOnly, e) && Extension(e) == ext && place(e) == path && isFile(path);
      if e != names[0] { assert e in names[1..]; }
    }
    if ListedEntry(extractOnly, names[1..], place, isFile, ext, path) {
      var e :| e in names[1..] && SelectEntry(extractOnly, e) && Extension(e) == ext && place(e) == path && isFile(path);
      assert e in names;
    }
  }

  /** `_computeUseFile`: the one `.use` file of the archive. */
  function ComputeUseFile(filesByExtension: map<string, seq<string>>): (r: Result<string>)
    ensures r.Ok? <==> ".use" in filesByExtension && |filesByExtension[".use"]| == 1
    ensures r.Ok? ==> filesByExtension[".use"] == [r.value]
    ensures ".use" !in filesByExtension ==> r == Err(KeyError(".use"))
  {
    if ".use" !in filesByExtension then Err(KeyError(".use"))
    else
      var useFiles := filesByExtension[".use"];
      if |useFiles| == 1 then Ok(useFiles[0])
      else Err(RaisedException("More than one .use file: " + ListRepr(useFiles)))
  }

  /** `_computeStateFiles`: the `.soil` files of the archive. */
  function ComputeStateFiles(filesByExtension: map<string, seq<string>>): (r: Result<seq<string>>)
    ensures r.Ok? <==> ".soil" in filesByExtension
    ensures r.Ok? ==> r.value == filesByExtension[".soil"]
  {
    if ".soil" in filesByExtension then Ok(filesByExtension[".soil"]) else Err(KeyError(".soil"))
  }

  /** The model file and the snapshot files a zip test suite evaluates
      were entries of the archive with those extensions. */
  lemma SuiteFilesFromArchive(zipFile: string, zipFileId: string, extractOnly: Option<seq<string>>, names: seq<string>,
                              place: string -> string, present: string -> bool, isFile: string -> bool)
    requires ExtractEntries(zipFile, zipFileId, extractOnly, names, place, present, isFile, Extracted([], map[])).Ok?
    ensures var x := ExtractEntries(zipFile, zipFileId, extractOnly, names, place, present, isFile, Extracted([], map[])).value;
      ComputeUseFile(x.filesByExtension).Ok? ==>
        ListedEntry(extractOnly, names, place, isFile, ".use", ComputeUseFile(x.filesByExtension).value)
    ensures var x := ExtractEntries(zipFile, zipFileId, extractOnly, names, place, present, isFile, Extracted([], map[])).value;
      ComputeStateFiles(x.filesByExtension).Ok? ==>
        forall p :: p in ComputeStateFiles(x.filesByExtension).value ==>
          ListedEntry(extractOnly, names, place, isFile, ".soil", p)
  {
    var x := ExtractEntries(zipFile, zipFileId, extractOnly, names, place, present, isFile, Extracted([], map[])).value;
    if ComputeUseFile(x.filesByExtension).Ok? {
      var p := ComputeUseFile(x.filesByExtension).value;
      assert p in x.filesByExtension[".use"];
      ExtractEntriesFiles(zipFile, zipFileId, extractOnly, names, place, present, isFile, Extracted([], map[]), ".use", p);
    }
    if ComputeStateFiles(x.filesByExtension).Ok? {
      forall p | p in ComputeStateFiles(x.filesByExtension).value
        ensures ListedEntry(extractOnly, names, place, isFile, ".soil", p)
      {
        ExtractEntriesFiles(zipFile, zipFileId, extractOnly, names, place, present, isFile, Extracted([], map[]), ".soil", p);
      }
    }
  }

  /** The directory `__extractZipFile` extracts to, as written: a fresh
      temporary directory (`tempDir`), or the target directory, which is
      refused when it is a directory. */
  function ExtractionDirectoryAsWritten(targetDirectory: Option<string>, isDir: bool, tempDir: string): (r: Result<string>)
  {
    if targetDirectory.None? then Ok(tempDir)
    else if isDir then Err(IOError("ERROR: " + targetDirectory.value + " is not a directory"))
    else Ok(targetDirectory.value)
  }

  /** As written, an existing target directory is always refused, with a
      message saying it is not one. */
  lemma ExistingTargetRefused(dir: string, tempDir: string)
    ensures ExtractionDirectoryAsWritten(Some(dir), true, tempDir) == Err(IOError("ERROR: " + dir + " is not a directory"))
    ensures ExtractionDirectoryAsWritten(Some(dir), false, tempDir) == Ok(dir)
  {
  }

  /** The directory as the message means it: a target that is not a
      directory is refused. */
  function ExtractionDirectory(targetDirectory: Option<string>, isDir: bool, tempDir: string): (r: Result<string>)
    ensures targetDirectory.None? ==> r == Ok(tempDir)
    ensures targetDirectory.Some? ==> (r.Ok? <==> isDir)
    ensures r.Ok? && targetDirectory.Some? ==> r.value == targetDirectory.value
    ensures r.Err? ==> r.error == IOError("ERROR: " + targetDirectory.value + " is not a directory")
  {
    if targetDirectory.None? then Ok(tempDir)
    else if !isDir then Err(IOError("ERROR: " + targetDirectory.value + " is not a directory"))
    else Ok(targetDirectory.value)
  }

  /** The state of a `ZipTestSuite` object once its archive is read. */
  class ZipTestSuite {
    const zipFileId: string
    const extractOnly: Option<seq<string>>
    var isZipRemote: bool
    var zipFile: string
    var directory: string
    var entries: seq<string>
    var filesByExtension: map<string, seq<string>>

    constructor (zipFileId: string, extractOnly: Option<seq<string>>)
      ensures this.zipFileId == zipFileId && this.extractOnly == extractOnly
      ensures entries == [] && filesByExtension == map[] && !isZipRemote
    {
      this.zipFileId := zipFileId;
      this.extractOnly := extractOnly;
      isZipRemote := false;
      zipFile := "";
      directory := "";
      entries := [];
      filesByExtension := map[];
    }

    /** `_computeZipFile`: a remote archive is downloaded to `download`. */
    method ComputeZipFile(download: string)
      modifies this
      ensures isZipRemote == IsZipRemote(zipFileId)
      ensures zipFile == if isZipRemote then download else zipFileId
      ensures directory == old(directory) && entries == old(entries) && filesByExtension == old(filesByExtension)
    {
      isZipRemote := IsZipRemote(zipFileId);
      if isZipRemote {
        zipFile := download;
      } else {
        zipFile := zipFileId;
      }
    }

    /** `__extractZipFile` once the directory is chosen and the archive is
        known to be sound: the entries, one at a time. */
    method ExtractZipFile(directory: string, names: seq<string>, place: string -> string,
                          present: string -> bool, isFile: string -> bool)
      returns (error: Option<PyError>)
      modifies this
      ensures this.directory == directory && zipFile == old(zipFile) && isZipRemote == old(isZipRemote)
      ensures var r := ExtractEntries(zipFile, zipFileId, extractOnly, names, place, present, isFile,
                                      Extracted(old(entries), old(filesByExtension)));
        (error.None? <==> r.Ok?) &&
        (r.Ok? ==> entries == r.value.entries && filesByExtension == r.value.filesByExtension) &&
        (r.Err? ==> error == Some(r.error))
    {
      this.directory := directory;
      ghost var start := Extracted(entries, filesByExtension);
      var i := 0;
      while i < |names|
        invariant i <= |names|
        invariant ExtractEntries(zipFile, zipFileId, extractOnly, names, place, present, isFile, start) ==
          ExtractEntries(zipFile, zipFileId, extractOnly, names[i..], place, present, isFile, Extracted(entries, filesByExtension))
        invariant this.directory == directory && zipFile == old(zipFile) && isZipRemote == old(isZipRemote)
      {
        var entry := names[i];
        assert names[i..][0] == entry && names[i..][1..] == names[i + 1..];
        if IsAbsolute(entry) {
          return Some(IOError("ERROR: " + zipFile + " contains absolute files"));
        }
        if SelectEntry(extractOnly, entry) {
          var expected := place(entry);
          if !present(expected) {
            return Some(IOError("Cannot extract " + entry + " from " + zipFileId + " keeping this name"));
          }
          var x := RecordEntry(Extracted(entries, filesByExtension), entry, expected, isFile(expected));
          entries := x.entries;
          filesByExtension := x.filesByExtension;
        }
        i := i + 1;
      }
      return None;
    }
  }
}
