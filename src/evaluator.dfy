/** `UseEvaluationResults` in `pyalaocl/useocl/evaluator.py`: the
    evaluation of a list of snapshot files against a model. Empty and
    erroneous files are filtered out, the remaining ones are checked in
    one batch, and the batch transcript is turned into one
    `ModelEvaluation` per snapshot.

    The USE tool is not part of this model: each of its runs is a
    parameter giving the exit code and the text it wrote, and the files'
    contents are a parameter too. */
module Evaluator {
  import opened Wrappers
  import opened Text
  import opened OrderedMaps
  import opened UseModel
  import opened Transcript
  import opened CheckBlocks
  import opened Evaluation
  import Soil
  import UseEngine

  /** What one run of the USE tool reports: its exit code, what it wrote
      on the error stream, and both streams together. */
  datatype EngineRun = EngineRun(exitCode: int, err: string, outAndErr: string)

  // Filtering the snapshot files.

  /** `list.remove(x)`: the list without the first occurrence of `x`
      (callers only remove elements the list holds). */
  function RemoveFirst(s: seq<string>, x: string): (r: seq<string>)
    ensures x !in s ==> r == s
    ensures |r| <= |s|
  {
    if s == [] then []
    else if s[0] == x then s[1..]
    else [s[0]] + RemoveFirst(s[1..], x)
  }

  lemma {:induction false} RemoveFirstAt(p: seq<string>, x: string, q: seq<string>)
    requires x !in p
    ensures RemoveFirst(p + ([x] + q), x) == p + q
  {
    if p != [] {
      RemoveFirstAt(p[1..], x, q);
      assert (p + ([x] + q))[1..] == p[1..] + ([x] + q);
      assert p + q == [p[0]] + (p[1..] + q);
    }
  }

  /** The files not dropped, in order. */
  function Keep(files: seq<string>, drop: string -> bool): seq<string> {
    if files == [] then []
    else (if drop(files[0]) then [] else [files[0]]) + Keep(files[1..], drop)
  }

  /** The files dropped, in order. */
  function Dropped(files: seq<string>, drop: string -> bool): seq<string> {
    if files == [] then []
    else (if drop(files[0]) then [files[0]] else []) + Dropped(files[1..], drop)
  }

  /** A file is kept exactly when it is listed and not dropped, and
      dropped exactly when it is listed and dropped. */
  lemma {:induction false} KeepMembers(files: seq<string>, drop: string -> bool, f: string)
    ensures f in Keep(files, drop) <==> f in files && !drop(f)
    ensures f in Dropped(files, drop) <==> f in files && drop(f)
  {
    if files != [] {
      KeepMembers(files[1..], drop, f);
      assert files == [files[0]] + files[1..];
    }
  }

  lemma {:induction false} KeepAppend(s: seq<string>, x: string, drop: string -> bool)
    ensures Keep(s + [x], drop) == Keep(s, drop) + (if drop(x) then [] else [x])
  {
    if s == [] {
      assert s + [x] == [x];
    } else {
      KeepAppend(s[1..], x, drop);
      assert (s + [x])[1..] == s[1..] + [x];
    }
  }

  lemma {:induction false} DroppedAppend(s: seq<string>, x: string, drop: string -> bool)
    ensures Dropped(s + [x], drop) == Dropped(s, drop) + (if drop(x) then [x] else [])
  {
    if s == [] {
      assert s + [x] == [x];
    } else {
      DroppedAppend(s[1..], x, drop);
      assert (s + [x])[1..] == s[1..] + [x];
    }
  }

  /** One step of a filter that visits a list in order and removes each
      dropped file from the list of what is left: `s` was visited before,
      `x` is visited now. */
  lemma FilterStep(s: seq<string>, x: string, t: seq<string>, drop: string -> bool)
    ensures var rest := Keep(s, drop) + ([x] + t);
      (if drop(x) then RemoveFirst(rest, x) else rest) == Keep(s + [x], drop) + t
  {
    KeepAppend(s, x, drop);
    if drop(x) {
      KeepMembers(s, drop, x);
      RemoveFirstAt(Keep(s, drop), x, t);
    } else {
      assert Keep(s, drop) + ([x] + t) == (Keep(s, drop) + [x]) + t;
    }
  }

  /** The same step, on the `i`-th file of the list visited. */
  lemma SeparateStep(files: seq<string>, i: nat, drop: string -> bool)
    requires i < |files|
    ensures var rest := Keep(files[..i], drop) + files[i..];
      (if drop(files[i]) then RemoveFirst(rest, files[i]) else rest) == Keep(files[..i + 1], drop) + files[i + 1..]
    ensures Dropped(files[..i + 1], drop) == Dropped(files[..i], drop) + (if drop(files[i]) then [files[i]] else [])
  {
    var s, x, t := files[..i], files[i], files[i + 1..];
    assert files[..i + 1] == s + [x];
    assert files[i..] == [x] + t;
    FilterStep(s, x, t, drop);
    DroppedAppend(s, x, drop);
  }

  /** Filtering splits the files: each one is either kept or dropped. */
  lemma {:induction false} KeepPartition(files: seq<string>, drop: string -> bool)
    ensures multiset(Keep(files, drop)) + multiset(Dropped(files, drop)) == multiset(files)
  {
    if files != [] {
      KeepPartition(files[1..], drop);
      assert files == [files[0]] + files[1..];
    }
  }

  /** The files whose text is an empty snapshot file. */
  function EmptyIn(content: string -> string): string -> bool {
    f => Soil.IsEmptySoilFile(content(f))
  }

  /** `__filterNonEmptyStateFiles` as written: it removes files from the
      list it is iterating over. Python's list iterator keeps an index, so
      after a removal the next file moves into the slot just visited and
      is never examined. Returns the files left and the files removed. */
  function SkippingFilter(files: seq<string>, i: nat, drop: string -> bool): (seq<string>, seq<string>)
    decreases if i < |files| then |files| - i else 0
  {
    if i >= |files| then (files, [])
    else if drop(files[i]) then
      var (kept, removed) := SkippingFilter(RemoveFirst(files, files[i]), i + 1, drop);
      (kept, [files[i]] + removed)
    else SkippingFilter(files, i + 1, drop)
  }

  /** Every file holds the empty text. */
  function NoText(file: string): string {
    ""
  }

  /** Two empty snapshot files in a row: the second one is kept. */
  lemma SkippingFilterKeepsEmptyFile()
    ensures SkippingFilter(["a.soil", "b.soil"], 0, EmptyIn(NoText)) == (["b.soil"], ["a.soil"])
    ensures Soil.IsEmptySoilFile(NoText("b.soil"))
  {
    Soil.EmptyTextIsEmptySoilFile();
    var drop := EmptyIn(NoText);
    var files := ["a.soil", "b.soil"];
    assert NoText(files[0]) == "";
    assert drop(files[0]) == Soil.IsEmptySoilFile(NoText(files[0]));
    assert RemoveFirst(files, files[0]) == ["b.soil"];
    assert SkippingFilter(["b.soil"], 1, drop) == (["b.soil"], []);
    assert SkippingFilter(files, 0, drop) == (["b.soil"], [files[0]] + []);
    assert [files[0]] + [] == ["a.soil"];
  }

  /** Files before the visited slot never change while the loop runs
      over a list without repeated names. */
  lemma {:induction false} SkippingFilterKeepsPrefix(files: seq<string>, i: nat, drop: string -> bool)
    requires i <= |files| && Distinct(files)
    ensures |SkippingFilter(files, i, drop).0| >= i
    ensures SkippingFilter(files, i, drop).0[..i] == files[..i]
    decreases |files| - i
  {
    if i < |files| && drop(files[i]) {
      var rest := files[..i] + files[i + 1..];
      RemoveAt(files, i);
      DistinctRemoveAt(files, i);
      assert SkippingFilter(files, i, drop).0 == SkippingFilter(rest, i + 1, drop).0;
      if i + 1 <= |rest| {
        SkippingFilterKeepsPrefix(rest, i + 1, drop);
        assert rest[..i + 1][..i] == files[..i];
      } else {
        assert rest[..i] == files[..i];
      }
    } else if i < |files| {
      assert SkippingFilter(files, i, drop) == SkippingFilter(files, i + 1, drop);
      SkippingFilterKeepsPrefix(files, i + 1, drop);
      assert files[..i + 1][..i] == files[..i];
    }
  }

  /** Removing the file in slot `i` of a list without repeated names. */
  lemma RemoveAt(files: seq<string>, i: nat)
    requires i < |files| && Distinct(files)
    ensures RemoveFirst(files, files[i]) == files[..i] + files[i + 1..]
  {
    assert files == files[..i] + ([files[i]] + files[i + 1..]);
    RemoveFirstAt(files[..i], files[i], files[i + 1..]);
  }

  lemma DistinctRemoveAt(files: seq<string>, i: nat)
    requires i < |files| && Distinct(files)
    ensures Distinct(files[..i] + files[i + 1..])
  {
    var rest := files[..i] + files[i + 1..];
    forall a, b | 0 <= a < b < |rest| ensures rest[a] != rest[b] {
      var a' := if a < i then a else a + 1;
      var b' := if b < i then b else b + 1;
      assert rest[a] == files[a'] && rest[b] == files[b'];
    }
  }

  /** The loop as written passes over the files in front of the first one
      it removes. */
  lemma {:induction false} SkippingFilterFrom(files: seq<string>, k: nat, i: nat, drop: string -> bool)
    requires k <= i <= |files|
    requires forall j :: k <= j < i ==> !drop(files[j])
    ensures SkippingFilter(files, k, drop) == SkippingFilter(files, i, drop)
    decreases i - k
  {
    if k < i {
      SkippingFilterFrom(files, k + 1, i, drop);
    }
  }

  /** Whenever the loop as written removes a file, the file right after
      it is never examined and stays in the list, whether it is empty or
      not. */
  lemma FileAfterRemovalKept(files: seq<string>, i: nat, drop: string -> bool)
    requires i + 1 < |files| && Distinct(files)
    requires forall j :: 0 <= j < i ==> !drop(files[j])
    requires drop(files[i])
    ensures var left := SkippingFilter(files, 0, drop).0;
      i < |left| && left[i] == files[i + 1] && files[i] !in left[..i + 1]
  {
    SkippingFilterFrom(files, 0, i, drop);
    var rest := files[..i] + files[i + 1..];
    RemoveAt(files, i);
    DistinctRemoveAt(files, i);
    SkippingFilterKeepsPrefix(rest, i + 1, drop);
    var left := SkippingFilter(files, 0, drop).0;
    assert left == SkippingFilter(rest, i + 1, drop).0;
    assert left[..i + 1] == rest[..i + 1];
    assert left[i] == rest[..i + 1][i] == files[i + 1];
    assert forall j :: 0 <= j < i ==> left[..i + 1][j] == files[j];
  }

  /** `check` reports an error for a file: a non-zero exit code or
      anything written on the error stream. */
  predicate Fails(run: EngineRun) {
    run.exitCode != 0 || run.err != ""
  }

  function FailingIn(check: string -> EngineRun): string -> bool {
    f => Fails(check(f))
  }

  /** The error text recorded for an erroneous file. */
  function ErrorReport(run: EngineRun): string {
    if run.exitCode != 0 then "USE exit with code " + IntToString(run.exitCode) + "\n" + run.err
    else run.err
  }

  /** `erroneousStateFilesMap` after visiting `files` in order. */
  function ErrorsOf(files: seq<string>, check: string -> EngineRun, acc: OrderedMap<string, string>): OrderedMap<string, string> {
    if files == [] then acc
    else
      var f := files[0];
      ErrorsOf(files[1..], check, if Fails(check(f)) then acc.Put(f, ErrorReport(check(f))) else acc)
  }

  /** A file has an error recorded exactly when it had one before or its
      own check fails; the text recorded for a failing file is the report
      of its check, and a file not visited keeps what it had. */
  lemma {:induction false} ErrorsOfMeaning(files: seq<string>, check: string -> EngineRun, acc: OrderedMap<string, string>, f: string)
    ensures ErrorsOf(files, check, acc).Contains(f) <==> acc.Contains(f) || (f in files && Fails(check(f)))
    ensures f in files && Fails(check(f)) ==> ErrorsOf(files, check, acc).Get(f) == Some(ErrorReport(check(f)))
    ensures f !in files ==> ErrorsOf(files, check, acc).Get(f) == acc.Get(f)
  {
    if files != [] {
      var g := files[0];
      var acc' := if Fails(check(g)) then acc.Put(g, ErrorReport(check(g))) else acc;
      ErrorsOfMeaning(files[1..], check, acc', f);
      assert files == [g] + files[1..];
      assert acc'.Contains(f) <==> acc'.Get(f).Some?;
      assert acc.Contains(f) <==> acc.Get(f).Some?;
    }
  }

  lemma ErrorsStep(files: seq<string>, i: nat, check: string -> EngineRun, acc: OrderedMap<string, string>)
    requires i < |files|
    ensures var f := files[i];
      ErrorsOf(files[i..], check, acc) ==
      ErrorsOf(files[i + 1..], check, if Fails(check(f)) then acc.Put(f, ErrorReport(check(f))) else acc)
  {
    assert files[i..][1..] == files[i + 1..];
  }

  // From the transcript to the evaluations.

  /** `int(...)`: the number written, or `ValueError`. */
  function ParseCount(s: string): (r: Result<int>)
    ensures r.Ok? <==> ParseInt(s).Some?
    ensures IsDigits(s) ==> r == Ok(DigitsValue(s))
  {
    match ParseInt(s)
    case Some(n) => Ok(n)
    case None => Err(ValueError(s))
  }

  /** A multiplicity violation names a role the model has and a number. */
  predicate CardinalityResolves(s: Store, m: Model, b: MultiplicityViolation) {
    FindRoleKey(s, m, b.association, b.role).Ok? && ParseInt(b.numberOfObjects).Some?
  }

  /** `__buildCardinalityViolation` for each block in order. */
  function WithCardinalities(s: Store, m: Model, e: EvaluationState, blocks: seq<MultiplicityViolation>): (r: Result<EvaluationState>)
    decreases blocks
    ensures r.Ok? <==> forall i :: 0 <= i < |blocks| ==> CardinalityResolves(s, m, blocks[i])
  {
    if blocks == [] then Ok(e)
    else
      var b := blocks[0];
      var role :- FindRoleKey(s, m, b.association, b.role);
      var n :- ParseCount(b.numberOfObjects);
      var v := CardinalityViolation(role, None, n);
      var r := WithCardinalities(s, m, e.(cardinalityViolations := WithCardinalityViolation(e.cardinalityViolations, v)), blocks[1..]);
      assert r.Ok? ==> CardinalityResolves(s, m, b);
      r
  }

  /** The multiplicity blocks add one cardinality violation each and
      leave the rest of the evaluation as it was. */
  lemma {:induction false} WithCardinalitiesAdds(s: Store, m: Model, e: EvaluationState, blocks: seq<MultiplicityViolation>)
    decreases blocks
    ensures var r := WithCardinalities(s, m, e, blocks);
      r.Ok? ==>
        r.value.state == e.state && r.value.kind == e.kind && r.value.invariantEvaluations == e.invariantEvaluations &&
        Total(r.value.cardinalityViolations.items) == Total(e.cardinalityViolations.items) + |blocks|
  {
    if blocks != [] {
      var b := blocks[0];
      var role := FindRoleKey(s, m, b.association, b.role);
      var n := ParseCount(b.numberOfObjects);
      if role.Ok? && n.Ok? {
        var v := CardinalityViolation(role.value, None, n.value);
        CardinalityViolationStored(e.cardinalityViolations, v);
        WithCardinalitiesAdds(s, m, e.(cardinalityViolations := WithCardinalityViolation(e.cardinalityViolations, v)), blocks[1..]);
      }
    }
  }

  predicate InvariantResolves(s: Store, m: Model, c: InvariantCheck) {
    FindInvariant(s, m, c.className, c.invariantName).Ok?
  }

  /** The invariant a check line names. */
  function InvariantOf(s: Store, m: Model, c: InvariantCheck): InvariantId
    requires InvariantResolves(s, m, c)
  {
    FindInvariant(s, m, c.className, c.invariantName).value
  }

  /** No stored violation keeps any violating object. */
  predicate ObjectsDiscarded(evaluations: OrderedMap<InvariantId, InvariantEvaluation>) {
    forall x :: x in evaluations.items && x.1.InvariantViolation? ==> x.1.violatingObjects == []
  }

  /** `__buildInvariantViolation` for each FAILED block in order: the
      objects the block lists are parsed but the violation is stored with
      none. */
  function WithViolations(s: Store, m: Model, e: EvaluationState, kos: seq<FailedInvariant>): (r: Result<EvaluationState>)
    decreases kos
    ensures r.Ok? <==> forall i :: 0 <= i < |kos| ==> InvariantResolves(s, m, kos[i].check)
    ensures r.Ok? ==> r.value.state == e.state && r.value.kind == e.kind
    ensures r.Ok? ==> r.value.cardinalityViolations == e.cardinalityViolations
  {
    if kos == [] then Ok(e)
    else
      var c := kos[0].check;
      var inv :- FindInvariant(s, m, c.className, c.invariantName);
      var r := WithViolations(s, m, e.(invariantEvaluations := e.invariantEvaluations.Put(inv, InvariantViolation(inv, []))), kos[1..]);
      assert r.Ok? ==> InvariantResolves(s, m, c);
      r
  }

  /** The invariants the FAILED blocks name. */
  function ViolatedIds(s: Store, m: Model, kos: seq<FailedInvariant>): set<InvariantId> {
    set i | 0 <= i < |kos| && InvariantResolves(s, m, kos[i].check) :: InvariantOf(s, m, kos[i].check)
  }

  /** The invariants the OK lines name. */
  function ValidatedIds(s: Store, m: Model, oks: seq<InvariantCheck>): set<InvariantId> {
    set i | 0 <= i < |oks| && InvariantResolves(s, m, oks[i]) :: InvariantOf(s, m, oks[i])
  }

  lemma ViolatedIdsCons(s: Store, m: Model, kos: seq<FailedInvariant>)
    requires kos != [] && InvariantResolves(s, m, kos[0].check)
    ensures ViolatedIds(s, m, kos) == {InvariantOf(s, m, kos[0].check)} + ViolatedIds(s, m, kos[1..])
  {
    assert forall i :: 1 <= i < |kos| ==> kos[i] == kos[1..][i - 1];
  }

  lemma ValidatedIdsCons(s: Store, m: Model, oks: seq<InvariantCheck>)
    requires oks != [] && InvariantResolves(s, m, oks[0])
    ensures ValidatedIds(s, m, oks) == {InvariantOf(s, m, oks[0])} + ValidatedIds(s, m, oks[1..])
  {
    assert forall i :: 1 <= i < |oks| ==> oks[i] == oks[1..][i - 1];
  }

  /** After the FAILED blocks, an invariant one of them names is violated
      with no object, and any other keeps what it had. */
  lemma {:induction false} WithViolationsStores(s: Store, m: Model, e: EvaluationState, kos: seq<FailedInvariant>, k: InvariantId)
    decreases kos
    ensures var r := WithViolations(s, m, e, kos);
      r.Ok? ==>
        r.value.invariantEvaluations.Get(k) ==
        (if k in ViolatedIds(s, m, kos) then Some(InvariantViolation(k, [])) else e.invariantEvaluations.Get(k))
  {
    if kos != [] && InvariantResolves(s, m, kos[0].check) {
      var inv := InvariantOf(s, m, kos[0].check);
      ViolatedIdsCons(s, m, kos);
      WithViolationsStores(s, m, e.(invariantEvaluations := e.invariantEvaluations.Put(inv, InvariantViolation(inv, []))), kos[1..], k);
    }
  }

  /** After the OK lines, an invariant one of them names is validated, and
      any other keeps what it had. */
  lemma {:induction false} WithValidationsStores(s: Store, m: Model, e: EvaluationState, oks: seq<InvariantCheck>, k: InvariantId)
    decreases oks
    ensures var r := WithValidations(s, m, e, oks);
      r.Ok? ==>
        r.value.invariantEvaluations.Get(k) ==
        (if k in ValidatedIds(s, m, oks) then Some(InvariantValidation(k)) else e.invariantEvaluations.Get(k))
  {
    if oks != [] && InvariantResolves(s, m, oks[0]) {
      var inv := InvariantOf(s, m, oks[0]);
      ValidatedIdsCons(s, m, oks);
      WithValidationsStores(s, m, e.(invariantEvaluations := e.invariantEvaluations.Put(inv, InvariantValidation(inv))), oks[1..], k);
    }
  }

  /** Storing a validation, or a violation with no object, keeps every
      stored violation free of objects. */
  lemma PutKeepsObjectsDiscarded(evaluations: OrderedMap<InvariantId, InvariantEvaluation>, k: InvariantId, v: InvariantEvaluation)
    requires ObjectsDiscarded(evaluations)
    requires v.InvariantViolation? ==> v.violatingObjects == []
    ensures ObjectsDiscarded(evaluations.Put(k, v))
  {
  }

  lemma {:induction false} WithViolationsDiscards(s: Store, m: Model, e: EvaluationState, kos: seq<FailedInvariant>)
    decreases kos
    requires ObjectsDiscarded(e.invariantEvaluations)
    ensures var r := WithViolations(s, m, e, kos);
      r.Ok? ==> ObjectsDiscarded(r.value.invariantEvaluations)
  {
    if kos != [] && InvariantResolves(s, m, kos[0].check) {
      var inv := InvariantOf(s, m, kos[0].check);
      PutKeepsObjectsDiscarded(e.invariantEvaluations, inv, InvariantViolation(inv, []));
      WithViolationsDiscards(s, m, e.(invariantEvaluations := e.invariantEvaluations.Put(inv, InvariantViolation(inv, []))), kos[1..]);
    }
  }

  lemma {:induction false} WithValidationsDiscards(s: Store, m: Model, e: EvaluationState, oks: seq<InvariantCheck>)
    decreases oks
    requires ObjectsDiscarded(e.invariantEvaluations)
    ensures var r := WithValidations(s, m, e, oks);
      r.Ok? ==> ObjectsDiscarded(r.value.invariantEvaluations)
  {
    if oks != [] && InvariantResolves(s, m, oks[0]) {
      var inv := InvariantOf(s, m, oks[0]);
      PutKeepsObjectsDiscarded(e.invariantEvaluations, inv, InvariantValidation(inv));
      WithValidationsDiscards(s, m, e.(invariantEvaluations := e.invariantEvaluations.Put(inv, InvariantValidation(inv))), oks[1..]);
    }
  }

  /** `__buildInvariantValidation` for each OK line in order. */
  function WithValidations(s: Store, m: Model, e: EvaluationState, oks: seq<InvariantCheck>): (r: Result<EvaluationState>)
    decreases oks
    ensures r.Ok? <==> forall i :: 0 <= i < |oks| ==> InvariantResolves(s, m, oks[i])
    ensures r.Ok? ==> r.value.state == e.state && r.value.kind == e.kind
    ensures r.Ok? ==> r.value.cardinalityViolations == e.cardinalityViolations
  {
    if oks == [] then Ok(e)
    else
      var c := oks[0];
      var inv :- FindInvariant(s, m, c.className, c.invariantName);
      var r := WithValidations(s, m, e.(invariantEvaluations := e.invariantEvaluations.Put(inv, InvariantValidation(inv))), oks[1..]);
      assert r.Ok? ==> InvariantResolves(s, m, c);
      r
  }

  /** What the check of one snapshot reported: its multiplicity
      violations, its OK lines and its FAILED blocks. */
  datatype SectionBlocks = SectionBlocks(
    violations: seq<MultiplicityViolation>,
    passed: seq<InvariantCheck>,
    failed: seq<FailedInvariant>)

  /** The blocks of one section of the transcript. */
  function BlocksOf(section: Section): SectionBlocks {
    var (oks, kos) := InvariantBlocks(section.invariantLines);
    SectionBlocks(StructureBlocks(section.structureLines), oks, kos)
  }

  /** The blocks of every section, in order. */
  function AllBlocks(sections: seq<Section>): (r: seq<SectionBlocks>)
    ensures |r| == |sections|
  {
    if sections == [] then [] else [BlocksOf(sections[0])] + AllBlocks(sections[1..])
  }

  lemma {:induction false} AllBlocksAt(sections: seq<Section>, i: nat)
    requires i < |sections|
    ensures AllBlocks(sections)[i] == BlocksOf(sections[i])
  {
    if i > 0 {
      AllBlocksAt(sections[1..], i - 1);
    }
  }

  /** Read back from the printed check of a snapshot, the blocks are the
      violations and invariant results that were printed. */
  lemma PrintedSectionBlocks(stateLines: seq<string>, structure: seq<StructureItem>, invariants: seq<InvariantItem>)
    requires forall i :: 0 <= i < |structure| ==> WellFormedItem(structure[i])
    requires forall i :: 0 <= i < |invariants| ==> WellFormedInvariantItem(invariants[i])
    ensures BlocksOf(Section(stateLines, RenderStructure(structure), RenderInvariants(invariants))) ==
      SectionBlocks(ViolationsOf(structure), PassedOf(invariants), FailuresOf(invariants))
  {
    StructureRoundTrip(structure);
    InvariantRoundTrip(invariants);
  }

  /** The evaluation of the snapshot `state` from the blocks of its
      section. */
  function EvaluationOfBlocks(s: Store, m: Model, state: string, b: SectionBlocks): Result<EvaluationState> {
    var none: OrderedMap<InvariantId, InvariantEvaluation> := Empty();
    if b.violations == [] && b.failed == [] then
      WithValidations(s, m, EvaluationState(state, ModelValidation, none, Empty()), b.passed)
    else
      var e1 :- WithCardinalities(s, m, EvaluationState(state, ModelViolation, none, Empty()), b.violations);
      var e2 :- WithViolations(s, m, e1, b.failed);
      WithValidations(s, m, e2, b.passed)
  }

  /** The evaluation of a snapshot fails exactly when a name it looks up
      is missing from the model or a count is not a number; the
      multiplicity and FAILED blocks are only looked at when there is one. */
  lemma EvaluationOfBlocksOk(s: Store, m: Model, state: string, b: SectionBlocks)
    ensures EvaluationOfBlocks(s, m, state, b).Ok? <==>
      (b.violations != [] || b.failed != [] ==>
         (forall i :: 0 <= i < |b.violations| ==> CardinalityResolves(s, m, b.violations[i])) &&
         (forall i :: 0 <= i < |b.failed| ==> InvariantResolves(s, m, b.failed[i].check))) &&
      (forall i :: 0 <= i < |b.passed| ==> InvariantResolves(s, m, b.passed[i]))
  {
    var none: OrderedMap<InvariantId, InvariantEvaluation> := Empty();
    var cv: Violations := Empty();
    if b.violations != [] || b.failed != [] {
      var r1 := WithCardinalities(s, m, EvaluationState(state, ModelViolation, none, cv), b.violations);
      WithCardinalitiesAdds(s, m, EvaluationState(state, ModelViolation, none, cv), b.violations);
      if r1.Ok? {
        var r2 := WithViolations(s, m, r1.value, b.failed);
        if r2.Ok? {
          assert EvaluationOfBlocks(s, m, state, b) == WithValidations(s, m, r2.value, b.passed);
        }
      }
    }
  }

  /** A snapshot is a `ModelValidation` when its check reports neither a
      multiplicity violation nor a FAILED invariant, and a
      `ModelViolation` otherwise. */
  lemma EvaluationOfBlocksKind(s: Store, m: Model, state: string, b: SectionBlocks)
    ensures var r := EvaluationOfBlocks(s, m, state, b);
      r.Ok? ==> r.value.state == state && (r.value.kind == ModelValidation <==> b.violations == [] && b.failed == [])
  {
    var none: OrderedMap<InvariantId, InvariantEvaluation> := Empty();
    var cv: Violations := Empty();
    if b.violations != [] || b.failed != [] {
      var r1 := WithCardinalities(s, m, EvaluationState(state, ModelViolation, none, cv), b.violations);
      WithCardinalitiesAdds(s, m, EvaluationState(state, ModelViolation, none, cv), b.violations);
      if r1.Ok? {
        var r2 := WithViolations(s, m, r1.value, b.failed);
        if r2.Ok? {
          assert EvaluationOfBlocks(s, m, state, b) == WithValidations(s, m, r2.value, b.passed);
        }
      }
    }
  }

  /** A `ModelViolation` holds one cardinality violation per multiplicity
      block of its check. */
  lemma EvaluationOfBlocksTotal(s: Store, m: Model, state: string, b: SectionBlocks)
    ensures var r := EvaluationOfBlocks(s, m, state, b);
      r.Ok? ==> Total(r.value.cardinalityViolations.items) == |b.violations|
  {
    var none: OrderedMap<InvariantId, InvariantEvaluation> := Empty();
    var cv: Violations := Empty();
    assert Total(cv.items) == 0;
    if b.violations != [] || b.failed != [] {
      var r1 := WithCardinalities(s, m, EvaluationState(state, ModelViolation, none, cv), b.violations);
      WithCardinalitiesAdds(s, m, EvaluationState(state, ModelViolation, none, cv), b.violations);
      if r1.Ok? {
        var r2 := WithViolations(s, m, r1.value, b.failed);
        if r2.Ok? {
          assert EvaluationOfBlocks(s, m, state, b) == WithValidations(s, m, r2.value, b.passed);
        }
      }
    }
  }

  /** Every OK line gives an invariant validation, stored last, so it wins
      over a FAILED block of the same invariant; an invariant only FAILED
      blocks name is violated with no object; no other invariant has a
      result. */
  lemma EvaluationOfBlocksStores(s: Store, m: Model, state: string, b: SectionBlocks, k: InvariantId)
    ensures var r := EvaluationOfBlocks(s, m, state, b);
      r.Ok? ==>
        r.value.invariantEvaluations.Get(k) ==
        (if k in ValidatedIds(s, m, b.passed) then Some(InvariantValidation(k))
        else if k in ViolatedIds(s, m, b.failed) then Some(InvariantViolation(k, []))
        else None)
  {
    var none: OrderedMap<InvariantId, InvariantEvaluation> := Empty();
    assert none.Get(k) == None;
    if b.violations == [] && b.failed == [] {
      assert ViolatedIds(s, m, b.failed) == {};
      WithValidationsStores(s, m, EvaluationState(state, ModelValidation, none, Empty()), b.passed, k);
    } else {
      var r1 := WithCardinalities(s, m, EvaluationState(state, ModelViolation, none, Empty()), b.violations);
      WithCardinalitiesAdds(s, m, EvaluationState(state, ModelViolation, none, Empty()), b.violations);
      if r1.Ok? {
        WithViolationsStores(s, m, r1.value, b.failed, k);
        var r2 := WithViolations(s, m, r1.value, b.failed);
        if r2.Ok? {
          WithValidationsStores(s, m, r2.value, b.passed, k);
        }
      }
    }
  }

  /** No stored invariant violation keeps its objects. */
  lemma EvaluationOfBlocksDiscards(s: Store, m: Model, state: string, b: SectionBlocks)
    ensures var r := EvaluationOfBlocks(s, m, state, b);
      r.Ok? ==> ObjectsDiscarded(r.value.invariantEvaluations)
  {
    var none: OrderedMap<InvariantId, InvariantEvaluation> := Empty();
    assert ObjectsDiscarded(none);
    if b.violations == [] && b.failed == [] {
      WithValidationsDiscards(s, m, EvaluationState(state, ModelValidation, none, Empty()), b.passed);
    } else {
      var r1 := WithCardinalities(s, m, EvaluationState(state, ModelViolation, none, Empty()), b.violations);
      WithCardinalitiesAdds(s, m, EvaluationState(state, ModelViolation, none, Empty()), b.violations);
      if r1.Ok? {
        WithViolationsDiscards(s, m, r1.value, b.failed);
        var r2 := WithViolations(s, m, r1.value, b.failed);
        if r2.Ok? {
          WithValidationsDiscards(s, m, r2.value, b.passed);
        }
      }
    }
  }

  /** `EvaluationOfBlocks` for one model, as a function of the file and
      its blocks. */
  function BlocksEvaluator(s: Store, m: Model): (string, SectionBlocks) -> Result<EvaluationState> {
    (state, b) => EvaluationOfBlocks(s, m, state, b)
  }

  /** `modelEvaluationMap` after the sections from the `k`-th on: section
      `k` belongs to `files[k]`, by position only, and an extra section
      raises `IndexError`. */
  function EvaluationsFrom<B>(evaluate: (string, B) -> Result<EvaluationState>, files: seq<string>, sections: seq<B>, k: nat,
                           acc: OrderedMap<string, EvaluationState>): (r: Result<OrderedMap<string, EvaluationState>>)
    requires k <= |sections| && k <= |files|
    ensures r.Ok? <==> (|sections| <= |files| &&
      forall j :: k <= j < |sections| ==> evaluate(files[j], sections[j]).Ok?)
    decreases |sections| - k
  {
    if k == |sections| then Ok(acc)
    else if k + 1 > |files| then Err(IndexError)
    else
      var e :- evaluate(files[k], sections[k]);
      EvaluationsFrom(evaluate, files, sections, k + 1, acc.Put(files[k], e))
  }

  /** The files evaluated are those of the sections visited. */
  lemma {:induction false} EvaluationsFromContains<B>(evaluate: (string, B) -> Result<EvaluationState>, files: seq<string>, sections: seq<B>, k: nat,
                                                  acc: OrderedMap<string, EvaluationState>, f: string)
    requires k <= |sections| <= |files|
    requires EvaluationsFrom(evaluate, files, sections, k, acc).Ok?
    ensures EvaluationsFrom(evaluate, files, sections, k, acc).value.Contains(f) <==> acc.Contains(f) || f in files[k..|sections|]
    decreases |sections| - k
  {
    if k < |sections| {
      var e := evaluate(files[k], sections[k]).value;
      var acc' := acc.Put(files[k], e);
      ContainsStep(files, k, |sections|, acc, e, f);
      EvaluationsFromContains(evaluate, files, sections, k + 1, acc', f);
    }
  }

  /** One step of `EvaluationsFromContains`. */
  lemma ContainsStep(files: seq<string>, k: nat, n: nat, acc: OrderedMap<string, EvaluationState>, e: EvaluationState, f: string)
    requires k < n <= |files|
    ensures (acc.Put(files[k], e).Contains(f) || f in files[k + 1..n]) <==> (acc.Contains(f) || f in files[k..n])
  {
    var acc' := acc.Put(files[k], e);
    assert acc'.Contains(f) <==> acc.Contains(f) || f == files[k] by {
      assert acc'.Contains(f) <==> acc'.Get(f).Some?;
      assert acc.Contains(f) <==> acc.Get(f).Some?;
    }
    assert files[k..n] == [files[k]] + files[k + 1..n];
  }

  /** A file no visited section belongs to keeps what it had. */
  lemma {:induction false} EvaluationsFromFrame<B>(evaluate: (string, B) -> Result<EvaluationState>, files: seq<string>, sections: seq<B>, k: nat,
                                               acc: OrderedMap<string, EvaluationState>, f: string)
    requires k <= |sections| <= |files|
    requires EvaluationsFrom(evaluate, files, sections, k, acc).Ok?
    requires f !in files[k..|sections|]
    ensures EvaluationsFrom(evaluate, files, sections, k, acc).value.Get(f) == acc.Get(f)
    decreases |sections| - k
  {
    if k < |sections| {
      assert files[k..|sections|] == [files[k]] + files[k + 1..|sections|];
      var e := evaluate(files[k], sections[k]).value;
      EvaluationsFromFrame(evaluate, files, sections, k + 1, acc.Put(files[k], e), f);
    }
  }

  /** A file's evaluation is that of the last section that belongs to it:
      an earlier one is overwritten. */
  lemma {:induction false} EvaluationsFromLast<B>(evaluate: (string, B) -> Result<EvaluationState>, files: seq<string>, sections: seq<B>, k: nat,
                                              acc: OrderedMap<string, EvaluationState>, j: nat)
    requires k <= j < |sections| <= |files|
    requires files[j] !in files[j + 1..|sections|]
    requires EvaluationsFrom(evaluate, files, sections, k, acc).Ok?
    ensures evaluate(files[j], sections[j]).Ok?
    ensures EvaluationsFrom(evaluate, files, sections, k, acc).value.Get(files[j]) ==
      Some(evaluate(files[j], sections[j]).value)
    decreases |sections| - k
  {
    var e := evaluate(files[k], sections[k]).value;
    if k < j {
      EvaluationsFromLast(evaluate, files, sections, k + 1, acc.Put(files[k], e), j);
    } else {
      EvaluationsFromFrame(evaluate, files, sections, k + 1, acc.Put(files[k], e), files[j]);
    }
  }

  /** Distinct files, none evaluated before, are added in section order. */
  lemma {:induction false} EvaluationsFromKeys<B>(evaluate: (string, B) -> Result<EvaluationState>, files: seq<string>, sections: seq<B>, k: nat,
                                              acc: OrderedMap<string, EvaluationState>)
    requires k <= |sections| <= |files|
    requires EvaluationsFrom(evaluate, files, sections, k, acc).Ok?
    requires Distinct(files[k..|sections|])
    requires forall j :: k <= j < |sections| ==> !acc.Contains(files[j])
    ensures EvaluationsFrom(evaluate, files, sections, k, acc).value.Keys() == acc.Keys() + files[k..|sections|]
    decreases |sections| - k
  {
    if k == |sections| {
      assert acc.Keys() + files[k..|sections|] == acc.Keys();
    } else {
      var e := evaluate(files[k], sections[k]).value;
      var acc' := acc.Put(files[k], e);
      KeysStep(files, k, |sections|, acc, e);
      EvaluationsFromKeys(evaluate, files, sections, k + 1, acc');
    }
  }

  /** One step of `EvaluationsFromKeys`: the first of distinct new files is
      added at the end, and the others are still distinct and new. */
  lemma KeysStep(files: seq<string>, k: nat, n: nat, acc: OrderedMap<string, EvaluationState>, e: EvaluationState)
    requires k < n <= |files|
    requires Distinct(files[k..n])
    requires forall j :: k <= j < n ==> !acc.Contains(files[j])
    ensures acc.Put(files[k], e).Keys() + files[k + 1..n] == acc.Keys() + files[k..n]
    ensures Distinct(files[k + 1..n])
    ensures forall j :: k + 1 <= j < n ==> !acc.Put(files[k], e).Contains(files[j])
  {
    DistinctTail(files[k..n]);
    assert files[k..n][1..] == files[k + 1..n];
    assert files[k..n] == [files[k]] + files[k + 1..n];
    assert acc.Put(files[k], e).Keys() == acc.Keys() + [files[k]];
    forall j | k + 1 <= j < n
      ensures !acc.Put(files[k], e).Contains(files[j])
    {
      assert files[j] == files[k..n][j - k] && files[k] == files[k..n][0];
    }
  }

  predicate Distinct(s: seq<string>) {
    forall i, j :: 0 <= i < j < |s| ==> s[i] != s[j]
  }

  lemma DistinctTail(s: seq<string>)
    requires s != [] && Distinct(s)
    ensures Distinct(s[1..]) && s[0] !in s[1..]
  {
    forall i, j | 0 <= i < j < |s| - 1
      ensures s[1..][i] != s[1..][j]
    {
      assert s[1..][i] == s[i + 1] && s[1..][j] == s[j + 1];
    }
  }

  /** The evaluations of a transcript, by snapshot file. */
  function Evaluations(s: Store, m: Model, files: seq<string>, text: string): Result<OrderedMap<string, EvaluationState>> {
    EvaluationsFrom(BlocksEvaluator(s, m), files, AllBlocks(Sections(Split(text, "\n"))), 0, Empty())
  }

  /** With one section per file and no file named twice, there is one
      evaluation per file, in file order. */
  lemma OneEvaluationPerFile(s: Store, m: Model, files: seq<string>, sections: seq<SectionBlocks>)
    requires |sections| == |files| && Distinct(files)
    ensures var r := EvaluationsFrom(BlocksEvaluator(s, m), files, sections, 0, Empty());
      r.Ok? ==> r.value.Keys() == files && |r.value.items| == |files|
  {
    assert files[0..|sections|] == files;
    if EvaluationsFrom(BlocksEvaluator(s, m), files, sections, 0, Empty()).Ok? {
      EvaluationsFromKeys(BlocksEvaluator(s, m), files, sections, 0, Empty());
    }
  }

  // The objects.

  /** The evaluation objects of `objects` are in the states `values` gives. */
  predicate Mirrors(objects: OrderedMap<string, ModelEvaluation>, values: OrderedMap<string, EvaluationState>)
    reads set i | 0 <= i < |objects.items| :: objects.items[i].1
  {
    objects.Keys() == values.Keys() &&
    forall i :: 0 <= i < |objects.items| ==> objects.items[i].1.Snapshot() == values.items[i].1
  }

  lemma MirrorsPut(objects: OrderedMap<string, ModelEvaluation>, values: OrderedMap<string, EvaluationState>,
                   f: string, e: ModelEvaluation)
    requires Mirrors(objects, values)
    ensures Mirrors(objects.Put(f, e), values.Put(f, e.Snapshot()))
  {
    SameKeysSameIndex(objects, values, f);
    var a := objects.Put(f, e);
    var b := values.Put(f, e.Snapshot());
    match objects.IndexOf(f)
    case Some(i) =>
      assert a.items == objects.items[i := (f, e)];
      assert b.items == values.items[i := (f, e.Snapshot())];
    case None =>
      assert a.items == objects.items + [(f, e)];
      assert b.items == values.items + [(f, e.Snapshot())];
  }

  /** The part of the main loop of `__parseValidationOutput` that creates
      one `CardinalityViolation` per multiplicity block. */
  method AddCardinalities(e: ModelEvaluation, s: Store, m: Model, blocks: seq<MultiplicityViolation>)
    returns (error: Option<PyError>)
    modifies e
    ensures error.None? <==> WithCardinalities(s, m, old(e.Snapshot()), blocks).Ok?
    ensures error.None? ==> e.Snapshot() == WithCardinalities(s, m, old(e.Snapshot()), blocks).value
  {
    var i := 0;
    while i < |blocks|
      invariant i <= |blocks|
      invariant WithCardinalities(s, m, e.Snapshot(), blocks[i..]) == WithCardinalities(s, m, old(e.Snapshot()), blocks)
    {
      var role := FindRoleKey(s, m, blocks[i].association, blocks[i].role);
      if role.Err? {
        return Some(role.error);
      }
      var n := ParseCount(blocks[i].numberOfObjects);
      if n.Err? {
        return Some(n.error);
      }
      e.AddCardinalityViolation(CardinalityViolation(role.value, None, n.value));
      assert blocks[i..][1..] == blocks[i + 1..];
      i := i + 1;
    }
    return None;
  }

  /** The part that creates one `InvariantViolation` per FAILED block. */
  method AddViolations(e: ModelEvaluation, s: Store, m: Model, kos: seq<FailedInvariant>)
    returns (error: Option<PyError>)
    modifies e
    ensures error.None? <==> WithViolations(s, m, old(e.Snapshot()), kos).Ok?
    ensures error.None? ==> e.Snapshot() == WithViolations(s, m, old(e.Snapshot()), kos).value
  {
    var i := 0;
    while i < |kos|
      invariant i <= |kos|
      invariant WithViolations(s, m, e.Snapshot(), kos[i..]) == WithViolations(s, m, old(e.Snapshot()), kos)
    {
      var c := kos[i].check;
      var inv := FindInvariant(s, m, c.className, c.invariantName);
      if inv.Err? {
        return Some(inv.error);
      }
      e.AddInvariantEvaluation(InvariantViolation(inv.value, []));
      assert kos[i..][1..] == kos[i + 1..];
      i := i + 1;
    }
    return None;
  }

  /** The part that creates one `InvariantValidation` per OK line. */
  method AddValidations(e: ModelEvaluation, s: Store, m: Model, oks: seq<InvariantCheck>)
    returns (error: Option<PyError>)
    modifies e
    ensures error.None? <==> WithValidations(s, m, old(e.Snapshot()), oks).Ok?
    ensures error.None? ==> e.Snapshot() == WithValidations(s, m, old(e.Snapshot()), oks).value
  {
    var i := 0;
    while i < |oks|
      invariant i <= |oks|
      invariant WithValidations(s, m, e.Snapshot(), oks[i..]) == WithValidations(s, m, old(e.Snapshot()), oks)
    {
      var inv := FindInvariant(s, m, oks[i].className, oks[i].invariantName);
      if inv.Err? {
        return Some(inv.error);
      }
      e.AddInvariantEvaluation(InvariantValidation(inv.value));
      assert oks[i..][1..] == oks[i + 1..];
      i := i + 1;
    }
    return None;
  }

  /** The evaluation object of one snapshot, as the main loop of
      `__parseValidationOutput` builds it: a fresh `ModelValidation` or
      `ModelViolation` into which the results insert themselves. */
  method BuildEvaluation(s: Store, m: Model, state: string, b: SectionBlocks) returns (r: Result<ModelEvaluation>)
    ensures r.Ok? <==> EvaluationOfBlocks(s, m, state, b).Ok?
    ensures r.Ok? ==> fresh(r.value) && r.value.Snapshot() == EvaluationOfBlocks(s, m, state, b).value
  {
    var blocks, oks, kos := b.violations, b.passed, b.failed;
    var kind := if blocks == [] && kos == [] then ModelValidation else ModelViolation;
    var e := new ModelEvaluation(s, m, state, kind);
    if kind == ModelViolation {
      var error := AddCardinalities(e, s, m, blocks);
      if error.Some? {
        return Err(error.value);
      }
      error := AddViolations(e, s, m, kos);
      if error.Some? {
        return Err(error.value);
      }
    }
    var error := AddValidations(e, s, m, oks);
    if error.Some? {
      return Err(error.value);
    }
    return Ok(e);
  }

  /** The main loop of `__parseValidationOutput`: one evaluation object
      per section, stored under the file of the same position. */
  method BuildEvaluations(s: Store, m: Model, files: seq<string>, blocks: seq<SectionBlocks>)
    returns (r: Result<OrderedMap<string, ModelEvaluation>>)
    ensures r.Ok? <==> EvaluationsFrom(BlocksEvaluator(s, m), files, blocks, 0, Empty()).Ok?
    ensures r.Ok? ==> Mirrors(r.value, EvaluationsFrom(BlocksEvaluator(s, m), files, blocks, 0, Empty()).value)
  {
    ghost var evaluate := BlocksEvaluator(s, m);
    ghost var values: OrderedMap<string, EvaluationState> := Empty();
    var objects: OrderedMap<string, ModelEvaluation> := Empty();
    var k := 0;
    while k < |blocks|
      invariant k <= |blocks| && k <= |files|
      invariant Mirrors(objects, values)
      invariant EvaluationsFrom(evaluate, files, blocks, k, values) == EvaluationsFrom(evaluate, files, blocks, 0, Empty())
    {
      if k >= |files| {
        return Err(IndexError);
      }
      var e := BuildEvaluation(s, m, files[k], blocks[k]);
      assert evaluate(files[k], blocks[k]) == EvaluationOfBlocks(s, m, files[k], blocks[k]);
      if e.Err? {
        return Err(e.error);
      }
      MirrorsPut(objects, values, files[k], e.value);
      objects := objects.Put(files[k], e.value);
      values := values.Put(files[k], e.value.Snapshot());
      k := k + 1;
    }
    return Ok(objects);
  }

  /** The loop of `__filterNonEmptyStateFiles` as written. It iterates
      over the list it removes files from; the index moves on after a
      removal, so the file that slides into the visited slot is skipped.
      Returns the files left and the files removed. */
  method SkipEmptyFiles(files: seq<string>, drop: string -> bool) returns (left: seq<string>, empty: seq<string>)
    ensures (left, empty) == SkippingFilter(files, 0, drop)
  {
    left := files;
    empty := [];
    var i := 0;
    while i < |left|
      invariant SkippingFilter(left, i, drop).0 == SkippingFilter(files, 0, drop).0
      invariant empty + SkippingFilter(left, i, drop).1 == SkippingFilter(files, 0, drop).1
      decreases |left| - i
    {
      var file := left[i];
      i := i + 1;
      if drop(file) {
        empty := empty + [file];
        left := RemoveFirst(left, file);
      }
    }
    assert SkippingFilter(left, i, drop) == (left, []);
    assert empty + [] == empty;
  }

  /** The loop of `__filterNonEmptyStateFiles`, over a copy of the list:
      each empty file is removed from what is left and listed as empty. */
  method SeparateEmptyFiles(files: seq<string>, drop: string -> bool) returns (left: seq<string>, empty: seq<string>)
    ensures left == Keep(files, drop)
    ensures empty == Dropped(files, drop)
  {
    left := files;
    empty := [];
    var i := 0;
    while i < |files|
      invariant i <= |files|
      invariant left == Keep(files[..i], drop) + files[i..]
      invariant empty == Dropped(files[..i], drop)
    {
      var file := files[i];
      SeparateStep(files, i, drop);
      if drop(file) {
        empty := empty + [file];
        left := RemoveFirst(left, file);
      }
      i := i + 1;
    }
    assert files[..i] == files;
  }

  /** The loop of `__filterErroneousStateFiles`, over a copy of the list:
      each file whose own check fails is removed from what is left and its
      error text is recorded under its name. */
  method SeparateErroneousFiles(files: seq<string>, check: string -> EngineRun, errors: OrderedMap<string, string>)
    returns (left: seq<string>, errorsAfter: OrderedMap<string, string>)
    ensures left == Keep(files, FailingIn(check))
    ensures errorsAfter == ErrorsOf(files, check, errors)
  {
    var drop := FailingIn(check);
    left := files;
    errorsAfter := errors;
    var i := 0;
    while i < |files|
      invariant i <= |files|
      invariant left == Keep(files[..i], drop) + files[i..]
      invariant ErrorsOf(files[i..], check, errorsAfter) == ErrorsOf(files, check, errors)
    {
      var file := files[i];
      var run := check(file);
      SeparateStep(files, i, drop);
      ErrorsStep(files, i, check, errorsAfter);
      if Fails(run) {
        errorsAfter := errorsAfter.Put(file, ErrorReport(run));
        left := RemoveFirst(left, file);
      }
      i := i + 1;
    }
    assert files[..i] == files;
  }

  /** A Python list of file names: an object that every holder of a
      reference sees change. */
  class StringList {
    var items: seq<string>

    constructor (items: seq<string>)
      ensures this.items == items
    {
      this.items := items;
    }
  }

  /** What `commandExitCode` holds: the exit code of the batch, or, as
      written, whatever `evaluateSoilFilesWithUSEModel` returned (`None` or
      the transcript). */
  datatype BatchValue = ExitCode(code: int) | Returned(value: Option<string>)

  /** The text `%s` gives for the value `evaluateSoilFilesWithUSEModel`
      returns. */
  function ShowReturned(v: Option<string>): string {
    if v.None? then "None" else v.value
  }

  /** The state of a `UseEvaluationResults` object. */
  class UseEvaluationResults {
    const store: Store
    const model: Model
    const modelFile: string
    /** `allStateFiles` and `stateFiles` are both bound to the caller's
        list: every removal from `stateFiles` shows in all three. */
    const allStateFiles: StringList
    const stateFiles: StringList
    var emptyStateFiles: seq<string>
    var erroneousStateFilesMap: OrderedMap<string, string>
    var modelEvaluationMap: OrderedMap<string, ModelEvaluation>
    var nbOfEmptyStateFiles: nat
    var hasEmptyStateFiles: bool
    /** Unset (`None`) when no batch ran. */
    var commandExitCode: Option<BatchValue>
    var isCorrect: bool
    var outputText: string

    /** The counts and the outcome of the batch run. */
    function Outcome(): (nat, bool, Option<BatchValue>, bool, string)
      reads this
    {
      (nbOfEmptyStateFiles, hasEmptyStateFiles, commandExitCode, isCorrect, outputText)
    }

    /** The assignments of `__init__` before the filters run. */
    constructor (store: Store, model: Model, modelFile: string, soilFiles: StringList)
      ensures this.store == store && this.model == model && this.modelFile == modelFile
      ensures allStateFiles == soilFiles && stateFiles == soilFiles && emptyStateFiles == []
      ensures erroneousStateFilesMap == Empty() && modelEvaluationMap == Empty()
      ensures commandExitCode == None
    {
      this.store := store;
      this.model := model;
      this.modelFile := modelFile;
      allStateFiles := soilFiles;
      stateFiles := soilFiles;
      emptyStateFiles := [];
      erroneousStateFilesMap := Empty();
      modelEvaluationMap := Empty();
      nbOfEmptyStateFiles := 0;
      hasEmptyStateFiles := false;
      commandExitCode := None;
      isCorrect := false;
      outputText := "";
    }

    /** `__filterNonEmptyStateFiles` as written (see `SkipEmptyFiles`). */
    method FilterNonEmptyStateFilesAsWritten(content: string -> string)
      modifies this, stateFiles
      ensures stateFiles.items == SkippingFilter(old(stateFiles.items), 0, EmptyIn(content)).0
      ensures emptyStateFiles == old(emptyStateFiles) + SkippingFilter(old(stateFiles.items), 0, EmptyIn(content)).1
      ensures erroneousStateFilesMap == old(erroneousStateFilesMap) && modelEvaluationMap == old(modelEvaluationMap)
      ensures Outcome() == old(Outcome())
    {
      var left, empty := SkipEmptyFiles(stateFiles.items, EmptyIn(content));
      stateFiles.items := left;
      emptyStateFiles := emptyStateFiles + empty;
    }

    /** `__filterNonEmptyStateFiles` iterating over a copy of the list
        (see `SeparateEmptyFiles`). */
    method FilterNonEmptyStateFiles(content: string -> string)
      modifies this, stateFiles
      ensures stateFiles.items == Keep(old(stateFiles.items), EmptyIn(content))
      ensures emptyStateFiles == old(emptyStateFiles) + Dropped(old(stateFiles.items), EmptyIn(content))
      ensures erroneousStateFilesMap == old(erroneousStateFilesMap) && modelEvaluationMap == old(modelEvaluationMap)
      ensures Outcome() == old(Outcome())
    {
      var left, empty := SeparateEmptyFiles(stateFiles.items, EmptyIn(content));
      stateFiles.items := left;
      emptyStateFiles := emptyStateFiles + empty;
    }

    /** `__filterErroneousStateFiles` as written: its first step calls
        `USEEngine.checkSoilFileWithUSEModel`, which the engine class does
        not define, so the attribute lookup raises as soon as one file is
        left; with no file left the loop does not run. Nothing changes. */
    method FilterErroneousStateFilesAsWritten() returns (error: Option<PyError>)
      ensures error.Some? <==> stateFiles.items != []
      ensures error.Some? ==> error.value == AttributeError("checkSoilFileWithUSEModel")
    {
      if |stateFiles.items| > 0 {
        return Some(AttributeError("checkSoilFileWithUSEModel"));
      }
      return None;
    }

    /** `__filterErroneousStateFiles` with a check that exists, given as
        `check` (see `SeparateErroneousFiles`). */
    method FilterErroneousStateFiles(check: string -> EngineRun)
      modifies this, stateFiles
      ensures stateFiles.items == Keep(old(stateFiles.items), FailingIn(check))
      ensures erroneousStateFilesMap == ErrorsOf(old(stateFiles.items), check, old(erroneousStateFilesMap))
      ensures emptyStateFiles == old(emptyStateFiles) && modelEvaluationMap == old(modelEvaluationMap)
      ensures Outcome() == old(Outcome())
    {
      var left, errors := SeparateErroneousFiles(stateFiles.items, check, erroneousStateFilesMap);
      stateFiles.items := left;
      erroneousStateFilesMap := errors;
    }

    /** The filtering part of `__init__` with both filters as intended:
        drop the empty files, then the erroneous ones, and count the empty
        files. */
    method FilterStateFiles(content: string -> string, check: string -> EngineRun)
      requires emptyStateFiles == [] && erroneousStateFilesMap == Empty()
      modifies this, stateFiles
      ensures stateFiles.items == Keep(Keep(old(stateFiles.items), EmptyIn(content)), FailingIn(check))
      ensures emptyStateFiles == Dropped(old(stateFiles.items), EmptyIn(content))
      ensures erroneousStateFilesMap == ErrorsOf(Keep(old(stateFiles.items), EmptyIn(content)), check, Empty())
      ensures nbOfEmptyStateFiles == |emptyStateFiles| && (hasEmptyStateFiles <==> nbOfEmptyStateFiles > 0)
      ensures modelEvaluationMap == old(modelEvaluationMap) && commandExitCode == old(commandExitCode)
    {
      FilterNonEmptyStateFiles(content);
      FilterErroneousStateFiles(check);
      nbOfEmptyStateFiles := |emptyStateFiles|;
      hasEmptyStateFiles := nbOfEmptyStateFiles > 0;
    }

    /** The end of `__init__` as written. `commandExitCode` receives what
        `evaluateSoilFilesWithUSEModel` returns, `None` or the transcript,
        and comparing either with `0` is false: the run is never correct
        and the transcript is never read. */
    method RunBatchAsWritten(batch: seq<string> -> EngineRun)
      requires modelEvaluationMap == Empty()
      modifies this
      ensures !isCorrect && modelEvaluationMap == Empty()
      ensures var run := batch(stateFiles.items);
        commandExitCode == if stateFiles.items != [] then Some(Returned(UseEngine.BatchReturn(run.exitCode, run.outAndErr))) else old(commandExitCode)
      ensures var run := batch(stateFiles.items);
        outputText ==
          if stateFiles.items == [] then "NO EXECUTION : NO NON-EMPTY SOIL FILES"
          else "INCORRECT EXECUTION: errCode=" + ShowReturned(UseEngine.BatchReturn(run.exitCode, run.outAndErr))
      ensures emptyStateFiles == old(emptyStateFiles) && erroneousStateFilesMap == old(erroneousStateFilesMap)
      ensures nbOfEmptyStateFiles == old(nbOfEmptyStateFiles) && hasEmptyStateFiles == old(hasEmptyStateFiles)
    {
      if |stateFiles.items| > 0 {
        var run := batch(stateFiles.items);
        var returned := UseEngine.BatchReturn(run.exitCode, run.outAndErr);
        commandExitCode := Some(Returned(returned));
        // `None == 0` and `'...' == 0` are both false in Python.
        isCorrect := false;
        outputText := "INCORRECT EXECUTION: errCode=" + ShowReturned(returned);
      } else {
        isCorrect := false;
        outputText := "NO EXECUTION : NO NON-EMPTY SOIL FILES";
      }
    }

    /** The end of `__init__` as intended: run the batch over the files
        left, and read its transcript when it exits with `0`, or record
        why nothing was read. */
    method RunBatch(batch: seq<string> -> EngineRun) returns (error: Option<PyError>)
      requires modelEvaluationMap == Empty()
      modifies this
      ensures var files := stateFiles.items;
        isCorrect <==> |files| > 0 && batch(files).exitCode == 0
      ensures var files := stateFiles.items;
        commandExitCode == if |files| > 0 then Some(ExitCode(batch(files).exitCode)) else old(commandExitCode)
      ensures var files := stateFiles.items;
        outputText ==
          if |files| == 0 then "NO EXECUTION : NO NON-EMPTY SOIL FILES"
          else if isCorrect then batch(files).outAndErr
          else "INCORRECT EXECUTION: errCode=" + IntToString(batch(files).exitCode)
      ensures var files := stateFiles.items;
        error.Some? <==> isCorrect && Evaluations(store, model, files, batch(files).outAndErr).Err?
      ensures var files := stateFiles.items;
        isCorrect && error.None? ==> Mirrors(modelEvaluationMap, Evaluations(store, model, files, batch(files).outAndErr).value)
      ensures !isCorrect ==> modelEvaluationMap == Empty()
      ensures emptyStateFiles == old(emptyStateFiles) && erroneousStateFilesMap == old(erroneousStateFilesMap)
      ensures nbOfEmptyStateFiles == old(nbOfEmptyStateFiles) && hasEmptyStateFiles == old(hasEmptyStateFiles)
    {
      error := None;
      if |stateFiles.items| > 0 {
        var run := batch(stateFiles.items);
        commandExitCode := Some(ExitCode(run.exitCode));
        isCorrect := run.exitCode == 0;
        if isCorrect {
          outputText := run.outAndErr;
          error := ParseValidationOutput(outputText);
        } else {
          outputText := "INCORRECT EXECUTION: errCode=" + IntToString(run.exitCode);
        }
      } else {
        isCorrect := false;
        outputText := "NO EXECUTION : NO NON-EMPTY SOIL FILES";
      }
    }

    /** `__parseValidationOutput`: one evaluation object per section of the
        transcript, stored under the file of the same position. */
    method ParseValidationOutput(text: string) returns (error: Option<PyError>)
      requires modelEvaluationMap == Empty()
      modifies this
      ensures error.None? <==> Evaluations(store, model, stateFiles.items, text).Ok?
      ensures error.None? ==> Mirrors(modelEvaluationMap, Evaluations(store, model, stateFiles.items, text).value)
      ensures emptyStateFiles == old(emptyStateFiles) && erroneousStateFilesMap == old(erroneousStateFilesMap)
      ensures Outcome() == old(Outcome())
    {
      var r := BuildEvaluations(store, model, stateFiles.items, AllBlocks(Sections(Split(text, "\n"))));
      if r.Err? {
        return Some(r.error);
      }
      modelEvaluationMap := r.value;
      return None;
    }
  }

  /** The files left for the batch: the non-empty files whose own check
      succeeds, in submission order. */
  function CheckedFiles(soilFiles: seq<string>, content: string -> string, check: string -> EngineRun): seq<string> {
    Keep(Keep(soilFiles, EmptyIn(content)), FailingIn(check))
  }

  /** Every snapshot file is accounted for: it is checked in the batch, or
      listed as empty, or recorded as erroneous, and only one of these. */
  lemma FilesAccountedFor(soilFiles: seq<string>, content: string -> string, check: string -> EngineRun, f: string)
    requires f in soilFiles
    ensures var nonEmpty := Keep(soilFiles, EmptyIn(content));
      var errors := ErrorsOf(nonEmpty, check, Empty());
      (f in CheckedFiles(soilFiles, content, check) <==> !Soil.IsEmptySoilFile(content(f)) && !Fails(check(f))) &&
      (f in Dropped(soilFiles, EmptyIn(content)) <==> Soil.IsEmptySoilFile(content(f))) &&
      (errors.Contains(f) <==> !Soil.IsEmptySoilFile(content(f)) && Fails(check(f)))
  {
    var nonEmpty := Keep(soilFiles, EmptyIn(content));
    KeepMembers(soilFiles, EmptyIn(content), f);
    KeepMembers(nonEmpty, FailingIn(check), f);
    assert EmptyIn(content)(f) == Soil.IsEmptySoilFile(content(f));
    assert FailingIn(check)(f) == Fails(check(f));
    assert !Empty<string, string>().Contains(f);
    ErrorsOfMeaning(nonEmpty, check, Empty(), f);
  }

  /** `UseEvaluationResults(useOCLModel, soilFiles)` as written: the empty
      filter skips the file after each removal, the erroneous filter raises
      `AttributeError` as soon as any file is left, and otherwise no batch
      runs. The caller's list is left filtered. */
  method EvaluateAsWritten(store: Store, model: Model, modelFile: string, soilFiles: StringList,
                           content: string -> string, batch: seq<string> -> EngineRun)
    returns (r: Result<UseEvaluationResults>)
    modifies soilFiles
    ensures soilFiles.items == SkippingFilter(old(soilFiles.items), 0, EmptyIn(content)).0
    ensures r.Err? <==> soilFiles.items != []
    ensures r.Err? ==> r.error == AttributeError("checkSoilFileWithUSEModel")
    ensures r.Ok? ==> fresh(r.value) && r.value.stateFiles == soilFiles && r.value.allStateFiles == soilFiles
    ensures r.Ok? ==> r.value.emptyStateFiles == SkippingFilter(old(soilFiles.items), 0, EmptyIn(content)).1
    ensures r.Ok? ==> !r.value.isCorrect && r.value.outputText == "NO EXECUTION : NO NON-EMPTY SOIL FILES"
    ensures r.Ok? ==> r.value.modelEvaluationMap == Empty() && r.value.commandExitCode == None
  {
    var u := new UseEvaluationResults(store, model, modelFile, soilFiles);
    u.FilterNonEmptyStateFilesAsWritten(content);
    var error := u.FilterErroneousStateFilesAsWritten();
    if error.Some? {
      return Err(error.value);
    }
    u.nbOfEmptyStateFiles := |u.emptyStateFiles|;
    u.hasEmptyStateFiles := u.nbOfEmptyStateFiles > 0;
    u.RunBatchAsWritten(batch);
    return Ok(u);
  }

  /** `UseEvaluationResults(useOCLModel, soilFiles)` as intended: filter
      the files, run the batch over what is left, and read its transcript.
      An exception the constructor raises is an `Err`. The caller's list
      is the object filtered, so it ends holding the checked files. */
  method Evaluate(store: Store, model: Model, modelFile: string, soilFiles: StringList,
                  content: string -> string, check: string -> EngineRun, batch: seq<string> -> EngineRun)
    returns (r: Result<UseEvaluationResults>)
    modifies soilFiles
    ensures soilFiles.items == CheckedFiles(old(soilFiles.items), content, check)
    ensures r.Ok? ==> fresh(r.value) && r.value.stateFiles == soilFiles && r.value.allStateFiles == soilFiles
    ensures r.Ok? ==> r.value.emptyStateFiles == Dropped(old(soilFiles.items), EmptyIn(content))
    ensures r.Ok? ==> r.value.erroneousStateFilesMap == ErrorsOf(Keep(old(soilFiles.items), EmptyIn(content)), check, Empty())
    ensures r.Ok? ==> r.value.nbOfEmptyStateFiles == |r.value.emptyStateFiles|
    ensures r.Ok? ==> (r.value.hasEmptyStateFiles <==> r.value.nbOfEmptyStateFiles > 0)
    ensures var files := soilFiles.items;
      r.Ok? ==> (r.value.isCorrect <==> |files| > 0 && batch(files).exitCode == 0)
    ensures var files := soilFiles.items;
      r.Ok? && r.value.isCorrect ==>
        Evaluations(store, model, files, batch(files).outAndErr).Ok? &&
        Mirrors(r.value.modelEvaluationMap, Evaluations(store, model, files, batch(files).outAndErr).value)
    ensures var files := soilFiles.items;
      r.Err? <==> |files| > 0 && batch(files).exitCode == 0 && Evaluations(store, model, files, batch(files).outAndErr).Err?
  {
    var u := new UseEvaluationResults(store, model, modelFile, soilFiles);
    u.FilterStateFiles(content, check);
    var error := u.RunBatch(batch);
    if error.Some? {
      return Err(error.value);
    }
    return Ok(u);
  }
}
