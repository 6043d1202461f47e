/** The result of checking one snapshot (a `.soil` state) against a USE
    OCL model, as `pyalaocl/useocl/evaluation.py` records it: a
    `ModelEvaluation` object per snapshot, into which the constructors of
    the invariant and cardinality results insert themselves. */
module Evaluation {
  import opened Wrappers
  import opened Text
  import opened OrderedMaps
  import opened UseModel

  // Paths.

  /** The position of the last `c` in `s`, if any (`str.rfind`). */
  function LastIndexOf(s: string, c: char): (r: Option<nat>)
    ensures r.Some? ==> r.value < |s| && s[r.value] == c
    ensures r.Some? ==> forall j :: r.value < j < |s| ==> s[j] != c
    ensures r.None? ==> forall j :: 0 <= j < |s| ==> s[j] != c
  {
    if s == [] then None
    else if s[|s| - 1] == c then Some(|s| - 1)
    else LastIndexOf(s[..|s| - 1], c)
  }

  /** `os.path.basename`: what follows the last `/`. */
  function BaseName(path: string): (r: string)
    ensures |r| <= |path| && r == path[|path| - |r|..]
    ensures '/' !in r
    ensures |r| < |path| ==> path[|path| - |r| - 1] == '/'
  {
    match LastIndexOf(path, '/')
    case None => path
    case Some(i) => path[i + 1..]
  }

  /** Some character of `s` before position `n` is not a dot. */
  predicate HasNonDot(s: string, n: nat)
    requires n <= |s|
  {
    exists j :: 0 <= j < n && s[j] != '.'
  }

  /** The root `os.path.splitext` returns for a name without `/`: the name
      cut at its last dot, unless only dots precede that dot (a leading dot
      does not start an extension). */
  function SplitExtRoot(name: string): (r: string)
    ensures |r| <= |name| && r == name[..|r|]
    ensures r != name ==> name[|r|] == '.' && HasNonDot(name, |r|) && '.' !in name[|r| + 1..]
    ensures r == name ==> forall j :: 0 <= j < |name| && name[j] == '.' ==> !HasNonDot(name, j)
  {
    match LastIndexOf(name, '.')
    case None => name
    case Some(d) =>
      if HasNonDot(name, d) then
        assert forall j :: d + 1 <= j < |name| ==> name[j] != '.';
        name[..d]
      else
        assert forall j :: 0 <= j < |name| && name[j] == '.' ==> j <= d;
        name
  }

  /** `stateShortName`: the state path's base name without extension. */
  function StateShortName(state: string): string {
    SplitExtRoot(BaseName(state))
  }

  /** The base name of `<dir>/<name>` is `<name>`. */
  lemma {:induction false} BaseNameOf(dir: string, name: string)
    requires '/' !in name
    ensures BaseName(dir + ("/" + name)) == name
  {
    var p := dir + ("/" + name);
    assert p[|dir|] == '/';
    assert forall j :: |dir| < j < |p| ==> p[j] == name[j - |dir| - 1];
    match LastIndexOf(p, '/')
    case None =>
      assert false;
    case Some(i) =>
      assert p[i + 1..] == name;
  }

  /** The root of `<name>.<ext>` is `<name>` when the extension has no dot
      and the name does not start with one. */
  lemma {:induction false} SplitExtRootOf(name: string, ext: string)
    requires name != [] && name[0] != '.' && '.' !in ext
    ensures SplitExtRoot(name + ("." + ext)) == name
  {
    var f := name + ("." + ext);
    assert f[|name|] == '.';
    assert forall j :: |name| < j < |f| ==> f[j] == ext[j - |name| - 1];
    assert HasNonDot(f, |name|) by { assert f[0] == name[0]; }
    match LastIndexOf(f, '.')
    case None =>
      assert false;
    case Some(d) =>
      assert f[..d] == name;
  }

  /** A snapshot stored as `<dir>/<name>.<ext>` is known by `<name>`. */
  lemma StateShortNameOfFile(dir: string, name: string, ext: string)
    requires name != [] && name[0] != '.' && '/' !in name
    requires '/' !in ext && '.' !in ext
    ensures StateShortName(dir + ("/" + (name + ("." + ext)))) == name
  {
    BaseNameOf(dir, name + ("." + ext));
    SplitExtRootOf(name, ext);
  }

  /** A snapshot stored as `<dir>/<name>` with no dot in its name is known
      by that name. */
  lemma StateShortNameNoExtension(dir: string, name: string)
    requires '/' !in name && '.' !in name
    ensures StateShortName(dir + ("/" + name)) == name
  {
    BaseNameOf(dir, name);
  }

  // Invariant and cardinality results.

  /** `InvariantValidation` (an `OK.` line) or `InvariantViolation` (a
      `FAILED.` block), for the invariant with that allocation index. */
  datatype InvariantEvaluation =
    | InvariantValidation(invariantId: InvariantId)
    | InvariantViolation(invariantId: InvariantId, violatingObjects: seq<string>)
  {
    /** `isOK`. */
    predicate IsOK() {
      InvariantValidation?
    }
  }

  /** A role object, known by the association (or association class) that
      owns it and its name there. */
  datatype RoleKey = RoleKey(association: ElementId, name: string)

  datatype CardinalityViolation = CardinalityViolation(role: RoleKey, violatingObject: Option<string>, cardinalityFound: int)

  /** `findRole`, answering with the role's identity rather than its value. */
  function FindRoleKey(s: Store, m: Model, associationName: string, roleName: string): (r: Result<RoleKey>)
    ensures r.Ok? <==> FindRole(s, m, associationName, roleName).Ok?
    ensures r.Ok? ==> r.value.name == roleName
    ensures r.Ok? ==>
      ElementAt(s, r.value.association).roles.Get(roleName) == Some(FindRole(s, m, associationName, roleName).value)
  {
    var role :- FindRole(s, m, associationName, roleName);
    Ok(RoleKey(FindAssociationOrAssociationClass(m, associationName).value, roleName))
  }

  type Violations = OrderedMap<RoleKey, seq<CardinalityViolation>>

  /** `cardinalityViolations` once the constructor of `v` has run: the list
      of `v`'s role, created empty on first use, gains `v` at its end. */
  function WithCardinalityViolation(cv: Violations, v: CardinalityViolation): Violations {
    var before := match cv.Get(v.role) case Some(l) => l case None => [];
    cv.Put(v.role, before + [v])
  }

  /** The number of violations held in a table's lists. */
  function Total(items: seq<(RoleKey, seq<CardinalityViolation>)>): nat {
    if items == [] then 0 else |items[0].1| + Total(items[1..])
  }

  lemma {:induction false} TotalAppend(a: seq<(RoleKey, seq<CardinalityViolation>)>, b: seq<(RoleKey, seq<CardinalityViolation>)>)
    ensures Total(a + b) == Total(a) + Total(b)
  {
    if a != [] {
      TotalAppend(a[1..], b);
      assert (a + b)[1..] == a[1..] + b;
    } else {
      assert a + b == b;
    }
  }

  lemma {:induction false} TotalUpdate(items: seq<(RoleKey, seq<CardinalityViolation>)>, i: nat, x: (RoleKey, seq<CardinalityViolation>))
    requires i < |items|
    ensures Total(items[i := x]) + |items[i].1| == Total(items) + |x.1|
  {
    if i > 0 {
      TotalUpdate(items[1..], i - 1, x);
      assert items[i := x][1..] == items[1..][i - 1 := x];
    }
  }

  /** Creating a cardinality violation keeps every earlier one: the list of
      its role keeps its entries and gains the new one at its end, the
      other roles' lists are untouched, a role seen for the first time is
      added after the others, and the table holds one violation more. */
  lemma {:induction false} CardinalityViolationStored(cv: Violations, v: CardinalityViolation)
    ensures var r := WithCardinalityViolation(cv, v);
      r.Get(v.role) == Some((if cv.Contains(v.role) then cv.Get(v.role).value else []) + [v]) &&
      (forall k :: k != v.role ==> r.Get(k) == cv.Get(k)) &&
      r.Keys() == (if cv.Contains(v.role) then cv.Keys() else cv.Keys() + [v.role]) &&
      Total(r.items) == Total(cv.items) + 1
  {
    var before := match cv.Get(v.role) case Some(l) => l case None => [];
    match cv.IndexOf(v.role)
    case Some(i) =>
      assert cv.Put(v.role, before + [v]).items == cv.items[i := (v.role, before + [v])];
      TotalUpdate(cv.items, i, (v.role, before + [v]));
    case None =>
      assert cv.Put(v.role, before + [v]).items == cv.items + [(v.role, before + [v])];
      TotalAppend(cv.items, [(v.role, before + [v])]);
      assert Total([(v.role, before + [v])]) == 1;
  }

  // Model level.

  /** Which subclass of `ModelEvaluation` was built. */
  datatype EvaluationKind = ModelValidation | ModelViolation

  /** The state of a `ModelEvaluation` object. */
  datatype EvaluationState = EvaluationState(
    state: string,
    kind: EvaluationKind,
    invariantEvaluations: OrderedMap<InvariantId, InvariantEvaluation>,
    cardinalityViolations: Violations)

  /** `ModelEvaluation` and its two subclasses. */
  class ModelEvaluation {
    const store: Store
    const model: Model
    const state: string
    const stateShortName: string
    const kind: EvaluationKind
    /** True for both subclasses. */
    const isValidated: bool
    var invariantEvaluations: OrderedMap<InvariantId, InvariantEvaluation>
    var cardinalityViolations: Violations

    /** `ModelValidation(model, state)` or `ModelViolation(model, state)`. */
    constructor (store: Store, model: Model, state: string, kind: EvaluationKind)
      ensures this.store == store && this.model == model && this.state == state && this.kind == kind
      ensures stateShortName == StateShortName(state)
      ensures isValidated
      ensures invariantEvaluations == Empty() && cardinalityViolations == Empty()
    {
      this.store := store;
      this.model := model;
      this.state := state;
      this.kind := kind;
      stateShortName := StateShortName(state);
      isValidated := true;
      invariantEvaluations := Empty();
      cardinalityViolations := Empty();
    }

    /** The constructor of `e` stores it under its invariant, replacing any
        earlier result for that invariant. */
    method AddInvariantEvaluation(e: InvariantEvaluation)
      modifies this
      ensures invariantEvaluations == old(invariantEvaluations).Put(e.invariantId, e)
      ensures cardinalityViolations == old(cardinalityViolations)
    {
      invariantEvaluations := invariantEvaluations.Put(e.invariantId, e);
    }

    /** The constructor of `v` appends it to the list of its role. */
    method AddCardinalityViolation(v: CardinalityViolation)
      modifies this
      ensures cardinalityViolations == WithCardinalityViolation(old(cardinalityViolations), v)
      ensures invariantEvaluations == old(invariantEvaluations)
    {
      var before := [];
      match cardinalityViolations.Get(v.role) {
        case Some(l) => before := l;
        case None =>
      }
      cardinalityViolations := cardinalityViolations.Put(v.role, before + [v]);
    }

    /** `getInvariantEvaluation(class, invariant)`: the result stored for
        the invariant `findInvariant` finds; raises when `findInvariant`
        does, and (`KeyError`) when nothing is stored for it. */
    function GetInvariantEvaluation(className: string, invariantName: string): (r: Result<InvariantEvaluation>)
      reads this
      ensures r.Ok? <==> (FindInvariant(store, model, className, invariantName).Ok? &&
        invariantEvaluations.Contains(FindInvariant(store, model, className, invariantName).value))
      ensures r.Ok? ==> invariantEvaluations.Get(FindInvariant(store, model, className, invariantName).value) == Some(r.value)
    {
      var inv :- FindInvariant(store, model, className, invariantName);
      match invariantEvaluations.Get(inv)
      case Some(e) => Ok(e)
      case None => Err(KeyError(IntToString(inv)))
    }

    function Snapshot(): EvaluationState
      reads this
    {
      EvaluationState(state, kind, invariantEvaluations, cardinalityViolations)
    }
  }
}
