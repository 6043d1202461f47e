/** `UseOCLPrinter`: writes a model back as USE text. Every printing
    step appends to the printer's `output`; the first exception stops
    the run and leaves what was printed before it in `output`. */
module Printer {
  import opened Wrappers
  import opened Text
  import opened OrderedMaps
  import opened UseModel
  import opened ModelResolver

  /** What a printing step leaves: the text it appended, and the
      exception that stopped it, if any. */
  datatype Printout = Printout(text: string, error: Option<PyError>)

  function Emit(s: string): Printout { Printout(s, None) }

  function Fail(e: PyError): Printout { Printout("", Some(e)) }

  /** One step after another: the second runs only if the first did
      not raise. */
  function Then(p: Printout, q: Printout): Printout
  {
    if p.error.Some? then p else Printout(p.text + q.text, q.error)
  }

  /** The steps `block(x)` for every `x` in order, stopping at the
      first exception. */
  function Blocks<T>(block: T -> Printout, xs: seq<T>): Printout
    decreases |xs|
  {
    if xs == [] then Emit("") else Then(Blocks(block, xs[..|xs| - 1]), block(xs[|xs| - 1]))
  }

  /** The lines `line(x)` for every `x` in order. */
  function Lines<T>(line: T -> string, xs: seq<T>): string
    decreases |xs|
  {
    if xs == [] then "" else Lines(line, xs[..|xs| - 1]) + line(xs[|xs| - 1])
  }

  /** `t.name`: a type that is still a bare name is a `str`, which has
      no `name`. */
  function TypeNameOf(s: Store, t: TypeRef): (r: Result<string>)
    ensures r.Ok? <==> !t.TypeName?
    ensures r.Err? ==> r.error == AttributeError("name")
    ensures t.ClassRef? ==> r == Ok(ElementAt(s, t.id).name)
  {
    match t
    case TypeName(_) => Err(AttributeError("name"))
    case BasicRef(b) => Ok(b.name)
    case EnumRef(e) => Ok(e.name)
    case ClassRef(id) => Ok(ElementAt(s, id).name)
  }

  /** `'%s' % t`: a name prints as itself, a basic type as its name and
      an enumeration as `Name([...literals...])`. */
  function TypeText(s: Store, t: TypeRef): string {
    match t
    case TypeName(n) => n
    case BasicRef(b) => b.name
    case EnumRef(e) => e.name + "(" + ListRepr(e.literals) + ")"
    case ClassRef(id) => ElementAt(s, id).name
  }

  /** The names of a list of superclasses, failing on the first one
      that is still a bare name. */
  function SuperclassNames(s: Store, sc: seq<TypeRef>): (r: Result<seq<string>>)
    ensures r.Ok? <==> forall i :: 0 <= i < |sc| ==> !sc[i].TypeName?
    ensures r.Err? ==> r.error == AttributeError("name")
    ensures r.Ok? ==> |r.value| == |sc| && forall i :: 0 <= i < |sc| ==> Ok(r.value[i]) == TypeNameOf(s, sc[i])
    decreases |sc|
  {
    if sc == [] then Ok([])
    else
      var head :- TypeNameOf(s, sc[0]);
      var tail :- SuperclassNames(s, sc[1..]);
      assert forall i :: 1 <= i < |sc| ==> sc[i] == sc[1..][i - 1];
      Ok([head] + tail)
  }

  function EnumerationText(e: Enumeration): string {
    "enum { " + Join(e.literals, ",") + " };\n"
  }

  function AttributeLine(s: Store): ((string, Attribute)) -> string {
    (item: (string, Attribute)) => "    " + item.1.name + " : " + TypeText(s, item.1.attributeType) + "\n"
  }

  function OperationLine(s: Store): OperationId -> string {
    (id: OperationId) => "    " + OperationAt(s, id).signature + "\n"
  }

  /** The `attributes` and `operations` sections, each only when the
      table is not empty; invariants print nothing. */
  function Features(s: Store, e: Element): string {
    AttributesText(s, e.attributes.items) + OperationsText(s, e.operations.Values())
  }

  function AttributesText(s: Store, attributes: seq<(string, Attribute)>): string {
    if attributes == [] then "" else "attributes\n" + Lines(AttributeLine(s), attributes)
  }

  function OperationsText(s: Store, operations: seq<OperationId>): string {
    if operations == [] then "" else "operations\n" + Lines(OperationLine(s), operations)
  }

  function ClassHeader(s: Store, e: Element): Result<string> {
    if e.superclasses == [] then Ok("class " + e.name + " " + "\n")
    else
      var names :- SuperclassNames(s, e.superclasses);
      Ok("class " + e.name + " " + "< " + Join(names, ",") + "\n")
  }

  function ClassBlock(s: Store, e: Element): Printout {
    match ClassHeader(s, e)
    case Err(x) => Fail(x)
    case Ok(h) => Emit(h + Features(s, e) + "end\n\n")
  }

  function CardinalityMaxText(max: Option<int>): string {
    if max.None? then "*" else IntToString(max.value)
  }

  /** `    Type[min..max] role name`, with an empty last field for a role
      without a name. */
  function RoleLine(s: Store, role: Role): Printout {
    match TypeNameOf(s, role.roleType)
    case Err(x) => Fail(x)
    case Ok(t) =>
      Emit("    " + t + "[" + IntToString(role.cardinalityMin) + ".." + CardinalityMaxText(role.cardinalityMax) + "] " +
           (if role.name == "" then "" else "role " + role.name) + "\n")
  }

  function RolePrinter(s: Store): ((string, Role)) -> Printout {
    (item: (string, Role)) => RoleLine(s, item.1)
  }

  function AssociationBlock(s: Store, e: Element): Printout {
    Then(Emit(e.associationKind + " " + e.name + " between\n"), Then(Blocks(RolePrinter(s), e.roles.items), Emit("end\n\n")))
  }

  /** The header of an association class. As written, a non-empty list
      of superclasses is asked for its `values()`, which a list does not
      have; the intended header lists their names after ` < `. */
  function AssociationClassHeader(s: Store, e: Element, asWritten: bool): (r: Result<string>)
    ensures r.Err? ==> r.error == (if asWritten then AttributeError("values") else AttributeError("name"))
  {
    if e.superclasses == [] then Ok("associationclass " + e.name + " between\n")
    else if asWritten then Err(AttributeError("values"))
    else
      var names :- SuperclassNames(s, e.superclasses);
      Ok("associationclass " + e.name + " < " + Join(names, ",") + " between\n")
  }

  function AssociationClassBlock(s: Store, e: Element, asWritten: bool): Printout {
    match AssociationClassHeader(s, e, asWritten)
    case Err(x) => Fail(x)
    case Ok(h) => Then(Emit(h), Then(Blocks(RolePrinter(s), e.roles.items), Emit(Features(s, e) + "end\n\n")))
  }

  function ClassPrinter(s: Store): ElementId -> Printout {
    (id: ElementId) => ClassBlock(s, ElementAt(s, id))
  }

  function AssociationPrinter(s: Store): ElementId -> Printout {
    (id: ElementId) => AssociationBlock(s, ElementAt(s, id))
  }

  function AssociationClassPrinter(s: Store, asWritten: bool): ElementId -> Printout {
    (id: ElementId) => AssociationClassBlock(s, ElementAt(s, id), asWritten)
  }

  function ModelHeader(m: Model): string {
    "model " + m.name + "\n\n" + Lines(EnumerationText, m.enumerations.Values())
  }

  /** `do()`: the model line and the enumerations, then the classes,
      associations and association classes in table order. */
  function Printed(s: Store, m: Model, asWritten: bool): Printout {
    Then(Emit(ModelHeader(m)),
      Then(Blocks(ClassPrinter(s), m.classes.Values()),
        Then(Blocks(AssociationPrinter(s), m.associations.Values()),
          Blocks(AssociationClassPrinter(s, asWritten), m.associationClasses.Values()))))
  }

  /** The value `do()` returns, or the exception it raises. */
  function Outcome(p: Printout): Result<string> {
    if p.error.None? then Ok(p.text) else Err(p.error.value)
  }

  // ---------------------------------------------------------------
  // When printing succeeds

  predicate SuperclassesNamed(e: Element) {
    forall i :: 0 <= i < |e.superclasses| ==> !e.superclasses[i].TypeName?
  }

  predicate RoleTypesNamed(e: Element) {
    forall i :: 0 <= i < |e.roles.items| ==> !e.roles.items[i].1.roleType.TypeName?
  }

  predicate AssociationClassPrintable(e: Element, asWritten: bool) {
    RoleTypesNamed(e) && (if asWritten then e.superclasses == [] else SuperclassesNamed(e))
  }

  /** Every type the printer asks for a name has one and, as written, no
      association class has superclasses. */
  predicate Printable(s: Store, m: Model, asWritten: bool) {
    (forall k :: 0 <= k < |m.classes.items| ==> SuperclassesNamed(ElementAt(s, m.classes.Values()[k]))) &&
    (forall k :: 0 <= k < |m.associations.items| ==> RoleTypesNamed(ElementAt(s, m.associations.Values()[k]))) &&
    (forall k :: 0 <= k < |m.associationClasses.items| ==>
       AssociationClassPrintable(ElementAt(s, m.associationClasses.Values()[k]), asWritten))
  }

  /** A run of steps raises iff one of them does. */
  lemma {:induction false} BlocksOk<T>(block: T -> Printout, xs: seq<T>)
    ensures Blocks(block, xs).error.None? <==> forall i :: 0 <= i < |xs| ==> block(xs[i]).error.None?
    decreases |xs|
  {
    if xs != [] {
      var init := xs[..|xs| - 1];
      BlocksOk(block, init);
      assert forall i :: 0 <= i < |init| ==> init[i] == xs[i];
    }
  }

  /** The exception a run of steps raises is one a step raises. */
  lemma {:induction false} BlocksError<T>(block: T -> Printout, xs: seq<T>, e: PyError)
    requires forall i :: 0 <= i < |xs| ==> block(xs[i]).error.None? || block(xs[i]).error == Some(e)
    ensures Blocks(block, xs).error.None? || Blocks(block, xs).error == Some(e)
    decreases |xs|
  {
    if xs != [] {
      var init := xs[..|xs| - 1];
      assert forall i :: 0 <= i < |init| ==> init[i] == xs[i];
      BlocksError(block, init, e);
    }
  }

  /** Runs of steps that agree on every element agree. */
  lemma {:induction false} BlocksAgree<T>(f: T -> Printout, g: T -> Printout, xs: seq<T>)
    requires forall i :: 0 <= i < |xs| ==> f(xs[i]) == g(xs[i])
    ensures Blocks(f, xs) == Blocks(g, xs)
    decreases |xs|
  {
    if xs != [] {
      var init := xs[..|xs| - 1];
      assert forall i :: 0 <= i < |init| ==> init[i] == xs[i];
      BlocksAgree(f, g, init);
    }
  }

  /** Once a step has raised, the later steps are not run. */
  lemma {:induction false} BlocksStop<T>(block: T -> Printout, xs: seq<T>, j: nat)
    requires j <= |xs|
    requires Blocks(block, xs[..j]).error.Some?
    ensures Blocks(block, xs) == Blocks(block, xs[..j])
    decreases |xs| - j
  {
    if j < |xs| {
      assert xs[..j + 1][..j] == xs[..j];
      BlocksStop(block, xs, j + 1);
    } else {
      assert xs[..j] == xs;
    }
  }

  lemma ClassBlockOk(s: Store, e: Element)
    ensures ClassBlock(s, e).error.None? <==> SuperclassesNamed(e)
  {
  }

  lemma AssociationBlockOk(s: Store, e: Element)
    ensures AssociationBlock(s, e).error.None? <==> RoleTypesNamed(e)
  {
    BlocksOk(RolePrinter(s), e.roles.items);
  }

  lemma AssociationClassBlockOk(s: Store, e: Element, asWritten: bool)
    ensures AssociationClassBlock(s, e, asWritten).error.None? <==> AssociationClassPrintable(e, asWritten)
  {
    BlocksOk(RolePrinter(s), e.roles.items);
  }

  lemma ClassesOk(s: Store, ids: seq<ElementId>)
    ensures Blocks(ClassPrinter(s), ids).error.None? <==> forall k :: 0 <= k < |ids| ==> SuperclassesNamed(ElementAt(s, ids[k]))
  {
    BlocksOk(ClassPrinter(s), ids);
    forall k | 0 <= k < |ids| ensures ClassPrinter(s)(ids[k]).error.None? <==> SuperclassesNamed(ElementAt(s, ids[k])) {
      ClassBlockOk(s, ElementAt(s, ids[k]));
    }
  }

  lemma AssociationsOk(s: Store, ids: seq<ElementId>)
    ensures Blocks(AssociationPrinter(s), ids).error.None? <==> forall k :: 0 <= k < |ids| ==> RoleTypesNamed(ElementAt(s, ids[k]))
  {
    BlocksOk(AssociationPrinter(s), ids);
    forall k | 0 <= k < |ids| ensures AssociationPrinter(s)(ids[k]).error.None? <==> RoleTypesNamed(ElementAt(s, ids[k])) {
      AssociationBlockOk(s, ElementAt(s, ids[k]));
    }
  }

  lemma AssociationClassesOk(s: Store, ids: seq<ElementId>, asWritten: bool)
    ensures Blocks(AssociationClassPrinter(s, asWritten), ids).error.None? <==>
            forall k :: 0 <= k < |ids| ==> AssociationClassPrintable(ElementAt(s, ids[k]), asWritten)
  {
    BlocksOk(AssociationClassPrinter(s, asWritten), ids);
    forall k | 0 <= k < |ids|
      ensures AssociationClassPrinter(s, asWritten)(ids[k]).error.None? <==> AssociationClassPrintable(ElementAt(s, ids[k]), asWritten)
    {
      AssociationClassBlockOk(s, ElementAt(s, ids[k]), asWritten);
    }
  }

  /** Printing a model raises iff some type it names is still a bare
      name or, as written, some association class has superclasses. */
  lemma PrintedOk(s: Store, m: Model, asWritten: bool)
    ensures Printed(s, m, asWritten).error.None? <==> Printable(s, m, asWritten)
  {
    ClassesOk(s, m.classes.Values());
    AssociationsOk(s, m.associations.Values());
    AssociationClassesOk(s, m.associationClasses.Values(), asWritten);
  }

  /** A store whose classes and associations are resolved has a name
      for every type the printer asks about. */
  lemma ResolvedPrintable(q: Store, m: Model)
    requires forall k :: 0 <= k < |ClassIds(m)| ==> ClassResolved(m, ElementAt(q, ClassIds(m)[k]))
    requires forall k :: 0 <= k < |AssociationIds(m)| ==> AssociationResolved(m, ElementAt(q, AssociationIds(m)[k]))
    ensures Printable(q, m, false)
    ensures Printable(q, m, true) <==>
      forall k :: 0 <= k < |m.associationClasses.items| ==> ElementAt(q, m.associationClasses.Values()[k]).superclasses == []
  {
    var cs, as_, acs := m.classes.Values(), m.associations.Values(), m.associationClasses.Values();
    forall k | 0 <= k < |cs| ensures SuperclassesNamed(ElementAt(q, cs[k])) {
      assert ClassIds(m)[k] == cs[k];
      assert ClassResolved(m, ElementAt(q, ClassIds(m)[k]));
    }
    forall k | 0 <= k < |as_| ensures RoleTypesNamed(ElementAt(q, as_[k])) {
      assert AssociationIds(m)[k] == as_[k];
      assert AssociationResolved(m, ElementAt(q, AssociationIds(m)[k]));
    }
    forall k | 0 <= k < |acs| ensures SuperclassesNamed(ElementAt(q, acs[k])) && RoleTypesNamed(ElementAt(q, acs[k])) {
      assert ClassIds(m)[|cs| + k] == acs[k];
      assert AssociationIds(m)[|as_| + k] == acs[k];
      assert ClassResolved(m, ElementAt(q, ClassIds(m)[|cs| + k]));
      assert AssociationResolved(m, ElementAt(q, AssociationIds(m)[|as_| + k]));
    }
  }

  /** A resolved model prints as intended; as written it prints iff no
      association class has superclasses. */
  lemma ResolvedModelPrints(s: Store, m: Model)
    requires InStore(s, m)
    requires ResolveModel(s, m).Ok?
    ensures var q := ResolveModel(s, m).value.store;
      Printed(q, m, false).error.None? &&
      (Printed(q, m, true).error.None? <==>
         forall k :: 0 <= k < |m.associationClasses.items| ==> ElementAt(q, m.associationClasses.Values()[k]).superclasses == [])
  {
    var q := ResolveModel(s, m).value.store;
    ModelResolved(s, m);
    ResolvedPrintable(q, m);
    PrintedOk(q, m, false);
    PrintedOk(q, m, true);
  }

  /** Where no association class has superclasses, the printer as
      written and as intended print the same text. */
  lemma AsWrittenAgrees(s: Store, m: Model)
    requires forall k :: 0 <= k < |m.associationClasses.items| ==> ElementAt(s, m.associationClasses.Values()[k]).superclasses == []
    ensures Printed(s, m, true) == Printed(s, m, false)
  {
    var acs := m.associationClasses.Values();
    forall i | 0 <= i < |acs| ensures AssociationClassPrinter(s, true)(acs[i]) == AssociationClassPrinter(s, false)(acs[i]) {
      assert ElementAt(s, acs[i]).superclasses == [];
    }
    BlocksAgree(AssociationClassPrinter(s, true), AssociationClassPrinter(s, false), acs);
  }

  /** As written, association classes that print as intended either
      print or raise `AttributeError` on `values`. */
  lemma AssociationClassesAsWritten(s: Store, acs: seq<ElementId>)
    requires forall i :: 0 <= i < |acs| ==> AssociationClassPrintable(ElementAt(s, acs[i]), false)
    ensures Blocks(AssociationClassPrinter(s, true), acs).error.None? ||
            Blocks(AssociationClassPrinter(s, true), acs).error == Some(AttributeError("values"))
  {
    forall i | 0 <= i < |acs|
      ensures AssociationClassPrinter(s, true)(acs[i]).error.None? ||
              AssociationClassPrinter(s, true)(acs[i]).error == Some(AttributeError("values"))
    {
      var e := ElementAt(s, acs[i]);
      assert AssociationClassPrintable(e, false);
      BlocksOk(RolePrinter(s), e.roles.items);
    }
    BlocksError(AssociationClassPrinter(s, true), acs, AttributeError("values"));
  }

  /** As written, a model that prints as intended but has an
      association class with superclasses raises `AttributeError` on
      `values`. */
  lemma AsWrittenRefusesSuperclasses(s: Store, m: Model, k: nat)
    requires Printable(s, m, false)
    requires k < |m.associationClasses.items| && ElementAt(s, m.associationClasses.Values()[k]).superclasses != []
    ensures Printed(s, m, true).error == Some(AttributeError("values"))
  {
    PrintedOk(s, m, true);
    PrintedOk(s, m, false);
    AssociationClassesAsWritten(s, m.associationClasses.Values());
  }

  /** An enumeration line lists the literals between `enum { ` and
      ` };`, and splitting that text at the commas gives them back when
      no literal holds a comma. */
  lemma EnumerationLineRoundTrip(e: Enumeration)
    requires |e.literals| >= 1
    requires forall i :: 0 <= i < |e.literals| ==> ',' !in e.literals[i]
    ensures var t := EnumerationText(e);
      |t| >= 11 && t[..7] == "enum { " && t[|t| - 4..] == " };\n" && Split(t[7..|t| - 4], ",") == e.literals
  {
    var inner := Join(e.literals, [',']);
    var t := EnumerationText(e);
    assert t == "enum { " + inner + " };\n";
    assert t[7..|t| - 4] == inner;
    SplitJoin(e.literals, ',');
  }

  // ---------------------------------------------------------------
  // The printer object

  /** One more step of a run. */
  lemma BlocksStep<T>(block: T -> Printout, xs: seq<T>, i: nat)
    requires i < |xs|
    ensures Blocks(block, xs[..i + 1]) == Then(Blocks(block, xs[..i]), block(xs[i]))
  {
    assert xs[..i + 1][..i] == xs[..i];
  }

  lemma Regroup(a: string, b: string, c: string)
    ensures a + b + c == a + (b + c)
  {
  }

  /** One more line. */
  lemma LinesStep<T>(line: T -> string, xs: seq<T>, i: nat)
    requires i < |xs|
    ensures Lines(line, xs[..i + 1]) == Lines(line, xs[..i]) + line(xs[i])
  {
    assert xs[..i + 1][..i] == xs[..i];
  }

  class UseOclPrinter {
    const theModel: Model
    const store: Store
    var output: string

    constructor(store: Store, model: Model)
      ensures theModel == model && this.store == store && output == ""
    {
      theModel := model;
      this.store := store;
      output := "";
    }

    /** `do()` as written. */
    method Do() returns (r: Result<string>)
      modifies this
      ensures output == Printed(store, theModel, true).text
      ensures r == Outcome(Printed(store, theModel, true))
    {
      output := "";
      var err := PrintModel(true);
      r := if err.None? then Ok(output) else Err(err.value);
    }

    /** `do()` with association-class superclasses printed by name. */
    method DoIntended() returns (r: Result<string>)
      modifies this
      ensures output == Printed(store, theModel, false).text
      ensures r == Outcome(Printed(store, theModel, false))
    {
      output := "";
      var err := PrintModel(false);
      r := if err.None? then Ok(output) else Err(err.value);
    }

    method Out(s: string)
      modifies this
      ensures output == old(output) + s
    {
      output := output + s;
    }

    /** `model(m)` */
    method PrintModel(asWritten: bool) returns (err: Option<PyError>)
      modifies this
      ensures output == old(output) + Printed(store, theModel, asWritten).text
      ensures err == Printed(store, theModel, asWritten).error
    {
      ghost var h := ModelHeader(theModel);
      ghost var c := Blocks(ClassPrinter(store), theModel.classes.Values());
      ghost var a := Blocks(AssociationPrinter(store), theModel.associations.Values());
      ghost var ac := Blocks(AssociationClassPrinter(store, asWritten), theModel.associationClasses.Values());
      PrintHeader();
      err := PrintClasses(theModel.classes.Values());
      Regroup(old(output), h, c.text);
      if err.Some? { return; }
      err := PrintAssociations(theModel.associations.Values());
      Regroup(old(output) + h, c.text, a.text);
      Regroup(old(output), h, c.text + a.text);
      if err.Some? { return; }
      err := PrintAssociationClasses(theModel.associationClasses.Values(), asWritten);
      Regroup(old(output) + h + c.text, a.text, ac.text);
      Regroup(old(output) + h, c.text, a.text + ac.text);
      Regroup(old(output), h, c.text + (a.text + ac.text));
    }

    /** The model line and `enumeration(e)` for every enumeration. */
    method PrintHeader()
      modifies this
      ensures output == old(output) + ModelHeader(theModel)
    {
      Out("model " + theModel.name + "\n\n");
      ghost var start := output;
      var es := theModel.enumerations.Values();
      for i := 0 to |es|
        invariant output == start + Lines(EnumerationText, es[..i])
      {
        LinesStep(EnumerationText, es, i);
        Regroup(start, Lines(EnumerationText, es[..i]), EnumerationText(es[i]));
        Out(EnumerationText(es[i]));
      }
      assert es[..|es|] == es;
    }

    method PrintClasses(ids: seq<ElementId>) returns (err: Option<PyError>)
      modifies this
      ensures output == old(output) + Blocks(ClassPrinter(store), ids).text
      ensures err == Blocks(ClassPrinter(store), ids).error
    {
      for i := 0 to |ids|
        invariant output == old(output) + Blocks(ClassPrinter(store), ids[..i]).text
        invariant Blocks(ClassPrinter(store), ids[..i]).error.None?
      {
        BlocksStep(ClassPrinter(store), ids, i);
        Regroup(old(output), Blocks(ClassPrinter(store), ids[..i]).text, ClassPrinter(store)(ids[i]).text);
        err := PrintClass(ElementAt(store, ids[i]));
        if err.Some? {
          BlocksStop(ClassPrinter(store), ids, i + 1);
          return;
        }
      }
      assert ids[..|ids|] == ids;
      err := None;
    }

    method PrintAssociations(ids: seq<ElementId>) returns (err: Option<PyError>)
      modifies this
      ensures output == old(output) + Blocks(AssociationPrinter(store), ids).text
      ensures err == Blocks(AssociationPrinter(store), ids).error
    {
      for i := 0 to |ids|
        invariant output == old(output) + Blocks(AssociationPrinter(store), ids[..i]).text
        invariant Blocks(AssociationPrinter(store), ids[..i]).error.None?
      {
        BlocksStep(AssociationPrinter(store), ids, i);
        Regroup(old(output), Blocks(AssociationPrinter(store), ids[..i]).text, AssociationPrinter(store)(ids[i]).text);
        err := PrintAssociation(ElementAt(store, ids[i]));
        if err.Some? {
          BlocksStop(AssociationPrinter(store), ids, i + 1);
          return;
        }
      }
      assert ids[..|ids|] == ids;
      err := None;
    }

    method PrintAssociationClasses(ids: seq<ElementId>, asWritten: bool) returns (err: Option<PyError>)
      modifies this
      ensures output == old(output) + Blocks(AssociationClassPrinter(store, asWritten), ids).text
      ensures err == Blocks(AssociationClassPrinter(store, asWritten), ids).error
    {
      for i := 0 to |ids|
        invariant output == old(output) + Blocks(AssociationClassPrinter(store, asWritten), ids[..i]).text
        invariant Blocks(AssociationClassPrinter(store, asWritten), ids[..i]).error.None?
      {
        BlocksStep(AssociationClassPrinter(store, asWritten), ids, i);
        Regroup(old(output), Blocks(AssociationClassPrinter(store, asWritten), ids[..i]).text, AssociationClassPrinter(store, asWritten)(ids[i]).text);
        err := PrintAssociationClass(ElementAt(store, ids[i]), asWritten);
        if err.Some? {
          BlocksStop(AssociationClassPrinter(store, asWritten), ids, i + 1);
          return;
        }
      }
      assert ids[..|ids|] == ids;
      err := None;
    }

    /** `class_(c)` */
    method PrintClass(e: Element) returns (err: Option<PyError>)
      modifies this
      ensures output == old(output) + ClassBlock(store, e).text
      ensures err == ClassBlock(store, e).error
    {
      var header := ClassHeader(store, e);
      if header.Err? {
        return Some(header.error);
      }
      Out(header.value);
      PrintFeatures(e);
      Regroup(old(output), header.value, Features(store, e));
      Out("end\n\n");
      Regroup(old(output), header.value + Features(store, e), "end\n\n");
      err := None;
    }

    /** `association(a)` */
    method PrintAssociation(e: Element) returns (err: Option<PyError>)
      modifies this
      ensures output == old(output) + AssociationBlock(store, e).text
      ensures err == AssociationBlock(store, e).error
    {
      var h := e.associationKind + " " + e.name + " between\n";
      ghost var b := Blocks(RolePrinter(store), e.roles.items).text;
      Out(h);
      err := PrintRoles(e.roles.items);
      Regroup(old(output), h, b);
      if err.None? {
        Out("end\n\n");
        Regroup(old(output) + h, b, "end\n\n");
        Regroup(old(output), h, b + "end\n\n");
      }
    }

    /** `associationClass(ac)` */
    method PrintAssociationClass(e: Element, asWritten: bool) returns (err: Option<PyError>)
      modifies this
      ensures output == old(output) + AssociationClassBlock(store, e, asWritten).text
      ensures err == AssociationClassBlock(store, e, asWritten).error
    {
      var header := AssociationClassHeader(store, e, asWritten);
      if header.Err? {
        return Some(header.error);
      }
      var h := header.value;
      ghost var b := Blocks(RolePrinter(store), e.roles.items).text;
      ghost var f := Features(store, e) + "end\n\n";
      Out(h);
      err := PrintRoles(e.roles.items);
      Regroup(old(output), h, b);
      if err.None? {
        PrintFeatures(e);
        Out("end\n\n");
        Regroup(old(output) + h + b, Features(store, e), "end\n\n");
        Regroup(old(output) + h, b, f);
        Regroup(old(output), h, b + f);
      }
    }

    /** `role(r)` for every role. */
    method PrintRoles(roles: seq<(string, Role)>) returns (err: Option<PyError>)
      modifies this
      ensures output == old(output) + Blocks(RolePrinter(store), roles).text
      ensures err == Blocks(RolePrinter(store), roles).error
    {
      for i := 0 to |roles|
        invariant output == old(output) + Blocks(RolePrinter(store), roles[..i]).text
        invariant Blocks(RolePrinter(store), roles[..i]).error.None?
      {
        BlocksStep(RolePrinter(store), roles, i);
        var line := RoleLine(store, roles[i].1);
        Regroup(old(output), Blocks(RolePrinter(store), roles[..i]).text, line.text);
        if line.error.Some? {
          BlocksStop(RolePrinter(store), roles, i + 1);
          return line.error;
        }
        Out(line.text);
      }
      assert roles[..|roles|] == roles;
      err := None;
    }

    /** The attributes and operations sections. */
    method PrintFeatures(e: Element)
      modifies this
      ensures output == old(output) + Features(store, e)
    {
      PrintAttributes(e.attributes.items);
      ghost var middle := output;
      PrintOperations(e.operations.Values());
      assert output == old(output) + AttributesText(store, e.attributes.items) + OperationsText(store, e.operations.Values());
    }

    /** `attribute(a)` for every attribute, after `attributes` when
        there is one. */
    method PrintAttributes(attributes: seq<(string, Attribute)>)
      modifies this
      ensures output == old(output) + AttributesText(store, attributes)
    {
      if attributes != [] {
        Out("attributes\n");
        ghost var start := output;
        for i := 0 to |attributes|
          invariant output == start + Lines(AttributeLine(store), attributes[..i])
        {
          LinesStep(AttributeLine(store), attributes, i);
          Regroup(start, Lines(AttributeLine(store), attributes[..i]), AttributeLine(store)(attributes[i]));
          Out(AttributeLine(store)(attributes[i]));
        }
        assert attributes[..|attributes|] == attributes;
        Regroup(old(output), "attributes\n", Lines(AttributeLine(store), attributes));
      }
    }

    /** `operation(o)` for every operation, after `operations` when
        there is one. */
    method PrintOperations(operations: seq<OperationId>)
      modifies this
      ensures output == old(output) + OperationsText(store, operations)
    {
      if operations != [] {
        Out("operations\n");
        ghost var start := output;
        for i := 0 to |operations|
          invariant output == start + Lines(OperationLine(store), operations[..i])
        {
          LinesStep(OperationLine(store), operations, i);
          Regroup(start, Lines(OperationLine(store), operations[..i]), OperationLine(store)(operations[i]));
          Out(OperationLine(store)(operations[i]));
        }
        assert operations[..|operations|] == operations;
        Regroup(old(output), "operations\n", Lines(OperationLine(store), operations));
      }
    }
  }
}
