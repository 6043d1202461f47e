/** The line-by-line parser of the canonical form that the USE tool prints
    for a model: every line is matched against the line patterns in a
    fixed order, and the first pattern that matches in the current
    context registers an entity in the model. The parser remembers the
    class, association, invariant, operation and operation condition it
    is inside of, so that member lines are attached to them. */
module CanonicalParser {
  import opened Wrappers
  import opened Text
  import opened OrderedMaps
  import opened UseModel
  import opened CanonicalLines

  /** The entities that member lines are attached to. */
  datatype Context = Context(
    currentClass: Option<ElementId>,
    currentAssociation: Option<ElementId>,
    currentInvariant: Option<InvariantId>,
    currentOperation: Option<OperationId>,
    currentCondition: Option<OperationId>)   // the operation a `context C::op` line selected

  const NoContext := Context(None, None, None, None, None)

  /** The parser's state: every entity created so far, the current model
      (none before the first `model` line) and the context. */
  datatype ParserState = ParserState(store: Store, model: Option<Model>, context: Context)

  /** The context only refers to entities that exist. */
  predicate ContextInStore(s: Store, c: Context) {
    (c.currentClass.Some? ==> c.currentClass.value < |s.elements|) &&
    (c.currentAssociation.Some? ==> c.currentAssociation.value < |s.elements|) &&
    (c.currentInvariant.Some? ==> c.currentInvariant.value < |s.invariants|) &&
    (c.currentOperation.Some? ==> c.currentOperation.value < |s.operations|) &&
    (c.currentCondition.Some? ==> c.currentCondition.value < |s.operations|)
  }

  /** The model's tables only refer to entities that exist. */
  predicate ModelInStore(s: Store, m: Option<Model>) {
    m.Some? ==> InStore(s, m.value)
  }

  lemma ModelInStoreGrows(s: Store, t: Store, m: Option<Model>)
    requires ModelInStore(s, m) && Grows(s, t)
    ensures ModelInStore(t, m)
  {
    if m.Some? { InStoreGrows(s, t, m.value); }
  }

  predicate Valid(st: ParserState) {
    ContextInStore(st.store, st.context) && ModelInStore(st.store, st.model)
  }

  /** Entities are only ever added. */
  predicate Grows(s: Store, t: Store) {
    |s.elements| <= |t.elements| && |s.operations| <= |t.operations| && |s.invariants| <= |t.invariants|
  }

  /** A step leaves a valid state with at least the entities it had. */
  predicate Advances(st: ParserState, r: Result<Option<ParserState>>) {
    r.Ok? && r.value.Some? ==> Valid(r.value.value) && Grows(st.store, r.value.value.store)
  }

  /** The exceptions a line can raise: a registration before any `model`
      line, an unknown operation in a condition header, a cardinality
      bound that is not an integer. */
  predicate ExpectedFailure(st: ParserState, r: Result<Option<ParserState>>) {
    r.Err? ==> (r.error.AttributeError? && st.model.None?) || r.error.KeyError? || r.error.ValueError?
  }

  // ---- which lines are claimed --------------------------------------------

  /** Declaration lines, claimed in every context. */
  predicate ClaimsHeader(line: string) {
    MatchModel(line).Some? || MatchEnum(line).Some? ||
    MatchClassHeader(line, "class", "").Some? || MatchClassHeader(line, "associationclass", " between").Some?
  }

  /** Attribute and operation lines inside a class, operation bodies
      after an operation whose line ends with ` = `. */
  predicate ClaimsClassMember(c: Context, line: string) {
    (c.currentClass.Some? && (MatchAttribute(line).Some? || MatchOperation(line).Some?)) ||
    (c.currentOperation.Some? && MatchOperationExpression(line).Some?)
  }

  predicate ClaimsAssociationPart(c: Context, line: string) {
    MatchAssociation(line).Some? || (c.currentAssociation.Some? && MatchRole(line).Some?)
  }

  predicate ClaimsConstraintPart(c: Context, line: string) {
    MatchInvariantHeader(line).Some? ||
    (c.currentInvariant.Some? && MatchInvariantExpression(line).Some?) ||
    MatchConditionHeader(line).Some? ||
    (c.currentCondition.Some? && MatchConditionBody(line).Some?) ||
    line == "end"
  }

  /** Some pattern accepts the line in context `c`, whatever the order in
      which the patterns are tried. */
  predicate Claimed(c: Context, line: string) {
    IsIgnorable(line) || ClaimsHeader(line) || ClaimsClassMember(c, line) ||
    ClaimsAssociationPart(c, line) || ClaimsConstraintPart(c, line)
  }

  /** `'Parser: cannot process line "%s"' % line` */
  function CannotProcess(line: string): string {
    "Parser: cannot process line \"" + line + "\""
  }

  // ---- one line -------------------------------------------------------------

  /** The body of the parser's loop for one line: `Ok(None)` when no
      pattern claims the line (the caller then records it as an error),
      `Err` when registering the line raises. */
  function Step(st: ParserState, line: string): (r: Result<Option<ParserState>>)
    requires Valid(st)
    ensures Advances(st, r) && ExpectedFailure(st, r)
    ensures r.Ok? ==> (r.value.None? <==> !Claimed(st.context, line))
  {
    if IsIgnorable(line) then Ok(Some(st)) else StepHeader(st, line)
  }

  function StepHeader(st: ParserState, line: string): (r: Result<Option<ParserState>>)
    requires Valid(st)
    ensures Advances(st, r) && ExpectedFailure(st, r)
    ensures r.Ok? ==>
      (r.value.None? <==>
       !(ClaimsHeader(line) || ClaimsClassMember(st.context, line) ||
         ClaimsAssociationPart(st.context, line) || ClaimsConstraintPart(st.context, line)))
  {
    var name := MatchModel(line);
    var e := MatchEnum(line);
    var c := MatchClassHeader(line, "class", "");
    var ac := MatchClassHeader(line, "associationclass", " between");
    if name.Some? then
      Ok(Some(st.(model := Some(NewModel(name.value)))))
    else if e.Some? then
      StepEnum(st, e.value)
    else if c.Some? then
      StepClass(st, c.value)
    else if ac.Some? then
      StepAssociationClass(st, ac.value)
    else
      StepClassMember(st, line)
  }

  function StepClassMember(st: ParserState, line: string): (r: Result<Option<ParserState>>)
    requires Valid(st)
    ensures Advances(st, r) && ExpectedFailure(st, r)
    ensures r.Ok? ==>
      (r.value.None? <==>
       !(ClaimsClassMember(st.context, line) || ClaimsAssociationPart(st.context, line) ||
         ClaimsConstraintPart(st.context, line)))
  {
    var c := st.context;
    var a := MatchAttribute(line);
    var o := MatchOperation(line);
    var x := MatchOperationExpression(line);
    if a.Some? && c.currentClass.Some? then
      Ok(Some(StepAttribute(st, a.value)))
    else if o.Some? && c.currentClass.Some? then
      StepOperation(st, o.value, EndsWith(line, " = "))
    else if x.Some? && c.currentOperation.Some? then
      Ok(Some(StepOperationExpression(st, x.value)))
    else
      StepAssociationPart(st, line)
  }

  /** An attribute line adds the attribute to the current class. */
  function StepAttribute(st: ParserState, a: AttributeMatch): (r: ParserState)
    requires Valid(st) && st.context.currentClass.Some?
    ensures Valid(r) && Grows(st.store, r.store)
    ensures r == st.(store := AddAttribute(st.store, st.context.currentClass.value, a.name, a.typeName))
  {
    var s := AddAttribute(st.store, st.context.currentClass.value, a.name, a.typeName);
    ModelInStoreGrows(st.store, s, st.model);
    st.(store := s)
  }

  /** An operation body line sets the expression of the current
      operation, which stays current. */
  function StepOperationExpression(st: ParserState, x: string): (r: ParserState)
    requires Valid(st) && st.context.currentOperation.Some?
    ensures Valid(r) && Grows(st.store, r.store)
    ensures var id := st.context.currentOperation.value;
      r == st.(store := WithOperation(st.store, id, OperationAt(st.store, id).(expression := Some(x))))
  {
    var id := st.context.currentOperation.value;
    var s := WithOperation(st.store, id, OperationAt(st.store, id).(expression := Some(x)));
    ModelInStoreGrows(st.store, s, st.model);
    st.(store := s)
  }

  function StepAssociationPart(st: ParserState, line: string): (r: Result<Option<ParserState>>)
    requires Valid(st)
    ensures Advances(st, r) && ExpectedFailure(st, r)
    ensures r.Ok? ==>
      (r.value.None? <==> !(ClaimsAssociationPart(st.context, line) || ClaimsConstraintPart(st.context, line)))
  {
    var a := MatchAssociation(line);
    var role := MatchRole(line);
    if a.Some? then
      StepAssociation(st, a.value)
    else if role.Some? && st.context.currentAssociation.Some? then
      StepRole(st, role.value)
    else
      StepConstraintPart(st, line)
  }

  function StepConstraintPart(st: ParserState, line: string): (r: Result<Option<ParserState>>)
    requires Valid(st)
    ensures Advances(st, r) && ExpectedFailure(st, r)
    ensures r.Ok? ==> (r.value.None? <==> !ClaimsConstraintPart(st.context, line))
  {
    var c := st.context;
    var i := MatchInvariantHeader(line);
    var x := MatchInvariantExpression(line);
    var h := MatchConditionHeader(line);
    var b := MatchConditionBody(line);
    if i.Some? then
      StepInvariant(st, i.value)
    else if x.Some? && c.currentInvariant.Some? then
      var id := c.currentInvariant.value;
      Ok(Some(ParserState(WithInvariant(st.store, id, InvariantAt(st.store, id).(expression := Some(x.value))),
                          st.model, c.(currentInvariant := None))))
    else if h.Some? then
      StepConditionHeader(st, h.value)
    else if b.Some? && c.currentCondition.Some? then
      StepConditionBody(st, b.value)
    else if line == "end" then
      Ok(Some(st.(context := c.(currentClass := None, currentAssociation := None))))
    else
      Ok(None)
  }

  // ---- registrations ----------------------------------------------------------

  /** The current model; Python raises `AttributeError` on `None.<table>`
      when no `model` line came first. */
  function ModelFor(st: ParserState, table: string): (r: Result<Model>)
    ensures r.Ok? <==> st.model.Some?
    ensures r.Ok? ==> r.value == st.model.value
    ensures r.Err? ==> r.error == AttributeError(table)
  {
    if st.model.Some? then Ok(st.model.value) else Err(AttributeError(table))
  }

  function StepEnum(st: ParserState, e: EnumMatch): (r: Result<Option<ParserState>>)
    requires Valid(st)
    ensures Advances(st, r) && ExpectedFailure(st, r)
    ensures r.Ok? ==> r.value.Some?
  {
    var m :- ModelFor(st, "enumerations");
    Ok(Some(st.(model := Some(AddEnumeration(m, e.name, Split(e.literals, ", "))))))
  }

  /** `superclasses.split(',')`, or no superclasses. */
  function Superclasses(c: ClassMatch): seq<string> {
    if c.superclasses.Some? then Split(c.superclasses.value, ",") else []
  }

  function StepClass(st: ParserState, c: ClassMatch): (r: Result<Option<ParserState>>)
    requires Valid(st)
    ensures Advances(st, r) && ExpectedFailure(st, r)
    ensures r.Ok? ==> r.value.Some?
  {
    var m :- ModelFor(st, "classes");
    var k := AddClass(st.store, m, c.name, c.isAbstract, Superclasses(c));
    Ok(Some(ParserState(k.store, Some(k.model), st.context.(currentClass := Some(k.id)))))
  }

  function StepAssociationClass(st: ParserState, c: ClassMatch): (r: Result<Option<ParserState>>)
    requires Valid(st)
    ensures Advances(st, r) && ExpectedFailure(st, r)
    ensures r.Ok? ==> r.value.Some?
  {
    var m :- ModelFor(st, "associations");
    var k := AddAssociationClass(st.store, m, c.name, c.isAbstract, Superclasses(c));
    Ok(Some(ParserState(k.store, Some(k.model),
                        st.context.(currentClass := Some(k.id), currentAssociation := Some(k.id)))))
  }

  /** An operation line: the signature is the name followed by the rest
      of the line; the operation becomes current only when its line ends
      with ` = ` (a body follows). */
  function StepOperation(st: ParserState, o: OperationMatch, hasBody: bool): (r: Result<Option<ParserState>>)
    requires Valid(st) && st.context.currentClass.Some?
    ensures Advances(st, r) && ExpectedFailure(st, r)
    ensures r.Ok? ==> r.value.Some?
  {
    var m :- ModelFor(st, "operations");
    var k := AddOperation(st.store, m, st.context.currentClass.value, o.name, o.name + o.paramsAndResult);
    assert ModelInStore(k.store, Some(k.model));
    Ok(Some(ParserState(k.store, Some(k.model),
                        st.context.(currentOperation := if hasBody then Some(k.id) else None))))
  }

  function StepAssociation(st: ParserState, a: AssociationMatch): (r: Result<Option<ParserState>>)
    requires Valid(st)
    ensures Advances(st, r) && ExpectedFailure(st, r)
    ensures r.Ok? ==> r.value.Some?
  {
    var m :- ModelFor(st, "associations");
    var k := AddAssociation(st.store, m, a.name, a.kind);
    Ok(Some(ParserState(k.store, Some(k.model), st.context.(currentAssociation := Some(k.id)))))
  }

  /** Reads a cardinality: `*`, `n`, `n..*` or `n..m`. Python's `int`
      raises `ValueError` on a bound that is not an integer. */
  function ParseCardinality(text: string): (r: Result<(int, Option<int>)>)
    ensures r.Err? ==> r.error.ValueError?
  {
    CardinalityOf(Split(text, ".."))
  }

  /** The bounds given by the pieces of `cardinality.split('..')`. */
  function CardinalityOf(c: seq<string>): (r: Result<(int, Option<int>)>)
    requires |c| >= 1
    ensures r.Err? ==> r.error.ValueError?
  {
    if c[0] == "*" then Ok((0, None))
    else if |c| == 1 then
      var n :- IntOf(c[0]);
      Ok((n, Some(n)))
    else
      var min :- IntOf(c[0]);
      if c[1] == "*" then Ok((min, None))
      else
        var max :- IntOf(c[1]);
        Ok((min, Some(max)))
  }

  /** `int(s)` */
  function IntOf(s: string): (r: Result<int>)
    ensures r.Err? ==> r.error.ValueError?
    ensures IsDigits(s) ==> r == Ok(DigitsValue(s))
  {
    match ParseInt(s)
    case Some(n) => Ok(n)
    case None => Err(ValueError("invalid literal for int() with base 10: '" + s + "'"))
  }

  /** `subsets.split('subsets ')[1:]`, or `None` when the line names no
      subsetted role. */
  function SubsetsOf(subsets: string): Option<seq<string>> {
    if subsets == "" then None else Some(Split(subsets, "subsets ")[1..])
  }

  /** `[tuple(q.split(' : ')) for q in qualifiers.split(', ')]` */
  function QualifiersOf(qualifiers: Option<string>): Option<seq<Qualifier>> {
    if qualifiers.None? then None
    else
      var qs := Split(qualifiers.value, ", ");
      Some(seq(|qs|, i requires 0 <= i < |qs| => RawQualifier(Split(qs[i], " : "))))
  }

  /** The role a role line describes, before resolution: its type is a
      class name and it has no opposite yet. */
  function RoleOf(m: RoleMatch, cardinality: (int, Option<int>)): (r: Role)
    ensures r.opposite == None
  {
    Role(m.name, cardinality.0, cardinality.1, TypeName(m.typeName), m.isOrdered,
         QualifiersOf(m.qualifiers), SubsetsOf(m.subsets), m.isUnion, m.expression, None)
  }

  function StepRole(st: ParserState, m: RoleMatch): (r: Result<Option<ParserState>>)
    requires Valid(st) && st.context.currentAssociation.Some?
    ensures Advances(st, r) && ExpectedFailure(st, r)
    ensures r.Ok? ==> r.value.Some?
  {
    var cardinality :- ParseCardinality(m.cardinality);
    Ok(Some(st.(store := AddRole(st.store, st.context.currentAssociation.value, RoleOf(m, cardinality)))))
  }

  /** An invariant header: the first variable is the context variable,
      the others are additional variables. */
  function StepInvariant(st: ParserState, i: InvariantMatch): (r: Result<Option<ParserState>>)
    requires Valid(st)
    ensures Advances(st, r) && ExpectedFailure(st, r)
    ensures r.Ok? ==> r.value.Some?
  {
    var m :- ModelFor(st, "invariants");
    var variables := Split(i.variables, ", ");
    var k := AddInvariant(st.store, m, i.name, i.className, variables[0], variables[1..], i.isExistential);
    Ok(Some(ParserState(k.store, Some(k.model), st.context.(currentInvariant := Some(k.id)))))
  }

  /** `context C::signature`: the operation must already be registered
      under its full signature, or `KeyError`. */
  function StepConditionHeader(st: ParserState, h: ConditionHeaderMatch): (r: Result<Option<ParserState>>)
    requires Valid(st)
    ensures Advances(st, r) && ExpectedFailure(st, r)
    ensures r.Ok? ==> r.value.Some?
  {
    var m :- ModelFor(st, "operations");
    var full := FullSignature(h.className, h.signature);
    match m.operations.Get(full)
    case None => Err(KeyError(full))
    case Some(id) =>
      assert (full, id) in m.operations.items;
      Ok(Some(st.(context := st.context.(currentCondition := Some(id)))))
  }

  function StepConditionBody(st: ParserState, b: ConditionBodyMatch): (r: Result<Option<ParserState>>)
    requires Valid(st) && st.context.currentCondition.Some?
    ensures Advances(st, r) && ExpectedFailure(st, r)
    ensures r.Ok? ==> r.value.Some?
  {
    var m :- ModelFor(st, "operationConditions");
    var kind := if b.kind == "pre" then Pre else Post;
    var (s, m') := AddCondition(st.store, m, st.context.currentCondition.value, b.name, kind, b.expression);
    Ok(Some(ParserState(s, Some(m'), st.context.(currentCondition := None))))
  }

  // ---- properties of one step ---------------------------------------------------

  /** Lines that start with a space are never declarations. */
  lemma IndentedLine(line: string)
    requires |line| > 0 && line[0] == ' '
    ensures !ClaimsHeader(line) && MatchAssociation(line).None?
    ensures MatchInvariantHeader(line).None? && MatchConditionHeader(line).None? && line != "end"
  {
  }

  /** `end` closes the current class and association and nothing else:
      an open invariant, operation or condition stays open. */
  lemma EndLine(st: ParserState)
    requires Valid(st)
    ensures Step(st, "end") == Ok(Some(st.(context := st.context.(currentClass := None, currentAssociation := None))))
  {
    EndLineShape();
    assert Step(st, "end") == StepAssociationPart(st, "end");
    assert StepAssociationPart(st, "end") == StepConstraintPart(st, "end");
  }

  /** `end` matches no pattern but its own. */
  lemma EndLineShape()
    ensures !IsIgnorable("end") && !ClaimsHeader("end")
    ensures MatchAttribute("end").None? && MatchOperation("end").None? && MatchOperationExpression("end").None?
    ensures MatchAssociation("end").None? && MatchRole("end").None?
    ensures MatchInvariantHeader("end").None? && MatchInvariantExpression("end").None?
    ensures MatchConditionHeader("end").None? && MatchConditionBody("end").None?
  {
  }

  /** A `model` line starts a new, empty model; the context and every
      entity created so far are kept. */
  lemma ModelLine(st: ParserState, name: string)
    requires Valid(st) && IsWord(name)
    ensures Step(st, "model " + name) == Ok(Some(st.(model := Some(NewModel(name)))))
  {
    var line := "model " + name;
    assert line[0] == 'm';
    assert !IsIgnorable(line);
  }

  /** Outside a class and an association, an indented line after an
      invariant header is that invariant's expression, and the invariant
      is then closed. */
  lemma InvariantExpressionLine(st: ParserState, e: string)
    requires Valid(st) && st.context.currentInvariant.Some?
    requires st.context.currentClass == None && st.context.currentAssociation == None
    requires |e| > 0 && e[0] != ' ' && !IsIgnorable("  " + e)
    ensures var i := st.context.currentInvariant.value;
      Step(st, "  " + e) ==
      Ok(Some(ParserState(WithInvariant(st.store, i, InvariantAt(st.store, i).(expression := Some(e))),
                          st.model, st.context.(currentInvariant := None))))
  {
    var line := "  " + e;
    IndentedLine(line);
    ExpectToken("  ", e);
    assert MatchOperationExpression(line).None? by {
      assert |line| <= 4 || line[..4][2] == e[0];
    }
  }

  /** Inside an association class the current class is set, so a role
      line such as `  T[0..1] role r` is taken by the operation pattern,
      which is tried before the role pattern: it registers an operation
      named after the role's type, and no role. */
  lemma AssociationClassRoleLine(st: ParserState, typeName: string, cardinality: string, name: string)
    requires Valid(st) && st.model.Some? && st.context.currentClass.Some?
    requires IsWord(typeName) && IsWord(name) && |cardinality| > 0 && ']' !in cardinality && '=' !in cardinality
    ensures var rest := "[" + (cardinality + ("] role " + name));
      var k := AddOperation(st.store, st.model.value, st.context.currentClass.value, typeName, typeName + rest);
      Step(st, RoleLine(RoleMatch(typeName, cardinality, name, None, "", false, false, None))) ==
      Ok(Some(ParserState(k.store, Some(k.model), st.context.(currentOperation := None))))
  {
    var rest := "[" + (cardinality + ("] role " + name));
    var line := RoleLine(RoleMatch(typeName, cardinality, name, None, "", false, false, None));
    RoleLineShape(typeName, cardinality, name);
    OperationLineStep(st, line, OperationMatch(typeName, rest));
    OperationWithModel(st, OperationMatch(typeName, rest));
  }

  /** A line that is no header and no attribute but matches the operation
      pattern is read as an operation of the current class. */
  lemma OperationLineStep(st: ParserState, line: string, o: OperationMatch)
    requires Valid(st) && st.context.currentClass.Some?
    requires !IsIgnorable(line) && !ClaimsHeader(line) && MatchAttribute(line).None? && MatchOperation(line) == Some(o)
    ensures Step(st, line) == StepOperation(st, o, EndsWith(line, " = "))
  {
    assert Step(st, line) == StepClassMember(st, line);
  }

  /** With a model, an operation without a body is added to the current
      class and is not left open for an expression. */
  lemma OperationWithModel(st: ParserState, o: OperationMatch)
    requires Valid(st) && st.model.Some? && st.context.currentClass.Some?
    ensures var k := AddOperation(st.store, st.model.value, st.context.currentClass.value, o.name, o.name + o.paramsAndResult);
      StepOperation(st, o, false) == Ok(Some(ParserState(k.store, Some(k.model), st.context.(currentOperation := None))))
  {
  }

  /** What the patterns make of a plain role line. */
  lemma RoleLineShape(typeName: string, cardinality: string, name: string)
    requires IsWord(typeName) && IsWord(name) && |cardinality| > 0 && ']' !in cardinality && '=' !in cardinality
    ensures var rest := "[" + (cardinality + ("] role " + name));
      var line := RoleLine(RoleMatch(typeName, cardinality, name, None, "", false, false, None));
      !IsIgnorable(line) && !ClaimsHeader(line) && MatchAttribute(line).None? &&
      MatchOperation(line) == Some(OperationMatch(typeName, rest)) && !EndsWith(line, " = ")
  {
    var rest := "[" + (cardinality + ("] role " + name));
    PlainRoleLine(typeName, cardinality, name);
    IndentedLine("  " + (typeName + rest));
    IndentedWordLine(typeName, rest);
  }

  /** The text of a plain role line: the type, the bracketed cardinality
      and the role name, with no `=` after the type and no ` = ` at the end. */
  lemma PlainRoleLine(typeName: string, cardinality: string, name: string)
    requires IsWord(name) && '=' !in cardinality
    ensures var rest := "[" + (cardinality + ("] role " + name));
      var line := RoleLine(RoleMatch(typeName, cardinality, name, None, "", false, false, None));
      line == "  " + (typeName + rest) && '=' !in rest && !EndsWith(line, " = ")
  {
    var rest := "[" + (cardinality + ("] role " + name));
    var line := "  " + (typeName + rest);
    assert RoleLine(RoleMatch(typeName, cardinality, name, None, "", false, false, None)) == line;
    assert '=' !in rest;
    var tail := "] role " + name;
    assert tail[|tail| - 1] == name[|name| - 1];
    assert rest[|rest| - 1] == tail[|tail| - 1];
    assert line[|line| - 1] == rest[|rest| - 1];
    EndsWithWordChar(line);
  }

  /** A line whose last character is a word character does not end with ` = `. */
  lemma EndsWithWordChar(line: string)
    requires |line| > 0 && IsWordChar(line[|line| - 1])
    ensures !EndsWith(line, " = ")
  {
    if |line| >= 3 {
      assert line[|line| - 3..][2] == line[|line| - 1];
    }
  }

  /** An indented line that starts with a word followed by `[` is an
      operation line and neither an attribute line nor an ignorable one. */
  lemma IndentedWordLine(word: string, rest: string)
    requires IsWord(word) && |rest| > 0 && rest[0] == '[' && '=' !in rest
    ensures MatchOperation("  " + (word + rest)) == Some(OperationMatch(word, rest))
    ensures MatchAttribute("  " + (word + rest)).None?
    ensures !IsIgnorable("  " + (word + rest))
  {
    ExpectToken("  ", word + rest);
    TakeWhileUnique(word, rest, IsWordChar);
    IndentedWordNotIgnorable(word + rest);
  }

  lemma IndentedWordNotIgnorable(t: string)
    requires |t| > 0 && IsWordChar(t[0])
    ensures !IsIgnorable("  " + t)
  {
    var line := "  " + t;
    assert SpaceSpan(line) == 2;
    assert line[2..] == t;
    assert line !in {"constraints", "attributes", "operations", "    begin", "    end", ""} by {
      assert line[0] == ' ' && line[2] != ' ';
    }
  }

  // ---- cardinalities ------------------------------------------------------------

  /** The four forms of a cardinality. */
  lemma CardinalityForms(n: string, m: string)
    requires IsDigits(n) && IsDigits(m)
    ensures ParseCardinality("*") == Ok((0, None))
    ensures ParseCardinality(n) == Ok((DigitsValue(n) as int, Some(DigitsValue(n) as int)))
    ensures ParseCardinality(n + "..*") == Ok((DigitsValue(n) as int, None))
    ensures ParseCardinality(n + (".." + m)) == Ok((DigitsValue(n) as int, Some(DigitsValue(m) as int)))
  {
    NoDots("*");
    ExactCardinality(n);
    AtLeastCardinality(n);
    RangeCardinality(n, m);
  }

  lemma ExactCardinality(n: string)
    requires IsDigits(n)
    ensures ParseCardinality(n) == Ok((DigitsValue(n) as int, Some(DigitsValue(n) as int)))
  {
    NoDots(n);
    assert n != "*" by { assert IsDigit(n[0]); }
  }

  lemma AtLeastCardinality(n: string)
    requires IsDigits(n)
    ensures ParseCardinality(n + "..*") == Ok((DigitsValue(n) as int, None))
  {
    NoDots("*");
    SplitAtDots(n, "*");
    assert ".." + "*" == "..*";
    assert Split(n + "..*", "..") == [n, "*"];
    assert n != "*" by { assert IsDigit(n[0]); }
    assert CardinalityOf([n, "*"]) == Ok((DigitsValue(n) as int, None));
  }

  lemma RangeCardinality(n: string, m: string)
    requires IsDigits(n) && IsDigits(m)
    ensures ParseCardinality(n + (".." + m)) == Ok((DigitsValue(n) as int, Some(DigitsValue(m) as int)))
  {
    NoDots(m);
    SplitAtDots(n, m);
    assert Split(n + (".." + m), "..") == [n, m];
    assert n != "*" by { assert IsDigit(n[0]); }
    assert m != "*" by { assert IsDigit(m[0]); }
    assert CardinalityOf([n, m]) == Ok((DigitsValue(n) as int, Some(DigitsValue(m) as int)));
  }

  /** A bound that is not an integer makes the cardinality raise. */
  lemma CardinalityNotANumber(n: string)
    requires ParseInt(n).None? && n != "*" && '.' !in n
    ensures ParseCardinality(n).Err? && ParseCardinality(n).error.ValueError?
  {
    NoDots(n);
  }

  lemma NoDots(n: string)
    requires '.' !in n
    ensures Split(n, "..") == [n]
  {
    forall j: nat ensures !OccursAt(n, "..", j) {
      if j + 2 <= |n| {
        assert n[j..j + 2][0] == n[j];
      }
    }
  }

  lemma SplitAtDots(n: string, rest: string)
    requires IsDigits(n)
    ensures Split(n + (".." + rest), "..") == [n] + Split(rest, "..")
  {
    var s := n + (".." + rest);
    assert OccursAt(s, "..", |n|) by {
      assert s[|n|..|n| + 2] == "..";
    }
    forall j | 0 <= j < |n| ensures !OccursAt(s, "..", j) {
      assert s[j..j + 2][0] == n[j];
    }
    assert Find(s, "..", 0) == Some(|n|);
    assert s[..|n|] == n && s[|n| + 2..] == rest;
  }

  // ---- the whole canonical form ---------------------------------------------------

  /** The state after a sequence of lines, and the lines no pattern
      claimed, in order. */
  datatype Parsed = Parsed(state: ParserState, unprocessed: seq<string>)

  /** A line that is claimed in no context. */
  predicate Unclaimable(line: string) {
    !IsIgnorable(line) && !ClaimsHeader(line) && MatchAssociation(line).None? &&
    MatchInvariantHeader(line).None? && MatchConditionHeader(line).None? && line != "end"
  }

  /** The parser's loop over the lines, as a fold: an unclaimed line is
      recorded and parsing goes on; an exception stops it. Only lines
      that no declaration pattern accepts are recorded, in the order in
      which they come. */
  function ParseLines(st: ParserState, lines: seq<string>): (r: Result<Parsed>)
    requires Valid(st)
    ensures r.Ok? ==> Valid(r.value.state) && Grows(st.store, r.value.state.store)
    ensures r.Ok? ==> |r.value.unprocessed| <= |lines|
    ensures r.Ok? ==> forall u :: u in r.value.unprocessed ==> u in lines && Unclaimable(u)
    decreases |lines|
  {
    if lines == [] then Ok(Parsed(st, []))
    else
      var p :- ParseLines(st, lines[..|lines| - 1]);
      var line := lines[|lines| - 1];
      var next :- Step(p.state, line);
      if next.None? then Ok(Parsed(p.state, p.unprocessed + [line]))
      else Ok(Parsed(next.value, p.unprocessed))
  }
}
