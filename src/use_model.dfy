/** The abstract syntax of a USE OCL model: the registry of enumerations,
    classes, associations, association classes, operations, invariants
    and pre/post-conditions that the canonical-form parser fills.

    Python objects that are shared between several tables (a class, an
    operation, an invariant) live in a `Store` and are referred to by
    their allocation index, so that an update through one table is seen
    through the others, as with Python object references. */
module UseModel {
  import opened Wrappers
  import opened OrderedMaps

  type ElementId = nat
  type OperationId = nat
  type InvariantId = nat

  datatype Enumeration = Enumeration(name: string, literals: seq<string>)

  /** Created during resolution for every type name that is not an
      enumeration (`Integer`, `String`, ...). */
  datatype BasicType = BasicType(name: string)

  /** A type as written (a name) or as resolved (the entity it denotes). */
  datatype TypeRef =
    | TypeName(name: string)
    | BasicRef(basic: BasicType)
    | EnumRef(enumeration: Enumeration)
    | ClassRef(id: ElementId)

  datatype Attribute = Attribute(name: string, attributeType: TypeRef)

  /** A role qualifier: the tuple obtained by splitting `name : type` on
      ` : ` before resolution, a (name, type) pair after it. */
  datatype Qualifier =
    | RawQualifier(parts: seq<string>)
    | TypedQualifier(name: string, qualifierType: TypeRef)

  datatype Role = Role(
    name: string,
    cardinalityMin: int,
    cardinalityMax: Option<int>,   // None: unbounded (`*`)
    roleType: TypeRef,
    isOrdered: bool,
    qualifiers: Option<seq<Qualifier>>,
    subsets: Option<seq<string>>,
    isUnion: bool,
    expression: Option<string>,
    opposite: Option<string>)      // name of the other role of a binary association

  datatype ElementKind = PlainClass | PlainAssociation | AssociationClassKind

  /** A class, an association, or an association class (which is both).
      The association fields of a plain class, and the class fields of a
      plain association, keep their initial values and are never read. */
  datatype Element = Element(
    name: string,
    kind: ElementKind,
    isAbstract: bool,
    superclasses: seq<TypeRef>,
    attributes: OrderedMap<string, Attribute>,
    operations: OrderedMap<string, OperationId>,
    invariants: OrderedMap<string, InvariantId>,
    associationKind: string,
    roles: OrderedMap<string, Role>,
    arity: nat,
    isBinary: Option<bool>)

  datatype ConditionKind = Pre | Post

  datatype OperationCondition = OperationCondition(name: string, kind: ConditionKind, expression: string)

  datatype Operation = Operation(
    name: string,
    owner: ElementId,
    signature: string,
    fullSignature: string,
    expression: Option<string>,
    conditions: OrderedMap<string, OperationCondition>)

  datatype Invariant = Invariant(
    name: string,
    classRef: TypeRef,             // a class name until resolved
    expression: Option<string>,
    variable: string,
    additionalVariables: seq<string>,
    isExistential: bool)

  /** Every entity ever created, by allocation index. */
  datatype Store = Store(elements: seq<Element>, operations: seq<Operation>, invariants: seq<Invariant>)

  /** The name-indexed tables of one model. */
  datatype Model = Model(
    name: string,
    enumerations: OrderedMap<string, Enumeration>,
    classes: OrderedMap<string, ElementId>,
    associations: OrderedMap<string, ElementId>,
    associationClasses: OrderedMap<string, ElementId>,
    operations: OrderedMap<string, OperationId>,     // by full signature `C::sig`
    invariants: seq<InvariantId>,
    operationConditions: seq<OperationCondition>,
    basicTypes: OrderedMap<string, BasicType>)

  const EmptyStore := Store([], [], [])

  const NoElement := Element("", PlainClass, false, [], Empty(), Empty(), Empty(), "", Empty(), 0, None)

  const NoOperation := Operation("", 0, "", "", None, Empty())

  const NoInvariant := Invariant("", TypeName(""), None, "", [], false)

  /** The model's tables only refer to entities that exist. */
  predicate InStore(s: Store, m: Model) {
    (forall x :: x in m.classes.items ==> x.1 < |s.elements|) &&
    (forall x :: x in m.associations.items ==> x.1 < |s.elements|) &&
    (forall x :: x in m.associationClasses.items ==> x.1 < |s.elements|) &&
    (forall x :: x in m.operations.items ==> x.1 < |s.operations|) &&
    (forall i :: i in m.invariants ==> i < |s.invariants|)
  }

  /** Adding entities keeps the tables' references valid. */
  lemma InStoreGrows(s: Store, t: Store, m: Model)
    requires InStore(s, m)
    requires |s.elements| <= |t.elements| && |s.operations| <= |t.operations| && |s.invariants| <= |t.invariants|
    ensures InStore(t, m)
  {
  }

  /** The entity with index `id`; ids always come from an allocation, the
      fallback value is never reached. */
  function ElementAt(s: Store, id: ElementId): Element {
    if id < |s.elements| then s.elements[id] else NoElement
  }

  function OperationAt(s: Store, id: OperationId): Operation {
    if id < |s.operations| then s.operations[id] else NoOperation
  }

  function InvariantAt(s: Store, id: InvariantId): Invariant {
    if id < |s.invariants| then s.invariants[id] else NoInvariant
  }

  function WithElement(s: Store, id: ElementId, e: Element): (r: Store)
    ensures |r.elements| == |s.elements|
    ensures id < |s.elements| ==> ElementAt(r, id) == e
    ensures forall j :: j != id ==> ElementAt(r, j) == ElementAt(s, j)
    ensures r.operations == s.operations && r.invariants == s.invariants
  {
    if id < |s.elements| then s.(elements := s.elements[id := e]) else s
  }

  function WithOperation(s: Store, id: OperationId, op: Operation): (r: Store)
    ensures |r.operations| == |s.operations|
    ensures id < |s.operations| ==> OperationAt(r, id) == op
    ensures forall j :: j != id ==> OperationAt(r, j) == OperationAt(s, j)
    ensures r.elements == s.elements && r.invariants == s.invariants
  {
    if id < |s.operations| then s.(operations := s.operations[id := op]) else s
  }

  function WithInvariant(s: Store, id: InvariantId, inv: Invariant): (r: Store)
    ensures |r.invariants| == |s.invariants|
    ensures id < |s.invariants| ==> InvariantAt(r, id) == inv
    ensures forall j :: j != id ==> InvariantAt(r, j) == InvariantAt(s, j)
    ensures r.elements == s.elements && r.operations == s.operations
  {
    if id < |s.invariants| then s.(invariants := s.invariants[id := inv]) else s
  }

  /** `Model(name)`: every table empty. */
  function NewModel(name: string): (m: Model)
    ensures m.name == name && m.invariants == [] && m.operationConditions == []
    ensures m.enumerations.Keys() == [] && m.classes.Keys() == [] && m.associations.Keys() == []
    ensures m.associationClasses.Keys() == [] && m.operations.Keys() == [] && m.basicTypes.Keys() == []
  {
    Model(name, Empty(), Empty(), Empty(), Empty(), Empty(), [], [], Empty())
  }

  /** `Enumeration(name, model, literals)` stores itself in
      `model.enumerations[name]`, replacing an earlier one of that name. */
  function AddEnumeration(m: Model, name: string, literals: seq<string>): (r: Model)
    ensures r.enumerations.Get(name) == Some(Enumeration(name, literals))
    ensures forall n :: n != name ==> r.enumerations.Get(n) == m.enumerations.Get(n)
    ensures r == m.(enumerations := r.enumerations)
  {
    m.(enumerations := m.enumerations.Put(name, Enumeration(name, literals)))
  }

  /** Result of a constructor that allocates a shared entity. */
  datatype Created = Created(store: Store, model: Model, id: nat)

  function ClassElement(name: string, isAbstract: bool, superclasses: seq<string>): Element {
    Element(name, PlainClass, isAbstract, seq(|superclasses|, i requires 0 <= i < |superclasses| => TypeName(superclasses[i])),
            Empty(), Empty(), Empty(), "", Empty(), 0, None)
  }

  /** `Class(name, model, isAbstract, superclasses)` stores itself in
      `model.classes[name]` with no attributes, operations or invariants;
      the superclasses stay names until resolution. */
  function AddClass(s: Store, m: Model, name: string, isAbstract: bool, superclasses: seq<string>): (r: Created)
    ensures r.id == |s.elements| && r.store.elements == s.elements + [ClassElement(name, isAbstract, superclasses)]
    ensures r.store.operations == s.operations && r.store.invariants == s.invariants
    ensures r.model.classes.Get(name) == Some(r.id)
    ensures forall n :: n != name ==> r.model.classes.Get(n) == m.classes.Get(n)
    ensures r.model == m.(classes := r.model.classes)
    ensures forall x :: x in r.model.classes.items ==> x in m.classes.items || x == (name, r.id)
  {
    var id := |s.elements|;
    Created(s.(elements := s.elements + [ClassElement(name, isAbstract, superclasses)]),
            m.(classes := m.classes.Put(name, id)), id)
  }

  /** `Attribute(name, class_, type)` stores itself in
      `class_.attributes[name]`; its type stays a name until resolution. */
  function AddAttribute(s: Store, c: ElementId, name: string, typeName: string): (r: Store)
    requires c < |s.elements|
    ensures ElementAt(r, c).attributes.Get(name) == Some(Attribute(name, TypeName(typeName)))
    ensures forall n :: n != name ==> ElementAt(r, c).attributes.Get(n) == ElementAt(s, c).attributes.Get(n)
    ensures ElementAt(r, c) == ElementAt(s, c).(attributes := ElementAt(r, c).attributes)
    ensures forall j :: j != c ==> ElementAt(r, j) == ElementAt(s, j)
    ensures |r.elements| == |s.elements| && r.operations == s.operations && r.invariants == s.invariants
  {
    var e := ElementAt(s, c);
    WithElement(s, c, e.(attributes := e.attributes.Put(name, Attribute(name, TypeName(typeName)))))
  }

  /** `'%s::%s' % (class_.name, signature)` */
  function FullSignature(className: string, signature: string): string {
    className + "::" + signature
  }

  /** `Operation(name, model, class_, signature)` stores itself in
      `class_.operations[name]` and in `model.operations` under its full
      signature `Class::signature`, with no expression and no conditions. */
  function AddOperation(s: Store, m: Model, c: ElementId, name: string, signature: string): (r: Created)
    requires c < |s.elements|
    ensures r.id == |s.operations|
    ensures r.store.operations == s.operations + [Operation(name, c, signature, FullSignature(ElementAt(s, c).name, signature), None, Empty())]
    ensures ElementAt(r.store, c).operations.Get(name) == Some(r.id)
    ensures ElementAt(r.store, c) == ElementAt(s, c).(operations := ElementAt(r.store, c).operations)
    ensures forall j :: j != c ==> ElementAt(r.store, j) == ElementAt(s, j)
    ensures |r.store.elements| == |s.elements| && r.store.invariants == s.invariants
    ensures r.model.operations.Get(FullSignature(ElementAt(s, c).name, signature)) == Some(r.id)
    ensures forall x :: x in r.model.operations.items ==>
      x in m.operations.items || x == (FullSignature(ElementAt(s, c).name, signature), r.id)
    ensures r.model == m.(operations := r.model.operations)
  {
    var e := ElementAt(s, c);
    var id := |s.operations|;
    var full := FullSignature(e.name, signature);
    var s1 := s.(operations := s.operations + [Operation(name, c, signature, full, None, Empty())]);
    Created(WithElement(s1, c, e.(operations := e.operations.Put(name, id))),
            m.(operations := m.operations.Put(full, id)), id)
  }

  /** `PreCondition`/`PostCondition(name, model, operation, expression)`
      appends itself to `model.operationConditions` and stores itself in
      `operation.conditions[name]`. */
  function AddCondition(s: Store, m: Model, op: OperationId, name: string, kind: ConditionKind, expression: string): (r: (Store, Model))
    requires op < |s.operations|
    ensures r.1 == m.(operationConditions := m.operationConditions + [OperationCondition(name, kind, expression)])
    ensures OperationAt(r.0, op).conditions.Get(name) == Some(OperationCondition(name, kind, expression))
    ensures OperationAt(r.0, op) == OperationAt(s, op).(conditions := OperationAt(r.0, op).conditions)
    ensures forall j :: j != op ==> OperationAt(r.0, j) == OperationAt(s, j)
    ensures |r.0.operations| == |s.operations| && r.0.elements == s.elements && r.0.invariants == s.invariants
  {
    var c := OperationCondition(name, kind, expression);
    var o := OperationAt(s, op);
    (WithOperation(s, op, o.(conditions := o.conditions.Put(name, c))),
     m.(operationConditions := m.operationConditions + [c]))
  }

  /** `Invariant(name, model, class_, variable, additionalVariables,
      isExistential)` appends itself to `model.invariants`; its class stays
      a name and its expression is unset until later. */
  function AddInvariant(s: Store, m: Model, name: string, className: string, variable: string,
                        additionalVariables: seq<string>, isExistential: bool): (r: Created)
    ensures r.id == |s.invariants|
    ensures r.store.invariants == s.invariants + [Invariant(name, TypeName(className), None, variable, additionalVariables, isExistential)]
    ensures r.store.elements == s.elements && r.store.operations == s.operations
    ensures r.model == m.(invariants := m.invariants + [r.id])
  {
    var id := |s.invariants|;
    Created(s.(invariants := s.invariants + [Invariant(name, TypeName(className), None, variable, additionalVariables, isExistential)]),
            m.(invariants := m.invariants + [id]), id)
  }

  function AssociationElement(name: string, kind: string): Element {
    Element(name, PlainAssociation, false, [], Empty(), Empty(), Empty(), kind, Empty(), 0, None)
  }

  /** `Association(name, model, kind)` stores itself in
      `model.associations[name]` with no roles, `arity = 0` and
      `isBinary = None`. */
  function AddAssociation(s: Store, m: Model, name: string, kind: string): (r: Created)
    ensures r.id == |s.elements| && r.store.elements == s.elements + [AssociationElement(name, kind)]
    ensures AssociationElement(name, kind).arity == 0 && AssociationElement(name, kind).isBinary == None
    ensures AssociationElement(name, kind).roles.Keys() == []
    ensures r.store.operations == s.operations && r.store.invariants == s.invariants
    ensures r.model.associations.Get(name) == Some(r.id)
    ensures forall n :: n != name ==> r.model.associations.Get(n) == m.associations.Get(n)
    ensures r.model == m.(associations := r.model.associations)
    ensures forall x :: x in r.model.associations.items ==> x in m.associations.items || x == (name, r.id)
  {
    var id := |s.elements|;
    Created(s.(elements := s.elements + [AssociationElement(name, kind)]),
            m.(associations := m.associations.Put(name, id)), id)
  }

  /** `Role(name, association, ...)` stores itself in
      `association.roles[name]`, with no opposite. */
  function AddRole(s: Store, a: ElementId, role: Role): (r: Store)
    requires a < |s.elements|
    requires role.opposite == None
    ensures ElementAt(r, a).roles.Get(role.name) == Some(role)
    ensures forall n :: n != role.name ==> ElementAt(r, a).roles.Get(n) == ElementAt(s, a).roles.Get(n)
    ensures ElementAt(r, a) == ElementAt(s, a).(roles := ElementAt(r, a).roles)
    ensures forall j :: j != a ==> ElementAt(r, j) == ElementAt(s, j)
    ensures |r.elements| == |s.elements| && r.operations == s.operations && r.invariants == s.invariants
  {
    var e := ElementAt(s, a);
    WithElement(s, a, e.(roles := e.roles.Put(role.name, role)))
  }

  function AssociationClassElement(name: string, isAbstract: bool, superclasses: seq<string>): Element {
    ClassElement(name, isAbstract, superclasses).(kind := AssociationClassKind, associationKind := "associationclass")
  }

  /** `AssociationClass(name, model, isAbstract, superclasses)` first runs
      the class and the association constructors, which store it in
      `model.classes[name]` and `model.associations[name]`, then deletes
      both entries and stores it in `model.associationClasses[name]` only.
      An earlier class or association of the same name is thereby removed
      from its table. */
  function AddAssociationClass(s: Store, m: Model, name: string, isAbstract: bool, superclasses: seq<string>): (r: Created)
    ensures r.id == |s.elements| && r.store.elements == s.elements + [AssociationClassElement(name, isAbstract, superclasses)]
    ensures r.store.operations == s.operations && r.store.invariants == s.invariants
    ensures r.model.associationClasses.Get(name) == Some(r.id)
    ensures !r.model.classes.Contains(name) && !r.model.associations.Contains(name)
    ensures forall n :: n != name ==> r.model.classes.Get(n) == m.classes.Get(n)
    ensures forall n :: n != name ==> r.model.associations.Get(n) == m.associations.Get(n)
    ensures forall n :: n != name ==> r.model.associationClasses.Get(n) == m.associationClasses.Get(n)
    ensures forall x :: x in r.model.classes.items ==> x in m.classes.items
    ensures forall x :: x in r.model.associations.items ==> x in m.associations.items
    ensures forall x :: x in r.model.associationClasses.items ==> x in m.associationClasses.items || x == (name, r.id)
    ensures r.model == m.(classes := r.model.classes, associations := r.model.associations,
                          associationClasses := r.model.associationClasses)
  {
    var id := |s.elements|;
    var m1 := m.(classes := m.classes.Put(name, id), associations := m.associations.Put(name, id));
    Created(s.(elements := s.elements + [AssociationClassElement(name, isAbstract, superclasses)]),
            m1.(classes := m1.classes.Remove(name), associations := m1.associations.Remove(name),
                associationClasses := m1.associationClasses.Put(name, id)), id)
  }

  /** `findAssociationOrAssociationClass`: associations first, then
      association classes; raises when neither has the name. */
  function FindAssociationOrAssociationClass(m: Model, name: string): (r: Result<ElementId>)
    ensures r.Ok? <==> m.associations.Contains(name) || m.associationClasses.Contains(name)
    ensures m.associations.Contains(name) ==> r == Ok(m.associations.Get(name).value)
    ensures !m.associations.Contains(name) && m.associationClasses.Contains(name) ==>
              r == Ok(m.associationClasses.Get(name).value)
  {
    match m.associations.Get(name)
    case Some(a) => Ok(a)
    case None =>
      match m.associationClasses.Get(name)
      case Some(a) => Ok(a)
      case None => Err(RaisedException("ERROR - " + name + " : No association or association class"))
  }

  /** `findRole(association, role)`: the role of that name in the
      association (or association class) of that name; raises when either
      is missing. */
  function FindRole(s: Store, m: Model, associationName: string, roleName: string): (r: Result<Role>)
    ensures r.Ok? <==> (FindAssociationOrAssociationClass(m, associationName).Ok? &&
      ElementAt(s, FindAssociationOrAssociationClass(m, associationName).value).roles.Contains(roleName))
    ensures r.Ok? ==> ElementAt(s, FindAssociationOrAssociationClass(m, associationName).value).roles.Get(roleName) == Some(r.value)
  {
    var a :- FindAssociationOrAssociationClass(m, associationName);
    match ElementAt(s, a).roles.Get(roleName)
    case Some(role) => Ok(role)
    case None => Err(RaisedException("ERROR - No \"" + roleName + "\" role on association(class) " + associationName))
  }

  /** `findClassOrAssociationClass`: classes first, then association
      classes; raises when neither has the name. */
  function FindClassOrAssociationClass(m: Model, name: string): (r: Result<ElementId>)
    ensures r.Ok? <==> m.classes.Contains(name) || m.associationClasses.Contains(name)
    ensures m.classes.Contains(name) ==> r == Ok(m.classes.Get(name).value)
    ensures !m.classes.Contains(name) && m.associationClasses.Contains(name) ==>
              r == Ok(m.associationClasses.Get(name).value)
  {
    match m.classes.Get(name)
    case Some(c) => Ok(c)
    case None =>
      match m.associationClasses.Get(name)
      case Some(c) => Ok(c)
      case None => Err(RaisedException("ERROR - " + name + " : No class or association class"))
  }

  /** `findInvariant(class, invariant)`: the invariant registered under
      that name in the class (or association class) of that name; raises
      when either is missing. */
  function FindInvariant(s: Store, m: Model, className: string, invariantName: string): (r: Result<InvariantId>)
    ensures r.Ok? <==> (FindClassOrAssociationClass(m, className).Ok? &&
      ElementAt(s, FindClassOrAssociationClass(m, className).value).invariants.Contains(invariantName))
    ensures r.Ok? ==> ElementAt(s, FindClassOrAssociationClass(m, className).value).invariants.Get(invariantName) == Some(r.value)
  {
    var c :- FindClassOrAssociationClass(m, className);
    match ElementAt(s, c).invariants.Get(invariantName)
    case Some(i) => Ok(i)
    case None => Err(RaisedException("ERROR - No \"" + invariantName + "\" invariant on class " + className))
  }

  /** A role stored in a registered association is what `findRole`
      returns for the two names. */
  lemma {:induction false} FindRoleAfterAddRole(s: Store, m: Model, associationName: string, a: ElementId, role: Role)
    requires a < |s.elements| && role.opposite == None
    requires m.associations.Get(associationName) == Some(a)
    ensures FindRole(AddRole(s, a, role), m, associationName, role.name) == Ok(role)
  {
    assert FindAssociationOrAssociationClass(m, associationName) == Ok(a);
  }

  /** A class registered last is what `findClassOrAssociationClass`
      returns for its name. */
  lemma {:induction false} FindClassAfterAddClass(s: Store, m: Model, name: string, isAbstract: bool, superclasses: seq<string>)
    ensures var r := AddClass(s, m, name, isAbstract, superclasses);
      FindClassOrAssociationClass(r.model, name) == Ok(r.id) &&
      ElementAt(r.store, r.id) == ClassElement(name, isAbstract, superclasses)
  {
    var r := AddClass(s, m, name, isAbstract, superclasses);
    assert r.model.classes.Contains(name);
  }

  /** An association class registered last is found both as a class and
      as an association, through its own table. */
  lemma {:induction false} FindAfterAddAssociationClass(s: Store, m: Model, name: string, isAbstract: bool, superclasses: seq<string>)
    ensures var r := AddAssociationClass(s, m, name, isAbstract, superclasses);
      FindClassOrAssociationClass(r.model, name) == Ok(r.id) &&
      FindAssociationOrAssociationClass(r.model, name) == Ok(r.id)
  {
    var r := AddAssociationClass(s, m, name, isAbstract, superclasses);
    assert r.model.associationClasses.Contains(name);
  }
}
