/** The second pass over a parsed model: every type, superclass and
    invariant class written as a name is replaced by the entity it
    denotes. Simple type names resolve to an enumeration or to a basic
    type, which is created on first use; class names resolve through the
    classes and then the association classes, and a missing one raises
    `KeyError`. Binary associations get their `opposite` roles, and every
    invariant is registered in its class. */
module ModelResolver {
  import opened Wrappers
  import opened OrderedMaps
  import opened UseModel

  /** The entities and the tables after some resolution steps. */
  datatype Resolution = Resolution(store: Store, model: Model)

  /** Every registered basic type is stored under its own name. */
  ghost predicate BasicTypesNamed(m: Model) {
    forall x :: x in m.basicTypes.items ==> x.1 == BasicType(x.0)
  }

  /** What a simple type name denotes: the enumeration of that name, or
      else the basic type of that name. */
  function SimpleType(m: Model, name: string): TypeRef {
    match m.enumerations.Get(name)
    case Some(e) => EnumRef(e)
    case None => BasicRef(BasicType(name))
  }

  /** `__resolveSimpleType(name)`: the enumeration, else the registered
      basic type, else a new basic type registered under the name. */
  function ResolveSimpleType(m: Model, name: string): (r: (Model, TypeRef))
    ensures BasicTypesNamed(m) ==> r.1 == SimpleType(m, name) && BasicTypesNamed(r.0)
    ensures r.1.EnumRef? || r.1.BasicRef?
    ensures r.0 == m.(basicTypes := r.0.basicTypes)
    ensures m.enumerations.Contains(name) || m.basicTypes.Contains(name) ==> r.0 == m
    ensures !m.enumerations.Contains(name) ==> r.0.basicTypes.Get(name) == Some(BasicType(name)) || r.0 == m
    ensures forall n :: n != name ==> r.0.basicTypes.Get(n) == m.basicTypes.Get(n)
    ensures forall x :: x in m.basicTypes.items ==> x in r.0.basicTypes.items || x.0 == name
  {
    match m.enumerations.Get(name)
    case Some(e) => (m, EnumRef(e))
    case None =>
      match m.basicTypes.Get(name)
      case Some(b) =>
        assert (name, b) in m.basicTypes.items;
        (m, BasicRef(b))
      case None =>
        var b := BasicType(name);
        var t := m.basicTypes.Put(name, b);
        assert forall x :: x in m.basicTypes.items ==> x in t.items by {
          forall x | x in m.basicTypes.items ensures x in t.items {
            var j :| 0 <= j < |m.basicTypes.items| && m.basicTypes.items[j] == x;
            assert t.items[j] == x;
          }
        }
        (m.(basicTypes := t), BasicRef(b))
  }

  /** The classes and association classes of a model, in the order they
      are resolved (`classes.values() + associationClasses.values()`). */
  function ClassIds(m: Model): seq<ElementId> {
    m.classes.Values() + m.associationClasses.Values()
  }

  /** A `KeyError` raised by a class lookup names a class that is in
      neither table; an entity that is already resolved is not a key of
      either table, and the model reports it with an empty key. */
  predicate MissingClass(m: Model, key: string) {
    key == "" || (!m.classes.Contains(key) && !m.associationClasses.Contains(key))
  }

  /** `__resolveClassType(name)`: the class of that name, else the
      association class of that name, else `KeyError`. */
  function ResolveClassType(m: Model, t: TypeRef): (r: Result<ElementId>)
    ensures r.Err? ==> r.error.KeyError? && MissingClass(m, r.error.key)
    ensures t.TypeName? ==> (r.Ok? <==> FindClassOrAssociationClass(m, t.name).Ok?)
    ensures t.TypeName? && r.Ok? ==> r.value == FindClassOrAssociationClass(m, t.name).value
    ensures r.Ok? ==> t.TypeName? && ((t.name, r.value) in m.classes.items || (t.name, r.value) in m.associationClasses.items)
    ensures r.Ok? ==> r.value in ClassIds(m)
  {
    if !t.TypeName? then Err(KeyError(""))
    else
      match m.classes.Get(t.name)
      case Some(c) =>
        ValueListed(m.classes, m.classes.IndexOf(t.name).value);
        Ok(c)
      case None =>
        match m.associationClasses.Get(t.name)
        case Some(c) =>
          ValueListed(m.associationClasses, m.associationClasses.IndexOf(t.name).value);
          Ok(c)
        case None => Err(KeyError(t.name))
  }

  lemma ValueListed(t: OrderedMap<string, ElementId>, i: nat)
    requires i < |t.items|
    ensures t.items[i].1 in t.Values()
  {
    assert t.Values()[i] == t.items[i].1;
  }

  /** Class lookups read only the class tables, which resolution keeps. */
  lemma ClassTypeStable(m: Model, m1: Model)
    requires m1 == m.(basicTypes := m1.basicTypes)
    ensures forall t :: ResolveClassType(m1, t) == ResolveClassType(m, t)
    ensures ClassIds(m1) == ClassIds(m)
  {
  }

  /** `[__resolveClassType(name) for name in names]` */
  function ResolveClassTypes(m: Model, ts: seq<TypeRef>): (r: Result<seq<TypeRef>>)
    ensures r.Ok? <==> forall i :: 0 <= i < |ts| ==> ResolveClassType(m, ts[i]).Ok?
    ensures r.Ok? ==> |r.value| == |ts|
    ensures r.Ok? ==> forall i :: 0 <= i < |ts| ==> r.value[i] == ClassRef(ResolveClassType(m, ts[i]).value)
    ensures r.Err? ==> r.error.KeyError? && MissingClass(m, r.error.key)
  {
    if ts == [] then Ok([])
    else
      var c :- ResolveClassType(m, ts[0]);
      var rest :- ResolveClassTypes(m, ts[1..]);
      Ok([ClassRef(c)] + rest)
  }

  /** The type of an attribute or qualifier after resolution. */
  function ResolvedSimple(m: Model, t: TypeRef): TypeRef {
    if t.TypeName? then SimpleType(m, t.name) else t
  }

  /** `__resolveAttribute(a)` for every attribute in order. */
  function ResolveAttributes(m: Model, items: seq<(string, Attribute)>): (r: (Model, seq<(string, Attribute)>))
    ensures r.0 == m.(basicTypes := r.0.basicTypes)
    ensures |r.1| == |items|
    ensures forall i :: 0 <= i < |items| ==> r.1[i].0 == items[i].0 && r.1[i].1.name == items[i].1.name
    ensures BasicTypesNamed(m) ==> BasicTypesNamed(r.0)
    ensures BasicTypesNamed(m) ==>
      forall i :: 0 <= i < |items| ==> r.1[i].1.attributeType == ResolvedSimple(m, items[i].1.attributeType)
    ensures forall i :: 0 <= i < |items| ==> !r.1[i].1.attributeType.TypeName?
    decreases |items|
  {
    if items == [] then (m, [])
    else
      var a := items[0].1;
      var (m1, t) := if a.attributeType.TypeName? then ResolveSimpleType(m, a.attributeType.name) else (m, a.attributeType);
      var (m2, rest) := ResolveAttributes(m1, items[1..]);
      SimpleTypeStable(m, m1);
      (m2, [(items[0].0, a.(attributeType := t))] + rest)
  }

  /** Registering basic types does not change what a name denotes. */
  lemma SimpleTypeStable(m: Model, m1: Model)
    requires m1 == m.(basicTypes := m1.basicTypes)
    ensures forall t :: ResolvedSimple(m1, t) == ResolvedSimple(m, t)
  {
  }

  /** A class whose superclasses are classes of `m` and whose attribute
      types are enumerations or basic types. */
  predicate ClassResolved(m: Model, e: Element) {
    (forall i :: 0 <= i < |e.superclasses| ==> e.superclasses[i].ClassRef? && e.superclasses[i].id in ClassIds(m)) &&
    (forall i :: 0 <= i < |e.attributes.items| ==> !e.attributes.items[i].1.attributeType.TypeName?)
  }

  /** `__resolveClass(c)`: superclasses, then attribute types, written
      back into the class; no other entity changes. */
  function ResolveClass(r: Resolution, id: ElementId): (q: Result<Resolution>)
    ensures q.Ok? ==> q.value.model == r.model.(basicTypes := q.value.model.basicTypes)
    ensures q.Ok? ==> Grown(r.store, q.value.store)
    ensures q.Ok? <==> ResolveClassTypes(r.model, ElementAt(r.store, id).superclasses).Ok?
    ensures q.Err? ==> q.error.KeyError? && MissingClass(r.model, q.error.key)
    ensures q.Ok? ==> forall j :: j != id ==> ElementAt(q.value.store, j) == ElementAt(r.store, j)
    ensures q.Ok? ==> q.value.store.operations == r.store.operations && q.value.store.invariants == r.store.invariants
    ensures q.Ok? && id < |r.store.elements| ==>
      var e, f := ElementAt(r.store, id), ElementAt(q.value.store, id);
      f == e.(superclasses := f.superclasses, attributes := f.attributes) &&
      f.superclasses == ResolveClassTypes(r.model, e.superclasses).value &&
      f.attributes.Keys() == e.attributes.Keys() &&
      (BasicTypesNamed(r.model) ==> forall i :: 0 <= i < |e.attributes.items| ==>
        f.attributes.items[i].1 == e.attributes.items[i].1.(attributeType := ResolvedSimple(r.model, e.attributes.items[i].1.attributeType))) &&
      ClassResolved(r.model, f)
  {
    var e := ElementAt(r.store, id);
    var superclasses :- ResolveClassTypes(r.model, e.superclasses);
    var (m, attributes) := ResolveAttributes(r.model, e.attributes.items);
    Ok(Resolution(WithElement(r.store, id, e.(superclasses := superclasses, attributes := OrderedMap(attributes))), m))
  }

  /** Resolution allocates nothing. */
  predicate Grown(s: Store, t: Store) {
    |t.elements| == |s.elements| && |t.operations| == |s.operations| && |t.invariants| == |s.invariants|
  }

  /** `for (n, t) in qs: role.qualifiers.append((n, __resolveSimpleType(t)))`:
      unpacking raises `ValueError` unless a qualifier splits into exactly
      a name and a type. */
  function ResolveQualifiers(m: Model, qs: seq<Qualifier>): (r: Result<(Model, seq<Qualifier>)>)
    ensures r.Ok? ==> r.value.0 == m.(basicTypes := r.value.0.basicTypes) && |r.value.1| == |qs|
    ensures r.Ok? <==> QualifiersShaped(qs)
    ensures r.Ok? ==> forall i :: 0 <= i < |qs| ==> r.value.1[i].TypedQualifier?
    ensures r.Err? ==> r.error.ValueError?
    decreases |qs|
  {
    if qs == [] then Ok((m, []))
    else
      match qs[0]
      case TypedQualifier(_, _) =>
        var (m1, rest) :- ResolveQualifiers(m, qs[1..]);
        Ok((m1, [qs[0]] + rest))
      case RawQualifier(parts) =>
        if |parts| != 2 then Err(ValueError("need exactly 2 values to unpack"))
        else
          var (m1, t) := ResolveSimpleType(m, parts[1]);
          var (m2, rest) :- ResolveQualifiers(m1, qs[1..]);
          Ok((m2, [TypedQualifier(parts[0], t)] + rest))
  }

  /** Every qualifier still written as text splits into a name and a type. */
  predicate QualifiersShaped(qs: seq<Qualifier>) {
    forall i :: 0 <= i < |qs| ==> !qs[i].RawQualifier? || |qs[i].parts| == 2
  }

  /** A role resolves when its type names a class and its qualifiers
      unpack. */
  predicate RoleResolvable(m: Model, role: Role) {
    ResolveClassType(m, role.roleType).Ok? &&
    (role.qualifiers.Some? ==> QualifiersShaped(role.qualifiers.value))
  }

  /** A role whose type is a class of `m` and whose qualifiers are typed. */
  predicate RoleResolved(m: Model, role: Role) {
    role.roleType.ClassRef? && role.roleType.id in ClassIds(m) &&
    (role.qualifiers.Some? ==> forall i :: 0 <= i < |role.qualifiers.value| ==> role.qualifiers.value[i].TypedQualifier?)
  }

  /** An association whose roles are all resolved. */
  predicate AssociationResolved(m: Model, e: Element) {
    forall i :: 0 <= i < |e.roles.items| ==> RoleResolved(m, e.roles.items[i].1)
  }

  /** The opposite each role gets: in a binary association the other
      role, in any other the one it has. */
  function Opposites(roles: seq<(string, Role)>, isBinary: bool): (r: seq<Option<string>>)
    requires isBinary ==> |roles| == 2
    ensures |r| == |roles|
    ensures isBinary ==> r[0] == Some(roles[1].1.name) && r[1] == Some(roles[0].1.name)
    ensures !isBinary ==> forall i :: 0 <= i < |roles| ==> r[i] == roles[i].1.opposite
  {
    if isBinary then [Some(roles[1].1.name), Some(roles[0].1.name)]
    else seq(|roles|, i requires 0 <= i < |roles| => roles[i].1.opposite)
  }

  /** `__resolveRole(role)` for every role of an association in order,
      each with its opposite: the role type through the class tables and
      the qualifier types. Keys, names and order are kept. */
  function ResolveRoles(m: Model, roles: seq<(string, Role)>, opposites: seq<Option<string>>): (r: Result<(Model, seq<(string, Role)>)>)
    requires |opposites| == |roles|
    ensures r.Ok? ==> r.value.0 == m.(basicTypes := r.value.0.basicTypes)
    ensures r.Ok? ==> |r.value.1| == |roles|
    ensures r.Ok? ==> forall i :: 0 <= i < |roles| ==>
      r.value.1[i].0 == roles[i].0 && r.value.1[i].1.name == roles[i].1.name && r.value.1[i].1.opposite == opposites[i]
    ensures r.Err? ==> r.error.KeyError? || r.error.ValueError?
    decreases |roles|
  {
    if roles == [] then Ok((m, []))
    else
      var first :- ResolveRole(m, roles[0].1, opposites[0]);
      var rest :- ResolveRoles(first.0, roles[1..], opposites[1..]);
      var out := [(roles[0].0, first.1)] + rest.1;
      assert forall i :: 1 <= i < |roles| ==> out[i] == rest.1[i - 1];
      assert forall i :: 1 <= i < |roles| ==> opposites[i] == opposites[1..][i - 1];
      Ok((rest.0, out))
  }

  /** The roles resolve exactly when each of them does, and a missing
      class is the only key that can be reported. */
  lemma {:induction false} RolesResolvable(m: Model, roles: seq<(string, Role)>, opposites: seq<Option<string>>)
    requires |opposites| == |roles|
    ensures var r := ResolveRoles(m, roles, opposites);
      (r.Ok? <==> forall i :: 0 <= i < |roles| ==> RoleResolvable(m, roles[i].1)) &&
      (r.Err? ==> (r.error.KeyError? && MissingClass(m, r.error.key)) || r.error.ValueError?)
    decreases |roles|
  {
    if roles != [] {
      var first := ResolveRole(m, roles[0].1, opposites[0]);
      if first.Ok? {
        RolesStable(m, first.value.0, roles[1..]);
        RolesResolvable(first.value.0, roles[1..], opposites[1..]);
        assert forall i :: 1 <= i < |roles| ==> roles[i] == roles[1..][i - 1];
      }
    }
  }

  /** Every resolved role refers to the class its type names, and its
      qualifiers are typed. */
  lemma {:induction false} RolesResolved(m: Model, roles: seq<(string, Role)>, opposites: seq<Option<string>>)
    requires |opposites| == |roles|
    requires ResolveRoles(m, roles, opposites).Ok?
    ensures var r := ResolveRoles(m, roles, opposites).value.1;
      forall i :: 0 <= i < |roles| ==>
        ResolveClassType(m, roles[i].1.roleType).Ok? &&
        r[i].1.roleType == ClassRef(ResolveClassType(m, roles[i].1.roleType).value) && RoleResolved(m, r[i].1)
    decreases |roles|
  {
    if roles != [] {
      var first := ResolveRole(m, roles[0].1, opposites[0]).value;
      RolesStable(m, first.0, roles[1..]);
      RolesResolved(first.0, roles[1..], opposites[1..]);
      var rest := ResolveRoles(first.0, roles[1..], opposites[1..]).value.1;
      var out := ResolveRoles(m, roles, opposites).value.1;
      assert out == [(roles[0].0, first.1)] + rest;
      forall i | 1 <= i < |roles|
        ensures ResolveClassType(m, roles[i].1.roleType).Ok? &&
          out[i].1.roleType == ClassRef(ResolveClassType(m, roles[i].1.roleType).value) && RoleResolved(m, out[i].1)
      {
        assert out[i] == rest[i - 1] && roles[i] == roles[1..][i - 1];
      }
    }
  }

  /** Registering basic types changes neither which roles resolve nor
      to what. */
  lemma RolesStable(m: Model, m1: Model, roles: seq<(string, Role)>)
    requires m1 == m.(basicTypes := m1.basicTypes)
    ensures forall i :: 0 <= i < |roles| ==>
      RoleResolvable(m1, roles[i].1) == RoleResolvable(m, roles[i].1) &&
      ResolveClassType(m1, roles[i].1.roleType) == ResolveClassType(m, roles[i].1.roleType)
    ensures forall role :: RoleResolved(m1, role) == RoleResolved(m, role)
    ensures forall key :: MissingClass(m1, key) == MissingClass(m, key)
  {
    ClassTypeStable(m, m1);
  }

  /** One role: its type through the class tables, its qualifier types,
      and the given opposite. */
  function ResolveRole(m: Model, role: Role, opposite: Option<string>): (r: Result<(Model, Role)>)
    ensures r.Ok? ==> r.value.0 == m.(basicTypes := r.value.0.basicTypes)
    ensures r.Ok? ==> ResolveClassType(m, role.roleType).Ok?
    ensures r.Ok? ==> r.value.1 == role.(roleType := ClassRef(ResolveClassType(m, role.roleType).value),
                                         qualifiers := r.value.1.qualifiers, opposite := opposite)
    ensures r.Ok? ==> r.value.1.name == role.name && r.value.1.opposite == opposite
    ensures r.Ok? ==> RoleResolved(m, r.value.1)
    ensures r.Ok? <==> RoleResolvable(m, role)
    ensures r.Err? ==> (r.error.KeyError? && MissingClass(m, r.error.key)) || r.error.ValueError?
  {
    var c :- ResolveClassType(m, role.roleType);
    if role.qualifiers.Some? then
      var q :- ResolveQualifiers(m, role.qualifiers.value);
      Ok((q.0, role.(roleType := ClassRef(c), qualifiers := Some(q.1), opposite := opposite)))
    else
      Ok((m, role.(roleType := ClassRef(c), opposite := opposite)))
  }

  /** `__resolveAssociation(a)`: the arity is the number of roles, the
      association is binary when it has two, then every role is resolved. */
  function ResolveAssociation(r: Resolution, id: ElementId): (q: Result<Resolution>)
    ensures q.Ok? ==> q.value.model == r.model.(basicTypes := q.value.model.basicTypes)
    ensures q.Ok? ==> Grown(r.store, q.value.store)
    ensures q.Ok? <==> forall i :: 0 <= i < |ElementAt(r.store, id).roles.items| ==>
      RoleResolvable(r.model, ElementAt(r.store, id).roles.items[i].1)
    ensures q.Err? ==> (q.error.KeyError? && MissingClass(r.model, q.error.key)) || q.error.ValueError?
    ensures q.Ok? ==> forall j :: j != id ==> ElementAt(q.value.store, j) == ElementAt(r.store, j)
    ensures q.Ok? ==> q.value.store.operations == r.store.operations && q.value.store.invariants == r.store.invariants
    ensures q.Ok? && id < |r.store.elements| ==>
      var e, f := ElementAt(r.store, id), ElementAt(q.value.store, id);
      f == e.(arity := |e.roles.items|, isBinary := Some(|e.roles.items| == 2), roles := f.roles) &&
      f.roles.Keys() == e.roles.Keys() &&
      (forall i :: 0 <= i < |e.roles.items| ==>
        f.roles.items[i].1.roleType == ClassRef(ResolveClassType(r.model, e.roles.items[i].1.roleType).value)) &&
      AssociationResolved(r.model, f)
    ensures q.Ok? ==> SameClassParts(r.store, q.value.store)
  {
    var e := ElementAt(r.store, id);
    var roles := e.roles.items;
    var isBinary := |roles| == 2;
    RolesResolvable(r.model, roles, Opposites(roles, isBinary));
    var (m, resolved) :- ResolveRoles(r.model, roles, Opposites(roles, isBinary));
    RolesResolved(r.model, roles, Opposites(roles, isBinary));
    Ok(Resolution(WithElement(r.store, id, e.(arity := |roles|, isBinary := Some(isBinary), roles := OrderedMap(resolved))), m))
  }

  /** `__resolveInvariant(i)`: the invariant's class is resolved, and the
      invariant is stored in that class's `invariants` under its name. */
  function ResolveInvariant(r: Resolution, id: InvariantId): (q: Result<Resolution>)
    ensures q.Ok? ==> q.value.model == r.model && Grown(r.store, q.value.store)
    ensures q.Ok? <==> ResolveClassType(r.model, InvariantAt(r.store, id).classRef).Ok?
    ensures q.Err? ==> q.error.KeyError? && MissingClass(r.model, q.error.key)
    ensures q.Ok? && id < |r.store.invariants| ==>
      InvariantAt(q.value.store, id) == InvariantAt(r.store, id).(classRef := ClassRef(ResolveClassType(r.model, InvariantAt(r.store, id).classRef).value))
    ensures q.Ok? ==> forall j :: j != id ==> InvariantAt(q.value.store, j) == InvariantAt(r.store, j)
    ensures q.Ok? ==> SameClassParts(r.store, q.value.store) && SameRoles(r.store, q.value.store)
  {
    var inv := InvariantAt(r.store, id);
    var c :- ResolveClassType(r.model, inv.classRef);
    var s := WithInvariant(r.store, id, inv.(classRef := ClassRef(c)));
    var e := ElementAt(s, c);
    Ok(Resolution(WithElement(s, c, e.(invariants := e.invariants.Put(inv.name, id))), r.model))
  }

  /** Every element keeps its superclasses and attributes. */
  ghost predicate SameClassParts(s: Store, t: Store) {
    forall j :: ElementAt(t, j).superclasses == ElementAt(s, j).superclasses && ElementAt(t, j).attributes == ElementAt(s, j).attributes
  }

  /** Every element keeps its roles. */
  ghost predicate SameRoles(s: Store, t: Store) {
    forall j :: ElementAt(t, j).roles == ElementAt(s, j).roles
  }

  // ---- the three loops ---------------------------------------------------------

  function ResolveClasses(r: Resolution, ids: seq<ElementId>): (q: Result<Resolution>)
    ensures q.Ok? ==> q.value.model == r.model.(basicTypes := q.value.model.basicTypes)
    ensures q.Ok? ==> Grown(r.store, q.value.store)
    ensures q.Err? ==> q.error.KeyError? && MissingClass(r.model, q.error.key)
  {
    if ids == [] then Ok(r)
    else
      var p :- ResolveClasses(r, ids[..|ids| - 1]);
      ResolveClass(p, ids[|ids| - 1])
  }

  function ResolveAssociations(r: Resolution, ids: seq<ElementId>): (q: Result<Resolution>)
    ensures q.Ok? ==> q.value.model == r.model.(basicTypes := q.value.model.basicTypes)
    ensures q.Ok? ==> Grown(r.store, q.value.store)
    ensures q.Err? ==> (q.error.KeyError? && MissingClass(r.model, q.error.key)) || q.error.ValueError?
    ensures q.Ok? ==> SameClassParts(r.store, q.value.store)
  {
    if ids == [] then Ok(r)
    else
      var p :- ResolveAssociations(r, ids[..|ids| - 1]);
      ResolveAssociation(p, ids[|ids| - 1])
  }

  function ResolveInvariants(r: Resolution, ids: seq<InvariantId>): (q: Result<Resolution>)
    ensures q.Ok? ==> q.value.model == r.model && Grown(r.store, q.value.store)
    ensures q.Err? ==> q.error.KeyError? && MissingClass(r.model, q.error.key)
    ensures q.Ok? ==> SameClassParts(r.store, q.value.store) && SameRoles(r.store, q.value.store)
  {
    if ids == [] then Ok(r)
    else
      var p :- ResolveInvariants(r, ids[..|ids| - 1]);
      ResolveInvariant(p, ids[|ids| - 1])
  }

  /** The associations to resolve (`associations.values() + associationClasses.values()`). */
  function AssociationIds(m: Model): seq<ElementId> {
    m.associations.Values() + m.associationClasses.Values()
  }

  /** `__resolveModel`: classes, then associations, then invariants; the
      first exception aborts the whole resolution. */
  function ResolveModel(s: Store, m: Model): (q: Result<Resolution>)
    ensures q.Ok? ==> q.value.model == m.(basicTypes := q.value.model.basicTypes)
    ensures q.Ok? ==> Grown(s, q.value.store)
    ensures q.Err? ==> (q.error.KeyError? && MissingClass(m, q.error.key)) || q.error.ValueError?
  {
    var r1 :- ResolveClasses(Resolution(s, m), ClassIds(m));
    var r2 :- ResolveAssociations(r1, AssociationIds(m));
    ResolveInvariants(r2, m.invariants)
  }

  // ---- properties ------------------------------------------------------------------

  /** A basic type is created on the first resolution of its name and the
      same one is returned, with no further registration, afterwards. */
  lemma SimpleTypeCreatedOnce(m: Model, name: string)
    ensures var (m1, t1) := ResolveSimpleType(m, name);
      ResolveSimpleType(m1, name) == (m1, t1)
    ensures !m.enumerations.Contains(name) && !m.basicTypes.Contains(name) ==>
      ResolveSimpleType(m, name).0.basicTypes.Get(name) == Some(BasicType(name)) &&
      ResolveSimpleType(m, name).1 == BasicRef(BasicType(name))
  {
    var (m1, t1) := ResolveSimpleType(m, name);
    if !m.enumerations.Contains(name) && !m.basicTypes.Contains(name) {
      assert m1.basicTypes.Get(name) == Some(BasicType(name));
    }
  }

  /** The class tables only refer to elements that exist. */
  predicate ElementsInStore(s: Store, m: Model) {
    (forall x :: x in m.classes.items ==> x.1 < |s.elements|) &&
    (forall x :: x in m.associationClasses.items ==> x.1 < |s.elements|)
  }

  /** In an association with exactly two roles each role's opposite is
      the other role; the association is then binary with arity 2. */
  lemma BinaryOpposites(r: Resolution, id: ElementId)
    requires id < |r.store.elements| && |ElementAt(r.store, id).roles.items| == 2
    requires ResolveAssociation(r, id).Ok?
    ensures var e := ElementAt(ResolveAssociation(r, id).value.store, id);
      var rs := ElementAt(r.store, id).roles.items;
      e.arity == 2 && e.isBinary == Some(true) && |e.roles.items| == 2 &&
      e.roles.items[0].1.opposite == Some(rs[1].1.name) &&
      e.roles.items[1].1.opposite == Some(rs[0].1.name) &&
      e.roles.items[0].1.name == rs[0].1.name && e.roles.items[1].1.name == rs[1].1.name
  {
    var roles := ElementAt(r.store, id).roles.items;
    var q := ResolveRoles(r.model, roles, Opposites(roles, true));
    assert q.Ok?;
  }

  /** With any other number of roles no opposite is set, and the
      association is not binary. */
  lemma NonBinaryOpposites(r: Resolution, id: ElementId)
    requires id < |r.store.elements| && |ElementAt(r.store, id).roles.items| != 2
    requires ResolveAssociation(r, id).Ok?
    ensures var e := ElementAt(ResolveAssociation(r, id).value.store, id);
      var rs := ElementAt(r.store, id).roles.items;
      e.arity == |rs| && e.isBinary == Some(false) && |e.roles.items| == |rs| &&
      forall i :: 0 <= i < |rs| ==> e.roles.items[i].1.opposite == rs[i].1.opposite
  {
    var roles := ElementAt(r.store, id).roles.items;
    var q := ResolveRoles(r.model, roles, Opposites(roles, false));
    assert q.Ok?;
  }

  /** After its resolution an invariant refers to its class, and
      `findInvariant` finds it in that class under its name. */
  lemma InvariantRegistered(r: Resolution, id: InvariantId, className: string)
    requires ElementsInStore(r.store, r.model) && id < |r.store.invariants|
    requires InvariantAt(r.store, id).classRef == TypeName(className)
    requires FindClassOrAssociationClass(r.model, className).Ok?
    ensures var q := ResolveInvariant(r, id);
      var c := FindClassOrAssociationClass(r.model, className).value;
      q.Ok? && InvariantAt(q.value.store, id).classRef == ClassRef(c) &&
      FindInvariant(q.value.store, r.model, className, InvariantAt(r.store, id).name) == Ok(id)
  {
    var c := FindClassOrAssociationClass(r.model, className).value;
    var inv := InvariantAt(r.store, id);
    assert ResolveClassType(r.model, inv.classRef) == Ok(c);
    assert c < |r.store.elements|;
    var s := WithInvariant(r.store, id, inv.(classRef := ClassRef(c)));
    var e := ElementAt(s, c);
    var q := ResolveInvariant(r, id);
    assert q.value.store == WithElement(s, c, e.(invariants := e.invariants.Put(inv.name, id)));
    assert ElementAt(q.value.store, c).invariants.Get(inv.name) == Some(id);
  }

  /** Invariant `i` refers to a class that holds an invariant of its name. */
  predicate Registered(s: Store, i: InvariantId) {
    InvariantAt(s, i).classRef.ClassRef? &&
    ElementAt(s, InvariantAt(s, i).classRef.id).invariants.Contains(InvariantAt(s, i).name)
  }

  /** After the invariant loop every invariant refers to a class that
      holds an invariant of its name. */
  lemma {:induction false} EveryInvariantRegistered(r: Resolution, ids: seq<InvariantId>)
    requires ElementsInStore(r.store, r.model)
    requires forall i :: i in ids ==> i < |r.store.invariants|
    requires ResolveInvariants(r, ids).Ok?
    ensures forall k :: 0 <= k < |ids| ==> Registered(ResolveInvariants(r, ids).value.store, ids[k])
    decreases |ids|
  {
    if ids != [] {
      var init := ids[..|ids| - 1];
      var last := ids[|ids| - 1];
      assert forall i :: i in init ==> i in ids;
      EveryInvariantRegistered(r, init);
      var p := ResolveInvariants(r, init).value;
      var q := ResolveInvariants(r, ids).value;
      assert q == ResolveInvariant(p, last).value;
      assert ElementsInStore(p.store, p.model);
      var inv := InvariantAt(p.store, last);
      var c := ResolveClassType(p.model, inv.classRef).value;
      assert c < |p.store.elements|;
      assert last in ids;
      LastRegistered(p, last, c);
      assert inv.classRef.TypeName?;
      forall k | 0 <= k < |ids| - 1 ensures Registered(q.store, ids[k]) {
        assert ids[k] == init[k];
        RegisteredKept(p, last, c, ids[k]);
      }
    }
  }

  /** One invariant step registers its invariant. */
  lemma LastRegistered(p: Resolution, last: InvariantId, c: ElementId)
    requires c < |p.store.elements| && last < |p.store.invariants|
    requires ResolveInvariant(p, last).Ok? && ResolveClassType(p.model, InvariantAt(p.store, last).classRef) == Ok(c)
    ensures Registered(ResolveInvariant(p, last).value.store, last)
  {
    var inv := InvariantAt(p.store, last);
    var s := WithInvariant(p.store, last, inv.(classRef := ClassRef(c)));
    var e := ElementAt(s, c);
    var q := ResolveInvariant(p, last).value;
    assert q.store == WithElement(s, c, e.(invariants := e.invariants.Put(inv.name, last)));
    assert InvariantAt(q.store, last) == inv.(classRef := ClassRef(c));
    assert ElementAt(q.store, c).invariants.Get(inv.name) == Some(last);
  }

  /** One invariant step keeps an earlier registration. */
  lemma RegisteredKept(p: Resolution, last: InvariantId, c: ElementId, other: InvariantId)
    requires other != last && c < |p.store.elements|
    requires ResolveInvariant(p, last).Ok? && ResolveClassType(p.model, InvariantAt(p.store, last).classRef) == Ok(c)
    requires Registered(p.store, other)
    ensures Registered(ResolveInvariant(p, last).value.store, other)
  {
    var inv := InvariantAt(p.store, last);
    var s := WithInvariant(p.store, last, inv.(classRef := ClassRef(c)));
    var e := ElementAt(s, c);
    var k := InvariantAt(p.store, other);
    var q := ResolveInvariant(p, last).value;
    assert q.store == WithElement(s, c, e.(invariants := e.invariants.Put(inv.name, last)));
    assert InvariantAt(s, other) == k;
    var d := k.classRef.id;
    if d == c {
      assert e == ElementAt(p.store, c);
      var t := e.invariants.Put(inv.name, last);
      assert ElementAt(q.store, c).invariants == t;
      assert t.Contains(k.name) by {
        if k.name != inv.name {
          assert t.Get(k.name) == e.invariants.Get(k.name);
        }
      }
    } else {
      assert ElementAt(q.store, d) == ElementAt(s, d) == ElementAt(p.store, d);
    }
  }

  /** One step that changes only element `last`, and leaves it
      satisfying `P`, keeps `P` on every element visited so far. */
  lemma StepKeeps(p: Store, q: Store, ids: seq<ElementId>, P: Element -> bool)
    requires ids != []
    requires forall j :: j != ids[|ids| - 1] ==> ElementAt(q, j) == ElementAt(p, j)
    requires P(ElementAt(q, ids[|ids| - 1]))
    requires forall k :: 0 <= k < |ids| - 1 ==> P(ElementAt(p, ids[k]))
    ensures forall k :: 0 <= k < |ids| ==> P(ElementAt(q, ids[k]))
  {
  }

  /** After the class loop every class it visited is resolved. */
  lemma {:induction false} ClassesResolved(r: Resolution, ids: seq<ElementId>)
    requires ResolveClasses(r, ids).Ok?
    ensures forall k :: 0 <= k < |ids| ==> ClassResolved(r.model, ElementAt(ResolveClasses(r, ids).value.store, ids[k]))
    decreases |ids|
  {
    if ids != [] {
      var init, last := ids[..|ids| - 1], ids[|ids| - 1];
      ClassesResolved(r, init);
      var p := ResolveClasses(r, init).value;
      var q := ResolveClass(p, last).value;
      assert ResolveClasses(r, ids) == ResolveClass(p, last);
      assert ClassIds(p.model) == ClassIds(r.model);
      assert ClassResolved(r.model, ElementAt(q.store, last));
      assert forall k :: 0 <= k < |ids| - 1 ==> ids[k] == init[k];
      StepKeeps(p.store, q.store, ids, e => ClassResolved(r.model, e));
    }
  }

  /** After the association loop every association it visited is resolved. */
  lemma {:induction false} AssociationsResolved(r: Resolution, ids: seq<ElementId>)
    requires ResolveAssociations(r, ids).Ok?
    ensures forall k :: 0 <= k < |ids| ==> AssociationResolved(r.model, ElementAt(ResolveAssociations(r, ids).value.store, ids[k]))
    decreases |ids|
  {
    if ids != [] {
      var init, last := ids[..|ids| - 1], ids[|ids| - 1];
      AssociationsResolved(r, init);
      var p := ResolveAssociations(r, init).value;
      var q := ResolveAssociation(p, last).value;
      assert ResolveAssociations(r, ids) == ResolveAssociation(p, last);
      assert ClassIds(p.model) == ClassIds(r.model);
      assert AssociationResolved(r.model, ElementAt(q.store, last));
      assert forall k :: 0 <= k < |ids| - 1 ==> ids[k] == init[k];
      StepKeeps(p.store, q.store, ids, e => AssociationResolved(r.model, e));
    }
  }

  /** What a successful `__resolveModel` leaves behind: every class and
      association class has class superclasses and no attribute type
      written as a name, every association and association class has
      roles typed by classes of the model, and every invariant refers to
      a class that holds it. */
  lemma ModelResolved(s: Store, m: Model)
    requires InStore(s, m)
    requires ResolveModel(s, m).Ok?
    ensures var q := ResolveModel(s, m).value.store;
      (forall k :: 0 <= k < |ClassIds(m)| ==> ClassResolved(m, ElementAt(q, ClassIds(m)[k]))) &&
      (forall k :: 0 <= k < |AssociationIds(m)| ==> AssociationResolved(m, ElementAt(q, AssociationIds(m)[k]))) &&
      (forall k :: 0 <= k < |m.invariants| ==> Registered(q, m.invariants[k]))
  {
    var r0 := Resolution(s, m);
    var r1 := ResolveClasses(r0, ClassIds(m)).value;
    var r2 := ResolveAssociations(r1, AssociationIds(m)).value;
    var q := ResolveInvariants(r2, m.invariants).value;
    ClassesResolved(r0, ClassIds(m));
    AssociationsResolved(r1, AssociationIds(m));
    assert ClassIds(r1.model) == ClassIds(m);
    assert ElementsInStore(r2.store, r2.model);
    EveryInvariantRegistered(r2, m.invariants);
    forall k | 0 <= k < |ClassIds(m)| ensures ClassResolved(m, ElementAt(q.store, ClassIds(m)[k])) {
      var id := ClassIds(m)[k];
      assert ElementAt(q.store, id).superclasses == ElementAt(r1.store, id).superclasses;
      assert ElementAt(q.store, id).attributes == ElementAt(r1.store, id).attributes;
    }
    forall k | 0 <= k < |AssociationIds(m)| ensures AssociationResolved(m, ElementAt(q.store, AssociationIds(m)[k])) {
      var id := AssociationIds(m)[k];
      assert ElementAt(q.store, id).roles == ElementAt(r2.store, id).roles;
    }
  }
}
