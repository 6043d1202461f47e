/** The snapshot metamodel of `pyalaocl/useocl/state.py`: a `State` holds
    three name-indexed tables, of objects, of links and of link objects.
    Python object identity is modelled with an arena: every `Object`,
    `Link` or `LinkObject` ever constructed is an element of `heap`, and
    the tables (and the roles of links) refer to elements by position, so
    an element removed from a table stays reachable from the links that
    hold it, as in Python. */
module SnapshotState {
  import opened Wrappers
  import opened Text
  import opened OrderedMaps

  /** The position of an element in the arena. */
  type ElementRef = nat

  /** One state element, with the fields its constructor sets. */
  datatype StateElement =
    | ObjectElement(name: string, className: string, attributes: OrderedMap<string, string>)
    | LinkElement(associationName: string, roles: seq<ElementRef>)
    | LinkObjectElement(name: string, className: string, attributes: OrderedMap<string, string>, roles: seq<ElementRef>)

  /** The arena and the three tables of a `State`. */
  datatype StateValue = StateValue(
    heap: seq<StateElement>,
    objects: OrderedMap<string, ElementRef>,
    links: OrderedMap<string, ElementRef>,
    linkObject: OrderedMap<string, ElementRef>)

  /** `State()`: every table empty. */
  const EmptyState: StateValue := StateValue([], Empty(), Empty(), Empty())

  /** What every constructor keeps true: each table refers to elements of
      its own kind, every object and link object is filed under its own
      name, and the roles of links refer to existing elements. */
  ghost predicate Valid(v: StateValue) {
    (forall x :: x in v.objects.items ==>
      x.1 < |v.heap| && v.heap[x.1].ObjectElement? && v.heap[x.1].name == x.0) &&
    (forall x :: x in v.linkObject.items ==>
      x.1 < |v.heap| && v.heap[x.1].LinkObjectElement? && v.heap[x.1].name == x.0) &&
    (forall x :: x in v.links.items ==> x.1 < |v.heap| && v.heap[x.1].LinkElement?) &&
    (forall i :: 0 <= i < |v.heap| ==> RolesIn(v.heap[i], |v.heap|))
  }

  /** The roles of a link or link object are elements below `n`. */
  predicate RolesIn(e: StateElement, n: nat) {
    !e.ObjectElement? ==> forall j :: 0 <= j < |e.roles| ==> e.roles[j] < n
  }

  /** `Object(state, className, name)`: a new object with no attributes,
      filed under its name in `objects`, replacing any earlier one. */
  function WithObject(v: StateValue, className: string, name: string): (r: (StateValue, ElementRef))
    ensures r.1 == |v.heap| && r.0.heap == v.heap + [ObjectElement(name, className, Empty())]
    ensures r.0.objects == v.objects.Put(name, r.1)
    ensures r.0.links == v.links && r.0.linkObject == v.linkObject
  {
    var o := |v.heap|;
    (v.(heap := v.heap + [ObjectElement(name, className, Empty())], objects := v.objects.Put(name, o)), o)
  }

  /** `Link(state, associationName, objects)`: a new link whose roles are
      the objects, filed in `links` under their names joined by `_`. */
  function WithLink(v: StateValue, associationName: string, roles: seq<ElementRef>): (r: (StateValue, ElementRef))
    ensures r.1 == |v.heap| && r.0.heap == v.heap + [LinkElement(associationName, roles)]
    ensures r.0.links == v.links.Put(LinkName(v, roles), r.1)
    ensures r.0.objects == v.objects && r.0.linkObject == v.linkObject
  {
    var l := |v.heap|;
    (v.(heap := v.heap + [LinkElement(associationName, roles)], links := v.links.Put(LinkName(v, roles), l)), l)
  }

  /** `LinkObject(state, className, name, objects)`: a new link object
      with no attributes, filed under its name in `linkObject`. */
  function WithLinkObject(v: StateValue, className: string, name: string, roles: seq<ElementRef>): (r: (StateValue, ElementRef))
    ensures r.1 == |v.heap| && r.0.heap == v.heap + [LinkObjectElement(name, className, Empty(), roles)]
    ensures r.0.linkObject == v.linkObject.Put(name, r.1)
    ensures r.0.objects == v.objects && r.0.links == v.links
  {
    var l := |v.heap|;
    (v.(heap := v.heap + [LinkObjectElement(name, className, Empty(), roles)], linkObject := v.linkObject.Put(name, l)), l)
  }

  /** `o.name` for each element of a link, joined by `_`. */
  function LinkName(v: StateValue, roles: seq<ElementRef>): string {
    Join(NamesOf(v, roles), "_")
  }

  /** The names of the given elements (an element without a name, or
      outside the arena, contributes the empty name). */
  function NamesOf(v: StateValue, refs: seq<ElementRef>): (r: seq<string>)
    ensures |r| == |refs|
    ensures forall i :: 0 <= i < |refs| ==> r[i] == ElementName(v, refs[i])
  {
    seq(|refs|, i requires 0 <= i < |refs| => ElementName(v, refs[i]))
  }

  function ElementName(v: StateValue, o: ElementRef): string {
    if o < |v.heap| && !v.heap[o].LinkElement? then v.heap[o].name else ""
  }

  /** `set(name, value)` on an object or a link object: only that
      attribute of that element changes. */
  function WithAttribute(v: StateValue, o: ElementRef, name: string, value: string): (r: StateValue)
    requires o < |v.heap| && !v.heap[o].LinkElement?
    ensures |r.heap| == |v.heap| && r.objects == v.objects && r.links == v.links && r.linkObject == v.linkObject
    ensures r.heap[o] == v.heap[o].(attributes := v.heap[o].attributes.Put(name, value))
    ensures forall i :: 0 <= i < |v.heap| && i != o ==> r.heap[i] == v.heap[i]
  {
    var e := v.heap[o];
    v.(heap := v.heap[o := e.(attributes := e.attributes.Put(name, value))])
  }

  // ---- what the constructors keep ------------------------------------------------

  lemma HeapGrows(v: StateValue, e: StateElement)
    requires Valid(v) && RolesIn(e, |v.heap|)
    ensures forall i :: 0 <= i < |v.heap| + 1 ==> RolesIn((v.heap + [e])[i], |v.heap| + 1)
  {
    forall i | 0 <= i < |v.heap| + 1 ensures RolesIn((v.heap + [e])[i], |v.heap| + 1) {
      if i < |v.heap| {
        assert (v.heap + [e])[i] == v.heap[i] && RolesIn(v.heap[i], |v.heap|);
      }
    }
  }

  /** A new object is found under its name with no attributes; every
      other name and the other tables are untouched, and the state stays
      valid. */
  lemma ObjectStored(v: StateValue, className: string, name: string)
    requires Valid(v)
    ensures var (w, o) := WithObject(v, className, name);
      Valid(w) && w.objects.Get(name) == Some(o) && w.heap[o] == ObjectElement(name, className, Empty()) &&
      (forall n :: n != name ==> w.objects.Get(n) == v.objects.Get(n))
  {
    var (w, o) := WithObject(v, className, name);
    HeapGrows(v, ObjectElement(name, className, Empty()));
    assert forall i :: 0 <= i < |v.heap| ==> w.heap[i] == v.heap[i];
  }

  /** A new link is filed under the names of its objects joined by `_`
      and its roles are those objects; the state stays valid. */
  lemma LinkStored(v: StateValue, associationName: string, roles: seq<ElementRef>)
    requires Valid(v) && forall j :: 0 <= j < |roles| ==> roles[j] < |v.heap|
    ensures var (w, l) := WithLink(v, associationName, roles);
      Valid(w) && w.links.Get(Join(NamesOf(v, roles), "_")) == Some(l) &&
      w.heap[l].roles == roles && w.heap[l].associationName == associationName
  {
    var (w, l) := WithLink(v, associationName, roles);
    HeapGrows(v, LinkElement(associationName, roles));
    assert forall i :: 0 <= i < |v.heap| ==> w.heap[i] == v.heap[i];
  }

  /** A new link object is filed under its name with no attributes; the
      state stays valid. */
  lemma LinkObjectStored(v: StateValue, className: string, name: string, roles: seq<ElementRef>)
    requires Valid(v) && forall j :: 0 <= j < |roles| ==> roles[j] < |v.heap|
    ensures var (w, l) := WithLinkObject(v, className, name, roles);
      Valid(w) && w.linkObject.Get(name) == Some(l) &&
      w.heap[l] == LinkObjectElement(name, className, Empty(), roles) &&
      (forall n :: n != name ==> w.linkObject.Get(n) == v.linkObject.Get(n))
  {
    var (w, l) := WithLinkObject(v, className, name, roles);
    HeapGrows(v, LinkObjectElement(name, className, Empty(), roles));
    assert forall i :: 0 <= i < |v.heap| ==> w.heap[i] == v.heap[i];
  }

  /** Setting an attribute keeps the state valid, and reading it back
      gives the value set while every other attribute keeps its value. */
  lemma AttributeSet(v: StateValue, o: ElementRef, name: string, value: string)
    requires Valid(v) && o < |v.heap| && !v.heap[o].LinkElement?
    ensures var w := WithAttribute(v, o, name, value);
      Valid(w) && w.heap[o].attributes.Get(name) == Some(value) &&
      (forall n :: n != name ==> w.heap[o].attributes.Get(n) == v.heap[o].attributes.Get(n))
  {
    var w := WithAttribute(v, o, name, value);
    assert RolesIn(w.heap[o], |w.heap|) by {
      assert RolesIn(v.heap[o], |v.heap|);
    }
    assert forall i :: 0 <= i < |w.heap| && i != o ==> RolesIn(w.heap[i], |w.heap|) by {
      forall i | 0 <= i < |w.heap| && i != o ensures RolesIn(w.heap[i], |w.heap|) {
        assert RolesIn(v.heap[i], |v.heap|);
      }
    }
  }

  /** In a valid state the link name of objects found in `objects` is
      their table names joined by `_`. */
  lemma LinkNameOfObjects(v: StateValue, names: seq<string>, roles: seq<ElementRef>)
    requires Valid(v) && |names| == |roles|
    requires forall j :: 0 <= j < |names| ==> v.objects.Get(names[j]) == Some(roles[j])
    ensures forall j :: 0 <= j < |roles| ==> roles[j] < |v.heap|
    ensures LinkName(v, roles) == Join(names, "_")
  {
    forall j | 0 <= j < |names| ensures roles[j] < |v.heap| && NamesOf(v, roles)[j] == names[j] {
      var i := v.objects.IndexOf(names[j]).value;
      assert v.objects.items[i] in v.objects.items;
    }
    assert NamesOf(v, roles) == names;
  }

  // ---- the object -------------------------------------------------------------------

  /** A `State` object: the arena and the three tables, which the
      constructors of state elements and the interpreter update. */
  class State {
    var heap: seq<StateElement>
    var objects: OrderedMap<string, ElementRef>
    var links: OrderedMap<string, ElementRef>
    var linkObject: OrderedMap<string, ElementRef>

    function Value(): StateValue
      reads this
    {
      StateValue(heap, objects, links, linkObject)
    }

    /** `State()`. */
    constructor ()
      ensures Value() == EmptyState && Valid(Value())
    {
      heap := [];
      objects := Empty();
      links := Empty();
      linkObject := Empty();
    }

    /** `Object(state, className, name)`. */
    method NewObject(className: string, name: string) returns (o: ElementRef)
      modifies this
      ensures (Value(), o) == WithObject(old(Value()), className, name)
      ensures old(Valid(Value())) ==> Valid(Value())
    {
      if Valid(Value()) {
        ObjectStored(Value(), className, name);
      }
      o := |heap|;
      heap := heap + [ObjectElement(name, className, Empty())];
      objects := objects.Put(name, o);
    }

    /** `Link(state, associationName, objects)`. */
    method NewLink(associationName: string, roles: seq<ElementRef>) returns (l: ElementRef)
      modifies this
      ensures (Value(), l) == WithLink(old(Value()), associationName, roles)
      ensures old(Valid(Value())) && (forall j :: 0 <= j < |roles| ==> roles[j] < old(|heap|)) ==> Valid(Value())
    {
      if Valid(Value()) && forall j :: 0 <= j < |roles| ==> roles[j] < |heap| {
        LinkStored(Value(), associationName, roles);
      }
      l := |heap|;
      links := links.Put(LinkName(Value(), roles), l);
      heap := heap + [LinkElement(associationName, roles)];
    }

    /** `LinkObject(state, className, name, objects)`. */
    method NewLinkObject(className: string, name: string, roles: seq<ElementRef>) returns (l: ElementRef)
      modifies this
      ensures (Value(), l) == WithLinkObject(old(Value()), className, name, roles)
      ensures old(Valid(Value())) && (forall j :: 0 <= j < |roles| ==> roles[j] < old(|heap|)) ==> Valid(Value())
    {
      if Valid(Value()) && forall j :: 0 <= j < |roles| ==> roles[j] < |heap| {
        LinkObjectStored(Value(), className, name, roles);
      }
      l := |heap|;
      heap := heap + [LinkObjectElement(name, className, Empty(), roles)];
      linkObject := linkObject.Put(name, l);
    }

    /** `element.set(name, value)` on an object or a link object. */
    method SetAttribute(o: ElementRef, name: string, value: string)
      requires o < |heap| && !heap[o].LinkElement?
      modifies this
      ensures Value() == WithAttribute(old(Value()), o, name, value)
      ensures old(Valid(Value())) ==> Valid(Value())
    {
      if Valid(Value()) {
        AttributeSet(Value(), o, name, value);
      }
      var e := heap[o];
      heap := heap[o := e.(attributes := e.attributes.Put(name, value))];
    }
  }
}
