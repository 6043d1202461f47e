/** OCL `Set` of `alaocl`: a Python `set` held in `theSet`, every
    operation building a fresh set. Arguments that may be any collection
    are given by their listing. */
module OclSets {
  import opened OclValues

  /** `Set(*args)` and `Set.new(collection)`: duplicates are dropped. */
  function SetOf<V(==,!new)>(args: seq<V>): (r: set<V>)
    ensures forall x :: x in r <==> x in args
    ensures |r| <= |args|
  {
    if args == [] then {}
    else
      var init := args[..|args| - 1];
      assert args == init + [args[|args| - 1]];
      SetOf(init) + {args[|args| - 1]}
  }

  /** A set built from a listing has as many elements as the listing
      exactly when no element is listed twice. */
  lemma {:induction false} SetSizeIsDistinctCount<V(!new)>(args: seq<V>)
    ensures |SetOf(args)| == |args| <==> Distinct(args)
  {
    if args != [] {
      var init := args[..|args| - 1];
      var last := args[|args| - 1];
      assert args == init + [last];
      SetSizeIsDistinctCount(init);
      if Distinct(args) {
        assert Distinct(init);
        assert last !in SetOf(init);
      } else if |SetOf(args)| == |args| {
        assert last !in SetOf(init);
        assert Distinct(init);
        assert Distinct(args);
      }
    }
  }

  /** `Set.isEmpty` as written: the test of `theSet`'s truth is inverted. */
  function IsEmptyAsWritten<V>(s: set<V>): (r: bool)
    ensures r <==> s != {}
  {
    |s| > 0
  }

  /** `isEmpty` of the other collections: `size() == 0`. */
  function IsEmpty<V>(s: set<V>): (r: bool)
    ensures r <==> s == {}
  {
    |s| == 0
  }

  /** `notEmpty` is the negation of whichever `isEmpty` the receiver has,
      so on a set it holds exactly for the empty set. */
  lemma EmptinessInverted<V>(s: set<V>)
    ensures IsEmptyAsWritten(s) == !IsEmpty(s)
    ensures !IsEmptyAsWritten(s) <==> s == {}
    ensures IsEmptyAsWritten<int>({}) == false && IsEmptyAsWritten({1}) == true
  {
    assert 1 in {1};
  }

  /** `Set.count(v)`: 1 or 0. */
  function SetCount<V(==,!new)>(s: set<V>, v: V): (r: nat)
    ensures r <= 1
    ensures r == 1 <==> v in s
  {
    if v in s then 1 else 0
  }

  /** `Set.including(v)` */
  function SetIncluding<V(==,!new)>(s: set<V>, v: V): (r: set<V>)
    ensures v in r && s <= r
    ensures forall x :: x in r <==> x == v || x in s
    ensures |r| == if v in s then |s| else |s| + 1
  {
    s + {v}
  }

  /** `Set.excluding(v)` */
  function SetExcluding<V(==,!new)>(s: set<V>, v: V): (r: set<V>)
    ensures v !in r && r <= s
    ensures forall x :: x != v ==> (x in r <==> x in s)
    ensures |r| == if v in s then |s| - 1 else |s|
  {
    s - {v}
  }

  /** Including then excluding a value is excluding it, and the reverse. */
  lemma IncludingExcluding<V(!new)>(s: set<V>, v: V)
    ensures SetExcluding(SetIncluding(s, v), v) == SetExcluding(s, v)
    ensures SetIncluding(SetExcluding(s, v), v) == SetIncluding(s, v)
    ensures v !in s ==> SetExcluding(SetIncluding(s, v), v) == s
    ensures v in s ==> SetIncluding(SetExcluding(s, v), v) == s
  {
  }

  /** `Set.union(collection)` */
  function SetUnion<V(==,!new)>(s: set<V>, other: seq<V>): (r: set<V>)
    ensures forall x :: x in r <==> x in s || x in other
  {
    s + SetOf(other)
  }

  /** `Set.intersection(collection)` */
  function SetIntersection<V(==,!new)>(s: set<V>, other: seq<V>): (r: set<V>)
    ensures forall x :: x in r <==> x in s && x in other
  {
    s * SetOf(other)
  }

  /** `Set.difference(collection)` */
  function SetDifference<V(==,!new)>(s: set<V>, other: seq<V>): (r: set<V>)
    ensures forall x :: x in r <==> x in s && x !in other
  {
    s - SetOf(other)
  }

  /** `Set.symmetricDifference(collection)`: the union less the
      intersection. */
  function SetSymmetricDifference<V(==,!new)>(s: set<V>, other: seq<V>): (r: set<V>)
    ensures forall x :: x in r <==> (x in s) != (x in other)
  {
    var o := SetOf(other);
    (s + o) - (s * o)
  }

  /** The set algebra: the union counts the shared elements once, and the
      symmetric difference is made of the two differences. */
  lemma SetAlgebra<V(!new)>(s: set<V>, other: seq<V>)
    ensures |SetUnion(s, other)| + |SetIntersection(s, other)| == |s| + |SetOf(other)|
    ensures SetSymmetricDifference(s, other) == SetDifference(s, other) + (SetOf(other) - s)
    ensures SetDifference(s, other) + SetIntersection(s, other) == s
  {
  }

  /** `Set.hasDuplicates` is always false and `Set.duplicates` always the
      empty bag. */
  function SetDuplicates<V>(s: set<V>): (r: multiset<V>)
    ensures |r| == 0
  {
    multiset{}
  }

  /** `Set.select(predicate)` */
  function SetSelect<V(==,!new)>(s: set<V>, p: V -> bool): (r: set<V>)
    ensures forall x :: x in r <==> x in s && p(x)
  {
    set x | x in s && p(x)
  }

  /** `reject(predicate)`: `select` of the negated predicate. */
  function SetReject<V(==,!new)>(s: set<V>, p: V -> bool): (r: set<V>)
    ensures forall x :: x in r <==> x in s && !p(x)
  {
    SetSelect(s, x => !p(x))
  }

  /** `select` and `reject` split the set in two. */
  lemma SelectRejectPartition<V(!new)>(s: set<V>, p: V -> bool)
    ensures SetSelect(s, p) + SetReject(s, p) == s
    ensures SetSelect(s, p) * SetReject(s, p) == {}
  {
  }

  /** `Set.flatten`: the union of the flattened elements. */
  function SetFlatten<T(==,!new)>(s: set<Value<T>>): (r: set<Value<T>>)
    ensures forall x :: x in r ==> x.Scalar?
  {
    set e, x | e in s && x in Flat(e) :: x
  }

  /** The flattened set holds what the flattening of some element holds. */
  lemma SetFlattenMembers<T(!new)>(s: set<Value<T>>, x: Value<T>)
    ensures x in SetFlatten(s) <==> exists e :: e in s && x in Flat(e)
  {
  }

  /** A set of scalars flattens to itself. */
  lemma FlattenScalars<T(!new)>(s: set<Value<T>>)
    requires forall e :: e in s ==> e.Scalar?
    ensures SetFlatten(s) == s
  {
    var r := SetFlatten(s);
    forall x | x in s
      ensures x in r
    {
      assert x in Flat(x);
    }
    forall x | x in r
      ensures x in s
    {
      SetFlattenMembers(s, x);
      var e :| e in s && x in Flat(e);
      assert Flat(e) == [e];
    }
  }

  /** `Set.asBag()`: every element once. */
  function SetAsBag<V(==,!new)>(s: set<V>): (r: multiset<V>)
    ensures forall x :: r[x] == if x in s then 1 else 0
    ensures |r| == |s|
  {
    multiset(s)
  }
}
