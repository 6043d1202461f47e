/** OCL `Bag` of `alaocl`: a `Counter` held in `theCounter`, modelled as a
    multiset. Every operation except `flatten` builds a fresh bag. */
module OclBags {
  import opened OclValues

  /** `Bag(*args)` and `Bag.new(listing)` */
  function BagOf<V(==,!new)>(args: seq<V>): (r: multiset<V>)
    ensures |r| == |args|
    ensures forall x :: r[x] == CountOf(args, x)
  {
    multiset(args)
  }

  /** `Bag.count(v)`: the multiplicity of `v`, 0 when absent. */
  function BagCount<V(==)>(b: multiset<V>, v: V): (r: nat)
    ensures r == 0 <==> v !in b
    ensures r <= |b|
  {
    b[v]
  }

  /** `Bag.including(v)`: one more occurrence. */
  function BagIncluding<V(==,!new)>(b: multiset<V>, v: V): (r: multiset<V>)
    ensures r[v] == b[v] + 1
    ensures forall x :: x != v ==> r[x] == b[x]
  {
    b + multiset{v}
  }

  /** `Bag.excluding(v)`: every occurrence removed. */
  function BagExcluding<V(==,!new)>(b: multiset<V>, v: V): (r: multiset<V>)
    ensures r[v] == 0
    ensures forall x :: x != v ==> r[x] == b[x]
  {
    b[v := 0]
  }

  /** `Bag.size()` is the sum of the counts: building counts every listed
      value, `including` adds one and `excluding` takes away all the
      occurrences of its value. */
  lemma {:induction false} BagSizeCounts<V(!new)>(args: seq<V>, b: multiset<V>, v: V)
    ensures |BagOf(args)| == |args|
    ensures |BagIncluding(b, v)| == |b| + 1
    ensures |BagExcluding(b, v)| == |b| - b[v]
  {
    var others := b[v := 0];
    assert b == others + multiset{}[v := b[v]];
  }

  /** `Bag.union(collection)`: multiplicities are added. */
  function BagUnion<V(==,!new)>(b: multiset<V>, other: seq<V>): (r: multiset<V>)
    ensures forall x :: r[x] == b[x] + CountOf(other, x)
    ensures |r| == |b| + |other|
  {
    b + multiset(other)
  }

  /** `Bag.intersection(collection)`: the smaller multiplicity. */
  function BagIntersection<V(==,!new)>(b: multiset<V>, other: seq<V>): (r: multiset<V>)
    ensures forall x :: r[x] == if b[x] <= CountOf(other, x) then b[x] else CountOf(other, x)
  {
    b * multiset(other)
  }

  /** Taking the argument's occurrences back out of a union gives the
      receiver, and an intersection lies within both operands. */
  lemma BagUnionIntersection<V(!new)>(b: multiset<V>, other: seq<V>)
    ensures BagUnion(b, other) - BagOf(other) == b
    ensures BagIntersection(b, other) <= b && BagIntersection(b, other) <= BagOf(other)
  {
  }

  /** `Bag.hasDuplicates()`: some value occurs more than once. */
  predicate BagHasDuplicates<V(!new)>(b: multiset<V>) {
    exists x :: x in b && b[x] > 1
  }

  /** `Bag.duplicates()`: the values of count at least 2, with their
      counts. */
  function BagDuplicates<V(==,!new)>(b: multiset<V>): (r: multiset<V>)
    ensures forall x :: r[x] == if b[x] >= 2 then b[x] else 0
  {
    var singles := set x | x in b && b[x] == 1;
    assert forall x :: multiset(singles)[x] == if x in singles then 1 else 0;
    b - multiset(singles)
  }

  /** A bag has duplicates exactly when its duplicates are not empty. */
  lemma DuplicatesShowDuplication<V(!new)>(b: multiset<V>)
    ensures BagHasDuplicates(b) <==> BagDuplicates(b) != multiset{}
  {
    var d := BagDuplicates(b);
    if d != multiset{} {
      var x :| x in d;
      assert b[x] >= 2;
    }
    if BagHasDuplicates(b) {
      var x :| x in b && b[x] > 1;
      assert d[x] == b[x];
    }
  }

  /** `Bag.select(predicate)`: the selected values keep their counts. */
  ghost function BagSelect<V(!new)>(b: multiset<V>, p: V -> bool): (r: multiset<V>)
    ensures forall x :: r[x] == if p(x) then b[x] else 0
    decreases |b|
  {
    if b == multiset{} then multiset{}
    else
      var e :| e in b;
      var rest := b[e := 0];
      assert b == rest + multiset{}[e := b[e]];
      var selected := BagSelect(rest, p);
      if p(e) then selected[e := b[e]] else selected
  }

  /** `Bag.collectNested(expression)`: each value's image counted as
      often as the value. */
  ghost function BagCollectNested<V(!new), W(!new)>(b: multiset<V>, f: V -> W): (r: multiset<W>)
    ensures |r| == |b|
    ensures forall y :: y in r ==> exists x :: x in b && f(x) == y
    decreases |b|
  {
    if b == multiset{} then multiset{}
    else
      var e :| e in b;
      var rest := b[e := 0];
      assert b == rest + multiset{}[e := b[e]];
      var collected := BagCollectNested(rest, f);
      collected[f(e) := collected[f(e)] + b[e]]
  }

  /** `Bag.asSet()`: the values present. */
  function BagAsSet<V(==,!new)>(b: multiset<V>): (r: set<V>)
    ensures forall x :: x in r <==> b[x] > 0
  {
    set x | x in b
  }

  /** `n` copies of every occurrence in `m`. */
  function Times<V(!new)>(m: multiset<V>, n: nat): (r: multiset<V>)
    ensures n == 0 ==> r == multiset{}
  {
    if n == 0 then multiset{} else Times(m, n - 1) + m
  }

  /** Repeating distributes over adding one occurrence. */
  lemma {:induction false} TimesOneMore<V(!new)>(m: multiset<V>, x: V, n: nat)
    ensures Times(m + multiset{x}, n) == Times(m, n) + multiset{}[x := n]
  {
    if n > 0 {
      TimesOneMore(m, x, n - 1);
      Interchange(Times(m, n - 1), multiset{}[x := n - 1], m, multiset{x});
      assert multiset{}[x := n - 1] + multiset{x} == multiset{}[x := n];
    }
  }

  lemma Interchange<V(!new)>(a: multiset<V>, b: multiset<V>, c: multiset<V>, d: multiset<V>)
    ensures (a + b) + (c + d) == (a + c) + (b + d)
  {
  }

  lemma {:induction false} TimesNothing<V(!new)>(n: nat)
    ensures Times<V>(multiset{}, n) == multiset{}
  {
    if n > 0 {
      TimesNothing<V>(n - 1);
    }
  }

  /** Some occurrence of a non-empty bag. */
  ghost function Pick<V(!new)>(b: multiset<V>): (e: V)
    requires b != multiset{}
    ensures e in b
  {
    var e :| e in b; e
  }

  /** The counts `Bag.flatten` builds: every occurrence of an element
      contributes the listing of its flattening. */
  ghost function BagFlat<T(!new)>(b: multiset<Value<T>>): multiset<Value<T>>
    decreases |b|
  {
    if b == multiset{} then multiset{}
    else BagFlat(b - multiset{Pick(b)}) + multiset(Flat(Pick(b)))
  }

  /** Any occurrence may be taken out first. */
  lemma {:induction false} BagFlatPick<T(!new)>(b: multiset<Value<T>>, e: Value<T>)
    requires e in b
    ensures BagFlat(b) == BagFlat(b - multiset{e}) + multiset(Flat(e))
    decreases |b|
  {
    var e' := Pick(b);
    if e' != e {
      var b1 := b - multiset{e'};
      var b2 := b - multiset{e};
      var both := b1 - multiset{e};
      assert b2 - multiset{e'} == both;
      assert BagFlat(b2 - multiset{e'}) == BagFlat(both);
      BagFlatPick(b1, e);
      BagFlatPick(b2, e');
      assert BagFlat(b) == BagFlat(b1) + multiset(Flat(e'));
      Swap(BagFlat(b), BagFlat(b1), BagFlat(b2), BagFlat(both), multiset(Flat(e)), multiset(Flat(e')));
    }
  }

  /** The two orders of taking out two occurrences agree. */
  lemma Swap<V(!new)>(whole: multiset<V>, first: multiset<V>, second: multiset<V>,
                      both: multiset<V>, x: multiset<V>, y: multiset<V>)
    requires whole == first + y && first == both + x && second == both + y
    ensures whole == second + x
  {
  }

  /** Taking one occurrence of `e` out leaves one fewer and the other
      values as they were. */
  lemma TakeOne<V(!new)>(b: multiset<V>, e: V)
    requires e in b
    ensures (b - multiset{e})[e] == b[e] - 1
    ensures (b - multiset{e})[e := 0] == b[e := 0]
  {
  }

  lemma Regroup<V(!new)>(a: multiset<V>, b: multiset<V>, c: multiset<V>)
    ensures (a + b) + c == a + (b + c)
  {
  }

  /** Two steps of taking occurrences out, combined. */
  lemma Chain<V(!new)>(whole: multiset<V>, part: multiset<V>, rest: multiset<V>,
                       x: multiset<V>, t: multiset<V>, total: multiset<V>)
    requires whole == part + x && part == rest + t && total == t + x
    ensures whole == rest + total
  {
  }

  /** All the `n` occurrences of one element taken out at once. */
  lemma {:induction false} BagFlatItem<T(!new)>(b: multiset<Value<T>>, e: Value<T>, n: nat)
    requires b[e] == n
    ensures BagFlat(b) == BagFlat(b[e := 0]) + Times(multiset(Flat(e)), n)
    decreases n, 1
  {
    if n == 0 {
      assert b[e := 0] == b;
    } else {
      var x := multiset(Flat(e));
      BagFlatItemRest(b, e, n);
      BagFlatPick(b, e);
      Chain(BagFlat(b), BagFlat(b - multiset{e}), BagFlat(b[e := 0]), x, Times(x, n - 1), Times(x, n));
    }
  }

  /** The occurrences left after taking one out. */
  lemma {:induction false} BagFlatItemRest<T(!new)>(b: multiset<Value<T>>, e: Value<T>, n: nat)
    requires b[e] == n > 0
    ensures BagFlat(b - multiset{e}) == BagFlat(b[e := 0]) + Times(multiset(Flat(e)), n - 1)
    decreases n, 0
  {
    var less := b - multiset{e};
    TakeOne(b, e);
    assert BagFlat(less[e := 0]) == BagFlat(b[e := 0]);
    BagFlatItem(less, e, n - 1);
  }

  /** Flattening a bag built from a listing gives the bag of the
      flattened listing. */
  lemma {:induction false} BagFlatListing<T(!new)>(items: seq<Value<T>>)
    ensures BagFlat(multiset(items)) == multiset(FlatAll(items))
    decreases |items|
  {
    if items != [] {
      var init := items[..|items| - 1];
      var last := items[|items| - 1];
      assert items == init + [last];
      assert multiset(items) - multiset{last} == multiset(init);
      BagFlatPick(multiset(items), last);
      BagFlatListing(init);
    }
  }

  /** The inner loop of `Bag.flatten`: `counter[x] += n` for each `x` of
      the listing. */
  method AddOccurrences<T(==,!new)>(counter: multiset<Value<T>>, coll: seq<Value<T>>, n: nat)
    returns (r: multiset<Value<T>>)
    ensures r == counter + Times(multiset(coll), n)
  {
    r := counter;
    var j := 0;
    assert Times(multiset(coll[..0]), n) == multiset{} by {
      TimesNothing<Value<T>>(n);
    }
    while j < |coll|
      invariant 0 <= j <= |coll|
      invariant r == counter + Times(multiset(coll[..j]), n)
    {
      assert multiset(coll[..j + 1]) == multiset(coll[..j]) + multiset{coll[j]} by {
        assert coll[..j + 1] == coll[..j] + [coll[j]];
      }
      TimesOneMore(multiset(coll[..j]), coll[j], n);
      assert r[coll[j] := r[coll[j]] + n] == r + multiset{}[coll[j] := n];
      r := r[coll[j] := r[coll[j]] + n];
      j := j + 1;
    }
    assert coll[..j] == coll;
  }

  /** An OCL `Bag` object. */
  class Bag<T(==,!new)> {
    var theCounter: multiset<Value<T>>

    /** `Bag(*args)` */
    constructor(args: seq<Value<T>>)
      ensures theCounter == BagOf(args)
    {
      theCounter := multiset(args);
    }

    /** `Bag.flatten()` replaces the receiver's counts by those of the
        flattened elements and returns the receiver itself. */
    method Flatten() returns (r: Bag<T>)
      modifies this
      ensures r == this
      ensures theCounter == BagFlat(old(theCounter))
    {
      var counter: multiset<Value<T>> := multiset{};
      var pending := theCounter;
      ghost var original := theCounter;
      while pending != multiset{}
        invariant counter + BagFlat(pending) == BagFlat(original)
        decreases |pending|
      {
        var e :| e in pending;
        var n := pending[e];
        var added := Times(multiset(Flat(e)), n);
        BagFlatItem(pending, e, n);
        Regroup(counter, added, BagFlat(pending[e := 0]));
        BagSizeCounts([], pending, e);
        counter := AddOccurrences(counter, Flat(e), n);
        pending := pending[e := 0];
      }
      theCounter := counter;
      r := this;
    }
  }
}
