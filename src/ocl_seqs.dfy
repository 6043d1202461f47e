/** OCL `Seq` of `alaocl`: a Python list held in `theList`. Most operations
    build a fresh sequence; `including` and `flatten` change the receiver.
    Positions are counted from 1 in OCL and from 0 in Python. */
module OclSeqs {
  import opened Wrappers
  import opened Text
  import opened OclValues
  import opened OclSets
  import opened OclBags

  /** `Seq.isEmpty` as written: the truth of `theList` is returned, which is
      the opposite of emptiness. */
  function SeqIsEmptyAsWritten<V>(s: seq<V>): (r: bool)
    ensures r <==> s != []
  {
    |s| > 0
  }

  /** `isEmpty` as the other collections have it: `size() == 0`. */
  function SeqIsEmpty<V>(s: seq<V>): (r: bool)
    ensures r <==> |s| == 0
  {
    s == []
  }

  /** `notEmpty` negates the inverted test, so it holds exactly on the empty
      sequence. */
  lemma SeqEmptinessInverted<V>(s: seq<V>)
    ensures SeqIsEmptyAsWritten(s) == !SeqIsEmpty(s)
    ensures !SeqIsEmptyAsWritten(s) <==> s == []
    ensures SeqIsEmptyAsWritten<int>([]) == false && SeqIsEmptyAsWritten([7]) == true
  {
  }

  /** `Seq.includes(v)`: `v in theList`. */
  function SeqIncludes<V(==)>(s: seq<V>, v: V): (r: bool)
    ensures r <==> CountOf(s, v) > 0
  {
    v in s
  }

  /** `Seq.select(predicate)`: the satisfying elements, in their order. */
  function SeqSelect<V(==,!new)>(s: seq<V>, p: V -> bool): (r: seq<V>)
    ensures |r| <= |s|
    ensures forall i :: 0 <= i < |r| ==> p(r[i])
  {
    if s == [] then []
    else
      var init := s[..|s| - 1];
      var last := s[|s| - 1];
      assert s == init + [last];
      SeqSelect(init, p) + (if p(last) then [last] else [])
  }

  /** The selected elements keep their multiplicities; the others are
      gone. */
  lemma {:induction false} SelectCounts<V(!new)>(s: seq<V>, p: V -> bool, x: V)
    ensures CountOf(SeqSelect(s, p), x) == if p(x) then CountOf(s, x) else 0
  {
    if s != [] {
      var init := s[..|s| - 1];
      var last := s[|s| - 1];
      assert s == init + [last];
      SelectCounts(init, p, x);
    }
  }

  /** An element is selected exactly when it is listed and passes. */
  lemma SelectMembers<V(!new)>(s: seq<V>, p: V -> bool, x: V)
    ensures x in SeqSelect(s, p) <==> x in s && p(x)
  {
    SelectCounts(s, p, x);
  }

  /** Selecting from a concatenation selects from each part in turn, so the
      selected elements keep their order. */
  lemma {:induction false} SelectAppend<V(!new)>(a: seq<V>, b: seq<V>, p: V -> bool)
    ensures SeqSelect(a + b, p) == SeqSelect(a, p) + SeqSelect(b, p)
    decreases |b|
  {
    if b == [] {
      assert a + b == a;
    } else {
      var init := b[..|b| - 1];
      assert (a + b)[..|a + b| - 1] == a + init;
      assert (a + b)[|a + b| - 1] == b[|b| - 1];
      SelectAppend(a, init, p);
    }
  }

  /** `reject(predicate)`: `select` of the negated predicate. */
  function SeqReject<V(==,!new)>(s: seq<V>, p: V -> bool): (r: seq<V>)
    ensures forall i :: 0 <= i < |r| ==> !p(r[i])
  {
    SeqSelect(s, x => !p(x))
  }

  /** `select` and `reject` share out the elements of the sequence. */
  lemma {:induction false} SelectRejectShare<V(!new)>(s: seq<V>, p: V -> bool)
    ensures |SeqSelect(s, p)| + |SeqReject(s, p)| == |s|
    ensures multiset(SeqSelect(s, p)) + multiset(SeqReject(s, p)) == multiset(s)
  {
    if s != [] {
      var init := s[..|s| - 1];
      var last := s[|s| - 1];
      assert s == init + [last];
      SelectRejectShare(init, p);
    }
  }

  /** `Seq.excluding(v)`: every occurrence of `v` dropped, the rest in
      order. */
  function SeqExcluding<V(==,!new)>(s: seq<V>, v: V): (r: seq<V>)
    ensures v !in r
    ensures multiset(r) == multiset(s)[v := 0]
    ensures |r| == |s| - CountOf(s, v)
  {
    var r := SeqSelect(s, x => x != v);
    assert multiset(r) == multiset(s)[v := 0] by {
      forall x ensures multiset(r)[x] == multiset(s)[v := 0][x] {
        SelectCounts(s, y => y != v, x);
      }
    }
    assert |multiset(s)| == |multiset(r)| + multiset(s)[v] by {
      assert multiset(s) == multiset(r) + multiset{}[v := multiset(s)[v]];
    }
    r
  }

  /** Excluding from a union excludes from each operand. */
  lemma ExcludingUnion<V(!new)>(a: seq<V>, b: seq<V>, v: V)
    ensures SeqExcluding(a + b, v) == SeqExcluding(a, v) + SeqExcluding(b, v)
  {
    SelectAppend(a, b, x => x != v);
  }

  /** `Seq.hasDuplicates()`: the bag of the elements has a duplicate. */
  predicate SeqHasDuplicates<V(==,!new)>(s: seq<V>) {
    BagHasDuplicates(BagOf(s))
  }

  /** A sequence has duplicates exactly when some element is listed at two
      positions. */
  lemma SeqDuplicatesIffRepeated<V(!new)>(s: seq<V>)
    ensures SeqHasDuplicates(s) <==> !Distinct(s)
  {
    if !Distinct(s) {
      var i, j :| 0 <= i < j < |s| && s[i] == s[j];
      var x := s[i];
      assert s == s[..j] + [x] + s[j + 1..];
      assert x in s[..j];
      assert multiset(s)[x] == multiset(s[..j])[x] + 1 + multiset(s[j + 1..])[x];
      assert BagOf(s)[x] > 1;
    }
    if SeqHasDuplicates(s) {
      var x :| x in BagOf(s) && BagOf(s)[x] > 1;
      Repeated(s, x);
    }
  }

  /** An element counted twice sits at two positions. */
  lemma {:induction false} Repeated<V(!new)>(s: seq<V>, x: V)
    requires multiset(s)[x] > 1
    ensures !Distinct(s)
  {
    var init := s[..|s| - 1];
    var last := s[|s| - 1];
    assert s == init + [last];
    if last == x {
      assert x in multiset(init);
      var i :| 0 <= i < |init| && init[i] == x;
      assert s[i] == s[|s| - 1];
    } else {
      Repeated(init, x);
      var i, j :| 0 <= i < j < |init| && init[i] == init[j];
      assert s[i] == s[j];
    }
  }

  /** `Seq.duplicates()`: the bag of the elements listed at least twice. */
  function SeqDuplicates<V(==,!new)>(s: seq<V>): (r: multiset<V>)
    ensures forall x :: r[x] == if CountOf(s, x) >= 2 then CountOf(s, x) else 0
  {
    BagDuplicates(BagOf(s))
  }

  /** `Seq.union(collection)`: the argument's listing appended. Its bag is
      the union of the bags. */
  function SeqUnion<V(==,!new)>(s: seq<V>, other: seq<V>): (r: seq<V>)
    ensures |r| == |s| + |other|
    ensures multiset(r) == BagUnion(multiset(s), other)
  {
    s + other
  }

  /** `Seq.append(v)`: a fresh sequence with `v` at the end. */
  function Append<V>(s: seq<V>, v: V): (r: seq<V>)
    ensures |r| == |s| + 1 && r[..|s|] == s && r[|s|] == v
  {
    s + [v]
  }

  /** `Seq.prepend(v)`: a fresh sequence with `v` at the front. */
  function Prepend<V>(s: seq<V>, v: V): (r: seq<V>)
    ensures |r| == |s| + 1 && r[1..] == s && r[0] == v
  {
    [v] + s
  }

  /** `Seq.collectNested(expression)`: the image of every element, in
      order. */
  function SeqCollectNested<V, W>(s: seq<V>, f: V -> W): (r: seq<W>)
    ensures |r| == |s|
    ensures forall i :: 0 <= i < |s| ==> r[i] == f(s[i])
  {
    seq(|s|, i requires 0 <= i < |s| => f(s[i]))
  }

  /** Collecting distributes over concatenation. */
  lemma CollectNestedUnion<V(!new), W(!new)>(a: seq<V>, b: seq<V>, f: V -> W)
    ensures SeqCollectNested(SeqUnion(a, b), f)
         == SeqUnion(SeqCollectNested(a, f), SeqCollectNested(b, f))
  {
  }

  /** The error `at` raises when no element is at `index`. */
  function AtFailure(index: int): PyError {
    Invalid(".at(" + IntToString(index) + ") failed: No such element.")
  }

  /** `Seq.at(index)` as written: `theList[index - 1]`, so 0 and negative
      indices reach the end of the list instead of failing. */
  function AtAsWritten<V>(s: seq<V>, index: int): (r: Result<V>)
    ensures 1 <= index <= |s| ==> r == Ok(s[index - 1])
    ensures r.Err? <==> index > |s| || index <= -|s|
    ensures r.Err? ==> r.error == AtFailure(index)
  {
    match PyIndex(s, index - 1)
    case Ok(v) => Ok(v)
    case Err(_) => Err(AtFailure(index))
  }

  /** `at` as OCL defines it: positions 1 to `size()`, anything else
      fails. */
  function At<V>(s: seq<V>, index: int): (r: Result<V>)
    ensures r.Ok? <==> 1 <= index <= |s|
    ensures r.Ok? ==> r.value == s[index - 1]
    ensures r.Err? ==> r.error == AtFailure(index)
  {
    if 1 <= index <= |s| then Ok(s[index - 1]) else Err(AtFailure(index))
  }

  /** Both readings agree on the positions OCL allows, and `at(0)` as
      written returns the last element where it should fail. */
  lemma AtZeroReturnsLast<V>(s: seq<V>, index: int)
    ensures 1 <= index <= |s| ==> AtAsWritten(s, index) == At(s, index)
    ensures s != [] ==> AtAsWritten(s, 0) == Ok(s[|s| - 1]) && At(s, 0).Err?
    ensures AtAsWritten([10, 20, 30], 0) == Ok(30)
  {
  }

  /** `Seq.first()` */
  function First<V>(s: seq<V>): (r: Result<V>)
    ensures r.Ok? <==> s != []
    ensures r.Ok? ==> r.value == s[0]
    ensures r.Err? ==> r.error == Invalid(".first() failed: No such element.")
  {
    if s != [] then Ok(s[0]) else Err(Invalid(".first() failed: No such element."))
  }

  /** `Seq.last()`: `theList[-1]`. */
  function Last<V>(s: seq<V>): (r: Result<V>)
    ensures r.Ok? <==> s != []
    ensures r.Ok? ==> r.value == s[|s| - 1]
    ensures r.Err? ==> r.error == Invalid(".last() failed: No such element.")
  {
    match PyIndex(s, -1)
    case Ok(v) => Ok(v)
    case Err(_) => Err(Invalid(".last() failed: No such element."))
  }

  /** `first` and `last` are `at` of the end positions, and `append` and
      `prepend` put their value there. */
  lemma EndsOfSequence<V(!new)>(s: seq<V>, v: V)
    ensures s != [] ==> First(s) == At(s, 1) && Last(s) == At(s, |s|)
    ensures First(Prepend(s, v)) == Ok(v) && Last(Append(s, v)) == Ok(v)
    ensures At(Append(s, v), |s| + 1) == Ok(v)
    ensures Append(s, v) == SeqUnion(s, [v])
  {
  }

  /** The error `subSequence` raises. */
  function SubSequenceFailure(lower: int, upper: int): PyError {
    Invalid(".subSequence(" + IntToString(lower) + "," + IntToString(upper) + ") failed: No such element.")
  }

  /** `Seq.subSequence(lower, upper)` as written: the slice
      `theList[lower - 1:upper]`. A slice never raises, so the handler is
      never reached and bad bounds give a short or empty sequence. */
  function SubSequenceAsWritten<V>(s: seq<V>, lower: int, upper: int): (r: Result<seq<V>>)
    ensures r.Ok?
    ensures 1 <= lower <= upper <= |s| ==> r.value == s[lower - 1..upper]
  {
    Ok(PySlice(s, lower - 1, upper))
  }

  /** `subSequence` as OCL defines it: the positions `lower` to `upper`,
      which must satisfy `1 <= lower <= upper <= size()`. */
  function SubSequence<V>(s: seq<V>, lower: int, upper: int): (r: Result<seq<V>>)
    ensures r.Ok? <==> 1 <= lower <= upper <= |s|
    ensures r.Ok? ==> |r.value| == upper - lower + 1
    ensures r.Ok? ==> forall i :: 1 <= i <= |r.value| ==> At(r.value, i) == At(s, lower - 1 + i)
    ensures r.Err? ==> r.error == SubSequenceFailure(lower, upper)
  {
    if 1 <= lower <= upper <= |s| then Ok(s[lower - 1..upper])
    else Err(SubSequenceFailure(lower, upper))
  }

  /** Both readings agree on valid bounds; as written, bounds OCL refuses
      still succeed, with a wrong result. */
  lemma SubSequenceBadBounds<V>(s: seq<V>, lower: int, upper: int)
    ensures SubSequence(s, lower, upper).Ok? ==> SubSequenceAsWritten(s, lower, upper) == SubSequence(s, lower, upper)
    ensures SubSequenceAsWritten([1, 2, 3], 0, 2) == Ok([]) && SubSequence([1, 2, 3], 0, 2).Err?
    ensures SubSequenceAsWritten([1, 2, 3], 0, 3) == Ok([3])
  {
    assert SliceBound(-1, 3) == 2 && SliceBound(3, 3) == 3;
    assert PySlice([1, 2, 3], -1, 3) == [1, 2, 3][2..3] == [3];
    assert SubSequenceAsWritten([1, 2, 3], 0, 3) == Ok(PySlice([1, 2, 3], -1, 3));
  }

  /** `Seq.asSet()` and `Seq.asBag()` agree: the set of the bag of the
      elements is the set of the elements. */
  lemma ConversionsAgree<V(!new)>(s: seq<V>)
    ensures BagAsSet(BagOf(s)) == SetOf(s)
    ensures |SetOf(s)| <= |BagOf(s)|
  {
  }

  /** `collect(expression)`: `collectNested` then `flatten`. */
  function SeqCollect<V, T>(s: seq<V>, f: V -> Value<T>): (r: seq<Value<T>>)
    ensures AllScalars(r)
    ensures (forall i :: 0 <= i < |s| ==> f(s[i]).Scalar?) ==> r == SeqCollectNested(s, f)
  {
    FlatAll(SeqCollectNested(s, f))
  }

  /** `isUnique(expression)`: the collected values hold no duplicate. */
  predicate IsUnique<V, T(==,!new)>(s: seq<V>, f: V -> Value<T>) {
    !SeqHasDuplicates(SeqCollect(s, f))
  }

  /** When the expression yields plain values, `isUnique` holds exactly when
      no two elements have the same image. */
  lemma IsUniqueScalar<V, T(!new)>(s: seq<V>, f: V -> Value<T>)
    requires forall i :: 0 <= i < |s| ==> f(s[i]).Scalar?
    ensures IsUnique(s, f) <==> Distinct(SeqCollectNested(s, f))
  {
    SeqDuplicatesIffRepeated(SeqCollect(s, f));
  }

  /** An OCL `Seq` object. */
  class Seq<T(==)> {
    var theList: seq<Value<T>>

    /** `Seq(*args)`, and `Seq.new(collection)` given its listing. */
    constructor(args: seq<Value<T>>)
      ensures theList == args
    {
      theList := args;
    }

    /** `Seq.including(v)` as written: `v` is appended to the receiver's own
        list, which is then returned. */
    method Including(v: Value<T>) returns (r: Seq<T>)
      modifies this
      ensures r == this
      ensures theList == Append(old(theList), v)
    {
      theList := theList + [v];
      r := this;
    }

    /** `including` as OCL defines it, the way `append` is written: a fresh
        sequence, the receiver left as it was. */
    method IncludingFresh(v: Value<T>) returns (r: Seq<T>)
      ensures fresh(r)
      ensures r.theList == Append(theList, v)
    {
      r := new Seq(theList + [v]);
    }

    /** `Seq.flatten()`: the receiver's list replaced by the concatenation of
        its elements' flattenings, and the receiver returned. */
    method Flatten() returns (r: Seq<T>)
      modifies this
      ensures r == this
      ensures theList == FlatAll(old(theList))
      ensures AllScalars(theList)
    {
      var acc: seq<Value<T>> := [];
      var i := 0;
      while i < |theList|
        invariant 0 <= i <= |theList|
        invariant acc == FlatAll(theList[..i])
      {
        var e := theList[i];
        var flatList := match e
          case Nested(_) => Flat(e)
          case Scalar(_) => [e];
        assert theList[..i + 1][..i] == theList[..i];
        acc := acc + flatList;
        i := i + 1;
      }
      assert theList[..i] == theList;
      theList := acc;
      r := this;
    }
  }

  /** Including on a sequence as written changes the sequence it was called
      on: the receiver grows from empty to one element. */
  method IncludingChangesReceiver() returns (before: nat, after: nat)
    ensures before == 0 && after == 1
  {
    var s := new Seq<int>([]);
    before := |s.theList|;
    var t := s.Including(Scalar(1));
    after := |s.theList|;
  }

  /** Including as intended leaves the receiver as it was. */
  method IncludingFreshKeepsReceiver() returns (before: nat, after: nat)
    ensures before == 0 && after == 0
  {
    var s := new Seq<int>([]);
    before := |s.theList|;
    var t := s.IncludingFresh(Scalar(1));
    after := |s.theList|;
  }
}
