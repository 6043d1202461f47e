/** The values held by the OCL collections of `alaocl`, and the
    flattening of nested collections that `flatten` performs. */
module OclValues {

  /** A Python value as the collections see it: a scalar, or a nested
      collection given by its listing (what `listAll` returns). */
  datatype Value<T> = Scalar(v: T) | Nested(items: seq<Value<T>>)

  predicate AllScalars<T>(s: seq<Value<T>>) {
    forall i :: 0 <= i < |s| ==> s[i].Scalar?
  }

  /** The listing of `flatten(e)`: a scalar stands for itself, a nested
      collection for its items flattened in turn. */
  function Flat<T>(e: Value<T>): (r: seq<Value<T>>)
    ensures AllScalars(r)
    ensures e.Scalar? ==> r == [e]
    decreases e
  {
    match e
    case Scalar(_) => [e]
    case Nested(items) => FlatAll(items)
  }

  /** The items of a collection flattened one after the other, as the
      loop of `Seq.flatten` concatenates them. */
  function FlatAll<T>(items: seq<Value<T>>): (r: seq<Value<T>>)
    ensures AllScalars(r)
    ensures AllScalars(items) ==> r == items
    decreases items
  {
    if items == [] then []
    else
      var init := items[..|items| - 1];
      assert AllScalars(items) ==> AllScalars(init);
      FlatAll(init) + Flat(items[|items| - 1])
  }

  /** Flattening distributes over concatenation. */
  lemma {:induction false} FlatAllAppend<T>(a: seq<Value<T>>, b: seq<Value<T>>)
    ensures FlatAll(a + b) == FlatAll(a) + FlatAll(b)
    decreases |b|
  {
    if b == [] {
      assert a + b == a;
    } else {
      var init := b[..|b| - 1];
      var last := b[|b| - 1];
      assert (a + b)[..|a + b| - 1] == a + init;
      assert (a + b)[|a + b| - 1] == last;
      FlatAllAppend(a, init);
      calc {
        FlatAll(a + b);
        FlatAll(a + init) + Flat(last);
        (FlatAll(a) + FlatAll(init)) + Flat(last);
        FlatAll(a) + (FlatAll(init) + Flat(last));
        FlatAll(a) + FlatAll(b);
      }
    }
  }

  /** Flattening twice is flattening once. */
  lemma FlatAllIdempotent<T>(items: seq<Value<T>>)
    ensures FlatAll(FlatAll(items)) == FlatAll(items)
  {
  }

  /** `list.count(v)`: the number of positions holding `v`. */
  function CountOf<V(==)>(s: seq<V>, v: V): (r: nat)
    ensures r == multiset(s)[v]
    ensures r <= |s|
  {
    if s == [] then 0
    else
      var init := s[..|s| - 1];
      assert s == init + [s[|s| - 1]];
      CountOf(init, v) + (if s[|s| - 1] == v then 1 else 0)
  }

  /** No value occurs twice. */
  predicate Distinct<V(==)>(s: seq<V>) {
    forall i, j :: 0 <= i < j < |s| ==> s[i] != s[j]
  }
}
