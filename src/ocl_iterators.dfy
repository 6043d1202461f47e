/** The iterator operations `alaocl` shares among its collections
    (`GenericCollection`). Each walks the receiver in iteration order, so the
    receiver is given by its listing: the list of a `Seq`, the distinct
    elements of a `Set`, every occurrence of a `Bag`. A predicate or an
    expression is a Dafny function. */
module OclIterators {
  import opened Wrappers
  import opened OclValues
  import opened OclSeqs

  /** `forAll(predicate)`: false at the first element that fails. */
  method ForAll<V>(s: seq<V>, p: V -> bool) returns (r: bool)
    ensures r <==> forall i :: 0 <= i < |s| ==> p(s[i])
    ensures s == [] ==> r
  {
    var k := 0;
    while k < |s|
      invariant 0 <= k <= |s|
      invariant forall i :: 0 <= i < k ==> p(s[i])
    {
      if !p(s[k]) {
        return false;
      }
      k := k + 1;
    }
    return true;
  }

  /** `exists(predicate)`: true at the first element that passes. */
  method Exists<V>(s: seq<V>, p: V -> bool) returns (r: bool)
    ensures r <==> exists i :: 0 <= i < |s| && p(s[i])
    ensures s == [] ==> !r
  {
    var k := 0;
    while k < |s|
      invariant 0 <= k <= |s|
      invariant forall i :: 0 <= i < k ==> !p(s[i])
    {
      if p(s[k]) {
        return true;
      }
      k := k + 1;
    }
    return false;
  }

  /** `one(predicate)`: false as soon as a second element passes, otherwise
      whether one did. */
  method One<V>(s: seq<V>, p: V -> bool) returns (r: bool)
    ensures r <==> exists i :: 0 <= i < |s| && p(s[i]) && forall j :: 0 <= j < |s| && j != i ==> !p(s[j])
  {
    var foundOne := false;
    ghost var at := 0;
    var k := 0;
    while k < |s|
      invariant 0 <= k <= |s|
      invariant foundOne ==> 0 <= at < k && p(s[at]) && forall j :: 0 <= j < k && j != at ==> !p(s[j])
      invariant !foundOne ==> forall j :: 0 <= j < k ==> !p(s[j])
    {
      var found := p(s[k]);
      if found && foundOne {
        assert p(s[at]) && p(s[k]) && at != k;
        return false;
      } else if found {
        foundOne := true;
        at := k;
      }
      k := k + 1;
    }
    return foundOne;
  }

  /** The error `any` raises when no element passes. */
  const AnyFailure := Invalid(".any(...) failed: No such element.")

  /** `any(predicate)`: the first element that passes. */
  method Any<V>(s: seq<V>, p: V -> bool) returns (r: Result<V>)
    ensures r.Ok? <==> exists i :: 0 <= i < |s| && p(s[i])
    ensures r.Ok? ==> r.value in s && p(r.value)
    ensures r.Ok? ==> exists i :: 0 <= i < |s| && s[i] == r.value && forall j :: 0 <= j < i ==> !p(s[j])
    ensures r.Err? ==> r.error == AnyFailure
  {
    var k := 0;
    while k < |s|
      invariant 0 <= k <= |s|
      invariant forall i :: 0 <= i < k ==> !p(s[i])
    {
      if p(s[k]) {
        return Ok(s[k]);
      }
      k := k + 1;
    }
    return Err(AnyFailure);
  }

  /** `includesAll(elements)`: false at the first element missing from the
      receiver. */
  method IncludesAll<V(==)>(receiver: seq<V>, elements: seq<V>) returns (r: bool)
    ensures r <==> forall i :: 0 <= i < |elements| ==> elements[i] in receiver
  {
    var k := 0;
    while k < |elements|
      invariant 0 <= k <= |elements|
      invariant forall i :: 0 <= i < k ==> elements[i] in receiver
    {
      if elements[k] !in receiver {
        return false;
      }
      k := k + 1;
    }
    return true;
  }

  /** `excludesAll(elements)`: false at the first element the receiver
      holds. */
  method ExcludesAll<V(==)>(receiver: seq<V>, elements: seq<V>) returns (r: bool)
    ensures r <==> forall i :: 0 <= i < |elements| ==> elements[i] !in receiver
  {
    var k := 0;
    while k < |elements|
      invariant 0 <= k <= |elements|
      invariant forall i :: 0 <= i < k ==> elements[i] !in receiver
    {
      if elements[k] in receiver {
        return false;
      }
      k := k + 1;
    }
    return true;
  }

  /** The first occurrences of the elements, in order. */
  function Dedup<V(==,!new)>(s: seq<V>): (r: seq<V>)
    ensures Distinct(r)
    ensures forall x :: x in r <==> x in s
  {
    if s == [] then []
    else
      var init := s[..|s| - 1];
      var last := s[|s| - 1];
      assert s == init + [last];
      if last in init then Dedup(init) else Dedup(init) + [last]
  }

  /** The successors not yet visited go to the back of the queue, in
      order. */
  method Enqueue<V(==,!new)>(toVisit: seq<V>, successors: seq<V>, visited: seq<V>) returns (r: seq<V>)
    ensures r == toVisit + SeqSelect(successors, y => y !in visited)
  {
    r := toVisit;
    var k := 0;
    while k < |successors|
      invariant 0 <= k <= |successors|
      invariant r == toVisit + SeqSelect(successors[..k], y => y !in visited)
    {
      assert successors[..k + 1][..k] == successors[..k];
      var s := successors[k];
      if s !in visited {
        r := r + [s];
      }
      k := k + 1;
    }
    assert successors[..k] == successors;
  }

  /** Every element reached from the listed elements lies in `universe`. */
  ghost predicate ClosedUnder<V>(universe: set<V>, succ: V -> seq<V>) {
    forall x, y :: x in universe && y in succ(x) ==> y in universe
  }

  /** Every successor of a visited element is visited or waiting. */
  ghost predicate Pending<V>(succ: V -> seq<V>, visited: seq<V>, toVisit: seq<V>) {
    forall i, y :: 0 <= i < |visited| && y in succ(visited[i]) ==> y in visited || y in toVisit
  }

  /** Every visited element is a source or a successor of an element
      visited before it. */
  ghost predicate Reached<V>(sources: seq<V>, succ: V -> seq<V>, visited: seq<V>) {
    forall i :: 0 <= i < |visited| ==>
      visited[i] in sources || exists j :: 0 <= j < i && visited[i] in succ(visited[j])
  }

  /** Every waiting element is a source or a successor of a visited
      element. */
  ghost predicate Queued<V>(sources: seq<V>, succ: V -> seq<V>, visited: seq<V>, toVisit: seq<V>) {
    forall x :: x in toVisit ==>
      x in sources || exists j :: 0 <= j < |visited| && x in succ(visited[j])
  }

  /** One dequeue of `current` keeps `Pending`, `Reached` and `Queued`:
      the queue loses its head and gains `extra`, the unvisited successors
      of `current`, when `current` is expanded. */
  lemma WalkStep<V(!new)>(sources: seq<V>, succ: V -> seq<V>, visited: seq<V>, toVisit: seq<V>,
                          extra: seq<V>, visited': seq<V>, toVisit': seq<V>)
    requires toVisit != []
    requires Pending(succ, visited, toVisit)
    requires Reached(sources, succ, visited)
    requires Queued(sources, succ, visited, toVisit)
    requires forall y :: y in extra <==> y in succ(toVisit[0]) && y !in visited
    requires toVisit[0] in visited ==> visited' == visited && toVisit' == toVisit[1..]
    requires toVisit[0] !in visited ==> visited' == visited + [toVisit[0]] && toVisit' == toVisit[1..] + extra
    ensures Pending(succ, visited', toVisit')
    ensures Reached(sources, succ, visited')
    ensures Queued(sources, succ, visited', toVisit')
  {
    var current := toVisit[0];
    assert toVisit == [current] + toVisit[1..];
    if current !in visited {
      var n := |visited|;
      forall i, y | 0 <= i < |visited'| && y in succ(visited'[i])
        ensures y in visited' || y in toVisit'
      {
        if i < n {
          assert visited'[i] == visited[i];
        }
      }
      forall x | x in toVisit'
        ensures x in sources || exists j :: 0 <= j < |visited'| && x in succ(visited'[j])
      {
        if x in toVisit[1..] {
          if x !in sources {
            var j :| 0 <= j < n && x in succ(visited[j]);
            assert visited'[j] == visited[j];
          }
        } else {
          assert x in succ(visited'[n]);
        }
      }
      forall i | 0 <= i < |visited'|
        ensures visited'[i] in sources || exists j :: 0 <= j < i && visited'[i] in succ(visited'[j])
      {
        if i < n {
          if visited[i] !in sources {
            var j :| 0 <= j < i && visited[i] in succ(visited[j]);
            assert visited'[j] == visited[j];
          }
        } else if current !in sources {
          var j :| 0 <= j < n && current in succ(visited[j]);
          assert visited'[j] == visited[j];
        }
      }
    }
  }

  /** While sources are still waiting, the queue starts with those not yet
      dequeued and the visited elements are the distinct sources dequeued
      so far; afterwards the visited elements start with all the distinct
      sources. */
  ghost predicate SourcesFirst<V(!new)>(sources: seq<V>, dequeued: nat, visited: seq<V>, toVisit: seq<V>) {
    (dequeued <= |sources| ==>
       |sources| - dequeued <= |toVisit| && toVisit[..|sources| - dequeued] == sources[dequeued..]
       && visited == Dedup(sources[..dequeued]))
    && (dequeued >= |sources| ==>
       |Dedup(sources)| <= |visited| && visited[..|Dedup(sources)|] == Dedup(sources))
  }

  /** Dequeuing a source: the rest of the sources still head the queue. */
  lemma QueueTail<V>(sources: seq<V>, dequeued: nat, toVisit: seq<V>, toVisit': seq<V>)
    requires dequeued < |sources|
    requires |sources| - dequeued <= |toVisit| && toVisit[..|sources| - dequeued] == sources[dequeued..]
    requires |toVisit'| >= |toVisit| - 1 && toVisit'[..|toVisit| - 1] == toVisit[1..]
    ensures toVisit[0] == sources[dequeued]
    ensures toVisit'[..|sources| - dequeued - 1] == sources[dequeued + 1..]
  {
    var k := |sources| - dequeued;
    assert toVisit[0] == toVisit[..k][0];
    assert toVisit'[..k - 1] == toVisit[1..][..k - 1] == toVisit[..k][1..];
  }

  /** Dequeuing a source: it is visited unless an earlier occurrence was. */
  lemma DedupStep<V(!new)>(sources: seq<V>, dequeued: nat, visited: seq<V>, visited': seq<V>)
    requires dequeued < |sources|
    requires visited == Dedup(sources[..dequeued])
    requires visited' == if sources[dequeued] in visited then visited else visited + [sources[dequeued]]
    ensures visited' == Dedup(sources[..dequeued + 1])
  {
    var next := sources[..dequeued + 1];
    assert next[..|next| - 1] == sources[..dequeued];
  }

  /** One dequeue keeps `SourcesFirst`. */
  lemma Visit<V(!new)>(sources: seq<V>, dequeued: nat, visited: seq<V>, toVisit: seq<V>,
                       visited': seq<V>, toVisit': seq<V>)
    requires toVisit != []
    requires SourcesFirst(sources, dequeued, visited, toVisit)
    requires visited' == if toVisit[0] in visited then visited else visited + [toVisit[0]]
    requires |toVisit'| >= |toVisit| - 1 && toVisit'[..|toVisit| - 1] == toVisit[1..]
    ensures SourcesFirst(sources, dequeued + 1, visited', toVisit')
  {
    if dequeued < |sources| {
      QueueTail(sources, dequeued, toVisit, toVisit');
      DedupStep(sources, dequeued, visited, visited');
      if dequeued + 1 == |sources| {
        assert sources[..dequeued + 1] == sources;
      }
    } else {
      assert visited'[..|visited|] == visited;
    }
  }

  /** The state of the walk between two dequeues. */
  ghost predicate Walk<V(!new)>(sources: seq<V>, succ: V -> seq<V>, universe: set<V>,
                                dequeued: nat, visited: seq<V>, toVisit: seq<V>) {
    (forall x :: x in toVisit ==> x in universe)
    && (forall x :: x in visited ==> x in universe)
    && Distinct(visited)
    && Pending(succ, visited, toVisit)
    && Reached(sources, succ, visited)
    && Queued(sources, succ, visited, toVisit)
    && SourcesFirst(sources, dequeued, visited, toVisit)
  }

  /** One dequeue keeps `Walk`. */
  lemma Step<V(!new)>(sources: seq<V>, succ: V -> seq<V>, universe: set<V>, dequeued: nat,
                      visited: seq<V>, toVisit: seq<V>, extra: seq<V>, visited': seq<V>, toVisit': seq<V>)
    requires toVisit != []
    requires ClosedUnder(universe, succ)
    requires Walk(sources, succ, universe, dequeued, visited, toVisit)
    requires forall y :: y in extra <==> y in succ(toVisit[0]) && y !in visited
    requires toVisit[0] in visited ==> visited' == visited && toVisit' == toVisit[1..]
    requires toVisit[0] !in visited ==> visited' == visited + [toVisit[0]] && toVisit' == toVisit[1..] + extra
    ensures Walk(sources, succ, universe, dequeued + 1, visited', toVisit')
  {
    var current := toVisit[0];
    assert current in universe;
    assert toVisit == [current] + toVisit[1..];
    WalkStep(sources, succ, visited, toVisit, extra, visited', toVisit');
    assert toVisit'[..|toVisit| - 1] == toVisit[1..];
    Visit(sources, dequeued, visited, toVisit, visited', toVisit');
  }

  /** Visiting one more element of the universe leaves fewer to visit. */
  lemma Shrinks<V>(universe: set<V>, seen: set<V>, x: V)
    requires x in universe && x !in seen
    ensures |universe - (seen + {x})| < |universe - seen|
  {
    assert universe - seen == (universe - (seen + {x})) + {x};
  }

  /** `closure(expression)`: a breadth-first walk from the receiver's
      elements. An element is expanded the first time it leaves the queue;
      its successors not yet visited join the back of the queue. The
      visited elements, in the order they were expanded, form the result.
      `universe` is a finite set holding every element the walk can reach,
      which is what makes the walk finish. */
  method Closure<V(==,!new)>(sources: seq<V>, succ: V -> seq<V>, ghost universe: set<V>)
    returns (visited: seq<V>)
    requires forall x :: x in sources ==> x in universe
    requires ClosedUnder(universe, succ)
    ensures Distinct(visited)
    ensures |Dedup(sources)| <= |visited| && visited[..|Dedup(sources)|] == Dedup(sources)
    ensures forall i, y :: 0 <= i < |visited| && y in succ(visited[i]) ==> y in visited
    ensures Reached(sources, succ, visited)
  {
    var toVisit := sources;
    visited := [];
    ghost var seen: set<V> := {};
    ghost var dequeued := 0;
    while toVisit != []
      invariant Walk(sources, succ, universe, dequeued, visited, toVisit)
      invariant forall x :: x in seen <==> x in visited
      decreases |universe - seen|, |toVisit|
    {
      ghost var visited0, toVisit0 := visited, toVisit;
      var current := toVisit[0];
      ghost var extra := SeqSelect(succ(current), y => y !in visited);
      forall y ensures y in extra <==> y in succ(current) && y !in visited {
        SelectMembers(succ(current), y => y !in visited, y);
      }
      toVisit := toVisit[1..];
      if current !in visited {
        var successors := succ(current);
        toVisit := Enqueue(toVisit, successors, visited);
        visited := visited + [current];
        Shrinks(universe, seen, current);
        seen := seen + {current};
      }
      Step(sources, succ, universe, dequeued, visited0, toVisit0, extra, visited, toVisit);
      dequeued := dequeued + 1;
    }
    Finished(sources, succ, universe, dequeued, visited);
  }

  /** What the walk has built once the queue is empty. */
  lemma Finished<V(!new)>(sources: seq<V>, succ: V -> seq<V>, universe: set<V>, dequeued: nat, visited: seq<V>)
    requires Walk(sources, succ, universe, dequeued, visited, [])
    ensures Distinct(visited)
    ensures |Dedup(sources)| <= |visited| && visited[..|Dedup(sources)|] == Dedup(sources)
    ensures forall i, y :: 0 <= i < |visited| && y in succ(visited[i]) ==> y in visited
    ensures Reached(sources, succ, visited)
  {
    forall i, y | 0 <= i < |visited| && y in succ(visited[i]) ensures y in visited {
      assert y in visited || y in [];
    }
  }

  /** `isUnique(expression)` on any collection: the bag built by
      `collectNested` and `flatten` has no duplicate, which is the test made
      on the flattened listing. */
  lemma IsUniqueOnBag<V, T(!new)>(s: seq<V>, f: V -> Value<T>)
    ensures IsUnique(s, f) <==> !OclBags.BagHasDuplicates(OclBags.BagFlat(multiset(SeqCollectNested(s, f))))
  {
    OclBags.BagFlatListing(SeqCollectNested(s, f));
  }
}
