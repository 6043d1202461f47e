/** The queries of a fragment tree (`Fragment` in
    `pyalaocl/utils/fragments.py`): the innermost fragment at a position
    and the chain of fragments there, the descendants, the depth, the
    fragments of a value and the ancestors. A fragment is an index into a
    well-formed `Tree`. */
module FragmentQueries {
  import opened Wrappers
  import opened Fragments

  // ---------------------------------------------------------------------
  // Ancestry
  // ---------------------------------------------------------------------

  /** `a` is `x` itself or reached from `x` by following parents. */
  predicate AncestorOrSelf(t: Tree, a: nat, x: nat)
    requires WellFormed(t) && x < |t|
    decreases x
  {
    x == a || (x > 0 && AncestorOrSelf(t, a, t[x].parent.value))
  }

  /** The number of parent links from `x` up to its ancestor `a`. */
  function Level(t: Tree, a: nat, x: nat): nat
    requires WellFormed(t) && x < |t| && AncestorOrSelf(t, a, x)
    decreases x
  {
    if x == a then 0 else 1 + Level(t, a, t[x].parent.value)
  }

  /** Ancestors are older than their descendants. */
  lemma {:induction false} AncestorBelow(t: Tree, a: nat, x: nat)
    requires WellFormed(t) && x < |t|
    ensures AncestorOrSelf(t, a, x) ==> a <= x
    decreases x
  {
    if x != a && x > 0 {
      AncestorBelow(t, a, t[x].parent.value);
    }
  }

  /** Ancestry is transitive. */
  lemma {:induction false} AncestorTrans(t: Tree, a: nat, b: nat, x: nat)
    requires WellFormed(t) && b < |t| && x < |t|
    requires AncestorOrSelf(t, a, b) && AncestorOrSelf(t, b, x)
    ensures AncestorOrSelf(t, a, x)
    decreases x
  {
    if x != b {
      AncestorTrans(t, a, b, t[x].parent.value);
    }
  }

  /** A child descends from its parent. */
  lemma ChildDescends(t: Tree, p: nat, j: nat)
    requires WellFormed(t) && p < |t| && j < |t[p].children|
    ensures p < t[p].children[j] < |t| && AncestorOrSelf(t, p, t[p].children[j])
  {
    var c := t[p].children[j];
    assert t[c].parent == Some(p);
  }

  /** What descends from a child of `a` descends from `a`, and is not `a`. */
  lemma UnderChild(t: Tree, a: nat, j: nat, xs: seq<nat>)
    requires WellFormed(t) && a < |t| && j < |t[a].children|
    requires forall x :: x in xs ==> x < |t| && AncestorOrSelf(t, t[a].children[j], x)
    ensures forall x :: x in xs ==> AncestorOrSelf(t, a, x) && x != a
  {
    var c := t[a].children[j];
    ChildDescends(t, a, j);
    forall x | x in xs ensures AncestorOrSelf(t, a, x) && x != a {
      AncestorTrans(t, a, c, x);
      AncestorBelow(t, c, x);
    }
  }

  /** A proper descendant of `a` descends from one of `a`'s children. */
  lemma {:induction false} ChildOnPath(t: Tree, a: nat, x: nat) returns (j: nat)
    requires WellFormed(t) && a < |t| && x < |t| && AncestorOrSelf(t, a, x) && x != a
    ensures j < |t[a].children| && AncestorOrSelf(t, t[a].children[j], x)
    decreases x
  {
    var p := t[x].parent.value;
    if p == a {
      assert x in t[a].children;
      j :| 0 <= j < |t[a].children| && t[a].children[j] == x;
    } else {
      j := ChildOnPath(t, a, p);
    }
  }

  /** Through a child `c` of `a`, a descendant is one level deeper below
      `a` than below `c`. */
  lemma {:induction false} LevelThroughChild(t: Tree, a: nat, c: nat, x: nat)
    requires WellFormed(t) && c < |t| && x < |t| && t[c].parent == Some(a)
    requires AncestorOrSelf(t, c, x)
    ensures AncestorOrSelf(t, a, x) && Level(t, a, x) == Level(t, c, x) + 1
    decreases x
  {
    if x != c {
      var p := t[x].parent.value;
      AncestorBelow(t, c, x);
      LevelThroughChild(t, a, c, p);
    }
  }

  // ---------------------------------------------------------------------
  // Positions (`fragmentAtPosition`, `fragmentsAtPosition`)
  // ---------------------------------------------------------------------

  /** `not (position < f.start or f.end < position)`. Python 2 orders
      `None` below every number, so a fragment left open contains no
      position. */
  predicate Covers(f: Fragment, position: int) {
    f.start <= position && f.end.Some? && position <= f.end.value
  }

  /** No child of `x` contains the position. */
  predicate NoChildCovers(t: Tree, x: nat, position: int)
    requires WellFormed(t) && x < |t|
  {
    forall j :: 0 <= j < |t[x].children| ==> !Covers(t[t[x].children[j]], position)
  }

  /** `fragmentAtPosition`: the innermost fragment containing the
      position, found through the first child that contains it; `None`
      exactly when the fragment itself does not contain it. */
  function AtPosition(t: Tree, id: nat, position: int): (r: Option<nat>)
    requires WellFormed(t) && id < |t|
    ensures r.None? <==> !Covers(t[id], position)
    ensures r.Some? ==> r.value < |t| && AncestorOrSelf(t, id, r.value) &&
                        Covers(t[r.value], position) && NoChildCovers(t, r.value, position)
    decreases |t| - id, 1
  {
    if !Covers(t[id], position) then None
    else
      match ChildAtPosition(t, id, position, 0)
      case Some(f) => Some(f)
      case None => Some(id)
  }

  /** The loop over the children from the `k`-th on. */
  function ChildAtPosition(t: Tree, id: nat, position: int, k: nat): (r: Option<nat>)
    requires WellFormed(t) && id < |t| && k <= |t[id].children|
    ensures r.None? ==> forall j :: k <= j < |t[id].children| ==> !Covers(t[t[id].children[j]], position)
    ensures r.Some? ==> r.value < |t| && AncestorOrSelf(t, id, r.value) &&
                        Covers(t[r.value], position) && NoChildCovers(t, r.value, position)
    decreases |t| - id, 0, |t[id].children| - k
  {
    if k == |t[id].children| then None
    else
      var c := t[id].children[k];
      ChildDescends(t, id, k);
      match AtPosition(t, c, position)
      case Some(f) => AncestorTrans(t, id, c, f); Some(f)
      case None => ChildAtPosition(t, id, position, k + 1)
  }

  /** Each fragment of `r` is the child of the next one. */
  predicate UpwardPath(t: Tree, r: seq<nat>) {
    forall i :: 0 <= i < |r| ==> r[i] < |t| && (i + 1 < |r| ==> t[r[i]].parent == Some(r[i + 1]))
  }

  /** `fragmentsAtPosition`: the fragments containing the position, from
      the innermost one out to this fragment, each the parent of the one
      before; empty exactly when this fragment does not contain it. Its
      first element is what `fragmentAtPosition` finds. */
  function FragmentsAtPosition(t: Tree, id: nat, position: int): (r: seq<nat>)
    requires WellFormed(t) && id < |t|
    ensures r == [] <==> !Covers(t[id], position)
    ensures r != [] ==> r[|r| - 1] == id && UpwardPath(t, r) && AtPosition(t, id, position) == Some(r[0])
    decreases |t| - id, 1
  {
    if !Covers(t[id], position) then []
    else
      var fs := ChildFragmentsAtPosition(t, id, position, 0);
      if fs != [] then fs + [id] else [id]
  }

  /** The loop over the children from the `k`-th on: the chain of the
      first child that contains the position. */
  function ChildFragmentsAtPosition(t: Tree, id: nat, position: int, k: nat): (r: seq<nat>)
    requires WellFormed(t) && id < |t| && k <= |t[id].children|
    ensures r == [] <==> ChildAtPosition(t, id, position, k).None?
    ensures r != [] ==> UpwardPath(t, r) && t[r[|r| - 1]].parent == Some(id) &&
                        ChildAtPosition(t, id, position, k) == Some(r[0])
    decreases |t| - id, 0, |t[id].children| - k
  {
    if k == |t[id].children| then []
    else
      var c := t[id].children[k];
      ChildDescends(t, id, k);
      var fs := FragmentsAtPosition(t, c, position);
      if fs != [] then fs else ChildFragmentsAtPosition(t, id, position, k + 1)
  }

  // ---------------------------------------------------------------------
  // Ancestors (`ancestors`)
  // ---------------------------------------------------------------------

  /** `ancestors` as written: the root answers `[]` or `[self]`, and every
      other fragment calls `self.parent.parents()`, a method `Fragment`
      does not have. */
  function AncestorsAsWritten(t: Tree, id: nat, includingSelf: bool): (r: Result<seq<nat>>)
    requires WellFormed(t) && id < |t|
  {
    match t[id].parent
    case None => Ok(if includingSelf then [id] else [])
    case Some(_) => Err(AttributeError("parents"))
  }

  /** Below the root, `ancestors` always raises `AttributeError`; at the
      root it agrees with the corrected `Ancestors`. */
  lemma AncestorsAsWrittenFails(t: Tree, id: nat, includingSelf: bool)
    requires WellFormed(t) && id < |t|
    ensures id > 0 ==> AncestorsAsWritten(t, id, includingSelf) == Err(AttributeError("parents"))
    ensures id == 0 ==> AncestorsAsWritten(t, id, includingSelf) == Ok(Ancestors(t, id, includingSelf))
  {
    if id > 0 {
      assert t[id].parent.Some?;
    } else {
      var own: seq<nat> := if includingSelf then [id] else [];
      assert Ancestors(t, id, includingSelf) == [] + own == own;
      assert AncestorsAsWritten(t, id, includingSelf) == Ok(own);
    }
  }

  /** `ancestors` as evidently intended: the ancestors from the root down
      to the parent, then the fragment itself when `includingSelf`. */
  function Ancestors(t: Tree, id: nat, includingSelf: bool): (r: seq<nat>)
    requires WellFormed(t) && id < |t|
    ensures forall i :: 0 <= i < |r| ==> r[i] < |t| && AncestorOrSelf(t, r[i], id)
    ensures forall i :: 0 < i < |r| ==> t[r[i]].parent == Some(r[i - 1])
    ensures r != [] ==> r[0] == 0
    ensures includingSelf ==> r != [] && r[|r| - 1] == id
    decreases id
  {
    var above := match t[id].parent
      case None => []
      case Some(p) => Ancestors(t, p, true);
    above + (if includingSelf then [id] else [])
  }

  /** The sequence read backwards. */
  function Reversed(s: seq<nat>): (r: seq<nat>)
    ensures |r| == |s| && forall i :: 0 <= i < |s| ==> r[i] == s[|s| - 1 - i]
  {
    if s == [] then [] else Reversed(s[1..]) + [s[0]]
  }

  /** A chain of parents from `x` up to the root, read from the root, is
      the ancestors of `x` and `x` itself. */
  lemma {:induction false} UpwardPathIsAncestors(t: Tree, r: seq<nat>)
    requires WellFormed(t) && r != [] && UpwardPath(t, r) && r[|r| - 1] == 0
    ensures Reversed(r) == Ancestors(t, r[0], true)
    decreases |r|
  {
    if |r| > 1 {
      var tail := r[1..];
      assert UpwardPath(t, tail) by {
        forall i | 0 <= i < |tail| ensures tail[i] < |t| && (i + 1 < |tail| ==> t[tail[i]].parent == Some(tail[i + 1])) {
          assert tail[i] == r[i + 1];
        }
      }
      UpwardPathIsAncestors(t, tail);
      assert t[r[0]].parent == Some(r[1]);
    }
  }

  /** The chain of fragments at a position of the whole tree, read from
      the root, is the ancestors of the innermost fragment there and that
      fragment: `fragmentsAtPosition` and the intended `ancestors` agree. */
  lemma PositionChainIsAncestors(t: Tree, position: int)
    requires WellFormed(t) && Covers(t[0], position)
    ensures var innermost := AtPosition(t, 0, position);
      innermost.Some? && Reversed(FragmentsAtPosition(t, 0, position)) == Ancestors(t, innermost.value, true)
  {
    UpwardPathIsAncestors(t, FragmentsAtPosition(t, 0, position));
  }

  // ---------------------------------------------------------------------
  // Descendants (`descendants`)
  // ---------------------------------------------------------------------

  /** `descendants`: the fragment itself when `includingSelf`, then each
      child followed by the child's descendants, in order. */
  function Descendants(t: Tree, id: nat, includingSelf: bool): (r: seq<nat>)
    requires WellFormed(t) && id < |t|
    ensures forall x :: x in r ==> x < |t| && AncestorOrSelf(t, id, x) && (x == id ==> includingSelf)
    decreases |t| - id, 1
  {
    (if includingSelf then [id] else []) + ChildrenDescendants(t, id, 0)
  }

  /** The loop over the children from the `k`-th on. */
  function ChildrenDescendants(t: Tree, id: nat, k: nat): (r: seq<nat>)
    requires WellFormed(t) && id < |t| && k <= |t[id].children|
    ensures forall x :: x in r ==> x < |t| && AncestorOrSelf(t, id, x) && x != id
    decreases |t| - id, 0, |t[id].children| - k
  {
    if k == |t[id].children| then []
    else
      var c := t[id].children[k];
      ChildDescends(t, id, k);
      var below := [c] + Descendants(t, c, false);
      UnderChild(t, id, k, below);
      below + ChildrenDescendants(t, id, k + 1)
  }

  /** The `j`-th child and its descendants are among the descendants
      listed from the `k`-th child on, for `k <= j`. */
  lemma {:induction false} ChildrenDescendantsHold(t: Tree, id: nat, k: nat, j: nat)
    requires WellFormed(t) && id < |t| && k <= j < |t[id].children|
    ensures var c := t[id].children[j];
      c in ChildrenDescendants(t, id, k) &&
      forall x :: x in Descendants(t, c, false) ==> x in ChildrenDescendants(t, id, k)
    decreases j - k
  {
    if k < j {
      ChildrenDescendantsHold(t, id, k + 1, j);
    }
  }

  /** Every proper descendant is listed: `descendants` is complete. */
  lemma {:induction false} DescendantsComplete(t: Tree, id: nat, x: nat)
    requires WellFormed(t) && id < |t| && x < |t| && AncestorOrSelf(t, id, x) && x != id
    ensures x in Descendants(t, id, false)
    decreases |t| - id
  {
    var j := ChildOnPath(t, id, x);
    var c := t[id].children[j];
    ChildDescends(t, id, j);
    ChildrenDescendantsHold(t, id, 0, j);
    if x != c {
      DescendantsComplete(t, c, x);
    }
  }

  /** A fragment is among the descendants exactly when it descends from
      this fragment and is not the fragment itself, unless asked for. */
  lemma DescendantsExactly(t: Tree, id: nat, includingSelf: bool, x: nat)
    requires WellFormed(t) && id < |t| && x < |t|
    ensures x in Descendants(t, id, includingSelf) <==> AncestorOrSelf(t, id, x) && (x == id ==> includingSelf)
  {
    if AncestorOrSelf(t, id, x) && x != id {
      DescendantsComplete(t, id, x);
    }
  }

  // ---------------------------------------------------------------------
  // Depth (`depth`)
  // ---------------------------------------------------------------------

  function Max(a: nat, b: nat): nat {
    if a < b then b else a
  }

  /** `depth`: 0, or 1 when `includingSelf`, raised to one more than the
      depth of each child. */
  function Depth(t: Tree, id: nat, includingSelf: bool): (r: nat)
    requires WellFormed(t) && id < |t|
    decreases |t| - id, 1
  {
    Max(if includingSelf then 1 else 0, ChildrenDepth(t, id, 0))
  }

  /** The loop over the children from the `k`-th on. */
  function ChildrenDepth(t: Tree, id: nat, k: nat): (r: nat)
    requires WellFormed(t) && id < |t| && k <= |t[id].children|
    decreases |t| - id, 0, |t[id].children| - k
  {
    if k == |t[id].children| then 0
    else
      ChildDescends(t, id, k);
      Max(Depth(t, t[id].children[k], false) + 1, ChildrenDepth(t, id, k + 1))
  }

  /** Each child from the `k`-th on is bounded by the loop's result. */
  lemma {:induction false} ChildDepthBound(t: Tree, id: nat, k: nat, j: nat)
    requires WellFormed(t) && id < |t| && k <= j < |t[id].children|
    ensures t[id].children[j] < |t| && Depth(t, t[id].children[j], false) + 1 <= ChildrenDepth(t, id, k)
    decreases j - k
  {
    ChildDescends(t, id, j);
    if k < j {
      ChildDepthBound(t, id, k + 1, j);
    }
  }

  /** The loop's result is one more than the depth of some child. */
  lemma {:induction false} ChildDepthAttained(t: Tree, id: nat, k: nat) returns (j: nat)
    requires WellFormed(t) && id < |t| && k < |t[id].children|
    ensures k <= j < |t[id].children| && t[id].children[j] < |t|
    ensures ChildrenDepth(t, id, k) == Depth(t, t[id].children[j], false) + 1
    decreases |t[id].children| - k
  {
    ChildDescends(t, id, k);
    if k + 1 == |t[id].children| || Depth(t, t[id].children[k], false) + 1 >= ChildrenDepth(t, id, k + 1) {
      j := k;
    } else {
      j := ChildDepthAttained(t, id, k + 1);
    }
  }

  /** No descendant lies deeper below the fragment than its depth. */
  lemma {:induction false} DepthBound(t: Tree, id: nat, x: nat)
    requires WellFormed(t) && id < |t| && x < |t| && AncestorOrSelf(t, id, x)
    ensures Level(t, id, x) <= Depth(t, id, false)
    decreases |t| - id
  {
    if x != id {
      var j := ChildOnPath(t, id, x);
      var c := t[id].children[j];
      ChildDescends(t, id, j);
      DepthBound(t, c, x);
      LevelThroughChild(t, id, c, x);
      ChildDepthBound(t, id, 0, j);
    }
  }

  /** Some descendant, or the fragment itself, lies exactly as deep below
      the fragment as its depth: the depth is the height of the subtree. */
  lemma {:induction false} DepthAttained(t: Tree, id: nat) returns (x: nat)
    requires WellFormed(t) && id < |t|
    ensures x < |t| && AncestorOrSelf(t, id, x) && Level(t, id, x) == Depth(t, id, false)
    decreases |t| - id
  {
    if t[id].children == [] {
      x := id;
    } else {
      var j := ChildDepthAttained(t, id, 0);
      var c := t[id].children[j];
      ChildDescends(t, id, j);
      x := DepthAttained(t, c);
      LevelThroughChild(t, id, c, x);
    }
  }

  /** The depth is 0 exactly for a fragment without children, and
      `includingSelf` only lifts a 0 to 1. */
  lemma DepthOfLeaf(t: Tree, id: nat)
    requires WellFormed(t) && id < |t|
    ensures Depth(t, id, false) == 0 <==> t[id].children == []
    ensures Depth(t, id, true) == Max(1, Depth(t, id, false))
  {
    if t[id].children != [] {
      ChildDepthBound(t, id, 0, 0);
    }
  }

  // ---------------------------------------------------------------------
  // Fragments of a value (`fragmentsOfValue`)
  // ---------------------------------------------------------------------

  /** `fragmentsOfValue`: this fragment if it has the value, otherwise
      the fragments of the value under each child, in order. */
  function FragmentsOfValue(t: Tree, id: nat, value: Option<string>): (r: seq<nat>)
    requires WellFormed(t) && id < |t|
    ensures forall x :: x in r ==> x < |t| && AncestorOrSelf(t, id, x) && t[x].value == value
    decreases |t| - id, 1
  {
    if t[id].value == value then [id] else ChildrenOfValue(t, id, value, 0)
  }

  /** The loop over the children from the `k`-th on. */
  function ChildrenOfValue(t: Tree, id: nat, value: Option<string>, k: nat): (r: seq<nat>)
    requires WellFormed(t) && id < |t| && k <= |t[id].children|
    ensures forall x :: x in r ==> x < |t| && AncestorOrSelf(t, id, x) && t[x].value == value
    decreases |t| - id, 0, |t[id].children| - k
  {
    if k == |t[id].children| then []
    else
      ChildDescends(t, id, k);
      var found := FragmentsOfValue(t, t[id].children[k], value);
      UnderChild(t, id, k, found);
      found + ChildrenOfValue(t, id, value, k + 1)
  }

  /** What the `j`-th child finds is among what the loop finds from the
      `k`-th child on, for `k <= j`. */
  lemma {:induction false} ChildrenOfValueHold(t: Tree, id: nat, value: Option<string>, k: nat, j: nat)
    requires WellFormed(t) && id < |t| && k <= j < |t[id].children|
    ensures t[id].children[j] < |t|
    ensures forall x :: x in FragmentsOfValue(t, t[id].children[j], value) ==> x in ChildrenOfValue(t, id, value, k)
    decreases j - k
  {
    ChildDescends(t, id, j);
    if k < j {
      ChildrenOfValueHold(t, id, value, k + 1, j);
    }
  }

  /** No fragment from `a` down to `x`, `x` excluded, has the value. */
  ghost predicate NoneAboveOfValue(t: Tree, a: nat, x: nat, value: Option<string>)
    requires WellFormed(t) && x < |t|
  {
    forall y: nat :: y < |t| && AncestorOrSelf(t, a, y) && AncestorOrSelf(t, y, x) && y != x ==> t[y].value != value
  }

  /** Every fragment of the value with no fragment of the value above it
      (up to this fragment) is found: the search stops only where it
      must. */
  lemma {:induction false} FragmentsOfValueComplete(t: Tree, id: nat, value: Option<string>, x: nat)
    requires WellFormed(t) && id < |t| && x < |t| && AncestorOrSelf(t, id, x) && t[x].value == value
    requires NoneAboveOfValue(t, id, x, value)
    ensures x in FragmentsOfValue(t, id, value)
    decreases |t| - id
  {
    if x != id {
      assert t[id].value != value by {
        assert AncestorOrSelf(t, id, id);
      }
      var j := ChildOnPath(t, id, x);
      var c := t[id].children[j];
      ChildDescends(t, id, j);
      forall y: nat | y < |t| && AncestorOrSelf(t, c, y) && AncestorOrSelf(t, y, x) && y != x
        ensures t[y].value != value
      {
        AncestorTrans(t, id, c, y);
      }
      FragmentsOfValueComplete(t, c, value, x);
      ChildrenOfValueHold(t, id, value, 0, j);
    }
  }

  /** Nothing found has a fragment of the value above it: a fragment of
      the value hides the ones below it. */
  lemma {:induction false} FragmentsOfValueTopmost(t: Tree, id: nat, value: Option<string>, x: nat)
    requires WellFormed(t) && id < |t| && x in FragmentsOfValue(t, id, value)
    ensures x < |t| && NoneAboveOfValue(t, id, x, value)
    decreases |t| - id
  {
    if t[id].value == value {
      AncestorAntisymmetric(t, id);
    } else {
      var j := ChildFoundIn(t, id, value, 0, x);
      var c := t[id].children[j];
      ChildDescends(t, id, j);
      FragmentsOfValueTopmost(t, c, value, x);
      NoneAboveThroughChild(t, id, j, value, x);
    }
  }

  /** Only `a` is both above and below `a`. */
  lemma AncestorAntisymmetric(t: Tree, a: nat)
    requires WellFormed(t)
    ensures forall y: nat :: y < |t| && a < |t| && AncestorOrSelf(t, a, y) && AncestorOrSelf(t, y, a) ==> y == a
  {
    forall y: nat | y < |t| && a < |t| && AncestorOrSelf(t, a, y) && AncestorOrSelf(t, y, a)
      ensures y == a
    {
      AncestorBelow(t, a, y);
      AncestorBelow(t, y, a);
    }
  }

  /** A fragment under the `j`-th child with no fragment of the value
      above it up to that child has none up to `a` either, when `a` does
      not have the value. */
  lemma NoneAboveThroughChild(t: Tree, a: nat, j: nat, value: Option<string>, x: nat)
    requires WellFormed(t) && a < |t| && j < |t[a].children| && x < |t|
    requires t[a].value != value && AncestorOrSelf(t, t[a].children[j], x)
    requires NoneAboveOfValue(t, t[a].children[j], x, value)
    ensures NoneAboveOfValue(t, a, x, value)
  {
    var c := t[a].children[j];
    forall y: nat | y < |t| && AncestorOrSelf(t, a, y) && AncestorOrSelf(t, y, x) && y != x
      ensures t[y].value != value
    {
      if y != a {
        var i := ChildOnPath(t, a, y);
        ChildOnPathUnique(t, a, i, j, x, y);
      }
    }
  }

  /** What the loop finds from the `k`-th child on was found under one
      of those children. */
  lemma {:induction false} ChildFoundIn(t: Tree, id: nat, value: Option<string>, k: nat, x: nat) returns (j: nat)
    requires WellFormed(t) && id < |t| && k <= |t[id].children|
    requires x in ChildrenOfValue(t, id, value, k)
    ensures k <= j < |t[id].children| && t[id].children[j] < |t|
    ensures x in FragmentsOfValue(t, t[id].children[j], value)
    decreases |t[id].children| - k
  {
    ChildDescends(t, id, k);
    if x in FragmentsOfValue(t, t[id].children[k], value) {
      j := k;
    } else {
      j := ChildFoundIn(t, id, value, k + 1, x);
    }
  }

  /** Two children of `a` both above `x` are the same child. */
  lemma ChildOnPathUnique(t: Tree, a: nat, i: nat, j: nat, x: nat, y: nat)
    requires WellFormed(t) && a < |t| && x < |t| && y < |t|
    requires i < |t[a].children| && j < |t[a].children|
    requires AncestorOrSelf(t, t[a].children[i], y) && AncestorOrSelf(t, y, x)
    requires AncestorOrSelf(t, t[a].children[j], x)
    ensures t[a].children[i] == t[a].children[j]
  {
    var ci, cj := t[a].children[i], t[a].children[j];
    ChildDescends(t, a, i);
    ChildDescends(t, a, j);
    AncestorTrans(t, ci, y, x);
    if ci <= cj {
      AncestorsOrdered(t, ci, cj, x);
      AncestorBelow(t, ci, a);
    } else {
      AncestorsOrdered(t, cj, ci, x);
      AncestorBelow(t, cj, a);
    }
  }

  /** Two ancestors of the same fragment: the younger descends from the
      older. */
  lemma {:induction false} AncestorsOrdered(t: Tree, a: nat, b: nat, x: nat)
    requires WellFormed(t) && a < |t| && b < |t| && x < |t|
    requires AncestorOrSelf(t, a, x) && AncestorOrSelf(t, b, x) && a <= b
    ensures AncestorOrSelf(t, a, b)
    decreases x
  {
    if x != b {
      AncestorBelow(t, b, x);
      if x == a {
      } else {
        AncestorsOrdered(t, a, b, t[x].parent.value);
      }
    }
  }
}
