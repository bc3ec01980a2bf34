/**
 * The set utilities of FgStdSet.hpp over Dafny's finite sets.
 *
 * `std::set<T>` is a value here (`set<T>`); where the C++ code mutates a set
 * through a reference, the set lives in the field of a `SetVar` object and the
 * operation is a method that modifies it. Loops that walk a set pick its
 * elements with `:|`, because every result below is independent of the order
 * in which std::set visits them. The conversion to a vector is given for
 * `set<int>`, whose iteration order is ascending.
 */
module StdSet {

  /** fgContains: a lookup in the set. */
  predicate Contains<T>(s: set<T>, v: T)
  {
    v in s
  }

  /**
   * fgContainsAny: walks s1 and stops at the first element found in s0, so the
   * answer is whether the two sets meet (false when s1 is empty).
   */
  method ContainsAny<T>(s0: set<T>, s1: set<T>) returns (r: bool)
    ensures r <==> exists v :: v in s0 && v in s1
    ensures s1 == {} ==> !r
  {
    var rest := s1;
    while rest != {}
      invariant rest <= s1
      invariant forall v :: v in s1 - rest ==> v !in s0
      decreases rest
    {
      var v :| v in rest;
      if Contains(s0, v) {
        return true;
      }
      rest := rest - {v};
    }
    return false;
  }

  /**
   * fgContainsAll: walks s1 and stops at the first element missing from s0, so
   * the answer is whether s1 is a subset of s0 (true when s1 is empty).
   */
  method ContainsAll<T>(s0: set<T>, s1: set<T>) returns (r: bool)
    ensures r <==> s1 <= s0
    ensures s1 == {} ==> r
  {
    var rest := s1;
    while rest != {}
      invariant rest <= s1
      invariant s1 - rest <= s0
      decreases rest
    {
      var v :| v in rest;
      if !Contains(s0, v) {
        return false;
      }
      rest := rest - {v};
    }
    return true;
  }

  /** fgUnion: a copy of s0 with every element of s1 inserted. */
  function Union<T>(s0: set<T>, s1: set<T>): (r: set<T>)
    ensures s0 <= r && s1 <= r
    ensures forall v :: v in r ==> v in s0 || v in s1
  {
    s0 + s1
  }

  /** fgInsert: a copy of s with v inserted. */
  function Insert<T>(s: set<T>, v: T): (r: set<T>)
    ensures v in r && s <= r
    ensures forall u :: u in r ==> u in s || u == v
  {
    s + {v}
  }

  /**
   * fgIntersection: walks s1 and keeps the elements that s0 contains; the
   * result is the intersection, a subset of both arguments.
   */
  method Intersection<T>(s0: set<T>, s1: set<T>) returns (r: set<T>)
    ensures forall v :: v in r <==> v in s0 && v in s1
    ensures r <= s0 && r <= s1
  {
    r := {};
    var rest := s1;
    while rest != {}
      invariant rest <= s1
      invariant forall v :: v in r <==> v in s0 && v in s1 - rest
      decreases rest
    {
      var v :| v in rest;
      if Contains(s0, v) {
        r := r + {v};
      }
      rest := rest - {v};
    }
  }

  /**
   * Binary operator-: walks lhs and keeps the elements that rhs lacks; the
   * result is the difference, a subset of lhs disjoint from rhs.
   */
  method Minus<T>(lhs: set<T>, rhs: set<T>) returns (r: set<T>)
    ensures forall v :: v in r <==> v in lhs && v !in rhs
    ensures r <= lhs
  {
    r := {};
    var rest := lhs;
    while rest != {}
      invariant rest <= lhs
      invariant forall v :: v in r <==> v in lhs - rest && v !in rhs
      decreases rest
    {
      var v :| v in rest;
      if !Contains(rhs, v) {
        r := r + {v};
      }
      rest := rest - {v};
    }
  }

  /** A std::set held by reference, for the operations that mutate their first argument. */
  class SetVar<T(==)> {
    var elems: set<T>

    constructor (s: set<T>)
      ensures elems == s
    {
      elems := s;
    }

    /** std::set::insert of a single value. */
    method Insert(v: T)
      modifies this
      ensures elems == old(elems) + {v}
    {
      elems := elems + {v};
    }

    /** std::set::insert over the range of another set, one element at a time. */
    method InsertAll(s1: set<T>)
      modifies this
      ensures elems == old(elems) + s1
    {
      var rest := s1;
      while rest != {}
        invariant rest <= s1
        invariant elems == old(elems) + (s1 - rest)
        decreases rest
      {
        var v :| v in rest;
        Insert(v);
        rest := rest - {v};
      }
    }

    /** std::set::insert over the range of a vector, in vector order. */
    method InsertSeq(s1: seq<T>)
      modifies this
      ensures elems == old(elems) + set v | v in s1
    {
      var i := 0;
      while i < |s1|
        invariant 0 <= i <= |s1|
        invariant elems == old(elems) + set v | v in s1[..i]
      {
        Insert(s1[i]);
        assert s1[..i + 1] == s1[..i] + [s1[i]];
        i := i + 1;
      }
      assert s1[..i] == s1;
    }

    /**
     * operator-=: walks rhs, and erases each of its elements that is found;
     * rhs itself is left alone.
     */
    method Subtract(rhs: set<T>)
      modifies this
      ensures elems == old(elems) - rhs
    {
      var rest := rhs;
      while rest != {}
        invariant rest <= rhs
        invariant elems == old(elems) - (rhs - rest)
        decreases rest
      {
        var r :| r in rest;
        if Contains(elems, r) {
          elems := elems - {r};
        }
        rest := rest - {r};
      }
    }
  }

  /** fgUnion_ with a set argument: s0 grows by the elements of s1. */
  method UnionInPlace<T>(s0: SetVar<T>, s1: set<T>)
    modifies s0
    ensures s0.elems == old(s0.elems) + s1
    ensures old(s0.elems) <= s0.elems
  {
    s0.InsertAll(s1);
  }

  /** fgUnion_ with a vector argument: s0 grows by the elements of the vector. */
  method UnionInPlaceSeq<T>(s0: SetVar<T>, s1: seq<T>)
    modifies s0
    ensures s0.elems == old(s0.elems) + set v | v in s1
    ensures old(s0.elems) <= s0.elems
  {
    s0.InsertSeq(s1);
  }

  /**
   * operator+: lhs arrives by value, receives the elements of rhs and is
   * returned; the caller's sets are not touched.
   */
  method Plus<T>(lhs: set<T>, rhs: set<T>) returns (r: set<T>)
    ensures r == Union(lhs, rhs)
  {
    var copy := new SetVar(lhs);
    copy.InsertAll(rhs);
    r := copy.elems;
  }

  /** operator+=: l grows by the elements of r. */
  method PlusAssign<T>(l: SetVar<T>, r: set<T>)
    modifies l
    ensures l.elems == Union(old(l.elems), r)
  {
    l.InsertAll(r);
  }

  /** operator-=: lhs loses the elements of rhs and gains none. */
  method MinusAssign<T>(lhs: SetVar<T>, rhs: set<T>)
    modifies lhs
    ensures lhs.elems == old(lhs.elems) - rhs
    ensures lhs.elems <= old(lhs.elems)
  {
    lhs.Subtract(rhs);
  }

  // ---------------------------------------------------------------------------
  // Conversions between sets and vectors

  predicate StrictlyIncreasing(v: seq<int>)
  {
    forall i, j :: 0 <= i < j < |v| ==> v[i] < v[j]
  }

  /** Some element of a nonempty set. */
  lemma Pick<T>(s: set<T>) returns (x: T)
    requires s != {}
    ensures x in s
  {
    x :| x in s;
  }

  /** m is the least element of s. */
  predicate IsLeast(m: int, s: set<int>)
  {
    m in s && forall v :: v in s ==> m <= v
  }

  /** Every nonempty finite set of integers has a least element. */
  lemma {:induction false} LeastExists(s: set<int>)
    requires s != {}
    ensures exists m :: IsLeast(m, s)
    decreases |s|
  {
    var x := Pick(s);
    if s == {x} {
      assert IsLeast(x, s);
    } else {
      LeastExists(s - {x});
      var m :| IsLeast(m, s - {x});
      var least := if x < m then x else m;
      forall v | v in s
        ensures least <= v
      {
        if v != x {
          assert v in s - {x};
        }
      }
      assert IsLeast(least, s);
    }
  }

  /** The least element of a nonempty set of integers, where std::set iteration starts. */
  function Min(s: set<int>): (m: int)
    requires s != {}
    ensures IsLeast(m, s)
  {
    LeastExists(s);
    var m :| IsLeast(m, s);
    m
  }

  /** fgSetToVec for integers: the elements in the set's (ascending) iteration order. */
  function SetToVec(s: set<int>): (v: seq<int>)
    ensures |v| == |s|
    ensures forall x :: x in v <==> x in s
    decreases |s|
  {
    if s == {} then []
    else
      var m := Min(s);
      [m] + SetToVec(s - {m})
  }

  /** The vector lists the set without repetition, smallest first. */
  lemma {:induction false} SetToVecIncreasing(s: set<int>)
    ensures StrictlyIncreasing(SetToVec(s))
    decreases |s|
  {
    if s != {} {
      var m := Min(s);
      var rest := SetToVec(s - {m});
      SetToVecIncreasing(s - {m});
      forall i | 0 <= i < |rest|
        ensures m < rest[i]
      {
        assert rest[i] in s - {m};
      }
      assert SetToVec(s) == [m] + rest;
    }
  }

  /** fgVecToSet: the set of the vector's elements, duplicates merged. */
  function VecToSet<T(!new)>(v: seq<T>): (s: set<T>)
    ensures forall x :: x in s <==> x in v
    ensures |s| <= |v|
  {
    if v == [] then {}
    else {v[0]} + VecToSet(v[1..])
  }

  /** Converting a set to a vector and back gives the set again. */
  lemma VecToSetOfSetToVec(s: set<int>)
    ensures VecToSet(SetToVec(s)) == s
  {
    var v := SetToVec(s);
    assert forall x :: x in VecToSet(v) <==> x in s;
  }

  /** The head of a strictly increasing vector is the least of its elements. */
  lemma HeadIsLeast(v: seq<int>)
    requires v != [] && StrictlyIncreasing(v)
    ensures IsLeast(v[0], VecToSet(v))
  {
    forall x | x in VecToSet(v)
      ensures v[0] <= x
    {
      var i :| 0 <= i < |v| && v[i] == x;
    }
  }

  /** Removing the head of a strictly increasing vector removes exactly its least element. */
  lemma TailSet(v: seq<int>)
    requires v != [] && StrictlyIncreasing(v)
    ensures VecToSet(v) - {v[0]} == VecToSet(v[1..])
  {
    assert VecToSet(v) == {v[0]} + VecToSet(v[1..]);
  }

  /** A set has at most one least element. */
  lemma LeastUnique(a: int, b: int, s: set<int>)
    requires IsLeast(a, s) && IsLeast(b, s)
    ensures a == b
  {
    assert a <= b && b <= a;
  }

  /** A nonempty set is listed as its least element followed by the rest. */
  lemma SetToVecUnfold(s: set<int>)
    requires s != {}
    ensures SetToVec(s) == [Min(s)] + SetToVec(s - {Min(s)})
  {
  }

  lemma ConsTail(v: seq<int>)
    requires v != []
    ensures [v[0]] + v[1..] == v
  {
  }

  /**
   * One step of the listing of a strictly increasing vector's elements: the
   * least is the head, and what is left is the set of the tail.
   */
  lemma ListingStep(v: seq<int>)
    requires v != [] && StrictlyIncreasing(v)
    ensures Min(VecToSet(v)) == v[0]
    ensures VecToSet(v) - {v[0]} == VecToSet(v[1..])
    ensures StrictlyIncreasing(v[1..])
  {
    var s := VecToSet(v);
    HeadIsLeast(v);
    LeastUnique(Min(s), v[0], s);
    TailSet(v);
    forall i, j | 0 <= i < j < |v[1..]|
      ensures v[1..][i] < v[1..][j]
    {
      assert v[1..][i] == v[i + 1] && v[1..][j] == v[j + 1];
    }
  }

  /** A strictly increasing vector is the set-order listing of its own elements. */
  lemma {:induction false} SetToVecOfVecToSet(v: seq<int>)
    requires StrictlyIncreasing(v)
    ensures SetToVec(VecToSet(v)) == v
    decreases |v|
  {
    if v != [] {
      ListingStep(v);
      SetToVecOfVecToSet(v[1..]);
      SetToVecUnfold(VecToSet(v));
      ConsTail(v);
    }
  }
}
