/** Order-preserving filtering, the model of `Array.prototype.filter`. */
module Seqs {

  /** The elements of `s` that satisfy `keep`, in their original order. */
  function Filter<T>(s: seq<T>, keep: T -> bool): (r: seq<T>)
    ensures |r| <= |s|
  {
    if s == [] then [] else
      var front := Filter(s[..|s| - 1], keep);
      if keep(s[|s| - 1]) then front + [s[|s| - 1]] else front
  }

  /** An element survives exactly when it was present and passes the test. */
  lemma {:induction false} FilterMembership<T>(s: seq<T>, keep: T -> bool, x: T)
    ensures x in Filter(s, keep) <==> x in s && keep(x)
  {
    if s != [] {
      var init := s[..|s| - 1];
      FilterMembership(init, keep, x);
      assert s == init + [s[|s| - 1]];
    }
  }

  /** Filtering distributes over concatenation, so survivors keep their relative order. */
  lemma {:induction false} FilterAppend<T>(s: seq<T>, t: seq<T>, keep: T -> bool)
    ensures Filter(s + t, keep) == Filter(s, keep) + Filter(t, keep)
    decreases |t|
  {
    if t == [] {
      assert s + t == s;
    } else {
      var init := t[..|t| - 1];
      FilterAppend(s, init, keep);
      assert (s + t)[..|s + t| - 1] == s + init;
      assert (s + t)[|s + t| - 1] == t[|t| - 1];
    }
  }

  /** Nothing is removed when every element passes the test. */
  lemma {:induction false} FilterKeepsAll<T>(s: seq<T>, keep: T -> bool)
    requires forall i :: 0 <= i < |s| ==> keep(s[i])
    ensures Filter(s, keep) == s
  {
    if s != [] {
      FilterKeepsAll(s[..|s| - 1], keep);
      assert s == s[..|s| - 1] + [s[|s| - 1]];
    }
  }

  /** The concatenation of `f(x)` for every `x` of `s`, in order (a `forEach` that pushes). */
  function Flatten<A, B>(s: seq<A>, f: A -> seq<B>): seq<B>
  {
    if s == [] then [] else Flatten(s[..|s| - 1], f) + f(s[|s| - 1])
  }

  lemma {:induction false} FlattenAppend<A, B>(s: seq<A>, t: seq<A>, f: A -> seq<B>)
    ensures Flatten(s + t, f) == Flatten(s, f) + Flatten(t, f)
    decreases |t|
  {
    if t == [] {
      assert s + t == s;
    } else {
      var init := t[..|t| - 1];
      FlattenAppend(s, init, f);
      assert (s + t)[..|s + t| - 1] == s + init;
    }
  }

  /** An element of the flattening comes from some element of `s`, and every such element is there. */
  lemma {:induction false} FlattenMembership<A, B>(s: seq<A>, f: A -> seq<B>, y: B)
    ensures y in Flatten(s, f) <==> exists x :: x in s && y in f(x)
  {
    if s != [] {
      var init, last := s[..|s| - 1], s[|s| - 1];
      FlattenMembership(init, f, y);
      assert s == init + [last];
      if y in Flatten(init, f) {
        var x :| x in init && y in f(x);
        assert x in s;
      }
      if exists x :: x in s && y in f(x) {
        var x :| x in s && y in f(x);
        if x != last {
          var k :| 0 <= k < |s| && s[k] == x;
          assert init[k] == x;
        }
      }
    }
  }
}
