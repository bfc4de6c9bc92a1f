/**
 * Sequence algorithms of the JavaScript runtime used by the application,
 * stated once over any element type: `filter`/`map`/`flatMap`, grouping into
 * a `Map` keyed by a classifier, the stable `Array.prototype.sort` by a
 * numeric key (highest first), and the head of such a sort under a
 * two-level comparator, and keeping the first element of each key (a loop
 * with a `Set` of keys seen).
 */
module Seqs {
  import opened Opt

  // ------------------------------------------------------------ leftmost hit

  /** The first position `j` in `[i, n]` where `f(j)` holds a value, with that value. */
  function FirstHit(f: nat -> Option<nat>, i: nat, n: nat): (m: Option<(nat, nat)>)
    ensures m.Some? ==> i <= m.value.0 <= n && f(m.value.0) == Some(m.value.1)
    decreases n - i
  {
    if i > n then None
    else match f(i)
      case Some(e) => Some((i, e))
      case None => FirstHit(f, i + 1, n)
  }

  /** No position before the hit holds a value, and without a hit none in the range does. */
  lemma {:induction false} FirstHitIsLeftmost(f: nat -> Option<nat>, i: nat, n: nat)
    ensures FirstHit(f, i, n).Some? ==> forall j :: i <= j < FirstHit(f, i, n).value.0 ==> f(j).None?
    ensures FirstHit(f, i, n).None? ==> forall j :: i <= j <= n ==> f(j).None?
    decreases n - i
  {
    if i <= n && f(i).None? {
      FirstHitIsLeftmost(f, i + 1, n);
    }
  }

  // ---------------------------------------------------------- filter + map

  /** `s.filter(keep).map(f)` */
  function FilterMap<T, U>(s: seq<T>, keep: T -> bool, f: T -> U): seq<U>
    decreases |s|
  {
    if s == [] then []
    else
      var n := |s| - 1;
      FilterMap(s[..n], keep, f) + (if keep(s[n]) then [f(s[n])] else [])
  }

  lemma FilterMapPrefix<T, U>(s: seq<T>, i: nat, keep: T -> bool, f: T -> U)
    requires i < |s|
    ensures FilterMap(s[..i + 1], keep, f) == FilterMap(s[..i], keep, f) + (if keep(s[i]) then [f(s[i])] else [])
  {
    assert s[..i + 1][..i] == s[..i];
  }

  lemma {:induction false} FilterMapMembers<T, U>(s: seq<T>, keep: T -> bool, f: T -> U, x: U)
    ensures x in FilterMap(s, keep, f) <==> exists j :: 0 <= j < |s| && keep(s[j]) && x == f(s[j])
    decreases |s|
  {
    if s != [] {
      var n := |s| - 1;
      FilterMapMembers(s[..n], keep, f, x);
      if x in FilterMap(s[..n], keep, f) {
        var j :| 0 <= j < n && keep(s[..n][j]) && x == f(s[..n][j]);
        assert s[j] == s[..n][j];
      }
      if exists j :: 0 <= j < |s| && keep(s[j]) && x == f(s[j]) {
        var j :| 0 <= j < |s| && keep(s[j]) && x == f(s[j]);
        if j < n {
          assert s[..n][j] == s[j];
        }
      }
    }
  }

  /** The concatenation of `f(x)` for the elements `x` of `s`, in order. */
  function FlatMap<T, U>(s: seq<T>, f: T -> seq<U>): seq<U>
    decreases |s|
  {
    if s == [] then [] else FlatMap(s[..|s| - 1], f) + f(s[|s| - 1])
  }

  lemma {:induction false} FlatMapMembers<T, U>(s: seq<T>, f: T -> seq<U>, x: U)
    ensures x in FlatMap(s, f) <==> exists i :: 0 <= i < |s| && x in f(s[i])
    decreases |s|
  {
    if s != [] {
      var n := |s| - 1;
      FlatMapMembers(s[..n], f, x);
      if x in FlatMap(s[..n], f) {
        var i :| 0 <= i < n && x in f(s[..n][i]);
        assert s[i] == s[..n][i];
      }
      if exists i :: 0 <= i < |s| && x in f(s[i]) {
        var i :| 0 <= i < |s| && x in f(s[i]);
        if i < n {
          assert s[..n][i] == s[i];
        }
      }
    }
  }

  // ------------------------------------------------------------- grouping

  /** The elements of class `c`, in order. */
  function Select<T, C(==)>(s: seq<T>, cls: T -> C, c: C): (r: seq<T>)
    ensures |r| <= |s|
    ensures forall i :: 0 <= i < |r| ==> cls(r[i]) == c
    decreases |s|
  {
    if s == [] then []
    else
      var n := |s| - 1;
      Select(s[..n], cls, c) + (if cls(s[n]) == c then [s[n]] else [])
  }

  lemma {:induction false} SelectAppend<T, C>(a: seq<T>, b: seq<T>, cls: T -> C, c: C)
    ensures Select(a + b, cls, c) == Select(a, cls, c) + Select(b, cls, c)
    decreases |b|
  {
    if b == [] {
      assert a + b == a;
    } else {
      var n := |b| - 1;
      assert (a + b)[..|a + b| - 1] == a + b[..n];
      SelectAppend(a, b[..n], cls, c);
    }
  }

  /** Selecting from a sequence of one class gives all of it or nothing. */
  lemma {:induction false} SelectOfOneClass<T, C>(s: seq<T>, cls: T -> C, c: C, e: C)
    requires forall i :: 0 <= i < |s| ==> cls(s[i]) == e
    ensures Select(s, cls, c) == if c == e then s else []
    decreases |s|
  {
    if s != [] {
      SelectOfOneClass(s[..|s| - 1], cls, c, e);
      assert s == s[..|s| - 1] + [s[|s| - 1]];
    }
  }

  lemma {:induction false} SelectCount<T, C>(s: seq<T>, cls: T -> C, c: C, x: T)
    ensures multiset(Select(s, cls, c))[x] == if cls(x) == c then multiset(s)[x] else 0
    decreases |s|
  {
    if s != [] {
      var n := |s| - 1;
      SelectCount(s[..n], cls, c, x);
      assert s == s[..n] + [s[n]];
    }
  }

  /** A permutation of elements of one class holds only elements of that class. */
  lemma PermutationKeepsClass<T, C>(r: seq<T>, s: seq<T>, cls: T -> C, c: C)
    requires multiset(r) == multiset(s)
    requires forall i :: 0 <= i < |s| ==> cls(s[i]) == c
    ensures forall i :: 0 <= i < |r| ==> cls(r[i]) == c
  {
    forall i | 0 <= i < |r|
      ensures cls(r[i]) == c
    {
      assert r[i] in multiset(s);
      var j :| 0 <= j < |s| && s[j] == r[i];
    }
  }

  /** Selecting a class preserves being a permutation. */
  lemma SelectPermutation<T, C>(a: seq<T>, b: seq<T>, cls: T -> C, c: C)
    requires multiset(a) == multiset(b)
    ensures multiset(Select(a, cls, c)) == multiset(Select(b, cls, c))
  {
    var sa, sb := multiset(Select(a, cls, c)), multiset(Select(b, cls, c));
    forall x: T
      ensures sa[x] == sb[x]
    {
      SelectCount(a, cls, c, x);
      SelectCount(b, cls, c, x);
    }
    MultisetExtensional(sa, sb);
  }

  lemma MultisetExtensional<T>(sa: multiset<T>, sb: multiset<T>)
    requires forall x :: sa[x] == sb[x]
    ensures sa == sb
  {
  }

  /** The classes of `s`, each once, in order of first appearance (a `Map`'s key order). */
  function ClassOrder<T, C(==,!new)>(s: seq<T>, cls: T -> C): (order: seq<C>)
    ensures forall i, j :: 0 <= i < j < |order| ==> order[i] != order[j]
    ensures forall i :: 0 <= i < |s| ==> cls(s[i]) in order
    ensures forall c :: c in order ==> exists i :: 0 <= i < |s| && cls(s[i]) == c
    decreases |s|
  {
    if s == [] then []
    else
      var n := |s| - 1;
      var o := ClassOrder(s[..n], cls);
      assert forall i :: 0 <= i < n ==> s[..n][i] == s[i];
      if cls(s[n]) in o then o else o + [cls(s[n])]
  }

  /** A class that never appears selects nothing. */
  lemma {:induction false} AbsentClassIsEmpty<T, C(!new)>(s: seq<T>, cls: T -> C, c: C)
    requires c !in ClassOrder(s, cls)
    ensures Select(s, cls, c) == []
    decreases |s|
  {
    if s != [] {
      var n := |s| - 1;
      assert forall i :: 0 <= i < n ==> s[..n][i] == s[i];
      AbsentClassIsEmpty(s[..n], cls, c);
    }
  }

  /** One more element: how the class order and each selection of a prefix grow. */
  lemma PrefixStep<T, C(!new)>(s: seq<T>, k: nat, cls: T -> C)
    requires k < |s|
    ensures ClassOrder(s[..k + 1], cls)
      == if cls(s[k]) in ClassOrder(s[..k], cls) then ClassOrder(s[..k], cls)
         else ClassOrder(s[..k], cls) + [cls(s[k])]
    ensures forall c ::
      Select(s[..k + 1], cls, c) == Select(s[..k], cls, c) + (if cls(s[k]) == c then [s[k]] else [])
  {
    assert s[..k + 1][..k] == s[..k];
  }

  /** `order` and `groups` are the grouping of the first `k` elements of `s`. */
  ghost predicate GroupedUpTo<T, C(!new)>(s: seq<T>, k: nat, cls: T -> C, order: seq<C>, groups: map<C, seq<T>>)
    requires k <= |s|
  {
    && order == ClassOrder(s[..k], cls)
    && (forall c :: c in groups <==> c in order)
    && (forall c :: c in groups ==> groups[c] == Select(s[..k], cls, c))
  }

  /** Pushing element `k` onto its class's list, created on first sight, groups one element more. */
  lemma GroupStep<T, C(!new)>(s: seq<T>, k: nat, cls: T -> C, order: seq<C>, groups: map<C, seq<T>>,
                              order': seq<C>, groups': map<C, seq<T>>)
    requires k < |s| && GroupedUpTo(s, k, cls, order, groups)
    requires cls(s[k]) !in groups ==> order' == order + [cls(s[k])] && groups' == groups[cls(s[k]) := [s[k]]]
    requires cls(s[k]) in groups ==> order' == order && groups' == groups[cls(s[k]) := groups[cls(s[k])] + [s[k]]]
    ensures GroupedUpTo(s, k + 1, cls, order', groups')
  {
    GroupOrderStep(s, k, cls, order, groups, order');
    GroupKeysStep(s, k, cls, order, groups, order', groups');
    GroupValuesStep(s, k, cls, order, groups, groups');
  }

  lemma GroupValuesStep<T, C(!new)>(s: seq<T>, k: nat, cls: T -> C, order: seq<C>, groups: map<C, seq<T>>,
                                    groups': map<C, seq<T>>)
    requires k < |s| && GroupedUpTo(s, k, cls, order, groups)
    requires cls(s[k]) !in groups ==> groups' == groups[cls(s[k]) := [s[k]]]
    requires cls(s[k]) in groups ==> groups' == groups[cls(s[k]) := groups[cls(s[k])] + [s[k]]]
    ensures forall d :: d in groups' ==> groups'[d] == Select(s[..k + 1], cls, d)
  {
    forall d | d in groups'
      ensures groups'[d] == Select(s[..k + 1], cls, d)
    {
      GroupValueStep(s, k, cls, order, groups, groups', d);
    }
  }

  lemma GroupOrderStep<T, C(!new)>(s: seq<T>, k: nat, cls: T -> C, order: seq<C>, groups: map<C, seq<T>>, order': seq<C>)
    requires k < |s| && order == ClassOrder(s[..k], cls) && (forall c :: c in groups <==> c in order)
    requires cls(s[k]) !in groups ==> order' == order + [cls(s[k])]
    requires cls(s[k]) in groups ==> order' == order
    ensures order' == ClassOrder(s[..k + 1], cls)
  {
    PrefixStep(s, k, cls);
    assert cls(s[k]) in order <==> cls(s[k]) in groups;
  }

  lemma GroupKeysStep<T, C(!new)>(s: seq<T>, k: nat, cls: T -> C, order: seq<C>, groups: map<C, seq<T>>,
                                  order': seq<C>, groups': map<C, seq<T>>)
    requires k < |s| && (forall c :: c in groups <==> c in order)
    requires cls(s[k]) !in groups ==> order' == order + [cls(s[k])] && groups' == groups[cls(s[k]) := [s[k]]]
    requires cls(s[k]) in groups ==> order' == order && groups' == groups[cls(s[k]) := groups[cls(s[k])] + [s[k]]]
    ensures forall c :: c in groups' <==> c in order'
  {
  }

  lemma GroupValueStep<T, C(!new)>(s: seq<T>, k: nat, cls: T -> C, order: seq<C>, groups: map<C, seq<T>>,
                                   groups': map<C, seq<T>>, d: C)
    requires k < |s| && GroupedUpTo(s, k, cls, order, groups) && d in groups'
    requires cls(s[k]) !in groups ==> groups' == groups[cls(s[k]) := [s[k]]]
    requires cls(s[k]) in groups ==> groups' == groups[cls(s[k]) := groups[cls(s[k])] + [s[k]]]
    ensures groups'[d] == Select(s[..k + 1], cls, d)
  {
    var c := cls(s[k]);
    PrefixStep(s, k, cls);
    if d != c {
      assert groups'[d] == groups[d];
    } else if c !in groups {
      AbsentClassIsEmpty(s[..k], cls, c);
    }
  }

  /** Grouping by pushing each element onto its class's list, creating the list on first sight. */
  method GroupBy<T, C(==,!new)>(s: seq<T>, cls: T -> C) returns (order: seq<C>, groups: map<C, seq<T>>)
    ensures order == ClassOrder(s, cls)
    ensures forall c :: c in groups <==> c in order
    ensures forall c :: c in groups ==> groups[c] == Select(s, cls, c)
  {
    order := [];
    groups := map[];
    var k := 0;
    while k < |s|
      invariant 0 <= k <= |s|
      invariant GroupedUpTo(s, k, cls, order, groups)
    {
      var x := s[k];
      var c := cls(x);
      var order', groups' := order, groups;
      if c !in groups {
        order' := order + [c];
        groups' := groups[c := [x]];
      } else {
        groups' := groups[c := groups[c] + [x]];
      }
      GroupStep(s, k, cls, order, groups, order', groups');
      order, groups := order', groups';
      k := k + 1;
    }
    assert s[..k] == s;
  }

  /** The groups of the classes in `order`, each resolved by `resolve` and concatenated. */
  function Regroup<T, C(==)>(s: seq<T>, order: seq<C>, cls: T -> C, resolve: (C, seq<T>) -> seq<T>): seq<T>
    decreases |order|
  {
    if order == [] then []
    else
      var n := |order| - 1;
      Regroup(s, order[..n], cls, resolve) + resolve(order[n], Select(s, cls, order[n]))
  }

  /** One more class of `order` appends its resolved group. */
  lemma RegroupPrefix<T, C>(s: seq<T>, order: seq<C>, t: nat, cls: T -> C, resolve: (C, seq<T>) -> seq<T>)
    requires t < |order|
    ensures Regroup(s, order[..t + 1], cls, resolve) == Regroup(s, order[..t], cls, resolve) + resolve(order[t], Select(s, cls, order[t]))
  {
    assert order[..t + 1][..t] == order[..t];
  }

  /** Resolving the group of each class of `order` keeps it inside that class. */
  predicate ResolveKeepsClass<T, C(==)>(s: seq<T>, order: seq<C>, cls: T -> C, resolve: (C, seq<T>) -> seq<T>) {
    forall k, i :: 0 <= k < |order| && 0 <= i < |resolve(order[k], Select(s, cls, order[k]))| ==>
      cls(resolve(order[k], Select(s, cls, order[k]))[i]) == order[k]
  }

  /** What the induction step of `RegroupClass` needs about the classes before the last one. */
  lemma RegroupFront<T, C>(s: seq<T>, order: seq<C>, cls: T -> C, resolve: (C, seq<T>) -> seq<T>)
    requires order != []
    requires forall i, j :: 0 <= i < j < |order| ==> order[i] != order[j]
    requires ResolveKeepsClass(s, order, cls, resolve)
    ensures var front := order[..|order| - 1];
      && (forall i, j :: 0 <= i < j < |front| ==> front[i] != front[j])
      && ResolveKeepsClass(s, front, cls, resolve)
      && order[|order| - 1] !in front
    ensures var e := order[|order| - 1];
      forall i :: 0 <= i < |resolve(e, Select(s, cls, e))| ==> cls(resolve(e, Select(s, cls, e))[i]) == e
  {
    var n := |order| - 1;
    var e := order[n];
    var front := order[..n];
    forall i, j | 0 <= i < j < |front|
      ensures front[i] != front[j]
    {
      assert front[i] == order[i] && front[j] == order[j];
    }
    forall k, i | 0 <= k < |front| && 0 <= i < |resolve(front[k], Select(s, cls, front[k]))|
      ensures cls(resolve(front[k], Select(s, cls, front[k]))[i]) == front[k]
    {
      assert front[k] == order[k];
    }
    forall k | 0 <= k < n
      ensures front[k] != e
    {
      assert front[k] == order[k];
    }
  }

  /** The regrouped sequence holds, for each class of `order`, exactly that class's resolved group. */
  lemma {:induction false} RegroupClass<T, C>(s: seq<T>, order: seq<C>, cls: T -> C, resolve: (C, seq<T>) -> seq<T>, c: C)
    requires forall i, j :: 0 <= i < j < |order| ==> order[i] != order[j]
    requires ResolveKeepsClass(s, order, cls, resolve)
    ensures Select(Regroup(s, order, cls, resolve), cls, c)
      == if c in order then resolve(c, Select(s, cls, c)) else []
    decreases |order|
  {
    if order != [] {
      var n := |order| - 1;
      var e := order[n];
      var front := order[..n];
      var last := resolve(e, Select(s, cls, e));
      assert order == front + [e];
      RegroupFront(s, order, cls, resolve);
      var rf := Regroup(s, front, cls, resolve);
      RegroupClass(s, front, cls, resolve, c);
      SelectAppend(rf, last, cls, c);
      SelectOfOneClass(last, cls, c, e);
      if c == e {
        assert Select(rf + last, cls, c) == last;
      } else if c in front {
        assert Select(rf + last, cls, c) == Select(rf, cls, c) + [];
      } else {
        assert Select(rf + last, cls, c) == [] + [];
      }
    }
  }

  // ------------------------------------------------- first of each key

  /** Whether position `k` holds the first element with its key, that key not being `blank`. */
  predicate FirstOfKey<T, K(==)>(s: seq<T>, key: T -> K, blank: K, k: nat)
    requires k < |s|
  {
    key(s[k]) != blank && forall j :: 0 <= j < k ==> key(s[j]) != key(s[k])
  }

  /** The positions below `n` that hold the first element of their key, in increasing order. */
  function FirstsBelow<T, K(==)>(s: seq<T>, key: T -> K, blank: K, n: nat): seq<nat>
    requires n <= |s|
  {
    if n == 0 then []
    else if FirstOfKey(s, key, blank, n - 1) then FirstsBelow(s, key, blank, n - 1) + [n - 1]
    else FirstsBelow(s, key, blank, n - 1)
  }

  /** `FirstsBelow` lists exactly the first occurrences below `n`, in increasing order. */
  lemma {:induction false} FirstsBelowExact<T, K>(s: seq<T>, key: T -> K, blank: K, n: nat)
    requires n <= |s|
    ensures forall t :: 0 <= t < |FirstsBelow(s, key, blank, n)| ==>
      FirstsBelow(s, key, blank, n)[t] < n && FirstOfKey(s, key, blank, FirstsBelow(s, key, blank, n)[t])
    ensures forall t, u :: 0 <= t < u < |FirstsBelow(s, key, blank, n)| ==>
      FirstsBelow(s, key, blank, n)[t] < FirstsBelow(s, key, blank, n)[u]
    ensures forall k :: 0 <= k < n && FirstOfKey(s, key, blank, k) ==> k in FirstsBelow(s, key, blank, n)
  {
    if n > 0 {
      FirstsBelowExact(s, key, blank, n - 1);
    }
  }

  /** Every position of `ks` is below `n`. */
  predicate Below(ks: seq<nat>, n: nat) {
    forall t :: 0 <= t < |ks| ==> ks[t] < n
  }

  /** `f` of the elements at positions `ks`. */
  function Pick<T, U>(s: seq<T>, ks: seq<nat>, f: T -> U): seq<U>
    requires Below(ks, |s|)
  {
    if ks == [] then [] else Pick(s, ks[..|ks| - 1], f) + [f(s[ks[|ks| - 1]])]
  }

  lemma {:induction false} PickAt<T, U>(s: seq<T>, ks: seq<nat>, f: T -> U)
    requires Below(ks, |s|)
    ensures |Pick(s, ks, f)| == |ks|
    ensures forall t :: 0 <= t < |ks| ==> Pick(s, ks, f)[t] == f(s[ks[t]])
  {
    if ks != [] {
      PickAt(s, ks[..|ks| - 1], f);
    }
  }

  /** The first element of each non-blank key, in order, each mapped by `f`. */
  function FirstOfEachKey<T, K(==), U>(s: seq<T>, key: T -> K, blank: K, f: T -> U): seq<U> {
    FirstsBelowExact(s, key, blank, |s|);
    Pick(s, FirstsBelow(s, key, blank, |s|), f)
  }

  /** When `f` carries the key into its result, the results have distinct non-blank keys. */
  lemma FirstOfEachKeyDistinct<T, K, U>(s: seq<T>, key: T -> K, blank: K, f: T -> U, keyOf: U -> K)
    requires forall k :: 0 <= k < |s| && key(s[k]) != blank ==> keyOf(f(s[k])) == key(s[k])
    ensures forall t :: 0 <= t < |FirstOfEachKey(s, key, blank, f)| ==> keyOf(FirstOfEachKey(s, key, blank, f)[t]) != blank
    ensures forall t, u :: 0 <= t < u < |FirstOfEachKey(s, key, blank, f)| ==>
      keyOf(FirstOfEachKey(s, key, blank, f)[t]) != keyOf(FirstOfEachKey(s, key, blank, f)[u])
  {
    var ks := FirstsBelow(s, key, blank, |s|);
    FirstsBelowExact(s, key, blank, |s|);
    PickAt(s, ks, f);
    var r := FirstOfEachKey(s, key, blank, f);
    assert forall t :: 0 <= t < |r| ==> keyOf(r[t]) == key(s[ks[t]]);
  }

  /** The loop: skip blank keys and keys already in `seen`, push `f(x)` and remember its key. */
  method KeepFirstOfEachKey<T, K(==), U>(s: seq<T>, key: T -> K, blank: K, f: T -> U) returns (out: seq<U>)
    ensures out == FirstOfEachKey(s, key, blank, f)
  {
    out := [];
    var seen: set<K> := {};
    var i := 0;
    while i < |s|
      invariant 0 <= i <= |s|
      invariant Below(FirstsBelow(s, key, blank, i), |s|)
      invariant out == Pick(s, FirstsBelow(s, key, blank, i), f)
      invariant seen == KeysBelow(s, key, blank, i)
    {
      var v := key(s[i]);
      FirstsStep(s, key, blank, f, i);
      FirstIffUnseen(s, key, blank, i);
      assert KeysBelow(s, key, blank, i + 1) == seen + (if v != blank then {v} else {});
      if v != blank && v !in seen {
        seen := seen + {v};
        out := out + [f(s[i])];
      } else if v != blank {
        assert seen + {v} == seen;
      }
      i := i + 1;
    }
  }

  /** With `seen` the non-blank keys before `i`, position `i` is a first occurrence iff its key is new. */
  lemma FirstIffUnseen<T, K>(s: seq<T>, key: T -> K, blank: K, i: nat)
    requires i < |s|
    ensures FirstOfKey(s, key, blank, i) <==> key(s[i]) != blank && key(s[i]) !in KeysBelow(s, key, blank, i)
  {
    KeysBelowMembers(s, key, blank, i, key(s[i]));
  }

  /** The non-blank keys of the first `n` elements. */
  function KeysBelow<T, K(==)>(s: seq<T>, key: T -> K, blank: K, n: nat): set<K>
    requires n <= |s|
  {
    if n == 0 then {}
    else KeysBelow(s, key, blank, n - 1) + (if key(s[n - 1]) != blank then {key(s[n - 1])} else {})
  }

  lemma {:induction false} KeysBelowMembers<T, K>(s: seq<T>, key: T -> K, blank: K, n: nat, v: K)
    requires n <= |s|
    ensures v in KeysBelow(s, key, blank, n) <==> v != blank && exists j :: 0 <= j < n && key(s[j]) == v
  {
    if n > 0 {
      KeysBelowMembers(s, key, blank, n - 1, v);
      if v != blank && key(s[n - 1]) == v {
        assert 0 <= n - 1 < n && key(s[n - 1]) == v;
      }
    }
  }

  lemma FirstsStep<T, K, U>(s: seq<T>, key: T -> K, blank: K, f: T -> U, i: nat)
    requires i < |s|
    requires Below(FirstsBelow(s, key, blank, i), |s|)
    ensures Below(FirstsBelow(s, key, blank, i + 1), |s|)
    ensures Pick(s, FirstsBelow(s, key, blank, i + 1), f)
      == Pick(s, FirstsBelow(s, key, blank, i), f) + (if FirstOfKey(s, key, blank, i) then [f(s[i])] else [])
  {
    var ks := FirstsBelow(s, key, blank, i);
    if FirstOfKey(s, key, blank, i) {
      assert (ks + [i])[..|ks|] == ks;
    }
  }

  // ------------------------------------------------- taking and counting

  function Min(a: int, b: int): int {
    if a <= b then a else b
  }

  /** `s.slice(0, n)` */
  function Take<T>(s: seq<T>, n: nat): (r: seq<T>)
    ensures |r| == Min(|s|, n)
    ensures r == s[..|r|]
  {
    if |s| <= n then s else s[..n]
  }

  /** The last `n` elements (all of them when there are fewer). */
  function LastN<T>(s: seq<T>, n: nat): (r: seq<T>)
    ensures |r| == Min(|s|, n)
    ensures r == s[|s| - |r|..]
  {
    if |s| <= n then s else s[|s| - n..]
  }

  /** Dropping the oldest of `s + [x]` down to `n > 0` elements keeps `x` last. */
  lemma LastNKeepsNewest<T>(s: seq<T>, x: T, n: nat)
    requires n > 0
    ensures LastN(s + [x], n)[|LastN(s + [x], n)| - 1] == x
  {
  }

  /** The elements of `s` that `keep` accepts, the last first. */
  function NewestFirst<T>(s: seq<T>, keep: T -> bool): (r: seq<T>)
    ensures |r| <= |s|
    ensures forall i :: 0 <= i < |r| ==> keep(r[i])
    decreases |s|
  {
    if s == [] then []
    else
      var n := |s| - 1;
      (if keep(s[n]) then [s[n]] else []) + NewestFirst(s[..n], keep)
  }

  /** Newer elements come first: the newest-first list of `s` is that of its tail, then of its head. */
  lemma {:induction false} NewestFirstSplit<T>(s: seq<T>, keep: T -> bool, k: nat)
    requires k <= |s|
    ensures NewestFirst(s, keep) == NewestFirst(s[k..], keep) + NewestFirst(s[..k], keep)
    decreases |s| - k
  {
    if k < |s| {
      var n := |s| - 1;
      assert s[..n][..k] == s[..k];
      assert s[k..][..|s[k..]| - 1] == s[..n][k..];
      NewestFirstSplit(s[..n], keep, k);
    } else {
      assert s[k..] == [];
      assert s[..k] == s;
    }
  }

  lemma {:induction false} NewestFirstMembers<T>(s: seq<T>, keep: T -> bool, x: T)
    ensures x in NewestFirst(s, keep) <==> x in s && keep(x)
    decreases |s|
  {
    if s != [] {
      var n := |s| - 1;
      NewestFirstMembers(s[..n], keep, x);
      assert s == s[..n] + [s[n]];
    }
  }

  /** The reverse scan with a cap: the first `max` accepted elements, the last first. */
  method ScanNewest<T>(s: seq<T>, keep: T -> bool, max: nat) returns (out: seq<T>)
    requires max >= 1
    ensures out == Take(NewestFirst(s, keep), max)
  {
    out := [];
    var i := |s|;
    while i > 0
      invariant 0 <= i <= |s|
      invariant out == NewestFirst(s[i..], keep)
      invariant |out| < max
    {
      var e := s[i - 1];
      NewestFirstCons(s, keep, i - 1);
      if keep(e) {
        out := out + [e];
        if |out| >= max {
          NewestFirstSplit(s, keep, i - 1);
          return;
        }
      }
      i := i - 1;
    }
    assert s[0..] == s;
  }

  /** One more element at the old end: it goes last. */
  lemma {:induction false} NewestFirstCons<T>(s: seq<T>, keep: T -> bool, i: nat)
    requires i < |s|
    ensures NewestFirst(s[i..], keep) == NewestFirst(s[i + 1..], keep) + (if keep(s[i]) then [s[i]] else [])
    decreases |s| - i
  {
    var t := s[i..];
    var n := |t| - 1;
    if n == 0 {
      assert s[i + 1..] == [];
      assert t[..0] == [];
    } else {
      assert t[..n] == s[..|s| - 1][i..];
      assert s[i + 1..][..n - 1] == s[..|s| - 1][i + 1..];
      NewestFirstCons(s[..|s| - 1], keep, i);
    }
  }

  /** The number of elements that `p` accepts. */
  function Count<T>(s: seq<T>, p: T -> bool): (r: nat)
    ensures r <= |s|
    decreases |s|
  {
    if s == [] then 0 else Count(s[..|s| - 1], p) + (if p(s[|s| - 1]) then 1 else 0)
  }

  /** The sum of `val` over the elements that `p` accepts. */
  function Sum<T>(s: seq<T>, p: T -> bool, val: T -> real): real
    decreases |s|
  {
    if s == [] then 0.0 else Sum(s[..|s| - 1], p, val) + (if p(s[|s| - 1]) then val(s[|s| - 1]) else 0.0)
  }

  /** Nothing accepted sums to zero. */
  lemma {:induction false} SumOfNone<T>(s: seq<T>, p: T -> bool, val: T -> real)
    requires Count(s, p) == 0
    ensures Sum(s, p, val) == 0.0
    decreases |s|
  {
    if s != [] {
      SumOfNone(s[..|s| - 1], p, val);
    }
  }

  /** Counting and summing over a prefix grow one element at a time. */
  lemma PrefixFolds<T>(s: seq<T>, i: nat, p: T -> bool, val: T -> real)
    requires i < |s|
    ensures Count(s[..i + 1], p) == Count(s[..i], p) + (if p(s[i]) then 1 else 0)
    ensures Sum(s[..i + 1], p, val) == Sum(s[..i], p, val) + (if p(s[i]) then val(s[i]) else 0.0)
  {
    assert s[..i + 1][..i] == s[..i];
  }

  /** The set of keys of the elements that `p` accepts. */
  function KeySet<T, K>(s: seq<T>, p: T -> bool, key: T -> K): set<K>
    decreases |s|
  {
    if s == [] then {} else KeySet(s[..|s| - 1], p, key) + (if p(s[|s| - 1]) then {key(s[|s| - 1])} else {})
  }

  /** A key is in the set exactly when some accepted element has it. */
  lemma {:induction false} KeySetMembers<T, K>(s: seq<T>, p: T -> bool, key: T -> K, k: K)
    ensures k in KeySet(s, p, key) <==> exists i :: 0 <= i < |s| && p(s[i]) && key(s[i]) == k
    decreases |s|
  {
    if s != [] {
      var n := |s| - 1;
      KeySetMembers(s[..n], p, key, k);
      if k in KeySet(s[..n], p, key) {
        var i :| 0 <= i < n && p(s[..n][i]) && key(s[..n][i]) == k;
        assert s[..n][i] == s[i];
      }
      if exists i :: 0 <= i < |s| && p(s[i]) && key(s[i]) == k {
        var i :| 0 <= i < |s| && p(s[i]) && key(s[i]) == k;
        if i < n {
          assert s[..n][i] == s[i];
        }
      }
    }
  }

  lemma KeySetPrefix<T, K>(s: seq<T>, i: nat, p: T -> bool, key: T -> K)
    requires i < |s|
    ensures KeySet(s[..i + 1], p, key) == KeySet(s[..i], p, key) + (if p(s[i]) then {key(s[i])} else {})
  {
    assert s[..i + 1][..i] == s[..i];
  }

  /** The index of the first element accepted by `p` with the greatest `val`; `None` when there is none. */
  function FirstMax<T>(s: seq<T>, p: T -> bool, val: T -> real): (r: Option<nat>)
    ensures r.Some? ==> r.value < |s| && p(s[r.value])
    decreases |s|
  {
    if s == [] then None
    else
      var n := |s| - 1;
      var prev := FirstMax(s[..n], p, val);
      if p(s[n]) && (prev.None? || val(s[n]) > val(s[prev.value])) then Some(n) else prev
  }

  /** `FirstMax` finds an accepted element when there is one, no later element exceeds it and every earlier one is below it. */
  lemma {:induction false} FirstMaxIsFirstBest<T>(s: seq<T>, p: T -> bool, val: T -> real)
    ensures FirstMax(s, p, val).None? <==> forall i :: 0 <= i < |s| ==> !p(s[i])
    ensures FirstMax(s, p, val).Some? ==>
      && (forall j :: 0 <= j < |s| && p(s[j]) ==> val(s[j]) <= val(s[FirstMax(s, p, val).value]))
      && (forall j :: 0 <= j < FirstMax(s, p, val).value && p(s[j]) ==> val(s[j]) < val(s[FirstMax(s, p, val).value]))
    decreases |s|
  {
    if s != [] {
      var n := |s| - 1;
      FirstMaxIsFirstBest(s[..n], p, val);
      assert forall i :: 0 <= i < n ==> s[..n][i] == s[i];
    }
  }

  lemma FirstMaxPrefix<T>(s: seq<T>, i: nat, p: T -> bool, val: T -> real)
    requires i < |s|
    ensures FirstMax(s[..i + 1], p, val) ==
      var prev := FirstMax(s[..i], p, val);
      if p(s[i]) && (prev.None? || val(s[i]) > val(s[prev.value])) then Some(i) else prev
  {
    assert s[..i + 1][..i] == s[..i];
  }

  // -------------------------------------------------------- stable sorting

  /** Non-increasing in `key`. */
  predicate SortedDesc<T>(s: seq<T>, key: T -> real) {
    forall i, j :: 0 <= i < j < |s| ==> key(s[i]) >= key(s[j])
  }

  /** Places `x` in front of the first element whose key it reaches. */
  function InsertDesc<T>(x: T, s: seq<T>, key: T -> real): (r: seq<T>)
    requires SortedDesc(s, key)
    ensures SortedDesc(r, key)
    ensures multiset(r) == multiset(s) + multiset{x}
    ensures |r| == |s| + 1
  {
    if s == [] || key(s[0]) <= key(x) then
      SortedCons(x, s, key);
      [x] + s
    else
      var rest := InsertDesc(x, s[1..], key);
      InsertedBelow(x, s, rest, key);
      SortedCons(s[0], rest, key);
      assert s == [s[0]] + s[1..];
      [s[0]] + rest
  }

  /** An element whose key is at least every key of a sorted sequence can go in front. */
  lemma SortedCons<T>(x: T, s: seq<T>, key: T -> real)
    requires SortedDesc(s, key)
    requires forall i :: 0 <= i < |s| ==> key(s[i]) <= key(x)
    ensures SortedDesc([x] + s, key)
  {
    var r := [x] + s;
    forall i, j | 0 <= i < j < |r|
      ensures key(r[i]) >= key(r[j])
    {
      assert r[j] == s[j - 1];
      if i > 0 {
        assert r[i] == s[i - 1];
      }
    }
  }

  lemma InsertedBelow<T>(x: T, s: seq<T>, rest: seq<T>, key: T -> real)
    requires s != [] && SortedDesc(s, key) && key(x) < key(s[0])
    requires multiset(rest) == multiset(s[1..]) + multiset{x}
    ensures forall i :: 0 <= i < |rest| ==> key(rest[i]) <= key(s[0])
  {
    forall i | 0 <= i < |rest|
      ensures key(rest[i]) <= key(s[0])
    {
      assert rest[i] in multiset(rest);
      if rest[i] != x {
        assert rest[i] in multiset(s[1..]);
        var j :| 0 <= j < |s[1..]| && s[1..][j] == rest[i];
        assert s[j + 1] == rest[i];
      }
    }
  }

  /** `s.sort((x, y) => key(y) - key(x))`: the stable sort, highest key first. */
  function SortDesc<T>(s: seq<T>, key: T -> real): (r: seq<T>)
    ensures SortedDesc(r, key)
    ensures multiset(r) == multiset(s)
    ensures |r| == |s|
  {
    if s == [] then []
    else
      assert s == [s[0]] + s[1..];
      InsertDesc(s[0], SortDesc(s[1..], key), key)
  }

  /** The elements with key `p`, in order. */
  function WithKey<T>(s: seq<T>, key: T -> real, p: real): seq<T> {
    if s == [] then []
    else (if key(s[0]) == p then [s[0]] else []) + WithKey(s[1..], key, p)
  }

  lemma {:induction false} InsertWithKey<T>(x: T, s: seq<T>, key: T -> real, p: real)
    requires SortedDesc(s, key)
    ensures WithKey(InsertDesc(x, s, key), key, p) == (if key(x) == p then [x] else []) + WithKey(s, key, p)
  {
    var xs := if key(x) == p then [x] else [];
    if s == [] || key(s[0]) <= key(x) {
      assert InsertDesc(x, s, key) == [x] + s;
      WithKeyCons(x, s, key, p);
    } else {
      var rest := InsertDesc(x, s[1..], key);
      assert InsertDesc(x, s, key) == [s[0]] + rest;
      InsertWithKey(x, s[1..], key, p);
      WithKeyCons(s[0], rest, key, p);
      WithKeyCons(s[0], s[1..], key, p);
      assert [s[0]] + s[1..] == s;
      SwapDisjoint(if key(s[0]) == p then [s[0]] else [], xs, WithKey(s[1..], key, p));
    }
  }

  lemma WithKeyCons<T>(a: T, t: seq<T>, key: T -> real, p: real)
    ensures WithKey([a] + t, key, p) == (if key(a) == p then [a] else []) + WithKey(t, key, p)
  {
    assert ([a] + t)[1..] == t;
  }

  /** Two pieces of which at least one is empty can be swapped. */
  lemma SwapDisjoint<T>(a: seq<T>, b: seq<T>, w: seq<T>)
    requires a == [] || b == []
    ensures a + (b + w) == b + (a + w)
  {
    if a == [] {
      assert a + (b + w) == b + w;
    } else {
      assert b + (a + w) == a + w;
    }
  }

  /** The sort is stable: the elements sharing a key keep their relative order. */
  lemma {:induction false} SortKeepsTies<T>(s: seq<T>, key: T -> real, p: real)
    ensures WithKey(SortDesc(s, key), key, p) == WithKey(s, key, p)
  {
    if s != [] {
      SortKeepsTies(s[1..], key, p);
      InsertWithKey(s[0], SortDesc(s[1..], key), key, p);
    }
  }

  // ------------------------------------------------ three-key ranking

  /** `x` ranks at least as high as `y`: compared by `k1`, then `k2`, then `k3`, highest first. */
  predicate AtLeast<T>(x: T, y: T, k1: T -> real, k2: T -> real, k3: T -> real) {
    k1(x) > k1(y) || (k1(x) == k1(y) && (k2(x) > k2(y) || (k2(x) == k2(y) && k3(x) >= k3(y))))
  }

  predicate Ranked<T>(s: seq<T>, k1: T -> real, k2: T -> real, k3: T -> real) {
    forall i, j :: 0 <= i < j < |s| ==> AtLeast(s[i], s[j], k1, k2, k3)
  }

  /** Places `x` in front of the first element it ranks at least as high as. */
  function InsertRanked<T>(x: T, s: seq<T>, k1: T -> real, k2: T -> real, k3: T -> real): (r: seq<T>)
    requires Ranked(s, k1, k2, k3)
    ensures Ranked(r, k1, k2, k3)
    ensures multiset(r) == multiset(s) + multiset{x}
    ensures |r| == |s| + 1
  {
    if s == [] || AtLeast(x, s[0], k1, k2, k3) then
      RankedAbove(x, s, k1, k2, k3);
      RankedCons(x, s, k1, k2, k3);
      [x] + s
    else
      var rest := InsertRanked(x, s[1..], k1, k2, k3);
      RankedBelow(x, s, rest, k1, k2, k3);
      RankedCons(s[0], rest, k1, k2, k3);
      assert s == [s[0]] + s[1..];
      [s[0]] + rest
  }

  /** An element ranking at least as high as every element of a ranked sequence can go in front. */
  lemma RankedCons<T>(x: T, s: seq<T>, k1: T -> real, k2: T -> real, k3: T -> real)
    requires Ranked(s, k1, k2, k3)
    requires forall i :: 0 <= i < |s| ==> AtLeast(x, s[i], k1, k2, k3)
    ensures Ranked([x] + s, k1, k2, k3)
  {
    var r := [x] + s;
    forall i, j | 0 <= i < j < |r|
      ensures AtLeast(r[i], r[j], k1, k2, k3)
    {
      assert r[j] == s[j - 1];
      if i > 0 {
        assert r[i] == s[i - 1];
      }
    }
  }

  /** Ranking at least as high as the head of a ranked sequence is ranking at least as high as all of it. */
  lemma RankedAbove<T>(x: T, s: seq<T>, k1: T -> real, k2: T -> real, k3: T -> real)
    requires Ranked(s, k1, k2, k3)
    requires s != [] ==> AtLeast(x, s[0], k1, k2, k3)
    ensures forall i :: 0 <= i < |s| ==> AtLeast(x, s[i], k1, k2, k3)
  {
    forall i | 0 < i < |s|
      ensures AtLeast(x, s[i], k1, k2, k3)
    {
      assert AtLeast(s[0], s[i], k1, k2, k3);
    }
  }

  lemma RankedBelow<T>(x: T, s: seq<T>, rest: seq<T>, k1: T -> real, k2: T -> real, k3: T -> real)
    requires s != [] && Ranked(s, k1, k2, k3) && !AtLeast(x, s[0], k1, k2, k3)
    requires multiset(rest) == multiset(s[1..]) + multiset{x}
    ensures forall i :: 0 <= i < |rest| ==> AtLeast(s[0], rest[i], k1, k2, k3)
  {
    forall i | 0 <= i < |rest|
      ensures AtLeast(s[0], rest[i], k1, k2, k3)
    {
      assert rest[i] in multiset(rest);
      if rest[i] != x {
        assert rest[i] in multiset(s[1..]);
        var j :| 0 <= j < |s[1..]| && s[1..][j] == rest[i];
        assert s[j + 1] == rest[i];
      }
    }
  }

  /** The stable sort with a three-key comparator, highest first. */
  function SortRanked<T>(s: seq<T>, k1: T -> real, k2: T -> real, k3: T -> real): (r: seq<T>)
    ensures Ranked(r, k1, k2, k3)
    ensures multiset(r) == multiset(s)
    ensures |r| == |s|
  {
    if s == [] then []
    else
      assert s == [s[0]] + s[1..];
      InsertRanked(s[0], SortRanked(s[1..], k1, k2, k3), k1, k2, k3)
  }

  /** The elements whose three keys are `p`, in order. */
  function WithKeys<T>(s: seq<T>, k1: T -> real, k2: T -> real, k3: T -> real, p: (real, real, real)): seq<T> {
    if s == [] then []
    else (if (k1(s[0]), k2(s[0]), k3(s[0])) == p then [s[0]] else []) + WithKeys(s[1..], k1, k2, k3, p)
  }

  lemma {:induction false} InsertWithKeys<T>(x: T, s: seq<T>, k1: T -> real, k2: T -> real, k3: T -> real, p: (real, real, real))
    requires Ranked(s, k1, k2, k3)
    ensures WithKeys(InsertRanked(x, s, k1, k2, k3), k1, k2, k3, p)
      == (if (k1(x), k2(x), k3(x)) == p then [x] else []) + WithKeys(s, k1, k2, k3, p)
  {
    var xs := if (k1(x), k2(x), k3(x)) == p then [x] else [];
    if s == [] || AtLeast(x, s[0], k1, k2, k3) {
      assert InsertRanked(x, s, k1, k2, k3) == [x] + s;
      WithKeysCons(x, s, k1, k2, k3, p);
    } else {
      var rest := InsertRanked(x, s[1..], k1, k2, k3);
      assert InsertRanked(x, s, k1, k2, k3) == [s[0]] + rest;
      InsertWithKeys(x, s[1..], k1, k2, k3, p);
      WithKeysCons(s[0], rest, k1, k2, k3, p);
      WithKeysCons(s[0], s[1..], k1, k2, k3, p);
      assert [s[0]] + s[1..] == s;
      SwapDisjoint(if (k1(s[0]), k2(s[0]), k3(s[0])) == p then [s[0]] else [], xs, WithKeys(s[1..], k1, k2, k3, p));
    }
  }

  lemma WithKeysCons<T>(a: T, t: seq<T>, k1: T -> real, k2: T -> real, k3: T -> real, p: (real, real, real))
    ensures WithKeys([a] + t, k1, k2, k3, p)
      == (if (k1(a), k2(a), k3(a)) == p then [a] else []) + WithKeys(t, k1, k2, k3, p)
  {
    assert ([a] + t)[1..] == t;
  }

  /** The ranking is stable: elements equal in all three keys keep their relative order. */
  lemma {:induction false} SortRankedKeepsTies<T>(s: seq<T>, k1: T -> real, k2: T -> real, k3: T -> real, p: (real, real, real))
    ensures WithKeys(SortRanked(s, k1, k2, k3), k1, k2, k3, p) == WithKeys(s, k1, k2, k3, p)
  {
    if s != [] {
      SortRankedKeepsTies(s[1..], k1, k2, k3, p);
      InsertWithKeys(s[0], SortRanked(s[1..], k1, k2, k3), k1, k2, k3, p);
    }
  }

  // ------------------------------------------------------ the first of the best

  /** `x` sorts before `y` when it has a higher score, or the same score and a higher key. */
  predicate Beats<T>(x: T, y: T, score: T -> int, key: T -> real) {
    score(x) > score(y) || (score(x) == score(y) && key(x) > key(y))
  }

  /**
   * The head of the stable sort of `s` by (score, key), both highest first:
   * an element nothing beats, that beats every element before it.
   */
  function BestIndex<T>(s: seq<T>, score: T -> int, key: T -> real): (k: nat)
    requires s != []
    ensures k < |s|
    ensures forall j :: 0 <= j < |s| ==> !Beats(s[j], s[k], score, key)
    ensures forall j :: 0 <= j < k ==> Beats(s[k], s[j], score, key)
    decreases |s|
  {
    if |s| == 1 then 0
    else
      var n := |s| - 1;
      var k := BestIndex(s[..n], score, key);
      assert forall j :: 0 <= j < n ==> s[..n][j] == s[j];
      if Beats(s[n], s[k], score, key) then n else k
  }

  /** A sequence whose multiset is a single element is that element. */
  lemma SingletonMultiset<T>(s: seq<T>, x: T)
    requires multiset(s) == multiset{x}
    ensures s == [x]
  {
    assert |s| == 1;
    assert s[0] in multiset(s);
  }
}
