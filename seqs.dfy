/**
 * Generic sequence operations used as reference definitions by the rest of the
 * model: order-preserving filtering and mapping, first-occurrence deduplication
 * by a key with a set of pre-seen keys, and the subsequence relation.
 *
 * The functions are defined by recursion on the last element, which is how the
 * source's append loops build their results; their properties are lemmas, so
 * that a proof only pays for the facts it asks for.
 */
module Seqs {

  /** The elements of `s` that satisfy `p`, in order. */
  function Filter<T>(s: seq<T>, p: T -> bool): (r: seq<T>)
    ensures |r| <= |s|
    decreases |s|
  {
    if s == [] then []
    else if p(s[|s| - 1]) then Filter(s[..|s| - 1], p) + [s[|s| - 1]]
    else Filter(s[..|s| - 1], p)
  }

  /** `f` applied to every element of `s`, in order. */
  function Map<T, U>(s: seq<T>, f: T -> U): (r: seq<U>)
    ensures |r| == |s|
    ensures forall i :: 0 <= i < |s| ==> r[i] == f(s[i])
  {
    seq(|s|, i requires 0 <= i < |s| => f(s[i]))
  }

  /** The set of keys of the elements of `s`. */
  function KeysOf<T, K(==)>(s: seq<T>, key: T -> K): set<K>
    decreases |s|
  {
    if s == [] then {} else KeysOf(s[..|s| - 1], key) + {key(s[|s| - 1])}
  }

  /** No two elements of `s` share a key. */
  ghost predicate KeysDistinct<T, K>(s: seq<T>, key: T -> K)
  {
    forall i, j :: 0 <= i < j < |s| ==> key(s[i]) != key(s[j])
  }

  /**
   * First-occurrence deduplication: walking `s` from the front, an element is
   * kept exactly when its key is neither in `seen` nor the key of an earlier
   * element of `s`.
   */
  function Dedup<T, K(==)>(s: seq<T>, key: T -> K, seen: set<K>): seq<T>
    decreases |s|
  {
    if s == [] then []
    else
      var init, x := s[..|s| - 1], s[|s| - 1];
      if key(x) in seen || key(x) in KeysOf(init, key) then Dedup(init, key, seen)
      else Dedup(init, key, seen) + [x]
  }

  /** `a` can be obtained from `b` by deleting elements (greedy match from the back). */
  predicate Subseq<T(==)>(a: seq<T>, b: seq<T>)
    decreases |b|
  {
    if a == [] then true
    else if b == [] then false
    else if a[|a| - 1] == b[|b| - 1] then Subseq(a[..|a| - 1], b[..|b| - 1])
    else Subseq(a, b[..|b| - 1])
  }

  // ---------------------------------------------------------------------------
  // Appending one element, as a loop body does.

  lemma FilterSnoc<T>(s: seq<T>, x: T, p: T -> bool)
    ensures Filter(s + [x], p) == Filter(s, p) + (if p(x) then [x] else [])
  {
    assert (s + [x])[..|s|] == s;
  }

  lemma KeysOfSnoc<T, K>(s: seq<T>, x: T, key: T -> K)
    ensures KeysOf(s + [x], key) == KeysOf(s, key) + {key(x)}
  {
    assert (s + [x])[..|s|] == s;
  }

  lemma DedupSnoc<T, K>(s: seq<T>, x: T, key: T -> K, seen: set<K>)
    ensures Dedup(s + [x], key, seen)
         == Dedup(s, key, seen) + (if key(x) in seen || key(x) in KeysOf(s, key) then [] else [x])
  {
    assert (s + [x])[..|s|] == s;
  }

  lemma AppendAssoc<T>(a: seq<T>, b: seq<T>, c: seq<T>)
    ensures (a + b) + c == a + (b + c)
  {
  }

  lemma MapAppend<T, U>(a: seq<T>, b: seq<T>, f: T -> U)
    ensures Map(a + b, f) == Map(a, f) + Map(b, f)
  {
  }

  /**
   * What a loop computes that walks `s`, appends every element that satisfies
   * `p` and whose key is not yet seen, and adds that key to the seen-set that
   * starts as `seen`: the kept elements and the final seen-set.
   */
  function Select<T, K(==)>(s: seq<T>, p: T -> bool, key: T -> K, seen: set<K>): (seq<T>, set<K>)
    decreases |s|
  {
    if s == [] then ([], seen)
    else
      var r, x := Select(s[..|s| - 1], p, key, seen), s[|s| - 1];
      if p(x) && key(x) !in r.1 then (r.0 + [x], r.1 + {key(x)}) else r
  }

  /** One iteration of the `Select` loop. */
  lemma SelectStep<T, K>(s: seq<T>, i: nat, p: T -> bool, key: T -> K, seen: set<K>)
    requires i < |s|
    ensures var r := Select(s[..i], p, key, seen);
            Select(s[..i + 1], p, key, seen)
            == if p(s[i]) && key(s[i]) !in r.1 then (r.0 + [s[i]], r.1 + {key(s[i])}) else r
  {
    assert s[..i + 1][..i] == s[..i];
  }

  /** The `Select` loop keeps the first unseen-key element after filtering, and collects the keys it kept. */
  lemma {:induction false} SelectIsDedupFilter<T, K>(s: seq<T>, p: T -> bool, key: T -> K, seen: set<K>)
    ensures Select(s, p, key, seen) == (Dedup(Filter(s, p), key, seen), seen + KeysOf(Filter(s, p), key))
    decreases |s|
  {
    if s != [] {
      var init, x := s[..|s| - 1], s[|s| - 1];
      SelectIsDedupFilter(init, p, key, seen);
      var f := Filter(init, p);
      var r := Select(init, p, key, seen);
      assert r == (Dedup(f, key, seen), seen + KeysOf(f, key));
      if p(x) {
        assert Filter(s, p) == f + [x] by {
          assert s == init + [x];
          FilterSnoc(init, x, p);
        }
        DedupSnoc(f, x, key, seen);
        KeysOfSnoc(f, x, key);
        var dup := key(x) in seen || key(x) in KeysOf(f, key);
        assert dup <==> key(x) in r.1;
        assert seen + KeysOf(f + [x], key) == r.1 + {key(x)};
        if dup {
          assert r.1 + {key(x)} == r.1;
        }
      } else {
        assert Filter(s, p) == f by {
          assert s == init + [x];
          FilterSnoc(init, x, p);
          assert f + [] == f;
        }
      }
    } else {
      assert seen + {} == seen;
    }
  }

  /**
   * What a loop computes that walks `s`, appends `f(x)` for every `x` whose
   * key is not yet seen and adds that key to the seen-set: the appended values
   * and the final seen-set.
   */
  function DedupMap<T, U, K(==)>(s: seq<T>, key: T -> K, f: T -> U): (seq<U>, set<K>)
    decreases |s|
  {
    if s == [] then ([], {})
    else
      var r, x := DedupMap(s[..|s| - 1], key, f), s[|s| - 1];
      if key(x) in r.1 then r else (r.0 + [f(x)], r.1 + {key(x)})
  }

  /** One iteration of the `DedupMap` loop, on item `i` of `s` after the items `done`. */
  lemma DedupMapNext<T, U, K>(done: seq<T>, s: seq<T>, i: nat, key: T -> K, f: T -> U)
    requires i < |s|
    ensures var r := DedupMap(done + s[..i], key, f);
            DedupMap(done + s[..i + 1], key, f)
            == if key(s[i]) in r.1 then r else (r.0 + [f(s[i])], r.1 + {key(s[i])})
  {
    var next := done + s[..i + 1];
    assert next[..|next| - 1] == done + s[..i];
  }

  /** The `DedupMap` loop converts the first element of every key and collects every key. */
  lemma {:induction false} DedupMapIsDedup<T, U, K>(s: seq<T>, key: T -> K, f: T -> U)
    ensures DedupMap(s, key, f) == (Map(Dedup(s, key, {}), f), KeysOf(s, key))
    decreases |s|
  {
    if s != [] {
      var init, x := s[..|s| - 1], s[|s| - 1];
      DedupMapIsDedup(init, key, f);
      var d := Dedup(init, key, {});
      assert s == init + [x];
      DedupSnoc(init, x, key, {});
      KeysOfSnoc(init, x, key);
      if key(x) in KeysOf(init, key) {
        assert KeysOf(init, key) + {key(x)} == KeysOf(init, key);
        assert d + [] == d;
      } else {
        MapAppend(d, [x], f);
        assert Map([x], f) == [f(x)];
      }
    }
  }

  /** One item of a loop that appends `f` of every item satisfying `p`; `prior` is what the result held before the loop. */
  lemma FilterMapStep<T, U>(s: seq<T>, i: nat, p: T -> bool, f: T -> U, prior: seq<U>, acc: seq<U>)
    requires i < |s|
    requires acc == prior + Map(Filter(s[..i], p), f)
    ensures (if p(s[i]) then acc + [f(s[i])] else acc) == prior + Map(Filter(s[..i + 1], p), f)
  {
    var x := s[i];
    var before := Filter(s[..i], p);
    assert Filter(s[..i + 1], p) == before + (if p(x) then [x] else []) by {
      assert s[..i + 1] == s[..i] + [x];
      FilterSnoc(s[..i], x, p);
    }
    if p(x) {
      MapAppend(before, [x], f);
      AppendAssoc(prior, Map(before, f), [f(x)]);
    } else {
      assert before + [] == before;
    }
  }

  /** The concatenation of `f(x)` for every `x` of `s`, in order. */
  function ConcatMap<T, U>(s: seq<T>, f: T -> seq<U>): seq<U>
    decreases |s|
  {
    if s == [] then [] else ConcatMap(s[..|s| - 1], f) + f(s[|s| - 1])
  }

  lemma ConcatMapStep<T, U>(s: seq<T>, i: nat, f: T -> seq<U>)
    requires i < |s|
    ensures ConcatMap(s[..i + 1], f) == ConcatMap(s[..i], f) + f(s[i])
  {
    assert s[..i + 1][..i] == s[..i];
  }

  lemma ConcatMapOfTwo<T, U>(s: seq<T>, f: T -> seq<U>)
    requires |s| == 2
    ensures ConcatMap(s, f) == f(s[0]) + f(s[1])
  {
    ConcatMapStep(s, 0, f);
    ConcatMapStep(s, 1, f);
    assert s[..2] == s;
    assert [] + f(s[0]) == f(s[0]);
  }

  lemma ConcatMapOfFour<T, U>(s: seq<T>, f: T -> seq<U>)
    requires |s| == 4
    ensures ConcatMap(s, f) == f(s[0]) + f(s[1]) + f(s[2]) + f(s[3])
  {
    ConcatMapStep(s, 0, f);
    assert [] + f(s[0]) == f(s[0]);
    assert ConcatMap(s[..1], f) == f(s[0]);
    ConcatMapStep(s, 1, f);
    assert ConcatMap(s[..2], f) == f(s[0]) + f(s[1]);
    ConcatMapStep(s, 2, f);
    assert ConcatMap(s[..3], f) == f(s[0]) + f(s[1]) + f(s[2]);
    ConcatMapStep(s, 3, f);
    assert s[..4] == s;
  }

  // ---------------------------------------------------------------------------
  // Membership

  lemma {:induction false} FilterMembers<T(!new)>(s: seq<T>, p: T -> bool)
    ensures forall x :: x in Filter(s, p) <==> x in s && p(x)
    decreases |s|
  {
    if s != [] {
      var init, x := s[..|s| - 1], s[|s| - 1];
      assert s == init + [x];
      FilterMembers(init, p);
    }
  }

  lemma {:induction false} KeysOfMembers<T, K(!new)>(s: seq<T>, key: T -> K)
    ensures forall k :: k in KeysOf(s, key) <==> exists i :: 0 <= i < |s| && key(s[i]) == k
    decreases |s|
  {
    if s != [] {
      var init := s[..|s| - 1];
      KeysOfMembers(init, key);
      assert forall i :: 0 <= i < |init| ==> init[i] == s[i];
    }
  }

  /** The keys of a concatenation are the keys of its parts. */
  lemma {:induction false} KeysOfAppend<T, K>(a: seq<T>, b: seq<T>, key: T -> K)
    ensures KeysOf(a + b, key) == KeysOf(a, key) + KeysOf(b, key)
    decreases |b|
  {
    if b == [] {
      assert a + b == a;
      assert KeysOf(a, key) + {} == KeysOf(a, key);
    } else {
      var b', x := b[..|b| - 1], b[|b| - 1];
      assert b == b' + [x];
      assert a + b == (a + b') + [x];
      KeysOfAppend(a, b', key);
      KeysOfSnoc(a + b', x, key);
      KeysOfSnoc(b', x, key);
    }
  }

  /** In `a + b`, where `p` holds on all of `a` and on none of `b`, every element satisfying `p` precedes every other. */
  lemma AppendPartitioned<T>(a: seq<T>, b: seq<T>, p: T -> bool)
    requires forall x :: x in a ==> p(x)
    requires forall x :: x in b ==> !p(x)
    ensures forall i, j :: 0 <= i < j < |a + b| && p((a + b)[j]) ==> p((a + b)[i])
  {
    var r := a + b;
    forall i, j | 0 <= i < j < |r| && p(r[j]) ensures p(r[i]) {
      assert j < |a|;
      assert r[i] == a[i] && a[i] in a;
    }
  }

  /** Two key-distinct sequences whose keys do not meet concatenate to a key-distinct sequence. */
  lemma KeysDistinctAppend<T, K(!new)>(a: seq<T>, b: seq<T>, key: T -> K)
    requires KeysDistinct(a, key) && KeysDistinct(b, key)
    requires forall k :: 0 <= k < |b| ==> key(b[k]) !in KeysOf(a, key)
    ensures KeysDistinct(a + b, key)
  {
    var r := a + b;
    forall i, j | 0 <= i < j < |r| ensures key(r[i]) != key(r[j]) {
      if j < |a| {
        assert r[i] == a[i] && r[j] == a[j];
      } else if i >= |a| {
        assert r[i] == b[i - |a|] && r[j] == b[j - |a|];
      } else {
        assert r[i] == a[i] && r[j] == b[j - |a|];
        assert key(a[i]) in KeysOf(a, key) by { KeysOfMembers(a, key); }
      }
    }
  }

  /** The elements of a mapped sequence are the images of its elements. */
  lemma MapMembers<T(!new), U(!new)>(s: seq<T>, f: T -> U)
    ensures forall x :: x in s ==> f(x) in Map(s, f)
    ensures forall y :: y in Map(s, f) ==> exists i :: 0 <= i < |s| && y == f(s[i])
  {
    forall x | x in s ensures f(x) in Map(s, f) {
      var i :| 0 <= i < |s| && s[i] == x;
      assert Map(s, f)[i] == f(x);
    }
  }

  /**
   * What deduplication guarantees: it keeps only elements of its input, no kept
   * key is pre-seen, no two kept elements share a key, and every unseen key of
   * the input is kept.
   */
  lemma {:induction false} DedupProps<T(!new), K(!new)>(s: seq<T>, key: T -> K, seen: set<K>)
    ensures forall x :: x in Dedup(s, key, seen) ==> x in s
    ensures forall i :: 0 <= i < |Dedup(s, key, seen)| ==> key(Dedup(s, key, seen)[i]) !in seen
    ensures KeysDistinct(Dedup(s, key, seen), key)
    ensures KeysOf(Dedup(s, key, seen), key) == KeysOf(s, key) - seen
    decreases |s|
  {
    if s != [] {
      var init, x := s[..|s| - 1], s[|s| - 1];
      var kept := Dedup(init, key, seen);
      var dup := key(x) in seen || key(x) in KeysOf(init, key);
      assert Dedup(s, key, seen) == kept + (if dup then [] else [x]) && KeysOf(s, key) == KeysOf(init, key) + {key(x)} by {
        assert s == init + [x];
        DedupSnoc(init, x, key, seen);
        KeysOfSnoc(init, x, key);
      }
      DedupProps(init, key, seen);
      if !dup {
        assert KeysOf(kept + [x], key) == KeysOf(kept, key) + {key(x)} by {
          KeysOfSnoc(kept, x, key);
        }
        KeysDistinctAppend(kept, [x], key);
      }
    }
  }

  lemma {:induction false} ConcatMapMembers<T, U(!new)>(s: seq<T>, f: T -> seq<U>)
    ensures forall y :: y in ConcatMap(s, f) <==> exists i :: 0 <= i < |s| && y in f(s[i])
    decreases |s|
  {
    if s != [] {
      var init := s[..|s| - 1];
      ConcatMapMembers(init, f);
      forall y ensures y in ConcatMap(s, f) <==> exists i :: 0 <= i < |s| && y in f(s[i]) {
        if y in ConcatMap(init, f) {
          var i :| 0 <= i < |init| && y in f(init[i]);
          assert s[i] == init[i];
        }
        if exists i :: 0 <= i < |s| && y in f(s[i]) {
          var i :| 0 <= i < |s| && y in f(s[i]);
          if i < |init| {
            assert y in f(init[i]);
          }
        }
      }
    }
  }

  // ---------------------------------------------------------------------------
  // Filter

  /** Filtering by a predicate every element satisfies changes nothing. */
  lemma {:induction false} FilterAll<T(!new)>(s: seq<T>, p: T -> bool)
    requires forall x :: x in s ==> p(x)
    ensures Filter(s, p) == s
    decreases |s|
  {
    if s != [] {
      var init := s[..|s| - 1];
      assert s == init + [s[|s| - 1]];
      assert forall x :: x in init ==> x in s;
      FilterAll(init, p);
    }
  }

  /** Filtering by a predicate no element satisfies gives the empty sequence. */
  lemma FilterNone<T(!new)>(s: seq<T>, p: T -> bool)
    requires forall x :: x in s ==> !p(x)
    ensures Filter(s, p) == []
  {
    FilterMembers(s, p);
    if Filter(s, p) != [] {
      assert Filter(s, p)[0] in Filter(s, p);
    }
  }

  /** Filtering distributes over concatenation. */
  lemma {:induction false} FilterAppend<T>(a: seq<T>, b: seq<T>, p: T -> bool)
    ensures Filter(a + b, p) == Filter(a, p) + Filter(b, p)
    decreases |b|
  {
    if b == [] {
      assert a + b == a;
    } else {
      var b', x := b[..|b| - 1], b[|b| - 1];
      assert b == b' + [x];
      assert a + b == (a + b') + [x];
      FilterAppend(a, b', p);
      FilterSnoc(a + b', x, p);
      FilterSnoc(b', x, p);
    }
  }

  /** Filtering twice by the same predicate is filtering once. */
  lemma FilterIdempotent<T(!new)>(s: seq<T>, p: T -> bool)
    ensures Filter(Filter(s, p), p) == Filter(s, p)
  {
    FilterMembers(s, p);
    FilterAll(Filter(s, p), p);
  }

  // ---------------------------------------------------------------------------
  // Dedup

  /** A sequence whose keys are already distinct and unseen is its own deduplication. */
  lemma {:induction false} DedupOfDistinct<T, K(!new)>(s: seq<T>, key: T -> K, seen: set<K>)
    requires KeysDistinct(s, key)
    requires forall i :: 0 <= i < |s| ==> key(s[i]) !in seen
    ensures Dedup(s, key, seen) == s
    decreases |s|
  {
    if s != [] {
      var init, x := s[..|s| - 1], s[|s| - 1];
      assert s == init + [x];
      DedupOfDistinct(init, key, seen);
      DedupSnoc(init, x, key, seen);
      KeysOfMembers(init, key);
      assert key(x) !in KeysOf(init, key);
    }
  }

  /** In a sequence with distinct keys, an element is the only one carrying its key. */
  lemma OnlyOneWithKey<T(!new), K>(r: seq<T>, key: T -> K, x: T)
    requires KeysDistinct(r, key) && x in r
    ensures forall y :: y in r && key(y) == key(x) ==> y == x
  {
    forall y | y in r && key(y) == key(x) ensures y == x {
      var a :| 0 <= a < |r| && r[a] == y;
      var b :| 0 <= b < |r| && r[b] == x;
      assert key(r[a]) == key(r[b]);
    }
  }

  lemma {:induction false} DedupKeeps<T, K(!new)>(s: seq<T>, key: T -> K, seen: set<K>, j: nat)
    requires j < |s|
    requires key(s[j]) !in seen
    requires forall i :: 0 <= i < j ==> key(s[i]) != key(s[j])
    ensures s[j] in Dedup(s, key, seen)
    decreases |s|
  {
    var init, x := s[..|s| - 1], s[|s| - 1];
    assert s == init + [x];
    DedupSnoc(init, x, key, seen);
    if j == |s| - 1 {
      KeysOfMembers(init, key);
      assert forall i :: 0 <= i < |init| ==> init[i] == s[i];
      assert key(x) !in KeysOf(init, key);
    } else {
      assert init[j] == s[j];
      assert forall i :: 0 <= i < j ==> init[i] == s[i];
      DedupKeeps(init, key, seen, j);
    }
  }

  /**
   * First-wins: the first element of `s` that carries a given unseen key is
   * kept, and it is the only element of the result with that key.
   */
  lemma DedupKeepsFirst<T(!new), K(!new)>(s: seq<T>, key: T -> K, seen: set<K>, j: nat)
    requires j < |s|
    requires key(s[j]) !in seen
    requires forall i :: 0 <= i < j ==> key(s[i]) != key(s[j])
    ensures s[j] in Dedup(s, key, seen)
    ensures forall y :: y in Dedup(s, key, seen) && key(y) == key(s[j]) ==> y == s[j]
  {
    DedupKeeps(s, key, seen, j);
    DedupProps(s, key, seen);
    OnlyOneWithKey(Dedup(s, key, seen), key, s[j]);
  }

  /**
   * First-wins after filtering: an element that satisfies `p`, carries an
   * unseen key and has no earlier `p`-element with that key is kept, and it is
   * the only kept element with that key.
   */
  lemma FilterDedupKeepsFirst<T(!new), K(!new)>(s: seq<T>, p: T -> bool, key: T -> K, seen: set<K>, j: nat)
    requires j < |s| && p(s[j]) && key(s[j]) !in seen
    requires forall i :: 0 <= i < j && p(s[i]) ==> key(s[i]) != key(s[j])
    ensures s[j] in Dedup(Filter(s, p), key, seen)
    ensures forall y :: y in Dedup(Filter(s, p), key, seen) && key(y) == key(s[j]) ==> y == s[j]
  {
    var front, back := s[..j], s[j + 1..];
    var ff, fs := Filter(front, p), Filter(s, p);
    assert fs == ff + [s[j]] + Filter(back, p) by {
      assert s == front + [s[j]] + back;
      FilterAppend(front + [s[j]], back, p);
      FilterSnoc(front, s[j], p);
    }
    assert fs[|ff|] == s[j];
    forall i | 0 <= i < |ff| ensures key(fs[i]) != key(fs[|ff|]) {
      assert fs[i] == ff[i];
      assert ff[i] in front && p(ff[i]) by {
        FilterMembers(front, p);
      }
      var k :| 0 <= k < |front| && front[k] == ff[i];
      assert s[k] == ff[i];
    }
    DedupKeepsFirst(fs, key, seen, |ff|);
  }


  // ---------------------------------------------------------------------------
  // Subseq

  lemma {:induction false} SubseqSnoc<T>(a: seq<T>, b: seq<T>, x: T)
    requires Subseq(a, b)
    ensures Subseq(a, b + [x])
    ensures Subseq(a + [x], b + [x])
    decreases |a| + |b|, 1
  {
    assert (b + [x])[..|b|] == b;
    assert (a + [x])[..|a|] == a;
    if a != [] && a[|a| - 1] == x {
      SubseqDropLast(a, b);
    }
  }

  lemma {:induction false} SubseqDropLast<T>(a: seq<T>, b: seq<T>)
    requires a != [] && Subseq(a, b)
    ensures Subseq(a[..|a| - 1], b)
    decreases |a| + |b|, 0
  {
    var a', b' := a[..|a| - 1], b[..|b| - 1];
    assert b == b' + [b[|b| - 1]];
    if a[|a| - 1] == b[|b| - 1] {
      SubseqSnoc(a', b', b[|b| - 1]);
    } else {
      SubseqDropLast(a, b');
      SubseqSnoc(a', b', b[|b| - 1]);
    }
  }

  lemma {:induction false} SubseqTrans<T>(a: seq<T>, b: seq<T>, c: seq<T>)
    requires Subseq(a, b) && Subseq(b, c)
    ensures Subseq(a, c)
    decreases |c|
  {
    if a != [] {
      var c', z := c[..|c| - 1], c[|c| - 1];
      assert c == c' + [z];
      if b[|b| - 1] == z {
        var b' := b[..|b| - 1];
        assert b == b' + [z];
        if a[|a| - 1] == z {
          SubseqTrans(a[..|a| - 1], b', c');
        } else {
          SubseqTrans(a, b', c');
          SubseqSnoc(a, c', z);
        }
      } else {
        SubseqTrans(a, b, c');
        SubseqSnoc(a, c', z);
      }
    }
  }

  /** Filtering keeps the input order: the result is a subsequence of the input. */
  lemma {:induction false} FilterSubseq<T>(s: seq<T>, p: T -> bool)
    ensures Subseq(Filter(s, p), s)
    decreases |s|
  {
    if s != [] {
      var init, x := s[..|s| - 1], s[|s| - 1];
      assert s == init + [x];
      FilterSubseq(init, p);
      FilterSnoc(init, x, p);
      SubseqSnoc(Filter(init, p), init, x);
    }
  }

  /** Deduplication keeps the input order: the result is a subsequence of the input. */
  lemma {:induction false} DedupSubseq<T, K>(s: seq<T>, key: T -> K, seen: set<K>)
    ensures Subseq(Dedup(s, key, seen), s)
    decreases |s|
  {
    if s != [] {
      var init, x := s[..|s| - 1], s[|s| - 1];
      assert s == init + [x];
      DedupSubseq(init, key, seen);
      DedupSnoc(init, x, key, seen);
      SubseqSnoc(Dedup(init, key, seen), init, x);
    }
  }
}
