/** Generic sequence operations the pipeline uses: Python slicing, list
    comprehensions with a filter, flattening and first-occurrence dedup. */
module Seqs {
  import opened Wrappers

  function Min(a: int, b: int): int {
    if a <= b then a else b
  }

  /** `s[:n]`. */
  function Take<T>(s: seq<T>, n: nat): (r: seq<T>)
    ensures |r| == Min(n, |s|)
    ensures r == s[..|r|]
  {
    if n <= |s| then s[..n] else s
  }

  /** Indexing a suffix is indexing the whole sequence further on. */
  lemma SliceAt<T>(s: seq<T>, n: nat, k: nat)
    requires n <= |s| && k < |s| - n
    ensures s[n + k] == s[n..][k]
  {
  }

  /** The first `n` of `a + b`: those of `a`, then of `b` what is left. */
  lemma TakeAppend<T>(a: seq<T>, b: seq<T>, n: nat)
    ensures Take(a + b, n)[..Min(|a|, n)] == a[..Min(|a|, n)]
    ensures |a| < n ==> Take(a + b, n)[|a|..] == Take(b, n - |a|)
  {
    var r := Take(a + b, n);
    if |a| < n {
      assert r[|a|..] == (a + b)[|a|..|r|];
      assert (a + b)[|a|..|r|] == b[..|r| - |a|];
    }
  }

  /** `s[n:]`. */
  function Drop<T>(s: seq<T>, n: nat): (r: seq<T>)
    ensures |r| == |s| - Min(n, |s|)
    ensures Take(s, n) + r == s
  {
    if n <= |s| then s[n..] else []
  }

  /** `a` is `b` with some elements left out, the rest kept in order. */
  predicate Subseq<T(==)>(a: seq<T>, b: seq<T>)
    decreases |b|
  {
    if |a| == 0 then true
    else if |b| == 0 then false
    else if a[0] == b[0] then Subseq(a[1..], b[1..])
    else Subseq(a, b[1..])
  }

  lemma {:induction false} SubseqRefl<T>(s: seq<T>)
    ensures Subseq(s, s)
    decreases |s|
  {
    if |s| > 0 {
      SubseqRefl(s[1..]);
    }
  }

  lemma {:induction false} SubseqOfPrefix<T>(a: seq<T>, b: seq<T>, n: nat)
    requires n <= |a|
    requires Subseq(a, b)
    ensures Subseq(a[..n], b)
    decreases |b|
  {
    if n > 0 && |b| > 0 {
      if a[0] == b[0] {
        assert a[..n][1..] == a[1..][..n - 1];
        SubseqOfPrefix(a[1..], b[1..], n - 1);
      } else {
        SubseqOfPrefix(a, b[1..], n);
      }
    }
  }

  /** A subsequence of the tail is a subsequence of the whole. */
  lemma {:induction false} SubseqSkip<T>(a: seq<T>, b: seq<T>)
    requires |b| > 0 && Subseq(a, b[1..])
    ensures Subseq(a, b)
    decreases |a| + |b|
  {
    if |a| > 0 && a[0] == b[0] {
      SubseqTail(a, b[1..]);
    }
  }

  /** Dropping the first element keeps a subsequence one. */
  lemma {:induction false} SubseqTail<T>(a: seq<T>, c: seq<T>)
    requires |a| > 0 && Subseq(a, c)
    ensures Subseq(a[1..], c)
    decreases |a| + |c|
  {
    if a[0] == c[0] {
      SubseqSkip(a[1..], c);
    } else {
      SubseqTail(a, c[1..]);
      SubseqSkip(a[1..], c);
    }
  }

  lemma {:induction false} SubseqMembers<T>(a: seq<T>, b: seq<T>)
    requires Subseq(a, b)
    ensures forall x :: x in a ==> x in b
    decreases |b|
  {
    if |a| > 0 && |b| > 0 {
      if a[0] == b[0] {
        SubseqMembers(a[1..], b[1..]);
        assert forall x :: x in a ==> x == a[0] || x in a[1..];
      } else {
        SubseqMembers(a, b[1..]);
      }
    }
  }

  /** `[x for x in s if p(x)]`. */
  function Filter<T>(s: seq<T>, p: T -> bool): (r: seq<T>)
    ensures |r| <= |s|
    ensures forall i :: 0 <= i < |r| ==> p(r[i])
    ensures forall x :: x in r ==> x in s && p(x)
    ensures forall x :: x in s && p(x) ==> x in r
    ensures Subseq(r, s)
    decreases |s|
  {
    if |s| == 0 then []
    else
      var rest := Filter(s[1..], p);
      assert forall x :: x in s ==> x == s[0] || x in s[1..];
      if p(s[0]) then [s[0]] + rest
      else
        assert |rest| > 0 ==> rest[0] != s[0];
        rest
  }

  /** Filtering keeps every copy of a kept value and no copy of a dropped
      one. */
  lemma {:induction false} FilterCount<T>(s: seq<T>, p: T -> bool, x: T)
    ensures p(x) ==> multiset(Filter(s, p))[x] == multiset(s)[x]
    ensures !p(x) ==> multiset(Filter(s, p))[x] == 0
    decreases |s|
  {
    if |s| > 0 {
      var rest := Filter(s[1..], p);
      FilterCount(s[1..], p, x);
      assert s == [s[0]] + s[1..];
      if p(s[0]) {
        assert Filter(s, p) == [s[0]] + rest;
      } else {
        assert Filter(s, p) == rest;
      }
    }
  }

  /** A filter that every element passes keeps the whole sequence. */
  lemma {:induction false} FilterKeepsAll<T>(s: seq<T>, p: T -> bool)
    requires forall i :: 0 <= i < |s| ==> p(s[i])
    ensures Filter(s, p) == s
    decreases |s|
  {
    if |s| > 0 {
      FilterKeepsAll(s[1..], p);
      assert [s[0]] + s[1..] == s;
    }
  }

  /** An element the filter rejects leaves no trace, at either end. */
  lemma {:induction false} FilterAppendRejected<T>(s: seq<T>, x: T, p: T -> bool)
    requires !p(x)
    ensures Filter(s + [x], p) == Filter(s, p)
    ensures Filter([x] + s, p) == Filter(s, p)
    decreases |s|
  {
    assert ([x] + s)[1..] == s;
    if |s| == 0 {
      assert s + [x] == [x];
      assert [x][1..] == [];
    } else {
      assert (s + [x])[0] == s[0] && (s + [x])[1..] == s[1..] + [x];
      FilterAppendRejected(s[1..], x, p);
    }
  }

  /** The concatenation of all `ss`, in order. */
  function Flatten<T>(ss: seq<seq<T>>): (r: seq<T>)
    decreases |ss|
  {
    if |ss| == 0 then [] else ss[0] + Flatten(ss[1..])
  }

  lemma FlattenAppend<T>(ss: seq<seq<T>>, s: seq<T>)
    ensures Flatten(ss + [s]) == Flatten(ss) + s
    decreases |ss|
  {
    if |ss| > 0 {
      assert (ss + [s])[1..] == ss[1..] + [s];
      FlattenAppend(ss[1..], s);
    }
  }

  /** Every element replaced, in place, by the elements `f` gives it. */
  function FlatMap<T, U>(xs: seq<T>, f: T -> seq<U>): (r: seq<U>)
    decreases |xs|
  {
    if |xs| == 0 then [] else f(xs[0]) + FlatMap(xs[1..], f)
  }

  /** `FlatMap` treats elements independently. */
  lemma {:induction false} FlatMapAppend<T, U>(a: seq<T>, b: seq<T>, f: T -> seq<U>)
    ensures FlatMap(a + b, f) == FlatMap(a, f) + FlatMap(b, f)
    decreases |a|
  {
    if |a| == 0 {
      assert a + b == b;
    } else {
      assert (a + b)[0] == a[0] && (a + b)[1..] == a[1..] + b;
      FlatMapAppend(a[1..], b, f);
    }
  }

  /** What every image satisfies, the whole `FlatMap` satisfies. */
  lemma {:induction false} FlatMapAll<T, U>(xs: seq<T>, f: T -> seq<U>, p: U -> bool)
    requires forall k, x :: 0 <= k < |xs| && x in f(xs[k]) ==> p(x)
    ensures forall x :: x in FlatMap(xs, f) ==> p(x)
    decreases |xs|
  {
    if |xs| > 0 {
      FlatMapAll(xs[1..], f, p);
    }
  }

  /** `FlatMap` keeps the elements `f` maps to themselves alone. */
  lemma {:induction false} FlatMapKeeps<T>(xs: seq<T>, f: T -> seq<T>)
    requires forall k :: 0 <= k < |xs| ==> f(xs[k]) == [xs[k]]
    ensures FlatMap(xs, f) == xs
    decreases |xs|
  {
    if |xs| > 0 {
      FlatMapKeeps(xs[1..], f);
      assert [xs[0]] + xs[1..] == xs;
    }
  }

  /** Keep the first element of each key, skipping keys already in `seen`:
      the `seen`-set loop Python code uses for order-preserving dedup. */
  function DedupFrom<T(==), K(==)>(s: seq<T>, key: T -> K, seen: set<K>): (r: seq<T>)
    ensures |r| <= |s|
    ensures forall i, j :: 0 <= i < j < |r| ==> key(r[i]) != key(r[j])
    ensures forall i :: 0 <= i < |r| ==> key(r[i]) !in seen
    ensures forall x :: x in s && key(x) !in seen ==> exists y :: y in r && key(y) == key(x)
    ensures Subseq(r, s)
    decreases |s|
  {
    if |s| == 0 then []
    else if key(s[0]) in seen then
      var r := DedupFrom(s[1..], key, seen);
      assert |r| > 0 ==> r[0] != s[0];
      assert forall x :: x in s ==> x == s[0] || x in s[1..];
      r
    else
      var rest := DedupFrom(s[1..], key, seen + {key(s[0])});
      var r := [s[0]] + rest;
      assert r[1..] == rest;
      assert forall x :: x in s && key(x) !in seen ==> exists y :: y in r && key(y) == key(x) by {
        forall x | x in s && key(x) !in seen
          ensures exists y :: y in r && key(y) == key(x)
        {
          if key(x) == key(s[0]) {
            assert s[0] in r;
          } else {
            assert x in s[1..];
            var y :| y in rest && key(y) == key(x);
            assert y in r;
          }
        }
      }
      r
  }

  /** The keys of the elements of `s`. */
  ghost function KeysOf<T, K>(s: seq<T>, key: T -> K): set<K> {
    set x | x in s :: key(x)
  }

  /** `s[i]` is the first element of `s` with its key. */
  ghost predicate FirstOfKey<T, K>(s: seq<T>, key: T -> K, i: int)
    requires 0 <= i < |s|
  {
    forall j :: 0 <= j < i ==> key(s[j]) != key(s[i])
  }

  /** The first of its key in the tail, with another key at the head, is
      the first of its key in the whole sequence. */
  lemma FirstOfKeyShift<T, K>(s: seq<T>, key: T -> K, i: nat)
    requires i + 1 < |s| && FirstOfKey(s[1..], key, i) && key(s[0]) != key(s[i + 1])
    ensures FirstOfKey(s, key, i + 1)
  {
    forall j | 0 < j < i + 1
      ensures key(s[j]) != key(s[i + 1])
    {
      assert s[j] == s[1..][j - 1] && s[i + 1] == s[1..][i];
    }
  }

  /** Each element dedup keeps is the first of its key. */
  lemma {:induction false} DedupFromFirst<T, K>(s: seq<T>, key: T -> K, seen: set<K>)
    ensures KeptAreFirsts(s, key, seen)
    decreases |s|
  {
    if |s| > 0 {
      if key(s[0]) in seen {
        DedupFromFirst(s[1..], key, seen);
        FirstsSkip(s, key, seen);
      } else {
        DedupFromFirst(s[1..], key, seen + {key(s[0])});
        FirstsKeep(s, key, seen);
      }
    } else {
      assert DedupFrom(s, key, seen) == [];
    }
  }

  /** Each element the dedup from `seen` keeps is the first of its key. */
  ghost predicate KeptAreFirsts<T, K>(s: seq<T>, key: T -> K, seen: set<K>) {
    forall k :: 0 <= k < |DedupFrom(s, key, seen)| ==>
      exists i :: 0 <= i < |s| && s[i] == DedupFrom(s, key, seen)[k] && FirstOfKey(s, key, i)
  }

  /** An already seen head is skipped, and the tail's firsts stay firsts. */
  lemma FirstsSkip<T, K>(s: seq<T>, key: T -> K, seen: set<K>)
    requires |s| > 0 && key(s[0]) in seen && KeptAreFirsts(s[1..], key, seen)
    ensures KeptAreFirsts(s, key, seen)
  {
    var r := DedupFrom(s, key, seen);
    var rest := DedupFrom(s[1..], key, seen);
    assert r == rest;
    forall k | 0 <= k < |r|
      ensures exists i :: 0 <= i < |s| && s[i] == r[k] && FirstOfKey(s, key, i)
    {
      var i :| 0 <= i < |s[1..]| && s[1..][i] == rest[k] && FirstOfKey(s[1..], key, i);
      assert key(rest[k]) !in seen;
      FirstOfKeyShift(s, key, i);
    }
  }

  /** A new head is kept as the first of its key, ahead of the tail's
      firsts. */
  lemma FirstsKeep<T, K>(s: seq<T>, key: T -> K, seen: set<K>)
    requires |s| > 0 && key(s[0]) !in seen && KeptAreFirsts(s[1..], key, seen + {key(s[0])})
    ensures KeptAreFirsts(s, key, seen)
  {
    var seen' := seen + {key(s[0])};
    var r := DedupFrom(s, key, seen);
    var rest := DedupFrom(s[1..], key, seen');
    assert r == [s[0]] + rest;
    assert FirstOfKey(s, key, 0);
    forall k | 0 < k < |r|
      ensures exists i :: 0 <= i < |s| && s[i] == r[k] && FirstOfKey(s, key, i)
    {
      var i :| 0 <= i < |s[1..]| && s[1..][i] == rest[k - 1] && FirstOfKey(s[1..], key, i);
      assert key(rest[k - 1]) !in seen';
      FirstOfKeyShift(s, key, i);
    }
  }

  /** Dedup keeps the first element of every key not already seen. */
  lemma {:induction false} DedupFromComplete<T, K>(s: seq<T>, key: T -> K, seen: set<K>)
    ensures forall i :: 0 <= i < |s| && FirstOfKey(s, key, i) && key(s[i]) !in seen ==>
      s[i] in DedupFrom(s, key, seen)
    decreases |s|
  {
    var r := DedupFrom(s, key, seen);
    if |s| > 0 {
      var seen' := if key(s[0]) in seen then seen else seen + {key(s[0])};
      var rest := DedupFrom(s[1..], key, seen');
      DedupFromComplete(s[1..], key, seen');
      assert r == if key(s[0]) in seen then rest else [s[0]] + rest;
      forall i | 0 < i < |s| && FirstOfKey(s, key, i) && key(s[i]) !in seen
        ensures s[i] in r
      {
        assert s[1..][i - 1] == s[i];
        forall j | 0 <= j < i - 1
          ensures key(s[1..][j]) != key(s[1..][i - 1])
        {
          assert s[1..][j] == s[j + 1];
        }
        assert key(s[i]) != key(s[0]);
        assert s[1..][i - 1] in rest;
      }
    }
  }

  /** Dedup keeps one element per key not already seen. */
  lemma {:induction false} DedupFromCount<T, K>(s: seq<T>, key: T -> K, seen: set<K>)
    ensures |DedupFrom(s, key, seen)| == |KeysOf(s, key) - seen|
    decreases |s|
  {
    if |s| == 0 {
      assert KeysOf(s, key) == {};
    } else {
      var k0 := key(s[0]);
      assert KeysOf(s, key) == {k0} + KeysOf(s[1..], key) by {
        assert forall x :: x in s <==> x == s[0] || x in s[1..];
      }
      if k0 in seen {
        DedupFromCount(s[1..], key, seen);
        assert KeysOf(s, key) - seen == KeysOf(s[1..], key) - seen;
      } else {
        DedupFromCount(s[1..], key, seen + {k0});
        var rest := KeysOf(s[1..], key) - (seen + {k0});
        assert KeysOf(s, key) - seen == {k0} + rest;
        assert k0 !in rest;
      }
    }
  }

  /** Order-preserving dedup by `key`: one element per key, in order. */
  function DedupBy<T(==), K(==)>(s: seq<T>, key: T -> K): (r: seq<T>)
    ensures |r| <= |s|
    ensures forall i, j :: 0 <= i < j < |r| ==> key(r[i]) != key(r[j])
    ensures forall x :: x in s ==> exists y :: y in r && key(y) == key(x)
    ensures Subseq(r, s)
  {
    DedupFrom(s, key, {})
  }

  /** The dedup keeps exactly the first element of each key: every kept
      element is the first of its key, every first of a key is kept, and
      there is one element per key. */
  lemma DedupByFirsts<T, K>(s: seq<T>, key: T -> K)
    ensures var r := DedupBy(s, key);
      (forall k :: 0 <= k < |r| ==> exists i :: 0 <= i < |s| && s[i] == r[k] && FirstOfKey(s, key, i))
      && (forall i :: 0 <= i < |s| && FirstOfKey(s, key, i) ==> s[i] in r)
      && |r| == |KeysOf(s, key)|
  {
    DedupNoneFirst(s, key);
    DedupNoneComplete(s, key);
    DedupNoneCount(s, key);
  }

  /** With nothing seen yet, each kept element is the first of its key. */
  lemma DedupNoneFirst<T, K>(s: seq<T>, key: T -> K)
    ensures var r := DedupFrom(s, key, {});
      forall k :: 0 <= k < |r| ==> exists i :: 0 <= i < |s| && s[i] == r[k] && FirstOfKey(s, key, i)
  {
    DedupFromFirst(s, key, {});
  }

  /** With nothing seen yet, the first element of every key is kept. */
  lemma DedupNoneComplete<T, K>(s: seq<T>, key: T -> K)
    ensures var r := DedupFrom(s, key, {});
      forall i :: 0 <= i < |s| && FirstOfKey(s, key, i) ==> s[i] in r
  {
    DedupFromComplete(s, key, {});
  }

  /** With nothing seen yet, one element is kept per key. */
  lemma DedupNoneCount<T, K>(s: seq<T>, key: T -> K)
    ensures |DedupFrom(s, key, {})| == |KeysOf(s, key)|
  {
    DedupFromCount(s, key, {});
    assert KeysOf(s, key) - {} == KeysOf(s, key);
  }

  /** Dedup keeps a sequence whose keys are already distinct and unseen. */
  lemma {:induction false} DedupFromDistinct<T, K>(s: seq<T>, key: T -> K, seen: set<K>)
    requires forall i, j :: 0 <= i < j < |s| ==> key(s[i]) != key(s[j])
    requires forall i :: 0 <= i < |s| ==> key(s[i]) !in seen
    ensures DedupFrom(s, key, seen) == s
    decreases |s|
  {
    if |s| > 0 {
      DedupFromDistinct(s[1..], key, seen + {key(s[0])});
      assert [s[0]] + s[1..] == s;
    }
  }

  /** Dedup keeps a sequence whose keys are already distinct. */
  lemma DedupDistinct<T, K>(s: seq<T>, key: T -> K)
    requires forall i, j :: 0 <= i < j < |s| ==> key(s[i]) != key(s[j])
    ensures DedupBy(s, key) == s
  {
    DedupFromDistinct(s, key, {});
  }

  /** `s[0] if s else None`. */
  function Head<T>(s: seq<T>): (r: Option<T>)
    ensures r.Some? <==> |s| > 0
    ensures r.Some? ==> r.value == s[0]
  {
    if |s| > 0 then Some(s[0]) else None
  }

  /** The index of the first set flag: the `for ...: if cond: break` loop
      once the condition has been evaluated for every element. */
  function FirstTrue(flags: seq<bool>): (r: Option<nat>)
    ensures r.Some? ==> r.value < |flags| && flags[r.value]
    ensures r.Some? ==> forall j :: 0 <= j < r.value ==> !flags[j]
    ensures r.None? <==> forall j :: 0 <= j < |flags| ==> !flags[j]
    decreases |flags|
  {
    if |flags| == 0 then None
    else if flags[0] then Some(0)
    else match FirstTrue(flags[1..])
      case None => None
      case Some(i) => Some(i + 1)
  }

  /** The present values, in order: `[x for x in opts if x is not None]`. */
  function Somes<T>(opts: seq<Option<T>>): (r: seq<T>)
    ensures |r| <= |opts|
    ensures forall x :: x in r ==> Some(x) in opts
    ensures forall k :: 0 <= k < |opts| && opts[k].Some? ==> opts[k].value in r
    decreases |opts|
  {
    if |opts| == 0 then []
    else
      var rest := Somes(opts[1..]);
      assert forall k :: 1 <= k < |opts| ==> opts[k] == opts[1..][k - 1];
      match opts[0]
      case Some(x) => [x] + rest
      case None => rest
  }

  /** Keeping the present values works piece by piece. */
  lemma {:induction false} SomesAppend<T>(a: seq<Option<T>>, b: seq<Option<T>>)
    ensures Somes(a + b) == Somes(a) + Somes(b)
    decreases |a|
  {
    if |a| == 0 {
      assert a + b == b;
    } else {
      assert (a + b)[0] == a[0];
      assert (a + b)[1..] == a[1..] + b;
      SomesAppend(a[1..], b);
    }
  }
}
