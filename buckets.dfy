/**
 * The priority buckets of an event (`Event._callbacks` in `asyevent/event.py`): a dictionary
 * from priority to the callbacks registered at that priority, in registration order. The
 * invocation order (`Event.callbacks`) visits the priorities from the highest down.
 */
module Buckets {
  import opened Collections

  type PriorityMap<T> = map<int, seq<T>>

  lemma {:induction false} MaxExists(s: set<int>)
    requires s != {}
    ensures exists m :: m in s && forall k :: k in s ==> k <= m
    decreases |s|
  {
    var x := PickOne(s);
    if s == {x} {
      assert forall k :: k in s ==> k <= x;
    } else {
      MaxExists(s - {x});
      var m :| m in s - {x} && forall k :: k in s - {x} ==> k <= m;
      var top := if x > m then x else m;
      forall k | k in s ensures k <= top {
        if k != x {
          assert k in s - {x};
        }
      }
    }
  }

  lemma PickOne(s: set<int>) returns (x: int)
    requires s != {}
    ensures x in s
  {
    if forall y :: y !in s {
      assert false;
    }
    x :| x in s;
  }

  function MaxKey(s: set<int>): (m: int)
    requires s != {}
    ensures m in s && forall k :: k in s ==> k <= m
  {
    MaxExists(s);
    var m :| m in s && forall k :: k in s ==> k <= m;
    m
  }

  /** `tuple(c for key in reversed(sorted(b)) for c in b[key])` */
  function Flatten<T>(b: PriorityMap<T>): (r: seq<T>)
    decreases |b.Keys|
  {
    if b.Keys == {} then []
    else
      var m := MaxKey(b.Keys);
      b[m] + Flatten(b - {m})
  }

  /** A callback is listed exactly when it sits in some bucket. */
  lemma {:induction false} FlattenMembers<T>(b: PriorityMap<T>, x: T)
    ensures x in Flatten(b) <==> exists p :: p in b && x in b[p]
    decreases |b.Keys|
  {
    if b.Keys != {} {
      var m := MaxKey(b.Keys);
      FlattenMembers(b - {m}, x);
      if x in Flatten(b) && x !in b[m] {
        var p :| p in b - {m} && x in (b - {m})[p];
        assert p in b && x in b[p];
      }
      if exists p :: p in b && x in b[p] {
        var p :| p in b && x in b[p];
        if p != m {
          assert p in b - {m} && x in (b - {m})[p];
        }
      }
    }
  }

  /** Higher priorities come first: anything in a higher bucket precedes anything in a lower one. */
  lemma {:induction false} FlattenOrder<T>(b: PriorityMap<T>, p: int, q: int, x: T, y: T)
    requires p in b && q in b && p > q && x in b[p] && y in b[q]
    ensures exists i, j :: 0 <= i < j < |Flatten(b)| && Flatten(b)[i] == x && Flatten(b)[j] == y
    decreases |b.Keys|
  {
    var m := MaxKey(b.Keys);
    var rest := b - {m};
    assert Flatten(b) == b[m] + Flatten(rest);
    if p == m {
      FlattenMembers(rest, y);
      assert q in rest && y in rest[q];
      var i :| 0 <= i < |b[m]| && b[m][i] == x;
      var j :| 0 <= j < |Flatten(rest)| && Flatten(rest)[j] == y;
      assert Flatten(b)[i] == x && Flatten(b)[|b[m]| + j] == y;
    } else {
      FlattenOrder(rest, p, q, x, y);
      var i, j :| 0 <= i < j < |Flatten(rest)| && Flatten(rest)[i] == x && Flatten(rest)[j] == y;
      assert Flatten(b)[|b[m]| + i] == x && Flatten(b)[|b[m]| + j] == y;
    }
  }

  /** Any one bucket can be taken out of the flattening, as far as contents go. */
  lemma {:induction false} FlattenSplit<T>(b: PriorityMap<T>, k: int)
    requires k in b
    ensures multiset(Flatten(b)) == multiset(b[k]) + multiset(Flatten(b - {k}))
    decreases |b.Keys|
  {
    var m := MaxKey(b.Keys);
    if k != m {
      var rest := b - {m};
      FlattenSplit(rest, k);
      assert rest - {k} == (b - {k}) - {m};
      assert MaxKey((b - {k}).Keys) == m;
    }
  }

  /** `b.setdefault(p, []).append(x)` */
  function Append<T>(b: PriorityMap<T>, p: int, x: T): PriorityMap<T> {
    b[p := (if p in b then b[p] else []) + [x]]
  }

  /** Appending adds exactly one occurrence of `x` to the invocation order. */
  lemma AppendAddsOne<T>(b: PriorityMap<T>, p: int, x: T)
    ensures multiset(Flatten(Append(b, p, x))) == multiset(Flatten(b)) + multiset{x}
    ensures x in Flatten(Append(b, p, x))
  {
    FlattenSplitAppended(b, p, x);
    FlattenSplitPrevious(b, p);
    assert x in multiset(Flatten(Append(b, p, x)));
  }

  /** The bucket of `p` after the append, split off the rest, which the append leaves alone. */
  lemma FlattenSplitAppended<T>(b: PriorityMap<T>, p: int, x: T)
    ensures var previous := if p in b then b[p] else [];
      multiset(Flatten(Append(b, p, x))) == multiset(previous) + multiset{x} + multiset(Flatten(b - {p}))
  {
    var a := Append(b, p, x);
    var previous := if p in b then b[p] else [];
    assert a[p] == previous + [x];
    FlattenSplit(a, p);
    assert a - {p} == b - {p};
  }

  /** The bucket of `p` before the append (none counts as empty), split off the rest. */
  lemma FlattenSplitPrevious<T>(b: PriorityMap<T>, p: int)
    ensures var previous := if p in b then b[p] else [];
      multiset(Flatten(b)) == multiset(previous) + multiset(Flatten(b - {p}))
  {
    if p in b {
      FlattenSplit(b, p);
    } else {
      assert b - {p} == b;
    }
  }

  /** Registering a callback absent from every bucket keeps the invocation order free of repeats. */
  lemma AppendKeepsDistinct<T>(b: PriorityMap<T>, p: int, x: T)
    requires Distinct(Flatten(b)) && x !in Flatten(b)
    ensures Distinct(Flatten(Append(b, p, x)))
  {
    var f := Flatten(b);
    var g := Flatten(Append(b, p, x));
    AppendAddsOne(b, p, x);
    forall i, j | 0 <= i < j < |g| ensures g[i] != g[j] {
      if g[i] == g[j] {
        DistinctCount(f, g[i]);
        CountAtLeastTwo(g, i, j);
        assert false;
      }
    }
  }

  lemma {:induction false} DistinctCount<T>(s: seq<T>, y: T)
    requires Distinct(s)
    ensures multiset(s)[y] <= 1
  {
    if s != [] {
      assert s == [s[0]] + s[1..];
      DistinctCount(s[1..], y);
      if s[0] == y {
        assert y !in s[1..];
      }
    }
  }

  lemma CountAtLeastTwo<T>(s: seq<T>, i: int, j: int)
    requires 0 <= i < j < |s| && s[i] == s[j]
    ensures multiset(s)[s[i]] >= 2
  {
    assert s == s[..i] + [s[i]] + s[i + 1..j] + [s[j]] + s[j + 1..];
  }

  /** `{p: [c for c in cs if c != x] for p, cs in b.items()}` */
  function Without<T(==)>(b: PriorityMap<T>, x: T): (r: PriorityMap<T>)
    ensures r.Keys == b.Keys
  {
    map p | p in b :: Filter(b[p], x)
  }

  /** Removing from every bucket is removing from the invocation order, which keeps its order. */
  lemma {:induction false} FlattenWithout<T>(b: PriorityMap<T>, x: T)
    ensures Flatten(Without(b, x)) == Filter(Flatten(b), x)
    decreases |b.Keys|
  {
    if b.Keys != {} {
      var m := MaxKey(b.Keys);
      assert MaxKey(Without(b, x).Keys) == m;
      assert Without(b, x) - {m} == Without(b - {m}, x);
      FlattenWithout(b - {m}, x);
      FilterAppend(b[m], Flatten(b - {m}), x);
    }
  }

  /** `new == self._callbacks` holds exactly when `x` was registered nowhere. */
  lemma WithoutUnchanged<T>(b: PriorityMap<T>, x: T)
    ensures Without(b, x) == b <==> x !in Flatten(b)
  {
    FlattenMembers(b, x);
    if x in Flatten(b) {
      var p :| p in b && x in b[p];
      assert Without(b, x)[p] != b[p];
    } else {
      assert forall p :: p in b ==> Without(b, x)[p] == b[p];
    }
  }
}
