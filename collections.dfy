/** Sequence operations that mirror Python's list methods on registries and buckets. */
module Collections {

  predicate Distinct<T(==)>(s: seq<T>) {
    forall i, j :: 0 <= i < j < |s| ==> s[i] != s[j]
  }

  /** `[y for y in s if y != x]` */
  function Filter<T(==)>(s: seq<T>, x: T): (r: seq<T>)
    ensures multiset(r) == multiset(s)[x := 0]
    ensures r == s <==> x !in s
    ensures |r| <= |s|
    ensures Distinct(s) ==> Distinct(r)
  {
    if s == [] then []
    else
      var t := Filter(s[1..], x);
      assert multiset(s) == multiset{s[0]} + multiset(s[1..]) by {
        assert s == [s[0]] + s[1..];
      }
      if s[0] == x then
        assert |t| < |s|;
        t
      else
        assert [s[0]] + t == s <==> t == s[1..] by {
          if [s[0]] + t == s {
            assert ([s[0]] + t)[1..] == t;
          }
        }
        DistinctTail(s);
        assert s[0] !in s[1..] ==> s[0] !in t by {
          assert multiset(t)[s[0]] <= multiset(s[1..])[s[0]];
        }
        DistinctCons(s[0], t);
        [s[0]] + t
  }

  lemma DistinctTail<T>(s: seq<T>)
    requires s != []
    ensures Distinct(s) ==> s[0] !in s[1..] && Distinct(s[1..])
  {
    if Distinct(s) {
      forall k | 0 <= k < |s[1..]| ensures s[1..][k] != s[0] {
        assert s[1..][k] == s[k + 1];
      }
    }
  }

  /** Appending an element not yet present keeps a sequence free of repeats. */
  lemma DistinctSnoc<T>(s: seq<T>, x: T)
    ensures Distinct(s) && x !in s ==> Distinct(s + [x])
  {
  }

  lemma DistinctCons<T>(x: T, t: seq<T>)
    ensures Distinct(t) && x !in t ==> Distinct([x] + t)
  {
  }

  lemma {:induction false} FilterAppend<T>(a: seq<T>, b: seq<T>, x: T)
    ensures Filter(a + b, x) == Filter(a, x) + Filter(b, x)
  {
    if a != [] {
      assert (a + b)[1..] == a[1..] + b;
      FilterAppend(a[1..], b, x);
    } else {
      assert a + b == b;
    }
  }

  /** The position of the first occurrence of `x`. */
  function IndexOf<T(==)>(s: seq<T>, x: T): (i: nat)
    requires x in s
    ensures i < |s| && s[i] == x && x !in s[..i]
  {
    if s[0] == x then 0
    else
      var j := IndexOf(s[1..], x);
      assert s[..j + 1] == [s[0]] + s[1..][..j];
      j + 1
  }

  /** Python's `list.remove(x)`: drops the first occurrence of `x`. */
  function RemoveFirst<T(==)>(s: seq<T>, x: T): (r: seq<T>)
    requires x in s
    ensures |r| == |s| - 1
    ensures multiset(r) == multiset(s) - multiset{x}
    ensures Distinct(s) ==> Distinct(r) && x !in r
  {
    var i := IndexOf(s, x);
    assert s == s[..i] + [x] + s[i + 1..];
    DistinctRemoveAt(s, i);
    s[..i] + s[i + 1..]
  }

  /** Dropping one position of a list without repeats leaves no repeat and no copy of that entry. */
  lemma DistinctRemoveAt<T>(s: seq<T>, i: nat)
    requires i < |s|
    ensures Distinct(s) ==> Distinct(s[..i] + s[i + 1..]) && s[i] !in s[..i] + s[i + 1..]
  {
    if Distinct(s) {
      var r := s[..i] + s[i + 1..];
      forall a, b | 0 <= a < b < |r| ensures r[a] != r[b] {
        var a' := if a < i then a else a + 1;
        var b' := if b < i then b else b + 1;
        assert r[a] == s[a'] && r[b] == s[b'];
      }
      forall k | 0 <= k < |r| ensures r[k] != s[i] {
        var k' := if k < i then k else k + 1;
        assert r[k] == s[k'];
      }
    }
  }
}
