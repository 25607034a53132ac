/**
 * The two reducer helpers of the workflows package: `merge_dicts`, a
 * right-biased dictionary union that tolerates `None`, and
 * `unique_list_merge`, an order-preserving de-duplicating list union.
 */
module Reducers {
  import opened Wrappers

  /** No element occurs twice. */
  predicate NoDup<T(==)>(s: seq<T>) {
    forall i, j :: 0 <= i < j < |s| ==> s[i] != s[j]
  }

  /** `merge_dicts(a, b)`: `None` on the left yields `b or {}`, on the right `a or {}`, else `{**a, **b}`. */
  function MergeDicts<K, V>(a: Option<map<K, V>>, b: Option<map<K, V>>): (r: map<K, V>)
    ensures a.None? ==> r == b.GetOr(map[])
    ensures a.Some? && b.None? ==> r == a.value
    ensures a.Some? && b.Some? ==> r.Keys == a.value.Keys + b.value.Keys
    ensures a.Some? && b.Some? ==> forall k :: k in b.value ==> r[k] == b.value[k]
    ensures a.Some? && b.Some? ==> forall k :: k in a.value && k !in b.value ==> r[k] == a.value[k]
  {
    match a
    case None => if b.Some? && |b.value| != 0 then b.value else map[]
    case Some(x) =>
      match b
      case None => if |x| != 0 then x else map[]
      case Some(y) => x + y
  }

  /**
   * `list(dict.fromkeys(s))`: keeps the first occurrence of every element.
   * Defined from the back so that each step either keeps or drops the last element.
   */
  function Dedup<T(==)>(s: seq<T>): (r: seq<T>)
    ensures NoDup(r)
    ensures forall i :: 0 <= i < |r| ==> r[i] in s
    ensures forall i :: 0 <= i < |s| ==> s[i] in r
    ensures |r| <= |s|
  {
    if |s| == 0 then []
    else
      var d := Dedup(s[..|s| - 1]);
      if s[|s| - 1] in d then d else d + [s[|s| - 1]]
  }

  /** `unique_list_merge(a, b)`: the elements of both lists, none twice. */
  function UniqueListMerge<T(==)>(a: seq<T>, b: seq<T>): (r: seq<T>)
    ensures NoDup(r)
    ensures forall i :: 0 <= i < |r| ==> r[i] in a || r[i] in b
    ensures forall i :: 0 <= i < |a| ==> a[i] in r
    ensures forall i :: 0 <= i < |b| ==> b[i] in r
  {
    assert forall i :: 0 <= i < |a| ==> a[i] == (a + b)[i];
    assert forall i :: 0 <= i < |b| ==> b[i] == (a + b)[|a| + i];
    Dedup(a + b)
  }

  /** Index of the first occurrence of `x` in `s`. */
  function FirstIndex<T(==)>(s: seq<T>, x: T): (i: nat)
    requires x in s
    ensures i < |s| && s[i] == x && x !in s[..i]
  {
    if s[0] == x then 0 else 1 + FirstIndex(s[1..], x)
  }

  // ---------------------------------------------------------------------------
  // merge_dicts laws

  /** Both `None` arguments behave as the empty dictionary. */
  lemma MergeDictsNone<K, V>(m: Option<map<K, V>>)
    ensures MergeDicts(None, m) == m.GetOr(map[])
    ensures MergeDicts(m, None) == m.GetOr(map[])
  {
  }

  /** `merge_dicts` is associative on dictionaries. */
  lemma MergeDictsAssociative<K, V>(a: map<K, V>, b: map<K, V>, c: map<K, V>)
    ensures MergeDicts(Some(MergeDicts(Some(a), Some(b))), Some(c))
         == MergeDicts(Some(a), Some(MergeDicts(Some(b), Some(c))))
  {
  }

  /** On disjoint key sets the argument order does not matter. */
  lemma MergeDictsCommutesWhenDisjoint<K, V>(a: map<K, V>, b: map<K, V>)
    requires a.Keys !! b.Keys
    ensures MergeDicts(Some(a), Some(b)) == MergeDicts(Some(b), Some(a))
  {
  }

  /** `merge_dicts(x, x) == x` and `{}` is a two-sided identity. */
  lemma MergeDictsIdempotentAndUnit<K, V>(x: map<K, V>)
    ensures MergeDicts(Some(x), Some(x)) == x
    ensures MergeDicts(Some(x), Some(map[])) == x
    ensures MergeDicts(Some(map[]), Some(x)) == x
  {
  }

  /** A dictionary that already holds every entry of `a` absorbs it from the left. */
  lemma MergeDictsAbsorbs<K, V>(a: map<K, V>, c: map<K, V>)
    requires forall k :: k in a ==> k in c
    ensures MergeDicts(Some(a), Some(c)) == c
  {
  }

  // ---------------------------------------------------------------------------
  // Dedup / unique_list_merge laws

  /** `Dedup` keeps exactly the elements of its input. */
  lemma DedupElements<T>(s: seq<T>)
    ensures forall x :: x in Dedup(s) <==> x in s
  {
    var d := Dedup(s);
    forall x | x in s
      ensures x in d
    {
      var i :| 0 <= i < |s| && s[i] == x;
    }
  }

  /** A duplicate-free list is its own de-duplication. */
  lemma {:induction false} DedupOfNoDup<T>(s: seq<T>)
    requires NoDup(s)
    ensures Dedup(s) == s
  {
    if |s| != 0 {
      var p := s[..|s| - 1];
      assert NoDup(p);
      DedupOfNoDup(p);
      assert s[|s| - 1] !in p;
      assert p + [s[|s| - 1]] == s;
    }
  }

  /** De-duplicating a longer list only appends: `Dedup(x)` is a prefix of `Dedup(x + y)`. */
  lemma {:induction false} DedupPrefix<T>(x: seq<T>, y: seq<T>)
    ensures |Dedup(x)| <= |Dedup(x + y)|
    ensures Dedup(x + y)[..|Dedup(x)|] == Dedup(x)
  {
    if |y| == 0 {
      assert x + y == x;
    } else {
      var y' := y[..|y| - 1];
      DedupPrefix(x, y');
      assert (x + y)[..|x + y| - 1] == x + y';
    }
  }

  /** Appending only elements already present changes nothing. */
  lemma {:induction false} DedupAbsorbs<T>(x: seq<T>, y: seq<T>)
    requires forall e :: e in y ==> e in x
    ensures Dedup(x + y) == Dedup(x)
  {
    if |y| == 0 {
      assert x + y == x;
    } else {
      var y' := y[..|y| - 1];
      DedupAbsorbs(x, y');
      assert (x + y)[..|x + y| - 1] == x + y';
      assert (x + y)[|x + y| - 1] == y[|y| - 1];
      DedupElements(x);
    }
  }

  /** Appending `z` keeps the first occurrence of every element already present. */
  lemma {:induction false} FirstIndexAppend<T>(s: seq<T>, z: T, x: T)
    requires x in s
    ensures FirstIndex(s + [z], x) == FirstIndex(s, x)
  {
    if s[0] != x {
      assert (s + [z])[1..] == s[1..] + [z];
      FirstIndexAppend(s[1..], z, x);
    }
  }

  /** One step of `Dedup`: an element is appended unless it was already kept. */
  lemma DedupSnoc<T>(s: seq<T>, e: T)
    ensures Dedup(s + [e]) == if e in Dedup(s) then Dedup(s) else Dedup(s) + [e]
  {
    assert (s + [e])[..|s|] == s;
  }

  /** A non-empty suffix splits into its front and its last element. */
  lemma AppendLast<T>(x: seq<T>, z: seq<T>)
    requires |z| != 0
    ensures x + z == (x + z[..|z| - 1]) + [z[|z| - 1]]
  {
  }

  /** Every prefix of a duplicate-free list is duplicate-free. */
  lemma NoDupPrefix<T>(c: seq<T>, n: nat)
    requires NoDup(c) && n <= |c|
    ensures NoDup(c[..n])
  {
  }

  /** De-duplication only depends on what was already kept: equal `Dedup`s stay equal under appending. */
  lemma {:induction false} DedupCongruent<T>(x: seq<T>, y: seq<T>, z: seq<T>)
    requires Dedup(x) == Dedup(y)
    ensures Dedup(x + z) == Dedup(y + z)
  {
    if |z| == 0 {
      assert x + z == x && y + z == y;
    } else {
      var z' := z[..|z| - 1];
      var e := z[|z| - 1];
      DedupCongruent(x, y, z');
      AppendLast(x, z);
      AppendLast(y, z);
      DedupSnoc(x + z', e);
      DedupSnoc(y + z', e);
    }
  }

  /** A duplicate-free list repeated twice de-duplicates to itself. */
  lemma DedupDoubled<T>(p: seq<T>)
    requires NoDup(p)
    ensures Dedup(p + p) == p && Dedup(p) == p
  {
    DedupAbsorbs(p, p);
    DedupOfNoDup(p);
  }

  /** Splitting `c` after its prefix `p`. */
  lemma SplitAfterPrefix<T>(p: seq<T>, c: seq<T>)
    requires |p| <= |c| && c[..|p|] == p
    ensures c == p + c[|p|..]
    ensures p + c == (p + p) + c[|p|..]
  {
    assert c == p + c[|p|..];
  }

  /** A duplicate-free list that extends `p` absorbs a second copy of `p` in front of it. */
  lemma DedupRepeatedPrefix<T>(p: seq<T>, c: seq<T>)
    requires NoDup(c) && |p| <= |c| && c[..|p|] == p
    ensures Dedup(p + c) == c
  {
    var e := c[|p|..];
    SplitAfterPrefix(p, c);
    NoDupPrefix(c, |p|);
    DedupDoubled(p);
    DedupCongruent(p + p, p, e);
    DedupOfNoDup(c);
  }

  /**
   * `Dedup` lists elements in the order of their first occurrence in the input;
   * together with `NoDup` and set equality this fixes `Dedup(s)` uniquely.
   */
  lemma {:induction false} DedupFirstOccurrenceOrder<T>(s: seq<T>)
    ensures forall i, j :: 0 <= i < j < |Dedup(s)| ==>
      FirstIndex(s, Dedup(s)[i]) < FirstIndex(s, Dedup(s)[j])
  {
    if |s| != 0 {
      var p := s[..|s| - 1];
      var z := s[|s| - 1];
      assert p + [z] == s;
      var d := Dedup(p);
      DedupFirstOccurrenceOrder(p);
      forall e | e in d
        ensures FirstIndex(s, e) == FirstIndex(p, e) < |p|
      {
        FirstIndexAppend(p, z, e);
      }
      if z !in d {
        assert z !in p;
        assert FirstIndex(s, z) == |p| by {
          var k := FirstIndex(s, z);
          assert s[..|p|] == p;
          forall i | 0 <= i < |p|
            ensures s[i] != z
          {
            assert s[i] == p[i];
          }
        }
        forall i, j | 0 <= i < j < |Dedup(s)|
          ensures FirstIndex(s, Dedup(s)[i]) < FirstIndex(s, Dedup(s)[j])
        {
          assert Dedup(s) == d + [z];
          assert Dedup(s)[i] == d[i];
          if j < |d| {
            assert Dedup(s)[j] == d[j];
          }
        }
      }
    }
  }

  /** `unique_list_merge` keeps the left list intact as a prefix when it has no duplicates. */
  lemma UniqueListMergeKeepsLeft<T>(a: seq<T>, b: seq<T>)
    requires NoDup(a)
    ensures |a| <= |UniqueListMerge(a, b)|
    ensures UniqueListMerge(a, b)[..|a|] == a
  {
    DedupPrefix(a, b);
    DedupOfNoDup(a);
  }

  /** The merge is duplicate-free, holds exactly the elements of both lists, in first-occurrence order. */
  lemma UniqueListMergeContents<T>(a: seq<T>, b: seq<T>)
    ensures NoDup(UniqueListMerge(a, b))
    ensures forall x :: x in UniqueListMerge(a, b) <==> x in a || x in b
    ensures forall i, j :: 0 <= i < j < |UniqueListMerge(a, b)| ==>
      FirstIndex(a + b, UniqueListMerge(a, b)[i]) < FirstIndex(a + b, UniqueListMerge(a, b)[j])
  {
    DedupElements(a + b);
    DedupFirstOccurrenceOrder(a + b);
  }

  /** Merging the result with `b` a second time changes nothing. */
  lemma UniqueListMergeIdempotent<T>(a: seq<T>, b: seq<T>)
    ensures UniqueListMerge(UniqueListMerge(a, b), b) == UniqueListMerge(a, b)
  {
    DedupElements(a + b);
    DedupAbsorbs(UniqueListMerge(a, b), b);
    DedupOfNoDup(UniqueListMerge(a, b));
  }

  /** `unique_list_merge(x, x)` is `x` de-duplicated, so it is `x` exactly when `x` has no duplicates. */
  lemma UniqueListMergeSelf<T>(x: seq<T>)
    ensures UniqueListMerge(x, x) == Dedup(x)
    ensures UniqueListMerge(x, x) == x <==> NoDup(x)
  {
    DedupAbsorbs(x, x);
    if NoDup(x) {
      DedupOfNoDup(x);
    }
  }

  /** The documented example: `["a", "b"]` merged with `["b", "c"]` is `["a", "b", "c"]`. */
  lemma UniqueListMergeExample()
    ensures UniqueListMerge(["a", "b"], ["b", "c"]) == ["a", "b", "c"]
  {
    var s := ["a", "b"] + ["b", "c"];
    assert s[..3] == ["a", "b", "b"];
    assert s[..2] == ["a", "b"];
    assert s[..1] == ["a"];
    assert Dedup(s[..1]) == ["a"];
    assert Dedup(s[..2]) == ["a", "b"];
    assert Dedup(s[..3]) == ["a", "b"];
  }
}
