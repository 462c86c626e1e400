/** Python's `list.sort(key=..., reverse=True)` on ranking entries: a stable
    sort into non-increasing key order, modelled as an insertion sort. */
module StableSort {
  import opened Ranking

  /** The two sort keys the leaderboards use. */
  datatype SortKey = ByIntensity | ByGrowth

  function Key(e: Entry, k: SortKey): real
  {
    match k
    case ByIntensity => e.intensity
    case ByGrowth => e.growth
  }

  /** Keys never increase along the sequence. */
  predicate Sorted(s: seq<Entry>, k: SortKey)
  {
    forall i, j :: 0 <= i < j < |s| ==> Key(s[i], k) >= Key(s[j], k)
  }

  /** The elements of `s` whose key equals `v`, in their order in `s`. */
  function KeyFilter(s: seq<Entry>, k: SortKey, v: real): (r: seq<Entry>)
    ensures |r| <= |s|
  {
    if |s| == 0 then []
    else (if Key(s[0], k) == v then [s[0]] else []) + KeyFilter(s[1..], k, v)
  }

  /** Reference definition of a stable descending sort: `r` is sorted and,
      for every key value, lists the elements with that key in the order
      they have in `s`. */
  ghost predicate IsStableSortDesc(r: seq<Entry>, s: seq<Entry>, k: SortKey)
  {
    Sorted(r, k) && forall v :: KeyFilter(r, k, v) == KeyFilter(s, k, v)
  }

  /** Places `x` in front of the first element whose key is not larger, so
      that `x` precedes the elements of equal key that follow it. */
  function Insert(x: Entry, t: seq<Entry>, k: SortKey): (r: seq<Entry>)
    ensures |r| == |t| + 1
  {
    if |t| == 0 then [x]
    else if Key(t[0], k) > Key(x, k) then [t[0]] + Insert(x, t[1..], k)
    else [x] + t
  }

  /** `Insert(x, t, k)` is a permutation of `[x] + t`. */
  lemma {:induction false} InsertPermutes(x: Entry, t: seq<Entry>, k: SortKey)
    ensures multiset(Insert(x, t, k)) == multiset(t) + multiset{x}
    decreases |t|
  {
    if |t| > 0 && Key(t[0], k) > Key(x, k) {
      InsertPermutes(x, t[1..], k);
      assert t == [t[0]] + t[1..];
    }
  }

  /** The elements of `Insert(x, t, k)` are `x` and those of `t`. */
  lemma {:induction false} InsertMembers(x: Entry, t: seq<Entry>, k: SortKey, e: Entry)
    ensures e in Insert(x, t, k) <==> e == x || e in t
    decreases |t|
  {
    if |t| > 0 && Key(t[0], k) > Key(x, k) {
      InsertMembers(x, t[1..], k, e);
      assert t == [t[0]] + t[1..];
    }
  }

  /** Insertion into a sorted sequence yields a sorted sequence. */
  lemma {:induction false} InsertSorted(x: Entry, t: seq<Entry>, k: SortKey)
    requires Sorted(t, k)
    ensures Sorted(Insert(x, t, k), k)
    decreases |t|
  {
    if |t| == 0 {
    } else if Key(t[0], k) > Key(x, k) {
      SortedTail(t, k);
      InsertSorted(x, t[1..], k);
      var rest := Insert(x, t[1..], k);
      var r := [t[0]] + rest;
      assert r == Insert(x, t, k);
      forall i, j | 0 <= i < j < |r|
        ensures Key(r[i], k) >= Key(r[j], k)
      {
        assert r[j] == rest[j - 1];
        if i > 0 {
          assert r[i] == rest[i - 1];
        } else {
          InsertMembers(x, t[1..], k, r[j]);
          if r[j] != x {
            HeadIsLargest(t, k, r[j]);
          }
        }
      }
    } else {
      var r := [x] + t;
      assert r == Insert(x, t, k);
      forall i, j | 0 <= i < j < |r|
        ensures Key(r[i], k) >= Key(r[j], k)
      {
        assert r[j] == t[j - 1];
        if i > 0 {
          assert r[i] == t[i - 1];
        } else {
          HeadIsLargest(t, k, t[j - 1]);
        }
      }
    }
  }

  /** Stable sort into non-increasing key order: a permutation of `s` with
      keys in non-increasing order. */
  function SortDesc(s: seq<Entry>, k: SortKey): (r: seq<Entry>)
    ensures |r| == |s|
    ensures multiset(r) == multiset(s)
    ensures Sorted(r, k)
  {
    if |s| == 0 then []
    else
      assert s == [s[0]] + s[1..];
      var t := SortDesc(s[1..], k);
      InsertSorted(s[0], t, k);
      InsertPermutes(s[0], t, k);
      Insert(s[0], t, k)
  }

  /** Inserting `x` adds it at the head of its own key class and leaves every
      other key class alone. */
  lemma {:induction false} InsertKeyFilter(x: Entry, t: seq<Entry>, k: SortKey, v: real)
    ensures KeyFilter(Insert(x, t, k), k, v)
         == (if Key(x, k) == v then [x] else []) + KeyFilter(t, k, v)
    decreases |t|
  {
    if |t| == 0 {
      KeyFilterCons(x, [], k, v);
    } else if Key(t[0], k) > Key(x, k) {
      var rest := Insert(x, t[1..], k);
      InsertKeyFilter(x, t[1..], k, v);
      assert Insert(x, t, k) == [t[0]] + rest;
      KeyFilterCons(t[0], rest, k, v);
      assert t == [t[0]] + t[1..];
      KeyFilterCons(t[0], t[1..], k, v);
      // `x` and `t[0]` have different keys, so at most one of them is in the class
      var tail := KeyFilter(t[1..], k, v);
      if Key(x, k) == v {
        assert KeyFilter(Insert(x, t, k), k, v) == [] + ([x] + tail);
        assert KeyFilter(t, k, v) == [] + tail;
      } else if Key(t[0], k) == v {
        assert KeyFilter(Insert(x, t, k), k, v) == [t[0]] + ([] + tail);
        assert KeyFilter(t, k, v) == [t[0]] + tail;
      } else {
        assert KeyFilter(Insert(x, t, k), k, v) == [] + ([] + tail);
        assert KeyFilter(t, k, v) == [] + tail;
      }
    } else {
      assert Insert(x, t, k) == [x] + t;
      KeyFilterCons(x, t, k, v);
    }
  }

  /** The key class of `[x] + s`. */
  lemma KeyFilterCons(x: Entry, s: seq<Entry>, k: SortKey, v: real)
    ensures KeyFilter([x] + s, k, v) == (if Key(x, k) == v then [x] else []) + KeyFilter(s, k, v)
  {
    assert ([x] + s)[1..] == s;
  }

  /** Equal keys keep their relative order. */
  lemma {:induction false} SortDescStable(s: seq<Entry>, k: SortKey, v: real)
    ensures KeyFilter(SortDesc(s, k), k, v) == KeyFilter(s, k, v)
    decreases |s|
  {
    if |s| > 0 {
      SortDescStable(s[1..], k, v);
      InsertKeyFilter(s[0], SortDesc(s[1..], k), k, v);
    }
  }

  /** The model's sort meets the reference definition. */
  lemma SortDescIsStableSort(s: seq<Entry>, k: SortKey)
    ensures IsStableSortDesc(SortDesc(s, k), s, k)
  {
    forall v
      ensures KeyFilter(SortDesc(s, k), k, v) == KeyFilter(s, k, v)
    {
      SortDescStable(s, k, v);
    }
  }

  /** Membership in a key class. */
  lemma {:induction false} KeyFilterMembers(s: seq<Entry>, k: SortKey, v: real, e: Entry)
    ensures e in KeyFilter(s, k, v) <==> e in s && Key(e, k) == v
    decreases |s|
  {
    if |s| > 0 {
      KeyFilterMembers(s[1..], k, v, e);
      assert s == [s[0]] + s[1..];
    }
  }

  /** The head of a sorted sequence carries its largest key. */
  lemma HeadIsLargest(s: seq<Entry>, k: SortKey, e: Entry)
    requires Sorted(s, k) && e in s
    ensures |s| > 0
    ensures Key(e, k) <= Key(s[0], k)
  {
    var j :| 0 <= j < |s| && s[j] == e;
    if j > 0 {
      assert Key(s[0], k) >= Key(s[j], k);
    }
  }

  /** A stable descending sort is unique: two sorted sequences with the same
      key classes are equal. So the ranking views are fully determined by the
      entry list and its order. */
  lemma {:induction false} StableSortUnique(a: seq<Entry>, b: seq<Entry>, k: SortKey)
    requires Sorted(a, k) && Sorted(b, k)
    requires forall v :: KeyFilter(a, k, v) == KeyFilter(b, k, v)
    ensures a == b
    decreases |a|
  {
    if |a| == 0 || |b| == 0 {
      // a non-empty side has a non-empty key class that the other side lacks
      if |a| > 0 {
        KeyFilterHead(a, k);
        assert false;
      }
      if |b| > 0 {
        KeyFilterHead(b, k);
        assert false;
      }
    } else {
      HeadsAgree(a, b, k);
      TailClassesAgree(a, b, k);
      SortedTail(a, k);
      SortedTail(b, k);
      StableSortUnique(a[1..], b[1..], k);
      assert a == [a[0]] + a[1..] && b == [b[0]] + b[1..];
    }
  }

  /** Two sorted sequences with the same key classes start with the same
      element: the first element of the class of the largest key. */
  lemma HeadsAgree(a: seq<Entry>, b: seq<Entry>, k: SortKey)
    requires |a| > 0 && |b| > 0 && Sorted(a, k) && Sorted(b, k)
    requires forall v :: KeyFilter(a, k, v) == KeyFilter(b, k, v)
    ensures a[0] == b[0]
  {
    var m := Key(a[0], k);
    // each head belongs to the other sequence, so both heads carry the largest key
    KeyFilterMembers(a, k, Key(b[0], k), b[0]);
    KeyFilterMembers(b, k, Key(b[0], k), b[0]);
    assert KeyFilter(a, k, Key(b[0], k)) == KeyFilter(b, k, Key(b[0], k));
    HeadIsLargest(a, k, b[0]);
    KeyFilterMembers(a, k, m, a[0]);
    KeyFilterMembers(b, k, m, a[0]);
    assert KeyFilter(a, k, m) == KeyFilter(b, k, m);
    HeadIsLargest(b, k, a[0]);
    assert Key(b[0], k) == m;
    // the heads are the first elements of the class of the largest key
    KeyFilterHead(a, k);
    KeyFilterHead(b, k);
    assert KeyFilter(a, k, m)[0] == a[0] && KeyFilter(b, k, m)[0] == b[0];
  }

  /** Removing a common head keeps the key classes equal. */
  lemma TailClassesAgree(a: seq<Entry>, b: seq<Entry>, k: SortKey)
    requires |a| > 0 && |b| > 0 && a[0] == b[0]
    requires forall v :: KeyFilter(a, k, v) == KeyFilter(b, k, v)
    ensures forall v :: KeyFilter(a[1..], k, v) == KeyFilter(b[1..], k, v)
  {
    forall v
      ensures KeyFilter(a[1..], k, v) == KeyFilter(b[1..], k, v)
    {
      assert a == [a[0]] + a[1..] && b == [a[0]] + b[1..];
      KeyFilterCons(a[0], a[1..], k, v);
      KeyFilterCons(a[0], b[1..], k, v);
      var head := if Key(a[0], k) == v then [a[0]] else [];
      assert head + KeyFilter(a[1..], k, v) == head + KeyFilter(b[1..], k, v);
      assert (head + KeyFilter(a[1..], k, v))[|head|..] == KeyFilter(a[1..], k, v);
      assert (head + KeyFilter(b[1..], k, v))[|head|..] == KeyFilter(b[1..], k, v);
    }
  }

  /** The key class of the head starts with the head. */
  lemma KeyFilterHead(s: seq<Entry>, k: SortKey)
    requires |s| > 0
    ensures KeyFilter(s, k, Key(s[0], k)) == [s[0]] + KeyFilter(s[1..], k, Key(s[0], k))
  {
  }

  lemma SortedTail(s: seq<Entry>, k: SortKey)
    requires |s| > 0 && Sorted(s, k)
    ensures Sorted(s[1..], k)
  {
    forall i, j | 0 <= i < j < |s[1..]|
      ensures Key(s[1..][i], k) >= Key(s[1..][j], k)
    {
      assert s[1..][i] == s[i + 1] && s[1..][j] == s[j + 1];
    }
  }

  /** Any stable descending sort of `s` is the model's sort. */
  lemma StableSortIsSortDesc(r: seq<Entry>, s: seq<Entry>, k: SortKey)
    requires IsStableSortDesc(r, s, k)
    ensures r == SortDesc(s, k)
  {
    SortDescIsStableSort(s, k);
    StableSortUnique(r, SortDesc(s, k), k);
  }

  /** Among elements with equal primary key, the secondary key never increases. */
  predicate TieSorted(s: seq<Entry>, k: SortKey, k2: SortKey)
  {
    forall i, j :: 0 <= i < j < |s| && Key(s[i], k) == Key(s[j], k) ==> Key(s[i], k2) >= Key(s[j], k2)
  }

  /** Inserting an element whose secondary key dominates keeps ties ordered. */
  lemma {:induction false} InsertTieSorted(x: Entry, t: seq<Entry>, k: SortKey, k2: SortKey)
    requires TieSorted(t, k, k2)
    requires forall e :: e in t ==> Key(e, k2) <= Key(x, k2)
    ensures TieSorted(Insert(x, t, k), k, k2)
    decreases |t|
  {
    if |t| == 0 {
    } else if Key(t[0], k) > Key(x, k) {
      var rest := Insert(x, t[1..], k);
      TieSortedTail(t, k, k2);
      InsertTieSorted(x, t[1..], k, k2);
      forall e | e in rest && Key(e, k) == Key(t[0], k)
        ensures Key(e, k2) <= Key(t[0], k2)
      {
        InsertMembers(x, t[1..], k, e);
        var m :| 0 <= m < |t[1..]| && t[1..][m] == e;
        assert t[m + 1] == e;
      }
      ConsTieSorted(t[0], rest, k, k2);
      assert Insert(x, t, k) == [t[0]] + rest;
    } else {
      ConsTieSorted(x, t, k, k2);
    }
  }

  /** An element in front of a tie-sorted sequence keeps it tie-sorted when
      it dominates, on the secondary key, everything that ties with it. */
  lemma ConsTieSorted(y: Entry, s: seq<Entry>, k: SortKey, k2: SortKey)
    requires TieSorted(s, k, k2)
    requires forall e :: e in s && Key(e, k) == Key(y, k) ==> Key(e, k2) <= Key(y, k2)
    ensures TieSorted([y] + s, k, k2)
  {
    var r := [y] + s;
    forall i, j | 0 <= i < j < |r| && Key(r[i], k) == Key(r[j], k)
      ensures Key(r[i], k2) >= Key(r[j], k2)
    {
      assert r[j] == s[j - 1];
      if i > 0 {
        assert r[i] == s[i - 1];
      }
    }
  }

  lemma TieSortedTail(s: seq<Entry>, k: SortKey, k2: SortKey)
    requires |s| > 0 && TieSorted(s, k, k2)
    ensures TieSorted(s[1..], k, k2)
  {
    forall i, j | 0 <= i < j < |s[1..]| && Key(s[1..][i], k) == Key(s[1..][j], k)
      ensures Key(s[1..][i], k2) >= Key(s[1..][j], k2)
    {
      assert s[1..][i] == s[i + 1] && s[1..][j] == s[j + 1];
    }
  }

  /** Sorting by `k` a sequence already sorted by `k2` leaves each tie on `k`
      in `k2` order: ties on growth keep the intensity order. */
  lemma {:induction false} ResortKeepsTieOrder(s: seq<Entry>, k: SortKey, k2: SortKey)
    requires Sorted(s, k2)
    ensures TieSorted(SortDesc(s, k), k, k2)
    decreases |s|
  {
    if |s| > 0 {
      SortedTail(s, k2);
      ResortKeepsTieOrder(s[1..], k, k2);
      var t := SortDesc(s[1..], k);
      forall e | e in t
        ensures Key(e, k2) <= Key(s[0], k2)
      {
        assert e in multiset(t);
        assert e in multiset(s[1..]);
        var m :| 0 <= m < |s[1..]| && s[1..][m] == e;
        assert s[m + 1] == e;
      }
      InsertTieSorted(s[0], t, k, k2);
    }
  }
}
