/** The id-keyed list edits that the keyframe, shadow-layer and colour-stop
    editors share: `list.filter(e => e.id !== id)` and
    `list.map(e => e.id === id ? { ...e, ...updates } : e)`. */
module Lists {
  import opened Common
  import opened Ordering

  /** The ids of a list, in order. */
  function Keys<T>(s: seq<T>, id: T -> string): (r: seq<string>)
    ensures |r| == |s| && forall i :: 0 <= i < |s| ==> r[i] == id(s[i])
  {
    seq(|s|, i requires 0 <= i < |s| => id(s[i]))
  }

  /** `s.filter(e => id(e) !== x)`: the elements whose id is not `x`, in order. */
  function Without<T(!new)>(s: seq<T>, id: T -> string, x: string): (r: seq<T>)
    ensures |r| <= |s|
    ensures forall e :: e in r <==> e in s && id(e) != x
    ensures x !in Keys(s, id) ==> r == s
  {
    if |s| == 0 then []
    else
      var init, last := s[..|s| - 1], s[|s| - 1];
      var r := Without(init, id, x) + (if id(last) != x then [last] else []);
      assert s == init + [last];
      assert x !in Keys(s, id) ==> x !in Keys(init, id) by {
        if x in Keys(init, id) {
          var i :| 0 <= i < |init| && Keys(init, id)[i] == x;
          assert Keys(s, id)[i] == x;
        }
      }
      r
  }

  /** With distinct ids, removing a present id drops exactly one element,
      and removing an absent one drops nothing. */
  lemma {:induction false} WithoutCount<T(!new)>(s: seq<T>, id: T -> string, x: string)
    requires DistinctBy(s, id)
    ensures |Without(s, id, x)| == if x in Keys(s, id) then |s| - 1 else |s|
  {
    if |s| > 0 {
      var init, last := s[..|s| - 1], s[|s| - 1];
      assert Keys(s, id) == Keys(init, id) + [id(last)];
      assert DistinctBy(init, id);
      WithoutCount(init, id, x);
      if id(last) == x {
        assert forall i :: 0 <= i < |init| ==> Keys(init, id)[i] != id(last) by {
          forall i | 0 <= i < |init| ensures Keys(init, id)[i] != id(last) {
            assert id(s[i]) != id(s[|s| - 1]);
          }
        }
      }
    }
  }

  /** Filtering keeps the relative order, so a sorted list stays sorted. */
  lemma {:induction false} WithoutSorted<T(!new)>(s: seq<T>, id: T -> string, x: string, key: T -> int)
    requires SortedBy(s, key)
    ensures SortedBy(Without(s, id, x), key)
  {
    if |s| > 0 {
      var init, last := s[..|s| - 1], s[|s| - 1];
      assert SortedBy(init, key);
      WithoutSorted(init, id, x, key);
      var w := Without(init, id, x);
      if id(last) != x {
        forall i | 0 <= i < |w| ensures key(w[i]) <= key(last) {
          assert w[i] in init;
          var j :| 0 <= j < |init| && init[j] == w[i];
          assert s[j] == w[i];
        }
        assert Without(s, id, x) == w + [last];
      } else {
        assert Without(s, id, x) == w;
      }
    }
  }

  /** Filtering never makes two ids collide. */
  lemma {:induction false} WithoutDistinct<T(!new)>(s: seq<T>, id: T -> string, x: string)
    requires DistinctBy(s, id)
    ensures DistinctBy(Without(s, id, x), id)
  {
    if |s| > 0 {
      var init, last := s[..|s| - 1], s[|s| - 1];
      assert DistinctBy(init, id);
      WithoutDistinct(init, id, x);
      var w := Without(init, id, x);
      if id(last) != x {
        forall i | 0 <= i < |w| ensures id(w[i]) != id(last) {
          assert w[i] in init;
          var j :| 0 <= j < |init| && init[j] == w[i];
          assert id(s[j]) != id(s[|s| - 1]);
        }
        assert Without(s, id, x) == w + [last];
      } else {
        assert Without(s, id, x) == w;
      }
    }
  }

  /** One step of the filter: the last element is kept unless its id is `x`. */
  lemma WithoutSnoc<T(!new)>(init: seq<T>, last: T, id: T -> string, x: string)
    ensures Without(init + [last], id, x) == Without(init, id, x) + (if id(last) != x then [last] else [])
  {
    assert (init + [last])[..|init|] == init;
  }

  /** Cutting position `k` out of a list, seen from the list without its last element. */
  lemma SliceBeforeLast<T>(s: seq<T>, k: int)
    requires 0 <= k < |s| - 1
    ensures s[..k] + s[k + 1..] == (s[..|s| - 1][..k] + s[..|s| - 1][k + 1..]) + [s[|s| - 1]]
  {
    var init := s[..|s| - 1];
    assert s[..k] == init[..k];
    assert s[k + 1..] == init[k + 1..] + [s[|s| - 1]];
  }

  /** With distinct ids, filtering out the id of the element at `k` removes
      exactly that element and keeps the others in their order. */
  lemma {:induction false} WithoutAt<T(!new)>(s: seq<T>, id: T -> string, k: int)
    requires DistinctBy(s, id) && 0 <= k < |s|
    ensures Without(s, id, id(s[k])) == s[..k] + s[k + 1..]
  {
    var x := id(s[k]);
    var init, last := s[..|s| - 1], s[|s| - 1];
    assert s == init + [last];
    assert DistinctBy(init, id);
    if k == |s| - 1 {
      assert x !in Keys(init, id) by {
        forall i | 0 <= i < |init| ensures Keys(init, id)[i] != x {
          assert id(s[i]) != id(s[k]);
        }
      }
      WithoutSnoc(init, last, id, x);
    } else {
      assert id(last) != x by { assert id(s[k]) != id(s[|s| - 1]); }
      assert init[k] == s[k];
      WithoutAt(init, id, k);
      WithoutSnoc(init, last, id, x);
      SliceBeforeLast(s, k);
    }
  }

  /** `WithoutAt` for every position holding the id. */
  lemma WithoutOne<T(!new)>(s: seq<T>, id: T -> string, x: string)
    ensures DistinctBy(s, id) ==>
              forall k :: 0 <= k < |s| && id(s[k]) == x ==> Without(s, id, x) == s[..k] + s[k + 1..]
  {
    if DistinctBy(s, id) {
      forall k | 0 <= k < |s| && id(s[k]) == x
        ensures Without(s, id, x) == s[..k] + s[k + 1..]
      {
        WithoutAt(s, id, k);
      }
    }
  }

  /** `s.map(e => id(e) === x ? f(e) : e)`: the elements with id `x`
      replaced by their update, every other element left where it was. */
  function MapWhere<T>(s: seq<T>, id: T -> string, x: string, f: T -> T): (r: seq<T>)
    ensures |r| == |s|
    ensures forall i :: 0 <= i < |s| && id(s[i]) != x ==> r[i] == s[i]
    ensures forall i :: 0 <= i < |s| && id(s[i]) == x ==> r[i] == f(s[i])
  {
    seq(|s|, i requires 0 <= i < |s| => if id(s[i]) == x then f(s[i]) else s[i])
  }

  /** An update that keeps ids keeps the list of ids, hence their distinctness;
      an id that is absent leaves the list as it was. */
  lemma MapWhereKeys<T>(s: seq<T>, id: T -> string, x: string, f: T -> T)
    requires forall e :: id(f(e)) == id(e)
    ensures Keys(MapWhere(s, id, x, f), id) == Keys(s, id)
    ensures DistinctBy(s, id) ==> DistinctBy(MapWhere(s, id, x, f), id)
    ensures x !in Keys(s, id) ==> MapWhere(s, id, x, f) == s
  {
    var r := MapWhere(s, id, x, f);
    if DistinctBy(s, id) {
      forall i, j | 0 <= i < j < |r| ensures id(r[i]) != id(r[j]) {
        assert id(s[i]) != id(s[j]);
      }
    }
    if x !in Keys(s, id) {
      forall i | 0 <= i < |s| ensures r[i] == s[i] {
        assert Keys(s, id)[i] == id(s[i]);
      }
    }
  }

  /** The ids a preset gives its records, `Date.now().toString() + i`, are
      pairwise different because different indices print differently. */
  lemma IndexedIdsDistinct<T>(s: seq<T>, id: T -> string, now: string)
    requires forall i :: 0 <= i < |s| ==> id(s[i]) == now + IntToString(i)
    ensures DistinctBy(s, id)
  {
    forall i, j | 0 <= i < j < |s| ensures id(s[i]) != id(s[j]) {
      if id(s[i]) == id(s[j]) {
        assert (now + IntToString(i))[|now|..] == IntToString(i);
        assert (now + IntToString(j))[|now|..] == IntToString(j);
        IntToStringInjective(i, j);
      }
    }
  }

  /** Appending an element whose id is not yet used keeps the ids distinct. */
  lemma AppendFreshDistinct<T>(s: seq<T>, id: T -> string, e: T)
    requires DistinctBy(s, id) && id(e) !in Keys(s, id)
    ensures DistinctBy(s + [e], id)
  {
    var r := s + [e];
    forall i, j | 0 <= i < j < |r| ensures id(r[i]) != id(r[j]) {
      if j == |s| {
        assert Keys(s, id)[i] == id(r[i]);
      } else {
        assert id(s[i]) != id(s[j]);
      }
    }
  }
}
