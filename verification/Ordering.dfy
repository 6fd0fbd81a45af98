/**
 The total order behind every ORDER BY of the service: three integer columns, compared
 lexicographically, the last one being the primary key.  Smallest is ORDER BY ... LIMIT.
 */
module Ordering {
  datatype Key = Key(major: int, minor: int, tie: int)

  predicate Before(x: Key, y: Key) {
    || x.major < y.major
    || (x.major == y.major && x.minor < y.minor)
    || (x.major == y.major && x.minor == y.minor && x.tie < y.tie)
  }

  predicate Ascending(keys: seq<Key>) {
    forall i, j :: 0 <= i < j < |keys| ==> Before(keys[i], keys[j])
  }

  predicate IsLeast(s: set<Key>, m: Key) {
    m in s && forall k | k in s && k != m :: Before(m, k)
  }

  lemma {:induction false} LeastExists(s: set<Key>)
    requires s != {}
    ensures exists m :: IsLeast(s, m)
    decreases |s|
  {
    var x :| x in s;
    if s == {x} {
      assert IsLeast(s, x);
    } else {
      var rest := s - {x};
      assert rest != {};
      LeastExists(rest);
      var m :| IsLeast(rest, m);
      assert s == rest + {x};
      if Before(x, m) {
        assert IsLeast(s, x);
      } else {
        assert IsLeast(s, m);
      }
    }
  }

  function Least(s: set<Key>): (m: Key)
    requires s != {}
    ensures IsLeast(s, m)
  {
    LeastExists(s);
    var m :| m in s && IsLeast(s, m);
    m
  }

  /** The first limit keys of s, in ascending order. */
  function Smallest(s: set<Key>, limit: nat): (r: seq<Key>)
    ensures forall i :: 0 <= i < |r| ==> r[i] in s
    ensures Ascending(r)
    ensures |r| == if |s| < limit then |s| else limit
    ensures forall k, i :: k in s && k !in r && 0 <= i < |r| ==> Before(r[i], k)
    decreases limit
  {
    if limit == 0 || s == {} then []
    else
      var m := Least(s);
      var rest := Smallest(s - {m}, limit - 1);
      assert |s - {m}| == |s| - 1;
      [m] + rest
  }

  /** A short page is a complete page. */
  lemma SmallestIsComplete(s: set<Key>, limit: nat)
    ensures |s| <= limit || |Smallest(s, limit)| < limit ==> forall k :: k in s ==> k in Smallest(s, limit)
  {
    var r := Smallest(s, limit);
    var taken := set k | k in r;
    AscendingHasNoDuplicates(r);
    assert taken <= s;
    if |s| <= limit || |r| < limit {
      SubsetOfEqualSize(taken, s);
    }
  }

  lemma {:induction false} AscendingHasNoDuplicates(r: seq<Key>)
    requires Ascending(r)
    ensures |set k | k in r| == |r|
  {
    if r != [] {
      var last := r[|r| - 1];
      var init := r[..|r| - 1];
      AscendingHasNoDuplicates(init);
      assert (set k | k in r) == (set k | k in init) + {last};
      assert last !in init;
    }
  }

  lemma SubsetOfEqualSize<T>(small: set<T>, big: set<T>)
    requires small <= big && |small| == |big|
    ensures small == big
  {
    assert |big - small| == |big| - |small|;
    assert big - small == {};
  }

  /** Ascending lists are determined by their members. */
  lemma {:induction false} AscendingIsUnique(x: seq<Key>, y: seq<Key>)
    requires Ascending(x) && Ascending(y)
    requires forall k :: k in x <==> k in y
    ensures x == y
    decreases |x|
  {
    if x == [] || y == [] {
      HasMember(x);
      HasMember(y);
    } else {
      assert x[0] in y && y[0] in x;
      assert x[0] == y[0];
      forall k ensures k in x[1..] <==> k in y[1..] {
        TailMembers(x, k);
        TailMembers(y, k);
      }
      AscendingIsUnique(x[1..], y[1..]);
      assert x == [x[0]] + x[1..] && y == [y[0]] + y[1..];
    }
  }

  lemma HasMember(x: seq<Key>)
    ensures x != [] ==> exists k :: k in x
  {
    if x != [] {
      assert x[0] in x;
    }
  }

  lemma TailMembers(x: seq<Key>, k: Key)
    requires Ascending(x) && x != []
    ensures k in x[1..] <==> k in x && k != x[0]
  {
  }

  lemma JoinAscends(page: seq<Key>, more: seq<Key>)
    requires Ascending(page) && Ascending(more) && page != []
    requires forall k :: k in more ==> Before(page[|page| - 1], k)
    ensures Ascending(page + more)
  {
    forall i, j | 0 <= i < j < |page + more| ensures Before((page + more)[i], (page + more)[j]) {
      if i < |page| <= j {
        assert more[j - |page|] in more;
      }
    }
  }

  /** A first page and everything after its last key make the whole list. */
  lemma SmallestSplits(s: set<Key>, limit: nat, rest: set<Key>)
    requires 0 < limit < |s|
    requires forall k :: k in rest <==> k in s && Before(Smallest(s, limit)[limit - 1], k)
    ensures Smallest(s, |s|) == Smallest(s, limit) + Smallest(rest, |rest|)
  {
    hide Smallest;
    var page, more, all := Smallest(s, limit), Smallest(rest, |rest|), Smallest(s, |s|);
    SmallestIsComplete(s, |s|);
    SmallestIsComplete(rest, |rest|);
    JoinAscends(page, more);
    forall k ensures k in all <==> k in page + more {
      assert k in page + more <==> k in page || k in more;
    }
    AscendingIsUnique(all, page + more);
  }

  /** A key missing from the first limit places of a page one longer comes after them, and the page is full. */
  lemma MissedKey(s: set<Key>, limit: nat, r: seq<Key>, k: Key)
    requires 1 <= limit && k in s && r == Smallest(s, limit + 1)
    requires forall i :: 0 <= i < |r| && i < limit ==> r[i] != k
    ensures |r| == limit + 1 && Before(r[limit - 1], k)
  {
    SmallestIsComplete(s, limit + 1);
    if k in r {
      var n :| 0 <= n < |r| && r[n] == k;
      assert n == limit;
    }
  }
}
