/** Lists of message UIDs: the order a mailbox keeps them in, removal of
    moved messages, and the runs of UIDs a destination hands out. */
module UidLists {

  /** Entry `i` of `s` is below entry `j` whenever it comes first. */
  ghost predicate InOrder(s: seq<int>, i: int, j: int)
  {
    0 <= i < j < |s| ==> s[i] < s[j]
  }

  /** Strictly ascending: the order in which a mailbox lists its UIDs. The
      quantifier fires only where a proof names `InOrder`; left to fire on
      every pair of indexed entries it swamps the proofs about the command. */
  ghost predicate Ascending(s: seq<int>)
  {
    forall i, j {:trigger InOrder(s, i, j)} :: InOrder(s, i, j)
  }

  /** Entry `k` of `s`, if there is one, is a UID below `hi` (UIDs are positive). */
  ghost predicate InRange(s: seq<int>, k: int, hi: int)
  {
    0 <= k < |s| ==> 0 < s[k] < hi
  }

  /** Every UID listed in `s` is positive and below `hi`. */
  ghost predicate AllInRange(s: seq<int>, hi: int)
  {
    forall k {:trigger InRange(s, k, hi)} :: InRange(s, k, hi)
  }

  /** The entries among the first `n` of `s` that do not occur in `drop`, in order. */
  function Kept(s: seq<int>, drop: seq<int>, n: nat): (r: seq<int>)
    requires n <= |s|
    ensures |r| <= n
  {
    if n == 0 then []
    else if s[n - 1] in drop then Kept(s, drop, n - 1)
    else Kept(s, drop, n - 1) + [s[n - 1]]
  }

  /** `s` with every UID that occurs in `drop` taken out, the rest kept in
      order (what it holds is stated by `WithoutMembers`). */
  function Without(s: seq<int>, drop: seq<int>): (r: seq<int>)
    ensures |r| <= |s|
  {
    Kept(s, drop, |s|)
  }

  /** The `n` UIDs `start, start + 1, ...` a destination counter hands out in turn. */
  function Consecutive(start: int, n: nat): (r: seq<int>)
    ensures |r| == n
  {
    if n == 0 then [] else Consecutive(start, n - 1) + [start + n - 1]
  }

  /** The run holds exactly the UIDs from `start` up to, not including, `start + n`. */
  lemma {:induction false} ConsecutiveMembers(start: int, n: nat, u: int)
    ensures u in Consecutive(start, n) <==> start <= u < start + n
  {
    if n > 0 {
      ConsecutiveMembers(start, n - 1, u);
    }
  }

  /** The entries kept from a prefix are those of the prefix not in `drop`. */
  lemma {:induction false} KeptMembers(s: seq<int>, drop: seq<int>, n: nat, u: int)
    requires n <= |s|
    ensures u in Kept(s, drop, n) <==> (exists i :: 0 <= i < n && s[i] == u) && u !in drop
  {
    if n > 0 {
      KeptMembers(s, drop, n - 1, u);
      if s[n - 1] == u {
        assert exists i :: 0 <= i < n && s[i] == u;
      }
    }
  }

  /** A UID survives the removal exactly when it was listed and not removed. */
  lemma WithoutMembers(s: seq<int>, drop: seq<int>, u: int)
    ensures u in Without(s, drop) <==> u in s && u !in drop
  {
    KeptMembers(s, drop, |s|, u);
  }

  /** A UID above the last listed one can go at the end of the listing. */
  lemma AscendingAppend(s: seq<int>, x: int)
    requires Ascending(s)
    requires s != [] ==> s[|s| - 1] < x
    ensures Ascending(s + [x])
  {
    var r := s + [x];
    forall i, j ensures InOrder(r, i, j) {
      if 0 <= i < j < |r| {
        assert r[i] == s[i];
        if j < |s| {
          assert InOrder(s, i, j);
        } else if i < |s| - 1 {
          assert InOrder(s, i, |s| - 1);
        }
      }
    }
  }

  /** Taking UIDs out of a listing keeps it within its bounds. */
  lemma WithoutInRange(s: seq<int>, drop: seq<int>, hi: int)
    requires AllInRange(s, hi)
    ensures AllInRange(Without(s, drop), hi)
  {
    var r := Without(s, drop);
    forall k ensures InRange(r, k, hi) {
      if 0 <= k < |r| {
        WithoutMembers(s, drop, r[k]);
        var m :| 0 <= m < |s| && s[m] == r[k];
        assert InRange(s, m, hi);
      }
    }
  }

  /** A UID above a listing's bound can be appended once the bound is raised past it. */
  lemma AppendInRange(s: seq<int>, x: int, hi: int)
    requires AllInRange(s, x) && 0 < x < hi
    ensures AllInRange(s + [x], hi)
  {
    forall k ensures InRange(s + [x], k, hi) {
      assert InRange(s, k, x);
    }
  }

  /** The kept entries of an ascending listing are ascending. */
  lemma {:induction false} KeptAscending(s: seq<int>, drop: seq<int>, n: nat)
    requires n <= |s|
    requires Ascending(s)
    ensures Ascending(Kept(s, drop, n))
  {
    if n > 0 {
      KeptAscending(s, drop, n - 1);
      var prev := Kept(s, drop, n - 1);
      if s[n - 1] !in drop {
        if prev != [] {
          KeptMembers(s, drop, n - 1, prev[|prev| - 1]);
          var m :| 0 <= m < n - 1 && s[m] == prev[|prev| - 1];
          assert InOrder(s, m, n - 1);
        }
        AscendingAppend(prev, s[n - 1]);
      }
    }
  }

  /** Taking messages out of an ascending listing leaves it ascending. */
  lemma WithoutAscending(s: seq<int>, drop: seq<int>)
    requires Ascending(s)
    ensures Ascending(Without(s, drop))
  {
    KeptAscending(s, drop, |s|);
  }

  /** Entries appended after the first `n` do not change what is kept of them. */
  lemma {:induction false} KeptPrefix(a: seq<int>, b: seq<int>, drop: seq<int>, n: nat)
    requires n <= |a|
    ensures Kept(a + b, drop, n) == Kept(a, drop, n)
  {
    if n > 0 {
      KeptPrefix(a, b, drop, n - 1);
      assert (a + b)[n - 1] == a[n - 1];
    }
  }

  /** What is kept of a concatenation, up to `k` entries into its second part. */
  lemma {:induction false} KeptSplit(a: seq<int>, b: seq<int>, drop: seq<int>, k: nat)
    requires k <= |b|
    ensures Kept(a + b, drop, |a| + k) == Kept(a, drop, |a|) + Kept(b, drop, k)
  {
    if k == 0 {
      KeptPrefix(a, b, drop, |a|);
    } else {
      KeptSplit(a, b, drop, k - 1);
      assert (a + b)[|a| + k - 1] == b[k - 1];
    }
  }

  /** Removal works on each part of a concatenated listing separately. */
  lemma WithoutConcat(a: seq<int>, b: seq<int>, drop: seq<int>)
    ensures Without(a + b, drop) == Without(a, drop) + Without(b, drop)
  {
    KeptSplit(a, b, drop, |b|);
  }

  /** Removing one more UID from what is kept of a prefix. */
  lemma {:induction false} KeptExtend(s: seq<int>, drop: seq<int>, u: int, n: nat)
    requires n <= |s|
    ensures Without(Kept(s, drop, n), [u]) == Kept(s, drop + [u], n)
  {
    if n > 0 {
      KeptExtend(s, drop, u, n - 1);
      var prev, x := Kept(s, drop, n - 1), s[n - 1];
      assert x in drop + [u] <==> x in drop || x == u;
      if x !in drop {
        KeptPrefix(prev, [x], [u], |prev|);
        assert (prev + [x])[|prev|] == x;
      }
    }
  }

  /** Removing one more UID after a batch is the same as removing the longer batch. */
  lemma WithoutExtend(s: seq<int>, drop: seq<int>, u: int)
    ensures Without(Without(s, drop), [u]) == Without(s, drop + [u])
  {
    KeptExtend(s, drop, u, |s|);
  }

  /** Nothing is dropped from a prefix none of whose entries occur in `drop`. */
  lemma {:induction false} KeptNone(s: seq<int>, drop: seq<int>, n: nat)
    requires n <= |s|
    requires forall k :: 0 <= k < n ==> s[k] !in drop
    ensures Kept(s, drop, n) == s[..n]
  {
    if n > 0 {
      KeptNone(s, drop, n - 1);
      assert s[..n] == s[..n - 1] + [s[n - 1]];
    }
  }

  /** Removing UIDs a listing does not hold leaves it as it was. */
  lemma WithoutNone(s: seq<int>, drop: seq<int>)
    requires forall u :: u in s ==> u !in drop
    ensures Without(s, drop) == s
  {
    forall k | 0 <= k < |s| ensures s[k] !in drop {
      var u := s[k];
      assert u in s;
      assert u !in drop;
    }
    KeptNone(s, drop, |s|);
    assert s[..|s|] == s;
  }
}
