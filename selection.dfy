/** Which messages of the selected mailbox a MOVE or UID MOVE picks.

    The command reads the mailbox's UID listing once (the snapshot) and walks
    it in order. Each entry is tested against the requested id set: in UID
    mode the UID itself is tested, in sequence mode its message sequence
    number (MSN). The MSN of the i-th snapshot entry is taken to be i + 1:
    the session folder defers the renumbering that expunges cause until the
    pending EXPUNGE notices are flushed, which happens only after the loop.

    The id set's own membership test lives outside this model; it is passed
    in as `includes`. */
module Selection {
  import opened UidLists

  /** The number the inclusion test sees for the i-th snapshot entry: its
      UID, or its MSN, which lies between 1 and the number of messages
      (`KeysDistinct`: no two entries share one). */
  function Key(snapshot: seq<int>, i: nat, useUids: bool): (k: int)
    requires i < |snapshot|
    ensures useUids ==> k == snapshot[i]
    ensures !useUids ==> 1 <= k <= |snapshot|
  {
    if useUids then snapshot[i] else i + 1
  }

  /** In an ascending snapshot no two entries share a key, in either mode:
      each message is tested under a number of its own. */
  lemma KeysDistinct(snapshot: seq<int>, useUids: bool, i: nat, j: nat)
    requires i < j < |snapshot|
    requires Ascending(snapshot)
    ensures Key(snapshot, i, useUids) != Key(snapshot, j, useUids)
  {
    assert InOrder(snapshot, i, j);
  }

  /** The UIDs among the first `n` snapshot entries whose key is in the id set,
      in snapshot order: what the loop has moved after `n` iterations. */
  function Selected(snapshot: seq<int>, includes: int -> bool, useUids: bool, n: nat): (r: seq<int>)
    requires n <= |snapshot|
    ensures |r| <= n
  {
    if n == 0 then []
    else if includes(Key(snapshot, n - 1, useUids)) then
      Selected(snapshot, includes, useUids, n - 1) + [snapshot[n - 1]]
    else Selected(snapshot, includes, useUids, n - 1)
  }

  /** A UID is selected exactly when some snapshot entry holds it and that
      entry's key passes the inclusion test: nothing outside the id set is
      picked and nothing inside it is missed. */
  lemma {:induction false} SelectedMembers(snapshot: seq<int>, includes: int -> bool, useUids: bool, n: nat, u: int)
    requires n <= |snapshot|
    ensures u in Selected(snapshot, includes, useUids, n) <==>
            exists i :: 0 <= i < n && snapshot[i] == u && includes(Key(snapshot, i, useUids))
  {
    if n > 0 {
      SelectedMembers(snapshot, includes, useUids, n - 1, u);
      if u in Selected(snapshot, includes, useUids, n) && u !in Selected(snapshot, includes, useUids, n - 1) {
        assert snapshot[n - 1] == u && includes(Key(snapshot, n - 1, useUids));
      }
      if exists i :: 0 <= i < n && snapshot[i] == u && includes(Key(snapshot, i, useUids)) {
        var i :| 0 <= i < n && snapshot[i] == u && includes(Key(snapshot, i, useUids));
        if i == n - 1 {
          assert u in Selected(snapshot, includes, useUids, n);
        }
      }
    }
  }

  /** Selected UIDs keep the snapshot's ascending order. */
  lemma {:induction false} SelectedAscending(snapshot: seq<int>, includes: int -> bool, useUids: bool, n: nat)
    requires n <= |snapshot|
    requires Ascending(snapshot)
    ensures Ascending(Selected(snapshot, includes, useUids, n))
  {
    if n > 0 {
      SelectedAscending(snapshot, includes, useUids, n - 1);
      var prev := Selected(snapshot, includes, useUids, n - 1);
      if includes(Key(snapshot, n - 1, useUids)) {
        if prev != [] {
          var u := prev[|prev| - 1];
          SelectedMembers(snapshot, includes, useUids, n - 1, u);
          var i :| 0 <= i < n - 1 && snapshot[i] == u && includes(Key(snapshot, i, useUids));
          assert InOrder(snapshot, i, n - 1);
        }
        AscendingAppend(prev, snapshot[n - 1]);
      } else {
        assert Selected(snapshot, includes, useUids, n) == prev + [];
        forall i, j ensures InOrder(Selected(snapshot, includes, useUids, n), i, j) {
          assert InOrder(prev, i, j);
        }
      }
    }
  }

  /** In an ascending snapshot the entry the loop reaches next has not been
      picked before: every earlier pick is a smaller UID. */
  lemma NotYetSelected(snapshot: seq<int>, includes: int -> bool, useUids: bool, n: nat)
    requires n < |snapshot|
    requires Ascending(snapshot)
    ensures snapshot[n] !in Selected(snapshot, includes, useUids, n)
  {
    forall i | 0 <= i < n ensures snapshot[i] < snapshot[n] {
      assert InOrder(snapshot, i, n);
    }
    SelectedMembers(snapshot, includes, useUids, n, snapshot[n]);
  }

  /** What the loop has picked after `i` iterations is where the whole selection starts. */
  lemma {:induction false} SelectedPrefix(snapshot: seq<int>, includes: int -> bool, useUids: bool, i: nat, n: nat)
    requires i <= n <= |snapshot|
    ensures Selected(snapshot, includes, useUids, i) <= Selected(snapshot, includes, useUids, n)
  {
    if i < n {
      SelectedPrefix(snapshot, includes, useUids, i, n - 1);
    }
  }

  /** In sequence mode a range `lo:hi` of MSNs picks the contiguous stretch of
      the snapshot at positions lo..hi, cut off at the end of the snapshot. */
  lemma {:induction false} SequenceRangeSelectsSlice(snapshot: seq<int>, includes: int -> bool, lo: int, hi: int, n: nat)
    requires n <= |snapshot|
    requires 1 <= lo
    requires forall m :: includes(m) <==> lo <= m <= hi
    ensures var top := if hi < 0 then 0 else if hi < n then hi else n;
            var bottom := if lo - 1 < top then lo - 1 else top;
            Selected(snapshot, includes, false, n) == snapshot[bottom..top]
  {
    if n > 0 {
      SequenceRangeSelectsSlice(snapshot, includes, lo, hi, n - 1);
      var top := if hi < 0 then 0 else if hi < n - 1 then hi else n - 1;
      var bottom := if lo - 1 < top then lo - 1 else top;
      if includes(n) {
        assert snapshot[bottom..top] + [snapshot[n - 1]] == snapshot[lo - 1..n];
      }
    }
  }

  /** In UID mode the test looks at the UID alone, never at its position: the
      selection of a listing split in two is the two selections joined. */
  lemma {:induction false} UidSelectionSplits(a: seq<int>, b: seq<int>, includes: int -> bool, n: nat)
    requires n <= |b|
    ensures Selected(a + b, includes, true, |a| + n)
         == Selected(a, includes, true, |a|) + Selected(b, includes, true, n)
  {
    if n == 0 {
      UidSelectionPrefix(a, b, includes, |a|);
    } else {
      UidSelectionSplits(a, b, includes, n - 1);
      assert (a + b)[|a| + n - 1] == b[n - 1];
    }
  }

  /** Appending entries after a listing does not change the selection among its first entries. */
  lemma {:induction false} UidSelectionPrefix(a: seq<int>, b: seq<int>, includes: int -> bool, n: nat)
    requires n <= |a|
    ensures Selected(a + b, includes, true, n) == Selected(a, includes, true, n)
  {
    if n > 0 {
      UidSelectionPrefix(a, b, includes, n - 1);
      assert (a + b)[n - 1] == a[n - 1];
    }
  }
}
