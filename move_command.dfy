/** The MOVE and UID MOVE commands (RFC 6851) of the IMAP server.

    The request has been parsed by the time the command runs: the id set is
    given as its membership test `includes`, and the destination lookup
    (`getMailbox`) as its result, `None` when the lookup threw a
    FolderException because the folder was not found. */
module MoveCommand {
  import opened UidLists
  import opened Selection
  import opened CopyUid
  import opened Mailbox

  /** The response code attached to a failed destination lookup. */
  const TryCreate := "TRYCREATE"

  /** How the command ends: completed, or with the FolderException it throws. */
  datatype Outcome =
    | Ok
    | TryCreateFailure(responseCode: string)  // the destination lookup failed
    | MoveFailure(uid: int)                   // moving message `uid` failed

  /** No UID of `s` is one the store refuses to move. */
  ghost predicate NoneRefused(s: seq<int>, refused: set<int>)
  {
    forall k :: 0 <= k < |s| ==> s[k] !in refused
  }

  /** The moves that are applied when `sel` is moved one message at a time and
      the first refused message stops the loop: the longest unrefused start of `sel`. */
  function Attempted(sel: seq<int>, refused: set<int>): (done: seq<int>)
    ensures done <= sel
    ensures NoneRefused(done, refused)
    ensures |done| < |sel| ==> sel[|done|] in refused
  {
    if sel == [] then []
    else
      var init, last := sel[..|sel| - 1], sel[|sel| - 1];
      var done := Attempted(init, refused);
      if |done| < |init| || last in refused then done else done + [last]
  }

  /** The contract of `Attempted` pins it down: a start of the selection with
      no refused message that reaches the selection's end, or stops right
      before a refused message, is exactly what the loop applies. */
  lemma AttemptedUnique(sel: seq<int>, done: seq<int>, refused: set<int>)
    requires done <= sel
    requires NoneRefused(done, refused)
    requires |done| < |sel| ==> sel[|done|] in refused
    ensures Attempted(sel, refused) == done
  {
  }

  /** A move into the selected folder itself: the moved UID leaves the
      listing and the UIDs the earlier moves added stay at its end. */
  lemma SourceAfterMoveHere(snapshot: seq<int>, moved: seq<int>, newUids: seq<int>, uid: int)
    requires uid !in moved && uid !in newUids
    ensures Without(Without(snapshot, moved) + newUids, [uid]) == Without(snapshot, moved + [uid]) + newUids
  {
    WithoutExtend(snapshot, moved, uid);
    WithoutConcat(Without(snapshot, moved), newUids, [uid]);
    WithoutNone(newUids, [uid]);
  }

  /** The message that bears UID `newUids[k]` in the folder whose arrivals
      `origins` records came from `from`, where its UID was `oldUids[k]`:
      the two lists are aligned message by message. */
  ghost predicate Paired(origins: map<int, (Folder, int)>, from: Folder, oldUids: seq<int>, newUids: seq<int>)
  {
    && |oldUids| == |newUids|
    && forall k :: 0 <= k < |newUids| ==> newUids[k] in origins && origins[newUids[k]] == (from, oldUids[k])
  }

  /** Recording one more arrival under a UID not used before keeps the earlier pairs. */
  lemma PairedAppend(origins: map<int, (Folder, int)>, from: Folder, oldUids: seq<int>, newUids: seq<int>,
                     u: int, n: int)
    requires Paired(origins, from, oldUids, newUids) && n !in newUids
    ensures Paired(origins[n := (from, u)], from, oldUids + [u], newUids + [n])
  {
    forall k | 0 <= k < |newUids| ensures newUids[k] != n {
      assert newUids[k] in newUids;
    }
  }

  /** What one more move of snapshot entry `i`, selected and moved, does to
      the running lists: the selection grows by its UID, the UID is still in
      the source listing, removing it extends the removed batch (with the new
      UIDs staying at the end when source and destination are the same
      folder), and the destination hands out the next UID of its run. */
  lemma MoveNext(snapshot: seq<int>, includes: int -> bool, useUids: bool, i: nat,
                 copiedNew: seq<int>, next0: int, aliased: bool)
    requires i < |snapshot| && Ascending(snapshot)
    requires includes(Key(snapshot, i, useUids))
    requires |copiedNew| == |Selected(snapshot, includes, useUids, i)|
    requires copiedNew == Consecutive(next0, |copiedNew|)
    requires aliased ==> AllInRange(snapshot, next0)
    ensures var copiedOld := Selected(snapshot, includes, useUids, i);
            var uid := snapshot[i];
            && Selected(snapshot, includes, useUids, i + 1) == copiedOld + [uid]
            && copiedOld + [uid] <= Selected(snapshot, includes, useUids, |snapshot|)
            && uid in Without(snapshot, copiedOld)
            && Without(Without(snapshot, copiedOld), [uid]) == Without(snapshot, copiedOld + [uid])
            && (aliased ==> Without(Without(snapshot, copiedOld) + copiedNew, [uid])
                              == Without(snapshot, copiedOld + [uid]) + copiedNew)
            && copiedNew + [next0 + |copiedNew|] == Consecutive(next0, |copiedNew| + 1)
            && next0 + |copiedNew| !in copiedNew
  {
    var copiedOld, uid := Selected(snapshot, includes, useUids, i), snapshot[i];
    NotYetSelected(snapshot, includes, useUids, i);
    WithoutMembers(snapshot, copiedOld, uid);
    SelectedPrefix(snapshot, includes, useUids, i + 1, |snapshot|);
    WithoutExtend(snapshot, copiedOld, uid);
    ConsecutiveMembers(next0, |copiedNew|, next0 + |copiedNew|);
    if aliased {
      assert InRange(snapshot, i, next0);
      ConsecutiveMembers(next0, |copiedNew|, uid);
      SourceAfterMoveHere(snapshot, copiedOld, copiedNew, uid);
    }
  }

  /** What a successful command writes: the COPYUID OK in UID mode only, then
      the held-back EXPUNGE notices, then the completion. */
  function SuccessTrace(useUids: bool, copyUid: string): (t: seq<Event>)
    ensures |t| == if useUids then 3 else 2
    ensures t[|t| - 2] == Expunges && t[|t| - 1] == Completed
    ensures (exists k :: 0 <= k < |t| && t[k].OkWithCode?) <==> useUids
    ensures useUids ==> t[0] == OkWithCode(copyUid)
  {
    var t := (if useUids then [OkWithCode(copyUid)] else []) + [Expunges, Completed];
    assert useUids ==> t[0].OkWithCode?;
    t
  }

  /** The whole effect of one MOVE / UID MOVE on the selected folder, the
      destination and the response, given the states before and after. */
  twostate predicate MoveEffect(session: Session, response: Response, destination: Option<Folder>,
                                includes: int -> bool, rangeString: seq<int> -> string,
                                useUids: bool, outcome: Outcome)
    reads session.selected, response, if destination.Some? then {destination.value} else {}
  {
    var src := session.selected;
    match destination
    case None =>
      && outcome == TryCreateFailure(TryCreate)
      && src.uids == old(src.uids) && src.nextUid == old(src.nextUid) && src.origins == old(src.origins)
      && response.events == old(response.events)
    case Some(dst) =>
      var snapshot := old(src.uids);
      var sel := Selected(snapshot, includes, useUids, |snapshot|);
      var done := Attempted(sel, src.refused);
      var newUids := Consecutive(old(dst.nextUid), |done|);
      && outcome == (if |done| < |sel| then MoveFailure(sel[|done|]) else Ok)
      && (dst != src ==> src.uids == Without(snapshot, done) && src.nextUid == old(src.nextUid) &&
                         src.origins == old(src.origins))
      && (dst != src ==> dst.uids == old(dst.uids) + newUids)
      && (dst == src ==> src.uids == Without(snapshot, done) + newUids)
      && dst.nextUid == old(dst.nextUid) + |done|
      && Paired(dst.origins, src, done, newUids)
      && response.events == old(response.events) +
           (if outcome.Ok? then SuccessTrace(useUids, CopyUidCode(dst.uidValidity, done, newUids, rangeString))
            else [])
  }

  /** MOVE: addresses messages by sequence number. */
  method DoProcess(session: Session, response: Response, destination: Option<Folder>,
                   includes: int -> bool, rangeString: seq<int> -> string)
    returns (outcome: Outcome)
    requires session.selected.Valid()
    requires destination.Some? ==> destination.value.Valid()
    modifies session.selected, response, if destination.Some? then {destination.value} else {}
    ensures session.selected.Valid() && (destination.Some? ==> destination.value.Valid())
    ensures MoveEffect(session, response, destination, includes, rangeString, false, outcome)
    ensures forall k :: |old(response.events)| <= k < |response.events| ==> !response.events[k].OkWithCode?
  {
    outcome := DoProcessUid(session, response, destination, includes, rangeString, false);
  }

  /** MOVE (`useUids` false) or UID MOVE (`useUids` true). */
  method DoProcessUid(session: Session, response: Response, destination: Option<Folder>,
                      includes: int -> bool, rangeString: seq<int> -> string, useUids: bool)
    returns (outcome: Outcome)
    requires session.selected.Valid()
    requires destination.Some? ==> destination.value.Valid()
    modifies session.selected, response, if destination.Some? then {destination.value} else {}
    ensures session.selected.Valid() && (destination.Some? ==> destination.value.Valid())
    ensures MoveEffect(session, response, destination, includes, rangeString, useUids, outcome)
  {
    if destination.None? {
      return TryCreateFailure(TryCreate);
    }
    var dst := destination.value;
    var copiedOld, copiedNew, failed := MoveSelected(session.selected, dst, includes, useUids);
    if failed.Some? {
      return MoveFailure(failed.value);
    }
    if useUids {
      response.OkResponse(CopyUidCode(dst.uidValidity, copiedOld, copiedNew, rangeString));
    }
    session.UnsolicitedResponses(response);  // the EXPUNGE notices
    response.CommandComplete();
    outcome := Ok;
  }

  /** Where the loop stands after the first `i` snapshot entries: what it has
      moved and the UIDs the destination gave them, and the listings and
      counter that result, with each new UID recorded as the arrival of the
      message it was given to. `srcNext0`, `next0`, `dstUids0` and
      `srcOrigins0` are the counters, the destination listing and the
      source's arrival record before the loop. */
  ghost predicate Progress(src: Folder, dst: Folder, snapshot: seq<int>, includes: int -> bool,
                           useUids: bool, i: nat, copiedOld: seq<int>, copiedNew: seq<int>,
                           srcNext0: int, next0: int, dstUids0: seq<int>,
                           srcOrigins0: map<int, (Folder, int)>)
    reads src, dst
  {
    && src.Valid() && dst.Valid() && Ascending(snapshot) && i <= |snapshot|
    && copiedOld == Selected(snapshot, includes, useUids, i)
    && NoneRefused(copiedOld, src.refused)
    && copiedNew == Consecutive(next0, |copiedOld|)
    && dst.nextUid == next0 + |copiedOld|
    && Paired(dst.origins, src, copiedOld, copiedNew)
    && (dst != src ==> src.uids == Without(snapshot, copiedOld) && src.nextUid == srcNext0 &&
                       src.origins == srcOrigins0 &&
                       dst.uids == dstUids0 + copiedNew)
    && (dst == src ==> src.uids == Without(snapshot, copiedOld) + copiedNew && AllInRange(snapshot, next0))
  }

  /** A successful move of snapshot entry `i`, which the id set selects,
      advances the loop by one entry: the UID and the one the destination gave
      it, `n`, join the two lists, and the listings, the counter and the record
      of arrivals follow. `old` is the state before the move; the parameters
      are values of the loop, so none needs to have been allocated then. */
  twostate lemma MovedOne(new src: Folder, new dst: Folder, new snapshot: seq<int>, new includes: int -> bool,
                          new useUids: bool, new i: nat, new copiedOld: seq<int>, new copiedNew: seq<int>,
                          new srcNext0: int, new next0: int, new dstUids0: seq<int>,
                          new srcOrigins0: map<int, (Folder, int)>, new n: int)
    requires old(allocated(src)) && old(allocated(dst)) && old(allocated(includes)) && old(allocated(srcOrigins0))
    requires i < |snapshot| && includes(Key(snapshot, i, useUids))
    requires old(Progress(src, dst, snapshot, includes, useUids, i, copiedOld, copiedNew,
                          srcNext0, next0, dstUids0, srcOrigins0))
    requires src.Valid() && dst.Valid() && snapshot[i] !in src.refused
    requires src.MovedTo(dst, snapshot[i], n)
    ensures Progress(src, dst, snapshot, includes, useUids, i + 1, copiedOld + [snapshot[i]], copiedNew + [n],
                     srcNext0, next0, dstUids0, srcOrigins0)
  {
    MoveNext(snapshot, includes, useUids, i, copiedNew, next0, dst == src);
    PairedAppend(old(dst.origins), src, copiedOld, copiedNew, snapshot[i], n);
    assert NoneRefused(copiedOld + [snapshot[i]], src.refused) by {
      assert forall k :: 0 <= k < |copiedOld| ==> (copiedOld + [snapshot[i]])[k] == copiedOld[k];
    }
    assert dstUids0 + copiedNew + [n] == dstUids0 + (copiedNew + [n]);
  }

  /** One turn of the loop, on snapshot entry `i`: when the id set selects
      the entry (by UID, or by its message sequence number `i + 1`) the message
      is moved to `dst`, and its old UID and the UID `dst` gave it join the two
      lists together. `failed` reports a refused move, which changes nothing. */
  method MoveEntry(src: Folder, dst: Folder, snapshot: seq<int>, includes: int -> bool, useUids: bool,
                   i: nat, copiedOld: seq<int>, copiedNew: seq<int>,
                   ghost srcNext0: int, ghost next0: int, ghost dstUids0: seq<int>,
                   ghost srcOrigins0: map<int, (Folder, int)>)
    returns (moved: seq<int>, newUids: seq<int>, failed: bool)
    requires i < |snapshot|
    requires Progress(src, dst, snapshot, includes, useUids, i, copiedOld, copiedNew, srcNext0, next0, dstUids0, srcOrigins0)
    modifies src, dst
    ensures !failed ==>
              Progress(src, dst, snapshot, includes, useUids, i + 1, moved, newUids, srcNext0, next0, dstUids0, srcOrigins0)
    ensures failed ==>
              && unchanged(src, dst) && moved == copiedOld && newUids == copiedNew
              && moved + [snapshot[i]] <= Selected(snapshot, includes, useUids, |snapshot|)
              && snapshot[i] in src.refused
  {
    moved, newUids, failed := copiedOld, copiedNew, false;
    var uid := snapshot[i];
    var key := if useUids then uid else i + 1;  // the UID, or the message sequence number
    if includes(key) {
      var copied := src.MoveMessage(uid, dst);
      if copied.None? {
        MoveNext(snapshot, includes, useUids, i, copiedNew, next0, dst == src);
        failed := true;
        return;
      }
      MovedOne(src, dst, snapshot, includes, useUids, i, copiedOld, copiedNew,
               srcNext0, next0, dstUids0, srcOrigins0, copied.value);
      moved := copiedOld + [uid];
      newUids := copiedNew + [copied.value];
    }
  }

  /** The loop of the command: walks a snapshot of the selected folder's UID
      listing and moves every selected message to `dst`, recording the old
      and the new UIDs, until a move fails; `failed` is the UID whose move
      failed, which ends the command. */
  method MoveSelected(src: Folder, dst: Folder, includes: int -> bool, useUids: bool)
    returns (copiedOld: seq<int>, copiedNew: seq<int>, failed: Option<int>)
    requires src.Valid() && dst.Valid()
    modifies src, dst
    ensures src.Valid() && dst.Valid()
    ensures var sel := Selected(old(src.uids), includes, useUids, |old(src.uids)|);
            && copiedOld == Attempted(sel, src.refused)
            && failed == (if |copiedOld| < |sel| then Some(sel[|copiedOld|]) else None)
    ensures copiedNew == Consecutive(old(dst.nextUid), |copiedOld|)
    ensures dst.nextUid == old(dst.nextUid) + |copiedOld|
    ensures Paired(dst.origins, src, copiedOld, copiedNew)
    ensures dst != src ==> src.uids == Without(old(src.uids), copiedOld) && src.nextUid == old(src.nextUid) &&
                           src.origins == old(src.origins)
    ensures dst != src ==> dst.uids == old(dst.uids) + copiedNew
    ensures dst == src ==> src.uids == Without(old(src.uids), copiedOld) + copiedNew
  {
    copiedOld, copiedNew, failed := [], [], None;
    var snapshot := src.uids;
    ghost var next0 := dst.nextUid;
    ghost var dstUids0 := dst.uids;
    ghost var sel := Selected(snapshot, includes, useUids, |snapshot|);
    WithoutNone(snapshot, []);
    for i := 0 to |snapshot|
      invariant Progress(src, dst, snapshot, includes, useUids, i, copiedOld, copiedNew,
                         old(src.nextUid), next0, dstUids0, old(src.origins))
    {
      var stop: bool;
      copiedOld, copiedNew, stop := MoveEntry(src, dst, snapshot, includes, useUids, i, copiedOld, copiedNew,
                                              old(src.nextUid), next0, dstUids0, old(src.origins));
      if stop {
        AttemptedUnique(sel, copiedOld, src.refused);
        failed := Some(snapshot[i]);
        return;
      }
    }
    AttemptedUnique(sel, copiedOld, src.refused);
  }
}
