/** The collaborators the MOVE command drives: mail folders, the response
    writer and the session. Only what the command relies on is modelled. */
module Mailbox {
  import opened UidLists

  datatype Option<T> = None | Some(value: T)

  /** A mail folder as the command sees it: its UID listing, the counter from
      which it assigns UIDs to arriving messages, and its UIDVALIDITY.
      `refused` names the messages whose move the store rejects with a
      FolderException; why it does so is the store's business. `origins`
      records, for each UID the folder gave a moved-in message, the folder
      the message came from and the UID it had there: which message now
      bears which UID. */
  class Folder {
    var uids: seq<int>
    var nextUid: int
    ghost var origins: map<int, (Folder, int)>
    const uidValidity: int
    const refused: set<int>

    /** UIDs are positive, listed in ascending order, and all below the counter. */
    ghost predicate Valid()
      reads this
    {
      Ascending(uids) && 0 < nextUid && AllInRange(uids, nextUid)
    }

    constructor (uids: seq<int>, nextUid: int, uidValidity: int, refused: set<int>)
      requires Ascending(uids) && 0 < nextUid && AllInRange(uids, nextUid)
      ensures Valid()
      ensures this.uids == uids && this.nextUid == nextUid
      ensures this.uidValidity == uidValidity && this.refused == refused
      ensures origins == map[]
    {
      this.uids := uids;
      this.nextUid := nextUid;
      this.uidValidity := uidValidity;
      this.refused := refused;
      this.origins := map[];
    }

    /** What a successful move of message `uid` into `to` did, `n` being the
        UID `to` gave it: `to` took `n` from its counter, which was free, and
        recorded where the message came from; the message left this folder's
        listing and `n` joined the end of `to`'s (the same listing when `to`
        is this folder); nothing else changed. */
    twostate predicate MovedTo(to: Folder, uid: int, n: int)
      reads this, to
    {
      && n == old(to.nextUid) && to.nextUid == n + 1 && n !in old(to.uids)
      && to.origins == old(to.origins)[n := (this, uid)]
      && (to != this ==> uids == Without(old(uids), [uid]) && nextUid == old(nextUid) &&
                         origins == old(origins) && to.uids == old(to.uids) + [n])
      && (to == this ==> uids == Without(old(uids), [uid]) + [n])
    }

    /** Moves the message `uid` of this folder into `to` and returns the UID
        `to` assigned it, or fails (the store's FolderException) when the
        message is not here or the store refuses it; a failed move changes
        nothing. `to` may be this very folder. */
    method MoveMessage(uid: int, to: Folder) returns (r: Option<int>)
      requires Valid() && to.Valid()
      modifies this, to
      ensures Valid() && to.Valid()
      ensures r.None? <==> uid !in old(uids) || uid in refused
      ensures r.None? ==> unchanged(this, to)
      ensures r.Some? ==> MovedTo(to, uid, r.value)
    {
      if uid !in uids || uid in refused {
        return None;
      }
      var n := to.nextUid;
      forall k | 0 <= k < |to.uids| ensures to.uids[k] != n {
        assert InRange(to.uids, k, n);
      }
      WithoutAscending(uids, [uid]);
      WithoutInRange(uids, [uid], nextUid);
      uids := Without(uids, [uid]);
      if to.uids != [] {
        assert InRange(to.uids, |to.uids| - 1, n);
      }
      AscendingAppend(to.uids, n);
      AppendInRange(to.uids, n, n + 1);
      to.uids := to.uids + [n];
      to.nextUid := n + 1;
      to.origins := to.origins[n := (this, uid)];
      r := Some(n);
    }
  }

  /** What the command writes to the client, in order. */
  datatype Event =
    | OkWithCode(code: string)  // untagged OK carrying a response code
    | Expunges                  // the pending EXPUNGE notices of the selected mailbox
    | Completed                 // the tagged completion of the command

  /** The response writer; `events` is everything written so far. */
  class Response {
    var events: seq<Event>

    constructor ()
      ensures events == []
    {
      events := [];
    }

    /** Writes an untagged OK whose response code is `code`. */
    method OkResponse(code: string)
      modifies this
      ensures events == old(events) + [OkWithCode(code)]
    {
      events := events + [OkWithCode(code)];
    }

    /** Writes the tagged completion of the current command. */
    method CommandComplete()
      modifies this
      ensures events == old(events) + [Completed]
    {
      events := events + [Completed];
    }
  }

  /** The client session in the selected state. */
  class Session {
    const selected: Folder

    constructor (selected: Folder)
      ensures this.selected == selected
    {
      this.selected := selected;
    }

    /** Flushes the notices the session has held back, the EXPUNGEs of the
        moved messages among them, onto `response`. */
    method UnsolicitedResponses(response: Response)
      modifies response
      ensures response.events == old(response.events) + [Expunges]
    {
      response.events := response.events + [Expunges];
    }
  }
}
