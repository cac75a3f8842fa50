# GreenMail IMAP MOVE / UID MOVE, modelled in Dafny

This project models GreenMail's handler for the IMAP `MOVE` and `UID MOVE`
commands (RFC 6851), including the `COPYUID` response code (RFC 2359) that
section 4.3 of RFC 6851 reuses for UID MOVE. The handler works as follows:

- It looks up the destination folder. A failed lookup ends the command with
  response code `TRYCREATE`, before anything is moved or written.
- It takes one snapshot of the selected folder's UID listing and walks it in
  order. Each entry is tested against the requested id set. UID MOVE tests
  the UID itself. MOVE tests the entry's message sequence number (MSN).
- Each selected message is moved. Its old UID and the UID the destination
  gave it are appended to two parallel lists.
- On success, UID MOVE writes an untagged OK carrying
  `COPYUID <uidvalidity> <old uids> <new uids>`. Both commands then flush the
  pending EXPUNGE notices and write the tagged completion.
- The first refused move ends the command with the store's exception. The
  earlier moves stay applied, and nothing is written.

Modules:

- `UidLists` (`uid_lists.dfy`): ascending UID listings, removing moved UIDs
  (`Without`), and the runs of UIDs a destination counter hands out
  (`Consecutive`).
- `Selection` (`selection.dfy`): which snapshot entries the id set picks, by
  UID or by MSN (`Selected`).
- `CopyUid` (`copy_uid.dfy`): the `COPYUID` text. It renders the
  UIDVALIDITY as a Java `long` is rendered in a string concatenation. It also
  splits the text back into its fields, as a client does.
- `Mailbox` (`mailbox.dfy`): the collaborators the handler drives.
  - `Folder` is a class with a UID listing, a next-UID counter and the
    store's move operation. Its ghost field `origins` records, for every UID
    the folder gave a moved-in message, the folder and UID it came from.
  - `Response` records everything written, as a trace of events.
  - `Session` holds the selected folder and flushes the EXPUNGE notices.
- `MoveCommand` (`move_command.dfy`): the handler.
  - `DoProcess` is MOVE and `DoProcessUid` is MOVE or UID MOVE.
  - `MoveSelected` is the loop and `MoveEntry` is one turn of it.
  - The twostate predicate `MoveEffect` states the whole effect of one
    command on the folders and the response trace.

The Java loop body is written here as `MoveEntry`, a method called once per
snapshot entry. It does what the body does, in the same order. A separate
method keeps each proof small.

## Model

| member | source | states |
|---|---|---|
| `MoveCommand.DoProcess` | greenmail-core/src/main/java/com/icegreen/greenmail/imap/commands/MoveCommand.java:40-45 | MOVE has exactly the effect of the general handler run with sequence numbers (`MoveEffect` with `useUids` false). None of the events it writes carries a response code, so it never sends COPYUID. |
| `MoveCommand.DoProcessUid` | greenmail-core/src/main/java/com/icegreen/greenmail/imap/commands/MoveCommand.java:48-91 | If the destination lookup fails, the outcome is a failure with code `TRYCREATE`, and both folders and the response trace are unchanged. Otherwise the selected messages are moved in snapshot order, up to the first refused one. The source loses exactly those messages. The destination gains the UIDs its counter hands out, in the same order. A refused move gives `MoveFailure` with that UID, keeps the earlier moves and writes nothing. Success writes `SuccessTrace`, whose COPYUID code lists the moved old and new UIDs. Each new UID is recorded as the arrival of the message with the old UID at the same position (`Paired`). Both folders stay valid. |
| `MoveCommand.MoveSelected` | greenmail-core/src/main/java/com/icegreen/greenmail/imap/commands/MoveCommand.java:66-84 | The old-UID list is the selection, up to the first refused message. The new-UID list is equally long and is the destination counter's run. `failed` is the refused UID, if there was one. The source is the snapshot minus the moved UIDs. The destination is its old listing plus the new UIDs. When the two folders are the same, the new UIDs follow the remaining ones. The k-th new UID is the one the destination gave the message with the k-th old UID (`Paired`). |
| `MoveCommand.MoveEntry` | greenmail-core/src/main/java/com/icegreen/greenmail/imap/commands/MoveCommand.java:70-83 | One turn keeps the loop's progress invariant: the lists are the selection so far, with new UIDs from the counter and listings to match. This includes the pairing of the k-th new UID with the k-th old one. A refused entry changes neither folder. It is a selected message that is the next element of the whole selection. |
| `MoveCommand.MovedOne` | greenmail-core/src/main/java/com/icegreen/greenmail/imap/commands/MoveCommand.java:79-83 | A successful store move of the entry's message extends the progress invariant by that UID and the new one, recorded as its pair. |
| `MoveCommand.PairedAppend` | greenmail-core/src/main/java/com/icegreen/greenmail/imap/commands/MoveCommand.java:80-82 | Recording the arrival of one more message under a fresh UID keeps every earlier pair and adds the new one at the end of both lists. |
| `MoveCommand.MoveNext` | greenmail-core/src/main/java/com/icegreen/greenmail/imap/commands/MoveCommand.java:79-83 | A selected entry extends the selection by its UID. That UID has not been moved yet and is still in the source. Removing it extends the removed batch, also when source and destination are one folder. The destination's next UID extends the run of new UIDs. |
| `MoveCommand.Attempted` | greenmail-core/src/main/java/com/icegreen/greenmail/imap/commands/MoveCommand.java:79-84 | What a move-until-the-first-failure loop applies: a prefix of the selection with no refused message in it. When it stops short, it stops right before a refused one. |
| `MoveCommand.AttemptedUnique` | greenmail-core/src/main/java/com/icegreen/greenmail/imap/commands/MoveCommand.java:70-84 | A prefix of the selection with no refused message, which is either all of it or followed by a refused one, is exactly what the loop moved. |
| `MoveCommand.SourceAfterMoveHere` | greenmail-core/src/main/java/com/icegreen/greenmail/imap/commands/MoveCommand.java:80 | In a move into the selected folder itself, the UIDs added by earlier moves stay at the end of the listing when the next UID is removed. |
| `MoveCommand.SuccessTrace` | greenmail-core/src/main/java/com/icegreen/greenmail/imap/commands/MoveCommand.java:86-90 | A successful command writes three events in UID mode and two in sequence mode. They are the OK (UID mode only), then one EXPUNGE flush, then the completion. An OK with a response code appears if and only if in UID mode, and then it comes first and carries the COPYUID code. |
| `CopyUid.CopyUidCode` | greenmail-core/src/main/java/com/icegreen/greenmail/imap/commands/MoveCommand.java:105-111 | The code is `COPYUID`, SP, the UIDVALIDITY, SP, the encoded old UIDs, SP, the encoded new UIDs. It begins with the tag and a space, and its length is that of the four parts plus three spaces, so nothing else is written. |
| `CopyUid.CopyUidCodeFields` | greenmail-core/src/main/java/com/icegreen/greenmail/imap/commands/MoveCommand.java:105-111 | A client that splits the code at its spaces gets four fields. They are `COPYUID`, the destination's UIDVALIDITY (read back exactly), the encoded old UIDs and the encoded new UIDs, in that order. This assumes the range encoding writes no space. |
| `CopyUid.DecimalRoundTrip` | greenmail-core/src/main/java/com/icegreen/greenmail/imap/commands/MoveCommand.java:108 | The rendering of the UIDVALIDITY reads back as the same number, including negative values. |
| `CopyUid.Decimal` | greenmail-core/src/main/java/com/icegreen/greenmail/imap/commands/MoveCommand.java:108 | The rendered UIDVALIDITY is non-empty and has no space, so it is one field of the code. |
| `CopyUid.NatDigits` | greenmail-core/src/main/java/com/icegreen/greenmail/imap/commands/MoveCommand.java:108 | The digits of a natural number are decimal digits, at least one, with no leading zero. |
| `CopyUid.NatDigitsRoundTrip` | greenmail-core/src/main/java/com/icegreen/greenmail/imap/commands/MoveCommand.java:108 | Reading back the digits gives the number. |
| `CopyUid.Fields` | greenmail-core/src/main/java/com/icegreen/greenmail/imap/commands/MoveCommand.java:107-110 | The fields a reader splits the code into contain no space. |
| `CopyUid.FieldsOfJoin` | greenmail-core/src/main/java/com/icegreen/greenmail/imap/commands/MoveCommand.java:107-110 | A space-free part joined by SP splits off as its own field. |
| `CopyUid.FieldsOfWord` | greenmail-core/src/main/java/com/icegreen/greenmail/imap/commands/MoveCommand.java:110 | A space-free last part is one field. |
| `Selection.Selected` | greenmail-core/src/main/java/com/icegreen/greenmail/imap/commands/MoveCommand.java:69-84 | The loop picks at most one UID per snapshot entry it has walked. |
| `Selection.Key` | greenmail-core/src/main/java/com/icegreen/greenmail/imap/commands/MoveCommand.java:72-77 | The number tested for an entry is its UID in UID mode, and in sequence mode an MSN between 1 and the number of messages. |
| `Selection.KeysDistinct` | greenmail-core/src/main/java/com/icegreen/greenmail/imap/commands/MoveCommand.java:72-77 | In an ascending snapshot no two entries get the same number, in either mode, so each message is tested under its own. |
| `Selection.SelectedMembers` | greenmail-core/src/main/java/com/icegreen/greenmail/imap/commands/MoveCommand.java:70-79 | A UID is picked if and only if a snapshot entry holds it and that entry's key (UID or MSN) passes the inclusion test. Nothing outside the id set is moved, and nothing inside it is missed. |
| `Selection.SelectedAscending` | greenmail-core/src/main/java/com/icegreen/greenmail/imap/commands/MoveCommand.java:69-70 | The picked UIDs keep the snapshot's ascending order. |
| `Selection.NotYetSelected` | greenmail-core/src/main/java/com/icegreen/greenmail/imap/commands/MoveCommand.java:70-80 | The entry the loop reaches next has not been picked before. |
| `Selection.SelectedPrefix` | greenmail-core/src/main/java/com/icegreen/greenmail/imap/commands/MoveCommand.java:66-84 | What has been picked after some iterations is a prefix of the final selection, so the lists only ever grow at the end. |
| `Selection.SequenceRangeSelectsSlice` | greenmail-core/src/main/java/com/icegreen/greenmail/imap/commands/MoveCommand.java:74-76 | In sequence mode, a range `lo:hi` picks the contiguous stretch of the snapshot at positions `lo` to `hi`, cut off at the snapshot's end. |
| `Selection.UidSelectionSplits` | greenmail-core/src/main/java/com/icegreen/greenmail/imap/commands/MoveCommand.java:72-73 | In UID mode, the test depends on the UID alone: the selection of a split listing is the two selections joined. |
| `Selection.UidSelectionPrefix` | greenmail-core/src/main/java/com/icegreen/greenmail/imap/commands/MoveCommand.java:72-73 | In UID mode, entries after a prefix do not change what is picked in it. |
| `UidLists.Without` | greenmail-core/src/main/java/com/icegreen/greenmail/imap/commands/MoveCommand.java:80 | Removing moved messages never lengthens a listing. |
| `UidLists.WithoutMembers` | greenmail-core/src/main/java/com/icegreen/greenmail/imap/commands/MoveCommand.java:80 | After the removal, a UID is listed if and only if it was listed and was not moved. |
| `UidLists.WithoutAscending` | greenmail-core/src/main/java/com/icegreen/greenmail/imap/commands/MoveCommand.java:80 | The source listing stays ascending. |
| `UidLists.WithoutInRange` | greenmail-core/src/main/java/com/icegreen/greenmail/imap/commands/MoveCommand.java:80 | The source listing stays below its UID counter. |
| `UidLists.WithoutConcat` | greenmail-core/src/main/java/com/icegreen/greenmail/imap/commands/MoveCommand.java:80 | Removal works on each part of a listing separately. |
| `UidLists.WithoutExtend` | greenmail-core/src/main/java/com/icegreen/greenmail/imap/commands/MoveCommand.java:80 | Removing UIDs one move at a time is the same as removing the whole batch. |
| `UidLists.WithoutNone` | greenmail-core/src/main/java/com/icegreen/greenmail/imap/commands/MoveCommand.java:80 | Removing UIDs a listing does not hold leaves it unchanged. |
| `UidLists.Consecutive` | greenmail-core/src/main/java/com/icegreen/greenmail/imap/commands/MoveCommand.java:80-82 | The run of new UIDs has one entry per moved message, so the two lists have equal length. |
| `UidLists.ConsecutiveMembers` | greenmail-core/src/main/java/com/icegreen/greenmail/imap/commands/MoveCommand.java:80-82 | The new UIDs are exactly those from the counter's old value up to, but not including, its new value. |
| `UidLists.AscendingAppend` | greenmail-core/src/main/java/com/icegreen/greenmail/imap/commands/MoveCommand.java:80 | A UID above the last listed one keeps the destination listing ascending. |
| `Mailbox.Folder.MoveMessage` | greenmail-core/src/main/java/com/icegreen/greenmail/imap/commands/MoveCommand.java:80 | The move fails, changing nothing, if and only if the UID is absent or refused. Otherwise it returns the destination's counter, which is not yet listed there, and advances the counter. The UID leaves the source and the new UID is appended to the destination. The destination records the new UID as the arrival of that message from this folder (`MovedTo`). Both folders stay valid. |
| `Mailbox.Response.OkResponse` | greenmail-core/src/main/java/com/icegreen/greenmail/imap/commands/MoveCommand.java:87 | Appends one untagged OK carrying the given response code to the trace. |
| `Mailbox.Session.UnsolicitedResponses` | greenmail-core/src/main/java/com/icegreen/greenmail/imap/commands/MoveCommand.java:89 | Appends the EXPUNGE flush to the trace. |
| `Mailbox.Response.CommandComplete` | greenmail-core/src/main/java/com/icegreen/greenmail/imap/commands/MoveCommand.java:90 | Appends the tagged completion to the trace. |

## Left out

- Request parsing (`parseIdRange`, `mailbox`, `endLine`, lines 53-55) is in another class. The parsed id set arrives as its membership test `includes`. The ProtocolException a parse can throw is not modelled.
- The bodies of `includes`, `IdRange.uidsToRangeString` and `getMailbox` are not part of this model. The first two are function parameters (`includes`, `rangeString`). The lookup arrives as its result, an `Option<Folder>`, where `None` stands for the FolderException it throws when the folder is not found.
- The store's `moveMessage` is not part of this model. `Folder.MoveMessage` assumes the following:
  - The move fails exactly when the UID is absent or in the folder's `refused` set.
  - A failed move changes nothing.
  - The new UID is the destination's next-UID counter.
  - When the destination is the selected folder itself, the message leaves its place and is appended with the new UID.
- The MSN of the i-th snapshot entry is taken to be i + 1. The session folder is assumed to defer expunge renumbering until the flush at line 89. `ImapSessionFolder.getMsn` is not part of this model.
- UIDs and UIDVALIDITY are Java `long`s and MSNs are `int`s. They are modelled as unbounded integers: counter overflow is not modelled.
- Message persistence, flags and the UIDVALIDITY storage of the store are left out. The UIDVALIDITY is a constant of the folder.
- Locking and interleaving with other sessions are left out, because they are concurrency inside the store.
- The wire format of responses is reduced to a trace of events. The OK's empty human-readable text (line 87) is not modelled.
- Java exceptions are modelled as the `Outcome` datatype. The `TRYCREATE` response code that line 62 sets on the exception is a field of `TryCreateFailure`.
- `CopyUid.CopyUidCodeFields`: proved only for range encodings that write no space, because the encoder is not part of this model.
