# sos_flow core, modelled in Dafny

SOS ("Scalable Observation System") lets application processes describe
what they measure as *pubs*: named, typed value slots that a client packs
locally and ships to a per-node daemon (`sosd`). A pub's schema travels in
an ANNOUNCE message and its changed values travel as deltas in PUBLISH
messages. The daemon keeps a table of every pub it has heard of. It queues
freshly published pubs on a ring for its storage thread. It also hands out
blocks of globally unique identifiers (GUIDs) to its clients.

This project models that core as pure functions over immutable datatypes
and proves what the code promises about it:

| file | module | what it models |
|---|---|---|
| `wrappers.dfy` | `Wrappers` | `Option` / `Result` for the error paths |
| `enums.dfy` | `Enums` | the X-macro enumerations of `sos_types.h`, their `_str` tables, `SOS_ENUM_IN_RANGE`, `SOS_ENUM_STR` |
| `wire.dfy` | `Wire` | messages as a header plus a list of typed fields (`l`, `q`, `g`, `s`) |
| `pubs.dfy` | `Pubs` | pubs and data slots: creation, growth, lookup, `SOS_pack`, `SOS_repack`, `SOS_get_val` |
| `text.dfy` | `Text` | `SOS_strip_str` |
| `guid.dfy` | `Guid` | `SOS_uid_init`, `SOS_uid_next`, `SOSD_claim_guid_block` |
| `ring.dfy` | `Ring` | the `SOS_ring_queue` FIFO: init, put, get, get-all |
| `serial.dfy` | `Serial` | announce / publish to and from a message |
| `client.dfy` | `Client` | a client's pack with its GUID pool, `SOS_announce`, `SOS_publish` |
| `daemon.dfy` | `Daemon` | the listen loop, its handlers, the pub table, the shutdown flag, one storage-injector batch |

Modelling decisions:

- **Messages.** The byte codec (`SOS_buffer_pack` / `SOS_buffer_unpack`) is declared in `pack_buffer.h` but has no body here. So a message is a header `(msg_size, msg_type, msg_from, pub_guid)` and a list of fields, one per conversion character of the format strings the code uses. `msg_size` is computed from field widths that are parameters (`Wire.Widths`).
- **Opaque numbers.** Doubles and `SOS_TIME` stamps are opaque 64-bit patterns (`Wire.Float64`). They are copied and compared, never computed with.
- **Values.** The `SOS_val` union is a sum type (`Pubs.Val`) with 32-bit and 64-bit integer newtypes. A slot keeps its declared type (`vtype`) apart from its value. The daemon learns a slot's type from an ANNOUNCE before it learns any value.
- **Compile-time constants.** `SOS_DEFAULT_ELEM_MAX`, `SOS_DEFAULT_RING_SIZE`, `SOS_DEFAULT_GUID_BLOCK` and `SOS_DEFAULT_UID_MAX` live in `sos.h`, which is not part of this model. They are parameters: `chunk` / `elemMaxDefault`, the ring size, `size` / `guidBlock` and `uidMax`.
- **Side effects.** The clock, the daemon's answer to a GUID_BLOCK request and the client's identity (node, process, program name) are parameters. Sending is the list of messages produced.
- **Behaviour worth noting**, each taken from the code as it stands:
  - a string's `val_len` is `strlen`, not counting the terminator;
  - `SOS_publish_from_buffer` leaves a slot's state alone;
  - `SOS_publish` sends the PUBLISH even when no slot is DIRTY;
  - slots added by `SOS_expand_data` are zeroed, so their state is CLEAN (ordinal 0), not EMPTY.
- **Error paths.** Some messages are an error (`Result.Failure`). On such a failure the daemon's handlers keep the pub as it was. The cases fall into two groups.
  - Where the C code reads past a buffer or indexes without a check:
    - a missing or mistyped field;
    - a slot index outside the pub's storage.
  - Where the C code accepts the message and the model refuses it:
    - a negative element count. In C the expand loop is skipped, the negative `elem_count` is stored, and no definitions are read;
    - an unknown value-type ordinal in an ANNOUNCE. In C it is stored as the slot's type, and a later PUBLISH reads no value for that slot.
- **Enum versions.** `sos_types.h` comes from a later revision than `sos.c` and `sosd.c`. Message-type ordinals are taken from it. Behaviour is taken from `sos.c` and `sosd.c`.

## Model

| member | source | states |
|---|---|---|
| Enums.EnumStrInvalidIffOutOfRange | src/sos_types.h:267-268 | SOS_ENUM_STR returns the INVALID literal exactly when the value is outside `0 .. T___MAX-1`; in range it returns the enumerator `<T>_<suffix>` at that ordinal; the table's last entry is the `<T>___MAX` sentinel |
| Enums.AllFamiliesWellFormed | src/sos_types.h:218-265 | every one of the 22 generated tables is non-empty, ends with its `___MAX` sentinel and belongs to a type spelled `SOS_...`, which is what SOS_ENUM_STR's INVALID fallback relies on |
| Enums.ValTypeFromOrdinal | src/sos_types.h:95-101 | a value-type tag decodes iff it is in range for SOS_VAL_TYPE, and decodes to the type with that ordinal |
| Enums.ValTypeTable | src/sos_types.h:95-101 | GENERATE_ENUM and GENERATE_STRING agree: INT=0 … BYTES=4, each ordinal decodes back to its type and indexes its own name |
| Enums.ValStateFromOrdinal | src/sos_types.h:110-114 | a value-state tag decodes iff it is in range, to the state with that ordinal |
| Enums.ValStateTable | src/sos_types.h:110-114 | CLEAN=0, DIRTY=1, EMPTY=2, each naming itself in SOS_VAL_STATE_str |
| Enums.MsgTypeFromOrdinal | src/sos_types.h:39-61 | a message-type tag decodes iff it is in range for SOS_MSG_TYPE, to the type with that ordinal |
| Enums.MsgTypeTable | src/sos_types.h:39-61 | the message types are numbered in the order SOS_MSG_TYPE lists them, every ordinal is in range, and each decodes back to its own type |
| Pubs.DefaultMetaNames | src/sos.c:537-542 | the metadata a new pub starts with names SOS_LAYER_APP, SOS_NATURE_SOS and the three *_DEFAULT hints |
| Pubs.NewPubSized | src/sos.c:504-581 | a new pub has no elements, capacity `new_size`, is not announced, and every slot is EMPTY with val_len 0 and GUID 0; its GUID is the creator's next GUID, or -1 on the daemon; the metadata is the default (channel 0, SOS_LAYER_APP, SOS_NATURE_SOS, the *_DEFAULT hints); a client copies its node id, process id and program name, every other role leaves them empty and 0, and the remaining identity fields start empty and 0 |
| Pubs.NewPub | src/sos.c:502 | SOS_new_pub is a pub of the default capacity, empty and not announced |
| Pubs.NewPost | src/sos.c:503 | SOS_new_post is a pub of capacity 1, empty and not announced |
| Pubs.Expand | src/sos.c:585-601 | capacity grows by exactly one chunk of zeroed slots; existing slots and every other field are untouched |
| Pubs.FindName | src/sos.c:640-641 | the search returns the first slot in use carrying the name, and returns none iff no slot in use carries it |
| Pubs.GetVal | src/sos.c:880-891 | an absent name yields `(SOS_val) 0`; a present name yields the value of the first slot in use carrying it (with unique names, its only slot) |
| Pubs.Overwrite | src/sos.c:647-706 | repacking an identical int, long or string only refreshes time.pack; any other value is stored with its type and `sizeof`/strlen length and the slot turns DIRTY; no other slot changes |
| Pubs.Append | src/sos.c:710-827 | a new name takes slot elem_count (after growing by one chunk when full), gets the fresh GUID, is DIRTY, and resets `announced`; earlier slots are untouched |
| Pubs.Pack | src/sos.c:618-831 | after SOS_pack the name is found at the returned index holding the packed value; an existing name keeps its slot, a new one is appended; unique names and type/length consistency are preserved |
| Pubs.Repack | src/sos.c:833-878 | SOS_repack stores the value in place and always marks DIRTY; only a changed string gets a new val_len; name, GUID, type and other slots are kept |
| Pubs.PackThenGet | src/sos.c:618-831 | reading a name back after packing it yields the packed value |
| Pubs.PackLeavesOthers | src/sos.c:618-831 | packing one name changes neither the slot nor the value found for any other name |
| Pubs.RepackThenGet | src/sos.c:833-878 | after repacking a slot, looking up its name finds that slot and the new value |
| Pubs.RepeatedPackKeepsState | src/sos.c:647-685 | packing the same non-double value twice keeps the index, the element count and the slot's state; only time.pack moves |
| Pubs.DoubleAlwaysDirty | src/sos.c:673-685 | a packed double always leaves its slot DIRTY, even with identical bits |
| Pubs.PackDistinct | tests/pub.c:64-85 | packing N distinct new names gives elem_count = old + N ≤ elem_max, each name at its own consecutive slot with consecutive GUIDs, earlier slots untouched |
| Text.StripChar | src/sos.c:605-615 | `"` becomes `'`, anything outside `' '..'~'` becomes `#`, other characters are kept; the result is always printable and never `"` |
| Text.StripStr | src/sos.c:605-615 | the in-place loop computes Strip: the buffer keeps its length and its strlen; each character before the NUL is mapped by StripChar, the rest is untouched, and the result is clean |
| Text.StripIdempotent | src/sos.c:605-615 | SOS_strip_str gives a buffer back unchanged exactly when it is already clean |
| Text.StripKeepsStrLen | src/sos.c:605-615 | stripping writes no NUL and removes none, so `strlen` of the result is `strlen` of the input |
| Text.StripTwice | src/sos.c:605-615 | the result of stripping is clean, and stripping it again changes nothing |
| Guid.UidInit | src/sos.c:422-439 | the pool starts at `from` clamped to at least 1 and ends at `to` clamped to at most the UID maximum |
| Guid.UidNext | src/sos.c:455-499 | the old `next` is returned and `next` advances; when it passes `last` a daemon ends the process and a client continues with the block the daemon sent |
| Guid.DaemonNeverIssuesLast | src/sos.c:463-476 | a daemon whose `next` equals `last` terminates instead of returning a GUID |
| Guid.DaemonIssue | src/sos.c:455-499 | the daemon's GUIDs, drawn one by one, strictly increase and stay below `last` |
| Guid.ClaimGuidBlock | src/sosd.c:937-963 | a claim starts at `next`; a full block ends at `next + size`, a short one at `last`; the pool continues just after the block |
| Guid.ConsecutiveClaimsDisjoint | src/sosd.c:945-954 | two blocks claimed one after the other do not overlap: the second starts after the first ends |
| Guid.ExhaustedClaimIsStable | src/sosd.c:945-949 | once the range is used up every claim returns the same empty block `last + 1 .. last` and leaves the pool alone |
| Guid.ClaimKeepsValid | src/sosd.c:945-954 | claiming keeps `next ≤ last + 1` and never moves `next` backwards |
| Guid.ClaimBlocks | src/sosd.c:937-963 | successive GUID_BLOCK answers are pairwise disjoint, ordered, and inside the daemon's range |
| Guid.ClaimScenario | src/sosd.c:945-954 | from 1 with size 10 the blocks are (1, 11) then (12, 22); near the end, (95, 100) and the pool is exhausted |
| Guid.ClientIssue | src/sos.c:455-499 | a client refilled by the daemon draws strictly increasing GUIDs that lie below the daemon's next free GUID, unless the daemon has run out |
| Guid.ExhaustedClientRepeats | src/sos.c:488-489 | a client refilled from an exhausted daemon is handed `last + 1` and gets the same block back |
| Ring.WrapIsMod | src/sos.c:234 | the cursor step used here agrees with the source's `% elem_max` |
| Ring.RingInit | src/sos.c:173-195 | a new ring is empty and has the requested capacity |
| Ring.RingPut | src/sos.c:213-245 | a put on a ring with room returns 0 and appends the item to the queued items; on a full ring it returns -1 and changes nothing |
| Ring.RingGet | src/sos.c:248-271 | a get returns the oldest item and removes it; on an empty ring it returns -1 and changes nothing |
| Ring.FifoOrder | src/sos.c:213-271 | two items put into an empty ring come out in the order they went in |
| Ring.GetAllAsWritten | src/sos.c:274-299 | the one-block copy fails exactly when the queued items wrap past the end of the array; otherwise it returns the queued items and empties the ring |
| Ring.GetAllOverrun | src/sos.c:274-299 | a two-slot ring after put, put, get, put holds [8, 9] from slot 1, and the one-block copy overruns |
| Ring.GetAll | src/sos.c:274-299 | drain-all returns exactly the queued items in FIFO order and leaves the ring empty with read caught up to write |
| Serial.InfoFields | src/sos.c:963-1006 | the pub definition is packed as the sixteen fields of the announce header format |
| Serial.ParseInfo | src/sos.c:1088-1150 | the definition reads back iff the fields have the right kinds, and reading is the inverse of InfoFields |
| Serial.ParseDefs | src/sos.c:1160-1170 | `n` element definitions read back as exactly the fields they came from; an unknown type ordinal is refused |
| Serial.ParseDefsRoundTrip | src/sos.c:1008-1017 | reading the element definitions written for a schema gives that schema back |
| Serial.AnnounceToBuffer | src/sos.c:963-1026 | an ANNOUNCE carries the sender, the pub GUID, its identity, element count and schema, with msg_size equal to the total length |
| Serial.ExpandUntil | src/sos.c:1152-1155 | the pub grows by whole chunks until the element count fits, and by no more than needed; old slots are kept and new ones zeroed |
| Serial.InstallDefs | src/sos.c:1160-1170 | the first `n` slots take GUID, name and type from the definitions; value, length, state and times stay |
| Serial.AnnounceFromBuffer | src/sos.c:1088-1174 | a decoded ANNOUNCE gives the pub its GUID and enough capacity, and leaves `announced` alone |
| Serial.AnnounceRoundTrip | src/sos.c:1088-1174 | applying an ANNOUNCE of a pub gives the daemon's copy its GUID, identity, count and schema, keeping the values, lengths, states and times it had |
| Serial.RecordFields | src/sos.c:1062-1074 | a PUBLISH record is slot index, pack time, send time, val_len, then the value |
| Serial.Flush | src/sos.c:1056-1082 | every DIRTY slot is emitted in slot order and turned CLEAN with the send stamp; others are untouched; nothing is emitted iff no slot is DIRTY |
| Serial.PublishToBuffer | src/sos.c:1029-1085 | a PUBLISH carries exactly the DIRTY slots, leaves none DIRTY, changes nothing else, and sets msg_size to the total length |
| Serial.RepublishSendsNothing | src/sos.c:1056-1082 | publishing again straight away sends no records |
| Serial.DecodeVal | src/sos.c:1219-1237 | a value field is read as the slot's declared type; BYTES reads nothing |
| Serial.DecodeValField | src/sos.c:1219-1237 | decoding a value field by its own type gives the value back |
| Serial.ApplyRecords | src/sos.c:1176-1246 | applying records never changes a slot's state, GUID, name or type, nor anything outside the slots |
| Serial.ApplyPublish | src/sos.c:1176-1246 | SOS_publish_from_buffer keeps states and schema, and an empty body changes nothing |
| Serial.ApplyOneRecord | src/sos.c:1207-1240 | one record updates its slot's times, length and value and the rest of the message is applied after it |
| Serial.FlushThenApply | src/sos.c:1056-1082 | the records flushed from a range of slots, applied to a copy with the same types, deliver exactly the DIRTY slots |
| Serial.PublishRoundTrip | src/sos.c:1029-1246 | a PUBLISH applied to a daemon copy that agrees on the types delivers every DIRTY slot's value, length and times and touches nothing else |
| Serial.AnnounceAlignsTypes | src/sos.c:1161-1170 | after an ANNOUNCE the daemon's copy agrees with a consistent client pub on every slot type |
| Serial.PublishKeepsSchema | src/sos.c:1176-1246 | a PUBLISH leaves the schema alone |
| Serial.AnnounceThenPublish | src/sos.c:1283-1318 | announcing then publishing a client pub leaves the daemon with the client's schema and with the value, length and times of every DIRTY slot |
| Client.ClientPack | src/sos.c:710-827 | a new name takes its GUID from the client pool, which advances or is refilled, and resets `announced`; an existing name draws no GUID |
| Client.Announce | src/sos.c:1249-1280 | SOS_announce sends exactly the message SOS_announce_to_buffer builds for the pub, and marks it announced |
| Client.Publish | src/sos.c:1283-1318 | a pub not announced is announced first with the message SOS_announce_to_buffer builds; then the PUBLISH that SOS_publish_to_buffer builds from the (now announced) pub is always sent, and the pub left is the one it leaves; no slot stays DIRTY and the schema is unchanged |
| Client.SentPublishDelivers | src/sos.c:1283-1318 | the PUBLISH a client sends, applied to a daemon copy that agrees on the slot types, delivers the client's value, length and times for every DIRTY slot and nothing else |
| Client.NewNameForcesAnnounce | src/sos.c:1300-1302 | packing a new name makes the next publish send an ANNOUNCE carrying it first |
| Client.AnnouncedPublishesAlone | src/sos.c:1283-1318 | publishing an announced, unchanged pub sends one empty PUBLISH only |
| Daemon.NatDigitsValue | src/sosd.c:561 | the digits `%ld` prints for a natural number read back as that number |
| Daemon.DecimalStringRoundTrip | src/sosd.c:561 | the key `sprintf(guid_str, "%ld", pub_guid)` builds reads back as the GUID, sign included |
| Daemon.DecimalStringInjective | src/sosd.c:561 | two GUIDs get the same table key exactly when they are equal, so each key files one pub |
| Daemon.Lookup | src/sosd.c:565-574 | get-or-create: a filed pub is returned as is; a new one is empty, of default capacity, titled with its key and stamped with the GUID |
| Daemon.HandleEcho | src/sosd.c:419-437 | ECHO sends back the message after its header and changes nothing |
| Daemon.HandleRegister | src/sosd.c:462-477 | a REGISTER from 0 claims a block and replies with it; any other sender gets "ACK" (4 bytes) and nothing changes |
| Daemon.HandleGuidBlock | src/sosd.c:512-515 | GUID_BLOCK replies with exactly the block `claim_guid_block` hands out of the pool for the configured block size, and the state afterwards differs only in the pool it leaves |
| Daemon.HandleAnnounce | src/sosd.c:527-602 | the pub under pub_guid is found or created, the ANNOUNCE applied, and it is marked ANN_DIRTY; no other pub changes and the table gains at most that key |
| Daemon.HandlePublish | src/sosd.c:605-668 | the pub is found or created, the PUBLISH applied, and its GUID put on the local-sync ring (dropped if full); no other pub changes |
| Daemon.HandleShutdown | src/sosd.c:672-697 | SHUTDOWN replies "I received your SHUTDOWN!" and clears the running flag, nothing else |
| Daemon.HandleUnknown | src/sosd.c:701-724 | any other type gets the "did not understand" reply and changes nothing |
| Daemon.Dispatch | src/sosd.c:272-280 | REGISTER, GUID_BLOCK, ANNOUNCE, PUBLISH, ECHO and SHUTDOWN each reach their own handler and nothing else; unhandled or unknown types go to the unknown handler; only SHUTDOWN stops the daemon; the table grows by at most the message's pub GUID |
| Daemon.ListenStep | src/sosd.c:234-245 | a message shorter than a header is dropped unanswered; anything else is dispatched |
| Daemon.Listen | src/sosd.c:206-289 | the loop answers each message it takes and stops taking messages only once the daemon is no longer running; a running daemon answers the first message with that message's own reply |
| Daemon.ListenAnswersInOrder | src/sosd.c:215-280 | the state after the loop is the listen steps folded over the messages it took, and the i-th reply is the reply to the i-th message in the state the earlier messages left |
| Daemon.ListenStopsAtShutdown | src/sosd.c:206-289 | a running daemon takes exactly the messages up to and including the first SHUTDOWN |
| Daemon.InjectEach | src/sosd.c:351-369 | every listed pub in the table ends ANN_LOCAL; missing GUIDs are skipped; no transaction markers inside the list (its queueing and ordering are stated by InjectQueuesFound and InjectKeepsPerPubOrder) |
| Daemon.InjectQueuesFound | src/sosd.c:362-367 | a cloud put is queued for every listed GUID that has a pub, in list order, and for nothing else |
| Daemon.InjectKeepsPerPubOrder | src/sosd.c:362-367 | for each pub the schema insert comes straight before its value insert, and the value insert straight before its cloud put |
| Daemon.InjectBatch | src/sosd.c:351-406 | a batch is one Begin, exactly the per-pub events and table of the per-pub pass, and one Commit |
| Daemon.InjectWritesFound | src/sosd.c:351-369 | the values of every listed GUID with a pub are inserted, in list order |
| Daemon.InjectInsertsPubOnce | src/sosd.c:362-365 | a pub's schema is inserted at most once per batch, and only if it had not been written locally |

## Left out

- Sockets, `SOS_send_to_daemon`, the `recv` accumulation loop, socket setup, forking, lock files and logging are OS I/O. Only the messages produced and the replies sent are modelled.
- Threads, mutexes and condition variables are left out, including the extractor thread's timed wait. Each operation is atomic.
- The daemon's rank-partitioned GUID range is left out because it is computed with `long double` division. The daemon's pool is a parameter.
- The database and cloud glue (`sosd_db_sqlite.c`, `sosd_cloud_evpath.c`) appears only as the abstract events `Begin`, `InsertPub`, `InsertData`, `CloudPut` and `Commit`.
- The injector's cloud target (`src/sosd.c:371-399`) is not modelled. It resets the same `announced` flag, so "schema inserted once" holds only for the local target.
- `SOS_display_pub`, `SOS_free_pub`, `SOS_subscribe`, `SOS_unannounce`, `sosa.h`, the examples and the Python binding are outside the core.
- `sos.h` is not part of this model. Its constants are parameters.
- The IEEE-754 packing routines are not modelled, because doubles and timestamps are opaque.
- Text.StripChar: one Dafny `char` stands for one C byte. The C loop works on bytes, so a multi-byte UTF-8 character becomes several `#`, and `strlen`, `val_len` and the packed field sizes count bytes; the model counts characters.
- Daemon.ListenStep: the header is an abstract four-field record. Clients pack it as `"llqq"` and the daemon unpacks `"iill"`, and without the codec it cannot be decided whether the two agree.
- Serial.AnnounceFromBuffer: the daemon creates a pub titled with its GUID key, whose title buffer holds `strlen(guid_str) + 1` bytes (src/sosd.c:569, 635 and src/sos.c:531), and then unpacks the client's whole title into it (src/sos.c:1124). A longer title overruns the buffer. The model stores the full title.
- Serial.AnnounceFromBuffer: slots added by `SOS_expand_data` are zeroed, so their `name` is NULL (src/sos.c:595), and the definitions are unpacked into it (src/sos.c:1164). The model stores the name; in C the unpack writes to a NULL `name`.
- Serial.AnnounceFromBuffer, Serial.ParseDefs: the source accepts two ANNOUNCE messages that the model refuses. The model returns a failure, so the daemon keeps the old pub.
  - With a negative element count, the expand loop (src/sos.c:1152-1156) is skipped and the count is stored negative. The definition loop (src/sos.c:1160) then reads nothing. The GUID, identity and count are applied.
  - With an unknown value-type ordinal, the value is stored as the slot's `type` unchecked (src/sos.c:1163-1166). The switch of a later PUBLISH (src/sos.c:1219-1236) has no default, so it reads no value for that slot.

  A negative `elem_count` breaks the model's invariant that the count is a natural number within capacity, and `vtype` is an enumerated type. These two cases are therefore not modelled.
- Serial.AnnounceFromBuffer: a malformed or missing field is a failure. The source unpacks without checks and would read past the buffer.
- Serial.ApplyRecords: the source indexes `pub->data[elem]` without a bounds check. Here an index outside the pub's storage is a failure.
- Serial.ApplyRecords: a STRING value is unpacked with `"s"` into `val.c_val` (src/sos.c:1234-1235), which is NULL in a slot the daemon never packed into. The model stores the string; in C the unpack writes to a NULL `c_val`, unless the codec, which is not part of this model, allocates it.
- Serial.ApplyRecords: records are read until the field list ends, not until `msg_size` bytes are consumed.
- Serial.RecordFields: the value field is packed by the value's own kind, where the source switches on the slot's declared type. The two agree on every consistent pub, which is every pub a client builds.
- Serial.DecodeVal: the wire fields carry unbounded integers, so `BadValue` for an I32 or I64 field outside the 32-bit or 64-bit range is a failure only the model has; a real buffer cannot hold such a field.
- Serial.DecodeVal: a BYTES slot reads no value field, because the source's switch has no case for it. The value stays as it was and `val_len` is still updated.
- Pubs.Pack: the memory-level defects are idealised away. The NUL is written one past a `len + 1` allocation, and the update and expand paths never zero the new string.
- Pubs.Overwrite: the source compares the stored union through the member the NEW pack type selects (src/sos.c:647-706), so a stored long and a packed int compare only their `i_val` bits. The model compares the sum values, so an int and a long with the same bits count as different and the slot turns DIRTY.
- Pubs.Pack: SOS_pack with SOS_VAL_TYPE_BYTES (src/sos.c:687, 746, 801) stores the value, marks the slot DIRTY and leaves `val_len` as it was (src/sos.c:695-700, 760-765, 815-820). `Pubs.Val` has no BYTES value, so this path is not modelled.
- Pubs.Repack: the STRING path (src/sos.c:857-861) allocates `len + 1` bytes but zeroes only `len` of them and copies `len`, so the stored string has no guaranteed NUL terminator. A later `strcmp`, `strlen` or `"s"` pack may read past it. The model stores the full string with `val_len` equal to its length.
- Pubs.Repack: requires the new value to have the slot's declared type. The source reinterprets the union by the slot's type, which this model cannot express.
- Pubs.NewPubSized: the identity strings are copied with `strncpy` into `SOS_DEFAULT_STRING_LEN` bytes (src/sos.c:553-555), so a longer node id or program name is cut off and left unterminated. The model copies them whole. Roles are reduced to client, daemon and "any other role": the roles of `sos_types.h` other than these two draw a GUID and copy no identity (src/sos.c:515-519, 551), which `OtherRoleCreator` models.
- Ring.RingInit: requires a positive size. `SOS_DEFAULT_RING_SIZE` is positive, and `% 0` would be undefined.
- Guid.ClaimGuidBlock: the block size is a natural number. `SOS_DEFAULT_GUID_BLOCK` is positive.
- Guid.UidNext: the client's refill request is not modelled. The daemon's answer is the `refill` parameter.
- Daemon.HandlePublish: `SOSD_check_sync_saturation` and the signal to the extractor are left out. They only wake a thread.

## Findings

| source | as written | input that shows it | evidently intended | confidence | as-written member | corrected member |
|---|---|---|---|---|---|---|
| src/sos.c:290 | `SOS_ring_get_all` copies `count` longs starting at `read_elem` in one `memcpy`, ignoring the wrap | a ring of size 2: put 7, put 8, get, put 9 leaves read = 1 and count = 2, so the copy reads slot 2, past the array | return the queued items oldest first, following the wrap | not executed | Ring.GetAllOverrun | Ring.GetAll |
