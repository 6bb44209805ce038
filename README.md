# NFC door lock: card resolution and relay dispatch

This project models an NFC door lock built from three boards:

- A card reader (an Arduino) prints a line for each card it sees.
- A script on a Raspberry Pi resolves the card against a SQLite database of card ids and ranks. It maintains the administrative modes, logs each presentation and reports the result over serial.
- A Thunderbird (HCS12) board drives the door-strike relay from the characters it receives.

Two variants of the Raspberry Pi script exist:

- `nfcdoorlock.py` answers with binary bytes. Its learning and deleting modes persist until a card of the same rank is shown again, whichever card of that rank turned them on.
- `DoorLock_RaspberryPi.py` answers in ASCII to both the Arduino and the Thunderbird. Its programming and deleting modes act on a single card.

They share the database layout, the `Rank` enumeration (0 unknown, 1 user, 2 administrator, 3 wipe, 4 programming, 5 delete, 6 master) and `addDefaultCards`. That procedure inserts five bootstrap cards when they are absent.

Files:

- `wrappers.dfy`: `Option`.
- `conversions.dfy`: the Python built-ins the scripts rely on: `int(text)`, `str(n)` and `n.to_bytes(len, 'big')`, with their round trips.
- `store.dfy`: the `CardIDs` table as a map and `UsageLog` as an append-only sequence, the ranks and the bootstrap cards. It contains the class `CardStore`, with one method per SQL statement the scripts issue, or per fixed sequence of them. `addDefaultCards` is proved to equal a map union with the bootstrap table, with existing rows taking precedence.
- `nfc_door_lock.dfy`: the `nfcdoorlock.py` loop body.
  - A pure step function `Step` / `CardEvent`.
  - The class `Lock`, whose `HandleLine` is proved to perform exactly that step.
  - Lemmas for the mode invariant and for each branch.
- `raspberry_pi.dfy`: the `DoorLock_RaspberryPi.py` loop body.
  - A pure step function `Step` / `CardEvent`.
  - The class `DoorLock`, which appends what it writes to two text sinks.
  - Lemmas for each mode.
  - Lemmas connecting its Thunderbird output to the Thunderbird model.
- `thunderbird.dfy`: the Thunderbird `main` loop.
  - A per-character specification `Serve`.
  - The class `Controller` with `PORTB`, `DDRB`, `ticks` and `c`. Its nested loops are proved to follow `Serve`.
  - The theorem that the door is open only between a '1' or '2' and the next 'c'.

What the code does in three places that are easy to misread:

- An enroll of an id that is already stored is not skipped. In `nfcdoorlock.py` a stored row of rank 0 makes the INSERT hit the primary key, the exception ends the loop, and this is `DuplicateCard`. The same holds in `DoorLock_RaspberryPi.py`.
- A wipe card empties the table and does not re-provision it.
- `nfcdoorlock.py` keeps a mode on until it is toggled off; only `DoorLock_RaspberryPi.py` ends a mode after one card.

## Model

| member | source | states |
|---|---|---|
| Conversions.ParseDecimal | nfcdoorlock.py:61 | `int(text)` succeeds exactly on a non-empty string of decimal digits |
| Conversions.ShowNat | DoorLock_RaspberryPi.py:155 | `str(n)` is non-empty, all digits, and has no leading zero |
| Conversions.ShowInt | DoorLock_RaspberryPi.py:94 | `str(rank)` is the decimal text of any integer: for n >= 0 it parses back to n, for n < 0 it is a minus sign followed by text that parses back to -n; a rank 0..9 prints as its single digit |
| Conversions.ParseShowNat | DoorLock_RaspberryPi.py:66 | `int(str(n)) == n` for every natural `n` |
| Conversions.FromBytesBE | nfcdoorlock.py:108 | decoding `k` big-endian bytes gives a value below 256^k |
| Conversions.EncodeBE | nfcdoorlock.py:108 | the `k` big-endian bytes of a value below 256^k decode back to it |
| Conversions.ToBytesBE | nfcdoorlock.py:108-111 | `to_bytes(k, 'big')` succeeds exactly for 0 <= n < 256^k, with `k` bytes that decode to `n`; otherwise it is the `OverflowError` |
| Conversions.OneByte | nfcdoorlock.py:111 | a value 0..255 encodes as the single byte equal to it |
| Store.RankOf | nfcdoorlock.py:63-76 | the rank a lookup resolves to: the stored rank, or 0 for a missing row; `Store.CardStore.Lookup` returns it |
| Store.Touched | nfcdoorlock.py:74-79 | the `LastUsed` update keeps every key, every rank and name, and every other row; a present card gets `now` |
| Store.NameOf | DoorLock_RaspberryPi.py:139-148 | the stored name, or nothing for a missing row or a NULL name; `Store.CardStore.FetchName` returns it and `RaspberryPi.NameText` falls back on the id |
| Store.AddIfAbsent | nfcdoorlock.py:127-130 | one bootstrap step adds its id, keeps every existing row, and stores its record only when the id was absent |
| Store.WithDefaults | nfcdoorlock.py:125-154 | the table after `addDefaultCards` is the bootstrap table overridden by the rows already present |
| Store.DefaultTable | nfcdoorlock.py:125-154 | the bootstrap table holds exactly the five fixed ids, each with its fixed rank and name |
| Store.InsertAbsent | nfcdoorlock.py:125-154 | inserting records only where their id is absent equals the union with the table's rows winning |
| Store.DefaultsPresent | DoorLock_RaspberryPi.py:171-200 | after `addDefaultCards` the ids are the old ones plus the five bootstrap ids |
| Store.DefaultsKeepRows | DoorLock_RaspberryPi.py:171-200 | `addDefaultCards` never changes or removes an existing row |
| Store.DefaultsIdempotent | nfcdoorlock.py:125-154 | a second `addDefaultCards` changes nothing |
| Store.WipeThenDefaults | nfcdoorlock.py:96-101 | re-provisioning an empty table yields exactly the five bootstrap rows, none of them below administrator |
| Store.DefaultsUnrolled | nfcdoorlock.py:125-154 | the five check-then-insert steps in source order compose to the union with the bootstrap table |
| Store.CardStore.constructor | nfcdoorlock.py:17-18 | a connection opens on the tables as they already stand |
| Store.CardStore.Lookup | nfcdoorlock.py:64-79 | the rank is the stored one or 0 when absent; only the card's own `LastUsed` changes; the log is untouched |
| Store.CardStore.Contains | nfcdoorlock.py:127-129 | the existence query finds a row exactly when the id is stored |
| Store.CardStore.FetchName | DoorLock_RaspberryPi.py:139-148 | the name query yields the stored name, or nothing for a missing row or a NULL name |
| Store.CardStore.Insert | nfcdoorlock.py:92 | the INSERT succeeds exactly when the id is absent, adding that one row; otherwise nothing changes |
| Store.CardStore.Remove | nfcdoorlock.py:95 | the DELETE removes exactly that id's row |
| Store.CardStore.RemoveAll | nfcdoorlock.py:98 | the wipe leaves `CardIDs` empty and the log untouched |
| Store.CardStore.AppendUsage | nfcdoorlock.py:104 | the log INSERT appends its row exactly when no row has that time, and fails otherwise |
| Store.CardStore.AddDefault | nfcdoorlock.py:127-130 | one bootstrap step inserts its record only when the id is absent |
| Store.CardStore.AddDefaultCards | nfcdoorlock.py:125-154 | the table becomes the union with the bootstrap table; the log is untouched |
| NfcDoorLock.Take | nfcdoorlock.py:59 | `rx[:9]` is the first `min(len, 9)` characters |
| NfcDoorLock.ParseLine | nfcdoorlock.py:53-61 | a line counts as a card line exactly when it has at least 11 characters and starts with `Card ID: `; the id is the decimal text up to the two-character ending |
| NfcDoorLock.ParseCardLine | nfcdoorlock.py:53-61 | the reader's line `Card ID: <n>` plus any 2-character ending parses back to `n` |
| NfcDoorLock.Toggle | nfcdoorlock.py:82-88 | a programming card flips learning only when not deleting; a delete card flips deleting only when not learning and records its id; no other card changes a mode; the modes stay exclusive |
| NfcDoorLock.ChooseAction | nfcdoorlock.py:90-101 | the branch taken after the toggles, in the source's priority order; pinned down by `NfcDoorLock.LearningEnrolls`, `NfcDoorLock.LearningDuplicateHalts`, `NfcDoorLock.DeletingRemoves`, `NfcDoorLock.WipeEmptiesTable`, `NfcDoorLock.MasterReprovisions` and, for no branch, `NfcDoorLock.OrdinaryCardOnlyTouched` |
| NfcDoorLock.Perform | nfcdoorlock.py:91-101 | the table change each branch makes when its statement succeeds; `NfcDoorLock.Lock.ApplyAction` performs it |
| NfcDoorLock.Reply | nfcdoorlock.py:106-111 | the serial writes after logging; pinned down by `NfcDoorLock.ReplyLayout` and `NfcDoorLock.ReplyFailures` |
| NfcDoorLock.CardEvent | nfcdoorlock.py:63-111 | the loop body for a card id; pinned down by `NfcDoorLock.StepKeepsInvariant`, the branch lemmas and `NfcDoorLock.OneLogRowPerEvent` |
| NfcDoorLock.Step | nfcdoorlock.py:53-111 | one loop iteration on a received line; pinned down by `NfcDoorLock.IgnoredLine`, `NfcDoorLock.ParseCardLine` and `NfcDoorLock.StepKeepsInvariant` |
| NfcDoorLock.StepKeepsInvariant | nfcdoorlock.py:82-101 | every line keeps the modes exclusive, and keeps `deletingCard` a stored delete card while deleting |
| NfcDoorLock.DeleteCardStartsDeleting | nfcdoorlock.py:84-95 | the delete card that turns deleting on is recorded as `deletingCard` and kept: deleting is on and its rank is above 0, so only the `cardId != deletingCard` guard stops the removal |
| NfcDoorLock.DeleteCardEndsDeleting | nfcdoorlock.py:84-95 | while deleting is on, any delete card, the initiator included, ends deleting and is kept, so once deleting is on the `cardId != deletingCard` guard never decides |
| NfcDoorLock.OrdinaryCardOnlyTouched | nfcdoorlock.py:79-104 | outside deleting a stored user, administrator or programming card changes the table only in its `LastUsed`, is logged with its rank, and changes the modes only through the toggles |
| NfcDoorLock.LearningDuplicateHalts | nfcdoorlock.py:90-92 | while learning, a stored card of rank 0 makes the enroll INSERT fail: the loop halts with only `LastUsed` changed, no log row and nothing written |
| NfcDoorLock.IgnoredLine | nfcdoorlock.py:53-59 | a line that is not a card line changes nothing and writes nothing |
| NfcDoorLock.UnknownCardOnlyLogged | nfcdoorlock.py:64-111 | outside learning an unknown card only adds a rank-0 log row, and the reply carries rank 0 |
| NfcDoorLock.LearningEnrolls | nfcdoorlock.py:90-111 | while learning, an unknown card is stored as (1, NULL, NULL), learning stays on, rank 0 is logged and sent, and the card now resolves to a user |
| NfcDoorLock.DeletingRemoves | nfcdoorlock.py:93-95 | while deleting, any stored card of rank above 0 other than a delete card is removed, special cards included; nothing else changes; deleting stays on |
| NfcDoorLock.WipeEmptiesTable | nfcdoorlock.py:96-98 | outside deleting a wipe card empties `CardIDs`, bootstrap cards included |
| NfcDoorLock.MasterReprovisions | nfcdoorlock.py:99-101 | outside deleting a master card re-provisions: all five bootstrap ids are present and every row is kept |
| NfcDoorLock.OneLogRowPerEvent | nfcdoorlock.py:104 | each card event appends exactly one row `(now, id, rank before the event)`, unless the enroll or log INSERT failed; the log fails exactly when the time is taken |
| NfcDoorLock.ReplyLayout | nfcdoorlock.py:106-111 | the reply is 4 id bytes (when `sendCard`) then one rank byte; the 4 bytes decode to the id |
| NfcDoorLock.ReplyFailures | nfcdoorlock.py:106-111 | the reply fails exactly when a sent id needs more than 4 bytes or the rank more than one |
| NfcDoorLock.EnrollScenario | nfcdoorlock.py:82-111 | programming card, unknown card, programming card, the same unknown card: learning turns on and off, the card is enrolled and then resolves to a user, with four log rows |
| NfcDoorLock.Lock.constructor | nfcdoorlock.py:20-45 | startup: both modes off, `deletingCard` 0, bootstrap cards added to the existing table |
| NfcDoorLock.Lock.HandleLine | nfcdoorlock.py:48-114 | one loop iteration performs `Step` exactly and keeps the mode invariant |
| NfcDoorLock.Lock.HandleCard | nfcdoorlock.py:63-111 | the loop body for a card id performs `CardEvent` exactly |
| NfcDoorLock.Lock.ToggleModes | nfcdoorlock.py:81-88 | the toggle statements change the modes as `Toggle` does |
| NfcDoorLock.Lock.ApplyAction | nfcdoorlock.py:90-101 | the branch chosen in priority order (enroll, delete, wipe, master) is applied, or nothing changes when the enroll INSERT fails |
| NfcDoorLock.Lock.WriteReply | nfcdoorlock.py:106-111 | the serial writes are the reply bytes, and complete exactly when the id (if sent) and rank fit |
| RaspberryPi.Announce | DoorLock_RaspberryPi.py:90-96 | the rank text both boards get first, only when idle; pinned down by `RaspberryPi.IdleEvent` and `RaspberryPi.ThunderbirdText` |
| RaspberryPi.Resolve | DoorLock_RaspberryPi.py:98-125 | from exclusive modes the `if/elif` chain leaves both modes off; it writes acknowledgements exactly outside idle, changes no row but the card's own in a mode, and changes the table when idle only for a wipe or master card |
| RaspberryPi.Toggle | DoorLock_RaspberryPi.py:127-131 | a programming card flips programming only when not deleting; a delete card flips deleting only when not programming; no other card changes a mode; the modes stay exclusive |
| RaspberryPi.Chain | DoorLock_RaspberryPi.py:98-131 | the chain and toggles fail exactly on enrolling a stored id; otherwise, from exclusive modes, programming is then on exactly for a programming card and deleting for a delete card |
| RaspberryPi.NameText | DoorLock_RaspberryPi.py:137-155 | the name text: the stored name, or the id in decimal when there is none; pinned down by `RaspberryPi.IdleEvent` and `RaspberryPi.DeletingRemovesUser` |
| RaspberryPi.Prepare | DoorLock_RaspberryPi.py:71-131 | the pass up to the log INSERT; `RaspberryPi.DoorLock.PrepareCard` performs it |
| RaspberryPi.LogTail | DoorLock_RaspberryPi.py:133-155 | the log INSERT and the name; pinned down by `RaspberryPi.OneLogRowPerEvent` |
| RaspberryPi.CardEvent | DoorLock_RaspberryPi.py:66-155 | the pass for a card id; pinned down by `RaspberryPi.ModesAfterEvent` and the mode lemmas |
| RaspberryPi.Step | DoorLock_RaspberryPi.py:55-159 | one loop iteration; pinned down by `RaspberryPi.UnusableLine`, `RaspberryPi.NonNumericLine`, `RaspberryPi.CardLine` and `RaspberryPi.StepKeepsExclusive` |
| RaspberryPi.UnusableLine | DoorLock_RaspberryPi.py:55-159 | a line too short for a card id changes nothing and writes only 'c' to each board |
| RaspberryPi.NonNumericLine | DoorLock_RaspberryPi.py:63-66 | a long enough line that is not decimal ends the loop with nothing written |
| RaspberryPi.CardLine | DoorLock_RaspberryPi.py:55-66 | the Arduino's line for card `n` is processed as the card event for `n` followed by 'c' to both boards |
| RaspberryPi.ModesAfterEvent | DoorLock_RaspberryPi.py:98-131 | after any card event, programming is on exactly for a programming card and deleting exactly for a delete card; a failed enroll changes no mode |
| RaspberryPi.StepKeepsExclusive | DoorLock_RaspberryPi.py:127-131 | programming and deleting are never both on |
| RaspberryPi.IdleEvent | DoorLock_RaspberryPi.py:89-155 | idle: both boards get `str(rank)`; the Arduino then gets the name for ranks 1 and 2; a wipe card empties and a master card re-provisions the table; other cards change only `LastUsed` |
| RaspberryPi.ProgrammingEnrolls | DoorLock_RaspberryPi.py:98-108 | programming: an unknown card is stored as a user, the Arduino gets "1", the Thunderbird "4", and programming ends |
| RaspberryPi.ProgrammingRefusesKnown | DoorLock_RaspberryPi.py:98-155 | programming: a stored card is not changed (wipe and master not acted on); the Arduino gets exactly "0" followed by the name for a user or administrator; the Thunderbird gets "4"; programming ends unless the card is a programming card, and a delete card turns deleting on |
| RaspberryPi.DeletingRemovesUser | DoorLock_RaspberryPi.py:109-155 | deleting: a user card is deleted, the Arduino gets "1" then the decimal id (its row is gone), the Thunderbird "5", and deleting ends |
| RaspberryPi.DeletingRefusesOthers | DoorLock_RaspberryPi.py:109-155 | deleting: a card that is not a user card is kept; the Arduino gets exactly "0" followed by the name for an administrator; the Thunderbird gets "5"; deleting ends unless the card is a delete card, and a programming card turns programming on |
| RaspberryPi.OneLogRowPerEvent | DoorLock_RaspberryPi.py:134 | each completed card event appends exactly one row with the rank before the event; the log fails exactly when the time is taken |
| RaspberryPi.ShowIntHasNoC | DoorLock_RaspberryPi.py:94-96 | the rank text never contains 'c' |
| RaspberryPi.ThunderbirdText | DoorLock_RaspberryPi.py:89-118 | a completed event sends the Thunderbird `str(rank)` when idle, "4" when programming, "5" when deleting |
| RaspberryPi.GrantingRanks | DoorLock_RaspberryPi.py:202-209 | among ranks 0..6, only user and administrator print with a leading '1' or '2' |
| RaspberryPi.DoorFollowsMessage | DoorLock_Thunderbird/Sources/main.c:65-85 | a locked Thunderbird fed one event's text is open exactly when the Pi was idle and the card is a user or administrator (for ranks 0..6); the closing 'c' locks it |
| RaspberryPi.LogFailureLeavesDoorOpen | DoorLock_RaspberryPi.py:90-134 | if the log INSERT fails after an idle user or administrator card, the rank has gone out, no 'c' follows, and the Thunderbird stays unlocked |
| RaspberryPi.DoorLock.constructor | DoorLock_RaspberryPi.py:22-41 | startup: both modes off, nothing written, bootstrap cards added |
| RaspberryPi.DoorLock.HandleLine | DoorLock_RaspberryPi.py:45-159 | one loop iteration performs `Step` exactly, appending its writes to the two sinks, and keeps the modes exclusive |
| RaspberryPi.DoorLock.HandleCard | DoorLock_RaspberryPi.py:66-155 | the card pass performs `CardEvent` exactly |
| RaspberryPi.DoorLock.PrepareCard | DoorLock_RaspberryPi.py:71-131 | lookup, idle announcement, chain and toggles perform `Prepare` exactly |
| RaspberryPi.DoorLock.ResolveAndToggle | DoorLock_RaspberryPi.py:98-131 | the chain then the toggles perform `Chain`, changing nothing when the enroll INSERT fails |
| RaspberryPi.DoorLock.AnnounceRank | DoorLock_RaspberryPi.py:90-96 | idle: `str(rank)` is appended to both sinks; otherwise nothing |
| RaspberryPi.DoorLock.LogAndName | DoorLock_RaspberryPi.py:133-155 | the log INSERT and then the name for ranks 1 and 2 perform `LogTail` exactly |
| RaspberryPi.DoorLock.ResolveCard | DoorLock_RaspberryPi.py:98-125 | the `if/elif` chain performs `Resolve`, or changes and writes nothing when the enroll INSERT fails |
| RaspberryPi.DoorLock.ToggleModes | DoorLock_RaspberryPi.py:127-131 | the toggle statements change the modes as `Toggle` does |
| Thunderbird.AfterLock | DoorLock_Thunderbird/Sources/main.c:158-164 | `lock()` sets the relay bit, resets `ticks`, and keeps every other bit of `PORTB` |
| Thunderbird.AfterUnlock | DoorLock_Thunderbird/Sources/main.c:169-175 | `unlock()` clears the relay bit, keeps every other bit, and shows success |
| Thunderbird.Dispatch | DoorLock_Thunderbird/Sources/main.c:65-76 | '0' locks and shows failure, '1' and '2' unlock, any other character changes nothing |
| Thunderbird.Step | DoorLock_Thunderbird/Sources/main.c:61-86 | a 'c' ends the message, locked with `ticks` 0; while draining, nothing but that final lock changes |
| Thunderbird.Serve | DoorLock_Thunderbird/Sources/main.c:59-87 | the loop is inside a message exactly when the last character read is not 'c'; between messages the door is locked with `ticks` 0 |
| Thunderbird.OpenOnlyWithinGrant | DoorLock_Thunderbird/Sources/main.c:65-85 | from locked, the door is open after any input exactly when the current message began with '1' or '2' and its 'c' has not arrived |
| Thunderbird.OneMessage | DoorLock_Thunderbird/Sources/main.c:65-85 | one message without 'c' leaves the door open exactly when it starts with '1' or '2'; the 'c' locks it |
| Thunderbird.ServeSplit | DoorLock_Thunderbird/Sources/main.c:79-85 | after a 'c' the loop restarts at a message boundary, so consecutive messages compose |
| Thunderbird.ServeKeepsOtherBits | DoorLock_Thunderbird/Sources/main.c:158-171 | the loop never changes a `PORTB` bit other than the relay's |
| Thunderbird.Controller.constructor | DoorLock_Thunderbird/Sources/main.c:54-55 | `DDRB` and `PORTB` start as `RELAY_PIN`, so the door starts locked |
| Thunderbird.Controller.Lock | DoorLock_Thunderbird/Sources/main.c:158-164 | `lock()` is `AfterLock` |
| Thunderbird.Controller.Unlock | DoorLock_Thunderbird/Sources/main.c:169-175 | `unlock()` is `AfterUnlock` |
| Thunderbird.Controller.ShowFailure | DoorLock_Thunderbird/Sources/main.c:130-153 | `auth_failed()` records a failure alert and nothing else |
| Thunderbird.Controller.SkipToC | DoorLock_Thunderbird/Sources/main.c:79-82 | the wait loop consumes up to and including the next 'c' without touching the relay, or reports that the input ran out |
| Thunderbird.Controller.ReadMessage | DoorLock_Thunderbird/Sources/main.c:63-85 | one message (switch, wait for 'c', lock) follows `Serve` |
| Thunderbird.Controller.Run | DoorLock_Thunderbird/Sources/main.c:59-87 | the main loop over the whole input ends in the board and position `Serve` gives, and `c` is the last character read |

## Left out

- Serial I/O is not modelled: `serial.Serial`, `readline`, `write`, `close`, and the UTF-8 decode of incoming lines and encode of outgoing text. Lines are given as strings. The Raspberry Pi's writes are appended to two strings, and the nfcdoorlock.py replies are returned as byte sequences.
- SQL is not modelled: the SQL text, schema creation, `VACUUM` and `executescript`. Each statement is a `CardStore` method on a map and a sequence.
- Commit and rollback are not modelled. nfcdoorlock.py commits after each event. DoorLock_RaspberryPi.py never calls `commit()`; its only commits are the implicit ones `executescript` makes at startup (DoorLock_RaspberryPi.py:28) and on a wipe (DoorLock_RaspberryPi.py:122). The model keeps every write in memory, including the uncommitted writes of an event that raised.
- Exceptions are not propagated. The single `except` that ends either loop appears as a failure value in the step's result; the traceback and the closing of the ports are left out.
- Time is not modelled: `datetime('now')` is the parameter `now`, in whole seconds. The source calls it twice per event, once for the `LastUsed` update and once for the log row, and the two calls can fall in different seconds; one `now` stands for both. No proved property depends on the two being equal. `time.sleep` and `ms_delay` are left out.
- Console output is left out: `print` and the Thunderbird's LED, motor (PWM) and piezo routines. `auth_success` and `auth_failed` are kept only as an entry in an alert list.
- Thunderbird setup and interrupts are left out: PLL, SCI and motor initialisation, the two interrupt handlers, and the receive queue (`qstore`/`getq`/`qempty`). The queue is replaced by a finite character sequence.
- `ticks` is only ever reset by the modelled code, so its 16-bit width is not modelled.
- Card ids are unbounded naturals, so distinct ids are always distinct keys. The scripts format the id into the SQL text, and SQLite stores an integer literal above 2^63-1 as a REAL, so ids that large can share a row in SQLite. The model assumes every id is below 2^63.
- Conversions.ParseDecimal: narrows Python's `int()` to ASCII decimal digits. It does not accept surrounding whitespace, a sign or underscores, which `int()` does.
- NfcDoorLock.Lock.constructor: takes `sendCard` as a parameter; nfcdoorlock.py fixes it to `False` at startup.
- Thunderbird.Controller.Run: when the input runs out while the board waits for a 'c', it returns `blocked` instead of spinning forever on the empty queue.
- LBE_Thunderbird/Sources/main.c is not part of this model: it is a board LED demo with no door-lock logic.
