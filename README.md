# denhac card access automation, modelled in Dafny

denhac's card service connects member sign-ups to a WinDSX door-access installation. This
project models its core and proves properties of that model.

- **Requests come in.** An *ingester* picks up JSON requests from an ingest directory and from
  the webhook server. Each request becomes an enable-card or disable-card command on a shared
  queue. A webhook update whose id has already been queued is not queued again. Files from
  the ingest directory are queued without an id check.
- **Commands are handed to WinDSX.** A *processor* takes one command per cycle. It writes the
  command as a DSX import file into the first free `^IMPnn.txt` slot (there are 100) and
  remembers which file belongs to which command. Once WinDSX has consumed a file, the processor
  reports the command's status: `success`, `not_done`, `error_multiple_card_holders` or
  `deactivate_card_not_found`.
- **The DSX import format.** Writing a command produces a header line `I L<grp> U<udf> ^<id>^^^`,
  then `T …` / `F …` / `W` records for the name, the UDF rows and the cards, then `P`.
- **Direct activation.** `WinDSXCardActivations` activates and deactivates cards by writing the
  WinDSX Access database rows itself:
  - the person, found by a UUID key, by name and company, or created;
  - the card;
  - the ACL-group combo (AclGrpCombo) holding the default access group;
  - the device groups and ACL entries per time zone;
  - the LocCards slots.

  It then asks the Comm Server for a full download and waits for it.
- **Door overrides.** A *door override watcher* opens doors on request for a number of seconds,
  sends `DoorOverride` frames to the Comm Server, and returns each door to its time zone when
  its count reaches zero.
- **Tokens.** `DataSigning` issues and checks expiring HMAC-signed tokens.

Each core Python file is one Dafny module. `activations.py` is spread over five files; the
class is in `activations.dfy`.

- **Value-level code** is datatypes, functions and lemmas: the DSX record layout, status
  decisions, request translation, token signing and door frames.
- **Code that updates state in place** is imperative Dafny, each method proved against a
  specification function:
  - the DSX command and card objects (`Dsx.DsxCommand`, `Dsx.DsxCard`);
  - the command queue;
  - the ingester's seen-id set;
  - the processor's command-to-file table;
  - the watcher's door table;
  - the Access database tables (`Activations.AcsDatabase`), with the
    `WinDsxCardActivations` methods that write them.

The loops of the source stay loops:
- the slot search;
- the placement check;
- the grouping of time zones;
- the 128-bit device comparison;
- the SQL text builders;
- the download poll.

The five `pop`s that fill the LocCards slots are straight-line code in the source and in the
model (`ActivationSlots.PopSlots`).

**The database model.**
- Database tables are sequences of rows in query order.
- `fetchval` and `fetchone` return the first matching row.
- `SELECT @@IDENTITY` reads one counter (`identity`). The inserts that give a row an id of its
  own advance it: NAMES, CARDS, LocCards and the first AclGrpCombo row of a new combo. The UDF
  rows and the per-name AclGrpCombo rows carry no id of their own here, so inserting them leaves
  the counter alone.
- `AcsDatabase.Valid` says four things:
  - every NAMES, AclGrpCombo, CARDS and LocCards id is below that counter;
  - CARDS ids are unique;
  - each card has at most one LocCards row;
  - the rows of each AclGrpCombo combo are adjacent in query order (`Contiguous`).

  The database does not promise that last order. Without it, `groupby` can misread a combo
  (`ActivationCombos.ScatteredComboMisread`).

**The environment is passed in as parameters.**
- the clock (`now`);
- `uuid5` of the user id (`uuidOf`) and `uuid4` (`freshId`);
- the files that exist in a directory (`existing`);
- the card-holder lookups of the card access system (`holders`, `holdersOf`);
- the Comm Server's `FullDlFlag` answers (`poll`);
- HMAC-SHA256, base64, JSON and ISO-8601, supplied as a `DataSigning.Codec` record. The token
  round trip is proved for every codec whose parts invert each other (`WellBehaved`).

**The source's own behaviour is modelled as written**, including these quirks:
- A name inserted by `_find_or_create_name` is not returned, because the insert path ends
  without `return`. Its card is therefore written with a NULL name.
- The device-group INSERT is built with a stray leading `, ` in its VALUES list, so creating a
  device group always fails.
- The ACL creation path reads `x.DGrp` from rows of `SELECT Acl`, so it always raises.
- `groupby` groups only adjacent rows. `ActivationCombos.ScatteredComboMisread` exhibits a
  table on which the combo search returns a combo whose members differ from the known set.
- `sys.exit(1)` inside the processor thread ends that thread after the import file has been
  opened, so the file is left empty.

## Model

| member | source | states |
|---|---|---|
| Text.LStripZeros | card_auto_add/dsx.py:37 | the stripped number is no longer than the original and does not start with '0' |
| Text.LStripZerosSuffix | card_auto_add/dsx.py:37 | the result is a suffix of the input and everything removed was '0' |
| Text.LStripZerosIdempotent | card_auto_add/windsx/activations.py:167 | stripping an already stripped card number changes nothing, so CARDS codes compare equal however many zeros the request carries |
| Text.DigitValue | card_auto_add/loops/processor.py:68 | the value of a digit character is below 10 and formats back to the same character |
| Text.NatToStringRoundTrip | card_auto_add/windsx/activations.py:333-334 | the decimal text of a number is all digits and reads back as that number |
| Text.IntToString | card_auto_add/windsx/door_override.py:27 | an integer's text is non-empty and starts with '-' exactly when the integer is negative |
| Text.IntToStringRoundTrip | card_auto_add/windsx/door_override.py:27 | an integer's decimal text parses back to the same integer |
| Clock.PadValue | card_auto_add/dsx.py:66-68 | a zero-padded field is all digits and has the padded number as its value |
| Clock.FormatMinutesRoundTrip | card_auto_add/dsx.py:66-68 | `%m/%d/%Y %H:%M` of a valid date parses back to its year, month, day, hour and minute (seconds are dropped) |
| Dsx.FieldLineRoundTrip | card_auto_add/dsx.py:14-16 | an `F <field> ^<value>^^^` line yields its value back for that field and is never the record terminator `W` |
| Dsx.NameRecordRoundTrip | card_auto_add/dsx.py:11-18 | a name record is five lines from `T Names` to `W` and parses back to the same first name, last name and company |
| Dsx.UdfRecordRoundTrip | card_auto_add/dsx.py:26-32 | a UDF record is four lines from `T UDF` to `W` and parses back to the same number and text |
| Dsx.CardRecordLayout | card_auto_add/dsx.py:56-64 | a card record has 5 + #ACLs lines: `T Cards`, then Code, CardNum and StopDate holding the code, the number and the formatted end date, then one AddAcl line per ACL in order, then `W`; it is a single record |
| Dsx.AclLinesHaveNoW | card_auto_add/dsx.py:62 | no AddAcl line can end a record early |
| Dsx.DsxCard.constructor | card_auto_add/dsx.py:36-41 | a new card keeps the number, has the number without leading zeros as its code, never expires and has no ACLs |
| Dsx.DsxCard.Enable | card_auto_add/dsx.py:47-48 | the end date becomes 9999-12-31 00:00 |
| Dsx.DsxCard.Disable | card_auto_add/dsx.py:43-51 | the end date becomes the current time without microseconds |
| Dsx.DsxCard.AddAcl | card_auto_add/dsx.py:53-54 | the ACL name is appended and the earlier ones stay in order |
| Dsx.FirstW | card_auto_add/dsx.py:17 | the first `W` at or after a position, or the end: no `W` lies in between |
| Dsx.RecordsOfFlatten | card_auto_add/dsx.py:96-98 | cutting the concatenation of well-formed records at each `W` gives back the records |
| Dsx.DsxCommand.constructor | card_auto_add/dsx.py:72-78 | a new command has its location group and UDF number, no udf id, no name and empty UDF and card tables |
| Dsx.DsxCommand.SetUdfId | card_auto_add/dsx.py:80-82 | the udf id is set and a UDF row (the command's UDF number, that id) is appended |
| Dsx.DsxCommand.SetName | card_auto_add/dsx.py:84-85 | the name is set |
| Dsx.DsxCommand.AddCard | card_auto_add/dsx.py:87-88 | the card is appended to the card table |
| Dsx.DsxCommand.AddUdf | card_auto_add/dsx.py:90-91 | the UDF row is appended to the UDF table |
| Dsx.DsxCommand.Write | card_auto_add/dsx.py:93-104 | what reaches the file is every line of the import followed by its own newline, in order |
| Dsx.WriteLines | card_auto_add/dsx.py:102-104 | the write loop emits each line and then "\n", in order |
| Dsx.TerminatedAt | card_auto_add/dsx.py:102-104 | the written text holds line k at position 2k and a newline at 2k+1 |
| Dsx.CommandLayout | card_auto_add/dsx.py:94-100 | an import starts with the `I L<grp> U<num> ^<udf id>^^^` header and ends with `P`, and between them lies exactly the name record (if any), the UDF records and the card records, in that order |
| Dsx.CommandRecordsAreRecords | card_auto_add/dsx.py:96-98 | every record between header and `P` runs from a `T` line to its single `W` |
| Dsx.NameIsRecord | card_auto_add/dsx.py:11-18 | the name block is one well-formed record |
| Commands.Status.Code | card_auto_add/commands.py:13-18 | every status has a non-empty code |
| Commands.StatusCodeRoundTrip | card_auto_add/commands.py:13-18 | the four status codes are distinct: each parses back to its status |
| Commands.NameIdsMembers | card_auto_add/commands.py:85 | the deduplicated name ids are exactly the holders' name ids |
| Commands.NameIdsDistinct | card_auto_add/commands.py:85 | `dict.fromkeys` leaves no name id twice |
| Commands.NameIdsCount | card_auto_add/commands.py:85-89 | more than one distinct name id means exactly that the holders are several different people |
| Commands.EnableScanSpec | card_auto_add/commands.py:93-100 | the enable scan says `success` exactly when some holder's card equals the number or the number without leading zeros and is active, and `not_done` otherwise |
| Commands.EnableStatusSpec | card_auto_add/commands.py:82-100 | enable status is `error_multiple_card_holders` iff several people hold the name, `success` iff one person does and an active matching card exists, and never `deactivate_card_not_found` |
| Commands.DisableScanSpec | card_auto_add/commands.py:147-155 | the disable scan is never the multiple-holder error, is `deactivate_card_not_found` iff no card matches, and otherwise decides by the FIRST matching card (`success` if inactive, `not_done` if active) |
| Commands.DisableStatusSpec | card_auto_add/commands.py:138-155 | disable status is the multiple-holder error iff several people hold the card, not-found iff one person and no matching card, and otherwise the first match's state |
| Commands.BuiltLines | card_auto_add/commands.py:69-78 | a command built from a name (or none), one UDF row and one card with the `MBD Access` ACL writes exactly the expected import lines |
| Commands.ChosenUdfId | card_auto_add/commands.py:74 | the udf id is the single holder's, or a fresh uuid4 when there is no holder |
| Commands.EnableDsxCommand | card_auto_add/commands.py:56-80 | more than one holder gives `SystemExit(1)`; otherwise a fresh command with the name, the chosen udf id and a single UDF row, and one fresh card for the number that never expires and carries `MBD Access` |
| Commands.DisableDsxCommand | card_auto_add/commands.py:120-136 | more than one holder gives `SystemExit(1)`; otherwise a fresh command without a name, with the chosen udf id, and one card for the number that ends now (without microseconds) and carries `MBD Access` |
| Commands.GetDsxCommand | card_auto_add/commands.py:56-136 | it exits iff there are several holders; only an enable carries a name; the lines written are those of the command's import |
| Commands.CommandQueue.Put | card_auto_add/loops/ingester.py:47 | the command (or None) is appended at the back of the queue |
| Commands.CommandQueue.Get | card_auto_add/loops/processor.py:44-47 | an empty queue yields nothing and stays empty; otherwise the front item is returned and removed |
| Ingestion.Translate | card_auto_add/loops/ingester.py:66-85 | an enable request with id, first_name, last_name, company and card gives the enable command built from exactly those fields; a disable request with id, card and company gives the disable command of those; any other method gives None; a KeyError results iff `method` or a field its method needs is missing, and names a key the request lacks |
| Ingestion.IngestFiles | card_auto_add/loops/ingester.py:40-49 | the file loop queues and removes exactly what the file-loop specification says, stopping at the first unreadable or untranslatable file |
| Ingestion.IngestUpdates | card_auto_add/loops/ingester.py:51-59 | the update loop's queued commands, resulting seen set and failure flag are those of the update specification |
| Ingestion.UpdatesIds | card_auto_add/loops/ingester.py:53-59 | the ids queued in one batch were all unseen before, are pairwise distinct, and each queued command carries its id |
| Ingestion.UpdatesSeen | card_auto_add/loops/ingester.py:59 | the seen set after a batch is the one before plus the ids queued |
| Ingestion.FilesAllQueued | card_auto_add/loops/ingester.py:41-49 | every file up to the first failure is queued once and removed in order; with no failure every file is |
| Ingestion.Ingester.constructor | card_auto_add/loops/ingester.py:17-25 | a new ingester has the shared queue and an empty seen set |
| Ingestion.Ingester.RunCycle | card_auto_add/loops/ingester.py:35-63 | one cycle appends the file commands and then the update commands to the queue; a failure in the files abandons the updates; the seen set is that of the update loop |
| Ingestion.Ingester.PutAll | card_auto_add/loops/ingester.py:47-58 | the commands are appended to the queue in order |
| Ingestion.SeenGrows | card_auto_add/loops/ingester.py:55-59 | the seen set only grows, by exactly the ids queued, none of which had been seen |
| Ingestion.SeenSkipped | card_auto_add/loops/ingester.py:55 | an update whose id was already seen is neither translated nor queued |
| Ingestion.FailedNotSeen | card_auto_add/loops/ingester.py:57-59 | an update that fails translation ends the batch and its id is not marked seen, so it is retried next cycle |
| Ingestion.NoneBatch | card_auto_add/loops/ingester.py:52 | a `None` batch from the server is treated as empty |
| Processing.PathJoin | card_auto_add/loops/processor.py:68 | the joined path ends with the file name |
| Processing.SlotName | card_auto_add/loops/processor.py:68 | every slot name `^IMPnn.txt` is ten characters long |
| Processing.SlotNameNumber | card_auto_add/loops/processor.py:66-68 | the two digits of slot k's name read back as k |
| Processing.SlotsDistinct | card_auto_add/loops/processor.py:66-68 | different slot numbers give different paths |
| Processing.FirstFreeSpec | card_auto_add/loops/processor.py:65-70 | the search returns nothing iff no slot is free, and otherwise the lowest-numbered free slot |
| Processing.FirstFreeIsFree | card_auto_add/loops/processor.py:69 | a returned path neither exists on disk nor is assigned to a pending command |
| Processing.SlotOfDigits | card_auto_add/loops/processor.py:66-68 | the path built from digits `first`, `second` is slot 10·first + second, below 100 |
| Processing.FindUnusedFileName | card_auto_add/loops/processor.py:65-70 | the nested loops return the first free slot in order 00..99, or None when all are taken |
| Processing.SearchRow | card_auto_add/loops/processor.py:67-70 | the inner loop returns the first free slot of its row, or shows that the row has none |
| Processing.Files | card_auto_add/loops/processor.py:69 | one file per placed command |
| Processing.CheckPlacements | card_auto_add/loops/processor.py:36-42 | the placement check keeps exactly the commands whose files still exist and reports the others' statuses, in order |
| Processing.CheckPartition | card_auto_add/loops/processor.py:36-42 | every placement is either kept or reported, and a placement is kept iff its file still exists |
| Processing.ReportsOfGone | card_auto_add/loops/processor.py:38-41 | each report is (command id, status) of some placement whose file is gone |
| Processing.KeptDistinct | card_auto_add/loops/processor.py:39 | removing consumed placements keeps file names distinct |
| Processing.FilesMembers | card_auto_add/loops/processor.py:69 | a path is assigned iff some placement uses it |
| Processing.AddPlacementDistinct | card_auto_add/loops/processor.py:55 | placing a command in an unassigned file keeps file names distinct |
| Processing.Processor.constructor | card_auto_add/loops/processor.py:14-20 | a new processor has its directory, a fresh empty queue and no placements |
| Processing.Processor.RunCycle | card_auto_add/loops/processor.py:30-63 | one cycle reports consumed files; takes one queued item; places a command in the first free slot and writes its import there (empty file and the thread ends if it exits); drops it if no slot is free; keeps file names distinct |
| DoorOverride.DoorState.Value | card_auto_add/windsx/door_override.py:6-9 | every door state's wire value is 1, 2 or 3 |
| DoorOverride.DoorStateCodes | card_auto_add/windsx/door_override.py:6-9 | OPEN = 1, SECURE = 2, TIME_ZONE = 3, and each value reads back as its state |
| DoorOverride.FrameRoundTrip | card_auto_add/windsx/door_override.py:27 | the `6 80 3 <door> 0 <state> 3830202337 11 *Comm Server` frame names the door and state it was built for |
| DoorOverride.SetStateSends | card_auto_add/windsx/door_override.py:16-31 | setting a state sends the frame and a bare CRLF, twice, for the requested door and state |
| DoorOverride.ShortcutStates | card_auto_add/windsx/door_override.py:33-43 | `open`, `secure` and `time_zone` command their door into OPEN, SECURE and TIME_ZONE |
| DoorWatching.TrackedMeans | card_auto_add/loops/door_override_watcher.py:72-77 | a device is tracked iff some entry of the table has it |
| DoorWatching.DistinctMeans | card_auto_add/loops/door_override_watcher.py:24 | the table is keyed by device: no device appears twice |
| DoorWatching.PutLookup | card_auto_add/loops/door_override_watcher.py:77-87 | after an open, the device's remaining time is the new duration and no other device changes |
| DoorWatching.PutPlaces | card_auto_add/loops/door_override_watcher.py:77-87 | a known device is updated in place; a new one is added at the end |
| DoorWatching.RemoveLookup | card_auto_add/loops/door_override_watcher.py:72-73 | after a close, the device is gone and no other device changes |
| DoorWatching.RemoveShrinks | card_auto_add/loops/door_override_watcher.py:72-73 | closing an untracked device leaves the table as it was |
| DoorWatching.PutDistinct | card_auto_add/loops/door_override_watcher.py:77-87 | an open keeps devices distinct |
| DoorWatching.RemoveDistinct | card_auto_add/loops/door_override_watcher.py:72-73 | a close keeps devices distinct |
| DoorWatching.EntryLookup | card_auto_add/loops/door_override_watcher.py:60-87 | one update entry leaves its device open for the duration (open) or untracked (close), and no other device changes |
| DoorWatching.LaterEntryWins | card_auto_add/loops/door_override_watcher.py:60-87 | of two entries for one device, the later decides its state |
| DoorWatching.ApplyEntryDistinct | card_auto_add/loops/door_override_watcher.py:60-87 | an update entry keeps devices distinct |
| DoorWatching.TickLookup | card_auto_add/loops/door_override_watcher.py:45-50 | a tick lowers each tracked door's time by one and drops the doors that reach zero |
| DoorWatching.TickUntracked | card_auto_add/loops/door_override_watcher.py:45-50 | a tick never adds a door |
| DoorWatching.TickDistinct | card_auto_add/loops/door_override_watcher.py:45-50 | a tick keeps devices distinct |
| DoorWatching.TickPositive | card_auto_add/loops/door_override_watcher.py:48-50 | after a tick every tracked door has time left |
| DoorWatching.TickSendsEmpty | card_auto_add/loops/door_override_watcher.py:48-49 | a tick sends nothing iff no door reaches zero |
| DoorWatching.ApplyEntries | card_auto_add/loops/door_override_watcher.py:58-90 | the update loop leaves the table and sends the frames of the update specification, stopping at an entry lacking a key |
| DoorWatching.CountDown | card_auto_add/loops/door_override_watcher.py:45-51 | the tick loop keeps exactly the doors the tick specification keeps and sends `time_zone` for the others, in order |
| DoorWatching.DoorOverrideWatcher.constructor | card_auto_add/loops/door_override_watcher.py:24 | a new watcher tracks no door and has sent nothing |
| DoorWatching.DoorOverrideWatcher.OnDoorUpdate | card_auto_add/loops/door_override_watcher.py:53-90 | an update message changes the table and appends the sends as the update specification says, keeping devices distinct |
| DoorWatching.DoorOverrideWatcher.Tick | card_auto_add/loops/door_override_watcher.py:44-51 | a tick changes the table and appends the sends as the tick specification says, keeping devices distinct |
| DataSigning.AsciiRoundTrip | card_auto_add/data_signing.py:39-51 | ASCII bytes decode to an ASCII string that encodes back to the same bytes |
| DataSigning.Split | card_auto_add/data_signing.py:42 | `split('.')` yields at least one part |
| DataSigning.SplitJoin | card_auto_add/data_signing.py:39-49 | joining two dot-free parts with '.' and splitting gives the two parts back |
| DataSigning.Expiry | card_auto_add/data_signing.py:61-95 | every result past the signature check has a valid signature |
| DataSigning.OkMeans | card_auto_add/data_signing.py:9-57 | `ok` holds iff the signature is valid and not expired; the default results are not ok and carry no data |
| DataSigning.DataOnlyWhenOk | card_auto_add/data_signing.py:41-95 | a result that is not ok carries no data |
| DataSigning.WrongShape | card_auto_add/data_signing.py:42-47 | a token that does not split into exactly two parts has an invalid signature |
| DataSigning.Mismatch | card_auto_add/data_signing.py:51-57 | a signature that differs from the HMAC of the payload is invalid |
| DataSigning.ExpiryLadder | card_auto_add/data_signing.py:61-95 | a non-object payload, a missing `expires`, an unparsable time or a past time give signed-but-expired; a future time gives ok with the payload's data |
| DataSigning.EncodeShape | card_auto_add/data_signing.py:24-39 | with well-behaved libraries and an ASCII key, encoding succeeds iff the expiry lies inside `datetime`'s range (years 1 to 9999) and otherwise raises `OverflowError` |
| DataSigning.RoundTrip | card_auto_add/data_signing.py:24-95 | a token whose expiry lies inside `datetime`'s range, decoded no later than that expiry, is ok and yields the caller's data plus `expires` |
| DataSigning.DotFree | card_auto_add/data_signing.py:35-39 | base64 text decodes as ASCII and contains no '.' |
| ActivationBasics.FindFirst | card_auto_add/windsx/activations.py:168 | the index of the first row satisfying a condition, or None when no row does |
| Activations.UdfNum | card_auto_add/windsx/activations.py:85-88 | the UDF number named "ID", or None when there is none |
| Activations.KeyOwner | card_auto_add/windsx/activations.py:90-93 | the name id of a UDF row holding the key for that UDF number, or None iff there is none |
| Activations.CompanyId | card_auto_add/windsx/activations.py:99-103 | the id of the company with that name, or None iff there is none |
| Activations.NameByFields | card_auto_add/windsx/activations.py:105-108 | the id of a NAMES row with that first name, last name and company, or None iff there is none |
| Activations.LookupNameTiers | card_auto_add/windsx/activations.py:81-127 | the name is resolved by the key first, then by first name, last name and company, then by inserting a row; a missing "ID" UDF name or company is an error |
| Activations.UdfText | card_auto_add/windsx/activations.py:130-133 | the text of the person's UDF row for that number, or None iff there is none |
| Activations.SetUdfText | card_auto_add/windsx/activations.py:137-140 | rewrites the text of exactly the person's rows for that number |
| Activations.BackfillWrites | card_auto_add/windsx/activations.py:129-147 | afterwards the person has a UDF row with the key; either the rows are updated in place or one row is appended; other people's rows are unchanged |
| Activations.BackfillKeyRows | card_auto_add/windsx/activations.py:129-147 | a key nobody held is, after the backfill, held by that person alone |
| Activations.KeyBackfilled | card_auto_add/windsx/activations.py:110-127 | after a name is found by its fields or created, the next lookup finds it by key |
| Activations.FindCard | card_auto_add/windsx/activations.py:161-178 | the first CARDS row whose code is the number without leading zeros, or None iff there is none |
| Activations.WithCombo | card_auto_add/windsx/activations.py:256-261 | the card with that id gets the combo and DlFlag 0; ids, codes and every other row are unchanged |
| Activations.WithActive | card_auto_add/windsx/activations.py:263-268 | the card gets the name, starts now, never stops, DlFlag 0 and is active; other rows are unchanged |
| Activations.WithInactive | card_auto_add/windsx/activations.py:270-275 | the card stops today, DlFlag 0 and is inactive; other rows are unchanged |
| Activations.NewCardFound | card_auto_add/windsx/activations.py:232-254 | a created card is found by its number, also with leading zeros added, and is active, never stops and is to be downloaded |
| Activations.ZerosStrip | card_auto_add/windsx/activations.py:167 | leading zeros do not change which code a number looks up |
| Activations.ReactivatedCard | card_auto_add/windsx/activations.py:52-60 | reactivating an existing card updates exactly that row (combo, name, dates, DlFlag, status), which is still found by the number |
| Activations.DeactivatedCard | card_auto_add/windsx/activations.py:270-278 | deactivation updates exactly the found row to stop today and be inactive, and it is still found by the number |
| Activations.LocCardOf | card_auto_add/windsx/activations.py:369 | the LocCards row of the card, or None iff there is none |
| Activations.SetLocCardAcls | card_auto_add/windsx/activations.py:383-388 | the card's row gets DlFlag 1, CkSum 0 and the new slots; other rows are unchanged |
| Activations.FlagLocCards | card_auto_add/windsx/activations.py:277 | the card's rows get DlFlag 1 and CkSum 0; other rows are unchanged |
| Activations.UpsertLocCardOne | card_auto_add/windsx/activations.py:368-397 | the card ends with one LocCards row holding the slots: updated in place or newly appended; other cards' rows are unchanged |
| Activations.MarkDevs | card_auto_add/windsx/activations.py:400 | every DEV row gets DlFlag 1 and CkSum 0 |
| Activations.MarkIos | card_auto_add/windsx/activations.py:401 | every IO row gets DlFlag 1 |
| Activations.MarkLocs | card_auto_add/windsx/activations.py:402-404 | every LOC row asks for a full download and has its checksums zeroed |
| Activations.NewComboAppended | card_auto_add/windsx/activations.py:213-230 | the new combo's rows hold exactly the known names, keep earlier rows as they were and leave every other combo unchanged |
| Activations.AcsDatabase.constructor | card_auto_add/windsx/activations.py:29-38 | a database with the given reference tables and no people, combos or cards is valid |
| Activations.AcsDatabase.NextIdentity | card_auto_add/windsx/activations.py:122 | `@@IDENTITY` after an insert is the counter, which then advances |
| Activations.AclByName | card_auto_add/windsx/activations.py:149-159 | the id of the ACL group name, or the ValueError iff no group has that name |
| Activations.WinDsxCardActivations.constructor | card_auto_add/windsx/activations.py:29-38 | the activator holds the database, the default ACL name and the uuid5 function |
| Activations.WinDsxCardActivations.CreateOrUpdateUdfText | card_auto_add/windsx/activations.py:129-147 | the UDF table becomes its backfill with the key |
| Activations.WinDsxCardActivations.FindOrCreateName | card_auto_add/windsx/activations.py:81-127 | per lookup tier, with the tables `NameTables` gives: the id found by key (nothing written), the id found by its fields (key backfilled), no id for an inserted name (row appended, key backfilled under the new id), or the error (nothing written) |
| Activations.WinDsxCardActivations.FindOrCreateNewComboId | card_auto_add/windsx/activations.py:196-230 | the resulting combo holds exactly the known names plus the ACL name; a matching run is reused without writing; otherwise a new combo id is allocated and no other combo changes |
| Activations.WinDsxCardActivations.GetCardComboContainingAcl | card_auto_add/windsx/activations.py:180-194 | the resulting combo holds the old combo's names plus the ACL name; combo rows are only appended and no other combo's names change; a combo already holding the name is kept; otherwise a combo with exactly those names is reused, both with nothing written, or a new id is taken from the counter |
| Activations.WinDsxCardActivations.CreateCard | card_auto_add/windsx/activations.py:232-254 | the new card row is appended with the next id |
| Activations.WinDsxCardActivations.UpdateCardComboId | card_auto_add/windsx/activations.py:256-261 | the CARDS table becomes its combo-updated form |
| Activations.WinDsxCardActivations.SetCardActive | card_auto_add/windsx/activations.py:263-268 | the CARDS table becomes its activated form |
| Activations.WinDsxCardActivations.SetCardInactive | card_auto_add/windsx/activations.py:270-278 | the card is deactivated from the start of today and its LocCards rows are flagged |
| Activations.WinDsxCardActivations.FindOrCreateAclId | card_auto_add/windsx/activations.py:280-310 | the result is the combo's ACL ids: grants of its names grouped by time zone, each tz's device set matched to a DGRP group, each (tz, group) to an ACL entry, or the first failure |
| Activations.WinDsxCardActivations.CreateOrUpdateLocCards | card_auto_add/windsx/activations.py:368-397 | the slots hold up to five distinct ACL ids of the set, padded with -1; the card's LocCards row holds them |
| Activations.WinDsxCardActivations.EncourageSystemUpdate | card_auto_add/windsx/activations.py:399-420 | DEV, IO and LOC are flagged for download; success iff one of the 30 polls saw the download finished, otherwise the timeout error |
| Activations.WinDsxCardActivations.ActivateNewCard | card_auto_add/windsx/activations.py:48-51 | CARDS becomes the old table plus exactly the new row under the next id, active and never expiring, in a combo holding just the ACL name; combo rows are only appended, no other combo's names change, and an existing combo of just that name is reused with nothing written |
| Activations.WinDsxCardActivations.ActivateExistingCard | card_auto_add/windsx/activations.py:52-60 | CARDS becomes the reactivated table and the card's combo gains the ACL name; combo rows are only appended and no other combo's names change; a combo already holding the name is kept, and otherwise an existing combo with exactly the names is reused as the card's combo, both with nothing written |
| Activations.WinDsxCardActivations.ActivateCard | card_auto_add/windsx/activations.py:46-60 | `CardActivated`: the card the number finds is active for the name in a combo of its former names plus the ACL name; a new number appends exactly one CARDS row, otherwise only the found row changes; combo rows are only appended, no other combo's names change, and nothing is written to AclGrpCombo when a combo with those names exists, which then becomes the card's combo unless its own combo already held the ACL name |
| Activations.CardActivatedFrame | card_auto_add/windsx/activations.py:46-60 | every CARDS row the number does not find is unchanged; a reactivated card keeps its index, id and code; a new number adds exactly one row, which the number then finds |
| Activations.WinDsxCardActivations.GrantAccess | card_auto_add/windsx/activations.py:64-67 | `AccessGranted` for resolved ACL ids: the card's LocCards row holds slots for them (a row under the next id when it had none), DEV, IO and LOC ask for a download, and the result is success iff one of the 30 polls reads false, else the timeout |
| Activations.AccessGrantedFrame | card_auto_add/windsx/activations.py:62-67 | the card ends with exactly one LocCards row holding slots for the ids, other cards' LocCards rows are unchanged, and success needs the ids to resolve and a poll to read false |
| Activations.WinDsxCardActivations.ActivateResolved | card_auto_add/windsx/activations.py:46-67 | `CardActivated` for the card, then `AccessGranted` for its combo's ACL ids: a failed lookup returns its error with LocCards, DEV, IO and LOC untouched; otherwise their writes, and success iff a poll reads false |
| Activations.WinDsxCardActivations.Activate | card_auto_add/windsx/activations.py:40-67 | a missing ACL name or a failed name lookup is returned with nothing written; otherwise UDF and NAMES are what the name lookup leaves (`NameTables`), CARDS and AclGrpCombo are as `CardActivated` says, and LocCards, DEV, IO, LOC and the result are as `AccessGranted` says for the card's combo: success iff its ACL ids resolve and a poll reads false |
| Activations.WinDsxCardActivations.Deactivate | card_auto_add/windsx/activations.py:69-79 | an unknown number writes nothing; otherwise the card is inactive from today, its LocCards rows are flagged, the download is asked for, and the result is success iff it finished within 30 polls, and the timeout error otherwise |
| ActivationCombos.MembersMeans | card_auto_add/windsx/activations.py:191-194 | the members of a combo are exactly the ACL names of its rows |
| ActivationCombos.MembersAppend | card_auto_add/windsx/activations.py:222-226 | appending rows adds their members and combo ids |
| ActivationCombos.RunsIds | card_auto_add/windsx/activations.py:205-208 | the groups `groupby` makes cover exactly the combo ids of the table |
| ActivationCombos.RunsOfContiguous | card_auto_add/windsx/activations.py:205-209 | when each combo's rows are adjacent, each group's set is that combo's members and no combo id forms two groups |
| ActivationCombos.ContiguousMatch | card_auto_add/windsx/activations.py:205-211 | on a table with adjacent combo rows the search finds a combo iff some combo has exactly the known names, and what it finds has them |
| ActivationCombos.ScatteredComboMisread | card_auto_add/windsx/activations.py:205-211 | on a table whose combo rows are not adjacent the search can return a combo with other members |
| ActivationCombos.KnownIds | card_auto_add/windsx/activations.py:197-203 | the known names are the base combo's members plus the ACL name |
| ActivationCombos.FirstMatchingRun | card_auto_add/windsx/activations.py:208-211 | the loop returns the first group whose set equals the known names |
| ActivationCombos.InsertMembers | card_auto_add/windsx/activations.py:222-226 | the insert loop writes one row per known name under the new combo id and location group |
| ActivationCombos.NewComboMembers | card_auto_add/windsx/activations.py:213-230 | the new combo's members are the known names and other combos are unchanged |
| ActivationCombos.NewComboContiguous | card_auto_add/windsx/activations.py:213-230 | appending a new combo's rows keeps combo rows adjacent |
| ActivationAccess.Selected | card_auto_add/windsx/activations.py:281-288 | the ACLGrp rows selected are exactly those of the combo's names |
| ActivationAccess.TzDevicesLists | card_auto_add/windsx/activations.py:290-299 | a device is listed under a time zone iff that zone is non-zero and a selected grant of the device has it |
| ActivationAccess.TzDevicesKeys | card_auto_add/windsx/activations.py:290-299 | only non-zero time zones appear, each with a device |
| ActivationAccess.DevicesByTimeZone | card_auto_add/windsx/activations.py:290-299 | the grouping loop builds the time-zone-to-devices map |
| ActivationAccess.GroupAgrees | card_auto_add/windsx/activations.py:314-321 | the 128-bit loop accepts a group iff each device's bit equals whether it is needed |
| ActivationAccess.MatchDeviceGroup | card_auto_add/windsx/activations.py:313-325 | the first agreeing device group, or None |
| ActivationAccess.IntegralIdsHas | card_auto_add/windsx/activations.py:330 | the candidate ids are exactly the integral DGrp values |
| ActivationAccess.SeqMax | card_auto_add/windsx/activations.py:330 | `max` is an element no smaller than any other |
| ActivationAccess.NextDGrpFresh | card_auto_add/windsx/activations.py:329-330 | the next DGrp id is unused and follows an existing one; `max` fails iff no id is integral |
| ActivationAccess.Placeholders | card_auto_add/windsx/activations.py:337-338 | n placeholders take 3n characters |
| ActivationAccess.BuildColumns | card_auto_add/windsx/activations.py:333-334 | the column loop builds `, D0 … , D127` |
| ActivationAccess.BuildPlaceholders | card_auto_add/windsx/activations.py:337-338 | the placeholder loop builds one `, ?` per iteration |
| ActivationAccess.BuildDGroupInsert | card_auto_add/windsx/activations.py:332-339 | the device-group INSERT text as the source builds it |
| ActivationAccess.DGroupInsertMalformed | card_auto_add/windsx/activations.py:336-339 | the VALUES list of that INSERT starts with `(, ?`, which the database refuses |
| ActivationAccess.FindOrCreateMatchingDeviceGroup | card_auto_add/windsx/activations.py:312-346 | an agreeing group's id, else the failure of `max` or of the malformed INSERT |
| ActivationAccess.DeviceGroupReuse | card_auto_add/windsx/activations.py:312-346 | a group is produced iff one agrees on every device, and it is that group's id |
| ActivationAccess.MatchingAcl | card_auto_add/windsx/activations.py:348-366 | an ACL entry is produced iff one has that time zone and device group, and it is such an entry; otherwise the creation path's error |
| ActivationAccess.DeviceGroupsFail | card_auto_add/windsx/activations.py:301-304 | one time zone without an agreeing group fails the whole lookup |
| ActivationAccess.DeviceGroupsAll | card_auto_add/windsx/activations.py:301-304 | when every zone has an agreeing group, the result maps each zone to it |
| ActivationAccess.ResolveDeviceGroups | card_auto_add/windsx/activations.py:301-304 | the device-group loop meets its specification |
| ActivationAccess.DeviceGroupsMeans | card_auto_add/windsx/activations.py:301-346 | the lookup fails iff some zone's devices match no group; otherwise each zone maps to an agreeing group |
| ActivationAccess.AclsOfFail | card_auto_add/windsx/activations.py:306-308 | one pair without an ACL entry fails the whole lookup |
| ActivationAccess.AclsOfAll | card_auto_add/windsx/activations.py:306-310 | when every pair has an entry the result is their set |
| ActivationAccess.ResolveAcls | card_auto_add/windsx/activations.py:306-310 | the ACL loop meets its specification |
| ActivationAccess.AclsOfOk | card_auto_add/windsx/activations.py:306-310 | every returned id is the entry of some (zone, group) pair, and every pair's entry is returned |
| ActivationAccess.AclsOfErr | card_auto_add/windsx/activations.py:306-366 | the lookup fails iff some pair has no ACL entry |
| ActivationAccess.AclIdsFor | card_auto_add/windsx/activations.py:280-310 | the whole ACL-id lookup meets its specification |
| ActivationSlots.Slots.List | card_auto_add/windsx/activations.py:371 | the five slots Acl, Acl1 … Acl4 |
| ActivationSlots.PopOr | card_auto_add/windsx/activations.py:372-381 | an empty set leaves -1; otherwise one element is removed and placed |
| ActivationSlots.PopSlots | card_auto_add/windsx/activations.py:371-381 | the slots hold min(5, #ids) distinct ids of the set in the first slots and -1 in the rest |
| ActivationSlots.AwaitDownload | card_auto_add/windsx/activations.py:409-420 | the poll loop stops at the first of 30 polls that sees the download finished, and finds none iff all 30 saw it pending |

## Left out

- Logging, `time.sleep`, threads, locks, database commits and the daemon loops' endless repetition are not modelled. One cycle of each loop is modelled, and an `except Exception` that only records the error ends the cycle.
- The clock, `uuid4`, `uuid5`, the directory listing, file existence and the card access system's holder lookups (`card_access_system.py`, not part of this model) are parameters.
- HMAC-SHA256, base64, JSON and ISO-8601 are not modelled. They are parameters, assumed only to invert one another where a property needs it.
- File reading and writing, sockets (connect, timeout, `shutdown`, the ignored `recv`) and HTTP to the webhook server are not modelled. A write becomes the sequence of strings sent; the server's statuses become the list of reports.
- The Pusher subscription and session setup of the door watcher (door_override_watcher.py:21-40) are not modelled. Neither is the JSON decoding and `KeyError` of a message's `doors` and `duration` keys (lines 54-56); the model receives the decoded entries.
- Activations.AcsDatabase.NextIdentity: `@@IDENTITY` is one counter shared by NAMES, CARDS, LocCards and new combos. Access keeps one autonumber per table, and `@@IDENTITY` returns the last one generated. The shared counter keeps every allocated id fresh across tables, which is an assumption about the database's behaviour. The UDF and per-name AclGrpCombo inserts do not advance it.
- Activations.AcsDatabase.Valid: assumes the rows of each combo are adjacent in the order of `SELECT AclGrpNameID, ComboID FROM AclGrpCombo` (`Contiguous`), which the database does not promise. Every method contract that requires `Valid` inherits this assumption; `ActivationCombos.ScatteredComboMisread` shows a table without it on which the combo search returns a combo with other names.
- The first AclGrpCombo INSERT (activations.py:216-219) has no ComboID column. It is modelled as a row under the new combo id, which is an assumption about the schema.
- The "Didn't get name ID" and "Card ID could not be retrieved" errors (activations.py:124-125, 247-248) cannot happen with the identity counter, so they are left out.
- A card number passed as an `int` (activations.py:162-163) is not modelled; card numbers are strings.
- The DGRP value list (activations.py:341-345) is not modelled, because the INSERT it would fill is refused.
- Database errors other than that refused INSERT are not modelled.
- Python `set.pop` order is unspecified. The model picks any element (`:|`), and every contract holds whichever is picked.
- Python dicts iterate in insertion order. The model visits `tz_to_dev_list` and `tz_to_device_group` in an unspecified order, because the outcome does not depend on the order (`ActivationAccess.ResolveDeviceGroups` and `ActivationAccess.ResolveAcls` hold for every visiting order).
- Processing.Processor.RunCycle: the command-to-file dict is a sequence of placements in insertion (dict) order. Commands are values, so placements are told apart by position rather than by object identity.
- Activations.WinDsxCardActivations.EncourageSystemUpdate: the `SELECT FullDlFlag FROM LOC` answers are a parameter (`poll`) and not tied to the LOC rows just written, because the Comm Server clears the flag outside this program.
- Activations.WinDsxCardActivations.ActivateCard: a new card's CARDS name is `None` when the name was inserted, as the source does; the model does not claim the card belongs to the new NAMES row.
- DataSigning.RoundTrip: the time stamp is the microsecond count the codec formats; `timedelta(seconds=…)` is modelled as `expires_in_seconds · 10^6` microseconds. Only the expiry is tested against `datetime`'s range: `datetime.now` always lies inside it, and from there any `timedelta` that lands inside the range is within `timedelta`'s own limits.
- DataSigning.Expiry: a naive `expires` time (one without a time zone) raises `TypeError` on comparison, and a non-string `expires` raises `TypeError` in `fromisoformat`. Both are modelled, but ExpiryLadder does not list those cases.
