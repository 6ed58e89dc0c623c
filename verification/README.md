# Verified model of the PyWinHello firmware core

The repository drives a Windows PIN prompt from a Raspberry Pi Pico: C firmware on the board, a Python daemon on the
PC, a line protocol over USB serial between them. This project models the parts of the firmware that hold state or
translate formats, and what the PC side sends them or reads from them, and proves what they promise over whole runs.
`dafny verify dfyconfig.toml` checks everything.

**Over-the-air update.** `Flash` is the 2 MB NOR flash (erase sets bits, programming ANDs) with the boot flag record.
`Bootloader.Receiver` is the receiver and boot selection with its real counters, page buffer and flash array; every
method is proved against functions of the bytes received. `OtaSession` adds the protocol's flash mode. `UpdateSafety`
views the same device as a machine whose steps are single flash operations, so that a power cut can fall between any
two of them, for instance between the erase and the program of the flag sector. SHA-256 is an arbitrary function with a
32-byte result. "The selected partition" is `active_part`.

**Configuration.** `Config` prints a configuration as a list of quoted and unquoted pieces. `JsonText` proves where
`strstr` lands in such a text. `ConfigParser` is the parser, `ConfigRoundTrip` and `ConfigCollections` prove the round
trip key by key, and `ConfigStore` holds the printer and parser as loops over buffers and the stored file. `CStrings`
models the C library calls involved. `JsonSyntax` has JSON values, their texts with any white space and a reader that
knows nothing of the firmware; `ConfigJson` shows that the printed text is one such object. `ConfigSearch` and
`ConfigUpdate` say what the parser makes of any object, `ConfigSpacing` applies this to whole configurations and
`SettingsPages` to the partial objects the PC sends.

**Time.** `BootUnlock` is the PIN entry automaton on a wrapping 32-bit millisecond clock, `MainLoop` the order of tasks
around it, `Scheduler` the weekly wake search and the once-per-day latch.

**Log, wire, PIN.** `EventLog` is the ring buffer of twenty entries with its file, `Base64` its export; `SerialLines`
and `Replies` are the two directions of the serial protocol; `PinStorage` is the padding and the sealed PIN file.

## What holds, and exactly when

Some promises hold only under a condition. Each "exactly when" below is proved in both directions, with the code left as
it is. A run is allowed when its flash attempts find A active and fit, which is what makes them safe.

- A flash attempt is safe, for every stream and with power cut after any flash operation, exactly when image and digest
  together end at most three bytes into the flag sector and A is active; or when B is active, the total ends within
  those three bytes and the image in B is all 0xFF (`AttemptSafeIffFits`). `start_flash` accepts sizes up to the whole
  of partition B: for every size above the bound some stream leaves B selected although no digest matched. Staging is
  always partition B: an attempt made while B is active overwrites the running image while the flags still select it.
- After an accepted update the selected partition holds the accepted image exactly when A was active and the flag write
  spares the image, as it does for every image that ends below the flag sector, or when B was active and A holds that
  image already (`AcceptedImageSelectedIff`). So an image received while B is active is not the one that boots.
- The flag sector is left completely alone exactly when image and digest end below it (`FlagSectorUntouchedIff`).
- Over every allowed run, wherever power is cut, `boot_count` is at most 1 in the main loop (`MainLoopCountIsOne`). It
  never exceeds 2, in flash or in RAM, exactly when the board is never switched on with an unconfirmed image counted
  twice (`BootCountAtMostTwoIff`), which takes a power cut while a roll-back is pending (`CountedTwiceIffCut`). After
  such cuts it grows, and at 255 it wraps to 0 and the image runs again (`CutBeforeRollbackCountsOn`).
- Printing and parsing a configuration gives it back, but for the password, exactly when no string contains a quote,
  the day mask has seven bits, at most eight apps are counted, and every search lands on its own key or finds the right
  value elsewhere (`ConfigRoundTripIff`). `SearchesSucceed` lists the values that divert a search, and `ReadBack` says
  what is then read, down to a bracket inside a value that is taken for the list of days or the apps. Since the printer
  omits the password, a saved password is lost at the next power-on (`SavedConfigLoads`).
- What is printed is one JSON object with the configuration's own fields and nothing after it, for every configuration
  whose strings need no escapes (`PrintIsJson`).
- A JSON object sent to the board is read by ordinary lookup over the defaults: the order of its fields, its white space
  and unknown fields do not matter, as long as the first occurrence of every key is the field it names (`UpdateReads`,
  `SpacingDoesNotMatter`). Nothing is kept from the configuration before, so each settings page resets what it does not
  send. The schedule page and the wizard name the days ("mon") where the firmware reads numbers: saving a schedule
  clears every day and the board never wakes (`NamedDaysAreLost`, `NamedDaysNeverWake`). The advanced page sends its
  six numbers without the timing object around them, so saving it changes no timing and resets all the rest
  (`AdvancedPageResets`).
- The base64 encoder never writes `=`: its padding tests compare against an index that has already moved on. The output
  is that of section 4 of RFC 4648, and decodes to the input, exactly when three divides the length; otherwise it
  decodes to the input followed by zero bytes, and the log is still recovered (`StandardIff`, `EncodeDecodes`,
  `ExportIsLastTwenty`).
- A reply is read back with status and message exactly when its line fits the 4096-byte buffer with its terminator, the
  message has no line feed and no trailing white space, an `ERR` reply has a message and a `READY` reply has none
  (`ReplyRecoveredIff`): `ERR` without a message parses as success. A line of exactly 4096 bytes goes out cut, and for
  longer ones the bytes sent are not determined by the message.
- The once-per-day latch keeps the day modulo 256. The day of a poll in the target minute is served exactly when no
  earlier such poll of another day leads to it through polls whose days are congruent modulo 256 (`ServedIff`). Polls on
  calendar days less than 256 apart serve every day; a silence a little shorter than 256 times 24 hours can miss one
  (`MissedWithin256Days`).
- The next-wake answer is the least wait, and UINT32_MAX exactly when there is none within six days, exactly when the
  time of day lies within a day or the search finds nothing (`NextWakeIsLeast`); the predicted wake comes exactly when
  hour and minute are in range (`FiringAgreesWithNextWake`).
- The restored log index is not checked: a file gives a ring that stands for a history exactly under the condition of
  `RestoredIsALogIff`.

## Model

| member | source | states |
|---|---|---|
| Flash.FlashRangeErase | firmware/src/bootloader.c:73-76 | erase sets exactly the given range to 0xFF |
| Flash.FlashRangeProgram | firmware/src/bootloader.c:91-93 | programming ANDs the data into the given range and touches nothing else |
| Flash.ProgramOnlyClears | firmware/src/bootloader.c:91-93 | programming sets no bit, leaves no bit the data has clear, and a second time changes nothing |
| Flash.ErasedFlagsReadDefault | firmware/src/bootloader.c:52-66 | an erased flag sector reads back as "A active, nothing pending" and its erase changes nothing else |
| Flash.ProgrammedFlagsReadBack | firmware/src/bootloader.c:68-77 | programming a record over erased flags reads back as that record |
| Flash.FlagsRoundTrip | firmware/src/bootloader.c:52-77 | write then read of the boot flags gives the same flags for every earlier flash content |
| Flash.FlagsWrittenAt | firmware/src/bootloader.c:68-77 | writing the flags replaces the whole flag sector, record then 0xFF, and nothing else |
| Bootloader.EraseCoversTransfer | firmware/src/bootloader.c:149-154 | the staging erase is the least whole number of sectors that holds the data, and holds its last padded page |
| Bootloader.PageAppends | firmware/src/bootloader.c:81-113 | for every accepted size a page lies in partition B and in the erased range, and AND-programming it stores its bytes exactly |
| Bootloader.PagesAreDistinct | firmware/src/bootloader.c:110 | no page of a transfer is programmed twice |
| Bootloader.FullBufferIsPage | firmware/src/bootloader.c:167-171 | a full buffer holds the last 256 received bytes in order |
| Bootloader.ByteLandsInBuffer | firmware/src/bootloader.c:168 | one byte changes one place of the page buffer, and completes a page only as the 256th |
| Bootloader.PercentIsExact | firmware/src/bootloader.c:267-270 | for every accepted transfer the percentage has no 32-bit or 8-bit overflow, never falls, and is 100 exactly at the end |
| Bootloader.Receiver.StateIsFunctionOfStream | firmware/src/bootloader.c:162-184 | between calls flash, page buffer, counters and programmed pages are one function of the concatenated bytes |
| Bootloader.Receiver.ReadBootFlags | firmware/src/bootloader.c:52-66 | the flags in RAM become those the sector encodes, or the defaults |
| Bootloader.Receiver.WriteBootFlags | firmware/src/bootloader.c:68-77 | afterwards the sector reads back as the flags in RAM |
| Bootloader.Receiver.FlashWritePage | firmware/src/bootloader.c:81-95 | refuses pages outside partition B, otherwise programs one page |
| Bootloader.Receiver.FlushWriteBuffer | firmware/src/bootloader.c:97-113 | pads with 0xFF, programs one page, advances; an empty buffer writes nothing |
| Bootloader.Receiver.Init | firmware/src/bootloader.c:117-134 | the whole boot: count, write, roll back on the second unconfirmed boot |
| Bootloader.Receiver.Rollback | firmware/src/bootloader.c:248-260 | selects the other partition, clears pending and count, and nothing before the flags are loaded |
| Bootloader.Receiver.Confirm | firmware/src/bootloader.c:238-246 | clears pending and count in RAM and flash if an image is pending, otherwise changes nothing |
| Bootloader.Receiver.StartFlash | firmware/src/bootloader.c:136-160 | accepts exactly 1 to partition size - 32 bytes and starts an empty transfer over an erased range; refusal changes nothing |
| Bootloader.Receiver.FeedByte | firmware/src/bootloader.c:167-181 | appends one byte to the stream; the bounds test of flash_write_page never fails |
| Bootloader.Receiver.FeedData | firmware/src/bootloader.c:162-184 | accepts a chunk exactly if it does not overrun; a refused call changes nothing |
| Bootloader.Receiver.FlushRest | firmware/src/bootloader.c:190-196 | after the final flush flash holds the whole stream and each page was programmed once |
| Bootloader.Receiver.Finalize | firmware/src/bootloader.c:190-236 | accepts exactly when the last 32 bytes are the digest of all bytes before them, and only then swaps the flags |
| OtaSession.FeedChunks | firmware/src/bootloader.c:162-184 | any split of a stream into calls gives the same result as the concatenation; refused exactly when the whole overruns |
| OtaSession.FewProgressLines | firmware/src/serial_proto.c:385-423 | tens digits strictly rise, so a transfer sends at most ten PROGRESS lines |
| OtaSession.Session.HandleFlash | firmware/src/serial_proto.c:287-305 | flash mode starts exactly for 1 to partition size - 32 bytes; last_progress is carried over |
| OtaSession.Session.ReportProgress | firmware/src/serial_proto.c:400-410 | a PROGRESS line goes out exactly when the tens digit has grown, and the tens digit on record becomes the larger of the two |
| OtaSession.Session.ProcessFlashData | firmware/src/serial_proto.c:385-423 | one chunk: abort, more, reboot or failed verification, each with its exact condition, flags and flash, and 100 reported at the end |
| UpdateSafety.CrashSafeUpdate | firmware/src/bootloader.c:52-260 | over every allowed run of boots, confirmations, attempts, refused overruns and power cuts, A is untouched, a selected B holds a verified image, and that image was received with its own digest behind it |
| UpdateSafety.RunKeepsInv | firmware/src/bootloader.c:52-260 | the invariant behind it, kept by whole runs from any state that has it |
| UpdateSafety.RunKeepsVouched | firmware/src/bootloader.c:190-236 | over every run, allowed or not, the image counted as verified was received whole with exactly its digest as the last 32 bytes |
| UpdateSafety.StepKeepsInv | firmware/src/bootloader.c:52-260 | the same for every single flash operation, and for leaving flash mode when a chunk overruns |
| UpdateSafety.FlagStepKeepsInv | firmware/src/bootloader.c:68-77 | including a cut between erase and program of the flag sector |
| UpdateSafety.StoredKeepsFlags | firmware/include/pywinhello.h:148-151 | data that ends below the fourth flag byte cannot select B |
| UpdateSafety.FeedStores | firmware/src/bootloader.c:167-181 | the machine's byte step stores what the receiver stores |
| UpdateSafety.FinishStores | firmware/src/bootloader.c:190-196 | the machine's final flush stores the whole stream |
| UpdateLimits.AcceptedTransferRun | firmware/src/bootloader.c:136-236 | a whole uninterrupted transfer with the right digest ends with the image in B, flags swapped, board off |
| UpdateLimits.RejectedTransferRun | firmware/src/bootloader.c:190-236 | a whole transfer with any other digest leaves the same boot running with the flags and the verified image it had, the stream stored |
| UpdateLimits.RetryAfterOverrun | firmware/src/serial_proto.c:385-399 | after a chunk that overran, a second transfer ends as it would on that flash without the first |
| UpdateLimits.AcceptedImageSelectedIff | firmware/src/bootloader.c:156-225 | after an accepted update the selected partition holds the accepted image exactly when A was active and the flag write spares it, or B was and A holds it already |
| UpdateLimits.TransferRun | firmware/src/bootloader.c:136-236 | a whole transfer puts exactly the stream into the erased range before the digest is compared |
| UpdateLimits.SentRun | firmware/src/bootloader.c:136-196 | and does so for every stream before any check |
| UpdateLimits.LargeTransferForges | firmware/src/bootloader.c:137-139 | above the bound some stream leaves B selected though no digest matched |
| UpdateLimits.AttemptSafeIffFits | firmware/src/bootloader.c:136-236 | whichever partition is active, an attempt is safe for all streams and all power cuts exactly when it fits below the fourth flag byte and A is active, or B holds a blank image that is erased together with the flags |
| UpdateLimits.FlagSectorUntouchedIff | firmware/include/pywinhello.h:148-151 | erase and data leave the flag sector alone exactly when image + 32 <= partition B less one sector |
| UpdateLimits.StagingOverActiveB | firmware/src/bootloader.c:145-184 | with B active and a transfer ending below the flag sector, every stream with another first byte leaves the flags selecting a destroyed image |
| UpdateLimits.LateEraseOverB | firmware/src/bootloader.c:148-158 | with B active and a transfer reaching the flag sector, a cut before the last sector is erased leaves the flags selecting an erased image, unless that was blank |
| UpdateLimits.BlankAttemptIsSafe | firmware/src/bootloader.c:136-236 | over a blank image such an attempt is safe at every cut |
| BootSelection.RollbackUndoesAccept | firmware/src/bootloader.c:221-255 | accept, two boots and roll-back restore the partition number exactly when it was 0 or 1 |
| BootSelection.FirstBootKeepsSelection | firmware/src/bootloader.c:117-134 | the first boot after an accepted update keeps the partition the update selected, with count 1 |
| BootSelection.UnconfirmedRollsBack | firmware/src/bootloader.c:117-134 | without BOOT_OK the second boot restores the previous partition and every later boot leaves it so |
| BootSelection.ConfirmedStays | firmware/src/bootloader.c:238-246 | after an accepted update, one boot and BOOT_OK, every later boot has the flags of the accept with pending and count cleared |
| BootSelection.BootOkConfirms | firmware/src/bootloader.c:238-246 | the two flash operations of BOOT_OK leave the partition number alone, clear pending and count, and change only the flag sector |
| BootSelection.ConfirmedRun | firmware/src/bootloader.c:117-246 | step by step too: power-on, boot and BOOT_OK after an accepted update leave the accepted partition selected in RAM and flash |
| BootSelection.SettledStays | firmware/src/bootloader.c:117-134 | boots with nothing pending change nothing |
| BootSelection.BootRunsBootOnce | firmware/src/bootloader.c:117-134 | the machine's interruptible boot, left alone, is the firmware's boot |
| BootSelection.MainLoopCountIsOne | firmware/src/bootloader.c:126-132 | over every allowed run, power cuts at any step included, the count is at most 1 in the main loop |
| BootSelection.BootCountAtMostTwoIff | firmware/src/bootloader.c:126-132 | over every allowed run the count stays at most 2 exactly when no power-on finds an unconfirmed image counted twice |
| BootSelection.CountedTwiceIffCut | firmware/src/bootloader.c:126-132 | that condition arises exactly by a power cut while a roll-back is pending |
| BootSelection.ShippedCounts | firmware/src/bootloader.c:52-66 | a device as shipped, with no boot counted, meets the hypotheses of these results |
| BootSelection.CutBeforeRollbackCountsOn | firmware/src/bootloader.c:126-132 | a cut before the roll-back keeps counting; 255 wraps to 0 and the image runs again |
| JsonText.FindKeyToken | firmware/src/storage.c:214-222 | strstr for a quoted key stops at the first string token equal to it, and nowhere else |
| JsonText.OtherStringNoMatch | firmware/src/storage.c:214-222 | a quoted key never matches inside or across another string |
| CStrings.AtoiOfDec | firmware/src/storage.c:224-228 | atoi undoes %d for every number the printer writes |
| CStrings.AtoiOfInt | firmware/src/storage.c:224-228 | atoi of any printed integer gives the nearest 32-bit integer |
| CStrings.TimeRoundTrip | firmware/src/storage.c:250-267 | scanning undoes %02d:%02d |
| CStrings.TakeTextStops | firmware/src/storage.c:230-240 | copying stops at the closing quote |
| CStrings.TakeTextClips | firmware/src/storage.c:230-240 | a longer text is cut at the buffer size |
| CStrings.TimeBeforeQuote | firmware/src/storage.c:250-267 | scanning a time does not reach beyond its closing quote |
| CStrings.FindText | firmware/src/storage.c:214-222 | the search loop finds the first occurrence or none |
| CStrings.CopyText | firmware/src/storage.c:230-240 | the copy loop stops at a quote, the end or the buffer size |
| Config.PrintFits | firmware/src/storage.c:156-205 | every configuration in memory prints in fewer than 1024 characters and fits one SET_CONFIG line |
| ConfigJson.PrintIsShown | firmware/src/storage.c:156-205 | the printed text is the compact JSON text of the configuration's fields, section by section |
| ConfigJson.PrintIsJson | firmware/src/storage.c:156-205 | a JSON reader finds one object with exactly these fields in the printed text and nothing behind it, when no string needs an escape |
| JsonSyntax.ReadsValue | pc/src/pywinhello/serial/protocol.py:302-310 | the reader undoes the writer for every JSON value, at any nesting and with any white space |
| ConfigParser.ParserIsTotal | firmware/src/storage.c:269-390 | on every input the parser yields terminated strings that fit, at most 8 apps and a day mask below 128 |
| ConfigRoundTrip.DaysReadBack | firmware/src/storage.c:167-174 | printing the set bits and parsing them restores the mask |
| ConfigRoundTrip.DaysRead | firmware/src/storage.c:269-286 | the days come back from the whole text as the low seven bits, or as the digits from a bracket in the locale on |
| ConfigRoundTrip.TimeReads | firmware/src/storage.c:250-267 | hour and minute come back from the whole text, or keep their defaults exactly when a value diverts the search |
| ConfigRoundTrip.TimingReads | firmware/src/storage.c:372-381 | all six timing values come back, each search landing on its own key, or read as 0 where a value diverts it |
| ConfigRoundTrip.DeviceHijacked | firmware/src/storage.c:230-240 | a firmware string "device" makes the parser keep the default device |
| ConfigRoundTrip.LocaleHijacked | firmware/src/storage.c:230-240 | a firmware or device string "locale" makes the parser keep the default locale |
| ConfigRoundTrip.SectionFound | firmware/src/storage.c:214-222 | the search for a section stops at its key, or at the first top-level value of that name |
| ConfigCollections.AppsRead | firmware/src/storage.c:288-326 | all listed apps come back in order with their flags when no value is called "apps" |
| ConfigCollections.AppsMisread | firmware/src/storage.c:288-326 | with a value called "apps" and no brace after it the schedule object is read as three apps |
| ConfigCollections.AppsReadFromBrace | firmware/src/storage.c:288-326 | with a brace in a later value the apps are read from there |
| ConfigCollections.WifiRead | firmware/src/storage.c:328-360 | the SSID comes back unless values or app names divert the search; the password never does |
| ConfigCollections.ParseOfPrint | firmware/src/storage.c:156-390 | what parsing the printed text yields, field by field, even where it differs |
| ConfigCollections.ConfigRoundTripIff | firmware/src/storage.c:156-390 | for every configuration in memory the round trip holds exactly under the stated condition on the strings, mask, count and the values that divert a search |
| ConfigStore.ConfigToJson | firmware/src/storage.c:156-205 | the running snprintf offset never passes the buffer and the buffer holds the printed text and its terminator |
| ConfigStore.ConfigFromJson | firmware/src/storage.c:362-390 | the pointer-walking parser computes the specified parse |
| ConfigStore.JsonParseApps | firmware/src/storage.c:288-326 | the app loop stays in bounds and computes the specified list |
| ConfigStore.JsonParseScheduleDays | firmware/src/storage.c:269-286 | the day loop stays in bounds and computes the specified mask |
| ConfigStore.Store.SaveConfig | firmware/src/storage.c:499-504 | saving never truncates: the file is the whole printed configuration |
| ConfigStore.Store.SetConfigJson | firmware/src/storage.c:510-518 | a malformed text changes nothing; otherwise the configuration is replaced and saved |
| ConfigStore.Store.LoadConfig | firmware/src/storage.c:485-497 | defaults without a file, the parsed file otherwise, nothing on a malformed one |
| ConfigStore.SavedConfigLoads | firmware/src/storage.c:485-504 | whatever is saved fits the buffer and loads as its own parse, with the known outcome when no string has a quote; the password is lost |
| ConfigSearch.FieldFound | firmware/src/storage.c:214-222 | a key found is followed by its value, however many spaces stand before it |
| ConfigSearch.TopFound | firmware/src/storage.c:214-222 | in any object the search for a key lands on the first field of that name, when no earlier string repeats it |
| ConfigSearch.InnerFound | firmware/src/storage.c:370-381 | and the search inside a section on the field of that section |
| ConfigUpdate.UpdateReads | firmware/src/storage.c:362-390 | any object whose keys are findable is read as its own fields over the defaults, with any order, spacing and unknown fields |
| ConfigUpdate.SpacingDoesNotMatter | firmware/src/storage.c:214-222 | with spaces after colons and white space between fields the result is that of the compact text |
| ConfigUpdate.DayListReads | firmware/src/storage.c:269-286 | the listed day numbers set their bits, and day texts without digits none |
| ConfigUpdate.DayIsSet | firmware/src/storage.c:280-284 | a bit of the mask is set exactly when its number is listed |
| ConfigUpdate.AppFieldsRead | firmware/src/storage.c:288-326 | apps are read in order, whatever the gaps, until the slots are full |
| ConfigUpdate.WifiIs | firmware/src/storage.c:328-360 | SSID and password are those of the wifi object, cut to their buffers, or stay as they were |
| ConfigSpacing.SpacedConfigReads | pc/src/pywinhello/serial/protocol.py:307-310 | a whole configuration written with any spacing is read like the text the firmware prints |
| SettingsPages.NothingNamed | firmware/src/storage.c:362-390 | an object without any of the eight sections and top-level fields resets the whole configuration |
| SettingsPages.SchedulePageReads | pc/src/pywinhello/gui/settings/basic.py:192-199 | a schedule alone sets its time and exactly its day numbers, and resets everything else |
| SettingsPages.NamedDaysAreLost | pc/src/pywinhello/gui/constants.py:9 | with the day names of the page no day stays set |
| SettingsPages.NamedDaysNeverWake | pc/src/pywinhello/gui/settings/basic.py:192-199 | so after saving the schedule page no instant fires a wake |
| SettingsPages.AppsPageReads | pc/src/pywinhello/gui/settings/apps.py:167-176 | the apps page sets the first eight apps in order and resets everything else |
| SettingsPages.AdvancedPageResets | pc/src/pywinhello/gui/settings/advanced.py:150-171 | the advanced page changes no timing and resets everything else |
| EventLog.EntryRoundTrip | firmware/src/storage.c:398-407 | the sixteen bytes of an entry decode to it |
| EventLog.EntriesRoundTrip | firmware/src/storage.c:398-407 | and the bytes of any list of entries to that list |
| EventLog.PushAppends | firmware/src/log.c:62-81 | recording in the ring appends to the history it stands for, before and after it is full |
| EventLog.ReadAllIsOldest | firmware/src/log.c:83-100 | reading gives the oldest max_count of the last twenty, oldest first |
| EventLog.ImageRoundTrip | firmware/src/storage.c:398-432 | the restore callback reads back what the persist callback wrote |
| EventLog.RebootRestoresRing | firmware/src/log.c:40-50 | a reboot restores the flushed ring slot by slot |
| EventLog.RestoredIsALogIff | firmware/src/storage.c:409-432 | a restored file stands for a history exactly when it is refused or its unchecked index is consistent |
| EventLog.UncheckedIndex | firmware/src/storage.c:409-432 | a file with index 99 is accepted and stands for no history |
| EventLog.StepRefines | firmware/src/log.c:40-124 | every event, clear, flush and reboot of the log is that of a plain history and its last flushed copy |
| EventLog.LogRefinesHistory | firmware/src/log.c:40-124 | so over every run from power-on with an empty file |
| EventLog.RebootsAreInvisible | firmware/src/log.c:40-124 | when writes succeed, reboots do not change the history |
| EventLog.ReadReturnsLastTwenty | firmware/src/log.c:83-100 | when writes succeed, every run reads back the last min(n, 20) events since the last clear |
| EventLog.Log.constructor | firmware/src/log.c:40-50 | log_init builds the ring the file describes, and the log is valid exactly when its index is a slot number |
| EventLog.Log.FlushLog | firmware/src/log.c:106-116 | writes only when dirty and stays dirty if the write fails |
| EventLog.Log.LogEvent | firmware/src/log.c:62-81 | one event is one step of the specification |
| EventLog.Log.LogClear | firmware/src/log.c:118-124 | clearing is one step of the specification |
| EventLog.Log.HandleClear | firmware/src/storage.c:559-567 | CLEAR deletes the file, which may fail, and clears the log: one step of the specification |
| EventLog.Log.LogReadAll | firmware/src/log.c:83-100 | the out buffer receives exactly the specified entries and nothing beyond |
| Base64.Base64Encode | firmware/src/storage.c:444-462 | refuses a short buffer, otherwise writes 4 * ceil(n / 3) characters and NUL and nothing beyond |
| Base64.EncodeLength | firmware/src/storage.c:444-446 | the text has 4 * ceil(n / 3) characters |
| Base64.EncodeDecodes | firmware/src/storage.c:444-462 | standard decoding gives the input and zero bytes up to a multiple of three |
| Base64.NeverPads | firmware/src/storage.c:455-456 | no `=` is ever written |
| Base64.StandardIff | firmware/src/storage.c:444-462 | the text of the standard always decodes to the input; the firmware's does, and is that text, exactly when three divides the length |
| Base64.LogExportRoundTrip | firmware/src/storage.c:588-599 | the export of any entries still determines their count and every entry |
| Base64.ExportIsLastTwenty | firmware/src/storage.c:588-599 | over every run of the log the export decodes to the last twenty events still known, and without failed writes to the last twenty since the last clear |
| Base64.GetLogBase64 | firmware/src/storage.c:588-599 | the buffer receives the text of the entries read, empty for an empty log, or the call reports that it is too short |
| BootUnlock.Automaton.Start | firmware/src/main.c:64-75 | starts waiting with a PIN stored, is done at once without |
| BootUnlock.Automaton.Task | firmware/src/main.c:83-160 | one call is one step of the automaton with its keystrokes, the 8-bit counter and 32-bit differences included |
| BootUnlock.ElapsedIsNoMore | firmware/src/main.c:100-104 | clock wrap never makes an interval look longer than it was |
| BootUnlock.PassKeepsInv | firmware/src/main.c:83-160 | each call keeps the invariant that ties the phase to true time and to the PIN entries so far |
| BootUnlock.PinEntriesAreLimited | firmware/src/main.c:64-160 | at most max(1, retry_count) PIN entries, the first no sooner than boot_wait + 4 s, later ones at least 9 s + retry_interval apart |
| BootUnlock.DoneHasTyped | firmware/src/main.c:64-160 | an uncancelled run with a PIN stored that is done has typed Shift, Shift and the PIN exactly max(1, retry_count) times, or Shift, Shift where no PIN loads |
| BootUnlock.DoneStaysDone | firmware/src/main.c:83-86 | once done nothing is ever typed again |
| BootUnlock.MeasureDropsByOne | firmware/src/main.c:97-159 | every change of state uses up one of 4 * max(1, retry_count) transitions |
| BootUnlock.ChangesAreCounted | firmware/src/main.c:97-159 | over whole runs changes and the measure add up, and the 8-bit counter never overflows |
| BootUnlock.DoneByDeadline | firmware/src/main.c:64-160 | if the loop comes round in time the automaton is done by a deadline linear in retry_count |
| MainLoop.CommandCancels | firmware/src/main.c:265-286 | a known command leaves the automaton done in the same iteration, and the boot task sends no key from then on, whatever the scheduler does to the flag |
| MainLoop.QuietLoopRuns | firmware/src/main.c:265-286 | without a known command the loop runs the automaton uncancelled and sends its keys |
| MainLoop.LoopPass | firmware/src/main.c:265-286 | one pass over reader, automaton and scheduler objects is one round of the model, decided by the bytes, clocks and epoch read |
| MainLoop.OrderMatters | firmware/src/scheduler.c:180-185 | with the scheduler before the boot task a firing wake would undo the cancellation in every phase: the automaton goes on as if no command had come |
| Scheduler.NextWakeSec | firmware/src/scheduler.c:63-95 | the loop computes the specified search, 32-bit sums included |
| Scheduler.SearchIsMinimal | firmware/src/scheduler.c:73-94 | the search over days finds the first scheduled instant or shows there is none |
| Scheduler.NoOverflow | firmware/src/scheduler.c:73-94 | without 32-bit overflow the firmware's search is that search |
| Scheduler.NextWakeIsLeast | firmware/src/scheduler.c:63-95 | the result is the least wait to a scheduled instant, and UINT32_MAX exactly when none lies within six calendar days, exactly when the time of day lies within a day or nothing is found |
| Scheduler.FiresForOneMinute | firmware/src/scheduler.c:173-181 | the firing test holds for exactly the sixty seconds from a scheduled instant on |
| Scheduler.WeekdaysRun | firmware/src/scheduler.c:26-31 | 1 January 1970 is a Thursday, every second of a day has its weekday, and the next day has the next one |
| Scheduler.KnownMonday | firmware/src/scheduler.c:26-31 | 1 January 2024 is scheduled by Monday's bit alone |
| Scheduler.FiringAgreesWithNextWake | firmware/src/scheduler.c:63-181 | scheduler_task fires at the predicted instant exactly when hour and minute are in range, and not before it, but for the rest of a minute in progress |
| Scheduler.OutOfRangeNeverFires | firmware/src/scheduler.c:173-181 | a time of day out of range never fires |
| Scheduler.Task.constructor | firmware/src/scheduler.c:46-57 | initial latch |
| Scheduler.Task.SchedulerTask | firmware/src/scheduler.c:150-186 | one poll is one step of the latch and tells whether it fired |
| Scheduler.AtMostOncePerDay | firmware/src/scheduler.c:161-185 | over non-decreasing polls the firing days strictly increase |
| Scheduler.ServedIff | firmware/src/scheduler.c:161-185 | the day of a target poll is served exactly when no target poll of another day leads to it through polls of one residue modulo 256 |
| Scheduler.AllServedIff | firmware/src/scheduler.c:161-185 | every scheduled day with a poll in its minute is served exactly when no target poll hides another |
| Scheduler.CloseDaysHideNothing | firmware/src/scheduler.c:161-166 | consecutive polls on calendar days less than 256 apart hide nothing |
| Scheduler.ExactlyOncePerDay | firmware/src/scheduler.c:161-185 | from scheduler_init on, the day of a target poll fires exactly once exactly when no target poll of another day hides it |
| Scheduler.AliasedDayIsMissed | firmware/src/scheduler.c:161-166 | two target polls in a row on different days congruent modulo 256 serve only the first |
| Scheduler.MissedWithin256Days | firmware/src/scheduler.c:161-166 | two polls less than 256 times 24 hours apart of which the second day is missed |
| SerialLines.PcCommandsAreKnown | pc/src/pywinhello/serial/protocol.py:38-54 | every command of the PC side is known to the firmware and they are told apart |
| SerialLines.ParseCommandInverts | firmware/src/serial_proto.c:76-91 | every known command has exactly one name |
| SerialLines.SplitUndoesLine | firmware/src/serial_proto.c:93-102 | splitting undoes joining, colons in the payload and absent payloads included |
| SerialLines.StreamRoundTrip | pc/src/pywinhello/serial/protocol.py:110-124 | assembling and splitting the concatenated encodings of any command list gives the list |
| SerialLines.CommandArrivesIff | firmware/src/serial_proto.c:437-467 | a command arrives unchanged exactly when payload and length allow it |
| SerialLines.DispatchedIsPlain | firmware/src/serial_proto.c:437-467 | on every byte stream nothing dispatched holds a line end or NUL or is over-long |
| SerialLines.OverlongIsDiscarded | firmware/src/serial_proto.c:437-467 | 2048 characters without a line end are answered with an error, and reading starts afresh behind them |
| SerialLines.AssembleInParts | firmware/src/serial_proto.c:437-467 | how the bytes are cut into reads makes no difference |
| SerialLines.LineReader.DispatchCommand | firmware/src/serial_proto.c:348-381 | splits the buffer in place; exactly the known commands cancel boot unlock |
| SerialLines.LineReader.SerialTask | firmware/src/serial_proto.c:437-467 | the buffer index stays in bounds on every byte stream, the events are the specified ones, and boot unlock is cancelled exactly if one is a known command |
| Replies.SerialRespond | firmware/src/serial_proto.c:51-64 | the line built piece by piece is prefix, message and line feed when it fits, is cut at one byte more, and is read past the buffer beyond that |
| Replies.ReplyLine | firmware/src/serial_proto.c:51-64 | what the PC side strips from a reply line |
| Replies.ReplyRecoveredIff | pc/src/pywinhello/serial/protocol.py:127-155 | status and message come back from the bytes sent exactly when the line fits the buffer and the reply can carry the message |
| PinStorage.Pkcs7Pad | firmware/src/crypto.c:69-75 | pads in place to a whole block and touches nothing beyond |
| PinStorage.Pkcs7Unpad | firmware/src/crypto.c:77-92 | the loop computes the specified length or refusal |
| PinStorage.UnpadUndoesPad | firmware/src/crypto.c:69-92 | unpadding undoes padding |
| PinStorage.UnpadAcceptsIff | firmware/src/crypto.c:77-92 | a buffer is accepted exactly when it is the padding of its returned prefix, as in section 6.3 of RFC 5652 |
| PinStorage.PinRoundTrip | firmware/src/crypto.c:105-251 | a sealed PIN fits the buffers and opens to itself exactly when the target has room for it and its terminator |
| PinStorage.PinStore.SavePin | firmware/src/storage.c:520-538 | saves salt, IV and ciphertext of PINs of 1 to 16 bytes; a refusal changes nothing |
| PinStorage.PinStore.LoadPin | firmware/src/storage.c:540-546 | the buffer receives the PIN the first 64 bytes of the file open to, and its terminator, or is untouched |

## Left out

- Power cuts inside one sector erase or page program: the steps of `UpdateSafety` are whole flash operations.
- The actual boot selector is not part of this repository; what runs is taken to be the partition `active_part` names.
- The PC side of a transfer (pc/src/pywinhello/serial/flasher.py) sends no digest; the sender here appends it, as
  firmware/include/bootloader.h describes. The reply after a failed verification is never sent by the code.
- Bootloader.Receiver.FeedData: requires that the 32-bit sum of received and len does not wrap; a chunk that long cannot
  exist in the board's memory.
- OtaSession.FeedChunks: requires the same of the sum of received and all chunks.
- Bootloader.Receiver.Finalize: returning stands for the watchdog reset, as do `rebooted` results elsewhere.
- OtaSession.Session.ProcessFlashData: last_progress survives an aborted transfer, so the next one may report fewer
  lines.
- Config and parser strings are values; stale bytes after the terminator of a fixed char array, and in unused app slots
  of the C struct, are not modelled. Conversions saturate and truncate as newlib's strtol and the casts do.
- ConfigStore.ConfigToJson: formatting is split into one helper per section; json_get_bool, which nothing calls, is
  left out.
- ConfigUpdate.UpdateReads: strings hold no quote, so an escape of json.dumps is read as the characters it is written
  with. Keys that occur earlier as another string divert the search; for the printed text this is followed through in
  `ParseOfPrint`, for other objects it is excluded. Days are single digits or texts without digits and brackets, apps
  are flags whose names fit. Spaces only after a colon, no tabs between fields. JSON null and exponents have no value
  here.
- ConfigSpacing.SpacedConfigReads: strings that are themselves keys are excluded, since spacing can matter there.
- JsonSyntax.ReadsValue: strings without escapes; white space follows one layout throughout a text.
- Text is a sequence of bytes already encoded in UTF-8; the codec of the PC side is not modelled.
- SerialLines.LineReader.SerialTask: text mode only; in flash mode serial_task hands over to `ProcessFlashData`. Bytes
  already queued behind a FLASH command are still read as text, in the code and here.
- The bodies of the command handlers, other than FLASH, SET_CONFIG, BOOT_OK and the PIN and log storage they call. Of
  CLEAR only its part in the log is here, not the deletion of the PIN and configuration files.
- Replies.SerialRespond: `None` stands for the bytes beyond the buffer that a reply of more than 4096 characters sends,
  since the length snprintf returns is that of the whole line.
- PONG and JSON payloads of individual replies, and parse_ping.
- AES-256-CBC, HKDF, SHA-256 and the random source are function parameters or success flags.
- Files are read and written whole and atomically; LittleFS itself is not modelled.
- EventLog.Log: its methods require a valid log; what writing at an index that is no slot number does is not modelled.
- EventLog: the persistence callbacks are registered before log_init; entry timestamps are opaque.
- Scheduler: one reading of the clock per poll, and readings that do not decrease; an NTP correction backwards is not
  modelled. scheduler_do_wake is one firing event; its wait loop never runs serial_task.
- Scheduler.NextWakeIsLeast: only without 32-bit overflow within seven days; the search itself (`NextWakeSec`) has the
  wrapping sums.
- BootUnlock: timing values are fixed during a run (a SET_CONFIG command cancels the run anyway); whether hid_* succeeds
  is ignored by the code and here.
- BootUnlock.DoneByDeadline: assumes the main loop comes round at least every `gap` milliseconds.
- wifi.c, hid.c and usb_descriptors.c: driver, network and USB calls.
- The PC daemon, GUI, wizard, installer, updater, detectors and USB watcher: threads, operating system probes and user
  interface around short branches.
