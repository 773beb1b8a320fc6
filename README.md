# Hawck: log retrieval, key capture and passthrough keys, in Dafny

This project models the parts of Hawck that carry state and invariants, and
proves properties about them.

- **The GUI's log retriever** (`LogRetriever` in `src/gui/window.py`). It
  normalises journal records that the `get-lua-errors.sh` script prints
  (`mklog`). It sorts each batch stably by `__MONOTONIC_TIMESTAMP`. It
  collapses runs of equal `MESSAGE`s into one record with a `DUP` counter.
  The last stored record seeds the run, so a repeat of it only bumps its
  `DUP`. It delivers only records above a watermark and keeps them in a
  five-entry history (`append`).
- **The key-capture dialog** of the editor window. Key presses and releases
  build lists of key names and codes until a non-modifier key ends the
  capture. OK hands the lists on; `insertKeyHandler` turns them into the
  head of a Hawck rule. `getScriptName` is also modelled.
- **The keyboard daemon's passthrough-key table** (`src/KBDDaemon.cpp`).
  - `key_sources` maps each CSV file to the key codes it lists, and
    `passthrough_keys` is the set of those codes. Unloading and loading
    keep the two in step, with `stoi` as a function that can fail.
  - The 0644/owner permission gate.
  - The file-system event dispatch.
  - The per-key routing and the consecutive socket-error counter of the
    main loop.

Layout:

- `common.dfy` (module `Common`): `Option` and `Result`, and the ASCII text
  helpers both programs use. These are decimal digits and their value (Python
  `int()`, `str.isdigit`) and upper/lower case.
- `log_records.dfy` (module `LogRecords`): records as maps from field names
  to `S(text) | I(int)`. It holds `str.partition(":")`, the regular expression
  `^(.+):(\d)+: (.*)` as Python's backtracking matcher applies it, the
  digit-string coercion loop, and `mklog`.
- `log_history.dfy` (module `LogHistory`): the stable sort, the
  deduplication loop, and the run-based reference definition it is proved
  equal to. It also holds the watermark filter, the bounded history, the
  specification `Refresh` of a whole `update`, and the class `LogRetriever`.
- `key_capture.dfy` (module `KeyCapture`): the capture state as a value
  (`Capture`), with its invariant and the class `KeyCapturer` that updates
  it in place. It also holds the handler text and `getScriptName`.
- `kbd_daemon.dfy` (module `KbdDaemon`): `std::stoi` and the table as a value
  (`Table`) with the union invariant. It has the load/unload functions, the
  gate, the dispatch and the routing, and the class `Daemon` whose methods
  update the map and the set in place.

Every imperative operation is a method proved equal to a specification
function of its inputs and old state. The properties are proved as lemmas
about those functions.

The code seeds the deduplication of the next batch with the last stored
record (`window.py:162-164`), and so does the model.

## Model

| member | source | states |
|---|---|---|
| Common.DecimalRoundTrip | src/gui/window.py:132-136 | `int()` of the decimal text of n is n |
| Common.LeadingZeroIgnored | src/gui/window.py:133-136 | Leading zeros do not change the integer a digit string is coerced to |
| LogRecords.PartitionSplits | src/gui/window.py:128 | `partition(":")`: the head has no ':'. With a ':', head + ':' + tail is the message. Without one, the head is the whole message and the tail is empty |
| LogRecords.PartitionAtFirst | src/gui/window.py:128 | The head is exactly the text before the first ':' and the tail the text after it |
| LogRecords.LuaSearch | src/gui/window.py:127-130 | The greedy `(.+)` makes the match use the largest ':' position at which the pattern fits; no later position fits |
| LogRecords.LuaErrorMatchSpec | src/gui/window.py:127-130 | The match fails exactly when no position fits; otherwise the groups come from a fitting position with none after it |
| LogRecords.LuaMatchKeepsLastDigit | src/gui/window.py:127-131 | On `file:digits: error` the groups are the file, only the LAST digit of the line number, and the error text |
| LogRecords.LuaMatchFixedKeepsLine | src/gui/window.py:127-132 | With `(\d+)` the same messages match and the line group is the whole line number |
| LogRecords.CoercedSpec | src/gui/window.py:133-136 | Coercion keeps every key, turns exactly the all-digit strings into their integers, leaves other values alone, and is idempotent |
| LogRecords.CoerceExamples | src/gui/window.py:135 | "17" becomes 17; "17x" and "" stay text |
| LogRecords.CoerceDigitStrings | src/gui/window.py:133-136 | The loop over a snapshot of the items computes the coerced record |
| LogRecords.IsLuaTypeCaseInsensitive | src/gui/window.py:129 | The LUA test accepts exactly the eight spellings of "lua" with each letter in either case |
| LogRecords.Normalise | src/gui/window.py:126-137 | A normalised record has TYPE and MESSAGE |
| LogRecords.MkLog | src/gui/window.py:126-137 | The in-place rewrite yields `Normalise` of the input, including its errors |
| LogRecords.NormaliseSplitsMessage | src/gui/window.py:128-136 | TYPE is the text before the first ':' and MESSAGE the text after it (coerced). With no ':', TYPE is the whole message and MESSAGE is "" |
| LogRecords.NormaliseCoercesEveryField | src/gui/window.py:133-136 | Every other field survives, coerced, and no field of the result is a digit string |
| LogRecords.RewrittenLuaRecord | src/gui/window.py:128-132 | A LUA record, whatever its other fields, whose message has the error shape gains LUA_FILE, LUA_LINE (the last digit) and LUA_ERROR |
| LogRecords.NormaliseLuaRecord | src/gui/window.py:128-136 | The same after coercion. TYPE keeps the case it was written in, and LUA_LINE is the last digit's value |
| LogRecords.NormaliseLuaMismatch | src/gui/window.py:130-131 | A LUA record, whatever its other fields, whose message the pattern fits at no position is an error (`m` is None) |
| LogHistory.ParseAll | src/gui/window.py:157-159 | Every decoded record has a MESSAGE |
| LogHistory.ParseAllSpec | src/gui/window.py:157-159 | Decoding fails exactly when some line fails; otherwise record i is `mklog` of line i |
| LogHistory.ParseLines | src/gui/window.py:157-159 | The decoding loop computes `ParseAll` |
| LogHistory.Insert | src/gui/window.py:160 | Inserting is a permutation of the element and the list |
| LogHistory.SortByTs | src/gui/window.py:160 | The sort is a permutation |
| LogHistory.InsertChronological | src/gui/window.py:160 | Inserting into a sorted list keeps it sorted and bounded below |
| LogHistory.InsertStable | src/gui/window.py:160 | Inserting keeps the order of the records that share a timestamp |
| LogHistory.SortByTsSpec | src/gui/window.py:160 | The sort result is ascending, a permutation, and stable per timestamp |
| LogHistory.BumpDup | src/gui/window.py:171-175 | DUP becomes the old DUP (default 1) plus the number absorbed |
| LogHistory.BumpDupKeeps | src/gui/window.py:171-175 | Bumping DUP changes no other field |
| LogHistory.RunLength | src/gui/window.py:165-168 | The run of records repeating a message is maximal |
| LogHistory.CollapseCarry | src/gui/window.py:161-176 | The loop with an accumulator absorbs the run that repeats it, then continues on the rest |
| LogHistory.CollapseIsRuns | src/gui/window.py:161-176 | With no accumulator the loop equals the run-based reference definition |
| LogHistory.CollapseWithCarry | src/gui/window.py:162-176 | With the last stored record as accumulator, its repeats bump its DUP and the rest collapses into runs |
| LogHistory.CollapseRunsShape | src/gui/window.py:165-176 | No output is longer than the input; the output is empty exactly for an empty input; the first output is the first record bumped; every output has an integer DUP; adjacent outputs differ in MESSAGE |
| LogHistory.CollapseRunsChronological | src/gui/window.py:160-176 | Collapsing a sorted batch gives a sorted list of storable records |
| LogHistory.CollapseRunsCountsEveryRecord | src/gui/window.py:165-176 | Without prior DUPs, the DUPs of the output sum to the batch size |
| LogHistory.CollapseRunsSucceeds | src/gui/window.py:165-176 | With integer DUPs the collapse cannot fail |
| LogHistory.CollapseRunsPair | src/gui/window.py:165-176 | `a, a, b` gives `a` with DUP 2 and `b` with DUP 1 |
| LogHistory.CollapseErrorIsDup | src/gui/window.py:171-175 | The only failure of the collapse is a text DUP meeting `+ skips` |
| LogHistory.Fresh | src/gui/window.py:179 | Every record kept is from the input and newer than the watermark |
| LogHistory.FreshKeepsNewer | src/gui/window.py:179 | Every input record newer than the watermark is kept |
| LogHistory.FreshChronological | src/gui/window.py:160-179 | Filtering keeps a sorted list sorted |
| LogHistory.PushAllWindow | src/gui/window.py:115-124 | Appending one by one keeps the last min(5, n) records and counts the evictions as n - kept |
| LogHistory.PushAllEndsWith | src/gui/window.py:182-185 | The history ends with the last delivered records, and the eviction count is old + added - kept |
| LogHistory.PushAllValid | src/gui/window.py:179-184 | Appending newer records keeps the history valid, with the newest as the watermark |
| LogHistory.LastOf | src/gui/window.py:162-164 | The accumulator seed exists exactly when the history is non-empty and is one of its records |
| LogHistory.Batch | src/gui/window.py:157-160 | A decoded and sorted batch is ascending and has messages |
| LogHistory.SortKeepsMessages | src/gui/window.py:160 | Sorting keeps every record's MESSAGE |
| LogHistory.CollapseSorted | src/gui/window.py:160-179 | Collapsing a sorted batch after the history gives storable records whose fresh part is ascending |
| LogHistory.CarryBumpedValid | src/gui/window.py:162-176 | Bumping the carried record keeps the history valid and changes only its DUP |
| LogHistory.AppendChronological | src/gui/window.py:179-184 | Records newer than the watermark appended to a sorted history keep it sorted |
| LogHistory.DeliverFacts | src/gui/window.py:179-185 | Delivery returns records above the watermark in order. The watermark moves to the last of them or stays. The history stays valid with min(5, old + added) entries, ending with the delivered records |
| LogHistory.RefreshDelivers | src/gui/window.py:139-185 | Every successful refresh meets the delivery promises |
| LogHistory.RefreshErrorLeavesHistory | src/gui/window.py:157-175 | A failing refresh keeps the watermark and the history. Only the carried record's DUP can have been bumped, and only when the failure is a text DUP |
| LogHistory.RefreshKeepsHistory | src/gui/window.py:139-185 | Every refresh keeps the history valid and never lowers the watermark |
| LogHistory.DeliveredNotAbove | src/gui/window.py:179-181 | No delivered record is newer than the new watermark |
| LogHistory.RefreshTwiceNoRedelivery | src/gui/window.py:179-181 | Records delivered by a second refresh are strictly newer than all those of the first |
| LogHistory.LogRetriever.constructor | src/gui/window.py:108-113 | An empty history with watermark 0 |
| LogHistory.LogRetriever.Append | src/gui/window.py:115-124 | Drops the oldest record when full, puts the new one last, and returns 1 exactly when it was full |
| LogHistory.LogRetriever.CollapseRepeats | src/gui/window.py:161-178 | The dedup loop returns the collapse and bumps the stored last record's DUP in place |
| LogHistory.LogRetriever.AppendAll | src/gui/window.py:182-184 | The append loop gives the pushed history and the eviction count |
| LogHistory.LogRetriever.Update | src/gui/window.py:139-185 | A failed script returns nothing and changes nothing. Otherwise the new history, watermark and result are those of `Refresh`, and the validity invariant holds |
| KeyCapture.ModifiersAreLong | src/gui/window.py:74-88 | No modifier name is a single character |
| KeyCapture.CapturedName | src/gui/window.py:594-597 | A one-character name that is not a modifier is upper-cased and every other name is kept; the length and whether the name is a modifier do not change |
| KeyCapture.CapturedNameIdempotent | src/gui/window.py:594-597 | Capturing a captured name changes nothing |
| KeyCapture.CapturedNameCaseInsensitive | src/gui/window.py:594-597 | A one-character key is captured the same in either case |
| KeyCapture.IndexOf | src/gui/window.py:566 | `index` finds the first occurrence, and fails exactly for a missing name |
| KeyCapture.RemoveFirstSpec | src/gui/window.py:567-568 | `remove` cuts out the first occurrence and one copy of the value |
| KeyCapture.PressedSpec | src/gui/window.py:579-609 | A press is ignored when done or when it repeats the last name. Otherwise it appends the name and the code, and ends the capture exactly on a non-modifier. The capture stays valid |
| KeyCapture.ReleasedSpec | src/gui/window.py:556-571 | A release before done removes the name's first occurrence and one copy of that position's code, and keeps the capture valid. A release when done or of an unknown name changes nothing |
| KeyCapture.ReleaseKeepsPairs | src/gui/window.py:566-568 | When each code belongs to one name, the removed code sits at the removed name's position |
| KeyCapture.KeyCapturer.constructor | src/gui/window.py:237-239 | The capture starts empty |
| KeyCapture.KeyCapturer.KeyPress | src/gui/window.py:579-609 | The press handler computes `Pressed` and keeps the capture valid |
| KeyCapture.KeyCapturer.KeyRelease | src/gui/window.py:556-571 | The release handler computes `Released` and keeps the capture valid |
| KeyCapture.KeyCapturer.Reset | src/gui/window.py:573-577 | Reset empties the capture |
| KeyCapture.KeyCapturer.Ok | src/gui/window.py:547-554 | OK returns the captured lists, then the capture is reset, as the signal's class handler does at lines 620-621 |
| KeyCapture.LowerAll | src/gui/window.py:517 | Every name is lower-cased, in order |
| KeyCapture.JoinThenSeparator | src/gui/window.py:517-518 | A join followed by " + " puts " + " after every part |
| KeyCapture.KeyHandlerTextWithModifiers | src/gui/window.py:516-518 | With at least one modifier, the text is `down + m1 + ... + key "k" => ` |
| KeyCapture.KeyHandlerTextLoneKey | src/gui/window.py:516-518 | A lone key gives `down +  + key "k" => `, unlike the intended `down + key "k" => ` |
| KeyCapture.LastIndex | src/gui/window.py:407 | The last occurrence of a character, or none |
| KeyCapture.ScriptName | src/gui/window.py:406-408 | A script name contains no '/' |
| KeyCapture.BaseNameOf | src/gui/window.py:407 | The basename of `dir/base` is `base` |
| KeyCapture.StripExtOf | src/gui/window.py:407 | `splitext` of `stem.ext` gives `stem` when the stem is not all dots |
| KeyCapture.ScriptNameOfPath | src/gui/window.py:406-408 | The script name of `dir/stem.ext` is `stem` |
| KeyCapture.ScriptNameLeadingDot | src/gui/window.py:406-408 | `.ext` alone has no extension to strip |
| KbdDaemon.Stoi | src/KBDDaemon.cpp:95 | A successful `stoi` is within `int` |
| KbdDaemon.StoiReads | src/KBDDaemon.cpp:95 | White space, a sign, digits and a non-digit tail read as the signed number, or out_of_range outside `int` |
| KbdDaemon.StoiRejects | src/KBDDaemon.cpp:95-107 | No digit after the white space and the sign is invalid_argument, including white space after a sign (`- 5`) |
| KbdDaemon.StoiDecimalRoundTrip | src/KBDDaemon.cpp:95 | Every non-negative `int` written in decimal reads back as itself |
| KbdDaemon.Unloaded | src/KBDDaemon.cpp:60-75 | An unknown path changes nothing. A known one is dropped, and every remaining source's codes are back in the set |
| KbdDaemon.UnloadKeepsUnion | src/KBDDaemon.cpp:60-75 | Unloading keeps the set equal to the union of the sources |
| KbdDaemon.UnloadKeepsSharedCodes | src/KBDDaemon.cpp:60-75 | After an unload a code stays exactly when another source lists it |
| KbdDaemon.ParseCodesSpec | src/KBDDaemon.cpp:94-100 | The column reads completely exactly when every cell is an `int`. The codes kept are the non-negative values, all of them when complete |
| KbdDaemon.LoadKeepsUnion | src/KBDDaemon.cpp:77-101 | A complete load records exactly the parsed codes for the path and keeps the union invariant |
| KbdDaemon.LoadCsvErrorUnloads | src/KBDDaemon.cpp:89-105 | A CSV error drops the path's source, keeps every other source, and keeps the set equal to the union of the sources |
| KbdDaemon.ParseCodesStopsAtFailure | src/KBDDaemon.cpp:94-100 | With the first failing cell at k, the column is incomplete and keeps exactly the non-negative values of the cells before k |
| KbdDaemon.LoadFailureKeepsPartialCodes | src/KBDDaemon.cpp:89-109 | A `stoi` failure at cell k leaves the path unloaded; a code is then in the set exactly when it was there after the unload or is a non-negative value of a cell before k |
| KbdDaemon.LoadFailureBreaksUnion | src/KBDDaemon.cpp:89-109 | From an empty table, the column `5, x` leaves 5 in the set with no source |
| KbdDaemon.LoadAtomicKeepsUnion | src/KBDDaemon.cpp:89-101 | A load that inserts nothing on failure keeps the union invariant on every input |
| KbdDaemon.PermissionBits | src/KBDDaemon.cpp:114-118 | The gate passes exactly rw-r--r-- files owned by the daemon's user |
| KbdDaemon.PermissionIgnoresHighBits | src/KBDDaemon.cpp:114 | File type, setuid, setgid and sticky bits do not matter |
| KbdDaemon.Dispatch | src/KBDDaemon.cpp:155-161 | IN_DELETE_SELF unloads. Otherwise IN_CREATE or IN_MODIFY loads |
| KbdDaemon.DispatchPriority | src/KBDDaemon.cpp:155-161 | Deletion wins over creation and modification, and a mask with none of the three does nothing |
| KbdDaemon.EventsKeepUnion | src/KBDDaemon.cpp:154-161 | While every loaded column reads completely, events keep the union invariant |
| KbdDaemon.InitKeepsUnion | src/KBDDaemon.cpp:124-129 | Start-up loading keeps the union invariant, and only files that passed the gate become sources |
| KbdDaemon.KeyStepRouting | src/KBDDaemon.cpp:171-213 | Only passthrough codes are forwarded. Other codes leave the counter alone, a success resets it to 0, and a failure adds one and never forwards |
| KbdDaemon.AbortsOnTwelfthError | src/KBDDaemon.cpp:136-200 | As written, consecutive failures abort on the 12th |
| KbdDaemon.AbortsOnTenthError | src/KBDDaemon.cpp:136-200 | The intended counter aborts on the 10th |
| KbdDaemon.RunFromShape | src/KBDDaemon.cpp:140-213 | One outcome per key until an abort, which can only be the last |
| KbdDaemon.Daemon.constructor | src/KBDDaemon.cpp:48-55 | The table starts with no sources and no keys, which satisfies the union invariant |
| KbdDaemon.Daemon.Unload | src/KBDDaemon.cpp:60-75 | The erase and re-insert loops compute `Unloaded` |
| KbdDaemon.Daemon.Load | src/KBDDaemon.cpp:77-111 | The unload, the `stoi` loop and the recording compute `Loaded` |
| KbdDaemon.Daemon.InsertCodes | src/KBDDaemon.cpp:94-100 | The loop inserts the parsed non-negative codes and reports whether every cell was read |
| KbdDaemon.Daemon.LoadEvent | src/KBDDaemon.cpp:113-122 | An event loads only through the gate |
| KbdDaemon.Daemon.InitPassthrough | src/KBDDaemon.cpp:124-129 | Every file found at start-up goes through the gated load |
| KbdDaemon.Daemon.HandleEvents | src/KBDDaemon.cpp:154-161 | The event loop applies the dispatch to each event in order |
| KbdDaemon.Daemon.Run | src/KBDDaemon.cpp:131-215 | The main loop's table and key outcomes, with its local error counter, are those of `RunFrom` |

## Left out

- Running `get-lua-errors.sh` (`Popen`, `wait`, reading stdout) is an input. `Update` takes `None` for a non-zero exit and otherwise the output's lines.
- `json.loads` is abstracted. Each line is a decoded object or `Malformed`. JSON values are text or integers only: floats, booleans, null and nested objects are not modelled.
- `LogHistory.LogRetriever.Update`: `last_log_text` is stored as the decoded lines rather than the raw text.
- `dismissed` (`window.py:113`) is never used by the retriever, so it is left out.
- `LogHistory.Batch`: a record without an integer `__MONOTONIC_TIMESTAMP` fails the whole batch before sorting. Python raises at the sort for a missing key or for mixed types. A batch whose timestamps are all text would sort and then fail only at the watermark comparison. The model does not tell these apart.
- `LogHistory.Ts` reads 0 for a record without a timestamp. No stored or delivered record lacks one, so the fallback is never observed.
- `str.isdigit`, `upper` and `lower` are ASCII only. Unicode digits and multi-character case mappings are not modelled.
- Key names are abstract inputs. Deriving them from `ev.string.strip()` or `Gdk.keyval_name` is not modelled.
- Widget work is not modelled: the capture label, hiding the window, `handler_block`/`handler_unblock`, and inserting the text into the buffer. GObject signal emission is reduced to the reset that the signal's class handler performs.
- The rest of the editor window is not part of this model: script installation, templates, `updateLogs` rows and `checkHawckDRunning`.
- `getScriptName` works on '/'-separated paths. `os.path` normalisation of other separators is not modelled.
- `realpath` is not modelled: paths are taken as already resolved. Its failure throws an exception that `loadPassthrough` does not catch, and that path is not modelled either.
- CSV reading is an input. The `key_code` column arrives as `Option<seq<string>>`, and `None` stands for `CSVError`.
- Side effects with no bearing on the table are not modelled: `fsw.add`, `printf`, the watcher thread and `FSWatcher` itself.
- `stoi` is modelled for the C locale. `strtol`'s locale-dependent white space is not modelled.
- Key reading is not modelled: keyboard reads, `KeyboardError` and its abort.
- The socket exchange with the macro daemon is one boolean per key, and the keys it emits through `udev` are not modelled.
- `KbdDaemon.Daemon.Run`: the endless loop is modelled over a finite sequence of iterations, and `abort()` ends the sequence.
- `hawck-inputd.cpp` (argument check, daemonising) and `FSWatcher.hpp` (inotify, threads) are not part of this model.

## Findings

| source | as written | input that shows it | evidently intended | confidence | as-written member | corrected member |
|---|---|---|---|---|---|---|
| src/gui/window.py:127 | `(\d)+` repeats a one-digit group, so LUA_LINE is the last digit of the line number | `LUA:x.lua:42: boom` gives LUA_LINE 2 | `(\d+)`: LUA_LINE 42 | high, not executed | LogRecords.LuaMatchKeepsLastDigit | LogRecords.LuaMatchFixedKeepsLine |
| src/gui/window.py:516-518 | The modifiers are joined with " + " and then " + key" is appended, so a lone key leaves an empty slot | capture of the single key `A` gives `down +  + key "a" => ` | `down + key "a" => ` | high, not executed | KeyCapture.KeyHandlerTextLoneKey | KeyCapture.KeyHandlerTextWithModifiers |
| src/KBDDaemon.cpp:89-109 | A `stoi` failure is swallowed after earlier codes were inserted, and the path is never recorded | column `5, x` for a new file | the set stays the union of the sources, so a failed load adds nothing | medium, not executed | KbdDaemon.LoadFailureBreaksUnion | KbdDaemon.LoadAtomicKeepsUnion |
| src/KBDDaemon.cpp:136-138,200 | `errors++ > MAX_ERRORS` compares the old count against 10 | 12 consecutive socket errors on passthrough keys; the first abort is on the 12th | abort on the 10th, as the comment says | high, not executed | KbdDaemon.AbortsOnTwelfthError | KbdDaemon.AbortsOnTenthError |
