# Verified model of DDlog's command language, adapters and tools

This project models, in Dafny, the parts of the DDlog repository that turn text and JSON into
engine commands, together with three small algorithms beside them, and proves what they promise.

* **Command language.** `Stream`, `Records` and `Parser` hold the streaming grammar of records,
  updates and commands (`parse.rs`, a nom 4 parser over partial input: every rule answers
  `Done`, `Fail` or `More`) and the printer of records (`record/mod.rs`). `Stability` proves
  every rule of the grammar prefix stable. `RoundTrip` and `Unreadables` prove exactly which
  printed records are read back. `Recorder` proves that the commands of the
  session recorder (`replay.rs`) are read back, and `CommandRoundTrip` exactly which updates and
  calls are. `Literals` and `Typed` are about what people write and the program does not: all forms of
  literals, updates with fields in parentheses, and the commands of the command line.
* **Running a session.** `Interact` is the reading loop (`cmd_parser/lib.rs`), `CommandLoop` the
  batching state machine of the generated program (`main.rs`), and `Replay` joins recorder,
  grammar, reading loop and command loop: a recorded session that is fed back through a pipe
  repeats the recorded engine calls, however its text is cut into lines.
* **OVSDB.** `Ovsdb` and `OvsdbRoundTrip` are the two-way conversion between records and the
  JSON values of section 5.1 of RFC 7047, with the exact domain of both round trips;
  `OvsdbUpdates` is the translation of table updates (section 4.1.6 of RFC 7047) into commands
  and what executing these commands does to keyed tables, and `OvsdbNotifications` states what a
  notification means in terms of its JSON alone.
* **Identifier allocators.** `Allocate` and `AllocateFacts` are the four cyclic scans of
  `lib/allocate.rs` with their arithmetic in a bounded type.
* **Souffle converter.** `Souffle` and `SouffleFacts` are the pass that distributes "and" over
  "or", with the exact condition under which it preserves the meaning of a rule; `FreshNames` is
  the generator of variable names.
* **Section numbers.** `Headings` is the counter machine of `doc/number-sections.py`.

Code that computes values is modelled by functions; code that updates state (the command loop, the
list that `flatten` appends to, the vector of commands, the table of counters, the set of names)
is modelled by classes, and loops by methods with loops. Each such method is proved against a
specification function, and the theorems are about that function. `dafny verify dfyconfig.toml`
checks the whole project.

## Where the code differs from its documentation or from itself

The model follows the code; each difference is a theorem.

* Serialized values are printed as `#format"data"` (`record/mod.rs:230`), but the grammar reads
  `@format"data"` (`parse.rs:452`), which is also what `doc/command_reference` documents. No
  serialized value is read back (`Unreadables.SerializedIsNotReadBack`).
* Strings are printed with Rust's escapes, which include `\0` and `\u{..}`; the grammar knows
  neither. `Unreadables.RecordRoundTrip` gives the exact condition.
* A constructor whose name begins with `true` or `false` is printed but read as a Boolean.
* `doc/command_reference` says that a comment ends at the end of its line. It does if and only if
  something other than white space follows the `#` on that line (`Recorder.CommentEndsItsLine`);
  otherwise the comment takes the next line with it (`Recorder.BlankCommentTakesNextLine`).
* At a terminal a syntax error discards the rest of the line it is on, so that there, and only
  there, the way the input is cut into lines matters (`Interact.TerminalCutExact`,
  `Interact.TerminalErrorTakesItsLine`).
* `allocate_with_hint` promises identifiers in the range (`lib/allocate.dl:40`) but does not check hints: an
  item whose hint is free gets it even outside the range. The promise is kept exactly
  if, from the hint of every served item to the range, all identifiers are in use
  (`AllocateFacts.HintRangeExact`); for hints that are not in use, if they are in the range
  (`AllocateFacts.FreeHintsExact`).
* `allocate_opt` and `adjust_allocation` count one step too many; the addition leaves the type
  exactly when the range is the whole type and the last identifier is looked at
  (`Allocate.AllocateOpt`; `AllocateFacts.WholeTypeOverflows` is an instance).
* Negative integers are written to OVSDB JSON but not read from it.
* The label of a profile dump is recorded without quotes. A label that is not blank is not read back, and some
  are read as other commands (`CommandRoundTrip.LabelRoundTrip`, `CommandRoundTrip.LabelReadAsSwitch`).
* The top level of a distributed body is read as comma-separated whatever its separators, and a group directly
  in a comma-separated level as or-separated; outside the fragment where this is right, the converter
  changes the meaning of every rule in which no literal occurs twice
  (`SouffleFacts.DistributionExact`; `SouffleFacts.OutsideTheFragment` is an instance).
* After an unnumbered heading the next numbered one repeats or goes back to an earlier number
  (`Headings.HeadingTheorem`).

## Model

| member | source | states |
|---|---|---|
| `RoundTrip.SpacesExact` | rust/template/cmd_parser/parse.rs:38-44 | Leading blanks, and nothing else, are dropped, and all of them |
| `Literals.BlanksIgnored` | rust/template/cmd_parser/parse.rs:38-44 | Blanks, tabs, carriage returns and line feeds are what is dropped |
| `Literals.PlainIdent` | rust/template/cmd_parser/parse.rs:50-57 | Letters, digits and underscores that do not begin with a digit are an identifier |
| `Literals.JoinedIdent` | rust/template/cmd_parser/parse.rs:50-57 | Two identifiers joined by `::` are an identifier |
| `Stability.SpacesCat` | rust/template/cmd_parser/parse.rs:38-44 | Blanks may be dropped before or after more input arrives, with the same result |
| `Stability.IdentStable` | rust/template/cmd_parser/parse.rs:50-57 | Prefix stability of identifiers with `::` |
| `Stability.StrLitStable` | rust/template/cmd_parser/parse.rs:373-402 | Prefix stability of string literals with escapes and the special case of the empty string |
| `Stability.BigintStable` | rust/template/cmd_parser/parse.rs:665-692 | Prefix stability of hexadecimal, decimal and negative integers |
| `Stability.RecognizeFloatStable` | rust/template/cmd_parser/parse.rs:599-627 | Prefix stability of floating point literals: a literal accepted, or rejected, on partial input is so on all longer input |
| `Stability.RecordStable` | rust/template/cmd_parser/parse.rs:349-351 | For every text and every continuation, the decision of the mutually recursive record grammar on the text stands, value included, when the continuation arrives; only the unread rest grows |
| `Stability.ArgsStable` | rust/template/cmd_parser/parse.rs:730-737 | The same for constructor arguments, named before positional |
| `Stability.RelRecordStable` | rust/template/cmd_parser/parse.rs:336-341 | The same for a relation with a record in brackets or parentheses |
| `Stability.UpdateStable` | rust/template/cmd_parser/parse.rs:323-334 | The same for the five updates and their ordered, overlapping keywords |
| `Stability.ProfileStable` | rust/template/cmd_parser/parse.rs:59-78 | The same for the three kinds of profile commands |
| `Stability.QueryIndexStable` | rust/template/cmd_parser/parse.rs:127-139 | The same for index queries, where one argument is the key and several are a tuple |
| `Stability.CommandStable` | rust/template/cmd_parser/parse.rs:80-149 | The same for the whole command language: what `parse_command` decides on a partial buffer is final |
| `Records.FormatDdlogStr` | rust/template/differential_datalog/src/record/mod.rs:34-50 | The copying loop, which writes unescaped stretches in one piece, writes the quoted text with every character escaped on its own, single quotes excepted |
| `Records.EscapePlain` | rust/template/differential_datalog/src/record/mod.rs:30-50 | ASCII text without double quotes and backslashes is written as it is, single quotes included |
| `Records.EscapedChars` | rust/template/differential_datalog/src/record/mod.rs:34-50 | What is written for line breaks, tabs, quotes, backslashes, the zero byte and every other control character |
| `Records.NatTextValue` | rust/template/cmd_parser/parse.rs:675-692 | The number read from the digits written for `n`, decimal or hexadecimal, is `n` |
| `RoundTrip.IdentRead` | rust/template/cmd_parser/parse.rs:50-57 | Every identifier is read back whole, up to the first text that cannot continue it, a single `:` included |
| `RoundTrip.IdentSound` | rust/template/cmd_parser/parse.rs:50-57 | Nothing else is ever returned as an identifier |
| `RoundTrip.StrLitRead` | rust/template/cmd_parser/parse.rs:373-402 | For every string and continuation: the printed string is read back exactly if all its characters have an escape the grammar knows, and is otherwise rejected whatever follows |
| `RoundTrip.IntRead` | rust/template/cmd_parser/parse.rs:663-692 | Every printed integer, of either sign, is read back before a delimiter, and is not taken for a float |
| `RoundTrip.RecordRead` | rust/template/cmd_parser/parse.rs:349-520 | A well-named record with readable strings and no double or serialized value, printed and followed by a delimiter, is read back with array kinds `Unknown`, and nothing but blanks is consumed after it |
| `RoundTrip.TupleRead` | rust/template/cmd_parser/parse.rs:472-476 | The same for the text of a tuple, of any length |
| `RoundTrip.ArrayRead` | rust/template/cmd_parser/parse.rs:489-493 | The same for the text of an array, of any length |
| `RoundTrip.PosArgsRead` | rust/template/cmd_parser/parse.rs:512-520 | The same for a constructor with positional arguments |
| `RoundTrip.NamedArgsRead` | rust/template/cmd_parser/parse.rs:353-359 | The same for a constructor with at least one named argument |
| `RoundTrip.StructFirst` | rust/template/cmd_parser/parse.rs:349-364 | A constructor name that does not begin with `true` or `false` reaches the struct rule, although Booleans are tried first |
| `Unreadables.RecordSound` | rust/template/cmd_parser/parse.rs:349-351 | For every input: a record that the grammar returns is its own normal form, all names in it are identifiers, and constructor names do not begin with a Boolean |
| `Unreadables.RecordBroken` | rust/template/cmd_parser/parse.rs:349-520 | A well-named record that contains an unreadable string or a serialized value, at any depth, stops the grammar before the end of its text |
| `Unreadables.RecordRoundTrip` | rust/template/differential_datalog/src/record/mod.rs:220-283 | Printing and parsing a record without doubles, before any delimiter, returns the record in normal form and the continuation if and only if its names are well formed and its strings readable and it holds no serialized value |
| `Unreadables.RereadExact` | rust/template/differential_datalog/src/record/mod.rs:220-283 | A record without doubles that the grammar has returned for any input is printed and read again as the very same record if and only if its strings are readable |
| `Unreadables.SerializedIsNotReadBack` | rust/template/cmd_parser/parse.rs:450-460 | The text printed for a serialized value is rejected by the record grammar, whatever follows |
| `Literals.SerializedRead` | rust/template/cmd_parser/parse.rs:450-460 | What the grammar wants instead, `@format` and a string, is read as the serialized value |
| `Literals.DecimalRead` | rust/template/cmd_parser/parse.rs:685-692 | Digits with underscores after the first are read as the integer of the digits, and not as a float |
| `Literals.HexRead` | rust/template/cmd_parser/parse.rs:675-683 | The same for hexadecimal digits after `0x` or `0X` |
| `Literals.MinusLiteral` | rust/template/cmd_parser/parse.rs:665-673 | A minus sign before any integer literal negates it |
| `Literals.UnderscoresMeanNothing` | rust/template/cmd_parser/parse.rs:675-692 | An underscore anywhere in a number does not change its value |
| `Literals.LowerHexExample` | rust/template/cmd_parser/parse.rs:705-716 | `0xabcd` is 43981 |
| `Literals.UpperHexExample` | rust/template/cmd_parser/parse.rs:675-683 | `0XFf` is 255 |
| `Literals.UnderscoreExample` | rust/template/cmd_parser/parse.rs:724-727 | `1_000_` is 1000 |
| `Literals.FloatRead` | rust/template/cmd_parser/parse.rs:599-637 | Every literal with a point or an exponent, in all their forms and with any sign, is read as a double with its text |
| `Literals.EscapesRead` | rust/template/cmd_parser/parse.rs:373-402 | A string of escapes, of all eleven kinds and in any order, is read as the characters they mean |
| `Literals.BareConstructor` | rust/template/cmd_parser/parse.rs:512-520 | A constructor without braces is read as one without fields |
| `Recorder.Peeking.Next` | rust/template/differential_datalog/src/replay.rs:24-56 | The iterator gives the next update and says whether it is the last, or that there is none |
| `Recorder.RecordUpdates` | rust/template/differential_datalog/src/replay.rs:128-147 | The loop over the looking-ahead iterator writes a comma and a line break after every update but the last, and a semicolon after the last |
| `Recorder.InsertRead` | rust/template/cmd_parser/parse.rs:324 | A recorded `insert` is read back |
| `Recorder.InsertOrUpdateRead` | rust/template/cmd_parser/parse.rs:325 | A recorded `insert_or_update` is read back, although `insert` is tried first |
| `Recorder.ShorterInsert` | rust/template/cmd_parser/parse.rs:324 | `insert` takes `_or_update` for a relation name and then rejects |
| `Recorder.DeleteRead` | rust/template/cmd_parser/parse.rs:326 | A recorded `delete` is read back |
| `Recorder.DeleteKeyRead` | rust/template/cmd_parser/parse.rs:327 | A recorded `delete_key` is read back, although `delete` is tried first |
| `Recorder.ModifyRead` | rust/template/cmd_parser/parse.rs:328-332 | A recorded `modify` is read back with key and mutator apart |
| `Typed.TypedUpdate` | rust/template/cmd_parser/parse.rs:323-341 | For every relation and all readable fields, positional or named: `insert R(..)`, `insert_or_update R(..)` and `delete R(..)` are read as the update with a record whose constructor has the name of the relation |
| `Typed.TypedUpdateCommand` | rust/template/cmd_parser/parse.rs:144-146 | The same as commands, with the flag of `;` and `,` |
| `Recorder.UpdateRead` | rust/template/differential_datalog/src/replay.rs:150-180 | Every recorded update with well-formed records is read back as itself, in normal form |
| `CommandRoundTrip.UpdateSound` | rust/template/cmd_parser/parse.rs:323-334 | For every input: the relation of an update that the grammar returns is an identifier |
| `CommandRoundTrip.UpdateRoundTrip` | rust/template/differential_datalog/src/replay.rs:150-180 | Writing and parsing an update without doubles, before any delimiter, returns the update in normal form and the continuation if and only if its relation is an identifier and its records are readable |
| `Recorder.DumpIndexRead` | rust/template/cmd_parser/parse.rs:140-143 | `dump_index` is resolved as such, although `dump` is tried before it |
| `Recorder.DumpRead` | rust/template/cmd_parser/parse.rs:105-108 | `dump` with a relation is read back |
| `Recorder.QueryRead` | rust/template/differential_datalog/src/replay.rs:260-270 | A recorded index query is read back with its key |
| `Recorder.ProfileRead` | rust/template/differential_datalog/src/replay.rs:357-385 | Each of the three recorded profile switches is read back as its own kind, although the rules are tried in order on the same keyword |
| `Recorder.CommitDumpRead` | rust/template/cmd_parser/parse.rs:84-87 | `commit dump_changes` is read back with its flag |
| `Typed.TypedQuery` | rust/template/cmd_parser/parse.rs:127-139 | An index query with any number of arguments: one is the key itself, several or none are a tuple |
| `Typed.TypedTimestamp` | rust/template/cmd_parser/parse.rs:88 | `timestamp` is read as itself |
| `Typed.TypedExit` | rust/template/cmd_parser/parse.rs:117 | `exit` is read as itself |
| `Typed.TypedEcho` | rust/template/cmd_parser/parse.rs:118-121 | `echo` has the text up to the semicolon, without the blanks after the keyword |
| `Typed.TypedLogLevel` | rust/template/cmd_parser/parse.rs:122-125 | `log_level` is read with its number, of either sign |
| `Typed.TypedSleep` | rust/template/cmd_parser/parse.rs:113-116 | `mssleep` is read with its number |
| `Typed.TypedDump` | rust/template/cmd_parser/parse.rs:105-108 | `dump` without a relation is read as such |
| `Recorder.CommentEndsItsLine` | rust/template/cmd_parser/parse.rs:89-92 | For every line and every text after it: a comment ends at the end of its line if and only if something other than white space follows the mark on that line |
| `Recorder.BlankCommentTakesNextLine` | rust/template/cmd_parser/parse.rs:89-92 | Otherwise the next line, unless it too is blank, belongs to the comment |
| `Replay.CallRead` | rust/template/differential_datalog/src/replay.rs:222-281 | Every recorded call other than a batch is read back as the command of that call |
| `CommandRoundTrip.LabelRoundTrip` | rust/template/differential_datalog/src/replay.rs:387-396 | A profile dump is read back if and only if its label is blank |
| `CommandRoundTrip.LabelReadAsSwitch` | rust/template/differential_datalog/src/replay.rs:387-396 | A label that is read as something else: the dump labelled `cpu on` comes back as the CPU profiling switch |
| `CommandRoundTrip.QueryRoundTrip` | rust/template/differential_datalog/src/replay.rs:260-270 | A recorded index query without doubles is read back if and only if its index is an identifier and its key readable |
| `CommandRoundTrip.CallRoundTrip` | rust/template/differential_datalog/src/replay.rs:222-396 | Writing and parsing any single call without doubles returns its command and the continuation if and only if its names are identifiers, its key is readable and its label is blank |
| `Replay.UpdateLineRead` | rust/template/cmd_parser/parse.rs:144-146 | Every recorded update is read as an update command, with the flag of its separator: last after `;`, not last after `,` |
| `Interact.ParserStreams` | rust/template/cmd_parser/parse.rs:80-149 | The command grammar is a parser that the reading loop is correct for: it makes progress, ignores leading blanks and is prefix stable |
| `Interact.DriveCat` | rust/template/cmd_parser/lib.rs:86-118 | Input that arrives later is handled as if it had been there from the start: driving the whole input is driving the second part on what the first left waiting |
| `Interact.DriveIsFeed` | rust/template/cmd_parser/lib.rs:88-118 | Driving a text is parsing off its commands and handing them to the callback, each once and in order, until the callback stops, and ends as callback or text say |
| `Interact.PendingWaits` | rust/template/cmd_parser/lib.rs:100 | What stays in the buffer holds no complete command and no leading blanks |
| `Interact.CutInvariance` | rust/template/cmd_parser/lib.rs:86-118 | From a pipe, for every callback and every way of cutting the input into lines, the session equals repeated parsing of the whole input, early stops and invalid input included |
| `Interact.TerminalCutInvariance` | rust/template/cmd_parser/lib.rs:86-118 | At a terminal the same holds for every input without a syntax error |
| `Interact.TerminalCutExact` | rust/template/cmd_parser/lib.rs:86-118 | And for no other: a terminal session equals repeated parsing of the whole input if and only if that input has no syntax error |
| `Interact.TerminalErrorTakesItsLine` | rust/template/cmd_parser/lib.rs:101-110 | At a terminal, text after a syntax error is dropped if it is on the same line and read if it is on the next |
| `Interact.Drain` | rust/template/cmd_parser/lib.rs:88-118 | The inner loop does to state and buffer what the specification says of a full buffer |
| `Interact.Run` | rust/template/cmd_parser/lib.rs:42-119 | The outer loop computes the session of its lines |
| `CommandLoop.Loop.ApplyUpdates` | rust/template/src/main.rs:223-229 | A non-empty buffer is handed over whole and is empty afterwards, accepted or not; an empty one causes no call |
| `CommandLoop.Loop.HandleCmd` | rust/template/src/main.rs:39-211 | Each command changes buffer and engine log, and answers, as the step function says |
| `CommandLoop.NonUpdateExact` | rust/template/src/main.rs:47-210 | For every command other than an update: the pending batch is handed over first, then the event of the command, if it has one and its relation or index is known; it goes well exactly if the engine accepts both and the name is known; `exit` ends every session, and other commands end it exactly if they do not go well and it is not interactive |
| `CommandLoop.UpdateExact` | rust/template/src/main.rs:163-181 | For every update: it waits, or goes to the engine with the buffer as the last of its batch, or is given up with the buffer if it cannot be converted; and when that goes well and the session goes on |
| `CommandLoop.StepConserves` | rust/template/src/main.rs:39-211 | From any state, one command settles buffered updates in order and adds exactly the update it carries, if that can be converted |
| `CommandLoop.Conservation` | rust/template/src/main.rs:163-181 | Over every run, the converted updates, in the order read, are exactly those handed to the engine or discarded with their batch, followed by those still buffered |
| `CommandLoop.NonUpdateMeetsEmptyBuffer` | rust/template/src/main.rs:47-52 | In every reachable state a command other than an update first settles all updates read before it, in one batch, then causes at most one engine event, and leaves the buffer empty |
| `CommandLoop.BatchesAreNotEmpty` | rust/template/src/main.rs:223-229 | Over every run the engine is never called with an empty batch |
| `Typed.ExitEndsSession` | rust/template/src/main.rs:152-154 | From any state, a session stops at `exit;` and reads nothing that follows, after handing over the updates that were waiting |
| `Typed.StopsAt` | rust/template/src/main.rs:202-210 | From a pipe, a session stops at the first command that does not go well |
| `Replay.ParserReadsBack` | rust/template/differential_datalog/src/replay.rs:222-281 | The command grammar can be fed line by line and reads back everything the recorder writes with well-formed records |
| `Replay.ReplayTheorem` | rust/template/differential_datalog/src/replay.rs:217-286 | For every recorded session with readable records, every program that knows its names and every engine that accepts its calls, and every way of cutting the recording into lines: piping it in makes exactly the recorded engine calls in order, one batch per batch, succeeds, and leaves no update buffered and no input unread |
| `Allocate.Allocate` | lib/allocate.rs:28-70 | The items in order are paired with the free identifiers in walk order until one side runs out; no addition leaves the type |
| `Allocate.AllocateOpt` | lib/allocate.rs:125-170 | The same with `None` for the rest; an addition leaves the type exactly if the range is the whole type and there are more items than free identifiers before its last |
| `Allocate.AdjustAllocation` | lib/allocate.rs:172-221 | Existing allocations are repeated, other keys get free identifiers in walk order while there are any; the same overflow condition, counting new keys |
| `Allocate.Scan` | lib/allocate.rs:197-217 | The scan for one key finds the next free identifier of the walk, or none exactly if the round holds no more |
| `Allocate.AllocateWithHint` | lib/allocate.rs:72-123 | The result is the hinted run; with hints in the range no addition leaves the type |
| `Allocate.Start` | lib/allocate.rs:38-42 | The start of a scan is in the range even if identifiers outside it are in use |
| `AllocateFacts.StartIs` | lib/allocate.rs:37-42 | It is the largest identifier in use if that is in the range, and else the default |
| `AllocateFacts.WalkVisits` | lib/allocate.rs:47-51 | A cyclic walk of at most one round visits distinct identifiers, exactly those within its length of the start |
| `AllocateFacts.FreeIdsComplete` | lib/allocate.rs:45-69 | One round collects every free identifier of the range exactly once |
| `AllocateFacts.AllocateTheorem` | lib/allocate.rs:28-70 | `allocate` serves a prefix of the items, of length exactly the smaller of the numbers of items and of free identifiers, with distinct identifiers of the range that were not in use |
| `AllocateFacts.AllocateOrder` | lib/allocate.rs:37-69 | `allocate` and `allocate_opt` give out the free identifiers in turn: first the first one after the largest identifier in use, if that is in the range, and else the first of the range; then always the first one after the one before, around the range |
| `AllocateFacts.OptTheorem` | lib/allocate.rs:125-170 | `allocate_opt` is `allocate` on a prefix and `None` on all later items |
| `AllocateFacts.AdjustIsAllocate` | lib/allocate.rs:172-221 | What `adjust_allocation` gives to new keys is what `allocate` gives to these keys alone |
| `AllocateFacts.AdjustTheorem` | lib/allocate.rs:172-221 | Every listed key with an allocation keeps it, new identifiers are in range and unused, the new part is that of `allocate`, and with distinct keys and distinct existing identifiers all identifiers are distinct |
| `AllocateFacts.AdjustOrder` | lib/allocate.rs:181-217 | The new keys get theirs in the same turn |
| `AllocateFacts.AdjustPlace` | lib/allocate.rs:192-220 | Which keys are served, at which place of the result each stands, and with which identifier |
| `AllocateFacts.AdjustIdempotent` | lib/allocate.rs:172-221 | If every key was served, running again on the result returns the same vector, whatever the free identifiers then |
| `AllocateFacts.HintTheorem` | lib/allocate.rs:72-123 | With hints in the range: exactly as many items are served as there are free identifiers for, each with the first free identifier cyclically from its hint or from the identifier after the one before, the first from the largest one in use or the beginning of the range; distinct, in range and unused |
| `AllocateFacts.HintsAreNotClamped` | lib/allocate.rs:91-109 | An item that comes first and whose hint is free gets it, in the range or not |
| `AllocateFacts.HintRangeExact` | lib/allocate.rs:72-123 | For all hints: all identifiers are in the range if and only if for the hint of every served item, all identifiers that the scan meets from it to the range are in use; so they are if that holds of all hints |
| `AllocateFacts.FreeHintsExact` | lib/allocate.rs:72-123 | In particular, if no hint outside the range is in use: if and only if the hints of all served items are in the range, and where there is a free identifier for every item, if and only if all hints are |
| `AllocateFacts.WholeTypeOverflows` | lib/allocate.rs:151-159 | Asked for every identifier of its type, with none in use, `allocate_opt` serves them all and adds one too many |
| `OvsdbRoundTrip.HexPadValue` | rust/template/ovsdb/lib.rs:445-449 | The digits written for an integer that fits the width have its value |
| `OvsdbRoundTrip.PadIsLower` | rust/template/ovsdb/lib.rs:445-449 | They are lower-case hexadecimal digits |
| `OvsdbRoundTrip.UuidRoundTrip` | rust/template/ovsdb/lib.rs:445-456 | Every 128-bit integer is read back from its UUID text |
| `OvsdbRoundTrip.HyphensMeanNothing` | rust/template/ovsdb/lib.rs:30-39 | Hyphens may stand anywhere in a UUID |
| `OvsdbRoundTrip.CaseMeansNothing` | rust/template/ovsdb/lib.rs:37 | Upper-case and lower-case digits have the same value |
| `OvsdbRoundTrip.UuidRejects` | rust/template/ovsdb/lib.rs:37-38 | Other characters, and the lack of digits, make it invalid |
| `OvsdbRoundTrip.CanonicalUuidExact` | rust/template/ovsdb/lib.rs:30-39 | A UUID text is what is written for its value, and the value is one that is written as a UUID, if and only if the text is lower case in the 8-4-4-4-12 layout with a non-zero digit among the first sixteen |
| `OvsdbRoundTrip.HighDigits` | rust/template/ovsdb/lib.rs:383-393 | Where the split between numbers and UUIDs falls in the text: a value reaches a power of sixteen exactly if a higher digit is not zero |
| `OvsdbRoundTrip.RecordRoundTrip` | rust/template/ovsdb/lib.rs:378-443 | A record comes back from JSON, with options as sets of at most one element, if and only if it is built from strings, Booleans, integers from 0 below 2^128, options (`None` without fields, `Some` with one), sets, and maps of pairs |
| `OvsdbRoundTrip.IntComesBack` | rust/template/ovsdb/lib.rs:382-399 | An integer comes back if and only if it is at least 0 and below 2^128 |
| `OvsdbRoundTrip.NumbersWritten` | rust/template/ovsdb/lib.rs:382-399 | What is written for every integer, negative ones included, and which numbers are not read |
| `OvsdbRoundTrip.NamedUuidIsString` | rust/template/ovsdb/lib.rs:175 | A named UUID is read as its name, and then written as a plain string |
| `OvsdbRoundTrip.ReadsExact` | rust/template/ovsdb/lib.rs:166-240 | Which JSON values are read at all |
| `OvsdbRoundTrip.WritesExact` | rust/template/ovsdb/lib.rs:378-443 | Which records are written at all |
| `OvsdbRoundTrip.JsonRoundTrip` | rust/template/ovsdb/lib.rs:228-240 | A JSON value is reproduced from its record if and only if it is canonical: unsigned 64-bit numbers, canonical UUIDs, no named UUIDs, sets and maps of the same |
| `OvsdbRoundTrip.ArrayReproduced` | rust/template/ovsdb/lib.rs:166-196 | The same for the two-element arrays that tag UUIDs, sets and maps |
| `OvsdbUpdates.Commands.RowUpdate` | rust/template/ovsdb/lib.rs:93-162 | Succeeds exactly on rows in one of the two formats with a parsable UUID, and then appends exactly the commands of the row |
| `OvsdbUpdates.Commands.TableUpdate` | rust/template/ovsdb/lib.rs:58-69 | Succeeds exactly if every row does, and appends their commands in order |
| `OvsdbUpdates.Commands.TableUpdates` | rust/template/ovsdb/lib.rs:45-54 | Succeeds exactly if every table does, and returns all their commands in order |
| `OvsdbUpdates.ExecRow` | rust/template/ddlog.h:1630-1691 | The commands of one well-formed row execute without a duplicate or missing key exactly if the row fits the tables, and change only its own key |
| `OvsdbUpdates.KeyOfRow` | rust/template/ovsdb/lib.rs:106-107 | An inserted record has the UUID of its row for its key if and only if the row has no `_uuid` column or its first one holds that UUID |
| `OvsdbUpdates.RowExact` | rust/template/ovsdb/lib.rs:103-161 | A row does as it says on all tables if and only if it is well formed: if inserted, it has no `_uuid` column or its first one holds its UUID |
| `OvsdbUpdates.ReplayTheorem` | rust/template/ovsdb/lib.rs:45-162 | A notification with distinct keys and well-formed rows can be executed if and only if every row fits the tables as they were before; each row is then what its update says, and all else is unchanged |
| `OvsdbUpdates.ReplayExact` | rust/template/ovsdb/lib.rs:45-162 | With distinct keys, this holds on all tables if and only if every row is well formed |
| `OvsdbUpdates.OrderIndependence` | rust/template/ovsdb/lib.rs:45-162 | Any order of well-formed rows gives the same outcome, failure included |
| `OvsdbUpdates.OrderMatters` | rust/template/ovsdb/lib.rs:105-113 | A witness that order can matter for a row whose `_uuid` column names another row |
| `OvsdbNotifications.NotificationKeys` | rust/template/ovsdb/lib.rs:45-79 | Tables with different names in the program and rows with different parsed UUIDs give rows with distinct keys |
| `OvsdbNotifications.TranslationExact` | rust/template/ovsdb/lib.rs:45-162 | A notification is translated if and only if every table is an object, every UUID can be parsed, and every update is in one of the two formats, with rows whose columns can be read |
| `OvsdbNotifications.NotificationTheorem` | rust/template/ovsdb/lib.rs:45-162 | On the JSON members alone: the commands returned for a notification can be executed if and only if every row it inserts is new and every row it changes or deletes is there; then an inserted row, or a new one in place of an old one, has the columns of the JSON and its UUID, a modified one is patched with them, a deleted one is gone, under the prefixed and capitalized table name, and all else is unchanged |
| `OvsdbNotifications.NotificationExact` | rust/template/ovsdb/lib.rs:45-162 | With different tables and parsed UUIDs, the commands do so on all tables if and only if no inserted row has a first `_uuid` column that disagrees with its UUID |
| `Souffle.NodeList.AddTerm` | tools/souffle_converter.py:1314-1322 | A literal or negation is appended as it is, a group as its disjunction, and the flag is set exactly by a group with alternatives |
| `Souffle.NodeList.AddConjunction` | tools/souffle_converter.py:1323-1328 | Flattening a conjunction appends its nodes in order |
| `Souffle.NodeList.Flatten` | tools/souffle_converter.py:1308-1331 | Appends the nodes of the tree to the list, and sets the flag exactly if a group with alternatives occurs directly at this level |
| `Souffle.FlattenSize` | tools/souffle_converter.py:1350-1368 | Flattening neither adds nor loses terms and groups: the measure by which the mutual recursion ends |
| `SouffleFacts.ForksExact` | tools/souffle_converter.py:1308-1331 | `hasDisjunction` is set exactly if a group with alternatives is among the flattened nodes, or equally among the terms of the body |
| `SouffleFacts.HasCommasExact` | tools/souffle_converter.py:1333-1339 | `hasCommas` is true exactly if a comma is among the flattened nodes |
| `Souffle.DisConjunction` | tools/souffle_converter.py:1341-1357 | Returns the alternatives of all nodes, one after the other; mutually recursive with the next |
| `Souffle.Distribute` | tools/souffle_converter.py:1373-1377 | The two inner loops list every alternative so far followed by every alternative of the next factor |
| `Souffle.ConDisjunction` | tools/souffle_converter.py:1359-1378 | Returns the product of the alternatives of its nodes |
| `Souffle.CrossAssoc` | tools/souffle_converter.py:1371-1377 | Distributing from the left lists the same alternatives, in the same order, as distributing from the right |
| `SouffleFacts.CrossAt` | tools/souffle_converter.py:1373-1377 | Where each pair of a product stands |
| `Souffle.OrNodesTree` | tools/souffle_converter.py:1341-1357 | The sum over a flattened list is the alternatives of the tree read as or-separated |
| `Souffle.FactorsTree` | tools/souffle_converter.py:1359-1378 | The product over a flattened list is the alternatives of the tree read as comma-separated, and the list is never empty |
| `Souffle.DisjunctionTerms` | tools/souffle_converter.py:1395-1396 | Without distribution, each conjunction of the body is a body, in order |
| `Souffle.ProcessBody` | tools/souffle_converter.py:1384-1396 | The bodies emitted for a rule: distribution if it is asked for and a group with alternatives occurs directly in the body, else one per conjunction |
| `SouffleFacts.GroupsAreDistributed` | tools/souffle_converter.py:1389-1396 | A body with a group that has alternatives, anywhere at its top level, is distributed when asked: its bodies are the product over its nodes, no group is left in them, and some body holds exactly if all nodes do; no other body is changed |
| `Souffle.ConjunctionTerms` | tools/souffle-grammar.pg:205-207 | The terms of a conjunction in source order |
| `SouffleFacts.OrMeans` | tools/souffle_converter.py:1341-1357 | For every body and every set of terms that hold: some alternative holds if and only if some node does, groups read in turn by the separators the code looks at |
| `SouffleFacts.AndMeans` | tools/souffle_converter.py:1359-1378 | For every body and every set of terms that hold: some alternative holds if and only if all nodes do |
| `SouffleFacts.BodiesMean` | tools/souffle_converter.py:1380-1396 | For every set of terms that hold, some emitted body holds if and only if the rule body does, when the body is in the faithful fragment or is not distributed |
| `SouffleFacts.BodiesHold` | tools/souffle_converter.py:1380-1396 | The same under every truth assignment to the literals, negations included |
| `SouffleFacts.DistributionExact` | tools/souffle_converter.py:1389-1393 | For a distributed body in which no literal occurs twice, the emitted bodies are equivalent to it under all truth assignments to its literals if and only if it is in the fragment: no alternatives at the top level, and below it no comma where the code reads a disjunction and no group where it reads one wrongly |
| `SouffleFacts.RefuteAnd` | tools/souffle_converter.py:1389-1393 | For a body with distinct terms outside the fragment, a set of its terms for which the two readings differ |
| `SouffleFacts.MakeAll` | tools/souffle-grammar.pg:196-199 | Terms without a common literal can be made to hold in any combination by a truth assignment, through any nesting of negations and groups |
| `SouffleFacts.OutsideTheFragment` | tools/souffle_converter.py:1390-1393 | A witness, `a; (b; c)`: its bodies are `a, b` and `a, c`, so that it no longer holds where only `b` does |
| `SouffleFacts.OrFaithfulNoCommas` | tools/souffle_converter.py:1333-1339 | A level that is rightly read as or-separated has no commas, so `hasCommas` sends it to `disConjunction` |
| `SouffleFacts.AlternativesCount` | tools/souffle_converter.py:1341-1378 | The two distributions return exactly as many alternatives as the sum and the product over their nodes |
| `SouffleFacts.SourceOrder` | tools/souffle_converter.py:1341-1378 | Every alternative lists its terms in source order |
| `FreshNames.Converter.FreshVariable` | tools/souffle_converter.py:635-643 | Terminates for every finite set of names; returns the prefix if it is not in use, and else the prefix, an underscore and the least number that makes a name not in use; and registers it |
| `FreshNames.Pigeonhole` | tools/souffle_converter.py:639-641 | At most as many candidates can be in use as there are names; suffixes make candidates distinct |
| `FreshNames.CandidatesDiffer` | tools/souffle_converter.py:637-641 | The prefix and its numbered variants are pairwise distinct |
| `FreshNames.RunIsFresh` | tools/souffle_converter.py:635-643 | Over every run the names returned are pairwise distinct and none had been registered before it was returned |
| `Headings.Numbering.Count` | doc/number-sections.py:32-44 | The counters and the last depth change as the step function says, or the hierarchy is rejected |
| `Headings.Numbering.SectionNumber` | doc/number-sections.py:46-49 | The text of the number is that of the counters up to the depth |
| `Headings.Numbering.GetHeading` | doc/number-sections.py:19-58 | The numbered row, the row of the table of contents, the reference rewrite and the counters after a row; fails exactly on a row of nothing but marks and on a skipped level |
| `Headings.StepTracks` | doc/number-sections.py:32-44 | The step on counters is the step on outline paths: the path is in the counters and every counter beyond it is one |
| `Headings.PathIsTracked` | doc/number-sections.py:24-58 | This holds after every document of depth at most 5 whose unnumbered headings come first |
| `Headings.NumberLess` | doc/number-sections.py:32-49 | At every depth, a numbered heading that follows a numbered one has a greater number in lexicographic order |
| `Headings.NumbersArePaths` | doc/number-sections.py:46-49 | In such a document every heading is numbered by its outline path |
| `Headings.HeadingTheorem` | doc/number-sections.py:24-58 | In a document without skipped levels, of any depth, the numbers strictly increase in lexicographic order if and only if no unnumbered heading stands between numbered ones |
| `Headings.IncreasingDistinct` | doc/number-sections.py:55 | Strictly increasing numbers are pairwise distinct, so no two headings share one |
| `Headings.NumberTextStep` | doc/number-sections.py:47-49 | Every component of a number is written in decimal and followed by a point |
| `Headings.NumberTextExact` | doc/number-sections.py:47-49 | Numbers with the same text are the same |
| `Headings.TextsDistinct` | doc/number-sections.py:46-55 | In a document without skipped levels and without interposed unnumbered headings, no two headings are given the same number text |
| `Headings.AnchorForm` | doc/number-sections.py:19-22 | An anchor is a number sign and text in brackets, and the text has no points and no blanks |
| `Headings.DashedCat` | doc/number-sections.py:22 | Points are dropped and blanks become dashes, one by one |

## Left out

- Doubles: the value of a literal. A double is carried as the text it was written with
  (`Literals.FloatRead`), and the
  round trip is stated for records without doubles, because printing and rounding of `f32` and
  `f64` belong to Rust's library.
- Strings read from files, `%"file"`: input and output; the model rejects them.
- Characters beyond ASCII: the source works on bytes of UTF-8, the model on characters; all
  characters that the grammar looks at are ASCII. Which characters Rust prints unescaped is the parameter
  `p`, and `to_uppercase` the parameter `upper`.
- Numbers that do not fit: `log_level` and `mssleep` panic on integers outside their types; the
  model returns the integer.
- Recorder: the `???` written for an unknown
  identifier, errors of the writer, and the variant for typed updates, whose values are printed
  outside the files modelled.
- Replay.ReplayTheorem: batches recorded without any update leave no trace in the text, so the
  statement leaves them out of the replayed calls.
- The engine: dataflow, transactions and queries are a log of calls, and what the engine
  answers is a parameter that may depend on that log; printed output, profiling builds and the
  text of errors are not part of this model, nor is `stop` at the end of a run.
- Reading loop: line editing, history, interrupts and read errors; the lines that successive reads return
  are given as a list.
- Interact.Drain: the inner loop of `interact` is a method of its own.
- Allocate.Scan: the scan for one key of `adjust_allocation` is a method of its own.
- Allocators: identifiers are those of an unsigned type with a largest value; signed types and big
  integers are not part of this model. An empty range, on which the source aborts, is excluded.
- OVSDB: parsing of JSON text, and the strings for insert, delete and update requests.
- OvsdbUpdates.ReplayTheorem: inserted rows whose first `_uuid` column disagrees with their UUID are excluded,
  because on some tables it fails for them (`OvsdbUpdates.ReplayExact`). What `modify` does to the
  fields of a row is the parameter `patch`.
- OvsdbUpdates.OrderIndependence: the same rows are excluded, because for some of them it is false
  (`OvsdbUpdates.OrderMatters`).
- OvsdbNotifications.NotificationTheorem: notifications in which a table or a row occurs twice, under names that differ
  in the case of the first letter or UUIDs that are written differently, are excluded, and so are inserted
  rows with a `_uuid` column that disagrees (`OvsdbNotifications.NotificationExact`).
- OvsdbUpdates.ExecRow: whether a table exists and whether a record has its type is not part of this model,
  which knows only the preconditions on keys.
- Souffle converter: everything outside the normal-form pass; a negation is opaque, as in the code, and
  a rule that still has a group in its body afterwards is refused by the converter.
- Headings.PathIsTracked: beyond depth 5 the counters of the source are not reset, so outline paths are stated to
  that depth only, as in `Headings.NumbersArePaths`; the order of the numbers is proved at every depth.
- Headings: the rewriting of references in the body of the text. Python's `str.strip` and `str.lower` are
  parameters.
- Java, C and Go bindings, FlatBuffers, standard-library collections and the wrappers of other
  libraries: delegation to code outside the repository, or easy members only.
