# WinSheduler: a verified model of the service core

WinSheduler is a Windows service that starts programs at configured times. This project models
the three parts of the service in which correctness is hardest to see, and proves what they
keep.

**The JSON codec** (`json.cpp`). Requests, replies and the list columns of the database are
JSON texts, written and read by a hand-made printer and recursive-descent parser. `Bytes`,
`JsonString` and `JsonNumber` hold the byte-level pieces; `JsonParser` has the parser twice, as
an object with a position that loops over its input, and as functions on the remaining input
that the object is proved to compute. `JsonSyntax` is an independent grammar of JSON texts with
arbitrary white space, and `JsonSpelling` one of strings with every escape and both cases of
hexadecimal digits; what they denote is said without the parser. `JsonMalformed` says what is read
from texts that are no JSON. `JsonPrinter`, `JsonSerializer` and `JsonValues` are the
printer, for every iteration order of an unordered map, and what printing and parsing together
amount to.

**The scheduler engine** (`scheduler.cpp`, and the history table of `database.cpp`). `Engine` is
the engine as a state machine: launches may be in progress on any number of threads (a client's
RunNow calls `launch_task` on its own thread) while the worker thread goes through the phases
of its checking pass; a process may exit, the clock may jump and a client may edit the tasks at
any point. A run begins with the tasks and the history that the service finds in its database.
`Handles`, `Ownership`, `Discipline`, `Attribution`, `LiveProcesses` and `Timeouts` prove what all
runs, or all runs under stated conditions, keep (`Effects` says what single events change,
`Steering` how a run can be carried on). `Exactness`, `Overruns`, `Edits` and `Timeouts` prove the
conditions exact: from any reachable state, the first event that breaks one of them can be
followed by the loss it guards against. `Solo` is the service to which no client sends anything,
and the exact conditions on its configuration. `Races` has concrete runs in which things go wrong.
`TimeWindows` and `Schedule` are the decision whether a task is due, over single moments and over
whole runs of ticks; `Queueing` compares the queue of a task with what it was meant to be.
`Scheduler` is the service object with the fields of the source: its methods are the operations
of the worker thread, each proved to be a run of the engine (`Chronicle`), with other threads and
processes acting wherever the worker holds no lock. A contract says what holds in any company;
what is determined as long as no client launches or edits, while processes exit and the clock
moves at will; and what is determined besides if nothing else happens at all (`Settling`,
`Deciding`).

**Time windows on their way** (`ipc.cpp`, `database.cpp`). `WindowJson`, `WindowStore` and
`WindowRequests` are the printer and the reader of windows, the table whose list columns are
JSON texts, and the requests that create, replace and list windows; `WindowForm` says by the
literal names of members what their objects denote; `Messages` are the request and response
objects around them; `WindowJourney` is the whole way from one client to another,
on one server, with the requests of others in between.

## What the proofs show about the code

Where the code contradicts its documentation or its evident intention, the model follows the
code.

- Strings come back from the codec unchanged exactly if they consist of shortest-form UTF-8
  characters of one to three bytes. Every other byte string comes back as such a string, and
  then stays. A four byte character comes back as two surrogates of three bytes each.
- The parser fails on nothing. A comma before the closing bracket adds a zero to an array; in a list
  of days of the week that is Sunday.
- The remembered minute that keeps a task from starting twice carries no date. A due minute
  launches nothing if the due minute before it was the same minute of an earlier day; a task
  with one daily time is launched once in the life of the service.
- A matching interval window launches its task at every tick of the minute; ticks come every
  second. An interval of zero minutes ends the process with a division by zero, in the minutes
  of its range.
- Start dates, end dates and specific dates have no influence on whether a task is due.
- `process_pending_queue` pops from a copy. The queues never shrink: a task that was put off once
  is launched again in every tick that finds it not running. The code launches too often by
  exactly the passes that find the task free when a queue that is popped would be empty again. A
  due task whose process cannot be created is attempted twice in a tick if it was ever put off.
- Every launch of a task that is still tracked loses exactly one open handle. There is no
  other way to lose one.
- With launches requested by clients, a row that says Completed can be set back to Running; a
  timeout can be recorded in the row of a process that has just been started; and a process can
  be killed for timeout at age zero. The conditions under which rows and handles are safe are
  exact: a launch begins only for a task that is not tracked, not being timed out, not being
  launched, and with a later start stamp than its other rows; a snapshot is taken only when no
  launch has tracked its process without having written its row. Any event that breaks one of
  them, in any state reached without breaking one, does damage or can be followed by damage
  although all later events keep them. The code does not enforce them against clients.
- Without clients they hold, but for the stamps, which have a resolution of one second, exactly if
  every enabled task has the overlap action WaitNext or WaitComplete. With StartAnother the worker
  itself launches a task that is still tracked and overwrites its entry.
- No entry is taken for timeout before it has reached its limit, unless, while a pass is going on,
  the clock is set back, an edit lengthens or removes a limit, or a process is tracked under a
  task with a positive limit, and the pass is going to take an entry that this makes too young.
  The rule is exact: whenever it is broken, the worker alone can go on to take an entry too early.
  Between passes nothing can break it, and the worker's own launches never do.
- The documentation says of `KillOnTimeout = false` that the process goes on with a warning in the
  journal. In the code its row becomes Timeout and it is no longer tracked, so the next launch
  makes it two. Under the conditions above one process per task is guaranteed exactly for the
  configurations in which every task with a timeout is also killed by it, and exactly by those
  edits that keep it so and do not spare a process already found late and still alive. Without
  clients it is guaranteed exactly if every enabled task waits and has no timeout or is killed by
  it.
- A row that was left Running when the service was stopped stays Running for ever.
- A launch that fails leaves its row Running, without an end time.
- An id that begins with a NUL byte is not replaced, but is an empty key.
- When a window cannot be inserted, an update request has already deleted the old windows, and
  the windows inserted before the failure stay.

## Model

| member | source | states |
|---|---|---|
| Bytes.HexRoundTrip | src/WinShedulerSvc/json.cpp:48-58 | The four hex digits of a `\u` escape are read back as the number they were printed from, and each of them is a hex digit. |
| Bytes.Utf8Meaning | src/WinShedulerSvc/json.cpp:156-175 | The bytes emitted for a code point below 0x10000, by their ranges and weights in RFC 3629 section 3. |
| Bytes.CanonicalIsEncoded | src/WinShedulerSvc/json.cpp:156-175 | Every canonical text is the encoding of a sequence of such code points; `Bytes.EncodedIsCanonical` is the converse. |
| Bytes.EncodedIsCanonical | src/WinShedulerSvc/json.cpp:156-175 | The encoding of any such sequence is canonical. |
| JsonString.Escape | src/WinShedulerSvc/json.cpp:8-63 | The escaping loop, with its decoding of malformed and truncated UTF-8, computes the escaped text that the theorems are about. |
| JsonString.Unescape | src/WinShedulerSvc/json.cpp:65-119 | The stand-alone unescaping loop computes the unescaped text. |
| JsonString.BodyFraming | src/WinShedulerSvc/json.cpp:139-183 | On every body without a bare quote or an unfinished escape the string parser stops exactly at the closing quote and agrees with the unescaper. |
| JsonString.EscapeThenUnescape | src/WinShedulerSvc/json.cpp:8-119 | For every byte string the escaped text is such a body, and unescaping it gives the string in normal form. |
| JsonString.EscapedIsPrintable | src/WinShedulerSvc/json.cpp:8-63 | Escaped text is printable ASCII only. |
| JsonString.NormalIsCanonical | src/WinShedulerSvc/json.cpp:8-63 | Whatever bytes go in, what comes back is shortest-form UTF-8 of one to three byte characters (RFC 3629 section 3, surrogates admitted). |
| JsonString.NormalFixpoints | src/WinShedulerSvc/json.cpp:8-63 | Printing then parsing a string is the identity exactly on that set, and idempotent on all byte strings. |
| JsonString.FourByteCharacterChanges | src/WinShedulerSvc/json.cpp:156-175 | A well-formed four byte character returns as two encoded surrogates. |
| JsonString.SupplementaryCharacter | src/WinShedulerSvc/json.cpp:8-63 | For every code point from 0x10000 to 0x10FFFF: its four bytes are printed as two code units in the surrogate ranges that compose to it, and come back as the encodings of these. |
| JsonString.StrayByte | src/WinShedulerSvc/json.cpp:8-63 | A continuation byte out of place and a byte from 0xF8 on become a question mark. |
| JsonString.BrokenPair | src/WinShedulerSvc/json.cpp:8-63 | A two byte character that breaks off swallows the next byte and counts as its leading bits. |
| JsonString.OverlongPair | src/WinShedulerSvc/json.cpp:8-63 | Overlong two byte forms are printed as the characters they encode. |
| JsonSpelling.SpellingRead | src/WinShedulerSvc/json.cpp:139-183 | Every spelling of a string, from plain bytes, escapes of one letter, four hexadecimal digits each in either case, and needless escapes, is read as what it denotes by literal tables. |
| JsonSpelling.ClosedIsSpelled | src/WinShedulerSvc/json.cpp:139-183 | These are all texts that may stand between two quotes. |
| JsonSpelling.PrintedSpelling | src/WinShedulerSvc/json.cpp:8-63 | The text printed for any byte string is a spelling that denotes its normal form. |
| JsonSpelling.PrintedShort | src/WinShedulerSvc/json.cpp:8-63 | The characters printed with a backslash and a letter; the solidus is none of them. |
| JsonSpelling.PrintedPlain | src/WinShedulerSvc/json.cpp:8-63 | The characters printed as they are. |
| JsonSpelling.PrintedControl | src/WinShedulerSvc/json.cpp:8-63 | The other control characters are printed as four lower-case digits of their number. |
| JsonSpelling.PrintedUnit | src/WinShedulerSvc/json.cpp:8-63 | So is every character of two or three bytes. |
| JsonSpelling.UnitIsPrinted | src/WinShedulerSvc/json.cpp:8-63 | The escape printed for a code unit, a surrogate included, has four lower-case digits that weigh what it is. |
| JsonNumber.LiteralScan | src/WinShedulerSvc/json.cpp:238-255 | The number scan returns the pieces of any literal of RFC 8259 section 6 and stops at its end, if what follows does not continue it. |
| JsonNumber.IntLiteralValue | src/WinShedulerSvc/json.cpp:267-274 | An integer printed in decimal is read back as that integer. |
| JsonNumber.LiteralMeaning | src/WinShedulerSvc/json.cpp:238-255 | The value of every literal: its digits, weighed by place, moved by the digits after the point and by the exponent in either direction. |
| JsonParser.ParseValue | src/WinShedulerSvc/json.cpp:185-255 | On every byte string the mutually recursive parser terminates and never gives input back. |
| JsonParser.Parser.ReadBody | src/WinShedulerSvc/json.cpp:139-183 | The string loop, position by position, reads the body and leaves the position after the closing quote. |
| JsonParser.Parser.ParseNumberToken | src/WinShedulerSvc/json.cpp:238-255 | The loops of the number scan consume what the scan functions consume and yield the exact value of the literal. |
| JsonParser.Parser.ParseValueAt | src/WinShedulerSvc/json.cpp:185-194 | The position stays within the input, never goes back, and value and remaining input are those of the parsing function. |
| JsonParser.Parser.ParseObjectAt | src/WinShedulerSvc/json.cpp:196-210 | The member loop, its exits without progress included, computes the parsing function; later members replace earlier ones. |
| JsonParser.Parser.ParseArrayAt | src/WinShedulerSvc/json.cpp:212-225 | The element loop, its exits without progress included, computes the parsing function. |
| JsonParser.Parse | src/WinShedulerSvc/json.cpp:258-261 | Parsing starts at the beginning and ignores what follows the first value. |
| JsonSyntax.ParsesSyntax | src/WinShedulerSvc/json.cpp:185-255 | Every JSON text, with any white space between tokens and any spelling of its strings, keys and numbers, is read as the value it denotes, up to its exact end; what strings denote is said by tables of their own. |
| JsonSyntax.ParsesDocument | src/WinShedulerSvc/json.cpp:125-261 | The same for a whole document with leading and trailing white space. |
| JsonSyntax.Punctuation | src/WinShedulerSvc/json.cpp:185-255 | Braces, brackets, comma, colon and quote are those characters. |
| JsonMalformed.BlankIsNull | src/WinShedulerSvc/json.cpp:185-194 | A text of nothing but white space is null. |
| JsonMalformed.BrokenWord | src/WinShedulerSvc/json.cpp:227-236 | A word that only begins like true, false or null is false or null, and is not consumed. |
| JsonMalformed.NoValue | src/WinShedulerSvc/json.cpp:185-255 | Any other byte that cannot begin a value is zero, or null for a NUL, and is not consumed. |
| JsonMalformed.NoDigits | src/WinShedulerSvc/json.cpp:238-255 | A lone sign or point is consumed and is zero. |
| JsonMalformed.UnfinishedNumber | src/WinShedulerSvc/json.cpp:238-255 | A point or an exponent mark without digits is consumed and changes nothing. |
| JsonMalformed.UnclosedString | src/WinShedulerSvc/json.cpp:139-183 | Every string that is not closed extends to the end of the text. |
| JsonMalformed.BrokenUnit | src/WinShedulerSvc/json.cpp:156-175 | `\u` without four bytes and at least one digit vanishes. |
| JsonMalformed.ShortUnit | src/WinShedulerSvc/json.cpp:156-175 | Fewer than four digits count as the number they write, and what is in the place of the others is lost. |
| JsonMalformed.UnclosedArray | src/WinShedulerSvc/json.cpp:212-225 | An array ends with the elements it has, where neither comma nor bracket follows. |
| JsonMalformed.CommaBeforeBracket | src/WinShedulerSvc/json.cpp:212-225 | A comma before the bracket adds a zero to any array. |
| JsonMalformed.UnclosedObject | src/WinShedulerSvc/json.cpp:196-210 | An object ends with the members it has, where neither comma nor brace follows. |
| JsonMalformed.CommaBeforeBrace | src/WinShedulerSvc/json.cpp:196-210 | A comma before the brace adds nothing. |
| JsonMalformed.NoKey | src/WinShedulerSvc/json.cpp:196-210 | Anything but a quoted key after a comma ends the object. |
| JsonMalformed.NoColon | src/WinShedulerSvc/json.cpp:196-210 | So does a key without a colon, which does not count. |
| JsonPrinter.PrintThenParse | src/WinShedulerSvc/json.cpp:185-302 | Any value, its objects printed in any order and followed by any text that does not continue a number, is read back up to its exact end, strings in normal form and numbers as printed. |
| JsonPrinter.RoundTrip | src/WinShedulerSvc/json.cpp:185-308 | It is read back as itself exactly if every string and key is canonical and every number is a 32-bit integer or printed exactly. |
| JsonPrinter.PrintedNumber | src/WinShedulerSvc/json.cpp:267-274 | Exactly the whole numbers of 32 bits are printed in decimal digits that weigh what the number is, without a leading zero; all others as the stream prints them. |
| JsonSerializer.Serialize | src/WinShedulerSvc/json.cpp:263-308 | The recursive printer emits the text of the value with each object in some order. |
| JsonSerializer.SerializeItems | src/WinShedulerSvc/json.cpp:278-288 | The array loop, with its separators. |
| JsonSerializer.SerializeFields | src/WinShedulerSvc/json.cpp:289-300 | The object loop visits every key once, in any order. |
| JsonSerializer.PrintedIsPrintable | src/WinShedulerSvc/json.cpp:263-302 | Serialized text is printable ASCII. |
| JsonSerializer.NestedPayload | src/WinShedulerSvc/json.cpp:185-302 | Serialized text quoted as a string inside serialized text comes back byte for byte and parses as it would have alone; the message objects around it are in `Messages`. |
| JsonValues.SerializeThenParse | src/WinShedulerSvc/json.cpp:258-308 | Whatever order the keys were met in, serialize and then parse is the identity exactly on clean values. |
| JsonValues.SerializedIsCanonical | src/WinShedulerSvc/json.cpp:258-308 | Everything parsed from serialized text is canonical, even if what was serialized was not. |
| JsonValues.SerializedIsReprinted | src/WinShedulerSvc/json.cpp:258-308 | For canonical keys, what is parsed from serialized text is the value with strings normalised and numbers as printed. |
| History.GetHistory | src/WinShedulerSvc/database.cpp:496-524 | Distinct rows of the task, newest first, nothing newer omitted, as many as the limit allows. |
| History.NewestIsListing | src/WinShedulerSvc/database.cpp:496-524 | A listing with limit 1 is a newest row, or nothing if there is none, and conversely. |
| History.TrimHistory | src/WinShedulerSvc/database.cpp:526-544 | As many of the oldest rows as exceed the maximum are deleted. |
| History.TrimIsUnique | src/WinShedulerSvc/database.cpp:526-544 | With distinct start stamps there is only one possible outcome. |
| History.TrimKeepsNewest | src/WinShedulerSvc/database.cpp:526-544 | Exactly min(count, maximum) newest rows of the task and all rows of other tasks are kept; trimming again changes nothing. |
| History.TrimKeepsListings | src/WinShedulerSvc/database.cpp:496-544 | Every listing up to the maximum is the same before and after trimming. |
| Handles.HandleSafety | src/WinShedulerSvc/scheduler.cpp:483-576 | In every interleaving of launches on any threads with the checking pass no handle is queried or closed after it was closed, and between passes all handles in the map are open. |
| Handles.HandleConservation | src/WinShedulerSvc/scheduler.cpp:480-576 | Between passes exactly as many handles are lost as launches have overwritten entries; so issued handles are the disjoint union of closed and tracked ones exactly if nothing was overwritten. |
| Attribution.HistoryAttribution | src/WinShedulerSvc/scheduler.cpp:311-576 | In every run, from any tasks and history, that keeps launches and passes apart and never repeats a start stamp: when the end of a process is recorded, the row looked up is the row of its launch, unless deleted, and no other row changes. After an exit it is Completed with end time and exit code and its message as before; after a timeout Timeout with end time and the message for killed or not, its exit code as before. A row with an end time is never written again. |
| Attribution.StoredRowsStay | src/WinShedulerSvc/scheduler.cpp:311-576 | In the same runs a row from before the start of the service is never written; one left Running stays Running until it is deleted. |
| Ownership.OwnRowsRun | src/WinShedulerSvc/scheduler.cpp:311-343 | In every run whatsoever each launch has a row of its own, of its own task, and no process has the row of a launch that made none. |
| Exactness.RulesAreExact | src/WinShedulerSvc/scheduler.cpp:311-576 | In every state that satisfies the invariant, an event keeps the rules precisely if it writes no wrong row, rewrites no ended row and overwrites no entry, and nothing of this kind can follow by events that keep them. |
| Exactness.FirstViolation | src/WinShedulerSvc/scheduler.cpp:187-606 | The same for an event after any run under the rules: the first violation is the first step on a way to damage. |
| LiveProcesses.AtMostOneLive | src/WinShedulerSvc/scheduler.cpp:227-606 | In every run that keeps launches and passes apart (stamps may repeat) and in which tasks have no timeout or kill on timeout, through all edits that keep it so and do not spare a late process that is alive, at most one process per task is alive. |
| LiveProcesses.TimeoutAge | src/WinShedulerSvc/scheduler.cpp:534-538 | When a process counts as late: for a positive limit exactly from the moment it is that many full minutes old; for a limit L of zero or less as soon as its age exceeds L - 1 minutes. |
| Overruns.KillSafeIsExact | src/WinShedulerSvc/scheduler.cpp:311-576 | For every set of tasks and every time: each task with a timeout is killed by it, if and only if every run that keeps launches and passes apart and edits no task has at most one live process per task. |
| Overruns.SecondProcess | src/WinShedulerSvc/scheduler.cpp:549-574 | For every other set of tasks, and every task in it with a timeout that does not kill, a run that leaves two live processes of the task. |
| Overruns.UnsafeEditFollows | src/WinShedulerSvc/scheduler.cpp:550-563 | From any state under the rules in which an entry has been taken and its process is alive, an edit after which it is not killed can be followed by two live processes of the task. |
| Edits.SafeEditIsExact | src/WinShedulerSvc/scheduler.cpp:483-576 | In every state that such runs reach, an edit is of this kind if and only if two live processes of a task cannot follow from it while the rules are kept and all later edits are of this kind. |
| Edits.FirstUnsafeEdit | src/WinShedulerSvc/scheduler.cpp:187-606 | The same for an edit after any such run. |
| Solo.WaitingIsExact | src/WinShedulerSvc/scheduler.cpp:227-246 | Of a service without clients, for every set of tasks and every history: each enabled task waits while it is tracked, if and only if no run ever overwrites an entry. |
| Solo.OneAtATimeIsExact | src/WinShedulerSvc/scheduler.cpp:187-606 | Of a service without clients: each enabled task waits and has no timeout or is killed by it, if and only if every run has at most one live process per task. |
| Timeouts.TimeoutNeverEarly | src/WinShedulerSvc/scheduler.cpp:496-576 | In every run in which tracking, edits and settings of the clock leave nothing younger than its limit that the pass is going to take, no entry is taken for timeout before it has reached its limit. |
| Timeouts.TimeRuleIsExact | src/WinShedulerSvc/scheduler.cpp:483-576 | In every state such runs can reach, and for every event, edits and settings of the clock included: it keeps the rule if and only if the worker alone cannot then go on to take an entry too early. |
| Timeouts.TrackRuleIsExact | src/WinShedulerSvc/scheduler.cpp:483-576 | Tracking a process keeps the rule if and only if the pass is not going to expire its task or the limit of the task is not positive. |
| Timeouts.SteadyIsEasy | src/WinShedulerSvc/scheduler.cpp:496-576 | The rule is kept by every setting of the clock forward or between passes, and by every edit between passes, at the beginning of one, or of tasks that are not tracked or keep their limits. |
| Timeouts.ApartTimeouts | src/WinShedulerSvc/scheduler.cpp:483-576 | Runs that keep launches and passes apart, with such settings of the clock and edits that keep the rule: no early timeout, whatever exits and however far the clock advances during a pass. |
| Timeouts.SoloTimeouts | src/WinShedulerSvc/scheduler.cpp:187-606 | The same for every run without clients, whether tasks wait or not. |
| Timeouts.PassCatchesAll | src/WinShedulerSvc/scheduler.cpp:496-576 | However launches, and edits that make nothing overstay that the pass has gone past, are interleaved with a pass: when it is over, no entry of its snapshot is left whose process had exited at the snapshot or had reached its limit when the pass began. |
| Timeouts.CatchRuleIsExact | src/WinShedulerSvc/scheduler.cpp:496-576 | Every other edit allows the worker to complete the pass and leave such an entry behind. |
| Timeouts.LimitInSeconds | src/WinShedulerSvc/scheduler.cpp:534-538 | A limit of T minutes by the resolution of stamps: reached not before 60 T seconds and not later than after one second more. |
| Timeouts.TimeoutInSeconds | src/WinShedulerSvc/scheduler.cpp:534-575 | In all runs that keep the rule, 60 seconds for each minute of the limit lie between start and timeout. |
| Timeouts.PassCatchesInSeconds | src/WinShedulerSvc/scheduler.cpp:496-576 | What a pass leaves of its snapshot had not run for more than 60 T seconds when it began. |
| Races.CompletedRowReopened | src/WinShedulerSvc/scheduler.cpp:331-336 | A run in which the launcher's last write sets a completed row back to running. |
| Races.FreshRunMarkedTimeout | src/WinShedulerSvc/scheduler.cpp:549-572 | A run in which the timeout of one process is written into the row of the next, which is alive and tracked. |
| Races.YoungProcessKilled | src/WinShedulerSvc/scheduler.cpp:534-575 | A run in which a process is killed for timeout at age zero while the late one lives on and its handle is lost. |
| Races.SurvivorMakesTwo | src/WinShedulerSvc/scheduler.cpp:549-574 | The run without kill on timeout that leaves two live processes of one task, as an instance of the general one. |
| TimeWindows.ClockTextRead | src/WinShedulerSvc/scheduler.cpp:51-56 | Digits, a colon and digits are read as hours and minutes, padded or not and whatever follows. |
| TimeWindows.LooseClockRead | src/WinShedulerSvc/scheduler.cpp:51-56 | With blanks before and signs in front of hours and minutes, and whatever follows, 60 hours plus minutes; in 32 bits as they are. |
| TimeWindows.HoursOnly | src/WinShedulerSvc/scheduler.cpp:51-56 | Without a colon right after the hours there are no minutes. |
| TimeWindows.NoHours | src/WinShedulerSvc/scheduler.cpp:51-56 | What begins with no number is midnight. |
| TimeWindows.ClockRead | src/WinShedulerSvc/scheduler.cpp:51-56 | A time as usually written is 60 hours plus minutes. |
| TimeWindows.IsInWindow | src/WinShedulerSvc/scheduler.cpp:258-309 | The window test, its early exits and the fault for a zero interval included. |
| TimeWindows.OtherDays | src/WinShedulerSvc/scheduler.cpp:270-281 | On a weekday or a day of the month that is not in a list that is not empty, no window matches or faults. |
| TimeWindows.ExactMeaning | src/WinShedulerSvc/scheduler.cpp:270-293 | On the other days a list of times of day matches exactly the minutes it names. |
| TimeWindows.IntervalMeaning | src/WinShedulerSvc/scheduler.cpp:270-308 | On the other days an interval written with times of day matches exactly the minutes start + k * interval up to end time and repeat limit, and faults there if the interval is zero. |
| TimeWindows.IncompleteInterval | src/WinShedulerSvc/scheduler.cpp:295-297 | Without start time, end time or interval it never matches. |
| TimeWindows.IntervalProgression | src/WinShedulerSvc/scheduler.cpp:270-308 | On the days listed, an interval matches exactly the minutes start + k * step up to end time, repeat limit and midnight. |
| TimeWindows.IntervalCount | src/WinShedulerSvc/scheduler.cpp:270-308 | The matching minutes of a listed day are evenly spaced, and floor((bound - first) / step) + 1 of them, or none; on other days none. |
| Schedule.DecideTick | src/WinShedulerSvc/scheduler.cpp:201-223 | The loop over the windows with its lookup of the remembered minute. |
| Schedule.DecideMeaning | src/WinShedulerSvc/scheduler.cpp:201-223 | Without faulting windows a task is launched exactly if an interval matches, or an exact time does and was not remembered. |
| Schedule.OrderOfWindows | src/WinShedulerSvc/scheduler.cpp:201-223 | All orders of the windows launch alike, exactly unless one window triggers and another faults. |
| Schedule.OrderOfMemory | src/WinShedulerSvc/scheduler.cpp:201-223 | All orders remember the same minute too, exactly unless an interval and a fresh exact time match together. |
| Schedule.FiresWhen | src/WinShedulerSvc/scheduler.cpp:201-223 | Over any run of ticks, an exact-time task is launched exactly if it is due and the latest due tick before was in another minute of the day. |
| Schedule.ExactlyOnceFiring | src/WinShedulerSvc/scheduler.cpp:201-223 | With a clock that does not go back and a tick in every due minute, each due minute launches the task exactly once, or not at all if the due minute before was the same minute of the day. |
| Schedule.OneDailyTimeFiresOnce | src/WinShedulerSvc/scheduler.cpp:209-217 | A task due in one minute of the day only is launched at its first due tick and never again. |
| Schedule.IntervalFiresEveryTick | src/WinShedulerSvc/scheduler.cpp:219-222 | A matching interval launches the task at every tick. |
| Schedule.DatesDoNotMatter | src/WinShedulerSvc/scheduler.cpp:258-309 | Lists of windows that differ only in start dates, end dates and specific dates remember and launch the same over every run of ticks. |
| Schedule.NineOnTwoDays | src/WinShedulerSvc/scheduler.cpp:209-217 | A window at "09:00", ticks at nine on two days in a row: due both times, launched the first time only. |
| Schedule.HourlyTwiceInAMinute | src/WinShedulerSvc/scheduler.cpp:219-222 | An hourly window with two ticks in one minute: launched twice. |
| Schedule.ZeroIntervalFaults | src/WinShedulerSvc/scheduler.cpp:283-308 | A repeat interval of zero ends the process in every minute from start to end, whatever is remembered. |
| Queueing.MeantAccounting | src/WinShedulerSvc/scheduler.cpp:582-606 | With a pop that reaches the queue, instants put off are those that passes have taken, in order, followed by those still waiting. |
| Queueing.TooManyLaunches | src/WinShedulerSvc/scheduler.cpp:582-606 | The code launches more often than that by exactly the number of passes that find the task existing and free when nothing is left to wait for. |
| Queueing.LaunchesAgree | src/WinShedulerSvc/scheduler.cpp:582-606 | Both launch equally often if and only if there is no such pass. |
| Queueing.LaunchedWhenFree | src/WinShedulerSvc/scheduler.cpp:582-606 | A task put off once is launched by the first pass that finds it existing and free, and by every later one; never put off, by none. |
| Settling.TimeoutExactness | src/WinShedulerSvc/scheduler.cpp:496-576 | If nothing at all happens during a pass, no entry of a known task is left that has exited or reached its limit, and only entries that had are removed. What holds while processes exit, the clock moves or launches go on is in `Settling.AllSwept` and `Timeouts`. |
| Settling.SettlesMore | src/WinShedulerSvc/scheduler.cpp:513-575 | Dealing with one more entry closes its handle, ends its process if asked, and leaves the rows of all other tasks alone; of its newest row end time, status, exit code and message are stated column by column. |
| Settling.AllSwept | src/WinShedulerSvc/scheduler.cpp:496-576 | While processes exit and the clock moves, a pass leaves no entry that had exited or was late when it began, and removes only such entries and those whose process has exited by its end. |
| Chronicle.PastIsSafe | src/WinShedulerSvc/scheduler.cpp:187-606 | What a service has done implies handle safety. Without clients: if every enabled task waits, that no handle is lost; if every one is also killed when late, that at most one process per task is alive. |
| Chronicle.PastAttribution | src/WinShedulerSvc/scheduler.cpp:187-606 | The history of a service without clients whose enabled tasks wait and whose start stamps strictly increase: the end of every process is recorded in the row of its launch, unless deleted, in no other, with the code that process exited with or the way it timed out, and stays. |
| Chronicle.PastTimeouts | src/WinShedulerSvc/scheduler.cpp:187-606 | A service without clients whose clock is not set back during a pass has never, at any point of its past, taken an entry for timeout before it had reached its limit, whatever the overlap actions of its tasks. |
| Scheduler.Scheduler.constructor | src/WinShedulerSvc/service.cpp:57-69 | A new service has done nothing; it finds whatever tasks, windows and history rows its database holds. |
| Scheduler.Scheduler.InsertHistory | src/WinShedulerSvc/scheduler.cpp:313-320 | A new open row with the current stamp; one event of the engine. |
| Scheduler.Scheduler.CreateProcess | src/WinShedulerSvc/scheduler.cpp:460-481 | A handle never issued before, alive, not yet tracked. |
| Scheduler.Scheduler.TrackProcess | src/WinShedulerSvc/scheduler.cpp:483-491 | The entry is stored and replaces what was tracked. |
| Scheduler.Scheduler.WriteRowBack | src/WinShedulerSvc/scheduler.cpp:334-336 | The launcher's copy of the row is written back, with the process number or 0. |
| Scheduler.Scheduler.EndLaunchOf | src/WinShedulerSvc/scheduler.cpp:334-336 | Whatever has become of the row meanwhile, if it still exists it is the launcher's copy again: open, Running. |
| Scheduler.Scheduler.RunProcess | src/WinShedulerSvc/scheduler.cpp:345-494 | In any company: either no process, or a handle never issued before, in the map under the task with the current time. If no client interferes the map has changed in no other way, and not at all without a process. |
| Scheduler.Scheduler.LaunchTask | src/WinShedulerSvc/scheduler.cpp:311-343 | Refused if the task is gone, and then nothing is changed. Otherwise, in any company, a row never used before which at the end is open and Running, with the number that the process was created with or 0 if creation failed, or deleted; if no client interferes it is the only change to the history, has the stamp of the call, and the map has at most the new entry more. |
| Scheduler.Scheduler.StartPass | src/WinShedulerSvc/scheduler.cpp:497 | The clock of the pass is read before the lock is taken: launches may come in between. |
| Scheduler.Scheduler.CopyEntries | src/WinShedulerSvc/scheduler.cpp:499-507 | The snapshot lists every entry once. |
| Scheduler.Scheduler.ExamineEntry | src/WinShedulerSvc/scheduler.cpp:513-539 | Which of the four outcomes an entry has, and what each changes, as one step; after an exit, column by column, what its newest row shows. |
| Scheduler.Scheduler.EraseEntries | src/WinShedulerSvc/scheduler.cpp:541-546 | Exactly the entries of exited tasks are erased. |
| Scheduler.Scheduler.TakeEntry | src/WinShedulerSvc/scheduler.cpp:550-556 | The entry is removed, or found gone. |
| Scheduler.Scheduler.FinishEntry | src/WinShedulerSvc/scheduler.cpp:558-574 | The process is terminated if asked, the newest row marked, column by column, and the handle closed, as one step. |
| Scheduler.Scheduler.CheckTimeouts | src/WinShedulerSvc/scheduler.cpp:496-576 | Handles stay safe in any company. If no client interferes, while processes exit and the clock moves: entries are only removed, all that had exited or were late when the pass began, and besides only such as have exited since. If nothing else happens, also exactly which rows and processes change. |
| Scheduler.Scheduler.ProcessQueue | src/WinShedulerSvc/scheduler.cpp:587-605 | At most one launch, of this task, in any company; exactly if the task exists and is not tracked, if no client interferes. The pop does not reach the queue itself, so the erasure of empty queues is unreachable. |
| Scheduler.Scheduler.ProcessPendingQueue | src/WinShedulerSvc/scheduler.cpp:582-606 | In any company no queue leads to two launches, and queues stay as long as their tasks were put off often. If no client interferes, while processes exit and the clock moves, exactly the queued tasks that exist and are not tracked are launched. |
| Scheduler.Scheduler.DecideDue | src/WinShedulerSvc/scheduler.cpp:199-225 | In any company the decision is that for the windows as they are when read, the clock of the tick and the remembered minute; that minute changes as decided, and of no other task. If no client interferes the windows are those from before. |
| Scheduler.Scheduler.Dispatch | src/WinShedulerSvc/scheduler.cpp:227-246 | In any company, by whether the task is tracked when checked: tracked and WaitNext, nothing; tracked and WaitComplete, put off; else an attempt, which fails exactly if the task is gone by then. If no client interferes both are as before the call. |
| Scheduler.Scheduler.PutOff | src/WinShedulerSvc/scheduler.cpp:235-238 | One more instant in the queue of this task, nothing in any other. |
| Scheduler.Scheduler.ConsiderTask | src/WinShedulerSvc/scheduler.cpp:198-247 | In any company attempt, queue, remembered minute and outcome of one turn are determined by what the worker meets on the way. If no client interferes it meets what was there before, does to its task what was planned for it and to the others nothing. |
| Scheduler.Scheduler.LaunchDue | src/WinShedulerSvc/scheduler.cpp:187-247 | In any company no task is launched twice. If no client interferes, the tasks do not influence each other: launched, queued and remembered is exactly what the state before the tick says, and the loop ends early exactly if a planned decision faults. |
| Scheduler.Scheduler.Tick | src/WinShedulerSvc/scheduler.cpp:187-256 | In any company: handle safety, the leak count, and at most one launch of a task because it is due and one from its queue. If no client interferes, while processes exit and the clock moves: the tick goes through exactly if no planned decision faults; of the enabled tasks with a window that launches them, those not tracked and those with StartAnother are attempted, tracked ones with WaitComplete get exactly this instant into their queue, tracked ones with WaitNext nothing; which tasks are launched from the queues, for every task, those just attempted included; what is remembered; and what the pass removes. Without clients and with waiting tasks no handle is lost and, if timeouts kill, at most one process per task lives. |
| Scheduler.Scheduler.OnlyWaitCompleteIsPutOff | src/WinShedulerSvc/scheduler.cpp:231-238 | In the whole past of a service without clients only tasks with WaitComplete have ever been put off. |
| Scheduler.Scheduler.StateIsSafe | src/WinShedulerSvc/scheduler.cpp:187-606 | The safety properties in terms of the fields of the object, early timeouts included. |
| Deciding.SoFarMore | src/WinShedulerSvc/scheduler.cpp:198-247 | Going through the tasks one by one amounts to deciding each from the state before the loop. |
| Deciding.PlannedByOverlap | src/WinShedulerSvc/scheduler.cpp:227-246 | What is planned for a task, for each overlap action. |
| Deciding.AllByOverlap | src/WinShedulerSvc/scheduler.cpp:198-247 | What that makes of attempts and queues, for all tasks. |
| Deciding.TickIsNextStep | src/WinShedulerSvc/scheduler.cpp:201-223 | A tick of the service is the next step of the runs of ticks of which exactly-once firing is proved. |
| Deciding.TickIsNextMoves | src/WinShedulerSvc/scheduler.cpp:187-606 | What a tick does to the queue of a task are the next moves of the runs of which the surplus of launches is proved, and it launches the task from its queue exactly if the last move launches. |
| Messages.RequestFromJson | src/WinShedulerSvc/ipc.cpp:292-301 | No request unless the text is an object; a member that is missing or not a string counts as empty. |
| Messages.RequestByName | src/WinShedulerSvc/ipc.cpp:292-301 | The members by their literal names; a request is read from every object and from nothing else. |
| Messages.ResponseToJson | src/WinShedulerSvc/ipc.cpp:303-309 | The text of an object with exactly the three members, in some order. |
| Messages.ResponseBack | src/WinShedulerSvc/ipc.cpp:303-309 | In whatever order its members are printed, a response is read back with its texts in normal form; unchanged exactly if they are canonical. |
| Messages.PayloadBack | src/WinShedulerSvc/ipc.cpp:303-309 | A serialized payload is read out of the response byte for byte, and what it parses to is what was serialized exactly if that is clean. |
| Messages.RequestDelivers | src/WinShedulerSvc/ipc.cpp:292-301 | However a client spells the request object and quotes the payload in it, the handler parses the payload as the document it is. |
| WindowJson.WindowToJson | src/WinShedulerSvc/ipc.cpp:76-116 | The text of an object with exactly the thirteen members, in some order. |
| WindowJson.WindowsFromJson | src/WinShedulerSvc/ipc.cpp:214-290 | The loops over elements, days and lists read every object of an array and pass over the rest. |
| WindowJson.WindowListToJson | src/WinShedulerSvc/ipc.cpp:118-122 | Each window printed and parsed, and the array of the results printed. |
| WindowJson.WindowBack | src/WinShedulerSvc/ipc.cpp:76-290 | Reading a printed window's object gives the window without its owner, with one of two kinds, and with empty optional texts absent. |
| WindowJson.ListBack | src/WinShedulerSvc/ipc.cpp:118-290 | Reading a printed list gives every window in order, texts in normal form, whatever the windows hold. |
| WindowForm.ReadByName | src/WinShedulerSvc/ipc.cpp:214-290 | An object with the thirteen members by their literal names, the seven days by theirs and one of the two kinds, denotes the window with these values. |
| WindowForm.ReadWithoutMembers | src/WinShedulerSvc/ipc.cpp:214-290 | What an empty object denotes. |
| WindowForm.RoundedTowardZero | src/WinShedulerSvc/ipc.cpp:214-290 | Numbers count as integers rounded toward zero, and as the smallest one out of range. |
| WindowForm.TextsAnyway | src/WinShedulerSvc/ipc.cpp:214-290 | Whatever object a client sends, a text is read from the member of its name, if that is a text that is not empty, and else absent. |
| WindowForm.NumbersAnyway | src/WinShedulerSvc/ipc.cpp:214-290 | The kind is that of the name, or the number; anything else is the kind of exact times. The interval is a number or absent. |
| WindowForm.ItemMeaning | src/WinShedulerSvc/ipc.cpp:214-290 | Days are numbers and the seven names and nothing else; items of other lists numbers, or texts. |
| WindowForm.ListsAnyway | src/WinShedulerSvc/ipc.cpp:214-290 | From the lists exactly the items that can be read are taken, in order, and nothing from what is no array. |
| WindowForm.WindowsAnyway | src/WinShedulerSvc/ipc.cpp:214-290 | From an array exactly its objects are taken, in order. |
| WindowForm.WrittenByName | src/WinShedulerSvc/ipc.cpp:76-116 | The printed object has thirteen members; texts and kind under their literal names. |
| WindowForm.ListsByName | src/WinShedulerSvc/ipc.cpp:76-116 | Its interval and its lists, the days by their names. |
| WindowForm.TaskByName | src/WinShedulerSvc/ipc.cpp:503-550 | The id and the list of windows of a task object by their names, and when it can be read. |
| WindowStore.StoreRow | src/WinShedulerSvc/database.cpp:407-453 | The row of a window: texts up to their first NUL, lists as JSON texts. |
| WindowStore.LoadRow | src/WinShedulerSvc/database.cpp:354-391 | The window of a row, or failure if a list column holds something else. |
| WindowStore.StoreThenLoad | src/WinShedulerSvc/database.cpp:343-453 | A stored window always loads, and is the same window exactly if its single texts are free of NUL and its lists canonical. |
| WindowRequests.Server.InsertTimeWindow | src/WinShedulerSvc/database.cpp:407-453 | Succeeds exactly if the key is new and the task exists, and adds just that row. |
| WindowRequests.Server.DeleteTimeWindows | src/WinShedulerSvc/database.cpp:397-405 | Exactly the rows of the task go. |
| WindowRequests.Server.InsertAll | src/WinShedulerSvc/ipc.cpp:536-548 | Owner and id are filled in; the windows up to the first failure are inserted, under ids that are neither empty nor all zeros; all of them exactly if the ids, sent or drawn, are different new keys and the task exists. |
| WindowRequests.NeedsIdMeaning | src/WinShedulerSvc/ipc.cpp:508-516 | An id is replaced exactly if it is empty or all zeros, place by place. |
| WindowRequests.GuidShape | src/WinShedulerSvc/ipc.cpp:509-515 | A drawn id: 36 characters, dashes at their places, lower-case digits elsewhere. |
| WindowRequests.KeyOfId | src/WinShedulerSvc/ipc.cpp:536-548 | As a key, an id that was not replaced is empty or all zeros exactly if a NUL byte cuts it off there. |
| WindowRequests.FreshIdsGoThrough | src/WinShedulerSvc/ipc.cpp:536-548 | Different new ids sent, and identifiers drawn that are different from these, from each other and from all keys, are different new keys. |
| WindowRequests.Server.HandleCreateTask | src/WinShedulerSvc/ipc.cpp:503-550 | Refused requests change nothing. Otherwise the task gets the id sent, or a drawn one for an empty or all-zero one, and the windows read from the request are inserted up to the first failure; the request succeeds exactly if all their ids are different new keys. |
| WindowRequests.Server.HandleUpdateTask | src/WinShedulerSvc/ipc.cpp:552-588 | Without a list the windows stay; with one the old windows are deleted and the new ones inserted up to the first failure, all of them exactly if their ids are different new keys and the task exists. |
| WindowRequests.Server.GetTimeWindows | src/WinShedulerSvc/database.cpp:343-395 | Every row of the task is loaded once, in some order; it fails only if a row of this task does not hold what it should. |
| WindowRequests.Server.HandleGetTimeWindows | src/WinShedulerSvc/ipc.cpp:493-496 | The reply is the printed list of the loaded windows. |
| WindowJourney.RequestsAreWellRead | src/WinShedulerSvc/ipc.cpp:518-525 | However a request is written, the windows read from it hold canonical, non-empty optional texts only. |
| WindowJourney.SurvivesIfNulFree | src/WinShedulerSvc/ipc.cpp:76-122 | A window read from a request looks to a client after storing as before, exactly if none of its single texts holds a NUL. |
| WindowJourney.WindowsSurvive | src/WinShedulerSvc/ipc.cpp:490-588 | The whole way from one client's request to another client, as a fact about what is read, stored, loaded and printed: as many windows arrive as were stored, each as sent, up to filled-in ids, exactly if free of NUL. |
| WindowJourney.ReplyArrives | src/WinShedulerSvc/ipc.cpp:118-309 | The printed list reaches the client as the payload of a response, quoted once more. |
| WindowJourney.CreateThenList | src/WinShedulerSvc/ipc.cpp:493-550 | On one server: a request creates a task, any number of requests of others follow that create tasks or update others, and then the windows of the task are asked for. There always is a reply, with all windows that were stored, as `WindowsSurvive` says; these are all that were sent exactly if the first request succeeded, which it did exactly if the ids were different new keys. |
| WindowJourney.UpdateThenList | src/WinShedulerSvc/ipc.cpp:493-588 | The same after a request that replaces the windows of a task. |
| WindowJourney.ReadAsSent | src/WinShedulerSvc/ipc.cpp:518-525 | The detour through printing and parsing that a request's list takes changes nothing if the list is clean. |

## Left out

- Named pipes, threads, the service life cycle, the user interface and the installer: operating
  system plumbing and presentation. A client's RunNow is a launch on another thread.
- `Scheduler::stop`, and exceptions in the middle of a checking pass: the invariants are not meant
  to survive them. Database calls are taken not to fail, except for the foreign and primary
  keys where the model says so.
- Creating processes, logging on, passwords, output files and logging: a creation fails, or gives
  a handle that was never issued before. An exit code of 259 counts as still running in the
  code; here a process is alive or not. Termination takes effect at once.
- Scheduler.Scheduler.ExamineEntry: `get_task`, the reading of the exit code, `get_history`,
  `update_history` and the closing of the handle are one event; a write of a launcher between
  the query and the update is not modelled.
- Scheduler.Scheduler.FinishEntry: the same for `get_task`, the termination, the query, the update
  and the closing of the handle.
- The start stamps of rows are local time in the source, and repeat when clocks are set back. Here
  they are the seconds of the clock; the clock may be set to anything, so that stamps can repeat
  here too.
- SQLite itself, case-insensitive comparison of ids, and the conversion between UTF-8 and UTF-16:
  ids of tasks and rows are canonical numbers in the engine, texts are their UTF-8 bytes.
- Doubles: numbers are exact reals, and how the stream prints what is not a 32-bit integer is a
  parameter. Negative zero and overflow are not modelled. A double that does not fit an int
  becomes the smallest int, as it does on the service's platform. `isdigit` on bytes above 127 is
  undefined in the code and false here.
- Times of day: digit runs too long for an integer are reduced modulo 2^32, as the conversion of
  the sum does; blanks are the ASCII ones. Overflow in the subtraction of extreme times is not
  modelled.
- `task_to_json`, `task_from_json`, the history and status printers: of a task request only the id,
  the check of the timeout and the windows are modelled. The order of `list_tasks` by name
  is any order.
- Retries, error actions, date ranges and intervals of days, weeks and months: the engine does not
  implement them. Trimming is never called by the engine; it is modelled as an operation of the
  table.
- The actions of the pipe other than creating and updating tasks and listing windows, the limit on
  the length of a message, and JSON as the client's own library reads it.
