# Verified model of the household controller

The controller reads its devices from an INI file, receives six-byte command frames from a smoke
sensor, a voice module on a serial port and network clients, and switches GPIO pins. This project
models and proves the three parts that carry its logic.

**The INI parser** (`src/ini.c`). `IniSpec` gives the meaning of a text: reads cut it into chunks,
each chunk is classified as one kind of line, and the kinds are folded over section, pending name,
first error and the caller's state. `IniBuffer`, `IniReader` and `IniParser` are the code itself:
NULs written into one mutable line buffer, 50-byte buffers for section and name, a buffer that
doubles, a string reader that moves through its input. They are proved to do exactly what the fold
says, for every text, flag setting and handler (`IniParser.Parser.ParseStream`). What the parser
promises is then proved of the fold: the return code, the calls, early stop, context
(`IniRuns`), inserted lines, line ends and byte-order mark (`IniTexts`), line numbers and buffer
modes (`IniSizes`), what header, pair and other lines are made of (`IniLines`), and the round trip
(`IniRoundTrip`). `IniLaws` says what kind a line is in terms of its characters alone, without the
functions of `IniSpec`. `IniExamples` reads a text with the default flags, and holds texts on which
the documentation is wrong.

**The device registry** (`src/receive_interface.c`, `src/gdevice.c`). `DeviceRegistry` is the list
in memory and its lookup, `DeviceRuns` says what the list is in terms of the parser's calls, and
`DeviceConfig` puts parser, registry and lookup together: devices printed as a configuration and
loaded again are found by their keys. `CNumbers` is the two numeric conversions, proved on any text
to be the place value of its digits.

**Commands.** `Frames` and `SmokeMonitor` are the loops of the four threads, `Pipeline` is the
transition system of all their interleavings over the bounded queue, and `DoorControl` is what one
command does to a device and what a run of commands does to its level and to a face-checked door.
What they send and write is also stated in bytes, levels and actions alone, so that it does not
rest on the functions that define the transitions.

A text is a Dafny `string` with one character per byte, taken as unsigned; a C string in a buffer
is what stands before its first NUL. `isspace` is that of the C locale. The byte-order mark is the
UTF-8 signature of section 6 of RFC 3629. Handlers, allocation outcomes, sensor readings, reads,
send outcomes and face scores are arbitrary inputs. `hide` in a proof only keeps definitions that
it does not need from the verifier, and every lemma turns automatic induction off: the induction
in a proof is the one written there.

Where the code and its own documentation disagree, the model follows the code:

- `inc/ini.h:149-151` promises a handler call for every line without a separator when those are
  allowed. The guard at `src/ini.c:222` drops such lines once any error was seen.
  `IniExamples.DroppedLine` is a text that shows it. `IniRuns.CallsAsPromised` is the exact
  condition, on text, flags and handler: the calls are as promised unless such a line comes behind
  a bad one, `IniRuns.Bad` being an unclosed header or a promised call that the handler refuses.
- `inc/ini.h:120-122` says that a heap buffer that may not grow has the maximal line size;
  `src/ini.c:119` gives it the initial size. With an initial size other than the maximal one, it
  reads the lines that the maximal size would exactly when every line fits the smaller of the two
  (`IniSizes.HeapLines`), and then the run is that of a stack buffer (`IniSizes.HeapRun`);
  `IniExamples.HeapSplitsPair` is a text of two runs that differ.
- `inc/ini.h:52` speaks of line numbers; a line longer than the buffer counts more than once. The
  code is that of a line exactly when every read in front of the failing one ended a line
  (`IniSizes.CodeIsLineNumber`), and so whenever all lines fit (`IniSizes.CodeOfFittingLines`);
  `IniExamples.MiscountedLine` is a text whose second line is reported as the third.
- The comment at `src/msg_queue.c:11` calls the queue non-blocking; without `O_NONBLOCK` at
  `src/msg_queue.c:17` a send to a full queue waits, and so it does in `Pipeline`.

Two more expectations that the code meets only under a condition are stated as equivalences with
an example each: a configuration loads back as printed exactly when no two neighbouring sections
share a name (`DeviceConfig.ConfigRoundTrip`, `DeviceConfig.SameNameExample`), and in every run of
commands the level recorded for a device with a pin of its own is that of the pin exactly when the
last command that named it was granted or asked for the level that the pin had then
(`DoorControl.ShownLevels`, `DoorControl.RefusedExample`).

## Model

| member | source | states |
|---|---|---|
| IniParser.Parser.ParseStream | src/ini.c:108-244 | for every text, flags, handler and allocation outcomes the NUL-writing parser ends in the state of the fold over immutable chunks and returns its error; a failed allocation returns -2 after a prefix of those calls, and only off the stack |
| IniParser.ParseString | src/ini.c:294-301 | the same from a string and a user state; without failed allocations the result is never negative |
| IniParser.Parser.Lines | src/ini.c:147-237 | the main loop refines the fold from any state that has not stopped, and terminates |
| IniParser.Parser.ProcessLine | src/ini.c:168-233 | one pass over the buffer is one step of the fold on the string the buffer held; what kind of line that is, `IniLaws.KindMeaning` says |
| IniParser.Parser.Body | src/ini.c:170-176 | byte-order mark, `rstrip` and `lskip` leave the trimmed line; the pointer is past the start exactly for an indented or marked line |
| IniParser.Parser.HeaderAt | src/ini.c:187-201 | a '[' line in the buffer has the effect of its header or unclosed-header form |
| IniParser.Parser.PairAt | src/ini.c:202-232 | any other line in the buffer has the effect of its pair or no-value form |
| IniParser.Parser.NoValueAt | src/ini.c:222-232 | a line without separator is reported, is an error, or is passed over after an error |
| IniParser.Parser.CallHandler | src/ini.c:140-144 | calls with the current section, keeps the first failing line number |
| IniParser.Parser.ReadLine | src/ini.c:147-166 | with growth allowed, the line and the unread rest are those of one read into a buffer of the maximal size; without, of one read into the buffer |
| IniParser.Parser.GrowAll | src/ini.c:149-165 | the doubling loop terminates with the chunk of a buffer at its cap |
| IniParser.Parser.GrowPass | src/ini.c:151-164 | one pass doubles the buffer up to the cap or finds the input finished |
| IniParser.Parser.ReadOn | src/ini.c:160 | reading on behind a full part without newline gives what one read of the whole buffer gives |
| IniParser.FoldExtends | src/ini.c:147-237 | a run only adds calls |
| IniBuffer.RStrip | src/ini.c:58-65 | in place, the string loses exactly its trailing white space and nothing outside it changes |
| IniBuffer.LSkip | src/ini.c:67-73 | the position behind all leading white space |
| IniBuffer.FindCharsOrComment | src/ini.c:75-93 | the least position with a wanted character, or with a comment character right behind white space where inline comments are on, or the end |
| IniBuffer.StrNCpy0 | src/ini.c:95-105 | the destination holds the source cut to fit, terminated, and is not padded |
| IniBuffer.SplitPair | src/ini.c:206-215 | splitting at the separator leaves the trimmed name and the trimmed value without its comment, each as a string of its own |
| IniReader.StringReader.Read | src/ini.c:268-291 | delivers the next chunk, terminated, consumes exactly it, and writes nothing outside the room it has |
| IniReader.ChunksConserve | src/ini.c:268-301 | the chunks concatenate to the text; each is non-empty, fits, has a newline at its end only, and lacks one only when full or last |
| IniReader.ChunksUnique | src/ini.c:268-301 | those properties admit no other way to chunk a text |
| IniReader.ChunksAppend | src/ini.c:278-285 | a text that ends a line is chunked apart from what follows |
| IniReader.ChunkExtend | src/ini.c:150-160 | a full part without newline followed by the next read is the chunk of the bigger buffer |
| IniReader.ChunkStays | src/ini.c:150 | a chunk that ended early is the chunk of every bigger buffer |
| IniRuns.ReturnCode | src/ini.c:181-243 | the code is the number of the first line that is malformed, or whose call the handler refuses after the calls promised before it, and 0 exactly when there is none, stopping early or not |
| IniRuns.ErrorStays | src/ini.c:184-231 | once set, the error never changes |
| IniRuns.StoppingIsPrefix | src/ini.c:235-236 | stopping at the first error returns the same code after a prefix of the calls, and changes nothing without an error |
| IniRuns.RunEnd | src/ini.c:147-243 | a run ends at the end of the text or right behind the first failing line |
| IniRuns.CallsAsPromised | src/ini.c:204-232 | a run to the end makes exactly the calls that text and flags promise if and only if no line without separator comes behind a bad line while such lines are allowed; whether a line is bad depends on text, flags and handler only |
| IniRuns.CallsFixedByText | src/ini.c:181-232 | with such lines disallowed, the calls do not depend on the handler or its answers |
| IniExamples.DroppedLine | src/ini.c:222-228 | a text whose promised call is not made |
| IniExamples.MiscountedLine | src/ini.c:147-168 | a text whose bad second line is reported as the third, because the first takes two reads |
| IniExamples.HeapSplitsPair | src/ini.c:112-123 | a pair that fits the maximal size but not the initial one loses its value on the heap and keeps it on the stack |
| IniRuns.RunCallsHaveOrigin | src/ini.c:181-221 | the calls of every run come one each from strictly increasing lines, with the section of the last header (cut to 49 characters, or "" without one); a continuation carries the cut, non-empty name of the last pair, with no header in between |
| IniRuns.ContextOrigin | src/ini.c:97-105 | at every line of every text the section is that of the last header, and a name is pending if and only if it is the non-empty name of the last pair with no header since, both cut to 49 characters |
| IniRuns.ValuesPresent | src/ini.c:181-232 | a value is missing only where lines without separator are allowed |
| IniRuns.RunUser | src/ini.c:184-228 | the caller's state is what the calls of the run make of it, in order |
| IniTexts.InsertIgnorable | src/ini.c:176-186 | a comment or blank line put in behind the first line changes no call, also within a continuation; only later error numbers move by one |
| IniTexts.CrLfInsensitive | src/ini.c:176-219 | "\r\n" for "\n" gives the same run as long as the longer lines fit |
| IniTexts.ClassifyTail | src/ini.c:59-65 | the kind of a line does not depend on its trailing white space |
| IniTexts.BomInsensitive | src/ini.c:171-175 | a byte-order mark in front of a text changes nothing, as long as the first line still fits and brings no mark of its own |
| IniSizes.ChunksAreLines | src/ini.c:147-168 | the reads are the lines of the text exactly when every line fits one read |
| IniSizes.CodeIsLineNumber | src/ini.c:147-243 | a code other than 0 is one more than the number of newlines in the text in front of the failing read if and only if each read before it ended a line |
| IniSizes.CodeOfFittingLines | src/ini.c:147-243 | so it is the line number whenever every line fits one read |
| IniSizes.SizesAgree | src/ini.c:268-291 | two sizes of reads cut a text the same way exactly when every line fits the smaller |
| IniSizes.HeapLines | src/ini.c:112-123 | a heap buffer that may not grow, of a size other than the maximal one, reads what one of that size would exactly when every line fits the smaller |
| IniSizes.HeapRun | src/ini.c:112-123 | then its run is that of a stack buffer |
| IniSizes.ParseBothWays | src/ini.c:112-166 | two runs of the parser, with a heap buffer that grows and with a stack buffer of the maximal size: without failed allocations, code, caller's state and calls are the same |
| IniLaws.KindMeaning | src/ini.c:176-202 | for a line without a byte-order mark, as its leading white space, its text and its trailing white space: when it is skipped, when it is a continuation and of what text, and when it is read as a header |
| IniLaws.IndentedContinues | src/ini.c:176-184 | every indented line that is not blank and no comment continues the pending value, however deep the indentation and whatever white space ends it |
| IniLaws.ContinuationMeaning | src/ini.c:176-184 | a line without a mark is a continuation if and only if these are on, a name is pending, it starts with white space, and what is left of it is not empty and starts no comment |
| IniLaws.CommentedPair | src/ini.c:75-93 | "name=value", white space, a comment character and any text is the pair of that name and value |
| IniLaws.CommentedHeader | src/ini.c:187-192 | "[section]" is its header whatever follows on the line |
| IniLines.NoValueMeaning | src/ini.c:204-225 | a line has no separator, and what its name is, exactly when its end or an inline comment comes first |
| IniExamples.DefaultRun | inc/ini.h:77-153 | with the default flags, the calls and the code of a text with a byte-order mark, both comment characters, an inline comment, a continuation and a line without separator |
| IniExamples.DefaultRead | inc/ini.h:116 | with the default flags one read takes 199 characters of a long line |
| IniLines.HeaderMeaning | src/ini.c:187-192 | a '[' line is a header for s exactly when it starts with "[s]" and nothing in s ends the scan early |
| IniLines.PairMeansParts | src/ini.c:204-215 | every pair line is its name, the first unprotected separator, its value and an inline comment, with only white space around name and value |
| IniLines.PartsMeanPair | src/ini.c:204-215 | and every line made of such pieces is the pair of that name and value |
| IniRoundTrip.EntryReadsBack | src/ini.c:202-219 | "name=value" reads back as that pair if and only if name and value are clean and no byte-order mark is taken off |
| IniRoundTrip.HeaderReadsBack | src/ini.c:187-192 | "[section]" reads back if and only if '[' starts no comment and the section ends no scan |
| IniRoundTrip.MoreReadsBack | src/ini.c:181-184 | an indented line reads back as a continuation if and only if it is bare, not empty, no comment, and continuations are on |
| IniRoundTrip.RoundTrip | src/ini.c:147-237 | a printed clean document makes exactly its calls in order, whatever the handler answers if the run does not stop early, and code 0 for an accepting one |
| IniRoundTrip.ParsePrinted | src/ini.c:294-301 | the same of the parser run on the printed text: its calls and the caller's state they make, or a part of the calls and -2 where an allocation may fail |
| CNumbers.ScanHexHex | src/receive_interface.c:64 | the hexadecimal conversion reads back every printed 32-bit number |
| CNumbers.AtoiDecimal | src/receive_interface.c:69-109 | the decimal conversion reads back every printed 32-bit number |
| CNumbers.ScanHexText | src/receive_interface.c:64 | on white space, a sign, hexadecimal digits in small or capital letters and any other text, the conversion gives the signed place value of the digits, and nothing without a digit |
| CNumbers.ScanHexPrefixed | src/receive_interface.c:64 | "0x" or "0X" in front of the digits changes nothing |
| CNumbers.AtoiText | src/receive_interface.c:69-109 | the same for decimal digits, with 0 for no digit |
| DeviceRegistry.DeviceList.Handle | src/receive_interface.c:38-114 | on the linked list: a section other than the head's puts a zeroed device in front, and the assignment changes the head only; the chain stays acyclic |
| DeviceRegistry.GDevice.Assign | src/receive_interface.c:62-110 | the MATCH chain assigns the field named, and leaves it for unreadable keys and unknown words |
| DeviceRegistry.DeviceList.FindByKey | src/gdevice.c:28-49 | the first node of the list with the key, null exactly when there is none |
| DeviceRuns.RegistryMirrorsRuns | src/receive_interface.c:38-114 | after any calls the list is the reverse of their maximal runs of one section, each field as last given in its run or 0 |
| DeviceRuns.Runs | src/receive_interface.c:44-58 | every sequence of calls has such runs |
| DeviceRuns.LookupAgreesWithFile | src/gdevice.c:28-49 | the lookup gives the device of the latest run whose final key matches, and nothing exactly when no run has the key |
| DeviceConfig.LoadDevices | src/receive_interface.c:119-125 | parsing with the default flags and handling the calls leaves in memory the devices the text stands for |
| DeviceConfig.ConfigRoundTrip | src/receive_interface.c:38-114 | devices whose names and values a configuration can hold, printed as one, load as the same devices in reverse if and only if no two neighbours share a name |
| DeviceConfig.LightLoads | ini/peripheral.ini:1-7 | the lines of the first device of the shipped configuration, less the comment behind its section, load as key 65, pin 5, OUTPUT, HIGH, no face check, no voice |
| DeviceConfig.SameNameExample | src/receive_interface.c:51-58 | two devices that merge |
| DeviceConfig.ConfigLookup | src/gdevice.c:28-49 | a lookup among the devices that a printed configuration stands for finds the last one printed with the key, all fields as printed, and nothing when none was |
| DeviceConfig.SectionsFit | src/receive_interface.c:51-58 | no call of a printed configuration has a section too long for a device name |
| DeviceConfig.FindPrinted | src/receive_interface.c:38-125 | end to end in memory: devices are printed, the text is parsed into the linked list and the list searched; the node found holds the last device printed with the key, and there is none exactly when no device has it |
| Frames.VoiceGet | src/voice_interface.c:43-87 | over any reads the loop sends exactly the reads that are whole frames, in order |
| Frames.SocketGet | src/socket_interface.c:112-136 | over the reads of a connection the loop sends exactly those that are whole frames, up to the first empty read |
| Frames.FramesInBytes | src/voice_interface.c:79-85 | those are, each in its place, the reads of the form AA 55 key value 55 AA, and no others |
| Frames.UntilClosedMeans | src/socket_interface.c:112-136 | the reads of a connection count up to the first empty one |
| Frames.MarkedMeansWhole | src/voice_interface.c:79-85 | in a zeroed buffer the check passes exactly for a read of a whole frame |
| Frames.ReceiveGet | src/receive_interface.c:344-368 | over any messages the loop hands on copies of those after which its buffer starts with a frame |
| Frames.ReceivedByte | src/receive_interface.c:344-368 | every byte of the receiver's buffer is that of the last message long enough to have one there |
| Frames.DispatchedBytes | src/receive_interface.c:362-366 | the messages handed on are, each in its place, those behind which bytes 0, 1, 4 and 5 of the buffer are AA, 55, 55 and AA |
| Frames.FramesAreDispatched | src/receive_interface.c:362-366 | messages that are whole frames are all handed on |
| SmokeMonitor.SmokeGet | src/smoke_interface.c:57-99 | the frames the loop tries to send depend on the readings only, not on the outcomes of its sends; they are AA 55 45 00 55 AA, as many as LOW readings, and AA 55 45 01 55 AA, as many as changes from LOW to HIGH, and the last is the first kind exactly when the last reading is LOW |
| SmokeMonitor.SmokePlaces | src/smoke_interface.c:63-97 | each of these frames, in order, with the reading it answers |
| SmokeMonitor.AttemptCounts | src/smoke_interface.c:63-97 | as many alarms as LOW readings, as many clears as changes from LOW to HIGH |
| SmokeMonitor.AlarmBetweenClears | src/smoke_interface.c:81-86 | between two clears there is an alarm |
| SmokeMonitor.LastAttempt | src/smoke_interface.c:64-86 | the last attempt is an alarm exactly when the last reading is LOW |
| Pipeline.StepInv | src/msg_queue.c:7-29 | every step of every thread keeps the invariant of buffers, queue and histories |
| Pipeline.RunGoesOn | src/receive_interface.c:344-371 | every enabled action can follow every run, so the runs are all interleavings |
| Pipeline.EveryRunConserves | src/receive_interface.c:344-367 | in every interleaving, queued and dispatched messages are whole frames, and dispatched then queued messages are the accepted sends in order, as many as sends succeeded; as many are dispatched as there are receives |
| Pipeline.EveryRunFollows | src/msg_queue.c:24-29 | every run, from its actions alone: the senders of the accepted messages in order, how many are dispatched and queued, and for each producer that the queue took exactly those of the frames its loop would send whose send succeeded |
| Pipeline.NothingLost | src/msg_queue.c:24-29 | without a failed send, all finished frames of a producer got into the queue |
| Pipeline.WhenEnabled | src/msg_queue.c:7-29 | which reads, sends and receives can come next after any run, with a queue of ten messages |
| Pipeline.EveryRunIsHonest | src/msg_queue.c:24-29 | in every interleaving, what the queue took from a thread is what its loop alone would send on its inputs, failed and pending sends left out |
| DoorControl.Board.SetGpioStatus | src/gdevice.c:54-73 | writes mode and level unless they, or the pin, are -1; fails on a null device only |
| DoorControl.HandleDevice | src/receive_interface.c:160-308 | the thread's effect on device list, pins, frame bytes and announcement is that of the response function |
| DoorControl.Switch | src/receive_interface.c:182-223 | lookup, face check and first pin write: the recorded level is LOW for byte 0 and HIGH for any other, and the device is written if it needs no check or scored above 0.5 |
| DoorControl.Announce | src/receive_interface.c:225-269 | bytes 2 and 3 at the moment the voice thread is created, and their reset |
| DoorControl.CommandWrites | src/receive_interface.c:196-223 | a command writes to a pin if and only if it names a device of that pin that needs no face check or scored above 0.5; the levels written are LOW for byte 0 and HIGH for any other, and behind a face check HIGH |
| DoorControl.CommandEffects | src/gdevice.c:54-73 | every write of a command in order: the device's mode, unless that is -1, in front of each of these levels |
| DoorControl.AnnouncedBytes | src/receive_interface.c:197-261 | for every key, byte, score and device, the two bytes announced and the two bytes left in the frame |
| DoorControl.LastByteDecides | src/receive_interface.c:196-222 | after every run, pin and recorded level of an unchecked device with a pin of its own are LOW if and only if the last command naming it had byte 0, HIGH if and only if it had another, and as at the start without such a command |
| DoorControl.LockAnnouncement | src/receive_interface.c:197-258 | the face-checked lock's announcement, as it is when the voice thread is created, says opened exactly when its pin was written and refused exactly when it was not |
| DoorControl.ShownLevels | src/receive_interface.c:182-305 | after every run of commands, the recorded level of a device with a pin of its own is that of the pin if and only if the last command naming it was granted or asked for the level then at the pin; with no such command, if and only if the two agreed at the start |
| DoorControl.ShownLevel | src/receive_interface.c:196-214 | the same of a single command, whoever shares the pin |
| DoorControl.RefusedExample | src/receive_interface.c:208-211 | a refused request that leaves them different |
| DoorControl.DoorWrites | src/receive_interface.c:197-223 | in every run, a command that writes to a face-checked device's own pin names it and scored above 0.5 |
| DoorControl.DoorSafe | src/receive_interface.c:300-305 | after every run that pin is HIGH if a command naming the device scored above 0.5, and at its initial level if none did |
| DoorControl.PlayKeeps | src/receive_interface.c:160-308 | commands change nothing of any device but its level |

## Left out

- `ini_parse`, `ini_parse_file` and `fgets`: files and their errors; the string reader is the reader.
- `ini_call_handler_on_new_section`: a constant false in the source, so its branch is not there.
- The handler is a function on the caller's state. `DeviceConfig.LoadDevices` therefore records the calls and handles them after the parse; the parser reads nothing a handler writes but its answer, so the list is the same.
- Line numbers are unbounded, where the source counts in an `int`.
- A heap buffer that may grow is taken to start no larger than its cap; the source would write past a shrunk buffer otherwise.
- IniParser.Parser.Realloc: contents behind the old ones are not promised anything, like fresh memory; releasing memory is not modelled.
- Device names are strings of at most 35 characters, not 36-byte arrays; longer sections overflow the field in the source and are a precondition.
- CNumbers.Atoi: numbers outside 32 bits, undefined in C, are reduced modulo 2 to the power 32.
- CNumbers.ScanHex: the same, and "0x" without a digit behind it converts nothing, as the C standard has it.
- DeviceRegistry.DeviceList.Handle: a call without a value, which the source cannot take, is a call with one here; `IniRuns.ValuesPresent` shows that the default flags make no other.
- Reads of more than six bytes from a connection overflow the buffer in the source and are a precondition.
- DoorControl.Announce: the source hands the voice thread the address of the frame (`src/receive_interface.c:258`) and resets bytes 2 and 3 about 100 microseconds later (`src/receive_interface.c:259-261`), so a thread that is slow to start reads zeros; the model hands over a copy.
- DoorControl.LockAnnouncement: speaks of the bytes at the creation of the voice thread, for the same reason.
- Threads of several commands at once share one message and the device nodes in the source; `DoorControl` handles one command at a time, and `Pipeline` logs a message at the copy.
- A finite list of inputs stands for an endless loop; every prefix of a run is covered.
- The display text, the Python face check, the cloud client, serial and socket set-up, keep-alive options, sleeps and printing.
- `src/main.c` and `src/control.c`: starting threads and one list prepend.
