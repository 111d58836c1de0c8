# A verified model of a filtering POP3 proxy

The proxy sits between a POP3 client and its server. It relays commands and
responses over non-blocking sockets, and hands retrieved messages to an external
filter. This project models its logic in Dafny 4.11 and proves what its parts and
its runs keep. `dafny verify dfyconfig.toml` checks everything.

What is modelled, from the octets up:

* **Automata.** `ParserEngine` is the interpreter of transition tables, as a class
  proved against a step function. Each table is kept as data, row by row, and
  proved equal to the automaton it spells out: the message tokenizer (`MimeMsg`,
  with the class table of `MimeChars`; `MimeTokens` says which events it gives),
  the dot-unstuffer (`Pop3Multi`), the dot-stuffer (`Decrypt`), the generated
  comparison automata (`Strcmpi`) and the banks of them that match media types
  (`MediaBank`, `MediaFilter`), the command splitter (`CommandParser`), the
  response checkers (`MultilineResponse`, `SinglelineResponse`).
* **The small stateful classes.** `Buffers` and `StateMachines`.
* **The selector.** `SelectorTable` has the descriptor table as a value, its
  operations, its invariant over all runs, and the dispatch pass with callbacks
  that change the table; `Registrations` is the map it stands for, and `Dispatch` says what
  a pass calls; `Capacity` its growth; `Selectors` is the class over an
  array of slots, proved against them.
* **The session.** `ProxySession` is one session's step machine, with a log of its
  traffic. `SessionRuns` proves what whole runs keep, `SessionAborts` when the
  state machine aborts, `SessionFilter` and `SessionExchanges` which responses the
  transform flag diverts, `SessionResponses` what commands and responses do to it.
  `SessionLedger` tells the whole session by its traffic, and what ends it.
  `Sessions` is the class that works on buffers, parsers and interests in place, each
  method proved against the step. `SessionLifetime` and `SessionPools` are reference
  counts and the pool, `SessionEntries` ties them to the selector's slots.
* **The program.** `WholeProgram` runs the selector's table, the lives of all sessions
  and their step machines together, and proves what every run keeps and exactly what
  aborts it; `Passes` proves that each pass of the selector goes on with such a run,
  and `SessionsEnd` when the program is done with a session.
* **Byte-stuffing.** `Unstuffing` says what the unstuffer makes of any stream.
  `DotStuffing` sets the repository's stuffer and that of RFC 1939 against it,
  `StuffedLines` on text of lines.

Theorems about the code as it is often hold only on part of the inputs one might
hope for. Then the exact condition is proved in both directions, with an input
outside it.

## Where the code and its documentation differ

The model follows the code.

* DEL (127) is not a control character to `mime_chars.c:43-45`, though
  `mime_chars.h:24-25` and RFC 822, section 3.3, say so.
* To the unstuffer a CR CR LF is no line end (`pop3_multi.c:64-67`): a second CR
  goes back to plain data.
* To the tokenizer a CR right after a blank is part of the value
  (`mime_msg.c:179-182`).
* The stuffer and the response checker both miss the line start after an empty
  line (`pop3_decrypt_parser.c:75-81`, `pop3_multiline_response_parser.c:171-175`);
  the checker also takes a CRLF that opens the input as the end.
* `content_type_match` returns at the first hit, so that later automata miss an
  octet (`stripmime.c:347-352`).
* `consumer_state` in `dot_data_sread` is never assigned
  (`pop3_client_nio.c:1162`): whether a long response goes on is left open.
* The transform flag is set and cleared by commands answered in lines only
  (`pop3_client_nio.c:1047-1055`). Until the next such command after a RETR or TOP, the
  filter's buffer, empty by then, is sent instead of single-line responses.
* A session whose socket fails to be made non-blocking keeps the descriptor without
  registering it (`pop3_client_nio.c:571-573`) and goes on as if it were connecting.
  `finished_suscription` would abort on it, but in no run does it come to that: the
  state machine aborts first, on a callback that is missing, or the session hangs.
* A `connect()` that is done at once aborts the whole program
  (`pop3_client_nio.c:598-602`).
* Commands answered in lines answer in one line when they fail, says `pop3.c:55-60`;
  the session does not look at the sign of the response and waits for more lines.
* Keywords are compared with case (`pop3.c:81-92`); RFC 1939, section 3, makes no
  difference between cases.
* `pool_size`, commented as the pool's current size, is never counted down.

## Model

| member | source | states |
|---|---|---|
| ParserEngine.Parser.FeedAny | src/mimi_filter/src/parser.c:53-86 | whatever the table, the loop leaves state and event chain as the first row that applies has them; where none does, the state stays and only the link to the second event is cut |
| ParserEngine.Parser.Feed | src/mimi_filter/src/parser.c:53-86 | on tables whose states all have a row for any octet, as all of the proxy's do, this is the step function the theorems are about |
| ParserEngine.Parser.Reset | src/mimi_filter/src/parser.c:44-47 | back at the definition's start state |
| ParserEngine.RunConcat | src/pop3filter/services/parser_factory.c:71-117 | feeding a and then b, the state kept in between, gives the states and events of feeding a followed by b: input may be cut anywhere |
| MimeChars.InitCharClass | src/mimi_filter/src/mime_chars.c:6-208 | the loops and bit-ors leave, for all 256 octets, exactly the classes the grammars give (with CTL as the code has it) |
| MimeChars.MarksAreClasses | src/mimi_filter/src/mime_chars.c:8-205 | the marks made by the passes one after another add up to the declarative classes of an octet |
| MimeChars.ClassMatch | src/mimi_filter/src/parser.c:57-71 | a row that asks for a class applies to just the octets of that class |
| MimeMsg.StepIsNext | src/mimi_filter/src/mime_msg.c:139-203 | the rows, tried in order against the class table, come to the ten-state automaton written out case by case |
| MimeMsg.RunIsTokenize | src/mimi_filter/src/mime_msg.c:139-246 | the engine run on the table is the tokenizer the theorems below are about |
| MimeMsg.Conservation | src/mimi_filter/src/mime_msg.c:40-203 | on every input: event payloads followed by the octets held by the current wait state equal the input, if and only if no row that drops held octets was taken; without ERROR none was |
| MimeRoundTrip.PrintThenTokenize | src/mimi_filter/src/mime_msg.c:139-203 | printing headers, blank line and body and tokenizing the octets gives back exactly these headers and this body, if and only if names, values and body are valid |
| MimeRoundTrip.TokenizeThenPrint | src/mimi_filter/src/mime_msg.c:139-203 | whatever input is taken as a whole message, the message drawn from the events is valid and prints as that input |
| MimeRoundTrip.FoldedIsValid | src/mimi_filter/src/mime_msg.c:155-189 | raw values in the terms of RFC 822 (CR only as CRLF before a blank and never after one) are all covered by the round trip |
| MimeRoundTrip.ValidIsFolded | src/mimi_filter/src/mime_msg.c:155-189 | and conversely: among values whose CRs are followed by LF and come after no blank, those covered are exactly the properly folded ones |
| MimeRoundTrip.ValidReadOff | src/mimi_filter/src/mime_msg.c:155-189 | for every value, whatever its CRs: it is covered by the round trip if and only if it does not end in blanks, in a CR that counts or in a line break, and breaks no line without a blank after it |
| MimeRoundTrip.BlankValueIsLost | src/mimi_filter/src/mime_msg.c:179-182 | a header whose value is one blank is not given back |
| MimeRoundTrip.RunDraws | src/mimi_filter/src/mime_msg.c:139-203 | in every state but ERROR, after any input, what has been read so far is valid and prints as the input |
| MimeTokens.RunTells | src/mimi_filter/src/mime_msg.c:40-203 | on every input that has not been found wrong, the events told, in kind, octets and order, are those read off what has been read: Name for each octet of a name, one NameEnd, Value or ValueFold for those of a value, one ValueEnd, one BodyStart at the blank line, BodyCr, BodyNewline and Body for the body |
| MimeTokens.MessageTells | src/mimi_filter/src/mime_msg.c:40-203 | the same for a whole valid message, printed |
| MimeTokens.FoldedTells | src/mimi_filter/src/mime_msg.c:155-182 | in a value folded as in RFC 822 just blanks and the CRLF of folds are told as ValueFold, and all other octets as Value |
| MimeTokens.FirstWrong | src/mimi_filter/src/mime_msg.c:139-193 | with the first octet found wrong the end of a value is told, where a blank line or a control character after its CRLF has made it certain, and the octet as unexpected |
| MimeTokens.WrongForGood | src/mimi_filter/src/mime_msg.c:166-203 | once an octet has been found wrong it stays so, and each octet after it is told as unexpected, and nothing else |
| Pop3Multi.StepIsNext | src/mimi_filter/src/pop3_multi.c:53-84 | the rows come to the six-state automaton written out, wait states with their one or two events included |
| Pop3Multi.ReceiveIsRun | src/mimi_filter/src/stripmime.c:756-789 | walking the event chain after each octet, as the event loop does, with a new message begun after each FIN, delivers what the engine's whole run delivers |
| Unstuffing.Unstuffs | src/mimi_filter/src/pop3_multi.c:53-84 | on every stream, stuffed or not: up to the first line that is a dot alone all octets are handed over but the dots that open lines, a CR held back included, and at its CRLF the message ends |
| Unstuffing.NextMessage | src/mimi_filter/src/pop3_multi.c:82-84 | after that, whatever comes next has a CR put before it and opens no line, and the rest is handed over likewise |
| Unstuffing.LinesComeBare | src/mimi_filter/src/pop3_multi.c:53-84 | any CR-free lines, none of them a dot alone, followed by the end, are handed over as one message of these lines, each less one leading dot |
| DotStuffing.StuffThenReceive | src/mimi_filter/src/pop3_multi.c:53-84 | for either stuffer and every body: its octets and the terminator give exactly the body as one message, ended by the last octet, if and only if the body ends where the unstuffer notices a line start (CRs before the LF odd in number) and the dots doubled are just those at noticed line starts |
| DotStuffing.StandardThenReceive | src/mimi_filter/src/pop3_multi.c:53-84 | for the stuffing of RFC 1939, section 3: if and only if the body ends, and every dot after a CRLF comes, at a noticed line start |
| DotStuffing.LinesAreRecoverable | src/mimi_filter/src/pop3_multi.c:53-84 | bodies that are empty or end in CRLF and have no adjacent CRs are recoverable |
| DotStuffing.DoubleCrIsNotRecoverable | src/mimi_filter/src/pop3_multi.c:64-67 | a body with CR CR LF before a dot is not given back |
| Decrypt.StepIsNext | src/pop3_decrypt_parser.c:59-95 | the rows come to the five-state automaton written out |
| Decrypt.Loop | src/services/decrypt.c:44-54 | the loop writes, from the index on, what the automaton asks for up to the NUL, and leaves the rest of the array alone |
| Decrypt.DecryptString | src/services/decrypt.c:32-60 | the output array begins with the specified octets, terminator included, and is otherwise as it was; 0 is returned |
| DotStuffing.DecryptThenReceive | src/services/decrypt.c:32-60 | on every NUL-free text the unstuffer gives the stuffer's input back and ends in FIN, if and only if the text ends at a line start the unstuffer notices and each dot comes after what is a line start to the stuffer just where it does to the unstuffer, both read off the text |
| DotStuffing.DecryptIsStuff | src/pop3_decrypt_parser.c:59-95 | on every text the output is the RFC 1939 stuffing, if and only if before each dot there is a line start to the stuffer just where there is one |
| DotStuffing.DecryptedIsOwn | src/services/decrypt.c:32-60 | the octets left are the text with the dots doubled that come at a line start as the stuffer has it, and the terminator |
| Decrypt.SeesLineStarts | src/pop3_decrypt_parser.c:59-95 | after any text: the automaton sees a line start exactly where the text, read backwards from there, has one in terms of CRs, dots and line starts before them |
| StuffedLines.DecryptLinesThenReceive | src/services/decrypt.c:32-60 | on CRLF-ended lines without other CRs: if and only if no line whose start the stuffer misses opens with a dot |
| StuffedLines.TextHidesNothing | src/services/decrypt.c:32-60 | bodies whose every line holds a non-dot octet meet that condition |
| StuffedLines.EmptyLineHidesDot | src/pop3_decrypt_parser.c:75-88 | an empty line followed by a line that opens with a dot is not given back |
| Strcmpi.Generate | src/mimi_filter/src/parser_utils.c:74-137 | for every string of length n the arrays have 3(n+2) rows and n+2 states, every state's rows lie inside, and they are the rows of the comparison automaton |
| Strcmpi.TableComplete | src/mimi_filter/src/parser_utils.c:74-137 | every destination is a state below n+2 and every state ends in a row for any octet |
| Strcmpi.Compares | src/mimi_filter/src/parser_utils.c:74-137 | for every ASCII string and every nonempty input the last event is EQ, MAYEQ or NEQ as the input is equal to it ignoring case, a proper prefix, or neither |
| MediaBank.DetectsMembers | src/mimi_filter/src/stripmime.c:327-359 | for a nonempty type that no listed type is a proper prefix of, the flag is set if and only if the type is listed, ignoring case |
| MediaBank.SettlesOnFirst | src/mimi_filter/src/stripmime.c:327-359 | and the entry whose subtypes are taken is then the first that is the text, ignoring case |
| MediaBank.ExactOnAllTexts | src/mimi_filter/src/stripmime.c:327-359 | the flag means membership on every text, if and only if no entry clashes with a later one (all of it but its last octet begins the later one, which is no shorter) |
| MediaBank.ClashIsNotExact | src/mimi_filter/src/stripmime.c:327-359 | for any clash there is a text that is detected and not listed; the lemma builds it |
| MediaBank.SubtypesDetectMembers | src/mimi_filter/src/stripmime.c:280-325 | the subtype bank, without a wildcard at its head, is exact on every text |
| MediaFilter.Walk | src/mimi_filter/src/stripmime.c:327-359 | the list is walked up to the first entry that answers EQ; those before it have been fed, those after it have not |
| MediaFilter.Context.ContentTypeMatch | src/mimi_filter/src/stripmime.c:327-359 | one octet: flag and current subtype list as the first hit has them, parsers moved on as in the bank |
| MediaFilter.Context.ContentSubtypeMatch | src/mimi_filter/src/stripmime.c:280-325 | one octet: a wildcard at the head accepts without feeding; in a list without wildcards all are fed and the flags follow |
| MediaFilter.Context.TypeOctets | src/mimi_filter/src/stripmime.c:327-359 | a whole type fed to reset parsers: detected and subtype list as the bank says |
| MediaFilter.Context.SubtypeOctets | src/mimi_filter/src/stripmime.c:280-325 | a whole subtype fed to reset parsers: accepted if and only if a wildcard heads the list or, in a list without wildcards, the subtype is listed, ignoring case; the mark to replace the content type is set, for good, as soon as some beginning of it is |
| CommandParser.StepIsNext | src/pop3filter/services/pop3/parsers/pop3_command_parser.c:124-258 | the rows come to the five-state automaton written out |
| CommandParser.SplitStep | src/pop3filter/services/pop3/parsers/pop3_command_parser.c:312-342 | one octet more changes the declarative split just as the automaton and the 4-octet keyword limit have it |
| CommandParser.Build | src/pop3filter/services/pop3/parsers/pop3_command_parser.c:312-342 | continuing from any earlier chunks, status, octets read, keyword, has_args and error are those of the first-line split of all octets together |
| CommandParser.CommandBuilder.SetNext | src/pop3filter/services/pop3/parsers/pop3_command_parser.c:302-310 | the octet is appended to the keyword, or refused if there are four already |
| CommandParser.SplitIsFinal | src/pop3filter/services/pop3/parsers/pop3_command_parser.c:256-258 | once decided, more octets change nothing |
| CommandParser.FinishedIsLine | src/pop3filter/services/pop3/parsers/pop3_command_parser.c:124-342 | what is accepted is one line: it ends in its first CR, followed by LF, and its keyword has at most 4 octets |
| MultilineResponse.StepIsNext | src/pop3filter/services/pop3/parsers/pop3_multiline_response_parser.c:87-313 | the rows come to the six-state automaton written out |
| MultilineResponse.Check | src/pop3filter/services/pop3/parsers/pop3_multiline_response_parser.c:351-370 | from any earlier chunks: FINISHED_CONSUMING just when the end has come, with the octets up to it consumed and no more |
| MultilineResponse.FinishedIsEndMark | src/pop3filter/services/pop3/parsers/pop3_multiline_response_parser.c:87-343 | the octets consumed then end in CRLF.CRLF, or are a CRLF that opens the input |
| MultilineResponse.EndIsSeen | src/pop3filter/services/pop3/parsers/pop3_multiline_response_parser.c:87-343 | on a response of CR-free lines the lone dot that ends it is seen, with its CRLF and not before, if and only if an even number of empty lines comes right before it |
| MultilineResponse.EndIsRead | src/pop3filter/services/pop3/parsers/pop3_multiline_response_parser.c:87-343 | on every input: it is taken as finished, and at which octet, if and only if it opens with CRLF or holds a lone dot and CRLF after what counts as a line start, read off the octets |
| MultilineResponse.BlankLineHidesEnd | src/pop3filter/services/pop3/parsers/pop3_multiline_response_parser.c:171-175 | a response whose text ends in an empty line is not taken as finished |
| SinglelineResponse.Build | src/pop3filter/services/pop3/parsers/pop3_singleline_response_parser.c:397-424 | from any earlier chunks without a verdict: the verdict about all octets together, the status as the sign has it, and error exactly on failure |
| SinglelineResponse.StateIsJudged | src/pop3filter/services/pop3/parsers/pop3_singleline_response_parser.c:132-343 | the automaton's state is the declarative verdict: failed without a sign, finished by the first line end with an odd number of CRs before LF |
| SinglelineResponse.JudgeFinal | src/pop3filter/services/pop3/parsers/pop3_singleline_response_parser.c:340-343 | a verdict does not change with more octets |
| Buffers.Buffer.Init | src/pop3filter/services/buffer.c:17-22 | an empty buffer over the memory given |
| Buffers.Buffer.WriteAdv | src/pop3filter/services/buffer.c:49-55 | the octets stored behind the write position join the contents; negative counts change nothing |
| Buffers.Buffer.ReadAdv | src/pop3filter/services/buffer.c:57-68 | the first octets leave the contents, memory is not touched, and a drained buffer starts over |
| Buffers.Buffer.Read | src/pop3filter/services/buffer.c:70-80 | the first octet, or NUL from an empty buffer |
| Buffers.Buffer.Write | src/pop3filter/services/buffer.c:82-87 | the octet joins the contents if there is room |
| Buffers.Buffer.MoveToFront | src/pop3filter/services/buffer.c:97-98 | the overlapping move copies the old octets, and changes none after them |
| Buffers.Buffer.Compact | src/pop3filter/services/buffer.c:90-102 | contents kept, read position at the front |
| Buffers.Perform | src/pop3filter/services/buffer.c:10-102 | one operation does to the buffer, read position included, what it does to the queue, which says what goes in (an octet if there is room, octets if they fit) and what comes out (the first octet if any, the first n if there are so many) |
| Buffers.Operate | src/pop3filter/services/buffer.c:10-102 | any sequence of operations does to the buffer what it does to the queue, and what went in and came out is what the queue has of it |
| Buffers.FirstInFirstOut | src/pop3filter/services/buffer.c:10-102 | after any operations on a queue, what was inside and what went in is, in order, what came out and what is inside; never more than the limit |
| StateMachines.StateMachine.HandleFirst | src/pop3filter/services/stm.c:26-34 | the first event arrives in the initial state, later ones do nothing |
| StateMachines.StateMachine.Jump | src/pop3filter/services/stm.c:36-50 | departure and arrival callbacks just when the state changes; aborts for a state that is not there |
| StateMachines.StateMachine.Handler | src/pop3filter/services/stm.c:53-87 | one event: aborts exactly when the callback is missing or answers with no state; else the trace grows by the callbacks due |
| StateMachines.Drive | src/pop3filter/services/stm.c:26-87 | a whole run of a new machine: it aborts, or leaves the specified trace and current state |
| StateMachines.CallsPairUp | src/pop3filter/services/stm.c:26-87 | in the trace of every run each departure matches the latest arrival, handlers run in the state arrived at, and that is the current one |
| Capacity.NextCapacity | src/pop3filter/services/selector.c:171-187 | for n up to 1024, one more than the least power of two above n, capped at 1024 |
| Selectors.Selector.EnsureCapacity | src/pop3filter/services/selector.c:244-286 | status, and on success fd_size > n, old items kept and new ones unused; failure changes nothing |
| Selectors.Selector.ItemsInit | src/pop3filter/services/selector.c:198-204 | slots from last on are unused, the others untouched |
| Selectors.Selector.ItemsMaxFd | src/pop3filter/services/selector.c:209-221 | the largest descriptor in use up to max_fd, or 0 |
| Selectors.Selector.ItemsUpdateFdset | src/pop3filter/services/selector.c:223-237 | the two sets say of the descriptor what its slot says |
| Selectors.SelectorNew | src/pop3filter/services/selector.c:288-305 | for any initial size: a selector exactly if the size is in bounds and there is memory, with all slots unused and everything in agreement; 1025 slots for 1024 |
| Selectors.Selector.Register | src/pop3filter/services/selector.c:333-374 | for a table of any size and any descriptor but fd_size: growth where the descriptor is above, failing without memory with nothing changed; slot, max_fd, sets and status as specified on the table grown; the invariant kept |
| Selectors.Selector.UnregisterFd | src/pop3filter/services/selector.c:376-410 | for any descriptor out of range or in the table: slot, max_fd, sets and status as specified, the invariant kept, and the close callback called for the slot's data just when there is one |
| Selectors.Selector.SetInterest | src/pop3filter/services/selector.c:412-429 | for any descriptor out of range or in the table: slot, sets and status as specified, the invariant kept |
| SelectorTable.ApplyKeeps | src/pop3filter/services/selector.c:333-429 | each operation keeps: used slots hold their own descriptor, max_fd is the largest, the sets are what the slots say, unused slots are quiet |
| SelectorTable.RunKeeps | src/pop3filter/services/selector.c:333-429 | so does every run from a new selector, whatever its arguments |
| Registrations.RunIsRegistrations | src/pop3filter/services/selector.c:333-429 | after any operations on a new selector the table stands for the map of what is registered (registering takes a free descriptor, the others a taken one, and what fails changes nothing); the select sets and max_fd are those of the map |
| Registrations.RunAnswers | src/pop3filter/services/selector.c:333-429 | the status of the next operation is success, in use or wrong arguments, just as that map has it |
| Selectors.Selector.HandleIteration | src/pop3filter/services/selector.c:448-480 | one pass, its callbacks doing whatever they like to the table, makes the calls of the specified pass and aborts just where that does; the calls are safe, and unless it aborts every descriptor in use has been served as Dispatch.PassIsComplete has it |
| SelectorTable.DispatchSafe | src/pop3filter/services/selector.c:448-480 | every call is on a slot then in use whose interest then has that bit, whose handler has that callback and whose descriptor was reported; in descriptor order, reading before writing, each at most once |
| Dispatch.PassIsComplete | src/pop3filter/services/selector.c:448-480 | whatever the callbacks do to the table: unless the pass is stopped, each callback is made if and only if, in the table as it stood when the pass came there (for writing, after the reading), the slot was in use, asked for it and had been reported; with the data and slot of that moment; it is stopped exactly by the first wanted callback that is not there, all before it having been made |
| SelectorTable.DispatchComplete | src/pop3filter/services/selector.c:448-480 | with callbacks that leave the table alone: an abort exactly if a callback wanted is lacking, and otherwise exactly what is wanted is called |
| SelectorTable.DispatchNeverAborts | src/pop3filter/services/selector.c:458-475 | where all handlers have both callbacks and only such are registered, no pass aborts, whatever else the callbacks do |
| SessionRuns.StepSubscribes | src/pop3filter/services/pop3/nio/pop3_client_nio.c:558-1419 | a step leads to the state's own subscriptions, if and only if it is not a failed connection attempt or a lost greeting |
| SessionRuns.SubscribedToOne | src/pop3filter/services/pop3/nio/pop3_client_nio.c:558-1419 | from ESTABL_CONNECTION on exactly one side has a nonempty interest, and there is a callback for it |
| SessionRuns.HandlesWhatIsReported | src/pop3filter/services/pop3/nio/pop3_client_nio.c:1369-1419 | a state has a callback for just what its subscriptions can report |
| SessionAborts.RunSubscribes | src/pop3filter/services/pop3/nio/pop3_client_nio.c:558-1419 | over every run the state's subscriptions hold if and only if no step has been such a one |
| SessionAborts.AbortDueExactly | src/pop3filter/services/stm.c:53-87 | over every run: the selector can report an event whose callback is missing, if and only if the last step has lost the greeting |
| SessionAborts.AbortReachable | src/pop3filter/services/pop3/nio/pop3_client_nio.c:558-622 | after a first such step an abort can be come to, if and only if that step was not an attempt that leaves nobody waited for: one that failed in RESOLV_CONNECTION, or whose descriptor the selector refused after the interest of the client had been cleared |
| SessionAborts.FailureAborts | src/pop3filter/services/pop3/nio/pop3_client_nio.c:558-622 | the events that lead there |
| SessionAborts.MutedFailureHangs | src/pop3filter/services/pop3/nio/pop3_client_nio.c:537-606 | after an attempt that leaves nobody waited for, nothing is ever reported for the session again, and nothing aborted |
| SessionAborts.RunsAsMachine | src/pop3filter/services/stm.c:26-87 | every run of the session is a run of the state machine over the session's table, ending in the same state |
| SessionAborts.AbortsAsMachine | src/pop3filter/services/stm.c:53-87 | an event without a callback in the session is one the machine aborts on |
| SessionAborts.ArrivalMatters | src/pop3filter/services/pop3/nio/pop3_client_nio.c:1369-1419 | the states with an arrival callback, and that every state in which arriving changes the session is one |
| SessionAborts.SetUpOnArrival | src/pop3filter/services/stm.c:36-50 | a step does more to the session than its handler only where it changes to such a state |
| SessionAborts.DriveSession | src/pop3filter/services/stm.c:26-87 | a new state machine given a run's events does not abort, and calls, in order, the arrival in the initial state and for each event its handler and, at each change to a state with something to set up, the arrival there; no departures |
| SessionRuns.RunRelays | src/pop3filter/services/pop3/nio/pop3_client_nio.c:797-1366 | over every run with any partial reads and writes: sent and waiting octets are the greeting and then, in order, what is due of each response (what the origin sent, or what the filter made of it); what the origin has been sent, with what waits, is the accepted lines in order; one response for each command |
| SessionRuns.ResponseAwaitsOneLine | src/pop3filter/services/pop3/nio/pop3_client_nio.c:963-995 | where a response is awaited the origin has been sent whole the accepted, CRLF-ended line, and the earlier ones, and the client all it is due |
| SessionRuns.NothingPending | src/pop3filter/services/pop3/nio/pop3_client_nio.c:1342-1366 | between commands nothing is left to send either way |
| SessionRuns.CommandInTurns | src/pop3filter/services/pop3/nio/pop3_client_nio.c:824-881 | however the client's octets are cut into recv()s, what becomes of them is what becomes of all of them at once |
| SessionRuns.TailIsDropped | src/pop3filter/services/pop3/nio/pop3_client_nio.c:838-866 | octets after a whole line in the same recv() have no effect on the session |
| SessionLedger.RunKeepsLedger | src/pop3filter/services/pop3/nio/pop3_client_nio.c:558-1419 | over every run phase and traffic are what a ledger makes of the events alone, without buffers, interests, parsers or flags: what the client has said so far, what is due and how much of it has gone decide where the session goes |
| SessionLedger.EndsExactly | src/pop3filter/services/pop3/nio/pop3_client_nio.c:720-1366 | after any run, the next event ends the session if and only if it is a recv() that brings nothing where a command, a response or more of one is awaited, a send() that fails, a command with a fifth keyword octet or a CR not followed by LF, or a greeting or response whose first octets hold no whole signed status line |
| SessionLedger.SplitIsVerdict | src/pop3filter/services/pop3/parsers/pop3_command_parser.c:312-342 | the splitter fails on all octets so far if and only if there are five of a keyword or the first CR is followed by no LF, and finishes at its first CRLF otherwise |
| SessionLedger.JudgeIsVerdict | src/pop3filter/services/pop3/parsers/pop3_singleline_response_parser.c:397-424 | octets are accepted as a status line if and only if they open with + or - and some line end has come |
| SessionFilter.FlagIsLastRetrieves | src/pop3filter/services/pop3/nio/pop3_client_nio.c:1047-1055 | over every run, between commands: the transform flag is on if and only if the last command answered in lines was RETR or TOP |
| SessionFilter.ResponsesMeetTheirFates | src/pop3filter/services/pop3/nio/pop3_client_nio.c:1019-1366 | over every run, between commands, for each response: with the flag off all the origin sent has gone to the client, in order and whatever came earlier; with it on, all the filter made of it; a single-line response is swallowed whole if and only if the last command answered in lines was RETR or TOP |
| SessionExchanges.Exchange | src/pop3filter/services/pop3/nio/pop3_client_nio.c:822-1366 | any command and any whole response to it, continuing any run, bring the session back to commands, with log and flag as they then must be |
| SessionExchanges.SingleLineExchange | src/pop3filter/services/pop3/nio/pop3_client_nio.c:1283-1366 | continuing any run, a single-line response gets to the client, if and only if the last command answered in lines was not RETR or TOP |
| SessionExchanges.ResponseLostAfterRetr | src/pop3filter/services/pop3/nio/pop3_client_nio.c:1283-1366 | a run from the beginning in which the answer to NOOP, after RETR, is received and never sent |
| SessionExchanges.ResponseSentAfterCapa | src/pop3filter/services/pop3/nio/pop3_client_nio.c:1047-1055 | the same with CAPA in between: all is sent |
| SessionResponses.CommandsAnsweredInLines | src/pop3filter/services/pop3/pop3.c:95-108 | for any accepted line, in terms of the line itself: CAPA, LANG, RETR and TOP (or TOP and a NUL) in any form, LIST and UIDL without arguments, and no other, are taken to be answered in lines; RETR and TOP alone turn the filter on |
| SessionResponses.StatusLineJudged | src/pop3filter/services/pop3/parsers/pop3_singleline_response_parser.c:397-424 | octets that begin with a signed, CRLF-ended line are accepted as a response |
| SessionResponses.WholeResponse | src/pop3filter/services/pop3/nio/pop3_client_nio.c:1019-1142 | a whole response in one recv() takes the session back to commands, if and only if it is not one in lines whose text ends in an odd number of empty lines |
| SessionResponses.PartOfResponse | src/pop3filter/services/pop3/nio/pop3_client_nio.c:1019-1142 | after some lines of a response, its end missing, more is waited for if and only if it is one in lines |
| SessionResponses.FailureWaitsForMore | src/pop3filter/services/pop3/nio/pop3_client_nio.c:1034-1042 | the one-line answer to a failed command of those (for RETR and TOP what the filter makes of it) is sent on, and then the origin is waited for again |
| Sessions.Pop3.constructor | src/pop3filter/services/pop3/nio/pop3_client_nio.c:253-289 | pop3_new sets up what the runs start from |
| Sessions.Pop3.GreetingSread | src/pop3filter/services/pop3/nio/pop3_client_nio.c:720-767 | on buffers, parser and interests: the specified step |
| Sessions.Pop3.GreetingCwrite | src/pop3filter/services/pop3/nio/pop3_client_nio.c:770-795 | the specified step |
| Sessions.ReadCommand | src/pop3filter/services/pop3/nio/pop3_client_nio.c:836-842 | received octets join the command so far, the builder sees only the new ones, and the contents are the octets taken of them all together |
| Sessions.Pop3.CommandCread | src/pop3filter/services/pop3/nio/pop3_client_nio.c:822-881 | the specified step |
| Sessions.Pop3.CommandSwrite | src/pop3filter/services/pop3/nio/pop3_client_nio.c:963-995 | the specified step |
| Sessions.Pop3.ResponseSread | src/pop3filter/services/pop3/nio/pop3_client_nio.c:1019-1142 | the specified step, in all its branches on command type, end of response and filter |
| Sessions.Pop3.DotDataSread | src/pop3filter/services/pop3/nio/pop3_client_nio.c:1153-1229 | the specified step |
| Sessions.Pop3.DotDataCwrite | src/pop3filter/services/pop3/nio/pop3_client_nio.c:1231-1281 | the specified step, the parser of status lines being shown the octets again |
| Sessions.Pop3.ResponseCwrite | src/pop3filter/services/pop3/nio/pop3_client_nio.c:1283-1366 | the specified step, likewise |
| Sessions.Pop3.CommandInit | src/pop3filter/services/pop3/nio/pop3_client_nio.c:797-820 | the specified arrival |
| Sessions.Pop3.ResponseInit | src/pop3filter/services/pop3/nio/pop3_client_nio.c:998-1016 | the specified arrival |
| Sessions.Pop3.GreetingInit | src/pop3filter/services/pop3/nio/pop3_client_nio.c:668-715 | the specified arrival |
| Sessions.Pop3.DotDataInit | src/pop3filter/services/pop3/nio/pop3_client_nio.c:1144-1151 | the specified arrival |
| Sessions.Pop3.Step | src/pop3filter/services/pop3/nio/pop3_client_nio.c:1369-1460 | one event through the table of states is one step of the specification |
| Sessions.Serve | src/pop3filter/services/pop3/nio/pop3_client_nio.c:558-1419 | a new session taken through any run's events stands where the run has it, so that all the above is true of it |
| SessionLifetime.UnregisterKeeps | src/pop3filter/services/pop3/nio/pop3_client_nio.c:303-320 | one selector entry less: the session goes to the pool, or is freed when pool_size has come to 50, exactly if that was its last; everything else stays |
| SessionLifetime.LastGivenIsNext | src/pop3filter/services/pop3/nio/pop3_client_nio.c:253-322 | the session that goes to the pool last is the next to be taken from it, as if new, and malloc is not asked |
| SessionLifetime.MallocComesLast | src/pop3filter/services/pop3/nio/pop3_client_nio.c:253-289 | malloc is asked only where the pool is empty; where it gives nothing nobody is accepted |
| SessionLifetime.ConnectLeaves | src/pop3filter/services/pop3/nio/pop3_client_nio.c:558-621 | a connection attempt leaves a descriptor open without an entry if and only if fcntl failed, and one entry and one reference more if and only if it goes on |
| SessionLifetime.FinishReturns | src/pop3filter/services/pop3/nio/pop3_client_nio.c:1467-1481 | as a function by itself, finishing a session aborts if and only if its origin's descriptor was left open; otherwise it gives the struct back once (in no run of the program is such a session finished: WholeProgram.LooseIsNotOver) |
| SessionLifetime.RunKeeps | src/pop3filter/services/pop3/nio/pop3_client_nio.c:253-320 | over every run of accepting, connecting and finishing, memory freed being given again or not: references are the number of entries holding the session, every struct made is in one place only (in use, pooled, freed), pool nodes are distinct and no more than pool_size, which is at most 50 |
| SessionLifetime.SizeIsLength | src/pop3filter/services/pop3/nio/pop3_client_nio.c:225-227 | pool_size is the pool's length if and only if nothing has ever been taken from it |
| SessionLifetime.PoolWearsOut | src/pop3filter/services/pop3/nio/pop3_client_nio.c:253-262 | once pool_size is 50 the pool never grows again |
| SessionLifetime.NoEntriesNoSessions | src/pop3filter/services/selector.c:307-329 | with no entries left no session is left, and all memory is in the pool or freed |
| SessionEntries.HangUp | src/pop3filter/services/selector.c:376-410 | unregistering a session's descriptor in the selector makes the close callback with its session, and that is the step of the sessions' world |
| SessionPools.Pool.New | src/pop3filter/services/pop3/nio/pop3_client_nio.c:253-289 | the linked list gives its first node, or malloc is asked; the struct starts with one reference |
| SessionPools.Pool.Destroy | src/pop3filter/services/pop3/nio/pop3_client_nio.c:306-322 | pushed on the list, freed, or one reference less, as specified |
| SessionPools.Pool.Accept | src/pop3filter/services/pop3/nio/pop3_client_nio.c:356-401 | the specified step, nothing where fcntl fails, and going back on it when the selector refuses |
| SessionPools.Pool.Connect | src/pop3filter/services/pop3/nio/pop3_client_nio.c:558-621 | the specified step: one entry and one reference more, or none, or a descriptor left open; an abort exactly where connect() is done at once |
| SessionPools.Pool.Finish | src/pop3filter/services/pop3/nio/pop3_client_nio.c:1467-1481 | aborts exactly where the descriptor was left open; else both are unregistered and the struct returned once |
| SessionPools.Pool.UnregisterAll | src/pop3filter/services/selector.c:307-329 | unregistering every slot leaves no session in use, and loses none |
| WholeProgram.RunKeeps | src/pop3filter/services/pop3/nio/pop3_client_nio.c:356-1481 | over every run of the program (clients accepted, callbacks of sessions, whatever others do with the selector, in any order): the selector's invariant and that of the sessions' lives hold, each session has just the slots its life has it in, and they ask for exactly what the session's state subscribes to |
| WholeProgram.RunAborts | src/pop3filter/services/pop3/nio/pop3_client_nio.c:558-1481 | what happens next aborts the program if and only if it is a callback of a session that has lost its greeting, or one in which connect() is done at once; finishing a session never does |
| SessionsEnd.RunEnds | src/pop3filter/services/pop3/nio/pop3_client_nio.c:1426-1481 | after any run of the program, what happens next ends a session if and only if it is a callback of that session with one of the causes of SessionLedger.EndsExactly; then no struct in use, entry, slot or history of it is left; all other sessions go on as they were |
| SessionsEnd.OthersBegin | src/pop3filter/services/pop3/nio/pop3_client_nio.c:356-401 | what is no callback of a session ends none, and begins one exactly where a client is accepted on a descriptor in range with a struct to be had |
| WholeProgram.AbortedAtOnce | src/pop3filter/services/pop3/nio/pop3_client_nio.c:598-602 | after any run, accepting a client and connecting it to its origin at once is a run that ends in the abort |
| WholeProgram.LooseIsNotOver | src/pop3filter/services/pop3/nio/pop3_client_nio.c:571-573 | over every run: a session whose descriptor was left open by a failed fcntl has failed to connect and is no further than GREETING_CWRITE, so that it is not finished |
| WholeProgram.RunReferences | src/pop3filter/services/pop3/nio/pop3_client_nio.c:586-592 | in every run a session's references are the number of the selector's slots in use for it |
| WholeProgram.CallsSucceed | src/pop3filter/services/selector.c:412-429 | in every run the selector takes any interest that a session sets on its own descriptors |
| WholeProgram.DueIsReported | src/pop3filter/services/selector.c:448-480 | in every run, a callback that a pass of the selector makes on a session's slot is an event its state subscribes to, and there is none for it if and only if the greeting has been lost |
| Passes.PassIsRun | src/pop3filter/services/selector.c:448-480 | after any run, a pass whose callbacks do what can happen in them and do not abort the program continues the run: the sessions' callbacks it makes, each with its own session, are, in order, just the sessions' events in it, the table is left as the run leaves it, and a callback is lacking of others than sessions only |
| Passes.CallbackGoesOn | src/pop3filter/services/selector.c:448-480 | after any run, for a slot of a session and what it asks for there is an event that can happen; it aborts the program if and only if the session has lost its greeting |

## Left out

- MimeMsg.Conservation: says nothing about what comes after ERROR beyond counting octets as dropped.
- Pop3Multi.StepIsNext: what is fed after FIN follows the table, but no theorem is about it.
- Strcmpi.Generate: does not model memory running out, after which the original returns what it has; strings are ASCII.
- MediaFilter.Context.ContentTypeMatch: does not model the rewriting of bodies around it (`stripmime.c:502-752`) or the reading of the lists to filter (`stripmime.c:883-938`).
- MediaFilter.Context.ContentSubtypeMatch: a wildcard behind the head of a list has no parser (`stripmime.c:875-880`), and the original dereferences the null pointer; such lists are excluded.
- Pop3Multi.ReceiveIsRun: of what is reset on FIN only the start of a new message is modelled, not the flags about its content type.
- Buffers.Buffer.ReadAdv: positions stand for pointers into the memory; assertions of the original are preconditions.
- Selectors.Selector.Register: for a descriptor equal to `fd_size` the off-by-one test `ufd > fd_size` lets the original touch memory behind the table; that one is excluded.
- Selectors.Selector.SetInterest: a descriptor in range but not below `fd_size` is excluded; the original does not compare them and reads behind the table.
- Selectors.Selector.HandleIteration: with a table for all descriptors, as `selector_new(1024)` makes it; a callback that made a smaller one grow would leave a pointer into the old memory behind. `pselect` fills in the snapshot from outside; block notifications and their mutex are not modelled.
- Selectors.Selector.UnregisterFd: excludes descriptors in range but not below `fd_size`, where the original reads behind the table; the close callback is recorded, with its data, and taken not to change the table.
- StateMachines.StateMachine.Handler: the close event (`stm.c:89-94`) is not modelled; no session uses it.
- SessionRuns.RunRelays: what the external filter makes of a response is any octets; that they all go out, and nothing else does, is proved.
- WholeProgram.RunKeeps: the selector calls of a step are given by what they leave in the slots; the answer of the selector is part of a connection attempt only, and for interests set on a session's descriptors it is success (WholeProgram.CallsSucceed).
- Passes.PassIsRun: of callbacks that are not sessions' it is taken that they accept clients and use the selector on descriptors that are no session's, and do not close the descriptor they are about and accept a client under its number.
- SessionRuns.StepSubscribes: the branches that go from PROCESS_CONNECTION straight to GREETING_CWRITE (`pop3_client_nio.c:475-505`) send from a member of a union that has not been set, and are not modelled.
- SessionRuns.TailIsDropped: PIPE_DREAM and the pipelining flags are not modelled; no step of the original comes to that state.
- The alternative buffer `aux_buffer`, which shares memory with the read buffer, is only ever reset and is not modelled.
- `parser_consume`, which no session uses.
- The table of all-zero classes has 256 entries, as `parser.h:63` documents, not the 255 it is declared with.
- Event type numbers, the encoding of `when` values as integers and the length of an event's data field: these are datatypes here.
- Sockets, signals, threads, pipes, processes, the administration protocol, options, logging and printing.
- `list.c`, `stack.c`, and the older blocking proxy (`proxy.c`, `pop3_parser.c`, `encrypt.c`).
