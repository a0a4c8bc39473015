# A model of the TecnicoFS server's request worker

The TecnicoFS server runs a pool of worker threads. Each worker loops in
`applyCommands` (server/main.c). A loop pass:

- receives one datagram of any size, keeps at most its first 99 bytes, and NUL-terminates them;
- splits the frame with `sscanf` into an opcode byte and one or two fields;
- calls the one filesystem operation the opcode selects (`create`, `lookup`, `delete`, `move` or `print_tecnicofs_tree`) and sends the integer result back.

A frame the server refuses ends the whole process.

Two shared variables keep a print of the tree apart from commands that change it: the flag `print` and the counter `threadsRunning`. A worker updates them in three critical sections: entry, print and completion.

The project has four modules, besides `Wrappers`, which holds an `Option` type:

- `CScan`: the part of the C library the worker relies on. A C string ends at its first NUL. `isspace` is taken in the C locale. It also holds the three `sscanf` directives the formats use: a blank, `%c` and `%s`.
- `Requests`: receiving a frame, splitting it, the dispatch switch, and the frame a client writes for each command.
- `Barrier`: the step function on the two shared variables and a trace semantics over any interleaving of steps. It also holds `PrintGate`, a class whose fields are the two variables and which has one method per atomic step.
- `Worker`: one pass of the loop, as a method on a `PrintGate`.

The waits (`pthread_cond_wait` loops) become preconditions: a step is taken only in the states in which its wait loop would exit.

A condition wait releases the mutex, so the print critical section is two atomic steps: the announcement (`print = WAITING`), and the print proper once the wait is over. The model reproduces three behaviours of the code as written:

- the print proceeds once at most one changing command is counted, not zero;
- a completion signals a waiting print only when the counter reaches zero;
- the tree is printed while the mutex is held.

`PrintMayRunBesideMutator` and `CompletionAtOneDoesNotSignal` exhibit the first two on concrete schedules.

## Model

| member | source | states |
|---|---|---|
| CScan.Text | server/main.c:49 | the C string of a buffer is its prefix before the first NUL; it holds no NUL, and the buffer has a NUL right after it when it is shorter than the buffer |
| CScan.SpaceEnd | server/main.c:58 | a blank directive skips a maximal run of white space, possibly empty |
| CScan.WordEnd | server/main.c:58 | `%s` takes a maximal run of non-white-space bytes |
| CScan.Scan | server/main.c:58 | `sscanf` assigns at most one item per directive, and never an empty item |
| CScan.Assigned | server/main.c:57-60 | `sscanf` returns EOF (-1) exactly when no item is assigned, otherwise the number of items, at most one per directive; with a format that opens with `%c`, EOF exactly when the C string is empty |
| CScan.ScanRequest | server/main.c:57-60 | a "%c %s x" format reads the first byte, then the word after the white space that follows it, then the last item from the first non-white-space byte after that word |
| CScan.WordIn | server/main.c:58 | a `%s` item read from a C string is non-empty and holds neither white space nor NUL |
| Requests.Received | server/main.c:43 | `recvfrom` yields -1 on error; otherwise the datagram's length when it is under 99 bytes, and exactly 99 when it is longer |
| Requests.Accept | server/main.c:43-49 | the worker stops exactly when `recvfrom` yields zero or less; otherwise the buffer holds 1 to 99 received bytes, a prefix of the datagram, followed by a NUL at index `c` |
| Requests.FormatFor | server/main.c:57-60 | the format is "%c %s %s" when the first byte is 'm', otherwise "%c %s %c"; its effect is stated by `FieldsShape` |
| Requests.NumTokens | server/main.c:58-60 | `numTokens`, what `sscanf` returns for the buffer with the chosen format; `OpcodeIsFirstField` states it is the item count, or EOF for an empty C string |
| Requests.Decode | server/main.c:57-131 | the worker's decision for a buffer: the switch applied to the items `sscanf` assigns; the `Decode*` lemmas below state each outcome as an if-and-only-if |
| Requests.Execute | server/main.c:79-125 | the one filesystem call a command selects, `lookup` with mode 'u'; `DispatchOfFrame` states it per frame |
| Requests.FieldsShape | server/main.c:57-60 | the items are the opcode byte, the first word after it, and a third item only when a non-white-space byte follows that word; for 'm' the third item is a word, otherwise it is one byte |
| Requests.FieldsAreWords | server/main.c:57-60 | the name, and the destination of a move, are words |
| Requests.OpcodeIsFirstField | server/main.c:57-60 | the opcode item is the first byte of the buffer, which the entry and completion sections also test; at most three items are read and none is empty; `sscanf` returns their number, or EOF exactly for an empty C string |
| Requests.DecodedCommandIsWellFormed | server/main.c:106-108 | every name in a command that is carried out is a word, and only a frame whose first byte is 'm' moves |
| Requests.ClassifyWellFormed | server/main.c:79-131 | a command the switch carries out is well formed whenever the second item, and for an 'm' frame the third, are words |
| Requests.Classify | server/main.c:62-131 | the switch refuses as too few exactly fewer than two items; it carries out only the command named by the opcode item, only when at least two items were read, and a create or a move only when three were |
| Requests.DecodedOpcode | server/main.c:79-131 | a frame is carried out as the command its opcode byte names |
| Requests.FewTokens | server/main.c:62-65 | fewer than two items are read exactly when nothing but white space follows the opcode byte |
| Requests.TypeFieldIsOneByte | server/main.c:60 | the third item of a non-move frame is a single byte, the type |
| Requests.ClassifyCreate | server/main.c:80-93 | the switch creates a file exactly for three items led by 'c' with type byte 'f', a directory exactly with 'd', and is fatal exactly for any other type byte |
| Requests.DecodeCreate | server/main.c:80-93 | opcode 'c' creates a file exactly when the third item is "f", and a directory exactly when it is "d" |
| Requests.DecodeBadType | server/main.c:90-92 | a create whose type byte is neither 'f' nor 'd' is fatal, and nothing else is refused as an invalid node type |
| Requests.ClassifyNamed | server/main.c:95-125 | the switch looks up, deletes or prints exactly for two or more items led by 'l', 'd' or 'p', with the second item as the name |
| Requests.DecodeOpcodes | server/main.c:95-125 | 'l' looks the name up, 'd' deletes it and 'p' prints the tree to it, each exactly when at least two items are read and the opcode byte names it |
| Requests.ClassifyMove | server/main.c:106-108 | the switch moves exactly for three items led by 'm', from the second item to the third |
| Requests.DecodeMove | server/main.c:57-58 | opcode 'm' moves the source to the destination exactly when three items are read |
| Requests.ClassifyRefusals | server/main.c:62-65 | the switch refuses fewer than two items as too few, and any first byte other than c, l, d, m and p as unknown; it reads an unset variable exactly for 'c' or 'm' with two items |
| Requests.DecodeRefusals | server/main.c:62-65 | fewer than two items is fatal, and is the only TooFewTokens case; once two are read, an unknown opcode byte (leading white space included) is fatal; the result is undefined exactly for a 'c' or 'm' frame with two items |
| Requests.DispatchOfFrame | server/main.c:79-125 | a carried-out frame calls `create` with the second item and the type its third item names, `lookup` with the second item and 'u', `delete` and `print_tecnicofs_tree` with the second item, and `move` from the second item to the third |
| Requests.FieldsLayoutTwo | server/main.c:60 | a frame laid out as opcode, white space and word is read as the opcode and the word |
| Requests.FieldsLayoutMove | server/main.c:58 | a move laid out as opcode, white space, word, white space and word is read as the opcode and the two words |
| Requests.FieldsLayoutThree | server/main.c:60 | any other frame laid out as opcode, white space, word, white space and tail is read as the opcode, the word and the tail's first byte |
| Requests.TextOfFrame | server/main.c:49 | a buffer without a NUL before its terminator holds the whole text as its C string |
| Requests.RenderText | server/main.c:49 | a frame a client writes for a command holds no NUL, so the terminator does not cut it |
| Requests.RenderCreateFields | server/main.c:60 | "c name t" is read as the opcode, the name and the type byte |
| Requests.RenderMoveFields | server/main.c:58 | "m source target" is read as the opcode, the source and the target |
| Requests.RenderNameFields | server/main.c:60 | "x name" is read as the opcode and the name |
| Requests.RenderFields | server/main.c:57-60 | the items read from a rendered frame are the command's opcode and fields, in order |
| Requests.ClassifyRendered | server/main.c:79-131 | the switch carries out the command whose fields it is given |
| Requests.DecodeRender | server/main.c:57-131 | decoding the frame a client writes for any well-formed command gives that command back, terminated or not |
| Requests.ClientRoundTrip | server/main.c:43-131 | a request shorter than the buffer is received whole, terminated, and carried out as the command the client meant |
| Barrier.Next | server/main.c:68-143 | what each atomic step does to `print` and `threadsRunning` (lines 74, 115, 121, 138); its effect is stated by the four lemmas below |
| Barrier.Enabled | server/main.c:68-143 | the wait loops as guards: entry only while the flag is OFF (line 69), the print only once at most one command is counted (line 117), a completion only after its entry |
| Barrier.EntryCountsMutators | server/main.c:68-75 | entry leaves the flag alone and raises the counter by one exactly when the opcode is neither 'l' nor 'p'; otherwise it changes nothing |
| Barrier.CompletionUndoesEntry | server/main.c:135-143 | completion lowers the counter under the same opcode test as entry, so a matched pair leaves the counter as it was, whatever happened to the flag in between |
| Barrier.PrintKeepsCounter | server/main.c:113-124 | the print section sets the flag to WAITING, ends with it OFF, and leaves the counter untouched |
| Barrier.SignalOnlyAtZero | server/main.c:140-142 | a completion signals `canPrint` only when the counter has reached zero and a print is waiting; for a counted command, only when the counter was one |
| Barrier.StepKeepsInv | server/main.c:68-143 | every step that can be taken keeps the counter equal to the number of changing commands between entry and completion |
| Barrier.RunKeepsInv | server/main.c:68-143 | over any schedule of steps, the counter equals the number of changing commands between entry and completion |
| Barrier.InvCounterNonNegative | server/main.c:135-138 | a counter that counts the changing commands in progress is never negative |
| Barrier.CounterNeverNegative | server/main.c:135-138 | over any schedule from the initial state, the counter never becomes negative |
| Barrier.PrintSeesAtMostOneMutator | server/main.c:117-120 | whenever the tree can be printed, at most one changing command is between entry and completion |
| Barrier.CompletionUndoesEntryIn | server/main.c:135-143 | the completion of a command undoes its entry, on the counter and on the set of active commands |
| Barrier.MatchedPairRestores | server/main.c:68-75 | an entry while no print waits, followed by the completion of the same command, gives back the configuration it started from |
| Barrier.PrintMayRunBesideMutator | server/main.c:117 | there is a schedule in which the print proceeds while a create is between entry and completion |
| Barrier.CompletionAtOneDoesNotSignal | server/main.c:140 | there is a schedule in which a completion brings the counter to one, sends no signal, and yet the waiting print could proceed |
| Barrier.PrintGate.constructor | server/main.c:23 | the globals start as OFF and 0 |
| Barrier.PrintGate.Enter | server/main.c:68-75 | the entry section, taken only while the flag is OFF, performs the entry step on the globals, keeps the counter invariant, and leaves the counter non-negative |
| Barrier.PrintGate.AnnouncePrint | server/main.c:113-118 | the print section sets the flag to WAITING and must wait exactly while more than one command is counted; the counter stays non-negative |
| Barrier.PrintGate.PrintTree | server/main.c:117-124 | once at most one command is counted, the tree is printed with the mutex held, the result is `print_tecnicofs_tree(name)`, at most one changing command was in progress, and the flag goes back to OFF |
| Barrier.PrintGate.Complete | server/main.c:135-143 | the completion section performs the completion step, leaves the counter non-negative, and signals exactly when the counter is zero and a print is waiting |
| Worker.CountedExactlyMutators | server/main.c:73 | for a command that is carried out, the entry test on the first byte counts it exactly when it changes the tree; a frame refused by the switch has been counted |
| Worker.Carry | server/main.c:79-143 | the reply is the result of the filesystem call the command selects, and afterwards the globals are as after the completion step |
| Worker.Serve | server/main.c:43-143 | one loop pass stops exactly when nothing is received, exits exactly on a refused frame with that refusal, and otherwise replies with the selected call's result; the globals come back unchanged, except after a refusal by the switch, where the entry step stays counted |

## Left out

- Sockets, addresses, `recvfrom` and `sendto` themselves (server/main.c:43, 133, 206-248). A reception is a parameter. The reply is the value `Serve` returns.
- The thread pool, `pthread_cond_wait`/`signal`/`broadcast`, and fairness and liveness (server/main.c:150-199). Interleavings appear only as sequences of atomic steps in `Barrier.Run`. `Barrier.Enabled` over-approximates which steps a thread can take: a print's announcement, print and completion are not ordered per thread. It still admits every real schedule, so its safety lemmas hold for the server.
- The filesystem operations behind `create`, `lookup`, `delete`, `move` and `print_tecnicofs_tree`: fs/operations.h is not part of this model. They are the fields of `Requests.Filesystem`, functions the model does not interpret.
- `printf`/`fprintf` logging, and `exit` beyond the `Fatal` outcome.
- `verifyInput` and `main` (server/main.c:160-170, 268-303), including that `atoi(argv[1])` runs before the argument count is checked.
- Bytes are Dafny `char`s. The model does not restrict them to 0-255.
- Worker.Serve: the condition each wait loop waits for is a precondition of the pass. So are the entry wait (flag OFF) and the print wait (at most one counted command). The pass itself runs without interruption. A frame whose outcome is `Unspecified` is excluded: C gives no meaning to reading the uninitialised `type` or `pathdest`.
- Worker.Serve: the completion's signal is computed by `PrintGate.Complete`, but a pass does not report it. In an uninterrupted pass no print waits, so it is never raised.
- Barrier.PrintGate.AnnouncePrint: the print section is split at its wait, because the wait releases the mutex. `PrintGate.PrintTree` is the part after the wait.
