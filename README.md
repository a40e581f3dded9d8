# nvim-gdb, modelled in Dafny

nvim-gdb is a Neovim front-end for GDB, LLDB, pdb and bashdb. The plugin
drives the debugger in a terminal buffer, reads its console output with a
small state machine to follow the program, and marks the current line and
the breakpoints with signs. Commands the plugin issues on its own (listing
breakpoints, resolving a source path) travel through a side channel: a
proxy runs the debugger in a pseudo terminal, injects the command, conceals
the debugger's echo and reply from the user, and sends the reply back.

This project models that logic and proves what it promises:

- the stream filters that conceal a side command's reply until the prompt
  (`StreamFilters`, `LegacyStreamFilter`, and `ProxyStreamFilter` with its
  control-sequence-free copy and offset tables), and the two
  control-sequence scanners (`ControlSequences`);
- the three generations of the proxy: `ProxyBase` (lib/proxy/base.py, with
  its request queue and the repeat-last-command bookkeeping), `PtyProxy`
  (lib/base_proxy.py with lib/gdb_proxy.py) and `LegacyProxy`
  (lib/BaseProxy.py with lib/bashdbproxy.py), over the shared
  `FilterStack`, and `PdbProxy` (`_PdbFeatures` of lib/pdbproxy.py);
- the breakpoint-listing parsers of pdb, bashdb, GDB (`GdbCommands`) and
  LLDB (`LldbCommands`, with its request server), the source-path
  resolution of lib/gdb_find_source.py (`FindSource`);
- the console state machines (`Parsers`, `Scm`) and the backend tables
  (`Backends`);
- the plugin's bookkeeping: reference-counted error formats (`EfmMgr`), the
  current-line sign (`Cursor`), breakpoint signs (`Breakpoint`), the
  configuration with keymap conflict resolution (`Config`), the keymaps
  (`Keymaps`) and the per-tab storage (`TStorage`);
- the test harness's screen grid (`SpyUI`) and engine helpers (`Engine`),
  and the arithmetic of the C++ debuggee (`Debuggee`).

Python dictionaries are association lists in insertion order (`Dict`),
since several results depend on that order. Regular expressions go through
an abstract engine (`Common.Search`): a pattern and a text give the span of
the first match, if any. Byte strings are `string`, one character per byte,
and `decode('utf-8')` is taken as the identity, which is exact for ASCII
input only (see "## Left out").
An object whose methods change its fields is a class; each of its methods
is proved equal to a function on a value of its state, and the properties
are proved as lemmas about those functions. Neovim, the debuggers, sockets,
pseudo terminals and clocks are not attached: what they would report is a
parameter, and what the code sends them is recorded in order.

## Model

| member | source | states |
|---|---|---|
| StreamFilters.WithFinishMatcher | lib/stream_filter.py:29-31 | the new matcher is set and nothing held back is lost |
| StreamFilters.FeedConserves | lib/stream_filter.py:37-53 | no byte is lost or invented: what was held plus what is fed equals what is released plus what is still held |
| StreamFilters.FeedArmed | lib/stream_filter.py:37-53 | an armed filter conceals everything up to the end of the first match and shows the rest, then is spent; without a match it shows nothing and keeps accumulating |
| StreamFilters.TimeoutReleases | lib/stream_filter.py:55-61 | a timeout releases exactly what is held and leaves the filter armed as it was |
| StreamFilters.FeedAllConserves | lib/stream_filter.py:37-53 | over any sequence of chunks, everything fed is released or still held, in order |
| StreamFilters.SpentPassesThrough | lib/stream_filter.py:37-61 | once the matcher has fired, every later chunk is shown unchanged and a timeout releases nothing |
| StreamFilters.PassthroughIdentity | lib/stream_filter.py:4-14 | the pass-through filter shows every chunk unchanged and holds nothing |
| StreamFilters.UpdateKeepsBuffer | lib/stream_filter.py:29-52 | bytes fed before a matcher update are still concealed by the new matcher's match |
| StreamFilters.LiteralNoMatch | lib/stream_filter.py:42-53 | a literal matcher whose first character has not been fed keeps accumulating and shows nothing |
| StreamFilters.LiteralMatchAtEnd | lib/stream_filter.py:42-52 | a literal matcher fed its own text conceals everything held and the text |
| StreamFilters.SmokeTest | lib/test_stream_filter.py:6-12 | the echo, the reply and the GDB prompt are concealed together once the prompt arrives |
| StreamFilters.TimeoutTest | lib/test_stream_filter.py:15-20 | a timeout releases the two chunks held back and keeps the matcher |
| StreamFilters.UpdateFinishTest | lib/test_stream_filter.py:23-30 | after changing the matcher to the GDB prompt, the new prompt ends the concealed text |
| StreamFilters.StreamFilter.constructor | lib/stream_filter.py:24-27 | an empty buffer armed with the matcher |
| StreamFilters.StreamFilter.UpdateFinishMatcher | lib/stream_filter.py:29-31 | as `WithFinishMatcher` |
| StreamFilters.StreamFilter.Filter | lib/stream_filter.py:37-53 | as `Feed` |
| StreamFilters.StreamFilter.Timeout | lib/stream_filter.py:55-61 | as `Expire` |
| LegacyStreamFilter.StreamFilter.constructor | lib/StreamFilter.py:18-21 | an empty buffer armed with the matcher, as in lib/stream_filter.py |
| LegacyStreamFilter.StreamFilter.UpdateFinishMatcher | lib/StreamFilter.py:24-25 | as `StreamFilters.WithFinishMatcher` |
| LegacyStreamFilter.StreamFilter.Filter | lib/StreamFilter.py:30-46 | as `StreamFilters.Feed`, so every property proved there holds |
| LegacyStreamFilter.StreamFilter.Timeout | lib/StreamFilter.py:48-55 | as `StreamFilters.Expire` |
| ProxyStreamFilter.MapFrom | lib/proxy/stream_filter.py:87-89 | the position just after the e-th visible byte lies within the buffer |
| ProxyStreamFilter.MapFromSplit | lib/proxy/stream_filter.py:87-90 | the original bytes up to the mapped position show exactly the first e visible bytes, so the cut never falls inside a control sequence |
| ProxyStreamFilter.MapOffset | lib/proxy/stream_filter.py:87-90 | the same for the whole buffer: its prefix up to the position shows the first e visible bytes |
| ProxyStreamFilter.MapFromIdentity | lib/proxy/stream_filter.py:87-90 | in text without control sequences the e-th visible byte is the e-th byte |
| ProxyStreamFilter.ChunksIncreasing | lib/proxy/stream_filter.py:58-75 | both offset tables strictly increase |
| ProxyStreamFilter.TablesFromCorrect | lib/proxy/stream_filter.py:62-75 | whatever the loop has built so far, finishing it yields a correct table |
| ProxyStreamFilter.Push | lib/proxy/stream_filter.py:67-74 | `append` adds the offset at the end |
| ProxyStreamFilter.ChunkTable | lib/proxy/stream_filter.py:55-75 | the visible copy is the buffer without control sequences, each chunk of it is a run of the buffer at the recorded offsets, and every visible position maps back through the tables |
| ProxyStreamFilter.BisectLeft | lib/proxy/stream_filter.py:87 | the first index whose entry is not below x: every earlier entry is below it |
| ProxyStreamFilter.OffsetRest | lib/proxy/stream_filter.py:87-89 | the chunk found by the bisection holds the match end, the index is positive exactly when the end is, and the computed offset is the mapped position |
| ProxyStreamFilter.FeedVisibleSplits | lib/proxy/stream_filter.py:44-93 | a match on the visible text conceals the visible text up to its end and shows the original bytes after the mapped position; an empty match fails the assertion; without a match nothing is shown |
| ProxyStreamFilter.FeedVisiblePlain | lib/proxy/stream_filter.py:44-93 | on a buffer without control sequences it behaves as lib/stream_filter.py |
| ProxyStreamFilter.StreamFilter.constructor | lib/proxy/stream_filter.py:31-34 | an empty buffer armed with the matcher |
| ProxyStreamFilter.StreamFilter.UpdateFinishMatcher | lib/proxy/stream_filter.py:36-38 | as `StreamFilters.WithFinishMatcher` |
| ProxyStreamFilter.StreamFilter.Filter | lib/proxy/stream_filter.py:44-93 | as `FeedVisible` |
| ProxyStreamFilter.StreamFilter.Timeout | lib/proxy/stream_filter.py:95-101 | as `StreamFilters.Expire` |
| ControlSequences.NextFinal | lib/proxy/stream_filter.py:28-29 | the first terminator from k on, or the end |
| ControlSequences.Next | lib/proxy/stream_filter.py:63 | the leftmost control sequence from a position: it starts at a `[`, ends at the first terminator after it, and no `[` comes before it |
| ControlSequences.NextNone | lib/gdb_proxy.py:20 | no control sequence is found exactly when none occurs |
| ControlSequences.RemoveFrom | lib/gdb_proxy.py:31 | removing sequences never lengthens the text |
| ControlSequences.Remove | lib/bashdbproxy.py:31 | removing sequences never lengthens the text |
| ControlSequences.RemoveFromClean | lib/gdb_proxy.py:31 | removing control sequences leaves none behind |
| ControlSequences.RemoveClean | lib/bashdbproxy.py:58 | a text without control sequences is left as it is |
| ControlSequences.RemoveIdempotent | lib/gdb_proxy.py:31 | removing them twice is removing them once |
| ControlSequences.CleanAnswer | lib/gdb_proxy.py:25-31 | the answer to a side command holds no `[`...`m` sequence and is no longer than the stripped answer |
| Common.CommandArgument | lib/bashdbproxy.py:68 | the argument of a side command is what follows its first 15 characters, or nothing for a shorter command; lib/base_proxy.py:134 slices the same way |
| Common.HandleCommandAnswer | lib/proxy/base.py:132 | the answer is the reply between the echoed command and the last line break, stripped, so it neither starts nor ends with white space; lib/base_proxy.py:127 and lib/bashdbproxy.py:56 slice the same way |
| FilterStack.Release | lib/base_proxy.py:198-204 | a timeout leaves only the passthrough, and shows what the top filter held back, or nothing when it was waiting for nothing; lib/BaseProxy.py:175-181 does the same |
| FilterStack.PushOnlyOne | lib/base_proxy.py:102-114 | a filter is pushed exactly when the passthrough is alone; a rejected push changes nothing; timing out the passthrough shows nothing; lib/BaseProxy.py:106-118 does the same |
| FilterStack.FeedTop | lib/base_proxy.py:206-210 | feeding keeps the passthrough at the bottom; only a filter above it can capture, and the passthrough shows its input as it is; lib/BaseProxy.py:183-187 does the same |
| ProxyBase.Init | lib/proxy/base.py:64-72 | the passthrough filter alone, an empty queue and no last command |
| ProxyBase.AfterTimeout | lib/proxy/base.py:189-196 | the top filter's held-back text goes to the terminal, only the passthrough remains, and nothing else changes |
| ProxyBase.SetFilterOnlyOne | lib/proxy/base.py:104-115 | at most one side command at a time: the filter is pushed exactly when only the passthrough is stacked, and a rejected call changes nothing |
| ProxyBase.SkipDigits | lib/proxy/base.py:137 | the digit run of `(\d+)` |
| ProxyBase.FirstLine | lib/proxy/base.py:137 | what `(.*)` matches: a prefix without a newline |
| ProxyBase.ParseFormatRequest | lib/proxy/base.py:137-140 | a request `<id> <name> <rest>` parses back into its id, name and rest, whatever follows its first line |
| ProxyBase.ParseFrame | lib/proxy/base.py:137-140 | the same for the request framed with what follows it |
| ProxyBase.ParseRequestShape | lib/proxy/base.py:137-140 | whatever parses was written in that form |
| ProxyBase.ParseRequestSome | lib/proxy/base.py:137 | a parse succeeds only with digits, a space, a name and another space |
| ProxyBase.AfterFilterCommand | lib/proxy/base.py:135-147 | filtering a command changes only the filter stack |
| ProxyBase.FilterCommandSpec | lib/proxy/base.py:135-147 | a `handle-command` request pushes a prompt-waiting filter with its id and runs its argument, and fails the assertion when a filter is already pushed; any other command runs as it is and changes nothing |
| ProxyBase.AfterSendCommand | lib/proxy/base.py:173-180 | sending changes only the filters and what is written to the debugger, which only grows |
| ProxyBase.SendCommandSpec | lib/proxy/base.py:173-180 | with only the passthrough stacked, the head request is sent: a `handle-command` pushes its prompt filter and has its argument written, any other command is written as it is, each followed by a newline and nothing when empty; the outcome is success |
| ProxyBase.ReceiveWhileBusy | lib/proxy/base.py:160-171 | a request arriving while another is queued is only queued |
| ProxyBase.ReceiveWhenIdle | lib/proxy/base.py:169-171 | a request arriving to an empty queue is queued and sent at once; a plain command is written followed by a newline |
| ProxyBase.TimeoutStallsQueue | lib/proxy/base.py:169-196 | a timeout drops the side filter but keeps its request at the head of the queue, so later requests are queued without being sent |
| ProxyBase.FeedTop | lib/proxy/base.py:201-203 | feeding the top filter keeps the stack's height and the rest of the state; only a side filter captures |
| ProxyBase.Complete | lib/proxy/base.py:204-221 | completing a request changes only the filters, the queue, the replies and the debugger input |
| ProxyBase.AfterWriteStdout | lib/proxy/base.py:198-221 | `write_stdout` keeps the stack well formed |
| ProxyBase.WriteStdoutPassthrough | lib/proxy/base.py:198-203 | with only the passthrough the debugger's output is shown as it is and nothing else changes |
| ProxyBase.WriteStdoutWaits | lib/proxy/base.py:198-204 | while the side filter waits for the prompt nothing is shown or answered and the output is held back |
| ProxyBase.CompleteAnswers | lib/proxy/base.py:208-221 | the head of the queue is answered with the processed reply under the filter's id and dropped; with nothing left nothing more is sent; otherwise the new head is sent: a plain command is written followed by a newline, a `handle-command` pushes its prompt filter and has its argument written |
| ProxyBase.WriteStdoutCaptures | lib/proxy/base.py:198-221 | when the side filter captures the reply, it is popped, what follows the prompt is shown and the request completed |
| ProxyBase.NextEol | lib/proxy/base.py:249 | the first `\r` or `\n` from k on, or the end |
| ProxyBase.Cut | lib/proxy/base.py:252-253 | a completed line is cut one byte past its line ending, clamped to the buffer |
| ProxyBase.TakeLines | lib/proxy/base.py:248-253 | after the loop no line ending stays buffered and the buffer only shrinks |
| ProxyBase.TakeLinesNone | lib/proxy/base.py:248-251 | with no line ending the loop changes nothing |
| ProxyBase.TakeLinesSuffix | lib/proxy/base.py:248-253 | the last command taken ends a line, and it and the leftover are the end of the buffer, in that order |
| ProxyBase.CutLine | lib/proxy/base.py:252-253 | the line cut ends with its line ending or one byte after it, and with what follows makes up the buffer |
| ProxyBase.TakeLinesClean | lib/proxy/base.py:248-253 | the leftover never holds a line ending |
| ProxyBase.StdinReadSpec | lib/proxy/base.py:231-253 | the user's bytes go to the debugger, except that a lone line ending repeats the last command when there is one; with no last command the lone line ending itself is written; a lone line ending empties the buffer and keeps the last command; no line ending stays buffered; nothing else changes |
| ProxyBase.TurnValid | lib/proxy/base.py:149-171 | the stack invariant survives every turn |
| ProxyBase.Base.constructor | lib/proxy/base.py:64-72 | the state of `Init` |
| ProxyBase.Base.Timeout | lib/proxy/base.py:189-196 | as `AfterTimeout` |
| ProxyBase.Base.SetFilter | lib/proxy/base.py:104-115 | as `AfterSetFilter` |
| ProxyBase.Base.FilterCommand | lib/proxy/base.py:135-147 | as `AfterFilterCommand` |
| ProxyBase.Base.SendCommand | lib/proxy/base.py:173-180 | as `AfterSendCommand` |
| ProxyBase.Base.ReceiveCommand | lib/proxy/base.py:160-171 | as `AfterReceiveCommand` |
| ProxyBase.Base.WriteStdout | lib/proxy/base.py:198-221 | as `AfterWriteStdout` |
| ProxyBase.Base.CompleteRequest | lib/proxy/base.py:208-221 | as `Complete` |
| ProxyBase.Base.StdinRead | lib/proxy/base.py:231-253 | the loop takes completed lines off the buffer one at a time, as `AfterStdinRead` |
| ProxyBase.Base.Turn | lib/proxy/base.py:149-171 | one turn of the loop, as `AfterTurn` |
| PtyProxy.Init | lib/base_proxy.py:58-61 | the passthrough alone and no sender yet |
| PtyProxy.AfterTimeout | lib/base_proxy.py:198-204 | the top filter's held-back text goes to the terminal, only the passthrough remains, nothing else changes |
| PtyProxy.AfterSetFilter | lib/base_proxy.py:102-114 | setting a filter changes only the stack |
| PtyProxy.SetFilterOnlyOne | lib/base_proxy.py:102-114 | the filter is pushed exactly when only the passthrough is stacked; a rejected call changes nothing |
| PtyProxy.VerbHandleCommand | lib/base_proxy.py:132-133 | the first word is `handle-command` exactly when the command starts with it followed by white space or nothing |
| PtyProxy.Translate | lib/gdb_proxy.py:33-37 | the command run is the argument after `handle-command `, for GDB prefixed with `server ` |
| PtyProxy.HandlerOf | lib/gdb_proxy.py:37-39 | a `handle-command` always installs a real handler |
| PtyProxy.AfterFilterCommand | lib/base_proxy.py:130-139 | filtering changes only the stack |
| PtyProxy.FilterCommandSpec | lib/gdb_proxy.py:33-41 | a `handle-command` pushes a prompt-waiting filter and runs the translated command, or runs nothing when a filter is already pushed; any other command runs as it is and changes nothing |
| PtyProxy.AfterReceiveCommand | lib/base_proxy.py:177-189 | a datagram records its sender; an empty one raises IndexError |
| PtyProxy.Handle | lib/gdb_proxy.py:25-31 | the passthrough's handler makes nothing, any other handler an answer |
| PtyProxy.AfterWriteStdout | lib/base_proxy.py:206-218 | at most one datagram is sent, and the sender and the debugger input are kept |
| PtyProxy.WriteStdoutPassthrough | lib/base_proxy.py:206-211 | with the passthrough alone the debugger's output is shown as it is |
| PtyProxy.WriteStdoutCaptures | lib/base_proxy.py:206-218 | a captured reply pops the filter, shows what follows the prompt and sends the handler's answer to the last sender |
| PtyProxy.AfterStdinRead | lib/base_proxy.py:228-230 | the user's keys go to the debugger as they are |
| PtyProxy.AfterTurn | lib/base_proxy.py:148-189 | one pass keeps the proxy sound |
| PtyProxy.StdinWaits | lib/base_proxy.py:155-157 | user input waits while a side command runs |
| PtyProxy.TurnAnswerable | lib/base_proxy.py:148-218 | every pass keeps the proxy answerable, and the only failure is an empty datagram |
| PtyProxy.BaseProxy.constructor | lib/base_proxy.py:58-61 | the state of `Init` |
| PtyProxy.BaseProxy.Timeout | lib/base_proxy.py:198-204 | as `AfterTimeout` |
| PtyProxy.BaseProxy.SetFilter | lib/base_proxy.py:102-114 | as `AfterSetFilter` |
| PtyProxy.BaseProxy.FilterCommand | lib/base_proxy.py:130-139 | as `AfterFilterCommand` |
| PtyProxy.BaseProxy.ReceiveCommand | lib/base_proxy.py:177-189 | as `AfterReceiveCommand` |
| PtyProxy.BaseProxy.WriteStdout | lib/base_proxy.py:206-218 | as `AfterWriteStdout` |
| PtyProxy.BaseProxy.StdinRead | lib/base_proxy.py:228-230 | as `AfterStdinRead` |
| PtyProxy.BaseProxy.Process | lib/base_proxy.py:148-189 | one pass of `_process`, as `AfterTurn` |
| LegacyProxy.Init | lib/BaseProxy.py:54-55 | the passthrough alone is stacked |
| LegacyProxy.Location | lib/bashdbproxy.py:34-40 | a recognised location is a nonempty file name without a colon, a colon and a run of digits, and splits back into those two parts |
| LegacyProxy.LocationFormat | lib/bashdbproxy.py:34-40 | every field of that shape is recognised and split at its colon |
| LegacyProxy.SplitFive | lib/bashdbproxy.py:38 | a five-column bashdb row splits back into its five columns |
| LegacyProxy.RowFormat | lib/bashdbproxy.py:36-49 | a row yields its line and id exactly when it is enabled (`y`) and in the requested file |
| LegacyProxy.Parse | lib/bashdbproxy.py:36-49 | every line of the reply is parsed on its own, in order |
| LegacyProxy.ProcessInfoBreakpoints | lib/bashdbproxy.py:24-51 | the loop builds the table of the parsed rows, with each line number once |
| LegacyProxy.AfterTimeout | lib/BaseProxy.py:175-181 | the held-back text goes to the terminal, only the passthrough remains, nothing else changes |
| LegacyProxy.AfterSetFilter | lib/BaseProxy.py:106-118 | setting a filter changes only the stack |
| LegacyProxy.SetFilterOnlyOne | lib/BaseProxy.py:106-118 | the filter is pushed exactly when only the passthrough is stacked; a rejected call changes nothing |
| LegacyProxy.AfterFilterCommand | lib/bashdbproxy.py:60-72 | filtering changes only the stack |
| LegacyProxy.FilterCommandSpec | lib/bashdbproxy.py:60-72 | `info-breakpoints FILE` pushes a prompt filter and runs `info breakpoints`, without FILE raises IndexError; `handle-command` runs its argument; a rejected push runs nothing; anything else runs as it is |
| LegacyProxy.AfterReceiveCommand | lib/BaseProxy.py:157-166 | a datagram records its sender; the translated command goes to the debugger with a newline unless it is empty |
| LegacyProxy.Handle | lib/bashdbproxy.py:53-70 | only the passthrough has no handler; every side command makes an answer |
| LegacyProxy.AfterWriteStdout | lib/BaseProxy.py:183-193 | the sender and the debugger input are kept |
| LegacyProxy.WriteStdoutPassthrough | lib/BaseProxy.py:183-187 | with the passthrough alone the debugger's output is shown as it is |
| LegacyProxy.WriteStdoutCaptures | lib/BaseProxy.py:183-193 | a captured reply pops the filter, shows what follows the prompt and sends the handler's answer to the last sender when it is not empty |
| LegacyProxy.AfterStdinRead | lib/BaseProxy.py:203-205 | the user's keys go to the debugger as they are |
| LegacyProxy.AfterTurn | lib/BaseProxy.py:131-166 | one pass keeps the proxy sound |
| LegacyProxy.StdinWaits | lib/BaseProxy.py:136-138 | user input waits while a side command runs |
| LegacyProxy.TurnAnswerable | lib/BaseProxy.py:131-193 | every pass keeps the proxy answerable; the only failure is IndexError from an empty datagram or an `info-breakpoints` without a file |
| LegacyProxy.BashDbProxy.constructor | lib/BaseProxy.py:54-55 | the state of `Init` |
| LegacyProxy.BashDbProxy.Timeout | lib/BaseProxy.py:175-181 | as `AfterTimeout` |
| LegacyProxy.BashDbProxy.SetFilter | lib/BaseProxy.py:106-118 | as `AfterSetFilter` |
| LegacyProxy.BashDbProxy.FilterCommand | lib/bashdbproxy.py:60-72 | as `AfterFilterCommand` |
| LegacyProxy.BashDbProxy.ReceiveCommand | lib/BaseProxy.py:157-166 | as `AfterReceiveCommand` |
| LegacyProxy.BashDbProxy.Call | lib/BaseProxy.py:191 | the handler's answer, as `Handle` |
| LegacyProxy.BashDbProxy.WriteStdout | lib/BaseProxy.py:183-193 | as `AfterWriteStdout` |
| LegacyProxy.BashDbProxy.StdinRead | lib/BaseProxy.py:203-205 | as `AfterStdinRead` |
| LegacyProxy.BashDbProxy.Process | lib/BaseProxy.py:131-166 | one pass of `_process`, as `AfterTurn` |
| PdbProxy.SplitFour | lib/pdbproxy.py:37 | four words joined by single spaces split back into those words |
| PdbProxy.SplitSix | lib/pdbproxy.py:37 | the six words of a pdb row, such as `1 breakpoint keep yes at /path:8`, joined by single spaces, split back into those words |
| PdbProxy.RowFormat | lib/pdbproxy.py:35-47 | a row as pdb prints it, `ID breakpoint DISP ENB at FILE:LINE`, yields its line and id exactly when it is enabled (`yes`) and in the requested file |
| PdbProxy.CollectSpec | lib/pdbproxy.py:44-45 | the table has each line once and maps it to the id of the last row for it |
| PdbProxy.Parse | lib/pdbproxy.py:35-47 | every line of the reply is parsed on its own, in order |
| PdbProxy.AfterProcessResponse | lib/pdbproxy.py:24-50 | nothing when no file is pending; otherwise a table, and the pending file is forgotten |
| PdbProxy.AliasOnce | lib/pdbproxy.py:52-61 | the alias is defined by the first `info-breakpoints` only; each request records its own file |
| PdbProxy.RequestThenReply | lib/pdbproxy.py:24-61 | a request followed by its reply gives the table for the requested file and leaves nothing pending, so a second reply gives nothing |
| PdbProxy.PdbFeatures.constructor | lib/pdbproxy.py:17-22 | nothing pending and no alias |
| PdbProxy.PdbFeatures.ProcessResponse | lib/pdbproxy.py:24-50 | as `AfterProcessResponse`, with each line once in the table |
| PdbProxy.PdbFeatures.FilterCommand | lib/pdbproxy.py:52-63 | as `AfterFilterCommand` |
| Backends.GdbTranslate | rplugin/python3/gdb/backend/gdb.py:40-48 | GDB renames `delete_breakpoints` and `breakpoint` and keeps every other command |
| Backends.PdbTranslate | rplugin/python3/gdb/backend/pdb.py:84-94 | pdb renames its five commands and keeps every other one |
| Backends.LlistFilter | rplugin/python3/gdb/backend/gdb.py:50-53 | the filtered list is no longer than the input and holds no line starting with `Num` |
| Backends.KeptPicks | rplugin/python3/gdb/backend/pdb.py:116-119 | the filtered list is the input at increasing kept positions |
| Backends.KeptIncreasing | rplugin/python3/gdb/backend/bashdb.py:13-16 | the kept positions increase: kept lines keep their order |
| Backends.KeptAll | rplugin/python3/gdb/backend/bashdb.py:13-16 | a position is kept exactly when its line does not start with `Num`, so every non-header line is kept, duplicates included |
| Backends.LlistFilterMembers | rplugin/python3/gdb/backend/gdb.py:50-53 | a line is in the output exactly when it is in the input and does not start with `Num` |
| Backends.LlistFilterIdempotent | rplugin/python3/gdb/backend/gdb.py:50-53 | filtering twice is filtering once |
| Backends.QueryRows | rplugin/python3/gdb/backend/pdb.py:53-68 | one row per line of the response |
| Backends.Query | rplugin/python3/gdb/backend/pdb.py:43-70 | the loop over the response groups breakpoint ids by line, each line number once |
| Backends.QuerySkips | rplugin/python3/gdb/backend/pdb.py:57-58 | a line whose second word is not `breakpoint` contributes nothing |
| Backends.QueryHeader | rplugin/python3/gdb/backend/pdb.py:49-58 | the listing's header line contributes nothing |
| Backends.QueryRowFormat | rplugin/python3/gdb/backend/pdb.py:49-66 | a breakpoint row as pdb prints it contributes its (line, id) exactly when it is enabled and in the file asked for |
| Backends.NewGdbParser | rplugin/python3/gdb/backend/gdb.py:13-30 | the GDB parser starts running with its six transitions in order |
| Backends.GdbContinues | rplugin/python3/gdb/backend/gdb.py:19-21 | while paused, `Continuing.` wins over the other two patterns: the program is reported continuing and the parser runs |
| Backends.GdbStops | rplugin/python3/gdb/backend/gdb.py:24-28 | whatever fires while GDB runs, the parser ends up paused |
| Backends.ShippedListsDiffer | rplugin/python3/gdb/backend/gdb.py:13-30 | in the GDB and pdb parsers the running and paused lists differ, so there `is_paused` and `is_running` as written agree with the intended tests and exactly one holds; pdb.py:13-27 builds the pdb lists |
| Backends.NewPdbParser | rplugin/python3/gdb/backend/pdb.py:13-27 | the pdb parser starts running with its four transitions |
| Backends.PdbRunning | rplugin/python3/gdb/backend/pdb.py:25-34 | while running, a jump reports the location and stays running; when the jump pattern matches nowhere in the buffer, a prompt queries the breakpoints and pauses |
| Backends.PdbStaysPaused | rplugin/python3/gdb/backend/pdb.py:22-24 | once paused, the pdb parser stays paused |
| GdbCommands.NextStop | lib/gdb_commands.py:23 | the first stop character (comma, space, newline) from k on, or the end |
| GdbCommands.Paths | lib/gdb_commands.py:22-23 | every match of `/[^, \n]+` found starts with a slash and holds no stop character |
| GdbCommands.LessEqTotal | lib/gdb_commands.py:22 | the string order `sorted` uses is total |
| GdbCommands.LessEqTransitive | lib/gdb_commands.py:22 | and transitive |
| GdbCommands.Insert | lib/gdb_commands.py:22 | insertion into a sorted list stays sorted and adds exactly the element |
| GdbCommands.Sort | lib/gdb_commands.py:22 | `sorted` returns a sorted permutation |
| GdbCommands.ReverseAll | lib/gdb_commands.py:22-23 | each path written backwards |
| GdbCommands.SourceList | lib/gdb_commands.py:19-25 | the list sent is a sorted permutation of the reversed paths |
| GdbCommands.InfoSourcesLines | lib/gdb_commands.py:19-25 | the reply splits on newlines back into the sorted list, and each line read backwards is a path |
| GdbCommands.SourceLine | lib/gdb_commands.py:22-23 | each line read backwards is a path and holds no newline |
| GdbCommands.Arguments | lib/gdb_commands.py:43-45 | an argument without a space raises IndexError |
| GdbCommands.SkipDigits | lib/gdb_commands.py:50 | the digit run of `(\d+)` |
| GdbCommands.LocationAt | lib/gdb_commands.py:50 | a match of ` at ([^:]+):(\d+)` has a non-empty file without a colon and a numeric line |
| GdbCommands.Locations | lib/gdb_commands.py:50 | every location found has that shape |
| GdbCommands.LinesIn | lib/gdb_commands.py:52 | at most one line per location |
| GdbCommands.LinesInMembers | lib/gdb_commands.py:52 | a line is reported exactly when a location with that line names a file the path ends with |
| GdbCommands.LinesInDigits | lib/gdb_commands.py:52 | every reported line is a number |
| GdbCommands.InfoBreakpointsReply | lib/gdb_commands.py:41-55 | the reply goes to the second word of the argument and splits on spaces back into the reported lines, each a number |
| LldbCommands.PathJoin | lib/lldb_commands.py:34-35 | `os.path.join`: an absolute name replaces the directory; otherwise the result starts with the directory and ends with the name; lib/lldb_commands.py:73 joins the same way |
| LldbCommands.ProcessStateName | lib/lldb_commands.py:42-50 | `running` exactly for a running process, `stopped` exactly for a stopped one, `other` otherwise |
| LldbCommands.CurrentFrameLocation | lib/lldb_commands.py:23-39 | a location exactly when the frame and its line entry are valid, then the joined path and the line |
| LldbCommands.LocationHits | lib/lldb_commands.py:66-75 | at most one hit per location |
| LldbCommands.LocationHitsMembers | lib/lldb_commands.py:66-75 | a location is yielded exactly when it has a file name, with its path, line and the breakpoint id |
| LldbCommands.HitsMembers | lib/lldb_commands.py:54-75 | `_enum_breaks` yields a hit for each named location of each enabled breakpoint, and nothing else |
| LldbCommands.Rows | lib/lldb_commands.py:82-88 | one row per hit |
| LldbCommands.GetBreaks | lib/lldb_commands.py:79-91 | the loop groups the ids by line, each line once |
| LldbCommands.BreaksSpec | lib/lldb_commands.py:79-91 | for every line, the ids of the hits in the file at that line in enumeration order; no entry for a line without one |
| LldbCommands.RowsIds | lib/lldb_commands.py:82-88 | the grouped ids at a line are those of the hits in the file at that line |
| LldbCommands.BreakLines | lib/lldb_commands.py:98-99 | one `path:line breakpoint id` line per hit |
| LldbCommands.GetAllBreaks | lib/lldb_commands.py:95-101 | the loop collects one line per hit and joins them with newlines |
| LldbCommands.AllBreaksLines | lib/lldb_commands.py:95-101 | when no path holds a newline, the listing splits back into one line per hit |
| LldbCommands.StripText | lib/lldb_commands.py:162 | `strip()`: a slice of the input with no white space at either end |
| LldbCommands.ParseRequest | lib/lldb_commands.py:129-132 | a request parses exactly when its first word is an integer and a name follows; the words are the id, the name and the arguments |
| LldbCommands.RequestRoundTrip | lib/lldb_commands.py:129-132 | a request written with single spaces parses back into its id, name and arguments |
| LldbCommands.InfoBreakpointsParses | lib/lldb_commands.py:129-145 | the datagram of `handle-command nvim-gdb-info-breakpoints` parses into its request |
| LldbCommands.InfoBreakpointsEnds | lib/lldb_commands.py:145-149 | that request is answered with the list of all breakpoints, and the server loop ends |
| LldbCommands.Run | lib/lldb_commands.py:125-165 | the server reads no more datagrams than arrive |
| LldbCommands.RunEnds | lib/lldb_commands.py:125-165 | the loop reads up to and including the first datagram that ends it, and no further |
| LldbCommands.Outcomes | lib/lldb_commands.py:126-165 | one outcome per datagram |
| LldbCommands.ServeEnds | lib/lldb_commands.py:114-171 | the server reads up to and including the first datagram that ends it (an uncaught exception or the breakpoint listing), and no further |
| LldbCommands.RunAt | lib/lldb_commands.py:125-165 | an uncaught exception ends the loop sending nothing; the listing sends and ends; an unknown request or a `handle-command` without argument sends nothing and goes on; any other request sends its response and goes on |
| LldbCommands.Deliver | lib/lldb_commands.py:133-165 | what one turn of the loop sends, and whether it stops |
| LldbCommands.DeliverEnds | lib/lldb_commands.py:145-149 | the turn that ends the loop has sent everything |
| LldbCommands.DeliverContinues | lib/lldb_commands.py:133-165 | a turn that goes on keeps what was sent in step with what the remaining datagrams give |
| LldbCommands.Server | lib/lldb_commands.py:114-171 | the loop sends exactly the responses `Serve` gives, and reads the datagrams it says |
| FindSource.Lcp | lib/gdb_find_source.py:42-47 | the two strings agree on the first n characters and, when both go on, differ at the next one |
| FindSource.LongestCommonPrefix | lib/gdb_find_source.py:42-47 | the index loop with its early return computes `Lcp` |
| FindSource.LcpUnique | lib/gdb_find_source.py:42-47 | any length with an equal prefix that cannot be extended is the `Lcp` |
| FindSource.ReversedPrefixIsSuffix | lib/gdb_find_source.py:39-53 | on reversed strings the common prefix is the common suffix of the paths |
| FindSource.BaseNameLength | lib/gdb_find_source.py:38 | the length of what follows the last `/` |
| FindSource.Best | lib/gdb_find_source.py:53-61 | the best match length: no candidate beats it, and some candidate reaches it unless it is the starting floor |
| FindSource.MatchingNone | lib/gdb_find_source.py:53-61 | when no candidate reaches the floor nothing is kept |
| FindSource.MatchingMembers | lib/gdb_find_source.py:55-61 | a path is kept exactly when it is, reversed, a candidate reaching the length |
| FindSource.Extend | lib/gdb_find_source.py:55-61 | one more candidate: the best length grows to its `Lcp` and the kept paths grow by it when it reaches the length |
| FindSource.Select | lib/gdb_find_source.py:53-61 | the selection loop returns, the right way round, exactly the candidates sharing the longest suffix with the target |
| FindSource.SelectStep | lib/gdb_find_source.py:56-61 | one turn: a longer match restarts the result, an equal one appends, a shorter one is ignored |
| FindSource.SelectSpec | lib/gdb_find_source.py:37-61 | a path is selected exactly when it is a candidate whose common suffix with the target is maximal and at least the base name's length; none is selected when no candidate shares the whole base name |
| Parsers.Fire | rplugin/python3/gdb/backend/parser_impl.py:59-74 | each handler moves to its target state and reports one event; a jump reports the file and the line parsed as a number, and a line that does not parse raises |
| Parsers.FirstMatch | rplugin/python3/gdb/backend/parser_impl.py:78-80 | the first transition, in list order, whose pattern is found; none exactly when no pattern is found |
| Parsers.AfterSearch | rplugin/python3/gdb/backend/parser_impl.py:76-85 | `_search` answers no and changes nothing exactly when no transition matches; otherwise the buffer is cut after the first match and the handler's state and event follow |
| Parsers.Drain | rplugin/python3/gdb/backend/parser_impl.py:95-96 | draining keeps both transition lists |
| Parsers.DrainSettles | rplugin/python3/gdb/backend/parser_impl.py:95-96 | after draining without exception no transition matches, and the buffer is a suffix of the original |
| Parsers.Chunk | rplugin/python3/gdb/backend/parser_impl.py:91-94 | a line is appended as it is; an empty one as a newline |
| Parsers.AfterFeed | rplugin/python3/gdb/backend/parser_impl.py:87-96 | feeding keeps both transition lists |
| Parsers.FeedConcat | rplugin/python3/gdb/backend/parser_impl.py:87-96 | feeding lines in two calls is feeding them in one |
| Parsers.FeedSettles | rplugin/python3/gdb/backend/parser_impl.py:87-96 | after a feed without exception no transition of the current state matches the buffer |
| Parsers.BothStatesAsWritten | rplugin/python3/gdb/backend/parser_impl.py:44-50 | as written, while the two lists are equal (a fresh parser) both `is_paused` and `is_running` answer yes |
| Parsers.IsPaused | rplugin/python3/gdb/backend/parser_impl.py:44-46 | as intended: yes exactly when the current state is the paused list |
| Parsers.IsRunning | rplugin/python3/gdb/backend/parser_impl.py:48-50 | as intended: the opposite of `IsPaused` |
| Parsers.StateTests | rplugin/python3/gdb/backend/parser_impl.py:44-50 | where the lists differ, the tests as written agree with the intended ones and exactly one holds |
| Parsers.ParserImpl.constructor | rplugin/python3/gdb/backend/parser_impl.py:26-36 | paused, no transitions, a newline buffered |
| Parsers.ParserImpl.AddTrans | rplugin/python3/gdb/backend/parser_impl.py:38-42 | appends the transition to the given state's list and changes nothing else; it asks that the pattern consume at least one character, which keeps `feed` finite |
| Parsers.ParserImpl.Search | rplugin/python3/gdb/backend/parser_impl.py:76-85 | the loop over the transitions gives the state and answer of `AfterSearch` |
| Parsers.ParserImpl.DrainBuffer | rplugin/python3/gdb/backend/parser_impl.py:95-96 | the loop `while self._search(): pass` gives the state and outcome of `Drain` |
| Parsers.ParserImpl.Feed | rplugin/python3/gdb/backend/parser_impl.py:87-96 | the loops give the state and outcome of `AfterFeed` |
| Scm.Call | rplugin/python3/gdb/scm.py:23-37 | a handler whose pattern does not match returns nothing and does nothing; on a match it returns its target state and issues one event; `pausedJump` raises when the match lacks two groups |
| Scm.LineFromSpec | rplugin/python3/gdb/scm.py:43-47 | the first transition that fires (its pattern matches and the state returned is a non-empty list) decides the state; when none fires, the state stays |
| Scm.FirstFiringWins | rplugin/python3/gdb/scm.py:40-47 | a line moves the machine to the target of the first transition of the current state that fires, and leaves it where it is when none does |
| Scm.ScmFeedConcat | rplugin/python3/gdb/scm.py:40-47 | feeding two batches of lines is feeding them together |
| Scm.BaseScm.constructor | rplugin/python3/gdb/scm.py:4-9 | no transitions and no state |
| Scm.BaseScm.AddTrans | rplugin/python3/gdb/scm.py:13-14 | appends the transition to the given list and changes nothing else |
| Scm.BaseScm.PausedContinue | rplugin/python3/gdb/scm.py:23-26 | on a match hides the cursor and returns the running state |
| Scm.BaseScm.PausedJump | rplugin/python3/gdb/scm.py:28-32 | on a match asks Neovim to jump to the two groups and returns the paused state; raises when a group is missing |
| Scm.BaseScm.QueryBreakpointsOn | rplugin/python3/gdb/scm.py:34-37 | on a match asks Neovim to query the breakpoints and returns the paused state |
| Scm.BaseScm.Feed | rplugin/python3/gdb/scm.py:40-47 | the nested loops give the state and outcome of `AfterScmFeed`; with no state set, a TypeError |
| EfmMgr.SetupOne | rplugin/python3/gdb/efmmgr.py:22-26 | one format of `setup`: its count goes up by one, other counts are untouched, and `set efm+=` is issued exactly when the format was not counted yet |
| EfmMgr.TeardownOne | rplugin/python3/gdb/efmmgr.py:31-34 | one format of `teardown` succeeds exactly for a counted format (KeyError otherwise, nothing changed) and touches no other count |
| EfmMgr.SetupKeepsCounted | rplugin/python3/gdb/efmmgr.py:22-26 | `setup` keeps every stored count positive |
| EfmMgr.TeardownOneSpec | rplugin/python3/gdb/efmmgr.py:31-34 | `teardown` of one format lowers its count by one, keeps every stored count positive, and issues `set efm-=` exactly when the count reaches 0 |
| EfmMgr.TeardownRemoves | rplugin/python3/gdb/efmmgr.py:32-34 | a format counted once is deleted and removed from 'errorformat' |
| EfmMgr.TeardownDecrements | rplugin/python3/gdb/efmmgr.py:31-32 | a format counted more than once is decremented and 'errorformat' is left alone |
| EfmMgr.SetupCounts | rplugin/python3/gdb/efmmgr.py:19-26 | `setup(formats)` adds to each count the number of occurrences of the format in `formats` |
| EfmMgr.TeardownCounts | rplugin/python3/gdb/efmmgr.py:28-34 | `teardown(formats)` succeeds exactly when no format is torn down more often than it is counted, then subtracts the occurrences; otherwise KeyError |
| EfmMgr.SetupThenTeardown | rplugin/python3/gdb/efmmgr.py:19-34 | `setup(formats)` then `teardown(formats)` succeeds and restores every count (reference counting round trip) |
| EfmMgr.Removals | rplugin/python3/gdb/efmmgr.py:16-17 | `cleanup` issues one removal per installed format |
| EfmMgr.CleanupRemovesAll | rplugin/python3/gdb/efmmgr.py:14-17 | `cleanup` removes exactly the formats with a positive count |
| EfmMgr.EfmManager.constructor | rplugin/python3/gdb/efmmgr.py:9-12 | a new manager counts nothing and has issued nothing |
| EfmMgr.EfmManager.Setup | rplugin/python3/gdb/efmmgr.py:19-26 | the loop leaves the state `AfterSetup` describes and keeps the counts positive |
| EfmMgr.EfmManager.SetupFormat | rplugin/python3/gdb/efmmgr.py:22-26 | the try/except body for one format, as `SetupOne` |
| EfmMgr.EfmManager.Teardown | rplugin/python3/gdb/efmmgr.py:28-34 | the loop leaves the state and result `AfterTeardown` describes, stopping at the first KeyError |
| EfmMgr.EfmManager.Cleanup | rplugin/python3/gdb/efmmgr.py:14-17 | appends the removal of every installed format, in insertion order, and leaves the counters alone |
| Cursor.NextId | rplugin/python3/gdb/cursor.py:27-28 | the new sign id: 4999 from no sign, then alternating between 4999 and 4998 |
| Cursor.IdsAlternate | rplugin/python3/gdb/cursor.py:15-40 | the id is always -1, 4998 or 4999; `show` always picks an id other than the current one, twice brings it back; `hide` clears it |
| Cursor.ShowPlacesOnlyWhenSet | rplugin/python3/gdb/cursor.py:29-32 | `show` places a sign exactly when both buffer and line are set, at that buffer and line, under the new id |
| Cursor.ShowPlacesBeforeUnplacing | rplugin/python3/gdb/cursor.py:24-35 | a shown sign is replaced by placing the new one first, under the other id, and only then unplacing the old one |
| Cursor.HideIdempotent | rplugin/python3/gdb/cursor.py:15-20 | `hide` twice is `hide` once |
| Cursor.SetKeepsSign | rplugin/python3/gdb/cursor.py:37-40 | `set` changes only the buffer and the line, calling nothing |
| Cursor.ShowInSameBuffer | rplugin/python3/gdb/cursor.py:15-35 | while the buffer is unchanged, `show` leaves exactly the new sign on screen (none when it cannot place one) and `hide` leaves none |
| Cursor.StaleSignAsWritten | rplugin/python3/gdb/cursor.py:33-35 | as written: show in buffer 1, set to buffer 2, show again leaves two current-line signs, the old one never unplaced |
| Cursor.FixedShowsOne | rplugin/python3/gdb/cursor.py:15-40 | with the sign's buffer remembered, `set`, `show` and `hide` keep at most one current-line sign on screen, whatever buffers are visited |
| Cursor.FixedNoStaleSign | rplugin/python3/gdb/cursor.py:33-35 | the run of `StaleSignAsWritten`, corrected, leaves one sign, in the new buffer |
| Cursor.Cursor.constructor | rplugin/python3/gdb/cursor.py:9-13 | buffer, line and sign id all start at -1, no calls |
| Cursor.Cursor.Hide | rplugin/python3/gdb/cursor.py:15-20 | `hide()` as `AfterHide`: unplace the shown sign, if any, and forget its id |
| Cursor.Cursor.Show | rplugin/python3/gdb/cursor.py:22-35 | `show()` as `AfterShow` |
| Cursor.Cursor.Set | rplugin/python3/gdb/cursor.py:37-40 | `set(buf, line)` as `AfterSet` |
| Breakpoint.SignNames | rplugin/python3/gdb/breakpoint.py:36-39 | counts below the number of configured signs get distinct sign names; all counts from `max_count - 1` up share one |
| Breakpoint.SignNameAsWritten | rplugin/python3/gdb/breakpoint.py:36-39 | as written: no count is ever given the last defined sign `GdbBreakpoint<max_count>`, and with one configured sign every line gets the undefined `GdbBreakpoint0` |
| Breakpoint.TenBreakpointsAsWritten | rplugin/python3/gdb/breakpoint.py:36-39 | as written, with ten signs a line with ten breakpoints gets sign 9, not sign 10 |
| Breakpoint.FixedSignDefined | rplugin/python3/gdb/config.py:121-122 | corrected naming: every count gets a sign `_define_signs` defined; counts from `max_count` on get the last one |
| Breakpoint.FixedSignsAllUsed | rplugin/python3/gdb/config.py:121-122 | corrected naming: each defined sign `GdbBreakpoint<i>` is the one for count i, distinct from other counts' signs |
| Breakpoint.Placements | rplugin/python3/gdb/breakpoint.py:41-45 | one placement per line of the file |
| Breakpoint.SetSignsSpec | rplugin/python3/gdb/breakpoint.py:30-46 | on a known buffer, places one sign per line with consecutive ids from 5000, at that line, named after the line's breakpoint count, and records the last id in `max_sign_id` |
| Breakpoint.QueryReplacesOnly | rplugin/python3/gdb/breakpoint.py:48-63 | `query` stores the answer for `fname` only; `get_for_file` then reads the answer's ids for the line |
| Breakpoint.ResetForgets | rplugin/python3/gdb/breakpoint.py:55-58 | `reset_signs` forgets every file and zeroes `max_sign_id` |
| Breakpoint.ReplayPlacements | rplugin/python3/gdb/breakpoint.py:41-45 | placing ids lo, lo+1, ... adds exactly them to the signs shown |
| Breakpoint.ReplayUnplacements | rplugin/python3/gdb/breakpoint.py:26-27 | unplacing ids lo, lo+1, ... removes exactly them |
| Breakpoint.ClearRemovesAll | rplugin/python3/gdb/breakpoint.py:24-28 | `clear_signs` leaves no breakpoint sign shown |
| Breakpoint.QueryShowsCurrent | rplugin/python3/gdb/breakpoint.py:48-53 | after `query`, the signs shown are exactly ids 5000 .. 4999 + number of lines of the buffer's file (none for buffer -1); no earlier sign is left |
| Breakpoint.ResetShowsNone | rplugin/python3/gdb/breakpoint.py:55-58 | `reset_signs` leaves no breakpoint sign shown |
| Breakpoint.BreakpointSigns.constructor | rplugin/python3/gdb/breakpoint.py:12-19 | no breakpoints, `max_sign_id` 0 |
| Breakpoint.BreakpointSigns.ClearSignsNow | rplugin/python3/gdb/breakpoint.py:24-28 | the loop unplaces ids 5000 to `max_sign_id`, as `ClearSigns` |
| Breakpoint.BreakpointSigns.SetSignsNow | rplugin/python3/gdb/breakpoint.py:30-46 | the loop over the file's lines, as `SetSigns` |
| Breakpoint.BreakpointSigns.Query | rplugin/python3/gdb/breakpoint.py:48-53 | `query` as `AfterQuery` |
| Breakpoint.BreakpointSigns.ResetSigns | rplugin/python3/gdb/breakpoint.py:55-58 | `reset_signs` as `AfterReset` |
| Breakpoint.BreakpointSigns.GetForFileNow | rplugin/python3/gdb/breakpoint.py:60-63 | the ids at the line of the file, none when the file or line is unknown |
| Config.FilterFuncref | rplugin/python3/gdb/config.py:52-60 | a key without a default raises KeyError; a value whose default is callable becomes a call of the Vim function it names; any other value is kept |
| Config.FillMustHaveKeys | rplugin/python3/gdb/config.py:74-78 | filling the essential keys keeps every entry the user gave, with its value, and adds each essential key |
| Config.MustHavesPresent | rplugin/python3/gdb/config.py:62-79 | a user configuration keeps all the user's keys and always holds the four essential ones |
| Config.CheckConflicts | rplugin/python3/gdb/config.py:102-113 | only `key_*` entries are checked; afterwards the keystroke is recorded for the function; a conflicting earlier owner is disabled (set to None) and `func`'s old keystroke forgotten; an unhashable keystroke raises TypeError |
| Config.Assign | rplugin/python3/gdb/config.py:86-100 | the check followed by the assignment: afterwards the entry holds the value |
| Config.CheckKeepsWf | rplugin/python3/gdb/config.py:102-113 | the check keeps both dictionaries free of duplicate keys |
| Config.StartConfig | rplugin/python3/gdb/config.py:41-43 | without a user configuration the defaults are used; the entries start without duplicate keys |
| Config.Finish | rplugin/python3/gdb/config.py:47-50 | after removing the falsy entries and defining the signs, every entry left is truthy and appears once |
| Config.Resolve | rplugin/python3/gdb/config.py:34-50 | `__init__`: the resolved configuration has each key once and only truthy values |
| Config.ResolveFrom | rplugin/python3/gdb/config.py:44-50 | the same from any starting entries without duplicates |
| Config.Complete | rplugin/python3/gdb/config.py:46-50 | the same from the state after the first conflict loop |
| Config.RemoveFalsy | rplugin/python3/gdb/config.py:48 | keeps exactly the truthy entries, each with its value |
| Config.RemoveFalsyUnique | rplugin/python3/gdb/config.py:48 | removing entries keeps keys unique |
| Config.BreakSignDefinitions | rplugin/python3/gdb/config.py:121-122 | one `sign define` per breakpoint text |
| Config.BreakTexts | rplugin/python3/gdb/config.py:120-121 | a list is used as given, a string one character per sign, and anything else raises TypeError when enumerated |
| Config.GlobalStep | rplugin/python3/gdb/config.py:95-100 | a per-key variable that is unset or falsy changes nothing |
| Config.FalsyGlobalsIgnored | rplugin/python3/gdb/config.py:93-100 | per-key variables that are all falsy leave the configuration unchanged |
| Config.OverrideAllSnoc | rplugin/python3/gdb/config.py:86-89 | the override loop is applied entry after entry and stops at the first exception |
| Config.OverrideLastWins | rplugin/python3/gdb/config.py:86-89 | after the override dictionary, its last entry is in force, converted by `_filter_funcref` |
| Config.DefaultFromShape | rplugin/python3/gdb/config.py:14-32 | the default dictionary has 16 entries, in the listed order |
| Config.EntriesDistinct | rplugin/python3/gdb/config.py:14-32 | no two default entries share a key |
| Config.DefaultIsUnique | rplugin/python3/gdb/config.py:14-32 | the defaults have unique keys |
| Config.UserConfigUnique | rplugin/python3/gdb/config.py:62-79 | a copied user configuration has unique keys |
| Config.FillUnique | rplugin/python3/gdb/config.py:74-78 | filling the essential keys keeps keys unique |
| Config.CheckIsAssign | rplugin/python3/gdb/config.py:44-45 | in the first loop, checking an entry with the value it already has is the same as assigning it |
| Config.CheckAllOwned | rplugin/python3/gdb/config.py:44-45 | the first loop makes every `key_*` entry it checks the recorded owner of its keystroke and adds no entry |
| Config.AssignOwned | rplugin/python3/gdb/config.py:102-113 | an assignment as written keeps every owner that is not disabled recorded for its keystroke, and the function assigned joins the owners |
| Config.AssignKeys | rplugin/python3/gdb/config.py:86-100 | an assignment adds at most the entry assigned |
| Config.FreeShape | rplugin/python3/gdb/config.py:105-113 | without a conflict, the keystroke is recorded for `func` and the entry is set |
| Config.ConflictShape | rplugin/python3/gdb/config.py:105-113 | on a conflict, `func`'s old keystroke is forgotten, the previous owner set to None, and the keystroke recorded for `func` |
| Config.DisplacedRecords | rplugin/python3/gdb/config.py:111-113 | after a conflict, `key_to_func` still names only owners, all still configured |
| Config.DisplacedOwners | rplugin/python3/gdb/config.py:111-113 | after a conflict, every owner that is not disabled is still recorded for its keystroke |
| Config.ConflictOwnerAt | rplugin/python3/gdb/config.py:111-113 | a conflict leaves every third function's keystroke and its record untouched |
| Config.AssignAllOwned | rplugin/python3/gdb/config.py:86-100 | every assignment as written keeps every configured `key_*` entry the owner of its keystroke |
| Config.OverrideAllOwned | rplugin/python3/gdb/config.py:86-89 | the override loop keeps that |
| Config.GlobalsAllOwned | rplugin/python3/gdb/config.py:93-100 | the per-key loop keeps that |
| Config.InitialOwned | rplugin/python3/gdb/config.py:38-45 | after the first loop every configured `key_*` entry owns its keystroke |
| Config.ApplyOverridesOwned | rplugin/python3/gdb/config.py:81-100 | `_apply_overrides` keeps that |
| Config.FinishOneOwner | rplugin/python3/gdb/config.py:48 | after removing the falsy entries no two `key_*` entries share a keystroke |
| Config.OneOwnerPerKeystroke | rplugin/python3/gdb/config.py:34-50 | whatever the user configuration, override dictionary and per-key variables, the resolved configuration never gives one keystroke to two `key_*` entries |
| Config.OneOwnerFrom | rplugin/python3/gdb/config.py:44-50 | the same from any starting entries |
| Config.Forget | rplugin/python3/gdb/config.py:111 | the keystroke map without `func`'s entry for the keystroke it is configured with; every other record kept |
| Config.ForgetExact | rplugin/python3/gdb/config.py:111 | when the records are exact, forgetting leaves no record naming `func` |
| Config.FixedCheck | rplugin/python3/gdb/config.py:102-113 | corrected check: raises only for an unhashable keystroke; non-`key_*` entries unchecked |
| Config.FixedAssign | rplugin/python3/gdb/config.py:102-113 | corrected assignment: the entry holds the value; raises exactly for an unhashable keystroke of a `key_*` entry |
| Config.FixedAssignExact | rplugin/python3/gdb/config.py:102-113 | the corrected check keeps the records exact (no stale entries) and adds the function assigned |
| Config.NonKeyAssignExact | rplugin/python3/gdb/config.py:86-100 | assigning a non-keystroke entry keeps the records exact |
| Config.FixedRecordsOwners | rplugin/python3/gdb/config.py:105-113 | after a corrected assignment every record names an owner configured with that keystroke |
| Config.FixedOwnersRecorded | rplugin/python3/gdb/config.py:105-113 | after a corrected assignment every owner not disabled is recorded for its keystroke |
| Config.FixedDisablesOnlyTaken | rplugin/python3/gdb/config.py:106-112 | the corrected check disables another owner exactly when it holds the keystroke being assigned now |
| Config.ExactDistinct | rplugin/python3/gdb/config.py:102-113 | exact records mean no two owners share a keystroke |
| Config.StaleKeymapAsWritten | rplugin/python3/gdb/config.py:102-113 | as written, moving `f1` to a free keystroke and then giving `f2` `f1`'s old keystroke disables `f1` |
| Config.StaleKeymapFixed | rplugin/python3/gdb/config.py:102-113 | with the corrected check the same two assignments leave `f1` on its new keystroke |
| Config.Configuration.constructor | rplugin/python3/gdb/config.py:34-38 | empty configuration and keystroke map, no command issued |
| Config.Configuration.CheckKeymapConflicts | rplugin/python3/gdb/config.py:102-113 | the fields become those of `CheckConflicts`, and an exception is reported |
| Config.Configuration.AssignNow | rplugin/python3/gdb/config.py:87-100 | the check and the assignment, as `Assign` |
| Config.Configuration.CheckInitial | rplugin/python3/gdb/config.py:44-45 | the first loop, as `CheckAll` |
| Config.Configuration.OverrideEach | rplugin/python3/gdb/config.py:86-89 | the override loop, as `OverrideAll` |
| Config.Configuration.GlobalsEach | rplugin/python3/gdb/config.py:93-100 | the per-key loop, as `GlobalsAll` |
| Config.Configuration.GlobalNow | rplugin/python3/gdb/config.py:94-100 | one per-key variable, as `GlobalStep` |
| Config.Configuration.ApplyOverridesNow | rplugin/python3/gdb/config.py:81-100 | `_apply_overrides`, as `ApplyOverrides` |
| Config.Configuration.DefineSignsNow | rplugin/python3/gdb/config.py:115-122 | issues the current-line definition and the numbered breakpoint definitions; a missing entry raises KeyError |
| Config.Configuration.DefineBreakSigns | rplugin/python3/gdb/config.py:121-122 | the loop issues one `sign define GdbBreakpoint<i+1>` per text |
| Config.Configuration.Init | rplugin/python3/gdb/config.py:34-50 | `__init__`, as `Resolve` |
| Config.Configuration.InitFrom | rplugin/python3/gdb/config.py:44-50 | from the starting entries, as `ResolveFrom` |
| Config.Configuration.CompleteNow | rplugin/python3/gdb/config.py:46-50 | as `Complete` |
| Config.Configuration.FinishNow | rplugin/python3/gdb/config.py:47-50 | as `Finish` |
| Config.Configuration.Get | rplugin/python3/gdb/config.py:124-126 | the value of a present key; KeyError for a missing one |
| Config.Configuration.GetOr | rplugin/python3/gdb/config.py:128-130 | the value of a present key, the fallback for a missing one |
| Keymaps.Keystroke | rplugin/python3/gdb/keymaps.py:38-39 | no keystroke exactly when the key is missing or set to None; otherwise the configured value's text |
| Keymaps.MappedSpec | rplugin/python3/gdb/keymaps.py:34-44 | the entries `set`/`unset` act on are exactly the default entries with a keystroke, each once when the iteration order has no repeats |
| Keymaps.SetUnsetAgree | rplugin/python3/gdb/keymaps.py:34-54 | `set` and `unset` issue the same number of commands, the i-th `unmap` undoing the i-th `noremap` (same mode and keystroke) |
| Keymaps.UnconfiguredSilent | rplugin/python3/gdb/keymaps.py:38-51 | when no default key has a keystroke, neither `set` nor `unset` issues anything |
| Keymaps.TermCommandsBound | rplugin/python3/gdb/keymaps.py:65-74 | `set_t` issues at most one terminal mapping per terminal entry, each for an entry with a keystroke |
| Keymaps.HookEffect | rplugin/python3/gdb/keymaps.py:77-82 | a missing hook does nothing; a Vim-function hook is called and issues no command |
| Keymaps.Keymaps.constructor | rplugin/python3/gdb/keymaps.py:11-14 | dispatch starts active, nothing issued; the set iteration orders enumerate `default` and `default_t` |
| Keymaps.Keymaps.SetDispatchActive | rplugin/python3/gdb/keymaps.py:16-18 | sets the flag and nothing else |
| Keymaps.Keymaps.Set | rplugin/python3/gdb/keymaps.py:34-44 | the loop issues `SetCommands`: one `noremap <buffer> <silent>` per default entry with a keystroke |
| Keymaps.Keymaps.Unset | rplugin/python3/gdb/keymaps.py:46-54 | the loop issues `UnsetCommands`: one `unmap <buffer>` per default entry with a keystroke |
| Keymaps.Keymaps.SetT | rplugin/python3/gdb/keymaps.py:65-75 | one `tnoremap` per terminal entry with a keystroke, then always the Escape mapping last |
| Keymaps.Keymaps.Dispatch | rplugin/python3/gdb/keymaps.py:77-82 | nothing while dispatch is off; otherwise the effect of the stored hook |
| Keymaps.Keymaps.DispatchSet | rplugin/python3/gdb/keymaps.py:84-86 | dispatches `set_keymaps`: while dispatch is on, the commands and the Vim-function calls of the stored hook are recorded; while it is off nothing is; the flag is unchanged |
| Keymaps.Keymaps.DispatchUnset | rplugin/python3/gdb/keymaps.py:88-90 | dispatches `unset_keymaps`: while dispatch is on, the commands and the Vim-function calls of the stored hook are recorded; while it is off nothing is; the flag is unchanged |
| Keymaps.Keymaps.DispatchSetT | rplugin/python3/gdb/keymaps.py:92-94 | dispatches `set_tkeymaps`: while dispatch is on, the commands and the Vim-function calls of the stored hook are recorded; while it is off nothing is; the flag is unchanged |
| TStorage.Lookup | rplugin/python3/gdb/tstorage.py:13 | `data[tab]` succeeds exactly for a tab with a value and returns it; otherwise KeyError |
| TStorage.Delete | rplugin/python3/gdb/tstorage.py:21 | `del data[tab]` succeeds exactly for a tab with a value, removes that tab only; otherwise KeyError |
| TStorage.InitThenGet | rplugin/python3/gdb/tstorage.py:8-13 | what `init` stores in a tab is what `get` reads back there; other tabs read as before |
| TStorage.InitThenClear | rplugin/python3/gdb/tstorage.py:8-21 | `init` then `clear` of the same tab removes the tab and leaves the others as they were |
| TStorage.TabStorage.constructor | rplugin/python3/gdb/tstorage.py:3-5 | a new storage holds no tab |
| TStorage.TabStorage.Init | rplugin/python3/gdb/tstorage.py:8-9 | the current tab's value is set (overwriting any earlier one), nothing else changes |
| TStorage.TabStorage.Get | rplugin/python3/gdb/tstorage.py:12-13 | the current tab's value, or KeyError when it has none |
| TStorage.TabStorage.GetTab | rplugin/python3/gdb/tstorage.py:16-17 | the given tab's value, or KeyError when it has none |
| TStorage.TabStorage.Clear | rplugin/python3/gdb/tstorage.py:20-21 | removes exactly that tab's value; KeyError and no change for a tab without one |
| SpyUI.PyIndex | test/spy_ui.py:106 | a list index is valid exactly when `-n <= i < n`, and a negative one counts from the end |
| SpyUI.BlankGrid | test/spy_ui.py:22-24 | a `height` by `width` grid of spaces |
| SpyUI.Write | test/spy_ui.py:83-118 | `grid[r][c] = x` succeeds exactly when the cell exists, and keeps the grid's shape |
| SpyUI.ExecConcat | test/spy_ui.py:83-85 | running two runs of assignments one after the other is running their concatenation |
| SpyUI.ExecPrefix | test/spy_ui.py:91-93 | once an assignment raises IndexError, the later ones of the loop are not performed |
| SpyUI.ExecShape | test/spy_ui.py:91-93 | assignments to existing cells keep the grid's shape |
| SpyUI.ScrollStopsAfter | test/spy_ui.py:112-123 | a row copy of `_scroll` that raises ends the scroll |
| SpyUI.ConcatSingles | test/spy_ui.py:130 | joining one-character cells gives the line of those characters in order |
| SpyUI.RenderShape | test/spy_ui.py:125-132 | `to_str` has a border line above and below, `width + 2` wide, and shows each one-character cell at its row and column |
| SpyUI.ResizeRoundTrip | test/spy_ui.py:79-88 | growing the grid and shrinking it back to the old size restores the old grid |
| SpyUI.ClearMeaning | test/spy_ui.py:90-93 | `_clear` blanks every cell, keeps cursor, size and region, and the screen it renders is a blank screen |
| SpyUI.EolSteps | test/spy_ui.py:96-97 | the loop of `_eol_clear` over an in-range row blanks exactly its columns from the start column |
| SpyUI.EolClearMeaning | test/spy_ui.py:95-97 | with the cursor in the grid, `_eol_clear` blanks the cursor row from the cursor column on and nothing else |
| SpyUI.EolClearOutside | test/spy_ui.py:95-97 | below the last row it raises IndexError without writing, unless the cursor is past the last column, when it does nothing |
| SpyUI.PutSteps | test/spy_ui.py:105-106 | the loop of `_put` writes the first character of each cell at consecutive columns and nothing else |
| SpyUI.PutMeaning | test/spy_ui.py:103-107 | text that fits is written from the cursor, the cursor moves past it, and nothing else changes |
| SpyUI.PutOverflow | test/spy_ui.py:103-107 | text running past the last column raises IndexError and the cursor stays |
| SpyUI.CopySteps | test/spy_ui.py:117-118 | one row copy of `_scroll` copies the columns `left..right` of the source row and nothing else |
| SpyUI.ScrollRowStep | test/spy_ui.py:114-123 | each row copy reads a row the scroll has not yet overwritten |
| SpyUI.ScrollSteps | test/spy_ui.py:114-123 | after k row copies, the rows visited hold their source row's old columns and all else is unchanged |
| SpyUI.ScrollMeaning | test/spy_ui.py:112-123 | inside a region within the grid, `_scroll(rows)` succeeds and gives each moved cell the old value `rows` rows away, all other cells unchanged, in both directions |
| SpyUI.RedrawnStops | test/spy_ui.py:53-77 | once an event raises, the rest of the notification is not handled |
| SpyUI.IgnoredChangeNothing | test/spy_ui.py:37-58 | events named in `IGNORE_REDRAW` that carry a parameter list change nothing |
| SpyUI.MissingParametersRaise | test/spy_ui.py:54-57 | an element without a parameter list raises IndexError at `par = arg[1]`, whatever its command and before the `IGNORE_REDRAW` test; the UI is left as it was and the later elements are not handled |
| SpyUI.FlushShowsGrid | test/spy_ui.py:73-74 | after a notification ending in `flush`, `screen` is the rendering of the grid |
| SpyUI.SpyUI.constructor | test/spy_ui.py:12-25 | an 80 by 25 blank grid, the cursor at the origin, an empty region, and the screen rendered from the grid |
| SpyUI.SpyUI.Resize | test/spy_ui.py:79-88 | the loops give the grid of the new size, keeping the overlapping cells, blank elsewhere |
| SpyUI.SpyUI.Clear | test/spy_ui.py:90-93 | the nested loops blank every cell |
| SpyUI.SpyUI.Perform | test/spy_ui.py:83-118 | one cell assignment, reporting IndexError, changing only the grid |
| SpyUI.SpyUI.EolClear | test/spy_ui.py:95-97 | the loop gives the state and outcome of `EolCleared` |
| SpyUI.SpyUI.CursorGoto | test/spy_ui.py:99-101 | moves the cursor and changes nothing else |
| SpyUI.SpyUI.PutText | test/spy_ui.py:103-107 | the loop gives the state and outcome of `Put` |
| SpyUI.SpyUI.SetScrollRegion | test/spy_ui.py:109-110 | sets the region and changes nothing else |
| SpyUI.SpyUI.CopyRowNow | test/spy_ui.py:117-118 | the column loop of one row copy, stopping at the first IndexError |
| SpyUI.SpyUI.Scroll | test/spy_ui.py:112-123 | the nested loops give the state and outcome of `Scrolled` |
| SpyUI.SpyUI.Flush | test/spy_ui.py:73-74 | renders the grid into `screen` and changes nothing else |
| SpyUI.SpyUI.Handle | test/spy_ui.py:55-77 | one event, as `Apply`: IndexError for an element without parameters, nothing for an ignored command, otherwise its handler |
| SpyUI.SpyUI.Redraw | test/spy_ui.py:53-77 | the loop over the events gives the state and outcome of `Redrawn` |
| Engine.Escape | test/engine.py:162-163 | each of `\n`, `\r`, `\t`, `\b` becomes a backslash and one more character; any other character stays as it is |
| Engine.ReplaceConcat | test/engine.py:162-163 | `str.replace` of one character distributes over concatenation |
| Engine.QuoteOne | test/engine.py:160-163 | a single character goes through the four replacements as `Escape` writes it: no later replacement touches an earlier one's output |
| Engine.QuoteConcat | test/engine.py:160-163 | quoting a concatenation is the concatenation of the quoted parts |
| Engine.QuoteKeysEscape | test/engine.py:160-163 | the chain of four `replace` calls equals the one-pass, character-by-character escaping |
| Engine.EscapeAllShape | test/engine.py:160-163 | the escaped keys are one character longer per control character, contain none of the four, and equal the keys when there is none |
| Engine.QuoteKeysSpec | test/engine.py:160-163 | `_quote_keys` quotes each character by the table, is a homomorphism over `+`, is the identity on keys without control characters, leaves none of them, and adds one character per one replaced |
| Engine.ScanSignsSpec | test/engine.py:84-99 | one buffer's signs are scanned without exception exactly when every breakpoint number parses and at most one current-line sign is met in all; `"cur"` is then set exactly when one was |
| Engine.ScanSignsGroups | test/engine.py:84-99 | a buffer scanned without exception leaves in `breaks` the grouping of its breakpoint signs' (number, line) pairs |
| Engine.GroupEmptyIff | test/engine.py:100 | with every number parsing, a buffer's `breaks` is empty exactly when it has no breakpoint sign |
| Engine.ScanRaises | test/engine.py:79-102 | `get_signs` raises exactly when two current-line signs are placed over the loaded buffers or a breakpoint number does not parse; `"cur"` is present exactly when there is one current-line sign |
| Engine.ScanBreaks | test/engine.py:79-102 | `"break"` is absent when no loaded buffer has a breakpoint sign, and otherwise is the grouping of the LAST loaded buffer with one (earlier ones are overwritten) |
| Engine.BufferGroups | test/engine.py:94-99 | each number of a buffer's grouping appears once and lists the lines of its `GdbBreakpoint<number>` signs in order |
| Engine.GetSigns | test/engine.py:79-102 | the three nested loops return exactly what the recursive definition `Scan` returns, exceptions included |
| Engine.ScanStops | test/engine.py:90-99 | once a sign raises, the rest of the buffer's signs do not change the outcome |
| Debuggee.BarDoubles | test/src/test.cpp:3-6 | `Bar` returns an even number: exactly `2*i` below 2^31, `2*i - 2^32` above, where it agrees with `Bar(i - 2^31)` |
| Debuggee.FooClosedForm | test/src/test.cpp:8-13 | for every nonzero `n`, `Foo(n) == 3n - 2` modulo 2^32 |
| Debuggee.FooValues | test/src/test.cpp:8-20 | the values `main` computes: `Foo(0) == 0`, `Foo(5) == 13` and `Foo(n) == 3n - 2` for `n` in 1..9 |
| Debuggee.SumBelowClosed | test/src/lib.hpp:5-13 | the sum `Baz` accumulates satisfies Gauss's formula `2*sum(0..n-1) == n*(n-1)` |
| Debuggee.Baz | test/src/lib.hpp:5-13 | the loop over 0..100 returns the sum of 0..100, that is 5050 |
| Debuggee.SkipCSpace | test/src/lib.hpp:25 | `strtoul`'s leading white space: every skipped character is white space and the one after is not |
| Debuggee.DigitRun | test/src/lib.hpp:25 | `strtoul`'s digit run: every character in the run is a digit and the one after is not |
| Debuggee.LoopCountDefault | test/src/lib.hpp:21-28 | without an argument the loop count is 0xffff |
| Debuggee.LoopCountRoundTrip | test/src/lib.hpp:21-28 | every `unsigned` written in decimal as the first argument comes back as the loop count |
| Debuggee.LoopCountNoDigits | test/src/lib.hpp:25 | an argument with no digit after the white space and the sign gives 0 |
| Debuggee.LoopCountTruncates | test/src/lib.hpp:25 | a decimal value keeps its low 32 bits, and one beyond `unsigned long` saturates to 0xffffffff |
| Debuggee.TestMain | test/src/test.cpp:15-24 | `main` computes `Foo(0..9)`, `Baz() == 5050`, spins `GetLoopCount(argv)` times and exits with 0 |

## Left out

- The pseudo terminal, the process and the terminal plumbing (`run`, `run_loop`, `_set_pty_size`, `_write`, signals, the stdin thread of lib/proxy/impl_win.py): `select` readiness, reads and timeouts are inputs of one pass of the loop, and the bytes written are recorded as whole chunks.
- Sockets and the JSON transport: a datagram is a value with its sender, and what is sent is appended to a log; `json.dumps` of a reply is left as the table it encodes.
- The launchers, lib/gdb_wrap.py, lib/rr-replay.py, utils/ and the test fixtures: process and environment setup only.
- The Neovim API: `vim.call`, `vim.command` and the variables read are parameters or recorded calls. An exception raised inside Neovim by a command is not modelled.
- The LLDB SB API and `gdb.execute`: their answers are parameters. LLDB's command interpreter and `os.path.normpath` are uninterpreted functions given with the debugger state.
- Python's `re`: every pattern goes through an abstract first-match engine. Only the two control-sequence patterns and the two simple patterns of lib/gdb_commands.py are written out as scanners.
- Timing: `time.sleep`, the select timeout of 0.25 s and `Engine.wait_for`.
- Logging and `print`: no effect on the state.
- lib/proxy/gdb.py, lib/lldb_proxy.py, rplugin/python3/gdb/backend/lldb.py, lib/gdbproxy.py and the `BaseProxy.Create` call of lib/pdbproxy.py: these call members that their base classes do not define, so they are not part of this model. lib/test_StreamFilter.py tests an interface that lib/StreamFilter.py does not have and is not part of this model either.
- The comparison of an int with bytes at lib/proxy/base.py:162 is always false and only logs; it is left out.
- Keymaps.Keymaps.constructor: `Keymaps.default` and `default_t` are Python sets whose iteration order the program does not fix; the order is a constructor parameter, so the emitted mappings are stated for every order.
- Config.ValueText: the text of a value in the conflict message is exact for strings and numbers only; other values print a placeholder.
- Breakpoint.GetForFileNow: the `{}` returned for a missing file or line is modelled as `None`.
- Engine.GetSigns: `int()` of a sign's name suffix is `Common.ParseInt`; the validity and loading state of a buffer are one input flag, `loaded`.
- Common.ParseInt: models `int()` only on an optional sign followed by ASCII digits. Python's `int()` also accepts surrounding white space, `_` between digits (`int("1_0")` is 10) and non-ASCII decimal digits; the model rejects those. Likewise the `(\d+)` scanners ProxyBase.SkipDigits and GdbCommands.SkipDigits take only ASCII digits, where Python's `\d` on `str` also matches other Unicode digits. The members that inherit this narrowing are LegacyProxy.Row, PdbProxy.Row, Parsers.Fire, LldbCommands.ParseRequest and Engine.GetSigns.
- Parsers.ParserImpl.AddTrans: `feed` terminates only when every pattern in the transition lists consumes at least one character; `AddTrans` demands this of each pattern it adds. With a pattern that can match the empty string at the start of the buffer (rplugin/python3/gdb/backend/parser_impl.py:76-85 then cuts nothing from the buffer and reports a match, and 95-96 calls it again), the program would loop forever; that run is not modelled. The plugin's own patterns all begin with a character class or a literal.
- UTF-8 decoding: the model takes every input as ASCII. `decode('utf-8')` is the identity, so the UnicodeDecodeError raised on bytes that are not UTF-8 is not modelled. The sites are lib/base_proxy.py:132, 183 and 186, lib/BaseProxy.py:161 and 163, lib/proxy/base.py:166, 176 and 215, lib/bashdbproxy.py:36 and 61, lib/pdbproxy.py:35 and 54, and lib/lldb_commands.py:127; at the last one only `try/finally` surrounds the call, so the error would end the server. A multi-byte character is classified byte by byte, so a continuation byte 0x85 or 0xA0 (as in `х` = D1 85 or `à` = C3 A0) counts as a line break or white space in `SplitLines`/`SplitWs`, where the program, which decodes first, keeps the character whole. The members that inherit this are named on the lines below.
- ProxyBase.ReceiveWhileBusy: a datagram that is not UTF-8 is queued; lib/proxy/base.py:166 raises UnicodeDecodeError and queues nothing.
- ProxyBase.CompleteAnswers: the head request is always answered; when the processed reply is not UTF-8, lib/proxy/base.py:215 raises and nothing is sent.
- PtyProxy.VerbHandleCommand: the verb is split byte by byte, so `handle-command` followed by U+00A0 (bytes C2 A0) is not recognised, while lib/base_proxy.py:132 splits the decoded text and recognises it; invalid UTF-8 does not raise.
- PtyProxy.AfterReceiveCommand: only the empty datagram raises; a datagram that is not UTF-8, which raises at lib/base_proxy.py:183, is handled as text.
- PtyProxy.TurnAnswerable: "the only failure is an empty datagram" holds of the model; the program also fails on a datagram that is not UTF-8 (lib/base_proxy.py:183).
- LegacyProxy.AfterReceiveCommand: a datagram that is not UTF-8 is forwarded; lib/BaseProxy.py:161 raises UnicodeDecodeError.
- LegacyProxy.TurnAnswerable: its failure set leaves out the UnicodeDecodeError of lib/BaseProxy.py:161 and lib/bashdbproxy.py:36 and 61.
- LegacyProxy.RowFormat: fields are split byte by byte, so a path containing `Р` (bytes D0 A0) is cut at the byte A0 and its row is lost, while lib/bashdbproxy.py:36-38 keeps it.
- LegacyProxy.Parse: lines are split byte by byte, so the byte 0x85 inside a character such as `х` (D1 85) ends a line that `splitlines` at lib/bashdbproxy.py:36 keeps whole.
- PdbProxy.RowFormat: fields are split byte by byte, so a path containing `à` (bytes C3 A0) is cut at the byte A0 and its row is lost, while lib/pdbproxy.py:35-37 keeps it.
- PdbProxy.Parse: lines are split byte by byte, so the byte 0x85 inside a character ends a line that `splitlines` at lib/pdbproxy.py:35 keeps whole.
- LldbCommands.ParseRequest: words are split byte by byte, so a file name containing `Р` (D0 A0) is cut in two, while lib/lldb_commands.py:127-129 splits the decoded text.
- LldbCommands.RunAt: the uncaught exceptions it lists leave out the UnicodeDecodeError of lib/lldb_commands.py:127, which ends the server in the program and not in the model.
- LldbCommands.Server: `Server` and `Serve` answer every datagram of a session from one LLDB state (targets, breakpoints, process and frame); the debugger's state changing between two requests is not modelled, since it comes from the LLDB SB API, outside the model.
- Debuggee.StrToUL: assumes a 64-bit `unsigned long`; only decimal input is modelled, as `strtoul(s, nullptr, 10)` asks.
- SpyUI.PutMeaning, SpyUI.EolClearMeaning and SpyUI.ScrollMeaning: the cell-by-cell statements are proved with the cursor or the scroll region inside the grid; outside it the methods still follow `Put`, `EolCleared` and `Scrolled` exactly, and `PutOverflow` and `EolClearOutside` state the error cases.
- The end-to-end UI tests under test/ depend on real debuggers and timing and are not part of this model.

## Findings

The operations of the model follow the code as written, so that every method agrees with the program, with one exception: `Parsers.IsPaused` and `Parsers.IsRunning` are the intended tests, which ask which state is current. `Parsers.StateTests` and `Backends.ShippedListsDiffer` show that they agree with the tests as written wherever the two lists differ, and that is the case in both shipped parsers. Each discrepancy below is shown on the as-written definition. The corrected definition beside it carries the intended property.

| source | as written | input that shows it | evidently intended | confidence | as-written member | corrected member |
|---|---|---|---|---|---|---|
| rplugin/python3/gdb/backend/parser_impl.py:44-50 | `is_paused`/`is_running` compare the state list with `==`, by value | a bare `ParserImpl` before any `add_trans`, whose running and paused lists are both empty: both tests answer True. The GDB and pdb constructors add different transitions to the two lists, so in the shipped parsers the tests agree with the intent | compare by identity (`is`), so exactly one holds | not executed | Parsers.BothStatesAsWritten | Parsers.StateTests |
| rplugin/python3/gdb/cursor.py:33-35 | the old sign is unplaced from `self.buf`, already the new buffer after `set` | `set(1, 10)`, `show()`, `set(2, 20)`, `show()`: sign 4999 stays in buffer 1 beside 4998 in buffer 2 | unplace the old sign from the buffer it was placed in | not executed | Cursor.StaleSignAsWritten | Cursor.FixedNoStaleSign |
| rplugin/python3/gdb/breakpoint.py:36-39 | the sign index is capped at `len(sign_breakpoint) - 1`, while config.py:121-122 defines signs 1..len | ten breakpoints on one line with the ten default signs get `GdbBreakpoint9`; with one configured sign every line gets the undefined `GdbBreakpoint0` | cap at `len(sign_breakpoint)`, so every count gets a defined sign and the last sign means "that many or more" | not executed | Breakpoint.TenBreakpointsAsWritten | Breakpoint.FixedSignDefined |
| rplugin/python3/gdb/config.py:102-113 | the old keystroke of a moved function stays in `key_to_func` | the override `{'key_next': '<f6>', 'key_step': '<f10>'}` with the defaults: `key_next` is disabled | forget the old keystroke when a function moves, so only a keystroke still in use can conflict | not executed | Config.StaleKeymapAsWritten | Config.StaleKeymapFixed |
