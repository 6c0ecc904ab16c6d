# exec: a verified model of the chat-bot code runner

This project models the core of the `exec` plugin for the maubot chat-bot
framework. A whitelisted user sends a message holding a code block. The bot posts a
status message, runs the block in-process when it is Python, and then edits
the status message to show what the code printed and what it returned. A
block marked as shell gets the status message and nothing more: the shell
runner's `run` is a plain coroutine, and the bot's `async for` over it fails
with a TypeError before any process starts.

The model covers two parts of the plugin:

- **The output channel and the Python runner** (`exec/runner/python.py`).
  `AsyncTextOutput` is a closable FIFO of `(OutputType, data)` chunks.
  Its per-kind writers (`ProxyOutput`) append to it, and the runner swaps
  `sys.stdout`, `sys.stderr` and `sys.stdin` for them while the user's
  code runs. The classes keep the source's fields and state changes:
  `queue`, `closed`, `writers`, the read task, and the global I/O triple
  (`Python.Stdio`). What asyncio leaves open (which task runs when) becomes
  a parameter. `run` takes a *script*: the user code's writes and closes,
  interleaved with `Relay` steps where the consumer's `async for` loop
  runs once. `Python.PythonRunner.Run` is proved to produce exactly
  `RunTrace.Trace(script, outcome)`. That pure function's lemmas hold for
  every schedule, so they also hold for every schedule asyncio can choose.
- **The command front end** (`ExecBot.exec` in `exec/bot.py`). This covers
  the acceptance guard, the loop that picks the code block, its language
  and the input text, the language dispatch, the status message type, and
  the fold of the chunk stream into plaintext output, HTML output, return
  value and exception text.

Modules: `Base` (chunk kinds and values), `Channel`, `RunTrace` (the pure
specification of `run`'s stream), `Python`, `Html` (`html.escape`),
`Strings` (`str.startswith` and `str.lower`), `Bot`, and `EndToEnd`, which applies the bot's fold to the
Python runner's stream.

Behaviour of the code that the model makes explicit:

- Iteration over the channel ends as soon as `closed` is set, or when its
  pending read is cancelled; chunks still queued at that moment are never
  relayed. `run` only schedules the user code's task, then enters its
  `async for` at once: the first `__anext__` creates a read task and
  suspends on it before the user code runs. Code that prints and returns
  without ever suspending queues its output behind that read, and the
  close in `_run_task` cancels the read before it resumes. So all the
  output is lost and the stream holds only the RETURN chunk
  (`RunTrace.UnsuspendedOutputIsDropped`). When the consumer has caught up
  before the return, everything is relayed
  (`RunTrace.SuspendedOutputIsRelayed`).
- `write` enqueues its chunk whether or not the channel is closed.
- `_run_task` does not catch an exception of the user code, so it never
  closes the channel itself and the restore in `_redirect_io` is never
  reached. If the code closed none of the handles, the consumer then waits
  for ever after relaying everything written (`RunTrace.RaisedTrace`). If it
  closed one (which closes the whole channel), iteration ends, `await task`
  re-raises the exception out of `run`, and only a prefix of the output was
  relayed (`RunTrace.RaisedAfterCloseTrace`). Either way the bot never sends
  its final status (`Bot.Exec`).
- `OutputType` has only STDOUT, STDERR and RETURN. The fold also tests
  `OutputType.EXCEPTION` and calls `runner.format_exception`, and neither
  exists in the runners. The model's kind type has a fourth `Exception`
  constructor so the fold can be stated. `format_exception` is a function
  parameter. `RunTrace.TraceTerminalChunks` proves the Python runner never
  produces that kind. Since every chunk matches one of the first three
  branches, the missing attribute is never looked up.

## Model

| member | source | states |
|---|---|---|
| Channel.CancelRead | exec/runner/python.py:60-61 | cancelling the read task leaves no read waiting; an absent, finished or cancelled read is left as it is |
| Channel.AsyncTextOutput.constructor | exec/runner/python.py:35-40 | a new channel has an empty queue, is open, has no cached writers and no read task |
| Channel.AsyncTextOutput.GetWriter | exec/runner/python.py:63-68 | returns the cached writer for the kind when there is one, with nothing changed; otherwise a fresh open writer for that kind on this channel, now cached; queue, flag and read untouched |
| Channel.AsyncTextOutput.Close | exec/runner/python.py:56-61 | sets `closed`, closes every cached writer, cancels a waiting read, keeps queue and writers; a second close therefore changes nothing |
| Channel.AsyncTextOutput.BeginNext | exec/runner/python.py:45-48 | on a closed channel, ends iteration and removes nothing from the queue; otherwise starts a read task |
| Channel.AsyncTextOutput.CompleteNext | exec/runner/python.py:48-54 | a cancelled read ends iteration and leaves the queue alone; a waiting read returns the oldest queued chunk and removes exactly it (FIFO), or keeps waiting on an empty queue |
| Channel.ProxyOutput.constructor | exec/runner/python.py:75-77 | a writer is bound to its kind and channel and starts open |
| Channel.ProxyOutput.Write | exec/runner/python.py:79-81 | appends exactly `(kind, data)` to the shared queue and changes nothing else, whether or not the channel is closed |
| Channel.ProxyOutput.Close | exec/runner/python.py:86-89 | closes the writer; with `_ato=True` touches neither the channel nor any other writer; with the default it also closes the owning channel as `Close` does |
| Python.ConsumerStep | exec/runner/python.py:117-118 | one iteration of the relay loop changes the channel and the relayed chunks exactly as `RunTrace.Consume` says |
| Python.DrainRelay | exec/runner/python.py:117-118 | after the user code raised, the relay loop runs on exactly as `RunTrace.Drain` says: until iteration ends or the read waits on an empty queue |
| Python.Interleave | exec/runner/python.py:115-118 | the user code's writes and closes and the consumer's steps, in script order, leave the channel and the relayed chunks as `RunTrace.Simulate` says |
| Python.PythonRunner.constructor | exec/runner/python.py:95-96 | a non-empty namespace is shared with the caller; none or an empty one gives a fresh empty mapping |
| Python.PythonRunner.FinishTask | exec/runner/python.py:98-101 | `_run_task` closes the channel (every writer closed, waiting read cancelled, queue kept) and then returns the value unchanged |
| Python.PythonRunner.RedirectEnter | exec/runner/python.py:104-109 | saves the three previous handles; then stdout, stderr and stdin are the channel's STDOUT writer, its STDERR writer and the given reader |
| Python.PythonRunner.RedirectExit | exec/runner/python.py:110 | on normal exit the three handles are exactly the saved ones |
| Python.PythonRunner.Run | exec/runner/python.py:112-120 | the stream and the way it ends (returned, stalls, or the exception escapes from `run`) are `Trace(script, outcome)`; after a return the three handles are exactly the previous ones; after an exception they are still the writers and the reader |
| RunTrace.SimulateConsistent | exec/runner/python.py:45-61 | for every schedule, the relayed chunks followed by the queue are exactly the chunks written, in order; no read waits on a closed channel; the loop ends only after a close |
| RunTrace.WrittenAreText | exec/runner/python.py:79-81 | every chunk the writers produce is a STDOUT or STDERR chunk carrying a string |
| RunTrace.Consume | exec/runner/python.py:45-54 | one step of the consumer moves at most one chunk from the front of the queue to the relayed chunks, keeping their concatenation; it never changes `closed`, and iteration ends in it only on a closed channel or a cancelled read |
| RunTrace.Trace | exec/runner/python.py:112-120 | the stream ends normally exactly when the code returned, and then its last chunk is `(RETURN, v)` |
| RunTrace.ReturnedTrace | exec/runner/python.py:112-120 | when the code returns v, the stream ends normally and is a prefix of what was written, in order, followed by one `(RETURN, v)` as its last chunk |
| RunTrace.TraceTerminalChunks | exec/runner/python.py:117-120 | the stream never holds an EXCEPTION chunk; a RETURN chunk occurs only as the last chunk and only when the code returned |
| RunTrace.RaisedTrace | exec/runner/python.py:98-101 | when the code raises without having closed a handle, everything written is relayed, no RETURN chunk follows and the stream stalls |
| RunTrace.RaisedAfterCloseTrace | exec/runner/python.py:86-120 | when the code closed a handle and then raises, iteration ends and the exception escapes from `run` after a prefix of what was written |
| RunTrace.UnrelayedSimulate | exec/runner/python.py:45-120 | after the consumer's first step (which starts a read) and any writes and closes without a further step, nothing is relayed, the loop has not ended, and the read is waiting or, after a close, cancelled |
| RunTrace.UnsuspendedOutputIsDropped | exec/runner/python.py:45-120 | whatever code that never suspends after the consumer's first read writes or closes before it returns v, the stream is exactly `[(RETURN, v)]` and ends normally |
| RunTrace.SuspendedOutputIsRelayed | exec/runner/python.py:45-120 | for every schedule in which the consumer has emptied the queue before the code returns v, the stream is everything written, in order, then `(RETURN, v)`, and it ends normally |
| Html.HtmlEscapeLength | exec/bot.py:32-33 | escaping never shortens text and grows it at most sixfold |
| Strings.Lower | exec/bot.py:108 | lower-casing keeps the length, leaves no ASCII upper-case letter, maps each one to its lower-case partner and keeps every other character |
| Html.HtmlEscapeConcat | exec/bot.py:32-33 | escaping distributes over concatenation |
| Html.HtmlEscapeHasNoMarkup | exec/bot.py:32-33 | escaped text contains none of `<`, `>`, `"`, `'` |
| Html.HtmlEscapePlainText | exec/bot.py:32-33 | text without the five special characters is unchanged by escaping |
| Html.UnescapeHtmlEscape | exec/bot.py:32-33 | escaping is injective: decoding the five entities gives back the original text |
| Bot.Escape | exec/bot.py:32-33 | `escape(None)` is None; a string gives `html.escape` of it, which decodes back to it and contains no markup character |
| Bot.Accepts | exec/bot.py:94-98 | an accepted message is TEXT, comes from a whitelisted sender, starts with the prefix and has a non-empty formatted body |
| Bot.Slice | exec/bot.py:109 | Python's clamped slice: never longer than `length`, equal to the exact slice when in bounds, empty when the offset is past the end |
| Bot.FirstCode | exec/bot.py:105-112 | the index of the first preformatted entity with non-empty text, none exactly when no entity is one |
| Bot.ScanNext | exec/bot.py:105-114 | a non-preformatted entity changes nothing; once code is non-empty, code and lang never change; the first preformatted block while code is empty sets code and lang; stdin grows only by the text of a later stdin or input block |
| Bot.ExtractCode | exec/bot.py:100-114 | the loop over the entities ends in the state `ScanEntities` gives: one step per entity, in order |
| Bot.ScanEntitiesFirstCode | exec/bot.py:100-114 | after the loop, code is the text of the first preformatted entity with non-empty text and lang its lower-cased language; stdin concatenates, in order, the later preformatted blocks marked stdin or input; without such a block code is None or empty and stdin empty, and code is None exactly when no entity is preformatted |
| Bot.SelectRunner | exec/bot.py:115-127 | no runner when code or lang is empty; "python" selects the Python runner, "shell", "bash" and "sh" the shell runner, every other language is unsupported |
| Bot.StatusMsgType | exec/bot.py:129-137 | the status message type is TEXT exactly for a userbot and NOTICE otherwise |
| Bot.FoldOutput | exec/bot.py:139-157 | the loop over the stream builds the plaintext output, the HTML output, the last return value and the last exception text |
| Bot.Exec | exec/bot.py:93-172 | nothing happens unless the message is text from a whitelisted sender, starts with the prefix and has a formatted body; no code means nothing happens; an unknown language gets the "Unsupported language" reply; a shell run gets only its status message, because `async for` rejects the coroutine; a Python run whose stream ends reports TEXT msgtype for a userbot and NOTICE otherwise, code, lang, stdin and the fold of the stream; one whose stream re-raises or stalls gets only its status message |
| Bot.PlainOfConcat | exec/bot.py:146-150 | the plaintext output of a stream is the outputs of its parts in order |
| Bot.HtmlOfConcat | exec/bot.py:146-151 | the same for the HTML output |
| Bot.TerminalChunksLeaveOutput | exec/bot.py:152-157 | removing a RETURN or EXCEPTION chunk changes neither output |
| Bot.HtmlOfStdoutOnly | exec/bot.py:146-148 | without stderr chunks the HTML output is the escaped plaintext output |
| Bot.PlainOfPrefix | exec/bot.py:146-150 | the output of a prefix of a stream is a prefix of the stream's output |
| Bot.LastReturnIsLast | exec/bot.py:141-154 | the reported return value is the payload of the last RETURN chunk, None when there is none |
| Bot.LastExceptionNone | exec/bot.py:142-157 | without an EXCEPTION chunk the exception header and text stay None |
| EndToEnd.WrittenPlainText | exec/bot.py:146-150 | the plaintext of all written chunks is everything the code wrote on either stream, in order |
| EndToEnd.PythonReturnReport | exec/bot.py:145-157 | for a Python run that returns v, the reported return value is v, there is no exception text, and the plaintext output is a prefix of what the code wrote |
| EndToEnd.PythonRaisedReport | exec/runner/python.py:98-101 | for a Python run that raises without closing a handle, the stream stalls; the output folded so far holds everything written and no return value |

## Left out

- `exec/runner/shell.py` is modelled only through what the bot sees of it: its `run` contains no `yield`, so calling it gives a coroutine, and `async for` raises a TypeError before the coroutine starts. The subprocess it would spawn is therefore never modelled.
- Channel.ProxyOutput.Write: the payload is a string, as `write`'s `data: str` annotation says. A non-string write, and the TypeError that `output.write` would then raise in the bot's loop, are not modelled; Bot.FoldOutput and Bot.Exec require every stdout and stderr chunk to carry a string for the same reason.
- A compile error in the user's code escapes from `run` before any chunk is produced; it is not modelled, because compiling is outside the model.
- The intermediate status edits made while a run is in progress are not modelled, because they depend on the clock; so the partial output that an unfinished run may have shown is not part of the `Unfinished` reply.
- Compiling, `asyncify`, `exec` and `eval` of the user's code are not modelled: they are the Python interpreter and a foreign library. Their effect on the namespace is not modelled either. The code is represented by its script of writes and closes and by its outcome (a returned value or an exception).
- Two Python runs in progress at once share the global `sys.stdout`, `sys.stderr` and `sys.stdin`; the model has one run per state, so it does not capture that a run finishing later restores the other run's writers, or that a stalled run leaves its writers installed for every later `print`.
- Asyncio scheduling is not modelled: the event loop, `ensure_future`, `Queue` wake-ups and `task_done`. The script allows any interleaving of writes and consumer steps, including some the event loop would never choose. One race is settled deliberately: a read that a write has already woken, but that has not yet resumed, is cancelled by `close`, and the chunk stays queued.
- The `loop` field, `__aiter__`, `writable`, and the flush done by `IOBase.close` are not modelled: they make no difference to the chunk stream.
- An exception in the user's code is covered only as the outcome `Raised`. No traceback is modelled, and `format_exception` is an uninterpreted function parameter.
- `EntityParser.parse` is foreign HTML parsing. The parsed command (text and entities) is a parameter of `Exec`. Entity offsets and lengths are non-negative, so Python's negative-index slicing does not arise. An entity's `language` is always present.
- Strings.Lower: lower-cases ASCII letters only, because Unicode case mapping is outside the model.
- `format_status`, Jinja templating, `Config`, and the `repr` of the return value are presentation and foreign libraries.
- The Matrix client calls (`respond`, `edit`, `send_message`), the time-based edit throttle using float `time()`, the duration, and the `print(return_value)` at the end are network I/O, clocks and console output.
