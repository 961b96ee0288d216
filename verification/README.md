# A verified model of the CoreNLP socket wrapper client

`stanford_corenlp_pywrapper/sockwrap.py` drives a long-running Java worker
(`corenlp.SocketServer`) from Python. The client object `CoreNLP` does four things:

- It builds the shell line that launches the worker from a mode (an entry of
  `MODES`), a configuration file and/or a configuration dictionary. That is the
  function `command`.
- It starts the worker, waits for it to answer `PING`, restarts it when it has
  exited, and kills it on `cleanup`.
- It sends one tab-separated request per line, such as `PARSEDOC\t<json>`. The
  worker answers with an 8-byte big-endian length header and then the payload.
  The client reads the payload in at most 1001 reads.
- It maps what the transport did to the call's result: the parsed JSON, the raw
  text, `None`, or an exception.

The project has these modules:

- `Wrappers`: `Option` and `Result`.
- `FrameCodec` covers the length header and the payload read loop of
  `send_command_and_get_string_result`. The read loop is a method proved against
  a transcript function, `Gather`. `Gather` is proved equal to a closed form:
  the first prefix of the reads that completes the payload, within 1000 more
  reads.
- `CommandBuilder` covers `command` and `MODES`. The configuration checks,
  `MODES` and the flags are specification functions. The method `Command`
  follows the source step by step and is proved against them. That includes the
  write-back into the caller's dictionary at line 67.
- `ShellWords` is the part of `/bin/sh` word splitting that the launch line
  uses: blanks, single quotes and plain characters.
- `LaunchWords` proves which argument vector the shell gives the worker for
  every accepted configuration.
- `Calls` covers the request line, the `PARSEDOC` and `PING` requests, the
  mapping of call outcomes, the startup ping loop and the connect retries of
  `get_socket`.
- `Session` covers the `CoreNLP` class. Its state is a value called `Snapshot`:
  the worker pid, whether the pipe exists, the lines launched and the pids
  killed. Each operation has a transition function, and the class's methods are
  proved to make exactly those transitions.

The outside world is an input to the model:

- what `proc.poll()` answers;
- the pid of a new process;
- the outcome of each connect attempt;
- the results of the startup pings;
- what the socket delivers;
- `json.dumps` and `json.loads`.

Passing a copy of the configuration dictionary to `command` differs from the
source, as written under Findings. `Session.CoreNLP.Launch` passes a copy, and
`CommandBuilder.RestartRejected` models the source as written.

## Model

| member | source | states |
|---|---|---|
| FrameCodec.UnpackHeader | stanford_corenlp_pywrapper/sockwrap.py:267 | `struct.unpack('>Q')` succeeds exactly on 8 bytes, and its value is below 2^64 |
| FrameCodec.HeaderRoundTrip | stanford_corenlp_pywrapper/sockwrap.py:267 | an 8-byte big-endian header decodes to the length it encodes, and a header that decodes to n is the encoding of n |
| FrameCodec.ReceivePayload | stanford_corenlp_pywrapper/sockwrap.py:270-284 | the read loop returns the payload and the byte counts it asked for, exactly as the transcript function `Gather` describes |
| FrameCodec.PayloadIsFirstCompletePrefix | stanford_corenlp_pywrapper/sockwrap.py:270-284 | the payload is all bytes received up to the first read that reaches the size; None exactly when 1001 reads do not reach it |
| FrameCodec.EachReadAsksForTheRest | stanford_corenlp_pywrapper/sockwrap.py:271-277 | read k asks for the size minus what was received before it, never a negative count; between 1 and 1001 reads |
| FrameCodec.ExactLengthWithinRequest | stanford_corenlp_pywrapper/sockwrap.py:270-284 | when every read returns at most what it asked for, the payload has exactly the header's length |
| FrameCodec.EmptyPayload | stanford_corenlp_pywrapper/sockwrap.py:270-279 | a zero-length frame still makes one read of 0 bytes and returns what that read gave |
| FrameCodec.ClosedChannelGivesUp | stanford_corenlp_pywrapper/sockwrap.py:280-283 | a closed connection that returns only empty reads gives None after exactly 1001 reads |
| FrameCodec.DecodeFrame | stanford_corenlp_pywrapper/sockwrap.py:259-284 | a frame is a bad header exactly when the header is not 8 bytes |
| FrameCodec.DecodeFrameOutcomes | stanford_corenlp_pywrapper/sockwrap.py:259-284 | a decoded frame is the gathered payload of the header's length; it is incomplete exactly when 1001 reads fall short |
| FrameCodec.FrameRoundTrip | stanford_corenlp_pywrapper/sockwrap.py:259-284 | a payload framed with its length header and delivered in at most 1001 reads is decoded back to itself |
| FrameCodec.ReceiveFrame | stanford_corenlp_pywrapper/sockwrap.py:259-284 | reading header then payload gives `DecodeFrame`; no payload read happens after a bad header |
| CommandBuilder.Command | stanford_corenlp_pywrapper/sockwrap.py:53-81 | the method returns the launch line or the assertion/KeyError `CommandLine` specifies, and leaves the caller's dictionary as `CallerDictAfter` says |
| CommandBuilder.ApplyMode | stanford_corenlp_pywrapper/sockwrap.py:59-67 | the configuration checks and the mode lookup give `Configure`, and the caller's dictionary gains the mode's annotators |
| CommandBuilder.BuildMoreConfig | stanford_corenlp_pywrapper/sockwrap.py:68-74 | more_config is the file flag then the dictionary flag, or the quote assertion fails |
| CommandBuilder.CommandAccepted | stanford_corenlp_pywrapper/sockwrap.py:53-81 | `command` succeeds exactly when a source is given, a mode is known and not combined with annotators, the JSON has no single quote, and comm_mode is SOCKET or PIPE; the line is then the template with newlines replaced |
| CommandBuilder.CommandErrors | stanford_corenlp_pywrapper/sockwrap.py:59-81 | each failure is its own reason: no source at all (iff), an unknown mode, annotators set twice, a quote in the JSON, an unknown comm_mode (iff, once all else holds) |
| CommandBuilder.ModeSetsAnnotators | stanford_corenlp_pywrapper/sockwrap.py:61-67 | without a mode the dictionary is the caller's; with one, it holds the mode's annotators and keeps every other key and value |
| CommandBuilder.ModesStartWithSsplit | stanford_corenlp_pywrapper/sockwrap.py:16-32 | every mode's annotators start with tokenize, ssplit |
| CommandBuilder.DecimalBare | stanford_corenlp_pywrapper/sockwrap.py:77 | the port number is written as one unquoted shell word |
| CommandBuilder.RestartRejected | stanford_corenlp_pywrapper/sockwrap.py:61-67 | as written: after a successful call with a mode and a dictionary, calling again with the caller's dictionary fails on the annotators assertion |
| CommandBuilder.RestartRejectedExample | stanford_corenlp_pywrapper/sockwrap.py:63-67 | mode ssplit with an empty dictionary: the first call succeeds, leaves annotators in the dictionary, and the second call fails |
| LaunchWords.ReadsHead | stanford_corenlp_pywrapper/sockwrap.py:39-41 | the shell reads the head of the template as exec, java, -Xmx4g, -XX:ParallelGCThreads=1, -cp and the single-quoted classpath as one word, with corenlp.SocketServer starting the next word |
| LaunchWords.LaunchArguments | stanford_corenlp_pywrapper/sockwrap.py:39-41 | the shell gives the worker: exec, java, -Xmx4g, -XX:ParallelGCThreads=1, -cp, the classpath, corenlp.SocketServer, the comm flag and value, then the config-file and config-dict flags with their values |
| LaunchWords.LaunchIsOneLine | stanford_corenlp_pywrapper/sockwrap.py:81 | the launch line holds no newline |
| Calls.RequestLine | stanford_corenlp_pywrapper/sockwrap.py:258 | the request is the command followed by one newline |
| Calls.RequestLineRoundTrip | stanford_corenlp_pywrapper/sockwrap.py:258 | the worker's first line of the request is the command |
| Calls.VerbRoundTrip | stanford_corenlp_pywrapper/sockwrap.py:213 | a verb without tabs and its argument are split back at the first tab |
| Calls.ParseDocCommand | stanford_corenlp_pywrapper/sockwrap.py:212-214 | the parse request splits into PARSEDOC and the JSON of the text |
| Calls.PingCommand | stanford_corenlp_pywrapper/sockwrap.py:180 | the startup request splits into PING and the JSON empty string |
| Calls.CallOutcomes | stanford_corenlp_pywrapper/sockwrap.py:231-248 | None exactly on a timeout, an incomplete payload, or (not raw) a payload that is not a JSON value; raw gives the payload itself; struct.error exactly on a short header |
| Calls.RawRoundTrip | stanford_corenlp_pywrapper/sockwrap.py:237-238 | a raw call returns the framed payload byte for byte |
| Calls.Step | stanford_corenlp_pywrapper/sockwrap.py:178-189 | a ping ends the loop exactly on PONG, retries exactly on None, pauses exactly on a socket error |
| Calls.AwaitStopsAtFirst | stanford_corenlp_pywrapper/sockwrap.py:178-189 | the loop stops at the first call that is neither None nor a socket error, starts iff it was PONG, and pauses once per socket error before it |
| Calls.AwaitPong | stanford_corenlp_pywrapper/sockwrap.py:178-189 | the loop, call by call, ends as `Await` says, after the same calls and pauses |
| Calls.FirstConnect | stanford_corenlp_pywrapper/sockwrap.py:218-223 | the first successful attempt in range, with every earlier attempt failed; None when all fail |
| Calls.GetSocket | stanford_corenlp_pywrapper/sockwrap.py:216-229 | connected iff one of the num_retries attempts succeeds; it stops at the first such attempt and pauses after each failure but the last |
| Session.PipePath | stanford_corenlp_pywrapper/sockwrap.py:126-128 | the pipe path is never empty |
| Session.KillOnlyWhenRunning | stanford_corenlp_pywrapper/sockwrap.py:201-210 | a signal is sent iff a worker was started and is still running, to that worker only; nothing else changes |
| Session.TransitionsKeepConsistent | stanford_corenlp_pywrapper/sockwrap.py:150-210 | kill, start, ensure and cleanup keep the invariant: a pid iff a launch, every launch with the settings' line, a pipe only in PIPE mode |
| Session.EnsureRestartsOnlyWhenNeeded | stanford_corenlp_pywrapper/sockwrap.py:193-199 | a restart happens exactly when no worker ran or it exited; otherwise nothing changes; a restart never sends a signal |
| Session.RestartRelaunchesSameLine | stanford_corenlp_pywrapper/sockwrap.py:160-169 | corrected: a worker that exited is relaunched with the very line it was first launched with |
| Session.CleanupIdempotent | stanford_corenlp_pywrapper/sockwrap.py:150-153 | after cleanup the pipe is gone; a second cleanup changes nothing but may kill a worker still running |
| Session.CoreNLP.constructor | stanford_corenlp_pywrapper/sockwrap.py:118-129 | the settings are kept as given, no worker runs, no pipe exists, and in PIPE mode the pipe path is prefix_tag |
| Session.CoreNLP.KillProcIfRunning | stanford_corenlp_pywrapper/sockwrap.py:201-210 | the new state and the outcome are those of `AfterKill` |
| Session.CoreNLP.StartServer | stanford_corenlp_pywrapper/sockwrap.py:160-191 | the new state and the outcome are those of `AfterStart`, and the invariant is kept |
| Session.CoreNLP.Launch | stanford_corenlp_pywrapper/sockwrap.py:161-169 | the line is the settings' launch line and the new state is `AfterLaunch` |
| Session.CoreNLP.AwaitStartup | stanford_corenlp_pywrapper/sockwrap.py:172-189 | the start ends as `Handshake` says: no connection, the ping loop's failure, up, or still starting; one `PING` request line is issued per ping call, none when the connect probe failed |
| Session.CoreNLP.EnsureProcIsRunning | stanford_corenlp_pywrapper/sockwrap.py:193-199 | the new state and the outcome are those of `AfterEnsure`, and the invariant is kept |
| Session.CoreNLP.Cleanup | stanford_corenlp_pywrapper/sockwrap.py:150-153 | the new state is `AfterCleanup`: the worker is killed if running and the pipe is removed |
| Session.CoreNLP.SendCommandAndParseResult | stanford_corenlp_pywrapper/sockwrap.py:231-248 | the worker is ensured first; once it is up, the result is `CallOutcome`, and the request line is written whenever a connection was made; the transport outcome is one the mode can produce |
| Session.CoreNLP.ParseDoc | stanford_corenlp_pywrapper/sockwrap.py:212-214 | a parse sends the PARSEDOC request for the text's JSON and returns the call's outcome |

## Left out

- Processes, files and sockets are not real I/O here. `subprocess.Popen`,
  `os.kill`, `os.mkfifo`, `os.unlink` and the socket calls are modelled by the
  state they change in `Snapshot`, or by inputs such as `StartWorld` and
  `Transport`. `os.path.exists` at lines 152 and 164 is the `pipeExists` flag;
  the one at line 129 is covered below.
- Sleeps and timeouts (`time.sleep`, `settimeout`, `PARSEDOC_TIMEOUT_SEC`) are
  not modelled. A timeout is the outcome `TimedOut`, and a pause is a count.
- The pipe tag (pid and time) is a parameter of the constructor.
- The jar checks, globbing and the classpath join (lines 131-141) are left out.
  The classpath is a parameter.
- The constructor's own call to `start_server` (line 146) is left out. It is
  the separate call `StartServer`.
- `atexit` registration, `__del__`, logging, and the module's test harness and
  `__main__` are left out.
- JSON encoding and decoding are parameters (`dumps`, `loads`). Configuration
  values are strings.
- The `KeyError`s for a missing `server_port` or `classpath` keyword cannot
  happen, because the settings always carry both.
- Opening `outpipe_fp` in PIPE mode is not modelled.
- The transport outcomes differ by mode, and `Calls.PossibleIn` states which
  each mode can produce:
  - A SOCKET call can be `Refused`, `Broken`, `TimedOut` or `Delivered`.
  - A PIPE call is only `Delivered` or `PipeBroken`. It calls no
    `get_socket` and sets no timeout, because the timeout is set on the socket
    alone at line 257.
  - A PIPE call to a worker that stalls without dying blocks forever in the
    source. The model has no outcome for that hang.
  - `PipeBroken` is an `IOError`, not `socket.error`, so the startup ping loop
    does not catch it and the start fails.
  - A failure while writing the request and one while reading the answer are
    not told apart. `written` records that the write was attempted.
- FrameCodec.ReceivePayload: over a socket, `sock.recv` takes its size as a C
  `int` in CPython 2.7. So a declared payload size of 2^31 or more raises
  `OverflowError` on the first payload read, and nothing in the client catches
  it. The model lets any size below 2^64 through. `FrameRoundTrip` and
  `RawRoundTrip` therefore match the source over a socket only for payloads
  shorter than 2^31 bytes.
- Session.CoreNLP.constructor: the assertion that no file exists yet at the
  pipe path (line 129) is not modelled. The constructor always succeeds, and
  no file other than the client's own pipe is part of the state.
- Session.CoreNLP.StartServer: each startup ping goes through
  `send_command_and_parse_result`, which first runs `ensure_proc_is_running`.
  A worker that exits during the handshake is therefore relaunched from inside
  the ping loop. That nested relaunch is not reflected in `launched` or `proc`:
  the new state records one launch, and the ping only contributes its result.
  `EnsureProcIsRunning`, `SendCommandAndParseResult` and `ParseDoc` inherit
  this gap through `StartServer`.
- AwaitPong: the ping loop ends only within the ping results given. When they
  run out it reports `Waiting` (the source loops forever). A restart nested
  inside a ping call is part of the result given for that call.
- Step: a reply other than PONG fails the start with `Abort`. The source builds
  that error message by concatenating the reply, which itself raises
  `TypeError` for a non-string reply. Both end the start with an exception.
- LaunchArguments: shell splitting is stated only for classpaths without a
  single quote, and for a config file and pipe path made of plain characters.
  The shell's other quoting and expansion features are outside `ShellWords`.
- Session.CoreNLP.Launch: the configuration dictionary is passed to `command`
  as a copy. That is the corrected behaviour described under Findings. The
  source as written is `CommandBuilder.RestartRejected`.

## Findings

| source | as written | input that shows it | evidently intended | confidence | as-written member | corrected member |
|---|---|---|---|---|---|---|
| stanford_corenlp_pywrapper/sockwrap.py:61-67, 167 | `command` writes the mode's annotators into the dictionary it was given. `start_server` passes `self.configdict` itself through `**self.__dict__`, so the first start leaves `annotators` in the client's own dictionary. | `CoreNLP(mode='ssplit', configdict={})`; the worker exits; the next call restarts it, and `command` fails the assertion at line 63 because annotators are now set together with a mode | a restart launches the worker again with the same line as the first start | not executed | CommandBuilder.RestartRejected, CommandBuilder.RestartRejectedExample | Session.RestartRelaunchesSameLine, Session.CoreNLP.Launch |
