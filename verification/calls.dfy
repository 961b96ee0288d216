/**
  One call to the worker, seen from the client (sockwrap.py): the request
  line, the mapping from what the transport delivered to what
  `send_command_and_parse_result` returns, the connect retries of
  `get_socket` and the decision taken on each round of the startup ping.
  What the network does is an input: the outcome of each connect attempt,
  the bytes delivered, a timeout.
*/
module Calls {
  import opened Wrappers
  import opened FrameCodec

  /** Lines 258 and 261: the request written to the worker is the command and one newline. */
  function RequestLine(cmd: string): (line: string)
    ensures |line| == |cmd| + 1 && line[|cmd|] == '\n' && line[..|cmd|] == cmd
  {
    cmd + "\n"
  }

  /** The text before the first newline of s, or None when s holds none: the line the worker reads. */
  function FirstLine(s: string): Option<string>
  {
    if |s| == 0 then None
    else if s[0] == '\n' then Some("")
    else match FirstLine(s[1..])
      case None => None
      case Some(rest) => Some([s[0]] + rest)
  }

  /** Round trip: a command without a newline is read back whole as the first line of its request. */
  lemma {:induction false} RequestLineRoundTrip(cmd: string)
    requires forall i :: 0 <= i < |cmd| ==> cmd[i] != '\n'
    ensures FirstLine(RequestLine(cmd)) == Some(cmd)
    decreases |cmd|
  {
    if |cmd| > 0 {
      assert RequestLine(cmd)[1..] == RequestLine(cmd[1..]);
      RequestLineRoundTrip(cmd[1..]);
      assert [cmd[0]] + cmd[1..] == cmd;
    }
  }

  /** The command name and its argument, separated by a tab. */
  function Verb(name: string, argument: string): string
  {
    name + "\t" + argument
  }

  /** The command name and the argument of a command line: the text around its first tab. */
  function SplitAtTab(s: string): Option<(string, string)>
  {
    if |s| == 0 then None
    else if s[0] == '\t' then Some(("", s[1..]))
    else match SplitAtTab(s[1..])
      case None => None
      case Some(p) => Some(([s[0]] + p.0, p.1))
  }

  /** Round trip: a name without a tab is split back from its argument, whatever the argument holds. */
  lemma {:induction false} VerbRoundTrip(name: string, argument: string)
    requires forall i :: 0 <= i < |name| ==> name[i] != '\t'
    ensures SplitAtTab(Verb(name, argument)) == Some((name, argument))
    decreases |name|
  {
    if |name| > 0 {
      assert Verb(name, argument)[1..] == Verb(name[1..], argument);
      VerbRoundTrip(name[1..], argument);
      assert [name[0]] + name[1..] == name;
    } else {
      assert Verb(name, argument) == "\t" + argument;
    }
  }

  const ParseDoc := "PARSEDOC"
  const Ping := "PING"

  /** Line 213: `parse_doc` sends the JSON of the text as the argument of PARSEDOC. */
  function ParseDocCommand(text: string, dumps: string -> string): (cmd: string)
    ensures SplitAtTab(cmd) == Some((ParseDoc, dumps(text)))
  {
    VerbRoundTrip(ParseDoc, dumps(text));
    Verb(ParseDoc, dumps(text))
  }

  /** Line 180: the startup ping, PING with the JSON empty string as argument. */
  function PingCommand(): (cmd: string)
    ensures SplitAtTab(cmd) == Some((Ping, "\"\""))
  {
    VerbRoundTrip(Ping, "\"\"");
    Verb(Ping, "\"\"")
  }

  /**
    What the transport did with one request. A failure while sending and one
    while receiving are not told apart: once connected, the write has been
    attempted either way.
  */
  datatype Transport =
    | Refused                                               // every connect attempt of get_socket(100) failed
    | Broken                                                // socket.error while sending or receiving
    | PipeBroken                                            // IOError writing to or reading from the pipes (PIPE mode)
    | TimedOut                                              // socket.timeout while sending or receiving
    | Delivered(header: seq<byte>, replies: seq<seq<byte>>) // the header read and the payload reads

  /**
    The outcomes each communication mode can produce: only a socket can be
    refused, time out (the timeout is set on the socket alone, line 257) or
    fail with socket.error; the pipes of PIPE mode block until the worker
    answers or fail with an IOError.
  */
  predicate PossibleIn(commMode: string, t: Transport)
  {
    && (commMode == "SOCKET" ==> !t.PipeBroken?)
    && (commMode == "PIPE" ==> t.Delivered? || t.PipeBroken?)
  }

  /** What `json.loads` makes of a payload. */
  datatype Decoded<J> = BadJson | Null | Value(value: J)

  /** The exceptions a call lets through. */
  datatype CallError =
    | ConnectFailed  // the assertion at the end of get_socket
    | SocketFailure  // socket.error
    | PipeFailure    // IOError on the worker's stdin or the output pipe, e.g. a broken pipe once the worker died
    | ShortHeader    // struct.error: the header is not 8 bytes

  /** What `send_command_and_parse_result` returns, or the exception it raises. */
  datatype CallResult<J> = NoResult | RawText(text: seq<byte>) | Parsed(value: J) | Raised(error: CallError)

  /** Lines 231-248 (and 254-284 for the frame): the result of a call from what the transport did. */
  function CallOutcome<J>(t: Transport, raw: bool, loads: seq<byte> -> Decoded<J>): CallResult<J>
  {
    match t
    case Refused => Raised(ConnectFailed)
    case Broken => Raised(SocketFailure)
    case PipeBroken => Raised(PipeFailure)
    case TimedOut => NoResult
    case Delivered(header, replies) =>
      match DecodeFrame(header, replies)
      case BadHeader => Raised(ShortHeader)
      case Incomplete => NoResult
      case Frame(data) =>
        if raw then RawText(data)
        else match loads(data)
          case Value(v) => Parsed(v)
          case _ => NoResult
  }

  /**
    A call returns None exactly on a timeout, a payload still incomplete
    after the last read allowed, or (unless raw) a payload that is not JSON
    or is JSON null; raw returns the payload unchanged and parses nothing.
    Each transport failure surfaces as its own exception: the connect
    assertion, socket.error, or the IOError of a pipe.
  */
  lemma CallOutcomes<J>(t: Transport, raw: bool, loads: seq<byte> -> Decoded<J>)
    ensures var r := CallOutcome(t, raw, loads);
            && (r == NoResult <==>
                  || t.TimedOut?
                  || (t.Delivered? && |t.header| == HeaderSize
                      && (Gather(BigEndian(t.header), t.replies).data.None?
                          || (!raw && !loads(Gather(BigEndian(t.header), t.replies).data.value).Value?))))
            && (r.RawText? <==> raw && t.Delivered? && DecodeFrame(t.header, t.replies).Frame?)
            && (r.RawText? ==> r.text == DecodeFrame(t.header, t.replies).payload)
            && (r.Parsed? ==> !raw && loads(DecodeFrame(t.header, t.replies).payload) == Value(r.value))
            && (r == Raised(ShortHeader) <==> t.Delivered? && |t.header| != HeaderSize)
            && (r == Raised(ConnectFailed) <==> t.Refused?)
            && (r == Raised(SocketFailure) <==> t.Broken?)
            && (r == Raised(PipeFailure) <==> t.PipeBroken?)
  {
    if t.Delivered? {
      DecodeFrameOutcomes(t.header, t.replies);
    }
  }

  /** With raw set, the text returned is the payload the worker framed, byte for byte. */
  lemma RawRoundTrip<J>(payload: seq<byte>, replies: seq<seq<byte>>, loads: seq<byte> -> Decoded<J>)
    requires |payload| < Pow256(HeaderSize)
    requires |replies| <= MaxChunks + 1 && Received(replies, |replies|) == payload
    ensures CallOutcome(Delivered(EncodeHeader(|payload|), replies), true, loads) == RawText(payload)
  {
    FrameRoundTrip(payload, replies);
  }

  /** What the ping loop does after one call. */
  datatype PingStep = Retry | PauseThenRetry | Ready | Abort

  /**
    Lines 178-189: None retries at once, the reply "PONG" ends the loop, a
    socket error pauses and retries, and anything else (another reply, or
    an exception the loop does not catch, such as the IOError of a broken
    pipe in PIPE mode) ends startup with an error.
  */
  function Step<J(==)>(r: CallResult<J>, pong: J): (s: PingStep)
    ensures s == Ready <==> r == Parsed(pong)
    ensures s == Retry <==> r == NoResult
    ensures s == PauseThenRetry <==> r == Raised(SocketFailure)
  {
    match r
    case NoResult => Retry
    case Parsed(v) => if v == pong then Ready else Abort
    case Raised(SocketFailure) => PauseThenRetry
    case _ => Abort
  }

  /** How the ping loop ended within the calls observed. */
  datatype Startup = Started | Failed(at: nat) | Waiting

  /** A call after which the loop goes round again. */
  predicate Again<J(==)>(r: CallResult<J>, pong: J)
  {
    Step(r, pong) == Retry || Step(r, pong) == PauseThenRetry
  }

  /** The ping loop from call i on, with the pauses taken so far: how it ends, after how many calls, with how many pauses. */
  function AwaitFrom<J(==)>(results: seq<CallResult<J>>, pong: J, i: nat, pauses: nat): (Startup, nat, nat)
    requires i <= |results|
    decreases |results| - i
  {
    if i == |results| then (Waiting, i, pauses)
    else match Step(results[i], pong)
      case Ready => (Started, i + 1, pauses)
      case Abort => (Failed(i), i + 1, pauses)
      case Retry => AwaitFrom(results, pong, i + 1, pauses)
      case PauseThenRetry => AwaitFrom(results, pong, i + 1, pauses + 1)
  }

  /** The ping loop over the results of successive calls. */
  function Await<J(==)>(results: seq<CallResult<J>>, pong: J): (Startup, nat, nat)
  {
    AwaitFrom(results, pong, 0, 0)
  }

  /** The socket errors among the first n results. */
  function SocketErrors<J>(results: seq<CallResult<J>>, n: nat): nat
    requires n <= |results|
  {
    if n == 0 then 0 else SocketErrors(results, n - 1) + (if results[n - 1] == Raised(SocketFailure) then 1 else 0)
  }

  /**
    The loop stops at the first call that is neither None nor a socket error:
    it started iff that call answered PONG, every earlier call went round
    again, and it paused once per socket error before it.
  */
  lemma {:induction false} AwaitStopsAtFirst<J>(results: seq<CallResult<J>>, pong: J, i: nat, pauses: nat)
    requires i <= |results| && pauses == SocketErrors(results, i)
    requires forall k :: 0 <= k < i ==> Again(results[k], pong)
    ensures var (outcome, used, paused) := AwaitFrom(results, pong, i, pauses);
            && i <= used <= |results|
            && (forall k :: 0 <= k < used - 1 ==> Again(results[k], pong))
            && paused == SocketErrors(results, used)
            && (outcome == Waiting <==> used == |results| && (used == 0 || Again(results[used - 1], pong)))
            && (outcome == Started <==> used > 0 && !Again(results[used - 1], pong) && results[used - 1] == Parsed(pong))
            && (outcome.Failed? ==> outcome.at == used - 1 && Step(results[used - 1], pong) == Abort)
    decreases |results| - i
  {
    if i < |results| {
      var s := Step(results[i], pong);
      if s == Retry || s == PauseThenRetry {
        AwaitStopsAtFirst(results, pong, i + 1, SocketErrors(results, i + 1));
      }
    }
  }

  /** The startup ping loop over the results of successive calls, call by call. */
  method AwaitPong<J(==)>(results: seq<CallResult<J>>, pong: J) returns (outcome: Startup, used: nat, pauses: nat)
    ensures (outcome, used, pauses) == Await(results, pong)
  {
    var i := 0;
    pauses := 0;
    while i < |results|
      invariant i <= |results|
      invariant Await(results, pong) == AwaitFrom(results, pong, i, pauses)
      decreases |results| - i
    {
      var step := Step(results[i], pong);
      ghost var rest := AwaitFrom(results, pong, i, pauses);
      i := i + 1;
      if step == Ready {
        return Started, i, pauses;
      } else if step == Abort {
        return Failed(i - 1), i, pauses;
      } else if step == PauseThenRetry {
        pauses := pauses + 1;
      }
      assert rest == AwaitFrom(results, pong, i, pauses);
    }
    return Waiting, i, pauses;
  }

  /** The attempts of `get_socket(num_retries)`: range(num_retries) is empty when it is not positive. */
  function Attempts(numRetries: int): nat
  {
    if numRetries > 0 then numRetries else 0
  }

  /** The first connect attempt from t on, below n, that succeeds. */
  function FirstConnect(connects: nat -> bool, n: nat, t: nat): (k: Option<nat>)
    requires t <= n
    ensures k.Some? ==> t <= k.value < n && connects(k.value)
    ensures k.Some? ==> forall m :: t <= m < k.value ==> !connects(m)
    ensures k.None? ==> forall m :: t <= m < n ==> !connects(m)
    decreases n - t
  {
    if t == n then None else if connects(t) then Some(t) else FirstConnect(connects, n, t + 1)
  }

  /**
    Lines 216-229: at most num_retries connect attempts, stopping at the
    first that succeeds; a pause after each failed attempt but the last;
    failure (the assertion) when every attempt failed.
  */
  method GetSocket(numRetries: int, connects: nat -> bool) returns (connected: bool, attempts: nat, pauses: nat)
    ensures connected <==> exists t :: 0 <= t < Attempts(numRetries) && connects(t)
    ensures connected <==> FirstConnect(connects, Attempts(numRetries), 0).Some?
    ensures var first := FirstConnect(connects, Attempts(numRetries), 0);
            attempts == (if first.Some? then first.value + 1 else Attempts(numRetries))
    ensures attempts <= Attempts(numRetries)
    ensures connected ==> connects(attempts - 1)
    ensures pauses == if attempts == 0 then 0 else attempts - 1
  {
    var n := Attempts(numRetries);
    pauses := 0;
    for trial := 0 to n
      invariant pauses == if trial < n then trial else if n > 0 then n - 1 else 0
      invariant FirstConnect(connects, n, 0) == FirstConnect(connects, n, trial)
    {
      if connects(trial) {
        return true, trial + 1, pauses;
      }
      if trial < n - 1 {
        pauses := pauses + 1;
      }
    }
    return false, n, pauses;
  }
}
