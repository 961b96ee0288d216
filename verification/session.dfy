/**
  The client object `CoreNLP` (sockwrap.py): the worker process it starts,
  restarts and kills, the named pipe it creates and removes, and the calls
  it makes. The world is an input: what `proc.poll()` answers, the pid the
  new process gets, the outcome of each connect attempt, the results of the
  startup pings and what the transport delivers.
*/
module Session {
  import opened Wrappers
  import opened CommandBuilder
  import opened Calls
  import opened FrameCodec

  /** The attributes `command(**self.__dict__)` reads; fixed once the object is built. */
  datatype Settings = Settings(mode: Option<string>, serverPort: int, commMode: string, outpipe: Option<string>,
                               configfile: Option<string>, configdict: Option<Config>, classpath: string,
                               dumps: Config -> string)

  /** The worker launch line for these settings, or the exception `command` raises. */
  function LaunchLine(cfg: Settings): Result<string, CommandError>
  {
    CommandLine(Modes, cfg.mode, cfg.configfile, cfg.configdict, cfg.commMode, cfg.serverPort, cfg.outpipe,
                cfg.classpath, cfg.dumps)
  }

  /** Line 128: the pipe path, from the prefix and a tag naming this client. */
  function PipePath(prefix: string, tag: string): (path: string)
    ensures |path| > 0
  {
    prefix + "_" + tag
  }

  /** The state of the object and of what it owns on the system. */
  datatype Snapshot = Snapshot(
    proc: Option<nat>,      // self.proc: None, or the pid of the worker started last
    pipeExists: bool,       // the named pipe is on disk
    launched: seq<string>,  // the command lines handed to the shell, in order
    killed: seq<nat>)       // the pids sent signal 9, in order

  /** What `kill_proc_if_running` found. */
  datatype KillOutcome = NotStarted | AlreadyStopped(code: int) | Killed(pid: nat)

  /** Why a start did not bring the worker up. */
  datatype StartError = CommandRejected(error: CommandError) | NoConnection | PingFailed(at: nat)

  /** How a start ended: up, failed, or still pinging when the observed ping results ran out. */
  datatype StartOutcome = Up | StartFailed(error: StartError) | StillStarting

  /** What the world does while the worker is (re)started. */
  datatype StartWorld<J> = StartWorld(
    poll: Option<int>,           // proc.poll(): None while the worker runs, its exit code once it stopped
    pid: nat,                    // the pid of the new process
    connects: nat -> bool,       // whether connect attempt t succeeds
    pings: seq<CallResult<J>>)   // the results of the startup pings, in order

  /** The invariant of a client: launches only ever use the settings' line; only a PIPE client owns a pipe. */
  predicate Consistent(cfg: Settings, s: Snapshot)
  {
    && (s.proc.Some? <==> |s.launched| > 0)
    && (|s.launched| > 0 ==> LaunchLine(cfg).Success?)
    && (forall i :: 0 <= i < |s.launched| ==> s.launched[i] == LaunchLine(cfg).value)
    && (s.pipeExists ==> cfg.commMode == "PIPE" && cfg.outpipe.Some? && |cfg.outpipe.value| > 0)
  }

  /** Lines 201-210: `kill_proc_if_running`. */
  function AfterKill(s: Snapshot, poll: Option<int>): (Snapshot, KillOutcome)
  {
    if s.proc.None? then (s, NotStarted)
    else if poll.Some? then (s, AlreadyStopped(poll.value))
    else (s.(killed := s.killed + [s.proc.value]), Killed(s.proc.value))
  }

  /** A worker is signalled only when one was started and is still running, and then only that one. */
  lemma KillOnlyWhenRunning(s: Snapshot, poll: Option<int>)
    ensures var (s', outcome) := AfterKill(s, poll);
            && s'.proc == s.proc && s'.pipeExists == s.pipeExists && s'.launched == s.launched
            && (s'.killed != s.killed <==> s.proc.Some? && poll.None?)
            && (s'.killed != s.killed ==> s'.killed == s.killed + [s.proc.value] && outcome == Killed(s.proc.value))
            && (s.proc.None? <==> outcome == NotStarted)
  {
  }

  /** How a start that launched the worker ends: the connect retries (SOCKET), then the ping loop. */
  function Handshake<J(==)>(cfg: Settings, w: StartWorld<J>, pong: J): StartOutcome
  {
    if cfg.commMode == "SOCKET" && FirstConnect(w.connects, Attempts(100), 0).None? then StartFailed(NoConnection)
    else match Await(w.pings, pong).0
      case Started => Up
      case Failed(at) => StartFailed(PingFailed(at))
      case Waiting => StillStarting
  }

  /**
    Lines 161-169 of `start_server`: stop the old worker, make the pipe,
    build the line (the configuration dictionary handed to `command` as a
    copy: see the finding about line 67) and launch it.
  */
  function AfterLaunch(cfg: Settings, s: Snapshot, poll: Option<int>, pid: nat): Snapshot
  {
    var s1 := AfterKill(s, poll).0;
    var s2 := if cfg.commMode == "PIPE" then s1.(pipeExists := true) else s1;
    Spawned(s2, LaunchLine(cfg), pid)
  }

  /** Line 169: a line `command` returned is handed to the shell, and its process becomes the worker. */
  function Spawned(s: Snapshot, line: Result<string, CommandError>, pid: nat): Snapshot
  {
    if line.Success? then s.(proc := Some(pid), launched := s.launched + [line.value]) else s
  }

  /** Lines 160-191: `start_server`. */
  function AfterStart<J(==)>(cfg: Settings, s: Snapshot, w: StartWorld<J>, pong: J): (Snapshot, StartOutcome)
  {
    (AfterLaunch(cfg, s, w.poll, w.pid),
     match LaunchLine(cfg)
     case Failure(e) => StartFailed(CommandRejected(e))
     case Success(_) => Handshake(cfg, w, pong))
  }

  /** Lines 193-199: `ensure_proc_is_running` starts the worker when it never ran or has exited. */
  predicate NeedsStart(s: Snapshot, poll: Option<int>)
  {
    s.proc.None? || poll.Some?
  }

  /** Lines 193-199: `ensure_proc_is_running`. */
  function AfterEnsure<J(==)>(cfg: Settings, s: Snapshot, w: StartWorld<J>, pong: J): (Snapshot, StartOutcome)
  {
    if NeedsStart(s, w.poll) then AfterStart(cfg, s, w, pong) else (s, Up)
  }

  /** Lines 150-153: `cleanup`. */
  function AfterCleanup(cfg: Settings, s: Snapshot, poll: Option<int>): Snapshot
  {
    var s1 := AfterKill(s, poll).0;
    if cfg.outpipe.Some? && |cfg.outpipe.value| > 0 && s1.pipeExists then s1.(pipeExists := false) else s1
  }

  /** Launching records the settings' line and nothing else, so the client stays consistent. */
  lemma LaunchKeepsConsistent(cfg: Settings, s: Snapshot, poll: Option<int>, pid: nat)
    requires Consistent(cfg, s)
    requires cfg.commMode == "PIPE" ==> cfg.outpipe.Some? && |cfg.outpipe.value| > 0
    ensures Consistent(cfg, AfterLaunch(cfg, s, poll, pid))
  {
    var s2 := AfterLaunch(cfg, s, poll, pid);
    if LaunchLine(cfg).Success? {
      assert forall i :: 0 <= i < |s2.launched| ==> s2.launched[i] == LaunchLine(cfg).value by {
        forall i | 0 <= i < |s2.launched| ensures s2.launched[i] == LaunchLine(cfg).value {
          if i < |s.launched| {
            assert s2.launched[i] == s.launched[i];
          }
        }
      }
    }
  }

  /** Every transition keeps the client consistent. */
  lemma TransitionsKeepConsistent<J>(cfg: Settings, s: Snapshot, w: StartWorld<J>, pong: J, poll: Option<int>)
    requires Consistent(cfg, s)
    requires cfg.commMode == "PIPE" ==> cfg.outpipe.Some? && |cfg.outpipe.value| > 0
    ensures Consistent(cfg, AfterKill(s, poll).0)
    ensures Consistent(cfg, AfterStart(cfg, s, w, pong).0)
    ensures Consistent(cfg, AfterEnsure(cfg, s, w, pong).0)
    ensures Consistent(cfg, AfterCleanup(cfg, s, poll))
  {
    LaunchKeepsConsistent(cfg, s, w.poll, w.pid);
  }

  /**
    `ensure_proc_is_running` restarts exactly when the worker never ran or
    has exited; otherwise nothing changes. It never sends a signal, since a
    restart only happens once the worker has stopped.
  */
  lemma EnsureRestartsOnlyWhenNeeded<J>(cfg: Settings, s: Snapshot, w: StartWorld<J>, pong: J)
    ensures var (s', outcome) := AfterEnsure(cfg, s, w, pong);
            && (!NeedsStart(s, w.poll) ==> s' == s && outcome == Up)
            && (NeedsStart(s, w.poll) && LaunchLine(cfg).Success? ==>
                  s'.proc == Some(w.pid) && s'.launched == s.launched + [LaunchLine(cfg).value])
            && (NeedsStart(s, w.poll) && LaunchLine(cfg).Failure? ==>
                  s'.proc == s.proc && s'.launched == s.launched
                  && outcome == StartFailed(CommandRejected(LaunchLine(cfg).error)))
            && s'.killed == s.killed
  {
  }

  /**
    The corrected restart: a worker that exited is relaunched with the very
    line it was first launched with, whatever the settings.
  */
  lemma RestartRelaunchesSameLine<J>(cfg: Settings, s: Snapshot, w: StartWorld<J>, pong: J)
    requires Consistent(cfg, s) && s.proc.Some? && w.poll.Some?
    ensures var s' := AfterEnsure(cfg, s, w, pong).0;
            |s'.launched| == |s.launched| + 1 && s'.launched[|s.launched|] == s.launched[0]
  {
  }

  /** After `cleanup` the pipe is gone; a second `cleanup` changes nothing but may signal a worker still running. */
  lemma CleanupIdempotent(cfg: Settings, s: Snapshot, poll1: Option<int>, poll2: Option<int>)
    requires Consistent(cfg, s)
    ensures !AfterCleanup(cfg, s, poll1).pipeExists
    ensures var s1 := AfterCleanup(cfg, s, poll1);
            var s2 := AfterCleanup(cfg, s1, poll2);
            s2.(killed := s1.killed) == s1 && (poll2.Some? ==> s2 == s1)
  {
  }

  class CoreNLP<J(==)> {
    const cfg: Settings
    const pong: J   // what json.loads makes of the reply PONG
    var proc: Option<nat>
    var pipeExists: bool
    var launched: seq<string>
    var killed: seq<nat>

    /** The object's state as a value. */
    function State(): Snapshot
      reads this
    {
      Snapshot(proc, pipeExists, launched, killed)
    }

    ghost predicate Valid()
      reads this
    {
      && Consistent(cfg, State())
      && (cfg.commMode == "PIPE" ==> cfg.outpipe.Some? && |cfg.outpipe.value| > 0)
    }

    /**
      Lines 90-128 up to the start: the settings, no worker yet, and in PIPE
      mode a pipe path that does not exist yet. The start the constructor
      then makes is a separate call, `StartServer`.
    */
    constructor(mode: Option<string>, serverPort: int, commMode: string, pipePrefix: string, pipeTag: string,
                configfile: Option<string>, configdict: Option<Config>, classpath: string,
                dumps: Config -> string, pong: J)
      ensures Valid()
      ensures cfg.outpipe == (if commMode == "PIPE" then Some(PipePath(pipePrefix, pipeTag)) else None)
      ensures cfg.mode == mode && cfg.serverPort == serverPort && cfg.commMode == commMode
      ensures cfg.configfile == configfile && cfg.configdict == configdict && cfg.classpath == classpath
      ensures cfg.dumps == dumps && this.pong == pong
      ensures State() == Snapshot(None, false, [], [])
    {
      var outpipe := if commMode == "PIPE" then Some(PipePath(pipePrefix, pipeTag)) else None;
      cfg := Settings(mode, serverPort, commMode, outpipe, configfile, configdict, classpath, dumps);
      this.pong := pong;
      proc := None;
      pipeExists := false;
      launched := [];
      killed := [];
    }

    /** Lines 201-210. */
    method KillProcIfRunning(poll: Option<int>) returns (outcome: KillOutcome)
      requires Valid()
      modifies this
      ensures Valid()
      ensures (State(), outcome) == AfterKill(old(State()), poll)
    {
      if proc.None? {
        return NotStarted;
      }
      if poll.Some? {
        return AlreadyStopped(poll.value);
      }
      killed := killed + [proc.value];
      outcome := Killed(proc.value);
    }

    /** Lines 160-191. */
    method StartServer(w: StartWorld<J>) returns (outcome: StartOutcome)
      requires Valid()
      modifies this
      ensures Valid()
      ensures (State(), outcome) == AfterStart(cfg, old(State()), w, pong)
    {
      var line := Launch(w.poll, w.pid);
      if line.Failure? {
        return StartFailed(CommandRejected(line.error));
      }
      var sent;
      outcome, sent := AwaitStartup(w);
    }

    /** Lines 161-169, with the configuration dictionary passed to `command` as a copy. */
    method Launch(poll: Option<int>, pid: nat) returns (line: Result<string, CommandError>)
      requires Valid()
      modifies this
      ensures Valid()
      ensures line == LaunchLine(cfg)
      ensures State() == AfterLaunch(cfg, old(State()), poll, pid)
    {
      ghost var s0 := State();
      LaunchKeepsConsistent(cfg, s0, poll, pid);
      var _ := KillProcIfRunning(poll);
      if cfg.commMode == "PIPE" && !pipeExists {
        pipeExists := true;
      }
      ghost var s2 := State();
      assert s2 == (var s1 := AfterKill(s0, poll).0; if cfg.commMode == "PIPE" then s1.(pipeExists := true) else s1);
      // `command` works on a copy of the dictionary; what it leaves in the copy is dropped
      var copyAfter;
      line, copyAfter := Command(Modes, cfg.mode, cfg.configfile, cfg.configdict, cfg.commMode, cfg.serverPort,
                                 cfg.outpipe, cfg.classpath, cfg.dumps);
      if line.Success? {
        proc := Some(pid);
        launched := launched + [line.value];
      }
      assert State() == Spawned(s2, line, pid);
    }

    /**
      Lines 172-189: the connect retries (SOCKET) and the ping loop, once the
      worker is launched. Also returns the requests the loop issued: one
      `PING` request per ping call, none when the connect probe failed.
    */
    method AwaitStartup(w: StartWorld<J>) returns (outcome: StartOutcome, sent: seq<string>)
      ensures outcome == Handshake(cfg, w, pong)
      ensures outcome == StartFailed(NoConnection) ==> sent == []
      ensures outcome != StartFailed(NoConnection) ==>
                |sent| == Await(w.pings, pong).1 && forall i :: 0 <= i < |sent| ==> sent[i] == RequestLine(PingCommand())
    {
      if cfg.commMode == "SOCKET" {
        var connected, _, _ := GetSocket(100, w.connects);
        if !connected {
          return StartFailed(NoConnection), [];
        }
      }
      var ping, used, _ := AwaitPong(w.pings, pong);
      sent := seq(used, _ => RequestLine(PingCommand()));
      match ping
      case Started => outcome := Up;
      case Failed(at) => outcome := StartFailed(PingFailed(at));
      case Waiting => outcome := StillStarting;
    }

    /** Lines 193-199. */
    method EnsureProcIsRunning(w: StartWorld<J>) returns (outcome: StartOutcome)
      requires Valid()
      modifies this
      ensures Valid()
      ensures (State(), outcome) == AfterEnsure(cfg, old(State()), w, pong)
    {
      if proc.None? {
        outcome := StartServer(w);
      } else if w.poll.Some? {
        outcome := StartServer(w);
      } else {
        outcome := Up;
      }
    }

    /** Lines 150-153. */
    method Cleanup(poll: Option<int>)
      requires Valid()
      modifies this
      ensures Valid()
      ensures State() == AfterCleanup(cfg, old(State()), poll)
      ensures !pipeExists
    {
      TransitionsKeepConsistent(cfg, State(), StartWorld(poll, 0, _ => false, []), pong, poll);
      CleanupIdempotent(cfg, State(), poll, poll);
      var _ := KillProcIfRunning(poll);
      if cfg.outpipe.Some? && |cfg.outpipe.value| > 0 && pipeExists {
        pipeExists := false;
      }
    }

    /**
      Lines 231-248: make sure the worker runs, send the request, map what
      comes back. `r` is the call's result, None when the start did not bring
      the worker up (see `started`); `written` is the request line whose
      write was attempted, which is every call that got a connection. The
      transport outcome is one the client's communication mode can produce.
    */
    method SendCommandAndParseResult(cmd: string, raw: bool, w: StartWorld<J>, t: Transport,
                                     loads: seq<byte> -> Decoded<J>)
      returns (started: StartOutcome, r: Option<CallResult<J>>, written: Option<string>)
      requires Valid()
      requires PossibleIn(cfg.commMode, t)
      modifies this
      ensures Valid()
      ensures (State(), started) == AfterEnsure(cfg, old(State()), w, pong)
      ensures started != Up ==> r.None? && written.None?
      ensures started == Up ==> r == Some(CallOutcome(t, raw, loads))
                                && written == (if t.Refused? then None else Some(RequestLine(cmd)))
    {
      started := EnsureProcIsRunning(w);
      if started != Up {
        return started, None, None;
      }
      written := if t.Refused? then None else Some(RequestLine(cmd));
      r := Some(CallOutcome(t, raw, loads));
    }

    /** Lines 212-214: `parse_doc` sends PARSEDOC with the JSON of the text. */
    method ParseDoc(text: string, jsonText: string -> string, raw: bool, w: StartWorld<J>, t: Transport,
                    loads: seq<byte> -> Decoded<J>)
      returns (started: StartOutcome, r: Option<CallResult<J>>, written: Option<string>)
      requires Valid()
      requires PossibleIn(cfg.commMode, t)
      modifies this
      ensures Valid()
      ensures (State(), started) == AfterEnsure(cfg, old(State()), w, pong)
      ensures started == Up ==> r == Some(CallOutcome(t, raw, loads))
                                && written == (if t.Refused? then None else Some(RequestLine(ParseDocCommand(text, jsonText))))
      ensures started != Up ==> r.None? && written.None?
    {
      started, r, written := SendCommandAndParseResult(ParseDocCommand(text, jsonText), raw, w, t, loads);
    }
  }
}
