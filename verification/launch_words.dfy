/**
  The argument vector /bin/sh builds from the launch line of `command`:
  `exec` followed by the Java command line, with one word per template
  field, whatever newlines the template holds.
*/
module LaunchWords {
  import opened Wrappers
  import opened ShellWords
  import opened CommandBuilder

  /** Replacing newlines distributes over concatenation. */
  lemma {:induction false} NewlinesConcat(a: string, b: string)
    ensures ReplaceNewlines(a + b) == ReplaceNewlines(a) + ReplaceNewlines(b)
    decreases |b|
  {
    if |b| == 0 {
      assert a + b == a;
    } else {
      var ab := a + b;
      assert ab[..|ab| - 1] == a + b[..|b| - 1];
      assert ab[|ab| - 1] == b[|b| - 1];
      NewlinesConcat(a, b[..|b| - 1]);
    }
  }

  /** Replacing newlines keeps the length and changes newlines, and only them, into blanks. */
  lemma {:induction false} NewlinesChars(s: string)
    ensures |ReplaceNewlines(s)| == |s|
    ensures forall i :: 0 <= i < |s| ==> ReplaceNewlines(s)[i] == (if s[i] == '\n' then ' ' else s[i])
    decreases |s|
  {
    if |s| > 0 {
      NewlinesChars(s[..|s| - 1]);
    }
  }

  /** The launch line holds no newline: it is a single line for the shell. */
  lemma NoNewlineLeft(s: string)
    ensures forall i :: 0 <= i < |ReplaceNewlines(s)| ==> ReplaceNewlines(s)[i] != '\n'
  {
    NewlinesChars(s);
  }

  /** A bare word has no newline to replace. */
  lemma BareUnchanged(w: string)
    requires BareWord(w)
    ensures ReplaceNewlines(w) == w
  {
    NewlinesChars(w);
  }

  /** Replacing newlines brings in no single quote. */
  lemma QuotableKept(w: string)
    requires Quotable(w)
    ensures Quotable(ReplaceNewlines(w))
  {
    NewlinesChars(w);
  }

  /** Text made of blanks and newlines only. */
  predicate Spacing(s: string)
  {
    |s| >= 1 && forall i :: 0 <= i < |s| ==> s[i] == ' ' || s[i] == '\n'
  }

  /** Text p the shell reads from st to st1, once its newlines are blanks. */
  predicate Reads(p: string, st: State, st1: State)
  {
    Scan(ReplaceNewlines(p), st) == Some(st1)
  }

  /** Reading p and then q from where p left off reads p + q. */
  lemma Then(p: string, q: string, st: State, st1: State, st2: State)
    requires Reads(p, st, st1) && Reads(q, st1, st2)
    ensures Reads(p + q, st, st2)
  {
    NewlinesConcat(p, q);
    ScanConcat(ReplaceNewlines(p), ReplaceNewlines(q), st);
  }

  /** Blanks and newlines close the word being built. */
  lemma ReadsSpacing(s: string, st: State)
    requires Spacing(s)
    ensures Reads(s, st, State(Close(st), None))
  {
    NewlinesChars(s);
    assert ReplaceNewlines(s) == Blanks(|s|);
    ScanBlanks(|s|, st);
  }

  /** A bare word extends the word being built. */
  lemma ReadsBare(w: string, st: State)
    requires BareWord(w)
    ensures Reads(w, st, State(st.words, Some(Current(st) + w)))
  {
    BareUnchanged(w);
    ScanBare(w, st);
  }

  /** A quoted segment extends the word being built by its text, newlines turned into blanks. */
  lemma ReadsQuoted(w: string, st: State)
    requires Quotable(w)
    ensures Reads(Quote(w), st, State(st.words, Some(Current(st) + ReplaceNewlines(w))))
  {
    NewlinesConcat("'" + w, "'");
    NewlinesConcat("'", w);
    assert ReplaceNewlines("'") == "'";
    QuotableKept(w);
    ScanQuoted(ReplaceNewlines(w), st);
  }

  /** Reading p and then a bare word that starts a new word. */
  lemma ThenFirst(p: string, w: string, st: State, st1: State)
    requires Reads(p, st, st1) && st1.word.None? && BareWord(w)
    ensures Reads(p + w, st, State(st1.words, Some(w)))
  {
    ReadsBare(w, st1);
    assert Current(st1) + w == w;
    Then(p, w, st, st1, State(st1.words, Some(w)));
  }

  /** Reading p and then a bare word glued to the word p left open. */
  lemma ThenGlued(p: string, w: string, st: State, st1: State)
    requires Reads(p, st, st1) && st1.word.Some? && BareWord(w)
    ensures Reads(p + w, st, State(st1.words, Some(st1.word.value + w)))
  {
    ReadsBare(w, st1);
    Then(p, w, st, st1, State(st1.words, Some(st1.word.value + w)));
  }

  /** Reading p, then blanks or newlines: the open word is finished. */
  lemma ThenSpacing(p: string, b: string, st: State, st1: State)
    requires Reads(p, st, st1) && Spacing(b)
    ensures Reads(p + b, st, State(Close(st1), None))
  {
    ReadsSpacing(b, st1);
    Then(p, b, st, st1, State(Close(st1), None));
  }

  /** Reading p, then a blank and a bare word: the open word is finished and w starts the next. */
  lemma ThenWord(p: string, w: string, st: State, st1: State)
    requires Reads(p, st, st1) && BareWord(w)
    ensures Reads(p + " " + w, st, State(Close(st1), Some(w)))
  {
    ThenSpacing(p, " ", st, st1);
    ThenFirst(p + " ", w, st, State(Close(st1), None));
  }

  /** Reading p, then a single-quoted segment glued to the word p left open. */
  lemma ThenQuoted(p: string, w: string, st: State, st1: State)
    requires Reads(p, st, st1) && st1.word.None? && Quotable(w)
    ensures Reads(p + "'" + w + "'", st, State(st1.words, Some(ReplaceNewlines(w))))
  {
    assert Reads(p + Quote(w), st, State(st1.words, Some(ReplaceNewlines(w)))) by {
      ReadsQuoted(w, st1);
      assert Current(st1) + ReplaceNewlines(w) == ReplaceNewlines(w);
      Then(p, Quote(w), st, st1, State(st1.words, Some(ReplaceNewlines(w))));
    }
    assert p + Quote(w) == p + "'" + w + "'";
  }

  /** The Java command and its options, each word a parameter. */
  lemma ReadsJavaPieces(nl: string, exec: string, java: string, xmx: string, amount: string, gc: string,
                        cpFlag: string)
    requires Spacing(nl)
    requires BareWord(exec) && BareWord(java) && BareWord(xmx) && BareWord(amount) && BareWord(gc)
    requires BareWord(cpFlag)
    ensures Reads(nl + exec + " " + java + " " + xmx + amount + " " + gc + " " + cpFlag,
                  Start, State([exec, java, xmx + amount, gc], Some(cpFlag)))
  {
    NewlinesChars("");
    assert Reads("", Start, Start);
    ThenSpacing("", nl, Start, Start);
    assert "" + nl == nl;
    var st0 := State([], None);
    ThenFirst(nl, exec, Start, st0);
    var p1, st1 := nl + exec, State([], Some(exec));
    ThenWord(p1, java, Start, st1);
    var p2, st2 := p1 + " " + java, State(Close(st1), Some(java));
    ThenWord(p2, xmx, Start, st2);
    var p3, st3 := p2 + " " + xmx, State(Close(st2), Some(xmx));
    ThenGlued(p3, amount, Start, st3);
    var p4, st4 := p3 + amount, State(st3.words, Some(xmx + amount));
    ThenWord(p4, gc, Start, st4);
    var p5, st5 := p4 + " " + gc, State(Close(st4), Some(gc));
    ThenWord(p5, cpFlag, Start, st5);
    assert Close(st5) == [exec, java, xmx + amount, gc];
  }

  /** The rest of the head: the quoted classpath is one word, the server class name starts the next. */
  lemma ReadsClasspathPieces(p: string, ws: seq<string>, last: string, classpath: string, nl: string,
                             indent: string, server: string)
    requires Reads(p, Start, State(ws, Some(last)))
    requires Spacing(nl) && Spacing(indent) && Quotable(classpath) && BareWord(server)
    ensures Reads(p + " " + "'" + classpath + "'" + nl + indent + server,
                  Start, State(ws + [last, ReplaceNewlines(classpath)], Some(server)))
  {
    var st := State(ws, Some(last));
    ThenSpacing(p, " ", Start, st);
    var st1 := State(Close(st), None);
    ThenQuoted(p + " ", classpath, Start, st1);
    var p2 := p + " " + "'" + classpath + "'";
    var st2 := State(Close(st), Some(ReplaceNewlines(classpath)));
    ThenSpacing(p2, nl, Start, st2);
    var st3 := State(Close(st2), None);
    ThenSpacing(p2 + nl, indent, Start, st3);
    ThenFirst(p2 + nl + indent, server, Start, State(Close(st3), None));
    assert Close(st3) == ws + [last, ReplaceNewlines(classpath)];
  }

  /** The words of the template before the classpath. */
  function JavaWords(classpath: string): seq<string>
  {
    ["exec", Java, "-Xmx" + XmxAmount, "-XX:ParallelGCThreads=1", "-cp", ReplaceNewlines(classpath)]
  }

  /** The classpath, in single quotes, is one word; the server class name the next. */
  lemma ReadsHead(classpath: string)
    requires Quotable(classpath)
    ensures Reads(Head(classpath), Start, State(JavaWords(classpath), Some("corenlp.SocketServer")))
  {
    ReadsJavaPieces("\n", "exec", Java, "-Xmx", XmxAmount, "-XX:ParallelGCThreads=1", "-cp");
    ReadsClasspathPieces("\n" + "exec" + " " + Java + " " + "-Xmx" + XmxAmount + " " + "-XX:ParallelGCThreads=1"
                         + " " + "-cp", ["exec", Java, "-Xmx" + XmxAmount, "-XX:ParallelGCThreads=1"], "-cp",
                         classpath, "\n", "    ", "corenlp.SocketServer");
    assert ["exec", Java, "-Xmx" + XmxAmount, "-XX:ParallelGCThreads=1"] + ["-cp", ReplaceNewlines(classpath)]
           == JavaWords(classpath);
  }

  /** The words of the communication flag. */
  function CommArgs(commMode: string, serverPort: int, outpipe: Option<string>): seq<string>
  {
    if commMode == "SOCKET" then ["--server", Decimal(serverPort)] else ["--outpipe", PyStr(outpipe)]
  }

  /** The words of the configuration file flag. */
  function FileArgs(configfile: Option<string>): seq<string>
  {
    if Truthy(configfile) then ["--configfile", configfile.value] else []
  }

  /** The words of the configuration dictionary flag: its JSON, newlines turned into blanks. */
  function DictArgs(config: Option<Config>, dumps: Config -> string): seq<string>
  {
    if NonEmpty(config) then ["--configdict", ReplaceNewlines(dumps(config.value))] else []
  }

  /** The state after reading words: ws finished, and the last word of args, if any, still open. */
  function Open(ws: seq<string>, args: seq<string>): (st: State)
    ensures Close(st) == ws + args
  {
    if |args| == 0 then State(ws, None) else State(ws + args[..|args| - 1], Some(args[|args| - 1]))
  }

  /** A bare word read between words starts a new one. */
  lemma ReadsFirst(w: string, st: State)
    requires BareWord(w) && st.word.None?
    ensures Reads(w, st, State(st.words, Some(w)))
  {
    ReadsBare(w, st);
    assert Current(st) + w == w;
  }

  /** Nothing read, nothing changed. */
  lemma ReadsNothing(st: State)
    ensures Reads("", st, st)
  {
    NewlinesChars("");
  }

  /** The communication flag and its value are two words. */
  lemma ReadsCommInfo(flag: string, value: string, st: State)
    requires BareWord(flag) && BareWord(value) && st.word.None?
    ensures Reads(flag + " " + value, st, State(st.words + [flag], Some(value)))
  {
    ReadsFirst(flag, st);
    var st1 := State(st.words, Some(flag));
    ThenSpacing(flag, " ", st, st1);
    var st2 := State(Close(st1), None);
    ReadsFirst(value, st2);
    Then(flag + " ", value, st, st2, State(st2.words, Some(value)));
  }

  /** A flag of more_config: the flag is a word, its value v read from a fresh word. */
  lemma ReadsFlag(flag: string, v: string, st: State, st3: State)
    requires BareWord(flag) && Reads(v, State(Close(st) + [flag], None), st3)
    ensures Reads(Flag(flag, v), st, st3)
  {
    ReadsSpacing(" ", st);
    var st1 := State(Close(st), None);
    ReadsFirst(flag, st1);
    var st2 := State(Close(st), Some(flag));
    Then(" ", flag, st, st1, st2);
    ThenSpacing(" " + flag, " ", st, st2);
    Then(" " + flag + " ", v, st, State(Close(st2), None), st3);
  }

  /** The configuration file flag, when there is one, is two words, the second left open. */
  lemma ReadsFileFlags(ws: seq<string>, configfile: Option<string>)
    requires Truthy(configfile) ==> BareWord(configfile.value)
    ensures Reads(FileFlags(configfile), State(ws, None), Open(ws, FileArgs(configfile)))
  {
    if Truthy(configfile) {
      var st := State(ws + ["--configfile"], None);
      ReadsFirst(configfile.value, st);
      ReadsFlag("--configfile", configfile.value, State(ws, None), State(st.words, Some(configfile.value)));
      assert FileArgs(configfile)[..1] == ["--configfile"];
    } else {
      ReadsNothing(State(ws, None));
    }
  }

  /** The configuration dictionary flag, when there is one, is two words, the JSON one left open. */
  lemma ReadsDictFlags(ws: seq<string>, args: seq<string>, config: Option<Config>, dumps: Config -> string)
    requires NonEmpty(config) ==> Quotable(dumps(config.value))
    ensures Reads(DictFlags(config, Json(config, dumps)), Open(ws, args),
                  if NonEmpty(config) then Open(ws + args, DictArgs(config, dumps)) else Open(ws, args))
  {
    if NonEmpty(config) {
      var j := dumps(config.value);
      var st := State(ws + args + ["--configdict"], None);
      ReadsQuoted(j, st);
      assert Current(st) + ReplaceNewlines(j) == ReplaceNewlines(j);
      ReadsFlag("--configdict", Quote(j), Open(ws, args), State(st.words, Some(ReplaceNewlines(j))));
      assert DictArgs(config, dumps)[..1] == ["--configdict"];
    } else {
      ReadsNothing(Open(ws, args));
    }
  }

  /** The optional configuration flags: their words follow the finished words ws. */
  lemma ReadsConfigFlags(ws: seq<string>, configfile: Option<string>, config: Option<Config>, dumps: Config -> string)
    returns (st: State)
    requires Truthy(configfile) ==> BareWord(configfile.value)
    requires NonEmpty(config) ==> Quotable(dumps(config.value))
    ensures Reads(ConfigFlags(configfile, config, Json(config, dumps)),
                  State(ws, None), st)
    ensures Close(st) == ws + FileArgs(configfile) + DictArgs(config, dumps)
  {
    var j := Json(config, dumps);
    ReadsFileFlags(ws, configfile);
    ReadsDictFlags(ws, FileArgs(configfile), config, dumps);
    st := if NonEmpty(config) then Open(ws + FileArgs(configfile), DictArgs(config, dumps))
              else Open(ws, FileArgs(configfile));
    Then(FileFlags(configfile), DictFlags(config, j), State(ws, None), Open(ws, FileArgs(configfile)), st);
    if !NonEmpty(config) {
      assert DictArgs(config, dumps) == [];
      assert ws + FileArgs(configfile) + [] == ws + FileArgs(configfile);
    }
  }

  /** The whole template, read word by word. */
  lemma ReadsTemplate(classpath: string, flag: string, value: string, configfile: Option<string>,
                      config: Option<Config>, dumps: Config -> string)
    requires Quotable(classpath) && BareWord(flag) && BareWord(value)
    requires Truthy(configfile) ==> BareWord(configfile.value)
    requires NonEmpty(config) ==> Quotable(dumps(config.value))
    ensures Words(Launch(classpath, flag + " " + value,
                         ConfigFlags(configfile, config, Json(config, dumps))))
            == Some(JavaWords(classpath) + ["corenlp.SocketServer"] + [flag, value] + FileArgs(configfile)
                    + DictArgs(config, dumps))
  {
    var head := Head(classpath);
    ReadsHead(classpath);
    var sH := State(JavaWords(classpath), Some("corenlp.SocketServer"));
    ThenSpacing(head, " ", Start, sH);
    var s1 := State(Close(sH), None);
    ReadsCommInfo(flag, value, s1);
    var s2 := State(Close(sH) + [flag], Some(value));
    Then(head + " ", flag + " " + value, Start, s1, s2);
    ThenSpacing(head + " " + (flag + " " + value), " ", Start, s2);
    var st := ReadsConfigFlags(Close(s2), configfile, config, dumps);
    var mc := ConfigFlags(configfile, config, Json(config, dumps));
    Then(head + " " + (flag + " " + value) + " ", mc, Start, State(Close(s2), None), st);
    assert Close(s2) == JavaWords(classpath) + ["corenlp.SocketServer"] + [flag, value];
  }

  /**
    Every line `command` builds is split by the shell into `exec`, the Java
    options, the classpath as one word, the server class, the communication
    flag and its value, and the configuration flags with their values, the
    JSON of the dictionary as one word. The hypotheses keep the values
    inside the part of the shell language modelled.
  */
  lemma LaunchArguments(modes: map<string, ModeInfo>, mode: Option<string>, configfile: Option<string>,
                        configdict: Option<Config>, commMode: string, serverPort: int, outpipe: Option<string>,
                        classpath: string, dumps: Config -> string)
    requires CommandLine(modes, mode, configfile, configdict, commMode, serverPort, outpipe, classpath, dumps).Success?
    requires Quotable(classpath)
    requires Truthy(configfile) ==> BareWord(configfile.value)
    requires commMode == "PIPE" ==> BareWord(PyStr(outpipe))
    ensures Configure(modes, mode, configfile, configdict).Success?
    ensures Words(CommandLine(modes, mode, configfile, configdict, commMode, serverPort, outpipe, classpath, dumps).value)
            == Some(JavaWords(classpath) + ["corenlp.SocketServer"] + CommArgs(commMode, serverPort, outpipe)
                    + FileArgs(configfile) + DictArgs(Configure(modes, mode, configfile, configdict).value, dumps))
  {
    CommandAccepted(modes, mode, configfile, configdict, commMode, serverPort, outpipe, classpath, dumps);
    var config := EffectiveConfig(modes, mode, configdict);
    var flag, value := CommWords(commMode, serverPort, outpipe);
    ReadsTemplate(classpath, flag, value, configfile, config, dumps);
  }

  /** The communication flag and its value, each a bare word. */
  lemma CommWords(commMode: string, serverPort: int, outpipe: Option<string>) returns (flag: string, value: string)
    requires commMode == "SOCKET" || commMode == "PIPE"
    requires commMode == "PIPE" ==> BareWord(PyStr(outpipe))
    ensures BareWord(flag) && BareWord(value)
    ensures CommInfo(commMode, serverPort, outpipe) == Success(flag + " " + value)
    ensures CommArgs(commMode, serverPort, outpipe) == [flag, value]
  {
    if commMode == "SOCKET" {
      flag, value := "--server", Decimal(serverPort);
      DecimalBare(serverPort);
    } else {
      flag, value := "--outpipe", PyStr(outpipe);
    }
  }

  /** The line handed to the shell is a single line: every newline of the template became a blank. */
  lemma LaunchIsOneLine(modes: map<string, ModeInfo>, mode: Option<string>, configfile: Option<string>,
                        configdict: Option<Config>, commMode: string, serverPort: int, outpipe: Option<string>,
                        classpath: string, dumps: Config -> string)
    requires CommandLine(modes, mode, configfile, configdict, commMode, serverPort, outpipe, classpath, dumps).Success?
    ensures var line := CommandLine(modes, mode, configfile, configdict, commMode, serverPort, outpipe, classpath, dumps).value;
            forall i :: 0 <= i < |line| ==> line[i] != '\n'
  {
    CommandAccepted(modes, mode, configfile, configdict, commMode, serverPort, outpipe, classpath, dumps);
    var config := EffectiveConfig(modes, mode, configdict);
    NoNewlineLeft(Template(classpath, CommInfo(commMode, serverPort, outpipe).value,
                           ConfigFlags(configfile, config, Json(config, dumps))));
  }
}
