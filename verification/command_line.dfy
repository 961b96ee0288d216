/**
  The worker launch line built by `command` (sockwrap.py), from the mode
  table MODES, the optional configuration file and dictionary, and the
  communication mode. A dictionary is a `map<string, string>`; `json.dumps`
  is a parameter of the model, an arbitrary function from dictionaries to
  text. Failures are the exceptions `command` raises: the assertions of
  lines 60, 63 and 72 and the KeyErrors of lines 66 and 81.
*/
module CommandBuilder {
  import opened Wrappers
  import opened ShellWords

  /** A configuration dictionary: property name to value. */
  type Config = map<string, string>

  /** An entry of MODES. */
  datatype ModeInfo = ModeInfo(annotators: string, description: string)

  /** The annotators of the first mode, with which every mode's list begins. */
  const Ssplit := "tokenize, ssplit"

  /** MODES: the prebaked annotator pipelines. */
  const Modes: map<string, ModeInfo> := map[
    "ssplit" := ModeInfo(Ssplit,
      "tokenization and sentence splitting (included in all subsequent ones)"),
    "pos" := ModeInfo(Ssplit + ", pos, lemma", "POS (and lemmas)"),
    "ner" := ModeInfo(Ssplit + ", pos, lemma, ner, entitymentions", "POS and NER (and lemmas)"),
    "parse" := ModeInfo(Ssplit + ", pos, lemma, parse",
      "fairly basic parsing with POS, lemmas, trees, dependencies"),
    "nerparse" := ModeInfo(Ssplit + ", pos, lemma, ner, entitymentions, parse",
      "parsing with NER, POS, lemmas, depenencies."),
    "coref" := ModeInfo(Ssplit + ", pos, lemma, ner, entitymentions, parse, dcoref",
      "Coreference, including constituent parsing.")
  ]

  const AnnotatorsKey := "annotators"
  const Java := "java"
  const XmxAmount := "4g"

  /** Why `command` refuses to build a line. */
  datatype CommandError =
    | NoConfiguration    // mode, configfile and configdict all None
    | AnnotatorsConflict // a mode, and a configdict that already sets annotators
    | UnknownMode        // the mode is not a key of MODES
    | QuoteInConfig      // the JSON of the configdict contains a single quote
    | UnknownCommMode    // neither SOCKET nor PIPE: no comm_info to format

  /** Python truthiness of an optional string: present and non-empty. */
  predicate Truthy(s: Option<string>)
  {
    s.Some? && |s.value| > 0
  }

  /** Python truthiness of an optional dictionary. */
  predicate NonEmpty(c: Option<Config>)
  {
    c.Some? && |c.value| > 0
  }

  /** `str` of an optional string: None is written "None". */
  function PyStr(s: Option<string>): string
  {
    if s.Some? then s.value else "None"
  }

  /** The decimal digit for d. */
  function DigitChar(d: nat): (c: char)
    requires d < 10
    ensures Plain(c)
  {
    "0123456789"[d]
  }

  /** The decimal numeral of n, without sign. */
  function Digits(n: nat): string
  {
    if n < 10 then [DigitChar(n)] else Digits(n / 10) + [DigitChar(n % 10)]
  }

  /** `str` of an integer, as formatted into "--server {server_port}". */
  function Decimal(n: int): string
  {
    if n < 0 then "-" + Digits(-n) else Digits(n)
  }

  /** A numeral is one bare word. */
  lemma {:induction false} DigitsBare(n: nat)
    ensures BareWord(Digits(n))
  {
    if n >= 10 {
      DigitsBare(n / 10);
      var d := Digits(n / 10);
      assert Digits(n) == d + [DigitChar(n % 10)];
    }
  }

  /** The port is written as one bare word, its sign included. */
  lemma DecimalBare(n: int)
    ensures BareWord(Decimal(n))
  {
    if n < 0 {
      DigitsBare(-n);
      assert Decimal(n) == "-" + Digits(-n);
    } else {
      DigitsBare(n);
    }
  }

  /** `s.replace("\n", " ")`. */
  function ReplaceNewlines(s: string): string
  {
    if |s| == 0 then ""
    else ReplaceNewlines(s[..|s| - 1]) + [if s[|s| - 1] == '\n' then ' ' else s[|s| - 1]]
  }

  /** The template up to the server class name. */
  function Head(classpath: string): string
  {
    "\n" + "exec" + " " + Java + " " + "-Xmx" + XmxAmount + " " + "-XX:ParallelGCThreads=1" + " " + "-cp"
    + " " + "'" + classpath + "'" + "\n" + "    " + "corenlp.SocketServer"
  }

  /** The COMMAND template with its fields filled in. */
  function Template(classpath: string, commInfo: string, moreConfig: string): string
  {
    Head(classpath) + " " + commInfo + " " + moreConfig
  }

  /** The launch line: the filled-in template on one line. */
  function Launch(classpath: string, commInfo: string, moreConfig: string): string
  {
    ReplaceNewlines(Template(classpath, commInfo, moreConfig))
  }

  /** The dictionary `command` works on after lines 61-67: MODES' annotators added when a mode is given. */
  function EffectiveConfig(modes: map<string, ModeInfo>, mode: Option<string>, configdict: Option<Config>): Option<Config>
    requires Truthy(mode) ==> mode.value in modes
  {
    if Truthy(mode) then
      var base := if configdict.Some? then configdict.value else map[];
      Some(base[AnnotatorsKey := modes[mode.value].annotators])
    else configdict
  }

  /** Lines 59-67: the checks on the configuration sources, and the dictionary they leave. */
  function Configure(modes: map<string, ModeInfo>, mode: Option<string>, configfile: Option<string>,
                     configdict: Option<Config>): Result<Option<Config>, CommandError>
  {
    if mode.None? && configfile.None? && configdict.None? then Failure(NoConfiguration)
    else if Truthy(mode) && configdict.Some? && AnnotatorsKey in configdict.value then Failure(AnnotatorsConflict)
    else if Truthy(mode) && mode.value !in modes then Failure(UnknownMode)
    else Success(EffectiveConfig(modes, mode, configdict))
  }

  /** A flag and its value as appended to more_config: " --name value". */
  function Flag(flag: string, value: string): string
  {
    " " + flag + " " + value
  }

  /** Line 69: the configuration file flag. */
  function FileFlags(configfile: Option<string>): string
  {
    if Truthy(configfile) then Flag("--configfile", configfile.value) else ""
  }

  /** Line 73: the configuration dictionary flag, its JSON j in single quotes. */
  function DictFlags(config: Option<Config>, j: string): string
  {
    if NonEmpty(config) then Flag("--configdict", Quote(j)) else ""
  }

  /** Lines 68-73: the optional configuration flags, given the JSON j of the dictionary. */
  function ConfigFlags(configfile: Option<string>, config: Option<Config>, j: string): string
  {
    FileFlags(configfile) + DictFlags(config, j)
  }

  /** Lines 68-74: more_config, or the failed assertion on a single quote in the JSON. */
  function MoreConfig(configfile: Option<string>, config: Option<Config>, dumps: Config -> string)
    : Result<string, CommandError>
  {
    var j := Json(config, dumps);
    if !Quotable(j) then Failure(QuoteInConfig) else Success(ConfigFlags(configfile, config, j))
  }

  /** Lines 76-79: the communication flag and its value; any other mode leaves comm_info unset. */
  function CommInfo(commMode: string, serverPort: int, outpipe: Option<string>): Result<string, CommandError>
  {
    if commMode == "SOCKET" then Success("--server" + " " + Decimal(serverPort))
    else if commMode == "PIPE" then Success("--outpipe" + " " + PyStr(outpipe))
    else Failure(UnknownCommMode)
  }

  /** `command(mode, configfile, configdict, comm_mode, server_port=..., outpipe=..., classpath=...)`. */
  function CommandLine(modes: map<string, ModeInfo>, mode: Option<string>, configfile: Option<string>,
                       configdict: Option<Config>, commMode: string, serverPort: int, outpipe: Option<string>,
                       classpath: string, dumps: Config -> string): Result<string, CommandError>
  {
    match Configure(modes, mode, configfile, configdict)
    case Failure(e) => Failure(e)
    case Success(config) =>
      match MoreConfig(configfile, config, dumps)
      case Failure(e) => Failure(e)
      case Success(moreConfig) =>
        match CommInfo(commMode, serverPort, outpipe)
        case Failure(e) => Failure(e)
        case Success(commInfo) => Success(Launch(classpath, commInfo, moreConfig))
  }

  /**
    What the caller's configdict holds after the call: line 67 stores the
    annotators into the very dictionary the caller passed, whenever a mode is
    given and the call gets that far.
  */
  function CallerDictAfter(modes: map<string, ModeInfo>, mode: Option<string>, configdict: Option<Config>)
    : Option<Config>
  {
    if Truthy(mode) && configdict.Some? && AnnotatorsKey !in configdict.value && mode.value in modes
    then Some(configdict.value[AnnotatorsKey := modes[mode.value].annotators])
    else configdict
  }

  /**
    `command`, step by step: returns the launch line or the exception, and
    the caller's configdict as the call leaves it.
  */
  method Command(modes: map<string, ModeInfo>, mode: Option<string>, configfile: Option<string>,
                 configdict: Option<Config>, commMode: string, serverPort: int, outpipe: Option<string>,
                 classpath: string, dumps: Config -> string)
    returns (r: Result<string, CommandError>, callerDict: Option<Config>)
    ensures r == CommandLine(modes, mode, configfile, configdict, commMode, serverPort, outpipe, classpath, dumps)
    ensures callerDict == CallerDictAfter(modes, mode, configdict)
  {
    var config;
    config, callerDict := ApplyMode(modes, mode, configfile, configdict);
    if config.Failure? {
      return Failure(config.error), callerDict;
    }
    var moreConfig := BuildMoreConfig(configfile, config.value, dumps);
    if moreConfig.Failure? {
      return Failure(moreConfig.error), callerDict;
    }
    var commInfo := CommInfo(commMode, serverPort, outpipe);
    if commInfo.Failure? {
      return Failure(commInfo.error), callerDict;
    }
    r := Success(Launch(classpath, commInfo.value, moreConfig.value));
  }

  /** Lines 59-67 of `command`: returns the dictionary to serialise, and the caller's dictionary after. */
  method ApplyMode(modes: map<string, ModeInfo>, mode: Option<string>, configfile: Option<string>,
                   configdict: Option<Config>)
    returns (r: Result<Option<Config>, CommandError>, callerDict: Option<Config>)
    ensures r == Configure(modes, mode, configfile, configdict)
    ensures callerDict == CallerDictAfter(modes, mode, configdict)
  {
    callerDict := configdict;
    if mode.None? && configfile.None? && configdict.None? {
      return Failure(NoConfiguration), callerDict;
    }
    var config := configdict;
    if Truthy(mode) {
      if config.Some? {
        if AnnotatorsKey in config.value {
          return Failure(AnnotatorsConflict), callerDict;
        }
      } else {
        config := Some(map[]);
      }
      if mode.value !in modes {
        return Failure(UnknownMode), callerDict;
      }
      config := Some(config.value[AnnotatorsKey := modes[mode.value].annotators]);
      if configdict.Some? {
        callerDict := config;  // the same dictionary object as the caller's
      }
    }
    r := Success(config);
  }

  /** Lines 68-74 of `command`: more_config, appended to flag by flag. */
  method BuildMoreConfig(configfile: Option<string>, config: Option<Config>, dumps: Config -> string)
    returns (r: Result<string, CommandError>)
    ensures r == MoreConfig(configfile, config, dumps)
  {
    var moreConfig := "";
    if Truthy(configfile) {
      moreConfig := moreConfig + Flag("--configfile", configfile.value);
    }
    ghost var fileFlags := moreConfig;
    assert fileFlags == FileFlags(configfile);
    if config.Some? && |config.value| > 0 {
      var j := dumps(config.value);
      if !Quotable(j) {
        return Failure(QuoteInConfig);
      }
      moreConfig := moreConfig + Flag("--configdict", Quote(j));
    } else {
      assert moreConfig == fileFlags + "";
    }
    r := Success(moreConfig);
  }

  /** The JSON text `command` checks and quotes: that of the effective dictionary, when it is non-empty. */
  function Json(config: Option<Config>, dumps: Config -> string): string
  {
    if NonEmpty(config) then dumps(config.value) else ""
  }

  /** The conditions under which `command` returns a line rather than raising. */
  predicate Accepted(modes: map<string, ModeInfo>, mode: Option<string>, configfile: Option<string>,
                     configdict: Option<Config>, commMode: string, dumps: Config -> string)
  {
    && (mode.Some? || configfile.Some? || configdict.Some?)
    && (Truthy(mode) ==> mode.value in modes && !(configdict.Some? && AnnotatorsKey in configdict.value))
    && Quotable(Json(EffectiveConfig(modes, mode, configdict), dumps))
    && (commMode == "SOCKET" || commMode == "PIPE")
  }

  /**
    `command` returns a line exactly when every check passes, and the line
    is the template filled with the communication flag and the flags of the
    effective dictionary.
  */
  lemma CommandAccepted(modes: map<string, ModeInfo>, mode: Option<string>, configfile: Option<string>,
                        configdict: Option<Config>, commMode: string, serverPort: int, outpipe: Option<string>,
                        classpath: string, dumps: Config -> string)
    ensures CommandLine(modes, mode, configfile, configdict, commMode, serverPort, outpipe, classpath, dumps).Success?
            <==> Accepted(modes, mode, configfile, configdict, commMode, dumps)
    ensures Accepted(modes, mode, configfile, configdict, commMode, dumps) ==>
              var config := EffectiveConfig(modes, mode, configdict);
              && Configure(modes, mode, configfile, configdict) == Success(config)
              && CommandLine(modes, mode, configfile, configdict, commMode, serverPort, outpipe, classpath, dumps).value
                 == Launch(classpath, CommInfo(commMode, serverPort, outpipe).value,
                           ConfigFlags(configfile, config, Json(config, dumps)))
  {
  }

  /** Each exception `command` raises is raised for its own reason. */
  lemma CommandErrors(modes: map<string, ModeInfo>, mode: Option<string>, configfile: Option<string>,
                      configdict: Option<Config>, commMode: string, serverPort: int, outpipe: Option<string>,
                      classpath: string, dumps: Config -> string)
    ensures var r := CommandLine(modes, mode, configfile, configdict, commMode, serverPort, outpipe, classpath, dumps);
            && (r == Failure(NoConfiguration) <==> mode.None? && configfile.None? && configdict.None?)
            && (r == Failure(AnnotatorsConflict) ==> Truthy(mode) && configdict.Some? && AnnotatorsKey in configdict.value)
            && (r == Failure(UnknownMode) ==> Truthy(mode) && mode.value !in modes)
            && (r == Failure(QuoteInConfig) ==> (Truthy(mode) ==> mode.value in modes)
                                                && !Quotable(Json(EffectiveConfig(modes, mode, configdict), dumps)))
            && (r == Failure(UnknownCommMode) <==> Accepted(modes, mode, configfile, configdict, "SOCKET", dumps)
                                                   && commMode != "SOCKET" && commMode != "PIPE")
  {
  }

  /**
    With a mode, the effective dictionary is the caller's (or an empty one)
    with the mode's annotators added; without one it is the caller's.
  */
  lemma ModeSetsAnnotators(modes: map<string, ModeInfo>, mode: Option<string>, configfile: Option<string>,
                           configdict: Option<Config>)
    requires Configure(modes, mode, configfile, configdict).Success?
    ensures var config := Configure(modes, mode, configfile, configdict).value;
            && (!Truthy(mode) ==> config == configdict)
            && (Truthy(mode) ==>
                  && config.Some?
                  && config.value[AnnotatorsKey] == modes[mode.value].annotators
                  && config.value.Keys == (if configdict.Some? then configdict.value.Keys else {}) + {AnnotatorsKey}
                  && (configdict.Some? ==> forall k :: k in configdict.value ==> config.value[k] == configdict.value[k]))
  {
  }

  /** Every prebaked pipeline starts with tokenisation and sentence splitting. */
  lemma ModesStartWithSsplit()
    ensures forall m :: m in Modes ==> Ssplit <= Modes[m].annotators
  {
  }

  /**
    As written, `start_server` hands `self.configdict` itself to `command`,
    which stores the annotators into it. The next start (a restart after the
    worker exited) then finds annotators in the dictionary and raises the
    assertion of line 63: a client given a mode and a dictionary can start
    its worker once only.
  */
  lemma RestartRejected(modes: map<string, ModeInfo>, mode: Option<string>, configfile: Option<string>,
                        configdict: Option<Config>, commMode: string, serverPort: int, outpipe: Option<string>,
                        classpath: string, dumps: Config -> string)
    requires CommandLine(modes, mode, configfile, configdict, commMode, serverPort, outpipe, classpath, dumps).Success?
    requires Truthy(mode) && configdict.Some?
    ensures CommandLine(modes, mode, configfile, CallerDictAfter(modes, mode, configdict), commMode, serverPort,
                        outpipe, classpath, dumps) == Failure(AnnotatorsConflict)
  {
  }

  /** The smallest case: mode "ssplit" with an empty dictionary starts once, then is refused. */
  lemma RestartRejectedExample(serverPort: int, classpath: string, dumps: Config -> string)
    requires Quotable(dumps(map[AnnotatorsKey := Ssplit]))
    ensures CommandLine(Modes, Some("ssplit"), None, Some(map[]), "SOCKET", serverPort, None, classpath, dumps).Success?
    ensures CallerDictAfter(Modes, Some("ssplit"), Some(map[])) == Some(map[AnnotatorsKey := Ssplit])
    ensures CommandLine(Modes, Some("ssplit"), None, Some(map[AnnotatorsKey := Ssplit]), "SOCKET", serverPort, None,
                        classpath, dumps) == Failure(AnnotatorsConflict)
  {
    var empty: Config := map[];
    assert empty[AnnotatorsKey := Modes["ssplit"].annotators] == map[AnnotatorsKey := Ssplit];
  }
}
