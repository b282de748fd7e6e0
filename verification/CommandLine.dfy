/**
 The command-line layer of src/common/app.h: `merge_parsed_arguments` and
 `process_arguments`, on parsed options. Command line over JSON over what was there.
 */
module CommandLine {
  import opened Wrappers
  import opened ConfigJson

  /** The options that were given, with the values they parsed to. */
  datatype Args = Args(
    help: bool,
    configPath: Option<string>,
    httpPort: Option<Uint16>,
    httpsPort: Option<Uint16>,
    certPath: Option<string>,
    privateKey: Option<string>,
    ignoreCertVerification: Option<bool>,
    upstreamHost: Option<string>,
    upstreamPort: Option<Uint16>,
    allowHttpsOverHttpPort: Option<bool>,
    throttlingEnabled: Option<bool>,
    requestsPerSecond: Option<Uint32>,
    burstSize: Option<Uint32>,
    logLevel: Option<string>,
    logOutput: Option<string>,
    runMode: Option<string>)

  /** `spdlog::level::from_str`: its own names, two short forms, and `off` for anything else. */
  function LevelFromStr(name: string): LogLevel {
    if name == "trace" then Trace
    else if name == "debug" then Debug
    else if name == "info" then Info
    else if name == "warning" || name == "warn" then Warn
    else if name == "error" || name == "err" then Err
    else if name == "critical" then Critical
    else Off
  }

  /** The value the command line gives to a property; an output or mode it does not know is no value. */
  function FromArgs(args: Args, p: Property): Option<Value> {
    match p
    case HttpPort => if args.httpPort.Some? then Some(Number(args.httpPort.value)) else None
    case HttpsPort => if args.httpsPort.Some? then Some(Number(args.httpsPort.value)) else None
    case RunModeOf =>
      if args.runMode == Some("single-request") then Some(Mode(SingleRequest))
      else if args.runMode == Some("persist") then Some(Mode(Persistent))
      else None
    case AllowHttpsOverHttpPort =>
      if args.allowHttpsOverHttpPort.Some? then Some(Flag(args.allowHttpsOverHttpPort.value)) else None
    case Certificate => if args.certPath.Some? then Some(Name(args.certPath.value)) else None
    case PrivateKey => if args.privateKey.Some? then Some(Name(args.privateKey.value)) else None
    case Host => if args.upstreamHost.Some? then Some(Name(args.upstreamHost.value)) else None
    case UpstreamPort => if args.upstreamPort.Some? then Some(Number(args.upstreamPort.value)) else None
    case IgnoreCertificateVerification =>
      if args.ignoreCertVerification.Some? then Some(Flag(args.ignoreCertVerification.value)) else None
    case Output =>
      if args.logOutput == Some("con") || args.logOutput == Some("console") then Some(Sink(Console))
      else if args.logOutput == Some("file") then Some(Sink(File))
      else None
    case Level => if args.logLevel.Some? then Some(Severity(LevelFromStr(args.logLevel.value))) else None
    case Enabled => if args.throttlingEnabled.Some? then Some(Flag(args.throttlingEnabled.value)) else None
    case RequestsPerSecond =>
      if args.requestsPerSecond.Some? then Some(Number(args.requestsPerSecond.value)) else None
    case BurstSize => if args.burstSize.Some? then Some(Number(args.burstSize.value)) else None
  }

  /** Both configurations have the same value wherever the schema and the options cannot reach. */
  predicate SameElsewhere(c: Config, d: Config) {
    c.configPath == d.configPath && c.server.workerThreads == d.server.workerThreads
  }

  method MergeServerArguments(args: Args, config: Config) returns (target: Config)
    ensures target == config.(server := target.server)
    ensures target.server.workerThreads == config.server.workerThreads
    ensures forall p :: SectionOf(p) == ServerSection ==> FieldOf(target, p) == FromArgs(args, p).Or(FieldOf(config, p))
  {
    target := config;
    if args.httpPort.Some? {
      target := target.(server := target.server.(httpPort := args.httpPort.value));
    }
    if args.httpsPort.Some? {
      target := target.(server := target.server.(httpsPort := args.httpsPort.value));
    }
    if args.allowHttpsOverHttpPort.Some? {
      target := target.(server := target.server.(allowHttpsOverHttpPort := args.allowHttpsOverHttpPort.value));
    }
    if args.runMode.Some? {
      if args.runMode.value == "single-request" {
        target := target.(server := target.server.(runMode := SingleRequest));
      } else if args.runMode.value == "persist" {
        target := target.(server := target.server.(runMode := Persistent));
      }
    }
  }

  method MergeOutboundArguments(args: Args, config: Config) returns (target: Config)
    ensures target == config.(tls := target.tls, upstream := target.upstream)
    ensures forall p :: SectionOf(p) == TlsSection || SectionOf(p) == UpstreamSection ==>
              FieldOf(target, p) == FromArgs(args, p).Or(FieldOf(config, p))
  {
    target := config;
    if args.certPath.Some? {
      target := target.(tls := target.tls.(certificate := args.certPath.value));
    }
    if args.privateKey.Some? {
      target := target.(tls := target.tls.(privateKey := args.privateKey.value));
    }
    if args.ignoreCertVerification.Some? {
      target := target.(upstream :=
        target.upstream.(ignoreCertificateVerification := args.ignoreCertVerification.value));
    }
    if args.upstreamHost.Some? {
      target := target.(upstream := target.upstream.(host := args.upstreamHost.value));
    }
    if args.upstreamPort.Some? {
      target := target.(upstream := target.upstream.(port := args.upstreamPort.value));
    }
  }

  method MergeOtherArguments(args: Args, config: Config) returns (target: Config)
    ensures target == config.(logging := target.logging, throttling := target.throttling)
    ensures forall p :: SectionOf(p) == LoggingSection || SectionOf(p) == ThrottlingSection ==>
              FieldOf(target, p) == FromArgs(args, p).Or(FieldOf(config, p))
  {
    target := config;
    if args.throttlingEnabled.Some? {
      target := target.(throttling := target.throttling.(enabled := args.throttlingEnabled.value));
    }
    if args.requestsPerSecond.Some? {
      target := target.(throttling := target.throttling.(requestsPerSecond := args.requestsPerSecond.value));
    }
    if args.burstSize.Some? {
      target := target.(throttling := target.throttling.(burstSize := args.burstSize.value));
    }
    if args.logLevel.Some? {
      target := target.(logging := target.logging.(level := LevelFromStr(args.logLevel.value)));
    }
    if args.logOutput.Some? {
      if args.logOutput.value == "con" || args.logOutput.value == "console" {
        target := target.(logging := target.logging.(output := Console));
      } else if args.logOutput.value == "file" {
        target := target.(logging := target.logging.(output := File));
      }
    }
  }

  /** What the options say in so many words: each sets its own field, and unknown words for output and mode set nothing. */
  ghost predicate OptionsTaken(args: Args, config: Config, target: Config) {
    && target.server.httpPort == args.httpPort.Or(config.server.httpPort)
    && target.server.httpsPort == args.httpsPort.Or(config.server.httpsPort)
    && target.server.allowHttpsOverHttpPort == args.allowHttpsOverHttpPort.Or(config.server.allowHttpsOverHttpPort)
    && target.server.runMode == (if args.runMode == Some("persist") then Persistent
                                 else if args.runMode == Some("single-request") then SingleRequest
                                 else config.server.runMode)
    && target.tls.certificate == args.certPath.Or(config.tls.certificate)
    && target.tls.privateKey == args.privateKey.Or(config.tls.privateKey)
    && target.upstream.host == args.upstreamHost.Or(config.upstream.host)
    && target.upstream.port == args.upstreamPort.Or(config.upstream.port)
    && target.upstream.ignoreCertificateVerification
       == args.ignoreCertVerification.Or(config.upstream.ignoreCertificateVerification)
    && target.throttling.enabled == args.throttlingEnabled.Or(config.throttling.enabled)
    && target.throttling.requestsPerSecond == args.requestsPerSecond.Or(config.throttling.requestsPerSecond)
    && target.throttling.burstSize == args.burstSize.Or(config.throttling.burstSize)
    && target.logging.output == (if args.logOutput == Some("console") || args.logOutput == Some("con") then Console
                                 else if args.logOutput == Some("file") then File
                                 else config.logging.output)
    && (args.logLevel.None? ==> target.logging.level == config.logging.level)
    && (args.logLevel.Some? ==> LevelNamed(args.logLevel.value, target.logging.level))
  }

  /** The level of each name; any other name switches logging off. */
  predicate LevelNamed(name: string, level: LogLevel) {
    match level
    case Trace => name == "trace"
    case Debug => name == "debug"
    case Info => name == "info"
    case Warn => name == "warning" || name == "warn"
    case Err => name == "error" || name == "err"
    case Critical => name == "critical"
    case Off => name !in {"trace", "debug", "info", "warning", "warn", "error", "err", "critical"}
  }

  lemma LevelIsNamed(name: string)
    ensures LevelNamed(name, LevelFromStr(name))
  {
  }

  /** Property by property is field by field. */
  lemma OptionsAreTaken(args: Args, config: Config, target: Config)
    requires forall p :: FieldOf(target, p) == FromArgs(args, p).Or(FieldOf(config, p))
    ensures OptionsTaken(args, config, target)
  {
    ServerOptions(args, config, target);
    OutboundOptions(args, config, target);
    OtherOptions(args, config, target);
  }

  lemma ServerOptions(args: Args, config: Config, target: Config)
    requires forall p :: FieldOf(target, p) == FromArgs(args, p).Or(FieldOf(config, p))
    ensures target.server.httpPort == args.httpPort.Or(config.server.httpPort)
    ensures target.server.httpsPort == args.httpsPort.Or(config.server.httpsPort)
    ensures target.server.allowHttpsOverHttpPort == args.allowHttpsOverHttpPort.Or(config.server.allowHttpsOverHttpPort)
    ensures target.server.runMode == (if args.runMode == Some("persist") then Persistent
                                      else if args.runMode == Some("single-request") then SingleRequest
                                      else config.server.runMode)
  {
    assert FieldOf(target, HttpPort) == FromArgs(args, HttpPort).Or(FieldOf(config, HttpPort));
    assert FieldOf(target, HttpsPort) == FromArgs(args, HttpsPort).Or(FieldOf(config, HttpsPort));
    assert FieldOf(target, AllowHttpsOverHttpPort)
        == FromArgs(args, AllowHttpsOverHttpPort).Or(FieldOf(config, AllowHttpsOverHttpPort));
    assert FieldOf(target, RunModeOf) == FromArgs(args, RunModeOf).Or(FieldOf(config, RunModeOf));
  }

  lemma OutboundOptions(args: Args, config: Config, target: Config)
    requires forall p :: FieldOf(target, p) == FromArgs(args, p).Or(FieldOf(config, p))
    ensures target.tls.certificate == args.certPath.Or(config.tls.certificate)
    ensures target.tls.privateKey == args.privateKey.Or(config.tls.privateKey)
    ensures target.upstream.host == args.upstreamHost.Or(config.upstream.host)
    ensures target.upstream.port == args.upstreamPort.Or(config.upstream.port)
    ensures target.upstream.ignoreCertificateVerification
         == args.ignoreCertVerification.Or(config.upstream.ignoreCertificateVerification)
  {
    assert FieldOf(target, Certificate) == FromArgs(args, Certificate).Or(FieldOf(config, Certificate));
    assert FieldOf(target, PrivateKey) == FromArgs(args, PrivateKey).Or(FieldOf(config, PrivateKey));
    assert FieldOf(target, Host) == FromArgs(args, Host).Or(FieldOf(config, Host));
    assert FieldOf(target, UpstreamPort) == FromArgs(args, UpstreamPort).Or(FieldOf(config, UpstreamPort));
    assert FieldOf(target, IgnoreCertificateVerification)
        == FromArgs(args, IgnoreCertificateVerification).Or(FieldOf(config, IgnoreCertificateVerification));
  }

  lemma OtherOptions(args: Args, config: Config, target: Config)
    requires forall p :: FieldOf(target, p) == FromArgs(args, p).Or(FieldOf(config, p))
    ensures target.throttling.enabled == args.throttlingEnabled.Or(config.throttling.enabled)
    ensures target.throttling.requestsPerSecond == args.requestsPerSecond.Or(config.throttling.requestsPerSecond)
    ensures target.throttling.burstSize == args.burstSize.Or(config.throttling.burstSize)
    ensures target.logging.output == (if args.logOutput == Some("console") || args.logOutput == Some("con") then Console
                                      else if args.logOutput == Some("file") then File
                                      else config.logging.output)
    ensures args.logLevel.None? ==> target.logging.level == config.logging.level
    ensures args.logLevel.Some? ==> LevelNamed(args.logLevel.value, target.logging.level)
  {
    assert FieldOf(target, Enabled) == FromArgs(args, Enabled).Or(FieldOf(config, Enabled));
    assert FieldOf(target, RequestsPerSecond) == FromArgs(args, RequestsPerSecond).Or(FieldOf(config, RequestsPerSecond));
    assert FieldOf(target, BurstSize) == FromArgs(args, BurstSize).Or(FieldOf(config, BurstSize));
    assert FieldOf(target, Output) == FromArgs(args, Output).Or(FieldOf(config, Output));
    assert FieldOf(target, Level) == FromArgs(args, Level).Or(FieldOf(config, Level));
    if args.logLevel.Some? {
      LevelIsNamed(args.logLevel.value);
    }
  }

  /** Every property gets the value the command line gives it, or keeps the one it had. */
  method MergeParsedArguments(args: Args, config: Config) returns (target: Config)
    ensures SameElsewhere(target, config)
    ensures forall p :: FieldOf(target, p) == FromArgs(args, p).Or(FieldOf(config, p))
    ensures OptionsTaken(args, config, target)
  {
    var first := MergeServerArguments(args, config);
    var second := MergeOutboundArguments(args, first);
    target := MergeOtherArguments(args, second);
    forall p: Property
      ensures FieldOf(target, p) == FromArgs(args, p).Or(FieldOf(config, p))
    {
      match SectionOf(p)
      case ServerSection => assert FieldOf(target, p) == FieldOf(first, p);
      case TlsSection => assert FieldOf(target, p) == FieldOf(second, p) && FieldOf(first, p) == FieldOf(config, p);
      case UpstreamSection => assert FieldOf(target, p) == FieldOf(second, p) && FieldOf(first, p) == FieldOf(config, p);
      case LoggingSection => assert FieldOf(second, p) == FieldOf(first, p) == FieldOf(config, p);
      case ThrottlingSection => assert FieldOf(second, p) == FieldOf(first, p) == FieldOf(config, p);
    }
    OptionsAreTaken(args, config, target);
  }

  datatype Outcome = Completed(exitCode: int, usageRequested: bool) | LoadFailed

  /** What the option parser made of the command line; a path it had stored before it failed stays stored. */
  datatype Parsing = Parsed(args: Args) | Rejected(configPath: Option<string>)

  /** The path is stored while the options are parsed. */
  function StoredPath(parsing: Parsing): Option<string> {
    match parsing
    case Parsed(args) => args.configPath
    case Rejected(path) => path
  }

  /** The configuration is to be worked out. */
  predicate Runs(parsing: Parsing) {
    parsing.Parsed? && !parsing.args.help
  }

  class App {
    var settings: Settings

    constructor (settings: Settings)
      ensures this.settings == settings
    {
      this.settings := settings;
    }

    /**
     `process_arguments`; `document` is what the configuration file holds, None if it cannot be read.
     A rejected command line, a request for help or a failed load leaves every property as it
     was. Otherwise each property is the command line's value, else the document's, else the
     previous one. The exit code is one for a rejected command line and for coinciding ports.
     */
    method ProcessArguments(parsing: Parsing, document: Option<Json>) returns (outcome: Outcome)
      modifies settings
      ensures settings.config.configPath == StoredPath(parsing).Or(old(settings.config.configPath))
      ensures settings.config.server.workerThreads == old(settings.config.server.workerThreads)
      ensures outcome == LoadFailed <==>
                Runs(parsing) && parsing.args.configPath.Some? && (document.None? || !Valid(document.value))
      ensures outcome == LoadFailed || !Runs(parsing) ==>
                forall p :: FieldOf(settings.config, p) == FieldOf(old(settings.config), p)
      ensures outcome.Completed? ==> (outcome.usageRequested <==> parsing.Parsed? && parsing.args.help)
      ensures outcome.Completed? && Runs(parsing) ==>
                var given := if parsing.args.configPath.Some? then document else None;
                && (forall p :: given.Some? && Lookup(given.value, p).Some? ==> Acceptable(p, Lookup(given.value, p).value))
                && (forall p :: FromArgs(parsing.args, p).Some? ==>
                      FieldOf(settings.config, p) == FromArgs(parsing.args, p).value)
                && (forall p :: FromArgs(parsing.args, p).None? && given.Some? && Lookup(given.value, p).Some? ==>
                      FieldOf(settings.config, p) == Meaning(p, Lookup(given.value, p).value))
                && (forall p :: FromArgs(parsing.args, p).None? && (given.None? || Lookup(given.value, p).None?) ==>
                      FieldOf(settings.config, p) == FieldOf(old(settings.config), p))
      ensures outcome.Completed? ==>
                (outcome.exitCode == 1 <==>
                   parsing.Rejected?
                   || (Runs(parsing) && settings.config.server.httpPort == settings.config.server.httpsPort))
                && 0 <= outcome.exitCode <= 1
    {
      var stored := StoredPath(parsing);
      if stored.Some? {
        settings.config := settings.config.(configPath := stored.value);
      }
      ghost var before := settings.config;
      SameFields(before, old(settings.config));
      if parsing.Rejected? {
        return Completed(1, false);
      }
      var args := parsing.args;
      if args.help {
        return Completed(0, true);
      }
      if args.configPath.Some? {
        var ok := settings.LoadJsonConfig(document);
        if !ok {
          return LoadFailed;
        }
        MergedEverywhere(document.value, before);
      }
      var merged := MergeParsedArguments(args, settings.config);
      settings.config := merged;
      outcome := Completed(if merged.server.httpPort == merged.server.httpsPort then 1 else 0, false);
    }
  }

  lemma SameFields(c: Config, d: Config)
    requires c == d.(configPath := c.configPath)
    ensures forall p :: FieldOf(c, p) == FieldOf(d, p)
  {
  }

  lemma MergedEverywhere(root: Json, c: Config)
    requires Valid(root)
    ensures forall p :: Lookup(root, p).Some? ==> Acceptable(p, Lookup(root, p).value)
    ensures forall p :: FieldOf(Overlaid(root, c), p)
                     == if Lookup(root, p).Some? then Meaning(p, Lookup(root, p).value) else FieldOf(c, p)
    ensures SameElsewhere(Overlaid(root, c), c)
  {
    forall p: Property
      ensures Lookup(root, p).Some? ==> Acceptable(p, Lookup(root, p).value)
      ensures FieldOf(Overlaid(root, c), p)
           == if Lookup(root, p).Some? then Meaning(p, Lookup(root, p).value) else FieldOf(c, p)
    {
      MergedProperty(root, c, p);
    }
  }
}
