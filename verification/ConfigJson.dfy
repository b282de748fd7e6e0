/**
 The JSON layer of the configuration: `merge_json_config` and `load_json_config` of
 src/config/config_json.cpp, on a parsed document.
 */
module ConfigJson {
  import opened Wrappers
  import opened Text

  type Uint16 = n: int | 0 <= n < 0x1_0000
  type Uint32 = n: int | 0 <= n < 0x1_0000_0000
  type Uint64 = n: int | 0 <= n < 0x1_0000_0000_0000_0000
  type Int64 = n: int | -0x8000_0000_0000_0000 <= n < 0x8000_0000_0000_0000

  /** A JSON value; integers are held signed or unsigned, in 64 bits. */
  datatype Json =
    | Null
    | Boolean(b: bool)
    | Signed(i: Int64)
    | Unsigned(u: Uint64)
    | Float(r: real)
    | Str(s: string)
    | Array(elements: seq<Json>)
    | Object(members: map<string, Json>)

  datatype RunMode = Persistent | SingleRequest
  datatype LoggerType = Console | File
  datatype LogLevel = Trace | Debug | Info | Warn | Err | Critical | Off

  datatype Server = Server(
    httpPort: Uint16, httpsPort: Uint16, runMode: RunMode, allowHttpsOverHttpPort: bool, workerThreads: Uint16)
  datatype Tls = Tls(certificate: string, privateKey: string)
  datatype Upstream = Upstream(host: string, port: Uint16, ignoreCertificateVerification: bool)
  datatype Logging = Logging(output: LoggerType, level: LogLevel)
  datatype Throttling = Throttling(enabled: bool, requestsPerSecond: Uint32, burstSize: Uint32)

  datatype Config = Config(
    configPath: string, server: Server, tls: Tls, upstream: Upstream, logging: Logging, throttling: Throttling)

  // ---------------------------------------------------------------- Reading values

  /** Conversion of an unsigned 64-bit value to a signed one: it wraps. */
  function WrapToInt64(u: Uint64): Int64 {
    if u < 0x8000_0000_0000_0000 then u else u - 0x1_0000_0000_0000_0000
  }

  /** `get<std::int64_t>()`. */
  function AsInt64(v: Json): Int64
    requires v.Signed? || v.Unsigned?
  {
    if v.Unsigned? then WrapToInt64(v.u) else v.i
  }

  function ReadPort(v: Json): Option<Uint16> {
    if !v.Signed? && !v.Unsigned? then None
    else
      var port := AsInt64(v);
      if port < 1 || port > 65535 then None else Some(port)
  }

  function ReadUint32(v: Json): Option<Uint32> {
    if !v.Signed? && !v.Unsigned? then None
    else if v.Unsigned? then
      if v.u <= 0xFFFF_FFFF then Some(v.u) else None
    else
      if v.i >= 0 && v.i <= 0xFFFF_FFFF then Some(v.i) else None
  }

  function ReadString(v: Json, allowEmpty: bool): Option<string> {
    if !v.Str? || (!allowEmpty && v.s == "") then None else Some(v.s)
  }

  function ReadBool(v: Json): Option<bool> {
    if v.Boolean? then Some(v.b) else None
  }

  function ReadRunMode(v: Json): Option<RunMode> {
    if !v.Str? then None
    else if v.s == "persist" then Some(Persistent)
    else if v.s == "single-request" then Some(SingleRequest)
    else None
  }

  function ReadLogOutput(v: Json): Option<LoggerType> {
    if !v.Str? then None
    else if v.s == "console" || v.s == "con" then Some(Console)
    else if v.s == "file" then Some(File)
    else None
  }

  function ReadLogLevel(v: Json): Option<LogLevel> {
    if !v.Str? then None
    else if v.s == "trace" then Some(Trace)
    else if v.s == "debug" then Some(Debug)
    else if v.s == "info" then Some(Info)
    else if v.s == "warning" then Some(Warn)
    else if v.s == "error" then Some(Err)
    else if v.s == "critical" then Some(Critical)
    else if v.s == "off" then Some(Off)
    else None
  }

  /** The number an integer value denotes. */
  function Denoted(v: Json): Option<int> {
    match v
    case Signed(i) => Some(i)
    case Unsigned(u) => Some(u)
    case _ => None
  }

  /**
   For every signed or unsigned 64-bit integer, and every other value: a port is accepted
   exactly for 1..65535 and a throttling number exactly for 0..2^32-1, and unchanged.
   */
  lemma NumericGates(v: Json)
    ensures ReadPort(v).Some? <==> Denoted(v).Some? && 1 <= Denoted(v).value <= 65535
    ensures ReadPort(v).Some? ==> ReadPort(v).value == Denoted(v).value
    ensures ReadUint32(v).Some? <==> Denoted(v).Some? && 0 <= Denoted(v).value <= 0xFFFF_FFFF
    ensures ReadUint32(v).Some? ==> ReadUint32(v).value == Denoted(v).value
  {
  }

  // ---------------------------------------------------------------- The schema

  datatype Section = ServerSection | TlsSection | UpstreamSection | LoggingSection | ThrottlingSection

  datatype Property =
    | HttpPort | HttpsPort | RunModeOf | AllowHttpsOverHttpPort
    | Certificate | PrivateKey
    | Host | UpstreamPort | IgnoreCertificateVerification
    | Output | Level
    | Enabled | RequestsPerSecond | BurstSize

  function SectionName(s: Section): string {
    match s
    case ServerSection => "server"
    case TlsSection => "tls"
    case UpstreamSection => "upstream"
    case LoggingSection => "logging"
    case ThrottlingSection => "throttling"
  }

  function SectionOf(p: Property): Section {
    match p
    case HttpPort | HttpsPort | RunModeOf | AllowHttpsOverHttpPort => ServerSection
    case Certificate | PrivateKey => TlsSection
    case Host | UpstreamPort | IgnoreCertificateVerification => UpstreamSection
    case Output | Level => LoggingSection
    case Enabled | RequestsPerSecond | BurstSize => ThrottlingSection
  }

  function KeyName(p: Property): string {
    match p
    case HttpPort => "http_port"
    case HttpsPort => "https_port"
    case RunModeOf => "run_mode"
    case AllowHttpsOverHttpPort => "allow_https_over_http_port"
    case Certificate => "certificate"
    case PrivateKey => "private_key"
    case Host => "host"
    case UpstreamPort => "port"
    case IgnoreCertificateVerification => "ignore_certificate_verification"
    case Output => "output"
    case Level => "level"
    case Enabled => "enabled"
    case RequestsPerSecond => "requests_per_second"
    case BurstSize => "burst_size"
  }

  const ROOT_KEYS: set<string> :=
    {SectionName(ServerSection), SectionName(TlsSection), SectionName(UpstreamSection),
     SectionName(LoggingSection), SectionName(ThrottlingSection)}

  function AllowedKeys(s: Section): set<string> {
    match s
    case ServerSection =>
      {KeyName(HttpPort), KeyName(HttpsPort), KeyName(RunModeOf), KeyName(AllowHttpsOverHttpPort)}
    case TlsSection => {KeyName(Certificate), KeyName(PrivateKey)}
    case UpstreamSection => {KeyName(Host), KeyName(UpstreamPort), KeyName(IgnoreCertificateVerification)}
    case LoggingSection => {KeyName(Output), KeyName(Level)}
    case ThrottlingSection => {KeyName(Enabled), KeyName(RequestsPerSecond), KeyName(BurstSize)}
  }

  predicate Acceptable(p: Property, v: Json) {
    match p
    case HttpPort | HttpsPort | UpstreamPort => ReadPort(v).Some?
    case RunModeOf => ReadRunMode(v).Some?
    case AllowHttpsOverHttpPort | IgnoreCertificateVerification | Enabled => ReadBool(v).Some?
    case Certificate | PrivateKey => ReadString(v, true).Some?
    case Host => ReadString(v, false).Some?
    case Output => ReadLogOutput(v).Some?
    case Level => ReadLogLevel(v).Some?
    case RequestsPerSecond | BurstSize => ReadUint32(v).Some?
  }

  // ---------------------------------------------------------------- What a document says

  /** The value a section gives to one of its properties. */
  function Own(section: Json, p: Property): Option<Json> {
    if section.Object? && KeyName(p) in section.members then Some(section.members[KeyName(p)]) else None
  }

  /** The value of a section; a document without it says nothing. */
  function SectionValue(root: Json, s: Section): Json {
    if root.Object? && SectionName(s) in root.members then root.members[SectionName(s)] else Null
  }

  /** The value a document gives to a property. */
  function Lookup(root: Json, p: Property): Option<Json> {
    Own(SectionValue(root, SectionOf(p)), p)
  }

  /** What is wrong with a document. */
  datatype Fault =
    | RootNotAnObject
    | NotAnObject(section: Section)
    | UnknownSection(key: string)
    | UnknownProperty(scope: Section, key: string)
    | BadValue(property: Property)

  ghost predicate SectionFault(value: Json, s: Section, f: Fault) {
    match f
    case NotAnObject(t) => t == s && !value.Object?
    case UnknownProperty(t, key) =>
      t == s && value.Object? && IsLeast(key, value.members.Keys - AllowedKeys(s))
    case BadValue(p) => SectionOf(p) == s && Own(value, p).Some? && !Acceptable(p, Own(value, p).value)
    case _ => false
  }

  ghost predicate IsFault(root: Json, f: Fault) {
    match f
    case RootNotAnObject => !root.Object?
    case UnknownSection(key) => root.Object? && IsLeast(key, root.members.Keys - ROOT_KEYS)
    case NotAnObject(s) => root.Object? && SectionName(s) in root.members
                           && SectionFault(root.members[SectionName(s)], s, f)
    case UnknownProperty(s, _) => root.Object? && SectionName(s) in root.members
                                  && SectionFault(root.members[SectionName(s)], s, f)
    case BadValue(p) => root.Object? && SectionName(SectionOf(p)) in root.members
                        && SectionFault(root.members[SectionName(SectionOf(p))], SectionOf(p), f)
  }

  function SectionIndex(s: Section): (i: nat)
    ensures i < 5
  {
    match s
    case ServerSection => 0
    case TlsSection => 1
    case UpstreamSection => 2
    case LoggingSection => 3
    case ThrottlingSection => 4
  }

  /** Where a property comes in its section. */
  function PropertyIndex(p: Property): (i: nat)
    ensures i < 4
  {
    match p
    case HttpPort | Certificate | Host | Output | Enabled => 0
    case HttpsPort | PrivateKey | UpstreamPort | Level | RequestsPerSecond => 1
    case RunModeOf | IgnoreCertificateVerification | BurstSize => 2
    case AllowHttpsOverHttpPort => 3
  }

  /** When a fault would be noticed: sections in their order, and in each its kind, its keys, its values. */
  function Rank(f: Fault): nat {
    match f
    case RootNotAnObject => 0
    case UnknownSection(_) => 1
    case NotAnObject(s) => 10 + 10 * SectionIndex(s)
    case UnknownProperty(s, _) => 11 + 10 * SectionIndex(s)
    case BadValue(p) => 12 + 10 * SectionIndex(SectionOf(p)) + PropertyIndex(p)
  }

  /** The fault of a section that is noticed first. */
  ghost predicate FirstInSection(value: Json, s: Section, f: Fault) {
    SectionFault(value, s, f) && forall g :: SectionFault(value, s, g) ==> Rank(f) <= Rank(g)
  }

  ghost predicate FirstFault(root: Json, f: Fault) {
    IsFault(root, f) && forall g :: IsFault(root, g) ==> Rank(f) <= Rank(g)
  }

  ghost predicate SectionValid(value: Json, s: Section) {
    && value.Object? && value.members.Keys <= AllowedKeys(s)
    && forall p :: SectionOf(p) == s && Own(value, p).Some? ==> Acceptable(p, Own(value, p).value)
  }

  ghost predicate SectionMeetsSchema(root: Json, s: Section)
    requires root.Object?
  {
    SectionName(s) in root.members ==> SectionValid(root.members[SectionName(s)], s)
  }

  ghost predicate Valid(root: Json) {
    && root.Object? && root.members.Keys <= ROOT_KEYS
    && forall s :: SectionMeetsSchema(root, s)
  }

  /** The value read from a document, or what was there before. */
  function Chosen<T>(v: Option<Json>, read: Json -> Option<T>, previous: T): T {
    if v.Some? then read(v.value).Or(previous) else previous
  }

  const NON_EMPTY: Json -> Option<string> := v => ReadString(v, false)
  const ANY_STRING: Json -> Option<string> := v => ReadString(v, true)

  function ServerFrom(v: Json, previous: Server): Server {
    Server(Chosen(Own(v, HttpPort), ReadPort, previous.httpPort),
           Chosen(Own(v, HttpsPort), ReadPort, previous.httpsPort),
           Chosen(Own(v, RunModeOf), ReadRunMode, previous.runMode),
           Chosen(Own(v, AllowHttpsOverHttpPort), ReadBool, previous.allowHttpsOverHttpPort),
           previous.workerThreads)
  }

  function TlsFrom(v: Json, previous: Tls): Tls {
    Tls(Chosen(Own(v, Certificate), ANY_STRING, previous.certificate),
        Chosen(Own(v, PrivateKey), ANY_STRING, previous.privateKey))
  }

  function UpstreamFrom(v: Json, previous: Upstream): Upstream {
    Upstream(Chosen(Own(v, Host), NON_EMPTY, previous.host),
             Chosen(Own(v, UpstreamPort), ReadPort, previous.port),
             Chosen(Own(v, IgnoreCertificateVerification), ReadBool, previous.ignoreCertificateVerification))
  }

  function LoggingFrom(v: Json, previous: Logging): Logging {
    Logging(Chosen(Own(v, Output), ReadLogOutput, previous.output),
            Chosen(Own(v, Level), ReadLogLevel, previous.level))
  }

  function ThrottlingFrom(v: Json, previous: Throttling): Throttling {
    Throttling(Chosen(Own(v, Enabled), ReadBool, previous.enabled),
               Chosen(Own(v, RequestsPerSecond), ReadUint32, previous.requestsPerSecond),
               Chosen(Own(v, BurstSize), ReadUint32, previous.burstSize))
  }

  /** The configuration a valid document makes of a previous one, property by property. */
  function Overlaid(root: Json, c: Config): Config {
    Config(c.configPath,
           ServerFrom(SectionValue(root, ServerSection), c.server),
           TlsFrom(SectionValue(root, TlsSection), c.tls),
           UpstreamFrom(SectionValue(root, UpstreamSection), c.upstream),
           LoggingFrom(SectionValue(root, LoggingSection), c.logging),
           ThrottlingFrom(SectionValue(root, ThrottlingSection), c.throttling))
  }

  /** What one section makes of a configuration. */
  function SectionOverlaid(root: Json, s: Section, c: Config): Config {
    var v := SectionValue(root, s);
    match s
    case ServerSection => c.(server := ServerFrom(v, c.server))
    case TlsSection => c.(tls := TlsFrom(v, c.tls))
    case UpstreamSection => c.(upstream := UpstreamFrom(v, c.upstream))
    case LoggingSection => c.(logging := LoggingFrom(v, c.logging))
    case ThrottlingSection => c.(throttling := ThrottlingFrom(v, c.throttling))
  }

  // ---------------------------------------------------------------- The merge, as it is written

  /** The first key, in the order of the map, that is not allowed. */
  method ValidateKeys(members: map<string, Json>, allowed: set<string>) returns (unknown: Option<string>)
    ensures unknown.None? ==> members.Keys <= allowed
    ensures unknown.Some? ==> IsLeast(unknown.value, members.Keys - allowed)
  {
    var left := members.Keys;
    while left != {}
      invariant left <= members.Keys
      invariant forall k :: k in members && k !in left ==> k in allowed
      decreases left
    {
      LeastExists(left);
      var key :| key in left && forall k :: k in left ==> Leq(key, k);
      if key !in allowed {
        return Some(key);
      }
      left := left - {key};
    }
    unknown := None;
  }

  /** `obtain_object` and `validate_keys` on a section. */
  method OpenSection(value: Json, s: Section) returns (fault: Option<Fault>)
    ensures fault.None? ==> value.Object? && value.members.Keys <= AllowedKeys(s)
    ensures fault.Some? ==> FirstInSection(value, s, fault.value)
  {
    if !value.Object? {
      return Some(NotAnObject(s));
    }
    var unknown := ValidateKeys(value.members, AllowedKeys(s));
    if unknown.Some? {
      return Some(UnknownProperty(s, unknown.value));
    }
    fault := None;
  }

  /** With the properties before it in order, a bad value is the first fault of its section. */
  lemma FirstBad(value: Json, p: Property)
    requires value.Object? && value.members.Keys <= AllowedKeys(SectionOf(p))
    requires Own(value, p).Some? && !Acceptable(p, Own(value, p).value)
    requires forall q :: SectionOf(q) == SectionOf(p) && PropertyIndex(q) < PropertyIndex(p) && Own(value, q).Some? ==>
                           Acceptable(q, Own(value, q).value)
    ensures FirstInSection(value, SectionOf(p), BadValue(p))
  {
  }

  method MergeServer(value: Json, config: Config) returns (merged: Config, fault: Option<Fault>)
    ensures fault.None? ==> SectionValid(value, ServerSection)
                            && merged == config.(server := ServerFrom(value, config.server))
    ensures fault.Some? ==> FirstInSection(value, ServerSection, fault.value)
  {
    merged := config;
    fault := OpenSection(value, ServerSection);
    if fault.Some? {
      return;
    }
    if KeyName(HttpPort) in value.members {
      var port := ReadPort(value.members[KeyName(HttpPort)]);
      if port.None? {
        FirstBad(value, HttpPort);
        return merged, Some(BadValue(HttpPort));
      }
      merged := merged.(server := merged.server.(httpPort := port.value));
    }
    if KeyName(HttpsPort) in value.members {
      var port := ReadPort(value.members[KeyName(HttpsPort)]);
      if port.None? {
        FirstBad(value, HttpsPort);
        return merged, Some(BadValue(HttpsPort));
      }
      merged := merged.(server := merged.server.(httpsPort := port.value));
    }
    if KeyName(RunModeOf) in value.members {
      var mode := ReadRunMode(value.members[KeyName(RunModeOf)]);
      if mode.None? {
        FirstBad(value, RunModeOf);
        return merged, Some(BadValue(RunModeOf));
      }
      merged := merged.(server := merged.server.(runMode := mode.value));
    }
    if KeyName(AllowHttpsOverHttpPort) in value.members {
      var allow := ReadBool(value.members[KeyName(AllowHttpsOverHttpPort)]);
      if allow.None? {
        FirstBad(value, AllowHttpsOverHttpPort);
        return merged, Some(BadValue(AllowHttpsOverHttpPort));
      }
      merged := merged.(server := merged.server.(allowHttpsOverHttpPort := allow.value));
    }
  }

  method MergeTls(value: Json, config: Config) returns (merged: Config, fault: Option<Fault>)
    ensures fault.None? ==> SectionValid(value, TlsSection) && merged == config.(tls := TlsFrom(value, config.tls))
    ensures fault.Some? ==> FirstInSection(value, TlsSection, fault.value)
  {
    merged := config;
    fault := OpenSection(value, TlsSection);
    if fault.Some? {
      return;
    }
    if KeyName(Certificate) in value.members {
      var path := ReadString(value.members[KeyName(Certificate)], true);
      if path.None? {
        FirstBad(value, Certificate);
        return merged, Some(BadValue(Certificate));
      }
      merged := merged.(tls := merged.tls.(certificate := path.value));
    }
    if KeyName(PrivateKey) in value.members {
      var path := ReadString(value.members[KeyName(PrivateKey)], true);
      if path.None? {
        FirstBad(value, PrivateKey);
        return merged, Some(BadValue(PrivateKey));
      }
      merged := merged.(tls := merged.tls.(privateKey := path.value));
    }
  }

  method MergeUpstream(value: Json, config: Config) returns (merged: Config, fault: Option<Fault>)
    ensures fault.None? ==> SectionValid(value, UpstreamSection)
                            && merged == config.(upstream := UpstreamFrom(value, config.upstream))
    ensures fault.Some? ==> FirstInSection(value, UpstreamSection, fault.value)
  {
    merged := config;
    fault := OpenSection(value, UpstreamSection);
    if fault.Some? {
      return;
    }
    if KeyName(Host) in value.members {
      var host := ReadString(value.members[KeyName(Host)], false);
      if host.None? {
        FirstBad(value, Host);
        return merged, Some(BadValue(Host));
      }
      merged := merged.(upstream := merged.upstream.(host := host.value));
    }
    if KeyName(UpstreamPort) in value.members {
      var port := ReadPort(value.members[KeyName(UpstreamPort)]);
      if port.None? {
        FirstBad(value, UpstreamPort);
        return merged, Some(BadValue(UpstreamPort));
      }
      merged := merged.(upstream := merged.upstream.(port := port.value));
    }
    if KeyName(IgnoreCertificateVerification) in value.members {
      var ignore := ReadBool(value.members[KeyName(IgnoreCertificateVerification)]);
      if ignore.None? {
        FirstBad(value, IgnoreCertificateVerification);
        return merged, Some(BadValue(IgnoreCertificateVerification));
      }
      merged := merged.(upstream := merged.upstream.(ignoreCertificateVerification := ignore.value));
    }
  }

  method MergeLogging(value: Json, config: Config) returns (merged: Config, fault: Option<Fault>)
    ensures fault.None? ==> SectionValid(value, LoggingSection)
                            && merged == config.(logging := LoggingFrom(value, config.logging))
    ensures fault.Some? ==> FirstInSection(value, LoggingSection, fault.value)
  {
    merged := config;
    fault := OpenSection(value, LoggingSection);
    if fault.Some? {
      return;
    }
    if KeyName(Output) in value.members {
      var output := ReadLogOutput(value.members[KeyName(Output)]);
      if output.None? {
        FirstBad(value, Output);
        return merged, Some(BadValue(Output));
      }
      merged := merged.(logging := merged.logging.(output := output.value));
    }
    if KeyName(Level) in value.members {
      var level := ReadLogLevel(value.members[KeyName(Level)]);
      if level.None? {
        FirstBad(value, Level);
        return merged, Some(BadValue(Level));
      }
      merged := merged.(logging := merged.logging.(level := level.value));
    }
  }

  method MergeThrottling(value: Json, config: Config) returns (merged: Config, fault: Option<Fault>)
    ensures fault.None? ==> SectionValid(value, ThrottlingSection)
                            && merged == config.(throttling := ThrottlingFrom(value, config.throttling))
    ensures fault.Some? ==> FirstInSection(value, ThrottlingSection, fault.value)
  {
    merged := config;
    fault := OpenSection(value, ThrottlingSection);
    if fault.Some? {
      return;
    }
    if KeyName(Enabled) in value.members {
      var enabled := ReadBool(value.members[KeyName(Enabled)]);
      if enabled.None? {
        FirstBad(value, Enabled);
        return merged, Some(BadValue(Enabled));
      }
      merged := merged.(throttling := merged.throttling.(enabled := enabled.value));
    }
    if KeyName(RequestsPerSecond) in value.members {
      var number := ReadUint32(value.members[KeyName(RequestsPerSecond)]);
      if number.None? {
        FirstBad(value, RequestsPerSecond);
        return merged, Some(BadValue(RequestsPerSecond));
      }
      merged := merged.(throttling := merged.throttling.(requestsPerSecond := number.value));
    }
    if KeyName(BurstSize) in value.members {
      var number := ReadUint32(value.members[KeyName(BurstSize)]);
      if number.None? {
        FirstBad(value, BurstSize);
        return merged, Some(BadValue(BurstSize));
      }
      merged := merged.(throttling := merged.throttling.(burstSize := number.value));
    }
  }

  /** One of the five blocks of the merge: a section that is absent is passed over. */
  method MergeSection(root: Json, s: Section, config: Config) returns (merged: Config, fault: Option<Fault>)
    requires RootInOrder(root) && EarlierInOrder(root, s)
    ensures fault.None? ==> merged == SectionOverlaid(root, s, config)
    ensures fault.None? ==> UpToInOrder(root, s)
    ensures fault.Some? ==> FirstFault(root, fault.value) && !Valid(root)
  {
    merged, fault := config, None;
    if SectionName(s) in root.members {
      var value := root.members[SectionName(s)];
      match s {
        case ServerSection => merged, fault := MergeServer(value, config);
        case TlsSection => merged, fault := MergeTls(value, config);
        case UpstreamSection => merged, fault := MergeUpstream(value, config);
        case LoggingSection => merged, fault := MergeLogging(value, config);
        case ThrottlingSection => merged, fault := MergeThrottling(value, config);
      }
      if fault.Some? {
        FaultInSection(root, s, fault.value);
        FirstOverall(root, s, fault.value);
      }
    }
  }

  /**
   `merge_json_config`: succeeds exactly on the valid documents, with every property they
   give overlaid on the configuration; otherwise it names the first fault of the document.
   On failure `merged` holds whatever had been written by then.
   */
  method MergeJsonConfig(root: Json, config: Config) returns (merged: Config, fault: Option<Fault>)
    ensures fault.None? <==> Valid(root)
    ensures fault.None? ==> merged == Overlaid(root, config)
    ensures fault.Some? ==> FirstFault(root, fault.value)
  {
    merged := config;
    if !root.Object? {
      return merged, Some(RootNotAnObject);
    }
    var unknown := ValidateKeys(root.members, ROOT_KEYS);
    if unknown.Some? {
      return merged, Some(UnknownSection(unknown.value));
    }
    merged, fault := MergeSection(root, ServerSection, merged);
    if fault.Some? {
      return;
    }
    NextInOrder(root, ServerSection, TlsSection);
    merged, fault := MergeSection(root, TlsSection, merged);
    if fault.Some? {
      return;
    }
    NextInOrder(root, TlsSection, UpstreamSection);
    merged, fault := MergeSection(root, UpstreamSection, merged);
    if fault.Some? {
      return;
    }
    NextInOrder(root, UpstreamSection, LoggingSection);
    merged, fault := MergeSection(root, LoggingSection, merged);
    if fault.Some? {
      return;
    }
    NextInOrder(root, LoggingSection, ThrottlingSection);
    merged, fault := MergeSection(root, ThrottlingSection, merged);
    if fault.None? {
      AllSectionsValid(root);
    }
  }

  ghost predicate RootInOrder(root: Json) {
    root.Object? && root.members.Keys <= ROOT_KEYS
  }

  /** The sections before `s` meet the schema. */
  ghost predicate EarlierInOrder(root: Json, s: Section)
    requires root.Object?
  {
    forall t :: SectionIndex(t) < SectionIndex(s) ==> SectionMeetsSchema(root, t)
  }

  ghost predicate UpToInOrder(root: Json, s: Section)
    requires root.Object?
  {
    EarlierInOrder(root, s) && SectionMeetsSchema(root, s)
  }

  lemma NextInOrder(root: Json, s: Section, next: Section)
    requires root.Object? && UpToInOrder(root, s) && SectionIndex(next) == SectionIndex(s) + 1
    ensures EarlierInOrder(root, next)
  {
    forall t | SectionIndex(t) < SectionIndex(next)
      ensures SectionMeetsSchema(root, t)
    {
      SectionIndexIsOrder(s, t);
    }
  }

  lemma AllSectionsValid(root: Json)
    requires RootInOrder(root) && UpToInOrder(root, ThrottlingSection)
    ensures Valid(root)
  {
    forall s: Section
      ensures SectionMeetsSchema(root, s)
    {
      SectionIndexIsOrder(s, ThrottlingSection);
    }
  }

  lemma FaultInSection(root: Json, s: Section, f: Fault)
    requires root.Object? && SectionName(s) in root.members
    requires SectionFault(root.members[SectionName(s)], s, f)
    ensures IsFault(root, f) && !Valid(root)
  {
    assert !SectionMeetsSchema(root, s);
  }

  /** With everything before a section in order, its first fault is the first of the document. */
  lemma FirstOverall(root: Json, s: Section, f: Fault)
    requires RootInOrder(root) && EarlierInOrder(root, s) && SectionName(s) in root.members
    requires FirstInSection(root.members[SectionName(s)], s, f)
    ensures FirstFault(root, f)
  {
    FaultInSection(root, s, f);
    forall g | IsFault(root, g)
      ensures Rank(f) <= Rank(g)
    {
      match g
      case RootNotAnObject =>
      case UnknownSection(_) =>
      case NotAnObject(t) => LaterInDocument(root, s, f, t, g);
      case UnknownProperty(t, _) => LaterInDocument(root, s, f, t, g);
      case BadValue(p) => LaterInDocument(root, s, f, SectionOf(p), g);
    }
  }

  lemma LaterInDocument(root: Json, s: Section, f: Fault, t: Section, g: Fault)
    requires root.Object? && SectionName(s) in root.members && SectionName(t) in root.members
    requires EarlierInOrder(root, s)
    requires FirstInSection(root.members[SectionName(s)], s, f)
    requires SectionFault(root.members[SectionName(t)], t, g)
    ensures Rank(f) <= Rank(g)
  {
    SectionIndexIsOrder(s, t);
    assert !SectionValid(root.members[SectionName(t)], t);
  }

  lemma SectionIndexIsOrder(s: Section, t: Section)
    ensures SectionIndex(s) == SectionIndex(t) ==> s == t
  {
  }

  /** A document has at most one first fault: the contract of the merge leaves no choice. */
  lemma FirstFaultIsUnique(root: Json, f: Fault, g: Fault)
    requires FirstFault(root, f) && FirstFault(root, g)
    ensures f == g
  {
    SameRank(f, g);
    match f
    case UnknownSection(key) => LeastIsUnique(key, g.key, root.members.Keys - ROOT_KEYS);
    case UnknownProperty(s, key) =>
      LeastIsUnique(key, g.key, root.members[SectionName(s)].members.Keys - AllowedKeys(s));
    case _ =>
  }

  lemma SameRank(f: Fault, g: Fault)
    requires Rank(f) == Rank(g)
    ensures match f
            case RootNotAnObject => g == f
            case UnknownSection(_) => g.UnknownSection?
            case NotAnObject(_) => g == f
            case UnknownProperty(s, _) => g.UnknownProperty? && g.scope == s
            case BadValue(_) => g == f
  {
  }

  /** The configuration object, which a failed load must leave alone. */
  class Settings {
    var config: Config

    constructor (config: Config)
      ensures this.config == config
    {
      this.config := config;
    }

    /** `load_json_config` on a document, or on a source that could not be read (None). */
    method LoadJsonConfig(document: Option<Json>) returns (ok: bool)
      modifies this
      ensures ok <==> document.Some? && Valid(document.value)
      ensures config == if ok then Overlaid(document.value, old(config)) else old(config)
    {
      if document.None? {
        return false;
      }
      var merged, fault := MergeJsonConfig(document.value, config);
      if fault.Some? {
        return false;
      }
      config := merged;
      ok := true;
    }
  }

  // ---------------------------------------------------------------- Properties

  /** A document is valid exactly when it has no fault. */
  lemma ValidMeansFaultless(root: Json)
    ensures Valid(root) <==> forall f :: !IsFault(root, f)
  {
    forall f | IsFault(root, f)
      ensures !Valid(root)
    {
      FaultRefutes(root, f);
    }
    if !Valid(root) {
      if !root.Object? {
        assert IsFault(root, RootNotAnObject);
      } else if !(root.members.Keys <= ROOT_KEYS) {
        LeastExists(root.members.Keys - ROOT_KEYS);
        var k :| IsLeast(k, root.members.Keys - ROOT_KEYS);
        assert IsFault(root, UnknownSection(k));
      } else {
        var s :| !SectionMeetsSchema(root, s);
        var f := SectionHasFault(root.members[SectionName(s)], s);
        FaultInSection(root, s, f);
      }
    }
  }

  lemma FaultRefutes(root: Json, f: Fault)
    requires IsFault(root, f)
    ensures !Valid(root)
  {
    match f
    case RootNotAnObject =>
    case UnknownSection(key) =>
    case NotAnObject(s) => FaultInSection(root, s, f);
    case UnknownProperty(s, _) => FaultInSection(root, s, f);
    case BadValue(p) => FaultInSection(root, SectionOf(p), f);
  }

  lemma SectionHasFault(value: Json, s: Section) returns (f: Fault)
    requires !SectionValid(value, s)
    ensures SectionFault(value, s, f)
  {
    if !value.Object? {
      f := NotAnObject(s);
    } else if !(value.members.Keys <= AllowedKeys(s)) {
      LeastExists(value.members.Keys - AllowedKeys(s));
      var k :| IsLeast(k, value.members.Keys - AllowedKeys(s));
      f := UnknownProperty(s, k);
    } else {
      var p :| SectionOf(p) == s && Own(value, p).Some? && !Acceptable(p, Own(value, p).value);
      f := BadValue(p);
    }
  }

  /** The right-biased overlay of two sections, and of two documents section by section. */
  function OverlaySection(a: Json, b: Json): Json {
    if a.Object? && b.Object? then Object(a.members + b.members) else b
  }

  function Overlay(a: Json, b: Json): Json
    requires a.Object? && b.Object?
  {
    Object(map k | k in a.members.Keys + b.members.Keys ::
             if k !in b.members then a.members[k]
             else if k !in a.members then b.members[k]
             else OverlaySection(a.members[k], b.members[k]))
  }

  lemma OverlayLookup(a: Json, b: Json, p: Property)
    requires Valid(a) && Valid(b)
    ensures Lookup(Overlay(a, b), p) == if Lookup(b, p).Some? then Lookup(b, p) else Lookup(a, p)
  {
    assert SectionMeetsSchema(a, SectionOf(p)) && SectionMeetsSchema(b, SectionOf(p));
  }

  lemma OverlayIsValid(a: Json, b: Json)
    requires Valid(a) && Valid(b)
    ensures Valid(Overlay(a, b))
  {
    var o := Overlay(a, b);
    forall s: Section
      ensures SectionMeetsSchema(o, s)
    {
      var name := SectionName(s);
      assert SectionMeetsSchema(a, s) && SectionMeetsSchema(b, s);
      if name in a.members && name in b.members {
        OverlaySectionIsValid(a.members[name], b.members[name], s);
      }
    }
  }

  lemma OverlaySectionIsValid(a: Json, b: Json, s: Section)
    requires SectionValid(a, s) && SectionValid(b, s)
    ensures SectionValid(OverlaySection(a, b), s)
  {
    forall p | SectionOf(p) == s && Own(OverlaySection(a, b), p).Some?
      ensures Acceptable(p, Own(OverlaySection(a, b), p).value)
    {
      assert Own(b, p).Some? || Own(a, p).Some?;
    }
  }

  lemma ValidLookup(root: Json, p: Property)
    requires Valid(root) && Lookup(root, p).Some?
    ensures Acceptable(p, Lookup(root, p).value)
  {
    assert SectionMeetsSchema(root, SectionOf(p));
  }

  // ---------------------------------------------------------------- Property by property

  /** A configured value of any of the properties. */
  datatype Value =
    | Number(n: int) | Flag(b: bool) | Name(s: string) | Mode(m: RunMode) | Sink(o: LoggerType) | Severity(l: LogLevel)

  /** The value of a property in a configuration. */
  function FieldOf(c: Config, p: Property): Value {
    match p
    case HttpPort => Number(c.server.httpPort)
    case HttpsPort => Number(c.server.httpsPort)
    case RunModeOf => Mode(c.server.runMode)
    case AllowHttpsOverHttpPort => Flag(c.server.allowHttpsOverHttpPort)
    case Certificate => Name(c.tls.certificate)
    case PrivateKey => Name(c.tls.privateKey)
    case Host => Name(c.upstream.host)
    case UpstreamPort => Number(c.upstream.port)
    case IgnoreCertificateVerification => Flag(c.upstream.ignoreCertificateVerification)
    case Output => Sink(c.logging.output)
    case Level => Severity(c.logging.level)
    case Enabled => Flag(c.throttling.enabled)
    case RequestsPerSecond => Number(c.throttling.requestsPerSecond)
    case BurstSize => Number(c.throttling.burstSize)
  }

  /** What an acceptable value means for a property; numbers are the numbers they denote. */
  function Meaning(p: Property, v: Json): Value
    requires Acceptable(p, v)
  {
    match p
    case HttpPort | HttpsPort | UpstreamPort | RequestsPerSecond | BurstSize => Number(Denoted(v).value)
    case RunModeOf => Mode(if v.s == "persist" then Persistent else SingleRequest)
    case AllowHttpsOverHttpPort | IgnoreCertificateVerification | Enabled => Flag(v.b)
    case Certificate | PrivateKey | Host => Name(v.s)
    case Output => Sink(if v.s == "file" then File else Console)
    case Level => Severity(ReadLogLevel(v).value)
  }

  lemma ServerAndTlsDetermined(c: Config, d: Config)
    requires c.server.workerThreads == d.server.workerThreads
    requires forall p :: FieldOf(c, p) == FieldOf(d, p)
    ensures c.server == d.server && c.tls == d.tls
  {
    assert FieldOf(c, HttpPort) == FieldOf(d, HttpPort) && FieldOf(c, HttpsPort) == FieldOf(d, HttpsPort);
    assert FieldOf(c, RunModeOf) == FieldOf(d, RunModeOf);
    assert FieldOf(c, AllowHttpsOverHttpPort) == FieldOf(d, AllowHttpsOverHttpPort);
    assert FieldOf(c, Certificate) == FieldOf(d, Certificate) && FieldOf(c, PrivateKey) == FieldOf(d, PrivateKey);
  }

  lemma UpstreamAndLoggingDetermined(c: Config, d: Config)
    requires forall p :: FieldOf(c, p) == FieldOf(d, p)
    ensures c.upstream == d.upstream && c.logging == d.logging
  {
    assert FieldOf(c, Host) == FieldOf(d, Host) && FieldOf(c, UpstreamPort) == FieldOf(d, UpstreamPort);
    assert FieldOf(c, IgnoreCertificateVerification) == FieldOf(d, IgnoreCertificateVerification);
    assert FieldOf(c, Output) == FieldOf(d, Output) && FieldOf(c, Level) == FieldOf(d, Level);
  }

  lemma ThrottlingDetermined(c: Config, d: Config)
    requires forall p :: FieldOf(c, p) == FieldOf(d, p)
    ensures c.throttling == d.throttling
  {
    assert FieldOf(c, Enabled) == FieldOf(d, Enabled);
    assert FieldOf(c, RequestsPerSecond) == FieldOf(d, RequestsPerSecond);
    assert FieldOf(c, BurstSize) == FieldOf(d, BurstSize);
  }

  /** Two configurations are equal if they agree on every property and on what the schema cannot reach. */
  lemma FieldsDetermine(c: Config, d: Config)
    requires c.configPath == d.configPath && c.server.workerThreads == d.server.workerThreads
    requires forall p :: FieldOf(c, p) == FieldOf(d, p)
    ensures c == d
  {
    ServerAndTlsDetermined(c, d);
    UpstreamAndLoggingDetermined(c, d);
    ThrottlingDetermined(c, d);
  }

  /**
   After merging a valid document, every property has the meaning of the value the document
   gives it, or its previous value; nothing outside the schema changes.
   */
  lemma MergedProperty(root: Json, c: Config, p: Property)
    requires Valid(root)
    ensures Lookup(root, p).Some? ==> Acceptable(p, Lookup(root, p).value)
    ensures FieldOf(Overlaid(root, c), p)
         == if Lookup(root, p).Some? then Meaning(p, Lookup(root, p).value) else FieldOf(c, p)
    ensures Overlaid(root, c).configPath == c.configPath
    ensures Overlaid(root, c).server.workerThreads == c.server.workerThreads
  {
    if Lookup(root, p).Some? {
      ValidLookup(root, p);
      NumericGates(Lookup(root, p).value);
    }
    match p
    case HttpPort | HttpsPort | UpstreamPort =>
    case RequestsPerSecond | BurstSize =>
    case RunModeOf | Output | Level =>
    case AllowHttpsOverHttpPort | IgnoreCertificateVerification | Enabled =>
    case Certificate | PrivateKey | Host =>
  }

  /** Merging two valid documents one after the other is merging their overlay. */
  lemma MergesCompose(a: Json, b: Json, c: Config)
    requires Valid(a) && Valid(b)
    ensures Valid(Overlay(a, b))
    ensures Overlaid(b, Overlaid(a, c)) == Overlaid(Overlay(a, b), c)
  {
    OverlayIsValid(a, b);
    var twice, once := Overlaid(b, Overlaid(a, c)), Overlaid(Overlay(a, b), c);
    forall p: Property
      ensures FieldOf(twice, p) == FieldOf(once, p)
    {
      OverlayLookup(a, b, p);
      MergedProperty(a, c, p);
      MergedProperty(b, Overlaid(a, c), p);
      MergedProperty(Overlay(a, b), c, p);
    }
    FieldsDetermine(twice, once);
  }

  // ---------------------------------------------------------------- In the words of a document

  /** What stands in a document under the name of a section and the name of a key in it. */
  function Given(root: Json, section: string, key: string): Option<Json> {
    if root.Object? && section in root.members && root.members[section].Object? && key in root.members[section].members
    then Some(root.members[section].members[key]) else None
  }

  lemma ServerNames(root: Json)
    ensures Lookup(root, HttpPort) == Given(root, "server", "http_port")
    ensures Lookup(root, HttpsPort) == Given(root, "server", "https_port")
    ensures Lookup(root, RunModeOf) == Given(root, "server", "run_mode")
    ensures Lookup(root, AllowHttpsOverHttpPort) == Given(root, "server", "allow_https_over_http_port")
  {
  }

  lemma TlsNames(root: Json)
    ensures Lookup(root, Certificate) == Given(root, "tls", "certificate")
    ensures Lookup(root, PrivateKey) == Given(root, "tls", "private_key")
  {
  }

  lemma UpstreamNames(root: Json)
    ensures Lookup(root, Host) == Given(root, "upstream", "host")
    ensures Lookup(root, UpstreamPort) == Given(root, "upstream", "port")
    ensures Lookup(root, IgnoreCertificateVerification) == Given(root, "upstream", "ignore_certificate_verification")
  {
  }

  lemma LoggingNames(root: Json)
    ensures Lookup(root, Output) == Given(root, "logging", "output")
    ensures Lookup(root, Level) == Given(root, "logging", "level")
  {
  }

  lemma ThrottlingNames(root: Json)
    ensures Lookup(root, Enabled) == Given(root, "throttling", "enabled")
    ensures Lookup(root, RequestsPerSecond) == Given(root, "throttling", "requests_per_second")
    ensures Lookup(root, BurstSize) == Given(root, "throttling", "burst_size")
  {
  }

  /** The sections a document may have, and the keys each of them may have. */
  lemma AllowedNames()
    ensures ROOT_KEYS == {"server", "tls", "upstream", "logging", "throttling"}
    ensures AllowedKeys(ServerSection) == {"http_port", "https_port", "run_mode", "allow_https_over_http_port"}
    ensures AllowedKeys(TlsSection) == {"certificate", "private_key"}
    ensures AllowedKeys(UpstreamSection) == {"host", "port", "ignore_certificate_verification"}
    ensures AllowedKeys(LoggingSection) == {"output", "level"}
    ensures AllowedKeys(ThrottlingSection) == {"enabled", "requests_per_second", "burst_size"}
  {
  }

  /** The values that are accepted, by their own words. */
  lemma AcceptedWords(v: Json)
    ensures Acceptable(RunModeOf, v) <==> v == Str("persist") || v == Str("single-request")
    ensures Acceptable(Output, v) <==> v == Str("console") || v == Str("con") || v == Str("file")
    ensures Acceptable(Level, v) <==>
              || v == Str("trace") || v == Str("debug") || v == Str("info") || v == Str("warning")
              || v == Str("error") || v == Str("critical") || v == Str("off")
  {
  }

  lemma AcceptedTexts(v: Json)
    ensures Acceptable(Certificate, v) <==> v.Str?
    ensures Acceptable(PrivateKey, v) <==> v.Str?
    ensures Acceptable(Host, v) <==> v.Str? && v.s != ""
    ensures Acceptable(AllowHttpsOverHttpPort, v) <==> v.Boolean?
    ensures Acceptable(IgnoreCertificateVerification, v) <==> v.Boolean?
    ensures Acceptable(Enabled, v) <==> v.Boolean?
  {
  }

  lemma AcceptedNumbers(v: Json)
    ensures forall p :: p in {HttpPort, HttpsPort, UpstreamPort} ==>
              (Acceptable(p, v) <==> (v.Signed? && 1 <= v.i <= 65535) || (v.Unsigned? && 1 <= v.u <= 65535))
    ensures forall p :: p in {RequestsPerSecond, BurstSize} ==>
              (Acceptable(p, v) <==> (v.Signed? && 0 <= v.i < 0x1_0000_0000) || (v.Unsigned? && 0 <= v.u < 0x1_0000_0000))
  {
  }

  function NumberOr(v: Option<Json>, previous: int): int {
    match v
    case Some(Signed(i)) => i
    case Some(Unsigned(u)) => u
    case _ => previous
  }

  function FlagOr(v: Option<Json>, previous: bool): bool {
    match v
    case Some(Boolean(b)) => b
    case _ => previous
  }

  function TextOr(v: Option<Json>, previous: string): string {
    match v
    case Some(Str(s)) => s
    case _ => previous
  }

  /** What a valid document makes of each field of the configuration, section by section. */
  lemma ServerInWords(root: Json, c: Config)
    requires Valid(root)
    ensures var o := Overlaid(root, c).server;
            && o.httpPort == NumberOr(Given(root, "server", "http_port"), c.server.httpPort)
            && o.httpsPort == NumberOr(Given(root, "server", "https_port"), c.server.httpsPort)
            && o.allowHttpsOverHttpPort
               == FlagOr(Given(root, "server", "allow_https_over_http_port"), c.server.allowHttpsOverHttpPort)
            && o.runMode == (if Given(root, "server", "run_mode") == Some(Str("persist")) then Persistent
                             else if Given(root, "server", "run_mode") == Some(Str("single-request")) then SingleRequest
                             else c.server.runMode)
  {
    ServerNames(root);
    MergedProperty(root, c, HttpPort);
    MergedProperty(root, c, HttpsPort);
    MergedProperty(root, c, AllowHttpsOverHttpPort);
    RunModeInWords(root, c);
  }

  lemma RunModeInWords(root: Json, c: Config)
    requires Valid(root)
    ensures Overlaid(root, c).server.runMode
         == (if Lookup(root, RunModeOf) == Some(Str("persist")) then Persistent
             else if Lookup(root, RunModeOf) == Some(Str("single-request")) then SingleRequest
             else c.server.runMode)
  {
    MergedProperty(root, c, RunModeOf);
    if Lookup(root, RunModeOf).Some? {
      AcceptedWords(Lookup(root, RunModeOf).value);
    }
  }

  lemma TlsInWords(root: Json, c: Config)
    requires Valid(root)
    ensures var o := Overlaid(root, c).tls;
            && o.certificate == TextOr(Given(root, "tls", "certificate"), c.tls.certificate)
            && o.privateKey == TextOr(Given(root, "tls", "private_key"), c.tls.privateKey)
  {
    TlsNames(root);
    MergedProperty(root, c, Certificate);
    MergedProperty(root, c, PrivateKey);
  }

  lemma UpstreamInWords(root: Json, c: Config)
    requires Valid(root)
    ensures var o := Overlaid(root, c).upstream;
            && o.host == TextOr(Given(root, "upstream", "host"), c.upstream.host)
            && o.port == NumberOr(Given(root, "upstream", "port"), c.upstream.port)
            && o.ignoreCertificateVerification
               == FlagOr(Given(root, "upstream", "ignore_certificate_verification"), c.upstream.ignoreCertificateVerification)
  {
    UpstreamNames(root);
    MergedProperty(root, c, Host);
    MergedProperty(root, c, UpstreamPort);
    MergedProperty(root, c, IgnoreCertificateVerification);
  }

  lemma OutputInWords(root: Json, c: Config)
    requires Valid(root)
    ensures Overlaid(root, c).logging.output
         == (if Given(root, "logging", "output") in {Some(Str("console")), Some(Str("con"))} then Console
             else if Given(root, "logging", "output") == Some(Str("file")) then File
             else c.logging.output)
  {
    LoggingNames(root);
    MergedProperty(root, c, Output);
    if Lookup(root, Output).Some? {
      AcceptedWords(Lookup(root, Output).value);
    }
  }

  lemma LevelInWords(root: Json, c: Config)
    requires Valid(root)
    ensures var given := Given(root, "logging", "level");
            Overlaid(root, c).logging.level ==
              (if given == Some(Str("trace")) then Trace else if given == Some(Str("debug")) then Debug
               else if given == Some(Str("info")) then Info else if given == Some(Str("warning")) then Warn
               else if given == Some(Str("error")) then Err else if given == Some(Str("critical")) then Critical
               else if given == Some(Str("off")) then Off else c.logging.level)
  {
    LoggingNames(root);
    MergedProperty(root, c, Level);
    if Lookup(root, Level).Some? {
      LevelWord(Lookup(root, Level).value);
    }
  }

  lemma LevelWord(v: Json)
    requires Acceptable(Level, v)
    ensures Meaning(Level, v) == Severity(
              if v == Str("trace") then Trace else if v == Str("debug") then Debug
              else if v == Str("info") then Info else if v == Str("warning") then Warn
              else if v == Str("error") then Err else if v == Str("critical") then Critical else Off)
    ensures v == Str("trace") || v == Str("debug") || v == Str("info") || v == Str("warning")
         || v == Str("error") || v == Str("critical") || v == Str("off")
  {
  }

  lemma ThrottlingInWords(root: Json, c: Config)
    requires Valid(root)
    ensures var o := Overlaid(root, c).throttling;
            && o.enabled == FlagOr(Given(root, "throttling", "enabled"), c.throttling.enabled)
            && o.requestsPerSecond == NumberOr(Given(root, "throttling", "requests_per_second"), c.throttling.requestsPerSecond)
            && o.burstSize == NumberOr(Given(root, "throttling", "burst_size"), c.throttling.burstSize)
  {
    ThrottlingNames(root);
    MergedProperty(root, c, Enabled);
    MergedProperty(root, c, RequestsPerSecond);
    MergedProperty(root, c, BurstSize);
  }

  /** The order in which the faults of a document are noticed, one by one. */
  lemma FaultsInOrder(key: string, s: string)
    ensures Rank(RootNotAnObject) < Rank(UnknownSection(key)) < Rank(NotAnObject(ServerSection))
    ensures Rank(BadValue(AllowHttpsOverHttpPort)) < Rank(NotAnObject(TlsSection))
    ensures Rank(BadValue(PrivateKey)) < Rank(NotAnObject(UpstreamSection))
    ensures Rank(BadValue(IgnoreCertificateVerification)) < Rank(NotAnObject(LoggingSection))
    ensures Rank(BadValue(Level)) < Rank(NotAnObject(ThrottlingSection))
  {
  }

  lemma ServerFaultsInOrder(s: string)
    ensures Rank(NotAnObject(ServerSection)) < Rank(UnknownProperty(ServerSection, s)) < Rank(BadValue(HttpPort))
          < Rank(BadValue(HttpsPort)) < Rank(BadValue(RunModeOf)) < Rank(BadValue(AllowHttpsOverHttpPort))
  {
  }

  lemma OutboundFaultsInOrder(s: string)
    ensures Rank(NotAnObject(TlsSection)) < Rank(UnknownProperty(TlsSection, s)) < Rank(BadValue(Certificate))
          < Rank(BadValue(PrivateKey))
    ensures Rank(NotAnObject(UpstreamSection)) < Rank(UnknownProperty(UpstreamSection, s)) < Rank(BadValue(Host))
          < Rank(BadValue(UpstreamPort)) < Rank(BadValue(IgnoreCertificateVerification))
  {
  }

  lemma OtherFaultsInOrder(s: string)
    ensures Rank(NotAnObject(LoggingSection)) < Rank(UnknownProperty(LoggingSection, s)) < Rank(BadValue(Output))
          < Rank(BadValue(Level))
    ensures Rank(NotAnObject(ThrottlingSection)) < Rank(UnknownProperty(ThrottlingSection, s)) < Rank(BadValue(Enabled))
          < Rank(BadValue(RequestsPerSecond)) < Rank(BadValue(BurstSize))
  {
  }
}
