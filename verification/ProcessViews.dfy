/** The settings inventory, the views the processes get of it, and what their parsers
    look up. */
module ProcessViews {
  import opened Wrappers
  import Readiness
  import Text

  datatype Process = Gateway | ControlPlane | Worker | Bootstrap | Deployment

  /** The inventory; any other variable name is Other. */
  datatype Setting =
    | NexusrelayEnv | NexusrelayVersion | PublicApiBaseUrl | AdminBaseUrl | PublicApiHost | AdminHost
    | AdminExposureMode | AdminOrigins | TrustedProxyCidrs | HttpBindAddress | HttpPort | HttpsPort | TlsMode
    | TlsCertFile | TlsKeyFile | AcmeEmail | AcmeDnsProvider | AcmeDnsApiTokenFile | PostgresDb | PostgresUser
    | PostgresPasswordFile | DatabaseHost | DatabasePort | DatabaseName | DatabaseMigrationUser
    | DatabaseMigrationPasswordFile | DatabaseGatewayUser | DatabaseGatewayPasswordFile
    | DatabaseControlPlaneUser | DatabaseControlPlanePasswordFile | DatabaseWorkerUser
    | DatabaseWorkerPasswordFile | DatabaseSslmode | DatabaseMinConnectionsGateway
    | DatabaseMaxConnectionsGateway | DatabaseMinConnectionsControlPlane | DatabaseMaxConnectionsControlPlane
    | DatabaseMinConnectionsWorker | DatabaseMaxConnectionsWorker | DatabaseStatementTimeout
    | DatabaseTransactionTimeout | RedisUrlFile | RedisPasswordFile | RedisMaxConnectionsGateway
    | RedisMaxConnectionsControlPlane | RedisMaxConnectionsWorker | DependencyStartupTimeout
    | DependencyProbeTimeout | DependencyProbeInterval | DependencyRetryMinDelay | DependencyRetryMaxDelay
    | MasterKeyringFile | ApiKeyPepperRingFile | SessionSecretFile | CsrfSecretRingFile | SessionCookieName
    | SessionIdleTtl | SessionAbsoluteTtl | SessionLastSeenWriteInterval | PasswordArgon2MemoryKib
    | PasswordArgon2Iterations | PasswordArgon2Parallelism | RequestBodyMaxBytes | UpstreamConnectTimeout
    | UpstreamFirstByteTimeout | UpstreamIdleTimeout | UpstreamTotalTimeout | ShutdownGracePeriod
    | MaxUpstreamAttempts | LogLevel | LogFormat | MetricsEnabled | OtelEnabled | OtelExporterOtlpEndpoint
    | RequestRetentionDays | AuditRetentionDays | HealthObservationRetentionDays | ProcessedOutboxRetentionDays
    | AnalyticsTargetLag | StaleRequestReconciliationInterval | WorkerConcurrency | OutboxLeaseDuration
    | OutboxRetryBaseDelay | OutboxRetryMaxDelay | HealthProbeInterval | HealthFastWindow
    | HealthStabilizingWindow | HealthMinSamples | HealthPolicyVersion | RetentionBatchSize
    | HealthUnavailableEntryThresholdBps | HealthUnavailableExitThresholdBps | HealthConsecutiveFailures
    | HealthConsecutiveSuccesses | AgentApiKeyEnv | OpencodeProviderId | OpencodeProviderName
    | EnableCloudflareTunnel | CloudflareTunnelId | CloudflareTunnelCredentialsFile
    | EnableTailscalePrivateAdmin | TailscaleAuthKeyFile | TailscaleStateDir | TailscaleHostname
    | PrivateIngressSubnet | PrivateTraefikIp | PrivateDnsIp | TailscaleAdvertiseRoutes | BootstrapOwnerEmail
    | BootstrapOwnerName | BootstrapOrganizationName | BootstrapOrganizationSlug | BootstrapPasswordFile
    | Other(name: string)

  // ---- the inventory, by the processes that consume a setting ---------------------------

  predicate ForEveryProcess(s: Setting) {
    s.NexusrelayEnv? || s.NexusrelayVersion? || s.DatabaseName? || s.DatabaseSslmode?
  }

  predicate ForGatewayControlPlaneDeployment(s: Setting) {
    s.PublicApiBaseUrl? || s.TrustedProxyCidrs?
  }

  predicate ForControlPlaneDeployment(s: Setting) {
    s.AdminBaseUrl? || s.AdminOrigins?
  }

  predicate ForDeployment(s: Setting) {
    s.PublicApiHost? || s.AdminHost? || s.AdminExposureMode? || s.HttpsPort? || s.TlsMode? || s.TlsCertFile?
    || s.TlsKeyFile? || s.AcmeEmail? || s.AcmeDnsProvider? || s.AcmeDnsApiTokenFile? || s.PostgresDb?
    || s.PostgresUser? || s.PostgresPasswordFile? || s.DatabaseMigrationUser?
    || s.DatabaseMigrationPasswordFile? || s.RedisPasswordFile? || s.EnableCloudflareTunnel?
    || s.CloudflareTunnelId? || s.CloudflareTunnelCredentialsFile? || s.EnableTailscalePrivateAdmin?
  }

  predicate ForGatewayControlPlaneWorkerDeployment(s: Setting) {
    s.HttpBindAddress? || s.HttpPort? || s.RedisUrlFile? || s.ShutdownGracePeriod?
  }

  predicate ForGatewayControlPlaneWorkerBootstrap(s: Setting) {
    s.DatabaseHost? || s.DatabasePort? || s.DatabaseStatementTimeout? || s.DatabaseTransactionTimeout?
    || s.LogLevel? || s.LogFormat?
  }

  predicate ForGatewayDeployment(s: Setting) {
    s.DatabaseGatewayUser? || s.DatabaseGatewayPasswordFile?
  }

  predicate ForControlPlaneBootstrapDeployment(s: Setting) {
    s.DatabaseControlPlaneUser? || s.DatabaseControlPlanePasswordFile?
  }

  predicate ForWorkerDeployment(s: Setting) {
    s.DatabaseWorkerUser? || s.DatabaseWorkerPasswordFile?
  }

  predicate ForGateway(s: Setting) {
    s.DatabaseMinConnectionsGateway? || s.DatabaseMaxConnectionsGateway? || s.RedisMaxConnectionsGateway?
    || s.RequestBodyMaxBytes? || s.UpstreamConnectTimeout? || s.UpstreamFirstByteTimeout?
    || s.UpstreamIdleTimeout? || s.MaxUpstreamAttempts?
  }

  predicate ForControlPlaneBootstrap(s: Setting) {
    s.DatabaseMinConnectionsControlPlane? || s.DatabaseMaxConnectionsControlPlane?
    || s.PasswordArgon2MemoryKib? || s.PasswordArgon2Iterations? || s.PasswordArgon2Parallelism?
  }

  predicate ForWorker(s: Setting) {
    s.DatabaseMinConnectionsWorker? || s.DatabaseMaxConnectionsWorker? || s.RedisMaxConnectionsWorker?
    || s.RequestRetentionDays? || s.AuditRetentionDays? || s.HealthObservationRetentionDays?
    || s.ProcessedOutboxRetentionDays? || s.AnalyticsTargetLag? || s.StaleRequestReconciliationInterval?
    || s.WorkerConcurrency? || s.OutboxLeaseDuration? || s.OutboxRetryBaseDelay? || s.OutboxRetryMaxDelay?
    || s.HealthProbeInterval? || s.HealthFastWindow? || s.HealthStabilizingWindow? || s.HealthMinSamples?
    || s.HealthPolicyVersion? || s.RetentionBatchSize? || s.HealthUnavailableEntryThresholdBps?
    || s.HealthUnavailableExitThresholdBps? || s.HealthConsecutiveFailures? || s.HealthConsecutiveSuccesses?
  }

  predicate ForControlPlane(s: Setting) {
    s.RedisMaxConnectionsControlPlane? || s.SessionSecretFile? || s.CsrfSecretRingFile? || s.SessionCookieName?
    || s.SessionIdleTtl? || s.SessionAbsoluteTtl? || s.SessionLastSeenWriteInterval? || s.AgentApiKeyEnv?
    || s.OpencodeProviderId? || s.OpencodeProviderName?
  }

  predicate ForGatewayControlPlaneWorker(s: Setting) {
    s.DependencyStartupTimeout? || s.DependencyProbeTimeout? || s.DependencyProbeInterval?
    || s.DependencyRetryMinDelay? || s.DependencyRetryMaxDelay? || s.MasterKeyringFile? || s.MetricsEnabled?
    || s.OtelEnabled? || s.OtelExporterOtlpEndpoint?
  }

  predicate ForGatewayControlPlane(s: Setting) {
    s.ApiKeyPepperRingFile?
  }

  predicate ForGatewayWorker(s: Setting) {
    s.UpstreamTotalTimeout?
  }

  predicate ForBootstrap(s: Setting) {
    s.BootstrapOwnerEmail? || s.BootstrapOwnerName? || s.BootstrapOrganizationName?
    || s.BootstrapOrganizationSlug? || s.BootstrapPasswordFile?
  }

  /** The inventory lists the process as a consumer of the setting. */
  predicate Consumes(p: Process, s: Setting) {
    match p
    case Gateway =>
      ForEveryProcess(s) || ForGatewayControlPlaneDeployment(s) || ForGatewayControlPlaneWorkerDeployment(s)
      || ForGatewayControlPlaneWorkerBootstrap(s) || ForGatewayDeployment(s) || ForGateway(s)
      || ForGatewayControlPlaneWorker(s) || ForGatewayControlPlane(s) || ForGatewayWorker(s)
    case ControlPlane =>
      ForEveryProcess(s) || ForGatewayControlPlaneDeployment(s) || ForControlPlaneDeployment(s)
      || ForGatewayControlPlaneWorkerDeployment(s) || ForGatewayControlPlaneWorkerBootstrap(s)
      || ForControlPlaneBootstrapDeployment(s) || ForControlPlaneBootstrap(s) || ForControlPlane(s)
      || ForGatewayControlPlaneWorker(s) || ForGatewayControlPlane(s)
    case Worker =>
      ForEveryProcess(s) || ForGatewayControlPlaneWorkerDeployment(s)
      || ForGatewayControlPlaneWorkerBootstrap(s) || ForWorkerDeployment(s) || ForWorker(s)
      || ForGatewayControlPlaneWorker(s) || ForGatewayWorker(s)
    case Bootstrap =>
      ForEveryProcess(s) || ForGatewayControlPlaneWorkerBootstrap(s) || ForControlPlaneBootstrapDeployment(s)
      || ForControlPlaneBootstrap(s) || ForBootstrap(s)
    case Deployment =>
      ForEveryProcess(s) || ForGatewayControlPlaneDeployment(s) || ForControlPlaneDeployment(s)
      || ForDeployment(s) || ForGatewayControlPlaneWorkerDeployment(s) || ForGatewayDeployment(s)
      || ForControlPlaneBootstrapDeployment(s) || ForWorkerDeployment(s)
  }

  // ---- what the parsers look up ------------------------------------------------------

  predicate SharedReads(s: Setting) {
    s.NexusrelayEnv? || s.NexusrelayVersion?
  }

  predicate HttpReads(s: Setting) {
    s.HttpBindAddress? || s.HttpPort? || s.ShutdownGracePeriod?
  }

  predicate LoggingReads(s: Setting) {
    s.LogLevel? || s.LogFormat?
  }

  predicate ObservabilityReads(s: Setting) {
    LoggingReads(s) || s.MetricsEnabled? || s.OtelEnabled? || s.OtelExporterOtlpEndpoint?
  }

  predicate ServiceReads(s: Setting) {
    SharedReads(s) || HttpReads(s) || ObservabilityReads(s)
  }

  predicate GatewayEndpointReads(s: Setting) {
    s.PublicApiBaseUrl? || s.TrustedProxyCidrs?
  }

  predicate ControlPlaneEndpointReads(s: Setting) {
    s.PublicApiBaseUrl? || s.AdminBaseUrl? || s.AdminOrigins? || s.TrustedProxyCidrs?
  }

  predicate EndpointReads(s: Setting) {
    s.PublicApiBaseUrl? || s.AdminBaseUrl? || s.PublicApiHost? || s.AdminHost? || s.AdminExposureMode?
    || s.AdminOrigins? || s.TrustedProxyCidrs?
  }

  predicate ReadinessReads(s: Setting) {
    s.DependencyStartupTimeout? || s.DependencyProbeTimeout? || s.DependencyProbeInterval?
    || s.DependencyRetryMinDelay? || s.DependencyRetryMaxDelay?
  }

  predicate GatewayPolicyReads(s: Setting) {
    s.RequestBodyMaxBytes? || s.UpstreamConnectTimeout? || s.UpstreamFirstByteTimeout?
    || s.UpstreamIdleTimeout? || s.UpstreamTotalTimeout? || s.MaxUpstreamAttempts?
  }

  predicate WorkerPolicyReads(s: Setting) {
    s.RequestRetentionDays? || s.AuditRetentionDays? || s.HealthObservationRetentionDays?
    || s.ProcessedOutboxRetentionDays? || s.AnalyticsTargetLag? || s.StaleRequestReconciliationInterval?
    || s.WorkerConcurrency? || s.OutboxLeaseDuration? || s.OutboxRetryBaseDelay? || s.OutboxRetryMaxDelay?
    || s.HealthProbeInterval? || s.HealthFastWindow? || s.HealthStabilizingWindow? || s.HealthMinSamples?
    || s.HealthPolicyVersion? || s.HealthUnavailableEntryThresholdBps? || s.HealthUnavailableExitThresholdBps?
    || s.HealthConsecutiveFailures? || s.HealthConsecutiveSuccesses? || s.RetentionBatchSize?
    || s.UpstreamTotalTimeout?
  }

  predicate PasswordPolicyReads(s: Setting) {
    s.PasswordArgon2MemoryKib? || s.PasswordArgon2Iterations? || s.PasswordArgon2Parallelism?
  }

  predicate SessionReads(s: Setting) {
    PasswordPolicyReads(s) || s.SessionIdleTtl? || s.SessionAbsoluteTtl? || s.SessionLastSeenWriteInterval?
    || s.SessionCookieName? || s.SessionSecretFile? || s.CsrfSecretRingFile?
  }

  predicate AgentReads(s: Setting) {
    s.AgentApiKeyEnv? || s.OpencodeProviderId? || s.OpencodeProviderName?
  }

  predicate TlsReads(s: Setting) {
    s.TlsMode? || s.TlsCertFile? || s.TlsKeyFile? || s.AcmeEmail? || s.AcmeDnsProvider?
    || s.AcmeDnsApiTokenFile?
  }

  predicate DatabaseInventoryReads(s: Setting) {
    s.PostgresDb? || s.DatabaseName? || s.PostgresUser? || s.DatabaseMigrationUser? || s.DatabaseGatewayUser?
    || s.DatabaseControlPlaneUser? || s.DatabaseWorkerUser? || s.PostgresPasswordFile?
    || s.DatabaseMigrationPasswordFile? || s.DatabaseGatewayPasswordFile?
    || s.DatabaseControlPlanePasswordFile? || s.DatabaseWorkerPasswordFile? || s.DatabaseSslmode?
  }

  predicate CloudflareReads(s: Setting) {
    s.EnableCloudflareTunnel? || s.CloudflareTunnelId? || s.CloudflareTunnelCredentialsFile?
  }

  predicate DatabaseReads(s: Setting) {
    s.DatabaseName? || s.DatabaseHost? || s.DatabasePort? || s.DatabaseSslmode? || s.NexusrelayEnv?
    || s.DatabaseStatementTimeout? || s.DatabaseTransactionTimeout?
  }

  predicate GatewayDatabaseReads(s: Setting) {
    DatabaseReads(s) || s.DatabaseGatewayUser? || s.DatabaseMinConnectionsGateway?
    || s.DatabaseMaxConnectionsGateway? || s.DatabaseGatewayPasswordFile?
  }

  predicate ControlPlaneDatabaseReads(s: Setting) {
    DatabaseReads(s) || s.DatabaseControlPlaneUser? || s.DatabaseMinConnectionsControlPlane?
    || s.DatabaseMaxConnectionsControlPlane? || s.DatabaseControlPlanePasswordFile?
  }

  predicate WorkerDatabaseReads(s: Setting) {
    DatabaseReads(s) || s.DatabaseWorkerUser? || s.DatabaseMinConnectionsWorker?
    || s.DatabaseMaxConnectionsWorker? || s.DatabaseWorkerPasswordFile?
  }

  /** What the parser of a process may look up. */
  predicate Reads(p: Process, s: Setting) {
    match p
    case Gateway =>
      ServiceReads(s) || GatewayEndpointReads(s) || GatewayDatabaseReads(s) || s.RedisUrlFile?
      || s.RedisMaxConnectionsGateway? || ReadinessReads(s) || s.MasterKeyringFile? || s.ApiKeyPepperRingFile?
      || GatewayPolicyReads(s)
    case ControlPlane =>
      ServiceReads(s) || ControlPlaneEndpointReads(s) || ControlPlaneDatabaseReads(s) || s.RedisUrlFile?
      || s.RedisMaxConnectionsControlPlane? || ReadinessReads(s) || s.MasterKeyringFile? || s.ApiKeyPepperRingFile?
      || SessionReads(s) || AgentReads(s)
    case Worker =>
      ServiceReads(s) || WorkerDatabaseReads(s) || s.RedisUrlFile? || s.RedisMaxConnectionsWorker? || ReadinessReads(s)
      || s.MasterKeyringFile? || WorkerPolicyReads(s)
    case Bootstrap =>
      SharedReads(s) || LoggingReads(s) || ControlPlaneDatabaseReads(s) || PasswordPolicyReads(s) || BootstrapOnly(s)
    case Deployment =>
      SharedReads(s) || EndpointReads(s) || HttpReads(s) || s.HttpsPort? || TlsReads(s) || DatabaseInventoryReads(s)
      || s.RedisPasswordFile? || s.RedisUrlFile? || CloudflareReads(s) || s.EnableTailscalePrivateAdmin?
  }

  /** The settings that only the bootstrap command accepts. */
  predicate BootstrapOnly(s: Setting) {
    s.BootstrapOwnerEmail? || s.BootstrapOwnerName? || s.BootstrapOrganizationName? || s.BootstrapOrganizationSlug?
    || s.BootstrapPasswordFile?
  }

  lemma GatewayReads(s: Setting)
    ensures Reads(Gateway, s) ==> Consumes(Gateway, s)
  {
  }

  lemma GatewayConsumes(s: Setting)
    ensures Consumes(Gateway, s) ==> Reads(Gateway, s)
  {
  }

  lemma ControlPlaneReads(s: Setting)
    ensures Reads(ControlPlane, s) ==> Consumes(ControlPlane, s)
  {
  }

  lemma ControlPlaneConsumes(s: Setting)
    ensures Consumes(ControlPlane, s) ==> Reads(ControlPlane, s)
  {
  }

  lemma WorkerReads(s: Setting)
    ensures Reads(Worker, s) ==> Consumes(Worker, s)
  {
  }

  lemma WorkerConsumes(s: Setting)
    ensures Consumes(Worker, s) ==> Reads(Worker, s)
  {
  }

  lemma BootstrapReads(s: Setting)
    ensures Reads(Bootstrap, s) ==> Consumes(Bootstrap, s)
  {
  }

  lemma BootstrapConsumes(s: Setting)
    ensures Consumes(Bootstrap, s) ==> Reads(Bootstrap, s)
  {
  }

  lemma DeploymentReads(s: Setting)
    ensures Reads(Deployment, s) ==> Consumes(Deployment, s)
  {
  }

  lemma DeploymentConsumes(s: Setting)
    ensures Consumes(Deployment, s) ==> Reads(Deployment, s)
  {
  }

  /** A parser looks up a setting exactly when the inventory lists its process as a consumer. */
  lemma ReadsWhatItConsumes(p: Process, s: Setting)
    ensures Reads(p, s) <==> Consumes(p, s)
  {
    match p
    case Gateway => GatewayReads(s); GatewayConsumes(s);
    case ControlPlane => ControlPlaneReads(s); ControlPlaneConsumes(s);
    case Worker => WorkerReads(s); WorkerConsumes(s);
    case Bootstrap => BootstrapReads(s); BootstrapConsumes(s);
    case Deployment => DeploymentReads(s); DeploymentConsumes(s);
  }

  lemma ConsumedIsKnown(p: Process, s: Setting)
    requires Consumes(p, s)
    ensures !s.Other?
  {
  }

  lemma GatewayDoesNotBootstrap(s: Setting)
    requires Consumes(Gateway, s)
    ensures !BootstrapOnly(s)
  {
  }

  lemma ControlPlaneDoesNotBootstrap(s: Setting)
    requires Consumes(ControlPlane, s)
    ensures !BootstrapOnly(s)
  {
  }

  lemma WorkerDoesNotBootstrap(s: Setting)
    requires Consumes(Worker, s)
    ensures !BootstrapOnly(s)
  {
  }

  lemma ServicesDoNotBootstrap(p: Process, s: Setting)
    requires Consumes(p, s) && LongRunning(p)
    ensures !BootstrapOnly(s)
  {
    match p
    case Gateway => GatewayDoesNotBootstrap(s);
    case ControlPlane => ControlPlaneDoesNotBootstrap(s);
    case Worker => WorkerDoesNotBootstrap(s);
  }

  // ---- names ---------------------------------------------------------------------------

  type Values = map<Setting, string>

  /** Obsolete names, and names that only this system would use. */
  predicate Undocumented(s: Setting) {
    s.Other? &&
    (|| s.name == "CSRF_SECRET_FILE" || s.name == "DATABASE_USER" || s.name == "DATABASE_PASSWORD_FILE"
     || s.name == "SHARED_DATABASE_PASSWORD_FILE"
     || Text.StartsWith(s.name, "NEXUSRELAY_") || Text.StartsWith(s.name, "BOOTSTRAP_"))
  }

  predicate LongRunning(p: Process) {
    p.Gateway? || p.ControlPlane? || p.Worker?
  }

  predicate Preflight(v: Values, p: Process) {
    forall s :: s in v ==> !Undocumented(s) && !(LongRunning(p) && BootstrapOnly(s))
  }

  /** Any order of a map's names. */
  ghost predicate Enumerates(order: seq<Setting>, v: Values) {
    forall s :: s in v <==> s in order
  }

  /** The name checks, whatever order the map is walked in. */
  method CheckNames(v: Values, p: Process, order: seq<Setting>) returns (accepted: bool)
    requires Enumerates(order, v)
    ensures accepted <==> Preflight(v, p)
  {
    for i := 0 to |order|
      invariant forall j :: 0 <= j < i ==> !Undocumented(order[j]) && !(LongRunning(p) && BootstrapOnly(order[j]))
    {
      assert order[i] in v;
      if Undocumented(order[i]) || (LongRunning(p) && BootstrapOnly(order[i])) {
        return false;
      }
    }
    return true;
  }

  function View(v: Values, p: Process): Values {
    map s | s in v && Consumes(p, s) :: v[s]
  }

  /** ValuesForProcess, whatever order the map is walked in. */
  method ValuesForProcess(v: Values, p: Process, order: seq<Setting>) returns (filtered: Values)
    requires Enumerates(order, v)
    ensures filtered == View(v, p)
  {
    filtered := map[];
    for i := 0 to |order|
      invariant forall s :: s in filtered <==> s in order[..i] && Consumes(p, s)
      invariant forall s :: s in filtered ==> s in v && filtered[s] == v[s]
    {
      assert order[..i + 1] == order[..i] + [order[i]];
      if Consumes(p, order[i]) {
        filtered := filtered[order[i] := v[order[i]]];
      }
    }
    assert order[..|order|] == order;
  }

  // ---- parsers --------------------------------------------------------------------------

  /** A parser: the settings it looks up, and what it makes of their values or absence. */
  datatype Parser<T> = Parser(lookups: seq<Setting>, decide: seq<Option<string>> -> Result<T>)

  function Find(v: Values, s: Setting): Option<string> {
    if s in v then Some(v[s]) else None
  }

  function Answers(v: Values, lookups: seq<Setting>): seq<Option<string>> {
    seq(|lookups|, i requires 0 <= i < |lookups| => Find(v, lookups[i]))
  }

  function Evaluate<T>(parser: Parser<T>, v: Values): Result<T> {
    parser.decide(Answers(v, parser.lookups))
  }

  predicate ParserOf<T>(parser: Parser<T>, p: Process) {
    forall i :: 0 <= i < |parser.lookups| ==> Reads(p, parser.lookups[i])
  }

  function Parse<T>(parser: Parser<T>, v: Values, p: Process): Result<T> {
    if Preflight(v, p) then Evaluate(parser, v) else Rejected
  }

  lemma ViewPasses(v: Values, p: Process)
    ensures Preflight(View(v, p), p)
  {
    forall s | s in View(v, p) ensures !Undocumented(s) && !(LongRunning(p) && BootstrapOnly(s)) {
      ConsumedIsKnown(p, s);
      if LongRunning(p) {
        ServicesDoNotBootstrap(p, s);
      }
    }
  }

  /** Maps that agree on what a process consumes give the same outcome, whatever the
      parser of the process checks. */
  lemma OthersDoNotMatter<T>(parser: Parser<T>, p: Process, v: Values, w: Values)
    requires ParserOf(parser, p) && View(v, p) == View(w, p)
    ensures Evaluate(parser, v) == Evaluate(parser, w)
  {
    forall i | 0 <= i < |parser.lookups| ensures Find(v, parser.lookups[i]) == Find(w, parser.lookups[i]) {
      var s := parser.lookups[i];
      ReadsWhatItConsumes(p, s);
      assert Find(v, s) == Find(View(v, p), s) && Find(w, s) == Find(View(w, p), s);
    }
    assert Answers(v, parser.lookups) == Answers(w, parser.lookups);
  }

  /** The parser of a process accepts the full map and its own view of it alike, with the
      same settings, as soon as the full map passes preflight; a view always does. */
  lemma ViewsDoNotInterfere<T>(parser: Parser<T>, p: Process, v: Values)
    requires ParserOf(parser, p)
    ensures Parse(parser, View(v, p), p) == Evaluate(parser, v)
    ensures Preflight(v, p) ==> Parse(parser, View(v, p), p) == Parse(parser, v, p)
  {
    ViewPasses(v, p);
    assert View(View(v, p), p) == View(v, p);
    OthersDoNotMatter(parser, p, View(v, p), v);
  }

  // ---- the parser of the dependency section ----------------------------------------------

  const READINESS_LOOKUPS: seq<Setting> := [
    DependencyStartupTimeout, DependencyProbeTimeout, DependencyProbeInterval, DependencyRetryMinDelay,
    DependencyRetryMaxDelay
  ]

  /** A looked-up duration; time.ParseDuration is given. */
  function AsDuration(parse: string -> Option<Readiness.Duration>, answer: Option<string>): Readiness.Setting {
    match answer
    case None => Readiness.Absent
    case Some(text) => if parse(text).None? then Readiness.Malformed else Readiness.Parsed(parse(text).value)
  }

  function DecideReadiness(parse: string -> Option<Readiness.Duration>,
                           answers: seq<Option<string>>): Result<Readiness.Policy> {
    if |answers| != |READINESS_LOOKUPS| then Rejected
    else
      Readiness.ParsePolicy(Readiness.Settings(
        AsDuration(parse, answers[0]), AsDuration(parse, answers[1]), AsDuration(parse, answers[2]),
        AsDuration(parse, answers[3]), AsDuration(parse, answers[4])))
  }

  function ReadinessParser(parse: string -> Option<Readiness.Duration>): Parser<Readiness.Policy> {
    Parser(READINESS_LOOKUPS, answers => DecideReadiness(parse, answers))
  }

  method DurationSetting(v: Values, parse: string -> Option<Readiness.Duration>, s: Setting,
                         fallback: Readiness.Duration, min: Readiness.Duration, max: Readiness.Duration)
    returns (duration: Result<Readiness.Duration>)
    ensures duration == Readiness.Ranged(AsDuration(parse, Find(v, s)), fallback, min, max)
  {
    var parsed := if s in v then parse(v[s]) else Some(fallback);
    if parsed.None? || parsed.value < min || parsed.value > max {
      return Rejected;
    }
    return Ok(parsed.value);
  }

  /** parseDependencyReadiness: five lookups and two comparisons, the first failure ending it. */
  method ParseReadiness(v: Values, parse: string -> Option<Readiness.Duration>)
    returns (policy: Result<Readiness.Policy>)
    ensures policy == Evaluate(ReadinessParser(parse), v)
    ensures policy.Ok? ==> Readiness.Valid(policy.value)
  {
    ReadinessAnswers(v);
    var startup := DurationSetting(v, parse, DependencyStartupTimeout, 60 * Readiness.SECOND, Readiness.SECOND,
                                   10 * Readiness.MINUTE);
    if startup.Rejected? {
      return Rejected;
    }
    var probe := DurationSetting(v, parse, DependencyProbeTimeout, 3 * Readiness.SECOND, 100 * Readiness.MILLISECOND,
                                 Readiness.MINUTE);
    if probe.Rejected? {
      return Rejected;
    }
    var interval := DurationSetting(v, parse, DependencyProbeInterval, 5 * Readiness.SECOND, Readiness.SECOND,
                                    Readiness.MINUTE);
    if interval.Rejected? {
      return Rejected;
    }
    var minimum := DurationSetting(v, parse, DependencyRetryMinDelay, 100 * Readiness.MILLISECOND,
                                   10 * Readiness.MILLISECOND, Readiness.MINUTE);
    if minimum.Rejected? {
      return Rejected;
    }
    var maximum := DurationSetting(v, parse, DependencyRetryMaxDelay, 2 * Readiness.SECOND,
                                   10 * Readiness.MILLISECOND, Readiness.MINUTE);
    if maximum.Rejected? || probe.value >= startup.value || minimum.value > maximum.value {
      return Rejected;
    }
    return Ok(Readiness.Policy(startup.value, probe.value, interval.value, minimum.value, maximum.value));
  }

  lemma ReadinessAnswers(v: Values)
    ensures Answers(v, READINESS_LOOKUPS) == [
              Find(v, DependencyStartupTimeout), Find(v, DependencyProbeTimeout), Find(v, DependencyProbeInterval),
              Find(v, DependencyRetryMinDelay), Find(v, DependencyRetryMaxDelay)]
  {
  }

  /** What the code of this parser looks up is exactly its entry in the lookup tables. */
  lemma ReadinessReadsExactly(parse: string -> Option<Readiness.Duration>, s: Setting)
    ensures s in ReadinessParser(parse).lookups <==> ReadinessReads(s)
  {
  }

  /** So a service makes the same policy of the full map and of its view. */
  lemma ReadinessOnView(parse: string -> Option<Readiness.Duration>, p: Process, v: Values)
    requires LongRunning(p)
    ensures Evaluate(ReadinessParser(parse), View(v, p)) == Evaluate(ReadinessParser(parse), v)
  {
    var parser := ReadinessParser(parse);
    forall i | 0 <= i < |parser.lookups| ensures Reads(p, parser.lookups[i]) {
      ReadinessReadsExactly(parse, parser.lookups[i]);
    }
    assert View(View(v, p), p) == View(v, p);
    OthersDoNotMatter(parser, p, View(v, p), v);
  }

  // ---- complete validation ----------------------------------------------------------------

  /** ValidateComplete: each parser on its own view, in turn. */
  method ValidateComplete<D, G, C, W>(v: Values, deployment: Parser<D>, gateway: Parser<G>,
                                      controlPlane: Parser<C>, worker: Parser<W>, order: seq<Setting>)
    returns (accepted: bool)
    requires ParserOf(deployment, Deployment) && ParserOf(gateway, Gateway)
    requires ParserOf(controlPlane, ControlPlane) && ParserOf(worker, Worker)
    requires Enumerates(order, v)
    ensures accepted <==>
              && Evaluate(deployment, v).Ok? && Evaluate(gateway, v).Ok?
              && Evaluate(controlPlane, v).Ok? && Evaluate(worker, v).Ok?
  {
    ViewsDoNotInterfere(deployment, Deployment, v);
    ViewsDoNotInterfere(gateway, Gateway, v);
    ViewsDoNotInterfere(controlPlane, ControlPlane, v);
    ViewsDoNotInterfere(worker, Worker, v);
    var view := ValuesForProcess(v, Deployment, order);
    if Parse(deployment, view, Deployment).Rejected? {
      return false;
    }
    view := ValuesForProcess(v, Gateway, order);
    if Parse(gateway, view, Gateway).Rejected? {
      return false;
    }
    view := ValuesForProcess(v, ControlPlane, order);
    if Parse(controlPlane, view, ControlPlane).Rejected? {
      return false;
    }
    view := ValuesForProcess(v, Worker, order);
    return Parse(worker, view, Worker).Ok?;
  }
}
