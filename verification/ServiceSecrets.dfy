/** Which secrets the service volumes hold, against which secrets the services consume. */
module ServiceSecrets {
  import opened Wrappers
  import opened SecretFiles
  import P = ProcessViews
  import Publisher

  /** The inventory file behind a setting. */
  function SecretFile(s: P.Setting): Option<Name> {
    if s.PostgresPasswordFile? then Some(PostgresClusterAdminPassword)
    else if s.DatabaseMigrationPasswordFile? then Some(PostgresMigrationPassword)
    else if s.DatabaseGatewayPasswordFile? then Some(PostgresGatewayPassword)
    else if s.DatabaseControlPlanePasswordFile? then Some(PostgresControlPlanePassword)
    else if s.DatabaseWorkerPasswordFile? then Some(PostgresWorkerPassword)
    else if s.RedisPasswordFile? then Some(RedisPassword)
    else if s.RedisUrlFile? then Some(RedisUrl)
    else if s.MasterKeyringFile? then Some(ProviderMasterKeyring)
    else if s.ApiKeyPepperRingFile? then Some(ApiKeyPepperRing)
    else if s.SessionSecretFile? then Some(SessionSecret)
    else if s.CsrfSecretRingFile? then Some(CsrfSecretRing)
    else None
  }

  function SettingOf(name: Name): P.Setting
    requires !name.Foreign?
  {
    match name
    case PostgresClusterAdminPassword => P.PostgresPasswordFile
    case PostgresMigrationPassword => P.DatabaseMigrationPasswordFile
    case PostgresGatewayPassword => P.DatabaseGatewayPasswordFile
    case PostgresControlPlanePassword => P.DatabaseControlPlanePasswordFile
    case PostgresWorkerPassword => P.DatabaseWorkerPasswordFile
    case RedisPassword => P.RedisPasswordFile
    case RedisUrl => P.RedisUrlFile
    case ProviderMasterKeyring => P.MasterKeyringFile
    case ApiKeyPepperRing => P.ApiKeyPepperRingFile
    case SessionSecret => P.SessionSecretFile
    case CsrfSecretRing => P.CsrfSecretRingFile
  }

  /** The volume published for a long-running service. */
  function VolumeOf(p: P.Process): Publisher.Target
    requires P.LongRunning(p)
  {
    match p
    case Gateway => Publisher.GATEWAY
    case ControlPlane => Publisher.CONTROL_PLANE
    case Worker => Publisher.WORKER
  }

  lemma FileOfSetting(name: Name)
    requires !name.Foreign?
    ensures SecretFile(SettingOf(name)) == Some(name)
  {
  }

  lemma SettingOfFile(s: P.Setting)
    requires SecretFile(s).Some?
    ensures !SecretFile(s).value.Foreign? && SettingOf(SecretFile(s).value) == s
  {
  }

  lemma SettingsAndFiles(s: P.Setting, name: Name)
    requires !name.Foreign?
    ensures SecretFile(s) == Some(name) <==> s == SettingOf(name)
  {
    FileOfSetting(name);
    if SecretFile(s).Some? {
      SettingOfFile(s);
    }
  }

  /** The secrets of the long-running services. */
  predicate Needs(p: P.Process, name: Name)
    requires P.LongRunning(p)
  {
    match p
    case Gateway =>
      name.PostgresGatewayPassword? || name.RedisUrl? || name.ProviderMasterKeyring? || name.ApiKeyPepperRing?
    case ControlPlane =>
      name.PostgresControlPlanePassword? || name.RedisUrl? || name.ProviderMasterKeyring? || name.ApiKeyPepperRing?
      || name.SessionSecret? || name.CsrfSecretRing?
    case Worker =>
      name.PostgresWorkerPassword? || name.RedisUrl? || name.ProviderMasterKeyring?
  }

  lemma VolumeHoldsNeeds(p: P.Process, name: Name)
    requires P.LongRunning(p)
    ensures name in VolumeOf(p).files <==> Needs(p, name)
  {
  }

  lemma GatewayNeeds(name: Name)
    requires !name.Foreign?
    ensures Needs(P.Gateway, name) <==> P.Consumes(P.Gateway, SettingOf(name))
  {
  }

  lemma ControlPlaneNeeds(name: Name)
    requires !name.Foreign?
    ensures Needs(P.ControlPlane, name) <==> P.Consumes(P.ControlPlane, SettingOf(name))
  {
  }

  lemma WorkerNeeds(name: Name)
    requires !name.Foreign?
    ensures Needs(P.Worker, name) <==> P.Consumes(P.Worker, SettingOf(name))
  {
  }

  /** A service's volume holds a secret exactly when the inventory lists the service as a
      consumer of its setting. */
  lemma VolumesMatchConsumers(p: P.Process, name: Name)
    requires P.LongRunning(p) && !name.Foreign?
    ensures name in VolumeOf(p).files <==> P.Consumes(p, SettingOf(name))
  {
    VolumeHoldsNeeds(p, name);
    match p
    case Gateway => GatewayNeeds(name);
    case ControlPlane => ControlPlaneNeeds(name);
    case Worker => WorkerNeeds(name);
  }

  /** A published service volume holds nothing else: no foreign file, no other service's secret. */
  lemma PublishedVolumeIsLeast(p: P.Process, source: Volume, name: Name)
    requires P.LongRunning(p)
    ensures name in Publisher.Complete(VolumeOf(p), source) <==> !name.Foreign? && P.Consumes(p, SettingOf(name))
  {
    if !name.Foreign? {
      VolumesMatchConsumers(p, name);
    }
  }
}
