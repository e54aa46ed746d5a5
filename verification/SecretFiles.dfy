/** The secret inventory and file-system entries shared by its generator and publisher. */
module SecretFiles {
  import opened Base64

  /** File names: the eleven of the inventory, or any other. */
  datatype Name =
    | ApiKeyPepperRing
    | CsrfSecretRing
    | PostgresClusterAdminPassword
    | PostgresControlPlanePassword
    | PostgresGatewayPassword
    | PostgresMigrationPassword
    | PostgresWorkerPassword
    | ProviderMasterKeyring
    | RedisPassword
    | RedisUrl
    | SessionSecret
    | Foreign(text: string)

  const INVENTORY: seq<Name> := [
    ApiKeyPepperRing, CsrfSecretRing, PostgresClusterAdminPassword, PostgresControlPlanePassword,
    PostgresGatewayPassword, PostgresMigrationPassword, PostgresWorkerPassword, ProviderMasterKeyring,
    RedisPassword, RedisUrl, SessionSecret
  ]

  /** In the order in which they are generated and published. */
  const DATABASE_PASSWORDS: seq<Name> := [
    PostgresClusterAdminPassword, PostgresMigrationPassword, PostgresGatewayPassword,
    PostgresControlPlanePassword, PostgresWorkerPassword
  ]

  /** A directory entry: a regular file, or a directory, link or device. */
  datatype Entry = File(bytes: seq<Byte>, mode: nat, uid: nat, gid: nat) | Irregular

  type Volume = map<Name, Entry>

  const MODE_0400: nat := 4 * 64
  const MODE_0600: nat := 6 * 64

  function Names(files: seq<Name>): set<Name> {
    set name | name in files
  }

  function Contents(files: Volume, name: Name): seq<Byte> {
    if name in files && files[name].File? then files[name].bytes else []
  }
}
