# NexusRelay: verified models of its protocols, recognisers and publishers

This Dafny project models three hard cores of the NexusRelay repository and proves what they promise.

**The service lifecycle.** `dependency.Run` supervises a serve goroutine, rounds of concurrent probes, a
doubling retry timer, a startup deadline and parent cancellation. `Supervisor` gives it as a labelled step
function: each label is one move of the supervisor, of a probe, of the serve goroutine, of the clock or of the
parent, and a run is any sequence of enabled labels, so every interleaving is a run. The moves write a history
of events (`Trace`), and the promises are predicates over that history. `HttpService` puts the operational HTTP
server in the place of `serve` and proves that the composition refines the supervisor. `InitializedRun` does the
same for `RunInitialized` and its watcher. `ProbeRound` runs one round for every schedule of its goroutines, and
`Readiness` has the policy, the 64-bit doubling and the parser of the policy.

**Strict recognisers and round trips.** Loops of the source are methods with invariants, proved against
specification functions, and those are proved equal to grammars: the hand-written IPv6/IPv4/DNS recogniser
(`MigrationHost`, `Ipv6Text`), the fixture SSE parser (`FixtureSse`), the schema-directed JSON scanner and the
second-pass decoder (`StrictJson`), canonical base64 keys and key rings (`Base64`, `KeyRings`), the environment
file (`EnvFile`), the password readers that live in four different files (`Passwords`), and the settings views
of the processes (`ProcessViews`).

**Publication that survives crashes.** `Publisher`, `SharedConfig` and `DevSecrets` are classes whose fields
are the file system and a budget of steps (or a list of system-call results); running out is a kill. `Publisher`
and `SharedConfig` are proved equal to a list of atomic actions cut off at the budget (`Replay`), so a statement
about every budget is a statement about every crash point, and about everything a concurrent reader may see.

`ServiceSecrets` joins the two tables of the repository that must agree: what the publisher puts into the volume
of each service, and what the settings inventory lets that service consume.

In `DevSecrets` the content is in the contracts of `Generate` and `GenerateDevSecrets`, which say for every number of
system calls before a kill what is left; the lemmas over many runs, such as `NeverOverwritten` and `AfterKill`, iterate
what those contracts promise.

`Text`, `Wrappers`, `Replay` and `SecretFiles` hold what these modules share.

## Where the code keeps less than one might expect

Each of these is proved with a concrete run or as an exact condition.

- Readiness does not always agree with the last completed probe round: between the end of a failed steady round
  and the write that follows it, readiness is still true (`Supervisor.VerdictGapReachable`). That window is the
  only one, and leaving it is the supervisor's next move (`Supervisor.ReadyUnlessVerdictPending`).
- The retry delay is the capped exponential for every attempt exactly when the maximum is below 2^62 ns
  (`Readiness.DoublingNeverOverflowsIff`). The supervisor's own check does not demand that; the configuration
  parser's ranges imply it.
- The watcher of `RunInitialized` may write after the call has returned (`InitializedRun.WatcherMayWriteLate`): it can
  exactly while it waits or has seen the cancellation without having written (`InitializedRun.LateWriteIff`), and then
  it adds one write, which is false (`InitializedRun.AtMostOneLateWrite`).
- The environment parser accepts CR CR LF line ends: the scanner strips one carriage return and the loop another.
- The Redis entrypoint accepts files that the Go reader rejects: those of 4097 or 4098 bytes, and those with NUL
  bytes, which command substitution drops. `Passwords.RedisReadersAgree` has the exact condition,
  `Passwords.SplitReadersExist` files of both kinds.
- A publisher killed inside a target blocks every later run, whatever the source
  (`Publisher.UncleanKillWedges`, `Publisher.OneStepWedges`).
- A generator of development secrets killed between its mkdir and its last rename leaves a destination that every
  later run rejects and none repairs; killed earlier it leaves nothing, killed later the validated inventory
  (`DevSecrets.AfterKill`).
- A shared-config initializer killed between making and renaming its link leaves that link behind, at one budget
  exactly (`SharedConfig.LinkLeftExactly`). A later run with the same process id follows it, and the script never
  looks at the mode of the release behind it. If that release is unwritable, as the script leaves its own, `ln` fails
  and every such run is blocked for good (`SharedConfig.LeftoverLinkWedges`); a kill anywhere else can be recovered
  from (`SharedConfig.RecoversIffNoLink`). If it is writable, `ln` makes its link inside the release and the run
  completes: the pointer then names the release behind the leftover link (`SharedConfig.CompletedRun`), and that
  revision can never be published again (`SharedConfig.WritableReleaseSpoiled`, `SharedConfig.SpoilingKillExists`,
  `SharedConfig.SpoiledForGood`).
  `SharedConfig.ReleasesChangeIffEntered` says when a release changes, `SharedConfig.RecoversIff` when a run can
  follow a kill. Volumes without writable releases (`Tidy`: the empty one, and whatever runs make of it) are not
  exposed to that (`SharedConfig.TidyAlways`).
- The initializer does not notice a failing `sha256sum` inside its pipeline and publishes the release all the
  same (`SharedConfig.UnhashedRunCompletes`). The pointer is sound exactly when the last run that moved it had
  computed its checksum and entered no release, and no run has entered that release since
  (`SharedConfig.PointerSoundIff`).

## Model

| member | source | states |
|---|---|---|
| Readiness.DelayIsCapped | internal/dependency/readiness.go:73-99 | below 2^62 ns, the k-th wrapped 64-bit delay is min(minimum * 2^k, maximum) |
| Readiness.DoublingNeverOverflowsIff | internal/dependency/readiness.go:99 | the delay is the capped exponential for every attempt if and only if the maximum is below 2^62 ns |
| Readiness.WaitedAtLeast | internal/dependency/readiness.go:73-99 | the first k timers together wait at least k minimums |
| Readiness.AttemptBound | internal/dependency/readiness.go:71-99 | an attempt that starts before the deadline has number at most (timeout - 1) / minimum |
| Readiness.ParsedPolicyIsSafe | internal/config/config.go:438-466 | every accepted configuration passes the supervisor's check, keeps probe below startup timeout, and never overflows in any attempt |
| ProbeRound.FailingIndicesExact | internal/dependency/readiness.go:137-143 | the collected indices are exactly the failed ones, ascending, each once |
| ProbeRound.NoNamesIffAllSucceeded | internal/dependency/readiness.go:76-77 | the list of names is empty exactly when no probe failed |
| ProbeRound.ForkAndJoin | internal/dependency/readiness.go:119-135 | for every schedule of the goroutines, the result array and the observer calls after the join |
| ProbeRound.Collect | internal/dependency/readiness.go:137-143 | the collecting loop returns the failing names in probe order |
| ProbeRound.RunProbes | internal/dependency/readiness.go:118-144 | for every completion order the result is the probe-order list of failing names, and each observer is called once with that probe's name and error |
| Supervisor.InvAlways | internal/dependency/readiness.go:51-116 | the channel, the goroutine, readiness, the last round and the pending exit agree after every run |
| Supervisor.NeverCancelledWhileReady | internal/dependency/readiness.go:64-111 | on every interleaving the serve context is cancelled only with readiness down or serve over, and readiness is never raised afterwards |
| Supervisor.ReturnsOnlyDrained | internal/dependency/readiness.go:64-111 | every return happens after serve returned, its one result received once, readiness last written false, and the exit value explained by serve's result or by the last failed round |
| Supervisor.ReadyUnlessVerdictPending | internal/dependency/readiness.go:76-113 | readiness is raised only from a clean round, and disagrees with the last round exactly between a failed steady round and the write that follows |
| Supervisor.VerdictGapReachable | internal/dependency/readiness.go:113 | a run that shows that disagreement |
| Supervisor.NeverStuck | internal/dependency/readiness.go:74-115 | until it returns, the supervisor can move or waits for a running probe, the retry timer, or the result of a cancelled serve |
| Supervisor.RoundReports | internal/dependency/readiness.go:75-113 | whatever order its probes finish in, a round is joined with exactly the names that the probe round's own loop returns for the same outcomes |
| Supervisor.StartupRoundsAreBounded | internal/dependency/readiness.go:71-100 | under every parsed configuration, startup rounds are spaced by the capped delays and at most 1 + (timeout - 1) / minimum begin before the deadline |
| HttpService.RefinesSupervisor | internal/httpserver/server.go:28-62 | every run of supervisor plus HTTP server is, for the supervisor, one of its own runs |
| HttpService.ServerMovesFreely | internal/httpserver/server.go:36-62 | a move of the server is never refused by the supervisor's side |
| HttpService.ServerNeverStuck | internal/httpserver/server.go:36-62 | from its call to its return, the server or its accept loop has a move, whatever the supervisor does |
| HttpService.NeverStuck | internal/httpserver/server.go:28-62 | after every run of the composition and until the supervisor returns, a move of the supervisor or of the server, a running probe or the sending of serve's result can take it on, unless it only waits for the retry timer |
| HttpService.CoherentAlways | internal/httpserver/server.go:36-62 | acceptor, its channel and the server's control point agree after every run |
| HttpService.ShutdownOrder | internal/httpserver/server.go:36-62 | readiness is cleared before Shutdown begins, the accept loop's result is received exactly once before serve returns, and the supervisor returns only after both |
| InitializedRun.PhaseMeaning | internal/runtime/runtime.go:29-52 | the four phases of readiness writes mean: none, one false, raised, lowered for good |
| InitializedRun.ReadinessProtocol | internal/runtime/runtime.go:29-52 | a refused call writes a single false and never runs; otherwise one true followed only by falses, with the run context cancelled only when readiness is down or run is over |
| InitializedRun.WatcherMayWriteLate | internal/runtime/runtime.go:38-45 | a run in which the watcher writes false after the call has returned |
| InitializedRun.LateWriteIff | internal/runtime/runtime.go:38-52 | after the call has returned, some continuation adds a write if and only if the watcher still waits or has seen the cancellation without writing |
| InitializedRun.AtMostOneLateWrite | internal/runtime/runtime.go:38-52 | after the call has returned, any continuation adds no write or one, and that one is false |
| Ipv6Text.FourOctetsExact | deploy/migrate/entrypoint.sh:30-37 | the octet loop accepts exactly the dotted quads of canonical decimals up to 255 |
| Ipv6Text.RecognisedExact | deploy/migrate/entrypoint.sh:44-61 | rewriting a dotted tail to 0:0, splitting at the first double colon and counting groups accepts exactly the text forms of section 2.2 of RFC 4291 with a canonical dotted tail and a double colon standing for at least one group |
| Ipv6Text.Ipv6Length | deploy/migrate/entrypoint.sh:28 | no IPv6 literal is longer than 45 characters and each has a colon |
| MigrationHost.CheckFourOctets | deploy/migrate/entrypoint.sh:30-37 | the octet loop, against the grammar's specification function |
| MigrationHost.CountGroups | deploy/migrate/entrypoint.sh:38-43 | the group-counting loop |
| MigrationHost.FindLastColon | deploy/migrate/entrypoint.sh:49-50 | the loop ends at the position after the last colon |
| MigrationHost.RewriteTail | deploy/migrate/entrypoint.sh:47-53 | a dotted tail is checked and rewritten to two zero groups, or the address is rejected |
| MigrationHost.CheckGroups | deploy/migrate/entrypoint.sh:54-60 | the group counts on the two sides of the first double colon, or eight groups without one |
| MigrationHost.CheckIpv6 | deploy/migrate/entrypoint.sh:28-62 | with its 45-byte cap the program accepts exactly the IPv6 literals |
| MigrationHost.CheckLabels | deploy/migrate/entrypoint.sh:67-74 | accepts exactly the names whose labels are valid |
| MigrationHost.ValidateHost | deploy/migrate/entrypoint.sh:16-91 | accepts exactly the host literals, the 15- and 45-byte caps never rejecting one, and exports the bracketed or plain form |
| MigrationHost.PortExact | deploy/migrate/entrypoint.sh:130-134 | accepts exactly the canonical decimals of 1 to 65535, octal shell arithmetic included |
| MigrationHost.HostPortParses | deploy/migrate/entrypoint.sh:63-90 | an exported host with a port parses back to the same host and port |
| MigrationHost.UrlReachesValidatedHost | atlas.hcl:6 | whatever the escaped credentials, the assembled URL names exactly the validated host and port (section 3.2 of RFC 3986) |
| FixtureSse.CleanLinesExact | tools/validate_phase0_fixtures.py:41-43 | the per-line whitespace check is the pointwise one |
| FixtureSse.ReadText | tools/validate_phase0_fixtures.py:29-44 | the checks of read_text, decided by its loop |
| FixtureSse.ParseSse | tools/validate_phase0_fixtures.py:76-109 | the record loop accepts exactly what Accepts says, with those records |
| FixtureSse.AcceptsOnce | tools/validate_phase0_fixtures.py:76-109 | a text is accepted with one list of records only |
| FixtureSse.AcceptedRendersBack | tools/validate_phase0_fixtures.py:76-109 | rendering the records of an accepted text gives the text byte for byte, and the records are valid |
| FixtureSse.RenderedIsAccepted | tools/validate_phase0_fixtures.py:76-109 | the rendering of any non-empty list of valid records is accepted with exactly these records |
| FixtureSse.BrowserDispatchesRecords | tools/validate_phase0_fixtures.py:76-109 | the line state machine of section 9.2.6 of the WHATWG HTML standard dispatches exactly one event per record, with its type and data |
| StrictJson.Decoder.Next | internal/config/secret.go:303-306 | the next token is taken from the input, or nothing is |
| StrictJson.Decoder.Scan | internal/config/secret.go:302-361 | the recursive loop over the decoder leaves exactly what the specification of the scan leaves |
| StrictJson.Decoder.ScanFields | internal/config/secret.go:317-342 | the member loop with its seen map |
| StrictJson.Decoder.ScanItems | internal/config/secret.go:348-356 | the element loop |
| StrictJson.ScanDecides | internal/config/secret.go:302-361 | on a document the scan succeeds exactly when every object and array sits where the schema has one, with distinct schema names, and then it consumes exactly the document |
| StrictJson.ScanReadsDocument | internal/config/secret.go:302-361 | on any token stream a successful scan has read one conforming document |
| StrictJson.DocumentIsConforming | internal/config/secret.go:283-290 | the tokens of a document are nobody else's: the check of v accepts v only |
| StrictJson.CheckDocument | internal/config/secret.go:284-290 | the first pass accepts exactly the token streams of conforming documents |
| StrictJson.NestingBounded | internal/config/secret.go:302-361 | a conforming document nests no deeper than its schema |
| StrictJson.DecoderIsExact | internal/config/secret.go:291-299 | on a conforming document the case-folding, last-wins decoder agrees with exact-name lookup, however it folds |
| StrictJson.ExactlyDetermines | internal/config/secret.go:291-299 | exact lookup determines the destination |
| StrictJson.EachFieldSetOnce | internal/config/secret.go:317-334 | a conforming object sets as many fields as it has members: none twice |
| Base64.DecodeEncode | internal/config/secret.go:98-99 | strict decoding undoes encoding |
| Base64.EncodeDecode | internal/config/secret.go:98-99 | encoding undoes strict decoding of text without line breaks |
| Base64.StrictDecodeExact | internal/config/secret.go:98 | the strict decoder accepts exactly encodings with CR and LF anywhere in them |
| Base64.EncodeInjective | internal/config/secret.go:98-99 | different bytes have different encodings |
| Base64.KeyCheckExact | internal/config/secret.go:93-103 | decode, length and re-encode accept exactly the padded encodings of 32-byte arrays, each of one array only (sections 3.5 and 4 of RFC 4648) |
| Base64.ReencodingRejectsLineBreaks | internal/config/secret.go:99 | re-encoding rejects exactly the line breaks the decoder skips |
| Base64.EncodeUrlShape | internal/config/devsecrets.go:325-331 | generated passwords use the URL-safe alphabet only; 32 bytes give 43 characters |
| Base64.EncodeUrlInjective | internal/config/devsecrets.go:325-331 | different random bytes give different passwords |
| KeyRings.ReadKey | internal/config/secret.go:192-197 | returns the key exactly when the text is its canonical encoding |
| KeyRings.CollectKeys | internal/config/secret.go:184-199 | the entry loop succeeds exactly on valid, pairwise distinct entries, and then holds exactly their map |
| KeyRings.ValidateRing | internal/config/secret.go:171-204 | returns exactly the entry map with the active id in it, and rejects everything else |
| KeyRings.HoldsDetermines | internal/config/secret.go:184-199 | the map is determined by the entries |
| KeyRings.ReadsAsSpelled | internal/config/secret.go:105-152 | whatever the decoder folds, a conforming document reads as what its members spell by exact name, absent or null ones as zero values |
| KeyRings.ReadRing | internal/config/secret.go:105-152 | accepts exactly the conforming documents whose members spell, by exact name, a valid ring (with a positive epoch for the provider's), and returns exactly the keys they spell |
| KeyRings.RingDocumentReads | internal/config/devsecrets.go:129-152 | the ring document the generator writes spells its wire values |
| KeyRings.ProviderDocumentReads | internal/config/devsecrets.go:105-127 | the same for the provider ring with its epoch |
| KeyRings.GeneratedIsRing | internal/config/devsecrets.go:105-152 | every document the generator writes is a ring |
| KeyRings.RereadGenerated | internal/config/devsecrets.go:105-152 | every generated ring reads back to the one key it was generated from |
| EnvFile.ParseEnvironmentFile | internal/config/envfile.go:36-83 | the scanner loop, against the specification of the parse |
| EnvFile.ParserExact | internal/config/envfile.go:36-83 | accepts exactly the texts of valid files with exactly their settings: known, pairwise distinct names, control-free values, blank and comment lines anywhere, up to two carriage returns before each line feed |
| EnvFile.FileParses | internal/config/envfile.go:36-83 | the text of any valid file parses to its settings |
| EnvFile.PrintedMapParses | internal/config/envfile.go:36-83 | printing any map of known names to control-free values, in any order, with LF, CRLF or CRCRLF and with blank and comment lines anywhere, parses back to the map |
| EnvFile.AcceptedNamesKnown | internal/config/envfile.go:60-78 | acceptance of a text implies known, well-formed, pairwise distinct names with control-free values, and its setting lines are exactly the values |
| Passwords.ReadSimpleSecret | internal/config/secret.go:61-72 | the control-character loop over the decoded characters of the trimmed file |
| Passwords.PasswordLanguage | internal/config/config.go:571 | the anchored regular expression, the trimming check and the shell pattern decide one language |
| Passwords.TrimKeeps | internal/config/secret.go:273-275 | trimming leaves a text unchanged exactly when neither end is cut |
| Passwords.ScanPassword | deploy/redis/entrypoint.sh:19-34 | the byte scan of the Redis entrypoint |
| Passwords.ValidatePasswordFile | deploy/migrate/entrypoint.sh:101-117 | the byte scan of the migration entrypoint |
| Passwords.TrimmedToValidatedBytes | atlas.hcl:2-5 | every file the migration entrypoint accepts is trimmed to exactly the bytes it validated, 1 to 4096 of them without ASCII space at the ends |
| Passwords.ReaderImpliesMigration | internal/config/secret.go:243-277 | every file the Go reader accepts, the migration entrypoint accepts with the same bytes |
| Passwords.ReaderImpliesRedis | deploy/redis/entrypoint.sh:19-46 | every file the Go reader accepts, the Redis entrypoint accepts with the same bytes |
| Passwords.RedisReadersAgree | deploy/redis/entrypoint.sh:19-46 | of the files the Redis entrypoint accepts, the Go reader accepts exactly those within 4096 bytes without NUL |
| Passwords.LongFileSplitsReaders | deploy/redis/entrypoint.sh:24-30 | any 4096 class bytes and a line feed are accepted by the entrypoint only |
| Passwords.NulFileSplitsReaders | deploy/redis/entrypoint.sh:19-38 | any 32 to 4095 class bytes after a NUL byte are accepted by the entrypoint only |
| Passwords.SplitReadersExist | deploy/redis/entrypoint.sh:19-46 | a file of each kind |
| Passwords.GeneratedPasswordAccepted | internal/config/devsecrets.go:325-331 | every generated password is read back unchanged by both |
| ProcessViews.ReadsWhatItConsumes | internal/config/config.go:39-56 | the parser of a process may look up a setting exactly when the inventory lists the process as its consumer |
| ProcessViews.ValuesForProcess | internal/config/envfile.go:85-100 | the filter loop yields the view, whatever order the map is walked in |
| ProcessViews.CheckNames | internal/config/config.go:591-613 | the name checks, whatever order the map is walked in |
| ProcessViews.ViewPasses | internal/config/config.go:591-613 | a view always passes the name checks of its process |
| ProcessViews.OthersDoNotMatter | internal/config/config.go:322-564 | maps that agree on what a process consumes give its parser the same outcome |
| ProcessViews.ViewsDoNotInterfere | internal/config/envfile.go:85-100 | parsing the full map, once it passes the name checks, and parsing the view accept alike with the same settings |
| ProcessViews.ParseReadiness | internal/config/config.go:438-466 | the five lookups in order and the two comparisons are a parser in the sense of the views, and what it accepts passes the supervisor's own check |
| ProcessViews.ReadinessReadsExactly | internal/config/config.go:438-466 | that code looks up exactly the settings its table lists |
| ProcessViews.ReadinessOnView | internal/config/envfile.go:85-100 | so the three services make the same readiness policy of the full map and of their views |
| ProcessViews.ValidateComplete | internal/config/envfile.go:102-116 | accepts exactly when all four parsers would accept the full map |
| ServiceSecrets.SettingsAndFiles | internal/config/devsecrets.go:32-44 | each inventory file stands behind exactly one setting |
| ServiceSecrets.VolumesMatchConsumers | deploy/secrets/publish.sh:74-76 | a service volume's allowlist names a secret exactly when the inventory lists the service as a consumer of its setting |
| ServiceSecrets.PublishedVolumeIsLeast | deploy/secrets/publish.sh:81-83 | a published service volume holds exactly the secrets its service consumes, and no other file |
| Publisher.PreflightExact | deploy/secrets/publish.sh:38-56 | preflight passes exactly an empty volume and one that holds exactly the allowlist with source bytes, mode and owner |
| Publisher.ServiceTargetsValid | deploy/secrets/publish.sh:71-83 | the six fixed targets are proper: no root owner, at least one file, none twice |
| Publisher.FilePublished | deploy/secrets/publish.sh:64-68 | copy, chmod and chown leave exactly the published file |
| Publisher.FileCut | deploy/secrets/publish.sh:64-68 | a file cut short anywhere is left with the wrong mode or a root owner |
| Publisher.CutVolumeRejected | deploy/secrets/publish.sh:38-69 | a volume cut short anywhere passes no preflight, whatever the source is by then |
| Publisher.RunIsSafe | deploy/secrets/publish.sh:38-83 | a run alters no volume that holds anything, writes nothing if it fails, and leaves every volume exactly published if it completes |
| Publisher.AfterKill | deploy/secrets/publish.sh:38-83 | after a kill between targets a rerun passes preflight and, given enough steps, completes every volume; after a kill inside one every later run fails before its first write |
| Publisher.RunsNeverAlter | deploy/secrets/publish.sh:38-83 | over any number of runs with any sources and kills, what a volume first holds stays as it is |
| Publisher.UncleanKillWedges | deploy/secrets/publish.sh:38-83 | a kill inside a target leaves the volumes as they are for good |
| Publisher.OneStepWedges | deploy/secrets/publish.sh:58-83 | such a kill is possible after a single step |
| Publisher.Script.Copy | deploy/secrets/publish.sh:65 | the copy creates the file and then adds its bytes, as far as the budget goes |
| Publisher.Script.PublishFile | deploy/secrets/publish.sh:64-68 | the loop body is the file's list of actions, as far as the budget goes |
| Publisher.Script.PublishTarget | deploy/secrets/publish.sh:58-69 | a non-empty target is skipped, an empty one gets its list of actions |
| Publisher.Script.PreflightTarget | deploy/secrets/publish.sh:38-56 | the entry loop decides the preflight of one target |
| Publisher.Script.Publication | deploy/secrets/publish.sh:20-83 | the whole script equals the specified run at every budget: new volumes and exit |
| SharedConfig.StagingCut | deploy/compose.yaml:351-357 | a kill while staging leaves at most a hidden entry |
| SharedConfig.StagingDone | deploy/compose.yaml:351-357 | staging makes the candidate with both read-only files and nothing else |
| SharedConfig.EveryCutKept | deploy/compose.yaml:341-376 | at every moment of a run nothing published has changed but the one release that ln enters through a leftover link, which has gained exactly that link, and at most one sealed release is new |
| SharedConfig.CompletedRun | deploy/compose.yaml:341-376 | a completed run points to its release, with the staged bytes, or to the release behind a leftover link, and leaves neither link nor candidate |
| SharedConfig.CompleteIffHashed | deploy/compose.yaml:355-356 | the release a completed run points to is complete exactly when it is the run's own and the checksum was computed |
| SharedConfig.UnhashedRunCompletes | deploy/compose.yaml:355-356 | a run that completes without a checksum and leaves the pointer at an incomplete release |
| SharedConfig.PointerSoundAfterRun | deploy/compose.yaml:374-376 | one run, killed or not: the pointer goes on resolving, and is sound exactly when it was, has not moved and its release was not entered, or has moved to the run's own release with the checksum computed |
| SharedConfig.PointerSoundIff | deploy/compose.yaml:341-376 | over any number of runs and kills the pointer never dangles, and is absent or resolves to a complete two-file release exactly when the last run that moved it had computed its checksum and entered no release, and no run has entered that release since |
| SharedConfig.PointerAlwaysSound | deploy/compose.yaml:341-376 | without writable releases, and as long as every checksum is computed, the pointer is sound after any number of runs and kills |
| SharedConfig.ReleasesChangeIffEntered | deploy/compose.yaml:358-376 | over any number of runs a release once in place is never removed, and it stays what it is exactly when none of them made its link inside it |
| SharedConfig.ReleasesNeverChange | deploy/compose.yaml:358-376 | so without writable releases no release is ever changed or removed |
| SharedConfig.TidyAlways | deploy/compose.yaml:370-376 | and a volume without writable releases stays one, whatever is run and killed |
| SharedConfig.WritableReleaseSpoiled | deploy/compose.yaml:374-376 | over any writable existing release with the same files: a kill at the link, then a completed run with the same process id, and that revision is blocked |
| SharedConfig.SpoilingKillExists | deploy/compose.yaml:374-376 | such a volume and two such runs |
| SharedConfig.SpoiledForGood | deploy/compose.yaml:359-369 | a release with a third entry keeps it over any further runs, so its revision is blocked for good |
| SharedConfig.RunLeaves | deploy/compose.yaml:374-376 | what every run does to links and pointer: it leaves a new link exactly when killed between making and renaming it, and moves the pointer, to its own release or to the one behind a leftover link, exactly when it lives past the rename |
| SharedConfig.LinkLeftExactly | deploy/compose.yaml:374-376 | a run that nothing blocks and that found no link leaves its own at exactly one budget, and is killed there; one that found a link keeps it exactly up to the rename |
| SharedConfig.LinkCanBeLeft | deploy/compose.yaml:374-376 | so every run that would complete can be killed with its link left behind |
| SharedConfig.RecoversIff | deploy/compose.yaml:341-376 | after any kill the release can be published again, by any process and under any free candidate name, exactly when it was not entered and that process finds no link, or one it can enter, and then every sufficient budget completes it |
| SharedConfig.RecoversIffNoLink | deploy/compose.yaml:341-376 | without writable releases: exactly when no link of that process was left |
| SharedConfig.LeftoverIffLost | deploy/compose.yaml:374-376 | over any number of runs a process finds a link of its own exactly when the last of its runs to make or rename one was killed in between, or none did and there was one at first |
| SharedConfig.LeftoverLinkWedges | deploy/compose.yaml:374-376 | without writable releases a leftover link stays after any further runs, runs with its process id never complete, and they never move the pointer |
| SharedConfig.Initializer.WriteFile | deploy/compose.yaml:353-357 | a written file is its list of actions, as far as the budget goes |
| SharedConfig.Initializer.Initialize | deploy/compose.yaml:341-376 | the whole script equals the specified run at every budget: new volume and exit |
| DevSecrets.CheckPasswords | internal/config/devsecrets.go:211-227 | the duplicate loop accepts exactly readable, pairwise distinct passwords |
| DevSecrets.OrderIsIrrelevant | internal/config/devsecrets.go:212-227 | the verdict does not depend on the iteration order of the settings |
| DevSecrets.ValidateDevSecrets | internal/config/devsecrets.go:179-253 | accepts exactly the protected, complete inventories with readable, pairwise distinct passwords, a Redis URL that is read as a secret and names that password, host and path, valid rings by exact name and a canonical session key |
| DevSecrets.IncompleteRejected | internal/config/devsecrets.go:191-199 | a destination with fewer renames than files is rejected, whatever the readers |
| DevSecrets.CrashPoints | internal/config/devsecrets.go:50-177 | at every crash point the destination is absent, rejected, or complete with the bytes validated before |
| DevSecrets.NeverOverwritten | internal/config/devsecrets.go:54-60 | over any number of runs, each within the generator's contract, an existing destination is never modified |
| DevSecrets.ReadyOnlyIfValid | internal/config/devsecrets.go:54-60 | and no later run succeeds unless what was there is valid |
| DevSecrets.AfterKill | internal/config/devsecrets.go:164-172 | recovery: a run killed before its mkdir leaves nothing; from then on no later run changes what it left, which until the last rename is rejected for good and after it is the validated inventory |
| DevSecrets.GeneratedPasswordsPass | internal/config/devsecrets.go:79-98 | passwords from distinct random bytes pass the validation of the temporary directory |
| DevSecrets.UrlIsSecret | internal/config/devsecrets.go:100-101 | the printed Redis URL of a class password is read back as it is: short enough, without control characters and blanks |
| DevSecrets.GeneratedIsValid | internal/config/devsecrets.go:79-160 | whatever was drawn, passwords, Redis URL, rings and session key included, the generated inventory is valid |
| DevSecrets.Generator.WriteNewSecret | internal/config/devsecrets.go:349-363 | a new file with the given bytes when it works; otherwise nothing new, or that one file with a prefix of the bytes |
| DevSecrets.Generator.MoveAll | internal/config/devsecrets.go:168-172 | the rename loop leaves a prefix of the inventory in the destination, all of it when it works |
| DevSecrets.Generator.Generate | internal/config/devsecrets.go:50-177 | an existing destination is unchanged and validated; a new one holds a prefix of the validated inventory, all of it on success; when no call fails, the exact destination and exit for every number of calls before a kill |
| DevSecrets.GenerateDevSecrets | internal/config/devsecrets.go:50-177 | the same for contents drawn at random: when no call fails, a run without a destination that is not killed ends ready with the complete, valid inventory |

## Left out

- Goroutines as objects: the lifecycle modules are step functions over values, because the code's own claim is about interleavings; update in place and aliasing of Go variables are not captured there.
- Time: the clock only moves forward, a steady tick is always possible, and contexts, timers, `Ping`, `serve` and `http.Server` are abstract moves; panics are not part of the model.
- Supervisor.ReadyUnlessVerdictPending: says when readiness agrees with the last completed round, not that it always does, because it does not.
- `RunWithoutReadiness` and the open clients of PostgreSQL, Redis, Prometheus and OpenTelemetry: not modelled.
- StrictJson.ScanDecides: works on JSON tokens; the lexer of `encoding/json` and the syntax errors it finds are inputs (a stream that ends early or breaks off), as is its case folding.
- DevSecrets.ValidateDevSecrets: splitting a URL into its parts and the JSON lexer are given functions; opening files is not modelled.
- DevSecrets.NeverOverwritten: iterates the per-run contract of `Generate`, where the content is.
- DevSecrets.ReadyOnlyIfValid: likewise.
- KeyRings.ReadRing: starts from the document that the file holds; typing of JSON numbers beyond integers is not modelled.
- FixtureSse.ParseSse: `json.loads` and `json.dumps` are given functions, UTF-8 decoding is not modelled, and an event name beside a JSON value that is no object is a rejection although the program stops with an attribute error there.
- EnvFile.ParserExact: text is decoded characters with their UTF-8 sizes; invalid UTF-8 is rejected by the code before anything else.
- Passwords.TrimmedToValidatedBytes: works on bytes; the Unicode normalisation of configuration-language strings is not modelled.
- Passwords.RedisReadersAgree: opening the file, its mode and its link checks are not modelled, nor is the Redis URL.
- ProcessViews.OthersDoNotMatter: like the next line, about every parser that stays within the lookups of its process.
- ProcessViews.ValidateComplete: the four parsers are any parsers within the lookups of their processes.
- ProcessViews.ViewsDoNotInterfere: a parser is a list of lookups and any function of the answers; only the dependency section is modelled as code (`ParseReadiness`), the range and format checks of the other sections are not modelled one by one, and unknown names are kept as text.
- ProcessViews.ParseReadiness: `time.ParseDuration` is a given function that reads back the printed fallbacks.
- Publisher.RunIsSafe: file names without line feeds; the network check, the checks on directories and on the source root, links, and failing system calls other than a kill are not modelled.
- SharedConfig.PointerAlwaysSound: speaks of volumes without writable releases and of runs that all computed their checksum; SharedConfig.PointerSoundIff has the exact condition for any volume and any runs.
- SharedConfig.EveryCutKept: system calls fail only where the state forbids them, plus the unnoticed checksum; everything on the volume belongs to root, whose rights without capabilities are those of the owner; a release that is itself a link is not followed; the current pointer is absent or a link; the lock makes runs serial; the removal by the exit trap is one step.
- DevSecrets.GenerateDevSecrets: one generator at a time; Go's JSON printer, its JSON lexer and its URL parser are given functions assumed to read back what is printed for 32-byte keys and passwords; validation is one system call that fails or not, with the verdict on what it reads; temporary directories left by a kill are not tracked, and file identity is not modelled.
- `ResolveDeploymentSecretRoot`, `ResolveCloudflareSecretRoot`, the Cloudflare credentials, the service-side `REDIS_URL_FILE` and the origin and CIDR lists: would only add easy members or need Go's URL parser.
- The limiter, ledger, deny-marker and outbox machines of the design documents have no code here; the web interface, proxies, templates, backup scripts and generated stubs are not modelled.
