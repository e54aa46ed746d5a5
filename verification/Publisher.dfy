/** Publication of the secret inventory into the service volumes: a preflight over every
    target, then copies that a kill can interrupt between any two file-system steps. */
module Publisher {
  import opened Wrappers
  import opened Base64
  import opened Replay
  import opened SecretFiles

  /** A service volume: the owner and the allowlist of its files. */
  datatype Target = Target(uid: nat, gid: nat, files: seq<Name>)

  const POSTGRES := Target(999, 999, DATABASE_PASSWORDS)

  const MIGRATE := Target(65532, 65532, [PostgresMigrationPassword])

  const REDIS := Target(999, 999, [RedisPassword])

  const GATEWAY := Target(65532, 65532, [PostgresGatewayPassword, RedisUrl, ProviderMasterKeyring, ApiKeyPepperRing])

  const CONTROL_PLANE := Target(65532, 65532, [
    PostgresControlPlanePassword, RedisUrl, ProviderMasterKeyring, ApiKeyPepperRing, SessionSecret, CsrfSecretRing
  ])

  const WORKER := Target(65532, 65532, [PostgresWorkerPassword, RedisUrl, ProviderMasterKeyring])

  const SERVICE_TARGETS: seq<Target> := [POSTGRES, MIGRATE, REDIS, GATEWAY, CONTROL_PLANE, WORKER]

  predicate TargetValid(t: Target) {
    t.uid != 0 && t.files != [] && Distinct(t.files)
  }

  predicate TargetsValid(ts: seq<Target>) {
    forall i :: 0 <= i < |ts| ==> TargetValid(ts[i])
  }

  lemma ServiceTargetsValid()
    ensures TargetsValid(SERVICE_TARGETS)
  {
    forall i | 0 <= i < 6 ensures TargetValid(SERVICE_TARGETS[i]) {
    }
  }

  /** The source holds exactly the inventory, as regular files of mode 0600. */
  predicate SourceValid(source: Volume) {
    && source.Keys == Names(INVENTORY)
    && forall name :: name in source ==> source[name].File? && source[name].mode == MODE_0600
  }

  // ---- what preflight checks ---------------------------------------------------------

  predicate EntryPasses(t: Target, volume: Volume, source: Volume, name: Name) {
    name in volume && volume[name] == File(Contents(source, name), MODE_0400, t.uid, t.gid)
  }

  predicate Preflight(t: Target, volume: Volume, source: Volume) {
    || volume == map[]
    || (volume.Keys == Names(t.files) && forall name :: name in t.files ==> EntryPasses(t, volume, source, name))
  }

  /** A target as publication leaves it. */
  function Complete(t: Target, source: Volume): Volume {
    map name | name in t.files :: File(Contents(source, name), MODE_0400, t.uid, t.gid)
  }

  /** Preflight passes exactly an empty volume and one that holds exactly the published
      files with their bytes, modes and owners. */
  lemma PreflightExact(t: Target, volume: Volume, source: Volume)
    ensures Preflight(t, volume, source) <==> volume == map[] || volume == Complete(t, source)
  {
    if Preflight(t, volume, source) && volume != map[] {
      forall name | name in volume ensures volume[name] == Complete(t, source)[name] {
        assert EntryPasses(t, volume, source, name);
      }
      assert volume == Complete(t, source);
    }
  }

  predicate AllPass(ts: seq<Target>, volumes: seq<Volume>, source: Volume)
    requires |ts| == |volumes|
  {
    ts == [] || (Preflight(ts[0], volumes[0], source) && AllPass(ts[1..], volumes[1..], source))
  }

  // ---- file-system steps -----------------------------------------------------------------

  datatype Action =
    | Create(name: Name)
    | Append(name: Name, byte: Byte)
    | ChangeMode(name: Name, mode: nat)
    | ChangeOwner(name: Name, uid: nat, gid: nat)

  /** One step inside a volume, by root under umask 077. */
  function Perform(volume: Volume, a: Action): Volume {
    if a.Create? then volume[a.name := File([], MODE_0600, 0, 0)]
    else if a.name !in volume || volume[a.name].Irregular? then volume
    else
      var e := volume[a.name];
      match a
      case Append(name, byte) => volume[name := e.(bytes := e.bytes + [byte])]
      case ChangeMode(name, mode) => volume[name := e.(mode := mode)]
      case ChangeOwner(name, uid, gid) => volume[name := e.(uid := uid, gid := gid)]
  }

  /** A copy: the file is created, then its bytes arrive. */
  function CopyActions(name: Name, bytes: seq<Byte>): seq<Action> {
    [Create(name)] + seq(|bytes|, i requires 0 <= i < |bytes| => Append(name, bytes[i]))
  }

  function FileActions(t: Target, source: Volume, name: Name): seq<Action> {
    CopyActions(name, Contents(source, name)) + [ChangeMode(name, MODE_0400), ChangeOwner(name, t.uid, t.gid)]
  }

  /** The steps for the first files of a target. */
  function TargetActions(t: Target, source: Volume, n: nat): seq<Action>
    requires n <= |t.files|
  {
    if n == 0 then [] else TargetActions(t, source, n - 1) + FileActions(t, source, t.files[n - 1])
  }

  /** The steps publication takes in a volume: none unless it is empty. */
  function Steps(t: Target, volume: Volume, source: Volume): seq<Action> {
    if volume == map[] then TargetActions(t, source, |t.files|) else []
  }

  /** The volumes after so many steps. */
  function Publish(ts: seq<Target>, volumes: seq<Volume>, source: Volume, budget: nat): (after: seq<Volume>)
    requires |ts| == |volumes|
    ensures |after| == |volumes|
  {
    if ts == [] then []
    else
      var steps := Steps(ts[0], volumes[0], source);
      if budget < |steps| then [PerformAll(Perform, volumes[0], steps[..budget])] + volumes[1..]
      else [PerformAll(Perform, volumes[0], steps)] + Publish(ts[1..], volumes[1..], source, budget - |steps|)
  }

  function Cost(ts: seq<Target>, volumes: seq<Volume>, source: Volume): nat
    requires |ts| == |volumes|
  {
    if ts == [] then 0
    else |Steps(ts[0], volumes[0], source)| + Cost(ts[1..], volumes[1..], source)
  }

  datatype Exit = Completed | Failed | Killed

  /** A run that is killed after the given number of steps, unless it ends before. */
  function Run(ts: seq<Target>, volumes: seq<Volume>, source: Volume, budget: nat): (r: (seq<Volume>, Exit))
    requires |ts| == |volumes|
    ensures |r.0| == |volumes|
  {
    if !SourceValid(source) || !AllPass(ts, volumes, source) then (volumes, Failed)
    else (Publish(ts, volumes, source, budget), if budget < Cost(ts, volumes, source) then Killed else Completed)
  }

  // ---- one volume ----------------------------------------------------------------------------

  lemma {:induction false} Copied(volume: Volume, name: Name, bytes: seq<Byte>, k: nat)
    requires k <= |bytes|
    ensures PerformAll(Perform, volume, CopyActions(name, bytes)[..k + 1])
           == volume[name := File(bytes[..k], MODE_0600, 0, 0)]
  {
    var actions := CopyActions(name, bytes);
    if k == 0 {
      assert actions[..1] == [Create(name)];
      assert PerformAll(Perform, volume, [Create(name)][..0]) == volume;
    } else {
      Copied(volume, name, bytes, k - 1);
      assert actions[..k + 1][..k] == actions[..k] && actions[k] == Append(name, bytes[k - 1]);
      assert bytes[..k] == bytes[..k - 1] + [bytes[k - 1]];
    }
  }

  /** An entry that no publication would have left in place. */
  predicate Unfinished(e: Entry) {
    e.Irregular? || e.mode != MODE_0400 || e.uid == 0
  }

  /** chmod and chown of a copied file. */
  lemma Closed(t: Target, volume: Volume, name: Name, bytes: seq<Byte>)
    ensures PerformAll(Perform, volume[name := File(bytes, MODE_0600, 0, 0)],
                       [ChangeMode(name, MODE_0400), ChangeOwner(name, t.uid, t.gid)])
         == volume[name := File(bytes, MODE_0400, t.uid, t.gid)]
  {
    var copied := volume[name := File(bytes, MODE_0600, 0, 0)];
    var closed := volume[name := File(bytes, MODE_0400, 0, 0)];
    var mode, owner := ChangeMode(name, MODE_0400), ChangeOwner(name, t.uid, t.gid);
    PerformOne(Perform, copied, mode);
    PerformOne(Perform, closed, owner);
    assert Perform(copied, mode) == closed;
    PerformOn(Perform, copied, [mode], closed, [owner], Perform(closed, owner));
    assert [mode] + [owner] == [mode, owner];
  }

  lemma FilePublished(t: Target, source: Volume, volume: Volume, name: Name)
    ensures PerformAll(Perform, volume, FileActions(t, source, name))
         == volume[name := File(Contents(source, name), MODE_0400, t.uid, t.gid)]
  {
    var bytes := Contents(source, name);
    var copy := CopyActions(name, bytes);
    Copied(volume, name, bytes, |bytes|);
    assert copy[..|bytes| + 1] == copy && bytes[..|bytes|] == bytes;
    Closed(t, volume, name, bytes);
    PerformConcat(Perform, volume, copy, [ChangeMode(name, MODE_0400), ChangeOwner(name, t.uid, t.gid)]);
  }

  /** A file cut short is left unfinished. */
  lemma FileCut(t: Target, source: Volume, volume: Volume, name: Name, k: nat) returns (e: Entry)
    requires 0 < k < |FileActions(t, source, name)|
    ensures PerformAll(Perform, volume, FileActions(t, source, name)[..k]) == volume[name := e] && Unfinished(e)
  {
    var bytes := Contents(source, name);
    var copy := CopyActions(name, bytes);
    var actions := FileActions(t, source, name);
    if k <= |copy| {
      Copied(volume, name, bytes, k - 1);
      assert actions[..k] == copy[..k];
      e := File(bytes[..k - 1], MODE_0600, 0, 0);
    } else {
      var copied := volume[name := File(bytes, MODE_0600, 0, 0)];
      Copied(volume, name, bytes, |bytes|);
      assert copy[..|bytes| + 1] == copy && bytes[..|bytes|] == bytes;
      e := File(bytes, MODE_0400, 0, 0);
      assert copied[name := e] == volume[name := e];
      PerformOne(Perform, copied, ChangeMode(name, MODE_0400));
      PerformOn(Perform, volume, copy, copied, [ChangeMode(name, MODE_0400)], volume[name := e]);
      assert actions[..k] == copy + [ChangeMode(name, MODE_0400)];
    }
  }

  /** The first files of a target, published one after the other. */
  function Published(t: Target, source: Volume, n: nat): Volume
    requires n <= |t.files|
  {
    if n == 0 then map[]
    else Published(t, source, n - 1)[t.files[n - 1] := File(Contents(source, t.files[n - 1]), MODE_0400, t.uid, t.gid)]
  }

  lemma {:induction false} PublishedNames(t: Target, source: Volume, n: nat, name: Name)
    requires n <= |t.files|
    ensures name in Published(t, source, n) <==> name in t.files[..n]
    ensures name in t.files[..n] ==>
              Published(t, source, n)[name] == File(Contents(source, name), MODE_0400, t.uid, t.gid)
  {
    if n > 0 {
      PublishedNames(t, source, n - 1, name);
      assert t.files[..n] == t.files[..n - 1] + [t.files[n - 1]];
    }
  }

  lemma PublishedAll(t: Target, source: Volume)
    ensures Published(t, source, |t.files|) == Complete(t, source)
  {
    assert t.files[..|t.files|] == t.files;
    forall name: Name ensures name in Published(t, source, |t.files|) <==> name in t.files {
      PublishedNames(t, source, |t.files|, name);
    }
    forall name | name in t.files ensures Published(t, source, |t.files|)[name] == Complete(t, source)[name] {
      PublishedNames(t, source, |t.files|, name);
    }
  }

  lemma {:induction false} FilesPublished(t: Target, source: Volume, n: nat)
    requires n <= |t.files|
    ensures PerformAll(Perform, map[], TargetActions(t, source, n)) == Published(t, source, n)
  {
    if n > 0 {
      var name := t.files[n - 1];
      FilesPublished(t, source, n - 1);
      FilePublished(t, source, Published(t, source, n - 1), name);
      PerformOn(Perform, map[], TargetActions(t, source, n - 1), Published(t, source, n - 1),
                FileActions(t, source, name), Published(t, source, n));
    }
  }

  /** Where a cut falls: after some complete files, inside the next one. */
  lemma {:induction false} CutPosition(t: Target, source: Volume, n: nat, k: nat) returns (m: nat, j: nat)
    requires n <= |t.files| && k < |TargetActions(t, source, n)|
    ensures m < n && k == |TargetActions(t, source, m)| + j && j < |FileActions(t, source, t.files[m])|
    ensures TargetActions(t, source, n)[..k] == TargetActions(t, source, m) + FileActions(t, source, t.files[m])[..j]
  {
    var before := TargetActions(t, source, n - 1);
    if k < |before| {
      m, j := CutPosition(t, source, n - 1, k);
      assert TargetActions(t, source, n)[..k] == before[..k];
    } else {
      m, j := n - 1, k - |before|;
    }
  }

  /** A volume cut short passes no preflight, whatever the source is by then. */
  lemma CutVolumeRejected(t: Target, source: Volume, k: nat, later: Volume)
    requires TargetValid(t) && 0 < k < |TargetActions(t, source, |t.files|)|
    ensures !Preflight(t, PerformAll(Perform, map[], TargetActions(t, source, |t.files|)[..k]), later)
  {
    var n := |t.files|;
    var m, j := CutPosition(t, source, n, k);
    var name := t.files[m];
    var cut := PerformAll(Perform, map[], TargetActions(t, source, n)[..k]);
    FilesPublished(t, source, m);
    PerformConcat(Perform, map[], TargetActions(t, source, m), FileActions(t, source, name)[..j]);
    PreflightExact(t, cut, later);
    if j == 0 {
      PublishedNames(t, source, m, name);
      PublishedNames(t, source, m, t.files[0]);
      assert m > 0 && t.files[0] == t.files[..m][0];
      assert name !in cut && name in t.files;
    } else {
      var e := FileCut(t, source, Published(t, source, m), name, j);
      assert cut[name] == e;
    }
  }

  lemma Finished(t: Target, volume: Volume, source: Volume)
    requires Preflight(t, volume, source)
    ensures PerformAll(Perform, volume, Steps(t, volume, source)) == Complete(t, source)
  {
    PreflightExact(t, volume, source);
    FilesPublished(t, source, |t.files|);
    PublishedAll(t, source);
  }

  // ---- runs --------------------------------------------------------------------------------------

  /** A run alters no volume that holds anything. */
  lemma {:induction false} PublishKeeps(ts: seq<Target>, volumes: seq<Volume>, source: Volume, budget: nat, i: nat)
    requires |ts| == |volumes| && i < |ts| && volumes[i] != map[]
    ensures Publish(ts, volumes, source, budget)[i] == volumes[i]
  {
    var steps := Steps(ts[0], volumes[0], source);
    if i > 0 && budget >= |steps| {
      PublishKeeps(ts[1..], volumes[1..], source, budget - |steps|, i - 1);
    }
  }

  /** A volume that passes is completed before publication moves on. */
  lemma FirstCompletes(ts: seq<Target>, volumes: seq<Volume>, source: Volume, budget: nat)
    requires |ts| == |volumes| && ts != [] && Preflight(ts[0], volumes[0], source)
    requires budget >= |Steps(ts[0], volumes[0], source)|
    ensures Publish(ts, volumes, source, budget)
         == [Complete(ts[0], source)]
            + Publish(ts[1..], volumes[1..], source, budget - |Steps(ts[0], volumes[0], source)|)
  {
    Finished(ts[0], volumes[0], source);
  }

  lemma Later(first: Volume, rest: seq<Volume>, i: nat)
    requires 0 < i <= |rest|
    ensures ([first] + rest)[i] == rest[i - 1]
  {
  }

  lemma {:induction false} PublishCompletes(ts: seq<Target>, volumes: seq<Volume>, source: Volume, budget: nat, i: nat)
    requires |ts| == |volumes| && i < |ts| && AllPass(ts, volumes, source)
    requires budget >= Cost(ts, volumes, source)
    ensures Publish(ts, volumes, source, budget)[i] == Complete(ts[i], source)
  {
    var cost := |Steps(ts[0], volumes[0], source)|;
    FirstCompletes(ts, volumes, source, budget);
    if i > 0 {
      PublishCompletes(ts[1..], volumes[1..], source, budget - cost, i - 1);
      Later(Complete(ts[0], source), Publish(ts[1..], volumes[1..], source, budget - cost), i);
    }
  }

  /** The budget ends a run between two targets rather than inside one. */
  predicate Clean(ts: seq<Target>, volumes: seq<Volume>, source: Volume, budget: nat)
    requires |ts| == |volumes|
  {
    budget == 0 || ts == [] ||
    (var steps := Steps(ts[0], volumes[0], source);
     budget >= |steps| && Clean(ts[1..], volumes[1..], source, budget - |steps|))
  }

  lemma NoStepsNoChange(ts: seq<Target>, volumes: seq<Volume>, source: Volume)
    requires |ts| == |volumes|
    ensures Publish(ts, volumes, source, 0) == volumes
  {
    if ts != [] {
      NoStepsNoChange(ts[1..], volumes[1..], source);
      assert volumes == [volumes[0]] + volumes[1..];
    }
  }

  lemma CompletePasses(ts: seq<Target>, rest: seq<Volume>, source: Volume)
    requires |ts| == 1 + |rest| && AllPass(ts[1..], rest, source)
    ensures AllPass(ts, [Complete(ts[0], source)] + rest, source)
  {
    PreflightExact(ts[0], Complete(ts[0], source), source);
    assert ([Complete(ts[0], source)] + rest)[1..] == rest;
  }

  lemma {:induction false} CleanCutPasses(ts: seq<Target>, volumes: seq<Volume>, source: Volume, budget: nat)
    requires |ts| == |volumes| && AllPass(ts, volumes, source) && Clean(ts, volumes, source, budget)
    ensures AllPass(ts, Publish(ts, volumes, source, budget), source)
  {
    if budget == 0 {
      NoStepsNoChange(ts, volumes, source);
    } else if ts != [] {
      var rest := budget - |Steps(ts[0], volumes[0], source)|;
      FirstCompletes(ts, volumes, source, budget);
      CleanCutPasses(ts[1..], volumes[1..], source, rest);
      CompletePasses(ts, Publish(ts[1..], volumes[1..], source, rest), source);
    }
  }

  lemma CutFirst(ts: seq<Target>, volumes: seq<Volume>, source: Volume, budget: nat, later: Volume)
    requires |ts| == |volumes| && ts != [] && TargetValid(ts[0]) && 0 < budget < |Steps(ts[0], volumes[0], source)|
    ensures !AllPass(ts, Publish(ts, volumes, source, budget), later)
  {
    CutVolumeRejected(ts[0], source, budget, later);
  }

  lemma CutLater(ts: seq<Target>, volumes: seq<Volume>, source: Volume, budget: nat, rest: nat, later: Volume)
    requires |ts| == |volumes| && ts != [] && budget == |Steps(ts[0], volumes[0], source)| + rest
    requires !AllPass(ts[1..], Publish(ts[1..], volumes[1..], source, rest), later)
    ensures !AllPass(ts, Publish(ts, volumes, source, budget), later)
  {
    RestRejected(ts, PerformAll(Perform, volumes[0], Steps(ts[0], volumes[0], source)),
                 Publish(ts[1..], volumes[1..], source, rest), later);
  }

  lemma {:induction false} UncleanCutRejected(ts: seq<Target>, volumes: seq<Volume>, source: Volume, budget: nat,
                                              later: Volume)
    requires |ts| == |volumes| && TargetsValid(ts) && !Clean(ts, volumes, source, budget)
    ensures !AllPass(ts, Publish(ts, volumes, source, budget), later)
  {
    hide AllPass, Publish;
    var cost := |Steps(ts[0], volumes[0], source)|;
    if budget < cost {
      CutFirst(ts, volumes, source, budget, later);
    } else {
      UncleanCutRejected(ts[1..], volumes[1..], source, budget - cost, later);
      CutLater(ts, volumes, source, budget, budget - cost, later);
    }
  }

  lemma RestRejected(ts: seq<Target>, first: Volume, rest: seq<Volume>, later: Volume)
    requires |ts| == 1 + |rest| && !AllPass(ts[1..], rest, later)
    ensures !AllPass(ts, [first] + rest, later)
  {
    assert ([first] + rest)[1..] == rest;
  }

  /** No run alters a volume that holds anything, so no file present before it. A run that
      fails writes nothing. A run that completes leaves every volume exactly published. */
  lemma RunIsSafe(ts: seq<Target>, volumes: seq<Volume>, source: Volume, budget: nat)
    requires |ts| == |volumes|
    ensures var (after, exit) := Run(ts, volumes, source, budget);
            && (forall i :: 0 <= i < |ts| && volumes[i] != map[] ==> after[i] == volumes[i])
            && (exit == Failed ==> after == volumes)
            && (exit == Completed ==> forall i :: 0 <= i < |ts| ==> after[i] == Complete(ts[i], source))
  {
    var (after, exit) := Run(ts, volumes, source, budget);
    forall i | 0 <= i < |ts| && volumes[i] != map[] ensures after[i] == volumes[i] {
      if exit != Failed {
        PublishKeeps(ts, volumes, source, budget, i);
      }
    }
    if exit == Completed {
      forall i | 0 <= i < |ts| ensures after[i] == Complete(ts[i], source) {
        PublishCompletes(ts, volumes, source, budget, i);
      }
    }
  }

  /** After a killed run: if the kill fell between targets, a rerun with the same source
      passes preflight, and completes every volume if it is given enough steps; if it
      fell inside a target, every later run, with whatever source, fails before its
      first write. */
  lemma AfterKill(ts: seq<Target>, volumes: seq<Volume>, source: Volume, budget: nat, source': Volume, budget': nat)
    requires |ts| == |volumes| && TargetsValid(ts) && Run(ts, volumes, source, budget).1 == Killed
    ensures var left := Run(ts, volumes, source, budget).0;
            if Clean(ts, volumes, source, budget) then
              var (after, exit) := Run(ts, left, source, budget');
              && exit != Failed
              && (budget' >= Cost(ts, left, source) ==>
                    forall i :: 0 <= i < |ts| ==> after[i] == Complete(ts[i], source))
            else Run(ts, left, source', budget') == (left, Failed)
  {
    if Clean(ts, volumes, source, budget) {
      CleanCutPasses(ts, volumes, source, budget);
      RunIsSafe(ts, Run(ts, volumes, source, budget).0, source, budget');
    } else {
      UncleanCutRejected(ts, volumes, source, budget, source');
    }
  }

  datatype Attempt = Attempt(source: Volume, budget: nat)

  /** The volumes after any number of runs. */
  function Runs(ts: seq<Target>, volumes: seq<Volume>, attempts: seq<Attempt>): (after: seq<Volume>)
    requires |ts| == |volumes|
    ensures |after| == |volumes|
  {
    if attempts == [] then volumes
    else
      var n := |attempts| - 1;
      Run(ts, Runs(ts, volumes, attempts[..n]), attempts[n].source, attempts[n].budget).0
  }

  /** Over any number of runs with any sources and any kills, what a volume first holds,
      complete or not, stays as it is. */
  lemma {:induction false} RunsNeverAlter(ts: seq<Target>, volumes: seq<Volume>, attempts: seq<Attempt>, i: nat)
    requires |ts| == |volumes| && i < |ts| && volumes[i] != map[]
    ensures Runs(ts, volumes, attempts)[i] == volumes[i]
  {
    if attempts != [] {
      var n := |attempts| - 1;
      RunsNeverAlter(ts, volumes, attempts[..n], i);
      RunIsSafe(ts, Runs(ts, volumes, attempts[..n]), attempts[n].source, attempts[n].budget);
    }
  }

  /** A run killed inside a target wedges publication for good. */
  lemma {:induction false} UncleanKillWedges(ts: seq<Target>, volumes: seq<Volume>, source: Volume, budget: nat,
                                             attempts: seq<Attempt>)
    requires |ts| == |volumes| && TargetsValid(ts) && Run(ts, volumes, source, budget).1 == Killed
    requires !Clean(ts, volumes, source, budget)
    ensures Runs(ts, Run(ts, volumes, source, budget).0, attempts) == Run(ts, volumes, source, budget).0
  {
    if attempts != [] {
      var n := |attempts| - 1;
      UncleanKillWedges(ts, volumes, source, budget, attempts[..n]);
      AfterKill(ts, volumes, source, budget, attempts[n].source, attempts[n].budget);
    }
  }

  lemma {:induction false} StepsAtLeast(t: Target, source: Volume, n: nat)
    requires n <= |t.files|
    ensures |TargetActions(t, source, n)| >= 3 * n
  {
    if n > 0 {
      StepsAtLeast(t, source, n - 1);
    }
  }

  /** Such a wedge is reachable from any volumes whose first is empty: one step is enough. */
  lemma OneStepWedges(ts: seq<Target>, volumes: seq<Volume>, source: Volume)
    requires |ts| == |volumes| && ts != [] && TargetsValid(ts) && volumes[0] == map[]
    requires SourceValid(source) && AllPass(ts, volumes, source)
    ensures Run(ts, volumes, source, 1).1 == Killed && !Clean(ts, volumes, source, 1)
  {
    StepsAtLeast(ts[0], source, |ts[0].files|);
  }

  // ---- the script -----------------------------------------------------------------------------------

  /** What one target's publication adds to the whole. */
  lemma PublishAdvances(ts: seq<Target>, volumes: seq<Volume>, source: Volume, i: nat, after: Volume, budget: nat,
                        left: nat, alive: bool)
    requires |ts| == |volumes| && i < |ts|
    requires Ran(Perform, volumes[i], after, Steps(ts[i], volumes[i], source), budget, left, alive)
    ensures Publish(ts[i..], volumes[i..], source, budget)
         == [after] + if alive then Publish(ts[i + 1..], volumes[i + 1..], source, left) else volumes[i + 1..]
    ensures alive ==> Cost(ts[i..], volumes[i..], source) - budget == Cost(ts[i + 1..], volumes[i + 1..], source) - left
    ensures !alive ==> budget < Cost(ts[i..], volumes[i..], source)
  {
    assert ts[i..][1..] == ts[i + 1..] && volumes[i..][1..] == volumes[i + 1..];
    assert ts[i..][0] == ts[i] && volumes[i..][0] == volumes[i];
  }

  /** The first targets are done: what the whole run leaves, from the present volumes. */
  predicate Progress(ts: seq<Target>, before: seq<Volume>, now: seq<Volume>, source: Volume, i: nat, budget: nat,
                     left: nat)
    requires |ts| == |before|
  {
    && |now| == |before| && i <= |ts| && now[i..] == before[i..]
    && Publish(ts, before, source, budget) == now[..i] + Publish(ts[i..], before[i..], source, left)
    && Cost(ts, before, source) - budget == Cost(ts[i..], before[i..], source) - left
  }

  lemma ProgressMade(ts: seq<Target>, before: seq<Volume>, now: seq<Volume>, source: Volume, i: nat, after: Volume,
                     budget: nat, rest: nat, left: nat, alive: bool)
    requires |ts| == |before| && Progress(ts, before, now, source, i, budget, rest) && i < |ts|
    requires Ran(Perform, before[i], after, Steps(ts[i], before[i], source), rest, left, alive)
    ensures alive ==> Progress(ts, before, now[i := after], source, i + 1, budget, left)
    ensures !alive ==> now[i := after] == Publish(ts, before, source, budget) && budget < Cost(ts, before, source)
  {
    PublishAdvances(ts, before, source, i, after, rest, left, alive);
    Replaced(now, before, i, after,
             if alive then Publish(ts[i + 1..], before[i + 1..], source, left) else before[i + 1..]);
  }

  lemma Replaced(now: seq<Volume>, before: seq<Volume>, i: nat, after: Volume, tail: seq<Volume>)
    requires |now| == |before| && i < |now| && now[i..] == before[i..]
    ensures now[i := after][i + 1..] == before[i + 1..]
    ensures now[..i] + ([after] + tail) == now[i := after][..i + 1] + tail
    ensures now[i := after] == now[i := after][..i + 1] + before[i + 1..]
  {
    assert now[i := after][i + 1..] == now[i..][1..];
    assert before[i + 1..] == before[i..][1..];
    assert now[i := after][..i + 1] == now[..i] + [after];
  }

  /** The steps after the first files of a target. */
  lemma {:induction false} LaterActions(t: Target, source: Volume, n: nat) returns (more: seq<Action>)
    requires n <= |t.files|
    ensures TargetActions(t, source, |t.files|) == TargetActions(t, source, n) + more
    decreases |t.files| - n
  {
    if n == |t.files| {
      more := [];
    } else {
      var later := LaterActions(t, source, n + 1);
      more := FileActions(t, source, t.files[n]) + later;
    }
  }

  /** One more file of a target, or the end of the run. */
  lemma FileRan(t: Target, source: Volume, k: nat, before: Volume, middle: Volume, after: Volume, budget: nat,
                rest: nat, left: nat, alive: bool)
    requires k < |t.files| && Ran(Perform, before, middle, TargetActions(t, source, k), budget, rest, true)
    requires Ran(Perform, middle, after, FileActions(t, source, t.files[k]), rest, left, alive)
    ensures alive ==> Ran(Perform, before, after, TargetActions(t, source, k + 1), budget, left, true)
    ensures !alive ==> Ran(Perform, before, after, TargetActions(t, source, |t.files|), budget, left, false)
  {
    var first, file := TargetActions(t, source, k), FileActions(t, source, t.files[k]);
    assert TargetActions(t, source, k + 1) == first + file;
    RanOn(Perform, before, middle, after, first, file, budget, rest, left, alive);
    if !alive {
      var more := LaterActions(t, source, k + 1);
      RanOut(Perform, before, after, first + file, more, budget);
    }
  }

  class Script {
    const targets: seq<Target>
    var volumes: seq<Volume>
    /** File-system steps left before the container is killed. */
    var budget: nat

    ghost predicate Valid()
      reads this
    {
      |volumes| == |targets| && TargetsValid(targets)
    }

    constructor (volumes: seq<Volume>, budget: nat)
      requires |volumes| == |SERVICE_TARGETS|
      ensures Valid() && targets == SERVICE_TARGETS && this.volumes == volumes && this.budget == budget
    {
      targets := SERVICE_TARGETS;
      this.volumes := volumes;
      this.budget := budget;
      ServiceTargetsValid();
    }

    /** One file-system step, if the container still lives. */
    method Step(i: nat, a: Action) returns (alive: bool)
      requires Valid() && i < |volumes|
      modifies this
      ensures Valid() && volumes == old(volumes)[i := volumes[i]]
      ensures Ran(Perform, old(volumes[i]), volumes[i], [a], old(budget), budget, alive)
    {
      ghost var before := volumes[i];
      if budget == 0 {
        return false;
      }
      volumes := volumes[i := Perform(volumes[i], a)];
      budget := budget - 1;
      assert PerformAll(Perform, before, [a][..0]) == before;
      return true;
    }

    /** cp */
    method Copy(i: nat, name: Name, bytes: seq<Byte>) returns (alive: bool)
      requires Valid() && i < |volumes|
      modifies this
      ensures Valid() && volumes == old(volumes)[i := volumes[i]]
      ensures Ran(Perform, old(volumes[i]), volumes[i], CopyActions(name, bytes), old(budget), budget, alive)
    {
      ghost var before, b0 := volumes[i], budget;
      ghost var actions := CopyActions(name, bytes);
      alive := Step(i, Create(name));
      assert actions == [Create(name)] + actions[1..];
      if !alive {
        RanOut(Perform, before, volumes[i], [Create(name)], actions[1..], b0);
        return;
      }
      for k := 0 to |bytes|
        invariant alive && Valid() && volumes == old(volumes)[i := volumes[i]]
        invariant Ran(Perform, before, volumes[i], actions[..k + 1], b0, budget, true)
      {
        ghost var middle, rest := volumes[i], budget;
        alive := Step(i, Append(name, bytes[k]));
        assert actions[..k + 2] == actions[..k + 1] + [Append(name, bytes[k])];
        RanOn(Perform, before, middle, volumes[i], actions[..k + 1], [Append(name, bytes[k])], b0, rest, budget, alive);
        if !alive {
          assert actions == actions[..k + 2] + actions[k + 2..];
          RanOut(Perform, before, volumes[i], actions[..k + 2], actions[k + 2..], b0);
          return;
        }
      }
      assert actions[..|bytes| + 1] == actions;
    }

    /** The body of the publication loop: cp, chmod, chown. */
    method PublishFile(i: nat, source: Volume, name: Name) returns (alive: bool)
      requires Valid() && i < |volumes|
      modifies this
      ensures Valid() && volumes == old(volumes)[i := volumes[i]]
      ensures Ran(Perform, old(volumes[i]), volumes[i], FileActions(targets[i], source, name),
                  old(budget), budget, alive)
    {
      ghost var before, b0 := volumes[i], budget;
      var mode, owner := ChangeMode(name, MODE_0400), ChangeOwner(name, targets[i].uid, targets[i].gid);
      ghost var copy := CopyActions(name, Contents(source, name));
      assert FileActions(targets[i], source, name) == copy + [mode, owner] == (copy + [mode]) + [owner];
      alive := Copy(i, name, Contents(source, name));
      if !alive {
        RanOut(Perform, before, volumes[i], copy, [mode, owner], b0);
        return;
      }
      ghost var copied, rest := volumes[i], budget;
      alive := Step(i, mode);
      RanOn(Perform, before, copied, volumes[i], copy, [mode], b0, rest, budget, alive);
      if !alive {
        RanOut(Perform, before, volumes[i], copy + [mode], [owner], b0);
        return;
      }
      copied, rest := volumes[i], budget;
      alive := Step(i, owner);
      RanOn(Perform, before, copied, volumes[i], copy + [mode], [owner], b0, rest, budget, alive);
    }

    /** publish_target */
    method PublishTarget(i: nat, source: Volume) returns (alive: bool)
      requires Valid() && i < |volumes|
      modifies this
      ensures Valid() && volumes == old(volumes)[i := volumes[i]]
      ensures Ran(Perform, old(volumes[i]), volumes[i], Steps(targets[i], old(volumes[i]), source),
                  old(budget), budget, alive)
    {
      var t := targets[i];
      ghost var before, b0 := volumes[i], budget;
      if volumes[i] != map[] {
        return true;
      }
      alive := true;
      for k := 0 to |t.files|
        invariant alive && Valid() && volumes == old(volumes)[i := volumes[i]]
        invariant Ran(Perform, before, volumes[i], TargetActions(t, source, k), b0, budget, true)
      {
        ghost var middle, rest := volumes[i], budget;
        alive := PublishFile(i, source, t.files[k]);
        FileRan(t, source, k, before, middle, volumes[i], b0, rest, budget, alive);
        if !alive {
          return;
        }
      }
    }

    /** preflight_target */
    method PreflightTarget(i: nat, source: Volume) returns (passes: bool)
      requires Valid() && i < |volumes|
      ensures passes <==> Preflight(targets[i], volumes[i], source)
    {
      var t, volume := targets[i], volumes[i];
      if volume == map[] {
        return true;
      }
      if volume.Keys != Names(t.files) {
        return false;
      }
      for k := 0 to |t.files|
        invariant forall j :: 0 <= j < k ==> EntryPasses(t, volume, source, t.files[j])
      {
        passes := CheckEntry(t, volume, source, t.files[k]);
        if !passes {
          return;
        }
      }
      return true;
    }

    method CheckEntry(t: Target, volume: Volume, source: Volume, name: Name) returns (passes: bool)
      requires name in volume
      ensures passes <==> EntryPasses(t, volume, source, name)
    {
      var e := volume[name];
      if e.Irregular? || e.bytes != Contents(source, name) {
        return false;
      }
      return e.mode == MODE_0400 && e.uid == t.uid && e.gid == t.gid;
    }

    method PreflightAll(source: Volume) returns (passes: bool)
      requires Valid()
      ensures passes <==> AllPass(targets, volumes, source)
    {
      assert targets[0..] == targets && volumes[0..] == volumes;
      for i := 0 to |targets|
        invariant AllPass(targets, volumes, source) == AllPass(targets[i..], volumes[i..], source)
      {
        assert targets[i..][1..] == targets[i + 1..] && volumes[i..][1..] == volumes[i + 1..];
        passes := PreflightTarget(i, source);
        if !passes {
          return;
        }
      }
      return true;
    }

    method PublishAll(source: Volume) returns (alive: bool)
      requires Valid()
      modifies this
      ensures Valid() && volumes == Publish(targets, old(volumes), source, old(budget))
      ensures alive == (old(budget) >= Cost(targets, old(volumes), source))
    {
      ghost var before, b0 := volumes, budget;
      alive := true;
      assert volumes[..0] == [] && targets[0..] == targets && before[0..] == before;
      for i := 0 to |targets|
        invariant alive && Valid() && Progress(targets, before, volumes, source, i, b0, budget)
      {
        ghost var was, rest := volumes, budget;
        assert was[i] == was[i..][0] == before[i..][0] == before[i];
        alive := PublishTarget(i, source);
        ProgressMade(targets, before, was, source, i, volumes[i], b0, rest, budget, alive);
        if !alive {
          return;
        }
      }
      assert targets[|targets|..] == [] && before[|targets|..] == [];
      assert volumes[..|targets|] == volumes;
    }

    /** The whole script: source check, every preflight, then every publication. */
    method Publication(source: Volume) returns (exit: Exit)
      requires Valid()
      modifies this
      ensures Valid()
      ensures (volumes, exit) == Run(targets, old(volumes), source, old(budget))
    {
      if !SourceValid(source) {
        return Failed;
      }
      var passes := PreflightAll(source);
      if !passes {
        return Failed;
      }
      var alive := PublishAll(source);
      return if alive then Completed else Killed;
    }
  }
}
