/** The shared-configuration initializer: a release is staged under a hidden name,
    sealed, renamed into place, and pointed to by an atomically replaced link. */
module SharedConfig {
  import opened Wrappers
  import opened Base64
  import opened Replay
  import Text

  datatype FileName = Readme | Manifest | OtherFile(name: string)

  datatype Entry = File(bytes: seq<Byte>, mode: nat) | IrregularFile

  /** An entry of the releases directory. */
  datatype Node = Directory(files: map<FileName, Entry>, mode: nat) | Irregular

  /** The volume: releases by name, leftover links by process id, the current pointer.
      Links hold the name of the release they point to. */
  datatype Volume = Volume(releases: map<string, Node>, links: map<nat, string>, current: Option<string>)

  const MODE_0700: nat := 7 * 64
  const MODE_0644: nat := 6 * 64 + 4 * 8 + 4
  const MODE_0444: nat := 4 * 64 + 4 * 8 + 4
  const MODE_0555: nat := 5 * 64 + 5 * 8 + 5

  predicate RevisionChar(c: char) {
    Text.IsAlphanumeric(c) || c == '.' || c == '_' || c == '-'
  }

  predicate RevisionValid(revision: string) {
    && revision != "" && (forall i :: 0 <= i < |revision| ==> RevisionChar(revision[i]))
    && Text.IsAlphanumeric(revision[0]) && |revision| <= 128
  }

  predicate Hidden(name: string) {
    name != "" && name[0] == '.'
  }

  /** One line of a checksum file. */
  function ManifestLine(digest: seq<Byte>): seq<Byte> {
    digest + [32, 32, 82, 69, 65, 68, 77, 69, 46, 109, 100, 10]
  }

  /** What a run is given. The digest is empty when sha256sum fails, which the pipeline
      it stands in does not notice. */
  datatype Input = Input(revision: string, readme: seq<Byte>, digest: seq<Byte>, pid: nat, suffix: string)

  function Candidate(i: Input): (name: string)
    ensures Hidden(name)
  {
    "." + i.revision + "." + i.suffix
  }

  function Line(i: Input): seq<Byte> {
    ManifestLine(i.digest)
  }

  // ---- steps ------------------------------------------------------------------------

  datatype Action =
    | MakeDirectory(name: string)
    | CreateFile(name: string, file: FileName)
    | AppendByte(name: string, file: FileName, byte: Byte)
    | FileMode(name: string, file: FileName, mode: nat)
    | DirectoryMode(name: string, mode: nat)
    | Rename(name: string, to: string)
    | Remove(name: string)
    | Link(pid: nat, to: string)
    | LinkInto(name: string, entry: FileName)
    | Promote(pid: nat)

  function WithNode(v: Volume, name: string, node: Node): Volume {
    v.(releases := v.releases[name := node])
  }

  function Perform(v: Volume, a: Action): Volume {
    match a
    case MakeDirectory(name) => WithNode(v, name, Directory(map[], MODE_0700))
    case CreateFile(name, file) =>
      if name in v.releases && v.releases[name].Directory? then
        WithNode(v, name, v.releases[name].(files := v.releases[name].files[file := File([], MODE_0644)]))
      else v
    case AppendByte(name, file, byte) =>
      if HasFile(v, name, file) then
        var f := v.releases[name].files[file];
        WithNode(v, name, v.releases[name].(files := v.releases[name].files[file := f.(bytes := f.bytes + [byte])]))
      else v
    case FileMode(name, file, mode) =>
      if HasFile(v, name, file) then
        var f := v.releases[name].files[file];
        WithNode(v, name, v.releases[name].(files := v.releases[name].files[file := f.(mode := mode)]))
      else v
    case DirectoryMode(name, mode) =>
      if name in v.releases && v.releases[name].Directory? then
        WithNode(v, name, v.releases[name].(mode := mode))
      else v
    case Rename(name, to) =>
      if name in v.releases then v.(releases := (v.releases - {name})[to := v.releases[name]]) else v
    case Remove(name) => v.(releases := v.releases - {name})
    case Link(pid, to) => v.(links := v.links[pid := to])
    case LinkInto(name, entry) =>
      if name in v.releases then WithNode(v, name, WithLink(v.releases[name], entry)) else v
    case Promote(pid) =>
      if pid in v.links then v.(current := Some(v.links[pid]), links := v.links - {pid}) else v
  }

  /** A directory with one more symbolic link in it. */
  function WithLink(node: Node, entry: FileName): Node {
    if node.Directory? then node.(files := node.files[entry := IrregularFile]) else node
  }

  predicate HasFile(v: Volume, name: string, file: FileName) {
    && name in v.releases && v.releases[name].Directory?
    && file in v.releases[name].files && v.releases[name].files[file].File?
  }

  /** A file written through a redirection or copied, then made read-only. */
  function FileActions(name: string, file: FileName, bytes: seq<Byte>): seq<Action> {
    [CreateFile(name, file)]
    + seq(|bytes|, k requires 0 <= k < |bytes| => AppendByte(name, file, bytes[k]))
    + [FileMode(name, file, MODE_0444)]
  }

  lemma FirstFileAction(name: string, file: FileName, bytes: seq<Byte>)
    ensures var actions := FileActions(name, file, bytes);
            && |actions| == |bytes| + 2
            && actions[..1] == [CreateFile(name, file)] && actions == actions[..1] + actions[1..]
  {
  }

  lemma NextFileAction(name: string, file: FileName, bytes: seq<Byte>, k: nat)
    requires k < |bytes|
    ensures var actions := FileActions(name, file, bytes);
            && actions[..k + 2] == actions[..k + 1] + [AppendByte(name, file, bytes[k])]
            && actions == actions[..k + 2] + actions[k + 2..]
  {
  }

  lemma LastFileAction(name: string, file: FileName, bytes: seq<Byte>)
    ensures var actions := FileActions(name, file, bytes);
            actions == actions[..|bytes| + 1] + [FileMode(name, file, MODE_0444)]
  {
  }

  function StageActions(i: Input): seq<Action> {
    [MakeDirectory(Candidate(i))]
    + FileActions(Candidate(i), Readme, i.readme)
    + FileActions(Candidate(i), Manifest, Line(i))
  }

  // ---- what the run decides ------------------------------------------------------------

  /** An existing release has exactly the two files, with the staged bytes. */
  predicate Matches(node: Node, readme: seq<Byte>, line: seq<Byte>) {
    && node.Directory? && node.files.Keys == {Readme, Manifest}
    && node.files[Readme].File? && node.files[Readme].bytes == readme
    && node.files[Manifest].File? && node.files[Manifest].bytes == line
  }

  datatype Exit = Done | Failed | Killed

  /** mktemp only makes names that are free. */
  predicate Startable(v: Volume, i: Input) {
    RevisionValid(i.revision) && Candidate(i) !in v.releases
  }

  function PlaceActions(v: Volume, i: Input): seq<Action> {
    if i.revision in v.releases then [] else [DirectoryMode(Candidate(i), MODE_0555), Rename(Candidate(i), i.revision)]
  }

  function Staged(i: Input, mode: nat): Node {
    Directory(map[Readme := File(i.readme, MODE_0444), Manifest := File(Line(i), MODE_0444)], mode)
  }

  /** Root without capabilities may only write where the owner may. */
  predicate Writable(mode: nat) {
    mode / 128 % 2 == 1
  }

  function EntryName(revision: string): FileName {
    if revision == "README.md" then Readme
    else if revision == "MANIFEST.sha256" then Manifest
    else OtherFile(revision)
  }

  /** The volume once the release is in place. */
  function PlacedVolume(v: Volume, i: Input): Volume {
    if i.revision in v.releases then WithNode(v, Candidate(i), Staged(i, MODE_0700))
    else WithNode(v, i.revision, Staged(i, MODE_0555))
  }

  /** A leftover link of this process id leads into a directory in which ln can make its
      own link instead. The script never looks at the mode of that directory. */
  predicate Enterable(w: Volume, i: Input) {
    && i.pid in w.links && w.links[i.pid] in w.releases
    && w.releases[w.links[i.pid]].Directory? && Writable(w.releases[w.links[i.pid]].mode)
    && EntryName(i.revision) !in w.releases[w.links[i.pid]].files
  }

  /** ln fails: there is a leftover link, and no directory to write into behind it. */
  predicate Collides(v: Volume, i: Input) {
    i.pid in v.links && !Enterable(PlacedVolume(v, i), i)
  }

  /** What ln does: a new link, or one inside the directory behind a leftover link. */
  function LinkStep(v: Volume, i: Input): Action {
    if i.pid in v.links then LinkInto(v.links[i.pid], EntryName(i.revision)) else Link(i.pid, i.revision)
  }

  /** The pointer swap: whatever link has the name of this process id is renamed. */
  function PointActions(v: Volume, i: Input): seq<Action> {
    if Collides(v, i) then [] else [LinkStep(v, i), Promote(i.pid)]
  }

  /** The exit trap, armed while the candidate is not yet in place. */
  function TrapActions(v: Volume, i: Input): seq<Action> {
    if i.revision in v.releases then [Remove(Candidate(i))] else []
  }

  predicate Differs(v: Volume, i: Input) {
    i.revision in v.releases && !Matches(v.releases[i.revision], i.readme, Line(i))
  }

  /** The steps of a run that is not killed. */
  function Plan(v: Volume, i: Input): seq<Action> {
    if !Startable(v, i) then []
    else if Differs(v, i) then StageActions(i) + [Remove(Candidate(i))]
    else StageActions(i) + (PlaceActions(v, i) + (PointActions(v, i) + TrapActions(v, i)))
  }

  /** The guards that make a run fail. */
  predicate Blocked(v: Volume, i: Input) {
    !Startable(v, i) || Differs(v, i) || Collides(v, i)
  }

  function Run(v: Volume, i: Input, budget: nat): (Volume, Exit) {
    var plan := Plan(v, i);
    (PerformAll(Perform, v, Cut(plan, budget)),
     if budget < |plan| then Killed else if Blocked(v, i) then Failed else Done)
  }

  // ---- staging ------------------------------------------------------------------------------

  lemma Rewritten(v: Volume, name: string, files: map<FileName, Entry>, mode: nat, file: FileName, a: Entry, b: Entry)
    ensures files[file := a][file := b] == files[file := b]
    ensures WithNode(WithNode(v, name, Directory(files[file := a], mode)), name, Directory(files[file := b], mode))
         == WithNode(v, name, Directory(files[file := b], mode))
  {
    var d, e := Directory(files[file := a], mode), Directory(files[file := b], mode);
    assert v.releases[name := d][name := e] == v.releases[name := e];
  }

  /** A file cut short holds a prefix of its bytes. */
  lemma {:induction false} FileStaged(v: Volume, name: string, files: map<FileName, Entry>, mode: nat, file: FileName,
                                      bytes: seq<Byte>, k: nat)
    requires name in v.releases && v.releases[name] == Directory(files, mode)
    requires 0 < k < |FileActions(name, file, bytes)|
    ensures PerformAll(Perform, v, FileActions(name, file, bytes)[..k])
         == WithNode(v, name, Directory(files[file := File(bytes[..k - 1], MODE_0644)], mode))
  {
    var actions := FileActions(name, file, bytes);
    if k == 1 {
      assert actions[..1] == [CreateFile(name, file)];
      PerformOne(Perform, v, CreateFile(name, file));
    } else {
      FileStaged(v, name, files, mode, file, bytes, k - 1);
      assert actions[..k][..k - 1] == actions[..k - 1];
      assert actions[k - 1] == AppendByte(name, file, bytes[k - 2]);
      assert bytes[..k - 1] == bytes[..k - 2] + [bytes[k - 2]];
      Rewritten(v, name, files, mode, file, File(bytes[..k - 2], MODE_0644), File(bytes[..k - 1], MODE_0644));
    }
  }

  lemma FileWritten(v: Volume, name: string, files: map<FileName, Entry>, mode: nat, file: FileName, bytes: seq<Byte>)
    requires name in v.releases && v.releases[name] == Directory(files, mode)
    ensures PerformAll(Perform, v, FileActions(name, file, bytes))
         == WithNode(v, name, Directory(files[file := File(bytes, MODE_0444)], mode))
  {
    var actions := FileActions(name, file, bytes);
    var n := |actions|;
    FileStaged(v, name, files, mode, file, bytes, n - 1);
    assert actions == actions[..n - 1] + [actions[n - 1]];
    assert actions[n - 1] == FileMode(name, file, MODE_0444);
    assert bytes[..n - 2] == bytes;
    Rewritten(v, name, files, mode, file, File(bytes, MODE_0644), File(bytes, MODE_0444));
  }

  lemma NodeReplaced(v: Volume, name: string, a: Node, b: Node)
    ensures WithNode(WithNode(v, name, a), name, b) == WithNode(v, name, b)
  {
    assert v.releases[name := a][name := b] == v.releases[name := b];
  }

  /** After the first file of the candidate. */
  lemma FirstFileStaged(v: Volume, i: Input)
    ensures PerformAll(Perform, v, [MakeDirectory(Candidate(i))] + FileActions(Candidate(i), Readme, i.readme))
         == WithNode(v, Candidate(i), Directory(map[Readme := File(i.readme, MODE_0444)], MODE_0700))
  {
    var c := Candidate(i);
    var empty := WithNode(v, c, Directory(map[], MODE_0700));
    PerformOne(Perform, v, MakeDirectory(c));
    FileWritten(empty, c, map[], MODE_0700, Readme, i.readme);
    var one := Directory(map[Readme := File(i.readme, MODE_0444)], MODE_0700);
    assert map[][Readme := File(i.readme, MODE_0444)] == one.files;
    NodeReplaced(v, c, Directory(map[], MODE_0700), one);
    PerformOn(Perform, v, [MakeDirectory(c)], empty, FileActions(c, Readme, i.readme), WithNode(v, c, one));
  }

  /** Staging makes the candidate and nothing else. */
  lemma StagingDone(v: Volume, i: Input)
    ensures PerformAll(Perform, v, StageActions(i)) == WithNode(v, Candidate(i), Staged(i, MODE_0700))
  {
    var c := Candidate(i);
    var one := Directory(map[Readme := File(i.readme, MODE_0444)], MODE_0700);
    FirstFileStaged(v, i);
    FileWritten(WithNode(v, c, one), c, one.files, MODE_0700, Manifest, Line(i));
    NodeReplaced(v, c, one, Staged(i, MODE_0700));
    assert one.files[Manifest := File(Line(i), MODE_0444)] == Staged(i, MODE_0700).files;
    PerformOn(Perform, v, [MakeDirectory(c)] + FileActions(c, Readme, i.readme), WithNode(v, c, one),
              FileActions(c, Manifest, Line(i)), WithNode(v, c, Staged(i, MODE_0700)));
  }

  /** A kill while staging leaves at most a hidden entry behind. */
  lemma StagingCut(v: Volume, i: Input, k: nat) returns (node: Node)
    requires 0 < k <= |StageActions(i)|
    ensures PerformAll(Perform, v, StageActions(i)[..k]) == WithNode(v, Candidate(i), node)
  {
    var c := Candidate(i);
    var make := [MakeDirectory(c)];
    var first, second := FileActions(c, Readme, i.readme), FileActions(c, Manifest, Line(i));
    if k <= |make + first| {
      var empty := WithNode(v, c, Directory(map[], MODE_0700));
      PerformOne(Perform, v, MakeDirectory(c));
      assert StageActions(i)[..k] == make + first[..k - 1];
      node := FileCut(empty, c, map[], Readme, i.readme, k - 1);
      PerformOn(Perform, v, make, empty, first[..k - 1], WithNode(empty, c, node));
      NodeReplaced(v, c, Directory(map[], MODE_0700), node);
    } else {
      var one := Directory(map[Readme := File(i.readme, MODE_0444)], MODE_0700);
      FirstFileStaged(v, i);
      var j := k - |make + first|;
      assert StageActions(i)[..k] == (make + first) + second[..j];
      node := FileCut(WithNode(v, c, one), c, one.files, Manifest, Line(i), j);
      PerformOn(Perform, v, make + first, WithNode(v, c, one), second[..j], WithNode(WithNode(v, c, one), c, node));
      NodeReplaced(v, c, one, node);
    }
  }

  lemma FileCut(v: Volume, name: string, files: map<FileName, Entry>, file: FileName, bytes: seq<Byte>,
                k: nat) returns (node: Node)
    requires name in v.releases && v.releases[name] == Directory(files, MODE_0700)
    requires k <= |FileActions(name, file, bytes)|
    ensures PerformAll(Perform, v, FileActions(name, file, bytes)[..k]) == WithNode(v, name, node)
  {
    var actions := FileActions(name, file, bytes);
    if k == 0 {
      node := v.releases[name];
      assert v.releases[name := node] == v.releases;
    } else if k == |actions| {
      FileWritten(v, name, files, MODE_0700, file, bytes);
      assert actions[..k] == actions;
      node := Directory(files[file := File(bytes, MODE_0444)], MODE_0700);
    } else {
      FileStaged(v, name, files, MODE_0700, file, bytes, k);
      node := Directory(files[file := File(bytes[..k - 1], MODE_0644)], MODE_0700);
    }
  }

  // ---- up to the link ---------------------------------------------------------------------------

  /** The steps before the link is made. */
  function BeforeLink(v: Volume, i: Input): seq<Action> {
    StageActions(i) + PlaceActions(v, i)
  }

  /** Nothing that was published has changed, and at most this run's release is new. */
  predicate ReleasesKept(v: Volume, after: Volume, i: Input) {
    && (forall name :: name in v.releases && !Hidden(name) ==>
          name in after.releases && after.releases[name] == v.releases[name])
    && (forall name :: name in after.releases && !Hidden(name) && name !in v.releases ==>
          name == i.revision && after.releases[name] == Staged(i, MODE_0555))
  }

  predicate Kept(v: Volume, after: Volume, i: Input) {
    ReleasesKept(v, after, i) && after.current == v.current && after.links == v.links
  }

  ghost predicate KeptThrough(v: Volume, i: Input, s: Volume, actions: seq<Action>) {
    forall k :: 0 <= k <= |actions| ==> Kept(v, PerformAll(Perform, s, actions[..k]), i)
  }

  lemma KeptConcat(v: Volume, i: Input, s: Volume, a: seq<Action>, middle: Volume, b: seq<Action>)
    requires KeptThrough(v, i, s, a) && PerformAll(Perform, s, a) == middle && KeptThrough(v, i, middle, b)
    ensures KeptThrough(v, i, s, a + b)
  {
    forall k | 0 <= k <= |a + b| ensures Kept(v, PerformAll(Perform, s, (a + b)[..k]), i) {
      if k <= |a| {
        assert (a + b)[..k] == a[..k];
      } else {
        var j := k - |a|;
        assert (a + b)[..k] == a + b[..j];
        PerformConcat(Perform, s, a, b[..j]);
      }
    }
  }

  lemma KeptNone(v: Volume, i: Input, s: Volume)
    requires Kept(v, s, i)
    ensures KeptThrough(v, i, s, [])
  {
  }

  lemma KeptOne(v: Volume, i: Input, s: Volume, a: Action)
    requires Kept(v, s, i) && Kept(v, Perform(s, a), i)
    ensures KeptThrough(v, i, s, [a]) && PerformAll(Perform, s, [a]) == Perform(s, a)
  {
    PerformOne(Perform, s, a);
    forall k | 0 <= k <= 1 ensures Kept(v, PerformAll(Perform, s, [a][..k]), i) {
      assert k == 0 ==> [a][..k] == [];
      assert k == 1 ==> [a][..k] == [a];
    }
  }

  lemma KeptTwo(v: Volume, i: Input, s: Volume, a: Action, b: Action)
    requires Kept(v, s, i) && Kept(v, Perform(s, a), i) && Kept(v, Perform(Perform(s, a), b), i)
    ensures KeptThrough(v, i, s, [a, b]) && PerformAll(Perform, s, [a, b]) == Perform(Perform(s, a), b)
  {
    KeptOne(v, i, s, a);
    KeptOne(v, i, Perform(s, a), b);
    KeptConcat(v, i, s, [a], Perform(s, a), [b]);
    PerformConcat(Perform, s, [a], [b]);
    assert [a] + [b] == [a, b];
  }

  lemma StagingKept(v: Volume, i: Input)
    requires Startable(v, i)
    ensures KeptThrough(v, i, v, StageActions(i))
  {
    forall k | 0 <= k <= |StageActions(i)| ensures Kept(v, PerformAll(Perform, v, StageActions(i)[..k]), i) {
      if k > 0 {
        var node := StagingCut(v, i, k);
      }
    }
  }

  /** Sealing and renaming a candidate. */
  lemma Sealed(v: Volume, i: Input)
    requires Startable(v, i) && i.revision !in v.releases
    ensures var staged := WithNode(v, Candidate(i), Staged(i, MODE_0700));
            var sealed := Perform(staged, DirectoryMode(Candidate(i), MODE_0555));
            && Kept(v, staged, i) && Kept(v, sealed, i)
            && Perform(sealed, Rename(Candidate(i), i.revision)) == PlacedVolume(v, i)
  {
    var c := Candidate(i);
    NodeReplaced(v, c, Staged(i, MODE_0700), Staged(i, MODE_0555));
    assert Perform(WithNode(v, c, Staged(i, MODE_0700)), DirectoryMode(c, MODE_0555))
        == WithNode(v, c, Staged(i, MODE_0555));
    assert v.releases[c := Staged(i, MODE_0555)] - {c} == v.releases;
  }

  lemma PlacedKept(v: Volume, i: Input)
    requires Startable(v, i)
    ensures Kept(v, PlacedVolume(v, i), i)
  {
  }

  lemma PlacingKept(v: Volume, i: Input)
    requires Startable(v, i)
    ensures var staged := WithNode(v, Candidate(i), Staged(i, MODE_0700));
            && KeptThrough(v, i, staged, PlaceActions(v, i))
            && PerformAll(Perform, staged, PlaceActions(v, i)) == PlacedVolume(v, i)
  {
    var c := Candidate(i);
    var staged := WithNode(v, c, Staged(i, MODE_0700));
    PlacedKept(v, i);
    if i.revision in v.releases {
      KeptNone(v, i, staged);
    } else {
      Sealed(v, i);
      KeptTwo(v, i, staged, DirectoryMode(c, MODE_0555), Rename(c, i.revision));
    }
  }

  /** Every cut up to the link keeps everything; then the release is in place. */
  lemma BeforeLinkKept(v: Volume, i: Input)
    requires Startable(v, i)
    ensures KeptThrough(v, i, v, BeforeLink(v, i))
    ensures PerformAll(Perform, v, BeforeLink(v, i)) == PlacedVolume(v, i)
  {
    var staged := WithNode(v, Candidate(i), Staged(i, MODE_0700));
    StagingKept(v, i);
    StagingDone(v, i);
    PlacingKept(v, i);
    KeptConcat(v, i, v, StageActions(i), staged, PlaceActions(v, i));
    PerformConcat(Perform, v, StageActions(i), PlaceActions(v, i));
  }

  lemma CutOfKept(v: Volume, i: Input, actions: seq<Action>, budget: nat)
    requires KeptThrough(v, i, v, actions)
    ensures Kept(v, PerformAll(Perform, v, Cut(actions, budget)), i)
  {
    assert Cut(actions, budget) == actions[..if budget < |actions| then budget else |actions|];
  }

  lemma RemovalKept(v: Volume, i: Input, s: Volume)
    requires Kept(v, s, i)
    ensures Kept(v, Perform(s, Remove(Candidate(i))), i)
  {
  }

  /** A blocked run changes nothing that was published, nor any link, nor the pointer. */
  lemma BlockedKept(v: Volume, i: Input, budget: nat)
    requires Blocked(v, i)
    ensures Kept(v, Run(v, i, budget).0, i)
  {
    if !Startable(v, i) {
      assert Cut(Plan(v, i), budget) == [];
    } else if Differs(v, i) {
      var staged := WithNode(v, Candidate(i), Staged(i, MODE_0700));
      PlacedKept(v, i);
      StagingKept(v, i);
      StagingDone(v, i);
      RemovalKept(v, i, staged);
      KeptOne(v, i, staged, Remove(Candidate(i)));
      KeptConcat(v, i, v, StageActions(i), staged, [Remove(Candidate(i))]);
      CutOfKept(v, i, Plan(v, i), budget);
    } else {
      CollidedKept(v, i, budget);
    }
  }

  lemma CollidedKept(v: Volume, i: Input, budget: nat)
    requires Startable(v, i) && !Differs(v, i) && Collides(v, i)
    ensures Kept(v, Run(v, i, budget).0, i)
  {
    var placed := PlacedVolume(v, i);
    assert Plan(v, i) == BeforeLink(v, i) + TrapActions(v, i);
    BeforeLinkKept(v, i);
    PlacedKept(v, i);
    RemovalKept(v, i, placed);
    if i.revision in v.releases {
      KeptOne(v, i, placed, Remove(Candidate(i)));
    } else {
      KeptNone(v, i, placed);
    }
    KeptConcat(v, i, v, BeforeLink(v, i), placed, TrapActions(v, i));
    CutOfKept(v, i, Plan(v, i), budget);
  }

  // ---- from the link on ----------------------------------------------------------------------------

  function LinkedVolume(v: Volume, i: Input): Volume {
    Perform(PlacedVolume(v, i), LinkStep(v, i))
  }

  function PromotedVolume(v: Volume, i: Input): Volume {
    Perform(LinkedVolume(v, i), Promote(i.pid))
  }

  function TrappedVolume(v: Volume, i: Input): Volume {
    if i.revision in v.releases then Perform(PromotedVolume(v, i), Remove(Candidate(i))) else PromotedVolume(v, i)
  }

  lemma OpenPlan(v: Volume, i: Input)
    requires !Blocked(v, i)
    ensures Plan(v, i) == BeforeLink(v, i) + ([LinkStep(v, i), Promote(i.pid)] + TrapActions(v, i))
  {
  }

  /** Cutting a sequence in three parts. */
  lemma CutPositions(before: seq<Action>, link: Action, promote: Action, trap: seq<Action>, budget: nat)
    ensures var cut := Cut(before + ([link, promote] + trap), budget);
            if budget <= |before| then cut == before[..budget]
            else if budget == |before| + 1 then cut == before + [link]
            else cut == (before + [link, promote]) + Cut(trap, budget - |before| - 2)
  {
  }

  lemma Linking(v: Volume, i: Input)
    requires Startable(v, i)
    ensures PerformAll(Perform, v, BeforeLink(v, i) + [LinkStep(v, i)]) == LinkedVolume(v, i)
    ensures PerformAll(Perform, v, BeforeLink(v, i) + [LinkStep(v, i), Promote(i.pid)]) == PromotedVolume(v, i)
  {
    var before, link, promote := BeforeLink(v, i), LinkStep(v, i), Promote(i.pid);
    BeforeLinkKept(v, i);
    PerformOne(Perform, PlacedVolume(v, i), link);
    PerformOne(Perform, LinkedVolume(v, i), promote);
    PerformOn(Perform, v, before, PlacedVolume(v, i), [link], LinkedVolume(v, i));
    PerformOn(Perform, v, before + [link], LinkedVolume(v, i), [promote], PromotedVolume(v, i));
    assert (before + [link]) + [promote] == before + [link, promote];
  }

  /** The volume after a run that nothing blocks and that reaches its link. */
  lemma LateCut(v: Volume, i: Input, budget: nat)
    requires !Blocked(v, i) && budget > |BeforeLink(v, i)|
    ensures Run(v, i, budget).0
         == if budget == |BeforeLink(v, i)| + 1 then LinkedVolume(v, i)
            else if budget == |BeforeLink(v, i)| + 2 then PromotedVolume(v, i)
            else TrappedVolume(v, i)
  {
    var before, trap := BeforeLink(v, i), TrapActions(v, i);
    OpenPlan(v, i);
    CutPositions(before, LinkStep(v, i), Promote(i.pid), trap, budget);
    Linking(v, i);
    if budget >= |before| + 2 {
      var rest := Cut(trap, budget - |before| - 2);
      PerformConcat(Perform, v, before + [LinkStep(v, i), Promote(i.pid)], rest);
      if rest != [] {
        assert rest == [Remove(Candidate(i))];
        PerformOne(Perform, PromotedVolume(v, i), Remove(Candidate(i)));
      }
    }
  }

  lemma EarlyCut(v: Volume, i: Input, budget: nat)
    requires !Blocked(v, i) && budget <= |BeforeLink(v, i)|
    ensures Kept(v, Run(v, i, budget).0, i)
  {
    OpenPlan(v, i);
    CutPositions(BeforeLink(v, i), LinkStep(v, i), Promote(i.pid), TrapActions(v, i), budget);
    BeforeLinkKept(v, i);
  }

  // ---- what every cut leaves -----------------------------------------------------------------------

  /** A run killed after making a new link and before renaming it. */
  predicate KilledAtLink(v: Volume, i: Input, budget: nat) {
    !Blocked(v, i) && i.pid !in v.links && budget == |BeforeLink(v, i)| + 1
  }

  /** A run that lives long enough to replace the pointer. */
  predicate Promotes(v: Volume, i: Input, budget: nat) {
    !Blocked(v, i) && budget > |BeforeLink(v, i)| + 1
  }

  /** A run that makes its link inside the release behind a leftover one. */
  predicate Enters(v: Volume, i: Input, budget: nat) {
    !Blocked(v, i) && i.pid in v.links && budget > |BeforeLink(v, i)|
  }

  /** The release that a promotion points to: this run's, or the one behind a leftover link. */
  function Target(v: Volume, i: Input): string {
    if i.pid in v.links then v.links[i.pid] else i.revision
  }

  lemma LinkedLeaves(v: Volume, i: Input)
    ensures LinkedVolume(v, i).links == if i.pid in v.links then v.links else v.links[i.pid := i.revision]
    ensures LinkedVolume(v, i).current == v.current
  {
  }

  lemma PromotedLeaves(w: Volume, pid: nat)
    requires pid in w.links
    ensures Perform(w, Promote(pid)).links == w.links - {pid}
    ensures Perform(w, Promote(pid)).current == Some(w.links[pid])
  {
  }

  lemma TrappedLeaves(v: Volume, i: Input)
    ensures PromotedVolume(v, i).links == v.links - {i.pid} && PromotedVolume(v, i).current == Some(Target(v, i))
    ensures TrappedVolume(v, i).links == PromotedVolume(v, i).links
    ensures TrappedVolume(v, i).current == PromotedVolume(v, i).current
  {
    LinkedLeaves(v, i);
    PromotedLeaves(LinkedVolume(v, i), i.pid);
    assert v.links[i.pid := i.revision] - {i.pid} == v.links - {i.pid};
  }

  /** Exactly what a run does to links and pointer, blocked or not, killed or not. */
  lemma RunLeaves(v: Volume, i: Input, budget: nat)
    ensures var after := Run(v, i, budget).0;
            && after.links == (if KilledAtLink(v, i, budget) then v.links[i.pid := i.revision]
                               else if Promotes(v, i, budget) then v.links - {i.pid}
                               else v.links)
            && after.current == (if Promotes(v, i, budget) then Some(Target(v, i)) else v.current)
  {
    if Blocked(v, i) {
      BlockedKept(v, i, budget);
    } else if budget <= |BeforeLink(v, i)| {
      EarlyCut(v, i, budget);
    } else {
      LateCut(v, i, budget);
      LinkedLeaves(v, i);
      TrappedLeaves(v, i);
    }
  }

  /** Exactly what a run does to the releases: one entered release gains a link, one sealed
      release may be new, and nothing else that was published changes. */
  predicate ReleasesAfter(v: Volume, after: Volume, i: Input, entered: bool) {
    && (forall name :: name in v.releases && !Hidden(name) ==>
          && name in after.releases
          && after.releases[name] == if entered && name == Target(v, i)
                                     then WithLink(v.releases[name], EntryName(i.revision))
                                     else v.releases[name])
    && (forall name :: name in after.releases && !Hidden(name) && name !in v.releases ==>
          name == i.revision && after.releases[name] == Staged(i, MODE_0555))
  }

  lemma LinkedReleases(v: Volume, i: Input)
    requires !Blocked(v, i)
    ensures ReleasesAfter(v, LinkedVolume(v, i), i, i.pid in v.links)
  {
    PlacedKept(v, i);
  }

  lemma TrappedReleases(v: Volume, i: Input)
    requires !Blocked(v, i)
    ensures PromotedVolume(v, i).releases == LinkedVolume(v, i).releases
    ensures ReleasesAfter(v, PromotedVolume(v, i), i, i.pid in v.links)
    ensures ReleasesAfter(v, TrappedVolume(v, i), i, i.pid in v.links)
  {
    LinkedReleases(v, i);
  }

  /** At every budget, and so at every moment a reader may look. */
  lemma EveryCutKept(v: Volume, i: Input, budget: nat)
    ensures ReleasesAfter(v, Run(v, i, budget).0, i, Enters(v, i, budget))
  {
    if Blocked(v, i) {
      BlockedKept(v, i, budget);
    } else if budget <= |BeforeLink(v, i)| {
      EarlyCut(v, i, budget);
    } else {
      LateCut(v, i, budget);
      LinkedReleases(v, i);
      TrappedReleases(v, i);
    }
  }

  /** The name resolves to a release with the staged bytes. */
  predicate Resolves(v: Volume, i: Input) {
    i.revision in v.releases && Matches(v.releases[i.revision], i.readme, Line(i))
  }

  /** A release that is there once a run has placed it, unless it is entered. */
  lemma LateResolves(v: Volume, i: Input, budget: nat)
    requires !Blocked(v, i) && budget > |BeforeLink(v, i)| && !(Enters(v, i, budget) && Target(v, i) == i.revision)
    ensures Resolves(Run(v, i, budget).0, i)
  {
    PlacedResolves(v, i);
    LateCut(v, i, budget);
    LinkingResolves(PlacedVolume(v, i), v, i);
    var linked := LinkedVolume(v, i);
    PromotionResolves(linked, i);
    RemovalResolves(Perform(linked, Promote(i.pid)), i);
  }

  lemma LinkingResolves(w: Volume, v: Volume, i: Input)
    requires Resolves(w, i) && !(i.pid in v.links && Target(v, i) == i.revision)
    ensures Resolves(Perform(w, LinkStep(v, i)), i)
  {
  }

  lemma PromotionResolves(w: Volume, i: Input)
    requires Resolves(w, i)
    ensures Resolves(Perform(w, Promote(i.pid)), i)
  {
  }

  lemma RemovalResolves(w: Volume, i: Input)
    requires Resolves(w, i) && !Hidden(i.revision)
    ensures Resolves(Perform(w, Remove(Candidate(i))), i)
  {
  }

  lemma PlacedResolves(v: Volume, i: Input)
    requires Startable(v, i) && !Differs(v, i)
    ensures Resolves(PlacedVolume(v, i), i)
  {
  }

  /** A run that completes points to its release, or to the one behind a leftover link, and
      leaves neither its link nor its candidate. */
  lemma CompletedRun(v: Volume, i: Input, budget: nat)
    requires Run(v, i, budget).1 == Done
    ensures var after := Run(v, i, budget).0;
            && after.current == Some(Target(v, i)) && after.links == v.links - {i.pid}
            && Candidate(i) !in after.releases
            && (i.pid !in v.links ==> Resolves(after, i))
  {
    OpenPlan(v, i);
    RunLeaves(v, i, budget);
    LateCut(v, i, budget);
    TrappedClean(v, i);
    if i.pid !in v.links {
      LateResolves(v, i, budget);
    }
  }

  lemma TrappedClean(v: Volume, i: Input)
    requires !Blocked(v, i)
    ensures Candidate(i) !in TrappedVolume(v, i).releases
  {
  }

  // ---- sealed volumes --------------------------------------------------------------------------------

  /** Every published directory is unwritable, as the script leaves its own, and leftover
      links name no hidden entry. The empty volume is tidy. */
  predicate Tidy(v: Volume) {
    && (forall name :: name in v.releases && !Hidden(name) && v.releases[name].Directory? ==>
          !Writable(v.releases[name].mode))
    && forall pid :: pid in v.links ==> !Hidden(v.links[pid])
  }

  /** In a tidy volume a leftover link cannot be entered. */
  lemma TidyCollides(v: Volume, i: Input)
    requires Tidy(v) && i.pid in v.links
    ensures Collides(v, i)
  {
  }

  lemma TidyKept(v: Volume, i: Input, budget: nat)
    requires Tidy(v)
    ensures Tidy(Run(v, i, budget).0)
  {
    RunLeaves(v, i, budget);
    TidyReleasesKept(v, i, budget);
    var after := Run(v, i, budget).0;
    assert !Writable(MODE_0555);
    forall name | name in after.releases && !Hidden(name) && after.releases[name].Directory?
      ensures !Writable(after.releases[name].mode)
    {
      assert name in v.releases || after.releases[name] == Staged(i, MODE_0555);
    }
    forall pid | pid in after.links ensures !Hidden(after.links[pid]) {
      assert pid in v.links || after.links[pid] == i.revision;
    }
  }

  /** So a tidy volume keeps every published release whatever is run and killed. */
  lemma TidyReleasesKept(v: Volume, i: Input, budget: nat)
    requires Tidy(v)
    ensures !Enters(v, i, budget) && ReleasesKept(v, Run(v, i, budget).0, i)
  {
    EveryCutKept(v, i, budget);
    if i.pid in v.links {
      TidyCollides(v, i);
    }
  }

  // ---- completeness -----------------------------------------------------------------------------------

  /** Exactly the two files, the second the checksum line of the first. */
  predicate Complete(sha256: seq<Byte> -> seq<Byte>, node: Node) {
    node.Directory? && Readme in node.files && node.files[Readme].File?
    && Matches(node, node.files[Readme].bytes, ManifestLine(sha256(node.files[Readme].bytes)))
  }

  lemma ManifestLineInjective(a: seq<Byte>, b: seq<Byte>)
    requires ManifestLine(a) == ManifestLine(b)
    ensures a == b
  {
    assert |a| == |b|;
    assert a == ManifestLine(a)[..|a|] && b == ManifestLine(b)[..|b|];
  }

  lemma CompleteWhenHashed(sha256: seq<Byte> -> seq<Byte>, v: Volume, i: Input)
    requires Resolves(v, i)
    ensures Complete(sha256, v.releases[i.revision]) <==> i.digest == sha256(i.readme)
  {
    if Complete(sha256, v.releases[i.revision]) {
      ManifestLineInjective(i.digest, sha256(i.readme));
    }
  }

  /** The pipeline hides a failing sha256sum: the release that a completed run points to is
      complete exactly when it is its own and the digest was the checksum of the file. */
  lemma CompleteIffHashed(sha256: seq<Byte> -> seq<Byte>, v: Volume, i: Input, budget: nat)
    requires Run(v, i, budget).1 == Done && !Hidden(Target(v, i))
    ensures var after := Run(v, i, budget).0;
            && Target(v, i) in after.releases
            && (Complete(sha256, after.releases[Target(v, i)]) <==> i.pid !in v.links && i.digest == sha256(i.readme))
  {
    CompletedRun(v, i, budget);
    if i.pid in v.links {
      EnteredTarget(sha256, v, i, budget);
    } else {
      CompleteWhenHashed(sha256, Run(v, i, budget).0, i);
    }
  }

  /** What ln enters is a directory that was there before the run. */
  lemma EnteredDirectory(v: Volume, i: Input)
    requires !Blocked(v, i) && i.pid in v.links && !Hidden(Target(v, i))
    ensures Target(v, i) in v.releases && v.releases[Target(v, i)].Directory?
    ensures EntryName(i.revision) !in v.releases[Target(v, i)].files
  {
  }

  lemma LinkUnmatched(node: Node, entry: FileName, readme: seq<Byte>, line: seq<Byte>)
    requires node.Directory? && entry !in node.files
    ensures !Matches(WithLink(node, entry), readme, line)
  {
    assert entry in WithLink(node, entry).files.Keys;
  }

  lemma LinkIncomplete(sha256: seq<Byte> -> seq<Byte>, node: Node, entry: FileName)
    requires node.Directory? && entry !in node.files
    ensures !Complete(sha256, WithLink(node, entry))
  {
    var linked := WithLink(node, entry);
    if Readme in linked.files && linked.files[Readme].File? {
      var bytes := linked.files[Readme].bytes;
      LinkUnmatched(node, entry, bytes, ManifestLine(sha256(bytes)));
    }
  }

  /** An entered release holds a link, so it is not complete. */
  lemma EnteredTarget(sha256: seq<Byte> -> seq<Byte>, v: Volume, i: Input, budget: nat)
    requires Enters(v, i, budget) && !Hidden(Target(v, i))
    ensures var after := Run(v, i, budget).0;
            && Target(v, i) in v.releases && Target(v, i) in after.releases
            && after.releases[Target(v, i)] == WithLink(v.releases[Target(v, i)], EntryName(i.revision))
            && !Complete(sha256, after.releases[Target(v, i)])
  {
    EnteredDirectory(v, i);
    EveryCutKept(v, i, budget);
    LinkIncomplete(sha256, v.releases[Target(v, i)], EntryName(i.revision));
  }

  // ---- which kill leaves what -------------------------------------------------------------------------

  /** A run that nothing blocks leaves a link of its own at exactly one budget; if it found
      one, it keeps that up to the rename. */
  lemma LinkLeftExactly(v: Volume, i: Input, budget: nat)
    requires !Blocked(v, i)
    ensures i.pid in Run(v, i, budget).0.links <==>
              if i.pid in v.links then budget <= |StageActions(i)| + |PlaceActions(v, i)| + 1
              else budget == |StageActions(i)| + |PlaceActions(v, i)| + 1
    ensures KilledAtLink(v, i, budget) ==> Run(v, i, budget).1 == Killed
  {
    RunLeaves(v, i, budget);
    OpenPlan(v, i);
  }

  /** So every run that would complete can be killed with its link left behind. */
  lemma LinkCanBeLeft(v: Volume, i: Input) returns (budget: nat)
    requires !Blocked(v, i)
    ensures Run(v, i, budget).1 == Killed && i.pid in Run(v, i, budget).0.links
  {
    budget := |StageActions(i)| + |PlaceActions(v, i)| + 1;
    LinkLeftExactly(v, i, budget);
    OpenPlan(v, i);
  }

  /** Recovery. After any kill of a run that nothing blocked, the same release can be
      published again, by any process and under any free candidate name, exactly when it has
      not been entered and that process finds no link, or one it can enter; and then every
      sufficient budget completes it. */
  lemma RecoversIff(v: Volume, i: Input, budget: nat, pid: nat, suffix: string)
    requires !Blocked(v, i)
    requires Candidate(i.(pid := pid, suffix := suffix)) !in Run(v, i, budget).0.releases
    ensures var w, j := Run(v, i, budget).0, i.(pid := pid, suffix := suffix);
            && (!Blocked(w, j) <==>
                  && !(Enters(v, i, budget) && Target(v, i) == i.revision)
                  && (pid in w.links ==> Enterable(PlacedVolume(w, j), j)))
            && (!Blocked(w, j) ==> forall n: nat :: n >= |Plan(w, j)| ==> Run(w, j, n).1 == Done)
  {
    var w, j := Run(v, i, budget).0, i.(pid := pid, suffix := suffix);
    EveryCutKept(v, i, budget);
    DiffersIffEntered(v, w, i, Enters(v, i, budget));
    assert Differs(w, j) == Differs(w, i);
    hide ReleasesAfter, Enterable, Differs;
  }

  lemma DiffersIffEntered(v: Volume, after: Volume, i: Input, entered: bool)
    requires !Blocked(v, i) && ReleasesAfter(v, after, i, entered) && (entered ==> i.pid in v.links)
    ensures Differs(after, i) <==> entered && Target(v, i) == i.revision
  {
    if entered && Target(v, i) == i.revision {
      EnteredDirectory(v, i);
      LinkUnmatched(v.releases[i.revision], EntryName(i.revision), i.readme, Line(i));
    }
  }

  /** In a tidy volume: exactly when no link of that process was left. */
  lemma RecoversIffNoLink(v: Volume, i: Input, budget: nat, pid: nat, suffix: string)
    requires Tidy(v) && !Blocked(v, i)
    requires Candidate(i.(pid := pid, suffix := suffix)) !in Run(v, i, budget).0.releases
    ensures var w, j := Run(v, i, budget).0, i.(pid := pid, suffix := suffix);
            && (!Blocked(w, j) <==> pid !in w.links)
            && (pid !in w.links ==> forall n: nat :: n >= |Plan(w, j)| ==> Run(w, j, n).1 == Done)
  {
    var w, j := Run(v, i, budget).0, i.(pid := pid, suffix := suffix);
    TidyReleasesKept(v, i, budget);
    TidyKept(v, i, budget);
    RecoversIff(v, i, budget, pid, suffix);
    if pid in w.links {
      TidyCollides(w, j);
    }
  }

  /** Outside tidy volumes a kill can spoil a release. If an existing release with the same
      files is writable, a run over it can be killed at its link; the next run with the same
      process id completes by making its link inside the release, and from then on nothing
      can publish that revision. */
  lemma WritableReleaseSpoiled(v: Volume, i: Input, w: Volume, j: Input, n: nat, later: Input)
    requires !Blocked(v, i) && i.pid !in v.links && EntryName(i.revision).OtherFile?
    requires i.revision in v.releases && v.releases[i.revision].Directory? && Writable(v.releases[i.revision].mode)
    requires w == Run(v, i, |BeforeLink(v, i)| + 1).0 && j == i.(suffix := j.suffix)
    requires Candidate(j) !in w.releases && n >= |Plan(w, j)| && later.revision == i.revision
    ensures Run(v, i, |BeforeLink(v, i)| + 1).1 == Killed && Run(w, j, n).1 == Done
    ensures i.revision in Run(w, j, n).0.releases
    ensures Run(w, j, n).0.releases[i.revision] == WithLink(v.releases[i.revision], EntryName(i.revision))
    ensures Blocked(Run(w, j, n).0, later)
  {
    LinkLeftExactly(v, i, |BeforeLink(v, i)| + 1);
    LeftBehind(v, i);
    LinkUnmatched(v.releases[i.revision], EntryName(i.revision), later.readme, Line(later));
    CanEnter(w, j, n);
    EveryCutKept(w, j, n);
  }

  /** The kill leaves a link to the release it found. */
  lemma LeftBehind(v: Volume, i: Input)
    requires !Blocked(v, i) && i.pid !in v.links && i.revision in v.releases
    ensures var w := Run(v, i, |BeforeLink(v, i)| + 1).0;
            && i.pid in w.links && w.links[i.pid] == i.revision
            && i.revision in w.releases && w.releases[i.revision] == v.releases[i.revision]
  {
    RunLeaves(v, i, |BeforeLink(v, i)| + 1);
    EveryCutKept(v, i, |BeforeLink(v, i)| + 1);
  }

  lemma CanEnter(w: Volume, j: Input, n: nat)
    requires Startable(w, j) && Resolves(w, j) && Writable(w.releases[j.revision].mode)
    requires j.pid in w.links && w.links[j.pid] == j.revision && EntryName(j.revision).OtherFile?
    requires n >= |Plan(w, j)|
    ensures Enters(w, j, n) && Run(w, j, n).1 == Done
  {
    assert EntryName(j.revision) !in w.releases[j.revision].files.Keys;
    OpenPlan(w, j);
  }

  /** Release "a" of mode 0755, and a run that would publish it again. */
  lemma WritableReleaseExists() returns (v: Volume, i: Input)
    ensures !Blocked(v, i) && !Tidy(v) && v.links == map[] && EntryName(i.revision).OtherFile?
    ensures v.releases.Keys == {i.revision} && i.suffix == "x" && !Hidden(i.revision)
    ensures v.releases[i.revision].Directory? && Writable(v.releases[i.revision].mode)
  {
    i := Input("a", [], [], 1, "x");
    v := Volume(map["a" := Staged(i, 7 * 64 + 5 * 8 + 5)], map[], None);
    assert Text.IsAlphanumeric("a"[0]) && !Hidden("a");
  }

  lemma OtherNamesFree(v: Volume, i: Input, j: Input)
    requires !Blocked(v, i) && i.pid !in v.links && v.releases.Keys == {i.revision}
    requires j == i.(suffix := j.suffix) && i.suffix == "x" && j.suffix == "y"
    ensures Candidate(j) !in Run(v, i, |BeforeLink(v, i)| + 1).0.releases
  {
    assert Candidate(j)[|i.revision| + 2] != Candidate(i)[|i.revision| + 2];
    LateCut(v, i, |BeforeLink(v, i)| + 1);
  }

  /** So there are two runs, the first killed at its link, the second completed, after which
      the revision is blocked for every run. */
  lemma SpoilingKillExists() returns (v: Volume, i: Input, j: Input, n: nat)
    ensures var w := Run(v, i, |BeforeLink(v, i)| + 1).0;
            && !Blocked(v, i) && Run(v, i, |BeforeLink(v, i)| + 1).1 == Killed && Run(w, j, n).1 == Done
            && forall later: Input :: later.revision == i.revision ==> Blocked(Run(w, j, n).0, later)
  {
    v, i := WritableReleaseExists();
    j := i.(suffix := "y");
    var w := Run(v, i, |BeforeLink(v, i)| + 1).0;
    OtherNamesFree(v, i, j);
    n := |Plan(w, j)|;
    forall later: Input | later.revision == i.revision ensures Blocked(Run(w, j, n).0, later) {
      WritableReleaseSpoiled(v, i, w, j, n, later);
    }
    WritableReleaseSpoiled(v, i, w, j, n, i);
  }

  // ---- any number of runs ----------------------------------------------------------------------------

  datatype Attempt = Attempt(input: Input, budget: nat)

  /** The volume after any number of runs under the publisher lock, each killed or not. */
  function Runs(v: Volume, attempts: seq<Attempt>): Volume {
    if attempts == [] then v
    else
      var n := |attempts| - 1;
      Run(Runs(v, attempts[..n]), attempts[n].input, attempts[n].budget).0
  }

  lemma {:induction false} TidyAlways(v: Volume, attempts: seq<Attempt>)
    requires Tidy(v)
    ensures Tidy(Runs(v, attempts))
  {
    if attempts != [] {
      var n := |attempts| - 1;
      TidyAlways(v, attempts[..n]);
      TidyKept(Runs(v, attempts[..n]), attempts[n].input, attempts[n].budget);
    }
  }

  /** Some run made its link inside the release. */
  predicate EverEntered(v: Volume, attempts: seq<Attempt>, name: string) {
    attempts != [] &&
    (var n := |attempts| - 1;
     var w, i := Runs(v, attempts[..n]), attempts[n].input;
     EverEntered(v, attempts[..n], name) || (Enters(w, i, attempts[n].budget) && Target(w, i) == name))
  }

  /** A node and what it may become: the same, or with more entries. */
  predicate Grown(before: Node, after: Node, more: bool) {
    if more then before.Directory? && after.Directory? && before.files.Keys < after.files.Keys else after == before
  }

  lemma EntersGrows(w: Volume, i: Input, budget: nat, name: string)
    requires name in w.releases && !Hidden(name)
    ensures var after := Run(w, i, budget).0;
            name in after.releases
            && Grown(w.releases[name], after.releases[name], Enters(w, i, budget) && Target(w, i) == name)
  {
    EveryCutKept(w, i, budget);
    if Enters(w, i, budget) && Target(w, i) == name {
      EnteredDirectory(w, i);
      var files := w.releases[name].files;
      assert EntryName(i.revision) in files[EntryName(i.revision) := IrregularFile];
    }
  }

  /** A release, once in place, is never removed, and over any number of runs it stays what
      it is exactly when none of them made its link inside it; otherwise it holds more. */
  lemma {:induction false} ReleasesChangeIffEntered(v: Volume, attempts: seq<Attempt>, name: string)
    requires name in v.releases && !Hidden(name)
    ensures name in Runs(v, attempts).releases
    ensures Grown(v.releases[name], Runs(v, attempts).releases[name], EverEntered(v, attempts, name))
  {
    if attempts != [] {
      var n := |attempts| - 1;
      ReleasesChangeIffEntered(v, attempts[..n], name);
      EntersGrows(Runs(v, attempts[..n]), attempts[n].input, attempts[n].budget, name);
    }
  }

  /** A release with a third entry is never rid of it: its revision is blocked for good. */
  lemma SpoiledForGood(v: Volume, attempts: seq<Attempt>, later: Input, entry: FileName)
    requires later.revision in v.releases && v.releases[later.revision].Directory?
    requires entry.OtherFile? && entry in v.releases[later.revision].files
    ensures Blocked(Runs(v, attempts), later)
  {
    if RevisionValid(later.revision) {
      ReleasesChangeIffEntered(v, attempts, later.revision);
      var node := Runs(v, attempts).releases[later.revision];
      assert entry in node.files.Keys;
      assert !Matches(node, later.readme, Line(later));
    }
  }

  /** In a volume that was tidy to begin with, no release is ever changed or removed. */
  lemma {:induction false} ReleasesNeverChange(v: Volume, attempts: seq<Attempt>, name: string)
    requires Tidy(v) && name in v.releases && !Hidden(name)
    ensures name in Runs(v, attempts).releases && Runs(v, attempts).releases[name] == v.releases[name]
  {
    if attempts != [] {
      var n := |attempts| - 1;
      ReleasesNeverChange(v, attempts[..n], name);
      TidyAlways(v, attempts[..n]);
      TidyReleasesKept(Runs(v, attempts[..n]), attempts[n].input, attempts[n].budget);
    }
  }

  /** The last attempt of a process that touched its link: made and left it, or renamed it. */
  predicate LinkHeld(v: Volume, attempts: seq<Attempt>, pid: nat) {
    if attempts == [] then pid in v.links
    else
      var n := |attempts| - 1;
      var w, i, budget := Runs(v, attempts[..n]), attempts[n].input, attempts[n].budget;
      if i.pid == pid && KilledAtLink(w, i, budget) then true
      else if i.pid == pid && Promotes(w, i, budget) then false
      else LinkHeld(v, attempts[..n], pid)
  }

  /** Over any number of runs, a process finds a link of its own exactly when the last of its
      runs to make or rename one was killed in between, or none did and there was one at first. */
  lemma {:induction false} LeftoverIffLost(v: Volume, attempts: seq<Attempt>, pid: nat)
    ensures pid in Runs(v, attempts).links <==> LinkHeld(v, attempts, pid)
  {
    if attempts != [] {
      var n := |attempts| - 1;
      LeftoverIffLost(v, attempts[..n], pid);
      RunLeaves(Runs(v, attempts[..n]), attempts[n].input, attempts[n].budget);
    }
  }

  /** In a tidy volume a leftover link is for good: it is never removed, runs with its process
      id never complete, and they never move the pointer. */
  lemma {:induction false} LeftoverLinkWedges(v: Volume, attempts: seq<Attempt>, i: Input, budget: nat)
    requires Tidy(v) && i.pid in v.links
    ensures i.pid in Runs(v, attempts).links
    ensures Run(Runs(v, attempts), i, budget).1 != Done
    ensures Run(Runs(v, attempts), i, budget).0.current == Runs(v, attempts).current
  {
    TidyLinkStays(v, attempts, i.pid);
    TidyAlways(v, attempts);
    TidyCollides(Runs(v, attempts), i);
    RunLeaves(Runs(v, attempts), i, budget);
  }

  lemma {:induction false} TidyLinkStays(v: Volume, attempts: seq<Attempt>, pid: nat)
    requires Tidy(v) && pid in v.links
    ensures pid in Runs(v, attempts).links
  {
    if attempts != [] {
      var n := |attempts| - 1;
      var w := Runs(v, attempts[..n]);
      TidyLinkStays(v, attempts[..n], pid);
      TidyAlways(v, attempts[..n]);
      RunLeaves(w, attempts[n].input, attempts[n].budget);
      if attempts[n].input.pid == pid {
        TidyCollides(w, attempts[n].input);
      }
    }
  }

  // ---- the pointer ------------------------------------------------------------------------------------

  /** The pointer does not dangle, and neither it nor a leftover link names a hidden entry. */
  predicate PointerResolves(v: Volume) {
    && (v.current.Some? ==> !Hidden(v.current.value) && v.current.value in v.releases)
    && forall pid :: pid in v.links ==> !Hidden(v.links[pid])
  }

  /** The pointer is absent or resolves to a complete release. */
  predicate PointerSound(sha256: seq<Byte> -> seq<Byte>, v: Volume) {
    PointerResolves(v) && (v.current.Some? ==> Complete(sha256, v.releases[v.current.value]))
  }

  /** What a run makes of a pointer's soundness: an entered release is spoiled, and so is a
      pointer that names it; a promoted own release is sound if its checksum was computed. */
  predicate SoundAfter(sha256: seq<Byte> -> seq<Byte>, v: Volume, i: Input, budget: nat, before: bool) {
    if Enters(v, i, budget) && (Promotes(v, i, budget) || v.current == Some(Target(v, i))) then false
    else if Promotes(v, i, budget) then i.digest == sha256(i.readme)
    else before
  }

  lemma PointerResolvesAfterRun(v: Volume, i: Input, budget: nat)
    requires PointerResolves(v)
    ensures PointerResolves(Run(v, i, budget).0)
  {
    RunLeaves(v, i, budget);
    EveryCutKept(v, i, budget);
    if Promotes(v, i, budget) {
      if i.pid in v.links {
        EnteredTarget(x => x, v, i, budget);
      } else {
        LateResolves(v, i, budget);
      }
    }
  }

  /** One run, killed or not: a pointer that resolves goes on resolving, and this is exactly
      when it is sound afterwards. */
  lemma PointerSoundAfterRun(sha256: seq<Byte> -> seq<Byte>, v: Volume, i: Input, budget: nat)
    requires PointerResolves(v)
    ensures var after := Run(v, i, budget).0;
            && PointerResolves(after)
            && (PointerSound(sha256, after) <==> SoundAfter(sha256, v, i, budget, PointerSound(sha256, v)))
  {
    PointerResolvesAfterRun(v, i, budget);
    RunLeaves(v, i, budget);
    EveryCutKept(v, i, budget);
    if Enters(v, i, budget) {
      EnteredTarget(sha256, v, i, budget);
    } else if Promotes(v, i, budget) {
      LateResolves(v, i, budget);
      CompleteWhenHashed(sha256, Run(v, i, budget).0, i);
    }
  }

  predicate SoundAfterAll(sha256: seq<Byte> -> seq<Byte>, v: Volume, attempts: seq<Attempt>) {
    if attempts == [] then PointerSound(sha256, v)
    else
      var n := |attempts| - 1;
      SoundAfter(sha256, Runs(v, attempts[..n]), attempts[n].input, attempts[n].budget,
                 SoundAfterAll(sha256, v, attempts[..n]))
  }

  /** Over any number of runs and kills the pointer never dangles, and it is absent or
      resolves to a complete two-file release exactly when the last run that moved it had
      computed its checksum and entered no release, and no run has entered it since. */
  lemma {:induction false} PointerSoundIff(sha256: seq<Byte> -> seq<Byte>, v: Volume, attempts: seq<Attempt>)
    requires PointerResolves(v)
    ensures PointerResolves(Runs(v, attempts))
    ensures PointerSound(sha256, Runs(v, attempts)) <==> SoundAfterAll(sha256, v, attempts)
  {
    if attempts != [] {
      var n := |attempts| - 1;
      PointerSoundIff(sha256, v, attempts[..n]);
      PointerSoundAfterRun(sha256, Runs(v, attempts[..n]), attempts[n].input, attempts[n].budget);
    }
  }

  /** In a tidy volume, as long as every checksum is computed, the pointer is sound whatever
      is killed. */
  lemma {:induction false} PointerAlwaysSound(sha256: seq<Byte> -> seq<Byte>, v: Volume, attempts: seq<Attempt>)
    requires Tidy(v) && PointerSound(sha256, v)
    requires forall k :: 0 <= k < |attempts| ==> attempts[k].input.digest == sha256(attempts[k].input.readme)
    ensures PointerSound(sha256, Runs(v, attempts))
  {
    if attempts != [] {
      var n := |attempts| - 1;
      var w := Runs(v, attempts[..n]);
      PointerAlwaysSound(sha256, v, attempts[..n]);
      TidyAlways(v, attempts[..n]);
      TidyReleasesKept(w, attempts[n].input, attempts[n].budget);
      PointerSoundAfterRun(sha256, w, attempts[n].input, attempts[n].budget);
    }
  }

  /** Without a checksum a first run still completes, and its pointer is not sound. */
  lemma UnhashedRunCompletes(sha256: seq<Byte> -> seq<Byte>, readme: seq<Byte>)
    returns (v: Volume, i: Input, budget: nat)
    requires sha256(readme) != []
    ensures i.readme == readme && i.digest != sha256(readme) && PointerSound(sha256, v)
    ensures Run(v, i, budget).1 == Done
    ensures Run(v, i, budget).0.current.Some? && !PointerSound(sha256, Run(v, i, budget).0)
  {
    v, i := Volume(map[], map[], None), Input("a", readme, [], 1, "x");
    budget := |Plan(v, i)|;
    assert Text.IsAlphanumeric("a"[0]) && !Blocked(v, i);
    CompletedRun(v, i, budget);
    CompleteIffHashed(sha256, v, i, budget);
  }

  // ---- the script --------------------------------------------------------------------------------------

  class Initializer {
    var volume: Volume
    /** File-system steps left before the container is killed. */
    var budget: nat

    constructor (volume: Volume, budget: nat)
      ensures this.volume == volume && this.budget == budget
    {
      this.volume := volume;
      this.budget := budget;
    }

    method Step(a: Action) returns (alive: bool)
      modifies this
      ensures Ran(Perform, old(volume), volume, [a], old(budget), budget, alive)
    {
      if budget == 0 {
        assert [a][..0] == [];
        return false;
      }
      PerformOne(Perform, volume, a);
      volume := Perform(volume, a);
      budget := budget - 1;
      return true;
    }

    method WriteFile(name: string, file: FileName, bytes: seq<Byte>) returns (alive: bool)
      modifies this
      ensures Ran(Perform, old(volume), volume, FileActions(name, file, bytes), old(budget), budget, alive)
    {
      ghost var v, b := volume, budget;
      ghost var actions := FileActions(name, file, bytes);
      FirstFileAction(name, file, bytes);
      alive := Step(CreateFile(name, file));
      if !alive {
        RanOut(Perform, v, volume, actions[..1], actions[1..], b);
        return;
      }
      for k := 0 to |bytes|
        invariant alive && Ran(Perform, v, volume, actions[..k + 1], b, budget, true)
      {
        ghost var w, rest := volume, budget;
        NextFileAction(name, file, bytes, k);
        alive := Step(AppendByte(name, file, bytes[k]));
        RanOn(Perform, v, w, volume, actions[..k + 1], [AppendByte(name, file, bytes[k])], b, rest, budget, alive);
        if !alive {
          RanOut(Perform, v, volume, actions[..k + 2], actions[k + 2..], b);
          return;
        }
      }
      ghost var w, rest := volume, budget;
      LastFileAction(name, file, bytes);
      alive := Step(FileMode(name, file, MODE_0444));
      RanOn(Perform, v, w, volume, actions[..|bytes| + 1], [FileMode(name, file, MODE_0444)], b, rest, budget, alive);
    }

    /** mktemp, the copied README, and its checksum file. */
    method Stage(i: Input) returns (alive: bool)
      modifies this
      ensures Ran(Perform, old(volume), volume, StageActions(i), old(budget), budget, alive)
    {
      ghost var v, b := volume, budget;
      var c := Candidate(i);
      ghost var make := [MakeDirectory(c)];
      ghost var first, second := FileActions(c, Readme, i.readme), FileActions(c, Manifest, Line(i));
      alive := Step(MakeDirectory(c));
      if !alive {
        RanOut(Perform, v, volume, make, first, b);
        RanOut(Perform, v, volume, make + first, second, b);
        return;
      }
      ghost var w, rest := volume, budget;
      alive := WriteFile(c, Readme, i.readme);
      RanOn(Perform, v, w, volume, make, first, b, rest, budget, alive);
      if !alive {
        RanOut(Perform, v, volume, make + first, second, b);
        return;
      }
      w, rest := volume, budget;
      alive := WriteFile(c, Manifest, Line(i));
      RanOn(Perform, v, w, volume, make + first, second, b, rest, budget, alive);
    }

    /** Two steps in a row. */
    method Both(first: Action, second: Action) returns (alive: bool)
      modifies this
      ensures Ran(Perform, old(volume), volume, [first, second], old(budget), budget, alive)
    {
      ghost var v, b := volume, budget;
      assert [first, second] == [first] + [second];
      alive := Step(first);
      if !alive {
        RanOut(Perform, v, volume, [first], [second], b);
        return;
      }
      ghost var w, rest := volume, budget;
      alive := Step(second);
      RanOn(Perform, v, w, volume, [first], [second], b, rest, budget, alive);
    }

    /** The exit trap: the candidate is removed unless its name was cleared. */
    method Trap(i: Input, armed: bool) returns (alive: bool)
      modifies this
      ensures var trap := if armed then [Remove(Candidate(i))] else [];
              Ran(Perform, old(volume), volume, trap, old(budget), budget, alive)
    {
      if armed {
        alive := Step(Remove(Candidate(i)));
      } else {
        alive := true;
      }
    }

    /** The link, its promotion, and the exit trap, once the release is in place. */
    method Point(i: Input, armed: bool, ghost v: Volume) returns (exit: Exit)
      requires volume == PlacedVolume(v, i)
      modifies this
      ensures var tail := PointActions(v, i) + if armed then [Remove(Candidate(i))] else [];
              Ran(Perform, old(volume), volume, tail, old(budget), budget, exit != Killed)
      ensures exit != Killed ==> exit == if Collides(v, i) then Failed else Done
    {
      ghost var b, w0 := budget, volume;
      ghost var point := PointActions(v, i);
      ghost var trap := if armed then [Remove(Candidate(i))] else [];
      var fails := false;
      var alive := true;
      if i.pid !in volume.links {
        alive := Both(Link(i.pid, i.revision), Promote(i.pid));
      } else if Enterable(volume, i) {
        alive := Both(LinkInto(volume.links[i.pid], EntryName(i.revision)), Promote(i.pid));
      } else {
        fails := true;
      }
      if !alive {
        RanOut(Perform, w0, volume, point, trap, b);
        return Killed;
      }
      ghost var w, rest := volume, budget;
      alive := Trap(i, armed);
      RanOn(Perform, w0, w, volume, point, trap, b, rest, budget, alive);
      return if !alive then Killed else if fails then Failed else Done;
    }

    /** Placement and everything after it, from a staged candidate. */
    method PlaceAndPoint(i: Input, ghost v: Volume) returns (exit: Exit)
      requires Startable(v, i) && !Differs(v, i) && volume == WithNode(v, Candidate(i), Staged(i, MODE_0700))
      modifies this
      ensures Ran(Perform, old(volume), volume, PlaceActions(v, i) + (PointActions(v, i) + TrapActions(v, i)),
                  old(budget), budget, exit != Killed)
      ensures exit != Killed ==> exit == if Collides(v, i) then Failed else Done
    {
      ghost var staged, b := volume, budget;
      ghost var tail := PointActions(v, i) + TrapActions(v, i);
      PlacingKept(v, i);
      var present := i.revision in volume.releases;
      var alive := true;
      if !present {
        alive := Both(DirectoryMode(Candidate(i), MODE_0555), Rename(Candidate(i), i.revision));
      }
      if !alive {
        RanOut(Perform, staged, volume, PlaceActions(v, i), tail, b);
        return Killed;
      }
      ghost var w, rest := volume, budget;
      assert Cut(PlaceActions(v, i), b) == PlaceActions(v, i);
      exit := Point(i, present, v);
      RanOn(Perform, staged, w, volume, PlaceActions(v, i), tail, b, rest, budget, exit != Killed);
    }

    /** The whole script, under the publisher lock. */
    method Initialize(i: Input) returns (exit: Exit)
      modifies this
      ensures (volume, exit) == Run(old(volume), i, old(budget))
    {
      ghost var v, b := volume, budget;
      if !RevisionValid(i.revision) || Candidate(i) in volume.releases {
        return Failed;
      }
      var alive := Stage(i);
      ghost var rest := Plan(v, i)[|StageActions(i)|..];
      assert Plan(v, i) == StageActions(i) + rest;
      if !alive {
        RanOut(Perform, v, volume, StageActions(i), rest, b);
        return Killed;
      }
      StagingDone(v, i);
      assert Cut(StageActions(i), b) == StageActions(i);
      ghost var w, left := volume, budget;
      if i.revision in volume.releases && !Matches(volume.releases[i.revision], i.readme, Line(i)) {
        alive := Trap(i, true);
        RanOn(Perform, v, w, volume, StageActions(i), rest, b, left, budget, alive);
        return if alive then Failed else Killed;
      }
      exit := PlaceAndPoint(i, v);
      RanOn(Perform, v, w, volume, StageActions(i), rest, b, left, budget, exit != Killed);
    }
  }
}
