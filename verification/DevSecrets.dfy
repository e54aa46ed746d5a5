/** Generation of the development secret inventory: files are written to a temporary
    directory, validated there, and renamed one by one into the destination. Every
    system call may fail, and a kill may fall between any two of them. */
module DevSecrets {
  import opened Wrappers
  import opened Base64
  import opened SecretFiles
  import KeyRings
  import Passwords
  import StrictJson

  const MODE_0700: nat := 7 * 64
  const RING_MAXIMUM := 64 * 1024

  /** What lstat finds at a path; links and other files are Other. */
  datatype Node = Directory(mode: nat, files: Volume) | Other

  /** What a URL is parsed into; without user information there is no password. */
  datatype Url = Url(scheme: string, password: Option<seq<Byte>>, host: string, path: string, fragment: string)

  /** What Go's libraries do: print and lex JSON, parse URLs, and fold member names. */
  datatype Library = Library(
    marshal: StrictJson.Json -> seq<Byte>,
    lex: seq<Byte> -> Option<StrictJson.Json>,
    parseUrl: seq<Byte> -> Option<Url>,
    fold: StrictJson.FoldIndex
  )

  /** The order in which files are generated. */
  const GENERATED: seq<Name> := DATABASE_PASSWORDS + [
    RedisPassword, RedisUrl, ProviderMasterKeyring, ApiKeyPepperRing, CsrfSecretRing, SessionSecret
  ]

  // ---- validation ------------------------------------------------------------------

  function Password(files: Volume, name: Name): Result<seq<Byte>> {
    Passwords.SimpleSecret(Contents(files, name))
  }

  /** Readable passwords, no two alike. */
  predicate PasswordsDistinct(read: Name -> Result<seq<Byte>>, names: seq<Name>) {
    && (forall i :: 0 <= i < |names| ==> read(names[i]).Ok?)
    && (forall i, j :: 0 <= i < j < |names| ==> read(names[i]) != read(names[j]))
  }

  /** ReadURISecret with the one scheme redis. */
  function UriSecret(r: Library, file: seq<Byte>): Option<Url> {
    match Passwords.SimpleSecret(file)
    case Rejected => None
    case Ok(text) =>
      match r.parseUrl(text)
      case None => None
      case Some(url) => if url.scheme != "redis" || url.host == "" || url.fragment != "" then None else Some(url)
  }

  /** The parts of a URL by which the services reach Redis. */
  predicate NamesRedis(url: Url, password: seq<Byte>) {
    url.password == Some(password) && url.host == "redis:6379" && url.path == "/0"
  }

  predicate UrlReadsBack(r: Library, file: seq<Byte>, password: seq<Byte>) {
    UriSecret(r, file).Some? && NamesRedis(UriSecret(r, file).value, password)
  }

  predicate RedisContract(r: Library, files: Volume) {
    && Password(files, RedisPassword).Ok?
    && Passwords.MatchesTrim(Password(files, RedisPassword).value)
    && UrlReadsBack(r, Contents(files, RedisUrl), Password(files, RedisPassword).value)
  }

  function AsText(file: seq<Byte>): string {
    seq(|file|, i requires 0 <= i < |file| => file[i] as char)
  }

  /** ReadBase64Key accepts the file. */
  predicate IsKeyFile(file: seq<Byte>) {
    Passwords.SimpleSecret(file).Ok? && KeyCheck(AsText(Passwords.SimpleSecret(file).value))
  }

  /** The document of a ring file, if it can be read and lexed. */
  function RingFileDocument(r: Library, file: seq<Byte>): Option<StrictJson.Json> {
    match Passwords.SecretBytes(file, RING_MAXIMUM)
    case Rejected => None
    case Ok(contents) => r.lex(contents)
  }

  /** ReadKeyRing or ReadProviderKeyRing accepts the file. */
  ghost predicate IsRingFile(r: Library, file: seq<Byte>, provider: bool) {
    RingFileDocument(r, file).Some? && KeyRings.IsRing(RingFileDocument(r, file).value, provider)
  }

  ghost predicate KeysReadable(r: Library, files: Volume) {
    && IsRingFile(r, Contents(files, ProviderMasterKeyring), true)
    && IsRingFile(r, Contents(files, ApiKeyPepperRing), false)
    && IsKeyFile(Contents(files, SessionSecret))
    && IsRingFile(r, Contents(files, CsrfSecretRing), false)
  }

  predicate Protected(files: Volume) {
    && files.Keys == Names(INVENTORY)
    && forall name :: name in files ==> files[name].File? && files[name].mode == MODE_0600
  }

  ghost predicate Valid(r: Library, node: Node) {
    && node.Directory? && node.mode == MODE_0700
    && Protected(node.files)
    && PasswordsDistinct(name => Password(node.files, name), DATABASE_PASSWORDS)
    && RedisContract(r, node.files)
    && KeysReadable(r, node.files)
  }

  /** The duplicate check over the database passwords. */
  method CheckPasswords(read: Name -> Result<seq<Byte>>, order: seq<Name>) returns (accepted: bool)
    ensures accepted <==> PasswordsDistinct(read, order)
  {
    var seen: map<seq<Byte>, Name> := map[];
    for k := 0 to |order|
      invariant PasswordsDistinct(read, order[..k])
      invariant forall v :: v in seen <==> exists i :: 0 <= i < k && read(order[i]) == Ok(v)
    {
      var secret := read(order[k]);
      if secret.Rejected? || secret.value in seen {
        return false;
      }
      seen := seen[secret.value := order[k]];
    }
    assert order[..|order|] == order;
    return true;
  }

  /** Distinctness does not depend on the order of the names. */
  lemma OrderIsIrrelevant(read: Name -> Result<seq<Byte>>, a: seq<Name>, b: seq<Name>)
    requires Distinct(a) && Distinct(b) && Names(a) == Names(b) && PasswordsDistinct(read, a)
    ensures PasswordsDistinct(read, b)
  {
    forall i | 0 <= i < |b| ensures read(b[i]).Ok? {
      assert b[i] in Names(a);
    }
    forall i, j | 0 <= i < j < |b| ensures read(b[i]) != read(b[j]) {
      assert b[i] in Names(a) && b[j] in Names(a);
      var k :| 0 <= k < |a| && a[k] == b[i];
      var l :| 0 <= l < |a| && a[l] == b[j];
    }
  }

  /** ValidateDevSecrets, whatever the iteration order of the settings. */
  method ValidateDevSecrets(r: Library, node: Node, order: seq<Name>) returns (accepted: bool)
    requires Distinct(order) && Names(order) == Names(DATABASE_PASSWORDS)
    ensures accepted <==> Valid(r, node)
  {
    if node.Other? || node.mode != MODE_0700 || !Protected(node.files) {
      return false;
    }
    var read := name => Password(node.files, name);
    var distinct := CheckPasswords(read, order);
    DatabasePasswordsDistinct();
    if !distinct {
      if PasswordsDistinct(read, DATABASE_PASSWORDS) {
        OrderIsIrrelevant(read, DATABASE_PASSWORDS, order);
      }
      return false;
    }
    OrderIsIrrelevant(read, order, DATABASE_PASSWORDS);
    if !RedisContract(r, node.files) {
      return false;
    }
    accepted := CheckKeys(r, node.files);
  }

  /** The rings and the session key, in the order of the code. */
  method CheckKeys(r: Library, files: Volume) returns (accepted: bool)
    ensures accepted <==> KeysReadable(r, files)
  {
    accepted := CheckRing(r, Contents(files, ProviderMasterKeyring), true);
    if !accepted {
      return;
    }
    accepted := CheckRing(r, Contents(files, ApiKeyPepperRing), false);
    if !accepted || !IsKeyFile(Contents(files, SessionSecret)) {
      return false;
    }
    accepted := CheckRing(r, Contents(files, CsrfSecretRing), false);
  }

  method CheckRing(r: Library, file: seq<Byte>, provider: bool) returns (accepted: bool)
    ensures accepted <==> IsRingFile(r, file, provider)
  {
    var document := RingFileDocument(r, file);
    if document.None? {
      return false;
    }
    var ring := KeyRings.ReadRing(r.fold, document.value, provider);
    return ring.Ok?;
  }

  lemma DatabasePasswordsDistinct()
    ensures Distinct(DATABASE_PASSWORDS)
  {
  }

  // ---- directories -----------------------------------------------------------------------

  function NewFile(bytes: seq<Byte>): Entry {
    File(bytes, MODE_0600, 0, 0)
  }

  /** A directory of the given files only. */
  function FilesOf(contents: Name -> seq<Byte>, names: seq<Name>): Volume {
    map name | name in names :: NewFile(contents(name))
  }

  function WithFile(directory: Node, name: Name, bytes: seq<Byte>): Node
    requires directory.Directory?
  {
    directory.(files := directory.files[name := NewFile(bytes)])
  }

  function Holding(contents: Name -> seq<Byte>, names: seq<Name>): Node {
    Directory(MODE_0700, FilesOf(contents, names))
  }

  /** The destination after so many renames. */
  function Moved(contents: Name -> seq<Byte>, n: nat): Node
    requires n <= |INVENTORY|
  {
    Holding(contents, INVENTORY[..n])
  }

  lemma InventoryOnce()
    ensures Distinct(INVENTORY) && |INVENTORY| == 11
  {
  }

  lemma GeneratedOnce()
    ensures Distinct(GENERATED) && |GENERATED| == 11
  {
  }

  lemma ListsAgree(name: Name)
    ensures name in GENERATED <==> name in INVENTORY
  {
    assert name in INVENTORY <==> !name.Foreign?;
    assert name in GENERATED <==> !name.Foreign?;
  }

  lemma InventoryDistinct()
    ensures Distinct(INVENTORY) && Distinct(GENERATED) && Names(GENERATED) == Names(INVENTORY)
    ensures |INVENTORY| == |GENERATED| == 11
  {
    InventoryOnce();
    GeneratedOnce();
    forall name ensures name in GENERATED <==> name in INVENTORY {
      ListsAgree(name);
    }
  }

  /** An incomplete destination is rejected whatever the readers. */
  lemma IncompleteRejected(r: Library, contents: Name -> seq<Byte>, n: nat)
    requires n < |INVENTORY|
    ensures !Valid(r, Moved(contents, n))
  {
    InventoryDistinct();
    var name := INVENTORY[n];
    assert name !in INVENTORY[..n];
    assert name in Names(INVENTORY);
    assert name !in Moved(contents, n).files;
  }

  /** How a run that only validates ends. */
  ghost function Verdict(r: Library, node: Node): Exit {
    if Valid(r, node) then Ready else Invalid
  }

  /** What one run may make of the destination. */
  ghost predicate RunLeaves(r: Library, contents: Name -> seq<Byte>, before: Option<Node>, after: Option<Node>,
                            exit: Exit) {
    && (before.Some? ==> after == before)
    && (before.None? && after.Some? ==>
          exists n ::
            && 0 <= n <= |INVENTORY| && after.value == Moved(contents, n)
            && Verdict(r, Moved(contents, |INVENTORY|)) == Ready)
    && (exit == Ready ==> after.Some? && Verdict(r, after.value) == Ready)
  }

  /** At every crash point the destination is absent, or rejected, or complete: the
      bytes that were validated in the temporary directory. */
  lemma CrashPoints(r: Library, contents: Name -> seq<Byte>, before: Option<Node>, after: Option<Node>, exit: Exit)
    requires before.None? && RunLeaves(r, contents, before, after, exit)
    ensures after.None? || !Valid(r, after.value) || after.value == Moved(contents, |INVENTORY|)
    ensures after.Some? && after.value != Moved(contents, |INVENTORY|) ==> forall r' :: !Valid(r', after.value)
  {
    if after.Some? {
      var n :| 0 <= n <= |INVENTORY| && after.value == Moved(contents, n);
      if n < |INVENTORY| {
        forall r' ensures !Valid(r', after.value) {
          IncompleteRejected(r', contents, n);
        }
      }
    }
  }

  datatype Attempt = Attempt(contents: Name -> seq<Byte>, exit: Exit)

  /** States of the destination over any number of runs. */
  ghost predicate History(r: Library, attempts: seq<Attempt>, states: seq<Option<Node>>) {
    && |states| == |attempts| + 1
    && forall i :: 0 <= i < |attempts| ==>
          RunLeaves(r, attempts[i].contents, states[i], states[i + 1], attempts[i].exit)
  }

  lemma RunKeeps(r: Library, attempts: seq<Attempt>, states: seq<Option<Node>>, k: nat)
    requires History(r, attempts, states) && k < |attempts| && states[k].Some?
    ensures states[k + 1] == states[k]
    ensures attempts[k].exit == Ready ==> Valid(r, states[k].value)
  {
  }

  /** Once the destination exists no later run changes it. */
  lemma {:induction false} NeverOverwritten(r: Library, attempts: seq<Attempt>, states: seq<Option<Node>>,
                                            i: nat, j: nat)
    requires History(r, attempts, states) && i <= j < |states| && states[i].Some?
    ensures states[j] == states[i]
  {
    hide Valid;
    if i < j {
      NeverOverwritten(r, attempts, states, i, j - 1);
      RunKeeps(r, attempts, states, j - 1);
    }
  }

  /** And no later run succeeds unless what was there is valid. */
  lemma ReadyOnlyIfValid(r: Library, attempts: seq<Attempt>, states: seq<Option<Node>>, i: nat, k: nat)
    requires History(r, attempts, states) && i <= k < |attempts| && states[i].Some? && attempts[k].exit == Ready
    ensures Valid(r, states[i].value)
  {
    NeverOverwritten(r, attempts, states, i, k);
    RunKeeps(r, attempts, states, k);
  }

  // ---- the generator ------------------------------------------------------------------------

  /** How a run ends: well, because validation rejected what it read, because a call failed,
      or by a kill. */
  datatype Exit = Ready | Invalid | Failed | Killed

  datatype Fate = Works | Fails

  predicate AllWork(fates: seq<Fate>) {
    forall i :: 0 <= i < |fates| ==> fates[i] == Works
  }

  /** System calls up to and without the mkdir of the destination, and in a whole run; a
      run that fails at its last call makes one more to clean up. */
  const BEFORE_MKDIR: nat := 38
  const CALLS: nat := 51

  /** At most so many calls were made, and exactly so many if none failed and no kill came. */
  predicate Spent(before: seq<Fate>, after: seq<Fate>, calls: nat, killed: bool, works: bool) {
    && (killed ==> after == []) && |after| + calls >= |before|
    && (AllWork(before) ==>
          && AllWork(after)
          && if killed then |before| < calls else works && |after| + calls == |before|)
  }

  /** The destination so many calls after the decision to publish: one mkdir, then renames. */
  function Renamed(contents: Name -> seq<Byte>, names: seq<Name>, calls: nat): Option<Node> {
    if calls == 0 then None
    else if calls > |names| then Some(Holding(contents, names))
    else Some(Holding(contents, names[..calls - 1]))
  }

  /** The destination when a run in which no call fails is killed after so many of them. */
  function AtKill(contents: Name -> seq<Byte>, calls: nat): Option<Node> {
    if calls <= BEFORE_MKDIR then None else Renamed(contents, INVENTORY, calls - BEFORE_MKDIR)
  }

  /** How a run ends and what it leaves if it found no destination and no call fails. */
  predicate ExactRun(contents: Name -> seq<Byte>, calls: nat, destination: Option<Node>, exit: Exit) {
    if exit == Invalid then destination == None && calls > BEFORE_MKDIR
    else destination == AtKill(contents, calls) && exit == if calls < CALLS then Killed else Ready
  }

  class Generator {
    var destination: Option<Node>
    var temporary: Option<Node>
    /** Results of the system calls to come; none left means killed. */
    var fates: seq<Fate>

    constructor (destination: Option<Node>, fates: seq<Fate>)
      ensures this.destination == destination && this.fates == fates && temporary == None
    {
      this.destination := destination;
      this.fates := fates;
      this.temporary := None;
    }

    method Call() returns (killed: bool, works: bool)
      modifies this`fates
      ensures killed == (old(fates) == []) && Spent(old(fates), fates, 1, killed, works)
    {
      if fates == [] {
        return true, false;
      }
      works := fates[0] == Works;
      fates := fates[1..];
      return false, works;
    }

    /** The deferred removal of the temporary directory, on the way out with an error. */
    method Cleanup(error: Exit) returns (exit: Exit)
      modifies this`fates, this`temporary
      ensures exit == if old(fates) == [] then Killed else error
      ensures Spent(old(fates), fates, 1, old(fates) == [], true)
    {
      var killed, works := Call();
      if killed {
        return Killed;
      }
      if works {
        temporary := None;
      }
      return error;
    }

    /** writeNewSecret: create exclusively, write, close. */
    method WriteNewSecret(name: Name, bytes: seq<Byte>) returns (killed: bool, works: bool)
      requires temporary.Some? && temporary.value.Directory? && name !in temporary.value.files
      modifies this`fates, this`temporary
      ensures temporary == old(temporary)
           || exists n :: 0 <= n <= |bytes| && temporary == Some(WithFile(old(temporary).value, name, bytes[..n]))
      ensures !killed && works ==> temporary == Some(WithFile(old(temporary).value, name, bytes))
      ensures Spent(old(fates), fates, 3, killed, works)
    {
      var directory := temporary.value;
      killed, works := Call();
      if killed || !works {
        return;
      }
      assert bytes[..0] == [] && bytes[..|bytes|] == bytes;
      temporary := Some(WithFile(directory, name, []));
      killed, works := Call();
      if killed || !works {
        var written: nat :| written <= |bytes|;
        temporary := Some(WithFile(directory, name, bytes[..written]));
        return;
      }
      temporary := Some(WithFile(directory, name, bytes));
      killed, works := Call();
    }

    /** Fills the temporary directory. */
    method WriteAll(contents: Name -> seq<Byte>, names: seq<Name>) returns (killed: bool, works: bool)
      requires Distinct(names) && temporary == Some(Holding(contents, []))
      modifies this`fates, this`temporary
      ensures !killed && works ==> temporary == Some(Holding(contents, names))
      ensures Spent(old(fates), fates, 3 * |names|, killed, works)
    {
      killed, works := false, true;
      for k := 0 to |names|
        invariant !killed && works
        invariant temporary == Some(Holding(contents, names[..k]))
        invariant Spent(old(fates), fates, 3 * k, killed, works)
      {
        OneMore(contents, names, k);
        killed, works := WriteNewSecret(names[k], contents(names[k]));
        if killed || !works {
          return;
        }
      }
      assert names[..|names|] == names;
    }

    /** Renames the files into the destination, one by one. */
    method MoveAll(contents: Name -> seq<Byte>, names: seq<Name>) returns (killed: bool, works: bool)
      requires Distinct(names)
      requires destination == Some(Holding(contents, [])) && temporary == Some(Holding(contents, names))
      modifies this
      ensures exists n :: 0 <= n <= |names| && destination == Some(Holding(contents, names[..n]))
      ensures !killed && works ==>
                destination == Some(Holding(contents, names)) && temporary == Some(Holding(contents, []))
      ensures Spent(old(fates), fates, |names|, killed, works)
      ensures AllWork(old(fates)) && killed ==> destination == Some(Holding(contents, names[..|old(fates)|]))
    {
      killed, works := false, true;
      assert names[..0] == [] && names[0..] == names;
      for k := 0 to |names|
        invariant !killed && works
        invariant destination == Some(Holding(contents, names[..k]))
        invariant temporary == Some(Holding(contents, names[k..]))
        invariant Spent(old(fates), fates, k, killed, works)
      {
        killed, works := Call();
        if killed || !works {
          return;
        }
        OneMoved(contents, names, k);
        destination, temporary := Some(Received(destination.value, temporary.value, names[k])),
                                  Some(Without(temporary.value, names[k]));
      }
      assert names[..|names|] == names && names[|names|..] == [];
    }

    /** The generator for given contents; a kill may end it after any system call. */
    method Generate(r: Library, contents: Name -> seq<Byte>, order: seq<Name>) returns (exit: Exit)
      requires Distinct(order) && Names(order) == Names(DATABASE_PASSWORDS)
      modifies this
      ensures RunLeaves(r, contents, old(destination), destination, exit)
      ensures exit == Invalid && old(destination).None? ==> Verdict(r, Holding(contents, INVENTORY)) == Invalid
      ensures AllWork(old(fates)) && old(destination).Some? ==>
                exit == if |old(fates)| < 2 then Killed else Verdict(r, old(destination).value)
      ensures AllWork(old(fates)) && old(destination).None? ==> ExactRun(contents, |old(fates)|, destination, exit)
      ensures old(destination).None? && exit == Ready ==> destination == Some(Holding(contents, INVENTORY))
      ensures (exit == Killed ==> fates == []) && |fates| + CALLS + 1 >= |old(fates)|
    {
      hide Valid;
      var killed, works := Call();
      if killed {
        return Killed;
      }
      if !works {
        return Failed;
      }
      if destination.Some? {
        killed, works := Call();
        if killed {
          return Killed;
        }
        var valid := ValidateDevSecrets(r, destination.value, order);
        return if !works then Failed else if valid then Ready else Invalid;
      }
      killed, works := Call();
      if killed {
        return Killed;
      }
      if !works {
        return Failed;
      }
      exit := CreateFresh(r, contents, order);
    }

    /** Writes, validates and publishes a new inventory. */
    method CreateFresh(r: Library, contents: Name -> seq<Byte>, order: seq<Name>) returns (exit: Exit)
      requires destination.None?
      requires Distinct(order) && Names(order) == Names(DATABASE_PASSWORDS)
      modifies this
      ensures RunLeaves(r, contents, None, destination, exit)
      ensures exit == Invalid ==> Verdict(r, Holding(contents, INVENTORY)) == Invalid
      ensures AllWork(old(fates)) ==> ExactRun(contents, |old(fates)| + 2, destination, exit)
      ensures exit == Ready ==> destination == Some(Holding(contents, INVENTORY))
      ensures (exit == Killed ==> fates == []) && |fates| + CALLS >= |old(fates)| + 1
    {
      hide Valid;
      var killed, works := Call();
      if killed {
        return Killed;
      }
      if !works {
        return Failed;
      }
      temporary := Some(Directory(MODE_0700, map[]));
      exit := Fill(r, contents, order);
      if exit == Killed {
        return;
      }
      if exit != Ready {
        exit := Cleanup(exit);
        return;
      }
      exit := PublishValidated(r, contents);
    }

    /** What has been validated in the temporary directory goes into the destination. */
    method PublishValidated(r: Library, contents: Name -> seq<Byte>) returns (exit: Exit)
      requires destination.None? && temporary == Some(Holding(contents, INVENTORY))
      requires Verdict(r, Holding(contents, INVENTORY)) == Ready
      modifies this
      ensures RunLeaves(r, contents, None, destination, exit) && exit != Invalid
      ensures AllWork(old(fates)) ==> ExactRun(contents, |old(fates)| + BEFORE_MKDIR, destination, exit)
      ensures exit == Ready ==> destination == Some(Holding(contents, INVENTORY))
      ensures (exit == Killed ==> fates == []) && |fates| + 14 >= |old(fates)|
    {
      InventoryOnce();
      exit := PublishInto(contents, INVENTORY);
      PublishedLeaves(r, contents, destination, exit);
    }

    /** chmod, the files, and their validation, in the temporary directory. */
    method Fill(r: Library, contents: Name -> seq<Byte>, order: seq<Name>) returns (exit: Exit)
      requires Distinct(order) && Names(order) == Names(DATABASE_PASSWORDS)
      requires temporary == Some(Directory(MODE_0700, map[]))
      modifies this`fates, this`temporary
      ensures exit == Ready ==> temporary == Some(Holding(contents, INVENTORY))
      ensures exit == Ready || exit == Invalid ==> exit == Verdict(r, Holding(contents, INVENTORY))
      ensures Spent(old(fates), fates, 35, exit == Killed, exit != Failed)
    {
      var killed, works := Call();
      if killed {
        return Killed;
      }
      if !works {
        return Failed;
      }
      InventoryDistinct();
      assert FilesOf(contents, []) == map[];
      killed, works := WriteAll(contents, GENERATED);
      if killed {
        return Killed;
      }
      if !works {
        return Failed;
      }
      SameFiles(contents);
      killed, works := Call();
      if killed {
        return Killed;
      }
      var valid := ValidateDevSecrets(r, temporary.value, order);
      return if !works then Failed else if valid then Ready else Invalid;
    }

    /** mkdir, the renames, and the removal of the emptied temporary directory. */
    method PublishInto(contents: Name -> seq<Byte>, names: seq<Name>) returns (exit: Exit)
      requires destination.None? && Distinct(names) && temporary == Some(Holding(contents, names))
      modifies this
      ensures PartlyMoved(contents, names, destination) && exit != Invalid
      ensures exit == Ready ==> destination == Some(Holding(contents, names))
      ensures AllWork(old(fates)) ==>
                && exit == (if |old(fates)| < |names| + 2 then Killed else Ready)
                && destination == Renamed(contents, names, |old(fates)|)
      ensures (exit == Killed ==> fates == []) && |fates| + |names| + 3 >= |old(fates)|
    {
      var killed, works := Call();
      if killed {
        return Killed;
      }
      if !works {
        exit := Cleanup(Failed);
        return;
      }
      destination := Some(Directory(MODE_0700, map[]));
      assert FilesOf(contents, []) == map[];
      killed, works := MoveAll(contents, names);
      if killed {
        return Killed;
      }
      if !works {
        exit := Cleanup(Failed);
        return;
      }
      killed, works := Call();
      if killed {
        return Killed;
      }
      if !works {
        exit := Cleanup(Failed);
        return;
      }
      temporary := None;
      return Ready;
    }
  }

  ghost predicate PartlyMoved(contents: Name -> seq<Byte>, names: seq<Name>, destination: Option<Node>) {
    destination.Some? ==> exists n :: 0 <= n <= |names| && destination == Some(Holding(contents, names[..n]))
  }

  lemma MovedAll(contents: Name -> seq<Byte>)
    ensures Moved(contents, |INVENTORY|) == Holding(contents, INVENTORY)
  {
    assert INVENTORY[..|INVENTORY|] == INVENTORY;
  }

  lemma KilledMoving(r: Library, contents: Name -> seq<Byte>, calls: nat, destination: Node)
    requires BEFORE_MKDIR < calls <= BEFORE_MKDIR + |INVENTORY| && Some(destination) == AtKill(contents, calls)
    ensures !Valid(r, destination)
  {
    var n := calls - BEFORE_MKDIR - 1;
    IncompleteRejected(r, contents, n);
    assert destination == Moved(contents, n);
  }

  lemma KilledMoved(contents: Name -> seq<Byte>, calls: nat)
    requires calls > BEFORE_MKDIR + |INVENTORY|
    ensures AtKill(contents, calls) == Some(Holding(contents, INVENTORY))
  {
  }

  /** Recovery after a kill. Before the mkdir nothing is there and a later run starts over;
      from the mkdir on no later run changes what is there, and until the last rename that is
      rejected and none ever succeeds; after it, it is the validated inventory. */
  lemma AfterKill(r: Library, contents: Name -> seq<Byte>, calls: nat, attempts: seq<Attempt>,
                  states: seq<Option<Node>>, k: nat)
    requires History(r, attempts, states) && k < |attempts| && states[0] == AtKill(contents, calls)
    ensures calls <= BEFORE_MKDIR ==> states[0] == None
    ensures calls > BEFORE_MKDIR ==> states[0].Some? && states[k + 1] == states[0]
    ensures BEFORE_MKDIR < calls <= BEFORE_MKDIR + |INVENTORY| ==>
              attempts[k].exit != Ready && !Valid(r, states[0].value)
    ensures calls > BEFORE_MKDIR + |INVENTORY| ==> states[0] == Some(Holding(contents, INVENTORY))
  {
    if calls > BEFORE_MKDIR {
      if calls <= BEFORE_MKDIR + |INVENTORY| {
        KilledMoving(r, contents, calls, states[0].value);
      } else {
        KilledMoved(contents, calls);
      }
      NeverOverwritten(r, attempts, states, 0, k);
      RunKeeps(r, attempts, states, k);
    }
  }

  lemma PublishedLeaves(r: Library, contents: Name -> seq<Byte>, destination: Option<Node>, exit: Exit)
    requires Verdict(r, Holding(contents, INVENTORY)) == Ready && PartlyMoved(contents, INVENTORY, destination)
    requires exit == Ready ==> destination == Some(Holding(contents, INVENTORY))
    ensures RunLeaves(r, contents, None, destination, exit)
  {
    MovedAll(contents);
    if destination.Some? {
      var n :| 0 <= n <= |INVENTORY| && destination == Some(Holding(contents, INVENTORY[..n]));
      assert destination.value == Moved(contents, n);
    }
  }

  lemma OneMore(contents: Name -> seq<Byte>, names: seq<Name>, k: nat)
    requires k < |names| && Distinct(names)
    ensures names[k] !in FilesOf(contents, names[..k])
    ensures FilesOf(contents, names[..k + 1]) == FilesOf(contents, names[..k])[names[k] := NewFile(contents(names[k]))]
  {
    assert names[..k + 1] == names[..k] + [names[k]];
  }

  lemma OneLess(contents: Name -> seq<Byte>, names: seq<Name>, k: nat)
    requires k < |names| && Distinct(names)
    ensures names[k] in FilesOf(contents, names[k..])
    ensures FilesOf(contents, names[k..])[names[k]] == NewFile(contents(names[k]))
    ensures FilesOf(contents, names[k + 1..]) == FilesOf(contents, names[k..]) - {names[k]}
  {
    assert names[k..] == [names[k]] + names[k + 1..];
    assert names[k] !in names[k + 1..];
  }

  /** A rename from one directory into another. */
  function Received(to: Node, from: Node, name: Name): Node
    requires to.Directory? && from.Directory? && name in from.files
  {
    Directory(to.mode, to.files[name := from.files[name]])
  }

  function Without(directory: Node, name: Name): Node
    requires directory.Directory?
  {
    Directory(directory.mode, directory.files - {name})
  }

  lemma OneMoved(contents: Name -> seq<Byte>, names: seq<Name>, k: nat)
    requires k < |names| && Distinct(names)
    ensures names[k] in Holding(contents, names[k..]).files
    ensures Received(Holding(contents, names[..k]), Holding(contents, names[k..]), names[k])
         == Holding(contents, names[..k + 1])
    ensures Without(Holding(contents, names[k..]), names[k]) == Holding(contents, names[k + 1..])
  {
    OneMore(contents, names, k);
    OneLess(contents, names, k);
  }

  lemma SameFiles(contents: Name -> seq<Byte>)
    ensures FilesOf(contents, GENERATED) == FilesOf(contents, INVENTORY)
  {
    InventoryDistinct();
    assert forall name :: name in GENERATED <==> name in Names(GENERATED);
    assert forall name :: name in INVENTORY <==> name in Names(INVENTORY);
  }

  // ---- what the generator writes -----------------------------------------------------------

  /** A generated key as file bytes. */
  function KeyFile(random: seq<Byte>): seq<Byte> {
    EncodeShape(random);
    var text := Encode(random);
    seq(|text|, i requires 0 <= i < |text| => text[i] as int)
  }

  function KeyIdOf(name: Name): string {
    match name
    case ProviderMasterKeyring => "provider-dev-1"
    case ApiKeyPepperRing => "api-pepper-dev-1"
    case _ => "csrf-dev-1"
  }

  lemma KeyIdsValid(name: Name)
    ensures KeyRings.ValidKeyId(KeyIdOf(name))
  {
  }

  /** The printed Redis URL before and after the password, which is printed as it is when it
      consists of characters of the URL class. */
  const URL_START: seq<Byte> := [114, 101, 100, 105, 115, 58, 47, 47, 58]
  const URL_END: seq<Byte> := [64, 114, 101, 100, 105, 115, 58, 54, 51, 55, 57, 47, 48]

  function RedisUrlText(password: seq<Byte>): seq<Byte> {
    URL_START + password + URL_END
  }

  /** What is generated for a name, from 32 random bytes for each password and key. */
  function DrawnContents(r: Library, random: Name -> seq<Byte>, name: Name): seq<Byte> {
    match name
    case RedisUrl => RedisUrlText(Passwords.PasswordBytes(random(RedisPassword)))
    case ProviderMasterKeyring => r.marshal(KeyRings.ProviderDocument(KeyIdOf(name), random(name)))
    case ApiKeyPepperRing => r.marshal(KeyRings.RingDocument(KeyIdOf(name), random(name)))
    case CsrfSecretRing => r.marshal(KeyRings.RingDocument(KeyIdOf(name), random(name)))
    case SessionSecret => KeyFile(random(name))
    case Foreign(_) => []
    case _ => Passwords.PasswordBytes(random(name))
  }

  function FromRandom(r: Library, random: Name -> seq<Byte>): Name -> seq<Byte> {
    (name: Name) => DrawnContents(r, random, name)
  }

  /** 32 random bytes each, the database passwords' pairwise distinct. */
  ghost predicate Drawn(random: Name -> seq<Byte>) {
    && (forall name :: |random(name)| == 32)
    && (forall a, b :: a in DATABASE_PASSWORDS && b in DATABASE_PASSWORDS && a != b ==> random(a) != random(b))
  }

  /** A printed document reads back. */
  predicate ReadsBack(r: Library, document: StrictJson.Json) {
    RingFileDocument(r, r.marshal(document)) == Some(document)
  }

  /** A printed URL parses into its parts. */
  predicate UrlParses(r: Library, password: seq<Byte>) {
    r.parseUrl(RedisUrlText(password)) == Some(Url("redis", Some(password), "redis:6379", "/0", ""))
  }

  /** The libraries read back what is printed for 32 bytes. */
  ghost predicate Faithful(r: Library) {
    && (forall id: string, key: seq<Byte> :: KeyRings.ValidKeyId(id) && |key| == 32 ==>
          ReadsBack(r, KeyRings.RingDocument(id, key)) && ReadsBack(r, KeyRings.ProviderDocument(id, key)))
    && (forall random: seq<Byte> :: |random| == 32 ==> UrlParses(r, Passwords.PasswordBytes(random)))
  }

  lemma RingFileValid(r: Library, id: string, key: seq<Byte>)
    requires Faithful(r) && KeyRings.ValidKeyId(id) && |key| == 32
    ensures IsRingFile(r, r.marshal(KeyRings.RingDocument(id, key)), false)
    ensures IsRingFile(r, r.marshal(KeyRings.ProviderDocument(id, key)), true)
  {
    assert ReadsBack(r, KeyRings.RingDocument(id, key)) && ReadsBack(r, KeyRings.ProviderDocument(id, key));
    KeyRings.GeneratedIsRing(id, key);
  }

  lemma KeyFileValid(random: seq<Byte>)
    requires |random| == 32
    ensures IsKeyFile(KeyFile(random))
  {
    EncodeShape(random);
    Passwords.PrintableAccepted(KeyFile(random));
    assert AsText(KeyFile(random)) == Encode(random);
    assert EncodesKey(Encode(random), random);
    KeyCheckExact(Encode(random));
  }

  predicate IsPassword(name: Name) {
    name.PostgresClusterAdminPassword? || name.PostgresMigrationPassword? || name.PostgresGatewayPassword?
    || name.PostgresControlPlanePassword? || name.PostgresWorkerPassword? || name.RedisPassword?
  }

  lemma DatabasePasswordsAre(name: Name)
    requires name in DATABASE_PASSWORDS
    ensures IsPassword(name)
  {
  }

  predicate HoldsPasswords(files: Volume, random: Name -> seq<Byte>, name: Name) {
    IsPassword(name) ==> Contents(files, name) == Passwords.PasswordBytes(random(name))
  }

  lemma PasswordRead(files: Volume, random: Name -> seq<Byte>, name: Name)
    requires IsPassword(name) && HoldsPasswords(files, random, name) && |random(name)| == 32
    ensures Password(files, name) == Ok(Passwords.PasswordBytes(random(name)))
    ensures Passwords.MatchesTrim(Passwords.PasswordBytes(random(name)))
  {
    Passwords.GeneratedPasswordAccepted(random(name));
    Passwords.PasswordLanguage(Passwords.PasswordBytes(random(name)));
  }

  /** Passwords generated from 32 random bytes each, the database ones from distinct
      bytes, always pass the validation of the temporary directory. */
  lemma GeneratedPasswordsPass(files: Volume, random: Name -> seq<Byte>)
    requires Drawn(random) && forall name :: HoldsPasswords(files, random, name)
    ensures PasswordsDistinct(name => Password(files, name), DATABASE_PASSWORDS)
    ensures Password(files, RedisPassword) == Ok(Passwords.PasswordBytes(random(RedisPassword)))
    ensures Passwords.MatchesTrim(Passwords.PasswordBytes(random(RedisPassword)))
  {
    DatabasePasswordsDistinct();
    forall name | name in DATABASE_PASSWORDS ensures IsPassword(name) {
      DatabasePasswordsAre(name);
    }
    PasswordRead(files, random, RedisPassword);
    PasswordsRead(files, random, DATABASE_PASSWORDS);
  }

  lemma PasswordsRead(files: Volume, random: Name -> seq<Byte>, names: seq<Name>)
    requires Distinct(names) && forall name :: HoldsPasswords(files, random, name)
    requires forall name :: name in names ==> IsPassword(name) && |random(name)| == 32
    requires forall a, b :: a in names && b in names && a != b ==> random(a) != random(b)
    ensures PasswordsDistinct(name => Password(files, name), names)
  {
    forall i | 0 <= i < |names| ensures Password(files, names[i]) == Ok(Passwords.PasswordBytes(random(names[i]))) {
      PasswordRead(files, random, names[i]);
    }
    DistinctDrawsDistinct(random, names);
  }

  lemma DistinctDrawsDistinct(random: Name -> seq<Byte>, names: seq<Name>)
    requires Distinct(names) && forall name :: name in names ==> |random(name)| == 32
    requires forall a, b :: a in names && b in names && a != b ==> random(a) != random(b)
    ensures forall i, j :: 0 <= i < j < |names| ==>
              Passwords.PasswordBytes(random(names[i])) != Passwords.PasswordBytes(random(names[j]))
  {
    forall i, j | 0 <= i < j < |names|
      ensures Passwords.PasswordBytes(random(names[i])) != Passwords.PasswordBytes(random(names[j]))
    {
      assert random(names[i]) != random(names[j]);
      if Passwords.PasswordBytes(random(names[i])) == Passwords.PasswordBytes(random(names[j])) {
        Passwords.PasswordBytesInjective(random(names[i]), random(names[j]));
      }
    }
  }

  /** The files hold what was drawn for the name. */
  predicate HoldsDrawn(r: Library, random: Name -> seq<Byte>, files: Volume, name: Name) {
    !name.Foreign? ==> Contents(files, name) == DrawnContents(r, random, name)
  }

  lemma DrawnRing(r: Library, random: Name -> seq<Byte>, files: Volume, name: Name)
    requires Faithful(r) && |random(name)| == 32 && HoldsDrawn(r, random, files, name)
    requires name.ProviderMasterKeyring? || name.ApiKeyPepperRing? || name.CsrfSecretRing?
    ensures IsRingFile(r, Contents(files, name), name.ProviderMasterKeyring?)
  {
    hide KeyRings.IsRing, KeyRings.RingDocument, KeyRings.ProviderDocument, RingFileDocument;
    KeyIdsValid(name);
    RingFileValid(r, KeyIdOf(name), random(name));
  }

  lemma DrawnSession(r: Library, random: Name -> seq<Byte>)
    ensures DrawnContents(r, random, SessionSecret) == KeyFile(random(SessionSecret))
  {
  }

  lemma DrawnKey(r: Library, random: Name -> seq<Byte>, files: Volume)
    requires |random(SessionSecret)| == 32 && HoldsDrawn(r, random, files, SessionSecret)
    ensures IsKeyFile(Contents(files, SessionSecret))
  {
    DrawnSession(r, random);
    KeyFileValid(random(SessionSecret));
  }

  lemma DrawnKeysReadable(r: Library, random: Name -> seq<Byte>, files: Volume)
    requires Faithful(r) && Drawn(random) && forall name :: HoldsDrawn(r, random, files, name)
    ensures KeysReadable(r, files)
  {
    DrawnRing(r, random, files, ProviderMasterKeyring);
    DrawnRing(r, random, files, ApiKeyPepperRing);
    DrawnRing(r, random, files, CsrfSecretRing);
    DrawnKey(r, random, files);
  }

  lemma DrawnUrl(r: Library, random: Name -> seq<Byte>, files: Volume)
    requires Faithful(r) && |random(RedisPassword)| == 32 && HoldsDrawn(r, random, files, RedisUrl)
    ensures UrlReadsBack(r, Contents(files, RedisUrl), Passwords.PasswordBytes(random(RedisPassword)))
  {
    var password := Passwords.PasswordBytes(random(RedisPassword));
    assert UrlParses(r, password);
    Passwords.PasswordShape(random(RedisPassword));
    UrlIsSecret(password);
  }

  /** The printed URL is short, printable and without blanks, so the reader keeps it. */
  lemma UrlIsSecret(password: seq<Byte>)
    requires |password| < 4000 && forall i :: 0 <= i < |password| ==> Passwords.UrlByte(password[i])
    ensures Passwords.SimpleSecret(RedisUrlText(password)) == Ok(RedisUrlText(password))
  {
    AffixesPrintable();
    Passwords.PrintableAccepted(RedisUrlText(password));
  }

  lemma AffixesPrintable()
    ensures |URL_START| == 9 && forall i :: 0 <= i < |URL_START| ==> 0x21 <= URL_START[i] <= 0x7e
    ensures |URL_END| == 13 && forall i :: 0 <= i < |URL_END| ==> 0x21 <= URL_END[i] <= 0x7e
  {
  }

  lemma DrawnPassword(r: Library, random: Name -> seq<Byte>, files: Volume, name: Name)
    requires HoldsDrawn(r, random, files, name)
    ensures HoldsPasswords(files, random, name)
  {
  }

  lemma DrawnPasswordFiles(r: Library, random: Name -> seq<Byte>, files: Volume)
    requires Faithful(r) && Drawn(random) && forall name :: HoldsDrawn(r, random, files, name)
    ensures PasswordsDistinct(name => Password(files, name), DATABASE_PASSWORDS)
    ensures RedisContract(r, files)
  {
    forall name ensures HoldsPasswords(files, random, name) {
      DrawnPassword(r, random, files, name);
    }
    DrawnUrl(r, random, files);
    GeneratedPasswordsPass(files, random);
  }

  lemma GeneratedProtected(contents: Name -> seq<Byte>)
    ensures Protected(FilesOf(contents, INVENTORY))
  {
  }

  lemma GeneratedHeld(r: Library, random: Name -> seq<Byte>, name: Name)
    ensures HoldsDrawn(r, random, FilesOf(FromRandom(r, random), INVENTORY), name)
  {
    if !name.Foreign? {
      assert name in INVENTORY;
    }
  }

  /** Whatever was drawn, the generated inventory is valid. */
  lemma GeneratedIsValid(r: Library, random: Name -> seq<Byte>)
    requires Faithful(r) && Drawn(random)
    ensures Valid(r, Holding(FromRandom(r, random), INVENTORY))
  {
    var files := FilesOf(FromRandom(r, random), INVENTORY);
    forall name ensures HoldsDrawn(r, random, files, name) {
      GeneratedHeld(r, random, name);
    }
    GeneratedProtected(FromRandom(r, random));
    DrawnPasswordFiles(r, random, files);
    DrawnKeysReadable(r, random, files);
  }

  /** GenerateDevSecrets. When no call fails, a run without a destination ends ready with the
      complete, valid inventory of what was drawn, unless it is killed; and this is what the
      kill leaves. */
  method GenerateDevSecrets(g: Generator, r: Library, random: Name -> seq<Byte>, order: seq<Name>) returns (exit: Exit)
    requires Distinct(order) && Names(order) == Names(DATABASE_PASSWORDS)
    requires Faithful(r) && Drawn(random)
    modifies g
    ensures RunLeaves(r, FromRandom(r, random), old(g.destination), g.destination, exit)
    ensures AllWork(old(g.fates)) && old(g.destination).None? ==>
              && g.destination == AtKill(FromRandom(r, random), |old(g.fates)|)
              && exit == if |old(g.fates)| < CALLS then Killed else Ready
    ensures AllWork(old(g.fates)) && old(g.destination).Some? ==>
              exit == if |old(g.fates)| < 2 then Killed else Verdict(r, old(g.destination).value)
  {
    GeneratedIsValid(r, random);
    exit := g.Generate(r, FromRandom(r, random), order);
  }
}
