/** Key rings: validation of the decoded document, reading, and the documents the
    development generator writes. */
module KeyRings {
  import opened Wrappers
  import opened StrictJson
  import opened Base64
  import Text

  datatype Entry = Entry(keyId: string, key: string)

  datatype Wire = Wire(version: int, expectedEpoch: int, activeKeyId: string, keys: seq<Entry>)

  datatype KeyRing = KeyRing(activeKeyId: string, keys: map<string, seq<Byte>>)

  /** A letter or digit, then at most 63 letters, digits, dots, underscores or hyphens. */
  predicate ValidKeyId(id: string) {
    && 1 <= |id| <= 64
    && Text.IsAlphanumeric(id[0])
    && forall i :: 0 <= i < |id| ==> Text.IsAlphanumeric(id[i]) || id[i] == '.' || id[i] == '_' || id[i] == '-'
  }

  ghost predicate EntryValid(e: Entry) {
    ValidKeyId(e.keyId) && CanonicalKey(e.key)
  }

  /** One of the first n entries has this id. */
  predicate Named(entries: seq<Entry>, n: nat, id: string)
    requires n <= |entries|
  {
    exists i :: 0 <= i < n && entries[i].keyId == id
  }

  /** The first n entries are valid, each with an id of its own. */
  ghost predicate ValidUpTo(entries: seq<Entry>, n: nat)
    requires n <= |entries|
  {
    n == 0 || (ValidUpTo(entries, n - 1) && EntryValid(entries[n - 1]) && !Named(entries, n - 1, entries[n - 1].keyId))
  }

  ghost predicate EntriesValid(entries: seq<Entry>) {
    ValidUpTo(entries, |entries|)
  }

  /** The map holds the first n entries' keys under their ids, and nothing else. */
  ghost predicate HoldsUpTo(keys: map<string, seq<Byte>>, entries: seq<Entry>, n: nat)
    requires n <= |entries|
  {
    && (forall i :: 0 <= i < n ==> entries[i].keyId in keys && EncodesKey(entries[i].key, keys[entries[i].keyId]))
    && (forall id :: id in keys ==> Named(entries, n, id))
  }

  ghost predicate Holds(keys: map<string, seq<Byte>>, entries: seq<Entry>) {
    HoldsUpTo(keys, entries, |entries|)
  }

  ghost predicate WireValid(w: Wire) {
    && w.version == 1
    && ValidKeyId(w.activeKeyId)
    && w.keys != []
    && EntriesValid(w.keys)
    && Named(w.keys, |w.keys|, w.activeKeyId)
  }

  lemma HoldsNext(entries: seq<Entry>, n: nat, keys: map<string, seq<Byte>>, key: seq<Byte>)
    requires n < |entries| && HoldsUpTo(keys, entries, n) && entries[n].keyId !in keys
    requires EncodesKey(entries[n].key, key)
    ensures HoldsUpTo(keys[entries[n].keyId := key], entries, n + 1)
    ensures !Named(entries, n, entries[n].keyId)
  {
    var more := keys[entries[n].keyId := key];
    forall id | id in more ensures Named(entries, n + 1, id) {
      if id in keys {
        assert Named(entries, n, id);
      }
    }
  }

  /** One key of a ring: strict decode, length and re-encoding check. */
  method ReadKey(encoded: string) returns (key: Option<seq<Byte>>)
    ensures key.Some? <==> CanonicalKey(encoded)
    ensures key.Some? ==> EncodesKey(encoded, key.value)
  {
    KeyCheckExact(encoded);
    key := StrictDecode(encoded);
    if key.Some? && (|key.value| != 32 || Encode(key.value) != encoded) {
      key := None;
    }
  }

  /** The entry loop of validateRing. */
  method CollectKeys(entries: seq<Entry>) returns (keys: Option<map<string, seq<Byte>>>)
    ensures keys.Some? <==> EntriesValid(entries)
    ensures keys.Some? ==> Holds(keys.value, entries)
  {
    var filled: map<string, seq<Byte>> := map[];
    for n := 0 to |entries|
      invariant ValidUpTo(entries, n)
      invariant HoldsUpTo(filled, entries, n)
    {
      if EntriesValid(entries) {
        ValidPrefix(entries, n + 1, |entries|);
      }
      var entry := entries[n];
      if !ValidKeyId(entry.keyId) || entry.keyId in filled {
        return None;
      }
      var key := ReadKey(entry.key);
      if key.None? {
        return None;
      }
      HoldsNext(entries, n, filled, key.value);
      filled := filled[entry.keyId := key.value];
    }
    return Some(filled);
  }

  /** A bad entry spoils the whole sequence. */
  lemma {:induction false} ValidPrefix(entries: seq<Entry>, n: nat, m: nat)
    requires n <= m <= |entries| && ValidUpTo(entries, m)
    ensures ValidUpTo(entries, n)
    decreases m
  {
    if n < m {
      ValidPrefix(entries, n, m - 1);
    }
  }

  /** validateRing: returns exactly the map of the entries with the active id in it. */
  method ValidateRing(w: Wire) returns (ring: Result<KeyRing>)
    ensures ring.Ok? <==> WireValid(w)
    ensures ring.Ok? ==> ring.value.activeKeyId == w.activeKeyId && Holds(ring.value.keys, w.keys)
    ensures ring.Ok? ==> ring.value.activeKeyId in ring.value.keys
  {
    if w.version != 1 || !ValidKeyId(w.activeKeyId) || |w.keys| == 0 {
      return Rejected;
    }
    var keys := CollectKeys(w.keys);
    if keys.None? {
      return Rejected;
    }
    if w.activeKeyId !in keys.value {
      return Rejected;
    }
    return Ok(KeyRing(w.activeKeyId, keys.value));
  }

  /** The ring a wire document stands for is determined by it. */
  lemma HoldsDetermines(a: map<string, seq<Byte>>, b: map<string, seq<Byte>>, entries: seq<Entry>)
    requires Holds(a, entries) && Holds(b, entries)
    ensures a == b
  {
    forall id ensures id in a <==> id in b {
      if id in a {
        assert Named(entries, |entries|, id);
      }
      if id in b {
        assert Named(entries, |entries|, id);
      }
    }
    forall id | id in a ensures a[id] == b[id] {
      assert Named(entries, |entries|, id);
      var i :| 0 <= i < |entries| && entries[i].keyId == id;
      assert EncodesKey(entries[i].key, a[id]) && EncodesKey(entries[i].key, b[id]);
      EncodeInjective(a[id], b[id]);
    }
  }

  // ---- reading ------------------------------------------------------------------------

  const ENTRY_SCHEMA := ObjectOf(map["key_id" := Leaf, "key" := Leaf])
  const RING_SCHEMA := ObjectOf(map["version" := Leaf, "active_key_id" := Leaf, "keys" := ArrayOf(ENTRY_SCHEMA)])
  const PROVIDER_SCHEMA :=
    ObjectOf(map["version" := Leaf, "expected_epoch" := Leaf, "active_key_id" := Leaf, "keys" := ArrayOf(ENTRY_SCHEMA)])

  const INT64_MIN: int := -0x8000_0000_0000_0000
  const INT64_MAX: int := 0x7fff_ffff_ffff_ffff

  /** An integer struct field after decoding: zero when absent or null. */
  function IntField(fields: map<string, Decoded>, name: string): Result<int> {
    if name !in fields || fields[name] == Plain(Null) then Ok(0)
    else if fields[name].Plain? && fields[name].value.Num? && INT64_MIN <= fields[name].value.number <= INT64_MAX then
      Ok(fields[name].value.number)
    else Rejected
  }

  function TextField(fields: map<string, Decoded>, name: string): Result<string> {
    if name !in fields || fields[name] == Plain(Null) then Ok("")
    else if fields[name].Plain? && fields[name].value.Str? then Ok(fields[name].value.text)
    else Rejected
  }

  function EntryOf(d: Decoded): Result<Entry> {
    if d == Plain(Null) then Ok(Entry("", ""))
    else if !d.Struct? then Rejected
    else
      var id, key := TextField(d.fields, "key_id"), TextField(d.fields, "key");
      if id.Rejected? || key.Rejected? then Rejected else Ok(Entry(id.value, key.value))
  }

  function EntriesOf(items: seq<Decoded>): Result<seq<Entry>> {
    if items == [] then Ok([])
    else
      var n := |items| - 1;
      var before, last := EntriesOf(items[..n]), EntryOf(items[n]);
      if before.Rejected? || last.Rejected? then Rejected else Ok(before.value + [last.value])
  }

  function KeysField(fields: map<string, Decoded>): Result<seq<Entry>> {
    if "keys" !in fields || fields["keys"] == Plain(Null) then Ok([])
    else if fields["keys"].Slice? then EntriesOf(fields["keys"].items)
    else Rejected
  }

  /** The wire struct a decoded document fills in. */
  function WireOf(d: Decoded): Result<Wire> {
    if d == Plain(Null) then Ok(Wire(0, 0, "", []))
    else if !d.Struct? then Rejected
    else
      var version, epoch := IntField(d.fields, "version"), IntField(d.fields, "expected_epoch");
      var active, keys := TextField(d.fields, "active_key_id"), KeysField(d.fields);
      if version.Rejected? || epoch.Rejected? || active.Rejected? || keys.Rejected? then Rejected
      else Ok(Wire(version.value, epoch.value, active.value, keys.value))
  }

  /** What a document reads as, if it reads at all. */
  function Read(fold: FoldIndex, document: Json, schema: Schema): Result<Wire> {
    if !Conforms(document, schema) || Decode(fold, document, schema).None? then Rejected
    else WireOf(Decode(fold, document, schema).value)
  }

  // ---- reading by exact name -----------------------------------------------------------

  /** The value of the member with exactly this name; null without one. */
  function ValueOf(members: seq<Member>, name: string): Json {
    if members == [] then Null
    else if members[0].name == name then members[0].value
    else ValueOf(members[1..], name)
  }

  function SpelledInt(v: Json): Result<int> {
    match v
    case Null => Ok(0)
    case Num(n) => if INT64_MIN <= n <= INT64_MAX then Ok(n) else Rejected
    case _ => Rejected
  }

  function SpelledText(v: Json): Result<string> {
    match v
    case Null => Ok("")
    case Str(text) => Ok(text)
    case _ => Rejected
  }

  function SpelledEntry(v: Json): Result<Entry> {
    match v
    case Null => Ok(Entry("", ""))
    case Obj(members) =>
      var id, key := SpelledText(ValueOf(members, "key_id")), SpelledText(ValueOf(members, "key"));
      if id.Rejected? || key.Rejected? then Rejected else Ok(Entry(id.value, key.value))
    case _ => Rejected
  }

  function SpelledEntries(items: seq<Json>): Result<seq<Entry>> {
    if items == [] then Ok([])
    else
      var n := |items| - 1;
      var before, last := SpelledEntries(items[..n]), SpelledEntry(items[n]);
      if before.Rejected? || last.Rejected? then Rejected else Ok(before.value + [last.value])
  }

  function SpelledKeys(v: Json): Result<seq<Entry>> {
    match v
    case Null => Ok([])
    case Arr(items) => SpelledEntries(items)
    case _ => Rejected
  }

  /** The wire values a document spells out: every field is the member of exactly its name,
      and absent or null members count as zero values. No decoder, and no case folding. */
  function Spelled(v: Json): Result<Wire> {
    match v
    case Null => Ok(Wire(0, 0, "", []))
    case Obj(members) =>
      var version, epoch := SpelledInt(ValueOf(members, "version")), SpelledInt(ValueOf(members, "expected_epoch"));
      var active, keys := SpelledText(ValueOf(members, "active_key_id")), SpelledKeys(ValueOf(members, "keys"));
      if version.Rejected? || epoch.Rejected? || active.Rejected? || keys.Rejected? then Rejected
      else Ok(Wire(version.value, epoch.value, active.value, keys.value))
    case _ => Rejected
  }

  lemma {:induction false} ValueFound(members: seq<Member>, name: string)
    ensures name in Names(members) ==>
          exists i :: 0 <= i < |members| && members[i] == Member(name, ValueOf(members, name))
    ensures name !in Names(members) ==> ValueOf(members, name) == Null
  {
    if members != [] {
      if members[0].name == name {
        assert members[0] == Member(name, ValueOf(members, name));
      } else {
        ValueFound(members[1..], name);
        assert Names(members) == {members[0].name} + Names(members[1..]) by {
          assert members == [members[0]] + members[1..];
        }
        if name in Names(members) {
          var i :| 0 <= i < |members| - 1 && members[1..][i] == Member(name, ValueOf(members[1..], name));
          assert members[i + 1] == Member(name, ValueOf(members, name));
        }
      }
    }
  }

  /** A field after decoding is the member of its name. */
  lemma FieldIsMember(members: seq<Member>, schema: Schema, d: Decoded, name: string)
    requires Exactly(Obj(members), schema, d)
    ensures if name in d.fields then name in schema.fields
            && Exactly(ValueOf(members, name), schema.fields[name], d.fields[name])
            else ValueOf(members, name) == Null
  {
    ValueFound(members, name);
    if name in d.fields {
      var i :| 0 <= i < |members| && members[i] == Member(name, ValueOf(members, name));
      assert MemberExactly(members[i], schema.fields, d.fields);
    }
  }

  /** Scalars, objects and arrays decode to their own kind. */
  lemma KindKept(v: Json, schema: Schema, d: Decoded)
    requires Exactly(v, schema, d)
    ensures d.Struct? <==> v.Obj?
    ensures d.Slice? <==> v.Arr?
    ensures d.Plain? ==> d == Plain(v)
  {
  }

  lemma IntFieldSpelled(members: seq<Member>, schema: Schema, d: Decoded, name: string)
    requires Exactly(Obj(members), schema, d)
    ensures IntField(d.fields, name) == SpelledInt(ValueOf(members, name))
  {
    FieldIsMember(members, schema, d, name);
    if name in d.fields {
      KindKept(ValueOf(members, name), schema.fields[name], d.fields[name]);
    }
  }

  lemma TextFieldSpelled(members: seq<Member>, schema: Schema, d: Decoded, name: string)
    requires Exactly(Obj(members), schema, d)
    ensures TextField(d.fields, name) == SpelledText(ValueOf(members, name))
  {
    FieldIsMember(members, schema, d, name);
    if name in d.fields {
      KindKept(ValueOf(members, name), schema.fields[name], d.fields[name]);
    }
  }

  lemma EntrySpelled(v: Json, schema: Schema, d: Decoded)
    requires Exactly(v, schema, d)
    ensures EntryOf(d) == SpelledEntry(v)
  {
    KindKept(v, schema, d);
    if v.Obj? {
      TextFieldSpelled(v.members, schema, d, "key_id");
      TextFieldSpelled(v.members, schema, d, "key");
    }
  }

  lemma {:induction false} EntriesSpelled(items: seq<Json>, element: Schema, decoded: seq<Decoded>)
    requires |items| == |decoded| && forall i :: 0 <= i < |items| ==> Exactly(items[i], element, decoded[i])
    ensures EntriesOf(decoded) == SpelledEntries(items)
  {
    if items != [] {
      var n := |items| - 1;
      EntriesSpelled(items[..n], element, decoded[..n]);
      EntrySpelled(items[n], element, decoded[n]);
    }
  }

  lemma KeysFieldSpelled(members: seq<Member>, schema: Schema, d: Decoded)
    requires Exactly(Obj(members), schema, d)
    ensures KeysField(d.fields) == SpelledKeys(ValueOf(members, "keys"))
  {
    FieldIsMember(members, schema, d, "keys");
    if "keys" in d.fields {
      var v := ValueOf(members, "keys");
      KindKept(v, schema.fields["keys"], d.fields["keys"]);
      if v.Arr? {
        EntriesSpelled(v.items, schema.fields["keys"].element, d.fields["keys"].items);
      }
    }
  }

  /** Whatever the decoder folds, a conforming document reads as what it spells. */
  lemma ReadsAsSpelled(fold: FoldIndex, document: Json, schema: Schema)
    requires Conforms(document, schema)
    ensures Read(fold, document, schema) == Spelled(document)
  {
    DecoderIsExact(fold, document, schema);
    var d := Decode(fold, document, schema).value;
    KindKept(document, schema, d);
    if document.Obj? {
      IntFieldSpelled(document.members, schema, d, "version");
      IntFieldSpelled(document.members, schema, d, "expected_epoch");
      TextFieldSpelled(document.members, schema, d, "active_key_id");
      KeysFieldSpelled(document.members, schema, d);
    }
  }

  /** A document is a ring: it conforms, and the wire values it spells are valid. */
  ghost predicate IsRing(document: Json, provider: bool) {
    && Conforms(document, if provider then PROVIDER_SCHEMA else RING_SCHEMA)
    && Spelled(document).Ok? && WireValid(Spelled(document).value)
    && (provider ==> Spelled(document).value.expectedEpoch >= 1)
  }

  /** ReadKeyRing and ReadProviderKeyRing after the file has been read: whatever the decoder
      folds, exactly the rings are accepted, with the keys that their members spell. */
  method ReadRing(fold: FoldIndex, document: Json, provider: bool) returns (ring: Result<KeyRing>)
    ensures ring.Ok? <==> IsRing(document, provider)
    ensures ring.Ok? ==>
              && ring.value.activeKeyId == Spelled(document).value.activeKeyId
              && Holds(ring.value.keys, Spelled(document).value.keys)
  {
    var schema := if provider then PROVIDER_SCHEMA else RING_SCHEMA;
    DocumentIsConforming(document, schema);
    var ok := CheckDocument(Tokens(document), schema);
    if !ok {
      return Rejected;
    }
    ReadsAsSpelled(fold, document, schema);
    var decoded := Decode(fold, document, schema);
    if decoded.None? {
      return Rejected;
    }
    var wire := WireOf(decoded.value);
    if wire.Rejected? || (provider && wire.value.expectedEpoch < 1) {
      return Rejected;
    }
    ring := ValidateRing(wire.value);
  }

  // ---- what the generator writes -----------------------------------------------------------

  function EntryDocument(id: string, key: seq<Byte>): Json {
    Obj([Member("key_id", Str(id)), Member("key", Str(Encode(key)))])
  }

  function RingDocument(id: string, key: seq<Byte>): Json {
    Obj([Member("version", Num(1)), Member("active_key_id", Str(id)), Member("keys", Arr([EntryDocument(id, key)]))])
  }

  function ProviderDocument(id: string, key: seq<Byte>): Json {
    Obj([Member("version", Num(1)), Member("expected_epoch", Num(1)), Member("active_key_id", Str(id)),
         Member("keys", Arr([EntryDocument(id, key)]))])
  }

  /** The wire names have different lengths, so they are different names. */
  lemma NameLengths()
    ensures |"key"| == 3 && |"keys"| == 4 && |"key_id"| == 6 && |"version"| == 7
    ensures |"active_key_id"| == 13 && |"expected_epoch"| == 14
  {
  }

  lemma EntrySpells(id: string, key: seq<Byte>)
    ensures SpelledEntries([EntryDocument(id, key)]) == Ok([Entry(id, Encode(key))])
  {
    NameLengths();
    var entry := EntryDocument(id, key);
    assert ValueOf(entry.members[1..], "key") == Str(Encode(key));
    assert [entry][..0] == [] && SpelledEntry(entry) == Ok(Entry(id, Encode(key)));
    assert [] + [Entry(id, Encode(key))] == [Entry(id, Encode(key))];
  }

  lemma EntryConforms(id: string, key: seq<Byte>)
    ensures Conforms(EntryDocument(id, key), ENTRY_SCHEMA)
    ensures Conforms(Arr([EntryDocument(id, key)]), ArrayOf(ENTRY_SCHEMA))
  {
    NameLengths();
    MembersConformExact(EntryDocument(id, key).members, ENTRY_SCHEMA.fields, {});
    ItemsConformExact([EntryDocument(id, key)], ENTRY_SCHEMA);
  }

  lemma RingDocumentConforms(id: string, key: seq<Byte>)
    ensures Conforms(RingDocument(id, key), RING_SCHEMA)
  {
    NameLengths();
    EntryConforms(id, key);
    MembersConformExact(RingDocument(id, key).members, RING_SCHEMA.fields, {});
  }

  lemma ProviderDocumentConforms(id: string, key: seq<Byte>)
    ensures Conforms(ProviderDocument(id, key), PROVIDER_SCHEMA)
  {
    NameLengths();
    EntryConforms(id, key);
    MembersConformExact(ProviderDocument(id, key).members, PROVIDER_SCHEMA.fields, {});
  }

  lemma RingDocumentReads(id: string, key: seq<Byte>)
    ensures Spelled(RingDocument(id, key)) == Ok(Wire(1, 0, id, [Entry(id, Encode(key))]))
  {
    NameLengths();
    EntrySpells(id, key);
    var members := RingDocument(id, key).members;
    var rest, keys := members[1..], members[2..];
    assert rest[1..] == keys && keys[1..] == [];
    assert ValueOf(rest, "active_key_id") == Str(id) && ValueOf(keys, "keys") == ValueOf(rest, "keys");
    assert ValueOf(keys, "expected_epoch") == Null && ValueOf(rest, "expected_epoch") == Null;
  }

  lemma ProviderDocumentReads(id: string, key: seq<Byte>)
    ensures Spelled(ProviderDocument(id, key)) == Ok(Wire(1, 1, id, [Entry(id, Encode(key))]))
  {
    NameLengths();
    EntrySpells(id, key);
    var members := ProviderDocument(id, key).members;
    var rest, last, keys := members[1..], members[2..], members[3..];
    assert rest[1..] == last && last[1..] == keys;
    assert ValueOf(last, "active_key_id") == Str(id) && ValueOf(rest, "active_key_id") == Str(id);
    assert ValueOf(keys, "keys") == ValueOf(last, "keys") == ValueOf(rest, "keys") == Arr([EntryDocument(id, key)]);
    assert ValueOf(rest, "expected_epoch") == Num(1);
    assert ValueOf(members, "expected_epoch") == Num(1) && ValueOf(members, "version") == Num(1);
    assert ValueOf(members, "active_key_id") == Str(id) && ValueOf(members, "keys") == Arr([EntryDocument(id, key)]);
  }

  lemma SingleEntryValid(id: string, key: seq<Byte>)
    requires ValidKeyId(id) && |key| == 32
    ensures EntriesValid([Entry(id, Encode(key))]) && Named([Entry(id, Encode(key))], 1, id)
    ensures Holds(map[id := key], [Entry(id, Encode(key))])
  {
    KeyDecodes(key);
    var entries := [Entry(id, Encode(key))];
    assert EncodesKey(entries[0].key, key) && entries[0].keyId == id;
    assert ValidUpTo(entries, 0) && EntryValid(entries[0]);
  }

  /** What the generator writes is a ring. */
  lemma GeneratedIsRing(id: string, key: seq<Byte>)
    requires ValidKeyId(id) && |key| == 32
    ensures IsRing(RingDocument(id, key), false) && IsRing(ProviderDocument(id, key), true)
  {
    RingDocumentConforms(id, key);
    ProviderDocumentConforms(id, key);
    RingDocumentReads(id, key);
    ProviderDocumentReads(id, key);
    SingleEntryValid(id, key);
  }

  /** Every ring the generator writes reads back, however the decoder folds names, to
      the one key it was generated from. */
  method RereadGenerated(fold: FoldIndex, id: string, key: seq<Byte>, provider: bool) returns (ring: Result<KeyRing>)
    requires ValidKeyId(id) && |key| == 32
    ensures ring == Ok(KeyRing(id, map[id := key]))
  {
    var document := if provider then ProviderDocument(id, key) else RingDocument(id, key);
    RingDocumentConforms(id, key);
    ProviderDocumentConforms(id, key);
    if provider {
      ProviderDocumentReads(id, key);
    } else {
      RingDocumentReads(id, key);
    }
    SingleEntryValid(id, key);
    ring := ReadRing(fold, document, provider);
    HoldsDetermines(ring.value.keys, map[id := key], [Entry(id, Encode(key))]);
  }
}
