/** The schema-directed JSON scan of secret files, over the decoder's token stream,
    and the second decoding pass it makes unambiguous. */
module StrictJson {
  import opened Wrappers

  /** What json.Decoder.Token yields; OtherLiteral is a boolean or a number that is no
      integer, Malformed any syntax error. */
  datatype Token =
    | BeginObject | EndObject | BeginArray | EndArray
    | Text(text: string) | Number(number: int) | NullLiteral | OtherLiteral
    | Malformed

  /** Where a document may have objects and arrays. */
  datatype Schema = Leaf | ObjectOf(fields: map<string, Schema>) | ArrayOf(element: Schema)

  /** A JSON value. */
  datatype Json =
    | Str(text: string) | Num(number: int) | Null | Other
    | Obj(members: seq<Member>) | Arr(items: seq<Json>)

  datatype Member = Member(name: string, value: Json)

  // ---- the scan, as a function of the remaining tokens --------------------------------

  predicate More(tokens: seq<Token>) {
    tokens != [] && !tokens[0].EndObject? && !tokens[0].EndArray?
  }

  /** The tokens left after one value that fits the schema. */
  function ScanValue(tokens: seq<Token>, schema: Schema): (rest: Option<seq<Token>>)
    ensures rest.Some? ==> |rest.value| < |tokens|
    decreases |tokens|, 0
  {
    if tokens == [] then None
    else
      match tokens[0]
      case Malformed => None
      case BeginObject => if schema.ObjectOf? then ScanMembers(tokens[1..], schema.fields, {}) else None
      case BeginArray => if schema.ArrayOf? then ScanElements(tokens[1..], schema.element) else None
      case EndObject => None
      case EndArray => None
      case _ => Some(tokens[1..])
  }

  /** The rest of an object whose names so far are `seen`. */
  function ScanMembers(tokens: seq<Token>, fields: map<string, Schema>, seen: set<string>): (rest: Option<seq<Token>>)
    ensures rest.Some? ==> |rest.value| < |tokens|
    decreases |tokens|, 1
  {
    if !More(tokens) then
      (if tokens != [] && tokens[0].EndObject? then Some(tokens[1..]) else None)
    else if !tokens[0].Text? then None
    else
      var name := tokens[0].text;
      if name in seen || name !in fields then None
      else
        var rest := ScanValue(tokens[1..], fields[name]);
        if rest.None? then None else ScanMembers(rest.value, fields, seen + {name})
  }

  function ScanElements(tokens: seq<Token>, element: Schema): (rest: Option<seq<Token>>)
    ensures rest.Some? ==> |rest.value| < |tokens|
    decreases |tokens|, 1
  {
    if !More(tokens) then
      (if tokens != [] && tokens[0].EndArray? then Some(tokens[1..]) else None)
    else
      var rest := ScanValue(tokens, element);
      if rest.None? then None else ScanElements(rest.value, element)
  }

  // ---- the scan, as the code runs it ------------------------------------------------------

  class Decoder {
    var tokens: seq<Token>

    constructor (tokens: seq<Token>)
      ensures this.tokens == tokens
    {
      this.tokens := tokens;
    }

    /** The next token; None at the end of input or on a syntax error. */
    method Next() returns (token: Option<Token>)
      modifies this
      ensures old(tokens) == [] || old(tokens)[0].Malformed? ==> token.None? && tokens == old(tokens)
      ensures old(tokens) != [] && !old(tokens)[0].Malformed? ==>
                token == Some(old(tokens)[0]) && tokens == old(tokens)[1..]
    {
      if tokens == [] || tokens[0].Malformed? {
        return None;
      }
      token := Some(tokens[0]);
      tokens := tokens[1..];
    }

    /** scanJSONValue: reads one value, checking it against the schema. */
    method Scan(schema: Schema) returns (ok: bool)
      modifies this
      ensures ok == ScanValue(old(tokens), schema).Some?
      ensures ok ==> tokens == ScanValue(old(tokens), schema).value
      ensures |tokens| <= |old(tokens)|
      decreases |tokens|, 1
    {
      var token := Next();
      if token.None? {
        return false;
      }
      match token.value {
        case BeginObject =>
          if !schema.ObjectOf? {
            return false;
          }
          ok := ScanFields(schema.fields);
        case BeginArray =>
          if !schema.ArrayOf? {
            return false;
          }
          ok := ScanItems(schema.element);
        case EndObject => return false;
        case EndArray => return false;
        case _ => return true;
      }
    }

    method ScanFields(fields: map<string, Schema>) returns (ok: bool)
      modifies this
      ensures ok == ScanMembers(old(tokens), fields, {}).Some?
      ensures ok ==> tokens == ScanMembers(old(tokens), fields, {}).value
      ensures |tokens| <= |old(tokens)|
      decreases |tokens|, 2
    {
      var seen: set<string> := {};
      while More(tokens)
        invariant |tokens| <= |old(tokens)|
        invariant ScanMembers(tokens, fields, seen) == ScanMembers(old(tokens), fields, {})
        decreases |tokens|
      {
        var nameToken := Next();
        if nameToken.None? || !nameToken.value.Text? {
          return false;
        }
        var name := nameToken.value.text;
        if name in seen || name !in fields {
          return false;
        }
        var child := Scan(fields[name]);
        if !child {
          return false;
        }
        seen := seen + {name};
      }
      var end := Next();
      return end == Some(EndObject);
    }

    method ScanItems(element: Schema) returns (ok: bool)
      modifies this
      ensures ok == ScanElements(old(tokens), element).Some?
      ensures ok ==> tokens == ScanElements(old(tokens), element).value
      ensures |tokens| <= |old(tokens)|
      decreases |tokens|, 2
    {
      while More(tokens)
        invariant |tokens| <= |old(tokens)|
        invariant ScanElements(tokens, element) == ScanElements(old(tokens), element)
        decreases |tokens|
      {
        var item := Scan(element);
        if !item {
          return false;
        }
      }
      var end := Next();
      return end == Some(EndArray);
    }
  }

  // ---- documents ---------------------------------------------------------------------------

  function Tokens(v: Json): (tokens: seq<Token>)
    ensures More(tokens)
    decreases v
  {
    match v
    case Str(s) => [Text(s)]
    case Num(n) => [Number(n)]
    case Null => [NullLiteral]
    case Other => [OtherLiteral]
    case Obj(members) => [BeginObject] + MemberTokens(members) + [EndObject]
    case Arr(items) => [BeginArray] + ItemTokens(items) + [EndArray]
  }

  function MemberTokens(members: seq<Member>): seq<Token>
    decreases members
  {
    if members == [] then []
    else [Text(members[0].name)] + Tokens(members[0].value) + MemberTokens(members[1..])
  }

  function ItemTokens(items: seq<Json>): seq<Token>
    decreases items
  {
    if items == [] then [] else Tokens(items[0]) + ItemTokens(items[1..])
  }

  /** Objects and arrays only where the schema has them; at each level the names are
      distinct and known. */
  predicate Conforms(v: Json, schema: Schema)
    decreases v
  {
    match v
    case Obj(members) => schema.ObjectOf? && MembersConform(members, schema.fields, {})
    case Arr(items) => schema.ArrayOf? && ItemsConform(items, schema.element)
    case _ => true
  }

  predicate MembersConform(members: seq<Member>, fields: map<string, Schema>, seen: set<string>)
    decreases members
  {
    members == [] ||
    (var m := members[0];
     m.name !in seen && m.name in fields && Conforms(m.value, fields[m.name])
     && MembersConform(members[1..], fields, seen + {m.name}))
  }

  predicate ItemsConform(items: seq<Json>, element: Schema)
    decreases items
  {
    items == [] || (Conforms(items[0], element) && ItemsConform(items[1..], element))
  }

  /** The recursive reading of conformity, member by member. */
  lemma {:induction false} MembersConformExact(members: seq<Member>, fields: map<string, Schema>, seen: set<string>)
    ensures MembersConform(members, fields, seen) <==>
              && (forall i :: 0 <= i < |members| ==>
                    && members[i].name in fields && members[i].name !in seen
                    && Conforms(members[i].value, fields[members[i].name]))
              && (forall i, j :: 0 <= i < j < |members| ==> members[i].name != members[j].name)
    decreases members
  {
    if members != [] {
      var tail := members[1..];
      MembersConformExact(tail, fields, seen + {members[0].name});
      assert forall i :: 0 <= i < |tail| ==> tail[i] == members[i + 1];
      assert forall i :: 0 < i < |members| ==> members[i] == tail[i - 1];
    }
  }

  // ---- the scan decides conformity -------------------------------------------------------------

  /** On a document, the scan succeeds exactly when the document conforms, and then
      it consumes exactly the document. */
  lemma {:induction false} ScanDecides(v: Json, rest: seq<Token>, schema: Schema)
    ensures ScanValue(Tokens(v) + rest, schema) == if Conforms(v, schema) then Some(rest) else None
    decreases v
  {
    var tokens := Tokens(v) + rest;
    match v
    case Obj(members) =>
      assert tokens[1..] == MemberTokens(members) + ([EndObject] + rest);
      if schema.ObjectOf? {
        ScanMembersDecides(members, rest, schema.fields, {});
      }
    case Arr(items) =>
      assert tokens[1..] == ItemTokens(items) + ([EndArray] + rest);
      if schema.ArrayOf? {
        ScanItemsDecides(items, rest, schema.element);
      }
    case _ =>
      assert tokens[1..] == rest;
  }

  lemma {:induction false} ScanMembersDecides(members: seq<Member>, rest: seq<Token>, fields: map<string, Schema>,
                                              seen: set<string>)
    ensures ScanMembers(MemberTokens(members) + ([EndObject] + rest), fields, seen)
         == if MembersConform(members, fields, seen) then Some(rest) else None
    decreases members
  {
    var tokens := MemberTokens(members) + ([EndObject] + rest);
    if members == [] {
      assert tokens == [EndObject] + rest;
      assert tokens[1..] == rest;
    } else {
      var m, after := members[0], MemberTokens(members[1..]) + ([EndObject] + rest);
      assert tokens == [Text(m.name)] + (Tokens(m.value) + after);
      assert tokens[1..] == Tokens(m.value) + after;
      if m.name !in seen && m.name in fields {
        ScanDecides(m.value, after, fields[m.name]);
        ScanMembersDecides(members[1..], rest, fields, seen + {m.name});
      }
    }
  }

  lemma {:induction false} ScanItemsDecides(items: seq<Json>, rest: seq<Token>, element: Schema)
    ensures ScanElements(ItemTokens(items) + ([EndArray] + rest), element)
         == if ItemsConform(items, element) then Some(rest) else None
    decreases items
  {
    var tokens := ItemTokens(items) + ([EndArray] + rest);
    if items == [] {
      assert tokens == [EndArray] + rest;
      assert tokens[1..] == rest;
    } else {
      var after := ItemTokens(items[1..]) + ([EndArray] + rest);
      assert tokens == Tokens(items[0]) + after;
      assert tokens[0] == Tokens(items[0])[0];
      ScanDecides(items[0], after, element);
      ScanItemsDecides(items[1..], rest, element);
    }
  }

  /** Whatever the token stream, a successful scan has read one conforming document. */
  lemma {:induction false} ScanReadsDocument(tokens: seq<Token>, schema: Schema) returns (v: Json)
    requires ScanValue(tokens, schema).Some?
    ensures Conforms(v, schema) && tokens == Tokens(v) + ScanValue(tokens, schema).value
    decreases |tokens|, 0
  {
    assert tokens == [tokens[0]] + tokens[1..];
    match tokens[0]
    case BeginObject =>
      var members := ScanReadsMembers(tokens[1..], schema.fields, {});
      v := Obj(members);
    case BeginArray =>
      var items := ScanReadsItems(tokens[1..], schema.element);
      v := Arr(items);
    case Text(s) => v := Str(s);
    case Number(n) => v := Num(n);
    case NullLiteral => v := Null;
    case OtherLiteral => v := Other;
  }

  lemma {:induction false} ScanReadsMembers(tokens: seq<Token>, fields: map<string, Schema>, seen: set<string>)
    returns (members: seq<Member>)
    requires ScanMembers(tokens, fields, seen).Some?
    ensures MembersConform(members, fields, seen)
    ensures tokens == MemberTokens(members) + [EndObject] + ScanMembers(tokens, fields, seen).value
    decreases |tokens|, 1
  {
    assert tokens == [tokens[0]] + tokens[1..];
    if !More(tokens) {
      members := [];
    } else {
      var name := tokens[0].text;
      var value := ScanReadsDocument(tokens[1..], fields[name]);
      var rest := ScanValue(tokens[1..], fields[name]).value;
      var others := ScanReadsMembers(rest, fields, seen + {name});
      members := [Member(name, value)] + others;
      assert members[1..] == others;
    }
  }

  lemma {:induction false} ScanReadsItems(tokens: seq<Token>, element: Schema) returns (items: seq<Json>)
    requires ScanElements(tokens, element).Some?
    ensures ItemsConform(items, element)
    ensures tokens == ItemTokens(items) + [EndArray] + ScanElements(tokens, element).value
    decreases |tokens|, 1
  {
    assert tokens == [tokens[0]] + tokens[1..];
    if !More(tokens) {
      items := [];
    } else {
      var item := ScanReadsDocument(tokens, element);
      var others := ScanReadsItems(ScanValue(tokens, element).value, element);
      items := [item] + others;
      assert items[1..] == others;
    }
  }

  /** The first pass of strictJSON: one conforming value and then the end of input. */
  method CheckDocument(tokens: seq<Token>, schema: Schema) returns (ok: bool)
    ensures ok <==> exists v :: Conforms(v, schema) && Tokens(v) == tokens
  {
    var decoder := new Decoder(tokens);
    ok := decoder.Scan(schema);
    if v :| Conforms(v, schema) && Tokens(v) == tokens {
      ScanDecides(v, [], schema);
      assert Tokens(v) + [] == tokens;
    }
    if ok {
      var v := ScanReadsDocument(tokens, schema);
      ok := decoder.tokens == [];
      assert ok ==> tokens == Tokens(v);
    }
  }

  /** A document's tokens are nobody else's: the scan of v accepts v only. */
  lemma DocumentIsConforming(v: Json, schema: Schema)
    ensures (exists w :: Conforms(w, schema) && Tokens(w) == Tokens(v)) <==> Conforms(v, schema)
  {
    if w :| Conforms(w, schema) && Tokens(w) == Tokens(v) {
      ScanDecides(w, [], schema);
      ScanDecides(v, [], schema);
    }
  }

  // ---- nesting ------------------------------------------------------------------------------------

  function Max(a: nat, b: nat): nat {
    if a < b then b else a
  }

  function Depth(v: Json): nat
    decreases v
  {
    match v
    case Obj(members) => 1 + MembersDepth(members)
    case Arr(items) => 1 + ItemsDepth(items)
    case _ => 0
  }

  function MembersDepth(members: seq<Member>): nat
    decreases members
  {
    if members == [] then 0 else Max(Depth(members[0].value), MembersDepth(members[1..]))
  }

  function ItemsDepth(items: seq<Json>): nat
    decreases items
  {
    if items == [] then 0 else Max(Depth(items[0]), ItemsDepth(items[1..]))
  }

  /** The schema allows `depth` levels of nesting and no more. */
  ghost predicate Within(schema: Schema, depth: nat)
    decreases schema
  {
    match schema
    case Leaf => true
    case ObjectOf(fields) => depth > 0 && forall f :: f in fields ==> Within(fields[f], depth - 1)
    case ArrayOf(element) => depth > 0 && Within(element, depth - 1)
  }

  /** A conforming document nests no deeper than its schema. */
  lemma {:induction false} NestingBounded(v: Json, schema: Schema, depth: nat)
    requires Conforms(v, schema) && Within(schema, depth)
    ensures Depth(v) <= depth
    decreases v
  {
    match v
    case Obj(members) => MembersNesting(members, schema.fields, {}, depth - 1);
    case Arr(items) => ItemsNesting(items, schema.element, depth - 1);
    case _ =>
  }

  lemma {:induction false} MembersNesting(members: seq<Member>, fields: map<string, Schema>, seen: set<string>,
                                          depth: nat)
    requires MembersConform(members, fields, seen)
    requires forall f :: f in fields ==> Within(fields[f], depth)
    ensures MembersDepth(members) <= depth
    decreases members
  {
    if members != [] {
      NestingBounded(members[0].value, fields[members[0].name], depth);
      MembersNesting(members[1..], fields, seen + {members[0].name}, depth);
    }
  }

  lemma {:induction false} ItemsNesting(items: seq<Json>, element: Schema, depth: nat)
    requires ItemsConform(items, element) && Within(element, depth)
    ensures ItemsDepth(items) <= depth
    decreases items
  {
    if items != [] {
      NestingBounded(items[0], element, depth);
      ItemsNesting(items[1..], element, depth);
    }
  }

  // ---- the second pass --------------------------------------------------------------------------------

  /** The destination after decoding: struct fields that were set, slices, leaves. */
  datatype Decoded = Plain(value: Json) | Struct(fields: map<string, Decoded>) | Slice(items: seq<Decoded>)

  /** The decoder's case-insensitive index: some field for a name that has no exact match. */
  type FoldIndex = (set<string>, string) -> Option<string>

  /** The struct field a member name selects: an exact match, else a folded one. */
  function Select(fold: FoldIndex, fields: map<string, Schema>, name: string): (field: Option<string>)
    ensures field.Some? ==> field.value in fields
  {
    if name in fields then Some(name)
    else
      var folded := fold(fields.Keys, name);
      if folded.Some? && folded.value in fields then folded else None
  }

  /** encoding/json with DisallowUnknownFields: members in order, the last one wins. */
  function Decode(fold: FoldIndex, v: Json, schema: Schema): Option<Decoded>
    decreases v
  {
    match v
    case Obj(members) =>
      if !schema.ObjectOf? then None
      else
        var fields := DecodeMembers(fold, members, schema.fields);
        if fields.None? then None else Some(Struct(fields.value))
    case Arr(items) =>
      if !schema.ArrayOf? then None
      else
        var slice := DecodeItems(fold, items, schema.element);
        if slice.None? then None else Some(Slice(slice.value))
    case _ => Some(Plain(v))
  }

  function DecodeMembers(fold: FoldIndex, members: seq<Member>, fields: map<string, Schema>)
    : Option<map<string, Decoded>>
    decreases members
  {
    if members == [] then Some(map[])
    else
      var n := |members| - 1;
      var before := DecodeMembers(fold, members[..n], fields);
      var field := Select(fold, fields, members[n].name);
      if before.None? || field.None? then None
      else
        var value := Decode(fold, members[n].value, fields[field.value]);
        if value.None? then None else Some(before.value[field.value := value.value])
  }

  function DecodeItems(fold: FoldIndex, items: seq<Json>, element: Schema): Option<seq<Decoded>>
    decreases items
  {
    if items == [] then Some([])
    else
      var n := |items| - 1;
      var before := DecodeItems(fold, items[..n], element);
      var last := Decode(fold, items[n], element);
      if before.None? || last.None? then None else Some(before.value + [last.value])
  }

  /** Exact-name lookup: every field holds the member of its own name. */
  ghost predicate Exactly(v: Json, schema: Schema, d: Decoded)
    decreases v
  {
    match v
    case Obj(members) =>
      && schema.ObjectOf? && d.Struct? && d.fields.Keys == Names(members)
      && forall i :: 0 <= i < |members| ==> MemberExactly(members[i], schema.fields, d.fields)
    case Arr(items) =>
      && schema.ArrayOf? && d.Slice? && |d.items| == |items|
      && forall i :: 0 <= i < |items| ==> Exactly(items[i], schema.element, d.items[i])
    case _ => d == Plain(v)
  }

  ghost predicate MemberExactly(m: Member, fields: map<string, Schema>, result: map<string, Decoded>)
    decreases m
  {
    m.name in fields && m.name in result && Exactly(m.value, fields[m.name], result[m.name])
  }

  function Names(members: seq<Member>): set<string> {
    set m | m in members :: m.name
  }

  predicate DistinctNames(members: seq<Member>) {
    forall i, j :: 0 <= i < j < |members| ==> members[i].name != members[j].name
  }

  ghost predicate MembersFit(members: seq<Member>, fields: map<string, Schema>) {
    forall i :: 0 <= i < |members| ==> members[i].name in fields && Conforms(members[i].value, fields[members[i].name])
  }

  lemma NamesSnoc(members: seq<Member>, n: nat)
    requires |members| == n + 1 && DistinctNames(members)
    ensures Names(members) == Names(members[..n]) + {members[n].name}
    ensures members[n].name !in Names(members[..n])
    ensures DistinctNames(members[..n])
  {
    assert members == members[..n] + [members[n]];
    forall m | m in members[..n] ensures m.name != members[n].name {
      var i :| 0 <= i < n && members[..n][i] == m;
      assert members[i].name != members[n].name;
    }
    assert forall m :: m in members <==> m in members[..n] || m == members[n];
  }

  /** On a conforming document the case-folding, last-wins decoder succeeds and
      produces what exact-name lookup produces, whatever its folding does. */
  lemma {:induction false} DecoderIsExact(fold: FoldIndex, v: Json, schema: Schema)
    requires Conforms(v, schema)
    ensures Decode(fold, v, schema).Some? && Exactly(v, schema, Decode(fold, v, schema).value)
    decreases v
  {
    match v
    case Obj(members) =>
      MembersConformExact(members, schema.fields, {});
      MembersAreExact(fold, members, schema.fields);
    case Arr(items) =>
      ItemsConformExact(items, schema.element);
      ItemsAreExact(fold, items, schema.element);
    case _ =>
  }

  lemma {:induction false} ItemsConformExact(items: seq<Json>, element: Schema)
    ensures ItemsConform(items, element) <==> forall i :: 0 <= i < |items| ==> Conforms(items[i], element)
    decreases items
  {
    if items != [] {
      ItemsConformExact(items[1..], element);
      assert forall i :: 0 < i < |items| ==> items[i] == items[1..][i - 1];
    }
  }

  lemma {:induction false} ItemsAreExact(fold: FoldIndex, items: seq<Json>, element: Schema)
    requires forall i :: 0 <= i < |items| ==> Conforms(items[i], element)
    ensures var slice := DecodeItems(fold, items, element);
            && slice.Some? && |slice.value| == |items|
            && forall i :: 0 <= i < |items| ==> Exactly(items[i], element, slice.value[i])
    decreases items
  {
    if items != [] {
      ItemsAreExact(fold, items[..|items| - 1], element);
      DecoderIsExact(fold, items[|items| - 1], element);
      assert forall i :: 0 <= i < |items| - 1 ==> items[..|items| - 1][i] == items[i];
    }
  }

  ghost predicate ExactResult(members: seq<Member>, fields: map<string, Schema>, result: map<string, Decoded>) {
    result.Keys == Names(members) && forall i :: 0 <= i < |members| ==> MemberExactly(members[i], fields, result)
  }

  lemma {:induction false} MembersAreExact(fold: FoldIndex, members: seq<Member>, fields: map<string, Schema>)
    requires MembersFit(members, fields) && DistinctNames(members)
    ensures var result := DecodeMembers(fold, members, fields);
            result.Some? && ExactResult(members, fields, result.value)
    decreases members
  {
    if members == [] {
      assert Names(members) == {};
    } else {
      var n := |members| - 1;
      NamesSnoc(members, n);
      MembersAreExact(fold, members[..n], fields);
      DecoderIsExact(fold, members[n].value, fields[members[n].name]);
      ExtendResult(members, fields, DecodeMembers(fold, members[..n], fields).value,
                   Decode(fold, members[n].value, fields[members[n].name]).value);
    }
  }

  lemma ExtendResult(members: seq<Member>, fields: map<string, Schema>, before: map<string, Decoded>, value: Decoded)
    requires |members| > 0 && DistinctNames(members)
    requires var last := members[|members| - 1]; last.name in fields && Exactly(last.value, fields[last.name], value)
    requires ExactResult(members[..|members| - 1], fields, before)
    ensures ExactResult(members, fields, before[members[|members| - 1].name := value])
  {
    var n := |members| - 1;
    var result := before[members[n].name := value];
    NamesSnoc(members, n);
    forall i | 0 <= i < |members| ensures MemberExactly(members[i], fields, result) {
      if i < n {
        assert MemberExactly(members[..n][i], fields, before);
        assert members[i].name != members[n].name;
      }
    }
  }

  /** Exact lookup leaves no freedom: it determines the destination. */
  lemma {:induction false} ExactlyDetermines(v: Json, schema: Schema, d: Decoded, e: Decoded)
    requires Exactly(v, schema, d) && Exactly(v, schema, e)
    ensures d == e
    decreases v
  {
    match v
    case Obj(members) =>
      forall name | name in d.fields ensures d.fields[name] == e.fields[name] {
        var m :| m in members && m.name == name;
        var i :| 0 <= i < |members| && members[i] == m;
        assert MemberExactly(members[i], schema.fields, d.fields) && MemberExactly(members[i], schema.fields, e.fields);
        ExactlyDetermines(members[i].value, schema.fields[name], d.fields[name], e.fields[name]);
      }
      assert d.fields == e.fields;
    case Arr(items) =>
      forall i | 0 <= i < |items| ensures d.items[i] == e.items[i] {
        ExactlyDetermines(items[i], schema.element, d.items[i], e.items[i]);
      }
    case _ =>
  }

  lemma {:induction false} NamesCount(members: seq<Member>)
    requires DistinctNames(members)
    ensures |Names(members)| == |members|
    decreases members
  {
    if members == [] {
      assert Names(members) == {};
    } else {
      NamesSnoc(members, |members| - 1);
      NamesCount(members[..|members| - 1]);
    }
  }

  /** A conforming object sets as many fields as it has members: none is set twice. */
  lemma EachFieldSetOnce(fold: FoldIndex, members: seq<Member>, fields: map<string, Schema>)
    requires Conforms(Obj(members), ObjectOf(fields))
    ensures Decode(fold, Obj(members), ObjectOf(fields)).Some?
    ensures |Decode(fold, Obj(members), ObjectOf(fields)).value.fields| == |members|
  {
    DecoderIsExact(fold, Obj(members), ObjectOf(fields));
    MembersConformExact(members, fields, {});
    NamesCount(members);
    var d := Decode(fold, Obj(members), ObjectOf(fields)).value;
    assert |d.fields| == |d.fields.Keys|;
  }
}
