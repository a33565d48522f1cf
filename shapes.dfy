/**
 * The typed decode shapes of the indexer (`ArgsWithIndex`,
 * `ArgsWithIndexUserData`, `IndexEntries`, `IndexEntry`) and how a parsed
 * JSON document is read into them, following the rules of serde's derived
 * decoders:
 *  - a struct with named fields is read from an object that holds each field
 *    exactly once (a missing or a repeated field is an error, unknown
 *    members are ignored) or from an array with exactly one element per
 *    field, in declaration order;
 *  - a hash map is read from an object; every key and value must decode, and
 *    a repeated key keeps its last value;
 *  - a list is read from an array whose every element decodes;
 *  - an untagged enum tries its variants in declaration order.
 */
module Shapes {
  import opened Wrappers
  import opened Json
  import opened Chain

  datatype IndexEntry = IndexEntry(key: Json, value: Json)

  datatype IndexEntries = OneEntry(entry: IndexEntry) | ManyEntries(entries: seq<IndexEntry>)

  datatype UserData = UserData(index: map<string, string>)

  datatype ArgsWithIndex = ArgsWithIndex(data: map<AccountId, UserData>)

  /** The entries the indexer iterates over: one entry, or the list in its own order. */
  function IntoIter(entries: IndexEntries): seq<IndexEntry>
  {
    match entries
    case OneEntry(entry) => [entry]
    case ManyEntries(list) => list
  }

  /** The values of the members named `name`, in document order. */
  function FieldValues(fields: seq<(string, Json)>, name: string): (vs: seq<Json>)
    ensures |vs| <= |fields|
    ensures forall v | v in vs :: (name, v) in fields
  {
    if fields == [] then []
    else (if fields[0].0 == name then [fields[0].1] else []) + FieldValues(fields[1..], name)
  }

  /** The values of a struct's fields `names`, read as serde's derived decoder reads them. */
  function StructFields(j: Json, names: seq<string>): (r: Option<seq<Json>>)
    ensures r.Some? ==> |r.value| == |names| && (j.JObject? || j.JArray?)
    ensures r.Some? && j.JObject? ==>
      forall i | 0 <= i < |names| :: FieldValues(j.fields, names[i]) == [r.value[i]]
    ensures r.Some? && j.JArray? ==> j.items == r.value
  {
    match j
    case JObject(fields) =>
      if forall i | 0 <= i < |names| :: |FieldValues(fields, names[i])| == 1
      then Some(seq(|names|, i requires 0 <= i < |names| => FieldValues(fields, names[i])[0]))
      else None
    case JArray(items) => if |items| == |names| then Some(items) else None
    case _ => None
  }

  /** Every element decoded by `f`; `None` as soon as one fails. */
  function DecodeSeq<V>(items: seq<Json>, f: Json -> Option<V>): (r: Option<seq<V>>)
    ensures r.Some? <==> forall i | 0 <= i < |items| :: f(items[i]).Some?
    ensures r.Some? ==> |r.value| == |items| && forall i | 0 <= i < |items| :: f(items[i]) == Some(r.value[i])
  {
    if items == [] then Some([])
    else
      match f(items[0])
      case None => None
      case Some(v) =>
        match DecodeSeq(items[1..], f)
        case None => None
        case Some(vs) => Some([v] + vs)
  }

  /** Every member decoded by `f` (which sees the key and the value); `None` as soon as one fails. */
  function DecodePairs<V>(fields: seq<(string, Json)>, f: (string, Json) -> Option<V>): (r: Option<seq<(string, V)>>)
    ensures r.Some? <==> forall i | 0 <= i < |fields| :: f(fields[i].0, fields[i].1).Some?
    ensures r.Some? ==> |r.value| == |fields|
    ensures r.Some? ==> forall i | 0 <= i < |fields| ::
      r.value[i].0 == fields[i].0 && f(fields[i].0, fields[i].1) == Some(r.value[i].1)
  {
    if fields == [] then Some([])
    else
      match f(fields[0].0, fields[0].1)
      case None => None
      case Some(v) =>
        match DecodePairs(fields[1..], f)
        case None => None
        case Some(vs) => Some([(fields[0].0, v)] + vs)
  }

  /** The map built by inserting the pairs in order: a repeated key keeps its last value. */
  function MapOf<V>(pairs: seq<(string, V)>): map<string, V>
  {
    if pairs == [] then map[]
    else
      var n := |pairs| - 1;
      MapOf(pairs[..n])[pairs[n].0 := pairs[n].1]
  }

  /** A key is in the map exactly when some pair carries it. */
  lemma {:induction false} MapOfKeys<V>(pairs: seq<(string, V)>, k: string)
    ensures k in MapOf(pairs) <==> exists i :: 0 <= i < |pairs| && pairs[i].0 == k
    decreases |pairs|
  {
    if pairs != [] {
      var n := |pairs| - 1;
      MapOfKeys(pairs[..n], k);
      if k in MapOf(pairs[..n]) {
        var i :| 0 <= i < n && pairs[..n][i].0 == k;
        assert pairs[i].0 == k;
      }
      if exists i :: 0 <= i < |pairs| && pairs[i].0 == k {
        var i :| 0 <= i < |pairs| && pairs[i].0 == k;
        if i < n { assert pairs[..n][i].0 == k; }
      }
    }
  }

  /** A key maps to the value of its last pair. */
  lemma {:induction false} MapOfLastWins<V>(pairs: seq<(string, V)>, i: nat)
    requires i < |pairs|
    requires forall j | i < j < |pairs| :: pairs[j].0 != pairs[i].0
    ensures pairs[i].0 in MapOf(pairs) && MapOf(pairs)[pairs[i].0] == pairs[i].1
    decreases |pairs|
  {
    var n := |pairs| - 1;
    if i < n {
      MapOfLastWins(pairs[..n], i);
    }
  }

  /** Every value of a decoded map is the decoding of the last member carrying its key. */
  lemma DecodeMapLastWins<V>(j: Json, f: (string, Json) -> Option<V>, i: nat)
    requires DecodeMap(j, f).Some?
    requires i < |j.fields|
    requires forall k | i < k < |j.fields| :: j.fields[k].0 != j.fields[i].0
    ensures j.fields[i].0 in DecodeMap(j, f).value
    ensures f(j.fields[i].0, j.fields[i].1) == Some(DecodeMap(j, f).value[j.fields[i].0])
  {
    var pairs := DecodePairs(j.fields, f).value;
    MapOfLastWins(pairs, i);
  }

  /** The keys of a decoded map are exactly the member names of the object. */
  lemma DecodeMapKeys<V>(j: Json, f: (string, Json) -> Option<V>, k: string)
    requires DecodeMap(j, f).Some?
    ensures k in DecodeMap(j, f).value <==> exists i :: 0 <= i < |j.fields| && j.fields[i].0 == k
  {
    var pairs := DecodePairs(j.fields, f).value;
    MapOfKeys(pairs, k);
    if exists i :: 0 <= i < |pairs| && pairs[i].0 == k {
      var i :| 0 <= i < |pairs| && pairs[i].0 == k;
      assert j.fields[i].0 == k;
    }
    if exists i :: 0 <= i < |j.fields| && j.fields[i].0 == k {
      var i :| 0 <= i < |j.fields| && j.fields[i].0 == k;
      assert pairs[i].0 == k;
    }
  }

  /** A hash map read from an object whose every member `f` accepts. */
  function DecodeMap<V>(j: Json, f: (string, Json) -> Option<V>): (r: Option<map<string, V>>)
    ensures r.Some? ==> j.JObject?
  {
    match j
    case JObject(fields) =>
      (match DecodePairs(fields, f)
       case None => None
       case Some(pairs) => Some(MapOf(pairs)))
    case _ => None
  }

  /** `IndexEntry`: the fields `key` and `value`. */
  function DecodeIndexEntry(j: Json): (r: Option<IndexEntry>)
    ensures r.Some? && j.JObject? ==>
      FieldValues(j.fields, "key") == [r.value.key] && FieldValues(j.fields, "value") == [r.value.value]
    ensures r.Some? && j.JArray? ==> j.items == [r.value.key, r.value.value]
    ensures r.Some? ==> j.JObject? || j.JArray?
  {
    match StructFields(j, ["key", "value"])
    case None => None
    case Some(vs) => Some(IndexEntry(vs[0], vs[1]))
  }

  /** `Vec<IndexEntry>`: an array of entries. */
  function DecodeIndexEntryList(j: Json): (r: Option<seq<IndexEntry>>)
    ensures r.Some? ==> j.JArray? && |r.value| == |j.items|
    ensures r.Some? ==> forall i | 0 <= i < |j.items| :: DecodeIndexEntry(j.items[i]) == Some(r.value[i])
  {
    match j
    case JArray(items) => DecodeSeq(items, DecodeIndexEntry)
    case _ => None
  }

  /**
   * `IndexEntries` exactly as declared: untagged, `OneEntry` tried first.
   * Because a struct also reads from an array of one element per field, an
   * array of exactly two entries is taken for a single entry whose key is
   * the first and whose value is the second.
   */
  function DecodeIndexEntriesAsWritten(j: Json): (r: Option<IndexEntries>)
    ensures r.Some? && r.value.ManyEntries? ==> j.JArray? && |r.value.entries| == |j.items| != 2
  {
    match DecodeIndexEntry(j)
    case Some(entry) => Some(OneEntry(entry))
    case None =>
      match DecodeIndexEntryList(j)
      case Some(list) => Some(ManyEntries(list))
      case None => None
  }

  /**
   * `IndexEntries` as intended: a single entry is an object, a list of
   * entries an array; `OneEntry` is still tried first.
   */
  function DecodeIndexEntries(j: Json): (r: Option<IndexEntries>)
    ensures r.Some? && r.value.OneEntry? ==> j.JObject?
    ensures r.Some? && r.value.ManyEntries? ==> j.JArray? && |r.value.entries| == |j.items|
    ensures j.JArray? ==> r == (match DecodeIndexEntryList(j) case Some(l) => Some(ManyEntries(l)) case None => None)
  {
    if j.JObject? && DecodeIndexEntry(j).Some? then Some(OneEntry(DecodeIndexEntry(j).value))
    else
      match DecodeIndexEntryList(j)
      case Some(list) => Some(ManyEntries(list))
      case None => None
  }

  /** An object with a single member decodes to a map with that single key. */
  lemma DecodeMapSingle<V>(k: string, v: Json, f: (string, Json) -> Option<V>)
    requires f(k, v).Some?
    ensures DecodeMap(JObject([(k, v)]), f) == Some(map[k := f(k, v).value])
  {
    var fields := [(k, v)];
    var pairs := [(k, f(k, v).value)];
    assert fields[1..] == [];
    assert DecodePairs(fields[1..], f) == Some([]);
    assert pairs + [] == pairs;
    assert DecodePairs(fields, f) == Some(pairs);
    assert pairs[..0] == [];
    assert MapOf(pairs) == map[k := f(k, v).value];
  }

  /** `HashMap<String, String>`: an object whose every value is a string. */
  function DecodeStringMap(j: Json): Option<map<string, string>>
  {
    DecodeMap(j, StringMember)
  }

  /** How one member of `index` decodes: its value must be a string. */
  function StringMember(k: string, v: Json): Option<string>
  {
    if v.JString? then Some(v.s) else None
  }

  /** `ArgsWithIndexUserData`: the field `index`. */
  function DecodeUserData(j: Json): Option<UserData>
  {
    match StructFields(j, ["index"])
    case None => None
    case Some(vs) =>
      match DecodeStringMap(vs[0])
      case None => None
      case Some(index) => Some(UserData(index))
  }

  /** `ArgsWithIndex`: the field `data`, whose keys must be account ids. */
  function DecodeArgsWithIndex(j: Json, isAccountId: string -> bool): Option<ArgsWithIndex>
  {
    match StructFields(j, ["data"])
    case None => None
    case Some(vs) =>
      match DecodeMap(vs[0], AccountMember(isAccountId))
      case None => None
      case Some(data) => Some(ArgsWithIndex(data))
  }

  /** How one member of `data` decodes: its name must be an account id, its value user data. */
  function AccountMember(isAccountId: string -> bool): (string, Json) -> Option<UserData>
  {
    (k: string, v: Json) => if isAccountId(k) then DecodeUserData(v) else None
  }

  /** Every account of decoded arguments passed account-id validation. */
  lemma DecodedAccountsAreValid(j: Json, isAccountId: string -> bool, account: AccountId)
    requires DecodeArgsWithIndex(j, isAccountId).Some?
    requires account in DecodeArgsWithIndex(j, isAccountId).value.data
    ensures isAccountId(account)
  {
    var vs := StructFields(j, ["data"]).value;
    var f := AccountMember(isAccountId);
    DecodeMapKeys(vs[0], f, account);
    var i :| 0 <= i < |vs[0].fields| && vs[0].fields[i].0 == account;
    assert f(vs[0].fields[i].0, vs[0].fields[i].1).Some?;
  }

  /** A hash map decodes exactly from an object whose every member `f` accepts. */
  lemma DecodeMapAccepts<V>(j: Json, f: (string, Json) -> Option<V>)
    ensures DecodeMap(j, f).Some? <==> j.JObject? && forall i | 0 <= i < |j.fields| :: f(j.fields[i].0, j.fields[i].1).Some?
  {
  }

  /** A string map decodes exactly from an object whose every value is a string. */
  lemma DecodeStringMapAccepts(j: Json)
    ensures DecodeStringMap(j).Some? <==> j.JObject? && forall i | 0 <= i < |j.fields| :: j.fields[i].1.JString?
  {
    DecodeMapAccepts(j, StringMember);
  }

  /**
   * User data decodes from an object exactly when it has one member `index`
   * whose value is a string map, which becomes the index; every other member
   * is ignored.
   */
  lemma DecodeUserDataAccepts(fields: seq<(string, Json)>)
    ensures DecodeUserData(JObject(fields)).Some?
        <==> |FieldValues(fields, "index")| == 1 && DecodeStringMap(FieldValues(fields, "index")[0]).Some?
    ensures DecodeUserData(JObject(fields)).Some? ==>
      DecodeStringMap(FieldValues(fields, "index")[0]) == Some(DecodeUserData(JObject(fields)).value.index)
  {
    if |FieldValues(fields, "index")| == 1 {
      assert StructFields(JObject(fields), ["index"]).Some?;
    }
  }

  /**
   * The arguments decode from an object exactly when it has one member
   * `data` whose value is an object, every member of which names an account
   * id and holds user data; every other member is ignored.
   */
  lemma DecodeArgsAccepts(fields: seq<(string, Json)>, isAccountId: string -> bool)
    ensures DecodeArgsWithIndex(JObject(fields), isAccountId).Some?
        <==> |FieldValues(fields, "data")| == 1 &&
             var d := FieldValues(fields, "data")[0];
             d.JObject? && forall i | 0 <= i < |d.fields| :: isAccountId(d.fields[i].0) && DecodeUserData(d.fields[i].1).Some?
  {
    if |FieldValues(fields, "data")| == 1 {
      var d := FieldValues(fields, "data")[0];
      assert StructFields(JObject(fields), ["data"]).Some?;
      DecodeMapAccepts(d, AccountMember(isAccountId));
    }
  }

  /**
   * One account whose name is not an account id, or whose user data does not
   * decode, makes the whole `data` map fail, and with it every other
   * account's data, the predecessor's included.
   */
  lemma OneBadAccountFailsAll(fields: seq<(string, Json)>, members: seq<(string, Json)>, isAccountId: string -> bool, i: nat)
    requires FieldValues(fields, "data") == [JObject(members)]
    requires i < |members|
    requires !isAccountId(members[i].0) || DecodeUserData(members[i].1).None?
    ensures DecodeArgsWithIndex(JObject(fields), isAccountId).None?
  {
    DecodeArgsAccepts(fields, isAccountId);
  }

  /**
   * What the indexer iterates over for a document the declared decoder
   * accepts: the one entry of an object; for an array of two elements, one
   * entry made of the pair; for any other array, its elements in order.
   */
  lemma IntoIterAsWritten(j: Json)
    requires DecodeIndexEntriesAsWritten(j).Some?
    ensures j.JObject? || j.JArray?
    ensures j.JObject? ==> IntoIter(DecodeIndexEntriesAsWritten(j).value) == [DecodeIndexEntry(j).value]
    ensures j.JArray? && |j.items| == 2 ==>
      IntoIter(DecodeIndexEntriesAsWritten(j).value) == [IndexEntry(j.items[0], j.items[1])]
    ensures j.JArray? && |j.items| != 2 ==>
      var es := IntoIter(DecodeIndexEntriesAsWritten(j).value);
      |es| == |j.items| && forall i | 0 <= i < |j.items| :: DecodeIndexEntry(j.items[i]) == Some(es[i])
  {
    if j.JArray? && |j.items| != 2 {
      assert DecodeIndexEntry(j).None?;
    }
  }

  /**
   * A struct reads from an object exactly when each of its fields occurs
   * there once, whatever else the object holds and in whatever order, and
   * from an array exactly when the array has one element per field.
   */
  lemma StructFieldsAccepts(j: Json, names: seq<string>)
    ensures j.JObject? ==>
      (StructFields(j, names).Some? <==> forall i | 0 <= i < |names| :: |FieldValues(j.fields, names[i])| == 1)
    ensures j.JArray? ==> (StructFields(j, names).Some? <==> |j.items| == |names|)
    ensures j.JArray? && |j.items| == |names| ==> StructFields(j, names) == Some(j.items)
  {
  }

  /**
   * An entry reads from an object exactly when `key` and `value` occur once
   * each; the entry holds their values, and other members are ignored.
   */
  lemma DecodeIndexEntryAccepts(fields: seq<(string, Json)>)
    ensures DecodeIndexEntry(JObject(fields)).Some?
        <==> |FieldValues(fields, "key")| == 1 && |FieldValues(fields, "value")| == 1
    ensures DecodeIndexEntry(JObject(fields)).Some? ==>
      DecodeIndexEntry(JObject(fields)).value == IndexEntry(FieldValues(fields, "key")[0], FieldValues(fields, "value")[0])
  {
    var names := ["key", "value"];
    if |FieldValues(fields, "key")| == 1 && |FieldValues(fields, "value")| == 1 {
      assert forall i | 0 <= i < |names| :: |FieldValues(fields, names[i])| == 1 by {
        assert names[0] == "key" && names[1] == "value";
      }
    } else {
      assert names[0] == "key" && names[1] == "value";
    }
  }

  /** A list of entries reads from an array exactly when every element reads as an entry. */
  lemma DecodeIndexEntryListAccepts(items: seq<Json>)
    ensures DecodeIndexEntryList(JArray(items)).Some? <==> forall i | 0 <= i < |items| :: DecodeIndexEntry(items[i]).Some?
  {
  }

  /** Member order does not matter: `{"value": v, "key": k}` is the entry with key `k` and value `v`. */
  lemma ValueFirstEntry(k: Json, v: Json)
    ensures DecodeIndexEntriesAsWritten(JObject([("value", v), ("key", k)])) == Some(OneEntry(IndexEntry(k, v)))
    ensures DecodeIndexEntries(JObject([("value", v), ("key", k)])) == Some(OneEntry(IndexEntry(k, v)))
  {
    var fields := [("value", v), ("key", k)];
    assert FieldValues(fields[2..], "key") == [];
    assert FieldValues(fields[1..], "key") == [k];
    assert FieldValues(fields, "key") == [k];
    assert FieldValues(fields[1..], "value") == [];
    assert FieldValues(fields, "value") == [v];
    DecodeIndexEntryAccepts(fields);
  }

  /** A member other than `key` and `value` is ignored. */
  lemma ExtraMemberIgnored(k: Json, v: Json, name: string, x: Json)
    requires name != "key" && name != "value"
    ensures DecodeIndexEntriesAsWritten(JObject([("key", k), (name, x), ("value", v)])) == Some(OneEntry(IndexEntry(k, v)))
  {
    var fields := [("key", k), (name, x), ("value", v)];
    assert FieldValues(fields[3..], "key") == [];
    assert FieldValues(fields[2..], "key") == [];
    assert FieldValues(fields[1..], "key") == [];
    assert FieldValues(fields, "key") == [k];
    assert FieldValues(fields[2..], "value") == [v];
    assert FieldValues(fields[1..], "value") == [v];
    assert FieldValues(fields, "value") == [v];
    DecodeIndexEntryAccepts(fields);
  }

  /** The wire form of one entry: `{"key": ..., "value": ...}`. */
  function EncodeEntry(e: IndexEntry): Json
  {
    JObject([("key", e.key), ("value", e.value)])
  }

  /** The wire form of a list of entries: an array of entry objects. */
  function EncodeEntryList(es: seq<IndexEntry>): Json
  {
    JArray(seq(|es|, i requires 0 <= i < |es| => EncodeEntry(es[i])))
  }

  /** One entry object decodes back to that entry. */
  lemma EntryRoundTrip(e: IndexEntry)
    ensures DecodeIndexEntry(EncodeEntry(e)) == Some(e)
  {
    var fields := [("key", e.key), ("value", e.value)];
    assert FieldValues(fields, "key") == [e.key];
    assert FieldValues(fields, "value") == [e.value];
  }

  /** A single entry object decodes as `OneEntry` of that entry. */
  lemma OneEntryRoundTrip(e: IndexEntry)
    ensures DecodeIndexEntries(EncodeEntry(e)) == Some(OneEntry(e))
    ensures DecodeIndexEntriesAsWritten(EncodeEntry(e)) == Some(OneEntry(e))
  {
    EntryRoundTrip(e);
  }

  /** An array of entry objects decodes back to the list, element by element. */
  lemma EntryListRoundTrip(es: seq<IndexEntry>)
    ensures DecodeIndexEntryList(EncodeEntryList(es)) == Some(es)
  {
    var items := EncodeEntryList(es).items;
    forall i | 0 <= i < |items| ensures DecodeIndexEntry(items[i]) == Some(es[i]) {
      EntryRoundTrip(es[i]);
    }
    var f: Json -> Option<IndexEntry> := DecodeIndexEntry;
    assert forall i | 0 <= i < |items| :: f(items[i]).Some?;
    var list := DecodeSeq(items, f).value;
    assert |list| == |es|;
    forall i | 0 <= i < |es| ensures list[i] == es[i] {
      assert f(items[i]) == Some(list[i]);
    }
    assert list == es;
  }

  /** With the intended decoder, a list of any length decodes as `ManyEntries` of that list. */
  lemma ManyEntriesRoundTrip(es: seq<IndexEntry>)
    ensures DecodeIndexEntries(EncodeEntryList(es)) == Some(ManyEntries(es))
  {
    EntryListRoundTrip(es);
  }

  /**
   * The declared decoder reads a list of exactly two entries as one entry
   * whose key is the first entry and whose value is the second.
   */
  lemma AsWrittenMergesPair(e1: IndexEntry, e2: IndexEntry)
    ensures DecodeIndexEntriesAsWritten(EncodeEntryList([e1, e2]))
         == Some(OneEntry(IndexEntry(EncodeEntry(e1), EncodeEntry(e2))))
    ensures DecodeIndexEntriesAsWritten(EncodeEntryList([e1, e2])) != Some(ManyEntries([e1, e2]))
  {
    assert EncodeEntryList([e1, e2]).items == [EncodeEntry(e1), EncodeEntry(e2)];
  }

  /** The two decoders differ only on arrays of exactly two elements. */
  lemma AsWrittenAgreesOffPairs(j: Json)
    requires !(j.JArray? && |j.items| == 2)
    ensures DecodeIndexEntriesAsWritten(j) == DecodeIndexEntries(j)
  {
    if j.JArray? {
      assert DecodeIndexEntry(j).None?;
    }
  }
}
