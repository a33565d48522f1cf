/**
 * The receipts the repository's integration tests replay, reduced to what
 * the indexer sees of them, and what the model says they yield.
 */
module Scenarios {
  import opened Wrappers
  import opened Json
  import opened Seqs
  import opened Chain
  import opened Shapes
  import opened Indexer
  import opened Properties

  /**
   * A `like` that also notifies: the two index types come out in whichever
   * order the hash map is iterated in. Both orders are runs of the program;
   * the test expects the one with `notify` first.
   */
  lemma LikeWithNotifyFollowsIteration(dec: Decoders, r: TransactionReceipt, tx: IncompleteTransaction,
                                       args: seq<byte>, like: string, notify: string,
                                       likeEntry: IndexEntry, notifyEntry: IndexEntry)
    requires Eligible(r) && r.body.actions == [FunctionCall("set", args)]
    requires DecodeArgs(dec, args) == Some(ArgsWithIndex(map[r.predecessorId := UserData(map["like" := like, "notify" := notify])]))
    requires DecodeEntries(dec, like) == Some(OneEntry(likeEntry))
    requires DecodeEntries(dec, notify) == Some(OneEntry(notifyEntry))
    ensures ValidTrace(dec, r, [[(r.predecessorId, ["notify", "like"])]])
    ensures ReceiptEvents(dec, r, tx, [[(r.predecessorId, ["notify", "like"])]])
         == [MakeEvent(r, tx, r.predecessorId, "notify", notifyEntry), MakeEvent(r, tx, r.predecessorId, "like", likeEntry)]
    ensures ValidTrace(dec, r, [[(r.predecessorId, ["like", "notify"])]])
    ensures ReceiptEvents(dec, r, tx, [[(r.predecessorId, ["like", "notify"])]])
         == [MakeEvent(r, tx, r.predecessorId, "like", likeEntry), MakeEvent(r, tx, r.predecessorId, "notify", notifyEntry)]
  {
    var owner := r.predecessorId;
    var data := map[owner := UserData(map["like" := like, "notify" := notify])];
    assert ArgsOf(dec, r.body.actions[0]) == Some(ArgsWithIndex(data));
    assert data.Keys == {owner};
    assert data[owner].index.Keys == {"like", "notify"};
    assert data[owner].index["like"] == like && data[owner].index["notify"] == notify;
    TwoIndexTypesReceipt(dec, r, tx, data, "notify", "like", notifyEntry, likeEntry);
    TwoIndexTypesReceipt(dec, r, tx, data, "like", "notify", likeEntry, notifyEntry);
  }

  /** A single `set` action whose predecessor has two single-entry index types, visited `t1` first. */
  lemma TwoIndexTypesReceipt(dec: Decoders, r: TransactionReceipt, tx: IncompleteTransaction, data: map<AccountId, UserData>,
                             t1: string, t2: string, e1: IndexEntry, e2: IndexEntry)
    requires Eligible(r) && |r.body.actions| == 1
    requires ArgsOf(dec, r.body.actions[0]) == Some(ArgsWithIndex(data))
    requires data.Keys == {r.predecessorId}
    requires t1 != t2 && data[r.predecessorId].index.Keys == {t1, t2}
    requires DecodeEntries(dec, data[r.predecessorId].index[t1]) == Some(OneEntry(e1))
    requires DecodeEntries(dec, data[r.predecessorId].index[t2]) == Some(OneEntry(e2))
    ensures ValidTrace(dec, r, [[(r.predecessorId, [t1, t2])]])
    ensures ReceiptEvents(dec, r, tx, [[(r.predecessorId, [t1, t2])]])
         == [MakeEvent(r, tx, r.predecessorId, t1, e1), MakeEvent(r, tx, r.predecessorId, t2, e2)]
  {
    var owner := r.predecessorId;
    var index := data[owner].index;
    var ev1 := MakeEvent(r, tx, owner, t1, e1);
    var ev2 := MakeEvent(r, tx, owner, t2, e2);
    IndexTypeEventsExact(dec, r, tx, owner, t1, index[t1]);
    IndexTypeEventsExact(dec, r, tx, owner, t2, index[t2]);
    TwoIndexTypes(dec, r, tx, owner, index, t1, t2);
    assert [ev1] + [ev2] == [ev1, ev2];
    ForOrder(dec, r, tx, data, [t1, t2], [ev1, ev2]);
  }

  /** Visiting the two index types `t1`, `t2` in that order. */
  lemma TwoIndexTypes(dec: Decoders, r: TransactionReceipt, tx: IncompleteTransaction, account: AccountId,
                      index: map<string, string>, t1: string, t2: string)
    requires t1 != t2 && index.Keys == {t1, t2}
    ensures Enumerates([t1, t2], index.Keys)
    ensures Flatten(IndexBlocks(dec, r, tx, account, index, [t1, t2]))
         == IndexTypeEvents(dec, r, tx, account, t1, index[t1]) + IndexTypeEvents(dec, r, tx, account, t2, index[t2])
  {
    EnumeratesPair(t1, t2, index.Keys);
    var e1 := IndexTypeEvents(dec, r, tx, account, t1, index[t1]);
    var e2 := IndexTypeEvents(dec, r, tx, account, t2, index[t2]);
    var blocks := IndexBlocks(dec, r, tx, account, index, [t1, t2]);
    assert blocks[0] == e1 && blocks[1] == e2;
    assert blocks == [e1, e2];
    FlattenPair(e1, e2);
  }

  /** The receipt-level events of a single `set` action whose predecessor's index is visited in `order`. */
  lemma ForOrder(dec: Decoders, r: TransactionReceipt, tx: IncompleteTransaction, data: map<AccountId, UserData>,
                 order: seq<string>, expected: seq<IndexEvent>)
    requires Eligible(r) && |r.body.actions| == 1
    requires ArgsOf(dec, r.body.actions[0]) == Some(ArgsWithIndex(data))
    requires data.Keys == {r.predecessorId}
    requires Enumerates(order, data[r.predecessorId].index.Keys)
    requires Flatten(IndexBlocks(dec, r, tx, r.predecessorId, data[r.predecessorId].index, order)) == expected
    ensures ValidTrace(dec, r, [[(r.predecessorId, order)]])
    ensures ReceiptEvents(dec, r, tx, [[(r.predecessorId, order)]]) == expected
  {
    var owner := r.predecessorId;
    var steps := [(owner, order)];
    assert Accounts(steps) == [owner];
    EnumeratesOne(owner, data.Keys);
    assert ValidStep(r, data, steps[0]);
    assert ValidSteps(r, data, steps);
    var accountBlocks := AccountBlocks(dec, r, tx, data, steps);
    assert accountBlocks[0] == expected;
    assert accountBlocks == [expected];
    FlattenOne(expected);
    assert ActionEvents(dec, r, tx, r.body.actions[0], steps) == expected;
    var blocks := ActionBlocks(dec, r, tx, r.body.actions, [steps]);
    assert blocks[0] == expected;
    assert blocks == [expected];
    assert ValidActionSteps(dec, r, r.body.actions[0], steps);
  }

  /** An entry `{"key": <recipient>, "value": <payload>}`. */
  function Notification(recipient: string, payload: Json): IndexEntry
  {
    IndexEntry(JString(recipient), payload)
  }

  /** One notification per recipient, all with the same payload. */
  function Notifications(recipients: seq<string>, payload: Json): seq<IndexEntry>
  {
    seq(|recipients|, i requires 0 <= i < |recipients| => Notification(recipients[i], payload))
  }

  /**
   * A notification to several recipients (four, in the proposal test),
   * written as one list under `notify`: one event per recipient, in list
   * order, each with the same payload. Two recipients are the exception,
   * see `NotifyTwoRecipientsMerged`.
   */
  lemma NotifyEachRecipient(dec: Decoders, r: TransactionReceipt, tx: IncompleteTransaction, raw: string,
                            recipients: seq<string>, payload: Json)
    requires dec.parseStr(raw) == Some(EncodeEntryList(Notifications(recipients, payload)))
    requires |recipients| != 2
    ensures |IndexTypeEvents(dec, r, tx, r.predecessorId, "notify", raw)| == |recipients|
    ensures forall i | 0 <= i < |recipients| ::
      IndexTypeEvents(dec, r, tx, r.predecessorId, "notify", raw)[i]
        == IndexEvent(r.blockHeight, r.blockTimestampNanosec, tx.hash, r.receiptId, r.predecessorId,
                      "notify", JString(recipients[i]), payload)
  {
    var es := Notifications(recipients, payload);
    ManyEntriesRoundTrip(es);
    AsWrittenAgreesOffPairs(EncodeEntryList(es));
    assert DecodeEntries(dec, raw) == Some(ManyEntries(es));
    IndexTypeEventsExact(dec, r, tx, r.predecessorId, "notify", raw);
  }

  /**
   * A notification to exactly two recipients yields a single event, whose
   * key is the first notification object and whose value is the second.
   */
  lemma NotifyTwoRecipientsMerged(dec: Decoders, r: TransactionReceipt, tx: IncompleteTransaction, raw: string,
                                  first: string, second: string, payload: Json)
    requires dec.parseStr(raw) == Some(EncodeEntryList(Notifications([first, second], payload)))
    ensures IndexTypeEvents(dec, r, tx, r.predecessorId, "notify", raw)
         == [IndexEvent(r.blockHeight, r.blockTimestampNanosec, tx.hash, r.receiptId, r.predecessorId, "notify",
                        EncodeEntry(Notification(first, payload)), EncodeEntry(Notification(second, payload)))]
  {
    assert Notifications([first, second], payload) == [Notification(first, payload), Notification(second, payload)];
    TwoEntryListMerged(dec, r, tx, r.predecessorId, "notify", raw, Notification(first, payload), Notification(second, payload));
  }

  /** The `set` arguments of the post test: some data, and one `post` index entry under the author's account. */
  function PostArgs(author: AccountId, rawEntry: string): Json
  {
    JObject([("data", JObject([(author, JObject([
      ("post", JObject([("main", JString("..."))])),
      ("index", JObject([("post", JString(rawEntry))]))]))]))])
  }

  /** `{"key": "main", "value": {"type": "md"}}` */
  const PostEntry: Json := JObject([("key", JString("main")), ("value", JObject([("type", JString("md"))]))])

  /** The arguments of a post decode to the author's one-entry `index` map. */
  lemma PostArgsDecode(isAccountId: string -> bool, author: AccountId, rawEntry: string)
    requires isAccountId(author)
    ensures DecodeArgsWithIndex(PostArgs(author, rawEntry), isAccountId)
         == Some(ArgsWithIndex(map[author := UserData(map["post" := rawEntry])]))
  {
    var index := map["post" := rawEntry];
    var indexJson := JObject([("post", JString(rawEntry))]);
    var userJson := JObject([("post", JObject([("main", JString("..."))])), ("index", indexJson)]);
    var dataJson := JObject([(author, userJson)]);
    assert StringMember("post", JString(rawEntry)) == Some(rawEntry);
    DecodeMapSingle("post", JString(rawEntry), StringMember);
    assert DecodeStringMap(indexJson) == Some(index);
    assert FieldValues(userJson.fields, "index") == [indexJson];
    assert DecodeUserData(userJson) == Some(UserData(index));
    assert AccountMember(isAccountId)(author, userJson) == Some(UserData(index));
    DecodeMapSingle(author, userJson, AccountMember(isAccountId));
    assert FieldValues(PostArgs(author, rawEntry).fields, "data") == [dataJson];
  }

  /** A post, written by its author under their own account, yields exactly one event. */
  lemma OnePost(dec: Decoders, r: TransactionReceipt, tx: IncompleteTransaction, args: seq<byte>, rawEntry: string)
    requires Eligible(r) && r.body.actions == [FunctionCall("set", args)]
    requires dec.isAccountId(r.predecessorId)
    requires dec.parseSlice(args) == Some(PostArgs(r.predecessorId, rawEntry))
    requires dec.parseStr(rawEntry) == Some(PostEntry)
    ensures ValidTrace(dec, r, [[(r.predecessorId, ["post"])]])
    ensures ReceiptEvents(dec, r, tx, [[(r.predecessorId, ["post"])]])
         == [IndexEvent(r.blockHeight, r.blockTimestampNanosec, tx.hash, r.receiptId, r.predecessorId,
                        "post", JString("main"), JObject([("type", JString("md"))]))]
  {
    var author := r.predecessorId;
    var entry := IndexEntry(JString("main"), JObject([("type", JString("md"))]));
    assert PostEntry == EncodeEntry(entry);
    OneEntryRoundTrip(entry);
    var index := map["post" := rawEntry];
    PostArgsDecode(dec.isAccountId, author, rawEntry);
    var data := map[author := UserData(index)];
    assert ArgsOf(dec, r.body.actions[0]) == Some(ArgsWithIndex(data));
    assert data.Keys == {author};
    OneIndexType(dec, r, tx, author, "post", rawEntry, entry);
    ForOrder(dec, r, tx, data, ["post"], [MakeEvent(r, tx, author, "post", entry)]);
  }

  /** Visiting the one index type `t` of an `index` map whose value holds a single entry. */
  lemma OneIndexType(dec: Decoders, r: TransactionReceipt, tx: IncompleteTransaction, account: AccountId,
                     t: string, raw: string, e: IndexEntry)
    requires DecodeEntries(dec, raw) == Some(OneEntry(e))
    ensures Enumerates([t], map[t := raw].Keys)
    ensures Flatten(IndexBlocks(dec, r, tx, account, map[t := raw], [t])) == [MakeEvent(r, tx, account, t, e)]
  {
    IndexTypeEventsExact(dec, r, tx, account, t, raw);
    EnumeratesOne(t, map[t := raw].Keys);
    var blocks := IndexBlocks(dec, r, tx, account, map[t := raw], [t]);
    assert blocks[0] == [MakeEvent(r, tx, account, t, e)];
    assert blocks == [[MakeEvent(r, tx, account, t, e)]];
    FlattenOne([MakeEvent(r, tx, account, t, e)]);
  }
}
