/**
 * What the indexer promises about the events one receipt yields, stated over
 * the functions of module Indexer and therefore about every run of
 * `SocialDBIndexer.OnReceipt`, whatever order its hash maps are iterated in.
 */
module Properties {
  import opened Wrappers
  import opened Json
  import opened Seqs
  import opened Chain
  import opened Shapes
  import opened Indexer

  /** The fields an event takes unchanged from its receipt and transaction. */
  predicate FromReceipt(e: IndexEvent, r: TransactionReceipt, tx: IncompleteTransaction)
  {
    e.accountId == r.predecessorId &&
    e.blockHeight == r.blockHeight &&
    e.blockTimestampNanosec == r.blockTimestampNanosec &&
    e.receiptId == r.receiptId &&
    e.transactionId == tx.hash
  }

  /** An action that can yield events: a `set` call whose arguments decode and hold the predecessor's data. */
  predicate Contributes(dec: Decoders, r: TransactionReceipt, a: Action)
  {
    ArgsOf(dec, a).Some? && r.predecessorId in ArgsOf(dec, a).value.data
  }

  /** The number of events one raw index string yields. */
  function EntryCount(dec: Decoders, raw: string): nat
  {
    match DecodeEntries(dec, raw)
    case None => 0
    case Some(entries) => |IntoIter(entries)|
  }

  /** The number of events of the index types in `order`. */
  function IndexCount(dec: Decoders, index: map<string, string>, order: seq<string>): nat
  {
    if order == [] then 0
    else
      var n := |order| - 1;
      IndexCount(dec, index, order[..n]) + (if order[n] in index then EntryCount(dec, index[order[n]]) else 0)
  }

  /** The number of events of one visited account: its index types' entries when it is the predecessor, else none. */
  function StepCount(dec: Decoders, r: TransactionReceipt, data: map<AccountId, UserData>, step: AccountStep): nat
  {
    if step.0 !in data || step.0 != r.predecessorId then 0 else IndexCount(dec, data[step.0].index, step.1)
  }

  /** The number of events of the accounts visited in `steps`. */
  function AccountsCount(dec: Decoders, r: TransactionReceipt, data: map<AccountId, UserData>, steps: seq<AccountStep>): nat
  {
    if steps == [] then 0
    else
      var n := |steps| - 1;
      AccountsCount(dec, r, data, steps[..n]) + StepCount(dec, r, data, steps[n])
  }

  /** The number of events of one action: none unless its arguments decode. */
  function ActionCount(dec: Decoders, r: TransactionReceipt, a: Action, steps: seq<AccountStep>): nat
  {
    match ArgsOf(dec, a)
    case None => 0
    case Some(args) => AccountsCount(dec, r, args.data, steps)
  }

  /** The number of events of the actions, action `i` iterated as `trace[i]` says. */
  function ActionsCount(dec: Decoders, r: TransactionReceipt, actions: seq<Action>, trace: seq<seq<AccountStep>>): nat
  {
    if actions == [] then 0
    else
      var n := |actions| - 1;
      ActionsCount(dec, r, actions[..n], trace) + ActionCount(dec, r, actions[n], if n < |trace| then trace[n] else [])
  }

  /** The number of events of a receipt: none unless it passes the receipt filter. */
  function ReceiptCount(dec: Decoders, r: TransactionReceipt, trace: seq<seq<AccountStep>>): nat
  {
    if !Eligible(r) then 0 else ActionsCount(dec, r, r.body.actions, trace)
  }

  // ---------------------------------------------------------------------
  // Entries of one index type

  /**
   * The event of one entry keeps the entry's key and value unchanged, names
   * the account and the index type, and is stamped with the receipt's block,
   * the receipt id and the transaction hash.
   */
  lemma MakeEventFields(r: TransactionReceipt, tx: IncompleteTransaction, account: AccountId, indexType: string, entry: IndexEntry)
    ensures var e := MakeEvent(r, tx, account, indexType, entry);
      IndexEntry(e.indexKey, e.indexValue) == entry && e.accountId == account && e.indexType == indexType &&
      e.blockHeight == r.blockHeight && e.blockTimestampNanosec == r.blockTimestampNanosec &&
      e.receiptId == r.receiptId && e.transactionId == tx.hash
  {
  }

  /** One event per entry, in list order, with the fields fixed by the receipt, the account and the index type. */
  lemma {:induction false} EntryEventsInOrder(r: TransactionReceipt, tx: IncompleteTransaction, account: AccountId, indexType: string, entries: seq<IndexEntry>)
    ensures |EntryEvents(r, tx, account, indexType, entries)| == |entries|
    ensures forall i | 0 <= i < |entries| ::
      EntryEvents(r, tx, account, indexType, entries)[i]
        == IndexEvent(r.blockHeight, r.blockTimestampNanosec, tx.hash, r.receiptId,
                      account, indexType, entries[i].key, entries[i].value)
    decreases |entries|
  {
    if entries != [] {
      var n := |entries| - 1;
      EntryEventsInOrder(r, tx, account, indexType, entries[..n]);
    }
  }

  /**
   * A raw string that does not decode yields nothing; a single entry yields
   * exactly one event; a list yields one event per element, in list order.
   */
  lemma IndexTypeEventsExact(dec: Decoders, r: TransactionReceipt, tx: IncompleteTransaction, account: AccountId, indexType: string, raw: string)
    ensures |IndexTypeEvents(dec, r, tx, account, indexType, raw)| == EntryCount(dec, raw)
    ensures match DecodeEntries(dec, raw)
      case None => IndexTypeEvents(dec, r, tx, account, indexType, raw) == []
      case Some(OneEntry(e)) => IndexTypeEvents(dec, r, tx, account, indexType, raw) == [MakeEvent(r, tx, account, indexType, e)]
      case Some(ManyEntries(es)) =>
        |IndexTypeEvents(dec, r, tx, account, indexType, raw)| == |es| &&
        forall i | 0 <= i < |es| :: IndexTypeEvents(dec, r, tx, account, indexType, raw)[i] == MakeEvent(r, tx, account, indexType, es[i])
  {
    match DecodeEntries(dec, raw)
    case None =>
    case Some(entries) =>
      EntryEventsInOrder(r, tx, account, indexType, IntoIter(entries));
  }

  /**
   * A raw string holding a list of exactly two entries yields a single event:
   * the declared decoder reads the pair as one entry, the first object as its
   * key and the second as its value.
   */
  lemma TwoEntryListMerged(dec: Decoders, r: TransactionReceipt, tx: IncompleteTransaction, account: AccountId, indexType: string,
                           raw: string, e1: IndexEntry, e2: IndexEntry)
    requires dec.parseStr(raw) == Some(EncodeEntryList([e1, e2]))
    ensures IndexTypeEvents(dec, r, tx, account, indexType, raw)
         == [MakeEvent(r, tx, account, indexType, IndexEntry(EncodeEntry(e1), EncodeEntry(e2)))]
  {
    AsWrittenMergesPair(e1, e2);
    IndexTypeEventsExact(dec, r, tx, account, indexType, raw);
  }

  // ---------------------------------------------------------------------
  // Index types of one account

  /** The events of an account's index types are the sum of their entry counts. */
  lemma {:induction false} IndexEventsCount(dec: Decoders, r: TransactionReceipt, tx: IncompleteTransaction, account: AccountId, index: map<string, string>, order: seq<string>)
    ensures |Flatten(IndexBlocks(dec, r, tx, account, index, order))| == IndexCount(dec, index, order)
    decreases |order|
  {
    if order != [] {
      var n := |order| - 1;
      assert order == order[..n] + [order[n]];
      IndexEventsCount(dec, r, tx, account, index, order[..n]);
      if order[n] in index {
        IndexEventsSnoc(dec, r, tx, account, index, order[..n], order[n]);
        IndexTypeEventsExact(dec, r, tx, account, order[n], index[order[n]]);
      } else {
        assert IndexBlocks(dec, r, tx, account, index, order)
            == IndexBlocks(dec, r, tx, account, index, order[..n]) + [[]];
        FlattenSnoc(IndexBlocks(dec, r, tx, account, index, order[..n]), []);
      }
    }
  }

  /** Every event of an account's index types belongs to that account and to the receipt. */
  lemma IndexEventsFrom(dec: Decoders, r: TransactionReceipt, tx: IncompleteTransaction, account: AccountId, index: map<string, string>, order: seq<string>, e: IndexEvent)
    requires e in Flatten(IndexBlocks(dec, r, tx, account, index, order))
    ensures e.accountId == account && e.indexType in order && e.indexType in index
    ensures e.blockHeight == r.blockHeight && e.blockTimestampNanosec == r.blockTimestampNanosec
    ensures e.receiptId == r.receiptId && e.transactionId == tx.hash
  {
    var blocks := IndexBlocks(dec, r, tx, account, index, order);
    FlattenMember(blocks, e);
    var i :| 0 <= i < |blocks| && e in blocks[i];
    var t := order[i];
    assert t in index;
    var raw := index[t];
    var entries := DecodeEntries(dec, raw).value;
    EntryEventsInOrder(r, tx, account, t, IntoIter(entries));
  }

  /** An index type whose string does not decode is skipped; the ones around it are unaffected. */
  lemma MalformedIndexTypeIsLocal(dec: Decoders, r: TransactionReceipt, tx: IncompleteTransaction, account: AccountId, index: map<string, string>, o1: seq<string>, t: string, o2: seq<string>)
    requires t in index && DecodeEntries(dec, index[t]).None?
    ensures Flatten(IndexBlocks(dec, r, tx, account, index, o1 + [t] + o2))
         == Flatten(IndexBlocks(dec, r, tx, account, index, o1)) + Flatten(IndexBlocks(dec, r, tx, account, index, o2))
  {
    var ts := o1 + [t] + o2;
    var all := IndexBlocks(dec, r, tx, account, index, ts);
    var left := IndexBlocks(dec, r, tx, account, index, o1);
    var right := IndexBlocks(dec, r, tx, account, index, o2);
    ConcatParts(o1, t, o2);
    var f := IndexTypeBlock(dec, r, tx, account, index);
    BlocksShift(f, ts, 0, o1);
    BlocksShift(f, ts, |o1| + 1, o2);
    assert IndexTypeEvents(dec, r, tx, account, t, index[t]) == [];
    assert all[|o1|] == [];
    FlattenSkip(all, left, right);
  }


  /** Two iteration orders over the same index map yield the same events, up to order. */
  lemma IndexEventsPermute(dec: Decoders, r: TransactionReceipt, tx: IncompleteTransaction, account: AccountId, index: map<string, string>, o1: seq<string>, o2: seq<string>)
    requires Enumerates(o1, index.Keys) && Enumerates(o2, index.Keys)
    ensures multiset(Flatten(IndexBlocks(dec, r, tx, account, index, o1)))
         == multiset(Flatten(IndexBlocks(dec, r, tx, account, index, o2)))
  {
    EnumerationsPermute(o1, o2, index.Keys);
    var g := (t: string) => multiset(if t in index then IndexTypeEvents(dec, r, tx, account, t, index[t]) else []);
    FlattenKeyed(IndexBlocks(dec, r, tx, account, index, o1), o1, IndexBlocks(dec, r, tx, account, index, o2), o2, g);
  }

  // ---------------------------------------------------------------------
  // Accounts of one action

  /** An account other than the predecessor is skipped; the accounts around it are unaffected. */
  lemma ForeignAccountIsLocal(dec: Decoders, r: TransactionReceipt, tx: IncompleteTransaction, data: map<AccountId, UserData>, s1: seq<AccountStep>, step: AccountStep, s2: seq<AccountStep>)
    requires step.0 != r.predecessorId
    ensures Flatten(AccountBlocks(dec, r, tx, data, s1 + [step] + s2))
         == Flatten(AccountBlocks(dec, r, tx, data, s1)) + Flatten(AccountBlocks(dec, r, tx, data, s2))
  {
    var ss := s1 + [step] + s2;
    var all := AccountBlocks(dec, r, tx, data, ss);
    var left := AccountBlocks(dec, r, tx, data, s1);
    var right := AccountBlocks(dec, r, tx, data, s2);
    ConcatParts(s1, step, s2);
    var f := AccountBlock(dec, r, tx, data);
    BlocksShift(f, ss, 0, s1);
    BlocksShift(f, ss, |s1| + 1, s2);
    assert all[|s1|] == [];
    FlattenSkip(all, left, right);
  }


  /**
   * Of all the accounts in `data`, only the predecessor's yields events: an
   * action yields exactly the events of the predecessor's index map, every
   * index type visited once, and nothing when the predecessor has no data.
   */
  lemma OwnerDataOnly(dec: Decoders, r: TransactionReceipt, tx: IncompleteTransaction, data: map<AccountId, UserData>, steps: seq<AccountStep>)
    requires ValidSteps(r, data, steps)
    ensures r.predecessorId !in data ==> Flatten(AccountBlocks(dec, r, tx, data, steps)) == []
    ensures r.predecessorId in data ==>
      exists k :: 0 <= k < |steps| && steps[k].0 == r.predecessorId &&
        Enumerates(steps[k].1, data[r.predecessorId].index.Keys) &&
        Flatten(AccountBlocks(dec, r, tx, data, steps))
          == Flatten(IndexBlocks(dec, r, tx, r.predecessorId, data[r.predecessorId].index, steps[k].1))
  {
    var blocks := AccountBlocks(dec, r, tx, data, steps);
    var owner := r.predecessorId;
    if owner !in data {
      forall i | 0 <= i < |blocks| ensures blocks[i] == [] {
        assert ValidStep(r, data, steps[i]);
      }
      FlattenEmpty(blocks);
    } else {
      assert owner in Accounts(steps);
      var k :| 0 <= k < |steps| && Accounts(steps)[k] == owner;
      forall i | 0 <= i < |blocks| && i != k ensures blocks[i] == [] {
        assert Accounts(steps)[i] != Accounts(steps)[k];
      }
      FlattenSingle(blocks, k);
      assert ValidStep(r, data, steps[k]);
    }
  }

  /** Two iteration orders over the same accounts yield the same events, up to order. */
  lemma AccountEventsPermute(dec: Decoders, r: TransactionReceipt, tx: IncompleteTransaction, data: map<AccountId, UserData>, s1: seq<AccountStep>, s2: seq<AccountStep>)
    requires ValidSteps(r, data, s1) && ValidSteps(r, data, s2)
    ensures multiset(Flatten(AccountBlocks(dec, r, tx, data, s1))) == multiset(Flatten(AccountBlocks(dec, r, tx, data, s2)))
  {
    OwnerDataOnly(dec, r, tx, data, s1);
    OwnerDataOnly(dec, r, tx, data, s2);
    var owner := r.predecessorId;
    if owner in data {
      var index := data[owner].index;
      var k1 :| 0 <= k1 < |s1| && s1[k1].0 == owner && Enumerates(s1[k1].1, index.Keys) &&
        Flatten(AccountBlocks(dec, r, tx, data, s1)) == Flatten(IndexBlocks(dec, r, tx, owner, index, s1[k1].1));
      var k2 :| 0 <= k2 < |s2| && s2[k2].0 == owner && Enumerates(s2[k2].1, index.Keys) &&
        Flatten(AccountBlocks(dec, r, tx, data, s2)) == Flatten(IndexBlocks(dec, r, tx, owner, index, s2[k2].1));
      IndexEventsPermute(dec, r, tx, owner, index, s1[k1].1, s2[k2].1);
    }
  }

  // ---------------------------------------------------------------------
  // Actions of one receipt

  /**
   * An action that is not a `set` call, whose arguments do not decode, or
   * that carries no data of the predecessor yields nothing.
   */
  lemma SkippedActionEmitsNothing(dec: Decoders, r: TransactionReceipt, tx: IncompleteTransaction, a: Action, steps: seq<AccountStep>)
    requires !Contributes(dec, r, a)
    ensures ActionEvents(dec, r, tx, a, steps) == []
  {
    match ArgsOf(dec, a)
    case None =>
    case Some(args) =>
      var blocks := AccountBlocks(dec, r, tx, args.data, steps);
      forall i | 0 <= i < |blocks| ensures blocks[i] == [] {
      }
      FlattenEmpty(blocks);
  }

  /** Only a call to `set` has arguments, and they are its `args` decoded. */
  lemma ArgsOfSetOnly(dec: Decoders, a: Action)
    ensures ArgsOf(dec, a).Some? <==> a.FunctionCall? && a.methodName == "set" && DecodeArgs(dec, a.args).Some?
    ensures ArgsOf(dec, a).Some? ==> ArgsOf(dec, a) == DecodeArgs(dec, a.args)
  {
  }

  /**
   * A `set` call one of whose accounts has a name that is not an account id,
   * or user data that does not decode, is skipped as a whole: it yields
   * nothing, not even the predecessor's events, and visits no account.
   */
  lemma MalformedAccountSkipsAction(dec: Decoders, r: TransactionReceipt, tx: IncompleteTransaction, a: Action, steps: seq<AccountStep>,
                                    fields: seq<(string, Json)>, members: seq<(string, Json)>, i: nat)
    requires a.FunctionCall? && a.methodName == "set"
    requires dec.parseSlice(a.args) == Some(JObject(fields))
    requires FieldValues(fields, "data") == [JObject(members)]
    requires i < |members|
    requires !dec.isAccountId(members[i].0) || DecodeUserData(members[i].1).None?
    ensures ArgsOf(dec, a).None? && !Contributes(dec, r, a)
    ensures ActionEvents(dec, r, tx, a, steps) == []
    ensures ValidActionSteps(dec, r, a, steps) <==> steps == []
  {
    OneBadAccountFailsAll(fields, members, dec.isAccountId, i);
  }

  /** A skipped action does not affect the actions before or after it. */
  lemma SkippedActionIsLocal(dec: Decoders, r: TransactionReceipt, tx: IncompleteTransaction,
                             as1: seq<Action>, a: Action, as2: seq<Action>,
                             t1: seq<seq<AccountStep>>, steps: seq<AccountStep>, t2: seq<seq<AccountStep>>)
    requires |t1| == |as1| && |t2| == |as2|
    requires !Contributes(dec, r, a)
    ensures Flatten(ActionBlocks(dec, r, tx, as1 + [a] + as2, t1 + [steps] + t2))
         == Flatten(ActionBlocks(dec, r, tx, as1, t1)) + Flatten(ActionBlocks(dec, r, tx, as2, t2))
  {
    var all := ActionBlocks(dec, r, tx, as1 + [a] + as2, t1 + [steps] + t2);
    var left := ActionBlocks(dec, r, tx, as1, t1);
    var right := ActionBlocks(dec, r, tx, as2, t2);
    var middle := ActionEvents(dec, r, tx, a, steps);
    SkippedActionEmitsNothing(dec, r, tx, a, steps);
    ActionBlocksAround(dec, r, tx, as1, a, as2, t1, steps, t2, all, left, middle, right);
    FlattenSkip(all, left, right);
  }

  /** The blocks of actions around one action are those of the actions before it and after it. */
  lemma ActionBlocksAround(dec: Decoders, r: TransactionReceipt, tx: IncompleteTransaction,
                           as1: seq<Action>, a: Action, as2: seq<Action>,
                           t1: seq<seq<AccountStep>>, steps: seq<AccountStep>, t2: seq<seq<AccountStep>>,
                           all: seq<seq<IndexEvent>>, left: seq<seq<IndexEvent>>, middle: seq<IndexEvent>, right: seq<seq<IndexEvent>>)
    requires |t1| == |as1| && |t2| == |as2|
    requires all == ActionBlocks(dec, r, tx, as1 + [a] + as2, t1 + [steps] + t2)
    requires left == ActionBlocks(dec, r, tx, as1, t1) && right == ActionBlocks(dec, r, tx, as2, t2)
    requires middle == ActionEvents(dec, r, tx, a, steps)
    ensures |all| == |left| + 1 + |right|
    ensures forall i | 0 <= i < |left| :: all[i] == left[i]
    ensures all[|left|] == middle
    ensures forall i | 0 <= i < |right| :: all[|left| + 1 + i] == right[i]
  {
    var acts := as1 + [a] + as2;
    var ts := t1 + [steps] + t2;
    ConcatParts(as1, a, as2);
    ConcatParts(t1, steps, t2);
    ActionBlocksShift(dec, r, tx, acts, ts, 0, as1, t1, all, left);
    ActionBlocksShift(dec, r, tx, acts, ts, |as1| + 1, as2, t2, all, right);
  }

  /** Actions that reappear, with their steps, from position `off` on have the same blocks there. */
  lemma ActionBlocksShift(dec: Decoders, r: TransactionReceipt, tx: IncompleteTransaction,
                          acts: seq<Action>, ts: seq<seq<AccountStep>>, off: nat, bs: seq<Action>, tbs: seq<seq<AccountStep>>,
                          all: seq<seq<IndexEvent>>, part: seq<seq<IndexEvent>>)
    requires |tbs| == |bs| && off + |bs| <= |acts| && off + |bs| <= |ts|
    requires forall i | 0 <= i < |bs| :: acts[off + i] == bs[i] && ts[off + i] == tbs[i]
    requires all == ActionBlocks(dec, r, tx, acts, ts) && part == ActionBlocks(dec, r, tx, bs, tbs)
    ensures forall i | 0 <= i < |part| :: all[off + i] == part[i]
  {
  }

  /** A receipt that yields any event passed the receipt filter and has an action that contributes. */
  lemma EmittingReceipt(dec: Decoders, r: TransactionReceipt, tx: IncompleteTransaction, trace: seq<seq<AccountStep>>)
    requires ReceiptEvents(dec, r, tx, trace) != []
    ensures IsSuccessful(r.status, false)
    ensures r.receiverId == SOCIALDB_CONTRACT
    ensures r.body.ActionReceipt?
    ensures exists i :: 0 <= i < |r.body.actions| && Contributes(dec, r, r.body.actions[i])
  {
    var blocks := ActionBlocks(dec, r, tx, r.body.actions, trace);
    var e := ReceiptEvents(dec, r, tx, trace)[0];
    FlattenMember(blocks, e);
    var i :| 0 <= i < |blocks| && e in blocks[i];
    if !Contributes(dec, r, r.body.actions[i]) {
      SkippedActionEmitsNothing(dec, r, tx, r.body.actions[i], if i < |trace| then trace[i] else []);
    }
  }

  /**
   * A receipt that fails the filter (not strictly successful, not sent to the
   * contract, or not an action receipt) yields nothing, and the program
   * visits nothing of it.
   */
  lemma IneligibleReceiptEmitsNothing(dec: Decoders, r: TransactionReceipt, tx: IncompleteTransaction, trace: seq<seq<AccountStep>>)
    requires !IsSuccessful(r.status, false) || r.receiverId != SOCIALDB_CONTRACT || !r.body.ActionReceipt?
    ensures ReceiptEvents(dec, r, tx, trace) == []
    ensures ValidTrace(dec, r, trace) <==> trace == []
  {
  }

  /** Every event of a receipt carries the predecessor as its account and the receipt's and transaction's fields. */
  lemma EveryEventFromReceipt(dec: Decoders, r: TransactionReceipt, tx: IncompleteTransaction, trace: seq<seq<AccountStep>>)
    ensures forall e | e in ReceiptEvents(dec, r, tx, trace) :: FromReceipt(e, r, tx)
  {
    forall e | e in ReceiptEvents(dec, r, tx, trace) ensures FromReceipt(e, r, tx) {
      var blocks := ActionBlocks(dec, r, tx, r.body.actions, trace);
      FlattenMember(blocks, e);
      var i :| 0 <= i < |blocks| && e in blocks[i];
      var a := r.body.actions[i];
      var data := ArgsOf(dec, a).value.data;
      var steps := if i < |trace| then trace[i] else [];
      var accounts := AccountBlocks(dec, r, tx, data, steps);
      FlattenMember(accounts, e);
      var k :| 0 <= k < |accounts| && e in accounts[k];
      IndexEventsFrom(dec, r, tx, steps[k].0, data[steps[k].0].index, steps[k].1, e);
    }
  }

  /**
   * The events of a receipt do not depend on the order its hash maps are
   * iterated in, except for their order: any two runs yield the same events
   * and the same number of them.
   */
  lemma ReceiptEventsDeterministic(dec: Decoders, r: TransactionReceipt, tx: IncompleteTransaction, t1: seq<seq<AccountStep>>, t2: seq<seq<AccountStep>>)
    requires ValidTrace(dec, r, t1) && ValidTrace(dec, r, t2)
    ensures multiset(ReceiptEvents(dec, r, tx, t1)) == multiset(ReceiptEvents(dec, r, tx, t2))
    ensures |ReceiptEvents(dec, r, tx, t1)| == |ReceiptEvents(dec, r, tx, t2)|
  {
    if Eligible(r) {
      var actions := r.body.actions;
      var b1 := ActionBlocks(dec, r, tx, actions, t1);
      var b2 := ActionBlocks(dec, r, tx, actions, t2);
      forall i | 0 <= i < |actions| ensures multiset(b1[i]) == multiset(b2[i]) {
        assert ValidActionSteps(dec, r, actions[i], t1[i]) && ValidActionSteps(dec, r, actions[i], t2[i]);
        match ArgsOf(dec, actions[i])
        case None =>
        case Some(args) =>
          AccountEventsPermute(dec, r, tx, args.data, t1[i], t2[i]);
      }
      FlattenPointwise(b1, b2);
    }
    assert |multiset(ReceiptEvents(dec, r, tx, t1))| == |ReceiptEvents(dec, r, tx, t1)|;
    assert |multiset(ReceiptEvents(dec, r, tx, t2))| == |ReceiptEvents(dec, r, tx, t2)|;
  }

  // ---------------------------------------------------------------------
  // Event counts

  /** The events of the visited accounts number the entries of the predecessor's visited index types. */
  lemma {:induction false} AccountsEventsCount(dec: Decoders, r: TransactionReceipt, tx: IncompleteTransaction, data: map<AccountId, UserData>, steps: seq<AccountStep>)
    ensures |Flatten(AccountBlocks(dec, r, tx, data, steps))| == AccountsCount(dec, r, data, steps)
    decreases |steps|
  {
    if steps != [] {
      var n := |steps| - 1;
      var init, step := steps[..n], steps[n];
      assert steps == init + [step];
      AccountEventsSnoc(dec, r, tx, data, init, step);
      AccountsEventsCount(dec, r, tx, data, init);
      StepEventsCount(dec, r, tx, data, step);
    }
  }

  /** The events of one visited account number its step count. */
  lemma StepEventsCount(dec: Decoders, r: TransactionReceipt, tx: IncompleteTransaction, data: map<AccountId, UserData>, step: AccountStep)
    ensures |AccountEvents(dec, r, tx, data, step)| == StepCount(dec, r, data, step)
  {
    if step.0 in data && step.0 == r.predecessorId {
      IndexEventsCount(dec, r, tx, step.0, data[step.0].index, step.1);
    }
  }

  /** Appending an action appends its events' block. */
  lemma ActionBlocksSnoc(dec: Decoders, r: TransactionReceipt, tx: IncompleteTransaction, actions: seq<Action>, trace: seq<seq<AccountStep>>)
    requires actions != []
    ensures var n := |actions| - 1;
      ActionBlocks(dec, r, tx, actions, trace)
        == ActionBlocks(dec, r, tx, actions[..n], trace) + [ActionEvents(dec, r, tx, actions[n], if n < |trace| then trace[n] else [])]
  {
    var n := |actions| - 1;
    var all := ActionBlocks(dec, r, tx, actions, trace);
    var init := ActionBlocks(dec, r, tx, actions[..n], trace);
    var last := ActionEvents(dec, r, tx, actions[n], if n < |trace| then trace[n] else []);
    forall k | 0 <= k < n ensures all[k] == init[k] {
      assert actions[..n][k] == actions[k];
    }
    assert all[n] == last;
    SnocPointwise(all, init, last);
  }

  /** The events of the actions number the events each action's visited accounts yield. */
  lemma {:induction false} ActionsEventsCount(dec: Decoders, r: TransactionReceipt, tx: IncompleteTransaction, actions: seq<Action>, trace: seq<seq<AccountStep>>)
    ensures |Flatten(ActionBlocks(dec, r, tx, actions, trace))| == ActionsCount(dec, r, actions, trace)
    decreases |actions|
  {
    if actions != [] {
      var n := |actions| - 1;
      var steps := if n < |trace| then trace[n] else [];
      ActionBlocksSnoc(dec, r, tx, actions, trace);
      FlattenSnoc(ActionBlocks(dec, r, tx, actions[..n], trace), ActionEvents(dec, r, tx, actions[n], steps));
      ActionsEventsCount(dec, r, tx, actions[..n], trace);
      match ArgsOf(dec, actions[n])
      case None =>
      case Some(args) => AccountsEventsCount(dec, r, tx, args.data, steps);
    }
  }

  /**
   * A receipt yields as many events as there are entries over the surviving
   * (action, account, index type) triples: actions whose arguments decode,
   * the predecessor's account, and index types whose string decodes.
   */
  lemma ReceiptEventsCount(dec: Decoders, r: TransactionReceipt, tx: IncompleteTransaction, trace: seq<seq<AccountStep>>)
    ensures |ReceiptEvents(dec, r, tx, trace)| == ReceiptCount(dec, r, trace)
  {
    if Eligible(r) {
      ActionsEventsCount(dec, r, tx, r.body.actions, trace);
    }
  }

  /**
   * On a run the program can make, an action's count is the entry count of
   * the predecessor's whole index map, visited once, or zero when the action
   * holds no data of the predecessor.
   */
  lemma ValidActionCount(dec: Decoders, r: TransactionReceipt, a: Action, steps: seq<AccountStep>)
    requires ValidActionSteps(dec, r, a, steps)
    ensures !Contributes(dec, r, a) ==> ActionCount(dec, r, a, steps) == 0
    ensures Contributes(dec, r, a) ==>
      var index := ArgsOf(dec, a).value.data[r.predecessorId].index;
      exists k :: 0 <= k < |steps| && steps[k].0 == r.predecessorId && Enumerates(steps[k].1, index.Keys) &&
        ActionCount(dec, r, a, steps) == IndexCount(dec, index, steps[k].1)
  {
    match ArgsOf(dec, a)
    case None =>
    case Some(args) =>
      var tx := IncompleteTransaction([]);
      var data := args.data;
      OwnerDataOnly(dec, r, tx, data, steps);
      AccountsEventsCount(dec, r, tx, data, steps);
      if r.predecessorId in data {
        var index := data[r.predecessorId].index;
        var k :| 0 <= k < |steps| && steps[k].0 == r.predecessorId && Enumerates(steps[k].1, index.Keys) &&
          Flatten(AccountBlocks(dec, r, tx, data, steps))
            == Flatten(IndexBlocks(dec, r, tx, r.predecessorId, index, steps[k].1));
        IndexEventsCount(dec, r, tx, r.predecessorId, index, steps[k].1);
      }
  }
}
