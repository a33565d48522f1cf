/**
 * The SocialDB indexer: how one receipt becomes index events.
 *
 * The functions of this module say which events a receipt yields; the class
 * `SocialDBIndexer` produces them the way the program does, with nested
 * loops that hand each event to the handler as soon as it is built.
 *
 * Hash maps are iterated in an order nobody controls. The functions
 * therefore take that order as an argument (a "trace": for each action, the
 * accounts in the order visited, each with the index types in the order
 * visited), and the methods report the order they actually took.
 */
module Indexer {
  import opened Wrappers
  import opened Json
  import opened Seqs
  import opened Chain
  import opened Shapes

  /** The SocialDB contract's account. */
  const SOCIALDB_CONTRACT: AccountId := "social.near"

  /** One index event, as handed to the handler. */
  datatype IndexEvent = IndexEvent(
    blockHeight: nat,
    blockTimestampNanosec: nat,
    transactionId: CryptoHash,
    receiptId: CryptoHash,
    accountId: AccountId,
    indexType: string,
    indexKey: Json,
    indexValue: Json)

  /**
   * The foreign code the indexer relies on: the JSON parser behind
   * `from_slice` (bytes) and `from_str` (text), and account-id validation.
   */
  datatype Decoders = Decoders(
    parseSlice: seq<byte> -> Option<Json>,
    parseStr: string -> Option<Json>,
    isAccountId: string -> bool)

  /** The call arguments read as `ArgsWithIndex`. */
  function DecodeArgs(dec: Decoders, args: seq<byte>): Option<ArgsWithIndex>
  {
    match dec.parseSlice(args)
    case None => None
    case Some(j) => DecodeArgsWithIndex(j, dec.isAccountId)
  }

  /**
   * One raw index string read as `IndexEntries`, exactly as declared: an
   * array of two elements is read as a single entry.
   */
  function DecodeEntries(dec: Decoders, raw: string): Option<IndexEntries>
  {
    match dec.parseStr(raw)
    case None => None
    case Some(j) => DecodeIndexEntriesAsWritten(j)
  }

  /** The receipt filter: strictly successful, sent to the contract, and an action receipt. */
  predicate Eligible(r: TransactionReceipt)
  {
    IsSuccessful(r.status, false) && r.receiverId == SOCIALDB_CONTRACT && r.body.ActionReceipt?
  }

  /** The arguments of a call to `set`; any other action has none. */
  function SetArgs(a: Action): Option<seq<byte>>
  {
    if a.FunctionCall? && a.methodName == "set" then Some(a.args) else None
  }

  /** The decoded arguments of a `set` call, when they decode; any other action has none. */
  function ArgsOf(dec: Decoders, a: Action): Option<ArgsWithIndex>
  {
    match SetArgs(a)
    case None => None
    case Some(args) => DecodeArgs(dec, args)
  }

  /**
   * The event of one entry: the entry's key and value unchanged, under the
   * account and index type, stamped with the receipt's block, the receipt id
   * and the transaction hash.
   */
  function MakeEvent(r: TransactionReceipt, tx: IncompleteTransaction, account: AccountId, indexType: string, entry: IndexEntry): IndexEvent
  {
    IndexEvent(r.blockHeight, r.blockTimestampNanosec, tx.hash, r.receiptId, account, indexType, entry.key, entry.value)
  }

  /** One event per entry. */
  function EntryEvents(r: TransactionReceipt, tx: IncompleteTransaction, account: AccountId, indexType: string, entries: seq<IndexEntry>): seq<IndexEvent>
  {
    if entries == [] then []
    else
      var n := |entries| - 1;
      EntryEvents(r, tx, account, indexType, entries[..n]) + [MakeEvent(r, tx, account, indexType, entries[n])]
  }

  /** The events of one index type: none when its string does not decode. */
  function IndexTypeEvents(dec: Decoders, r: TransactionReceipt, tx: IncompleteTransaction, account: AccountId, indexType: string, raw: string): seq<IndexEvent>
  {
    match DecodeEntries(dec, raw)
    case None => []
    case Some(entries) => EntryEvents(r, tx, account, indexType, IntoIter(entries))
  }

  /** The events of each index type of `index`, visited in `order`. */
  function IndexBlocks(dec: Decoders, r: TransactionReceipt, tx: IncompleteTransaction, account: AccountId, index: map<string, string>, order: seq<string>): seq<seq<IndexEvent>>
  {
    Blocks(IndexTypeBlock(dec, r, tx, account, index), order)
  }

  /** The events of one visited index type of `index`. */
  function IndexTypeBlock(dec: Decoders, r: TransactionReceipt, tx: IncompleteTransaction, account: AccountId, index: map<string, string>): string -> seq<IndexEvent>
  {
    t => if t in index then IndexTypeEvents(dec, r, tx, account, t, index[t]) else []
  }

  /** One account visited in a hash-map iteration, with the index types visited under it. */
  type AccountStep = (AccountId, seq<string>)

  /** The events of one account: none unless it is the receipt's predecessor. */
  function AccountEvents(dec: Decoders, r: TransactionReceipt, tx: IncompleteTransaction, data: map<AccountId, UserData>, step: AccountStep): seq<IndexEvent>
  {
    var (account, order) := step;
    if account !in data || account != r.predecessorId then []
    else Flatten(IndexBlocks(dec, r, tx, account, data[account].index, order))
  }

  function AccountBlocks(dec: Decoders, r: TransactionReceipt, tx: IncompleteTransaction, data: map<AccountId, UserData>, steps: seq<AccountStep>): seq<seq<IndexEvent>>
  {
    Blocks(AccountBlock(dec, r, tx, data), steps)
  }

  function AccountBlock(dec: Decoders, r: TransactionReceipt, tx: IncompleteTransaction, data: map<AccountId, UserData>): AccountStep -> seq<IndexEvent>
  {
    step => AccountEvents(dec, r, tx, data, step)
  }

  /** The events of one action: none unless it is a `set` call whose arguments decode. */
  function ActionEvents(dec: Decoders, r: TransactionReceipt, tx: IncompleteTransaction, a: Action, steps: seq<AccountStep>): seq<IndexEvent>
  {
    match ArgsOf(dec, a)
    case None => []
    case Some(args) => Flatten(AccountBlocks(dec, r, tx, args.data, steps))
  }

  /** The events of each action; action `i` is iterated as `trace[i]` says. */
  function ActionBlocks(dec: Decoders, r: TransactionReceipt, tx: IncompleteTransaction, actions: seq<Action>, trace: seq<seq<AccountStep>>): seq<seq<IndexEvent>>
  {
    seq(|actions|, i requires 0 <= i < |actions| =>
      ActionEvents(dec, r, tx, actions[i], if i < |trace| then trace[i] else []))
  }

  /** Every event one receipt yields, in emission order. */
  function ReceiptEvents(dec: Decoders, r: TransactionReceipt, tx: IncompleteTransaction, trace: seq<seq<AccountStep>>): seq<IndexEvent>
  {
    if !Eligible(r) then []
    else Flatten(ActionBlocks(dec, r, tx, r.body.actions, trace))
  }

  function Accounts(steps: seq<AccountStep>): seq<AccountId>
  {
    seq(|steps|, i requires 0 <= i < |steps| => steps[i].0)
  }

  /**
   * A step the program can take: the account is in the map; the
   * predecessor's index types are all visited, once each; any other
   * account's are not visited at all.
   */
  predicate ValidStep(r: TransactionReceipt, data: map<AccountId, UserData>, step: AccountStep)
  {
    step.0 in data &&
    if step.0 == r.predecessorId then Enumerates(step.1, data[step.0].index.Keys) else step.1 == []
  }

  /** An iteration over the accounts of `data`: each visited once, each visited validly. */
  predicate ValidSteps(r: TransactionReceipt, data: map<AccountId, UserData>, steps: seq<AccountStep>)
  {
    Enumerates(Accounts(steps), data.Keys) && forall i | 0 <= i < |steps| :: ValidStep(r, data, steps[i])
  }

  /** An action that is skipped visits nothing. */
  predicate ValidActionSteps(dec: Decoders, r: TransactionReceipt, a: Action, steps: seq<AccountStep>)
  {
    match ArgsOf(dec, a)
    case None => steps == []
    case Some(args) => ValidSteps(r, args.data, steps)
  }

  /** A trace the program can produce for receipt `r`. */
  predicate ValidTrace(dec: Decoders, r: TransactionReceipt, trace: seq<seq<AccountStep>>)
  {
    if !Eligible(r) then trace == []
    else
      |trace| == |r.body.actions| &&
      forall i | 0 <= i < |trace| :: ValidActionSteps(dec, r, r.body.actions[i], trace[i])
  }

  lemma IndexEventsSnoc(dec: Decoders, r: TransactionReceipt, tx: IncompleteTransaction, account: AccountId, index: map<string, string>, order: seq<string>, t: string)
    requires t in index
    ensures Flatten(IndexBlocks(dec, r, tx, account, index, order + [t]))
         == Flatten(IndexBlocks(dec, r, tx, account, index, order)) + IndexTypeEvents(dec, r, tx, account, t, index[t])
  {
    var blocks := IndexBlocks(dec, r, tx, account, index, order);
    var last := IndexTypeEvents(dec, r, tx, account, t, index[t]);
    BlocksSnoc(IndexTypeBlock(dec, r, tx, account, index), order, t);
    FlattenSnoc(blocks, last);
  }

  lemma AccountEventsSnoc(dec: Decoders, r: TransactionReceipt, tx: IncompleteTransaction, data: map<AccountId, UserData>, steps: seq<AccountStep>, step: AccountStep)
    ensures Flatten(AccountBlocks(dec, r, tx, data, steps + [step]))
         == Flatten(AccountBlocks(dec, r, tx, data, steps)) + AccountEvents(dec, r, tx, data, step)
    ensures Accounts(steps + [step]) == Accounts(steps) + [step.0]
  {
    var blocks := AccountBlocks(dec, r, tx, data, steps);
    var last := AccountEvents(dec, r, tx, data, step);
    BlocksSnoc(AccountBlock(dec, r, tx, data), steps, step);
    FlattenSnoc(blocks, last);
    assert Accounts(steps + [step]) == Accounts(steps) + [step.0];
  }

  /** One turn of the loop over actions keeps its events invariant. */
  lemma ActionLoopStep(dec: Decoders, r: TransactionReceipt, tx: IncompleteTransaction, actions: seq<Action>, i: nat, trace: seq<seq<AccountStep>>, steps: seq<AccountStep>, start: seq<IndexEvent>, before: seq<IndexEvent>)
    requires i < |actions| && |trace| == i
    requires before == start + Flatten(ActionBlocks(dec, r, tx, actions[..i], trace))
    ensures before + ActionEvents(dec, r, tx, actions[i], steps)
         == start + Flatten(ActionBlocks(dec, r, tx, actions[..i + 1], trace + [steps]))
  {
    var blocks := ActionBlocks(dec, r, tx, actions[..i], trace);
    var after := ActionBlocks(dec, r, tx, actions[..i + 1], trace + [steps]);
    var last := ActionEvents(dec, r, tx, actions[i], steps);
    forall k | 0 <= k < i + 1
      ensures after[k] == (blocks + [last])[k]
    {
      if k < i {
        assert actions[..i + 1][k] == actions[..i][k];
        assert (trace + [steps])[k] == trace[k];
      } else {
        assert actions[..i + 1][k] == actions[i];
        assert (trace + [steps])[k] == steps;
      }
    }
    assert after == blocks + [last];
    FlattenStep(start, before, blocks, after, last);
  }

  /** One turn of the loop over actions keeps its validity invariant. */
  lemma ActionTraceSnoc(dec: Decoders, r: TransactionReceipt, actions: seq<Action>, i: nat, trace: seq<seq<AccountStep>>, steps: seq<AccountStep>)
    requires i < |actions| && |trace| == i
    requires forall k | 0 <= k < i :: ValidActionSteps(dec, r, actions[k], trace[k])
    requires ValidActionSteps(dec, r, actions[i], steps)
    ensures forall k | 0 <= k < i + 1 :: ValidActionSteps(dec, r, actions[k], (trace + [steps])[k])
  {
    forall k | 0 <= k < i + 1
      ensures ValidActionSteps(dec, r, actions[k], (trace + [steps])[k])
    {
      if k < i {
        assert (trace + [steps])[k] == trace[k];
      } else {
        assert (trace + [steps])[k] == steps;
      }
    }
  }

  /**
   * The state of the loop over accounts: the accounts visited so far are
   * exactly those no longer `remaining`, each once and each validly.
   */
  predicate AccountsVisited(r: TransactionReceipt, data: map<AccountId, UserData>, remaining: set<AccountId>, steps: seq<AccountStep>)
  {
    remaining <= data.Keys &&
    Distinct(Accounts(steps)) &&
    (forall k | 0 <= k < |steps| :: steps[k].0 in data && steps[k].0 !in remaining) &&
    (forall a | a in data && a !in remaining :: a in Accounts(steps)) &&
    (forall k | 0 <= k < |steps| :: ValidStep(r, data, steps[k]))
  }

  /** Visiting one more remaining account keeps the loop state. */
  lemma AccountLoopVisit(r: TransactionReceipt, data: map<AccountId, UserData>, remaining: set<AccountId>, steps: seq<AccountStep>, step: AccountStep)
    requires AccountsVisited(r, data, remaining, steps)
    requires step.0 in remaining && ValidStep(r, data, step)
    ensures AccountsVisited(r, data, remaining - {step.0}, steps + [step])
  {
    var steps' := steps + [step];
    assert Accounts(steps') == Accounts(steps) + [step.0];
    forall k | 0 <= k < |steps'| ensures steps'[k].0 in data && steps'[k].0 !in remaining - {step.0} && ValidStep(r, data, steps'[k]) {
      if k < |steps| {
        assert steps'[k] == steps[k];
      } else {
        assert steps'[k] == step;
      }
    }
    forall a | a in data && a !in remaining - {step.0} ensures a in Accounts(steps') {
      if a == step.0 {
        assert Accounts(steps')[|steps|] == a;
      } else {
        var k :| 0 <= k < |Accounts(steps)| && Accounts(steps)[k] == a;
        assert Accounts(steps')[k] == a;
      }
    }
    forall i, j | 0 <= i < j < |Accounts(steps')| ensures Accounts(steps')[i] != Accounts(steps')[j] {
      if j < |steps| {
        assert Accounts(steps')[i] == Accounts(steps)[i] && Accounts(steps')[j] == Accounts(steps)[j];
      } else {
        assert Accounts(steps')[i] == steps[i].0;
      }
    }
  }

  /** Once nothing remains, the visits are a valid iteration over `data`. */
  lemma AccountsVisitedAll(r: TransactionReceipt, data: map<AccountId, UserData>, steps: seq<AccountStep>)
    requires AccountsVisited(r, data, {}, steps)
    ensures ValidSteps(r, data, steps)
  {
  }

  /** One turn of the loop over accounts keeps its events invariant. */
  lemma AccountLoopEvents(dec: Decoders, r: TransactionReceipt, tx: IncompleteTransaction, data: map<AccountId, UserData>, steps: seq<AccountStep>, step: AccountStep, start: seq<IndexEvent>, before: seq<IndexEvent>)
    requires before == start + Flatten(AccountBlocks(dec, r, tx, data, steps))
    ensures before + AccountEvents(dec, r, tx, data, step) == start + Flatten(AccountBlocks(dec, r, tx, data, steps + [step]))
  {
    AccountEventsSnoc(dec, r, tx, data, steps, step);
    ConcatAssoc(start, Flatten(AccountBlocks(dec, r, tx, data, steps)), AccountEvents(dec, r, tx, data, step));
  }

  /** The in-memory handler: keeps every event it is given, in order. */
  class Collector {
    var events: seq<IndexEvent>

    constructor ()
      ensures events == []
    {
      events := [];
    }

    method HandleIndex(event: IndexEvent)
      modifies this
      ensures events == old(events) + [event]
    {
      events := events + [event];
    }
  }

  class SocialDBIndexer {
    const handler: Collector

    constructor (handler: Collector)
      ensures this.handler == handler
    {
      this.handler := handler;
    }

    /**
     * Handles one receipt: hands the handler every event the receipt
     * yields, in emission order, after the events it already holds, and
     * reports the hash-map iteration order it took. It never fails.
     */
    method OnReceipt(dec: Decoders, receipt: TransactionReceipt, transaction: IncompleteTransaction)
      returns (result: Result<(), string>, ghost trace: seq<seq<AccountStep>>)
      modifies handler
      ensures result == Ok(())
      ensures ValidTrace(dec, receipt, trace)
      ensures handler.events == old(handler.events) + ReceiptEvents(dec, receipt, transaction, trace)
    {
      result, trace := Ok(()), [];
      if !IsSuccessful(receipt.status, false) {
        return;
      }
      if receipt.receiverId != SOCIALDB_CONTRACT {
        return;
      }
      if !receipt.body.ActionReceipt? {
        return;
      }
      trace := EmitActions(dec, receipt, transaction, receipt.body.actions);
    }

    /** The loop over the actions of an eligible receipt, in order. */
    method EmitActions(dec: Decoders, receipt: TransactionReceipt, transaction: IncompleteTransaction, actions: seq<Action>)
      returns (ghost trace: seq<seq<AccountStep>>)
      modifies handler
      ensures |trace| == |actions|
      ensures forall k | 0 <= k < |actions| :: ValidActionSteps(dec, receipt, actions[k], trace[k])
      ensures handler.events == old(handler.events) + Flatten(ActionBlocks(dec, receipt, transaction, actions, trace))
    {
      trace := [];
      var i := 0;
      while i < |actions|
        invariant 0 <= i <= |actions|
        invariant |trace| == i
        invariant forall k | 0 <= k < i :: ValidActionSteps(dec, receipt, actions[k], trace[k])
        invariant handler.events == old(handler.events) + Flatten(ActionBlocks(dec, receipt, transaction, actions[..i], trace))
      {
        ghost var before := handler.events;
        var steps := EmitAction(dec, receipt, transaction, actions[i]);
        ActionLoopStep(dec, receipt, transaction, actions, i, trace, steps, old(handler.events), before);
        ActionTraceSnoc(dec, receipt, actions, i, trace, steps);
        trace := trace + [steps];
        i := i + 1;
      }
      assert actions[..i] == actions;
    }

    /** One action: skipped unless it is a call to `set` whose arguments decode. */
    method EmitAction(dec: Decoders, receipt: TransactionReceipt, transaction: IncompleteTransaction, action: Action)
      returns (ghost steps: seq<AccountStep>)
      modifies handler
      ensures ValidActionSteps(dec, receipt, action, steps)
      ensures handler.events == old(handler.events) + ActionEvents(dec, receipt, transaction, action, steps)
    {
      steps := [];
      if !action.FunctionCall? {
        return;
      }
      if action.methodName != "set" {
        return;
      }
      var args := DecodeArgs(dec, action.args);
      if args.None? {
        return;
      }
      steps := EmitAccounts(dec, receipt, transaction, args.value.data);
    }

    /** The loop over the accounts of one `set` call's `data`. */
    method EmitAccounts(dec: Decoders, receipt: TransactionReceipt, transaction: IncompleteTransaction, data: map<AccountId, UserData>)
      returns (ghost steps: seq<AccountStep>)
      modifies handler
      ensures ValidSteps(receipt, data, steps)
      ensures handler.events == old(handler.events) + Flatten(AccountBlocks(dec, receipt, transaction, data, steps))
    {
      var remaining := data.Keys;
      steps := [];
      while remaining != {}
        invariant AccountsVisited(receipt, data, remaining, steps)
        invariant handler.events == old(handler.events) + Flatten(AccountBlocks(dec, receipt, transaction, data, steps))
        decreases remaining
      {
        var account :| account in remaining;
        ghost var was := remaining;
        remaining := remaining - {account};
        ghost var order: seq<string> := [];
        ghost var before := handler.events;
        if account != receipt.predecessorId {
          // someone tried to set someone else's data: skipped
          assert AccountEvents(dec, receipt, transaction, data, (account, order)) == [];
          assert handler.events == before + [];
        } else {
          order := EmitIndex(dec, receipt, transaction, account, data[account].index);
          assert AccountEvents(dec, receipt, transaction, data, (account, order))
              == Flatten(IndexBlocks(dec, receipt, transaction, account, data[account].index, order));
        }
        AccountLoopEvents(dec, receipt, transaction, data, steps, (account, order), old(handler.events), before);
        AccountLoopVisit(receipt, data, was, steps, (account, order));
        steps := steps + [(account, order)];
      }
      AccountsVisitedAll(receipt, data, steps);
    }

    /** The loop over the index types of the predecessor's `index` map. */
    method EmitIndex(dec: Decoders, receipt: TransactionReceipt, transaction: IncompleteTransaction, account: AccountId, index: map<string, string>)
      returns (ghost order: seq<string>)
      modifies handler
      ensures Enumerates(order, index.Keys)
      ensures handler.events == old(handler.events) + Flatten(IndexBlocks(dec, receipt, transaction, account, index, order))
    {
      var remaining := index.Keys;
      order := [];
      while remaining != {}
        invariant remaining <= index.Keys
        invariant Distinct(order)
        invariant forall k | 0 <= k < |order| :: order[k] in index && order[k] !in remaining
        invariant forall t | t in index && t !in remaining :: t in order
        invariant handler.events == old(handler.events) + Flatten(IndexBlocks(dec, receipt, transaction, account, index, order))
        decreases remaining
      {
        var indexType :| indexType in remaining;
        remaining := remaining - {indexType};
        var raw := index[indexType];
        ghost var done := Flatten(IndexBlocks(dec, receipt, transaction, account, index, order));
        ghost var next := IndexTypeEvents(dec, receipt, transaction, account, indexType, raw);
        var entries := DecodeEntries(dec, raw);
        if entries.None? {
          // failed to parse the index entry: skipped
        } else {
          EmitEntries(receipt, transaction, account, indexType, IntoIter(entries.value));
        }
        IndexEventsSnoc(dec, receipt, transaction, account, index, order, indexType);
        ConcatAssoc(old(handler.events), done, next);
        order := order + [indexType];
      }
    }

    /** The loop over one index type's entries: one event each, in order. */
    method EmitEntries(receipt: TransactionReceipt, transaction: IncompleteTransaction, account: AccountId, indexType: string, entries: seq<IndexEntry>)
      modifies handler
      ensures handler.events == old(handler.events) + EntryEvents(receipt, transaction, account, indexType, entries)
    {
      var i := 0;
      while i < |entries|
        invariant 0 <= i <= |entries|
        invariant handler.events == old(handler.events) + EntryEvents(receipt, transaction, account, indexType, entries[..i])
      {
        handler.HandleIndex(MakeEvent(receipt, transaction, account, indexType, entries[i]));
        assert entries[..i + 1][..i] == entries[..i];
        i := i + 1;
      }
      assert entries[..i] == entries;
    }
  }
}
