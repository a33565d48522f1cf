# SocialDB indexer, modelled in Dafny

This project models the indexer that turns calls to `set` on the NEAR
SocialDB contract (`social.near`) into index events. It is a model of
`SocialDBIndexer::on_receipt` in `src/lib.rs` and of the typed shapes that
method decodes. The model proves what events one receipt yields, in what
order, and how they depend on the order the program's hash maps are
iterated in.

What `on_receipt` does, and where the model has it:

- **Receipt filter** (`src/lib.rs:32-40`). A receipt is skipped unless:
  - it executed successfully under the strict check, where an outcome not
    known yet counts as failure (`Chain.IsSuccessful` with `false`);
  - it was sent to `social.near`;
  - it is an action receipt.

  `Indexer.Eligible` combines the three. Every skip returns `Ok(())`.
- **Actions** (`src/lib.rs:41-53`). The actions are visited in order. Only a
  function call to `set` whose arguments decode as `ArgsWithIndex` is used
  (`Indexer.ArgsOf`; the decoders are in module `Shapes`).
- **Accounts** (`src/lib.rs:54-61`). The accounts of `data` are visited in
  hash-map order. Any account other than the receipt's predecessor is
  skipped.
- **Index types** (`src/lib.rs:62-70`). The index types of the predecessor's
  `index` map are visited in hash-map order. A value that does not decode as
  `IndexEntries` is skipped. The value is decoded exactly as `IndexEntries`
  is declared (`Shapes.DecodeIndexEntriesAsWritten`), so a list of exactly
  two entries is read as one entry (see "Findings").
- **Entries** (`src/lib.rs:71-84`). Each entry, one entry or a list in list
  order (`Shapes.IntoIter`, `src/lib.rs:109-119`), becomes one event. The
  event is built by `Indexer.MakeEvent` from the receipt, the transaction,
  the account, the index type and the entry. It goes straight to the
  handler.

The class `Indexer.SocialDBIndexer` runs these as nested loops, one method
per loop. Each event goes to a handler object, `Indexer.Collector`, that
stores every event it is given, whole and in order. The repository's test
handler (`src/tests.rs:11`, `src/tests.rs:17-22`) keeps only the account,
the index type, the key and the value of each event; the collector keeps the
block, receipt and transaction fields as well.

Hash-map iteration order is not under the program's control. Each
loop over a map therefore picks its next key with `:|`. Each method
returns, as a ghost value, the order it took (a *trace*). The functions of
module `Indexer` (`ReceiptEvents` and the functions it calls) take that
trace as an argument. `OnReceipt` proves that the handler receives exactly
`ReceiptEvents` for a trace that is a valid iteration of the maps: every key
visited once and nothing else. Module `Properties` then proves what holds
for every valid trace. Module `Scenarios` restates the expected outcomes of
the repository's three integration tests, over abstract entries: the like
and notify entries and the notification recipients are parameters.

Where the code and its descriptions disagree, the model follows the code:

- Some descriptions say index types are emitted sorted by name. The code
  iterates a `HashMap` and does not sort. The model leaves the order open,
  and `Scenarios.LikeWithNotifyFollowsIteration` shows that both orders are
  runs of the program.
- The test at `src/tests.rs:95-98` expects the `notify` event before the
  `like` event. The `index` map is a standard `HashMap<String, String>`
  (declared at `src/lib.rs:99`, iterated at `src/lib.rs:62`), whose hasher is
  seeded at random, so that order is not fixed: the test depends on the
  iteration order.
  `Scenarios.LikeWithNotifyFollowsIteration` proves that the test's order
  and the opposite one are both runs of the program.

## Model

| member | source | states |
|---|---|---|
| Indexer.SocialDBIndexer.OnReceipt | src/lib.rs:26-89 | always returns `Ok(())`; the handler ends up holding its old events followed by exactly the events of `ReceiptEvents` for the iteration order taken, and that order is a valid iteration of every hash map (none for a receipt the filter rejects); each index string is decoded as `IndexEntries` is declared, so a two-element list becomes one merged event |
| Indexer.SocialDBIndexer.EmitActions | src/lib.rs:41-87 | visits every action once, in order; each is iterated validly, and the handler gains the actions' events in action order |
| Indexer.SocialDBIndexer.EmitAction | src/lib.rs:42-53 | an action other than a `set` call with decodable arguments adds nothing; otherwise it adds the events of its accounts, iterated validly |
| Indexer.SocialDBIndexer.EmitAccounts | src/lib.rs:54-61 | visits each account of `data` exactly once; only the predecessor's index map is iterated; the handler gains the accounts' events in visiting order |
| Indexer.SocialDBIndexer.EmitIndex | src/lib.rs:62-70 | visits each index type exactly once, in some order; the handler gains each type's events in that order, decoded by the declared untagged decoder, and nothing for a type whose string does not decode |
| Indexer.SocialDBIndexer.EmitEntries | src/lib.rs:71-84 | the handler gains one event per entry, in entry order, after what it held |
| Indexer.Collector.HandleIndex | src/tests.rs:16-23 | appends the event to the stored events |
| Indexer.Collector.constructor | src/tests.rs:9-12 | a new handler holds no events |
| Shapes.StructFields | src/lib.rs:121-125 | a struct reads only from an object in which each field occurs exactly once, yielding that occurrence, or from an array with exactly one element per field, yielding the elements |
| Shapes.StructFieldsAccepts | src/lib.rs:121-125 | conversely, every object in which each field occurs once decodes, whatever other members it holds and in whatever order, and every array of one element per field decodes to its elements |
| Shapes.FieldValues | src/lib.rs:121-125 | the values found for a field name all come from members with that name |
| Shapes.DecodeIndexEntry | src/lib.rs:121-125 | an entry comes only from an object holding `key` and `value` once each, with those values, or from a two-element array `[key, value]` |
| Shapes.DecodeIndexEntryAccepts | src/lib.rs:121-125 | an object decodes as an entry exactly when `key` and `value` occur once each, and the entry holds their values |
| Shapes.ValueFirstEntry | src/lib.rs:121-125 | member order does not matter: `{"value": v, "key": k}` decodes, under both decoders, as the single entry with key `k` and value `v` |
| Shapes.ExtraMemberIgnored | src/lib.rs:121-125 | an entry object with a member other than `key` and `value` decodes as if that member were absent |
| Shapes.DecodeSeq | src/lib.rs:106 | a list decodes exactly when every element decodes, and the result holds each element's decoding at its position |
| Shapes.DecodeIndexEntryList | src/lib.rs:106 | a list of entries comes only from an array, with one decoded entry per element, in order |
| Shapes.DecodeIndexEntryListAccepts | src/lib.rs:106 | an array decodes as a list of entries exactly when every element decodes as an entry |
| Shapes.DecodePairs | src/lib.rs:94 | an object's members decode exactly when every member decodes, keeping each member's name and position |
| Shapes.DecodeMap | src/lib.rs:94 | a hash map decodes only from an object |
| Shapes.DecodeMapAccepts | src/lib.rs:94 | a hash map decodes exactly from an object every member of which decodes |
| Shapes.MapOfKeys | src/lib.rs:94 | a key is in the built map exactly when some member carries it |
| Shapes.MapOfLastWins | src/lib.rs:99 | a repeated key keeps the value of its last occurrence |
| Shapes.DecodeMapKeys | src/lib.rs:94 | the keys of a decoded map are exactly the member names of the object |
| Shapes.DecodeMapLastWins | src/lib.rs:94 | each key of a decoded map holds the decoding of the last member with that name |
| Shapes.DecodeMapSingle | src/lib.rs:99 | an object with one member decodes to the map with that one key |
| Shapes.DecodedAccountsAreValid | src/lib.rs:94 | every account key of decoded `set` arguments passed account-id validation |
| Shapes.DecodeStringMapAccepts | src/lib.rs:99 | `index` decodes exactly from an object whose every value is a string |
| Shapes.DecodeUserDataAccepts | src/lib.rs:97-100 | user data decodes from an object exactly when it holds one `index` member that decodes as a string map, which becomes the index; other members are ignored |
| Shapes.DecodeArgsAccepts | src/lib.rs:92-95 | the arguments decode from an object exactly when it holds one `data` member, an object every member of which names a valid account id and holds decodable user data; other members are ignored |
| Shapes.OneBadAccountFailsAll | src/lib.rs:92-100 | a single account with an invalid id or undecodable user data makes the whole arguments fail to decode |
| Shapes.DecodeIndexEntriesAsWritten | src/lib.rs:102-107 | the declared untagged decoder never reads a two-element array as a list: a `ManyEntries` result has as many entries as array elements, never two |
| Shapes.DecodeIndexEntries | src/lib.rs:102-107 | corrected decoder, not used by the event pipeline: a single entry comes only from an object, and any array decodes as the list of its entries |
| Shapes.EntryRoundTrip | src/lib.rs:121-125 | the object form `{"key": k, "value": v}` of an entry decodes back to that entry |
| Shapes.OneEntryRoundTrip | src/lib.rs:102-107 | an entry object decodes as `OneEntry` of that entry under both decoders |
| Shapes.EntryListRoundTrip | src/lib.rs:106 | an array of entry objects decodes back to the same list |
| Shapes.ManyEntriesRoundTrip | src/lib.rs:102-107 | with the corrected decoder, every array of entry objects, of any length, decodes as `ManyEntries` of that list |
| Shapes.AsWrittenMergesPair | src/lib.rs:102-107 | the declared decoder reads an array of exactly two entry objects as one entry whose key is the first object and whose value is the second |
| Shapes.AsWrittenAgreesOffPairs | src/lib.rs:102-107 | outside two-element arrays the declared and the corrected decoders agree |
| Shapes.IntoIterAsWritten | src/lib.rs:109-119 | what `IntoIter` yields for a document the declared decoder accepts: the one entry of an object, one entry made of a two-element array, or, for any other array, one entry per element in order |
| Properties.EntryEventsInOrder | src/lib.rs:71-84 | one event per entry, in entry order, each carrying the receipt's height and timestamp, the transaction hash, the receipt id, the account, the index type and the entry's key and value |
| Properties.IndexTypeEventsExact | src/lib.rs:63-84 | an undecodable string yields no event, a single entry exactly one, a list one per element in list order |
| Properties.TwoEntryListMerged | src/lib.rs:63-84 | an index string holding a list of exactly two entries yields one event, whose key is the first entry object and whose value is the second |
| Properties.IndexEventsCount | src/lib.rs:62-85 | an account yields as many events as the entry counts of its index types add up to |
| Properties.IndexEventsFrom | src/lib.rs:62-85 | every event of an account names that account, one of its visited index types, and the receipt's and transaction's fields |
| Properties.MalformedIndexTypeIsLocal | src/lib.rs:63-70 | an index type whose string does not decode removes only its own events; the events before and after it are unchanged |
| Properties.IndexEventsPermute | src/lib.rs:62 | any two iteration orders of an `index` map yield the same events, up to order |
| Properties.ForeignAccountIsLocal | src/lib.rs:55-61 | an account other than the predecessor contributes nothing and does not affect the accounts around it |
| Properties.OwnerDataOnly | src/lib.rs:54-61 | an action yields nothing when the predecessor has no data in it, and otherwise exactly the events of the predecessor's index map, each type visited once |
| Properties.AccountEventsPermute | src/lib.rs:54 | any two iteration orders of `data` yield the same events, up to order |
| Properties.SkippedActionEmitsNothing | src/lib.rs:42-53 | an action that is not a `set` call, whose arguments do not decode, or that holds no data of the predecessor yields nothing |
| Properties.MalformedAccountSkipsAction | src/lib.rs:51-53 | a `set` call one of whose accounts has an invalid id or undecodable user data yields nothing, not even the predecessor's events, and visits no account |
| Properties.SkippedActionIsLocal | src/lib.rs:41-53 | such an action does not affect the events of the actions before and after it |
| Properties.EmittingReceipt | src/lib.rs:32-40 | a receipt that yields any event executed successfully, was sent to `social.near`, is an action receipt, and has an action that contributes |
| Properties.EveryEventFromReceipt | src/lib.rs:72-82 | every event of a receipt names the predecessor as its account and carries the receipt's height, timestamp and id and the transaction's hash |
| Properties.ReceiptEventsDeterministic | src/lib.rs:54-62 | any two valid iteration orders give a receipt the same events and the same number of them; only their order may differ |
| Properties.AccountsEventsCount | src/lib.rs:54-86 | the events of an action's visited accounts number the entries of the predecessor's visited index types |
| Properties.ActionsEventsCount | src/lib.rs:41-87 | the events of the actions number, action by action, the events of their visited accounts, with none for an action whose arguments do not decode |
| Properties.ReceiptEventsCount | src/lib.rs:32-87 | a receipt yields as many events as there are entries over the surviving (action, account, index type) triples, and none when it fails the filter |
| Properties.ValidActionCount | src/lib.rs:54-86 | on a valid iteration an action's count is zero when it does not contribute, and otherwise the entry count of the predecessor's whole index map, each type visited once |
| Scenarios.LikeWithNotifyFollowsIteration | src/tests.rs:95-98 | a `set` with a `like` and a `notify` entry yields the two events in either order, each order being a valid run of the program; the test's notify-then-like is one of them |
| Scenarios.TwoIndexTypesReceipt | src/lib.rs:62-84 | a single `set` whose predecessor has two single-entry index types yields exactly their two events, in the order visited |
| Scenarios.TwoIndexTypes | src/lib.rs:62-70 | visiting two index types in a given order is a valid iteration and yields their events in that order |
| Scenarios.NotifyEachRecipient | src/tests.rs:45-48 | a `notify` value holding a list of notifications to any number of recipients other than two yields one event per recipient, in list order, each with the recipient as key and the shared payload as value |
| Scenarios.NotifyTwoRecipientsMerged | src/lib.rs:102-107 | a `notify` list with exactly two recipients yields a single event, whose key is the first notification object and whose value is the second |
| Scenarios.PostArgsDecode | src/lib.rs:92-100 | the arguments of the post test decode to the author's one-entry `index` map, with the other data ignored |
| Scenarios.OnePost | src/tests.rs:70-73 | a post written by its author yields exactly one event, `post` / `main` / `{"type": "md"}`, for the author |

## Left out

- The Redis handler (`src/redis_handler.rs`) is not part of this model. The handler is replaced by `Indexer.Collector`, which stores whole events in a sequence; the test handler stores only the account, index type, key and value of each.
- Asynchronous execution is not modelled. `on_receipt` and `handle_index` run to completion one after the other.
- Log messages for a foreign account and for an undecodable index entry are not modelled. They do not change the result.
- The `_block` argument of `on_receipt` is unused by the source, so it is left out.
- Fetching blocks from the network and running the indexer (the integration tests' `run_indexer`) are left out. The scenarios start from the receipts the tests would see.
- JSON text parsing (`serde_json::from_slice`, `from_str`) and NEAR account-id validation are foreign code. They are parameters (`Indexer.Decoders`). Decoding from parsed JSON into the typed shapes is modelled.
- `Chain.IsSuccessful` models `is_successful` from the `inindexer` library, which is not part of this model. An argument `false` makes an unknown outcome count as failure.
- Hash-map iteration order is unspecified. The model records it as a ghost trace and proves properties for every valid trace; it does not fix one order.
- Integer widths are not enforced. Block height and timestamp are `nat`, not `u64`, and hashes are byte sequences of unchecked length. The indexer only copies these values.
- Events hold the parsed JSON subtree as the document wrote it, not its `serde_json::Value` normal form. A `Value` object keeps only the last of repeated member names and orders its members by name, and a `Value` number is parsed; the model's `Json` keeps every member in document order and numbers as literal text (`Json.JNumber`). Two events the program would build equal can therefore differ in the model. Normalising needs the parser's number semantics, which are foreign code here.

## Findings

| source | as written | input that shows it | evidently intended | confidence | as-written member | corrected member |
|---|---|---|---|---|---|---|
| src/lib.rs:102-107 | `IndexEntries` is untagged and tries `OneEntry(IndexEntry)` first. serde's derived struct decoder also accepts an array with one element per field. So a list of exactly two entries decodes as one entry whose key is the first entry object and whose value is the second. | `[{"key":"a","value":1},{"key":"b","value":2}]` yields one event with key `{"key":"a","value":1}` and value `{"key":"b","value":2}`, not two events | a list of entries of any length yields one event per entry | medium, not executed | Shapes.AsWrittenMergesPair | Shapes.ManyEntriesRoundTrip |

The event pipeline (`Indexer.DecodeEntries`, and through it every method and
every lemma of `Properties`) decodes as the code does, with
`Shapes.DecodeIndexEntriesAsWritten`. `Properties.TwoEntryListMerged` and
`Scenarios.NotifyTwoRecipientsMerged` show the merged event that results.
The corrected decoder `Shapes.DecodeIndexEntries` reads a single entry only
from an object; `Shapes.ManyEntriesRoundTrip` proves that it gives one entry
per list element for lists of every length, and
`Shapes.AsWrittenAgreesOffPairs` shows that the two decoders differ only on
two-element arrays.
