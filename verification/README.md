# Verification model of chmpx

chmpx carries messages between processes on one host and, over sockets, between
hosts. This project models the parts of it whose correctness rests on more than one
function, and proves what they keep and what they promise.

**Messages between processes** (`MessageId`, `Transfer`, `Conservation`, `Delivery`, `Acknowledgement`,
`StepEffects`, `ForeignAck`, `LateAck`, `AckWait`, `EventMq`, `SendMeaning`). A sender puts the head and the
body of a message into a shared store and posts only a 64-bit word on the receiver's queue; the
receiver takes the word, reads the entries and removes them, and may post an acknowledgement back.
`Transfer` is a state machine in which every call to the store or to a queue is one step, so
that any number of sends and receives of any number of processes interleave. `Conservation`
shows what every step and hence every run keeps; `Delivery` what that means: each store entry
belongs to one message, each message posted is handed on exactly once or is still on its way,
what is handed on is what was sent, and nothing is left when all is quiet. `Acknowledgement`
shows that a waiting send takes the acknowledgement of its own message, although it never
compares numbers, in every run from a state in which nothing is left of its client's earlier
waits, until such a wait times out or a second one begins beside it; `ForeignAck` that this
state is also needed: from any other one, some run leads a send to take what is left.
`AckWait` is about a client's queue while a send waits there; `EventMq` is the object itself:
its methods are the source's loops and branches, and each is proved to perform a run of the
state machine, so everything proved about runs holds of them. `SendMeaning` says field by field
which packets are posted, waited for and acknowledged, and with which words.

**Queues of a client** (`MqPool`): the two maps of receive queues and the reserve.

**YAML configuration** (`YamlStack`, `YamlReading`, `YamlTopLevel`): the stack by which unknown parts of a
document are skipped, and the loop that drives it.

**Host lists** (`BracketArea`, `AreaMeaning`, `SimpleRegex`, `NameOrder`, `HostList`, `ListOrder`): expansion
of expressions such as `host[1-3,a]`.

**Host cache** (`HostCache`, `HostExpiry`): one map as forward and reverse index of names and addresses, and
when its entries expire.

**Servers** (`ServerStatus`, `ServerTable`, `ServerMeaning`, `Receivers`, `ReceiverMeaning`): comparing server
tables, choosing receivers.

**Values** (`ConfValue`, `ConfQuotes`, `KeyValueCodec`): INI values and the key/value encoding.

Integers are mathematical; 64-bit words and 32-bit halves are written out as remainders and
quotients of powers of two (`Words`, `MessageId`), and the C division of `MqPool` truncates. I/O, clocks and
foreign calls enter as parameters: what the store and the queues answer (`Outside`), the time
(`now`), name lookups (`hostnames`), ring lookups (`Ring`), hash functions.

## Where the code differs from what one would expect

Each of these is proved; the model follows the code.

- A waiting send takes any acknowledgement on its client's queue: lib/chmeventmq.cc:1544-1569
  compares no number. So what is left of an earlier wait, one that timed out say, is taken for the
  acknowledgement of a later message (`LateAck.TakesEarlierSuccess` is such a run). While a send of a
  client could begin and none waits, its sends take their own acknowledgements exactly if no
  acknowledgement is on its queue and no earlier message of it is still to be acknowledged
  (`ForeignAck.TakesOwnExactlyWhenDrained`).
- A section that appears twice at the top level of a YAML document is loaded twice; the flags
  meant to notice this are never set (`YamlTopLevel.RepeatedSectionLoadsAgain`).
- `compare_hostport_pairs` looks up the pairs of its first argument only, so without
  `ignore_down` the comparison of server tables is not symmetric
  (`ServerTable.ComparisonIsNotSymmetric`); it is, exactly when servers of one id list equally many
  different pairs (`ServerTable.ExchangedSucceedsWhen`). The callers in the repository all ignore
  servers that are down, where it is symmetric.
- `DisactivatedMsgId` fetches a descriptor with `find`, which returns a bool; the queue handed back stays
  open unless its descriptor is 1 (`MqPool.GivenBackStaysOpen`).
- `FreeReserveMsgIds` always closes the whole reserve, whatever the attach size
  (`MqPool.WholeReserveIsClosed`).
- The flag that excepts the sender itself has no effect in random delivery and on the main server
  of the normal mode (`Receivers.SelfIsReceiverWhen`).
- In an INI value a `#` outside quotes starts a comment exactly if the last character outside quotes
  was a space, even when quoted text stands between (`ConfValue.HashStartsComment`).
- A backslash before `#` does not keep it from starting a comment, and the value is then refused
  (`ConfValue.EscapedComment`). Where none starts, the escape stays open past the `#` and is spent on
  the next character that is none: that one is read as it stands and the backslash dropped
  (`ConfValue.PendingIsDropped`); a value that ends before is refused (`ConfValue.PendingAtEnd`).
- A key/value pair without a value is refused by `Set` although its key has been taken
  (`KeyValueCodec.ChmKVPair.Set`).

## Assumptions about messages

`Transfer.GoodId`: ids lie less than 2^32-1 above the group's base id, and a message goes between a
client's queue and a chmpx process's queue. `Transfer.MayStart`: a send uses a number its process has
taken, and no message in flight between the same two queues has a number a multiple of 2^30 away, that is,
the same one (`MessageId.SerialsRepeat`). This is exactly when the new message shares its store entries with
none in flight (`Conservation.NewIdIsFresh`, `Conservation.NewNumberMayStart`). How many messages are in
flight, or how long those to other queues have been, is no matter; two in flight can already clash, if 2^30
numbers were taken between them. Every loop that reuses one number for several queues meets the condition
(`Conservation.BroadcastGoesOn`). The acknowledgements of a client are disturbed by two steps only
(`Acknowledgement.Disturbs`): a send that will wait begins while another does, or a wait times out.

## Model

| member | source | states |
|---|---|---|
| `MessageId.DecomposeUndoesCompose` | lib/chmeventmq.cc:425-462 | taking a posted word apart gives back id, number and both flags exactly for ids less than 2^32 above the base and numbers in range, save one combination that is the invalid id |
| `MessageId.WordsAreDistinct` | lib/chmcomstructure.h:40-52 | data words, success and failure acknowledgements of any messages are never equal |
| `MessageId.WordIs` | lib/chmcomstructure.h:40-52 | the bits of a posted word: the offset of the id from the base, the serial number from bit 32 on, bit 63 for an acknowledgement and bit 62 for one of failure |
| `MessageId.SerialCounts` | lib/chmeventmq.cc:416-423 | from a seed in range the counter stays in range for ever and counts modulo 2^30 |
| `MessageId.SerialsRepeat` | lib/chmeventmq.cc:416-423 | two numbers of one counter are equal exactly when a multiple of 2^30 lies between them |
| `MessageId.ClockSeedInRange` | lib/chmeventmq.cc:384-391 | a nanosecond seed needs no cutting to be in range |
| `MessageId.KeyNamesAreDistinct` | lib/chmeventmq.cc:84-111 | names of store entries are equal only for the same departure, terminal, serial and kind |
| `MessageId.KeyNamesAre` | lib/chmeventmq.cc:84-111 | the two names are departure, terminal and serial in 16 hexadecimal digits each, and differ only in what the entry holds |
| `MessageId.HexReadsBack` | lib/chmeventmq.cc:84-88 | fixed-width hexadecimal text reads back as the number |
| `MessageId.HexIsInjective` | lib/chmeventmq.cc:84-88 | fixed-width hexadecimal text determines the number |
| `Conservation.InitialInv` | lib/chmeventmq.cc:1375-1490 | an empty system satisfies the invariant |
| `Conservation.NewIdIsFresh` | lib/chmeventmq.cc:416-423 | a message with a number taken may start if and only if it shares its id, hence its store keys, with no message in flight |
| `Conservation.NewNumberMayStart` | lib/chmeventmq.cc:416-423 | a number just taken may be used at once if and only if no message in flight between the two queues had its number a multiple of 2^30 numbers ago |
| `Conservation.BroadcastGoesOn` | lib/chmeventmq.cc:2677-2686 | starting to send a number to one queue does not keep it from being sent to another |
| `Conservation.DataWordNames` | lib/chmeventmq.cc:1416 | the word posted for a message names exactly that message at its receiver |
| `Conservation.AckWordNames` | lib/chmeventmq.cc:1504-1505 | the word posted for an acknowledgement names sender, number and outcome |
| `Conservation.StrayFindsNothing` | lib/chmeventmq.cc:1612-1625 | a receive that took an acknowledgement for a message finds no head |
| `Conservation.StepKeepsInv` | lib/chmeventmq.cc:1375-1962 | every step of any operation keeps the whole invariant |
| `Conservation.RunKeepsInv` | lib/chmeventmq.cc:1375-1962 | so does every run, however its operations interleave |
| `Delivery.EveryEntryHasItsMessage` | lib/chmeventmq.cc:1422-1480 | in every run each store entry is the head or body of one message that is being sent, queued exactly once, or being read |
| `Delivery.PostedIsDelivered` | lib/chmeventmq.cc:1612-1654 | in every run, of every id, as many messages were posted as were handed on, plus the one still on its way |
| `Delivery.DeliveredIsLastSent` | lib/chmeventmq.cc:1761-1866 | head and body handed on under an id are those the latest send under that id was given |
| `Delivery.NothingIsLeftBehind` | lib/chmeventmq.cc:1422-1480 | when nothing is part-way and no message is queued the store is empty and all that was posted was handed on |
| `Delivery.FailedSendLeavesNothing` | lib/chmeventmq.cc:1428-1480 | a send that fails leaves no entry of its message and touches no other |
| `Delivery.DeliversWhatWasSent` | lib/chmeventmq.cc:1721-1919 | a message is handed on unchanged, at the moment it leaves flight |
| `Delivery.HeadIsFound` | lib/chmeventmq.cc:1761-1768 | reading a head fails exactly for a word that is no message |
| `Acknowledgement.StepKeepsAckInv` | lib/chmeventmq.cc:1482-1569 | every step keeps at most one waiting send and at most one acknowledgement per client, wherever the message and its acknowledgement have got to, save a timeout and a second wait that begins |
| `Acknowledgement.AckIsAwaited` | lib/chmeventmq.cc:1544-1569 | the acknowledgement at hand is that of the message the send waits for |
| `Acknowledgement.AckBelongsToSend` | lib/chmeventmq.cc:1482-1569 | from any state reached in which nothing is left of a client's earlier waits, and until its acknowledgements are disturbed, the one a send takes carries its own number and is a success exactly if the processing of that message succeeded |
| `Acknowledgement.AckBelongsFromStart` | lib/chmeventmq.cc:1482-1569 | the same of every run from the start until its acknowledgements are disturbed |
| `Acknowledgement.OneAckIsQueued` | lib/chmeventmq.cc:1482-1488 | in such a run at most one acknowledgement is queued for the client and at most one of its sends waits |
| `Acknowledgement.DrainedTakesOwnOnly` | lib/chmeventmq.cc:1482-1569 | from such a state, after any run, every send that begins takes only what answers the processing of its message since it began |
| `ForeignAck.LeftBecomesAck` | lib/chmeventmq.cc:1612-1654 | whatever is left of earlier waits, queued, being read, processed or answered, can become an acknowledgement on the queue without a step of any send |
| `ForeignAck.TakesOwnExactlyWhenDrained` | lib/chmeventmq.cc:1482-1569 | where a send of a client could begin and none waits, its sends take their own acknowledgements if and only if nothing is left of earlier waits |
| `LateAck.TakesEarlierSuccess` | lib/chmeventmq.cc:1544-1569 | states with something left are reached: after a timeout a later send takes the earlier message's success while its own message is still queued |
| `AckWait.QueueIsFifo` | lib/chmeventmq.cc:1453-1470 | in every run the words taken from a queue, by whomever, are those on it and those that arrive, in order, up to what is left |
| `AckWait.ReceiptIsOver` | lib/chmeventmq.cc:1555-1563 | of a message received during a wait nothing is left: no receive, no entry, no flight |
| `AckWait.AckIsTaken` | lib/chmeventmq.cc:1544-1569 | an attempt of a wait that does not fail and finds an acknowledgement first on the queue takes it, and is the last; whatever others do |
| `EventMq.ChmEventMq.GetSerialNumber` | lib/chmeventmq.cc:416-423 | each call takes the next number of the process's sequence; no other method takes one |
| `EventMq.ChmEventMq.Send` | lib/chmeventmq.cc:1375-1490 | is a run of the state machine; posts exactly when everything outside goes well; otherwise everything is as before; when posted, both entries, one word and the wait, if any, are all that is new; if it waits it returns what the acknowledgement taken says, and every attempt of the wait is accounted for by what it found |
| `EventMq.ChmEventMq.StoreAndPost` | lib/chmeventmq.cc:1422-1480 | the whole new state: either both entries, one word and the wait, if any, are added and nothing else changes, or nothing changes |
| `EventMq.ChmEventMq.WriteKeys` | lib/chmeventmq.cc:1422-1437 | both entries are stored and nothing else changes, or the send goes on to remove them |
| `EventMq.ChmEventMq.PostMessage` | lib/chmeventmq.cc:1438-1480 | succeeds exactly if one of the allowed attempts gets through before an error |
| `EventMq.ChmEventMq.RemoveKeys` | lib/chmeventmq.cc:1474-1479 | removes exactly the entries of the message |
| `EventMq.ChmEventMq.SendAck` | lib/chmeventmq.cc:1492-1525 | posts the acknowledgement exactly if its queue can be opened and an attempt gets through, and changes nothing else |
| `EventMq.ChmEventMq.ReceiveAck` | lib/chmeventmq.cc:1527-1569 | every attempt is accounted for: it failed, found the queue empty, took the message that was first there and had it read and processed, or took the acknowledgement that was first there, and then it is the last; returns true exactly if that was a success; ends after at most as many attempts as allowed plus one per interrupting message and, without an acknowledgement or a failed attempt, no fewer than allowed; all other steps are by others |
| `EventMq.ChmEventMq.Interrupt` | lib/chmeventmq.cc:1555-1563 | an interrupting message is taken once, read, processed and gone afterwards, and nothing else has changed |
| `EventMq.ChmEventMq.RawReceive` | lib/chmeventmq.cc:1612-1654 | the whole new state: exactly the entries of its message are gone, it was read and processed, exactly C2C messages to a chmpx process are acknowledged with the outcome of processing; returns whether both went well |
| `EventMq.ChmEventMq.ReceiveMessage` | lib/chmeventmq.cc:1721-1802 | finds a message exactly for a data word, reads head and body as sent and removes them |
| `EventMq.ChmEventMq.ReceiveBody` | lib/chmeventmq.cc:1804-1919 | reads the body as sent, or none if none was |
| `AckWait.OthersLeaveSend` | lib/chmeventmq.cc:1527-1569 | other operations leave a waiting send as it is |
| `StepEffects.FailureRestores` | lib/chmeventmq.cc:1428-1480 | once a failed send has removed its entries everything is exactly as before it began |
| `EventMq.SendReturnsOutcome` | lib/chmeventmq.cc:1482-1490 | what a send returns after an acknowledgement is how processing its own message has ended since it began, from the start and again from any state with nothing left of earlier waits |
| `SendMeaning.PostsMeans` | lib/chmeventmq.cc:1375-1480 | a message is posted exactly if it is a packet of one of the three kinds with the lengths of its kind between valid ids, its entries can be stored, the queue opens and takes the word at an allowed attempt after being full at all earlier ones |
| `SendMeaning.PostedWhenAllIsWell` | lib/chmeventmq.cc:1381-1393 | every packet of the three kinds is posted when all goes well outside, and no packet of another kind |
| `SendMeaning.StoredMeans` | lib/chmeventmq.cc:1422-1426 | the store afterwards, entry by entry: the head, the body if there is one, and nothing else new |
| `SendMeaning.PostedMeans` | lib/chmeventmq.cc:1453-1489 | posting puts the word, number and departure in their bits, at the end of the queue of the terminal; the send waits exactly if a client sent C2C and acknowledgements are in use |
| `SendMeaning.AnswerMeans` | lib/chmeventmq.cc:1502-1654 | a message processed is acknowledged exactly if it was C2C to a chmpx process and acknowledgements are in use, with the flags of the outcome in their bits |
| `MqPool.WholeReserveIsClosed` | lib/chmeventmq.cc:899-908 | the number of queues to close is the whole reserve, for every attach size and all counts with the reserve part of the queues, and exactly when beyond that |
| `MqPool.CloseCountIs` | lib/chmeventmq.cc:899-908 | the number of queues to close, for all counts and attach sizes |
| `MqPool.OnlyReserveIsClosed` | lib/chmeventmq.cc:899-920 | closing leaves no reserve queue open and closes no activated one |
| `MqPool.QueuePool.FreeReserveMsgIds` | lib/chmeventmq.cc:881-931 | on a client of a slave closes as many reserve queues as counted, smallest ids first; both receive maps stay inverses of each other |
| `MqPool.QueuePool.EraseFd` | lib/chmeventmq.cc:324-343 | erasing a descriptor erases its id from the other map, and no other |
| `MqPool.QueuePool.SetEventQueue` | lib/chmeventmq.cc:615-729 | queues are opened up to the first that cannot be, go into both maps and, of a client on a slave, into the reserve; nothing else changes |
| `MqPool.OpenedMeans` | lib/chmeventmq.cc:715-725 | an id is open afterwards exactly if it was before or is one of those opened, and has its own descriptor |
| `MqPool.OpenedFdsMean` | lib/chmeventmq.cc:715-725 | and so with descriptors |
| `MqPool.QueuePool.ActivatedMsgId` | lib/chmeventmq.cc:789-835 | the queue activated is the one of the smallest id in the reserve or, if that is empty, among those just opened; none if not all could be opened, there is none, or it cannot be activated; it is open and leaves the reserve, and nothing else changes |
| `MqPool.QueuePool.DisactivatedMsgId` | lib/chmeventmq.cc:837-879 | the whole new state, for any id: it is put into the reserve with descriptor 1, or 0 if it is no open queue, and the reserve closed from its smallest id; of an open queue: the reserve is empty afterwards, and the queue closed exactly if its descriptor is 1 |
| `MqPool.GivenBackStaysOpen` | lib/chmeventmq.cc:856-873 | a queue handed back is among those closed exactly if its descriptor is 1 |
| `YamlStack.YamlDataStack.Add` | lib/chmconfutil.cc:304-420 | pushes, pairs and pops as the stack function says |
| `YamlStack.NodeOpens` | lib/chmconfutil.cc:304-420 | a node of any nesting as a key leaves the stack with one half pair more |
| `YamlStack.NodeCloses` | lib/chmconfutil.cc:304-420 | a node of any nesting as a value completes the pair and removes it |
| `YamlStack.ItemsReturn` | lib/chmconfutil.cc:304-420 | the items of a sequence, odd or even in number, leave the stack as their parity demands |
| `YamlStack.EntriesReturn` | lib/chmconfutil.cc:304-420 | the entries of a mapping leave the stack as it was |
| `YamlStack.SkipsExactlyOnePair` | lib/chmconfutil.cc:304-420 | fed to an empty stack, the events of any key and value are all accepted, keep it non-empty until the last, and empty it then |
| `YamlTopLevel.LoadTopLevel` | lib/chmconf.cc:3982-4239 | the loop computes the run of the skipping automaton over all its flags |
| `YamlTopLevel.SkipsEntry` | lib/chmconf.cc:3990-4239 | an unknown key and its value are passed over whole, whatever keywords they contain |
| `YamlTopLevel.LoadsEntry` | lib/chmconf.cc:4154-4220 | a known key hands exactly its value to its loader |
| `YamlTopLevel.KeywordLoads` | lib/chmconf.cc:4180-4215 | each of the three keywords, in any case of its letters, has its own section loaded from its value; any other key has nothing loaded |
| `YamlTopLevel.PassedOver` | lib/chmconf.cc:3990-4239 | an alias, or no event, changes nothing wherever it comes |
| `YamlReading.NodeReadsBack` | lib/chmconf.cc:4154-4220 | a node of any nesting reads back from its events, whatever follows |
| `YamlReading.NodesAreToldApart` | lib/chmconf.cc:4154-4220 | events are those of at most one node, and no node's events begin another's |
| `YamlTopLevel.LoaderReadsOneNode` | lib/chmconf.cc:4154-4220 | for every meaning of sections there is a loader that consumes exactly one node |
| `YamlTopLevel.DocumentLoads` | lib/chmconf.cc:3982-4239 | a document loads its known sections in document order and fails exactly if a loader fails |
| `YamlTopLevel.StreamLoads` | lib/chmconf.cc:3982-4239 | a stream of several documents loads the sections of all, one on top of the other |
| `YamlTopLevel.OtherRootLoadsNothing` | lib/chmconf.cc:3982-4239 | a document that is no mapping loads nothing |
| `YamlTopLevel.UnknownEntryChangesNothing` | lib/chmconf.cc:3990-4239 | an unknown entry with any value, put anywhere, changes nothing that is loaded |
| `YamlTopLevel.RepeatedSectionLoadsAgain` | lib/chmconf.cc:3982-4239 | a repeated section is loaded again on top of the first |
| `BracketArea.DecimalReadsBack` | lib/chmregex.cc:126-136 | a number written by a range reads back as that number |
| `BracketArea.NumberRangeAscends` | lib/chmregex.cc:126-136 | a number range lists its numbers ascending without gaps |
| `BracketArea.LetterRangeAscends` | lib/chmregex.cc:137-156 | a letter range lists its letters ascending without gaps |
| `BracketArea.ExpandArea` | lib/chmregex.cc:84-160 | an area expands to the elements of its comma-separated pieces in order, and fails exactly if a piece does |
| `AreaMeaning.RangeMeans` | lib/chmregex.cc:107-156 | a range stands for the numbers, or the letters, from the first to the last; it fails exactly if it is neither two numbers nor two letters of one case in ascending order |
| `AreaMeaning.DecimalRange` | lib/chmregex.cc:126-136 | for all numbers `low <= high` the range written with them has `high - low + 1` elements, the i-th being `low + i` |
| `AreaMeaning.PlainMeans` | lib/chmregex.cc:84-105 | an area that is no range and no list stands for itself, trimmed |
| `AreaMeaning.ListMeans` | lib/chmregex.cc:84-160 | a list stands for what its pieces stand for in order, and fails exactly if one does |
| `BracketArea.ElementsHaveNoBrackets` | lib/chmregex.cc:84-160 | elements of an area without brackets have none, so expansion opens no new areas |
| `BracketArea.PiecesTrim` | lib/chmregex.cc:92-105 | spaces around an area do not change its pieces |
| `SimpleRegex.NamesShift` | lib/chmregex.cc:162-227 | plain text before an expression is put before each of its names |
| `AreaMeaning.TextMeans` | lib/chmregex.cc:162-227 | an expression without brackets stands for itself |
| `AreaMeaning.AreaMeans` | lib/chmregex.cc:162-227 | one that starts with plain text and an area stands for every element between that text and every name of what follows, and for nothing if the area is empty, holds a bracket or fails |
| `AreaMeaning.BracketsFail` | lib/chmregex.cc:162-227 | one whose first bracket closes, or is never closed, stands for nothing |
| `AreaMeaning.HostRange` | lib/chmregex.cc:162-227 | a host name with a range of numbers stands for one name per number, in ascending order |
| `SimpleRegex.ChildrenMeanTheSame` | lib/chmregex.cc:162-227 | the expressions put back on the worklist stand together for the names of the one taken off |
| `SimpleRegex.ChildrenHaveOneLess` | lib/chmregex.cc:162-227 | each has one opening bracket less, the measure by which the loop ends |
| `SimpleRegex.ExpandOne` | lib/chmregex.cc:162-227 | the breadth-first worklist ends, fails exactly when reading from left to right fails, and finds the same names in the same order |
| `NameOrder.NamesInOrder` | lib/chmregex.cc:162-227 | the names are one per choice of elements, each at the lexicographic rank of its choice, as many as the product of the area sizes |
| `NameOrder.RankIsOnto` | lib/chmregex.cc:162-227 | every place below that product is the rank of a choice, so there are no other names |
| `HostList.SplitList` | lib/chmregex.cc:229-273 | the loop cuts a list as the split function says |
| `HostList.SplitsAtTopCommas` | lib/chmregex.cc:229-273 | a list is cut at exactly its commas outside bracket areas; commas put back restore it up to one at its end |
| `HostList.ExpandList` | lib/chmregex.cc:229-282 | the names of a list are those of its pieces in order, and none if a piece fails |
| `ListOrder.ListFailsWhen` | lib/chmregex.cc:229-282 | a list stands for nothing exactly if a piece of it cannot be read |
| `ListOrder.ListNamesInOrder` | lib/chmregex.cc:229-282 | otherwise it has one name per choice of a piece and of one element per area of it, each at the rank of its choice behind the names of earlier pieces |
| `ListOrder.PlaceIsOnto` | lib/chmregex.cc:229-282 | and no others |
| `HostCache.ChmNetDb.AddUniqueStringToList` | lib/chmnetdb.cc:50-67 | adds a string unless it is empty or there |
| `HostCache.ChmNetDb.AddUniqueStringListToList` | lib/chmnetdb.cc:69-91 | adds the strings of a list one after the other |
| `HostCache.AddAllIsUnion` | lib/chmnetdb.cc:69-91 | the result is the union, without the empty string, and free of duplicates if the list was |
| `HostCache.ChmNetDb.RawAddCache` | lib/chmnetdb.cc:1054-1189 | adds to the entry of the target, and, unless re-entered, to the entries of all that was new there |
| `HostExpiry.ExpiryIsExact` | lib/chmnetdb.cc:1054-1189 | after any additions an entry is there exactly if one touched it; it never expires exactly if all that did were to be without expiry, and otherwise has the time of the last of them |
| `HostCache.ChmNetDb.HostnameAddCache` | lib/chmnetdb.cc:1191-1202 | adds a host with its addresses |
| `HostCache.ChmNetDb.IpAddressAddCache` | lib/chmnetdb.cc:1204-1233 | adds an address with its hosts, first without its zone index if it has one |
| `HostCache.ZoneIsDropped` | lib/chmnetdb.cc:1204-1233 | an address without its zone index is what stands before the first `%` |
| `HostCache.AdditionsKeepConsistent` | lib/chmnetdb.cc:1054-1233 | every run of additions keeps the map its own inverse index |
| `HostCache.CacheIsItsOwnInverse` | lib/chmnetdb.cc:1054-1233 | after any additions an address listed under a host lists the host, with and without zone index; a host listed under an address lists it or one that becomes it without zone index; no list has duplicates |
| `HostCache.HostAdditionIsExact` | lib/chmnetdb.cc:1064-1127 | adding addresses to a host adds just those, to that host only |
| `HostCache.AddressAdditionIsExact` | lib/chmnetdb.cc:1128-1233 | adding hosts to an address adds just those, to it and to the address without zone index only |
| `ServerTable.CompareHostportPairs` | lib/chmstructure.tcc:243-263 | true exactly if every pair of the first list is in the second |
| `ServerTable.CompareNameAndCustomSeed` | lib/chmimdata.cc:109-140 | true exactly for equal names, or with custom seeds for crosswise equal seeds or a common host name |
| `ServerTable.CompareServers` | lib/chmimdata.cc:177-193 | compares all fields of two servers of one id |
| `ServerTable.CompareChmpxSvrs` | lib/chmimdata.cc:142-237 | the nested loops compute one look-up pass, or two |
| `ServerMeaning.DifferenceIsSeen` | lib/chmimdata.cc:177-193 | servers that differ in a compared field, or of which one lists a pair the other has not, do not agree, whatever else they have |
| `ServerMeaning.ChangeIsSeen` | lib/chmimdata.cc:109-193 | for each field: after its change alone a server agrees with itself exactly if the field is the same, or the change is one that is not compared |
| `ServerMeaning.TableChangeIsSeen` | lib/chmimdata.cc:142-237 | the change of one server in a table is seen exactly as between the two servers |
| `ServerMeaning.MissingIsSeen` | lib/chmimdata.cc:165-176 | a server missing in a table is seen unless servers that are out are ignored and its status bits say down, out of service, no action and nothing being done |
| `ServerTable.IgnoringDownMeans` | lib/chmimdata.cc:142-237 | ignoring servers that are down, true exactly if common ids agree both ways and all others are out; the same with the tables exchanged |
| `ServerTable.OnePassFindsAll` | lib/chmimdata.cc:151-163 | with distinct ids and equal counts, looking up one table finds all ids of the other |
| `ServerTable.NotIgnoringDownMeans` | lib/chmimdata.cc:151-199 | otherwise true exactly if the ids are the same and agree one way |
| `ServerTable.ExchangedSucceedsWhen` | lib/chmimdata.cc:151-199 | the exchanged comparison succeeds exactly if servers of one id list equally many different pairs |
| `ServerTable.ComparisonIsNotSymmetric` | lib/chmstructure.tcc:243-263 | two tables that compare equal in one order only |
| `Receivers.EraseUnkept` | lib/chmimdata.cc:2108-2124 | erasing while iterating is the order-preserving filter |
| `Receivers.GetReceiverChmpxids` | lib/chmimdata.cc:2030-2188 | the receivers of each mode, and when they cannot be got |
| `ReceiverMeaning.NormalMeans` | lib/chmimdata.cc:2125-2188 | in the normal mode by hash the main server is the receiver exactly if its status bits say up, in service and not suspended; otherwise, with replicas, it is the first server of the hash that may take the message, and there is none exactly if none may |
| `ReceiverMeaning.RoutingMeans` | lib/chmimdata.cc:2034-2075 | routing by hash goes to the first server of the hash that is not the excepted sender and has no action and nothing being done, or is being deleted; to none exactly if there is no such server |
| `ReceiverMeaning.RandomMeans` | lib/chmimdata.cc:2034-2188 | in random delivery the receiver is the server the choice falls on, whatever its status |
| `ReceiverMeaning.BroadcastMeans` | lib/chmimdata.cc:2076-2124 | a broadcast goes to all servers, or those of the hash, that may be kept, each at the place given by how many before it may be |
| `Receivers.RoutingIsFirstOfBroadcast` | lib/chmimdata.cc:2034-2124 | by hash, routing goes to the first receiver of the broadcast to the route and fails if there is none, exactly as long as that server's action is a defined one |
| `Receivers.KeptIsExact` | lib/chmimdata.cc:2076-2124 | the broadcasts keep each server to be kept as often as it was listed, and no other |
| `Receivers.NotSelfDropsSelf` | lib/chmimdata.cc:2083-2089 | excepting the sender removes it from the broadcasts and nothing else |
| `Receivers.SelfIsReceiverWhen` | lib/chmimdata.cc:2034-2188 | exactly when the sender is a receiver although excepted |
| `ConfValue.ExtractConfValue` | lib/chmconfutil.cc:59-172 | the loop over quote, escape and space flags computes the scan |
| `ConfValue.ExtractUndoesWriting` | lib/chmconfutil.cc:59-172 | any concatenation of double-quoted, single-quoted and plain segments reads back as its contents, trimmed |
| `ConfQuotes.QuotedIsRead` | lib/chmconfutil.cc:80-130 | whatever stands in double quotes is read character by character: a backslash is dropped before a double quote or a backslash and kept before any other character |
| `ConfQuotes.OpenQuoteIsRefused` | lib/chmconfutil.cc:59-172 | a value with a quote that is not closed is refused |
| `ConfValue.HashStartsComment` | lib/chmconfutil.cc:140-147 | after any segments a `#` starts a comment if and only if the last character outside quotes is a space, and otherwise is part of the value |
| `ConfValue.CommentIsIgnored` | lib/chmconfutil.cc:140-147 | nothing after the start of a comment changes the value |
| `ConfValue.HashIsRead` | lib/chmconfutil.cc:140-147 | a `#` that starts none is read as it stands, and reading goes on |
| `ConfValue.PendingIsDropped` | lib/chmconfutil.cc:140-172 | after a backslash and any number of `#` the next character is read as it stands and the backslash dropped |
| `ConfValue.PendingAtEnd` | lib/chmconfutil.cc:140-172 | a value that ends after them is refused |
| `ConfValue.EscapedComment` | lib/chmconfutil.cc:140-172 | after a space outside quotes an escaped `#` starts a comment all the same, and the value is refused |
| `KeyValueCodec.PairReadsBack` | lib/chmkvp.cc:364-392 | a pair put is read back in the same byte order, whatever bytes follow |
| `KeyValueCodec.PairsAreToldApart` | lib/chmpx.cc:557-625 | no encoded pair is the beginning of another |
| `KeyValueCodec.PairBytes` | lib/chmpx.cc:557-594 | the buffer byte by byte: the key first, each item after its length of 8 bytes, whose most significant byte comes first in network order and last otherwise |
| `KeyValueCodec.WrongOrderReadsBackWhen` | lib/chmkvp.cc:185-190 | a length read in the wrong byte order is right exactly if its bytes read the same from both ends |
| `KeyValueCodec.CvtKvpBin` | lib/chmpx.cc:557-594 | fills a buffer with the pair in network order, byte for byte what `Put` makes |
| `KeyValueCodec.CvtBinKvp` | lib/chmpx.cc:596-625 | refuses a buffer too short for two lengths; otherwise takes both lengths as they are, the second from wherever the first says, within the buffer or beyond; of a buffer that holds a pair it finds the key and the value |
| `KeyValueCodec.PairComesBack` | lib/chmpx.cc:557-625 | what `CvtKvpBin` was given is what `CvtBinKvp` finds, whatever bytes follow |
| `KeyValueCodec.ChmBinData.Load` | lib/chmkvp.cc:175-208 | takes the item at a place in a buffer, copied or in place |
| `KeyValueCodec.ChmBinData.PutAt` | lib/chmkvp.cc:210-229 | writes length and bytes over that place and nothing else |
| `KeyValueCodec.ChmKVPair.Set` | lib/chmkvp.cc:335-345 | takes key and value; succeeds exactly if neither is empty |
| `KeyValueCodec.ChmKVPair.Load` | lib/chmkvp.cc:364-377 | takes the pair at the start of a buffer, or nothing |
| `KeyValueCodec.ChmKVPair.Put` | lib/chmkvp.cc:379-409 | makes a buffer of exactly the pair in the byte order asked for |
| `KeyValueCodec.ChmKVPair.GetHash` | lib/chmkvp.cc:411-414 | is the hash the C interface makes of the key, 0 for an empty key |

## Left out

- Sockets, SSL, epoll, inotify, threads, DNS and shared-memory set-up: foreign calls.
- Failures of the store to return or remove an entry that is there: get and remove are taken to work; set may fail.
- Locks: each method of the host cache and of the queue maps runs alone; `GetSerialNumber` is not locked in the source, so two threads could take one number, which the model excludes.
- `EventMq.ChmEventMq.Send`: between the calls of one uninterrupted send no other step is put, except while it waits for its acknowledgement; the lemmas about runs cover all interleavings.
- The seed from `time()` when the clock cannot be read: it can exceed the serial range.
- Closing a queue that still holds messages: the messages would stay in the store.
- `YamlTopLevel.DocumentLoads`: the section loaders are parameters that read exactly one node; their keywords and aliases are not modelled.
- The scalar text that a key's alias stands for: the top-level loop does not stack aliases.
- `BracketArea.ExpandArea`: numbers of a range are mathematical, where `atoi` overflows.
- `HostCache.CacheIsItsOwnInverse`: additions only; expiry removes single entries and so breaks the index. Names must be non-empty, and addresses non-empty without their zone index.
- `HostCache.ChmNetDb.RawAddCache`: the time is one value per addition, where the source asks the clock for each entry.
- `ServerTable.CompareChmpxSvrs`: names and seeds are compared as whole strings; a negative count is taken as a missing table.
- `Receivers.GetReceiverChmpxids`: the list passed in is taken to be empty, as all callers pass it, and statuses come from one moment.
- `KeyValueCodec.CvtBinKvp`: where the first length says that the second lies outside the memory that follows the start of the buffer, the source reads what is no memory of the model.
- `ChmBinData::Overwrite` and `Append`: the length is not updated when the data grows, so nothing useful holds of them.
- `MqPool.QueuePool.SetEventQueue`: opening a queue and registering it is one outcome; ids and descriptors handed out are not in use.
- INI `INCLUDE`, key validation and the section loaders: long but independent branches.
- Byte-order macros of the packet headers: assignments field by field.
- The merge thread: its progress depends on flags without synchronisation.
