# A chain-replicated key/value store

The repository is a key/value store whose servers form a chain. Clients write at the head and read at the tail; each
server applies a write, forwards it to its successor, waits for the reply and answers. ZooKeeper names the servers and
tells them and the clients when one comes or goes. This project models the store in four layers, each resting on what
the one below is shown to do.

1. **The chain** (`Chain`, `ChainHistory`, `ChainInvariant`, `ChainSafety`, `ChainLinks`, `ChainRuns`, `ChainExact`,
   `ChainNoticed`, `ChainReaders`, `ChainCalm`, `ChainDraining`, `ChainCrashFree`): a step system of any number of
   servers, with crashes, joins, watchers and readers. Its invariant gives update propagation, linearizability, crash
   safety and join safety for every run; each of the four timing assumptions is shown to be exact, and none is needed
   once all watchers have run and while no server comes or goes. `Replicas` and `Joining` are the same protocol
   without crashes as code on the heap: one server's handler calling the next one's, each with a real table; `Reading`
   is the client's side of reads. `Topology` and `ZnodeNames` are the watchers.
2. **One server under concurrency** (`Handlers`, `HandlerTheorems`): any number of handler threads with program
   counters, the two mutexes and the statistics.
3. **The table on the heap** (`Blocks`, `Lists`, `Tables`, `Copies`, `Skeleton`): classes with the fields of the code,
   proved against specifications on sequences (`ListSpec`, `TableSpec`, `Requests`), which refine a finite map
   (`Store`, `ListMap`).
4. **Bytes** (`Serialization`, `Framing`): the key-array codec and the two-byte length framing under partial
   transfers.

`CStrings` defines the order of keys (bytes as unsigned char, section 7.24.4 of C11) and `Options` the optional value.

## How the model reads the code

- **Comparison.** `entry_compare` returns the raw result of `strcmp` (SDProj24-25/source/entry.c:44) while `list_add`
  tests for exactly 1 (SDProj24-25/source/list.c:85); the header promises -1, 0 or 1
  (SDProj24-25/include/entry.h:15-19). The comparator is therefore a parameter with only the sign that C guarantees.
  What the list does is stated for every such comparator, when it stays sorted and free of duplicates is stated as an
  if-and-only-if, and the map refinements assume the header.
- **Hash.** The product starts at 0 (SDProj24-25/source/table-private.c:18), so the code's hash is always 0. The table
  is treated for every hash in range; the code's is one of them.
- **Stale prev.** Removing the head leaves the next node's `prev` pointing to freed memory
  (SDProj24-25/source/list.c:216-218). The list invariant says nothing about the `prev` of the first node. Nodes,
  entries and blocks carry a ghost flag `live`; fields are read through members that require it and freeing requires
  it, so no freed node, entry or block is read or freed again. Key strings and data buffers have no such flag.
- **Explaining answers.** `ChainHistory.Linearizable` looks only at what the client sent and at what users were told,
  with the times. It is the usual notion: there must be some of the calls, none twice, which one map can run so that
  every answer is right at its place and operations that do not overlap keep their order; a call without an answer may
  take effect at any time after it was made, or never. How the servers work plays no part in it. `Chain.State` keeps
  the calls, the answers and the order of effects as history; no step looks at them to decide what the code does. In
  that order, and in every server's table, the writes even come in the order of sending
  (`ChainSafety.CommittedWereSent`).
- **Timing of the chain.** Forwarding uses one connection and no lock, failed forwards are neither noticed nor
  repeated (SDProj24-25/source/server_network.c:320-323), and readers stay on their connection until their watcher has
  run (SDProj24-25/source/client_hashtable.c:42-106). The theorems about every run assume one writing connection at
  the head, whose client waits for each answer, and four things of the environment. A server forwards only if the
  watcher has linked it to the next one, or it is the last, or the write has taken effect (`ForwardSafe`). A server
  inside the chain stops only while it is idle or answering, or its write has taken effect (`CrashSafe`). A reader is
  served by a server that answers as the tail would (`ReadSafe`). A new write starts when whatever old write is still
  held would not change the store that the new one makes (`SendSafe`). Each is exact, that is, users never notice if
  and only if it holds: the first two in every reachable state, the others if no call was abandoned and, for reads, if
  the read began after the last acknowledgement. For each there is a run of the code that breaks it and is noticed.
  Without crashes `SendSafe` holds by itself, after its watcher has run a reader needs no `ReadSafe` until the next
  znode comes or goes, and once all watchers have run nothing is assumed until then (`ChainCalm`). For the write that
  a client waits for, having taken effect can be seen at the tail (`ChainNoticed.EffectAtTail`).
- **Joining.** `set_table` takes the predecessor from children that are not sorted
  (SDProj24-25/source/server_network.c:229) and asks for the table and for its size separately
  (SDProj24-25/source/server_network.c:246-247). The model takes the predecessor in sorted order and the two requests
  as one snapshot. A newcomer serves reads from its snapshot on.
- **No NULL behind the keys.** `rtable_get_keys` promises a NULL behind the keys
  (SDProj24-25/include/client_stub.h:42-46), but the code allocates and fills exactly `n_keys` slots
  (SDProj24-25/source/client_stub.c:247-252); so does the model.
- **Reply codes as requests.** A request that carries the code PUT + 1 or DEL + 1 is forwarded without having been
  applied (SDProj24-25/source/server_network.c:314-322). Neither clients nor servers send one. `Replicas` covers them
  like every other code and says exactly when the tables disagree afterwards.
- **Disconnecting.** The server's watcher disconnects only while the path is empty
  (SDProj24-25/source/server_network.c:93-95), when there is no connection yet, so that call never closes anything.
- **Frames.** The length is sent in 16 bits (SDProj24-25/source/server_network.c:539); the framing results are stated
  for every length and hold exactly up to 65535. `res < 0` on an unsigned result is never true
  (SDProj24-25/source/message-private.c:14), so writes do not fail in the model.

## Model

| member | source | states |
|---|---|---|
| ChainInvariant.StepKeeps | SDProj24-25/source/server_network.c:263-348 | every step of the chain (send, invoke, forward, failed wait, reply, watcher with or without success, crash, join, snapshot, reader) that meets the timing assumptions keeps the invariant: one order of effects, at most one write in flight with one boundary between the servers that have it and those that have not, whatever else moves is harmless, and a history that fits |
| ChainInvariant.InvokeInFlight | SDProj24-25/source/server_network.c:307-338 | a server above the tail that applies the write in flight moves the boundary down by exactly one |
| ChainInvariant.InvokeAtTail | SDProj24-25/source/server_network.c:307-338 | when the tail applies the write in flight, that write and no other takes effect, and all servers have the same table |
| ChainInvariant.ForwardKeeps | SDProj24-25/source/server_network.c:312-326 | forwarding over a safe link keeps the invariant, from a settled chain and from the middle of a propagation |
| ChainInvariant.CrashInFlightKeeps | SDProj24-25/source/server_network.c:57-124 | a safe crash in the middle of a propagation leaves a shorter chain that satisfies the invariant, settled or with the write still in flight; if the tail stops, what its predecessor has applied takes effect |
| ChainInvariant.SnapshotKeeps | SDProj24-25/source/server_network.c:219-261 | a joiner that has copied the tail's table becomes the tail, whether or not a forwarded write waits in its socket |
| ChainInvariant.ReplyKeeps | SDProj24-25/source/server_network.c:336-338 | every answer keeps the invariant; the one that completes the client's call takes its place in the history of a sequential map |
| ChainInvariant.RunKeeps | SDProj24-25/source/server_network.c:263-348 | the invariant holds after every run |
| ChainSafety.UpdatePropagation | SDProj24-25/source/server_network.c:307-338 | in every reachable state each server has been changed by a prefix of what has changed every server before it, at most one write less, all of them successful, and its table is the result of exactly those writes |
| ChainSafety.AnswerMeansAgreement | SDProj24-25/source/server_network.c:307-338 | whenever a server is about to answer a write, every server below it has the same table; when the head answers its client, all tables are equal |
| ChainSafety.CommittedWereSent | SDProj24-25/source/client_hashtable.c:249-262 | the writes that have changed any server, and those that have taken effect, are calls that the client made, in the order in which it made them and none twice, each of them acknowledged, pending or abandoned because the head stopped, and none answered with an error |
| ChainSafety.ChainLinearizable | SDProj24-25/source/client_hashtable.c:262-347 | what clients are told is linearizable: some of the calls that the client made, none twice, run on one map and give every answer at its place, and nothing takes effect before an operation that had ended when it began; only a call without an answer may be left out |
| ChainSafety.OrderExplains | SDProj24-25/source/server_network.c:307-338 | the writes that have taken effect in the chain are such an explanation; the tail's table is their result and the tail has been changed by exactly those of them that change something |
| ChainSafety.ReadsAreFresh | SDProj24-25/source/client_hashtable.c:262-347 | a read is answered from the store after some of the writes that clients sent: a get with the value that the key has there, or nothing if it has none, a size with the number of keys, a table with the whole store; these writes include every write acknowledged before the read began and every write that an earlier read has seen |
| ChainSafety.NothingIsLost | SDProj24-25/source/server_network.c:307-338 | along every run the writes that have taken effect, the calls and the answers only grow |
| ChainSafety.AcknowledgedSurvives | SDProj24-25/source/server_network.c:312-326 | after any timely continuation, with crashes and joins, every acknowledged write still counts among those that have taken effect, and every server's table is the result of these or of these and one more |
| ChainSafety.ForwardedWriteOutcome | SDProj24-25/source/client_stub.c:118-131 | a forwarded write either is new to its server, succeeds and makes its table that of the predecessor, or is an old one that changes nothing; an old one is refused exactly if it is a delete |
| ChainSafety.JoinSafety | SDProj24-25/source/server_network.c:219-261 | after a snapshot, along every timely continuation, the newcomer's table is its predecessor's unless exactly one write is between the two, which the predecessor has applied and is sending or has sent |
| ChainSafety.ReplayAfterSnapshot | SDProj24-25/source/server_network.c:219-261 | a write that waited in the newcomer's socket, applied right after the snapshot, leaves it with its predecessor's table |
| ChainLinks.LinksAreRightOrBroken | SDProj24-25/source/server_network.c:87-119 | in every reachable state, also after watchers that could not connect, a successor link is absent, leads to a server that is gone, or is the one the watcher would make now |
| ChainLinks.StepLinks | SDProj24-25/source/server_network.c:57-124 | no step, timely or not, links a server past a live one |
| ChainExact.CrashSafeIsExact | SDProj24-25/source/server_network.c:320-323 | in every state of the invariants, whoever waits and whatever was abandoned, the answers stay linearizable in every timely continuation of a crash if and only if the crashed server is the head, the tail, idle or answering, or its write has taken effect |
| ChainExact.ForwardSafeIsExact | SDProj24-25/source/server_network.c:312-326 | the same after a forward, if and only if the server is the last one, is linked to the next one, or its write has taken effect |
| ChainExact.LostBreaks | SDProj24-25/source/server_network.c:312-326 | if the idle head has a write that the tail lacks and is linked to nobody alive, timely runs lead to a history that no sequential map explains: the head answers that write once more without forwarding it, a reader sees the tail without it, and so on, more often than there are calls that could undo it |
| ChainExact.RoundsUnexplained | SDProj24-25/source/client_hashtable.c:249-262 | no order of the calls explains such a series of answers, even if any number of calls without an answer may take effect at any time |
| ChainExact.EarlyAnswerBreaks | SDProj24-25/source/server_network.c:320-323 | the same if a server is about to answer, everybody above it is waiting, and the answers leave the head cut off in this way |
| ChainNoticed.EffectAtTail | SDProj24-25/source/server_network.c:307-326 | for the write that the client waits for, having taken effect means that the tail has been changed by it or would not be changed by it |
| ChainNoticed.CrashNoticedIff | SDProj24-25/source/server_network.c:320-323 | if a server inside the chain stops while it handles that write, users never notice if and only if the tail has the write or would not be changed by it |
| ChainNoticed.ForwardNoticedIff | SDProj24-25/source/server_network.c:312-326 | if a server that is not linked to the next one forwards that write, users never notice if and only if the tail has the write or would not be changed by it |
| ChainNoticed.CrashNoticed | SDProj24-25/source/server_network.c:320-323 | a run of three servers in which the middle one stops too early |
| ChainNoticed.ForwardNoticed | SDProj24-25/source/server_network.c:312-326 | a run in which a server joins and the head answers before its watcher has run |
| ChainReaders.ReadSafeIsExact | SDProj24-25/source/client_hashtable.c:42-106 | if no call was abandoned, a read that began after the last acknowledgement and is served by any server keeps all continuations linearizable if and only if that server answers as the tail would |
| ChainReaders.InSendingOrder | SDProj24-25/source/client_hashtable.c:249-262 | when all calls but the last one are answered, every explanation runs them in the order in which they were made |
| ChainReaders.NothingBelowIsSafe | SDProj24-25/source/client_hashtable.c:42-106 | that is so whenever the reader's server and the tail have been changed by the same writes |
| ChainReaders.StaleRead | SDProj24-25/source/client_hashtable.c:84-98 | a run in which a reader that is still connected to the old tail sees a put that a later reader does not see |
| ChainCalm.RelinkConnectsToLast | SDProj24-25/source/client_hashtable.c:80-98 | in every reachable state a reader's watcher connects to a live znode that no live znode is greater than, also when the server there has not copied its table yet; a request on another connection is lost |
| ChainCalm.WatchersConnectToNext | SDProj24-25/source/server_network.c:87-119 | in every reachable state the watcher of a server, and that of a joiner, connects to the least live znode greater than its own, or to nobody if there is none |
| ChainCalm.RelinkedReaderIsSafe | SDProj24-25/source/client_hashtable.c:80-98 | after a reader's watcher has run, and through any steps that the code can make, timely or not, but that create and remove no znode, the reader is served by the last server of the chain, so its reads are safe |
| ChainCalm.CalmRunsAreTimely | SDProj24-25/source/server_network.c:263-348 | once all watchers have run, and as long as no znode comes or goes, everything that the code can do is timely and linearizable, without any assumption about forwards, reads or new writes |
| ChainCalm.SteadyChainIsLinearizable | SDProj24-25/source/server_network.c:263-348 | in particular from the start, for every length of the chain |
| ChainDraining.SendSafeIsExact | SDProj24-25/source/server_network.c:219-261 | if no call was abandoned, a new write keeps all continuations linearizable if and only if no write that is still held, and may yet reach a joiner, would change the store that the new one makes; for any number of servers and joiners |
| ChainDraining.OldValueReturns | SDProj24-25/source/server_network.c:219-261 | a client that overwrites a key while an orphaned put of another value waits in a joiner's socket can cause readers to see the new value and then the old one, and a timely run gets there for every key and values |
| ChainDraining.OrphanReachable | SDProj24-25/source/server_network.c:312-326 | a timely run from two servers leaves any put, acknowledged, in the socket of a joiner |
| ChainCrashFree.CrashFreeRunsAreTimely | SDProj24-25/source/server_network.c:263-348 | in a run without crashes, for any chain length and with any joins, whose forwards and reads are safe, no server and no joiner still holds a write when the client may send, so new writes need no assumption |
| Store.RepeatedWrite | SDProj24-25/source/server_skeleton.c:31-104 | a successful put or delete applied a second time changes nothing, and is refused exactly if it is a delete |
| CStrings.LessMeans | SDProj24-25/source/entry.c:38-45 | the order of keys is that of C strings: the first byte that differs decides, and a key is less than its extensions |
| CStrings.SignCompareMeetsHeader | SDProj24-25/include/entry.h:15-19 | the comparison that the header documents orders keys by unsigned bytes and is antisymmetric, total and exact on equality |
| CStrings.ByteDifferenceIsNotUnit | SDProj24-25/source/entry.c:38-45 | a correct strcmp that returns byte differences does not meet the header: it answers 2 for two keys |
| ListSpec.AddKeepsSortedIff | SDProj24-25/source/list.c:71-116 | for any correct strcmp, list_add keeps a sorted list sorted if and only if the first entry that is not smaller compares as at most 1 |
| ListSpec.AddKeepsDistinctIff | SDProj24-25/source/list.c:71-116 | for any correct strcmp, list_add keeps the keys distinct if and only if no earlier entry compares as 1 before the entry with the key |
| ListSpec.SortedForEverIff | SDProj24-25/source/entry.c:38-45 | all sequences of list_add on an empty list stay sorted if and only if the comparison answers greater with exactly 1 |
| ListMap.AddRefinesUpdate | SDProj24-25/source/list.c:41-119 | under the header's contract list_add is a map update, its result tells whether the key was there, and the size grows exactly if it was not |
| ListMap.AddFind | SDProj24-25/source/list.c:41-119 | after list_add every other key is found with the value it had |
| ListMap.RemoveRefinesRemoval | SDProj24-25/source/list.c:206-238 | list_remove keeps the order and takes exactly its key out of the map |
| ListMap.LookupIsMap | SDProj24-25/source/list.c:134-152 | list_get finds exactly what the map holds |
| ListMap.OvershootDuplicates | SDProj24-25/source/list.c:85 | with a strcmp that returns byte differences, adding c, a, b and a again leaves the four entries a, b, c, a |
| Blocks.BlockCreate | SDProj24-25/source/block.c:18-34 | NULL for an empty block; otherwise a block that shares the caller's buffer |
| Blocks.BlockDuplicate | SDProj24-25/source/block.c:40-61 | NULL exactly for a block that cannot be copied; otherwise a new block with a new buffer of equal contents |
| Blocks.EntryDuplicate | SDProj24-25/source/entry.c:51-72 | a new entry with a new block and a new buffer, or NULL if the value cannot be copied |
| Blocks.EntryDestroy | SDProj24-25/source/entry.c:98-109 | marks the entry and its block as freed, which must not have been freed before |
| Lists.List.Add | SDProj24-25/source/list.c:41-119 | computes the insertion or the replacement of the list specification for any comparator, reads only live nodes, and takes over exactly the objects of the new entry; 1 for a replacement, 0 for a new key, -1 for NULL |
| Lists.List.InsertBefore | SDProj24-25/source/list.c:85-105 | linking a node in keeps the chain of next pointers and all prev pointers but the head's, although the head's prev may point to a freed node |
| Lists.List.Remove | SDProj24-25/source/list.c:206-238 | removes the first entry with the key and marks its node, entry and block as freed; 1 and no change if there is none |
| Lists.List.Unlink | SDProj24-25/source/list.c:216-226 | taking out the head leaves the new head's prev pointing to the removed node; every other node is linked correctly |
| Lists.List.Get | SDProj24-25/source/list.c:134-152 | the entry in the list with the key, or NULL; only live nodes are read |
| Lists.List.GetKeys | SDProj24-25/source/list.c:159-181 | a new array with the keys in order and a NULL behind them, or NULL for an empty list |
| Lists.List.Destroy | SDProj24-25/source/list.c:245-259 | marks every node, entry and block of the list as freed, and none of them twice |
| TableSpec.WriteRefines | SDProj24-25/source/table.c:57-75 | for any bucket count and any hash in range, one table_put or table_remove is one step of the map, with the same result, and keeps every bucket sorted and every key in its bucket |
| TableSpec.TableRefinesStore | SDProj24-25/source/table.c:57-168 | after any sequence of puts and removes on a new table of any size the table is the map, and table_size is its size |
| TableSpec.TableLookup | SDProj24-25/source/table.c:81-97 | the bucket that the hash names answers for the whole map |
| TableSpec.TableSizeIsMapSize | SDProj24-25/source/table.c:102-112 | the sum of the list sizes is the number of keys |
| TableSpec.SnapshotRoundTrip | SDProj24-25/source/server_network.c:246-256 | putting all entries of a table into a new one, with any other bucket count and hash, gives the same map |
| TableSpec.HashFunction | SDProj24-25/source/table-private.c:17-23 | the loop over the key returns 0, which is in range for every bucket count |
| TableSpec.CodeHashSortsKeys | SDProj24-25/source/table-private.c:17-23 | with that hash all keys are in the first list and table_get_keys lists them in order |
| Tables.TableCreate | SDProj24-25/source/table.c:20-48 | NULL exactly if the size is not positive; otherwise a table of empty lists that shares nothing with anybody |
| Tables.Table.Put | SDProj24-25/source/table.c:57-75 | the buckets change as the specification says with the contents that the block has now; everything the table owns afterwards was its own or is new; 0, or -1 for a block that cannot be copied |
| Tables.Table.Get | SDProj24-25/source/table.c:81-97 | NULL exactly if the key is not in its bucket; otherwise a new block with a copy of the value |
| Tables.Table.Size | SDProj24-25/source/table.c:102-112 | the loop adds up the lengths of all lists |
| Tables.Table.GetKeys | SDProj24-25/source/table.c:119-145 | fills exactly table_size slots, list by list, and puts NULL behind them; NULL exactly for an empty table |
| Tables.Table.Remove | SDProj24-25/source/table.c:163-168 | the buckets change as the specification says, only the list of the key is touched; 0 if the key was there, 1 if not |
| Tables.Table.Destroy | SDProj24-25/source/table.c:174-186 | marks every list with every node, entry and block in it as freed, and none of them twice |
| Copies.PutMeans | SDProj24-25/source/table.c:57-75 | a put of a buffer binds the key to the contents that the buffer has now; an empty buffer changes nothing |
| Copies.GetMeans | SDProj24-25/source/table.c:81-97 | a get hands the caller one more buffer, with the key's value, exactly if the key is there, and leaves the table alone |
| Copies.RemoveMeans | SDProj24-25/source/table.c:163-168 | a removal takes exactly its key out of the map |
| Copies.ScribbleMeans | SDProj24-25/source/table.c:65-96 | a write into a buffer changes one byte of one buffer and leaves the table alone |
| Copies.ScriptMeans | SDProj24-25/source/table.c:57-168 | after any script the table stands for the map that its puts and removes make, each put with the contents that its buffer had at its turn |
| Copies.Play | SDProj24-25/source/table.c:65-96 | for every script of puts, gets, removes and writes into any buffer that was ever put or got, the table on the heap ends up with exactly that map, and table and buffers as if they were separate values |
| Copies.ScribblesAreInvisible | SDProj24-25/source/table.c:65-96 | in any script, a write into a buffer that is not put again later can be left out without changing the table that the script ends with |
| Requests.ServeAnswers | SDProj24-25/source/server_skeleton.c:27-215 | one request is one step of a sequential map: result, reply and new map agree, lists of keys and entries are complete and without repeats, and an empty table answers the list requests with an error |
| Requests.ServeRefinesMap | SDProj24-25/source/server_skeleton.c:27-215 | every sequence of requests is answered as a sequential map answers it |
| Skeleton.Invoke | SDProj24-25/source/server_skeleton.c:27-215 | for any message, a put having its entry, the table and the message end up as the request specification says: opcode + 1 and the content type of the reply, or OP_ERROR with CT_NONE, -1 and an unchanged table; an unknown opcode changes nothing; the fields that forwarding needs are kept |
| Skeleton.InvokeChange | SDProj24-25/source/server_skeleton.c:31-104 | the same for the two requests that change the table; the error exits behind table_put and table_remove are not reached when requests come one after the other |
| Skeleton.TestAndRemove | SDProj24-25/source/server_skeleton.c:83-99 | the test of OP_DEL and its removal together succeed exactly if the key is there |
| Skeleton.InvokeGetTable | SDProj24-25/source/server_skeleton.c:141-211 | all entries of the table, with copies of the values, or OP_ERROR for an empty table |
| Skeleton.ListedKeyFound | SDProj24-25/source/server_skeleton.c:165-172 | every key that table_get_keys lists is found by table_get, so the exit with -1 inside the loop is never taken |
| Skeleton.InvokeGetKeys | SDProj24-25/source/server_skeleton.c:123-137 | as many keys as table_size says, and NULL behind them |
| Skeleton.InvokeGet | SDProj24-25/source/server_skeleton.c:58-79 | the value with the key cleared, or OP_ERROR |
| Replicas.Replica.Handle | SDProj24-25/source/server_network.c:305-326 | one pass at the head of a chain of servers on the heap, each with a table of its own size, for any opcode: the first table makes the step of the request and all others the step of what is passed on; afterwards they agree if and only if the opcode is not PUT+1 or DEL+1, or what is passed on changes nothing; the reply is one that the sequential map gives |
| Replicas.Replica.HarmlessIff | SDProj24-25/source/server_network.c:314-324 | for which messages and maps the step of the request and that of what is passed on are the same |
| Replicas.ReplyCodeDisagrees | SDProj24-25/source/server_network.c:314-321 | a put of a new key that comes with the opcode of the reply leaves the first table without the key and the others with it |
| Replicas.Replica.Forward | SDProj24-25/source/server_network.c:312-326 | with PUT+1 or DEL+1 the rest of the chain makes the step of that put or delete; an empty value or a missing key changes nothing |
| Replicas.Replica.RtablePut | SDProj24-25/source/client_stub.c:82-133 | down an agreeing chain the put is done by every server and the reply is always PUT+1, so ignoring it is harmless; -1 and no change for NULL |
| Replicas.Replica.RtableDel | SDProj24-25/source/client_stub.c:176-196 | down an agreeing chain OP_ERROR comes back exactly if no server has the key; the key is gone everywhere in any case |
| Replicas.Replica.ReplyTells | SDProj24-25/source/server_network.c:312-324 | the opcode of the reply and the fields kept from the request determine exactly the change that was made, so the successor makes the same one |
| Joining.SetTable | SDProj24-25/source/server_network.c:219-261 | a new table, with any number of lists, ends up with the map of a live predecessor, which is not changed; an empty predecessor is answered with an error and nothing is copied |
| Joining.RtableGetTable | SDProj24-25/source/client_stub.c:265-289 | NULL exactly for an empty table; otherwise all its pairs in blocks of their own |
| Joining.RtableSize | SDProj24-25/source/client_stub.c:201-223 | the number of keys in the other server's table |
| Reading.RtableGet | SDProj24-25/source/client_stub.c:138-170 | NULL exactly for no key or a key that the other server's table does not have; otherwise a block of its own with the value that the table has for the key |
| Reading.RtableGetKeys | SDProj24-25/source/client_stub.c:229-254 | NULL exactly if the other server's table is empty; otherwise a new array with every key of the table, each once |
| Reading.ReadsAreServed | SDProj24-25/source/server_skeleton.c:58-119 | what the chain model tells a reader is what the server's code replies from any table in order: a value exactly if the reply carries it, nothing exactly for the error, and the same size |
| Handlers.StepKeeps | SDProj24-25/source/server_network.c:263-348 | every atomic step of every handler thread keeps the invariant of locks, counters, effects and replies |
| Handlers.RunKeeps | SDProj24-25/source/server_network.c:263-348 | the invariant holds in every interleaving of any number of threads |
| HandlerTheorems.MutualExclusion | SDProj24-25/source/server_skeleton.c:43-45 | no two threads are inside table_put or table_remove at once, and no two work on the counters at once |
| HandlerTheorems.Linearizable | SDProj24-25/source/server_skeleton.c:27-215 | in every interleaving each reply is right at a moment between the arrival of its request and its departure; no two requests share one moment; requests that do not overlap keep their order; and every effect on the table is that of exactly one request, answered or still carried by a thread |
| HandlerTheorems.EffectsAreOwned | SDProj24-25/source/server_skeleton.c:27-215 | no effect without a request: the effects are as many as the requests that had one, and each belongs to one of them |
| HandlerTheorems.DeleteDecided | SDProj24-25/source/server_skeleton.c:81-102 | a delete is answered with DEL+1 exactly if the key was there when it took effect, and with OP_ERROR exactly if it was not, at the get-miss or at the remove-miss; in both cases the key is gone afterwards |
| HandlerTheorems.ReplyDecided | SDProj24-25/source/server_skeleton.c:27-215 | a put is carried out exactly if its value is not empty; a get is answered with the value that the key had when it took effect, or OP_ERROR if it was not there; a size with the number of keys; the lists are complete and without repeats, or OP_ERROR if there is nothing to list |
| HandlerTheorems.TwoDeletes | SDProj24-25/source/server_skeleton.c:83-99 | of two deletes that both passed the test, the first to lock wins and the second fails |
| HandlerTheorems.SizeConserved | SDProj24-25/source/server_skeleton.c:43-102 | the size is the initial size plus the puts of new keys minus the DEL+1 replies, sent or about to be sent |
| HandlerTheorems.StatisticsExact | SDProj24-25/source/server_network.c:273-345 | n_clients is the number of handlers between increment and decrement, and n_ops the number of completed passes that were not for statistics |
| HandlerTheorems.StatisticsNeverDecrease | SDProj24-25/source/server_network.c:290-304 | a later statistics request is never told a smaller n_ops |
| HandlerTheorems.StatisticsMoment | SDProj24-25/source/server_network.c:299-303 | both counters of a statistics reply are those of one state of the run, between request and reply, in which the asking thread holds stats_mutex: n_clients is the number of handlers between their increment and decrement then, at least 1 because the asking one is among them, and n_ops the number of counted passes |
| HandlerTheorems.ReplyTimes | SDProj24-25/source/server_network.c:280-338 | the two times of a reply are real: they are those of the step in which its thread received that request and of the step in which it sent that reply, with no other reply of the thread between them |
| Handlers.OtherThreadKept | SDProj24-25/source/server_network.c:330-333 | a thread that has loaded a counter under stats_mutex still sees its present value when it stores it, whatever other threads do |
| Serialization.KeyArrayToBuffer | SDProj24-25/source/serialization.c:28-64 | -1 for NULL; otherwise a new buffer that holds exactly the encoding, and 4 plus the sum of the lengths plus one each as the result |
| Serialization.BufferToKeyArray | SDProj24-25/source/serialization.c:79-112 | NULL for NULL; otherwise a new NULL-terminated array with the decoded keys |
| Serialization.RoundTrip | SDProj24-25/source/serialization.c:79-112 | decoding an encoding gives the same keys whatever bytes follow |
| Serialization.PrefixFree | SDProj24-25/source/serialization.c:28-64 | no encoding is the beginning of another one; in particular the encoding is injective |
| Serialization.EncodingLayout | SDProj24-25/source/serialization.c:28-64 | the first four bytes of an encoding are the number of keys, high byte first, and each key stands behind those before it, with a NUL |
| Serialization.ReverseRoundTrip | SDProj24-25/source/serialization.c:79-112 | a buffer that can be decoded begins with the encoding of what it decodes to |
| Serialization.SendKeys | SDProj24-25/source/serialization.c:28-112 | the two procedures one after the other reproduce the array |
| Framing.WriteAll | SDProj24-25/source/message-private.c:8-26 | all bytes are written in order, whatever part each write takes |
| Framing.ReadAll | SDProj24-25/source/message-private.c:28-49 | exactly the bytes asked for, whatever part each read gives, or 0 if the stream ends before |
| Framing.NetworkSend | SDProj24-25/source/server_network.c:517-556 | a non-empty message is sent as its frame; an empty one is refused and nothing is sent |
| Framing.NetworkReceive | SDProj24-25/source/server_network.c:476-510 | the next message of the stream and nothing more, or NULL if it is not there as a whole |
| Framing.NetworkSendReceive | SDProj24-25/source/client_network.c:75-141 | the client's frame goes out and the next message comes back; NULL for an empty message or a cut answer |
| Framing.FrameRoundTripIff | SDProj24-25/source/server_network.c:481-498 | a frame is received as it was sent, whatever follows, if and only if the message has at most 65535 bytes |
| Framing.FrameLayout | SDProj24-25/source/server_network.c:537-545 | a frame is two bytes, the length with its high byte first and cut to 16 bits, and the message |
| Framing.StreamRecoveredIff | SDProj24-25/source/server_network.c:476-556 | a stream of messages is recovered exactly, in order and with nothing left over, if and only if each has at most 65535 bytes |
| Framing.CutStream | SDProj24-25/source/server_network.c:480-497 | a stream cut anywhere gives exactly the messages that are complete, and never a part of one |
| Framing.Transfer | SDProj24-25/source/message-private.c:8-49 | from sender to receiver, with arbitrary parts on both sides, what arrives is what was sent if and only if every message fits |
| ZnodeNames.NamesFollowNumbers | SDProj24-25/source/server_network.c:168-169 | strcmp orders the names that ZooKeeper gives by their sequence numbers |
| Topology.SameOrder | SDProj24-25/source/server_network.c:75-76 | the sorted order of the children does not depend on the order in which they are listed |
| Topology.ServerNode.Watch | SDProj24-25/source/server_network.c:57-124 | the watcher's loop, its test of the old connection and its new connection compute the link of the specification, for every outcome of the two remote calls |
| Topology.ClientNode.Watch | SDProj24-25/source/client_hashtable.c:42-106 | the client's watcher computes the ends of the specification for every outcome of its four calls: the old connection is freed first, and the pointer to it stays if the address cannot be read |
| Topology.ClientNode.Link | SDProj24-25/source/client_hashtable.c:122-165 | the first connections of a client compute the ends of the specification for every outcome of the four calls, with its early returns |
| Topology.FirstLinkIff | SDProj24-25/source/client_hashtable.c:122-165 | a new client has the paths of the least and the greatest name; it is connected to the head exactly if both calls for the head succeeded and to the tail exactly if all four did, and never to any other server |
| Topology.FailedClientStays | SDProj24-25/source/client_hashtable.c:57-101 | a client whose first connection failed stays without connection through any number of events, whatever the calls in them do, as long as head and tail keep their names |
| Topology.FreedIff | SDProj24-25/source/client_hashtable.c:57-101 | exactly when the watcher leaves a pointer to a freed connection, and exactly when it frees one a second time |
| Topology.ReadableIsSafe | SDProj24-25/source/client_hashtable.c:57-101 | through any number of events in which the addresses can be read, no freed connection is kept and none is freed twice, whether or not the connections succeed |
| Topology.FreedAgain | SDProj24-25/source/client_hashtable.c:63-70 | a connected client that cannot read the address of a new head frees the old connection again at the next change of the head, however many other events come between |
| Topology.WatchLinksIff | SDProj24-25/source/server_network.c:87-119 | after the watcher the server is linked to the next greater name if and only if no new connection was needed or both calls succeeded; it keeps a connection that does not fit its path exactly if only the address could not be read |
| Topology.WatchPlace | SDProj24-25/source/server_network.c:78-90 | after the watcher a server's place is right: the child before it, which set_table copies from, is its predecessor, there is none exactly for the least name, and the path is that of its successor whether or not the connection succeeded |
| Topology.StaleLinkStays | SDProj24-25/source/server_network.c:92-96 | such a connection is not repaired by any later event with the same successor |
| Topology.ClientLinksIff | SDProj24-25/source/client_hashtable.c:57-101 | exactly when a client is connected to the least and to the greatest name after its watcher |
| Topology.ClientPathsIff | SDProj24-25/source/client_hashtable.c:57-101 | after the client's watcher the head path is that of the least name even if the connection failed, and the tail path that of the greatest name exactly unless the watcher gave up at a new head |
| Topology.FailedHeadStays | SDProj24-25/source/client_hashtable.c:57-101 | a client that could not connect to a new head stays without it through any number of events, whatever the calls in them do, until the head has another name |
| Topology.OnePath | SDProj24-25/source/server_network.c:75-119 | for any non-empty set of names, listed to every server in any order, whatever connections the servers had before and with calls that succeed, following the successors from the client's head visits every server once, in order, and ends at the client's tail |
| Topology.Leaving | SDProj24-25/source/server_network.c:87-119 | a server that leaves changes the successor of its predecessor only |
| Topology.Arriving | SDProj24-25/source/server_network.c:87-119 | a server with the greatest name becomes the successor of the old last one, and nothing else changes |

## Left out

- Sockets, `connect`, `accept`, signals, main loops, the command line and printing: input and output.
- The ZooKeeper client: it appears as the list of children and as the outcome of the two calls that the watchers make.
- Protobuf packing: messages are their packed bytes in `Framing`, and travel as copies of their fields in `Replicas`
  and `Joining`.
- Several concurrent writers at the head, and writes that a client sends again after its connection broke: the code
  does not order them.
- Interrupted system calls, failing writes and failing allocation, and NULL handles for tables, lists and messages.
- `block_replace`, `entry_replace` and `statistics_update` are not used by the program; the first does not replace
  anything.
- `time_spent` and the clock.
- Leaks above the table: keys are values in the model, so their buffers are neither shared nor counted as freed, and
  the copies that `table_put` abandons are not tracked.
- Blocks.EntryDestroy: `block_destroy` and `entry_destroy` also free the data buffer and the key string
  (SDProj24-25/source/block.c and entry.c), which have no `live` flag here, so reading or freeing a freed buffer is
  not excluded.
- Lists.List.Destroy: the same for the key strings and data buffers of all entries.
- Tables.Table.Destroy: the same, and `table->lists` is a sequence that is fixed when the table is created, so freeing
  the array itself is not modelled.
- Widths: list sizes, counters, `msg->result` and `table->size` are unbounded; the key-array codec states the int
  range that it needs.
- The commands of the client: `put` always sends eight bytes of the token, because it takes the size of the pointer
  (SDProj24-25/source/client_hashtable.c:249); any bytes may be sent here.
- `rtable_stats` only copies fields out of a reply.
- Handlers.Next: the table operations under the mutex, and each request that reads without it, are single steps; a
  reader that runs in the middle of another thread's table operation is not modelled. Forwarding, which comes between
  invoke and the counters, is in `Chain` and `Replicas`.
- The end of a connection is always a clean one: a NULL request with `errno` set is dereferenced by the handler
  (SDProj24-25/source/server_network.c:280-290).
- Chain.CanSend: the head takes the next client's write only when it is idle, and a successor's thread takes one
  request at a time; two threads of one server that both hold a write are not modelled.
- Chain.DoWatch: a watcher whose calls fail leaves no link. If only `zoo_get` fails the code keeps the old connection
  (`Topology.StaleLinkStays`); in the chain that connection leads to a server that is gone, which forwards like no
  link.
- ChainReaders.ReadSafeIsExact: reads that began before the last acknowledgement, and states with an abandoned call,
  are left out, since an explanation may then use the freedom to place the read or the abandoned write; safe reads are
  shown to be harmless in every state.
- ChainDraining.SendSafeIsExact: likewise for states with an abandoned call; safe writes are shown to be harmless in
  every state.
- Skeleton.Invoke: a put without an entry is dereferenced by the code (SDProj24-25/source/server_skeleton.c:34) and
  not modelled; the null checks and the second error exits of OP_PUT, OP_DEL and OP_SIZE appear as assertions that
  they are not taken; with other threads the one of OP_DEL is taken, see `HandlerTheorems.DeleteDecided`.
- Skeleton.InvokeChange: likewise a put without an entry.
- Replicas.Replica.Handle: likewise a message with the code PUT or PUT + 1 and without an entry. Statistics requests
  do not reach `invoke` and are in `Handlers`.
- Topology.ClientNode: what the commands and the end of the client do with a NULL or freed connection.
- Joining.SetTable: a predecessor that is lost between the calls is not modelled; `rtable_size` then gives -1 and the
  loop over entries, which counts with a size_t, runs on NULL (SDProj24-25/source/server_network.c:246-250).
