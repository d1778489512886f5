# Verified models of the node's hard protocols

This project models, in Dafny 4.11, the parts of the bitcoin node and of its file-sharing layer whose
specification is short and whose code is not:

- the websocket rescan that runs while the chain reorganizes and then hands a client over to live
  notifications, the two transaction filters that must agree, the watch indexes that are changed while
  they are walked, the queues between goroutines, and the authentication of single and batched requests
  (`btcd/rpcwebsocket.go`);
- the peer table with its group counters and bans, the committed-filter checkpoint cache that is trusted
  back to a fork, the completion channels of a getdata reply, and the merging of checkpoints
  (`btcd/server.go`);
- long polling for block templates, the textual template id, and paging over two sources
  (`btcd/rpcserver.go`);
- the rating record that many peers update by read-modify-write (`application-layer`).

Code that changes state in place is modelled by classes and methods with loops, each proved against a
specification on plain values; what the code promises is then proved about that specification.
`dafny verify dfyconfig.toml` checks everything.

| file | models |
|---|---|
| `Wire.dfy`, `Lists.dfy`, `Chain.dfy` | transactions, blocks, identities; reversed lists; the block tree and its main chains |
| `RescanBlock.dfy`, `Rescan.dfy` | rescanning a block; the chunked rescan over any history of reorganizations |
| `Filter.dfy` | the transaction filter of a client, live and in rescans |
| `WatchIndex.dfy`, `Notifications.dfy` | the two-way watch indexes and the notification manager |
| `LiveHistory.dfy` | what clients watch and are told live, read off the messages alone |
| `Handover.dfy` | what a client is told by a rescan against what it is told live |
| `Queues.dfy`, `Pipeline.dfy` | the unbounded queue; the goroutines between notifications and the socket |
| `Auth.dfy` | authentication, authorization and dispatch of requests |
| `CFCheckpt.dfy` | the filter checkpoint cache |
| `GetData.dfy` | completion channels while serving a getdata message |
| `Peers.dfy` | the peer state, its counters and bans |
| `Checkpoints.dfy` | merging checkpoints |
| `LongPoll.dfy`, `TemplateId.dfy` | waiters for block templates; the id they use |
| `Paging.dfy` | the address search and the index lookup below it |
| `Rating.dfy` | the rating record in the distributed hash table |

## What is proved, and where the code falls short

Some expected properties are false of the code. The code is modelled as it is, a concrete case is given,
and the exact condition under which the property holds is proved.

- **Rescan.** Scanned blocks always form one linked run from the start. A client registered for live
  notifications has been shown all ancestors of the registered tip exactly when the tip at the first lookup
  had reached the start, or the registered tip is below it; `Rescan.UncoveredRegistration` is a run in which
  neither holds. A rescan through the tip that finishes while every block is found has handed over, and with
  nothing in the way every block asked for is scanned.
- **Filters.** The live and the rescan filter find the same transactions exactly when the filter does not
  hold the null outpoint or every coinbase pays it: only the rescan skips the inputs of a coinbase
  (`Filter.FiltersDisagree`).
- **Checkpoint cache.** Replies equal direct lookups while the cache lists one block's ancestors. A
  request keeps it so unless it grows the cache in place over a fork and a header goes missing in between;
  `CFCheckpt.MixedCacheRun` is a run of three requests that ends in a wrong reply.
- **getdata.** The final wait never returns exactly when the list ends in an unrecognized type, some entry
  is recognized and every lookup succeeds (`GetData.StuckOnUnknown`). Otherwise every channel gets what is
  taken from it.
- **Batches.** A batch acts like the same requests sent singly exactly when no dispatched command has a
  reply that cannot be encoded (no protocol version, or an id of another type): the batch loop then returns
  and leaves the connection open and unread (`Auth.JammedBatch`). A single command refused to a limited user
  gets no reply at all, because its reply is built without a version.
- **Notifications.** A client may be told of one memory pool spend more than once while outputs are
  registered: `Notifications.ToldTwice` is such a run. It happens exactly when two registrations are for
  outputs of that spend and the client watches an input of it at the first of them
  (`Notifications.ToldAgainIff`). From the addresses, the transaction and the pool alone: a spend is never told
  more often than its outputs meet watches, and exactly so often to a client that watched an input of it
  before (`Notifications.ToldByPayees`).
- **Hand-over.** The rescan matches outputs by the printed address and inputs by their script as well, the live
  code outputs by the encoded address only. Live notifications continue a rescan exactly when every
  transaction is matched alike (`Handover.HandoverIff`); where outputs are, exactly when none is recognized by
  a script alone (`Handover.HandoverByScript`). `Handover.PrintedKeyIsMissed` is a payment told by the rescan
  only, `Handover.ScriptIsMissed` a spend.
- **Long polling.** While every new tip is a newly accepted block, no waiter is left on another block once
  all notifications have run. `invalidateblock` and `reconsiderblock` move the tip without a notification,
  and `LongPoll.UnwokenWaiter` is a waiter they leave behind. Whatever moved the tip, nobody is left behind
  exactly when each open waiter is on the tip or is stale for a pending notification
  (`LongPoll.WorkState.RunPending`); from a quiet state, such a command leaves nobody behind exactly when
  the tip stays or nobody waits (`LongPoll.WorkState.Reselected`). A new template on the same block leaves no
  waiter on an older one exactly when each waiter there has a template from a second before the last change of
  the memory pool, or from the second of the new one (`LongPoll.WorkState.Renew`);
  `LongPoll.OlderWaiterStays` is a waiter that is not woken.
- **Template ids** round-trip exactly for non-negative times.
- **Paging** returns one window of one list except exactly where 32-bit sums or byte offsets wrap: the search
  then panics, a reversed index lookup reads too few levels (`Paging.ReadsTooLittle`), or an entry is read at
  the wrong place, from the 357913943rd entry of an address on (`Paging.TornEntry`).
- **Checkpoints** are strictly increasing exactly when no two defaults share a height that is not
  overridden.
- **Rating.** Rating and NumRaters always agree with the provider map. Upvote minus Downvote equals the
  rating of a copy exactly when the votes cast by publishing on the way to that copy cancel out
  (`Rating.UpvotesAgreeIff`); `Rating.UpvotesMissVotes` is a copy where they do not.

## Model

| member | source | states |
|---|---|---|
| `Chain.HeightRangeLinked` | btcd/blockchain/chain.go:1538-1579 | The height range the rescan asks for starts at the lower bound, climbs one height at a time, and each hash is the child of the one before. |
| `Chain.MainChainPrefix` | btcd/server.go:1027-1035 | Chains that agree at one height agree at every lower height, which is what makes walking back to a fork sound. |
| `RescanBlock.RescanInputs` | btcd/rpcwebsocket.go:2300-2383 | Forgets every spent outpoint and queues one redeemingtx exactly when an input spends a tracked outpoint or a watched script; stops exactly when that notification meets a client that quit. |
| `RescanBlock.RescanOutputs` | btcd/rpcwebsocket.go:2385-2424 | Tracks exactly the outputs that pay a watched address and queues one recvtx exactly when there is one. |
| `RescanBlock.RescanBlock` | btcd/rpcwebsocket.go:2287-2426 | A block yields, transaction by transaction, exactly the specified notifications; a client that quits gets a prefix of them. |
| `RescanBlock.UnspentIsLatestCreation` | btcd/rpcwebsocket.go:2287-2426 | After any chain of blocks an outpoint is tracked exactly when its latest event is a creation, or it was given and has no event. |
| `RescanBlock.LiveIsLatestEvent` | btcd/rpcwebsocket.go:2287-2426 | Liveness over a history of events is decided by the last event that mentions the outpoint. |
| `RescanBlock.TxsUnspentIsHistory` | btcd/rpcwebsocket.go:2288-2425 | Within a block the tracked set follows the history of spends and creations in transaction order. |
| `RescanBlock.TrackedIff` | btcd/rpcwebsocket.go:2288-2425 | Read off the transactions: an outpoint is tracked when a transaction is reached exactly when the last earlier one to mention it pays a watched address at that very output, or it was given and none spent it. |
| `RescanBlock.ToldIff` | btcd/rpcwebsocket.go:2300-2424 | Read off the transactions: a redeemingtx is queued exactly when an input spends what is tracked there or its script is that of a watched address, and then a recvtx exactly when an output prints one. |
| `RescanBlock.PaidThenSpent` | btcd/rpcwebsocket.go:2394-2398 | Output i of a transaction that pays a watched address is tracked as (its hash, i), and the next transaction to spend it is told. |
| `RescanBlock.PaymentAndSpend` | btcd/rpcwebsocket.go:2385-2398 | A payment at output 0 and its spend: one recvtx, then one redeemingtx. |
| `Rescan.ScanBlockChunks` | btcd/rpcwebsocket.go:2610-2796 | Over any history of reorganizations, failures, ticks and disconnects: the run is linked from the start and below the bound, the client is told a prefix of the run's notifications, all of them while it accepts any, and a live registration covers the tip's ancestors exactly when the tip at the first lookup had reached the start or the registered tip is below it. A rescan through the tip that finishes with every block found is registered or at its bound; failing and stopping have their causes; on a chain that stays, with nothing failing and time enough, every block asked for is scanned and a rescan through the tip ends registered there. |
| `Rescan.ScanHashList` | btcd/rpcwebsocket.go:2692-2792 | The inner loop extends a linked run with linked blocks only, also across lists fetched after a reorganization; with every block found it scans the whole list, and it stops only for a stated cause. |
| `Rescan.ScanStep` | btcd/rpcwebsocket.go:2692-2765 | What one lookup does: a broken database fails, a missing block restarts a rescan through the tip on the current chain and fails a bounded one, a block that does not continue the run fails, a client that quit stops, and any other block is scanned. |
| `Rescan.FinishOrWait` | btcd/rpcwebsocket.go:2647-2690 | An empty range ends a bounded rescan, and hands over one through the tip exactly when nothing was scanned or the last block is the tip; otherwise the loop goes round. |
| `Rescan.RecoverFromReorg` | btcd/rpcwebsocket.go:2563-2604 | A recovered list is the current chain from the wanted height, linked, its first block the child of the last one scanned; recovery succeeds whenever that is so, and fails for a stated cause. |
| `Rescan.LinkedRunIsMainChain` | btcd/rpcwebsocket.go:2596-2604 | A run of linked blocks is the main chain of its last block from the start height on. |
| `Rescan.RegistrationCoverage` | btcd/rpcwebsocket.go:2647-2690 | The scanned run is all of the tip's ancestors from the start exactly when it is not empty or the tip is lower. |
| `Rescan.UncoveredRegistration` | btcd/rpcwebsocket.go:2667-2677 | A run that registers a client for live notifications at a tip whose ancestors it never scanned. |
| `Handover.HandoverIff` | btcd/rpcwebsocket.go:2671-2677 | A client registered with what a rescan ended with is told about every prefix of a block, and watches after it, what rescanning would have told and tracked, exactly when every transaction is matched alike. |
| `Handover.HandoverByScript` | btcd/rpcwebsocket.go:2344-2383 | Where no output is matched differently, live and rescan tell the same about a block exactly when no transaction is recognized by a script alone. |
| `Handover.LiveTellsLess` | btcd/rpcwebsocket.go:2344-2383 | There the live code never tells more than the rescan, and less when a script alone decides. |
| `Handover.TrackedAlike` | btcd/rpcwebsocket.go:2385-2398 | There both sides track the same outpoints throughout. |
| `Handover.PrintedKeyIsMissed` | btcd/rpcwebsocket.go:2389-2392 | A raw public key asked for by its printed form is found by the rescan and missed by the live code. |
| `Handover.ScriptOnlyIff` | btcd/rpcwebsocket.go:2344-2383 | A transaction is recognized by a script alone exactly when the script of an input is that of a watched address and no input spends what is tracked. |
| `Handover.ScriptIsMissed` | btcd/rpcwebsocket.go:2348-2383 | Such a transaction, told by the rescan and not by the live code. |
| `Filter.WsClientFilter.AddAddress` | btcd/rpcwebsocket.go:299-328 | Afterwards the filter matches what it matched before and exactly the addresses covered by the added one: itself, and raw keys under an added key hash. |
| `Filter.WsClientFilter.RemoveAddress` | btcd/rpcwebsocket.go:383-412 | Nothing the address did not cover is lost, nothing is gained, and the address stays matched exactly when it is a raw key whose hash is in the filter. |
| `Filter.RescanBlockFilter` | btcd/rpcwebsocket.go:2433-2489 | The found transactions are the rescan picks in block order and the filter holds exactly the outpoints it should. |
| `Filter.SubscribedClients` | btcd/rpcwebsocket.go:633-688 | A client is subscribed exactly when the transaction spends from or pays its filter, and every filter gains exactly the matching outputs. |
| `Filter.NotifyFilteredBlockConnected` | btcd/rpcwebsocket.go:735-776 | Every client's list is the live picks of its own filter, clients without a filter get none, and every filter ends as if it had been run alone. |
| `Filter.LivePicksInOrder` | btcd/rpcwebsocket.go:735-776 | Picks are in block order without repetition. |
| `Filter.LivePicksExactly` | btcd/rpcwebsocket.go:735-776 | A transaction is picked exactly when it is relevant to the filter as it stands at that point of the block. |
| `Filter.HeldIff` | btcd/rpcwebsocket.go:676-678 | A filter holds exactly the outpoints it was given and those, numbered by position, of well-formed earlier outputs with an address it holds. |
| `Filter.LivePicksIff` | btcd/rpcwebsocket.go:633-688 | Read off the transactions: sent live are exactly those that spend an outpoint held there or have a well-formed output with an address in the filter. |
| `Filter.RescanPicksIff` | btcd/rpcwebsocket.go:2444-2486 | The same for the rescan, where a coinbase spends nothing. |
| `Filter.PaidThenSpent` | btcd/rpcwebsocket.go:2468-2474 | Output i that pays the filter is held as (its hash, i), and every later transaction that spends it is sent, and found unless it is a coinbase. |
| `Filter.FiltersAgreeIff` | btcd/rpcwebsocket.go:2433-2489 | Live and rescan lists are the same exactly when the null outpoint is not in the filter or every coinbase pays it. |
| `Filter.FiltersDisagree` | btcd/rpcwebsocket.go:2444-2456 | A filter that holds the null outpoint and a block of one coinbase that pays nobody: sent live, not found by the rescan. |
| `Filter.PicksAgreeIff` | btcd/rpcwebsocket.go:2444-2456 | The same for every prefix of a block, and the rescan never finds more. |
| `Filter.RelevanceGap` | btcd/rpcwebsocket.go:2444-2456 | The two relevance tests differ exactly for a coinbase that pays nobody while the null outpoint is held. |
| `Filter.NullOutPointNeverAdded` | btcd/rpcwebsocket.go:426-433 | Processing a block neither adds nor removes the null outpoint. |
| `WatchIndex.Add` | btcd/rpcwebsocket.go:885-901 | Adds one pair to the watch relation and keeps both directions in step. |
| `WatchIndex.Remove` | btcd/rpcwebsocket.go:934-954 | Removes one pair, keeps both directions in step, and drops a key that loses its last watcher. |
| `WatchIndex.RemoveAll` | btcd/rpcwebsocket.go:554-567 | Removing a client's requests while walking that very set removes exactly that client from the relation. |
| `Notifications.NotificationManager.NotifyForTxIns` | btcd/rpcwebsocket.go:1079-1112 | Every client that watches an input is told exactly once, others not at all, and a confirmed spend ends exactly the watches on the inputs. |
| `Notifications.NotificationManager.AddSpentRequests` | btcd/rpcwebsocket.go:885-918 | Adds exactly the requested watches, and every client is told of each existing memory pool spend it watches exactly once; the nested notification changes nothing else. |
| `Notifications.NotificationManager.NotifyForTxOuts` | btcd/rpcwebsocket.go:990-1041 | Adds exactly one watch per matching output and client, tells each paid client once, and tells of the memory pool spends exactly those of its visits, in order: each client is visited once for every address through which an output pays it. |
| `Notifications.VisitedIsTold` | btcd/rpcwebsocket.go:1008-1041 | A client that is visited for an output is told of the memory pool spend of it. |
| `Notifications.ToldTwice` | btcd/rpcwebsocket.go:885-918 | A run: a client watches an address that a transaction pays twice, a pool transaction spends both outputs, and the client is told of it twice. |
| `Notifications.ToldAgainIff` | btcd/rpcwebsocket.go:885-918 | A client is told of a spend more than once exactly when two visits are for outputs it spends and the client watches an input of it at the first. |
| `Notifications.ToldByPayees` | btcd/rpcwebsocket.go:990-1041 | In every order of the walks, a spend is told no more often than its outputs meet watches, and exactly so often to a client that watched an input of it before. |
| `Notifications.PaidTwiceToldTwice` | btcd/rpcwebsocket.go:990-1041 | A client paid by two outputs of a spend is told of it at least twice, in every order. |
| `Notifications.AllVisited` | btcd/rpcwebsocket.go:990-1041 | The clients visited for an output are exactly those it is registered for. |
| `Notifications.NotificationManager.NotifyForTx` | btcd/rpcwebsocket.go:1064-1077 | Both halves together; the emptiness guards change neither the relation nor what is told. |
| `Notifications.NotificationManager.HandleBlockConnected` | btcd/rpcwebsocket.go:506-523 | A connected block refines the fold over the plain (outpoint, client) relation; each client is told its notifications of the fold, and the memory pool spends of every round of visits, in order and with their multiplicity. |
| `Notifications.NotificationManager.HandleMempoolTx` | btcd/rpcwebsocket.go:539-539 | Watchers of an input are told of the unconfirmed spend and keep their watches; paid clients are told once, watch exactly what they were paid, and are told the pool spends of the visits. |
| `Notifications.NotificationManager.AddAddrRequests` | btcd/rpcwebsocket.go:1126-1145 | Adds exactly the requested address watches. |
| `Notifications.NotificationManager.HandleUnregisterClient` | btcd/rpcwebsocket.go:554-568 | Afterwards the client is in no map and no other watch is lost. |
| `Notifications.NotificationManager.Handle` | btcd/rpcwebsocket.go:497-605 | Each message does to the watch relations and to the client sets exactly what it stands for, and tells every client exactly its notifications and the memory pool spends of the walk. |
| `Notifications.NotificationManager.Run` | btcd/rpcwebsocket.go:481-605 | Over every run both indexes agree in both directions, no inner map is empty, a client just unregistered is nowhere, and each client was told the notifications and the memory pool spends of the messages in order. |
| `LiveHistory.WatchedIff` | btcd/rpcwebsocket.go:990-1041 | Read off the transactions: a client watches an outpoint when a transaction of a block is reached exactly when the last earlier one to mention it pays an address it watches at that very output, or it watched it before and none spent it. |
| `LiveHistory.ToldIff` | btcd/rpcwebsocket.go:1064-1077 | Read off the transactions: the client is told of a spend exactly when an input is watched there, and then of a payment exactly when a well-formed output has an address it watches. |
| `LiveHistory.PaidThenSpent` | btcd/rpcwebsocket.go:1025-1027 | Output i that pays a watched address is watched as (its hash, i), and the next transaction of the block to spend it is told. |
| `LiveHistory.PaymentIsWatched` | btcd/rpcwebsocket.go:1016-1032 | A payment at output 0: one recvtx, and the outpoint with index 0 is watched. |
| `LiveHistory.AddrRunIff` | btcd/rpcwebsocket.go:554-580 | Over any run of messages a client watches exactly the addresses it asked for and was not taken off since. |
| `LiveHistory.SpentRunIff` | btcd/rpcwebsocket.go:506-580 | Over any run of messages a client watches exactly the outpoints it asked for or was paid at and that no block spent and no request removed since. |
| `LiveHistory.MessageToldIff` | btcd/rpcwebsocket.go:506-540 | An accepted transaction is told to exactly the clients it pays, a block transaction by transaction, and no other message tells anything but memory pool spends. |
| `Notifications.TwoParts` | btcd/rpcwebsocket.go:885-918 | Every notification of a queue is either a memory pool spend or one of the others, and both lists hold exactly their own. |
| `Queues.QueueHandler` | btcd/rpcwebsocket.go:151-193 | What arrived is what was passed on followed by what is queued, for every order of events and wherever the handler stops, and nothing stays queued that the reader was ready to take. |
| `Queues.TakesDrain` | btcd/rpcwebsocket.go:177-186 | A queue of k values is emptied by k takes and by no fewer. |
| `Queues.NothingTaken` | btcd/rpcwebsocket.go:168-175 | Without a ready reader and without takes everything is queued. |
| `Queues.AlwaysReady` | btcd/rpcwebsocket.go:168-170 | With a reader that is always ready nothing ever is. |
| `Pipeline.RunKeepsInv` | btcd/rpcwebsocket.go:1795-1920 | The pipeline invariant holds in every reachable state of the interleaved goroutines; for a connected client the queue handler waits exactly while one notification or token is in flight. |
| `Pipeline.WrittenIsPrefixOfQueued` | btcd/rpcwebsocket.go:1795-1920 | The notifications written are always a prefix of those queued; for a connected client the rest is still under way, in order. |
| `Pipeline.DoneSendsNeverBlock` | btcd/rpcwebsocket.go:1795-1920 | In-flight notifications plus tokens never exceed one, and equal one exactly while a connected queue handler waits, so a send on the one-slot channel is always possible. |
| `Pipeline.SomethingForwards` | btcd/rpcwebsocket.go:1795-1920 | While a connected client has not been sent everything queued, one of the forwarding steps is possible. |
| `Pipeline.ForwardsShrinks` | btcd/rpcwebsocket.go:1795-1920 | Every forwarding step leaves less to do and keeps the client connected. |
| `Pipeline.EverythingIsWritten` | btcd/rpcwebsocket.go:1795-1920 | From every reachable connected state, a sequence of forwarding steps no longer than the work left leads to a state in which everything queued is written. |
| `Pipeline.ForwardingEnds` | btcd/rpcwebsocket.go:1795-1920 | No choice of forwarding steps can go on for longer than the work left, and one that cannot be continued has written everything. |
| `Auth.WsClient.HandleSingle` | btcd/rpcwebsocket.go:1326-1479 | A single request changes the session, dispatches and replies exactly as specified for its kind. |
| `Auth.WsClient.HandleEntry` | btcd/rpcwebsocket.go:1534-1721 | The same for one entry of a batch, including the early return when a reply cannot be encoded. |
| `Auth.WsClient.HandleBatch` | btcd/rpcwebsocket.go:1532-1753 | A batch is the fold of its entries; its replies go out in one message, and only if the read loop goes on. |
| `Auth.WsClient.HandleUnusable` | btcd/rpcwebsocket.go:1484-1530 | An array that does not decode, or an empty one, has the effect of an undecodable request. |
| `Auth.WsClient.InHandler` | btcd/rpcwebsocket.go:1305-1761 | Over everything a connection delivers, session, dispatched commands and messages sent are those of the fold, and every dispatched command was authenticated and admin or limited. |
| `Auth.BatchAgreesIff` | btcd/rpcwebsocket.go:1532-1723 | A batch leaves the same state and dispatches the same commands in the same order as single requests exactly when no dispatched command has a reply that cannot be encoded. |
| `Auth.GroupingIrrelevantIff` | btcd/rpcwebsocket.go:1324-1755 | However requests are grouped into messages, state and dispatched commands are the same exactly when no batch jams. |
| `Auth.JammedBatch` | btcd/rpcwebsocket.go:1710-1716 | Two commands without a version: sent singly both run, in a batch the second never does and the reader is gone. |
| `Auth.RunsIff` | btcd/rpcwebsocket.go:1397-1453 | A command of a client without credentials runs exactly when a matching login came first, after malformed requests only and with no later login attempt, and the login was the administrator's or the command is open to limited users. |
| `Auth.LoggedInIff` | btcd/rpcwebsocket.go:1397-1433 | The session of such a client, from the requests alone. |
| `Auth.RepliesDifferIff` | btcd/rpcwebsocket.go:1435-1453 | A single request and a batch entry are answered differently exactly for an undecodable entry and for a command refused to a limited user. |
| `Auth.SingleReplyIff` | btcd/rpcwebsocket.go:1326-1479 | The whole of every single reply: which requests are answered, with which body, and with the version and id of the request. |
| `Auth.BatchReplyIff` | btcd/rpcwebsocket.go:1534-1721 | The same for every entry of a batch. |
| `Auth.RepliesInOrder` | btcd/rpcwebsocket.go:1532-1753 | The replies to a batch answer different entries in the order of the batch, each with the version and id of its own entry and the body its kind calls for. |
| `Auth.LimitedUserReplies` | btcd/rpcwebsocket.go:1435-1479 | A limited user asks for something allowed and something refused, singly and in a batch. |
| `Auth.UnusableReplies` | btcd/rpcwebsocket.go:1484-1530 | What messages without an answerable request get: an error or a blank reply when logged in, otherwise the connection is closed. |
| `Auth.RunIsAuthorized` | btcd/rpcwebsocket.go:1435-1453 | Every dispatched command of every run was allowed. |
| `CFCheckpt.CheckpointCache.OnGetCFCheckpt` | btcd/server.go:1027-1153 | Reply and cache after a request are the specified functions of the cache before, for complete, failing and partly missing lookups, growing in place or moving. |
| `CFCheckpt.CheckpointCache.FindFork` | btcd/server.go:1087-1096 | Finds the last position at which cache and chain hold the same block. |
| `CFCheckpt.CheckpointCache.Store` | btcd/server.go:1119-1151 | Writing through the shared array leaves exactly the specified cache, also when a header is missing halfway. |
| `CFCheckpt.ReplyIsDirect` | btcd/server.go:1087-1135 | While the cache lists one block's ancestors, the reply equals a direct lookup at every interval. |
| `CFCheckpt.GrownIsCoherent` | btcd/server.go:1137-1151 | Growing such a cache makes it the list of the requested block. |
| `CFCheckpt.CoherenceKeptIff` | btcd/server.go:1061-1151 | A request keeps the cache the list of one block exactly unless it grows it in place over a fork and a header is missing strictly in between. |
| `CFCheckpt.CutShortIff` | btcd/server.go:1119-1145 | A cache overwritten for k entries is still the list of one block exactly when nothing was overwritten or all of it was. |
| `CFCheckpt.MixedCacheMisleads` | btcd/server.go:1087-1103 | A mixed cache serves another chain's header to a later request. |
| `CFCheckpt.MixedCacheRun` | btcd/server.go:1027-1153 | Three requests on two chains of 2000 and 3000 blocks: the second leaves a cache of no single block, the third gets a header of the other chain. |
| `CFCheckpt.OverwrittenHalfway` | btcd/server.go:1119-1145 | Overwriting a cache up to some entry above the fork and below its end makes it the list of no block. |
| `CFCheckpt.SharedBelow` | btcd/server.go:1087-1096 | Interval lists that agree at one position agree below it. |
| `CFCheckpt.IntervalHeight` | btcd/server.go:1027-1035 | Entry k of an interval list is the ancestor at height 1000 (k + 1), up to the height of the block. |
| `CFCheckpt.Serve` | btcd/server.go:1027-1153 | Over any run of answered requests on any chains, every reply is the direct lookup. |
| `GetData.Link.PushTx` | btcd/server.go:1531-1556 | The done channel gets one token on every path, the wait channel is drained exactly when something is sent, and the transaction is queued exactly when found. |
| `GetData.Link.PushBlock` | btcd/server.go:1560-1622 | The same for a block; the inventory that follows the last block of a batch carries the channel instead, and the remembered hash is cleared. |
| `GetData.Link.PushMerkleBlock` | btcd/server.go:1628-1683 | The same for a filtered block and its matched transactions, of which only the last carries the channel, given that the filter reports positions within the block; without a filter only the token is sent. |
| `GetData.Link.OnGetData` | btcd/server.go:684-762 | Every channel handed to a recognized entry is promised exactly one token, before the last entry exactly every third one gets a channel, channels of others are untouched, the done channel gets and gives the specified tokens, answers are queued in order and failures are listed in one notfound message. |
| `GetData.AnswerOf` | btcd/server.go:1601-1619 | What each entry adds to the answer: the transaction; the block, followed by an inventory of the tip when it is the block that ended the last full inventory and is sent for the first time since; the filtered block and its matches; or nothing. |
| `GetData.MissingOf` | btcd/server.go:732-745 | Which entries are reported missing. |
| `GetData.Link.Turn` | btcd/server.go:710-747 | One entry keeps the channel bookkeeping; no receive on a wait channel blocks. |
| `GetData.Link.Receive` | btcd/server.go:755-761 | A receive returns exactly when a token was promised that nobody has taken. |
| `GetData.StuckIff` | btcd/server.go:727-731 | The final receive never returns exactly when the list ends in an unrecognized type, some entry is recognized and no lookup fails. |
| `GetData.StuckOnUnknown` | btcd/server.go:707-761 | A transaction that is found and then an unrecognized entry: the handler never returns. |
| `GetData.RecognizedIsServed` | btcd/server.go:732-745 | With recognized types only, the done channel gets one token, or two when the last entry is the first to fail, the first of which is taken at once. |
| `Peers.PeerState.HandleAddPeer` | btcd/server.go:1715-1775 | A peer is admitted exactly when it is connected and wanted, the server is up, all bans of its host ever made have ended, and there is room; it enters exactly one map. |
| `Peers.PeerState.HandleDonePeer` | btcd/server.go:1822-1852 | The peer is in no map afterwards, and the counters still count. |
| `Peers.PeerState.HandleBanPeer` | btcd/server.go:1856-1866 | The ban is on record from now on although the map overwrites entries. |
| `Peers.PeerState.HandleRemoveNode` | btcd/server.go:2038-2049 | Removes one matching persistent peer if there is one, and nothing else. |
| `Peers.PeerState.HandleDisconnectNode` | btcd/server.go:2065-2119 | Disconnects one matching inbound peer, or else all matching outbound peers, after which none is left; the loop terminates. |
| `Peers.PeerState.Run` | btcd/server.go:1715-1866 | Over every orderly run: each event has exactly its effect on the three maps, counters equal the peers of their group, no peer is in two maps, the cap holds, and no admission precedes the end of an earlier ban of its host. |
| `Peers.PeerState.Handle` | btcd/server.go:1715-1866 | One event: the maps after it from those before, the bans so far and the event, written out on the maps; which peer is removed or disconnected is any that matches. |
| `Peers.RunRespectsBans` | btcd/server.go:1733-1750 | The effects alone give that no admission precedes the end of an earlier ban. |
| `Peers.BanAdded` | btcd/server.go:1856-1866 | Overwriting a ban entry forgets no ban that is still in force. |
| `Peers.BanExpired` | btcd/server.go:1733-1750 | Deleting an ended entry is safe and tells that every ban of the host has ended. |
| `Peers.CountOneMore` | btcd/server.go:1764-1775 | Counting a peer once keeps every group counter equal to the number of its outbound and persistent peers. |
| `LongPoll.WorkState.NotifyLongPollers` | btcd/rpcserver.go:1441-1483 | Exactly the waiters on other blocks, and those on the latest block with templates from an earlier second than the change of the pool, are closed, each once; open channels are exactly those in the map and no inner map is empty. |
| `LongPoll.WorkState.TemplateUpdateChan` | btcd/rpcserver.go:1527-1546 | Returns the open channel of the key, a new one exactly when there is none. |
| `LongPoll.WorkState.NotifyBlockConnected` | btcd/rpcserver.go:1488-1495 | Running a pending notification wakes the stale waiters and loses no wake-up. |
| `LongPoll.WorkState.NotifyMempoolTx` | btcd/rpcserver.go:1501-1518 | Wakes waiters only when a template exists and is old enough. |
| `LongPoll.WorkState.UpdateBlockTemplate` | btcd/rpcserver.go:1560-1675 | A new template is made exactly when the old one is outdated, and then wakes the stale waiters; though the chain may move meanwhile, the parent of the resulting template is the tip or is covered by a pending notification. |
| `LongPoll.WorkState.HandleLongPoll` | btcd/rpcserver.go:1839-1892 | A request waits exactly on the template it names, if that is the current one; a waiter is never registered on a block that nothing will wake. |
| `LongPoll.WorkState.FinishLongPoll` | btcd/rpcserver.go:1905-1923 | A woken request gets the latest template and whether work on the old one may still be submitted, exactly when that template can be had. |
| `LongPoll.WorkState.Run` | btcd/rpcserver.go:1441-1546 | The chain and the pending notifications after a run are those of its events. Whenever every tip was a new block and nothing is pending, every open waiter is on the tip; from a quiet state that is so after every run in which each block is new and is followed by its notification. |
| `LongPoll.WorkState.Handle` | btcd/rpcserver.go:1488-1546 | One event: a pending notification is no longer pending and closes every waiter on another block or on a template from before the last change of the pool; the other events have the stated effects on template, waiters and chain. |
| `LongPoll.PendingIff` | btcd/rpcserver.go:1488-1495 | In a run of new blocks from a quiet state, exactly the blocks whose notification has not come since they were accepted are pending, once each. |
| `LongPoll.NotifiedSince` | btcd/rpcserver.go:1488-1495 | A block that is followed by its notification whenever it is accepted is not pending. |
| `LongPoll.StaysOrderly` | btcd/rpcserver.go:1488-1495 | A run in which every block is new stays one in which every tip was new. |
| `LongPoll.TipIsLast` | btcd/rpcserver.go:1572-1572 | The tip is the last block that became it. |
| `LongPoll.WorkState.KeptIff` | btcd/rpcserver.go:1575-1579 | A template on the tip is kept exactly while the memory pool is unchanged or 60 seconds have not passed. |
| `LongPoll.QuietMeansOnTip` | btcd/rpcserver.go:1441-1456 | The invariant yields that statement when nothing is pending. |
| `LongPoll.WorkState.RunPending` | btcd/rpcserver.go:1488-1495 | From every reachable state, running all pending notifications leaves every open waiter on the tip exactly when each was on the tip before or is stale for one of them. |
| `LongPoll.WorkState.Reselected` | btcd/rpcserver.go:2856-2870 | From a quiet state, invalidateblock or reconsiderblock leaves nobody behind exactly when the tip stays or nobody waits. |
| `LongPoll.NotifiedKeepsFate` | btcd/rpcserver.go:1441-1483 | Running one notification neither dooms nor saves a waiter. |
| `LongPoll.UnwokenWaiter` | btcd/rpcserver.go:2856-2870 | A waiter that stays open on a block that is no longer the tip after invalidateblock. |
| `LongPoll.WorkState.Renew` | btcd/rpcserver.go:1466-1483 | A new template leaves no open waiter on an older one exactly when each waiter on the tip has a template from a second before the last change of the memory pool, or from the second of the new one. |
| `LongPoll.OlderWaiterStays` | btcd/rpcserver.go:1466-1483 | A template at 100.2 seconds, a change of the pool at 100.7 and a new template at 161: the waiter is not woken. |
| `TemplateId.RoundTripIff` | btcd/rpcserver.go:1410-1435 | Decoding an encoded id returns hash and time for every hash and every time that is not negative, and is refused for every negative one. |
| `TemplateId.HashRoundTrip` | btcd/chaincfg/chainhash/hash.go:71-76 | A printed hash parses to itself. |
| `TemplateId.HashStringAt` | btcd/chaincfg/chainhash/hash.go:71-76 | A hash is printed last byte first, two lower-case digits a byte. |
| `TemplateId.ShortHash` | btcd/chaincfg/chainhash/hash.go:193-224 | A short text names the low bytes of a hash whose other bytes are zero. |
| `TemplateId.ParseLimits` | btcd/rpcserver.go:1429-1432 | Exactly the decimals within 64 bits are read, with or without a sign. |
| `TemplateId.HexRoundTrip` | btcd/chaincfg/chainhash/hash.go:211-216 | Hexadecimal text decodes to the bytes it was printed from and holds no dash. |
| `TemplateId.PrintedRoundTrip` | btcd/rpcserver.go:1429-1432 | A printed 64-bit integer, negative or not, parses to itself. |
| `TemplateId.SplitJoins` | btcd/rpcserver.go:1419-1422 | Splitting on dashes loses nothing and leaves no dash in a field. |
| `TemplateId.DecodedTimeIsNatural` | btcd/rpcserver.go:1418-1435 | No text decodes to a negative time. |
| `Paging.FetchMempool` | btcd/rpcserver.go:3127-3143 | Returns the window and the number skipped, or panics exactly when the end of the range wraps around inside the pool. |
| `Paging.FetchIndexEntries` | btcd/blockchain/indexers/addrindex.go:265-344 | Returns the window over the entries it has read, each read at its 32-bit byte offset, and how many it skipped. |
| `Paging.ReadAtIff` | btcd/blockchain/indexers/addrindex.go:316-326 | An entry is read right exactly when its byte offset fits 32 bits. |
| `Paging.ReadWindowIff` | btcd/blockchain/indexers/addrindex.go:292-343 | The lookup returns the window exactly when the offsets it reads fit. |
| `Paging.TornEntry` | btcd/blockchain/indexers/addrindex.go:316-326 | With more than 357913942 entries, asking for one entry from there on reads bytes of two entries. |
| `Paging.LoadedSuffices` | btcd/blockchain/indexers/addrindex.go:269-297 | Without overflow, a reversed lookup that stops early returns the window over all entries. |
| `Paging.WindowConcat` | btcd/rpcserver.go:3240-3305 | A window over two lists is a window over the first, then one over the second with what is left. |
| `Paging.Search` | btcd/rpcserver.go:3202-3312 | The result is the window of pool and reversed index, or of index and pool, exactly unless the stated 32-bit sums or offsets wrap; panics are exactly characterized. |
| `Paging.EverythingInOrder` | btcd/rpcserver.go:3231-3240 | The one list: blocks oldest first and then the pool, or the pool and then blocks newest first. |
| `Paging.Defaults` | btcd/rpcserver.go:3202-3225 | 100 entries when no number is given, one when it is negative, nothing skipped by default. |
| `Paging.ReversedPageIff` | btcd/rpcserver.go:3240-3290 | A reversed page is the window exactly when the index lookup reads enough levels and its offsets fit. |
| `Paging.ForwardPageIff` | btcd/rpcserver.go:3253-3305 | A forward page is the window exactly when the offsets of the index lookup fit. |
| `Paging.ReadsTooLittle` | btcd/blockchain/indexers/addrindex.go:276-290 | A reversed search that loses an entry because a sum wraps to zero. |
| `Rating.UpdateFile` | application-layer/dht/dhtHelper.go:338-426 | Publishing adds or refreshes only the own entry, keeps an earlier vote, and its incremental counters equal recounting the provider map. |
| `Rating.CastVote` | application-layer/files/rating.go:45-114 | A vote is taken exactly from a provider that has not voted, and the counters equal recounting. |
| `Rating.PublishedFields` | application-layer/dht/dhtHelper.go:373-402 | Publishing over a copy, field by field: own status and fee are the local ones, the address stays, a vote is cast exactly when none was recorded, rating and raters move by it, nothing else changes. |
| `Rating.VotedFields` | application-layer/files/rating.go:81-98 | Voting, field by field: the own entry gets the vote, and rating, raters and one of the two tallies move by one. |
| `Rating.Dht.Run` | application-layer/dht/dhtHelper.go:338-426 | Every record written by any interleaving of updates, with stale reads, lost updates and failed writes, has counters that agree with its provider map; the copies written are exactly the specified ones. |
| `Rating.Dht.Step` | application-layer/files/rating.go:45-114 | One event writes exactly the specified copy, or none. |
| `Rating.WritesIff` | application-layer/dht/dhtHelper.go:338-426 | Which events write a copy, and which copy, from the copies before. |
| `Rating.RepublishIdempotent` | application-layer/dht/dhtHelper.go:373-402 | Publishing the same information again changes nothing. |
| `Rating.RepublishOrderIrrelevant` | application-layer/dht/dhtHelper.go:349-402 | Distinct peers republishing onto an expired record reach the same providers, rating and number of raters in any order. |
| `Rating.CountAfter` | application-layer/dht/dhtHelper.go:389-402 | Changing one entry moves exactly that provider between groups of voters. |
| `Rating.UpvotesMissVotes` | application-layer/dht/dhtHelper.go:391-402 | A vote that comes with publishing is in Rating but not in Upvote. |
| `Rating.PublishKeepsUpvotesIff` | application-layer/dht/dhtHelper.go:389-402 | From a record in which Upvote minus Downvote is the rating, publishing keeps it so exactly when it casts no vote. |
| `Rating.GapAfterVote` | application-layer/files/rating.go:81-98 | Voting does not move Rating away from Upvote minus Downvote. |
| `Rating.GapIsPublishedPoints` | application-layer/dht/dhtHelper.go:389-402 | In any run, the rating of a copy exceeds Upvote minus Downvote by exactly the votes cast by publishing on the way to that copy. |
| `Rating.UpvotesAgreeIff` | application-layer/dht/dhtHelper.go:389-402 | Which copies of a run satisfy the equation: those whose published votes cancel out. |
| `Checkpoints.Merge` | btcd/server.go:3321-3345 | The result is an ordering by height of the defaults that are not overridden and of the last additional checkpoint at each height. |
| `Checkpoints.MergeContains` | btcd/server.go:3316-3345 | A checkpoint is in the merge exactly when it is the last additional one at its height, or a default at a height without one. |
| `Checkpoints.StrictIff` | btcd/server.go:3316-3345 | The merge is strictly increasing in height exactly when no two defaults share a height that is not overridden. |
| `Checkpoints.MergeCount` | btcd/server.go:3330-3344 | How often each height occurs in a merge. |
| `Checkpoints.LastAt` | btcd/server.go:3322-3327 | The last-specified checkpoint at a height, absent exactly when there is none. |

## Left out

- HTTP, TLS, sockets, JSON encoding and decoding, logging and configuration: input and output without an invariant of their own; what decoding yields is a parameter.
- Chain, memory pool, filter index and block template internals: each call has a small stated contract; the address index lookup is modelled down to its byte offsets, but not the decoding of an entry.
- Termination of a rescan through the tip: it may wait for as long as the tip is lower than the next height, so runs are modelled over arbitrary finite histories.
- Rescan progress notifications are kept in a list of their own; their interleaving with the others is not modelled.
- `Rescan.ScanBlockChunks`: the tree of blocks only names blocks that some lookup can return; a bounded rescan excludes its end height, as the code does.
- `Filter.FiltersAgreeIff`: outputs are assumed to fit 32-bit positions with room to spare, as the block size limit guarantees.
- The memory pool is taken to stay as it is while one message is handled.
- Broadcast notifications (blockconnected, blockdisconnected, txaccepted): one message to every registered client. The relevanttxaccepted message goes to the clients that `Filter.SubscribedClients` returns; sending it is left out.
- `CFCheckpt.CheckpointCache.OnGetCFCheckpt`: one request runs at a time; the moment between releasing the read lock and taking the write lock is not modelled. One filter type.
- `GetData.Link.OnGetData`: ban score and peer shutdown are not modelled; the peer is taken to send every queued message in the end.
- `Auth.WsClient.HandleSingle`: a command runs on its own goroutine; the order in which replies of single commands are sent is not modelled. Array messages inside a batch are not requests.
- `LongPoll.WorkState.HandleLongPoll`: a client that closes while it waits is not modelled; neither is building a reply from the template, which may fail on its time stamps.
- `Paging.Search`: results are characterized for fewer than 2^32 requested entries and for sources of fewer than 2^32 entries. The up-front allocation for the requested count (btcd/rpcserver.go:3239) is assumed to succeed, and a failing database is left out; twelve bytes of two neighbouring entries count as wrong whatever they decode to. That a wrapped offset is always wrong needs the index to list each transaction of an address once.
- `Peers.PeerState.Run`: relaying, broadcasting and address manager updates are not modelled; a non-negative MaxPeers is assumed.
- `Checkpoints.Merge`: one sort is given; the lemmas hold for every ordering by height, stable or not.
- Record signing and validation in the distributed hash table, and 64-bit limits of the rating counters, which the number of providers bounds.
- Bloom filters, ban score decay, fee estimation, client-count limits, wallet startup, file transfer and proxy handlers.
