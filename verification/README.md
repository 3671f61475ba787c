# A verified model of the Ethereum peer-to-peer layer

This project models the stateful core of an Ethereum consensus networking crate and proves what that core is for.
It covers peer pruning, the peer database, the request/response handler, the response codec, the rate limiters,
the discovery queue and the time cache.

| file | component |
|---|---|
| `Common.dfy` | options, peers, protocols, lists of distinct elements |
| `Pruning.dfy`, `PruningLaws.dfy` | choosing which connected peers to give up, and what that means in scores, duties and counts |
| `PeerDb.dfy`, `PeerDbEviction.dfy`, `PeerDatabase.dfy`, `PeerDbLaws.dfy` | connection states, ban counters, eviction, the database object and whole runs of it, what becomes of one peer |
| `HandlerModel.dfy`, `HandlerParts.dfy`, `HandlerPoll.dfy`, `RpcHandler.dfy`, `HandlerLaws.dfy`, `HandlerRuns.dfy` | substreams of one connection, the invariants of the handler's parts, what one poll does, the handler object, what is told of what is read, two runs |
| `Varint.dfy`, `Forks.dfy`, `Codec.dfy`, `CodecRoundTrip.dfy`, `CodecLaws.dfy` | length prefixes, fork digests, encoder and resumable decoder, the round trip, what is accepted and refused of any bytes |
| `RateLimiter.dfy` | the per-key GCRA limiter (generic cell rate algorithm) and its runs |
| `LimiterQueues.dfy`, `LimiterGate.dfy`, `SelfLimiter.dfy`, `ResponseLimiter.dfy` | delayed items and timers, limiters by protocol, own requests, responses |
| `Discovery.dfy` | the queue of subnet queries |
| `TimeCache.dfy` | the time-limited cache |

## How it is modelled

* Objects that the source updates in place are classes with the same fields. Ghost fields hold histories: what was
  submitted, sent, returned or accepted. `Valid()` ties them to the real fields, so an invariant of the class is a
  statement about every run.
* Clocks, timers, sockets, futures, scores, chain parameters and the outcome of discovery queries are parameters. One
  poll of the handler takes one `Env` with every answer its environment gives during that poll.
* Iteration over hash maps and sets is in arbitrary order, so what is proved holds for every order.
* Snappy, SSZ and fork digests are function parameters. `Codec.Lawful` states what is relied on, with the sizes of
  sections 4.1 to 4.3 of the Snappy framing format; `CodecRoundTrip.PlainIsLawful` shows that the laws can be met.
* Integer widths are written out where they matter: the limiter saturates and truncates at 64 bits, the varint decoder
  drops bits above 64 and refuses more than ten bytes.

### The handler's invariant

`RpcHandler.RPCHandler.Valid()` holds after construction and after every call, in any order:

* the outbound timers are exactly the open outbound substreams; the inbound timers are exactly the inbound substreams
  whose delay key is set;
* no substream is poisoned, although each is while it is polled; at most 32 inbound substreams are open;
* `dialNegotiated` equals the unresolved dials and is at most 8; every accepted request is queued, dialled or settled;
* each inbound history is within its budget and in order; each outbound history is in order and within its limit, and is
  what was returned and queued as events;
* Close was returned once if the handler is deactivated and never before.

## Where the code does less than it says

* Pruning documents that peers needed for a validator duty are always kept. Stage three ignores duties. Call a peer
  exposed if it custodies a subnet and nothing protects it. `Pruning.Pick` says on exact counts who may go next: an
  exposed peer of a subnet that no other subnet with an exposed peer outnumbers, first in the sort order there.
  `Pruning.DutyMayBeLostIff`: some outcome loses a duty if and only if a peer with a duty comes next in some run that has
  only given up others. `Pruning.DutyMustBeLostIff`: every outcome does if and only if every run without one falls short
  of the excess with somebody still exposed. `Pruning.EarlyIsExact`, `Pruning.CandidateIsPick` and `Pruning.PickIsCandidate`
  tie these outcomes and runs to the code in both directions. `Pruning.DutyIsLostIff`, `Pruning.DutyIsLostIffAtOnce` and
  `Pruning.DutyIsKept` are simpler conditions for special cases. `Pruning.DutyIsNotAlwaysKept` shows a loss.
* Moving a banned peer to Disconnecting does not release its ban counters, and eviction counts down even when only
  trusted peers are left. `PeerDatabase.CountersAreExact` shows that these two are the only ways to lose exactness.
* The decoder does nothing with a single byte, even after the response code. `CodecRoundTrip.RoundTripIff` gives the
  exact case in which the last response is then never decoded: it has context bytes and an empty body. No protocol in
  `src/rpc/protocol.rs` has such a response today; `CodecRoundTrip.EmptyBodyIsNotDecoded` shows what one would meet.
  `CodecLaws.OutOfBoundsIsRefused` gives the same exception for a length that is refused.
* `RateLimiter.AgreesIffClearOfTheEnd`: if one token fits the bucket, the limiter agrees with GCRA over unbounded
  integers on all runs up to an instant if and only if that instant plus a full bucket is below 2^64 - 1.
* The limit of four concurrent subnet queries becomes five once a `FindPeers` query was asked for while the local record
  was not valid: the flag is set, and with no such query active it is never cleared. `Discovery.Execute` proves both
  limits and the flag for every state of every run, `Discovery.FourWithAValidRecord` the four, and
  `Discovery.FiveSubnetQueries` reaches five.
* A substream opened after deactivation is reported as failed and stored all the same, so it can report three errors.
  `HandlerPoll.ThirdErrorIff`: a poll hands out the third if and only if its timer runs out while it closes.
  `HandlerRuns.ThreeErrors` is such a run.
* An error response on a protocol with a terminator is followed by an end of stream if the substream closes before its
  timer runs out. `HandlerRuns.ErrorThenEnd` is such a run; `HandlerPoll.DriveOutbound` says when an end follows an error.
* A request delayed because two are active waits 100 ms, whatever the limiter would say. `SelfLimiter.AtTheDeadline`: with
  fewer than two active at its deadline the head need not wait, unless two were active when the timer was set and the
  limiter would then have asked for longer. `SelfLimiter.BusyHeadWaitsAgain` shows a head that waits again.

## Model

| member | source | states |
|---|---|---|
| `Pruning.ProtectionIsMonotone` | src/peer_manager/mod.rs:1120-1189 | protection by outbound quota, sync committee, scarce attestation subnet or sampling subnet, once it applies to a peer, still applies after an unprotected peer is removed |
| `Pruning.CoverageKept` | src/peer_manager/mod.rs:1168-1186 | removing a peer on no scarcest attestation subnet keeps the set of attestation subnets that have a peer |
| `Pruning.LeastDenseKept` | src/peer_manager/mod.rs:1168-1186 | such a removal keeps every scarcest attestation subnet scarcest, with the same number of peers |
| `Pruning.CodeProtectionIsExact` | src/peer_manager/mod.rs:1120-1189 | the test on the reverse index, whose lists may have been cleared, protects exactly the peers that a count over all considered peers protects |
| `Pruning.IndexedAfterPrune` | src/peer_manager/mod.rs:1378-1385 | after a candidate is removed, every list of the reverse index is still exact, or was cleared when all its peers were protected |
| `Pruning.IndexedAfterClear` | src/peer_manager/mod.rs:1386-1389 | clearing a list without a candidate keeps that invariant |
| `Pruning.KeptAfterPrune` | src/peer_manager/mod.rs:1363-1385 | giving up an unprotected peer keeps attestation coverage, the least attestation count and the floor of two on sync committees and sampling subnets |
| `Pruning.BuildCustodySubnetLookup` | src/peer_manager/mod.rs:1094-1109 | the reverse index lists, for each custody subnet, each considered peer on it once |
| `Pruning.WorstConnectedPeers` | src/peer_manager/mod.rs:1300-1309 | every connected peer once, from the worst score up |
| `Pruning.PrunePass` | src/peer_manager/mod.rs:1297-1340 | the selection after a walk from the worst score up: only eligible peers within the excess and the outbound quota; an eligible peer with a strictly worse score than a selected one is left only because of the quota, and then the selected one is not outbound; short of the excess every eligible peer that is left is left because of the quota |
| `Pruning.PassIsExact` | src/peer_manager/mod.rs:1297-1333 | exactly the selections with these properties are those of the walk over some order from the worst score up |
| `Pruning.EarlyStages` | src/peer_manager/mod.rs:1297-1340 | stage one makes such a selection of negative scores; stage two runs only if it falls short of the excess, and adds such a selection of peers without a long-lived subnet |
| `Pruning.EarlyIsExact` | src/peer_manager/mod.rs:1335-1341 | exactly the outcomes so described are those of the two walks over some orders |
| `Pruning.FindPruneCandidate` | src/peer_manager/mod.rs:1194-1242 | an unprotected peer of the subnet with the fewest custody subnets, not synced before synced; none exactly if all are protected |
| `Pruning.DensestSubnet` | src/peer_manager/mod.rs:1351-1358 | a subnet with the most listed peers, or none if all lists are empty |
| `Pruning.CandidateIsPick` | src/peer_manager/mod.rs:1351-1375 | a candidate found in a longest list is, on exact counts, one that may go next: exposed, on a subnet that no subnet with an exposed peer outnumbers, and first in the sort order of its exposed peers, although lists may have been cleared |
| `Pruning.PickIsCandidate` | src/peer_manager/mod.rs:1351-1389 | conversely, whoever may go next can be the candidate, once the lists without a candidate that come first are cleared |
| `Pruning.PruneCandidate` | src/peer_manager/mod.rs:1363-1385 | the next peer to go moves to the selection; the index, the floors, the coverage and the outbound quota stay right |
| `Pruning.StageThree` | src/peer_manager/mod.rs:1345-1395 | terminates; each peer in turn is one that may go next on exact counts; only peers unprotected when the stage began go, coverage and floors are kept, and if it ends short of the excess then every survivor with a custody subnet is protected on the exact final counts |
| `Pruning.PruneExcessPeers` | src/peer_manager/mod.rs:1282-1401 | never a trusted peer, at most the excess, at least the outbound target or all outbound peers remain; each stage runs only if those before fell short, with the selection of each pass worst first and exhaustive up to the quota, and stage three as above, in its greedy order |
| `PruningLaws.WorstGoFirst` | src/peer_manager/mod.rs:1297-1340 | over a whole prune, on raw scores: if an untrusted peer without a duty and with a negative score survives, everybody given up has a score no better, unless the survivor is outbound and stage one left no more outbound peers than the target |
| `PruningLaws.IdleGoNext` | src/peer_manager/mod.rs:1335-1341 | if an untrusted peer without a duty or a long-lived subnet that is not outbound survives, everybody given up was penalised, or was also such a peer with a score no better |
| `PruningLaws.FewestSubnetsGoFirst` | src/peer_manager/mod.rs:1194-1242 | of the exposed peers of its subnet the next to go custodies the fewest subnets, and is not synced if one with as few is not |
| `PruningLaws.ProtectedIsNeeded` | src/peer_manager/mod.rs:1120-1189 | a remaining peer is protected if and only if it is outbound and no more than the outbound target are left, or is one of the last two of a sync committee or sampling subnet, or is on a scarcest attestation subnet |
| `PruningLaws.ShortPruneIsJustified` | src/peer_manager/mod.rs:1282-1401 | after a prune that falls short of the excess every untrusted survivor custodies no subnet or is needed in that sense, and only outbound survivors are penalised or idle |
| `PruningLaws.FloorsAreKept` | src/peer_manager/mod.rs:1120-1189 | stage three keeps at least two peers, or all there were, on every sync committee and sampling subnet, and one on every attestation subnet that had one |
| `Pruning.GreedyMakesSpec` | src/peer_manager/mod.rs:1345-1395 | conversely, every run of such next peers that reaches the excess or leaves nobody exposed has all these guarantees |
| `Pruning.DutyIsNotAlwaysKept` | src/peer_manager/mod.rs:1250-1251 | the documented rule fails: two peers for which every outcome gives up a peer with a duty |
| `Pruning.GiveUpDuty` | src/peer_manager/mod.rs:1282-1401 | so the code itself gives one of them up |
| `Pruning.StageThreeActsIffExposed` | src/peer_manager/mod.rs:1345-1395 | if the first two stages fall short of the excess, the third gives somebody up if and only if some considered peer with a custody subnet is unprotected when it begins |
| `Pruning.GivenUpWasExposed` | src/peer_manager/mod.rs:1297-1395 | whoever is given up has no duty, or was exposed in this sense |
| `Pruning.DutyMayBeLostIff` | src/peer_manager/mod.rs:1250-1251 | the exact condition of the documented rule: some outcome gives up a peer with a duty if and only if such a peer comes next in some run that has only given up others; the outcomes and runs are those that equal scores, hash order and the shuffle allow |
| `Pruning.DutyMustBeLostIff` | src/peer_manager/mod.rs:1250-1251 | every outcome gives up a peer with a duty if and only if every run without one falls short of the excess with somebody still exposed |
| `Pruning.DutyIsLostIff` | src/peer_manager/mod.rs:1250-1251 | if the exposed peers all have a duty or none has: a duty is lost if and only if stage three runs and a peer with a duty is exposed |
| `Pruning.DutyIsLostIffAtOnce` | src/peer_manager/mod.rs:1250-1251 | the same as a condition on the peers before the call, when the first two stages have nobody to select |
| `Pruning.DutyIsKept` | src/peer_manager/mod.rs:1120-1166 | a peer with a duty that before the call is trusted, custodies nothing, or is protected by the outbound quota, a sync committee or a sampling subnet, is always kept |
| `PeerDb.BannedIpsUpdated` | src/peer_manager/peerdb.rs:1402-1426 | how a change of one peer changes the recount of addresses of banned peers |
| `PeerDb.AddedCount` | src/peer_manager/peerdb.rs:1421-1426 | banning adds the occurrences of an address among the seen addresses |
| `PeerDb.ReleasedCount` | src/peer_manager/peerdb.rs:1412-1419 | releasing takes them away, as far as they are counted |
| `PeerDb.ExactUnlessBannedDisconnects` | src/peer_manager/peerdb.rs:866-1149 | a state change keeps all counters equal to a recount if and only if it does not move a banned peer to Disconnecting |
| `PeerDb.NothingSaturates` | src/peer_manager/peerdb.rs:1412-1419 | with exact counters no decrement is cut off at zero |
| `PeerDb.IpBansAreRecounts` | src/peer_manager/peerdb.rs:1442-1447 | with exact counters an address is banned exactly when a recount puts it over the threshold |
| `PeerDbEviction.BannedLoop` | src/peer_manager/peerdb.rs:1174-1211 | evicting banned peers drops exactly the excess, oldest ban first, and keeps the counters exact |
| `PeerDbEviction.ReportsByRecount` | src/peer_manager/peerdb.rs:1180-1203 | each dropped peer is reported with exactly its addresses not over the threshold right after its own release |
| `PeerDbEviction.DisconnectedLoop` | src/peer_manager/peerdb.rs:1214-1236 | drops only untrusted disconnected peers, oldest first |
| `PeerDbEviction.DisconnectedLoopCounts` | src/peer_manager/peerdb.rs:1214-1236 | how many are dropped, and that banned peers and their counters are untouched |
| `PeerDbEviction.ExactUnlessTooManyTrusted` | src/peer_manager/peerdb.rs:1214-1236 | the loop leaves the counters exact if and only if the trusted disconnected peers fit the limit |
| `PeerDatabase.StepExact` | src/peer_manager/peerdb.rs:866-1239 | from exact counters any operation keeps them exact if and only if it is safe |
| `PeerDatabase.CountersAreExact` | src/peer_manager/peerdb.rs:866-1239 | over a whole run of requests, disconnects, dial clean-ups, reports, score updates and trust changes, all counters equal the recount in every state if and only if every operation was safe |
| `PeerDatabase.BanStaysCounted` | src/peer_manager/peerdb.rs:1035-1040 | the first unsafe case: a banned peer moved to Disconnecting stays counted |
| `PeerDatabase.TrustedAreNotDropped` | src/peer_manager/peerdb.rs:1214-1236 | the second: a run that dials one trusted peer too many, lets all dials time out and disconnects once more; nobody is dropped, and the counter falls below the true number |
| `PeerDatabase.EvictsExactlyTheExcess` | src/peer_manager/peerdb.rs:1153-1239 | with exact counters a disconnect leaves at most the maximum of banned and of disconnected peers, evicts exactly the excess, oldest first, nobody else, and reports as above |
| `PeerDatabase.ReportedExact` | src/peer_manager/peerdb.rs:639-703 | a reported peer, whatever its score turns into, keeps the counters exact |
| `PeerDatabase.ReportedBanIsRecount` | src/peer_manager/peerdb.rs:639-703 | a ban that a report results in names exactly the addresses of the peer that a recount puts over the threshold afterwards |
| `PeerDatabase.UnbansByRecount` | src/peer_manager/peerdb.rs:492-540 | each peer unbanned by a score update is reported with exactly its addresses that a recount right after its own unban does not put over the threshold |
| `PeerDatabase.PeerDB.RemoveBannedPeer` | src/peer_manager/peerdb.rs:1412-1419 | releases each address in turn |
| `PeerDatabase.PeerDB.AddBannedPeer` | src/peer_manager/peerdb.rs:1421-1426 | counts each address in turn |
| `PeerDatabase.PeerDB.ToConnectedState` | src/peer_manager/peerdb.rs:905-946 | the counters and the peer after a connection |
| `PeerDatabase.PeerDB.ToDialingState` | src/peer_manager/peerdb.rs:948-982 | the counters and the peer after dialling |
| `PeerDatabase.PeerDB.ToDisconnectedState` | src/peer_manager/peerdb.rs:984-1028 | the counters, the peer and the ban operation after a disconnect |
| `PeerDatabase.PeerDB.ToDisconnectingState` | src/peer_manager/peerdb.rs:1030-1054 | the counters and the peer while disconnecting; a banned peer is not released |
| `PeerDatabase.PeerDB.ToBannedState` | src/peer_manager/peerdb.rs:1056-1116 | the counters, the peer and the ban operation after a ban; `PeerDbLaws` states on the statuses what that comes to |
| `PeerDatabase.PeerDB.ToUnbannedState` | src/peer_manager/peerdb.rs:1118-1146 | the counters and the peer after an unban |
| `PeerDatabase.PeerDB.UpdateConnectionState` | src/peer_manager/peerdb.rs:866-1149 | the whole transition and its ban operation, exact if and only if safe; `PeerDbLaws` states on the statuses what each request does |
| `PeerDbLaws.OthersAreUntouched` | src/peer_manager/peerdb.rs:866-1149 | a request to one peer leaves every other peer as it was |
| `PeerDbLaws.BanIsCarriedOut` | src/peer_manager/peerdb.rs:989-1116 | a ban and then a disconnect leave the peer banned, whatever it was before; it is ready to be banned at exactly one of the two; the ban asks to disconnect exactly connected and dialled peers; the banned counter stays exactly if it was banned before |
| `PeerDbLaws.DisconnectBansOnlyMarked` | src/peer_manager/peerdb.rs:989-1034 | a disconnect leaves banned exactly the peers that were banned or marked, and all others disconnected, with the earlier time if they were so; a temporary ban is asked for exactly of those being disconnected without a mark |
| `PeerDbLaws.UnbanLiftsTheBan` | src/peer_manager/peerdb.rs:1117-1149 | an unban turns a banned peer into a disconnected one with the same time, and no other status changes |
| `PeerDbLaws.DialsWhoIsApart` | src/peer_manager/peerdb.rs:953-988 | a dial moves exactly the peers that are not connected, dialled or being disconnected |
| `PeerDbLaws.DisconnectingIsAsAsked` | src/peer_manager/peerdb.rs:1035-1055 | an active disconnect is marked for a ban exactly as it was asked, and asks for no ban operation |
| `PeerDbLaws.ConnectionIsCounted` | src/peer_manager/peerdb.rs:909-952 | one connection more, in its own direction; the addresses seen are those before and its own |
| `PeerDbLaws.ConnectionsAreCounted` | src/peer_manager/peerdb.rs:909-952 | over any run of connections a peer has those it had and one for each, by direction |
| `PeerDbLaws.EveryBanWasAskedFor` | src/peer_manager/peerdb.rs:866-1149 | over any run of requests, whoever is banned or marked in the end was so at first or a request asked for it |
| `PeerDbLaws.BanLasts` | src/peer_manager/peerdb.rs:866-1149 | over any run of bans and disconnects of the peer a ban lasts, with its time |
| `PeerDbLaws.NamedAddresses` | src/peer_manager/peerdb.rs:409-415 | the addresses named by a ban are exactly those of the peer with more than five banned peers, those named by an unban exactly the others, and together they are all |
| `PeerDbLaws.ReportBansIff` | src/peer_manager/peerdb.rs:639-703 | a report bans if and only if the score of an untrusted peer becomes banned, and then the peer is banned or marked; a trusted peer keeps its score |
| `PeerDbLaws.ReportDisconnectsIff` | src/peer_manager/peerdb.rs:639-703 | a report disconnects if and only if the score of an untrusted connected or dialled peer becomes that of a forced disconnect; without an outcome the status stays |
| `PeerDbLaws.ReportedIsBannedInTheEnd` | src/peer_manager/peerdb.rs:639-703 | a peer reported into the ban is banned after its disconnect |
| `PeerDbLaws.DecayUnbansIff` | src/peer_manager/peerdb.rs:492-540 | a decay unbans exactly the untrusted peers whose score leaves the ban, unless they are to be disconnected |
| `PeerDbLaws.DecayLiftsBans` | src/peer_manager/peerdb.rs:492-540 | after a decay each of them that was banned is disconnected with the same time, and every other status stays |
| `PeerDbLaws.OldDialsAreGivenUp` | src/peer_manager/peerdb.rs:455-474 | exactly the dials older than fifteen seconds become disconnected, and every other status stays |
| `PeerDbLaws.OldestAreEvicted` | src/peer_manager/peerdb.rs:1153-1239 | who is evicted as banned was banned no later than any banned peer that stays; the same of the disconnected, of whom no trusted one goes |
| `PeerDatabase.PeerDB.ShrinkBanned` | src/peer_manager/peerdb.rs:1174-1211 | one run of the banned loop and its reports |
| `PeerDatabase.PeerDB.ShrinkDisconnected` | src/peer_manager/peerdb.rs:1214-1239 | one run of the disconnected loop |
| `PeerDatabase.PeerDB.InjectDisconnect` | src/peer_manager/peerdb.rs:1153-1163 | a disconnect and its eviction; the limits hold afterwards, and with exact counters the exact eviction |
| `PeerDatabase.PeerDB.CleanupDialingPeers` | src/peer_manager/peerdb.rs:455-474 | exactly the peers whose dial timed out are disconnected |
| `PeerDatabase.PeerDB.ReportPeer` | src/peer_manager/peerdb.rs:639-703 | the new score, the transition it causes, and the result: the ban operation with its addresses, a disconnect, or nothing |
| `PeerDatabase.PeerDB.UpdateScores` | src/peer_manager/peerdb.rs:492-540 | the decayed scores, the unban of exactly the peers that left the banned state, and the report of each |
| `HandlerParts.DeliveredWithinLimit` | src/rpc/handler.rs:655-827 | over any schedule an outbound substream has delivered at most the responses asked for (one when exactly one is expected), responses before errors, at most one end of stream and nothing after it, and at most two errors and ends, three after deactivation |
| `HandlerModel.LateErrors` | src/rpc/handler.rs:1000-1062 | a substream opened after deactivation has reported exactly one error while it waits and exactly two while it closes |
| `HandlerParts.SentWithinBudget` | src/rpc/handler.rs:461-649 | over any schedule an inbound substream has written a prefix of what was queued, within the budget, and nothing after an error or a termination |
| `HandlerParts.TimersNameSubstreams` | src/rpc/handler.rs:655-827 | the outbound timers name exactly the open outbound substreams, each once |
| `HandlerPoll.DriveInbound` | src/rpc/handler.rs:461-649 | drives one substream until its socket is not ready or nothing is left, one poll of the socket for each message taken; it is given up only after a failure, an error, a termination or the last chunk, or closed after deactivation, with exactly the errors of that; its state is poisoned meanwhile and put back, and only existing timers are rearmed |
| `HandlerPoll.DriveOutbound` | src/rpc/handler.rs:655-827 | one poll of an outbound substream, poisoned meanwhile: exactly what is reported and left, that it closes exactly when the last expected response arrives, that its event may follow those before, and that an end follows an error exactly if the substream was closing, closed and has a terminator |
| `HandlerPoll.ReadOutbound` | src/rpc/handler.rs:683-786 | the same for one read of a substream that waits for responses, case by case |
| `RpcHandler.RPCHandler.constructor` | src/rpc/handler.rs:226-251 | a new handler satisfies the invariant |
| `RpcHandler.RPCHandler.Shutdown` | src/rpc/handler.rs:255-284 | only from Active: queued requests fail newest first, at most the goodbye is queued |
| `RpcHandler.RPCHandler.SendRequest` | src/rpc/handler.rs:287-300 | queued when active, failed otherwise; every accepted request stays accounted for |
| `RpcHandler.RPCHandler.SendResponse` | src/rpc/handler.rs:305-338 | appended to an open substream unless deactivated, an error response reported |
| `RpcHandler.RPCHandler.OnFullyNegotiatedInbound` | src/rpc/handler.rs:906-998 | stored with its budget and reported, or refused with a shutdown; at most 32 entries, fresh ids |
| `RpcHandler.RPCHandler.OnFullyNegotiatedOutbound` | src/rpc/handler.rs:1000-1062 | the dial is settled, the retry counter reset and the substream stored with its limit; when deactivated, exactly its failure is queued first, and nothing otherwise |
| `RpcHandler.RPCHandler.OnDialUpgradeError` | src/rpc/handler.rs:1063-1103 | an I/O error is retried if the counter allows it, which then counts it; anything else is reported and resets the counter; no request is lost |
| `RpcHandler.AtMostTwoRetriesInARow` | src/rpc/handler.rs:1072-1094 | of any three errors in a row at least one is not retried |
| `RpcHandler.RPCHandler.ExpireInbound` | src/rpc/handler.rs:414-435 | a timed-out response is reported and loses its timer; a server error is appended exactly if something is pending that does not end the response |
| `RpcHandler.RPCHandler.PurgeInbound` | src/rpc/handler.rs:414-435 | exactly the expired timers go, each is reported by one event, and exactly their substreams are timed out in this way |
| `RpcHandler.RPCHandler.PurgeOutbound` | src/rpc/handler.rs:437-456 | if an outbound timer ran out, one of these substreams is dropped and exactly its timeout returned; otherwise nothing changes |
| `RpcHandler.RPCHandler.PollInbound` | src/rpc/handler.rs:461-653 | every inbound substream was driven, with what is left of it, what it took and exactly its errors queued |
| `RpcHandler.RPCHandler.PollOutbound` | src/rpc/handler.rs:655-827 | each polled substream leaves exactly what one poll leaves; all were polled in silence, or the last one polled has exactly the event that is returned; failures after deactivation are queued, one each |
| `RpcHandler.RPCHandler.Poll` | src/rpc/handler.rs:374-869 | the whole poll as a relation between the states before and after: queued events first, then the shutdown timeout, timers, substreams and dials; keeps the invariant; Close returned exactly on deactivation; the state only moves forward; Pending only when nothing can be sent, read or dialled and a shutdown still waits for something open |
| `HandlerPoll.EveryEventIsSourced` | src/rpc/handler.rs:374-869 | every event that a poll hands out was queued, closes the handler, is the timeout of a timer that ran out, or is exactly what one substream reports now |
| `HandlerLaws.ResponseIffChunk` | src/rpc/handler.rs:683-737 | a poll hands out a response if and only if a chunk was read: from that substream, with that payload, for the request that opened it |
| `HandlerLaws.ErrorIffErrorChunk` | src/rpc/handler.rs:687-737 | with nothing queued, an error code is handed out if and only if that error response was read, for the request of its substream |
| `HandlerLaws.IncompleteIffSingle` | src/rpc/handler.rs:738-767 | with nothing queued, a stream that ends early is an incomplete stream if and only if its protocol has a single response |
| `HandlerLaws.EndOfStreamFor` | src/rpc/handler.rs:738-817 | with nothing queued, an end of stream was read where several responses may come, or ends a closing substream whose protocol has a terminator |
| `HandlerLaws.WhatIsReadIsTold` | src/rpc/handler.rs:655-786 | whatever is read from a substream is told at once, in the form of its kind |
| `HandlerLaws.DeliveredIsRead` | src/rpc/handler.rs:683-737 | over every run of polls, with any calls between them, the responses handed out for a substream are the chunks read from it, in order, each for the request that opened it |
| `HandlerLaws.RequestStays` | src/rpc/handler.rs:655-827 | a substream keeps its request and protocol while it is open |
| `HandlerLaws.TimeoutsComeFirst` | src/rpc/handler.rs:438-452 | if the timer of an outbound substream ran out, the poll hands out such a timeout for the request of the substream, before anything is read |
| `HandlerLaws.EachFailsOnce` | src/rpc/handler.rs:255-275 | every queued request that a shutdown drops is reported as disconnected once, the newest first |
| `HandlerLaws.TimedOutIsEnded` | src/rpc/handler.rs:416-436 | when the timer of an inbound substream runs out nothing queued is lost, and the last message queued closes it: a server error if nothing else does |
| `HandlerPoll.OutboundLeavesForAReason` | src/rpc/handler.rs:437-827 | an outbound substream leaves only by its timeout or when one poll leaves nothing of it, and then the poll hands out what there was to report |
| `HandlerPoll.InboundLeavesForAReason` | src/rpc/handler.rs:461-653 | an inbound substream leaves only after its closing or last message, with an error queued, or after deactivation |
| `HandlerPoll.ThirdErrorIff` | src/rpc/handler.rs:437-827 | a poll hands out the third error of a substream opened after deactivation if and only if the substream is closing, nothing is queued, and the event is the timeout of its timer, which ran out |
| `HandlerRuns.ThreeErrors` | src/rpc/handler.rs:1000-1062 | a run of a request, a shutdown, an opened substream and polls, in which one substream reports an error as it opens, another when it is polled, and a third when its timer runs out |
| `HandlerRuns.ErrorThenEnd` | src/rpc/handler.rs:787-816 | a run of a request, an opened substream and polls, in which an error response is followed by an end of stream |
| `Varint.RoundTrip` | src/rpc/codec.rs:544-562 | every 64-bit length is read back whatever follows, using exactly its bytes |
| `Varint.PartIsInsufficient` | src/rpc/codec.rs:553-560 | a part of a length asks for more bytes and is never an error |
| `Forks.BuildIsExact` | src/types/fork_context.rs:57-66 | the fork map is sorted, its entries have the phase and the digest of their epoch, and every given epoch has one |
| `Forks.ContextBytesAreThePhases` | src/types/fork_context.rs:166-173 | the fork found for an epoch has the phase of the epoch |
| `Forks.PhaseIsRecovered` | src/types/fork_context.rs:158-173 | the phase looked up from the context bytes of an epoch is the phase of that epoch |
| `Forks.RecoveredIffApart` | src/types/fork_context.rs:158-173 | every phase is recovered if and only if no two phases share a digest |
| `Codec.KindFromByte` | src/rpc/methods.rs:944-972 | inverts the error codes, and maps any other code to the unknown error |
| `Codec.OutboundCodec.ReadLength` | src/rpc/codec.rs:544-562 | the length once, remembered across calls |
| `Codec.OutboundCodec.ReadBody` | src/rpc/codec.rs:336-368 | length, bounds, frame within the maximal compressed size, and the error mapping |
| `Codec.OutboundCodec.ReadSuccess` | src/rpc/codec.rs:283-334 | context bytes once, then the body decoded in their phase |
| `Codec.OutboundCodec.DecodeNext` | src/rpc/codec.rs:450-490 | one call of the decoder is one step of the specification that the round trip is about |
| `CodecLaws.DecodedIsLegitimate` | src/rpc/codec.rs:283-368 | in any state, for any bytes: a decoded error has at most 256 bytes, and a decoded success was read from a body within the bounds of its protocol and the packet size |
| `CodecLaws.ReceivedAreLegitimate` | src/rpc/codec.rs:450-490 | the same of every response decoded from any stream in any chunks |
| `CodecLaws.OutOfBoundsIff` | src/rpc/codec.rs:302-310 | a call fails as out of bounds if and only if the length it has read is not allowed for its response code |
| `CodecLaws.OutOfBoundsIsRefused` | src/rpc/codec.rs:283-348 | a code, its context and any 64-bit length that is not allowed is refused as out of bounds, whatever follows and however it is cut; the only exception is a one-byte length after a context that comes alone at the very end |
| `CodecLaws.MaliciousIff` | src/rpc/codec.rs:496-520 | a frame of an allowed length that is not decoded is malicious if and only if its early end is at or after the maximal compressed length 32 + n + n/6; before that more bytes are awaited; anything else is a frame error |
| `CodecLaws.CoherentStays` | src/rpc/codec.rs:450-490 | the length is known only after the code and the context, in every state the decoder reaches |
| `CodecRoundTrip.FrameFits` | src/rpc/codec.rs:312-316 | no honest frame is longer than the bound of the decoder: 10 + n + 8 for each 65536 bytes is at most 32 + n + n/6 |
| `CodecRoundTrip.ReadPart` | src/rpc/codec.rs:316-335 | a frame that has arrived is read exactly; a part of one is an early end below the bound, so never called malicious |
| `CodecRoundTrip.ContextIsPhase` | src/rpc/codec.rs:521-537 | the context bytes of a response are four and lead to the phase of its epoch |
| `CodecRoundTrip.DrainAt` | src/rpc/codec.rs:450-490 | decoding what has arrived gives the next responses in order, never fails, and leaves a state from which the rest can be decoded |
| `CodecRoundTrip.RoundTripIff` | src/rpc/codec.rs:450-490 | for any chunking of the encodings of any list of valid responses, exactly that list is decoded, with nothing left over and the state reset, if and only if it is not the case that the last one has context bytes and an empty body and its last byte comes alone |
| `CodecRoundTrip.RoundTrip` | src/rpc/codec.rs:81-152 | so for every protocol whose bodies are never empty the decoder inverts the encoder for any chunking |
| `CodecRoundTrip.EncodedIsDecoded` | src/rpc/codec.rs:81-177 | a response within the limits is encoded, and what the encoder wrote for it is decoded to it for any chunking, outside of that one case |
| `CodecRoundTrip.EncodingIsInjective` | src/rpc/codec.rs:81-177 | no two lists of valid responses have the same encoding |
| `CodecRoundTrip.EmptyBodyIsNotDecoded` | src/rpc/codec.rs:450-490 | an instance with context bytes and an empty body whose response is not decoded when its last byte comes alone |
| `CodecRoundTrip.ReceivePart` | src/rpc/codec.rs:496-517 | a stream cut anywhere gives the first responses and no error |
| `CodecRoundTrip.PlainIsLawful` | src/rpc/codec.rs:143-150 | the laws assumed of the compression can be met |
| `RateLimiter.FromQuota` | src/rpc/rate_limiter.rs:450-468 | the time of one token times the tokens fits the replenishing time, and one more nanosecond a token does not |
| `RateLimiter.Limiter.Allows` | src/rpc/rate_limiter.rs:470-505 | the decision and the new map, in saturating 64-bit arithmetic |
| `RateLimiter.Limiter.Prune` | src/rpc/rate_limiter.rs:508-512 | drops exactly the keys whose bucket is full |
| `RateLimiter.LimiterIsGcra` | src/rpc/rate_limiter.rs:476-512 | over every run the answers are those of GCRA over unbounded integers, while the clock plus a full bucket stays below 2^64 - 1 |
| `RateLimiter.WaitsAreGcra` | src/rpc/rate_limiter.rs:476-512 | with two full buckets to the end of the clock the answers are equal, waits included |
| `RateLimiter.TwoBatchesDiffer` | src/rpc/rate_limiter.rs:476-505 | at any instant beyond that, a second full batch right after a first one is accepted by the code and refused by GCRA |
| `RateLimiter.AgreesIffClearOfTheEnd` | src/rpc/rate_limiter.rs:476-505 | so all runs up to an instant agree if and only if that instant plus a full bucket is below 2^64 - 1 |
| `RateLimiter.PruneIsInvisible` | src/rpc/rate_limiter.rs:508-512 | inserting any prunes into a run changes no decision |
| `RateLimiter.WindowBound` | src/rpc/rate_limiter.rs:470-512 | in every window [a, b] of every run the accepted tokens of a key times t are at most tau + (b - a) |
| `RateLimiter.TooSoonIsExact` | src/rpc/rate_limiter.rs:488-512 | after TooSoon(w) the same request is refused at every instant before now + w and accepted at now + w, if nothing of the key is accepted in between |
| `RateLimiter.BurstIsAllowed` | src/rpc/rate_limiter.rs:450-505 | a fresh key may spend its whole quota at once |
| `RateLimiter.BurstIsTight` | src/rpc/rate_limiter.rs:450-505 | exactly when it may spend one token more |
| `LimiterQueues.TakeExpired` | src/rpc/response_limiter.rs:137 | takes a timer that has run out, and none only if none has |
| `LimiterGate.AdmitTraced` | src/rpc/rate_limiter.rs:352-384 | the limiter of each protocol is in the state its own history leads to |
| `LimiterGate.WindowIsBounded` | src/rpc/rate_limiter.rs:352-384 | the window bound for a peer and a protocol across all protocols and peers |
| `SelfLimiter.NothingIsLost` | src/rpc/self_limiter.rs:86-313 | every submitted request is exactly once emitted, ready, delayed or failed; those that left the queue of a key are a prefix of what was submitted for it, and those ready are among those let through in submission order; every delayed key has a non-empty queue and a timer |
| `SelfLimiter.OnlyDisconnectsFail` | src/rpc/self_limiter.rs:248-270 | what lets requests through fails none, and a disconnect fails exactly what waits |
| `SelfLimiter.HeadWaitsIff` | src/rpc/self_limiter.rs:86-244 | in every state of every run, each waiting key has a timer set for the wait of its head, and nothing of it was let through since: so at any later instant the head must wait if and only if two requests are active then, or the limiter asked for longer when the timer was set |
| `SelfLimiter.AtTheDeadline` | src/rpc/self_limiter.rs:133-244 | from the deadline on, with fewer than two requests active, the head need not wait if the timer was set by the limiter; and exactly when it must if the timer was set because two were active |
| `SelfLimiter.BusyHeadWaitsAgain` | src/rpc/self_limiter.rs:140-159 | a state in which a timer set because two requests were active runs out too early |
| `LimiterGate.RefusalEnds` | src/rpc/rate_limiter.rs:352-396 | a refusal lasts exactly as long as it says while nothing of the key is let through, whatever other keys do and whatever is pruned |
| `RateLimiter.LaterAnswer` | src/rpc/rate_limiter.rs:470-512 | what a batch is told later is fixed by what it would have been told before: the rest of the wait, or the same answer |
| `SelfLimiter.SelfRateLimiter.TrySendRequest` | src/rpc/self_limiter.rs:133-203 | waits exactly if two requests are active, for 100 ms, or the limiter says so, for as long as it says; stored counts stay one or two |
| `SelfLimiter.SelfRateLimiter.Allows` | src/rpc/self_limiter.rs:86-127 | emitted at once exactly if nothing of its key waits and it need not wait, and otherwise queued, with a timer for exactly the time it has to wait if it is the first; every other queue stays, and no request fails |
| `SelfLimiter.SelfRateLimiter.NextPeerRequestReady` | src/rpc/self_limiter.rs:207-244 | lets exactly the first n waiting requests of the key become ready, in order; none only if the head must wait; the rest waits with one new timer for exactly as long as its head has to; no other queue changes |
| `SelfLimiter.SelfRateLimiter.PeerDisconnected` | src/rpc/self_limiter.rs:248-270 | fails exactly the requests that wait for the peer, each protocol's in order; what became of all others stays |
| `SelfLimiter.SelfRateLimiter.RequestCompleted` | src/rpc/self_limiter.rs:273-283 | one active request less, and no stored count of zero |
| `SelfLimiter.SelfRateLimiter.PollReady` | src/rpc/self_limiter.rs:285-313 | if a timer has run out, one is handled: exactly the first n requests of its key become ready, and the next one has to wait still; the newest ready request is emitted; every other queue stays, and no request fails |
| `ResponseLimiter.OrderIsKept` | src/rpc/response_limiter.rs:56-178 | from any point on from which nothing of a key was dropped, the responses submitted for it are those placed in the event queue since followed by those delayed, in order; and who waits has a timer |
| `ResponseLimiter.OrderSince` | src/rpc/response_limiter.rs:56-178 | the same between any two states without a disconnect of the peer in between, also after one before |
| `ResponseLimiter.ReleasesAreBounded` | src/rpc/response_limiter.rs:99-125 | the responses released for a key in any window of length w number n with n * t <= tau + w |
| `ResponseLimiter.QuotasAreModest` | src/rpc/response_limiter.rs:110-118 | one response never exceeds a bucket built from a quota |
| `ResponseLimiter.RpcResponses.TryLimiter` | src/rpc/response_limiter.rs:101-125 | lets through exactly if the limiter accepts one token, else gives its wait |
| `ResponseLimiter.RpcResponses.Allows` | src/rpc/response_limiter.rs:56-97 | goes ahead exactly if nothing of its key waits and the limiter accepts; otherwise queued, with a timer for exactly what the limiter asks for if it is the first |
| `ResponseLimiter.RpcResponses.SendResponseInner` | src/rpc/mod.rs:246-271 | the response joins the event queue exactly if there is no limiter, or nothing of its key waits and the limiter accepts; otherwise it waits; nothing of any key is dropped |
| `ResponseLimiter.RpcResponses.PushOther` | src/rpc/mod.rs:294-300 | other events share the queue without disturbing the order of responses |
| `ResponseLimiter.RpcResponses.DrainKey` | src/rpc/response_limiter.rs:140-168 | releases in order until the limiter refuses one, which is then refused now and has a timer for exactly as long as the limiter asks for |
| `ResponseLimiter.RpcResponses.PollReady` | src/rpc/response_limiter.rs:135-178 | handles every expired timer; who still waits after its timer ran out is refused by the limiter at this instant; terminates because new timers lie in the future |
| `ResponseLimiter.RpcResponses.Poll` | src/rpc/mod.rs:564-586 | released responses and then a ready request join the event queue, its oldest event is handed out, nothing is lost, dropped or reordered, no expired timer is left, and who still waits after its timer ran out is refused at this instant |
| `ResponseLimiter.RpcResponses.PeerDisconnected` | src/rpc/response_limiter.rs:128-131 | drops exactly what waits for the peer; what was decided before, and what belongs to other peers, stays |
| `Discovery.Service.AddSubnetQuery` | src/discovery/mod.rs:662-694 | at most one entry per subnet with at most three retries; the later time and the given retries are kept |
| `Discovery.Service.DiscoverPeers` | src/discovery/mod.rs:356-366 | starts one `FindPeers` query unless one was asked for or the service is not started; with an invalid local record only the flag is set |
| `Discovery.CapacityIsRoom` | src/discovery/mod.rs:733-738 | at most four subnet queries are active, or five if the flag was set without a query; the code says it is at capacity if and only if that number is reached |
| `Discovery.Service.ProcessQueue` | src/discovery/mod.rs:701-738 | groups of at most three; every unexpired query is in a group or still queued, in order; at most that many subnet queries are active, and exactly that many if a query is left |
| `Discovery.FiveSubnetQueries` | src/discovery/mod.rs:356-366 | a run that ends with five active subnet queries |
| `Discovery.Execute` | src/discovery/mod.rs:356-976 | over every run of operations, each state the outcome of one operation on the one before: in every state at most four subnet queries are active until a `FindPeers` query fails to start; from then on the flag stays set and at most five are |
| `Discovery.FourWithAValidRecord` | src/discovery/mod.rs:733-738 | so with a valid record whenever peers are searched for, at most four are active in every state |
| `Discovery.Service.StartSubnetQuery` | src/discovery/mod.rs:741-798 | starts one query for exactly the subnets that still lack peers |
| `Discovery.Service.CompleteSubnetQuery` | src/discovery/mod.rs:880-962 | every search of the query is queued again with one retry more and the later time, unless it reached the retry limit; other entries stay; the records found are mapped |
| `Discovery.SearchedAgain` | src/discovery/mod.rs:662-694 | a finished search is queued again with one retry more and the latest time asked for, and after three retries never: then the queue keeps what it had for the subnet |
| `Discovery.StartedQueries` | src/discovery/mod.rs:701-798 | every query started is for one to three subnets from the queue, each of which lacks peers |
| `Discovery.Service.ProcessCompleted` | src/discovery/mod.rs:846-976 | the outcome of any finished query, with the searches queued again in the same way; a finished `FindPeers` maps exactly the records found, each to no time; the flag is cleared exactly by a finished `FindPeers` |
| `Discovery.MappedIsFurthest` | src/discovery/mod.rs:893-967 | exactly the matching records are mapped: to none if and only if no matching query has a time, else to one of their times, none of which is more than 1 ms later |
| `TimeCache.FrontIsExpired` | src/common/time_cache.rs:83-103 | popping the expired front removes exactly the expired keys, oldest first |
| `TimeCache.LRUTimeCache.RawInsert` | src/common/time_cache.rs:36-62 | true if the key was not stored; its time is renewed and the list stays ordered without duplicates |
| `TimeCache.LRUTimeCache.RawRemove` | src/common/time_cache.rs:66-80 | list and set lose the key together |
| `TimeCache.LRUTimeCache.RemoveExpired` | src/common/time_cache.rs:83-103 | exactly the expired keys, oldest first; what is left is live |
| `TimeCache.LRUTimeCache.Update` | src/common/time_cache.rs:139-155 | afterwards exactly the live keys are stored |
| `TimeCache.LRUTimeCache.Contains` | src/common/time_cache.rs:158-161 | true if and only if the last insertion plus the time to live is after now |
| `TimeCache.LRUTimeCache.Insert` | src/common/time_cache.rs:109-136 | true if and only if the key was absent or expired |

## Left out

- Transport, sockets, keys, files, metrics and logging: no effect on the modelled state.
- Gossipsub scoring, the numeric decay of scores and f32 targets: scores are states or values with a total order, and targets are natural numbers.
- Requests on the wire (inbound decoding, outbound encoding): the same length and frame steps as responses, with fewer stages.
- SSZ containers, snappy internals and digest hashing: parameters with laws.
- `LightClientUpdatesByRange`: its terminator is not implemented in the source.
- Wakers and real time: a parameter says what is ready, and clocks never go back. Each modelled operation reads the clock once, except `TimeCache.LRUTimeCache.Insert`.
- Per-peer connection counters are unbounded: they are bytes in the source.
- The sets of seen addresses of a peer are sequences in insertion order.
- The table of active inbound requests in `src/rpc/mod.rs` and the current fork of the fork context: plain lookups.
- The cache of discovered records: plain storage.
- HandlerPoll.DriveOutbound: assumes that the decoder yields only responses and errors, which is how the outbound codec works; it never yields a stream termination.
- RpcHandler.RPCHandler.SendRequest: assumes that `max_responses` is one for single-response requests and zero for a goodbye, as the request table has it.
- Pruning.DutyIsLostIff: covers the case in which the exposed peers all have a duty or none has; the general case is `Pruning.DutyMayBeLostIff` and `Pruning.DutyMustBeLostIff`.
- Pruning.DutyIsLostIffAtOnce: the same special case.
- RpcHandler.RPCHandler.PollInbound: closed substreams leave the map at once instead of after the loop, which no other substream can see.
