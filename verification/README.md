# Verification models of Electrum's protocol core

Dafny models of the parts of Electrum where a mistake costs money or splits the view of the chain, with proofs of what
these parts are for. The models follow the code's own form: objects whose fields the code updates are classes with the
same fields, loops are loops, and what they compute is tied to functions about which the laws are proved.

1. **Payment channels** (`Htlc*.dfy`). The log of a Lightning channel: adds, lock-ins, settles, fails and fee updates,
   each with the number of either party's commitment transaction it takes effect in; the update, sign and revoke dance of
   BOLT #2, section "Normal Operation"; and a cache beside the log. Proved: what holds after every run, that signed
   transactions never change, that the cache is exactly what a rebuild gives, and that two nodes joined by queues agree on
   every signed transaction, also when the connection breaks and updates are discarded and sent again.
2. **Chains of headers** (`ForkTree*.dfy`, `Blockchain*.dfy`, `Chainwork.dfy`, `Headers.dfy`, `CompactTarget.dfy`,
   `Retargeting.dfy`). Chains share prefixes through parent pointers and store their own headers in files; a chain that
   gains more work than its parent swaps places with it. Proved: swaps change what no chain reads, the best chain is the
   registered one after every run, the cache of work is right, and compact targets are exact.
3. **Onion packets** (`Onion*.dfy`, `Primes.dfy`). Construction and peeling of BOLT #4, sections "Packet Construction"
   and "Filler Generation", over abstract primitives with stated laws. Proved: every hop of every route that fits gets its
   payload, down to the records it is told, and the packet built for the next hop.
4. **The wallet's transaction index** (`Wallet*.dfy`). Spent outpoints, coins, spends, histories and cached balances under
   adding and removing transactions. Proved: the maps agree, two ways to compute a balance agree, and exactly when an
   exception comes out half way.
5. **Coin selection** (`Coin*.dfy`). Shuffled search for sufficient buckets, by class of confirmation. Proved: soundness,
   and that confirmed coins are preferred.
6. **The TLV wire format** (`Tlv*.dfy`, `BigSize.dfy`, `Bytes.dfy`, `ByteStream.dfy`), BOLT #1, section
   "Type-Length-Value Format". Proved: exactly when a stream reads back, and that only canonical streams are accepted.

`Options.dfy` holds the optional value, `Folding.dfy` a device for passing long statements along. In a checkout,
`dafny verify dfyconfig.toml` checks the whole project.

Assumptions are stated as predicates: `OnionSpec.Laws` for the primitives (a group of prime order, agreement of shared
secrets, no blinding factor that is zero, no all-zero code, prefixes of cipher streams), `WalletIndex.WorldOk` for
transactions (an id stands for one transaction, spending goes forward, an input that tells its address tells the truth),
injective header hashes, and `Headers.NetOk` for the rules of a network, which `Retargeting.BitcoinOk` proves of Bitcoin's.

## Model

| member | source | states |
|---|---|---|
| HtlcRuns.RunKeeps | electrum_min/lnhtlc.py:79-270 | Every run of sends, receives and discards keeps the invariant of the log: ids are handed out without gaps, set commitment numbers fit the windows of both parties, each removal has a locked-in HTLC and a later number, fee logs are contiguous and ordered, and only the payer has fee updates. |
| HtlcRuns.SignedCommitmentsAreFrozen | electrum_min/lnhtlc.py:303-317 | From any state that satisfies the invariant and over every run, discards included: for each party and each commitment number that was signed before the run, the set of active HTLCs, their contents, both balances and the fee rate read the same after it. |
| HtlcRuns.IrrevocableForever | electrum_min/lnhtlc.py:319-404 | Irrevocably added and irrevocably removed, once true of an HTLC, stay true over every run. |
| HtlcOrder.HandshakeOrder | electrum_min/lnhtlc.py:102-128 | After every run from a newly opened channel: an HTLC is in effect with its proposer only once it is irrevocable with the other party; settles and fails are disjoint; a removal is in effect with the other party only once it is irrevocable with the proposer of the HTLC, only from number 1 on and only where the HTLC was locked in. |
| HtlcMeaning.AddedNext | electrum_min/lnhtlc.py:80-99 | A new HTLC is in the other party's transactions after the latest one, in none before, and in none of the offering party's. |
| HtlcMeaning.RemovedNext | electrum_min/lnhtlc.py:102-134 | An HTLC can be removed only if it is in the offering party's next transaction; it is then in none after the latest, and all other transactions stay as they are. |
| HtlcMeaning.RevokedNext | electrum_min/lnhtlc.py:166-210 | A revocation moves a party on by one transaction, and what is in effect there is in effect in the other party's next one at last. |
| HtlcMeaning.RemovalPays | electrum_min/lnhtlc.py:511-541 | Settling moves exactly the amount of the HTLC from the party that offered it to the other one, in every transaction after the latest; failing moves nothing. |
| HtlcMeaning.BalancesConserved | electrum_min/lnhtlc.py:511-541 | In every transaction, what one party has more than at the start the other one has less. |
| HtlcMeaning.FeeNext | electrum_min/lnhtlc.py:142-163 | A fee update is the rate of all transactions of the other party after the latest one. |
| HtlcMeaning.RemovedMeans | electrum_min/lnhtlc.py:383-404 | An HTLC is irrevocably removed for a party if and only if it was locked in in that party's oldest unrevoked transaction and is in none of its transactions from there on. |
| HtlcMeaning.AddedMeans | electrum_min/lnhtlc.py:343-356 | An HTLC is irrevocably added for a party if and only if it is in all of that party's transactions from the oldest unrevoked one on, but for those in which it is removed. |
| HtlcDiscard.DiscardAdds | electrum_min/lnhtlc.py:247-262 | Discarding removes exactly a suffix of the remote ids; adds and lock-ins keep exactly the keys below the new next id, with unchanged values. |
| HtlcDiscard.DiscardFees | electrum_min/lnhtlc.py:268-270 | The fee log after a discard is a non-empty prefix of the old one. |
| HtlcDiscard.DiscardKeeps | electrum_min/lnhtlc.py:247-270 | After a discard the whole invariant holds again; in particular no settle or fail refers to a missing HTLC. |
| HtlcReplay.ApplyMatches | electrum_min/lnhtlc.py:79-210 | At every step the log is the one that the two message histories determine: an update enters the other party's transactions after the signatures sent before it, and its sender's own with the revocation that answers it. |
| HtlcChannel.NoReceiverGuardFires | electrum_min/lnhtlc.py:91-207 | For two managers joined by FIFO queues, after every sequence of sends, deliveries and reconnections in time, no guard or assertion of a `recv_` method fires on the next message under way. |
| HtlcAgreement.TwoPartyAgreement | electrum_min/lnhtlc.py:79-207 | After every such sequence and for every number up to the latest one signed for a party, that party and its peer have the same HTLCs, the same balances and the same fee rate in that party's transaction. |
| HtlcReconnect.DiscardMatches | electrum_min/lnhtlc.py:247-270 | The log after a discard is the one determined by the received history without the updates behind its last signature. |
| HtlcReconnect.RetransmittedSame | electrum_min/lnpeer.py:1336-1380 | What a peer kept, followed by what is sent again to it (lost updates and signatures in order, a lost revocation first or last), has the same updates, signatures and revocations in the same relevant order as what was sent. |
| HtlcChannel.ReconnectKeepsIff | electrum_min/lnpeer.py:1330-1380 | Re-establishing a channel keeps what links the two nodes (every message sent again passed its sender's guards against what the receiver then has), if and only if no removal under way would be sent again before the revocation it relied on. |
| HtlcEarlyRemoval.NothingRefusedIff | electrum_min/lnpeer.py:1330-1380 | After every run: if the connection breaks, both nodes accept all messages sent again, one after the other, if and only if no removal is sent again before the revocation it relied on. Otherwise the guard of a `recv_` method fires. |
| HtlcEarlyRemoval.ResentAcceptedIff | electrum_min/lnpeer.py:1330-1380 | The same for each direction on its own. |
| HtlcChannel.IrrevocableInTime | electrum_min/lnpeer.py:2616-2617 | That condition holds whenever the removals under way are of HTLCs that are irrevocable on both sides, as callers make sure. |
| HtlcEarlyRemoval.RemovalTooEarly | electrum_min/lnpeer.py:1372-1380 | A run, allowed by the guards of the manager, after which reconnecting sends a settle before the revocation it relied on, and the guard of its receiver fires. |
| HtlcManager.HTLCManager.constructor | electrum_min/lnhtlc.py:14-47 | Loading a log rebuilds the cache exactly. |
| HtlcManager.HTLCManager.InitMaybeActiveHtlcIds | electrum_min/lnhtlc.py:235-245 | The rebuilt sets are exactly the HTLCs without an old removal, and the running balance is the settled total of the others. |
| HtlcManager.HTLCManager.UpdateMaybeActiveHtlcIds | electrum_min/lnhtlc.py:212-233 | From any sound cache, pruning arrives at exactly the cache a rebuild would give. |
| HtlcManager.HTLCManager.SendHtlc | electrum_min/lnhtlc.py:79-89 | Succeeds exactly for the next id, has exactly the specified effect on the log, and keeps the cache equal to a rebuild. |
| HtlcManager.HTLCManager.RecvHtlc | electrum_min/lnhtlc.py:91-100 | The same for a received HTLC. |
| HtlcManager.HTLCManager.SendRemove | electrum_min/lnhtlc.py:102-121 | Settle and fail of a received HTLC: succeeds exactly when the HTLC is active in the remote's next transaction; effect and cache as specified. |
| HtlcManager.HTLCManager.RecvRemove | electrum_min/lnhtlc.py:109-128 | The same for the removal of an offered HTLC. |
| HtlcManager.HTLCManager.SendUpdateFee | electrum_min/lnhtlc.py:130-134 | The fee log gains or overwrites its last entry as specified; everything else and the cache stay. |
| HtlcManager.HTLCManager.RecvUpdateFee | electrum_min/lnhtlc.py:136-140 | The same for a received fee update. |
| HtlcManager.HTLCManager.NewFeeupdate | electrum_min/lnhtlc.py:142-153 | The last fee update is overwritten exactly when nobody committed to it. |
| HtlcManager.HTLCManager.SendCtx | electrum_min/lnhtlc.py:155-159 | Succeeds exactly when the remote has no unrevoked extra transaction. |
| HtlcManager.HTLCManager.RecvCtx | electrum_min/lnhtlc.py:161-164 | The same for the local side. |
| HtlcManager.HTLCManager.SendRev | electrum_min/lnhtlc.py:166-186 | Looking only at the possibly active HTLCs promotes every update that a look at the whole log would, fee updates included, and the pruned cache equals a rebuild. |
| HtlcManager.HTLCManager.RecvRev | electrum_min/lnhtlc.py:188-210 | The same for the remote's revocation. |
| HtlcManager.HTLCManager.DiscardUnsignedRemoteUpdates | electrum_min/lnhtlc.py:247-270 | Has exactly the effect of the specified discard, and the cache equals a rebuild. |
| HtlcManager.HTLCManager.IsHtlcActiveAtCtn | electrum_min/lnhtlc.py:303-317 | Answers exactly whether the HTLC is locked in and not removed in the given transaction. |
| HtlcManager.HTLCManager.IsHtlcIrrevocablyAddedYet | electrum_min/lnhtlc.py:319-356 | For one party, or for both if none is named: answers exactly whether the HTLC is in all transactions from the oldest unrevoked one on, but for those in which it is removed. |
| HtlcManager.HTLCManager.IsHtlcIrrevocablyRemovedYet | electrum_min/lnhtlc.py:358-404 | For one party, or for both if none is named: answers exactly whether the HTLC was locked in in the oldest unrevoked transaction and is in no transaction from there on; the `or` over the two removal numbers is exact. |
| HtlcManager.HTLCManager.HtlcsByDirection | electrum_min/lnhtlc.py:406-430 | For every transaction number, recent ones answered from the cache: exactly the active HTLCs of that direction, with their contents. |
| HtlcManager.HTLCManager.GetBalanceMsat | electrum_min/lnhtlc.py:511-541 | For every transaction number, the fast path and the slow path give the balance of the whole log. |
| HtlcCache.FastBalance | electrum_min/lnhtlc.py:520-541 | From the oldest unrevoked transaction on, the running balance and the possibly active HTLCs alone give the balance of the whole log. |
| HtlcManager.HTLCManager.GetFeerate | electrum_min/lnhtlc.py:592-617 | The binary search ends with the rate of the last fee update whose number is set and not above the requested one; its final assertion never fails. |
| HtlcManager.FeeLogSorted | electrum_min/lnhtlc.py:592-617 | In the fee log an update is in effect only if all earlier ones are, and the first always is. |
| ForkTreeSwap.SwapKeepsContent | electrum_min/blockchain.py:366-427 | After a swap and the moving of siblings, every chain in the tree, not just the two, reads the same header at every height through its parents. |
| ForkTreeSwap.SwapKeepsShape | electrum_min/blockchain.py:376-379 | After it every chain again starts above its parent's start and not above its tip. |
| ForkTreeSwap.SwapKeepsStored | electrum_min/blockchain.py:403-408 | Every known header is still stored exactly once. |
| ForkTreeRuns.SwapsFewerThanChains | electrum_min/blockchain.py:366-378 | The loop swaps fewer times than there are chains, because every swap shortens the line of ancestors: the exception for swapping too many times is unreachable. |
| ForkTreeRuns.SwapAllSettles | electrum_min/blockchain.py:366-381 | If only the chain that swaps may beat its parent, then after the loop no chain has more work than its parent. |
| ForkTreeRuns.FirstComeStays | electrum_min/blockchain.py:388-391 | A chain that has no more work than its parent does not move: of two equal chains the first one stays. |
| ForkTreeRuns.RootIsBest | electrum_min/blockchain.py:160-161 | When no chain has more work than its parent, the root has the most work of all chains. |
| ForkTreeSteps.BestChainWins | electrum_min/blockchain.py:160-161 | After every run of saves and forks from a single verified chain: ids are unique, the chain registered under the genesis hash is the root and has the most work, and every chain starts above its parent's start. |
| ForkTreeSteps.RunContents | electrum_min/blockchain.py:267-284 | Whatever else a run forks and swaps, a chain ends up with its old headers followed by those saved to it. |
| ForkTreeSteps.ForkKeepsShapeIff | electrum_min/blockchain.py:267-284 | Given what callers check, forking keeps the tree in shape if and only if the fork is above the start of the chain forked from. |
| ForkTreeBelow.ForkBelowStart | electrum_min/blockchain.py:422-425 | A run of forks and saves after which the first match for a header (the oldest entry in the dictionary) is a child that merely shares it; forking there loses the shape, and once the new chain has more work the assertion in `_swap_with_parent` fails. |
| ForkTreeBelow.AsSpecified | electrum_min/blockchain.py:388-407 | In every tree in shape, the assertion about forkpoints holds, and a chain swaps exactly if it has more work than its parent. |
| ForkTreeBelow.AssertionFailsIff | electrum_min/blockchain.py:406-407 | After a fork, and however many headers are saved to the new chain, the assertion about forkpoints fails if and only if the tree lost its shape and the new chain has more work than its parent. |
| ForkTreeBelow.OldestChildIsFound | electrum_min/blockchain.py:666-674 | A child with the oldest entry is the chain found for every header that it shares with its parent. |
| ForkTreeOrder.FirstMatchIs | electrum_min/blockchain.py:666-674 | The chain found for a header has it, and no chain with an older entry has. |
| ForkTreeOrder.SwapAllLists | electrum_min/blockchain.py:421-426 | Swaps keep all chains in the dictionary, and enter the one that swaps. |
| ForkTreeCommon.GreatestEntryIsLastCommon | electrum_min/blockchain.py:223-243 | The greatest height vouched for by an ancestor of both chains is the greatest height up to which they have the same headers; above it they have no header in common. |
| BlockchainSiblings.SiblingMoves | electrum_min/blockchain.py:376-379 | Comparing hashes moves exactly the siblings that fork off at or below the height where the two swapped chains part. |
| BlockchainStore.Blockchains.constructor | electrum_min/blockchain.py:98-118 | A verified main file gives a consistent state with one registered chain. |
| BlockchainStore.Blockchains.ReadHeader | electrum_min/blockchain.py:464-482 | Reading through parents gives the header of the chain at that height, or none outside it. |
| BlockchainStore.Blockchains.CheckHeader | electrum_min/blockchain.py:666-674 | Going through the dictionary in insertion order finds exactly the first chain with the header. |
| BlockchainStore.Blockchains.CanConnect | electrum_min/blockchain.py:620-642 | True exactly if the header names its predecessor in the chain and meets the target; what passes states the chain's target, and its hash is not above it. |
| BlockchainStore.Blockchains.GetTargetOf | electrum_min/blockchain.py:523-546 | The target that a chunk sets for the next one, read from the chain's own headers. |
| BlockchainStore.Blockchains.GetChainwork | electrum_min/blockchain.py:593-618 | For the tip or an explicit height: the work from the nearest cached chunk on equals the sum over single headers, every cache entry stays right for every chain, the search ends at the virtual block, and no result is given exactly when a complete chunk is missing. |
| Chainworks.ChainworkIsWork | electrum_min/blockchain.py:593-618 | For every height of a verified chain that number is the sum of the single-header work of the headers up to it. |
| Chainworks.FilledOk | electrum_min/blockchain.py:163-166 | New cache entries for blocks of one chain are right for every chain that contains these blocks. |
| Chainworks.CacheHit | electrum_min/blockchain.py:163-166 | A cache entry found under the hash of a block of a verified chain is the work of the headers up to that block. |
| BlockchainStore.Blockchains.Write | electrum_min/blockchain.py:440-452 | Bytes before the offset stay, what was behind is cut off, and the size is updated. |
| BlockchainStore.Blockchains.ExchangeFiles | electrum_min/blockchain.py:394-420 | The two chain objects exchange forkpoint, parent, ids and previous hash, and the files hold the parent's common part with the child's headers and the parent's remaining headers under its new name. |
| BlockchainStore.Blockchains.SwapEntries | electrum_min/blockchain.py:421-426 | The dictionary loses both old ids and gains both new ones at its end. |
| BlockchainStore.Blockchains.SwapWithParent | electrum_min/blockchain.py:366-381 | In place, over fields, files, dictionary and cache: the loop does exactly the specified swaps, keeps every invariant, and its guard against too many swaps never fires. |
| BlockchainStore.Blockchains.SaveHeader | electrum_min/blockchain.py:454-462 | Saving a connecting header that is in no chain has exactly the effect of one step of the tree of chains, and all invariants hold again. |
| BlockchainStore.Blockchains.Fork | electrum_min/blockchain.py:267-284 | A fork succeeds exactly if the header connects; the new chain is one step of the tree of chains, registered under its id, and all invariants hold again. |
| BlockchainStore.Blockchains.GetParentHeights | electrum_min/blockchain.py:222-233 | Collects for the chain and each ancestor the height up to which they agree. |
| BlockchainStore.Blockchains.GetHeightOfLastCommonBlockWithChain | electrum_min/blockchain.py:235-243 | Returns the greatest height up to which the two chains have identical headers. |
| CompactTargets.CompactRoundTrip | electrum_min/blockchain.py:548-584 | For every target below 2^256: its compact form decodes, to at most the target, losing less than its 2^15-th part, and encodes to the same form again. |
| CompactTargets.EncodeTarget | electrum_min/blockchain.py:569-584 | The loop over the bytes computes exactly that compact form, and it fits into four bytes. |
| CompactTargets.RefusedIff | electrum_min/blockchain.py:549-572 | A compact form of four bytes is refused exactly if the number it stands for is negative or is 2^256 or more, and is that number otherwise. |
| CompactTargets.RecodedMonotone | electrum_min/blockchain.py:543-545 | A greater target does not become a smaller one by its compact form. |
| Retargeting.TargetExact | electrum_min/blockchain.py:523-546 | Every retargeted target is exactly representable in compact form, at most the limit, and the rounding of what was asked for. |
| Retargeting.TargetBounds | electrum_min/blockchain.py:535-545 | It is at most four times the old target, and what is rounded is at least a quarter of it or the limit. |
| Retargeting.LongerIsEasier | electrum_min/blockchain.py:539-546 | With the same target before, a chunk that took longer never gives a lower target. |
| Retargeting.SteadyChunk | electrum_min/blockchain.py:524-546 | On every Bitcoin chain, a chunk from whose first to whose last header it is two weeks leaves the target as its last header states it. |
| Retargeting.BitcoinWork | electrum_min/blockchain.py:586-591 | The work of a target is exactly 2^256 divided by the number of hashes that meet it, rounded down, and a lower target never takes less. |
| Retargeting.FirstChunkWork | electrum_min/blockchain.py:586-591 | The work of the first headers of every Bitcoin chain is 2^32 each. |
| Retargeting.BitcoinOk | electrum_min/blockchain.py:586-591 | Bitcoin's rules satisfy what the proofs about chains rely on: encoded targets lead to targets, and every header adds work. |
| OnionProof.TailIsFiller | electrum_min/lnonion.py:257-282 | The end of every mix header is the filler that the earlier hops shift in. |
| OnionProof.HopProcesses | electrum_min/lnonion.py:299-349 | On the packet built for it, a hop passes the code check, recovers exactly its payload, learns whether it is last and passes on exactly the packet built for the next hop, if and only if its payload has at least two bytes; both failures are named. |
| OnionProof.NextBehind | electrum_min/lnonion.py:316-318 | Behind its own data, a hop that is not the last finds exactly the mix header built for the next hop. |
| OnionProof.EphemeralIsKey | electrum_min/lnonion.py:154-168 | All blinded ephemeral keys along a route are private keys, the order of the group being prime. |
| Primes.PrimeDivides | electrum_min/lnonion.py:163-166 | A prime that divides a product divides a factor; so no blinding leads to the zero key. |
| OnionPackets.GetSharedSecretsAlongRoute | electrum_min/lnonion.py:154-168 | The loop over blinded ephemeral keys computes every hop's shared secret. |
| OnionPackets.GenerateFiller | electrum_min/lnonion.py:257-282 | The forward loop computes exactly the filler of all hops but the last. |
| OnionPackets.WrapHops | electrum_min/lnonion.py:188-204 | The backward loop tells every hop its code and ends with the outermost layer. |
| OnionPackets.NewOnionPacket | electrum_min/lnonion.py:171-210 | For every route that fits, construction yields the packet for the first hop and leaves each hop's code in its data. |
| OnionPackets.FromFd | electrum_min/lnonion.py:80-102 | Reading a hop's data off the stream agrees with the parser on byte strings, position and errors included. |
| OnionPackets.ProcessPacket | electrum_min/lnonion.py:299-349 | Processing with a moving stream equals the specified peeling, errors included. It ends with the error for a wrong code exactly if the key is valid and the code is not that of the header and the associated data under the shared secret; only packets with the right code are peeled, and what the hop is told stands at the front of the unmasked bytes. |
| OnionPackets.OnlyAuthentic | electrum_min/lnonion.py:303-314 | The same about every packet at all, however it was made. |
| OnionSpec.HopAccepted | electrum_min/lnonion.py:80-102 | Whatever bytes a hop accepts as its data are the serialization of a payload of two bytes or more and a code. |
| OnionPackets.OneHop | electrum_min/lnonion.py:171-212 | The packet for a single hop, written out: its data, zeros for a code, and padding from the session key, under the mask of the shared secret, with the code over header and associated data. |
| OnionPackets.WholeRoute | electrum_min/lnonion.py:171-349 | Handed from hop to hop, the packet delivers every hop its payload, if and only if all payloads have at least two bytes; otherwise it stops at the first shorter one with the named error. |
| OnionPackets.EmptyPayloadIsRefused | electrum_min/lnonion.py:86-91 | A route that fits and whose only hop refuses its empty payload as the retired format. |
| OnionPayloads.RouteTellsRecords | electrum_min/lnonion.py:62-102 | With payloads serialized by the wire format: every hop ends up with exactly the records written for it, if and only if every hop is told something. |
| OnionPayloads.PayloadSchemeOk | electrum_min/lnwire/onion_wire.csv:1-24 | The payload records of the onion satisfy the condition under which streams read back. |
| Wallet.AddressSynchronizer.AddTransaction | electrum_min/address_synchronizer.py:265-362 | Unless one of the two exceptions comes out, all maps agree again, and: unrelated, dropped and added are decided exactly (an unrelated one neither pays nor spends from the wallet; a confirmed one is never dropped; nothing but a confirmed one replaces a confirmed one, and a local one replaces no unconfirmed one); what is pushed out is exactly the conflicting transactions and their dependents; the new index, transactions and coins are exactly as specified. The index error comes out exactly if an input names an output that its stored previous transaction does not have, and then the state is stated; the key error exactly if the removal of what is pushed out fails in the order in which it is gone through, so only if one of these can fail as the last one, and spends an outpoint twice. |
| Wallet.AddressSynchronizer.RemoveConflicting | electrum_min/address_synchronizer.py:316-318 | Removing all conflicting transactions, each with its dependents, is removing the whole set in one order: it raises exactly if that order fails, and otherwise all maps lose exactly that set. |
| Wallet.AddressSynchronizer.RemoveTransaction | electrum_min/address_synchronizer.py:364-372 | Removes exactly the transaction and its dependents, in some order, from all maps, and nobody left spends an output of a removed one; raises exactly if that order fails. |
| Wallet.AddressSynchronizer.RemoveOne | electrum_min/address_synchronizer.py:374-413 | Removes one transaction from all maps, or raises exactly if at some input nothing is recorded any more for its previous transaction; then its coins and spends stay recorded. |
| WalletRemovals.RemovalFailsIff | electrum_min/address_synchronizer.py:378-393 | Removing a set of transactions raises in some order if and only if one of them would raise as the last one. |
| WalletRemovals.OnlyRepeatsFail | electrum_min/address_synchronizer.py:378-393 | Only a transaction that spends an outpoint twice can fail to be removed. |
| WalletRaises.AddOutOfRange | electrum_min/address_synchronizer.py:149-161 | On a new wallet with one transaction, a call of `AddTransaction` gives the index error, and the index then names a transaction that is not stored. |
| WalletRemovals.OutOfRangeFails | electrum_min/address_synchronizer.py:149-161 | The input of that call: a well-formed world in which the output is missing, and the index that is left behind. |
| WalletRaises.RemoveRepeating | electrum_min/address_synchronizer.py:364-408 | After a transaction that spends an outpoint twice was added, the call of `RemoveTransaction` on it raises. |
| WalletRemovals.RepeatingFails | electrum_min/address_synchronizer.py:378-387 | The input of that call: a consistent wallet from which the transaction cannot be removed, in whatever order. |
| Wallet.AddressSynchronizer.GetConflictingTransactions | electrum_min/address_synchronizer.py:224-253 | Returns exactly the other stored transactions that spend an outpoint of the given one; its assertion and its exception never fire while the maps agree. |
| Wallet.AddressSynchronizer.GetDependingTransactions | electrum_min/address_synchronizer.py:415-423 | The recursion ends and returns exactly the transitive spenders. |
| Wallet.AddressSynchronizer.GetTxinAddress | electrum_min/address_synchronizer.py:149-161 | The address an input spends from, and exactly when the lookup raises. |
| Wallet.AddressSynchronizer.IsRelated | electrum_min/address_synchronizer.py:287-293 | Exactly whether an input or an output concerns the wallet, and exactly when the question raises. |
| Wallet.AddressSynchronizer.EnterInputs | electrum_min/address_synchronizer.py:318-341 | Marks every input as spent and records the value of those that spend the wallet's coins; or stops at the first input whose lookup raises. |
| Wallet.AddressSynchronizer.EnterOutputs | electrum_min/address_synchronizer.py:342-357 | Records exactly the outputs to the wallet's addresses and gives each to the transaction that spends it. |
| WalletIndex.NoConflicts | electrum_min/address_synchronizer.py:295-318 | No two stored transactions spend the same outpoint. |
| WalletIndex.NoOrphans | electrum_min/address_synchronizer.py:364-372 | After removing a closed set nobody left spends an output of a removed transaction. |
| WalletBalance.BalanceIdentity | electrum_min/address_synchronizer.py:532-568 | Adding up the effects of all transactions in the histories of any addresses gives the coins of these addresses that nobody spent. |
| Wallet.AddressSynchronizer.GetTxDelta | electrum_min/address_synchronizer.py:739-751 | What a transaction paid to an address less what it spent from it. |
| Wallet.AddressSynchronizer.GetAddrIo | electrum_min/address_synchronizer.py:807-821 | Going through an address's history finds exactly its coins and exactly the spent ones. |
| Wallet.AddressSynchronizer.GetBalance | electrum_min/address_synchronizer.py:856-921 | Cached or fresh, confirmed, unconfirmed and unmatured add up to the unspent coins of the addresses that are not excluded. Fresh, unmatured is the sum of the coinbase coins that still have to mature, confirmed that of the other coins in blocks and of what pending coins took from confirmed ones, and unconfirmed is the rest. |
| Wallet.StandingIs | electrum_min/address_synchronizer.py:893-896 | A coinbase coin is unmatured below 100 confirmations; every other coin in a block is confirmed. |
| Wallet.BackedIs | electrum_min/address_synchronizer.py:897-916 | A pending coin counts as confirmed in full if its transaction takes a large enough confirmed coin, and not at all if it takes none. |
| Wallet.CountedIff | electrum_min/address_synchronizer.py:885-890 | Counted are exactly the coins of the addresses that are not excluded and that no stored transaction spends. |
| Wallet.AddressSynchronizer.GetHistory | electrum_min/address_synchronizer.py:532-568 | One item for each transaction in the addresses' histories, with what it changes for these addresses; the balances run on from item to item and end at the unspent coins, so the sanity check never raises. |
| CoinChoosers.PRNG.RandInt | electrum_min/coinchooser.py:57-65 | The result is in the requested range. |
| CoinChoosers.PRNG.Shuffle | electrum_min/coinchooser.py:70-74 | Shuffling in place is a permutation. |
| CoinBuckets.SufficientFundsOrderFree | electrum_min/coinchooser.py:308-322 | Whether buckets suffice does not depend on their order, for every fee function. |
| CoinBuckets.EnoughPays | electrum_min/coinchooser.py:308-322 | Buckets suffice exactly if there is an input and the inputs' value covers the outputs and the fee for the weight. |
| CoinBuckets.WeightOfOne | electrum_min/coinchooser.py:253-275 | A single bucket adds its weight, and two for the marker if it has segwit inputs. |
| CoinBuckets.StripUnneeded | electrum_min/coinchooser.py:93-104 | Returns the shortest sufficient run of the most valuable buckets, and raises exactly if no run suffices. |
| CoinChoosers.PickIsPart | electrum_min/coinchooser.py:385-393 | A choice by a part of a permutation uses no bucket more often than it is there. |
| CoinChoosers.IndicesOf | electrum_min/coinchooser.py:384-385 | Sorting the chosen indices keeps them distinct and in range. |
| CoinChoosers.EnoughInOrder | electrum_min/coinchooser.py:373-390 | Finds a run of the shuffled buckets that suffices; if there is none, all together do not. |
| CoinChoosers.CoinChooserRandom.BucketCandidatesAny | electrum_min/coinchooser.py:357-393 | Every candidate is a part of the buckets that suffices and has no superfluous smaller bucket; not enough funds is raised only if all buckets together do not suffice. |
| CoinChoosers.CoinChooserRandom.BucketCandidatesPreferConfirmed | electrum_min/coinchooser.py:395-436 | The same, and the candidates come from the first classes that suffice together: confirmed, then unconfirmed, then others. If buckets of coins of positive height suffice, the search succeeds and uses no others; likewise for buckets of height zero or more. |
| BigSize.BigSizeRoundTrip | electrum_min/lnmsg.py:43-86 | Reading accepts exactly the byte strings that writing produces, for every number and whatever follows. |
| BigSize.Lengths | electrum_min/lnmsg.py:43-52 | The written form takes one, three, five or nine bytes, at the bounds of BOLT #1. |
| ByteStreams.ReadBigsizeInt | electrum_min/lnmsg.py:55-86 | Reading off the stream agrees with the parser on byte strings, position and errors included. |
| TlvFields.FieldRoundTrip | electrum_min/lnmsg.py:91-241 | Every value that a field can hold reads back, if the end of the field can be told. |
| TlvFields.RunsOn | electrum_min/lnmsg.py:91-161 | If it cannot, the value does not read back. |
| TlvFields.FieldAccepted | electrum_min/lnmsg.py:91-241 | Whatever is read is canonical, and writing it gives the bytes that were read. |
| TlvStreams.RecordReadsBackIff | electrum_min/lnmsg.py:354-427 | A record of canonical values reads back if and only if the end of every field can be told: an open-ended field is followed by nothing, or is a truncated integer of full length. |
| TlvRoundTrip.StreamReadsBackIff | electrum_min/lnmsg.py:354-427 | For every scheme and all canonical records: reading the written stream gives the records back if and only if that holds of each of them. |
| TlvRoundTrip.StreamRoundTrip | electrum_min/lnmsg.py:354-427 | In particular always, for schemes whose open-ended and truncated fields come last. |
| TlvRoundTrip.StreamAccepted | electrum_min/lnmsg.py:383-427 | A stream is accepted only if, but for its records of unknown types, it is exactly what writing its records gives. |
| TlvRoundTrip.UnknownOddIgnored | electrum_min/lnmsg.py:395-404 | A record of an unknown odd type makes no difference but for the order of types. |
| TlvRoundTrip.UnknownEvenRefused | electrum_min/lnmsg.py:395-404 | A record of an unknown even type is refused, whatever follows. |
| TlvRoundTrip.DisorderRefused | electrum_min/lnmsg.py:389-391 | A record whose type is not above the one before is refused. |
| TlvRoundTrip.TypesAccepted | electrum_min/lnmsg.py:383-427 | In every stream that is accepted the types increase and the even ones are known. |
| TlvRoundTrip.AllKnown | electrum_min/lnmsg.py:383-427 | If all types are known, nothing is left out: the stream is what writing its records gives. |
| TlvRoundTrip.TruncatedNotLast | electrum_min/lnmsg.py:107-127 | A scheme and canonical values that do not read back. |
| TlvSerializer.ReadField | electrum_min/lnmsg.py:91-161 | The reader on the stream agrees with the specified field parser, position and errors included. |
| TlvSerializer.WriteField | electrum_min/lnmsg.py:165-241 | The writer appends exactly the specified bytes, or fails exactly when the value does not fit. |
| TlvSerializer.WriteTlvStream | electrum_min/lnmsg.py:354-381 | Writes exactly the specified stream, or fails exactly when a value does not fit. |
| TlvSerializer.ReadTlvStream | electrum_min/lnmsg.py:383-427 | Reads exactly the specified records, with the same errors. What is accepted has increasing types of which the even ones are known, and but for unknown records is what writing the records that are read gives. |

## Findings

Properties that the code does not have on all inputs. Each has an input at which it fails and the exact condition.

- **A removal sent again too early** (`lnpeer.py:1372-1380`, `lnhtlc.py:102-114`). The manager lets a node settle an HTLC
  as soon as the node has revoked. If the revocation and the settle are both lost, and no signature follows, the
  revocation is sent again last, and the peer's `recv_settle` raises. Input: `HtlcEarlyRemoval.Events` (offer, sign,
  revoke, settle, disconnect). Exact condition: `HtlcEarlyRemoval.NothingRefusedIff`. Callers wait until an HTLC is
  irrevocable on both sides, which is enough (`HtlcChannel.IrrevocableInTime`).
- **Forking below the start of a chain** (`blockchain.py:406-407`, `blockchain.py:422-425`, `blockchain.py:666-674`).
  `check_header` gives the chain with the oldest entry that has a header, and a swap makes the entries of two chains
  anew. A child that was forked off before can then be found for a header it only shares, and the next fork starts below
  the start of the chain it hangs off. Once it has more work, `_swap_with_parent` raises. Input: fork at height 2, fork
  again at height 2, grow the second fork by one header, then fork at height 1 (`ForkTreeBelow.ForkBelowStart`). Exact
  conditions: `ForkTreeSteps.ForkKeepsShapeIff`, `ForkTreeBelow.AssertionFailsIff`.
- **Payloads shorter than two bytes** (`lnonion.py:86-91`). A packet can be built for a hop that is told nothing, but the
  hop reads the length byte as the retired format. Input: `OnionPackets.EmptyPayloadIsRefused`. Exact condition:
  `OnionPackets.WholeRoute`, and for records `OnionPayloads.RouteTellsRecords`.
- **An input that names an output that is not there** (`address_synchronizer.py:160`, `address_synchronizer.py:338`).
  `add_transaction` raises after it has marked the outpoint as spent, so that the index refers to a transaction that is
  not stored. Input: transaction 2 spends output 5 of the stored transaction 1, which has one output
  (`WalletRaises.AddOutOfRange`). Exact condition: the contract of `Wallet.AddressSynchronizer.AddTransaction`.
- **A transaction that spends an outpoint twice** (`address_synchronizer.py:378-387`, `wallet_db.py:1388-1393`). Its
  removal raises at the second spend if nothing else is spent of that previous transaction; it is then gone, but its
  coins are still recorded. Input: `WalletRaises.RemoveRepeating`. Exact conditions:
  `Wallet.AddressSynchronizer.RemoveOne` for one transaction, `Wallet.AddressSynchronizer.RemoveTransaction` and
  `AddTransaction` for a set in a given order, `WalletRemovals.RemovalFailsIff` for a set in any order.
- **Open-ended fields that are not last** (`lnmsg.py:107-127`). A truncated integer, or a field of all that is left, that
  is followed by other bytes is read back as another value or not at all. Input: `TlvRoundTrip.TruncatedNotLast`. Exact
  condition: `TlvRoundTrip.StreamReadsBackIff`. The onion's own scheme is not affected (`OnionPayloads.PayloadSchemeOk`).

## Left out

- BlockchainStore.Blockchains.Fork: asks for a header that is in no chain, a parent taller than the predecessor, and a parent that stores the predecessor itself; the first two are what callers check, for the third see Findings.
- HtlcManager.HTLCManager.SendRev: the stored raw messages of unacknowledged updates and the flag for the last revocation are not fields of the class; `HtlcReconnect.Replay` and `HtlcReconnect.WasRevokeLast` compute them from the messages sent.
- HtlcChannel.NoReceiverGuardFires: reconnections happen only when no removal would be sent again too early; otherwise a guard does fire, see Findings.
- HtlcAgreement.TwoPartyAgreement: the same reconnections.
- HtlcManager.HTLCManager.constructor: the log of a channel that is not open yet, with number -1, is not part of this model.
- HtlcManager.HTLCManager.RecvRev: both revocation methods are called only after the signature of a newer transaction, as the channel does; without one they would count past the latest transaction.
- BlockchainStore.Blockchains.constructor: a main file that is empty or was not verified is not part of this model.
- OnionPackets.FromFd: the records inside the payload are read in `OnionPayloads`, not here.
- OnionPackets.ProcessPacket: the same, and the trampoline packet inside a payload is not read.
- OnionPackets.NewOnionPacket: routes whose hops do not fit are left out, as are raw payloads used by unit tests and the trampoline packet inside a payload; the hops of a route are distinct objects.
- OnionPayloads.RouteTellsRecords: where both a payload and the next packet are malformed, only one of the two errors is modelled.
- Wallet.AddressSynchronizer.GetBalance: a balance from the cache is split by the heights at the time it was cached; the sum is that of now.
- Wallet.AddressSynchronizer.GetHistory: the order of items, timestamps and fees are left out; heights are one map, in which the views of the server and the verifier are merged.
- CoinChoosers.CoinChooserRandom.BucketCandidatesAny: that a sufficient part is found whenever there is one is not promised; the search gives up when all buckets together do not suffice, which for a fee that grows faster than the value may be too early.
- CoinBuckets.StripUnneeded: sorting is a function of the same stable order.
- Methods of the classes that loop over several steps are cut into smaller methods where one proof would be too long; the order of the steps is that of the code.
- The manager's lists of all HTLCs ever settled, preimages and failure queries, which only filter the log.
- Locks, logging, callbacks, storage and disk errors: every action is atomic and every write succeeds.
- Checkpoints, `save_chunk`, `verify_chunk` and reading stored fork files: headers are saved one by one, and a main file without its genesis header is not part of this model.
- Change amounts, penalty scores, bucketizing of coins and the choice among candidates, which are floating-point heuristics or only group coins.
- Peer messages, their numeric types and loading of the schemes from CSV files.
- Server history callbacks, SPV, transaction fees and script hashes in the wallet.
- The ciphers, the elliptic curve and hash collisions, which are assumptions.
