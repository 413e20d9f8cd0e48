# Verified model of the ledger, address manager and protocol cores

This project models the parts of the node that keep long-lived state and proves what they
keep, in Dafny 4.11. `dafny verify dfyconfig.toml` checks all of it.

## What is modelled

* **Chain state** - `Transactions`, `IndexEffects`, `ConnectSpec`, `ConnectRules`, `TxDb`, `BlockIndex`,
  `Branches`, `Connect`, `Chain`, `Detached`, `Locator`. The transaction index with its spent flags is a
  map; `TxDb` adds the batch that is committed or dropped. `ConnectSpec` says directly on the
  index when a block connects, `ConnectRules` which rules that amounts to; `Connect` queues changes beside the database as the code does
  and is proved against it. `Chain` holds the block tree and the tip. Its invariant `Valid`:
  the index is the replay of the tip's branch from just after genesis, `pnext` is set exactly
  along that branch, and each recorded money supply is the unspent total. Every operation says
  exactly when it succeeds and what a failure leaves as it was.
* **Address manager** - `AddrTables` (the tables and their invariant), `AddrMoves`,
  `AddrSteps`, `IdOrder`, `AddrMan` (the class), `AddrCheck` (`Check_` and the size bounds),
  `AddrFile`, `AddrReload` (the address file and its round trip), `AddrLoad` (which files are
  read into valid tables), `AddrRules` (its judgements in numbers).
* **Base58** - `Numerals`, `Base58`.
* **Merkle tree** - `Merkle`.
* **Messages** - `Framing` (frames and a receiver that takes one byte at a time), `Net` (the
  node's buffers), `Link` (two connected nodes).
* **Block assembly** - `Miner`, `Assembly`.
* **Stake modifier** - `StakeModifier`.
* **Targets** - `Compact`, `Retarget`.
* **Transaction locks** - `InstantX`.
* **Page locks** - `LockedPages`.

Hashes, script and signature checks, coin age, policy checks, disk reads, the clock, random
draws and what the socket answers are parameters: every theorem holds for all of their values.
Money and times are mathematical integers; 32- and 64-bit arithmetic is written out where the
code depends on it (the 32-bit `nTime`, the compact size byte, the 256-bit vote hash, the end
of the address space). Priorities are reals.

## Where the code and its documentation disagree

* A failed postponed connect after a reorganisation only ends the loop
  (src/main.cpp:2241-2256), yet the tip is set to the new block (2268-2269). `SetBestChain`
  states that the invariant then holds if and only if every postponed block connected,
  `DetachedDiffers` that the index is otherwise never the one of the tip, and
  `TipLeftDetached` is a run from genesis that ends like that.
* Undoing a block whose transaction hash was already indexed erases the older record, as the
  comment at src/main.cpp:1536-1539 warns: `UndoRestoresIffFresh`, `UndoLosesDuplicate`.
* Only vtx[1] of a proof-of-stake block is checked as coinstake; a proof-of-work block may
  hold one later, which no reward check looks at: `MintBounded` says exactly when a block
  then creates more than its subsidy, `StrayCoinStakeMints` is one that does.
* `SelectTried` records a position before its swap (src/addrman.cpp:135-142), so it may return
  another entry than the one it chose. `SelectTriedHitsIff` says for which buckets it cannot;
  the full ones it is called on are not among them: `FullBucketMisses`.
* A new bucket holds at most 64 entries as long as the manager fills it, but a file written for
  another number of buckets is read back without that test (src/addrman.h:343-347); afterwards
  the size test of `Add_` never meets 64 in such a bucket. `LoadedValidIff` says exactly which
  files are read into valid tables, `CrowdedBucket` is one that is not.
* A Merkle root commits to the list only up to repeated ends: `SameRootIff`,
  `RepeatedLeafSameRoot`.
* The live Base58 decoder counts leading 1s after it skipped them, so it strips leading zero
  bytes: `RoundTripIff`. No prefix in use starts with a zero byte: `PrefixedRoundTrip`.
* The smallest target, 1, is scaled to 0 by a short spacing and then jumps to the limit, so
  retargeting is not monotone there: `MonotoneIff`.
* For proof of stake GetNextTargetRequired reads the height of the last block before it tests
  it for null (src/main.cpp:1405-1407); the model requires a block there.

## Model

| member | source | states |
|---|---|---|
| IndexEffects.UndoRestoresIffFresh | src/main.cpp:1510-1543 | Disconnecting a block that was connected restores the old index if and only if none of its transaction hashes was in that index; chains of spends inside the block and several inputs from one parent included |
| ConnectSpec.UndoLosesDuplicate | src/main.cpp:1536-1542 | A concrete block, accepted by every check, whose coinbase hash is already indexed: its undo erases the older record |
| IndexEffects.UndoAppliedTx | src/main.cpp:1510-1543 | Undoing one applied transaction of a new hash gives back the index before it |
| IndexEffects.UnspendUndoesSpend | src/main.cpp:1514-1533 | Relinquishing inputs in input order undoes spending them, whichever parents they share |
| IndexEffects.FreshWhenApplied | src/main.cpp:1916-1959 | A hash new to the index and used once in the block is still new when its transaction is applied |
| ConnectSpec.ConnectedEffect | src/main.cpp:1916-1960 | Whenever a prefix of a block connects, the resulting index is the one that applying its transactions gives and every input was unspent in its turn |
| ConnectSpec.ConnectedValue | src/main.cpp:1916-1960 | Connecting transactions moves the total value of unspent indexed outputs by exactly value out minus value in |
| ConnectSpec.SpendAllValue | src/main.cpp:1686-1737 | Spending inputs one by one lowers the unspent total by exactly the value of those inputs |
| ConnectSpec.ApplyTxValue | src/main.cpp:1741-1754 | Applying one transaction moves the unspent total by its outputs minus its inputs and keeps every record matched with its stored transaction |
| ConnectSpec.MintBounded | src/main.cpp:1962-1982 | What an accepted block creates, exactly: a proof-of-stake block its stake reward less the fees, a proof-of-work block its coinbase less the fees and what coinstakes after position 1 create; it stays within its subsidy if and only if it is proof of stake or those create no more than its coinbase leaves unclaimed |
| ConnectSpec.StrayCoinStakeMints | src/main.cpp:2443-2461 | A concrete proof-of-work block, accepted by every check of shape and reward, whose third transaction is a coinstake that creates nine coins beyond the subsidy |
| ConnectRules.TxConnectsIff | src/main.cpp:1644-1737 | A transaction connects if and only if each input is a different unspent output of a stored parent that is not younger, allowed and correctly signed, amounts and running sums are amounts of money, and so is the fee unless it is a coinstake |
| ConnectRules.AcceptedIff | src/main.cpp:1891-2000 | A block is accepted if and only if it passes the checks that need no index, every later transaction obeys these rules on the index that the ones before it leave, and the reward is within subsidy and fees, both added up from the block |
| ConnectRules.AcceptedInput | src/main.cpp:1655-1683 | What each input of an accepted block is, in terms of the index before it and the stored parent |
| ConnectRules.AcceptedShape | src/main.cpp:2443-2583 | What each transaction of an accepted block looks like: different inputs, none null but the one of the coinbase, no hash twice, and no coinstake after the one of a proof-of-stake block |
| ConnectRules.AcceptedOutput | src/main.cpp:647-661 | Every output of an accepted block and every running sum is an amount of money, and only coinbase and coinstakes have empty outputs |
| ConnectRules.SpenderRecorded | src/main.cpp:1731-1732 | The index names for every spent output the position of the transaction that spent it |
| ConnectRules.PlacesMean | src/main.cpp:1906-1924 | The first transaction lies 81 bytes after the block start, for fewer than 253 transactions, each further one behind the one before |
| TxDb.OverlayIsReplay | src/txdb-leveldb.cpp:186-198 | Reading through the pending batch, last operation on the key first, gives what replaying the batch on the disk gives |
| TxDb.CTxDB.TxnBegin | src/txdb-leveldb.cpp:136-141 | Opens an empty batch; what reads see does not change |
| TxDb.CTxDB.TxnCommit | src/txdb-leveldb.cpp:143-154 | Either the disk becomes what reads saw, best block included, or the disk is unchanged; the batch is gone |
| TxDb.CTxDB.TxnAbort | src/txdb-leveldb.h:168-173 | The batch is gone |
| TxDb.CTxDB.ReadTxIndex | src/txdb-leveldb.cpp:227-231 | Reads the record from the batch if it was written or erased there, else from the disk |
| TxDb.CTxDB.UpdateTxIndex | src/txdb-leveldb.cpp:233-236 | Afterwards reads see the record; in a batch the disk is untouched |
| TxDb.CTxDB.EraseTxIndex | src/txdb-leveldb.cpp:246-251 | Afterwards reads do not see the record; in a batch the disk is untouched |
| TxDb.CTxDB.WriteHashBestChain | src/txdb-leveldb.cpp:293-296 | Afterwards reads see the best block; in a batch the disk is untouched |
| Connect.FetchInputs | src/main.cpp:1546-1615 | Succeeds exactly when every input is in range of an indexed and readable parent, queued changes first; the fetched records agree with the index; marks invalid exactly a failure with all parents found |
| Connect.ConnectInputs | src/main.cpp:1644-1758 | Succeeds exactly when every input passes its checks, no output is spent twice and the fee is in range; then the queue on top of the index is the index with those inputs spent |
| Connect.CheckInputs | src/main.cpp:1655-1681 | The first loop: the total value in exactly when every input is in range, mature and signed, not younger than the spender and in money range, running totals included |
| Connect.SpendInputs | src/main.cpp:1686-1738 | The second loop: fails exactly when an input is spent in the index or by an earlier input; else marks all of them |
| Connect.ConnectTransaction | src/main.cpp:1916-1959 | One turn of the loop of ConnectBlock refines connecting the transaction directly on the index, sums included |
| Connect.GetValueIn | src/main.cpp:1630-1642 | The sum of the values of the outputs that the inputs spend, read from the fetched parents |
| Connect.ConnectTransactions | src/main.cpp:1906-1960 | The whole loop refines connecting transaction by transaction on the index, with each position computed from the sizes before it |
| Connect.WriteQueued | src/main.cpp:1995-2000 | Writing the queued records makes the database what the queue on top of it was |
| Connect.ConnectBlock | src/main.cpp:1891-2000 | Accepts exactly when the reference does; then the index, minted amount and money supply are the ones computed there, and the supply grows by at most the subsidy if no coinstake is out of place; a rejected block changes nothing |
| Connect.DisconnectInputs | src/main.cpp:1510-1543 | Fails exactly when an input has no record with that output; else the index is the undone one |
| Connect.DisconnectBlock | src/main.cpp:1760-1782 | Undoes the transactions last one first, exactly as the reference does, and fails exactly when it does |
| Branches.PathAt | src/main.cpp:2365-2376 | In a tree of headers the branch up to a block has its height plus one blocks, each the parent of the next |
| Branches.UndoLast | src/main.cpp:2100-2108 | Disconnecting the tip block of a replayed branch never fails and gives the replay of the shorter branch |
| Branches.ReplayStep | src/main.cpp:2118-2130 | One more connected block extends the replay by one |
| Branches.ShorterReplayDiffers | src/main.cpp:2240-2256 | A branch replayed to less than its end gives a different index |
| Branches.SoundReplay | src/main.cpp:2068-2135 | Every index replayed along a branch matches the stored transactions record by record |
| Chain.ChainState.constructor | src/main.cpp:2201-2207 | The genesis start: an empty index, the genesis block as tip, and the invariant |
| Chain.ChainState.FindFork | src/main.cpp:2072-2084 | The walk stops at the highest common ancestor of the tip and the new block |
| Chain.ChainState.BranchAbove | src/main.cpp:2086-2095 | The blocks strictly above the fork, from the end of the branch down, each once |
| Chain.ChainState.DisconnectBranch | src/main.cpp:2100-2116 | Disconnects the old branch down to the fork: the pending index becomes the replay up to the fork; fails exactly when a block cannot be read |
| Chain.ChainState.ConnectBranch | src/main.cpp:2118-2135 | Connects the new branch above the fork: the pending index becomes its replay and each supply the unspent total; fails exactly when some block cannot be read or does not connect |
| Chain.ChainState.Relink | src/main.cpp:2143-2151 | After a switch the forward links are those of the new branch and null everywhere else |
| Chain.ChainState.SwitchInDatabase | src/main.cpp:2100-2141 | The database part is one batch: on failure the disk and its best block are as before |
| Chain.ChainState.Reorganize | src/main.cpp:2068-2166 | Succeeds exactly when everything between the fork and both ends can be read, connects and commits; then index, links and supplies describe the new branch; else index, best block and links are as before |
| Chain.ChainState.SetBestChainInner | src/main.cpp:2170-2192 | Extends the tip exactly when the block is accepted and the commit goes through; else index, best block and links are as before |
| Chain.ChainState.FirstHeavier | src/main.cpp:2215-2227 | The intermediate block is the lowest of the new branch with more trust than the tip, and the postponed list is exactly what lies above it |
| Chain.ChainState.ConnectPostponed | src/main.cpp:2240-2256 | Connects postponed blocks upwards and stops at the first that fails; reaches the end exactly when every one of them is readable and connects |
| Chain.ChainState.ReorganizeAndConnect | src/main.cpp:2213-2257 | Fails exactly when the switch to the first heavier block fails, leaving index and links as before; else ends attached at or above that block |
| Chain.ChainState.ConnectToBest | src/main.cpp:2194-2257 | The database part of SetBestChain with its exact success condition in both cases, extending and reorganising |
| Chain.ChainState.SetBestChain | src/main.cpp:2194-2311 | Fails exactly when the first switch fails and then changes neither index nor tip nor links; on success the tip is the new block, and the invariant holds if and only if every postponed block connected |
| Chain.ChainState.DetachedDiffers | src/main.cpp:2267-2272 | A tip above the last connected block is never described by the index: the break at the first failed postponed connect is visible |
| Chain.ChainState.InsertIntoIndex | src/main.cpp:2361-2399 | Adds one block to the tree as the child of its parent, with height, branch and accumulated trust, and keeps the invariant |
| Chain.ChainState.AcceptBlock | src/main.cpp:2357-2423 | Exactly what an offered block does: refused blocks change nothing, any other is known afterwards, and the tip moves to it if and only if it has more trust and the node can switch to its first heavier ancestor; the invariant survives, and the index is the one of the tip, if and only if the tip stayed or every postponed block connected |
| Chain.ChainState.Run | src/main.cpp:2357-2423 | Any sequence of offered blocks with any verdicts is a trace of such turns; at its end the index equals the replay of the main chain from just after genesis, with links and supplies to match, if and only if no turn left postponed blocks unconnected; only such a turn ends the run early |
| Chain.ChainState.TurnMeans | src/main.cpp:2357-2423 | Only a new, well-shaped block with a known parent enters, as its child; the tip only moves to it, and only for more trust |
| Chain.ChainState.RunOnlyGains | src/main.cpp:2357-2423 | Along a run known blocks stay known and the tip never loses trust |
| Detached.FirstFails | src/main.cpp:2361-2423 | A block whose commit fails is known afterwards and the tip stays |
| Detached.SecondDetaches | src/main.cpp:2240-2272 | When its child arrives and cannot be read back, the tip moves to the child although its postponed connect failed |
| Detached.TipLeftDetached | src/main.cpp:2240-2272 | A concrete run of two blocks from genesis after which the index is not the one of the tip |
| Chain.ChainState.MainChainIsTipBranch | src/main.h:1037-1040 | In every state that keeps the invariant a forward link is set exactly on the proper ancestors of the tip and inverts the parent link, so IsInMainChain means ancestor or tip |
| Chain.ChainState.SupplyIsUnspentTotal | src/main.cpp:1985-1987 | The recorded money supply of the tip is the total value of the outputs the index holds unspent |
| Chain.ChainState.FindBlockByHeight | src/main.cpp:1271-1287 | For every height up to the best one, whatever is cached, returns the block of the main chain at that height |
| Locator.CBlockLocator.Set | src/main.h:1278-1293 | Lists the branch at gaps of one for the first entries and doubling ones after, then the genesis hash |
| Locator.CBlockLocator.GetBlockIndex | src/main.h:1316-1330 | The first listed hash that names a block of the main chain, else the genesis block |
| Locator.LocatorLength | src/main.h:1278-1293 | A locator of a branch of height h >= 1 has at most 12 + log2(h) entries |
| Locator.SameHashSamePrefix | src/main.h:1316-1330 | Two nodes' branches that carry the same hash agree from there down to genesis |
| Locator.KnownUpToFork | src/main.h:1316-1330 | A block of the sender's branch is in the receiver's main chain exactly up to the fork |
| Locator.SomeForkHeight | src/main.h:1316-1330 | Two nodes with the same genesis block always have a fork |
| Locator.ResolvedNearFork | src/main.h:1316-1330 | The block a locator resolves to is an ancestor of both tips, at most twice as far below the sender's tip as the fork is |
| AddrTables.TouchInv | src/addrman.cpp:370-387 | Changing only times, attempts or services of a record keeps the invariant |
| AddrTables.SwapInv | src/addrman.cpp:105-123 | Swapping two random positions keeps the invariant |
| AddrTables.AnnounceInv | src/addrman.cpp:360-362 | Counting a reference of an untried id below the maximum reaches the state with that reference pending |
| AddrTables.PutInv | src/addrman.cpp:363-365 | Inserting the pending id into a bucket with room restores the invariant |
| AddrTables.UnrefInv | src/addrman.cpp:161-169 | Taking an id out of a bucket and uncounting it leaves at most that id without references |
| AddrTables.EraseInv | src/addrman.cpp:163-167 | Swap with the last position, pop, and forget address and record: the invariant without the id |
| AddrTables.DropRefInv | src/addrman.cpp:159-198 | ShrinkNew's treatment of its victim keeps the invariant and makes one place in the bucket |
| AddrMoves.CreatedInv | src/addrman.cpp:93-103 | A created record is consistent but for lying in no bucket yet |
| AddrMoves.SelectedReorders | src/addrman.cpp:133-146 | The partial shuffle of a tried bucket keeps exactly its members |
| AddrMoves.SelectedIsLeast | src/addrman.cpp:133-146 | The entry the rounds choose is the least recently tried among those drawn |
| AddrMoves.SelectTriedHitsIff | src/addrman.cpp:133-146 | SelectTried returns the entry it chose, whatever the draws, if and only if the bucket has one entry, or two of which the first succeeded longer ago; so never for a full bucket, the only kind it is called on |
| AddrMoves.SelectTriedMisses | src/addrman.cpp:133-146 | Draws, for every bucket of three entries or more, for which the position returned holds another entry than the one chosen |
| AddrMoves.FullBucketMisses | src/addrman.cpp:229-232 | In valid tables every full bucket has such draws |
| AddrMoves.AppendedInv | src/addrman.cpp:221-228 | Moving an entry to a tried bucket with room keeps the invariant |
| AddrMoves.DisplacedInv | src/addrman.cpp:230-258 | Replacing a tried entry, which goes back to a new bucket with room, keeps the invariant |
| AddrMoves.OriginHasRoom | src/addrman.cpp:249-252 | The new bucket an entry came from has room once the entry left |
| AddrMoves.PromotedInv | src/addrman.cpp:203-259 | The whole effect of MakeTried keeps the invariant |
| AddrSteps.OldestOfMeans | src/addrman.cpp:176-187 | The second loop of ShrinkNew finds an oldest of the inspected entries, and one whenever any is inspected |
| AddrSteps.LiesSomewhere | src/addrman.cpp:286-302 | An untried id lies in some new bucket, so the exit of Good_ for none is never taken |
| AddrMan.CAddrMan.constructor | src/addrman.h:392-400 | The empty manager satisfies the invariant |
| AddrMan.CAddrMan.Create | src/addrman.cpp:93-103 | The new record, its address and its random position |
| AddrMan.CAddrMan.SwapInRandom | src/addrman.cpp:105-123 | Exactly the two positions change places, in vRandom and in the records |
| AddrMan.CAddrMan.FindTerrible | src/addrman.cpp:154-172 | The first entry, in id order, that is terrible, if there is one |
| AddrMan.CAddrMan.FindOldest | src/addrman.cpp:176-187 | The oldest of the inspected entries, the first of equals |
| AddrMan.CAddrMan.ChooseVictim | src/addrman.cpp:154-188 | The terrible entry with the least id, else an oldest of four inspected ones; 0 exactly in the first case |
| AddrMan.CAddrMan.ShrinkNew | src/addrman.cpp:149-201 | Drops one reference of its victim, the record with the last one, and keeps the invariant with a reference pending; one place is free afterwards; 0 exactly if the bucket holds a removable entry, spelled out in seconds and tries |
| AddrRules.TerribleInNumbers | src/addrman.cpp:38-56 | Which entries may be removed: not tried in the last minute, and dated over ten minutes ahead, undated, unseen for 30 days, failed three times without success or ten times over seven days after one |
| AddrRules.VictimInNumbers | src/addrman.cpp:154-172 | While a bucket holds such entries, the one with the least id goes |
| AddrRules.OldestInNumbers | src/addrman.cpp:174-198 | Otherwise an inspected entry that was seen least recently goes |
| AddrRules.DroppedLeaves | src/addrman.cpp:159-198 | The victim leaves exactly this bucket, with its last reference also the records |
| AddrRules.GoodStaysGood | src/addrman.cpp:261-283 | An address that was reached is not removable for the next 30 days |
| AddrRules.ThirdFailure | src/addrman.cpp:370-387 | An address never reached becomes removable a minute after its third failed try, not before |
| AddrMan.CAddrMan.ListInNew | src/addrman.cpp:358-366 | Lists the id in the bucket with one reference more, making room if it is full; nothing if it is listed there |
| AddrMan.CAddrMan.Add | src/addrman.cpp:310-368 | Keeps the invariant; new exactly for a routable address with a port that was unknown; refreshes or creates the record and lists it, with every reason that keeps it out |
| AddrRules.RefreshedInNumbers | src/addrman.cpp:323-331 | A known record is redated exactly by news more than an hour newer, a day if over a day old, penalty added; services only grow |
| AddrRules.ListedOnceMoreIff | src/addrman.cpp:333-349 | A known record is listed once more exactly for news of it while untried, in fewer than four buckets, and in none or by luck |
| AddrRules.NewcomerListed | src/addrman.cpp:350-367 | An unknown address gets a fresh record that lies in the new bucket of its address and source, counted once |
| AddrMan.CAddrMan.Attempt | src/addrman.cpp:370-387 | Changes the last try and the attempts of exactly this address and port, if known, and keeps the invariant |
| AddrMan.CAddrMan.Connected | src/addrman.cpp:509-528 | Moves the time of exactly this address and port if it is old enough, and keeps the invariant |
| AddrMan.CAddrMan.GetAddr | src/addrman.cpp:493-507 | 23 percent of the addresses, at most 2500, pairwise distinct and known; only random positions change |
| AddrMan.CAddrMan.SelectTried | src/addrman.cpp:125-147 | The bucket after the drawn swaps and the position the chosen entry was drawn from; always a position of the bucket |
| AddrMan.CAddrMan.LeaveNewBuckets | src/addrman.cpp:207-213 | The entry leaves every new bucket and its reference count reaches 0 |
| AddrMan.CAddrMan.FindBucket | src/addrman.cpp:286-298 | The cyclic search finds a bucket that holds the entry whenever there is one |
| AddrMan.CAddrMan.MakeTried | src/addrman.cpp:203-259 | Keeps the invariant; the entry is appended to its tried bucket, or takes a place whose entry goes to its own new bucket or, when that is full, to the one the entry came from |
| AddrMan.CAddrMan.Good | src/addrman.cpp:261-308 | Marks exactly this address and port, moves it to the tried table unless it is there, and keeps the invariant |
| AddrRules.GoodMoves | src/addrman.cpp:261-308 | The record of a reached address is tried, uncounted, with its times set; no record is lost, and others stay or return to a new bucket |
| AddrRules.PromotedMoves | src/addrman.cpp:203-259 | The tried count grows exactly if the bucket had room |
| AddrMan.CAddrMan.Check | src/addrman.cpp:434-490 | Returns 0 if and only if everything it examines is in order, and always does on a state that keeps the invariant, which it leaves unchanged; elsewhere it may add entries for missing addresses |
| AddrMan.CAddrMan.CheckRecord | src/addrman.cpp:443-459 | 0 exactly when the record's flags, counts, times and places are as they must be; a missing address is added as id 0 |
| AddrMan.CAddrMan.CheckTried | src/addrman.cpp:465-473 | 0 exactly when every entry of the tried buckets is a tried id met once; what is left was not met |
| AddrMan.CAddrMan.CheckNew | src/addrman.cpp:475-484 | 0 exactly when every entry of the new buckets is a new id met at most as often as counted; nothing is left exactly when the counts are met |
| AddrCheck.InvChecked | src/addrman.cpp:434-490 | The invariant implies everything Check_ examines |
| AddrCheck.Bounded | src/addrman.h:123-133 | No bucket exceeds 64 entries, the new table 256 * 64, the tried table 64 * 64, and the records are exactly both |
| AddrMan.CAddrMan.Serialize | src/addrman.h:282-327 | Writes the new records and the tried records in id order and, for each bucket, the positions of its members |
| AddrMan.CAddrMan.Unserialize | src/addrman.h:328-388 | Leaves exactly the tables the file format prescribes, for every file of at most 256 lists, other bucket counts, full tried buckets and indices that name no record included; they are valid if and only if the file is sane |
| AddrLoad.LoadsTables | src/addrman.h:328-388 | What a file is read into, in closed form: its records without the tried ones beyond the first 64 of a bucket, the references of the first four listings, or the own bucket when lists are ignored |
| AddrLoad.GiversCount | src/addrman.h:371-385 | As many lists as references name a record if and only if no list gives it two |
| AddrLoad.LoadedValidIff | src/addrman.h:328-388 | Reading a file leaves valid tables if and only if lists name new records (ignored ones any record), times are sane, no two kept records share an address, no bucket gets more than 64 records, and each new record is listed and never twice by one list |
| AddrLoad.CrowdedBucket | src/addrman.h:340-347 | A concrete file, fine otherwise, that puts 65 records into one new bucket, which the rebuilding branch fills without looking at its size |
| AddrReload.ReloadRenames | src/addrman.h:258-390 | Reading back what valid tables wrote loses no entry and gives the same tables up to a renaming of the ids, random order, order inside tried buckets and last tries; the result is valid |
| AddrReload.RenamedInv | src/addrman.h:258-390 | A renaming of the ids keeps the invariant |
| AddrReload.RoomForNext | src/addrman.h:352-369 | While valid tables are read back, the tried bucket of the next tried record is never full |
| AddrReload.EntryStage | src/addrman.h:371-387 | Every index of a written bucket list is used: its record has fewer than four references then |
| Numerals.NumeralOfNum | src/base58.cpp:127-137 | A digit string without leading zeros is the numeral of the number it denotes |
| Numerals.StripIsNumeral | src/base58.cpp:127-137 | Skipping leading zeros of a digit string gives the numeral of its number |
| Base58.BufferFits | src/base58.cpp:113-114 | 256^len <= 58^(len * 138 / 100 + 1) for every len, from 58^11 >= 256^8 |
| Base58.MulAdd | src/base58.cpp:117-124 | The inner loop multiplies the buffer by 256 and adds the byte, and carries nothing out |
| Base58.EncodeBase58 | src/base58.cpp:106-138 | For every byte string: a 1 for each leading zero byte, then the digits of the number it denotes |
| Base58.FillBuffer | src/base58.cpp:113-126 | The buffer ends up denoting the number of the bytes |
| Base58.BufferText | src/base58.cpp:127-137 | The text of the buffer is the shortest base-58 form of its number |
| Base58.SkipFront | src/base58.cpp:28-36 | Leading spaces, then leading 1s are skipped |
| Base58.ReadNumber | src/base58.cpp:37-53 | Reads the number of the digits up to the end or to trailing spaces, and fails on anything else |
| Base58.CountOnes | src/base58.cpp:62-66 | The second count of 1s, taken after they were skipped |
| Base58.DecodeBase58 | src/base58.cpp:22-70 | Fails exactly when something other than spaces follows the digits; else gives the shortest byte form of their number |
| Base58.DecodeEncode | src/base58.cpp:22-70 | Decoding an encoded byte string gives it back without its leading zero bytes |
| Base58.RoundTripIff | src/base58.cpp:62-66 | The live decoder inverts the encoder exactly on the strings that do not start with a zero byte |
| Base58.EncodeDecode | src/base58.cpp:22-70 | Encoding what was decoded gives back the digits that were read |
| Base58.EncodeBase58Check | src/base58.cpp:148-154 | The encoding of the bytes followed by four bytes of their hash |
| Base58.DecodeBase58Check | src/base58.cpp:156-172 | Succeeds exactly when the last four bytes are those of the hash of the rest, which it returns |
| Base58.CheckRoundTripIff | src/base58.cpp:148-172 | Checksummed text reads back exactly if and only if what was encoded does not start with a zero byte |
| Base58.CBase58Data.ToString | src/base58.cpp:214-218 | The checksummed text of version and data |
| Base58.CBase58Data.SetString | src/base58.cpp:194-208 | Splits what the text holds, and reads back what ToString wrote for a version that does not start with zero |
| Base58.PrefixedRoundTrip | src/chainparams.cpp:91-96 | With every prefix of the main chain, and of the test chain at lines 152-157, checksummed text reads back exactly |
| Merkle.CBlock.BuildMerkleTree | src/main.h:751-768 | The flat vector is all levels of the recursive tree, odd levels pairing the last node with itself, and the result is its root, 0 for no transactions |
| Merkle.CBlock.AppendLevel | src/main.h:759-765 | One round appends exactly the level above |
| Merkle.CBlock.GetMerkleBranch | src/main.h:770-784 | The sibling of each node on the way from the index to the root |
| Merkle.CBlock.CheckMerkleBranch | src/main.h:786-799 | Climbs from the hash along the branch, siblings left or right by the bits of the index, negative ones in two's complement; 0 for index -1 |
| Merkle.FlatIsTree | src/main.h:751-768 | Every entry of the flat vector is the node of the recursive tree at that level and place |
| Merkle.RootIsTop | src/main.h:751-768 | The root is the only node of the top level |
| Merkle.SmallRoots | src/main.h:751-768 | The roots of up to four transactions written out |
| Merkle.BranchReachesRoot | src/main.h:770-799 | Every leaf climbs its own branch to the root |
| Merkle.BranchVerifiesIff | src/main.h:786-799 | With an injective pair hash, a branch and index verify a hash if and only if it is that leaf |
| Merkle.RootInjective | src/main.h:751-768 | With an injective pair hash, lists of equal length with equal roots are equal |
| Merkle.SameRootIff | src/main.h:751-768 | With an injective pair hash, two lists of any lengths have the same root if and only if the full row of the one with fewer levels (a last node paired with itself counted twice) is that of the other's level of the same depth |
| Merkle.RepeatedLeafSameRoot | src/main.h:751-768 | Three transactions, and the same with the last one repeated, have the same root |
| Framing.FeedSplit | src/net.cpp:658-684 | Receiving two chunks one after the other is receiving them together |
| Framing.WireReceived | src/net.cpp:658-731 | The frames of any messages within the size limit come out as the same messages in the same order |
| Framing.PartReceived | src/net.cpp:658-731 | Any first part of the wire yields a first part of the messages and never fails |
| Framing.FrameParses | src/protocol.h:25-57 | The header of a frame parses to its start, command, size and checksum |
| Framing.FrameBytes | src/net.h:614-640 | The 24 header bytes of a frame one by one |
| Framing.OversizeFails | src/net.cpp:686-715 | A header that announces more than 0x02000000 bytes fails for good |
| Net.CNetMessage.readHeader | src/net.cpp:686-715 | Takes what fits of the header, parses it when full, refuses it exactly when it announces more than MAX_SIZE |
| Net.CNetMessage.readData | src/net.cpp:717-731 | Takes what fits of the data and never more than announced |
| Net.CNode.ReceiveMsgBytes | src/net.cpp:658-684 | For every chunk the messages afterwards are those of the byte-at-a-time receiver; false exactly when that one fails |
| Net.CNode.BeginMessage | src/net.h:595-601 | A header without size and checksum |
| Net.CNode.EndMessage | src/net.h:614-651 | The message of the stream joins the ended ones unless dropped or empty, its frame the queue; sends at once exactly if nothing was queued, and then as many bytes of the frame as the socket takes |
| Net.CNode.FillHeader | src/net.h:629-639 | Writing size and checksum makes the stream the frame of its message |
| Net.CNode.Enqueue | src/net.h:642-644 | The frame joins the end of the queue and nSendSize grows by its size |
| Net.CNode.SocketSendData | src/net.cpp:742-783 | Whatever send answers, bytes sent and bytes pending stay the frames of the ended messages, nSendSize the size of the queue, and both asserts hold; how many bytes go out, whether the connection breaks, and that generous sends empty the queue |
| Net.CNode.SendFront | src/net.cpp:748-776 | One send takes what the socket accepts of the first message; the queue advances exactly when the message is complete |
| Net.CNode.Delivered | src/net.cpp:658-783 | End to end: a receiver of the bytes sent so far holds a first part of the ended messages, all of them once the queue is empty |
| Link.CLink.Take | src/net.cpp:658-783 | One step of two connected nodes, posting, sending or delivering any number of bytes, keeps what was received in step with what was sent; the receiver never refuses anything |
| Link.CLink.InOrder | src/net.cpp:658-783 | In every state of the connection the messages received are a first part of those ended, all of them once everything was sent and delivered |
| Link.CLink.Run | src/net.cpp:658-783 | After any interleaving of posts, sends with any answers and deliveries in any chunks the receiver holds a first part of the messages posted, in their order, all of them once everything was sent and delivered |
| Miner.PopHighest | src/miner.cpp:254-265 | Takes off an entry that the comparer puts before no other: none left pays more per kilobyte, or has a higher priority before the turn to fees, ties broken by the other of the two |
| Miner.Examine | src/miner.cpp:185-236 | Waits for exactly the parents of inputs that are not read from the database, ranks the transaction by aged value per byte and by fee per kilobyte, and gives up exactly if an input connects to nothing |
| Miner.Collect | src/miner.cpp:172-245 | Every eligible memory-pool transaction is queued with nothing to wait for, or waits for its unconfirmed parents and is listed under each, or is skipped for an input that connects to nothing |
| Miner.AddDependers | src/miner.cpp:330-346 | Everyone who waited for the added transaction is crossed off, and those who waited for it alone join the queue, once |
| Miner.TryAdd | src/miner.cpp:295-322 | Adds the transaction if and only if it fits the signature-operation limit and connects after those chosen, with its fees, size and index changes; the built block stays within all limits |
| Miner.ReadyInRange | src/miner.cpp:295-301 | A queued transaction never fails to be fetched for a missing dependency, if the pool holds only unconfirmed transactions |
| Miner.SelectTransactions | src/miner.cpp:247-347 | Terminates and is a sequence of rounds: each takes a highest ready transaction (not taken yet, every parent in the database or chosen) and adds it exactly if nothing passes it over and it joins; it ends when none is ready; the block is built in connecting order within the limits with the fees of its transactions; if the pool holds only unconfirmed transactions, no examined one lacks a parent |
| Miner.QueueIsReady | src/miner.cpp:247-265 | The queue holds exactly the ready transactions, ranked as they should be |
| Miner.TakenOnce | src/miner.cpp:252-265 | No transaction is taken twice |
| Miner.ChosenExactly | src/miner.cpp:267-322 | A transaction is in the block if and only if a round took it, did not pass it over, and it joined |
| Miner.HighestInNumbers | src/miner.cpp:81-102 | Each round takes a ready transaction that pays the most per kilobyte, of equals one of highest priority; before the turn to fees the other way round |
| Miner.TurnInNumbers | src/miner.cpp:285-294 | The order turns to fees once, in a round that would reach the priority size or whose priority is below 57600000 |
| Miner.AddedInNumbers | src/miner.cpp:267-322 | A round adds its transaction if and only if the block stays below its size and 60000 signature operations, it is not from the future, pays enough or fits the minimum size once fees rule, and it connects |
| Miner.SizesInNumbers | src/miner.cpp:140-156 | The sizes asked for are clamped to 1000 .. 2999000 bytes, the other two to the first |
| Miner.RankedByFee | src/miner.cpp:210-236 | The fee rate that ranks a ready transaction is the fee it then pays, a thousandfold per byte |
| Miner.PriorityOfOne | src/miner.cpp:225-232 | The priority of one confirmed input is its value times its depth per byte |
| Miner.NewBlockAccepted | src/miner.cpp:128-370 | The assembled proof-of-work block, with its coinbase in front and stored where its position says, is accepted by every check of ConnectBlock with the reported fees if and only if its reward is an amount of money that can exist |
| Miner.BuiltMeans | src/miner.cpp:303-322 | The reported fees are the sum of value in minus value out over the chosen transactions |
| Assembly.ParentsFirst | src/miner.cpp:295-318 | Each chosen transaction stands after all its parents that are not in the database |
| Assembly.SpentOnce | src/miner.cpp:295-318 | No two inputs of chosen transactions spend the same outpoint |
| Assembly.FeesAreSum | src/miner.cpp:303-322 | The running fee total is the sum over the transactions |
| Assembly.AssembledConnects | src/miner.cpp:295-318 | What connects at the memory-pool position connects at its place in the block, with the same fees |
| StakeModifier.GetSelectionInterval | src/kernel.cpp:47-53 | The sum of all 64 sections |
| StakeModifier.SectionsGrow | src/kernel.cpp:40-44 | Sections never get shorter; the first is a third of the interval, the last the whole interval |
| StakeModifier.GetLastStakeModifier | src/kernel.cpp:26-37 | The last block that generated a modifier; fails exactly when there is none, an empty branch included |
| StakeModifier.WalkBack | src/kernel.cpp:134-143 | Exactly the blocks from the tip down to the first one before the start |
| StakeModifier.Sort | src/kernel.cpp:143-144 | The candidates in order of time, then hash |
| StakeModifier.SelectBlockFromCandidates | src/kernel.cpp:58-97 | Selects exactly when a candidate is unselected: the least selection hash of those up to the stop time, the earliest of equals; with none up to the stop time the earliest unselected |
| StakeModifier.ChosenInNumbers | src/kernel.cpp:58-97 | The choice against every free candidate up to the stop time, proof-of-stake hashes divided by 2^32, of equals the earlier |
| StakeModifier.StakeFavoured | src/kernel.cpp:78-82 | A free proof-of-stake candidate is never passed over for a proof-of-work block that hashes to 2^224 or more |
| StakeModifier.NewIntervalIff | src/kernel.cpp:127-128 | A modifier is due exactly when a multiple of the interval has passed since the last one |
| StakeModifier.SomeFree | src/kernel.cpp:155-156 | With fewer picks than candidates one can be selected, so the exit for none is never taken |
| StakeModifier.PicksDistinct | src/kernel.cpp:146-162 | The picks of the rounds are pairwise distinct blocks |
| StakeModifier.NewBit | src/kernel.cpp:158 | Writing bit r of a number below 2^r adds exactly that bit |
| StakeModifier.OldBit | src/kernel.cpp:158 | Writing bit r leaves the lower bits as they are |
| StakeModifier.RunRounds | src/kernel.cpp:146-162 | min(64, candidates) rounds, each with its own choice; bit r of the result is the entropy bit of round r's block and there are no further bits |
| StakeModifier.ComputeNextStakeModifier | src/kernel.cpp:112-191 | The current modifier within its interval, else a new one by rounds over the candidates of the selection interval; fails exactly when no block generated a modifier |
| Compact.MpiRoundTrip | src/bignum.h:294-319 | The sign-and-magnitude bytes of a number give the number back |
| Compact.GetCompact | src/bignum.h:333-344 | The size and the first three bytes |
| Compact.SetCompact | src/bignum.h:321-331 | The number whose bytes are the given ones followed by zeros |
| Compact.CompactVectors | src/bignum.h:333-344 | Some compact forms written out, sign and padding included |
| Compact.CompactTruncates | src/bignum.h:321-344 | For a positive number of fewer than 256 bytes, going through the compact form cuts it after its first three bytes |
| Compact.TruncationError | src/bignum.h:321-344 | The cut of a positive number is positive, at most the number, and loses less than one part in 2^15 |
| Compact.TruncatedCanonical | src/bignum.h:321-344 | The compact form of the cut number is that of the number |
| Compact.TruncatedMonotone | src/bignum.h:321-344 | The cut keeps the order of positive numbers |
| Compact.SizeBounds | src/bignum.h:333-344 | The size brackets the number between powers of 256 |
| Retarget.GetLastBlockIndex | src/main.cpp:1395-1400 | The last block of the kind, or the root |
| Retarget.GetNextTargetRequired | src/main.cpp:1402-1435 | The limit for the first blocks of a kind, else the moved target of the last one by the spacing to the one before |
| Retarget.InRange | src/main.cpp:1431-1434 | The result names a target in (0, limit] whatever the old bits and the spacing |
| Retarget.UnchangedOnTarget | src/main.cpp:1417-1434 | At the target spacing, or a negative one, canonical bits do not change |
| Retarget.ShrinksSlowly | src/main.cpp:1425-1429 | Before the cut a target shrinks to no less than 15/17 of itself, up to the integer division |
| Retarget.ScaledInNumbers | src/main.cpp:1425-1429 | A target is multiplied by 1350 and twice the spacing and divided by 1530; 90 seconds leave it |
| Retarget.MonotoneIff | src/main.cpp:1417-1434 | A canonical target in range moves monotonely with the spacing if and only if it is not 1 |
| Retarget.LimitsFit | src/chainparams.cpp:67 | The limits of both kinds, below 256^30, have few enough bytes for the compact form |
| InstantX.CountSignatures | src/instantx.cpp:562-578 | The number of votes for the lock's own height, -1 without a height |
| InstantX.OneVoteEach | src/instantx.cpp:127-141 | In every state the handlers reach no lock holds two votes from one primenode |
| InstantX.CompleteHasQuorum | src/instantx.cpp:301-330 | A complete lock has at least ten different voters, all in the top fifteen at its height |
| InstantX.QuorumsOverlap | src/main.h:29-30 | With ranks given once from 1 up, any two complete locks at one height share at least five voters |
| InstantX.CInstantX.CreateNewLock | src/instantx.cpp:218-252 | Sets the height four above the first input's block in a new or existing lock, and does nothing when an input is too new; no vote changes |
| InstantX.CInstantX.DoConsensusVote | src/instantx.cpp:256-298 | Remembers its own vote exactly when it is a signing primenode of the top |
| InstantX.CInstantX.CheckForConflictingLocks | src/instantx.cpp:402-423 | Finds exactly an input locked for another transaction; the first one ends the time of both locks now, and votes and heights of all locks stay |
| InstantX.CancelsBoth | src/instantx.cpp:404-419 | Two conflicting locks cancel each other out: both expire now and no other lock changes; without a conflict none does |
| InstantX.CInstantX.ProcessLockRequest | src/instantx.cpp:40-126 | Keeps one vote per primenode and lock; a known or refused request changes nothing; an accepted one gets its lock and height, is remembered and voted on; a rejected one locks its free inputs and, if its lock is complete, cancels conflicting ones |
| InstantX.CInstantX.ProcessVote | src/instantx.cpp:127-170 | Keeps one vote per primenode and lock; a known hash is dropped, a new vote joins its lock exactly when it is from the top and signed, and a vote that completes the lock locks the inputs or cancels conflicting locks |
| InstantX.CInstantX.OnComplete | src/instantx.cpp:363-383 | A complete lock takes its request, or makes up an empty one; if an input is locked for another transaction both locks end, otherwise its free inputs are locked |
| InstantX.CInstantX.CleanTransactionLocksList | src/instantx.cpp:440-469 | A lock survives if and only if its time is not over, unchanged; the others go, the requested ones with the hashes of their votes, their requests and inputs; no lock can take a second vote of a primenode afterwards |
| InstantX.MadeLockLives | src/instantx.cpp:229-235 | A lock made at a time survives every cleaning up to 1200 seconds later and none after |
| InstantX.EndKept | src/instantx.cpp:236-239 | Naming its height or adding votes does not move the end of a lock |
| InstantX.CancelledGo | src/instantx.cpp:411-419 | Two locks that cancelled each other are gone after any later cleaning; the others live as long as before |
| InstantX.LockInputsMeans | src/instantx.cpp:370-377 | Afterwards every input is locked, for this transaction if it was free |
| InstantX.LockRules | src/instantx.cpp:218-252 | Votes count from the top fifteen, a lock is complete with ten votes for its height, inputs must be nine blocks old, the height is four above the first input's block |
| InstantX.VoteHashMeans | src/instantx.cpp:471-474 | A vote is known by the sum of outpoint and transaction: not by its height, and not by the outpoint alone |
| InstantX.CInstantX.RemoveLock | src/instantx.cpp:447-463 | A requested lock takes the hashes of its votes, its request and its inputs with it; another one leaves the hashes |
| LockedPages.TouchesIff | src/allocators.h:48-51 | The pages the loops run over are exactly those on which a byte of the range lies |
| LockedPages.LockedPageManager.LockRange | src/allocators.h:43-64 | Each page's count stays the number of live ranges that touch it and the held pages those with a positive count, now with this range |
| LockedPages.LockedPageManager.UnlockRange | src/allocators.h:67-87 | The same without one occurrence of this live range; the assert that the page is counted holds |
| LockedPages.LockedPageManager.GetLockedPageCount | src/allocators.h:90-94 | The number of held pages, 0 when no range is live |

## Left out

- Memory-pool acceptance: FetchInputs and ConnectInputs are modelled in the modes for blocks and for the assembler; the mode for new pool transactions would add a simpler case.
- ConnectBlock with fJustCheck, the address index, wallet synchronisation and resurrecting transactions after a reorganisation.
- The on-disk block index record (hashNext): only forward links in memory are modelled; CheckBlock beyond shape, duplicates and sums is one verdict per block.
- AcceptBlock: blocks that repeat a transaction hash of their own branch are not offered, because their undo is not exact (UndoRestoresIffFresh); a run passes them by.
- InsertIntoIndex: such blocks, which AddToBlockIndex takes, are not inserted.
- The branch of SetBestChain for an empty chain is the constructor; the best height and trust follow the tip.
- IsInitialBlockDownload, checkpoints, stake kernel checks and difficulty checks on acceptance: part of the verdicts.
- Ages, priorities of equal weight and heap layout in the assembler: a highest entry is taken, which one of equals is open.
- Examine: not for a pool transaction that misses an input after one it has to wait for, where the code goes on using the waiting record it removed, nor for one whose parent in the pool lacks the output, where it reads beyond the parent's outputs.
- Collect: the same.
- SelectTransactions: the same.
- Select_ and GetChance of the address manager: probabilistic loops over floating-point chances that only read.
- The byte encoding of the address file: its fields, lists and counts are modelled, files shorter than announced are not.
- Unserialize: at most 256 bucket lists, since beyond that the code indexes outside its vectors; negative indices are not modelled.
- CAddrMan random draws: parameters within the range of the call; a file's bucket key is an opaque pair of hash functions.
- CMessageHeader: the start and command bytes are carried, not checked; ProcessMessages is not part of this model.
- SendResult: each answer of send is used for one queued message, as the loop does; the closing of the socket is a flag.
- The sort of the stake modifier's candidates is an insertion sort in place of std::sort.
- InstantX relay limits for votes without a known request (mapUnknownVotes), sporks and the disconnecting of blocks for rejected requests, which works on an unset index pointer.
- LockRange: not for a range on the last page of the address space, where the next address wraps to 0 and the loop of the code never ends.
- UnlockRange: the same.
- LockedPages: failing calls to lock a page; concurrency is one call at a time.
- SHA-256, signatures, scripts, sockets, threads, block files, the wallet, the user interface and RPC.
