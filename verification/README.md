# EOS EVM node: verified model

The EOS EVM node turns a chain of Antelope ("native") blocks, which may fork, into an EVM
chain with one block per second. This project models the parts of the node that must get
forks, finality and restarts right, and proves what they are for. `dafny verify
dfyconfig.toml` checks all of it.

* **Block conversion.** `Conversion` says what one received native block does to the two
  cached lists, the recorded irreversible EVM number and the published blocks (`Step`).
  `Converters.Converter` is the plugin itself, a class that changes the lists in place with
  the loops of the source, and is proved to compute `Step` and to keep `Valid()`. Everything
  else about it is proved of `Step` and of runs:
  * `Grouping`, `RollbackProofs`, `Runs`: in every reachable state the cached EVM blocks'
    numbers, transactions, `prev_randao` and `irreversible` are a left-to-right fold over the
    surviving native chain (`Tracks`), so they do not depend on the forks on the way.
  * `Headers`, `FoldRuns`, `Settings`: the complete blocks equal a plain fold too, exactly as
    long as no fork drops a header change made inside the fork point's own EVM block
    (`Neutral`); under that condition the converter raises an exception exactly when the fold
    does. `Witness` gives two accepted runs with the same surviving chain and different
    headers.
  * `Acceptance`: which actions, native blocks and whole runs are accepted, decided on the
    actions and the native chain alone, and which exception is raised otherwise.
  * `Uniformity`, `Marking`: all transactions of an EVM block were added under its version, fee,
    prices and consensus index, after any forks.
  * `Output`, `PublishedFolds`, `Finality`: a store that keeps the last published block of each
    number is one linked chain, and holds the fold's closed blocks; final EVM blocks are never
    published again or changed, and with a source that obeys finality only the contents of a
    block can raise an exception.
* **Feeding and restarting.** `ShipReceiver` orders action traces and decides what a native
  block may mix; `Reconnect` shows that resuming after a disconnect follows the source's
  chain, forks met meanwhile included, as if the connection had never been lost; `Engine`,
  `Restart` and `StoreRestart` show that stopping at any point, choosing a stored block and
  feeding what the receiver asks for gives the same EVM chain.
* **Websocket proxy.** `BlockMonitor` follows a remote chain with a window of reversible
  blocks, `SubscriptionServer` and `LogLedger` deliver and retract logs, `BatchMerge` splits
  and merges JSON-RPC batches.
* **Names.** `AntelopeName` is the encoding of the contract's name kept in the genesis nonce.

What stands for code outside the repository is a parameter. `Env` holds hashes, the
transaction codec, the transactions root, the ABI readers and the header rules as arbitrary
functions; a law about them is a hypothesis of the lemma that needs it (`CollisionFree`,
`Canonical`). A header's nonce appears as the version it encodes. Reads that C++ leaves
undefined are the error `Undefined`.

What the source of native blocks guarantees is written out as `Admissible` (ids carry block
numbers, blocks follow the block they name, timestamps lie after genesis and within 32-bit
EVM numbers, no competitor for the first block after the start block), `FromSource` (a
finality-obeying source, with an irreversible first block) and, for a new connection,
`SourceChain` (any chain with the same blocks at and below the last reported irreversible
number). `SourceRunAdmissible` derives the first from the second, `NewBlocks` the second from
the third.

Where code and expectation differ:

* A fork restores transactions, `prev_randao` and `irreversible` of the EVM block it reopens,
  but not version, base fee, gas prices or consensus index. `RollbackRefinesExactly` says
  exactly when that matters, `HeaderDependsOnHistory` shows that it does.
* Removing a dropped transaction compares the raw bytes with a re-encoding without the
  EIP-2718 string wrapping, while decoding accepts both forms. A dropped transaction that
  arrived wrapped therefore stops the node; `RollbackTracks` and `UndoInverse` state the exact
  condition, `WrappedStopsFork` is such a run.
* Two matching traces with the same sequence key keep only the later one (`TraceOrder`); two
  `evmtx` of one creator share a key (`SameCreatorLosesOne`). A native block whose previous
  transaction held only a config reads a missing last action (`UndefinedExactly`,
  `ConfigAloneThenEvmTx`).
* The executing thread stores the converter's current irreversible number, which may be ahead
  of the blocks executed so far. `RestartFromStore` needs that no published block at or below
  the number searched from still waits to be executed (`Keeps`).

## Model

| member | source | states |
|---|---|---|
| Grouping.UndoInverse | src/block_conversion_plugin.cpp:236-255 | the reverse-action undo is the inverse of appending the same actions, and with collision-free hashes it is accepted if and only if every action's bytes equal its transaction's re-encoding |
| Grouping.AppendBody | src/block_conversion_plugin.cpp:293-382 | adding a native block to the open EVM block appends exactly its decoded transactions in order, sets the upper bound, and keeps number and parent |
| Grouping.TailShape | src/block_conversion_plugin.cpp:280-288 | extension closes the open block unchanged and adds consecutively numbered empty blocks without native id, up to the wanted number and no further |
| Grouping.ExpectedBelow | src/block_conversion_plugin.cpp:213-216 | native blocks mapped above an EVM number do not influence that EVM block, which is why popping is enough for the blocks above the fork point |
| RollbackProofs.PopEvmShape | src/block_conversion_plugin.cpp:212-216 | popping EVM blocks at a fork leaves exactly those up to the fork point's number |
| RollbackProofs.UndoLast | src/block_conversion_plugin.cpp:221-256 | undoing the last native block turns the fork point's EVM block into the one the chain without it determines; it fails only on a transaction that is not canonical |
| RollbackProofs.PopNativeExact | src/block_conversion_plugin.cpp:218-261 | the popping loop ends at the fork point with the state of the cut chain, and succeeds if and only if the dropped blocks sharing its EVM block are canonical |
| RollbackProofs.RollbackTracks | src/block_conversion_plugin.cpp:203-274 | a fork to any cached block after the start block never lacks its EVM block, restores the invariant for the cut chain, and can only fail on a non-canonical transaction, exactly then |
| Runs.UpperBoundAt | src/block_conversion_plugin.cpp:386-390 | in a list of strictly increasing numbers the search separates exactly the blocks at or below the irreversible number |
| Runs.PruneAt | src/block_conversion_plugin.cpp:394-407 | the two unguarded pop-front loops never empty a list, keep the irreversible block and all after it, and keep the front EVM number at or below the number of the front native block |
| Runs.PruneTracks | src/block_conversion_plugin.cpp:384-411 | pruning keeps the invariant, records the number below the irreversible native block's EVM block, and changes nothing when no cached block is irreversible |
| Runs.GrowTracks | src/block_conversion_plugin.cpp:277-382 | a linking block turns the state of a chain into the state of the chain with it |
| Runs.StepCases | src/block_conversion_plugin.cpp:190-208 | what the handler decides from its cache (links, duplicate, fork, unknown) is decided by the block's place in the whole surviving chain; a fork point is cached and never the start block |
| Runs.StepTracks | src/block_conversion_plugin.cpp:178-412 | one accepted block keeps the grouping invariant, for the surviving chain it leaves |
| Runs.RunTracks | src/block_conversion_plugin.cpp:178-412 | in every reachable state each cached EVM block holds exactly the transactions of the native blocks mapped to its number, in order, with the last one's id and irreversibility |
| Runs.HistoryIndependence | src/block_conversion_plugin.cpp:178-412 | two accepted runs ending in the same native chain hold the same EVM numbers, transactions, prev_randao and irreversible |
| Output.TailPublishes | src/block_conversion_plugin.cpp:283-288 | each published block carries the root of its own transactions and names the latest published block of the number below as its parent; the first is the open block with nothing but the root changed, and the latest block of every lower number stays |
| Output.TailOpens | src/block_conversion_plugin.cpp:113-146 | every block of an extension after the first is empty, without native id, one number and one parent hash further, with the time of its number, the version in force, the header that its version and its parent's base fee call for, and its parent's prices and consensus index |
| Output.StepIntegrity | src/block_conversion_plugin.cpp:130-131 | any accepted block keeps parent hashes equal to the hash of the predecessor's final header, with each closed cached block the latest published one of its number |
| Output.RunIntegrity | src/block_conversion_plugin.cpp:213-288 | over a whole run, across forks and reopened blocks, every published block carries the root of its transactions and its parent is the block of the number below that was published last; the closed cached blocks are the latest published ones, and output is only appended to |
| Output.StoreLinked | src/block_conversion_plugin.cpp:283-288 | a store that keeps the last published block of each number is, up to the last published number, one gapless parent-linked chain |
| Uniformity.ApplyActionKey | src/block_conversion_plugin.cpp:313-380 | an accepted action agrees with the block's version, base fee and prices together with all earlier ones, and a block with transactions keeps them |
| Uniformity.AppendKey | src/block_conversion_plugin.cpp:291-381 | the same for a whole native block; a config is only accepted before any action |
| Uniformity.StepUniform | src/block_conversion_plugin.cpp:178-382 | linking, repeating and forking keep version, fee and prices of every EVM block in agreement with its actions, and versions rising |
| Uniformity.RunUniform | src/block_conversion_plugin.cpp:113-122 | in every reachable state all actions of an EVM block after the start block carry its version, fee and prices, configs precede actions, and versions never fall from a non-genesis block to its child |
| Marking.AppendUnderOne | src/block_conversion_plugin.cpp:292-381 | adding a native block to an EVM block whose transactions were all added under its current version, fee, prices and consensus index keeps that so |
| Marking.SharedUnderOne | src/block_conversion_plugin.cpp:229-255 | undoing a dropped native block removes the marks of the removed transactions only, and the remaining ones still name the block's current settings |
| Marking.RunUnderOne | src/block_conversion_plugin.cpp:178-412 | in every reachable state, non-neutral forks included, every transaction of an EVM block after the start block was added under the block's current version, base fee, gas prices and consensus index |
| Headers.AppendDressed | src/block_conversion_plugin.cpp:293-382 | adding transactions neither reads nor writes the stale transactions root or the irreversibility flag |
| Headers.AcceptRefines | src/block_conversion_plugin.cpp:277-411 | a linking block is accepted if and only if the plain fold accepts it, with the fold's complete blocks |
| Headers.NeutralExact | src/block_conversion_plugin.cpp:293-380 | native blocks leave the header of the EVM block they were added to as it was if and only if it had transactions, or the last config is the one in force and the first action agrees with the header |
| Headers.FoldExtends | src/block_conversion_plugin.cpp:277-382 | the fold of a chain is the fold of a prefix whose open block received the native blocks sharing it, followed by later blocks |
| Headers.RollbackRefinesExactly | src/block_conversion_plugin.cpp:213-274 | after a rollback the complete EVM blocks equal the fold of the cut chain if and only if the dropped blocks in the fork point's EVM block are neutral |
| FoldRuns.StepRefines | src/block_conversion_plugin.cpp:178-412 | one benign step raises an exception if and only if the fold over the new surviving chain does, and otherwise yields the fold's complete blocks |
| FoldRuns.RunRefines | src/block_conversion_plugin.cpp:178-412 | a benign run fails if and only if the fold rejects some surviving chain on the way; else it ends with the fold's complete blocks, headers and hashes included |
| FoldRuns.CompleteHistoryIndependence | src/block_conversion_plugin.cpp:178-412 | two benign runs ending in the same native chain hold identical closed EVM blocks and open ones equal up to the root |
| Acceptance.ActionAccepted | src/block_conversion_plugin.cpp:313-380 | an action is accepted if and only if its transaction decodes, its variant fits its version, and, in an empty block, the version does not fall or, in a block with transactions, version and the fee or prices in force are its own; then it appends that transaction and sets version, base fee and prices as its version says |
| Acceptance.ActionRefused | src/block_conversion_plugin.cpp:313-380 | which exception an action raises: unreadable data, a lower version, a higher one in a block with transactions, other prices or another fee there, each exactly when |
| Acceptance.AppendAccepted | src/block_conversion_plugin.cpp:290-382 | a native block is accepted if and only if its config, if any, is readable and finds the EVM block empty, all its actions are sound and ask for the same version and terms, and these fit the block |
| Acceptance.GrowAccepted | src/block_conversion_plugin.cpp:277-382 | the same with the extension before it: a block of a later second finds an empty EVM block of the version in force, whatever the open block held |
| Acceptance.FoldAccepts | src/block_conversion_plugin.cpp:277-382 | the fold over a native chain accepts one more block if and only if it fits that chain: no config after actions of its second, all actions of one second under the same terms, no version below that of the last action |
| Acceptance.RunAccepted | src/block_conversion_plugin.cpp:178-412 | a benign run ends in an exception if and only if some received block does not fit the native chain it goes to, said of actions and native blocks alone |
| PublishedFolds.PublishedIsFold | src/block_conversion_plugin.cpp:283-288 | after a benign run the latest published block of every number from the start block's up to below the open one is that of the fold over the surviving chain |
| PublishedFolds.FinalOutput | src/block_conversion_plugin.cpp:391-411 | the latest published blocks at or below the recorded number stay the same through every later run of an obedient source |
| Settings.OpenSettings | src/block_conversion_plugin.cpp:113-144 | version, gas prices and consensus index of an EVM block are the latest the native chain announced, across any number of empty EVM blocks, starting from the configured version after genesis |
| Witness.HeaderDependsOnHistory | src/block_conversion_plugin.cpp:213-274 | two concrete accepted runs end in the same native chain with different versions of the open EVM block: without neutrality the header claim is false |
| Witness.WrappedStopsFork | src/block_conversion_plugin.cpp:237-252 | a concrete admissible run accepts a transaction wrapped in a string, and the fork that drops it ends in the removal exception |
| Finality.SourceAdmissible | src/block_conversion_plugin.cpp:190-208 | a source that never branches below its reported irreversible number, with an irreversible first block, never competes with the first block after the start block |
| Finality.SourceRunAdmissible | src/block_conversion_plugin.cpp:190-208 | every accepted run from such a source satisfies the hypotheses of the run theorems |
| Finality.SourceKnown | src/block_conversion_plugin.cpp:195-208 | every block of such a source links, repeats a cached block, or forks at a cached block: the fork block is always still cached |
| Finality.PruneFinal | src/block_conversion_plugin.cpp:384-411 | pruning drops only blocks below the reported number and never lowers the recorded EVM number |
| Finality.StepFinal | src/block_conversion_plugin.cpp:391-411 | one block never lowers the recorded EVM number h, publishes nothing numbered h or below, and leaves every block numbered h or below as it is |
| Finality.RunFinal | src/block_conversion_plugin.cpp:391-411 | the same over a whole run: once the recorded number is h, no EVM block numbered h or below is published again or changed |
| Finality.StepProgress | src/block_conversion_plugin.cpp:203-274 | with canonical transactions the fork path raises no exception; only the received block's contents can be refused |
| Finality.RunProgress | src/block_conversion_plugin.cpp:178-412 | the only exceptions a whole run can end in are content errors |
| Converters.HeadInvariants | src/block_conversion_plugin.cpp:54-71 | the state after loading the start block satisfies every invariant |
| Converters.Converter.LoadHead | src/block_conversion_plugin.cpp:54-71 | the loaded converter is valid and holds the start block and its native stand-in |
| Converters.Converter.PopForkedEvmBlocks | src/block_conversion_plugin.cpp:212-216 | the loop computes PopEvm |
| Converters.Converter.UndoAction | src/block_conversion_plugin.cpp:236-255 | removes one transaction if its hash is the expected one, else leaves the blocks alone and reports which check failed |
| Converters.Converter.UndoActions | src/block_conversion_plugin.cpp:165-172 | the nested reverse loops undo the flattened actions, last first |
| Converters.Converter.PopForkedNativeBlocks | src/block_conversion_plugin.cpp:218-261 | the loop computes PopNative, with its exceptions |
| Converters.Converter.RollbackTo | src/block_conversion_plugin.cpp:212-274 | the fork path computes Rollback, with its exceptions |
| Converters.Converter.ExtendTo | src/block_conversion_plugin.cpp:283-288 | the loop appends Tail to the cached blocks and publishes all of it but the open block; what Tail is, field by field, is TailPublishes and TailOpens |
| Converters.Converter.ApplyNewConfig | src/block_conversion_plugin.cpp:293-311 | sets the consensus index of an empty block, and refuses a config after transactions |
| Converters.Converter.AddAction | src/block_conversion_plugin.cpp:313-381 | the branches on version, variant, prices and base fee compute ApplyAction, with its exceptions; when it accepts, what it then changes and why it refuses are ActionAccepted and ActionRefused |
| Converters.Converter.AddActions | src/block_conversion_plugin.cpp:156-163 | the nested loops apply the flattened actions in order and stop at the first refusal |
| Converters.Converter.PruneTo | src/block_conversion_plugin.cpp:384-411 | computes Prune with loops that have no emptiness test and never need one |
| Converters.Converter.Relink | src/block_conversion_plugin.cpp:191-274 | a block that does not follow the last one is a duplicate, finds no fork block, or rolls back to it |
| Converters.Converter.OnNativeBlock | src/block_conversion_plugin.cpp:178-412 | the handler computes Step, reports the same exceptions, and keeps Valid(): the surviving chain, uniform settings, linked output |
| Engine.FoundIsHighest | src/engine_plugin.cpp:138-153 | the downward search yields the highest block with a native id, and only without one the content of height 0 |
| Engine.FindBlockWithValidEosId | src/engine_plugin.cpp:138-153 | the loop computes that search |
| Engine.GetCanonicalBlockAtHeight | src/engine_plugin.cpp:155-205 | finds the highest block with a native id at or below the explicit height, else at or below the smaller of stored LIB and head, whichever exist; without an explicit height the result lies at or below both |
| Restart.GrowAlike | src/block_conversion_plugin.cpp:277-382 | from blocks equal up to root and flag, a native block sent again with another irreversible number gives the same outcome up to root and flag |
| Restart.FoldTakenUp | src/block_conversion_plugin.cpp:54-71 | taking up the fold from its open block accepts and yields what the uninterrupted fold does |
| Restart.StoredBlock | src/ship_receiver_plugin.cpp:405-411 | a closed EVM block without native id is empty; one with an id ends just before the native block numbered one above that id |
| StoreRestart.EngineFindsRestart | src/engine_plugin.cpp:138-205 | in a store holding the closed blocks up to a number the search from there stops at one with a native id and skips exactly empty gap blocks |
| Restart.RestartEquivalence | src/engine_plugin.cpp:155-205 | the fold over a stored closed block and the native blocks after its id, sent again, succeeds, begins with that block and is the end of the fold of the whole chain, up to irreversibility flags and the open block's root |
| StoreRestart.RestartedConverter | src/block_conversion_plugin.cpp:54-71 | with forks after the restart: any admissible benign run that is accepted and survives as the chain to be fed ends with the uninterrupted chain's EVM blocks |
| StoreRestart.FedConverter | src/block_conversion_plugin.cpp:178-412 | a converter fed a sound chain in order accepts it whenever the fold does, and holds and has published the fold's blocks |
| StoreRestart.StoreHolds | src/blockchain_plugin.cpp:50-66 | a store filled from what a run published holds, up to the smaller of stored LIB and head, the closed blocks of that run as it goes on, whatever forks it then meets |
| StoreRestart.RestartFromStore | src/engine_plugin.cpp:155-205 | a node stopped at any point of an obedient, benign run and restarted from the block the engine chooses accepts what the receiver then asks for, ends with the EVM blocks of the uninterrupted run, and publishes all closed blocks from the chosen one on again |
| Witness.SampleRestart | src/engine_plugin.cpp:155-205 | a concrete run and store meet every hypothesis of the restart theorem |
| ShipReceiver.InsertMembers | src/ship_receiver_plugin.cpp:235 | assignment into the ordered map replaces the entry with the same key and keeps the others |
| ShipReceiver.TraceOrder | src/ship_receiver_plugin.cpp:187-238 | kept entries are sorted by execution key, one for each key of a matching trace at its last trace; every matching trace is kept exactly once if and only if keys are distinct |
| ShipReceiver.MatchesMeans | src/ship_receiver_plugin.cpp:191-201 | a trace is looked at if and only if it is the contract's and a config or an evmtx, or a pushtx in a transaction without an evmtx of the contract |
| ShipReceiver.CollectAccepted | src/ship_receiver_plugin.cpp:187-238 | the order can be computed if and only if every matching trace has a receipt and every matching evmtx a creator before it that has one |
| ShipReceiver.KeptInOrder | src/ship_receiver_plugin.cpp:213-235 | on the traces' own fields: kept evmtx stand by the global sequences of the actions that created them, kept pushtx by their own, and a config before either |
| ShipReceiver.SameCreatorLosesOne | src/ship_receiver_plugin.cpp:207-235 | a concrete transaction with two evmtx of one creator loses the first |
| ShipReceiver.AppendToBlock | src/ship_receiver_plugin.cpp:187-280 | the two loops compute AppendTrace, with its exceptions; what that adds is AddedInOrder |
| ShipReceiver.ToNative | src/ship_receiver_plugin.cpp:144-170 | only executed traces count, in order, and the block carries the message's id, predecessor, number, time and irreversible number; without a block in the message there is none |
| ShipReceiver.Emitted | src/ship_receiver_plugin.cpp:239-273 | every kept entry is emitted in key order under one name; a config can only be first, on an empty block, and excludes pushtx |
| ShipReceiver.AppendHomogeneous | src/ship_receiver_plugin.cpp:250-278 | adding a transaction keeps one action name per block and never replaces a config |
| ShipReceiver.NativeHomogeneous | src/ship_receiver_plugin.cpp:144-170 | every native block built carries a single action name and no pushtx beside a config |
| ShipReceiver.AddedTransaction | src/ship_receiver_plugin.cpp:187-280 | an accepted transaction adds nothing if no trace matches, else one native transaction with exactly the kept actions in key order, and its config to the block |
| ShipReceiver.AddedInOrder | src/ship_receiver_plugin.cpp:187-280 | the added actions are traces of the contract under the searched name, in execution order by creators' or own sequences, and every such trace is one of them or an earlier one with the same place |
| ShipReceiver.BlockContents | src/ship_receiver_plugin.cpp:144-170 | a block holds one transaction for each executed transaction with something of the contract's, in order, with exactly that one's actions in execution order |
| ShipReceiver.EmitRefused | src/ship_receiver_plugin.cpp:250-271 | which exception a kept entry raises: a second config, a config after something else, a pushtx beside a config, another name in the transaction, each exactly when |
| ShipReceiver.AcceptedExactly | src/ship_receiver_plugin.cpp:250-278 | with non-zero keys a transaction is accepted if and only if its order can be computed, a config meets an untouched block and no pushtx, and other actions agree with the block's config and last action name |
| ShipReceiver.UndefinedExactly | src/ship_receiver_plugin.cpp:274-277 | the name comparison reads a missing last action if and only if the previous transaction held only a config |
| ShipReceiver.ConfigAloneThenEvmTx | src/ship_receiver_plugin.cpp:274-277 | a concrete block with a config alone followed by an evmtx reads a missing last action |
| Reconnect.Receiver.OnRead | src/ship_receiver_plugin.cpp:360-361 | the memory that Resume and Sessions use: last reported irreversible number and last block number |
| Reconnect.Receiver.ReadAll | src/ship_receiver_plugin.cpp:341-369 | after any blocks read, the two fields are the memory that Sessions resumes from |
| Reconnect.Receiver.StartFrom | src/ship_receiver_plugin.cpp:381-421 | resumes one after the smaller of last reported irreversible and last read number, or after the stored start block before anything was read; refuses what the source no longer has |
| Reconnect.CopyIgnored | src/block_conversion_plugin.cpp:190-201 | a cached block of the surviving chain sent again leaves the state alone |
| Reconnect.CopiesIgnored | src/ship_receiver_plugin.cpp:376-391 | every block that a new connection sends again is a cached duplicate, and all of them together leave converter and surviving chain alone |
| Reconnect.NewBlocks | src/ship_receiver_plugin.cpp:376-412 | the blocks of the source's chain that the surviving chain lacks are a run of an obedient source: the first links or forks at the last shared block, and they replace what is not shared |
| Reconnect.FollowedIds | src/ship_receiver_plugin.cpp:376-412 | the surviving chain then is the source's, block by block |
| Reconnect.ConnectionFollows | src/ship_receiver_plugin.cpp:376-412 | a new connection that sends, without a gap, the chain of a source which kept its word at and below the last reported number, from where the receiver resumes, never lacks a fork block, has the effect of just the blocks that were missing, and leaves the source's chain as the surviving one |
| Reconnect.FreshStep | src/ship_receiver_plugin.cpp:360-363 | after each fresh block converter and receiver still fit together: everything the cache has dropped lies below the point where the receiver resumes |
| Reconnect.HeadSettled | src/block_conversion_plugin.cpp:54-71 | converter and receiver fit together right after the start block is loaded |
| Reconnect.ReconnectIdempotent | src/ship_receiver_plugin.cpp:376-391 | for any sequence of new blocks and of connections that each break off anywhere, state and exceptions are those of a run that only got the blocks it lacked, and no fork block is ever missing, though sources may fork while disconnected |
| BlockMonitor.ReplayLinked | peripherals/eos-evm-ws-proxy/block-monitor.js:44-62 | whatever events occur the window stays parent-linked |
| BlockMonitor.Rounds | peripherals/eos-evm-ws-proxy/block-monitor.js:134-146 | polling rounds against a remote chain that may change between requests only emit valid events and keep the window linked |
| BlockMonitor.LinkedSegment | peripherals/eos-evm-ws-proxy/block-monitor.js:138-145 | if the last block of a linked window is on the remote chain, the whole window is a segment of it |
| BlockMonitor.ParentOnChain | peripherals/eos-evm-ws-proxy/block-monitor.js:138 | the next block is appended if and only if the last window block is on the remote chain |
| BlockMonitor.RoundFacts | peripherals/eos-evm-ws-proxy/block-monitor.js:136-145 | against a fixed chain a round appends the successor of a last block on the chain, and forks any other out |
| BlockMonitor.NumbersAgree | peripherals/eos-evm-ws-proxy/block-monitor.js:35-41 | the proxy maps a native timestamp to the EVM number the converter maps it to |
| BlockMonitor.Monitor.Follow | peripherals/eos-evm-ws-proxy/block-monitor.js:134-146 | against a fixed linked remote chain the loop runs if and only if there is a next block to ask for; it forks out exactly the last blocks that are off the chain, then appends the remote blocks after the last kept one up to two below the head, or ends with an empty window |
| BlockMonitor.Monitor.PruneWindow | peripherals/eos-evm-ws-proxy/block-monitor.js:151-153 | a suffix stays; only blocks below the irreversible number leave, 180 stay, and a longer rest starts at or above that number |
| BlockMonitor.Monitor.Poll | peripherals/eos-evm-ws-proxy/block-monitor.js:119-158 | events come in order: first block, forks, appends, removals below the irreversible number; the loop runs if and only if the window is not empty and the chain is three ahead, and then forks out exactly what is off the chain and leaves an empty window or a contiguous segment of the chain that ends two below its head and is trimmed if long; if it does not run, the window is as before or, if it was empty, holds the block before the head |
| SubscriptionServer.SubscriptionServer.SendLogsResponseAndSave | peripherals/eos-evm-ws-proxy/subscription-server.js:129-137 | sends one message and remembers it under the block's number |
| SubscriptionServer.SubscriptionServer.HandleBlockAppended | peripherals/eos-evm-ws-proxy/subscription-server.js:145-158 | sends and remembers, log by log and subscription by subscription, exactly the matching messages |
| SubscriptionServer.SentExactly | peripherals/eos-evm-ws-proxy/subscription-server.js:145-158 | the messages for a block are those of exactly the pairs of a log and a subscription that match, once each, by log and then by subscription |
| SubscriptionServer.SubscriptionServer.HandleBlockForked | peripherals/eos-evm-ws-proxy/subscription-server.js:66-76 | sends every remembered message of that number once, marked as removed, and forgets them |
| SubscriptionServer.SubscriptionServer.HandleBlockRemoved | peripherals/eos-evm-ws-proxy/subscription-server.js:59-64 | forgets without sending |
| SubscriptionServer.SubscriptionServer.HandleNewHeads | peripherals/eos-evm-ws-proxy/subscription-server.js:194-201 | accepted if and only if the connection has none; at most one per connection is part of Valid(), as is that the monitor runs if and only if some subscription exists |
| SubscriptionServer.SubscriptionServer.HandleLogs | peripherals/eos-evm-ws-proxy/subscription-server.js:203-214 | accepted if and only if the connection is below its limit |
| SubscriptionServer.SubscriptionServer.HandleMinedTransactions | peripherals/eos-evm-ws-proxy/subscription-server.js:216-227 | accepted if and only if the connection is below its limit |
| SubscriptionServer.SubscriptionServer.HandleUnsubscribe | peripherals/eos-evm-ws-proxy/subscription-server.js:229-246 | accepted if and only if the subscription is the connection's; then all others stay, in order, and nothing else changes |
| SubscriptionServer.SubscriptionServer.HandleDisconnect | peripherals/eos-evm-ws-proxy/subscription-server.js:248-273 | of each kind exactly the other connections' subscriptions stay, in order; ledger and wire stay |
| SubscriptionServer.KeepsAtMost | peripherals/eos-evm-ws-proxy/subscription-server.js:203-227 | dropping subscriptions keeps every connection within its limit |
| LogLedger.EventAgrees | peripherals/eos-evm-ws-proxy/subscription-server.js:59-78 | the map keyed by block number does what a list of window blocks with their own deliveries does |
| LogLedger.EventExact | peripherals/eos-evm-ws-proxy/subscription-server.js:66-76 | each event keeps: retracted is exactly what was delivered for blocks that forked out, and nothing else |
| LogLedger.LedgerExact | peripherals/eos-evm-ws-proxy/subscription-server.js:129-158 | over every run of monitor events and subscription changes, each delivery is retracted once, in order, if its block forks out and never otherwise |
| LogLedger.LedgerMeansDelivered | peripherals/eos-evm-ws-proxy/subscription-server.js:129-137 | a ledger entry holds exactly the messages delivered for the window's current block of that number, none of them retracted |
| BatchMerge.Split | peripherals/eos-evm-ws-proxy/websocket-handler.js:184-198 | the forwarded list is the in-order subsequence of forwardable requests; the test endpoint is used if and only if one of them is not listed |
| BatchMerge.ForwardedExact | peripherals/eos-evm-ws-proxy/websocket-handler.js:184-198 | the forwarded list holds forwardable requests only, one for each position that has one |
| BatchMerge.Merge | peripherals/eos-evm-ws-proxy/websocket-handler.js:213-264 | the loop computes Merged |
| BatchMerge.EntryAnswersRequest | peripherals/eos-evm-ws-proxy/websocket-handler.js:213-264 | the reply has one entry per request and entry i answers request i when upstream answers in order |
| BatchMerge.ErrorsAtTheTail | peripherals/eos-evm-ws-proxy/websocket-handler.js:253-262 | a short upstream reply gives errors only at the tail of the forwardable requests |
| AntelopeName.OrIsPlus | tests/antelope_name.py:25-31 | shift and or is multiplication and addition of a digit |
| AntelopeName.ConvertToValue | tests/antelope_name.py:25-31 | the loop computes the base-32 value of the characters, and refuses foreign characters |
| AntelopeName.ConvertNameToValue | tests/antelope_name.py:1-33 | encodes every accepted name and refuses every other |
| AntelopeName.EncodeFits | tests/antelope_name.py:33 | every accepted name fits into 64 bits |
| AntelopeName.EncodeOrder | tests/antelope_name.py:23-33 | codes compare as the thirteen padded character values do, lexicographically |
| AntelopeName.EncodeAlphabetic | tests/antelope_name.py:1-33 | codes compare as the names do, filled up with dots and read as strings |
| AntelopeName.AcceptedMeans | tests/antelope_name.py:1-33 | a name is accepted if and only if it has at most 13 characters, all of them dots, digits 1 to 5 or small letters, and a thirteenth is at most j |
| AntelopeName.ValueRoundTrip | tests/antelope_name.py:2-10 | exactly the dot, the digits 1 to 5 and the small letters have values, 0 to 31, each its own |
| AntelopeName.EncodeInjective | tests/antelope_name.py:23-33 | two accepted names have the same code if and only if they are equal up to trailing dots |

## Left out

- The branch for blocks before genesis (src/block_conversion_plugin.cpp:183-188), which compares microseconds with seconds: native timestamps are taken to lie after genesis.
- A fork at the start block itself, whose native stand-in has the EVM header's timestamp: excluded by the irreversible first block.
- Finality.StepProgress: speaks of canonical transactions; a transaction that arrived wrapped in a string stops the node on a fork, as RollbackProofs.RollbackTracks states exactly.
- Headers.RollbackRefinesExactly: takes the start block's native stand-in to map above the start block's number, as a timestamp of genesis plus number does.
- 64-bit and 32-bit overflow of heights, sequences and fees: numbers are unbounded, with 32-bit EVM numbers kept in range by the time condition.
- Floating-point division of timestamps by a million: integer division.
- A restart without a stored irreversible number, which starts from the head: its block may fork out.
- The converter's irreversible number before its first assignment, which the source leaves uninitialised: absent here.
- State after an exception: the node quits, so a failing method only promises which exception it raises.
- The table of consensus parameters written on a config (src/block_conversion_plugin.cpp:310): only the index is modelled.
- The order and threads in which published blocks are executed and stored, and the storage engine: a store is a map from height to block.
- Sockets, retries, delays, ABI and JSON reading, logging and options.
- Ordinal, receiver and account of emitted actions, which nobody reads.
- newHeads and minedTransactions messages: they are sent and never remembered, so only the subscriptions themselves are modelled.
- Log filters: an arbitrary predicate, because the source's filter names an undeclared variable.
- The gap between an asynchronous handler's start and its log processing: no input arrives in it, so events are atomic.
- Stopping the monitor, which clears the window without events: runs lie between a start and the next stop.
- The contents of handler and upstream answers in a batch: opaque numbers.
