# A model of the tpcc-runner concurrency-control protocols

tpcc-runner runs several in-memory concurrency-control protocols side by side. This project models the protocols
themselves, as Dafny state machines, classes and functions, and proves what each of them is for:

* **Silo** (`SiloModel`, `SiloInvariant`, `SiloProof`, `SiloCommitProof`, `SiloSerialProof`, `Silo`, `TidWordLayout`):
  every atomic access of the read loops and of `precommit` is a step; any number of transactions interleave. The
  committed ones are a serial execution in the order of their serial points.
* **MVTO** (`MvtoChain`, `MvtoModel`, `MvtoInvariant`, `MvtoProof`, `Mvto`, `MvtoPruning`, `MvtoPrecommit`): version chains
  under one lock per entry; serializability in timestamp order, what pruning frees, and a precommit that undoes itself.
* **Wait-die** (`WaitDieLock`, `WaitDieLockProof`, `WaitDie`, `WaitDieData`): the lock with its sorted lists and its promotion
  loop, as a class; many locks and transactions together, as a machine; and that machine on records, serial in the order
  of the commits.
* **Caracal** (`CaracalArray`, `CaracalInit`, `CaracalInitProof`, `CaracalInitRuns`, `CaracalInitEnds`, `CaracalDeal`, `Caracal`):
  sorted arrays fed directly or through per-core buffers; any number of epochs refines serial execution in global id order.
* **Serval** (`Bitmap`, `BitmapSearch`, `ServalRegion`, `ServalRowOps`, `ServalArrays`, `Serval`, `ServalSegment`, `ServalEpochs`,
  `ServalHistory`): 64-bit maps of cores and transactions with popcount-ranked slots; the turn of a row to a new epoch;
  every version freed at most once; any number of rows and epochs, and when they are serial.
* **Serval_RC** (`ServalRcBitmap`, `ServalRcOps`, `ServalRcClass`, `ServalRc`, `ServalRcProof`, `ServalRcMaster`, `ServalRcExec`,
  `ServalRcValues`): popcount-compressed bitmaps and reference-counted placeholders, on one row; what an epoch leaves as the
  master, frees and loses; the workers and their records on any number of rows and epochs.
* **Shared** (`DivMod`, `SortedSlots`, `Execution`, `ExecutionProof`, `Barrier`, `Epochs`, `Timestamps`): the sorted vectors, the
  execution phase of the epoch engines, the spinning barrier, the epoch manager and the timestamp manager.

A machine is a `State`, a `Step`, what makes a step `Enabled` and what it does (`Apply`); `IsRun` and `Exec` give its runs.
Where the source updates an object under a lock or by one thread, the model has a class whose methods are proved equal to
functions on values, and the machine is built from those functions. Fields called history variables in the comments only
record what happened. All atomic accesses of the source are sequentially consistent, so a run is an interleaving of steps.
A 64-bit word is a sequence of 64 booleans, the most significant bit first, as positions count in `utils/bitmap.hpp`.

Six properties hold only under a condition that the code does not establish by itself; each is stated with its exact
condition:

* `Epochs.CloseIff`: worker epochs are not initialized (`protocols/common/epoch_manager.hpp:95`). The global epoch stays
  within one of every published epoch in every run if and only if there is at most one worker or no worker's memory holds a
  number above 1 at the start.
* `Barrier.TogetherIff`: the barrier is told apart from its neighbours by its type only. No thread ever passes a barrier
  before all have come to it, in any run, if and only if neighbouring types differ or there is only the parent.
  `Barrier.EpochsStayTogether` shows that the sequences that the programs use are of that kind.
* `ServalRegion.AppendWorksIff`: a per-core array appends behind its last slot, so a version is found again if and only if
  its transaction comes behind all that the core has appended.
* `MvtoPruning.AccessesAreSafeIff`: an access prunes the chain before it raises the read timestamp of the version it found.
  A transaction never frees the version it reads, in any run, if and only if its watermark is not above its timestamp;
  `MvtoPruning.WriterInBetween` is a run in which it does.
* `ServalHistory.ReadsLatestIff`: a row that an epoch does not write is read from its master. All reads of an epoch that
  reach back before it find the latest version if and only if the epoch writes every row that it reads;
  `ServalHistory.StaleFromLoad` is a run in which one does not, and `ServalHistory.HistoryIsSerial` and
  `ServalHistory.ReadsAreSerial` are what the condition gives.
* `ServalRcMaster.MasterIsLastIff`: when nobody reads a row in the epoch, the first writer that comes clears the bitmaps for
  all. The last writer's version is the row's master at the end of every schedule of an epoch, if and only if somebody reads
  behind the last writer, or nobody reads and there is one writer. `ServalRcMaster.LastLoses` is a schedule that ends
  otherwise, for every row without the condition, and `ServalRcValues.HistoryIsSerial` is what the condition gives.

Where code and comments disagree the model follows the code: `gc_version_chain` prunes at the watermark, not at the start
timestamp that its comment names (`protocols/mvto/include/mvto.hpp:787`); a read of a row that the epoch did not write
returns the master, which is not the final state of the epoch before, as the comment says
(`protocols/serval/include/serval.hpp:91-96`), but the state before the epoch that wrote the row last.

## Model

| member | source | states |
|---|---|---|
| `Silo.Serializable` | protocols/silo/include/silo.hpp:623-720 | In every interleaving the committed transactions, in the order of their serial points, read and leave what running them one by one reads and leaves; their epochs never fall |
| `Silo.ReadsAreNeverTorn` | protocols/silo/include/silo.hpp:765-803 | The load that ends the read loop finds memory holding exactly the record and the word returned, which were published together |
| `Silo.CommitRaisesTid` | protocols/silo/include/silo.hpp:649-709 | A commit stores a TID above the record's current one and above all TIDs of its read and write sets |
| `Silo.TidRisesUnlessFull` | protocols/silo/include/silo.hpp:675-676 | The generated TID rises if and only if it still fits 29 bits |
| `Silo.PrecommitNeverStuck` | protocols/silo/include/silo.hpp:631-716 | In every run, while some transaction is in precommit one of them can move: locks are taken in ascending order |
| `Silo.LockingNeverDeadlocks` | protocols/silo/include/silo.hpp:805-819 | From a transaction stuck at a lock, following the holders reaches one that can move |
| `Silo.StepKeeps` | protocols/silo/include/silo.hpp:623-855 | Every step of operations, precommit and abort keeps the invariant that links words, locks, read sets and the log of serial points |
| `Silo.RunKeeps` | protocols/silo/include/silo.hpp:623-855 | Every run keeps that invariant |
| `Silo.QuietRecord` | protocols/silo/include/silo.hpp:695-716 | With nobody past the serial point, a record is the last committed write in serial order |
| `SiloSerialProof.ValidReadSettled` | protocols/silo/include/silo.hpp:656-673 | A read that passes validation saw the last committed write before its transaction's serial point |
| `SiloProof.ReadTogether` | protocols/silo/include/silo.hpp:765-782 | An unchanged unlocked word means an unchanged record |
| `TidWordLayout.UnpackPack` | protocols/silo/include/tidword.hpp:5-15 | Packing a TID word loses nothing if and only if TID and epoch fit their fields |
| `TidWordLayout.PackUnpack` | protocols/silo/include/tidword.hpp:5-15 | Every 64-bit word is the packed form of its fields |
| `TidWordLayout.SameWord` | protocols/silo/include/tidword.hpp:17-29 | Comparing whole words is comparing all fields |
| `Mvto.Serializable` | protocols/mvto/include/mvto.hpp:590-679 | In every run the committed transactions in timestamp order are a serial execution, and at rest the newest versions are its result |
| `Mvto.NothingBetween` | protocols/mvto/include/mvto.hpp:54-71 | Once ts has read a version, no version is ever installed between that version and ts |
| `Mvto.ChainsStayOrdered` | protocols/mvto/include/mvto.hpp:659-676 | Along every reachable chain write timestamps strictly fall and a read timestamp never passes the next newer write |
| `Mvto.StepKeeps` | protocols/mvto/include/mvto.hpp:39-709 | Every access, lock-and-check, install and undo step keeps the invariant |
| `Mvto.CommittedRead` | protocols/mvto/include/mvto.hpp:54-71 | A committed read is the value that the committed writers below its timestamp leave |
| `MvtoChain.PruningIsInvisible` | protocols/mvto/include/mvto.hpp:783-808 | Pruning at s changes no lookup from s on; below s a lookup finds the same version or none |
| `MvtoChain.FoundSurvivesIff` | protocols/mvto/include/mvto.hpp:759-808 | The version found at ts survives pruning at s if and only if s is not above ts or no version was written after ts and up to s |
| `MvtoPruning.FreesIff` | protocols/mvto/include/mvto.hpp:54-71 | In every run an access frees the version it found if and only if its watermark is above its timestamp and somebody wrote the entry in between |
| `MvtoPruning.AccessesAreSafeIff` | protocols/mvto/include/mvto.hpp:783-808 | No run lets a transaction free what it finds, if and only if its watermark is not above its timestamp |
| `MvtoPruning.WriterInBetween` | protocols/mvto/include/mvto.hpp:54-71 | For every such pair of timestamps a run from the start whose next access frees the version it finds |
| `MvtoChain.Value.GetCorrectVersion` | protocols/mvto/include/mvto.hpp:759-768 | The loop finds the latest version written at or before the timestamp |
| `MvtoChain.Value.UpdateReadTs` | protocols/mvto/include/value.hpp:18-22 | The read timestamp is raised, never lowered, and nothing else changes |
| `MvtoChain.Value.GcVersionChain` | protocols/mvto/include/mvto.hpp:783-808 | The chain becomes its pruned form and exactly the cut-off versions are freed |
| `MvtoPrecommit.Precommit.Run` | protocols/mvto/include/mvto.hpp:590-679 | False means index, locks and all shared chains are as before; true, given if and only if every element passes, means one new head per non-new entry, the new entries in the index, nothing else changed, no lock kept |
| `MvtoPrecommit.Precommit.LockAll` | protocols/mvto/include/mvto.hpp:594-655 | The locking loop answers true exactly when all elements pass and otherwise has undone itself |
| `MvtoPrecommit.Precommit.InstallAll` | protocols/mvto/include/mvto.hpp:659-677 | The apply loop installs and unlocks every element and touches no other chain |
| `MvtoPrecommit.Precommit.Undo` | protocols/mvto/include/mvto.hpp:606-652 | A failure branch restores the index and releases exactly the locks taken |
| `MvtoPrecommit.Precommit.RemoveAlreadyInserted` | protocols/mvto/include/mvto.hpp:720-743 | Takes back exactly the inserts before the end key, or up to it |
| `MvtoPrecommit.Precommit.UnlockWriteset` | protocols/mvto/include/mvto.hpp:745-756 | Releases exactly the locks up to the end key |
| `WaitDie.NoDeadlock` | protocols/waitdie/include/waitdielock.hpp:144-276 | In every run no chain of waits closes, and the largest live timestamp is never waiting |
| `WaitDie.WaitsGoUp` | protocols/waitdie/include/waitdielock.hpp:144-276 | Every wait, for an owner or for a waiter ahead, is from a smaller to a larger timestamp |
| `WaitDie.EveryWaitHasReason` | protocols/waitdie/include/waitdielock.hpp:278-400 | Every waiting transaction waits for somebody: no wake-up is lost |
| `WaitDie.MutualExclusion` | protocols/waitdie/include/waitdielock.hpp:144-276 | In every run a lock held exclusively has no other holder |
| `WaitDie.NothingThrows` | protocols/waitdie/include/waitdielock.hpp:278-400 | In every run no throwing branch is reached and every lock is valid |
| `WaitDie.StepKeeps` | protocols/waitdie/include/waitdie.hpp:506-572 | Every lock call, release, begin and retire step keeps locks and transactions linked |
| `WaitDieData.Serializable` | protocols/waitdie/include/waitdie.hpp:506-544 | In every run each committed transaction has read what running the ones committed before it one by one leaves |
| `WaitDieData.DatabaseIsSerial` | protocols/waitdie/include/waitdie.hpp:506-572 | The records are what the committed transactions leave one by one, but for committed writes not stored yet, whose writer holds the lock exclusively; aborts leave nothing |
| `WaitDieData.ReadsRepeat` | protocols/waitdie/include/waitdie.hpp:37-78 | Until a transaction commits or aborts, what it has read is still in the database |
| `WaitDieData.StepKeeps` | protocols/waitdie/include/waitdie.hpp:37-572 | Every lock, look, write, commit, store, unlock and abort step keeps the invariant |
| `WaitDieLockProof.SharedKeeps` | protocols/waitdie/include/waitdielock.hpp:144-191 | try_lock_shared keeps the lock invariant: modes, strictly descending lists, waiters older than owners, a unique upgrade at the head |
| `WaitDieLockProof.ExclusiveKeeps` | protocols/waitdie/include/waitdielock.hpp:193-240 | So does try_lock |
| `WaitDieLockProof.UpgradeKeeps` | protocols/waitdie/include/waitdielock.hpp:242-276 | So does try_lock_upgrade |
| `WaitDieLockProof.ReleaseKeeps` | protocols/waitdie/include/waitdielock.hpp:278-320 | An owner's release never throws, keeps the invariant and promotes a prefix of the waiters |
| `WaitDieLockProof.PromoteKeeps` | protocols/waitdie/include/waitdielock.hpp:322-400 | The promotion loop reaches no throwing branch, ends, and leaves a valid lock |
| `WaitDieLock.WaitDieLock.TryLockShared` | protocols/waitdie/include/waitdielock.hpp:144-191 | The method does what the function on lock states says |
| `WaitDieLock.WaitDieLock.TryLock` | protocols/waitdie/include/waitdielock.hpp:193-240 | The method does what the function on lock states says |
| `WaitDieLock.WaitDieLock.TryLockUpgrade` | protocols/waitdie/include/waitdielock.hpp:242-276 | The method does what the function on lock states says |
| `WaitDieLock.WaitDieLock.UnlockShared` | protocols/waitdie/include/waitdielock.hpp:278-297 | The method does what the function on lock states says, including the throw |
| `WaitDieLock.WaitDieLock.Unlock` | protocols/waitdie/include/waitdielock.hpp:299-320 | The method does what the function on lock states says, including the throw |
| `WaitDieLock.WaitDieLock.Promote` | protocols/waitdie/include/waitdielock.hpp:322-400 | The loop computes the fixed point of single promotions |
| `WaitDieLock.WaitDieLock.DropOwner` | protocols/waitdie/include/waitdielock.hpp:44-52 | Removes the first entry with the timestamp, or reports that there is none |
| `Caracal.ReadsAreSerial` | protocols/caracal/include/caracal.hpp:80-98 | After any number of epochs, under any schedules, every read of the epoch under way returns what serial execution in global id order returns |
| `Caracal.RecordsAreSerial` | executables/ycsb_caracal.cpp:111-137 | After any number of epochs the newest versions are the records of the serial execution |
| `Caracal.NeverStuck` | executables/ycsb_caracal.cpp:51-68 | In every epoch the execution phase takes at most one step for each operation and transaction, and until it is over some worker can step |
| `Caracal.InitNeverStuck` | executables/ycsb_caracal.cpp:32-48 | In every epoch the initialization phase takes at most eight steps for each write, and until it is over some worker can step |
| `Caracal.EpochEnds` | executables/ycsb_caracal.cpp:112-137 | A finished epoch leaves serial records and a database ready for the next epoch |
| `Caracal.EpochIsSerial` | protocols/caracal/include/caracal.hpp:80-115 | The reads of one epoch, finished or not, are serial from the records before it |
| `Caracal.SearchFinds` | protocols/caracal/include/row_buffer.hpp:113-135 | A search finds the version of the last smaller serial id that writes the row, or the newest older version |
| `Caracal.LoadedOk` | protocols/caracal/ycsb/initializer.hpp:19-27 | The loaded database, one version with global id 0 per row, is a proper start with the loaded records |
| `CaracalInitRuns.PhaseEnds` | protocols/caracal/include/caracal.hpp:129-270 | After any interleaving of direct appends, full-buffer flushes and final flushes each row's array is sorted, holds one version per writing transaction, and exactly one older one |
| `CaracalInitRuns.PhaseAllocates` | protocols/caracal/include/caracal.hpp:273-284 | No two versions of an epoch are the same |
| `CaracalInitRuns.SomeoneCanStep` | protocols/caracal/include/caracal.hpp:185-270 | The initialization phase never gets stuck on its locks |
| `CaracalInitRuns.StepKeeps` | protocols/caracal/include/caracal.hpp:185-270 | Every step keeps each version of the epoch in exactly one place |
| `CaracalInitEnds.RunsEnd` | protocols/caracal/include/caracal.hpp:129-270 | No schedule of the initialization phase is longer than eight steps for each write, and each can be continued until the phase is over |
| `CaracalArray.CollectedIsInvisible` | protocols/caracal/include/row_buffer.hpp:167-180 | minor_gc changes no lookup by a reader of the current or a later epoch |
| `CaracalArray.CollectedIs` | protocols/caracal/include/row_buffer.hpp:167-180 | Of the older versions exactly the newest survives, of this epoch's all do |
| `CaracalArray.OnlyOlderFreed` | protocols/caracal/include/row_buffer.hpp:157-180 | Only versions of earlier epochs are freed |
| `CaracalArray.AppendedOk` | protocols/caracal/include/row_buffer.hpp:141-155 | An append sorts its version into those of the epoch, behind one older version |
| `CaracalArray.BatchAppendedOk` | protocols/caracal/include/row_buffer.hpp:71-77 | A flush conserves versions and keeps the array sorted |
| `CaracalArray.GlobalIdParts` | protocols/caracal/include/row_buffer.hpp:13-28 | Global ids give back epoch and serial id and order by them |
| `CaracalArray.PerCoreBuffer.Appendable` | protocols/caracal/include/row_buffer.hpp:35-54 | Inserts in order and says whether there is room left |
| `CaracalArray.GlobalVersionArray.BatchAppend` | protocols/caracal/include/row_buffer.hpp:71-77 | Appends slot by slot with collection and empties the buffer |
| `CaracalArray.GlobalVersionArray.AppendWithGc` | protocols/caracal/include/row_buffer.hpp:141-155 | Sorted insertion followed by collection |
| `CaracalArray.GlobalVersionArray.MinorGc` | protocols/caracal/include/row_buffer.hpp:167-180 | The loop frees exactly a prefix and leaves the collected array |
| `CaracalArray.GlobalVersionArray.SearchVisibleVersion` | protocols/caracal/include/row_buffer.hpp:113-135 | Returns the slot with the greatest global id below the reader's |
| `CaracalDeal.DealOut` | executables/ycsb_caracal.cpp:34-48 | The phase loop appends the worker's rounds in order |
| `CaracalDeal.TodoFrom` | executables/ycsb_caracal.cpp:34-48 | Everything a worker appends is a write of one of its transactions |
| `CaracalDeal.TodoGets` | executables/ycsb_caracal.cpp:34-48 | Every write of a worker's transactions is appended by it |
| `CaracalDeal.TodoDistinct` | protocols/caracal/include/caracal.hpp:45-78 | No write is appended twice |
| `ExecutionProof.ReadsAreSerial` | executables/ycsb_caracal.cpp:50-68 | In every interleaving of the execution phase all reads so far are those of running the transactions one by one |
| `ExecutionProof.EndIsSerial` | executables/ycsb_caracal.cpp:50-68 | At the end every transaction has run and each row's last version is the serial record |
| `ExecutionProof.WaitsGoDown` | protocols/caracal/include/caracal.hpp:291-301 | A reader that spins waits for an unfinished transaction with a smaller serial id that writes the row |
| `ExecutionProof.SomeoneCanStep` | executables/ycsb_serval.cpp:70-91 | In every unfinished state some worker can step |
| `ExecutionProof.RunsEnd` | executables/ycsb_serval.cpp:70-91 | Every schedule ends: no run is longer than the operations there are |
| `ExecutionProof.OnlyMine` | protocols/caracal/include/caracal.hpp:104-115 | Only pending versions of the epoch become stable |
| `Execution.SerialIsVisible` | protocols/caracal/include/caracal.hpp:80-98 | In the serial execution a row holds what its last writer wrote |
| `SortedSlots.SearchIsGreatest` | protocols/serval/include/row_region.hpp:35-53 | What lies before the lower bound has the greatest id below the bound, at the front there is none |
| `SortedSlots.InsertedOk` | protocols/serval/include/row_region.hpp:55-67 | Insertion adds the slot and keeps the vector ascending if and only if the id is new |
| `SortedSlots.AscendingUnique` | protocols/serval/include/row_region.hpp:22-25 | An ascending vector is determined by what it holds |
| `Bitmap.FindLargest` | utils/bitmap.hpp:67-72 | The greatest set position |
| `Bitmap.FindLargestUpTo` | utils/bitmap.hpp:74-82 | The greatest set position up to the given one, or -1 if and only if there is none |
| `Bitmap.FindLargestBelow` | utils/bitmap.hpp:105-113 | The greatest set position below the given one, or -1 if and only if there is none |
| `Bitmap.FindTwoLargestUpTo` | utils/bitmap.hpp:84-103 | The greatest set position and the greatest below it |
| `Bitmap.FillBefore` | utils/bitmap.hpp:20-39 | The signed shift gives the mask of the positions before |
| `Bitmap.FillUntil` | utils/bitmap.hpp:41-56 | The signed shift gives the mask of the positions up to |
| `Bitmap.WithBit` | utils/bitmap.hpp:12-18 | Sets the position and no other |
| `Bitmap.IsSet` | utils/bitmap.hpp:58-60 | The masked word is non-zero if and only if the position is set |
| `Bitmap.MaskedCount` | utils/bitmap.hpp:3-3 | The popcount of a masked word is the number of set positions before |
| `BitmapSearch.IdentifyIsLast` | protocols/serval/include/row_region.hpp:232-262 | Nothing marked lies between what the search finds and the reader, and something marked before the reader is found |
| `BitmapSearch.IdentifyIsBefore` | protocols/serval/include/row_region.hpp:232-262 | What is found is marked and comes before the reader |
| `ServalRegion.IdentifyIsGreatest` | protocols/serval/include/row_region.hpp:149-262 | Bitmap search and popcount-rank slot give the version with the greatest serial id below the reader's, none exactly when there is none |
| `ServalRegion.SameLookups` | protocols/serval/include/row_region.hpp:35-262 | Region and sorted array with the same contents answer every reader alike |
| `ServalRegion.MovedFresh` | protocols/serval/include/serval.hpp:251-258 | Moving the global array into a fresh region preserves its contents |
| `ServalRegion.RegionAppendAdds` | protocols/serval/include/row_region.hpp:282-301 | An append adds its version to what the region shows and changes nothing else; arrays of earlier epochs stay out of sight |
| `ServalRegion.AppendWorksIff` | protocols/serval/include/row_region.hpp:194-219 | An appended version is found again if and only if its transaction comes behind all of the core's |
| `ServalRegion.FinalIsGreatest` | protocols/serval/include/row_region.hpp:269-272 | pop_final_state takes the version of the greatest serial id |
| `ServalArrays.GlobalVersionArray.SearchVisibleVersion` | protocols/serval/include/row_region.hpp:35-53 | Finds the greatest id below the reader's, or nothing exactly when there is none |
| `ServalArrays.GlobalVersionArray.Append` | protocols/serval/include/row_region.hpp:55-67 | Adds the slot and keeps the vector ascending |
| `ServalArrays.GlobalVersionArray.ClearMemory` | protocols/serval/include/row_region.hpp:69-86 | Frees what is left, in order, and empties the vector |
| `ServalArrays.GlobalVersionArray.PopFinalState` | protocols/serval/include/row_region.hpp:88-97 | Takes out the last write |
| `ServalArrays.PerCoreVersionArray.Append` | protocols/serval/include/row_region.hpp:194-219 | Sets the bit, appends the slot, keeps one slot per bit |
| `ServalArrays.PerCoreVersionArray.PopLatest` | protocols/serval/include/row_region.hpp:184-192 | Takes the slot of the greatest transaction and leaves its bit |
| `ServalArrays.RowRegion.Identify` | protocols/serval/include/row_region.hpp:232-262 | The method computes the search |
| `ServalArrays.RowRegion.Append` | protocols/serval/include/row_region.hpp:282-301 | Appends to the core's array, clearing it on the first write and freeing exactly what it held |
| `ServalArrays.RowRegion.PopFinalState` | protocols/serval/include/row_region.hpp:269-272 | Takes the final version and touches no other array |
| `ServalArrays.MoveGlobalArrayToRowRegion` | protocols/serval/include/serval.hpp:251-258 | The loop moves everything: the region shows what the array held, the array is empty |
| `Serval.RowIsMap` | protocols/serval/include/serval.hpp:187-320 | In every run the row shows exactly the versions of its epoch, a region means an empty array, the master is the last write of the epoch before, and a row to be turned over is never empty |
| `Serval.FreedOnce` | protocols/serval/include/serval.hpp:274-313 | In every run each version ever allocated is held in one place or freed once, never both, never lost |
| `Serval.ReadFinds` | protocols/serval/include/serval.hpp:99-131 | In every run a reader gets the version with the greatest serial id below its own, or the master |
| `Serval.SomeoneCanProgress` | protocols/serval/include/serval.hpp:187-272 | In every run, while a worker is in the middle of an append, some worker gets nearer to the end of its own in at most two steps |
| `Serval.ProductiveBound` | protocols/serval/include/serval.hpp:187-272 | In every run an append takes at most six steps that bring its worker nearer to the end of it |
| `Serval.StepKeeps` | protocols/serval/include/serval.hpp:187-320 | Every step of guard, turn, installation and append keeps the invariant |
| `ServalRowOps.TurnOverKeeps` | protocols/serval/include/serval.hpp:293-320 | Turning a row over makes its last write the master and its contents empty |
| `ServalRowOps.TurnOverCount` | protocols/serval/include/serval.hpp:274-313 | Turning a row over frees each version once and loses none |
| `ServalRowOps.InstallKeeps` | protocols/serval/include/serval.hpp:222-243 | Installing a region changes nothing that a reader sees |
| `ServalRowOps.RegionAddCount` | protocols/serval/include/row_region.hpp:282-301 | An append frees exactly the stale versions of the core's array |
| `ServalSegment.PhaseRuns` | protocols/serval/include/serval.hpp:187-320 | After the initialization phase of an epoch, in any interleaving, the row shows exactly one new version for each append that was started, and its master is the last write of the epoch that wrote it before; a row nobody appends to is as it was |
| `ServalEpochs.InitDelivers` | executables/ycsb_serval.cpp:50-67 | If worker w appends for the transactions w * 64 + i that write the row, the lookups through arrays and regions are what the execution phase needs: the last writer before the reader, or a stable master |
| `ServalEpochs.NextOk` | executables/ycsb_serval.cpp:129-165 | The database that a finished epoch leaves is one that the next epoch can start from |
| `ServalEpochs.LoadedOk` | protocols/serval/ycsb/initializer.hpp:18-40 | The loaded database, two stable versions for each row, is a proper start |
| `ServalEpochs.ReadsAreSerial` | executables/ycsb_serval.cpp:69-91 | From the loaded database, after any number of epochs, under any schedules, the reads of the epoch are serial from the masters |
| `ServalEpochs.NeverStuck` | executables/ycsb_serval.cpp:69-91 | After any number of epochs the execution phase takes at most one step for each operation and transaction, and until it is over some worker can step |
| `ServalHistory.ReadsLatestIff` | protocols/serval/include/serval.hpp:91-97 | All reads of an epoch that reach back before it find the latest version if and only if the epoch writes every row that it reads |
| `ServalHistory.MasterIsLatestIff` | protocols/serval/include/serval.hpp:293-320 | The master that an epoch reads is the latest version if and only if the epoch writes the row |
| `ServalHistory.StaleRead` | protocols/serval/include/serval.hpp:91-97 | A row that one epoch writes and the next only reads is read as it was before both |
| `ServalHistory.StaleFromLoad` | protocols/serval/include/serval.hpp:91-97 | A run from the loaded database whose read returns the older of the two loaded records |
| `ServalHistory.HistoryIsSerial` | executables/ycsb_serval.cpp:129-165 | Any number of epochs that write what they read leave the records that running all their transactions one by one leaves |
| `ServalHistory.ReadsAreSerial` | executables/ycsb_serval.cpp:69-91 | And each of their transactions reads what it reads then |
| `ServalHistory.RowIsSerial` | executables/ycsb_serval.cpp:129-165 | The latest record of each row after one such epoch is the serial one |
| `ServalRcBitmap.UpdatedPacks` | protocols/serval_rc/include/rw_bitmaps.hpp:24-34 | In any order of cores and transactions the vector stays the popcount-compressed form of what was written |
| `ServalRcBitmap.IdentifyPackedIs` | protocols/serval_rc/include/rw_bitmaps.hpp:142-176 | The search in the packed form is the search in the plain one |
| `ServalRcOps.VisibleIdIs` | protocols/serval_rc/include/rw_bitmaps.hpp:142-176 | The read-phase lookup returns the greatest writer below the reader, or none exactly when there is none |
| `ServalRcOps.FinalIs` | protocols/serval_rc/include/rw_bitmaps.hpp:102-115 | is_final_state holds of the greatest writer alone |
| `ServalRcOps.MarkAdds` | protocols/serval_rc/include/rw_bitmaps.hpp:117-140 | Marking adds exactly one writer |
| `ServalRcClass.WriteBitmap.UpdateBitmap` | protocols/serval_rc/include/rw_bitmaps.hpp:24-34 | The method adds the writer to the packed bitmaps and changes nothing else |
| `ServalRcClass.WriteBitmap.AppendPendingVersion` | protocols/serval_rc/include/rw_bitmaps.hpp:37-43 | The method counts the reader and gives it the operation's version |
| `ServalRcClass.WriteBitmap.AppendFor` | protocols/serval_rc/include/rw_bitmaps.hpp:179-210 | Shares the placeholder of the visible writer or inserts it in order |
| `ServalRcClass.WriteBitmap.DecrementRefCnt` | protocols/serval_rc/include/rw_bitmaps.hpp:46-53 | The last reader turns the greatest placeholder into the master and clears the bitmaps |
| `ServalRcClass.WriteBitmap.IdentifyWriteVersion` | protocols/serval_rc/include/rw_bitmaps.hpp:56-83 | Gives the writer its placeholder while there are readers, otherwise a new master to the final writer alone |
| `ServalRcProof.PlaceholderLifecycle` | protocols/serval_rc/include/serval_rc.hpp:109-134 | In every run a placeholder is given to, stored to and made stable by exactly the transaction whose id it carries, while a reader waits for it |
| `ServalRcProof.FreedWithoutReaders` | protocols/serval_rc/include/rw_bitmaps.hpp:86-91 | In every run a step frees at most one version: the stable master, not freed before, with the reference count at zero and another master in its place |
| `ServalRcProof.ReadersAreSafe` | protocols/serval_rc/include/rw_bitmaps.hpp:37-53 | The count is the number of outstanding readers, zero means no placeholders, and no outstanding reader's version is freed |
| `ServalRcProof.ReadsLastWriter` | protocols/serval_rc/include/serval_rc.hpp:109-114 | A reader gets the version made stable by the last writer before it, or the master of the epoch's start; readers of one writer share it |
| `ServalRcProof.EpochEndsClean` | executables/ycsb_serval_rc.cpp:130-160 | A finished epoch leaves empty bitmaps, no placeholders and a stable master |
| `ServalRcMaster.MasterIsLastIff` | protocols/serval_rc/include/rw_bitmaps.hpp:46-81 | In every epoch every schedule ends with the last writer's version as the master, if and only if somebody reads behind it, or nobody reads and it is the only writer |
| `ServalRcMaster.LastLoses` | protocols/serval_rc/include/rw_bitmaps.hpp:102-115 | Otherwise a schedule that ends with another master; without readers, one in which a smaller writer asks first |
| `ServalRcMaster.LastDropFrees` | protocols/serval_rc/include/serval_rc.hpp:109-114 | In every run, when the last reader drops and there are placeholders, the version of everybody who read the old master is freed by that very step, which comes before `read` returns the record |
| `ServalRcMaster.ReadIsFreedIff` | protocols/serval_rc/include/rw_bitmaps.hpp:213-221 | At the end of every schedule of an epoch a version that somebody was given is freed, if and only if it is the old master and somebody else was given a version of the epoch |
| `ServalRcMaster.LostIff` | protocols/serval_rc/include/rw_bitmaps.hpp:213-221 | At the end of every schedule of an epoch the versions that are neither the master nor freed are those of before and those of all placeholders but the last |
| `ServalRcMaster.CanFinish` | executables/ycsb_serval_rc.cpp:70-91 | From every state of the execution phase of a row some schedule ends it |
| `ServalRcMaster.StepSegment` | protocols/serval_rc/include/rw_bitmaps.hpp:46-115 | Every step of the execution phase keeps track of master, stable and freed versions since its start |
| `ServalRcExec.EveryEpochEnds` | executables/ycsb_serval_rc.cpp:70-91 | From loaded rows, after any number of epochs, over any rows, workers that run their transactions in ascending order never all wait, take at most two steps for an operation and one for a transaction, and when they are done every row can end the epoch |
| `ServalRcExec.PreparedIsReady` | executables/ycsb_serval_rc.cpp:29-68 | The write and the read phase leave each row with exactly the writers and readers of the epoch |
| `ServalRcExec.NeverStuck` | protocols/serval_rc/include/serval_rc.hpp:109-134 | Until all workers have finished one of them can step without waiting |
| `ServalRcExec.EpochEnds` | executables/ycsb_serval_rc.cpp:130-160 | When all have finished each row can end the epoch and is ready for the next |
| `ServalRcExec.WaitsForWriter` | protocols/serval_rc/include/serval_rc.hpp:157-168 | A reader that has to wait waits for a writer with a smaller serial id that has not stored its version |
| `ServalRcValues.ReadsAreSerial` | executables/ycsb_serval_rc.cpp:70-91 | From loaded rows, after any number of epochs, over any rows, in every interleaving each transaction reads what running the epoch's transactions one by one from the masters gives |
| `ServalRcValues.RowIsSerial` | protocols/serval_rc/include/serval_rc.hpp:116-134 | A row whose last writer is read behind, or is alone and unread, or that nobody writes, ends the epoch with the serial record in its master |
| `ServalRcValues.HistoryIsSerial` | executables/ycsb_serval_rc.cpp:129-160 | If that holds of all rows in all epochs, the masters hold what running all transactions of all epochs one by one leaves |
| `ServalRcValues.StepKeeps` | protocols/serval_rc/include/serval_rc.hpp:109-134 | Every step keeps stored versions, reads so far and finished transactions serial |
| `ServalRcProof.StepKeeps` | protocols/serval_rc/include/rw_bitmaps.hpp:24-115 | Every step of the three phases keeps the invariant |
| `Barrier.NobodyPassesAlone` | protocols/ycsb_common/rendezvous_barrier.hpp:25-70 | If neighbouring types differ, no thread passes a barrier before all have come to it, and the counter stays between 0 and the number of children |
| `Barrier.SomeoneCanStep` | protocols/ycsb_common/rendezvous_barrier.hpp:25-70 | Until all have passed all barriers some thread can step |
| `Barrier.RunsEnd` | executables/ycsb_caracal.cpp:104-137 | Every run is at most as long as the steps there are |
| `Barrier.TogetherIff` | protocols/ycsb_common/rendezvous_barrier.hpp:25-70 | No run lets a thread pass a barrier before all have come to it, if and only if there are no children or neighbouring types differ |
| `Barrier.EpochsStayTogether` | executables/ycsb_caracal.cpp:104-137 | With the barriers of the programs, over any number of epochs, the threads stay together and never get stuck |
| `Barrier.RunAlternates` | executables/ycsb_caracal.cpp:104-137 | The types that the programs use one after the other differ |
| `Epochs.CloseIff` | protocols/common/epoch_manager.hpp:43-62 | In every run the global epoch is within one of every published epoch, if and only if there is one worker or no start value above 1 |
| `Epochs.StaysClose` | protocols/common/epoch_manager.hpp:81-86 | The positive half, over all interleavings of load, store and scan |
| `Epochs.BadStartFails` | protocols/common/epoch_manager.hpp:88-95 | The negative half: a run that leaves a worker two epochs behind |
| `Epochs.FreedIsOld` | protocols/common/epoch_manager.hpp:105-117 | What a worker frees with its own epoch was collected before every published worker's epoch |
| `Epochs.GarbageCollector.Remove` | protocols/common/epoch_manager.hpp:105-117 | Frees exactly what was collected at least two epochs ago, and keeps the rest |
| `Epochs.GarbageCollector.Collect` | protocols/common/epoch_manager.hpp:100-103 | Adds one object and keeps the order |
| `Timestamps.IssuedAreUnique` | protocols/common/timestamp_manager.hpp:78-123 | In every run issued timestamps are positive, differ across workers and rise within each |
| `Timestamps.TsParts` | protocols/common/timestamp_manager.hpp:110-129 | A timestamp carries its counter and its worker |
| `Timestamps.Neighbour` | protocols/common/timestamp_manager.hpp:78-85 | synchronize looks at another worker that exists |

## Left out

- Masstree and its wrapper: the index is a map; scans, node versions and phantom protection are not modelled.
- Inserts of new keys in Silo and wait-die, and in the MVTO run theorems; `MvtoPrecommit` has them, with leaf timestamps as an input.
- NoWait and naive protocols, workloads, initial loading except for the start states, NUMA placement, statistics and scripts.
- Memory allocation and reclamation, except where freed versions are tracked (Serval, Serval_RC, the epoch collector, pruned chains).
- Memory ordering below sequential consistency.
- The RWLock counter: a latch is a step, a held lock or a try that succeeds or fails.
- Silo and wait-die transaction code as classes: the loops of `precommit` and `abort` are program-counter steps of the machines.
- MVTO chains as linked nodes: a chain is a sequence, newest version first.
- Mvto.Serializable: an access that frees the version it found goes on with the record that was in it; what the memory holds by then is not modelled. Deleting an entry from the index is only modelled as emptying its chain.
- WaitDieData.Serializable: inserts of new keys, with their early unlock of the next key, and scans are not steps of the machine.
- Silo.Serializable: runs in which a TID would pass 29 bits are excluded; `Silo.TidRisesUnlessFull` says when that is.
- Epochs.CloseIff: epochs are unbounded numbers, 32-bit wrap-around is not modelled.
- Timestamps.IssuedAreUnique: counters are unbounded numbers, the loss of the upper 8 of 64 bits is not modelled; the watermark computation is not modelled.
- Caracal.ReadsAreSerial: a transaction's own earlier updates are not visible to its reads, as in the source; row buffer allocation is not bounded by the number of regions.
- ExecutionProof.ReadsAreSerial: a write stores its value and becomes stable in one step. `upsert` marks the version stable with an empty record that its caller fills later (`protocols/caracal/include/caracal.hpp:104-115`, `protocols/serval/include/serval.hpp:141-152`), so the theorems about the epoch engines are about which record is read, not about when its bytes arrive.
- ServalEpochs.ReadsAreSerial: epochs of 4096 transactions and 64 workers, as in the source.
- Serval.RowIsMap: one row at a time, rows share no state; `RowRegion::append` is one step, as only its own core touches a core's array and bit.
- ServalRcMaster.LastDropFrees: a reader's record is taken when its version is found stable; that its memory may be freed before the caller looks at it is stated, not modelled.
- ServalRcExec.EveryEpochEnds: transactions read no row twice and write no row twice; for a second operation the source keeps no bitmap.
