# Lightspark runtime: a verified model

Lightspark plays Flash content. This project models six parts of its runtime and proves what they
promise. Check it with `dafny verify dfyconfig.toml`. Where Dafny would try induction of its own, the lemma
switches it off: every induction is written out.

**Reference counting and the cycle collector.** Every script object carries a reference count, the
number of references stored in other objects (`storedmembercount`), and marks for the collector.
`AvmHeap` is the object graph as a value. `RefCounting` gives `incRef`, `decRef`, the cascade of
destructions and the variable assignments as functions from heap to heap; `Conservation`,
`ReleaseOrder`, `HeapOperations` and `HeapRuns` prove that the counts stay exact through whole runs,
collections included. `Releases` says exactly which objects a release destroys, and
which it hands to the collector. `GcSearch` is the depth-first search of the collector with its counters, stack, flags and early
stops, `GcSearchInvariant` and `GcSearchProof` what every step of it keeps, `GcAnswers` what it answers, `GcCollect` the verdict and the
destruction, `GcTheorems`, `GcAftermath` and `GcSafety` what a collection may destroy and what it leaves behind.
`GcFlags` and `GcCycles` read the flags as statements about paths through the heap (`Reachability`);
`GcComplete` proves the other side, that garbage is collected.
`Runtime`, `Collector` and `GarbageCollection` are the same code as classes whose fields are updated in place;
their methods are proved equal to the functions.

The destroyed set is *not* always closed: `GcExample` gives a heap of five objects on which the
collector deletes an object that a reachable survivor still stores. `GcTheorems.ClosedIffFlagsClosed` says
exactly when that cannot happen, `GcSafety.CollectionSafeIff` when a collection is safe to the end, and
`GcCycles.NoOtherCycleIsSafe` that it is whenever every stored cycle goes through the start object. A run
from the empty heap to that example is in `GcExampleRun`.

Deleting a variable releases its value even if the variable never counted it. `DeleteExample` runs into
this from an empty heap; `HeapOperations.DeleteVarKeepsIff` says exactly when the counts survive.

**The property map.** `VariablesMap` is the multimap of variables with its lookups (one loop over
variables and namespaces) and the list `dynamic_vars` beside it; `ForIn` is the index walk over that list and
the prototype chain, and `ForInWalk` the for-in loop as a whole, whatever its body deletes and adds. Adding to
the object while the loop is among inherited variables shifts them and repeats some:
`ForInWalk.AddingOneIsSafeIff`, `ForInWalk.OnceIffEarly` and `ForInWalk.OnceIffNeverAgain` say exactly when.

**The thread pool.** `ThreadPool` is a state machine whose steps lie between the points where
threads can interleave; `ThreadPoolProof` proves its invariant and what follows for every run. A worker that
sees the stop flag with a job in hand returns without fencing it: `ThreadPoolExample` has such a run, and
`ThreadPoolProof.FencedIffNotAbandoned` says that in a stopped pool at rest this is the only way to lose a job.
`ThreadPoolProgress` proves that the pool comes to a standstill and what it may leave undone there: after a
`forceStopWorker` the workers may all have found the queue empty and returned, and what is added then is never
started (`ThreadPoolExample.JobIsStranded`). `ThreadPoolOrigin` reads the workers that submit and cancel off the
calls of a run and says whose jobs a `forceStopWorker` cancels. What `jobFence()` and `execute()` do is not modelled, only how often
they are called.

**The invalidation queue.** `InvalidationSpec` says what a flush does to the sequence of queued
objects; `InvalidationQueue` is the intrusive linked list. What an object's `invalidate()` requests is a
parameter, so the results hold for any finite pattern of requests.

**The frame scheduler.** `TimeSpec` is the arithmetic of seconds and nanoseconds, `FrameScheduler` the
accumulator with bounded catch-up. The clock and the frame time are parameters.

**Values.** `Atoms` is the boxing of values in NaNs, `Numbers` arithmetic on mixed encodings and the
conversion to 32-bit integers (section 9.5 of ECMA-262, 3rd edition), `NumberAtoms` the same arithmetic on the
boxes, bit by bit, `Avm1Equality` the abstract equality of
ActionScript 1 (section 11.9.3 of ECMA-262, 2nd edition, with the code's own rules for NaN), and
`ArrayIndex` the parser of array indexes.

Where the code and its comments differ, the code is followed: `isNumber` calls the bits
`0xfff8000000000000` negative infinity, while they are a NaN (`src/asobject.h:2970`); equality takes NaN as
equal to NaN, which the standard named above it does not (`src/asobject.cpp:6113-6124`); the comment on
`killObjVar` speaks of an ordered search that the loop does not make (`src/asobject.cpp:1354-1356`).

## Model

| member | source | states |
|---|---|---|
| RefCounting.DecRef | src/smartrefs.h:95-113 | a release changes nothing but counts and list flags, except that it may destroy objects, each of them completely; it ends, whatever the graph |
| RefCounting.HandleDestruction | src/smartrefs.h:78-94 | an object is destroyed at most once per cascade; objects already locked are untouched |
| RefCounting.Destruct | src/asobject.cpp:2421-2454 | exactly the members of the remaining passes are erased; all other objects only evolve as by releases |
| RefCounting.RemoveStored | src/asobject.cpp:2823-2845 | locked objects and those being collected are left as they are; everything else only evolves |
| Conservation.DestructionStartsUnstored | src/smartrefs.h:105-108 | when the last reference goes, no slot stores the object and the collector does not list it |
| Conservation.DecRefKeeps | src/smartrefs.h:95-113 | giving up an outside reference keeps every object's counts exact, however far the destruction reaches |
| Conservation.RemoveStoredKeeps | src/asobject.cpp:2823-2845 | removing the reference of an erased slot restores exact counts, whether the object lives on, goes to the collector's list or is destroyed |
| Conservation.DropMemberKeeps | src/asobject.cpp:2421-2454 | each member erased while its object is destroyed gives back exactly its reference |
| Releases.DecRefFrees | src/smartrefs.h:78-113 | giving up an outside reference destroys exactly the objects that nothing keeps without it: outside references, the list, two stored references, or a holder that stays |
| Releases.RemoveStoredFrees | src/asobject.cpp:2823-2845 | so does releasing the reference of an erased member |
| Releases.HandleDestructionFrees | src/smartrefs.h:78-94 | the destruction of an object destroys exactly its cascade, which the heap before it determines |
| Releases.RemoveStoredLists | src/asobject.cpp:2834-2843 | releasing an erased slot's reference puts an object into the collector's list if and only if it was there or is cyclic, not static, held by no outside reference and still stored; so for its mark |
| HeapOperations.DecRefAndGCCheckKeeps | src/asobject.h:1052-1060 | the reference is released or handed to the collector's list; counts stay exact |
| HeapOperations.DecRefAndGCCheckLists | src/asobject.h:1052-1060 | for every unlocked record: it is listed afterwards if and only if it was, or this gave up the last reference from outside to an unmarked cyclic object that is still stored |
| ReleaseOrder.RemoveStoredBlind | src/asobject.cpp:1332-1340 | overwriting a variable before or after its old value is released makes no difference while the variable's object survives |
| HeapOperations.OverwriteIsErase | src/asobject.cpp:1332-1340 | overwriting and then releasing equals emptying, releasing and filling; the held object survives |
| HeapOperations.SetVarKeeps | src/asobject.cpp:1315-1348 | assignment keeps all counts exact when the caller holds the object and hands over a reference to the value; that reference is spent |
| HeapOperations.SetVarStores | src/asobject.cpp:1332-1347 | after the assignment the variable holds exactly the value and mark given; its object keeps all other members, as does every object that survives |
| HeapOperations.SetVarNoCoerceKeeps | src/asobject.h:1522-1542 | assignment that takes its own reference keeps all counts exact and the caller keeps its own |
| HeapOperations.SetVarNoCoerceStores | src/asobject.h:1522-1542 | the same for the assignment that takes its own reference, whatever the variable held |
| HeapOperations.AddStoredUnlists | src/asobject.cpp:2810-2821 | a new stored reference to a marked object takes it off the collector's list and gives back the list's reference |
| HeapOperations.DeleteVarKeeps | src/asobject.cpp:1000-1037 | deleting a variable keeps all counts exact when its value was counted or is never released |
| HeapOperations.DeleteVarKeepsIff | src/asobject.cpp:1026-1035 | counts stay exact if and only if the value was counted, or is never released, or has one reference, stored in itself or in what goes with it, all read off the heap before: the code releases a reference the variable may never have taken |
| HeapOperations.DeleteVarErases | src/asobject.cpp:1026-1035 | the variable deleted is empty afterwards; its object keeps all other members, as does every object that survives |
| DeleteExample.DeletionFreesStoredValue | src/asobject.cpp:1026-1035 | a heap with exact counts on which the deletion frees an object that a live one still stores |
| DeleteExample.ExampleIsReached | src/scripting/avm1_interpreter.cpp:2505-2506 | a run from an empty heap leads there: the new instance's `constructor` is set without a reference of its own |
| HeapOperations.HeldSurvives | src/smartrefs.h:95-113 | an object with an outside reference survives every release |
| HeapRuns.StepKeeps | src/asobject.cpp:2810-2845 | every operation on references, variables, static counts and constants, every collection attempt and every safe deletion keeps the counts exact |
| HeapRuns.CollectKeeps | src/scripting/flash/system/ASWorker.cpp:707-717 | taking any object off the collector's list and trying to collect it keeps the counts exact; that a listed object is alive is proved, not assumed |
| HeapRuns.BuryKeeps | src/scripting/flash/system/ASWorker.cpp:720-736 | deleting collected objects that nothing stores keeps the counts exact |
| HeapRuns.CountsAreExact | src/asobject.cpp:2810-2845 | after any run from an empty heap: stored count = slots, reference count = slots + outside references + 1 if listed; freed objects are neither stored nor held, and a listed object is neither freed nor in destruction |
| GcSearch.CountAll | src/asobject.cpp:2955-3034 | the search ends on every graph: it enters only objects not yet entered, and leaves the stack as it found it |
| GcSearchProof.CountAllKeeps | src/asobject.cpp:2955-3034 | visiting an object keeps the search invariant: counts are the references in the ledger, each slot counted at most once |
| GcSearchProof.CountMembersKeeps | src/asobject.cpp:2936-2953 | scanning an object's members once, in four passes, keeps the invariant and counts only its own slots |
| GcSearchProof.ScanKeeps | src/asobject.cpp:2532-2609 | a pass over the properties keeps the invariant, early stops included |
| GcSearchInvariant.PropagateKeeps | src/asobject.cpp:3015-3031 | flagging the objects on the stack keeps the invariant and stops only where the flag is set already |
| GcAnswers.CountAllAnswers | src/asobject.cpp:2955-3034 | unless it is stopped, visiting an object answers exactly whether it is the start object or flagged, and if so its holder is flagged too |
| GcAnswers.FollowAnswers | src/asobject.cpp:2574-2603 | so does following a property, also when the object is not entered because it is in use |
| GcAnswers.CountMembersAnswers | src/asobject.cpp:2936-2953 | the answer for all members is true if one that is followed led back before, and only if one does afterwards |
| GcAnswers.VisitFlags | src/asobject.cpp:2991-3014 | an object entered is flagged when it is left if a member it follows led back already |
| GcTheorems.SearchedSound | src/asobject.cpp:2860-2861 | after a search from a start object all flags, counters and lists agree, and every counted holder of the start object is flagged |
| GcTheorems.CountBelowRefCount | src/asobject.cpp:2970-2989 | the three assertions count < refcount hold whenever they are reached |
| GcTheorems.CountAtMostSlots | src/asobject.cpp:2955-3014 | no object is counted more often than it is stored; a full count means that all its slots were seen |
| GcTheorems.HeldIsNotCounted | src/asobject.cpp:2532-2609 | an object in use outside or listed, stored in properties only, is not entered: none of its references is counted |
| GcTheorems.ResetClearsAll | src/asobject.cpp:6293-6298 | however the search ended, reset() puts every counter back to zero |
| GcTheorems.CondemnedOnlyFromVisited | src/asobject.cpp:2869-2926 | every reference to an object to be destroyed is a member of a visited object; nothing outside and no static object holds it, but for the list's one reference to the start |
| GcTheorems.HoldersOfStartCondemned | src/asobject.cpp:2550-2556 | every object that stores the start object is destroyed with it |
| GcTheorems.ClosedIffFlagsClosed | src/asobject.cpp:2871-2907 | no survivor stores a destroyed object if and only if no checked but unflagged object does |
| GcFlags.CountAllMeans | src/asobject.cpp:2955-3034 | whatever the search flags reaches the start object through references, and the start object reaches whatever it visits |
| GcFlags.CondemnedOnCycle | src/asobject.cpp:2896-2907 | everything destroyed lies on a cycle of references through the start object |
| GcCycles.CountAllSettles | src/asobject.cpp:2955-3034 | where no stored cycle avoids the start object, every counted holder of a flagged object off the stack is flagged |
| GcCycles.NoOtherCycleCloses | src/asobject.cpp:2896-2907 | on such heaps no checked but unflagged object stores one to be destroyed |
| GcCycles.NoOtherCycleIsSafe | src/asobject.cpp:2896-2927 | on such heaps collection and deletion leave exact counts and no dangling member |
| GcExample.SurvivorKeepsCondemned | src/asobject.cpp:2901-2907 | a heap with exact counts on which a survivor in use stores an object to be destroyed |
| GcExample.CollectionLeavesDeletedMember | src/asobject.cpp:2896-2927 | run to its end there, the collector deletes the object and the survivor still stores it |
| GcExampleRun.ExampleIsReached | src/scripting/flash/system/ASWorker.cpp:707-717 | a run from an empty heap leads there, up to the step that takes the start object off the list |
| GcComplete.CountAllCovers | src/asobject.cpp:2955-3034 | in garbage the search is never stopped, and counts every reference between the objects it has finished |
| GcComplete.GarbageIsCollected | src/asobject.cpp:2847-2910 | a start object is collected when all that refers to it and to what it encloses is garbage itself, stored in followed members only |
| GcComplete.GarbageCycleIsDestroyed | src/asobject.cpp:2847-2934 | if besides no stored cycle avoids the start object, all objects on cycles through it go, and the counts stay exact to the end |
| GcComplete.VerdictIff | src/asobject.cpp:2869-2907 | enclosed objects all of whose cycles go through the start object: collected if and only if only members refer to the others on its cycles; otherwise listed again if and only if one of those is marked |
| GcComplete.NotListedAgain | src/asobject.cpp:2879-2891 | on every heap: where no other object is marked, a start object not collected is not listed again |
| GcComplete.PairIsGarbage | src/asobject.cpp:2847-2910 | two objects that store each other are such garbage |
| GcAftermath.HandleKeeps | src/asobject.cpp:2847-2934 | whatever a collection attempt decides, counts stay exact; the list's reference is spent, relisted or gone with the object |
| GcAftermath.CollectedAreDoomed | src/asobject.cpp:2896-2927 | the destroyed objects are exactly the condemned ones; all their members are erased, and no reference is added anywhere |
| GcAftermath.HeldSurvivorKeepsMembers | src/asobject.cpp:2911-2927 | an object outside the destroyed set that is held or still stored keeps all its members |
| GcAftermath.FinishFrees | src/scripting/flash/system/ASWorker.cpp:720-736 | the last loop frees exactly the collected objects and changes no other |
| GcAftermath.DeletionSafeIff | src/scripting/flash/system/ASWorker.cpp:720-736 | deletion leaves all counts exact if and only if no slot still stores a deleted object |
| GcSafety.CollectionFrees | src/asobject.cpp:2896-2927 | beside the condemned objects a collection frees exactly what goes with them |
| GcSafety.CollectionSafeIff | src/asobject.cpp:2896-2927 | collection and deletion leave exact counts if and only if every checked, unflagged holder of a condemned object goes with the condemned ones, read off the heap before |
| GcAftermath.ClosedCollectionIsSafe | src/asobject.cpp:2896-2927 | with closed flags, collection and deletion leave no dangling member and exact counts |
| GcAftermath.SparedHolderDangles | src/asobject.cpp:2901-2927 | a checked holder that is spared and stored by a held object ends up storing a deleted object |
| Runtime.Memory.DecRef | src/smartrefs.h:95-113 | the method in place has the effect of RefCounting.DecRef on the heap |
| Runtime.Memory.Destruct | src/asobject.cpp:2421-2454 | the passes of destruction in place, against RefCounting.Destruct |
| Runtime.Memory.RemoveStoredMember | src/asobject.cpp:2823-2845 | in place, against RefCounting.RemoveStored |
| Runtime.Memory.AddStoredMember | src/asobject.cpp:2810-2822 | in place, against RefCounting.AddStored |
| Runtime.Memory.SetVar | src/asobject.cpp:1332-1348 | in place, against RefCounting.SetVar |
| Runtime.Memory.SetVarNoCoerce | src/asobject.h:1522-1542 | in place, against RefCounting.SetVarNoCoerce |
| Collector.GarbageCollectorState.CountAllCyclicMemberReferences | src/asobject.cpp:2955-3034 | the recursive search in place, with its assertions, against GcSearch.CountAll |
| Collector.GarbageCollectorState.Count | src/asobject.cpp:2970-2989 | the counter goes up by one, and was below the reference count before |
| Collector.GarbageCollectorState.CountVariables | src/asobject.cpp:2519-2610 | the three steps over the properties in place, against the passes of GcSearch.Scan |
| Collector.GarbageCollectorState.Propagate | src/asobject.cpp:3015-3031 | the walk down the object stack in place, against GcSearch.Propagate |
| Collector.GarbageCollectorState.Reset | src/asobject.cpp:6293-6298 | in place, against GcSearch.Reset |
| GarbageCollection.Judge | src/asobject.cpp:2869-2886 | the loop over the checked objects finds exactly whether one blocks and whether one asks for another look |
| GarbageCollection.MarkDeletable | src/asobject.cpp:2897-2907 | the loop collects exactly the deletable objects, in order, and makes them constant |
| GarbageCollection.HandleGarbageCollection | src/asobject.cpp:2847-2934 | the collection attempt in place has the heap and the result of GcCollect.HandleGarbageCollection |
| VariablesMap.VariablesMap.FindObjVarConst | src/asobject.h:669-745 | the interleaved loop returns the first variable of the name whose namespace is accepted, if its kind is allowed, and nothing otherwise |
| VariablesMap.VariablesMap.FindVarOrSetter | src/asobject.h:747-801 | the first settable match before any match of the wrong kind; otherwise the last match seen |
| VariablesMap.VariablesMap.FindObjVar | src/asobject.cpp:1401-1447 | finds like the above by the name's own namespaces, or creates; both containers stay in step |
| VariablesMap.VariablesMap.FindObjVarIn | src/asobject.cpp:792-817 | the same by name and namespace |
| VariablesMap.CreatedIsFound | src/asobject.cpp:1430-1447 | the next lookup finds the created variable if and only if it is not dynamic or the name accepts the empty namespace |
| VariablesMap.AcceptedKinds | src/asobject.h:669-745 | a lookup for dynamic variables accepts those, one for any other kind all but those |
| VariablesMap.EnumerableKinds | src/asobject.cpp:2612-2626 | a for-in loop sees dynamic and instance variables, except under the prototype names |
| VariablesMap.MatchesByNamespace | src/asobject.h:669-745 | which namespaces a name reads and writes: without any it reads all and writes the empty one; with some, these, and by its flags it also reads the empty and the built-in one |
| VariablesMap.VariablesMap.InsertVar | src/asobject.cpp:2612-2626 | constants, declared traits and the prototype names lose the enumerable mark; enumerable variables go to the end of the list, or to its front |
| VariablesMap.VariablesMap.SetDynamicVarNoCheck | src/asobject.h:1507-1521 | a new dynamic variable enters both containers, at the end or the front of the list, whatever variables of its name there are; they stay in step |
| VariablesMap.VariablesMap.RemoveVar | src/asobject.cpp:2627-2640 | the variable's entry is nulled, all indexes stay |
| VariablesMap.VariablesMap.KillObjVar | src/asobject.cpp:1351-1383 | the first match goes from both containers, which stay in step; failure, with nothing changed, if and only if there is no match |
| ForIn.ScriptObject.NextNameIndex | src/asobject.cpp:228-247 | over own and inherited properties together: the index after the first live one, 0 if there is none |
| ForIn.ScriptObject.GetNameAt | src/asobject.cpp:3376-3381 | the name at that place of the concatenated lists, and whether it is an integer |
| ForIn.NextIsFirst | src/asobject.cpp:228-237 | the index returned is that of the first live entry from the current one on |
| ForInWalk.MapEditsAreEdits | src/asobject.cpp:2612-2640 | nulling a variable's entry and appending a new one are the edits of the walk |
| ForInWalk.OwnWalkIsRight | src/asobject.cpp:228-237 | without inherited variables, whatever the body deletes and adds: every variable there at the end is visited, each once, in insertion order, none after its deletion |
| ForInWalk.DeletedNotVisited | src/asobject.cpp:2627-2640 | own or inherited, no variable is visited that was deleted before it was reached |
| ForInWalk.SurvivorsVisitedIff | src/asobject.cpp:228-247 | every variable there at the end is visited if and only if none of them was added behind the walk |
| ForInWalk.SafeIff | src/asobject.cpp:228-247 | after a step of the body nothing already passed lies ahead if and only if no live inherited variable is shifted past the index |
| ForInWalk.AddingOneIsSafeIff | src/asobject.cpp:240-245 | adding one variable: exactly when the walk is still among own variables, or the one just visited is gone |
| ForInWalk.SafeWalkVisitsOnce | src/asobject.cpp:228-247 | if every step is safe, no variable is visited twice, whatever the body deletes and adds |
| ForInWalk.AddingOnceIff | src/asobject.cpp:228-247 | when the body deletes nothing, that is necessary too |
| ForInWalk.OnceIffEarly | src/asobject.cpp:228-247 | then each variable is visited once if and only if nothing is added once the walk is among inherited variables |
| ForInWalk.OnceIffNeverAgain | src/asobject.cpp:228-247 | whatever the body deletes and adds: each variable once if and only if every inherited one shifted ahead again is deleted before the walk reaches it |
| ForInWalk.AddedRepeatsInherited | src/asobject.cpp:240-245 | one inherited variable and one added during its visit: the loop visits it twice |
| ForInWalk.NamesOnceIff | src/asobject.cpp:228-262 | a loop that changes nothing gives each name once if and only if no two live variables of the chain share one |
| ForInWalk.EarlyWalkInOrder | src/asobject.cpp:228-247 | if variables are added only while the walk is among own ones, it visits own before inherited, each in list order |
| ThreadPoolProof.KeepsAlways | src/thread_pool.cpp:51-252 | every step of every thread keeps the pool's invariant |
| ThreadPoolProof.JobsHaveOneOwner | src/thread_pool.cpp:183-228 | under every interleaving a submitted job has exactly one owner: the call that submits it or a thread of its own, the queue, one worker, or the fence; it is executed and fenced at most once |
| ThreadPoolProof.PushedJobsAreKept | src/thread_pool.cpp:183-228 | a job once queued is in exactly one of queue, worker and fence ever after |
| ThreadPoolProof.RuncountIsOccupancy | src/thread_pool.cpp:186-222 | runcount is the number of occupied slots, at most the pool size |
| ThreadPoolProof.DrainedForEver | src/thread_pool.cpp:51-75 | once forceStop has left its locked section the queue is empty for ever |
| ThreadPoolProgress.StopCancelsForEver | src/thread_pool.cpp:59-75 | in every run, a job queued when forceStop has the mutex ends fenced once and never executed; exactly those in slots are told to abort; the queue stays empty |
| ThreadPoolProgress.DropCancelsForEver | src/thread_pool.cpp:120-144 | forceStopWorker does that to the queued jobs of one worker for ever, and leaves the others queued in their order |
| ThreadPoolOrigin.OriginIsSubmitter | src/thread_pool.cpp:232-241 | in every run a job past the lock of addJob is recorded as started from the worker that submitted it |
| ThreadPoolOrigin.DropCancelsExactlyOwn | src/thread_pool.cpp:113-144 | read off the calls made: forceStopWorker fences for ever, or tells to abort, the jobs submitted from the worker it was called for, and leaves all others as they are |
| ThreadPoolOrigin.FencedWasExecuted | src/thread_pool.cpp:183-228 | without cancellation a job is fenced only after it has been executed, once |
| ThreadPoolOrigin.OverflowIffFull | src/thread_pool.cpp:243-252 | a job gets a thread of its own if and only if every slot of the pool is occupied; otherwise it is queued |
| ThreadPoolProof.KeepOthersInOrder | src/thread_pool.cpp:132-143 | the jobs that stay queued keep their order |
| ThreadPoolProof.SignalsMatchQueue | src/thread_pool.cpp:181-194 | until a stop, signals cover the queue; without cancellation they match it and no worker finds it empty |
| ThreadPoolProof.StartedInOrder | src/thread_pool.cpp:187-190 | without cancellation jobs start in the order in which they were queued |
| ThreadPoolProof.FencedIffNotAbandoned | src/thread_pool.cpp:198-202 | with the pool at rest, a job has been fenced if and only if no worker saw the stop flag with it in hand; a job so lost was not executed |
| ThreadPoolProof.AbandonedNeverFenced | src/thread_pool.cpp:198-202 | in every run, a job taken but not started when the stop flag is seen is never fenced |
| ThreadPoolProgress.RunsEnd | src/thread_pool.cpp:174-230 | without new calls the pool comes to a standstill, whichever steps it takes: no run is longer than its effort |
| ThreadPoolProgress.StopsAtRest | src/thread_pool.cpp:51-75 | a stopped pool at a standstill is at rest: every worker has returned, the queue is empty, no call is in progress |
| ThreadPoolProgress.LeftOverOnlyWithoutWorkers | src/thread_pool.cpp:181-187 | a pool not stopped leaves no job behind at a standstill, unless every worker has returned because it found the queue empty, which takes a forceStopWorker |
| ThreadPoolProgress.ExitedIffQuits | src/thread_pool.cpp:184-187 | in a pool not stopped the workers gone are exactly those that found the queue empty |
| ThreadPoolProgress.NeverStartsAgain | src/thread_pool.cpp:174-194 | without workers no job is ever started again |
| ThreadPoolExample.WorkerQuits | src/thread_pool.cpp:113-118 | a forceStopWorker on an idle pool of one worker leaves it without workers |
| ThreadPoolExample.JobIsStranded | src/thread_pool.cpp:231-252 | a job added then stays in the queue, the pool not stopped and at a standstill |
| ThreadPoolExample.JobIsTaken | src/thread_pool.cpp:174-194 | a run that leads from the initial pool to a job in the worker's slot |
| ThreadPoolExample.JobIsLost | src/thread_pool.cpp:51-75 | continued by a forceStop, it loses that job: the pool is at rest and the job neither executed nor fenced |
| InvalidationQueue.SystemState.TestIsMembership | src/swf.cpp:1260-1261 | the constant-time test is membership in the list |
| InvalidationQueue.SystemState.AddToInvalidateQueue | src/swf.cpp:1260-1278 | head insertion, tail insertion during a flush, nothing for members; the list stays well linked, and the queue owns one reference per member |
| InvalidationQueue.SystemState.FlushInvalidationQueue | src/swf.cpp:1280-1371 | the flush does what InvalidationSpec.Flush says; it ends with an empty list, all links null and the queue's references given back |
| InvalidationSpec.ProcessesInOrder | src/swf.cpp:1309-1366 | first the objects queued at the start, in list order, then those appended meanwhile, each append once |
| InvalidationSpec.RequestedIsQueued | src/swf.cpp:1261-1272 | whatever invalidate() requests is in the queue afterwards |
| InvalidationSpec.RequestStaysIff | src/swf.cpp:1260-1272 | an object requested inside an invalidate() is in the queue after it if and only if it is another: a request for itself is dropped |
| InvalidationSpec.RequestInvalidatesIff | src/swf.cpp:1309-1366 | a request not repeated later leads to an invalidate() if and only if it is for another object and leaves it changed and shown |
| InvalidationSpec.InvalidatesInOrder | src/swf.cpp:1309-1366 | invalidate() is called in the order in which objects leave the queue, at most once each time |
| InvalidationSpec.FlushLeavesFlags | src/swf.cpp:1309-1362 | for an object nobody requests: its change is forgotten if and only if it was invalidated, and it is as visible as before |
| InvalidationSpec.RequestLeavesFlags | src/swf.cpp:1309-1362 | for a requested object the last request decides, but for the change of an object that is invalidated later or that asks for itself |
| TimeSpec.TimeSpec.Plus | src/utils/timespec.h:71-80 | addition is addition of nanoseconds, and stays normal |
| TimeSpec.TimeSpec.Minus | src/utils/timespec.h:60-69 | subtraction with borrow is subtraction of nanoseconds; below zero the seconds wrap around |
| TimeSpec.DivIsNs | src/utils/timespec.h:95-101 | dividing seconds, nanoseconds and remainder apart is dividing the nanoseconds, rounded down, with no carry left |
| FrameScheduler.Scheduler.MaxFramesPerTick | src/swf.cpp:2215-2236 | between 1 and 5, and the frame time divided by the average timing in nanoseconds, cut off at these bounds |
| FrameScheduler.Scheduler.AddFrameTiming | src/swf.cpp:2239-2244 | the last nine timings are kept |
| FrameScheduler.SumIsTotal | src/swf.cpp:2220-2229 | the sum of the timings is the sum of their nanoseconds |
| FrameScheduler.FitsIsQuotient | src/swf.cpp:2231-2235 | for a positive average the only limit that fits is the quotient of frame time and average, cut off at 1 and 5 |
| FrameScheduler.Scheduler.RunTick | src/swf.cpp:2247-2286 | frames run and time carried over are what Tick says, for a limit that fits the timings; each frame's duration enters the history |
| FrameScheduler.TickConserves | src/swf.cpp:2258-2273 | min(limit, due) frames; all time is run, carried over or dropped; dropped only when more than the limit were due |
| FrameScheduler.RunConserves | src/swf.cpp:2247-2273 | over any sequence of ticks all time is accounted for |
| FrameScheduler.FramesFollowTime | src/swf.cpp:2247-2273 | over any sequence of ticks the frames are those the elapsed time makes due if and only if no call finds more due than its limit |
| FrameScheduler.WakesForFrame | src/swf.cpp:2289-2302 | sleeping as long as timeUntilNextFrame says makes a frame due, any less does not |
| FrameScheduler.Scheduler.TimeUntilNextFrame | src/swf.cpp:2289-2302 | the rest of the frame time, or the time to the next timer if that is shorter |
| Atoms.DecodeEncode | src/asobject.h:121-163 | every value that can be stored is read back unchanged |
| Atoms.TestsAreExact | src/asobject.h:318-334 | each type test is true of exactly the values it names |
| Atoms.EncodingIsInjective | src/asobject.h:207-250 | no two values share an encoding |
| Atoms.DoubleSurvives | src/asobject.h:126-137 | a double is read back as itself if and only if it is not one of the NaNs used as boxes |
| Atoms.NaNReadAsInteger | src/asobject.h:126-137 | a NaN with a payload reads as the integer 1 |
| Numbers.ArithmeticIsExact | src/asobject.cpp:4892-4918 | sum and difference of any mix of encodings decode to the exact result |
| Numbers.EncodingOfResult | src/asobject.cpp:4906-4911 | an integer result is signed strictly between the 32-bit limits, unsigned from INT32_MAX to below UINT32_MAX, and a double elsewhere; equal results are encoded alike |
| Numbers.AddDoublesLaws | src/asobject.cpp:4912-4921 | what exact means: addition is real addition, with a zero, commutative and associative with infinities; NaN and opposite infinities give NaN |
| Numbers.NegateLaws | src/asobject.h:2638-2665 | a number minus itself is zero, or NaN where there is no difference; negation is its own inverse |
| Numbers.ForcedIsModular | src/asobject.cpp:4906-4907 | with forceint the result is the exact one modulo 2^32 as a signed integer |
| Numbers.SequenceIsExact | src/asobject.h:2638-2665 | any sequence of additions and subtractions is exact, whatever encodings it passes through |
| Numbers.NumberToIntIsToInt32 | src/asobject.h:1325-1346 | the truncated number modulo 2^32, in [-2^31, 2^31); NaN and infinities give 0 |
| Numbers.ToIntOfInteger | src/asobject.h:1325-1346 | the conversion gives back every signed integer, and unsigned ones modulo 2^32 |
| NumberAtoms.ReadBox | src/asobject.h:2427-2436 | a box is read back as the integer stored, with its sign, or as its low 32 bits if it did not fit |
| NumberAtoms.SameIntegerSameBits | src/asobject.h:3077-3080 | two signed boxes read as the same integer if and only if their bits are the same |
| NumberAtoms.AtomsAreExact | src/asobject.cpp:4897-4911 | adding or subtracting the bits of any two boxes leaves an atom that reads as the exact result |
| NumberAtoms.ForcedAtomsAreModular | src/asobject.cpp:4906-4907 | with forceint, one that reads as the signed integer the result is modulo 2^32 |
| Avm1Equality.EqualityIsAgreement | src/asobject.cpp:6178-6240 | the recursive algorithm ends and decides a relation defined without recursion, for every pair and SWF version |
| Avm1Equality.PrimitiveEquality | src/asobject.cpp:6200-6221 | on primitives: null with undefined, strings as strings, the rest as numbers |
| Avm1Equality.EqualityIsSymmetric | src/asobject.cpp:6178-6240 | equality is symmetric for every pair of atoms and every SWF version |
| Avm1Equality.EqualityIsReflexive | src/asobject.cpp:6064-6126 | every atom equals itself, NaN included, in any encoding |
| Avm1Equality.ObjectsEqualIff | src/asobject.cpp:6064-6126 | two objects: display objects by path, XML nodes by node, native functions by code, all others by identity, and never two of different sorts |
| Avm1Equality.EqualsNumberIff | src/asobject.cpp:6178-6240 | exactly which atoms equal a given number: numbers, strings that denote it, booleans as one and zero, and objects whose valueOf() gives such a value |
| Avm1Equality.EqualsStringIff | src/asobject.cpp:6178-6240 | exactly which atoms equal a given string |
| Avm1Equality.EqualsNullIff | src/asobject.cpp:6178-6240 | exactly which atoms equal null, or undefined: each other, and objects whose valueOf() gives one of them |
| Avm1Equality.BoolIsNumber | src/asobject.cpp:6200-6221 | booleans are compared as one and zero |
| Avm1Equality.EncodingsDoNotMatter | src/asobject.h:293-316 | a number's or string's encoding never changes the result of a comparison |
| Avm1Equality.EqualityIsNotTransitive | src/asobject.cpp:6214-6221 | two different strings that denote the same number equal it, but not each other |
| Avm1Equality.PrimitivesTransitive | src/asobject.cpp:6200-6221 | among primitives equal to a third, two differ if and only if they are different strings |
| Avm1Equality.TransitiveIff | src/asobject.cpp:6178-6240 | among all atoms, objects included: exactly when two atoms equal to a third are equal, for every SWF version |
| Avm1Equality.ValueOfMatters | src/asobject.cpp:6064-6126 | two objects for one XML node equal each other but not the same numbers |
| ArrayIndex.ParseIndex | src/swftypes.cpp:243-287 | success exactly on digits, with zeros after a dot where accepted, of value at most 2^32-1; for AVM1 of any value, modulo 2^32 |
| ArrayIndex.ScanDigit | src/swftypes.cpp:274-277 | outside AVM1 mode the 64-bit accumulator never overflows |
| ArrayIndex.ToUInt | src/swftypes.cpp:222-321 | the index of every kind of name; built-in strings that are not digits are refused unseen; for AVM1 exactly the integral numbers up to 2^32-1 pass, negative ones included |
| ArrayIndex.DecimalIsIndex | src/swftypes.cpp:243-287 | parsing undoes the printing of every 32-bit index |
| ArrayIndex.CanonicalIff | src/swftypes.cpp:243-287 | a parsed string is the printed form of its value if and only if it has no leading zero |

## Left out

- Subclass overrides of `countCylicMemberReferences` (arrays, display objects and others): only the base class version is modelled.
- Free lists, caching and `finalize()`: nothing becomes cached; destroying an object always frees it; deletion is a flag, and releasing a freed object does nothing.
- Static members: the assignments do not maintain `storedmembercountstatic`; in a run it changes at any time to any value.
- The collector's linked list is a flag of each object that owns one reference; the counters of the search live in one map of the search state instead of in each object.
- The three containers of an object (owned objects, watchers, variables with their getters and setters) are one sequence of tagged members; an erased member stays as an empty place.
- RefCounting.DropMember: erases a member before it releases its value, for getters, setters and owned objects too, where the code releases first.
- The `nsRealId` a lookup reports besides the variable.
- Type coercion in `setVar` is the identity; getters, setters and script calls do not run.
- HeapRuns.CountsAreExact: deletion of collected objects takes part in a run only when nothing stores them; otherwise GcExample shows the counts go wrong. Likewise for deleting a variable that had not counted its value (HeapOperations.DeleteVarKeepsIff).
- The 32-bit width of the reference counters, and of indexes in the property map.
- `initializeVar`, slots and `setIsEnumerable` of the property map. Where a new variable goes among those of its name is left open.
- The interpreter's opcodes for for-in: the loop is a function of the list and of what its body does to it. The body deletes anywhere on the chain and appends to the object; it adds nothing to prototypes and prepends nothing.
- ForInWalk.SafeWalkVisitsOnce: one way only: an unsafe step repeats nothing if what it shifted is deleted in time, which ForInWalk.OnceIffNeverAgain takes into account.
- Overflow threads of the pool: how they execute and fence their jobs, and what `forceStop` and `forceStopWorker` do to them; `waitAll`; waiting for threads to end.
- ThreadPoolProof.SignalsMatchQueue: says nothing about runs after `stopFlag` is set.
- Draw jobs, surfaces and posting to the queue from other threads; a reference count that reaches zero during a flush destroys nothing.
- FrameScheduler.Scheduler.MaxFramesPerTick: divides nanoseconds where the code divides floats, and leaves open what an average of zero gives within the bounds.
- The conversion of the frame rate to a frame time, timers, rendering and audio.
- Rounding of doubles and the sign of zero; `add` on strings, XML and objects; `forceint` with a double operand; boxed integers and numbers as operands of `subtract`.
- Atoms.DecodeEncode: keeps a 32-bit pattern as bits; `NumberAtoms` reads it as an integer. The bits of doubles are not related to real numbers.
- Avm1Equality.ToPrimitive: `valueOf()` is a pure function, and an invalid atom, which the code asserts not to get, stays as it is.
- ArrayIndex.ParseIndex: when the `isNumber` flag is set on failure is modelled but not characterised.
- `isLess`, `isEqual`, the AVM2 comparison tables, parsing of SWF tags, filters, fonts, input and output.
