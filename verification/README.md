# Verified models of the Lambda layer

The Lambda layer of this repository (`layer/python`) carries the algorithmic code: JSON diff and patch, JSON Pointer,
anyio's coroutine cache, worker-process pool and shared portal, and botocore's refreshable credentials, role profiles,
Windows command-line splitting, endpoint discovery and request signing. Each module here models one of these parts and
proves what it is for. `dafny verify dfyconfig.toml` checks everything.

## How the parts are modelled

**JSON.** `Text`, `Pointers`, `Documents` and `Patches` are pointers, documents and the six operations, and `Operations`
says of each operation when it succeeds and what pointers then lead to. `DiffBuilder` is the source's builder as a
class: the circular doubly linked list with its root, the two index stores, the renumbering loops and the comparison
loops; `MakePatch` is `from_diff`. It is proved equal to `Diffs.FromDiff`, which does the same on a plain sequence of
recorded operations, and what `from_diff` promises is proved about that:

- `Stores` gives the recorded operations a meaning of their own: a store of the places that change, in which every
  element is tagged as added or not. A removal takes only an element that was not added, which is the condition under
  which the shifts computed by the `_on_undo_*` methods are right; `Holes` finds the places, `Recording` shows that
  each recording step keeps the condition, `Timing` says which additions may be taken for the ends of moves,
  `Tracking` shows that the walk over both documents fills the store with the target's values, and `RoundTrips` and
  `Moves` that applying the operations to the document follows the store.
- `Nested` is the other round trip: documents of any nesting as long as no move is formed, with the working list equal
  to the target's front and the source's rest at every step. `Limits` shows that none of the conditions of the move
  round trip can be dropped: one input for each kind of failure, and that the other conditions hold for it.

The order in which Python visits a set of names is a parameter (`Order`), and every result is for all orders.

**Caches and pools.** `LruTasks` and `WorkerTasks` are state machines whose steps run from one await to the next, and
`LruBounds` says for which sizes a bounded cache keeps what an unbounded one keeps; `RefreshThreads` is a machine whose
steps are single reads and writes of shared fields; beside it `RefreshHistory` notes what each call judged and got, and
`RefreshWindows` the way each call took and how much time it saw left;
`PortalLeases` has one step for each critical section, and starting a portal is a step of its own because it takes time
under the lock. `LruWrapper`, `WorkerPool`, `Refreshing`, `PortalLeases.Provider`, `ProfileWalk.Provider`,
`Discovery.Manager` and `Signing.SignableRequest` are the objects as classes, with methods proved against functions of
their state; `LruCache` is the reference memo that the cache is compared with.

`Signatures` says what a signature stands for: what is in the text that is signed, line by line, and that two requests
with one signature agree in every part of it unless a collision of the hash functions has been found.

Clocks, refresh sources, discovery answers, the wrapped function's values, process exits, kills that raise and start
failures are parameters or events, so every result holds for all of them.

## Findings

- `jsonpatch.py:800`: a removal taken for the start of a move keeps its index when the value goes to an object member,
  so the patch can move a different element (`Limits.ListValueGainedAsMember`). The index is right as long as nothing is
  recorded on the list after the removal (`Moves.DiffRoundTrip`, `Limits.LastElementGained`).
- `jsonpatch.py:256` and its like compare only the parent path, so operations inside an element that shifts are not
  renumbered, and the patch may not even apply (`Limits.NestedElementNotShifted`).
- `jsonpatch.py:225-229`: a removed member whose name looks like an integer is taken for a list position when a list
  gains its value, and the names of members removed after it are counted up (`Limits.IntegerNames`).
- The compared path is the unescaped tokens joined by `/`, so a list under the empty name is taken for the root: the
  diff itself can raise (`Limits.CollidingPaths`).
- `jsonpatch.py:339`: a patch that replaces a member called `-` is refused, and that is the only way in which fusing
  changes a patch that applies (`Patches.FuseCorrect`, and the right sides of both round trips).
- `functools.py:184` can evict the entry that is being computed: afterwards the cache holds more entries than its size
  allows, and one key can be computed twice at once (`LruTasks.EvictsInFlight` and the lemmas after it). Calls that fail
  count as well: with one key and size 1, one failure is enough (`LruTasks.TwoAfterFailure`). Exactly if the size is at
  least the number of keys and failures together is every key computed by one task at a time, and exactly if it is at
  least the number of keys are there never too many entries (`LruBounds.OneAtATimeExactly`, `LruBounds.EntriesExactly`).
- `functools.py:182-186` counts a call that is tried again after a failure as a new entry, although its entry is still
  there: `currsize` is then ahead of the number of entries (`LruWrapper.SizeExactly`), and the room is lost for good
  (`LruWrapper.RoomLost`). One key that fails as often as the cache has places leaves one place
  (`LruWrapper.OnePlaceLeft`).
- `to_process.py:137` kills a process that may have exited, and unlike the kill at line 83 it does not expect the kill
  to raise. If it raises, the call fails after it has popped a live process and the exited one: both stay in the pool,
  and nobody ever holds, queues or removes them again (`WorkerTasks.LiveProcessLost`, `WorkerTasks.ForgottenForGood`).
  Exactly without such calls the pool is the idle and the busy processes (`WorkerTasks.NoneForgotten`); with them it
  grows by two each time (`WorkerTasks.PoolBounded`, `WorkerTasks.PoolGrows`). One token is too few for it
  (`WorkerTasks.OneToken`).
- `credentials.py:618-619` and `credentials.py:698`: a call reads the expiry time and later the tuple. It can be
  handed an expired tuple if the expiry time is read between the two writes of a refresh and the tuple too
  (`RefreshHistory.OldTupleHandedOut`), or if another thread's refresh brings expired credentials between its two
  reads (`RefreshHistory.OvertakenTuple`). `RefreshHistory.UnexpiredExactly` says in which interleavings that cannot
  happen.
- `credentials.py:1615`: the visited profiles are kept from one `load` to the next, so loading again from a provider whose
  profile has another profile for its source raises the infinite-loop error, although nothing loops
  (`ProfileWalk.LoadsOnce`).
- `from_thread.py:471-474`: after one start that fails nobody ever gets a portal again
  (`PortalLeases.NobodyEntersAgain`); the provider keeps its promise exactly if no start fails
  (`PortalLeases.OneLeaseEach`).
- `auth.py:452` and `auth.py:457`: signing again with credentials that have no session token keeps the token header of
  the earlier ones, and signing with a plain signer after an S3 one keeps the payload hash header (`Signing.Resign`).

## Model

| member | source | states |
|---|---|---|
| Pointers.UnescapeIsDecode | layer/python/jsonpointer.py:347-348 | On text whose escapes are valid, the two passes of `unescape` do what one pass from left to right does (RFC 6901, section 4) |
| Pointers.UnescapeEscape | layer/python/jsonpointer.py:343-348 | Unescaping an escaped token gives the token, for all strings |
| Pointers.EscapeUnescape | layer/python/jsonpointer.py:343-348 | Escaping an unescaped token gives its text again, if the text has valid escapes and no slash |
| Pointers.ParsePrint | layer/python/jsonpointer.py:158-171 | Every list of tokens is parsed back from its text, none refused |
| Pointers.PrintParse | layer/python/jsonpointer.py:301-307 | Every accepted text is printed back unchanged |
| Pointers.PrintInjective | layer/python/jsonpointer.py:301-307 | Different pointers have different texts |
| Pointers.PathJoinPrint | layer/python/jsonpatch.py:927-930 | Joining a key to a printed pointer prints the pointer with that token at its end |
| Documents.ResolveLoop | layer/python/jsonpointer.py:184-199 | The loop reaches the document the pointer leads to, the end of a list for a final `-`, and otherwise the given default or the error |
| Documents.ToLastLoop | layer/python/jsonpointer.py:173-182 | The loop stops at the parent with the last token read for it, and gives the document itself for a pointer without tokens |
| Documents.SetResolve | layer/python/jsonpointer.py:201-219 | After a successful set, resolving the pointer gives the value exactly if the set did not append with `-` |
| Documents.SetSame | layer/python/jsonpointer.py:201-219 | Setting what is there already changes nothing |
| Documents.SetApart | layer/python/jsonpointer.py:201-219 | Every pointer apart from the one set resolves as before, errors included |
| Operations.SetAppends | layer/python/jsonpointer.py:201-219 | After a set at `-` behind a list the value is at the index that was the length, one element more, and everything at an old index resolves as before |
| Documents.ReplantApart | layer/python/jsonpointer.py:184-219 | A change at one place is not seen from a place apart from it |
| Patches.ApplyLoop | layer/python/jsonpatch.py:675-694 | The loop over the operations stops at the first error and is otherwise their composition |
| Patches.ApplyConcat | layer/python/jsonpatch.py:675-694 | A patch in two parts is one part after the other |
| Operations.AddSucceeds | layer/python/jsonpatch.py:275-305 | An addition succeeds exactly for a member of an object that exists and for a place, up to the length or `-`, of a list that does; the whole document is replaced only if it is an object |
| Operations.AddSeen | layer/python/jsonpatch.py:282-305 | The value is at its place, the other members or elements are there in their order, and nothing outside the container changes |
| Operations.AddResolves | layer/python/jsonpatch.py:282-305 | Unless it appends, the pointer leads to the value; with a member every pointer apart from it leads where it did |
| Operations.RemoveSucceeds | layer/python/jsonpatch.py:241-253 | A removal succeeds exactly where the pointer leads somewhere, and never at the root |
| Operations.RemoveSeen | layer/python/jsonpatch.py:241-253 | The member is gone and the others stay; elements behind a removed one move up by one; nothing outside the container changes |
| Operations.ReplaceSucceeds | layer/python/jsonpatch.py:327-357 | A replacement succeeds exactly where the pointer leads somewhere that is not called `-` |
| Operations.ReplaceSeen | layer/python/jsonpatch.py:327-357 | The pointer then leads to the value, and every pointer apart from it where it did |
| Operations.CopySeen | layer/python/jsonpatch.py:482-501 | Copying is adding the value the source leads to, succeeds exactly if that does and leaves the source; from nowhere and from the root it fails |
| Operations.MoveSeen | layer/python/jsonpatch.py:369-404 | Moving is nothing if source and target are equal, refused from a member into itself, and otherwise the removal and then the addition of the value |
| Operations.TestSeen | layer/python/jsonpatch.py:455-476 | A test succeeds exactly if the pointer leads to the value, and changes nothing |
| Patches.FusePair | layer/python/jsonpatch.py:776-794 | Replacing at a place is removing and adding there, except that a place called `-` is refused |
| Patches.FuseCorrect | layer/python/jsonpatch.py:776-794 | The fused list does to a document what the recorded list does; it is refused exactly if a fused pair is at a place called `-` (RFC 6902, sections 4.1 to 4.3) |
| Patches.DashRefused | layer/python/jsonpatch.py:327-357 | A patch that replaces a member called `-` never applies |
| Stores.PastStep | layer/python/jsonpatch.py:255-269 | A removal or an addition moved past one operation, with both renumbered as the undo methods do, has the same effect, provided no added element is removed |
| Stores.PastRun | layer/python/jsonpatch.py:307-321 | The same past a chain of any length, every renumbered operation in bounds |
| Recording.UndoIsPast | layer/python/jsonpatch.py:255-450 | The undo methods of remove, add, replace and move compute that renumbering on operation texts |
| Recording.UndoAllIsPastAll | layer/python/jsonpatch.py:796-805 | So does the loop that carries the key through the operations behind |
| Recording.AddedRuns | layer/python/jsonpatch.py:796-819 | Recording an addition, as a move or not, has the effect of the addition, and still no later operation removes an element that an earlier one added |
| Recording.RemovedRuns | layer/python/jsonpatch.py:821-852 | Recording a removal, likewise |
| Tracking.ListsRun | layer/python/jsonpatch.py:876-902 | Comparing two lists leaves the target's elements where the source's were, at every step the target's front before the source's rest |
| Tracking.ValuesRun | layer/python/jsonpatch.py:904-924 | Comparing two documents leaves the target's values in every place, whatever was recorded before |
| Holes.HolesPrefixFree | layer/python/jsonpatch.py:861-924 | No place that changes is inside another |
| Moves.PerformApplies | layer/python/jsonpatch.py:238-450 | Applying a recorded operation to the document does to it what the operation does to the store |
| Timing.DisjointValues | layer/python/jsonpatch.py:799-804 | Every addition may be taken for the end of a move if no value a list loses becomes a member, and none a list gains is lost by a member with an integer-looking name |
| Moves.DiffRoundTrip | layer/python/jsonpatch.py:630-664 | With moves formed wherever they can be: the patch turns the source into the target exactly if no changed member is called `-`, for any nesting of objects around lists whose positions do not pair different containers, where joined paths do not collide, and where nothing is recorded on a list after it loses a value that then becomes a member, nor on an object after it loses, under an integer-looking name, a value that a list then gains |
| Moves.DisjointRoundTrip | layer/python/jsonpatch.py:630-664 | The same with a condition on the two documents alone: no value a list loses becomes a member, and none a list gains is lost by a member with an integer-looking name |
| Domains.PlainRoundTrip | layer/python/jsonpatch.py:630-664 | The same for names without slashes that are neither empty nor integers |
| Domains.FlatRoundTrip | layer/python/jsonpatch.py:796-902 | Two lists of scalars with duplicates, or two objects with the same names and such lists as values, moves between lists included: the patch turns source into target |
| Nested.NestedRoundTrip | layer/python/jsonpatch.py:861-924 | Documents of any nesting in which no removed value equals an added one: the patch turns source into target exactly if no member called `-` is written anew |
| Nested.ListsCompared | layer/python/jsonpatch.py:876-902 | At every step over a list the document holds the target's front and the source's rest there |
| Pairing.ValuesUnpaired | layer/python/jsonpatch.py:796-852 | For any two documents no removal and addition of equal values are left: every move that can be formed is |
| Diffs.EqualNothing | layer/python/jsonpatch.py:861-924 | Where two documents are equal nothing is recorded, whatever was before; the diff of equal documents is empty |
| Limits.ListValueGainedAsMember | layer/python/jsonpatch.py:800-802 | Two documents for which the patch moves the wrong element to a member |
| Limits.NestedElementNotShifted | layer/python/jsonpatch.py:255-269 | Two lists of lists for which the patch cannot be applied |
| Limits.IntegerNames | layer/python/jsonpatch.py:225-229 | Two objects with integer-looking names for which the patch cannot be applied |
| Limits.CollidingPaths | layer/python/jsonpatch.py:220-229 | Two objects, one with an empty name, for which the diff raises |
| Limits.GainedOthers | layer/python/jsonpatch.py:800-802 | On the first of these inputs only the condition on starts of moves fails |
| Limits.ShiftOthers | layer/python/jsonpatch.py:255-269 | On the lists of lists only the condition on positions fails |
| Limits.NumberOthers | layer/python/jsonpatch.py:225-229 | On the integer-looking names only the condition on starts of moves fails |
| Limits.CollidingOthers | layer/python/jsonpatch.py:220-229 | On the empty name only the condition on paths fails |
| Limits.LastElementGained | layer/python/jsonpatch.py:799-819 | Two documents where an object gains what a list loses, and the starts of moves fit in every order |
| Indexes.PickCut | layer/python/jsonpatch.py:737-748 | What the index holds for a kind and value without one operation, whether it was stored there or not |
| Indexes.ListedLast | layer/python/jsonpatch.py:744-748 | The search of the list of unhashable values from its end finds the last operation of that kind for that value |
| DiffBuilder.Builder.constructor | layer/python/jsonpatch.py:714-722 | An empty ring and empty stores |
| DiffBuilder.Builder.Insert | layer/python/jsonpatch.py:750-754 | Appends one node to the sequence of nodes and keeps the ring |
| DiffBuilder.Builder.Unlink | layer/python/jsonpatch.py:756-760 | Takes one node out of the sequence and keeps the ring |
| DiffBuilder.Builder.StoreIndex | layer/python/jsonpatch.py:724-735 | After it the stores index the nodes including the new one |
| DiffBuilder.Builder.TakeIndex | layer/python/jsonpatch.py:737-748 | Gives the live node of the last operation of the kind for the value, or nothing if there is none, and the stores then index the others |
| DiffBuilder.Builder.RenumberAfter | layer/python/jsonpatch.py:800-802 | The loop over the nodes behind one node renumbers them and its key as the specification does |
| DiffBuilder.Builder.ItemAdded | layer/python/jsonpatch.py:796-819 | The ring afterwards carries exactly the specified operations, and the stores hold only live nodes of the stored kind and value |
| DiffBuilder.Builder.ItemRemoved | layer/python/jsonpatch.py:821-852 | Likewise |
| DiffBuilder.Builder.ItemReplaced | layer/python/jsonpatch.py:854-859 | Likewise |
| DiffBuilder.Builder.RecordDicts | layer/python/jsonpatch.py:861-874 | Likewise, over all names in the given order |
| DiffBuilder.Builder.RecordLists | layer/python/jsonpatch.py:876-902 | Likewise, over all positions |
| DiffBuilder.Builder.RecordValues | layer/python/jsonpatch.py:904-924 | Likewise, for any two values |
| DiffBuilder.Builder.Execute | layer/python/jsonpatch.py:776-794 | The walk around the ring yields the fused operations |
| DiffBuilder.MakePatch | layer/python/jsonpatch.py:630-664 | The operations of the class are those of the specification, errors included, so the results above hold for them |
| CallKeys.KeysExact | layer/python/anyio/functools.py:137-147 | Two calls have equal keys exactly if positional values, keyword names and values in order, and with `typed` all types agree |
| LruTasks.RunInv | layer/python/anyio/functools.py:130-196 | The invariant of locks, entries and counters holds after every run on an unbounded cache |
| LruTasks.OneAtATime | layer/python/anyio/functools.py:179-196 | At most one task is inside the wrapped function for a key |
| LruTasks.OneValue | layer/python/anyio/functools.py:159-196 | All calls of a key that have returned got the same value |
| LruTasks.BegunOncePerFailure | layer/python/anyio/functools.py:179-196 | The function begins for a key at most once more often than it failed for it, and the misses count the beginnings |
| LruTasks.ComputedExactlyOnce | layer/python/anyio/functools.py:130-196 | Once all calls have returned and none failed: each key computed once, misses equal the keys, hits plus misses equal the calls |
| LruTasks.EvictsInFlight | layer/python/anyio/functools.py:184-185 | A bounded cache evicts the entry that is being computed |
| LruTasks.TooManyEntries | layer/python/anyio/functools.py:184-190 | It then holds more entries than its size |
| LruTasks.TwoAtATime | layer/python/anyio/functools.py:159-190 | And computes one key twice at once |
| LruTasks.TwoAfterFailure | layer/python/anyio/functools.py:181-190 | With one key and size 1, a call that fails leads to two computations at once |
| LruBounds.SameAsUnbounded | layer/python/anyio/functools.py:181-190 | With room for every key and every failure a bounded cache goes through the states of an unbounded one |
| LruBounds.OneAtATimeExactly | layer/python/anyio/functools.py:179-190 | For every size, set of keys and number of failures: every run has at most one task inside the function for each key exactly if the size is at least keys plus failures, or there are no keys |
| LruBounds.EntriesExactly | layer/python/anyio/functools.py:181-190 | For every size and set of keys: no run has more entries than the size exactly if there are no more keys; else there can be too many even when all calls have returned |
| LruWrapper.Wrapper.constructor | layer/python/anyio/functools.py:99-113 | An empty cache; a negative size is zero |
| LruWrapper.Wrapper.Invoke | layer/python/anyio/functools.py:130-196 | Entries, counters and value or exception after a call that nothing overlaps, whether the function returns or raises; while none has raised it does what the reference memo does |
| LruWrapper.AttemptKeeps | layer/python/anyio/functools.py:161-190 | The size counter is the number of times the function was called, up to the size, and no less than the number of entries |
| LruWrapper.SizeExactly | layer/python/anyio/functools.py:180-186 | For any size but one: the size counter is the number of entries exactly if no call has met the entry of a failed one, other than as the oldest of a full cache and returning |
| LruWrapper.RoomLost | layer/python/anyio/functools.py:180-186 | The places by which the counter is ahead are never used again, but for the last |
| LruWrapper.OnePlaceLeft | layer/python/anyio/functools.py:180-186 | After one key has failed as often as the cache has places it never again has more than one entry |
| LruWrapper.TransparentOnReturn | layer/python/anyio/functools.py:130-196 | If the calls of a key that return agree, a cached call returns what they do, whatever calls have raised |
| LruWrapper.SameAsMemo | layer/python/anyio/functools.py:130-196 | While no call raises, entries, order and counters are those of the reference memo |
| LruWrapper.CallsAlike | layer/python/anyio/functools.py:130-196 | With no lock held the interleaved steps of one task, returning or raising, are one call of the wrapper, and leave no lock held |
| LruCache.NewestTouch | layer/python/anyio/functools.py:173-185 | Dropping all but the newest keys before or after a use leaves the same newest keys |
| LruCache.HoldsNewest | layer/python/anyio/functools.py:173-190 | After any calls the entries are the last `maxsize` distinct keys in the order of last use |
| LruCache.ValueOfLastMiss | layer/python/anyio/functools.py:181-190 | A cached value is the answer to the last call that missed, kept ever since |
| LruCache.Transparent | layer/python/anyio/functools.py:130-196 | With equal answers to equal keys, caching cannot be told from not caching |
| LruCache.HitsTheNewest | layer/python/anyio/functools.py:171-194 | A call is a hit exactly if its key is among the newest ones |
| LruCache.Counts | layer/python/anyio/functools.py:171-194 | Hits plus misses are the calls |
| LruCache.MoreRoomFewerMisses | layer/python/anyio/functools.py:181-190 | A larger cache holds all that a smaller one holds and never misses more |
| WorkerPool.Pool.Take | layer/python/anyio/to_process.py:116-147 | The two nested loops leave pool, queue, killed processes and the reserved process or the exception as specified, for any kills that raise |
| WorkerPool.Pool.Prune | layer/python/anyio/to_process.py:128-139 | The left-end loop kills the overdue front up to the first process whose kill raises, which has left the queue but not the pool |
| WorkerPool.Pool.Return | layer/python/anyio/to_process.py:182-187 | A process still in the pool goes to the end of the queue |
| WorkerPool.TakesNewestLive | layer/python/anyio/to_process.py:116-147 | The reserved process is the last queued one that has not exited, unless an overdue process before it cannot be killed: then the call raises |
| WorkerPool.RaisesExactly | layer/python/anyio/to_process.py:116-147 | A reservation raises exactly if an overdue process whose kill raises is queued before the last live one |
| WorkerPool.TakesUnlessExited | layer/python/anyio/to_process.py:116-149 | A process is started exactly if all queued ones have exited |
| WorkerPool.PrunesExactly | layer/python/anyio/to_process.py:132-139 | In a queue sorted by idle time, exactly the overdue processes with no kill that raises up to them are killed; exactly those below the limit or behind such a kill stay |
| WorkerPool.ReserveKeeps | layer/python/anyio/to_process.py:116-147 | What leaves the queue leaves the pool, except the reserved process and, if a kill raises, two that nobody has: the reserved and the exited one |
| WorkerPool.StillThere | layer/python/anyio/to_process.py:138-147 | Removing a queued process from the pool never raises |
| WorkerTasks.StepInv | layer/python/anyio/to_process.py:115-187 | Every step of every task, kills that raise included, and every exit of a process keeps the invariant |
| WorkerTasks.NeverShared | layer/python/anyio/to_process.py:115-187 | No two tasks hold one process, and a held one is neither idle nor killed |
| WorkerTasks.NoneForgotten | layer/python/anyio/to_process.py:115-187 | Idle and busy processes are in the pool, apart from each other and from the killed; the pool has no others exactly if no call has found a live process behind an overdue one whose kill raised, and two more for each call that has |
| WorkerTasks.ForgottenForGood | layer/python/anyio/to_process.py:133-138 | A process of the pool that nobody has stays in it for good, and nobody ever gets, queues or kills it |
| WorkerTasks.LiveProcessLost | layer/python/anyio/to_process.py:133-138 | A run with two tokens that loses a live process |
| WorkerTasks.KillsOverdue | layer/python/anyio/to_process.py:128-139 | In every run a call that finds a live process kills, of those queued before it, exactly the ones idle for 300 seconds or longer up to the first whose kill raises |
| WorkerTasks.PoolBounded | layer/python/anyio/to_process.py:115-187 | The pool never has more processes than calls may run at once, and two for each call that has lost its process |
| WorkerTasks.PoolGrows | layer/python/anyio/to_process.py:115-187 | With two tokens or more that bound is reached for any number of such calls |
| WorkerTasks.OneToken | layer/python/anyio/to_process.py:115-187 | With one token no process is ever lost |
| Refreshing.Credentials.Deferred | layer/python/botocore/credentials.py:707-717 | No tuple and no expiry time yet |
| Refreshing.Credentials.ProtectedRefresh | layer/python/botocore/credentials.py:584-624 | Which answer is stored, when a problem is raised and what then stays, for every kind of answer |
| Refreshing.Credentials.SetFromData | layer/python/botocore/credentials.py:630-661 | A response without a key changes nothing; a bad expiry time leaves the old expiry time |
| Refreshing.Credentials.Refresh | layer/python/botocore/credentials.py:548-582 | Exactly when the source is called, and exactly when the call ends normally |
| Refreshing.Credentials.GetFrozen | layer/python/botocore/credentials.py:663-698 | With 0 <= mandatory <= advisory, a normal return gives a tuple, never None, that is whole and whose own expiry time had not passed at the last clock read |
| RefreshThreads.StepInv | layer/python/botocore/credentials.py:548-698 | Every read and write of every thread keeps the invariant |
| RefreshThreads.OneRefresh | layer/python/botocore/credentials.py:558-582 | At most one thread is refreshing |
| RefreshThreads.WholeTuples | layer/python/botocore/credentials.py:617-624 | Every tuple handed out exists and has all its fields from one answer or from construction |
| RefreshThreads.NeverBack | layer/python/botocore/credentials.py:617-624 | A tuple read later is never from an earlier answer |
| RefreshThreads.AtMostOneBehind | layer/python/botocore/credentials.py:617-661 | The tuple is that of the latest complete answer unless that one is being stored; tuple and expiry time differ only between their writes |
| RefreshHistory.NotesOnly | layer/python/botocore/credentials.py:548-698 | The notes change nothing: the machine with them runs as the one without |
| RefreshHistory.ReturnedTuple | layer/python/botocore/credentials.py:548-698 | In every interleaving, with 0 <= mandatory <= advisory: the expiry time a returning call judged had not passed at its last clock read, and it is handed the tuple of that, an earlier or a later answer exactly as the number of tuples written between its two reads says; only with another answer's tuple can it have expired |
| RefreshWindows.MarksOnly | layer/python/botocore/credentials.py:548-698 | The marks change nothing: the machine with them runs as the one without |
| RefreshWindows.LeavesInTime | layer/python/botocore/credentials.py:548-582 | In every interleaving, with 0 <= mandatory <= advisory: a call that returns saw at least the advisory seconds left if it went straight or found the tuple renewed under the lock, at least the mandatory seconds if it did not write the tuple itself, and otherwise no expired one |
| RefreshWindows.AsksInTime | layer/python/botocore/credentials.py:553-582 | A call asks the source only after it saw no tuple or less than the advisory seconds left, and as a mandatory refresh only after it saw no tuple or less than the mandatory seconds left |
| RefreshWindows.WaitsInTime | layer/python/botocore/credentials.py:571-582 | A call waits for a taken lock only after it saw no tuple or less than the mandatory seconds left |
| RefreshWindows.ThrowsForReason | layer/python/botocore/credentials.py:584-628 | The source's failure is raised only in the mandatory window, a missing key or bad expiry time exactly if the source brought that to this call, and the error for expired credentials only by the call that stored them |
| RefreshHistory.UnexpiredExactly | layer/python/botocore/credentials.py:548-698 | A normal return is sure to hand out an unexpired tuple exactly in the interleavings with one tuple written between the two reads if the expiry time was read before its tuple was written, and none otherwise |
| RefreshHistory.CurrentBetween | layer/python/botocore/credentials.py:617-622 | A run in which a tuple is read between the two writes of a refresh and is still the one whose expiry time was judged, so reading it there does not make it older |
| RefreshHistory.OldTupleHandedOut | layer/python/botocore/credentials.py:617-622 | A run in which an expired tuple is handed out between the two writes of a refresh |
| RefreshHistory.OvertakenTuple | layer/python/botocore/credentials.py:617-698 | Runs in which refreshes between a call's two reads bring tuples that have expired, and the call is handed the last of them |
| PortalLeases.Provider.Enter | layer/python/anyio/from_thread.py:468-477 | The fields after entering, with a start that succeeds, fails or is not needed |
| PortalLeases.Provider.Exit | layer/python/anyio/from_thread.py:479-496 | The fields after leaving, and what is to be exited |
| PortalLeases.EntersAlike | layer/python/anyio/from_thread.py:468-477 | The steps of a use that enters change the fields as the provider's method does, and the use holds the portal the method returns |
| PortalLeases.LeavesAlike | layer/python/anyio/from_thread.py:479-496 | The step of a use that leaves changes the fields as the provider's method does, and the use goes on to exit what the method returns |
| PortalLeases.OneLeaseEach | layer/python/anyio/from_thread.py:468-496 | With the lock free: a portal is stored exactly while there are leases, one for each holder, all of the same portal, and no use has met an error, exactly if no start has failed |
| PortalLeases.HeldPortalRuns | layer/python/anyio/from_thread.py:479-496 | A held portal is not exited and not about to be |
| PortalLeases.AllExitedOnce | layer/python/anyio/from_thread.py:479-496 | When all uses are over every portal started has been exited, once |
| PortalLeases.NobodyEntersAgain | layer/python/anyio/from_thread.py:468-477 | After a start that fails no use ever gets a portal |
| ProfileWalk.Provider.Load | layer/python/botocore/credentials.py:1618-1623 | The result of the walk with the profiles visited so far, which are kept for the next call; nothing for a profile that does not assume a role |
| ProfileWalk.Provider.LoadViaAssumeRole | layer/python/botocore/credentials.py:1636-1843 | The recursion ends and gives the walk's result and the visited profiles |
| ProfileWalk.FewerUnvisited | layer/python/botocore/credentials.py:1808-1843 | Visiting a profile leaves strictly fewer unvisited ones |
| ProfileWalk.LoopsExactly | layer/python/botocore/credentials.py:1757-1793 | The infinite-loop error is raised exactly if the walk comes back to a profile other than the one referring to it, or refers to itself without static keys |
| ProfileWalk.LoopsIfEndless | layer/python/botocore/credentials.py:1757-1843 | If the first profile has no static keys: exactly if following source profiles never ends |
| ProfileWalk.FoundExactly | layer/python/botocore/credentials.py:1636-1843 | Credentials are found exactly if a walk along source profiles, none met twice, ends at one with its own credentials or at a credential source that yields some; they are those, behind the role of every profile of the walk in order |
| ProfileWalk.FailsExactly | layer/python/botocore/credentials.py:1636-1843 | Each other problem, too, ends the load exactly if there is a walk that ends with it, with the condition for it in the keys of the last profiles |
| ProfileWalk.LoadsOnce | layer/python/botocore/credentials.py:1615-1808 | A second load of a provider whose profile has another profile for its source raises the infinite-loop error |
| ShellSplit.Split | layer/python/botocore/compat.py:177-268 | The character loop computes the components, or the error |
| ShellSplit.FailsOnOddQuotes | layer/python/botocore/compat.py:197-256 | It fails exactly if the number of quotes behind an even run of backslashes is odd |
| ShellSplit.ComponentsAreRuns | layer/python/botocore/compat.py:177-268 | For every text that does not fail: the components are, in order, one for each maximal run of characters that are not blanks outside quotes, without its quotes and with its backslashes in front of quotes halved |
| ShellSplit.SplitsWhatWasWritten | layer/python/botocore/compat.py:177-268 | A line of arguments written by the documented rules, each in one or several pieces that are wrapped in quotes or not, with any blanks between, is split into exactly those arguments |
| Discovery.Manager.DescribeEndpoint | layer/python/botocore/discovery.py:181-222 | One call leaves cache, failures, clock and requests as specified |
| Discovery.Manager.RefreshEndpoints | layer/python/botocore/discovery.py:158-168 | One request, and what each kind of answer changes |
| Discovery.Manager.CurrentEndpoints | layer/python/botocore/discovery.py:152-156 | The endpoints not expired at the time of the one clock read |
| Discovery.OneRequest | layer/python/botocore/discovery.py:181-222 | A call makes at most one request, for its own key |
| Discovery.RequiredOrNot | layer/python/botocore/discovery.py:205-222 | A required operation never returns None; the refresh error is only for required ones, after a request, with nothing cached |
| Discovery.UsesTheCache | layer/python/botocore/discovery.py:194-197 | The first unexpired endpoint is used without a request |
| Discovery.UsedWhileFresh | layer/python/botocore/discovery.py:114-197 | In every run, for the latest answer with endpoints for the key since they were last deleted, given at time t: its first endpoint offered for p minutes with t + 60 p still to come is used, without a request |
| Discovery.AsksExactly | layer/python/botocore/discovery.py:181-222 | In every run with a clock that does not go back: a call makes a request exactly if the operation may use discovery, no endpoint of that answer is within its minutes, and the last lost connection is 60 seconds ago or the operation is required and that answer has no endpoints at all |
| Discovery.EndsExactly | layer/python/botocore/discovery.py:198-222 | In every run a call that finds no such endpoint ends with the error of its own request, else with the first endpoint of the answer it got or, if it got none, of the one before, however old; without any it ends with the refresh error or with None |
| Discovery.BacksOff | layer/python/botocore/discovery.py:170-222 | Over every run with a clock that does not go back: within 60 seconds of a failure a request is made only for a required operation with nothing cached |
| Discovery.FromLatestAnswer | layer/python/botocore/discovery.py:158-222 | An address comes from the latest answer with endpoints for its key |
| Sorting.SortedSame | layer/python/botocore/auth.py:261-276 | Sorting a permutation of a list gives the same list |
| Canonical.ParamsReordered | layer/python/botocore/auth.py:261-276 | The canonical query does not depend on the order of the params |
| Canonical.QueryReordered | layer/python/botocore/auth.py:278-292 | Nor on the order of the pieces of the URL's query |
| Canonical.HeadersReordered | layer/python/botocore/auth.py:294-320 | Canonical and signed headers do not depend on the order of headers beyond that within each name |
| Signing.CanonicalReordered | layer/python/botocore/auth.py:363-376 | The canonical request depends on neither order |
| Signatures.CanonicalLines | layer/python/botocore/auth.py:363-376 | Split at newlines the canonical request is the verb, the path, the query, one line for each signed header, an empty line, the signed names and the payload hash |
| Signatures.SignedNamesAre | layer/python/botocore/auth.py:235-249 | The signed names are the host and those of all headers but the unsigned ones, each once, in ascending order |
| Signatures.HeaderLineIs | layer/python/botocore/auth.py:294-316 | A header's line is its name, a colon, and its values with their white space trimmed, joined by commas, or the host |
| Signatures.NamesLineIs | layer/python/botocore/auth.py:318-320 | The line of signed names is the same names, joined by semicolons |
| Signatures.TrimmedWords | layer/python/botocore/auth.py:310-316 | Trimming a value keeps exactly its words |
| Signatures.QuerySays | layer/python/botocore/auth.py:251-292 | Split at its separators the canonical query has the params, percent-encoded, or without params the pairs of the URL's query, in the order of key and then value |
| Signatures.QueryBinds | layer/python/botocore/auth.py:261-276 | Two lists of pairs with one canonical query are permutations of each other |
| Signatures.HeaderLinesBind | layer/python/botocore/auth.py:294-310 | Equal header lines mean equal signed names and equal trimmed values under each |
| Signatures.HashFromHeader | layer/python/botocore/auth.py:371-375 | A payload hash among the headers is the one that is signed |
| Signatures.PayloadSays | layer/python/botocore/auth.py:322-361 | What is put for the payload says exactly whether the body has a trailing checksum, is unsigned, or is hashed, for plain and S3 signers |
| Signatures.BodyBinds | layer/python/botocore/auth.py:490-530 | Two requests that differ only in the body have one payload hash exactly if the body is not signed |
| Signatures.SignedText | layer/python/botocore/auth.py:398-408 | The text to sign has four lines: the algorithm, the timestamp, the scope and the hash of the canonical request |
| Signatures.AuthorizationReads | layer/python/botocore/auth.py:438-446 | Split at blanks the header value is the algorithm, the access key with the scope, the signed names and the signature |
| Signatures.CredentialParts | layer/python/botocore/auth.py:382-396 | Split at slashes the credential is the access key, the day of the timestamp, the region, the service and the final word |
| Signatures.SignatureBinds | layer/python/botocore/auth.py:363-446 | Two requests to which one signer gives the same header value at one time have equal verb, path, query, header lines, signed names and payload hash, or a collision of the hash functions on their texts has been found |
| Signatures.KeyFollowsScope | layer/python/botocore/auth.py:410-418 | The signing key is the secret with the parts of the scope hashed in one after the other, in the scope's order |
| Signatures.KeyBinds | layer/python/botocore/auth.py:410-418 | With keyed hashes that do not collide, equal signatures of one text mean that signers who differ in no more than one of secret key, day, region and service do not differ at all |
| Signatures.Verifies | layer/python/botocore/auth.py:420-446 | The signed request carries one `Authorization`, which is the one computed for what is sent beside it |
| Signing.SignableRequest.AddAuth | layer/python/botocore/auth.py:420-446 | Signing leaves the request as the specification says |
| Signing.SignableRequest.ModifyBeforeSigning | layer/python/botocore/auth.py:448-488 | The headers deleted and set before signing, for plain and S3 signers |
| Signing.PreparedForm | layer/python/botocore/auth.py:448-488 | They are the headers that are kept, in order, then a date, a token and a payload hash |
| Signing.SignTwice | layer/python/botocore/auth.py:420-488 | Signing again at the same time with the same credentials changes nothing |
| Signing.ResignExactly | layer/python/botocore/auth.py:420-488 | For all requests, times and pairs of signers: signing again gives what the second signer would give at once exactly if the first left the headers alone that the second does not clear |
| Signing.Resign | layer/python/botocore/auth.py:420-488 | For a request that came without token and payload hash: exactly if no token and no payload hash of the first signer stays behind |

## Left out

- Moves.DiffRoundTrip: its conditions on paths, positions and starts of moves are sufficient, not necessary: with one of them broken the patch may still be right, for example if equal values stand where the wrong element is taken; `Limits` has inputs against each, and the condition on `-` is exact. Lists that pair different containers are covered only without moves (`Nested.NestedRoundTrip`).
- Documents are values: that `apply` and `set` change the document in place, and that an added value is shared with the patch, is not captured.
- Scalars are integers with one equality and no subscripts: strings as sequences, and 1, 1.0 and True as equal but different values, are not modelled; `dumps` equality is equality.
- Array indices are canonical; that the expression at line 155 of `jsonpointer.py` lets other texts through is not modelled. Inside patches an `EndOfList` object is an error.
- `int()` of a token follows the ASCII rules (blanks, sign, single underscores), not those for other digits.
- TypeError, IndexError, ValueError and AttributeError are one error.
- JSON text, `multidict`, hashing and equality of operations, custom pointer classes, `test` and `copy` in recorded lists.
- DiffBuilder.Builder.TakeIndex: the key of the store is the value; its type is left out because the values have one type per shape.
- LruWrapper.Wrapper.Invoke: `cache_clear`, the cache per event loop and weak references are not modelled.
- LruTasks.ComputedExactlyOnce: runs without `cache_clear`.
- CallKeys.KeysExact: no argument is the sentinel itself.
- Worker processes: pipes, pickling and start-up messages are "succeeds or discards the process"; which kills raise is arbitrary and not tied to what has exited; one limiter serves all calls.
- Refreshing.Credentials.Refresh: the refresh source does not ask the same credentials again; field setters used from outside and `_normalize` are left out.
- RefreshThreads.StepInv: the tests for None and the first read of the expiry time in one check are one step; releasing the lock is part of the step that decides.
- Profile walk: role session details, feature identifiers and the deferred credentials' later refresh; the chain of providers and the credential sourcer are tables.
- ShellSplit.Split: the POSIX branch is the standard library's.
- Discovery: the cache key is opaque, `_gather_ids` and the event handler are left out, times are integers.
- Signing: hashes, percent-encoding, path normalisation and date formatting are arbitrary functions; the URL arrives split; the body is a string; query, post and express signing, and the error for missing credentials, are left out. Blanks and case of header text are ASCII.
- Signatures.SignatureBinds: for verb, path, query, host and header names without a newline, and digests without `=`; with a newline in one of them two requests can have the same lines.
- Signatures.QuerySays: the percent-encoding leaves no `&` and no `=`.
- botocore's client assembly, the agent and its infrastructure, and the runtime shims: wiring without properties of this kind.
