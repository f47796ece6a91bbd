# Verified model of a kernel list, two factorials and an epoll server

This project models the code in three C files and proves properties of it.

* **The circular doubly linked list of `util.c`** (`struct list_head`). `KernelList` has the nodes as objects with
  mutable `next` and `prev` fields and the primitives as methods that assign those fields. Every method says what the
  whole memory of any set of nodes is afterwards, as a function of what it was before (module `Links`), and returns as
  a ghost result the memory after each single store, so that the order of the stores is part of its contract.
  Everything else about lists is proved on those memory functions, for any pointer type:
  * `Rings`, `Traversals`, `Lists`: rings as sequences; insertion and removal at any position; frames; walks.
  * `Coherence`: the local invariant (neighbours point back) and why it is the same as being cut into rings; when
    exactly `INIT_LIST_HEAD`, `list_add` and `list_add_tail` keep it.
  * `Worlds`, `Refinement`: runs of any operations on any number of lists in one memory; the invariant of all runs,
    and the refinement of each run by a run on plain sequences.
  * `Undo`, `Histories`: exact undo; use as queue, stack, both; draining.
  * `StoreOrder`, `Readers`, `ReaderTheorems`: each store as a step of its own, interleaved with a forward reader.
  * `WriterTheorems`, `Interleavings`: the single stores add up to the whole operations, and neither side waits for the
    other.
  * `Embedding`: nodes inside objects in a flat address space, and `container_of`.
* **The two factorials of `factorial.c`** (`Factorial`, with `Powers`): word arithmetic of any width, and exactly when
  the result is 0 and when it is the true factorial.
* **The epoll event handlers of `server.c`** (`Connections`, `Calls`, `Unread`, `Service`, `Sockets`, `EventLoop`,
  `MainLoop`): a kernel object with a byte queue and an edge flag for each connection, and the handlers as methods with
  the loops of the source. The kernel keeps a record of the server's calls and their results; the contracts say which
  calls a handler makes of which results, and what it thereby does to the connections.
* **The device number macros of `util.c`** (`DeviceNumbers`).

## How the parts fit the source

`struct list_head` is not declared in the files; it is taken to have exactly the fields `next` and `prev`. The
validity hooks of `util.c:80-85` return true in the build without `CONFIG_DEBUG_LIST` and are not modelled. The offset
`POISON_POINTER_DELTA` is left open. A pointer is either a reference to a node or an address without a node
(`KernelList.Ptr`); the poison constants are two such addresses, and a memory function may only be applied where the
pointers it follows are nodes. `__list_add`, `__list_del` and `__list_del_entry` are named `InsertBetween`,
`JoinNeighbours` and `ListDelEntry` as methods, and `Add`, `DelStores` and `DelEntry` as functions.

In the whole-run model an operation is enabled when what it links, unlinks or is given as a head is what the
primitives expect: a head or an entry to delete is linked, and a node to initialise or add is unlinked or is the head
of an empty list. `Coherence.InitKeepsCoherence`, `ListAddKeepsCoherence` and `ListAddTailKeepsCoherence` show that
this condition on the added node is exact: without it the lists are corrupted.

The concurrent model has one writer, stores that take effect in program order, and a reader that follows `next` from a
list head. The writer may work on any lists. It deletes with `__list_del_entry`, does not delete the head of the
traversed list, and adds no node that was on the traversed list since the traversal began; a head that starts a
traversal is not the node being added. The ranking in the state (`Readers.Ranking`) is a history variable: it decides
which nodes may be added, and the reader does not look at it. `ReaderTheorems.RankIsHistory` shows that it ranks
exactly the nodes that were on the traversed list at some moment since the traversal began. An entry counts as linked
throughout a traversal when it is linked at its end; `ReaderTheorems.KeptThroughout` shows that it was then linked at
every moment of it.

In the server, the network acts before each call of the server that looks at sockets: it delivers any bytes, hangs up
or fails any connection, and brings clients, any finite number of times. `recv` may return any number of the available
bytes that fits, and reports a bad descriptor on one that is closed; so the second `close` of `server.c:81` after the
one of `server.c:85` is part of the model. A pending error may come before queued bytes or after them, and when it
comes before them the connection is marked as `cut`; with a kernel that hands over all bytes first, none ever is. The
end of the stream comes last. `accept` may fail although a client waits, and `refusals` counts how often it did.
`epoll_wait` reports at least one ready descriptor, and an empty result stands for waiting forever. Connections are
numbered as they are accepted, so that a descriptor that is used again is not taken for the connection that had it
before. An edge is pending on the listening socket when more clients have `arrived` than were `noticed` at its last
report. `EventLoop.EtNext`, `LtNext`, `EtEvent`, `LtEvent`, `Drain`, `DrainOnce`, `ReadDraining`, `CloseDrained`,
`ReadOrClose`, `ReadOnce`, `RecvAndPrint`, `AcceptOne` and `AcceptAndAdd` are the bodies of the loops and branches of
`et` and `lt`; `Service` and `Calls` hold what they establish, as predicates and lemmas on values.

That every client is accepted is not true of this server, since each event of the edge-triggered listening socket
accepts once. `MainLoop.Round` states exactly when a client is left waiting without an edge to announce it: when the
edge was taken, more clients were waiting than `accept` took, which is at most one, and none has arrived since. So two
clients that arrive before one `epoll_wait` are enough.

## Model

| member | source | states |
|---|---|---|
| `KernelList.ListHead.constructor` | util.c:70-71 | A head declared with `LIST_HEAD` points to itself both ways. |
| `KernelList.PoisonIsNoNode` | util.c:56-67 | For any configured offset the two poison values are that offset plus 256 and plus 512, and by the pointer type, which keeps nodes apart from bare addresses, they are the address of no node. |
| `KernelList.InitListHead` | util.c:72-75 | Of all nodes only `list` changes, and it points to itself. |
| `KernelList.InsertBetween` | util.c:90-97 | The memory of any set of nodes after `__list_add`, and after each of its four stores in their order; `Links.AddStoreByStore` says what that is. |
| `KernelList.ListAdd` | util.c:105-107 | `__list_add` between the head and its successor, with the exact frame and the memory after each store. |
| `KernelList.ListAddTail` | util.c:115-117 | `__list_add` between the head's predecessor and the head, with the exact frame and the memory after each store. |
| `KernelList.JoinNeighbours` | util.c:123-126 | The memory after `__list_del` and after each of its two stores; nothing but `prev.next` and `next.prev` is written. |
| `KernelList.ListDelEntry` | util.c:133-137 | The entry's own neighbours are joined; the entry's fields are not written. |
| `KernelList.ListDel` | util.c:139-143 | As `__list_del_entry`, and then the first poison value is stored in `next` and the second in `prev`; the memory after each store. |
| `Links.AddStoreByStore` | util.c:93-96 | Which fields of which nodes have been written after each store of `__list_add`, and with what: `next.prev`, the new node's `next`, its `prev`, and `prev.next` last; for all ways in which the nodes coincide. |
| `Links.DelStoreByStore` | util.c:124-125 | The same for `__list_del`: `next.prev` first, `prev.next` last. |
| `Links.AddSplices` | util.c:90-97 | The net effect of the four stores on every field of every node, for all ways in which the three nodes coincide. |
| `Links.DelBridges` | util.c:123-137 | The net effect of the two stores on every field of every node, aliased or not. |
| `Lists.ListAddInserts` | util.c:99-107 | `list_add` at any member of a ring inserts right after that member. |
| `Lists.ListAddTailInserts` | util.c:109-117 | `list_add_tail` at any member of a ring inserts right before that member. |
| `Lists.ListDelRemoves` | util.c:128-143 | Deletion removes exactly the given entry at whatever position, without the head; `list_del` leaves it poisoned. |
| `Lists.AddsElsewhere` | util.c:72-117 | Initialising or adding elsewhere leaves every other ring as it was. |
| `Lists.DelsElsewhere` | util.c:123-143 | Deleting elsewhere leaves every other ring as it was. |
| `Lists.AddsAtHead` | util.c:99-117 | Seen from the head, `list_add` puts the entry first and `list_add_tail` puts it last. |
| `Lists.DelsAtHead` | util.c:128-143 | Seen from the head, deleting entry number i takes out just that entry. |
| `Lists.TraversalsAfterAdd` | util.c:99-117 | What walks from the head along `next` and along `prev` meet after an add; the one is the reverse of the other. |
| `Lists.TraversalsAfterDel` | util.c:128-143 | The same after a deletion at any position. |
| `Traversals.WalksOfRing` | util.c:88-97 | A bounded walk along `next` meets the entries in order, and along `prev` in reverse order, position by position. |
| `Rings.RingUnique` | util.c:88-97 | The `next` pointers and the first node determine a ring. |
| `Rings.RingsDisjointOrRotated` | util.c:88-97 | Two rings are the same circle or have no node in common. |
| `Rings.RotateIsRing` | util.c:88-97 | A ring read from any of its members is a ring: the head is an ordinary node. |
| `Coherence.CoherentIffRings` | util.c:88-97 | Neighbours point back everywhere if and only if every linked node lies on a ring of linked nodes. |
| `Coherence.InitKeepsCoherence` | util.c:72-75 | `INIT_LIST_HEAD` keeps all lists intact if and only if no other node is linked to the node. |
| `Coherence.ListAddKeepsCoherence` | util.c:105-107 | `list_add` keeps all lists intact if and only if the added node is unlinked or alone. |
| `Coherence.ListAddTailKeepsCoherence` | util.c:115-117 | `list_add_tail` keeps all lists intact if and only if the added node is unlinked or alone. |
| `Coherence.ListDelKeepsCoherence` | util.c:139-143 | Deleting a linked node and poisoning it keeps all other linked nodes intact. |
| `Worlds.EnabledExactly` | util.c:72-143 | With linked heads and entries, what the runs ask of each operation is exactly that it keeps all lists intact. |
| `Worlds.RunLinks` | util.c:72-143 | After any run the linked nodes are those the operations linked and did not delete. |
| `Worlds.RunKeepsLists` | util.c:72-143 | After any run every linked node is its neighbours' neighbour and lies on exactly one cycle of linked nodes; cycles are equal or disjoint. |
| `Worlds.FollowOnRing` | util.c:88-97 | Any chain of links, forwards and backwards, leads as many places around the ring as it has moves forwards less moves backwards. |
| `Worlds.NeverReachesPoison` | util.c:61-67 | After any run no chain of links, forwards and backwards, leads from a linked node to a bad or poisoned one. |
| `Worlds.DeletedStaysPoisoned` | util.c:61-67 | After any run every node deleted and not initialised or added since is unlinked and holds both poison values, which are no nodes, so that using it again faults. |
| `Worlds.MoveConserves` | util.c:105-143 | Moving an entry by `list_del` and then `list_add` or `list_add_tail` conserves the linked nodes and the entries of both lists together, and puts it first or last. |
| `Refinement.RunRefines` | util.c:72-143 | Every run on linked memory yields, for every linked node, the circle that the same run on plain sequences yields. |
| `Undo.DelUndoesListAdd` | util.c:105-107 | `list_del` after `list_add` restores every other field of the memory if and only if the head's successor pointed back. |
| `Undo.DelUndoesListAddTail` | util.c:115-117 | `list_del` after `list_add_tail` restores every other field if and only if the head's predecessor pointed to it. |
| `Undo.RelinkUndoesDel` | util.c:133-137 | `__list_add(e, e.prev, e.next)` undoes `__list_del_entry(e)` exactly when e's neighbours pointed to it. |
| `Undo.RelinkAllUndoesDelAll` | util.c:90-137 | Any deletions, relinked in the opposite order, restore the whole memory, and no step follows a bad pointer. |
| `Histories.UseFollowsModel` | util.c:99-143 | Any mix of adds at both ends and deletions of `head->next` does to the entries what a double-ended queue does; an entry taken and not added again holds the poison values, and nodes that are neither there nor added do not change. |
| `Histories.EveryNodeAfterUse` | util.c:99-143 | After any mix every node of the memory is on the ring of the entries left, or was taken and holds the poison values, or is as it was. |
| `Histories.ModelConserves` | util.c:99-143 | In any mix, what is left and what was taken is what was there and what was added, each entry as many times. |
| `Histories.NewNodesAreProper` | util.c:99-117 | Different nodes that are not on the list may be added at either end in any order, with entries taken in between. |
| `Histories.QueueHistory` | util.c:113-117 | With `list_add_tail` only, what was taken followed by what is left is what was there followed by what was added; what was taken is poisoned. |
| `Histories.StackHistory` | util.c:103-107 | With `list_add` only, the deletion that closes a balanced run takes exactly the entry added before that run, and poisons it. |
| `Histories.DrainsInAsManySteps` | util.c:119-143 | Deleting `head->next` empties a list in exactly as many steps as it has entries, in order, poisons each of them, and leaves the head as initialised and all other nodes as they were. |
| `StoreOrder.AddIsOldOrNew` | util.c:93-96 | After each store of an add a forward reader sees the old list or the new one, and the last store is the switch. |
| `StoreOrder.DelIsOldOrNew` | util.c:123-126 | The same for a deletion. |
| `StoreOrder.OthersNeverSwitch` | util.c:90-126 | No single store changes what a forward reader of another list sees. |
| `Readers.WriterRun` | util.c:90-137 | Every run of the writer's single stores on any lists leaves it a known number of stores into an operation on intact lists. |
| `WriterTheorems.OperationCompletes` | util.c:90-137 | An add or a deletion that may begin can make all its stores, four or two, and then the memory is exactly what `list_add`, `list_add_tail` or `__list_del_entry` makes of it. |
| `WriterTheorems.RunIsSequential` | util.c:90-137 | Any run of single stores on any lists leads to the memory that the same operations make one after the other, each in one step. |
| `WriterTheorems.BeginsExactly` | util.c:99-117 | The writer may begin to add a node exactly when adding it keeps all lists intact. |
| `ReaderTheorems.StartsAnywhere` | util.c:93-126 | After any such run, also between two stores, a forward reader finds a complete list at every head that is not being added or deleted itself. |
| `ReaderTheorems.SeesBase` | util.c:93-126 | That list is the one from before the unfinished operation. |
| `ReaderTheorems.StartInvariant` | util.c:93-126 | A traversal that starts there satisfies the traversal invariant. |
| `ReaderTheorems.RankedLinkedIsList` | util.c:93-126 | In every reachable state the ranked nodes that are linked are exactly the traversed list. |
| `ReaderTheorems.RankIsHistory` | util.c:93-126 | In every reachable state the ranked nodes are exactly those that were on the traversed list at some moment since the traversal began. |
| `Readers.Run` | util.c:90-137 | Every interleaving of stores and reads keeps the traversal invariant. |
| `Readers.AddCompletes` | util.c:93-96 | The store that publishes an added node keeps the traversal invariant, with the node ranked between its neighbours. |
| `Readers.DelCompletes` | util.c:123-126 | The store that unlinks an entry keeps the traversal invariant; the entry's stale `next` still goes on in list order. |
| `ReaderTheorems.TraversalIsSafe` | util.c:93-96 | At any moment of any interleaving the reader stands on an initialised node and so is the next one, no node under way; it has visited no node twice, and none but entries that were on this list since it began. |
| `ReaderTheorems.TraversalEnds` | util.c:93-126 | The reader is back after at most one link for the head and one for each entry that was on this list since it began, whatever happens on other lists. |
| `ReaderTheorems.TraversalVisitsKept` | util.c:93-126 | A finished traversal visited every initial entry that is still linked exactly once, in list order. |
| `ReaderTheorems.KeptThroughout` | util.c:133-137 | An entry linked at the end of a traversal was linked at every moment of it. |
| `Interleavings.WriterIsFree` | util.c:90-137 | While a reader is on its way the writer may make every run it could make alone, if what it adds is new and it does not delete that list's head. |
| `Interleavings.UndisturbedTraversal` | util.c:93-126 | A reader that is not interrupted, even one that starts between two stores of an operation, meets the entries one by one in order and is back after one link for each and one for the head. |
| `Embedding.NodesAreDistinct` | util.c:43-45 | Each node lies inside its object; nodes of distinct objects or members share no byte; `container_of` finds the object with the right offset and no object with the other. |
| `Embedding.NodesAreLaidOut` | util.c:43-45 | Objects with two nodes each and list heads apart from them form a memory in which different nodes share no byte. |
| `Embedding.DeleteFromOneList` | util.c:43-45 | Deleting an object from one list through one member takes exactly that object off it and leaves the list through the other member alone. |
| `Embedding.PoisonAddresses` | util.c:66-67 | The poison values that `list_del` stores are these addresses, the first in `next` and the second in `prev`. |
| `Embedding.PoisonFaults` | util.c:51-67 | If the page at the configured offset is not mapped, the poison addresses, 256 and 512 bytes into it, are different, not null and no nodes, which is all that the results about runs ask of them. |
| `DeviceNumbers.UnpackIsDivMod` | util.c:146-148 | Shift and mask, both defined on bits, are quotient and remainder, for any number of minor bits. |
| `DeviceNumbers.ShiftRightIsQuotient` | util.c:147 | Dropping the lowest bit n times divides by 2^n. |
| `DeviceNumbers.ShiftLeftIsProduct` | util.c:149 | Putting a zero bit below n times, within a word, multiplies by 2^n modulo the word size. |
| `DeviceNumbers.MacroBits` | util.c:146-149 | Where each bit of the results of the three macros comes from, for all arguments, in range or not. |
| `DeviceNumbers.PackIsSum` | util.c:149 | Shift and or are a product and a sum for numbers in range. |
| `DeviceNumbers.UnpackPacked` | util.c:145-149 | Packing and unpacking gives both numbers back if and only if each fits its bits. |
| `DeviceNumbers.KernelUnpackPacked` | util.c:145-149 | With 20 minor bits in 32, that is: if and only if the major number is below 4096 and the minor number below 1048576. |
| `DeviceNumbers.PackUnpacked` | util.c:145-149 | Unpacking and packing gives every device number back, and both parts are in range. |
| `DeviceNumbers.MkDevOrdered` | util.c:149 | Device numbers are ordered as the pairs of major and minor numbers. |
| `Factorial.FactI` | factorial.c:12-17 | For every int and word width the loop returns n! modulo the word size, and what the recursion returns. |
| `Factorial.FactRIsFactorial` | factorial.c:5-10 | For every int and word width the recursion returns n! modulo the word size; 1 for negative n. |
| `Factorial.Legendre` | factorial.c:5-17 | n! has exactly n less the number of one bits of n factors two. |
| `Factorial.CollapsesExactly` | factorial.c:5-17 | The result is 0 if and only if n less its one bits is at least the word width. |
| `Factorial.CollapsesFrom66` | factorial.c:5-17 | In 64 bits the result is 0 if and only if n is at least 66. |
| `Factorial.ExactIffFits` | factorial.c:5-17 | The result is the true factorial if and only if that is smaller than the word size. |
| `Factorial.ExactUpTo20` | factorial.c:31-39 | In 64 bits the result is the true factorial if and only if n is at most 20; for 20 it is the recorded number. |
| `Connections.PrintConserves` | server.c:74-87 | Receiving and printing bytes keeps: printed buffers concatenated, then the queue, are what the peer sent. |
| `Connections.GrownConserves` | server.c:71-88 | Whatever the network does keeps the stream, and strands no connection that was not stranded before. |
| `Connections.EveryNumberIsThere` | server.c:38-58 | If as many connections are open or closed as were accepted, and all are numbered apart, then each accepted one is among them. |
| `Calls.EventAccepts` | server.c:38-58 | The calls that the handlers make for an event contain exactly one `accept` if it is about the listening socket, and none otherwise. |
| `Calls.BatchAccepts` | server.c:38-58 | The calls for a batch of events contain exactly one `accept` if the listening socket is in it, and none otherwise. |
| `Sockets.Kernel.Recv` | server.c:75 | Any 1 to `len` available bytes, the end when all were received, a pending error before or after the bytes, or "again" exactly when there is nothing to receive; the call is recorded. |
| `Sockets.Kernel.Accept` | server.c:43 | A descriptor that was not in use, with the next number and a connection that may already hold bytes; or -1 without effect, if no client waits or, which is counted, the kernel refuses; the call is recorded. |
| `Sockets.Kernel.AddFd` | server.c:26-34 | The connection is registered in the given mode, non-blocking and not stranded; nothing else of it and no other connection changes. |
| `Sockets.Kernel.EpollWait` | server.c:119 | At most `MAX_EVENT_NUMBER` distinct descriptors that were ready, an edge-triggered one with its edge pending, and exactly those lose their edge; none only if none can become ready. |
| `EventLoop.ReadOnce` | server.c:74-87 | One `memset`, `recv` and print: the stream is kept, the printed buffer holds 1 to 9 received bytes and then zero bytes, "again" means exactly that there is nothing to receive, and else no bytes mean that the connection is at its end. |
| `EventLoop.Drain` | server.c:71-89 | The connection stays open if it is seen with nothing to receive, and is closed only at its end; all that was sent before the call was received, or it is among the closed; the others only grow. The calls made are those of the loop: `recv` with `printf` or, at the end of the stream, `close`, until `recv` fails, and then `close` unless it said "again". |
| `EventLoop.AcceptOne` | server.c:65-70 | The calls made are one `accept` and one `addfd` of its result: a client is taken unless none waits or that `accept` was refused, the new connection is not stranded, and the others only grow. |
| `EventLoop.ReadOrClose` | server.c:46-55 | The calls made are one `recv` of 9 bytes, and `printf` of what came or, without bytes, `close`. |
| `EventLoop.Et` | server.c:61-93 | Afterwards no open connection has something to receive without a pending edge; every reported one was drained, or is closed at its end; connections without an event are open and only grew; none is lost; the calls made are those of the source for each event in turn, with one `accept` exactly if the listening socket was reported. |
| `EventLoop.Lt` | server.c:36-59 | Every connection reported readable was received from exactly once, or is closed at its end; connections without an event are open and only grew; none is lost; the calls made are those of the source for each event in turn, with one `accept` exactly if the listening socket was reported. |
| `MainLoop.Serve` | server.c:118-126 | Over any number of rounds of either handler: every connection ever accepted is open or was closed at its end, streams are conserved, closed ones were received completely unless `recv` returned an error before the rest, and none is stranded. |
| `MainLoop.Round` | server.c:119-125 | The calls made are one `epoll_wait` and then those of the handler for what it reported, with one `accept` exactly if it reported the listening socket; no connection is lost; a quiet network leaves less to receive each round, until there is nothing; and the exact condition under which a waiting client is left without an edge. |
| `MainLoop.ServeUntilIdle` | server.c:46-71 | In a quiet network, as many rounds of either handler as there is to receive are enough: every connection that was open is still open and received completely, or was closed at its end. |
| `Service.ServedNext` | server.c:38-58 | Dealing with one event does not undo what was done for the other events of the batch. |
| `Service.StepKeeps` | server.c:38-58 | One event loses no connection: each is still open, or among those closed since. |
| `Service.BatchNext` | server.c:38-58 | One event takes the whole account of a handler one event further: served, still to be served, kept, without an event, not stranded. |

## Left out

- Weak memory ordering, several writers, and backward readers during a half-done add.
- Readers standing on, or coming to, an entry that `list_del` poisons: the concurrent model deletes with `__list_del_entry`.
- The debug build's list checks, whose bodies are not in the repository.
- Embedding.ContainerOf: addresses are unbounded integers; the type check of the macro and pointer provenance are not modelled.
- Factorial.FactI: the bounded range of `int` is not modelled, since the result is stated for all integers; timing and recursion depth are not modelled.
- EventLoop.Drain: the network acts finitely often, so the loop ends; a peer that sends forever can keep `et` in it.
- EventLoop.Et: that every waiting client is accepted is not promised, because it is false; `MainLoop.Round` has the exact condition.
- EventLoop.Lt: the listening socket is treated in the same way; which ready sockets `epoll_wait` reports first is left open, so no bound is claimed on how long one connection waits while others keep receiving.
- MainLoop.ServeUntilIdle: clients that wait while no edge is pending on the listening socket are not accepted in it.
- MainLoop.Serve: the loop runs for a given number of rounds; an error of `epoll_wait`, the setup of sockets, arguments and printing of `%s` up to a zero byte are not modelled.
- `epoll.c`, `waitqueue.c`, `chardev.c`, `kmalloc.c`, `std-timer.c`, `input.c`, `bma150.c` and the other modules: glue around kernel calls that the repository does not contain.
- The copied kernel headers and `fs.c`: declarations without behaviour beyond the device number macros.
