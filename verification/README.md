# Hypercomm, modelled and proved in Dafny

Hypercomm layers collectives, a dynamic spanning tree, tasking and object-graph serialization on
Charm++. This project models five of its parts as small step systems and as classes, and proves what
they promise. All that is assumed of the runtime is that messages are delivered, in some order.

`dafny verify dfyconfig.toml` checks everything.

## The parts

**Object graphs.** `Graph` holds values, heaps and the printed form of a graph: each object is printed
once, later pointers are back-references, large blocks are deferred. `Parsing` reads it back,
`RoundTrip` says exactly which graphs survive, `IntactGraphs` gives a condition on the graph alone and
two graphs that do not survive. `Serdes` is the printer with its cursor, buffer and table of records, for
sizing and for packing, proved against `Graph`; `Unpacker` is the reader, proved against `Parsing`.
`WireFormat` says what is in the text in terms of the objects alone, `AnyText` what reading keeps when the text
was not printed.
`ZeroCopy` collects the deferred blocks and puts them in their places; `DeferredBlocks` follows a graph the
whole way; `PackDeferrable` has the size of a printed graph in closed form, and the size of its message,
`MessageRoundTrip` what is read out of that message.

**The spanning tree.** `BinaryTree` is the tree of nodes. `TreeBuilder` is the protocol that places
elements, as a state machine over all nodes with an invariant kept by every step; `SpanningTree` draws the
conclusions: no cycles, one tree at quiescence, termination. `Continuations` is about runs without
insertions and exactly when one aborts, `CountingWave` about exactly when their end is detected rightly.
`Adoption` is about who adopts, and where.
`TreeNode` is the builder of one node, updated in place. `Splicing` and `Deletion` are the removal of
elements, with edits that arrive in any order and forwarding records; `Interceptor` follows the records.
`Assembly` puts insertion, deletion and reductions together.

**Sections, reductions, broadcasts.** `Sections` is the algebraic tree over a list of members and the
counters of one member. `Reduction`, `ReductionSteps` and `ReductionRuns` prove that reductions are
exact, over any tree, with values arriving before their ports exist, reductions overtaking each other, and
children created in between; a static section is one case. `Vil` is one member, updated in place.
`Broadcast` covers broadcasts over channels that keep their order and over channels that do not.

**Workgroups.** `Workgroup`: tasks that wait for one continuation id at a time, with messages for other
ids buffered.

**Matching.** `Inbox` and `InboxRuns` (sets of values, one per port), `Mailbox` and `MailboxRuns` (values and
requests), `PostedBuffers` and `PostedRuns` (receive buffers and requests for them). The runs are accounted for
by the moments at which things came, without the lists that the code keeps.

A class is proved against the functions that say what each operation does; the functions carry the
invariants and the theorems over whole runs. A contribution is the multiset of (member, number) it
combines, the free commutative combination, through which every order-insensitive combiner factors.
Where the code keeps a hash map, the model allows every order of iteration.

## What turned out otherwise than intended

- A reference from inside a plain (not polymorphic) object to that object finds nothing when it is read, because
  the object is only recorded once it is complete. `RoundTrip.GraphRoundTrip` states exactly when a graph
  survives; `IntactGraphs.LoopIsCut` is the smallest graph that does not.
- A list item is read into a temporary and moved into the list, so that a pointer to a deferred block
  registered there waits at an address that is gone: `IntactGraphs.ListLosesBlock`.
- The assertion that deferred blocks come in the order of their numbers compares a number with a size. The
  blocks are in order; but as long as fewer objects are printed than the smallest deferred block has bytes,
  the assertion holds exactly for at most one of them: `DeferredBlocks.OrderAssertionIff`, and
  `DeferredBlocks.TwoBlocksRejected` for a graph with two.
- A value that can be reached from itself, and that is packed without its record because nothing in it is
  deferred, does not fit the message that was made for it: `PackDeferrable.MessageSizeIff`, and
  `PackDeferrable.SelfOverruns` for an object that points to itself. Whatever does fit is read back:
  `MessageRoundTrip.MessageReadBack`.
- Two elements that both claim to be the root of an empty node 0 lead to an abort:
  `Continuations.AbortsIffTwoClaims`, and `Continuations.TwoClaimsAbort` for a run of two insertions.
- Where no handler can abort, the counting wave is not sound while messages are in flight and some node with
  two child nodes does not know the endpoint, and is sound otherwise: `CountingWave.TrustedIffFlooded`, and
  `CountingWave.FloodFoolsCounting` for a run that fools it.
- New elements are to be spread over those with the fewest children; but the newest of a node has none, so that
  on a node without child nodes they form a chain: `Adoption.LeafNodesChain`.
- A broadcast that is overtaken by a later one is never accepted: `Broadcast.AllAcceptedIffInOrder`,
  `Broadcast.OvertakenIsLost`.
- A component that is activated after several sets were completed acts on them newest first:
  `Inbox.PersistentActivates`. The order is the intended one exactly if at most one set was completed in the
  meantime: `Inbox.ActivatesInOrderIff`, and `InboxRuns.LateStartReverses` for a run with two.
- Messages that the interceptor keeps for an index are released if and only if a forwarding record for that
  index is made, not when its element appears: `Interceptor.KeptUntilRecord`, `Interceptor.KeptIsOvertaken`.

## Model

| member | source | states |
|---|---|---|
| Graph.RecordRoundTrip | include/hypercomm/serialization/pup.hpp:200-223 | a pointer record of any kind is read back as it was written, whatever follows it in the text |
| WireFormat.RecordLayout | include/hypercomm/serialization/pup.hpp:200-223 | the bytes of a record: its kind from 1 to 4, then its words of eight bytes, lowest digit first |
| WireFormat.RecordOfPointer | include/hypercomm/serialization/pup.hpp:353-395 | what is found where a pointer was written: the number and the length of a block of at least 262144 bytes, if blocks may be left out; the number of an object written before; the next number and, for a polymorphic object, its type |
| Graph.EmitRanks | include/hypercomm/serialization/serdes.hpp:146-169 | objects get the numbers 1, 2, 3, ... in the order in which they are first met; a number is never given twice and never changes |
| Graph.PrintsWhatIsReached | include/hypercomm/serialization/pup.hpp:126-152 | what gets printed is exactly what can be reached from the value: it is closed under pointers and lies in every closed set that holds what the value points to |
| Graph.NumbersFit | include/hypercomm/serialization/serdes.hpp:146-153 | numbers stay within a machine word |
| Parsing.KeepsTrack | include/hypercomm/serialization/serdes.hpp:252-272 | while reading, references find exactly the objects met that are not deferred and not still being built as plain objects; exactly the deferred blocks met are waited for |
| Parsing.ReadBack | include/hypercomm/serialization/pup.hpp:229-264 | reading back what was printed always succeeds, consumes exactly that text, and gives the image of the value and of every object printed with it |
| AnyText.KnownStay | include/hypercomm/serialization/pup.hpp:229-264 | reading any bytes: an instance under the number of a known object is refused, and known objects never change |
| AnyText.ReadsShapes | include/hypercomm/serialization/pup.hpp:59-80 | reading any bytes: what is read has the shape of its type, in the value and in every object; pointers wait for blocks only where the type is one |
| RoundTrip.GraphRoundTrip | include/hypercomm/serialization/pup.hpp:400-419 | for every well-typed object graph: unpacking succeeds and uses up the bytes, pointers wait for exactly the deferred blocks, and the result is isomorphic to the graph (types, data, null, sharing) under some naming if and only if no pointer met in printing order leads back into a plain object still open and no list item points to a deferred block |
| RoundTrip.IntactIsCopied | include/hypercomm/serialization/pup.hpp:229-264 | if the printing-order condition holds, every object comes back with its type, its data and its pointers renamed by the record numbers |
| RoundTrip.CopiedIsIntact | include/hypercomm/serialization/pup.hpp:400-419 | if any naming makes the result a copy, the printing-order condition held |
| IntactGraphs.AcyclicIsIntact | include/hypercomm/serialization/pup.hpp:229-264 | graphs whose cycles run through polymorphic objects only, and whose list items do not point to deferred blocks, satisfy the printing-order condition |
| IntactGraphs.AcyclicRoundTrip | include/hypercomm/serialization/pup.hpp:126-187 | the promise as stated: such graphs come back isomorphic, cycles included |
| IntactGraphs.LoopIsCut | include/hypercomm/serialization/pup.hpp:400-419 | a plain object that points to itself comes back pointing to nothing |
| IntactGraphs.ListLosesBlock | include/hypercomm/serialization/pup.hpp:59-80 | a list item that points to a deferred block is moved into the list before the block arrives, and never gets it |
| IntactGraphs.BlocksOk | include/hypercomm/serialization/pup.hpp:353-395 | such a graph exists: one block of the deferral size |
| Serdes.Printer.GetRecord | include/hypercomm/serialization/serdes.hpp:145-169 | the record of an object is new, or met before by this serializer (an instance becomes a reference, a deferral stays), or left by another one (it becomes an instance of this one, under its old number) |
| Serdes.Printer.Register | include/hypercomm/serialization/pup.hpp:353-395 | a pointer turns into a reference, an instance, or a deferral with the size in place of the type; a deferral is set aside under its number |
| Serdes.Printer.Copy | include/hypercomm/serialization/serdes.hpp:233-247 | the cursor advances by the length in any state; only a packer writes, and writes exactly these bytes |
| Serdes.Printer.Acquire | include/hypercomm/serialization/serdes.hpp:100-107 | the records move from one serializer to the other, which is left with none |
| Serdes.Printer.Pup | include/hypercomm/serialization/pup.hpp:126-152 | whatever agreeing records the table started with, a value is printed as a fresh printer would and the cursor advances by exactly that much; the table and the set-aside blocks agree with the numbering afterwards |
| Serdes.Size | include/hypercomm/serialization/pup.hpp:33-41 | the sizing pass gives the length of what will be packed, and a table that holds every object under its number |
| Serdes.Pack | include/hypercomm/messaging/packing.hpp:21-31 | size, hand over the records, pack: the buffer of the computed size is filled exactly, never overrun, with the bytes of a fresh packer; the size assertion cannot fail |
| Serdes.WhichEntry | include/hypercomm/serialization/serdes.hpp:146-169 | an acquired record is taken for new exactly on first encounter, and its number is the one a fresh table would give |
| Unpacker.Reader.CopyRecord | include/hypercomm/serialization/pup.hpp:200-223 | the record at the cursor, or nothing where the text ends or the kind is unknown |
| Unpacker.Reader.Pup | include/hypercomm/serialization/pup.hpp:229-264 | the reader with its cursor and tables does what the recursive definition of reading says |
| ZeroCopy.Collector.Arrive | include/hypercomm/core/zero_copy_value.hpp:21-35 | a block is stored at the place of its buffer and counted; a block for an unknown buffer is refused and changes nothing |
| ZeroCopy.ReadyOnce | include/hypercomm/core/zero_copy_value.hpp:17-35 | blocks that arrive once each, in any order, make the value ready after the last one and at no time before, with each block at its own place |
| ZeroCopy.ToTyped | include/hypercomm/core/typed_value.hpp:208-228 | the i-th block is put in for the i-th waiting number, for all of them in turn |
| DeferredBlocks.DeferredReturn | include/hypercomm/core/typed_value.hpp:208-228 | for every well-typed graph: as many numbers wait as blocks were set aside, in the same order; the value is ready after all blocks have arrived in any order; put in their places they serve every waiting pointer; and the whole is the graph that was sent, under some naming, if and only if the printing-order condition holds |
| DeferredBlocks.AllServed | include/hypercomm/serialization/serdes.hpp:214-221 | no pointer waits any more, in the value or in any object; a pointer that waited for a number leads to the block set aside under it; nothing else has changed |
| WireFormat.SetAsideIff | include/hypercomm/serialization/pup.hpp:382-391 | the blocks set aside are exactly those met that may be left out and have at least 262144 bytes |
| WireFormat.AnnouncedSize | src/hypercomm/messaging/interceptor.cc:49-62 | each block is announced with the length of the bytes that arrive for its number |
| WireFormat.OtherBlocksInline | include/hypercomm/serialization/pup.hpp:391-395 | every other block is read back where it was written, byte by byte |
| DeferredBlocks.TogetherIsIntact | include/hypercomm/serialization/pup.hpp:353-395 | only a graph that satisfies the printing-order condition is put together again, under whatever names |
| DeferredBlocks.OrderAssertionIff | include/hypercomm/serialization/serdes.hpp:193-212 | the assertion on the order of the deferred blocks, on the blocks that packing sets aside: with fewer objects than the smallest deferred block has bytes it holds exactly if at most one block is deferred |
| DeferredBlocks.TwoPassIff | include/hypercomm/serialization/serdes.hpp:204-211 | two announcements pass the comparison exactly if the number of the second is the size of the first |
| DeferredBlocks.AnnouncedInOrder | include/hypercomm/serialization/serdes.hpp:193-200 | the blocks are announced in the order of their numbers, whatever that assertion says |
| DeferredBlocks.TwoBlocksRejected | include/hypercomm/serialization/serdes.hpp:201-211 | a well-typed graph with two deferred blocks, what packing sets aside for it, and that the assertion rejects it |
| PackDeferrable.GraphSize | include/hypercomm/serialization/serdes.hpp:227-249 | the size of a printed graph in closed form: the value with a record for each pointer, and for each object printed along its type and its content, once |
| PackDeferrable.MessageSizeIff | src/hypercomm/messaging/interceptor.cc:22-79 | the size a message with deferrable blocks is made for is the size written into it exactly if some block is deferred, or the value is a pointer, or the value cannot be reached from itself |
| PackDeferrable.SelfOverruns | src/hypercomm/messaging/interceptor.cc:44-79 | a well-typed graph whose message is too small: the size made for it, and the size written |
| MessageRoundTrip.UnderIs | include/hypercomm/serialization/serdes.hpp:146-169 | a packer that goes on with the records of a sizing pass writes what a fresh one would, as long as it meets nothing that was numbered but not written |
| MessageRoundTrip.MessageReadBack | include/hypercomm/core/typed_value.hpp:169-177 | whenever the size assertion holds, what is written is read back and used up, behind a record or without, blocks deferred or not: pointers wait for exactly the deferred blocks, and the value is the one that was sent, under some naming, if and only if the printing-order condition holds for it |
| BinaryTree.ComputeLeaves | include/hypercomm/core/math.hpp:45-57 | the children of a node among the first max nodes, left before right |
| BinaryTree.ChildIffParent | include/hypercomm/core/math.hpp:29-57 | a node is listed as a child, once, exactly by its parent |
| BinaryTree.DepthIsLog | include/hypercomm/core/math.hpp:29-43 | node i lies at depth floor(log2(i + 1)) |
| BinaryTree.RootAboveAll | include/hypercomm/core/math.hpp:40-43 | every node other than 0 has 0 above it |
| TreeBuilder.CounterConservation | include/hypercomm/tree_builder/tree_builder.hpp:262-318 | every step keeps the sum of the counters over all nodes equal to the number of messages in flight |
| TreeBuilder.StepKeeps | include/hypercomm/tree_builder/tree_builder.hpp:262-318 | every insertion and every handler keeps the protocol invariant: links, order of registration, one token per unplaced element, the flood |
| TreeBuilder.AskerFound | include/hypercomm/tree_builder/tree_builder.hpp:412-424 | the element that a reply places is the one that asked: on its node nobody else is unplaced |
| SpanningTree.HandledUnlessAborts | include/hypercomm/tree_builder/tree_builder.hpp:262-318 | a message can be handled, by some choice of element, exactly if it is not a request at an empty node 0 with the endpoint set; announcements find no endpoint before them, replies find exactly the asker |
| Continuations.AbortsIffTwoClaims | include/hypercomm/tree_builder/tree_builder.hpp:359-375 | once insertions have stopped, some run of handlers aborts if and only if node 0 is empty and two elements claim to be the root, by a request that will reach it or by the endpoint registered there |
| Continuations.TwoClaimsAbort | include/hypercomm/tree_builder/tree_builder.hpp:262-268 | a run of two insertions on the child nodes of an empty node 0, after which the assertion fails |
| Continuations.HandleAll | include/hypercomm/tree_builder/tree_builder.hpp:262-318 | any set of messages can be held back while all others that do not abort are handled, to the last |
| SpanningTree.ParentsComeFirst | include/hypercomm/tree_builder/tree_builder.hpp:388-440 | each parent link leads to an element registered earlier on the same node, or to an element on a node above |
| Adoption.AdopterHasFewest | include/hypercomm/tree_builder/tree_builder.hpp:388-408 | whoever is given a child had the fewest children on its node |
| Adoption.LeafNodesChain | include/hypercomm/tree_builder/tree_builder.hpp:446-465 | in every reachable state the elements of a node without child nodes form a chain, each newcomer below the one before it |
| Adoption.RequestsAlwaysStop | include/hypercomm/tree_builder/tree_builder.hpp:426-440 | in every reachable state requests, answered or in flight, have only passed nodes that had no element at some moment since they were made: the first node with elements adopts |
| SpanningTree.NoCycle | include/hypercomm/tree_builder/tree_builder.hpp:388-408 | parent links never lead back: no cycle in any reachable state |
| SpanningTree.QuiescentTree | include/hypercomm/tree_builder/tree_builder.hpp:359-465 | with nothing in flight all nodes name the same root, which has no parent; every other element has exactly one parent and is listed once, by that parent only |
| SpanningTree.ReachedFromRoot | include/hypercomm/tree_builder/tree_builder.hpp:426-465 | every element is reached from the root through lists of children |
| SpanningTree.SpanningTreeAtQuiescence | include/hypercomm/tree_builder/tree_builder.hpp:359-465 | the two together, for every state without messages of every run |
| CountingWave.CountersFall | include/hypercomm/tree_builder/tree_builder.hpp:286-318 | once every node with two child nodes knows the endpoint, a handler can only lower a counter |
| CountingWave.StaggeredCounting | src/hypercomm/tree_builder/tree_builder.ci:16-29 | from then on, with insertions stopped, counters read at any different times that sum to zero mean that nothing is in flight after the last reading |
| CountingWave.Fooled | src/hypercomm/tree_builder/tree_builder.ci:16-29 | before, from any reachable state with messages in flight that can all be handled: a run of handlers and reading times that sum to zero with a message in flight |
| CountingWave.TrustedIffFlooded | src/hypercomm/tree_builder/tree_builder.ci:16-29 | so, in states from which no handler can abort, the wave can be trusted if and only if every node with two child nodes knows the endpoint, or nothing is in flight |
| CountingWave.TrustedAlongRuns | src/hypercomm/tree_builder/tree_builder.ci:16-29 | the same for every state of every run, as long as no handler can abort from there |
| CountingWave.FloodFoolsCounting | src/hypercomm/tree_builder/tree_builder.ci:16-29 | a concrete run on five nodes that fools the wave |
| SpanningTree.MessagesEnd | include/hypercomm/tree_builder/tree_builder.hpp:262-318 | every handler lowers a measure, so finitely many insertions cause finitely many messages |
| TreeNode.Builder.FindTarget | include/hypercomm/tree_builder/tree_builder.hpp:388-408 | a local element with the fewest children, or none where there is no element, in any order of the hash map |
| TreeNode.Builder.FindUnplaced | include/hypercomm/tree_builder/tree_builder.hpp:388-397 | a local element without a settled parent, or none where all are settled |
| TreeNode.Builder.Register | include/hypercomm/tree_builder/tree_builder.hpp:262-282 | the endpoint is recorded, marked if local, announced to each child node, and the counter moves by their number less one |
| TreeNode.Builder.Ask | include/hypercomm/tree_builder/tree_builder.hpp:358-375 | the request goes to the parent node, or the element becomes the endpoint at node 0; the counter rises by one |
| TreeNode.Builder.RegDownstream | include/hypercomm/tree_builder/tree_builder.hpp:426-440 | a local element with the fewest children adopts, or the request goes on |
| TreeNode.Builder.AssociateElement | include/hypercomm/tree_builder/tree_builder.hpp:446-465 | a new element gets a local parent, or is sent upstream |
| TreeNode.Builder.ReceiveRequest | include/hypercomm/tree_builder/tree_builder.hpp:298-318 | a request is answered by the adopting element, or passed on with the counter unchanged in all |
| TreeNode.Builder.ReceiveReply | include/hypercomm/tree_builder/tree_builder.hpp:284-296 | the asker gets its parent and the counter falls by one |
| TreeNode.Builder.Disassociate | include/hypercomm/tree_builder/tree_builder.hpp:467-500 | a dying element leaves the registry, sends its parent its children as replacement, and asks for a forwarding record exactly if it has any |
| Splicing.Manageable.ReplaceDownstream | include/hypercomm/tree_builder/manageable.hpp:203-220 | all new indices but the first are listed, the replacement is staged, and staged edits whose index is present are carried out |
| Splicing.Manageable.AddDownstream | include/hypercomm/tree_builder/manageable.hpp:121-138 | the index is listed once more |
| Splicing.Manageable.ResolveTransactions | include/hypercomm/tree_builder/manageable.hpp:63-117 | the loop ends and leaves no staged edit whose index is present |
| Splicing.ReplaceConserves | include/hypercomm/tree_builder/manageable.hpp:203-220 | the list and what is staged together always account for exactly the edits received |
| Splicing.ReplacedInPlace | include/hypercomm/tree_builder/manageable.hpp:203-220 | the first replacement takes the place of the index replaced, the others join at the end; without any the index is taken out |
| Splicing.ReplacementWaits | include/hypercomm/tree_builder/manageable.hpp:203-220 | while the index replaced is not listed the first replacement is staged behind all others, the others join at once |
| Splicing.StagedEmptyIff | include/hypercomm/tree_builder/manageable.hpp:63-117 | nothing stays staged exactly when every deleted index is supplied often enough by the list or by other edits |
| Splicing.Confluence | include/hypercomm/tree_builder/manageable.hpp:63-117 | replace messages in any two orders leave the same downstream multiset and nothing staged |
| Deletion.StepKeeps | include/hypercomm/tree_builder/tree_builder.hpp:469-500 | creation, death, installing a record, a hop and a delivery all keep the deletion invariant |
| Deletion.DeletionExact | include/hypercomm/tree_builder/tree_builder.hpp:469-500 | in every reachable state a live element's list, resolved against all its staged and undelivered splices, is exactly the live elements whose nearest live ancestor it is, each once |
| Deletion.SettledTree | include/hypercomm/tree_builder/tree_builder.hpp:469-500 | with nothing in flight nothing is staged, and the lists themselves are exact |
| Deletion.ForwardingReachesOwner | src/hypercomm/messaging/interceptor.cc:306-322 | following forwarding records from any live element's recorded parent terminates at its nearest live ancestor |
| Deletion.RecordedIff | include/hypercomm/tree_builder/tree_builder.hpp:469-500 | a forwarding record for an element is there or asked for exactly if it died while it listed children |
| Deletion.NewChildLast | include/hypercomm/tree_builder/manageable.hpp:121-138 | a child that is made is listed last, and no other list is touched |
| Deletion.MiddleDies | include/hypercomm/tree_builder/tree_builder.hpp:469-500 | a run: an element with a child dies, its child takes its place in the list of its parent, and its record is made |
| Deletion.FlightsEnd | src/hypercomm/messaging/interceptor.cc:401-430 | while anything is in flight some step is possible, and each brings the end nearer: every splice arrives |
| Interceptor.Dealias | src/hypercomm/messaging/interceptor.cc:306-322 | following records ends at an index without one |
| Interceptor.OneEnd | src/hypercomm/messaging/interceptor.cc:306-322 | records lead from an index to one index without a record |
| Interceptor.Local.Send | src/hypercomm/messaging/interceptor.cc:401-430 | a message goes to the element of the index where the records end, or is kept at its home, or is sent on |
| Interceptor.Local.ResyncQueue | src/hypercomm/messaging/interceptor.cc:289-303 | the messages kept for an index are tried again, each once, in order |
| Interceptor.Local.Forward | src/hypercomm/messaging/interceptor.cc:324-346 | a new record is made and what was kept for its index released; a second record for the same index is refused |
| Interceptor.AlwaysCalm | src/hypercomm/messaging/interceptor.cc:324-346 | over any run of sends, records and appearing or vanishing elements, no message is kept where a record leads on |
| Interceptor.RunConserves | src/hypercomm/messaging/interceptor.cc:289-346 | over any run each message is kept, handed to its element, or sent on, once |
| Interceptor.NextPlaces | src/hypercomm/messaging/interceptor.cc:401-430 | each step hands messages to the element where records lead if it is here, keeps them behind those kept if it is not but this processor is its home, and sends them on in all other cases; what was kept for the index of a new record is released, in its order |
| Interceptor.RunPlaces | src/hypercomm/messaging/interceptor.cc:401-430 | over any run what was handed over reached its own element, which was here then; what was sent on was for an element that was not here then, and whose home is elsewhere |
| Interceptor.RunKeepsAtHome | src/hypercomm/messaging/interceptor.cc:419-424 | over any run messages are kept only for indices whose home is here |
| Interceptor.KeptUntilRecord | src/hypercomm/messaging/interceptor.cc:289-303 | messages kept for an index stay, in order, if and only if no record for that index is made, though its element may appear |
| Interceptor.KeptIsOvertaken | src/hypercomm/messaging/interceptor.cc:401-430 | a message kept for an element that appears afterwards is overtaken by a later one: a concrete run |
| Sections.Identity.NextReduction | include/hypercomm/sections/identity.hpp:27-27 | reductions are numbered from the seed on without gaps |
| Sections.Identity.AcceptBroadcast | include/hypercomm/sections/identity.hpp:36-43 | a broadcast is accepted exactly if it is later than all accepted before |
| Sections.Identity.FindUpstream | include/hypercomm/sections/section_identity.hpp:52-65 | the members at the child ordinals; an index that is not a member is an error |
| Sections.Identity.FindDownstream | include/hypercomm/sections/section_identity.hpp:41-50 | the member at the parent ordinal, or none for the first member |
| Sections.OrdinalFor | include/hypercomm/sections/section.hpp:27-31 | the first position of an index in the list of members, -1 exactly if it is not there |
| Sections.LinksFit | include/hypercomm/sections/section_identity.hpp:41-65 | b is above a exactly when a is the one below b, and then listed once; only the first member has none below |
| Reduction.FullIsComplete | src/hypercomm/core/locality.cc:396-447 | a full reducer holds its own value and one of each child that takes part, so its output is their combination, in whatever order they came |
| ReductionSteps.TooEarly | src/hypercomm/core/locality.cc:142-165 | a value whose port is closed is early, never late: its reduction is one the member has not contributed to |
| ReductionSteps.StepKeeps | include/hypercomm/core/locality.hpp:150-184 | contributions, deliveries and new children keep the invariant: each value a member puts out is in flight, queued, held, or combined, and in exactly one of these |
| ReductionSteps.GrownKeeps | include/hypercomm/tree_builder/tree_builder.hpp:222-240 | a child created between contributions is seeded with its parent's number and awaited from there on, by no reduction before |
| ReductionRuns.SubtreeExact | src/hypercomm/core/locality.cc:396-447 | what a member sends up for reduction c combines exactly the contributions c of the members below it that take part |
| ReductionRuns.ReductionExact | src/hypercomm/core/locality.cc:396-447 | for any tree, pace, order and creation of children: a result combines contribution c of exactly the members whose first reduction is at most c, each once; one result per number |
| ReductionRuns.ReductionCompletes | include/hypercomm/core/locality.hpp:150-184 | once all of them have contributed c times and all is delivered, the callback has fired exactly once for c |
| ReductionRuns.StaticReduction | include/hypercomm/core/locality.hpp:150-184 | over any tree whose members start at the same number and create no children: each result combines the contributions of all members, once each |
| ReductionRuns.SectionReduction | include/hypercomm/core/locality.hpp:150-184 | the same for a static section of any n members in the binary tree |
| ReductionRuns.LinkedIffSection | include/hypercomm/sections/section_identity.hpp:41-65 | the identities of distinct members link them, upstream and downstream, as the binary tree over their ordinals and in no other way |
| ReductionRuns.MembersReduction | include/hypercomm/sections/section_identity.hpp:41-65 | the same for a section of any distinct members that are linked, upstream and downstream, as their identities say: exactly one contribution of each member |
| ReductionRuns.MessagesEnd | src/hypercomm/core/locality.cc:142-165 | no message is ever stuck, and each delivery brings the messages closer to the root |
| Assembly.BuiltIsTree | include/hypercomm/tree_builder/tree_builder.hpp:359-465 | with nothing in flight, what the elements recorded above and below them is one tree, in which births order parents before children |
| Assembly.DeletionStarts | include/hypercomm/tree_builder/tree_builder.hpp:469-500 | any such tree is a state from which the deletion protocol starts |
| Assembly.LeftIsTree | include/hypercomm/tree_builder/tree_builder.hpp:469-500 | once all splices are delivered, the live elements are such a tree again, each below its nearest live ancestor |
| Assembly.ReductionStarts | src/hypercomm/core/locality.cc:396-447 | any such tree, its elements numbered in any order that lists parents first, is a state from which reductions start |
| Assembly.InsertThenReduce | include/hypercomm/core/locality.hpp:150-184 | for every run of static insertion that has come to rest, and every run of reductions over the tree it has built: once all elements have contributed to c and all is delivered, there is one result for c, with contribution c of each element once |
| Assembly.InsertThenDelete | include/hypercomm/tree_builder/tree_builder.hpp:469-500 | for every run of static insertion that has come to rest, and every run of deletions from the tree it has built: lists and undelivered splices account for exactly the live elements below each |
| Assembly.DeleteThenReduce | include/hypercomm/core/locality.hpp:150-184 | for every run of deletions that has come to rest, reductions are exact over what is left |
| Vil.Member.Act | src/hypercomm/core/locality.cc:396-447 | a value enters the reducer; the last one makes it put out the combination and closes its ports |
| Vil.Member.Receive | src/hypercomm/core/locality.cc:142-165 | a value goes through an open port, or is queued for it |
| Vil.Member.Connect | src/hypercomm/core/locality.cc:96-111 | an opened port drains its queue, in order, into the inactive reducer |
| Vil.Member.Activate | src/hypercomm/core/locality.cc:356-372 | an activated reducer works off what came before, newest first |
| Vil.Member.LocalContribution | include/hypercomm/core/locality.hpp:155-184 | the next number, a port per child, the drained queues, the local value: the next state and output of a contribution |
| Vil.AlwaysSafe | include/hypercomm/core/locality.hpp:155-184 | in every reachable state no child is listed twice and no port has two values queued, so a contribution is always possible |
| Broadcast.Act | include/hypercomm/core/broadcaster.hpp:33-59 | a copy with the number goes to each child, then the broadcast is accepted or not; without a number it takes the next one and is accepted |
| Broadcast.InOrderExactlyOnce | include/hypercomm/core/broadcaster.hpp:33-59 | with channels that keep their order every member accepts 1, 2, 3, ..., each once, and all of them once everything is delivered |
| Broadcast.AnyOrder | include/hypercomm/core/broadcaster.hpp:33-59 | with any reordering every broadcast reaches every member once, what is accepted is strictly increasing, and all are accepted exactly if they came in order |
| Broadcast.AllAcceptedIffInOrder | include/hypercomm/sections/identity.hpp:36-43 | of m broadcasts that arrive in some order all are accepted if and only if the order is 1 to m |
| Broadcast.OvertakenIsLost | include/hypercomm/core/broadcaster.hpp:33-59 | two broadcasts that overtake each other: the earlier one is lost, in a concrete run |
| Workgroup.RunSettles | src/hypercomm/tasking/workgroup.cc:54-150 | any run leaves the slot that feeding the finished queues to the task would: messages before creation or before their continuation are neither lost nor reordered |
| Workgroup.NothingLost | src/hypercomm/tasking/workgroup.cc:69-90 | per continuation id, what was consumed followed by what is buffered is what arrived, in order |
| Workgroup.TaskIsContinued | src/hypercomm/tasking/workgroup.cc:113-146 | over any run the task held is the created one after its continuations have run on the payloads consumed, in their order, each for the continuation it waited at then; once inactive it is not held and consumes nothing; nothing is left buffered for the continuation it waits at |
| Workgroup.Determinism | src/hypercomm/tasking/workgroup.cc:54-150 | two arrival orders that agree per task and continuation id give every task the same consumed messages, state and buffers |
| Workgroup.Group.Create | src/hypercomm/tasking/workgroup.cc:54-67 | the task starts, consumes what is buffered for it as far as it goes, or is dropped if inactive; no other task changes |
| Workgroup.Group.ResumeMessage | src/hypercomm/tasking/workgroup.cc:92-97 | a message is consumed if the task waits for its id, and what follows is drained; otherwise it is buffered |
| Workgroup.Group.TryResume | src/hypercomm/tasking/workgroup.cc:113-146 | a message is taken exactly if the task is there and waits for its id |
| Workgroup.Group.TryContinue | src/hypercomm/tasking/workgroup.cc:69-90 | buffered messages are consumed until none is there for the current continuation |
| Workgroup.Group.BufferMessage | src/hypercomm/tasking/workgroup.cc:148-150 | the message joins the end of the queue of its task and id |
| Inbox.FindGap | include/hypercomm/components/inbox.hpp:41-53 | the hindmost set without a value for a port |
| Inbox.FindReady | include/hypercomm/components/inbox.hpp:29-39 | the foremost complete set |
| Inbox.AcceptTracks | include/hypercomm/components/component.hpp:255-280 | with two or more ports, value k of each port always meets in set k; an active component acts only on its oldest set, when it completes; the rest is handed back if it is not persistent |
| Inbox.OnePortTracks | include/hypercomm/components/component.hpp:237-247 | with one port an active component acts on each value at once, an inactive one stores it in front |
| Inbox.PersistentActivates | include/hypercomm/components/component.hpp:127-135 | activation of a persistent component acts on all sets completed meanwhile, the newest first |
| Inbox.OnceActivates | include/hypercomm/components/component.hpp:127-146 | activation of any other acts on the newest complete set and hands the others back |
| Inbox.ActivatesInOrderIff | include/hypercomm/components/component.hpp:127-135 | the sets completed meanwhile are acted on in the order of the zip if and only if there is at most one; values of some port that differ tell the sets apart |
| Inbox.ZipOfQueues | include/hypercomm/components/component.hpp:255-280 | a persistent component active throughout acts on sets 0, 1, 2, ... in order, as many as all ports can fill, and hands nothing back |
| InboxRuns.RunRefinesQueues | include/hypercomm/components/component.hpp:127-146 | over all runs of arrivals, activations and deactivations, persistent or not, one port or more: what is acted on, handed back and stored is that of one queue per port, whose values meet by their numbers since everything was last handed back |
| InboxRuns.RunConserves | include/hypercomm/components/component.hpp:176-197 | over all runs each value that has arrived has been acted on, is stored, or has been handed back, once |
| InboxRuns.LateStartReverses | include/hypercomm/components/component.hpp:127-135 | a run in which two sets are completed before the activation, and the later one is acted on first |
| Inbox.Component.AcceptValue | include/hypercomm/components/component.hpp:237-280 | the acceptor, for one port and for several |
| Inbox.Component.Activate | include/hypercomm/components/component.hpp:127-135 | the activation loop |
| Inbox.Component.FindGapFor | include/hypercomm/components/inbox.hpp:41-53 | the search from the back |
| Inbox.Component.FindReadySet | include/hypercomm/components/inbox.hpp:29-39 | the search from the front |
| Inbox.Component.Stage | include/hypercomm/components/component.hpp:176-197 | the set is used up; a component that is not persistent then hands back the rest |
| Mailbox.RunRests | include/hypercomm/components/mailbox.hpp:51-109 | at rest no buffered value matches a waiting request, after any events and any failures of delivery |
| Mailbox.OldestTakes | include/hypercomm/components/mailbox.hpp:84-109 | a value goes to the oldest matching request whose delivery succeeds, or is buffered; older ones that fail are dropped; all others stay in order |
| Mailbox.OldestTaken | include/hypercomm/components/mailbox.hpp:51-63 | a request takes the oldest value that matches it |
| Mailbox.RunConserves | include/hypercomm/components/mailbox.hpp:51-109 | over any run, values are buffered or delivered as often as they arrived, requests wait, are delivered to or dropped as often as they were put |
| MailboxRuns.RunKeepsAccount | include/hypercomm/components/mailbox.hpp:51-109 | over any run requests wait in the reverse order of their putting, values in the order of their arrival; a value went to the earliest-put waiting request that matched and could be delivered to, those earlier that could not being dropped, earliest first; a request took the earliest-arrived value that matched |
| MailboxRuns.ActAccounts | include/hypercomm/components/mailbox.hpp:84-109 | delivering one value: who gets it, who is dropped, and who still waits, by the moments at which they came |
| Mailbox.Box.PutRequest | include/hypercomm/components/mailbox.hpp:51-82 | the new request takes a buffered value or waits at the front |
| Mailbox.Box.Action | include/hypercomm/components/mailbox.hpp:84-109 | the redelivery recursion ends, with the outcome described above |
| Mailbox.Box.SearchRequests | include/hypercomm/components/mailbox.hpp:122-130 | the search from the back, for the oldest match |
| Mailbox.Box.SearchBuffer | include/hypercomm/components/mailbox.hpp:112-120 | the search from the front, for the oldest match |
| PostedBuffers.AlwaysApart | src/hypercomm/core/locality.cc:253-326 | in every reachable state each posted buffer is smaller than each waiting request, and every pairing gives a request a buffer large enough |
| PostedBuffers.NothingUsedTwice | src/hypercomm/core/locality.cc:253-326 | no buffer and no request is used twice or lost |
| PostedRuns.RunKeepsAccount | src/hypercomm/core/locality.cc:253-326 | over any run a posted buffer goes to the earliest-made waiting request it can hold, or is kept; a request gets the earliest-posted kept buffer that is large enough, or else waits if the endpoint was handled manually before, or else gets one allocated |
| PostedRuns.MadeIff | src/hypercomm/core/locality.cc:317-324 | a buffer is allocated for a request exactly if no kept buffer was large enough and the endpoint had not been handled manually |
| PostedRuns.GivenOrWaits | src/hypercomm/core/locality.cc:268-287 | once it has been, every request is given a posted buffer or still waits |
| PostedBuffers.Table.PostBuffer | src/hypercomm/core/locality.cc:253-289 | the buffer goes to the first waiting request it can hold, or is kept; other endpoints are untouched |
| PostedBuffers.Table.PollBuffer | src/hypercomm/core/locality.cc:292-326 | the request takes the first buffer large enough, or waits in manual mode, or gets one allocated; other endpoints are untouched |

## Left out

- The Charm++ runtime: proxies, location managers, converse handlers, RDMA, envelopes, message memory. Messages are bags, or sequences where order matters.
- Element migration, re-created indices and `stop_forwarding`: indices are never used again.
- Deletion of the root, and the death of an element with staged edits: the code does not ship staged edits, so the model excludes such deaths.
- Rewiring of reducers that are in flight when a splice arrives (`affect_ports` and the stamps of edits): the deletion model is about the lists only.
- An element inserted at an empty node 0, or a request that reaches it, while the endpoint is already set: the code aborts at tree_builder.hpp:267, and the model has no such step. For requests `Continuations.AbortsIffTwoClaims` says when that happens.
- `CountingWave.TrustedAlongRuns`: about states from which no handler can abort, as an aborted run has no readings.
- The waiting loop of `done_inserting` itself; what it rests on, the counters and when they may be trusted, is proved.
- Creating the same task id twice, which the code aborts on, is excluded by a precondition.
- Re-entrant deliveries: values handed back through `try_return`, callbacks that put new requests, the outbox. Delivery is an oracle that succeeds or fails.
- Invalidations that permissive components accept as empty values.
- `Mailbox.Box.PutRequest`: the delivery that answers a request at once is taken to succeed, as the code asserts.
- Objects that share one control block: byte blocks that are unpacked in place share that of the source buffer (pup.hpp:155-160), so that packing them again takes two of them for one object.
- An inline value that is deferred itself: it is registered at the address of a local pointer (typed_value.hpp:140-143), which `get_deferred` reads when that pointer is gone (interceptor.cc:35).
- Objects with several control blocks, weak references that expire while their graph is read, pointers whose dynamic type does not fit their static one.
- Unique pointers, messages inside graphs, and containers other than lists and tuples; a map is a list of pairs, its hash order aside.
- `PackDeferrable.WrittenText`: what `pack_deferrable_` writes is a function of the graph, where `Serdes.Printer` is the printer updated in place; the buffers that describe the blocks are their number and size only.
- `Parsing.Parse`: reading beyond the end of a buffer, undefined in the code, is an error in the model.
- `Splicing.Manageable.ReplaceDownstream`: the stamp of a splice, and the rewiring of reducers in flight, are omitted.
- `Splicing.Manageable.AddDownstream`: the ports opened in reducers under way are omitted.
- `Splicing.Manageable.ResolveTransactions`: the invalidations made by `affect_ports` are omitted.
- `TreeNode.Builder.Disassociate`: the stamp sent with the splice is omitted.
- `Interceptor.Local.Send`: where an element was last known to be is one fixed set of indices, for which this processor keeps messages; elements appear and vanish, but their home does not move.
- `Interceptor.Local.Forward`: a request for a record whose home is another processor is passed on there; only the home's part is modelled.
- `Graph.Emit`: alignment of the buffer, and the sharing of memory between a message and the plain bytes read from it.
- Verbose printing, string conversion, hashing of ports, thread ids.
