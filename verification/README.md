# ENet in Dafny

A model of ENet, the reliable protocol over UDP, and proofs about it.  The repository holds the C library
(`original/`) and an asynchronous port to Rust (`src/`); both are modelled, each in its hardest parts:

- **The range coder** (`original/compress.c`): an adaptive order-2 context model with escapes over a
  carryless 32-bit range coder.  The arithmetic is in `RangeArithmetic`, the frequency tables in
  `FrequencyModel`, compression and decompression as functions of byte sequences in `RangeCodec`.  The code
  itself, which keeps all contexts' search trees in one array of 4096 nodes, is the class `RangeCoder` and
  the methods of `ModelPools`, `RangeCompression` and `RangeDecompression`; `SymbolTrees` and `SymbolNames`
  relate the array to the tables, and `PoolMirrors` the encoder's array to the decoder's.  A stream that no encoder
  made can break the order of those trees; `StrayPools` says what is left of it, and `StrayDecoding` goes on from there.
  `ModelMeaning` says what the model and the coding steps are, from the data alone.
- **The reliable channel** (`original/peer.c`, `original/protocol.c`): the class `Receiver` with the queue of
  commands that arrived out of order, the class `Sender` with the window limiter, the timeouts and the matching
  of acknowledgements, and runs of a sender, a network that loses, repeats and reorders, and a receiver in
  `ReliableRuns`; the class `ReliableLink` joins the two classes to the runs.  What is taken, held back and delivered
  in the end is in `ReliableLimits` and `ReliableProgress`.  Sequence numbers there are unbounded; the wire carries their low 16 bits.
- **The life of a peer** (`original/protocol.c`, `original/peer.c`, `original/host.c`): the states, the events
  and the host's counters, as runs in `PeerLifecycle` and as the class `PeerHost`; the events that the application
  must be told, in `PeerEvents`; and the host's division of bandwidth in `BandwidthThrottle`.
- **The lists** (`original/list.c`): circular doubly linked lists on the heap.
- **The Rust pieces** (`src/channel.rs`, `src/task.rs`): the window of unsequenced groups, fragment assembly,
  round-trip times, retransmission and reordering.
- **The Rust wire format** (`src/protocol.rs`): headers, commands, datagrams and CRC-32.

Code that changes things in place is a class or a method on arrays here, proved equal to a function or related
to a ghost state; the properties are lemmas about those.  `dafny verify dfyconfig.toml` takes all files
together.

The main results:

1. `RangeRoundTrip.ThereAndBack`: whatever `Compress` puts out, `Decompress` turns back into the input, with
   the end of the data found by the escape that no byte announces, and with all restarts of the model; and before,
   between and after the bytes the encoder's and the decoder's arrays hold the same linked structure, up to the
   numbering of the nodes.  `RangeDecompression.Decompress` is total: on every stream, also one that no encoder made,
   it ends, no node is ever looked for outside the array, and every total is the sum of its counts all along.
   `ModelMeaning.ModelIs` and `ModelMeaning.CompressedIs` pin the format down: which contexts there are after any data,
   what was coded in each, with which counts and escapes, and by which steps every byte is told.
2. `ReliableRuns.ReliableDelivery` and `ReliableRuns.QueueSorted`: in every run the messages handed over are a
   prefix of those sent, in order and once each, nothing is acknowledged that the receiver does not have, and the
   receiver's queue is sorted.  `ReliableProgress.DeliverExactly` says exactly what the receiver takes and acknowledges,
   and `ReliableProgress.NoDeadEnd` that every run can be continued until all that was sent has been handed over.
3. `ReliableSenders.Sender`: every operation keeps the window counters, their bits, the data in transit and the
   span of unacknowledged numbers right, and `ReliableLinks.ReliableLink`: any sequence of operations of a `Sender` and
   a `Receiver` is a run of the above, so that result 2 holds of the two classes (`ReliableLinks.ReliableLink.Delivers`).
   `ReliableLimits.BlockedWhen` says exactly which open numbers hold a new one back.
4. `PeerLifecycle.EventGrammar` and `PeerLifecycle.CountersRight`: over all runs, and for every life of every
   peer slot; and `PeerEvents.ToldOf`, `PeerEvents.RemoteGoodbye`, `PeerEvents.OwnGoodbye` and `PeerEvents.Goodbyes`:
   whatever connects or loses a peer, the application is told, and whoever was told CONNECT is told DISCONNECT.
5. `BandwidthThrottle.ShareOutgoing` and `BandwidthThrottle.ShareIncoming`: what the peers are served, and the
   limits that they are told, add up to no more than the host has, and could not be higher.
6. `FragmentBuffers.Reassembles`, `UnsequencedWindows.UnsequencedWindow.CheckAndSet` and
   `RoundTripTimes.Retransmitter.Service`: for any order, any calls and any times of the Rust code.
7. `WireCommands.ParseWritten`, `WirePlaces.WrittenWhere`, `WireDatagrams.OpenDatagram` and `Checksums.Crc32`.

Four properties turn out not to hold of the code as they are usually put; each has a member with an input that
shows it and one that says exactly when the property holds:

- The receiver's queue stays sorted after a dispatch if and only if what stays in it is clear of the numbers that
  were handed over (`ReliableOrder.OverlapUnsorted`, `ReliableOrder.DispatchSorted`).
- A receiver in the state DISCONNECT_LATER acknowledges commands that it drops
  (`ReliableRuns.ClosingLoses`, `ReliableRuns.ClosingAcknowledges`).
- Some peers are told the limit 0, which stands for none, unless each has a rate of its own and the host has a unit
  for each (`BandwidthThrottle.TellsNoLimit`, `BandwidthThrottle.ShareIncoming`).
- A command comes back from the Rust wire format if and only if its header names its body's type and its data
  are shorter than 64 KiB (`WireCommands.TooLong`, `WireCommands.ParseWritten`).

## Model

| member | source | states |
|---|---|---|
| `RangeArithmetic.NarrowValid` | original/compress.c:121-127 | narrowing an interval to a slice of the total never divides by zero, stays inside the interval and inside 32 bits, and leaves a non-empty range |
| `RangeArithmetic.ShiftValid` | original/compress.c:128-137 | a shift of the normalisation loop loses no bits: the byte put out and the new low are the old low, and the loop comes closer to its end |
| `RangeArithmetic.NormaliseSettled` | original/compress.c:126-137 | normalisation ends for every interval, with a range of at least 2^16 and differing leading bytes |
| `RangeArithmetic.CodeSettled` | original/compress.c:121-138 | a coding step takes a settled interval to a settled interval |
| `RangeArithmetic.NormaliseTurns` | original/compress.c:126-137 | a byte is put out exactly while both ends of the interval begin with it or the range is below 65536, when the interval is cut at the next multiple of 65536 |
| `RangeArithmetic.NormaliseContains` | original/compress.c:354-371 | a code inside the interval after normalisation was inside it before, with the bytes put out in front |
| `RangeArithmetic.EmitContains` | original/compress.c:121-138 | the code of any continuation of a sequence of steps lies in the slice of every step |
| `RangeArithmetic.WindowSkip` | original/compress.c:344-371 | the 32-bit look-ahead after a shift is the old one shifted, with the next byte or zero behind the end |
| `RangeArithmetic.FlushWindow` | original/compress.c:139-146 | the flushed bytes, continued with zeros, read as the low end of the interval |
| `RangeArithmetic.FlushNormalise` | original/compress.c:139-146 | flushing commutes with the bytes that a step shifts out, so that every later read finds code zero |
| `RangeStreams.PutByte` | original/compress.c:114-119 | a byte goes out if and only if there is room |
| `RangeStreams.PutStep` | original/compress.c:121-138 | the encoding loop appends exactly the step's bytes, and fails exactly when they do not fit |
| `RangeStreams.PutFlush` | original/compress.c:139-146 | the flush loop appends exactly the significant bytes of low |
| `RangeStreams.Seed` | original/compress.c:344-351 | the decoder starts with the first four bytes, zeros for those that are missing |
| `RangeStreams.Shift` | original/compress.c:361-369 | the decoder's code stays the look-ahead over the rest of the input |
| `RangeStreams.TakeStep` | original/compress.c:354-371 | the decoder narrows and normalises as the encoder does, and takes in as many bytes as the encoder put out |
| `RangeStreams.AnyStep` | original/compress.c:354-371 | on 32-bit numbers and for a code in any place, for a slice of up to 254 parts or of up to five sixths, the decoder's loop ends, with numbers of 32 bits and a range that every 16-bit total divides |
| `FrequencyModel.CumHalve` | original/compress.c:90-112 | halving loses at most half of the weight below any value, rounded up per symbol |
| `FrequencyModel.CountedFits` | original/compress.c:286-336 | after counting a symbol every count still fits 8 bits and the total 16 bits, before any rescaling |
| `FrequencyModel.UpdatedOk` | original/compress.c:286-336 | counting and rescaling keep a table within its bounds, with an escape if and only if it has symbols, and add no symbol but the one coded |
| `RangeCodec.HomeReached` | original/compress.c:286-336 | the walk to shorter contexts ends in one that knows the value, at the latest in the root |
| `RangeCodec.LearnWellFormed` | original/compress.c:286-336 | coding a byte keeps all tables well formed, the contexts closed under dropping the oldest byte, and adds at most one node per context on the way |
| `RangeCodec.FollowValid` | original/compress.c:148-157 | the model stays valid across every byte, and the restart comes before the pool of 4096 can run out |
| `RangeCodec.AdvanceValid` | original/compress.c:286-336 | the encoder's model stays valid over any data |
| `RangeCodec.StepsValid` | original/compress.c:286-336 | every step that tells the decoder about a byte is a proper slice of a total below 2^16 |
| `RangeCodec.LookupUnique` | original/compress.c:373-413 | a code in a value's slice leads to that value |
| `RangeCodec.LookupHolds` | original/compress.c:373-413 | the value looked up is the one whose slice holds the code |
| `RangeCodec.PeekStep` | original/compress.c:352 | a look-ahead in the slice of a step divides to a code within the step |
| `RangeCodec.ReadSteps` | original/compress.c:529-596 | reading the steps of a byte, followed by anything, gives the byte, its context and the encoder's interval |
| `RangeCodec.EncodeContains` | original/compress.c:246-342 | the compressed form of any data lies in the interval it was started from |
| `RangeCodec.FlushEscapes` | original/compress.c:139-146 | behind the flushed bytes every context reads an escape |
| `RangeCodec.ReadEnd` | original/compress.c:529-580 | so the decoder comes to the root and ends there, without an end marker having been coded |
| `RangeCodec.ReadsEncode` | original/compress.c:246-342 | read byte by byte, the compressed form gives the data and then the end, with equal models on both sides after every byte |
| `RangeCodec.SameHistory` | original/compress.c:520-624 | decoding a compressed stream goes through the encoder's models, byte for byte |
| `RangeCodec.DecodeReads` | original/compress.c:498-627 | a stream that reads as some data decompresses to them whenever there is room |
| `RangeCodec.RoundTrip` | original/compress.c:246-342 | decompressing the compressed form of any byte sequence gives that sequence |
| `ModelMeaning.CodedIs` | original/compress.c:305-329 | coding a byte counts three for it in the root, two elsewhere, and five escapes for a new one; everything is halved, rounding up, when the count was above 249 or 251 or the total gets above 65280 |
| `ModelMeaning.CalmCounts` | original/compress.c:28-36 | until that happens, a byte's count is three times, or twice, as often as it was coded, and a context has five escapes for every byte it knows, the root one |
| `ModelMeaning.CalmCoded` | original/compress.c:305-329 | and it happens exactly when a byte has been coded too often or too many have |
| `ModelMeaning.TabledOn` | original/compress.c:286-336 | a byte is coded in the context of the last two bytes, and in that of fewer as long as it never followed the longer ones; it makes new contexts exactly of the strings of up to three bytes that are new |
| `ModelMeaning.ModelIs` | original/compress.c:148-157 | after any data, the contexts are the strings of up to three bytes since the last restart, which comes when there are 4094; the last two bytes predict the next; and every context has the table of the bytes that were coded in it |
| `ModelMeaning.StepsAre` | original/compress.c:286-329 | the next byte is told by the longest context that has met it, after an escape of each longer one that has met others, or by the root, in which every byte weighs one more |
| `ModelMeaning.CompressedIs` | original/compress.c:246-342 | the compressed form of any data is the code of just these steps and the significant bytes of the low end |
| `RangeExample.FourLetters` | original/compress.c:246-342 | four letters a become the bytes 62 02 19 99 |
| `SymbolTrees.PathInside` | original/compress.c:159-199 | a search only meets nodes of its own context whose interval holds the value |
| `SymbolTrees.Reach` | original/compress.c:159-199 | and it meets all of those |
| `SymbolTrees.BumpTree` | original/compress.c:159-199 | adding to the counts on the search path makes the tree stand for the table with that symbol counted |
| `SymbolTrees.WalkEnds` | original/compress.c:159-199 | where the search ends, the weights passed on the way are the cumulative count of the value |
| `SymbolTrees.CodeSide` | original/compress.c:373-413 | a code turns left or right at a node exactly as the value would whose slice holds it |
| `SymbolTrees.CodeValue` | original/compress.c:418-438 | at the root, the value of a symbol not seen yet is computed from the code and the node where the search ends |
| `SymbolTrees.GrowTree` | original/compress.c:68-80 | hanging a new node where the search ends makes the tree stand for the table with the new symbol |
| `SymbolTrees.TreeIsContext` | original/compress.c:90-112 | the nodes reached from a context's root are exactly its symbols |
| `SymbolTrees.HalveTree` | original/compress.c:90-112 | halving counts and rebuilding `under` from the leaves makes the tree stand for the halved table |
| `RangeCoders.RangeCoder.Descend` | original/compress.c:159-199 | the search loop of the encoder counts the value along its path and returns its cumulative and own count as they were |
| `RangeCoders.RangeCoder.Hang` | original/compress.c:68-80 | a new symbol gets the next node, and all trees still stand for their tables |
| `RangeCoders.RangeCoder.ContextEncode` | original/compress.c:159-199 | coding in a context returns the slice of the value before the update and counts or creates the symbol |
| `RangeCoders.RangeCoder.RescaleNode` | original/compress.c:90-105 | rescaling below a node leaves the halved counts there and returns their sum |
| `RangeCoders.RangeCoder.RescaleTree` | original/compress.c:90-105 | the loop down the right side, with its recursion to the left, halves a whole subtree and returns its weight |
| `RangeCoders.RangeCoder.ContextRescale` | original/compress.c:107-112 | a context is halved with its escapes, its total is right again, and no other context changes |
| `RangeCoders.RangeCoder.DescendByCode` | original/compress.c:373-413 | the search steered by a code takes the turns of the search for the value whose slice holds it |
| `RangeCoders.RangeCoder.TryDecode` | original/compress.c:415-416 | in a subcontext the symbol of the code is found, counted and its slice returned |
| `RangeCoders.RangeCoder.RootDecode` | original/compress.c:418-438 | at the root the same, with a node created for a value not seen yet |
| `RangeCoders.RangeCoder.Settle` | original/compress.c:305-329 | escapes, totals and the decision to rescale after a symbol was counted are those of the table |
| `RangeCoders.RangeCoder.CodeIn` | original/compress.c:293-329 | one context's share of coding a byte, on the array |
| `RangeCoders.RangeCoder.DecodeIn` | original/compress.c:559-596 | one context's share of decoding a byte, on the array, with the same effect |
| `SymbolNames.LearnLearned` | original/compress.c:286-336 | what a byte does to the tables depends on which contexts it was coded in, not on their order |
| `SymbolNames.LearnedUnique` | original/compress.c:598-615 | so any two orders lead to the same tables |
| `SymbolNames.PatchEnds` | original/compress.c:598-615 | the decoder's order, the found context first and then the longer ones, leads to the encoder's tables |
| `SymbolNames.ChaseEnds` | original/compress.c:286-329 | the encoder's order, from the longest context on, leads to the tables of the model |
| `SymbolNames.NamesCoded` | original/compress.c:286-336 | the array goes on standing for the tables when both code a value in the same context |
| `SymbolNames.ParentsCoded` | original/compress.c:291-295 | every node's parent stands for the context without the oldest byte, once the pending link is set |
| `SymbolNames.TimelyOn` | original/compress.c:286-336 | symbols of one context are created in the same order on both sides |
| `ModelPools.Link` | original/compress.c:615 | the last pending parent link is closed |
| `ModelPools.Account` | original/compress.c:293-314 | the encoder's and the patching decoder's step in one context keep the array, its names and its parent links right |
| `ModelPools.Recover` | original/compress.c:559-596 | the decoder's step in the context where the byte is found does so too |
| `ModelPools.Restart` | original/compress.c:82-88 | an empty pool stands for the initial model |
| `ModelPools.Proceed` | original/compress.c:331-336 | after a byte the pool stands for the next model, with the prediction and the restart of the C code |
| `RangeCompression.EncodeIn` | original/compress.c:293-329 | one context codes the value and puts out its symbol, its escape or nothing |
| `RangeCompression.EncodeNext` | original/compress.c:286-329 | coding goes on in the shorter context exactly while the value is new |
| `RangeCompression.EncodeByte` | original/compress.c:286-329 | one byte puts out exactly its steps, and leaves the tables of the model |
| `RangeCompression.Pack` | original/compress.c:267-337 | one turn of the loop, with what has been put out and what remains always making up the whole |
| `RangeCompression.Compress` | original/compress.c:246-342 | the output is the compressed form of the concatenated buffers, 0 is returned if there is no input or it does not fit, and the states of the coder's own array before, between and after the bytes stand for the model |
| `StrayPools.SubtreeUp` | original/compress.c:90-105 | in an array whose links only lead on, all that is below a node comes later, is of its context and hangs from something below it |
| `StrayPools.SidesApart` | original/compress.c:90-105 | the two sides of a node have no node in common, in whatever order their values are |
| `StrayPools.TreeOf` | original/compress.c:90-112 | the nodes reached from a context are exactly its symbols |
| `StrayPools.HungWoven` | original/compress.c:68-80 | a node hung at a free place keeps all this so |
| `StrayPools.MassHalved` | original/compress.c:90-112 | halving the counts of a context halves their sum, but for rounding up |
| `StrayDecoding.HalveTree` | original/compress.c:90-105 | rescaling a tree whose values are in any order meets each node once, fits 16 bits and returns the sum of the halved counts |
| `StrayDecoding.Rescale` | original/compress.c:107-112 | the context's escapes and counts are halved, its total is their sum, and nothing else changes |
| `StrayDecoding.SeekValue` | original/compress.c:159-199 | the encoder's search ends in any tree, at the symbol or at a free place |
| `StrayDecoding.SeekCode` | original/compress.c:373-438 | so does the decoder's, for any 16-bit code and whatever `under` holds |
| `StrayDecoding.SpotWeighed` | original/compress.c:551-596 | counting or creating what was found keeps every total the sum of its escapes and counts, the counts in 8 and the totals in 16 bits |
| `StrayDecoding.RescaledWeighed` | original/compress.c:107-112 | rescaling brings counts and totals back below the limits at which it is done |
| `StrayDecoding.Count` | original/compress.c:551-612 | a context counts or creates a symbol, with its escapes, its total and the rescaling, and the array stays in order |
| `StrayDecoding.StrayFound` | original/compress.c:551-596 | for any code a subcontext finds a symbol or gives up, and the root finds one or makes one; the byte read is the value of that symbol |
| `StrayDecoding.StrayRead` | original/compress.c:529-596 | the walk along the parents ends for any codes, with a byte, at the end of the stream or given up |
| `StrayDecoding.PatchOne` | original/compress.c:603-612 | a longer context codes the value too, and the symbol before it gets its parent, one byte shorter |
| `StrayDecoding.StrayPatch` | original/compress.c:598-615 | so do all of them, with at most one new node each, and what is predicted next is the symbol of that byte in the context predicted before |
| `StrayDecoding.StrayNext` | original/compress.c:619-623 | prediction from up to two bytes, and restart at 4094 nodes, keep the array in order, with room for the next byte |
| `StrayDecoding.StrayAll` | original/compress.c:520-626 | from the first code in no slice on, the loop ends on every input, with at most 4096 nodes, and leaves the bytes put out before in place unless it returns 0 |
| `StrayStarts.MassIsSum` | original/compress.c:286-336 | the counts of a context's nodes add up to its table's |
| `StrayStarts.PoolSound` | original/compress.c:520-624 | an array that stands for the model is in the order that decoding any code keeps |
| `RangeDecompression.ReadFound` | original/compress.c:551-567 | the value is decoded, counted and its bytes are taken in |
| `RangeDecompression.ReadNext` | original/compress.c:535-596 | one context skips, escapes, finds the value, ends the stream or is lost with a code in no slice, as the model does; nothing is changed by those that find no value |
| `RangeDecompression.ReadByte` | original/compress.c:529-596 | the walk to shorter contexts finds what the model reads, or is lost where the model is, in a context that the parents lead to |
| `RangeDecompression.Patch` | original/compress.c:598-615 | coding the value in the longer contexts gives the encoder's tables and parent links |
| `RangeDecompression.Unpack` | original/compress.c:529-615 | one byte of any stream, with the tables of the model after it, or the array as it was |
| `RangeDecompression.UnpackAll` | original/compress.c:516-626 | the loop puts out the model's bytes until the end, until the output is full or until it is lost; the states of the coder's own array stand for the model; and once lost it goes on with any code, and ends |
| `RangeDecompression.Stray` | original/compress.c:520-624 | the array of a decoder that has just met a code in no slice is one that it can go on with: it ends, within the array and the output, and leaves the bytes before in place unless it returns 0 |
| `RangeDecompression.ClimbReaches` | original/compress.c:598-615 | the parent links lead from the predicted context to the one where the code is read |
| `RangeDecompression.Decompress` | original/compress.c:498-627 | for every stream: the output is what the stream stands for; 0 is returned if it does not fit; and the decoder is lost exactly on the streams with a code in no slice, when it ends nevertheless, and returns 0 or the bytes it had read before, and more |
| `RangeRoundTrip.ThereAndBack` | original/compress.c:246-627 | whenever compression returns more than 0, decompression of its output returns the concatenated buffers, whatever the two coders were used for before; and before, between and after the bytes the arrays of the two coders are isomorphic |
| `PoolMirrors.Eldest` | original/compress.c:159-199 | in its tree, a node is older than all nodes whose values lie in its interval |
| `PoolMirrors.SameTop` | original/compress.c:598-615 | a place in a tree is taken by nodes of the same context on both sides |
| `PoolMirrors.Intervals` | original/compress.c:286-336 | nodes of the same context have the same place in their trees on both sides |
| `PoolMirrors.Mirror` | original/compress.c:286-336 | pools that stand for one model are isomorphic: equally many nodes, below 4094, one to one, with equal value, count, under, escapes and total, and with left, right, symbols and parent links leading to the corresponding nodes |
| `PoolMirrors.MirrorAll` | original/compress.c:598-623 | so are the pools of encoder and decoder at every byte, as both go through the same models |
| `SequenceWindows.SeenAhead` | original/peer.c:864-879 | for a number less than a wrap ahead, the 16-bit tests see its true window and distance |
| `SequenceWindows.SeenBehind` | original/peer.c:864-879 | for a number less than a wrap behind, they see it as many windows ahead as a full turn lacks |
| `SequenceWindows.WireUnique` | original/protocol.c:196-218 | numbers less than a wrap apart are told apart by 16 bits |
| `ReliableReceivers.Receiver.Locate` | original/peer.c:884-907 | the backward walk finds the place of a sequence number in the queue |
| `ReliableReceivers.Receiver.DispatchReady` | original/peer.c:810-847 | the dispatch loop hands over the longest run of complete commands at the front and moves the incoming number |
| `ReliableReceivers.Receiver.QueueIncoming` | original/peer.c:849-1028 | a command is queued at its place, ignored or refused, by the window tests, the duplicate test, the state and the space |
| `ReliableReceivers.Receiver.HandleReliable` | original/protocol.c:446-466 | a reliable command is taken in and acknowledged exactly when it was not refused |
| `ReliableReceivers.Receiver.FillEntry` | original/protocol.c:627-642 | a fragment new to its message sets its bit, counts down and copies its data; the last one dispatches |
| `ReliableReceivers.Receiver.HandleFragment` | original/protocol.c:536-645 | the tests of a fragment, the search for its message, the entry made for the first one, and the filling |
| `ReliableReceivers.DispatchStays` | original/peer.c:810-847 | an incomplete entry and all behind it stay in the queue |
| `ReliableReceivers.InsertIncomplete` | original/peer.c:998-1012 | the entry returned for a first fragment is the one inserted, even when entries before it were dispatched |
| `ReliableOrder.LongestRun` | original/peer.c:810-847 | dispatch removes exactly the longest run of complete entries with consecutive numbers, counting a fragmented message as its whole block, and hands over their data in order |
| `ReliableOrder.ReceiveQuiet` | original/peer.c:810-847 | between two commands nothing is left in the queue that could be dispatched |
| `ReliableOrder.ReceiveCounted` | original/protocol.c:627-642 | for any input, an entry's count of missing fragments is the number of bits that are not set |
| `ReliableOrder.PlaceSeparates` | original/peer.c:884-907 | in a sorted queue the place found has all smaller numbers before it and all greater ones behind |
| `ReliableOrder.InsertSorted` | original/peer.c:849-1028 | an accepted command keeps the queue strictly sorted across the wrap and inside the accepted windows |
| `ReliableOrder.PopSorted` | original/peer.c:810-847 | taking the first entry, of any number of fragments, keeps the order if and only if the rest lies beyond its block, or the block goes so far around that the rest lies before its end and in the accepted windows |
| `ReliableOrder.DispatchSorted` | original/peer.c:810-847 | the same for all that a dispatch hands over |
| `ReliableOrder.ClearSmall` | original/peer.c:810-847 | for a block of at most half a turn, the condition is that the next entry comes after it |
| `ReliableOrder.OverlapUnsorted` | original/peer.c:810-847 | four commands that leave a queue unsorted: a message, and the fragments of another that takes its number too |
| `ReliableOrder.ReceiveSorted` | original/peer.c:849-1028 | with blocks that do not overlap, of any size, every command keeps the queue sorted and apart |
| `ReliableMessages.CutBounds` | original/peer.c:124-198 | the fragments of a message cover it without gap or overlap, none larger than the fragment size |
| `ReliableMessages.FirstMonotone` | original/peer.c:639-700 | messages take consecutive blocks of sequence numbers |
| `ReliableMessages.NumberUnique` | original/peer.c:639-700 | no two commands of a channel have the same number |
| `ReliableMessages.CompleteData` | original/protocol.c:627-642 | a message whose last fragment has come is the message sent |
| `ReliableMessages.FilledFor` | original/protocol.c:627-642 | a fragment of a message fits its entry and keeps it true to the message |
| `ReliableMirror.MirrorInsert` | original/peer.c:849-1028 | the queue goes on holding entries of different sent messages in order |
| `ReliableMirror.MirrorDispatch` | original/peer.c:810-847 | dispatch hands over the next messages sent |
| `ReliableMirror.ReceiveOld` | original/peer.c:864-879 | a late copy of what has been handed over changes nothing, and is acknowledged again if its number is in the windows for that |
| `ReliableMirror.ReceiveWhole` | original/protocol.c:446-466 | a message that comes in one command is held or handed over before it is acknowledged; nothing else is new; and what is taken, and acknowledged, is said exactly |
| `ReliableMirror.ReceivePiece` | original/protocol.c:536-645 | so is a fragment, whether its message is known or not; and what is taken, and acknowledged, is said exactly |
| `ReliableRuns.TransmitOk` | original/protocol.c:1448-1470 | the window test keeps all unacknowledged numbers within seven windows |
| `ReliableRuns.AcknowledgeOk` | original/protocol.c:220-292 | an acknowledgement removes the command it was meant for and no other |
| `ReliableRuns.Flight` | original/peer.c:864-879 | what is on its way is never further ahead than the receiver accepts |
| `ReliableRuns.DeliverOk` | original/peer.c:849-1028 | a delivery of any copy, new or old, keeps sender and receiver consistent, and the receiver has nothing that was not transmitted |
| `ReliableRuns.RunOk` | original/protocol.c:1448-1521 | every legal run keeps the invariant of sender, network and receiver |
| `ReliableRuns.ReliableDelivery` | original/peer.c:810-875 | in every run, what was handed over is a prefix of the messages sent, in order and once each, and a number acknowledged, or sent and no longer waited for, is one that the receiver has |
| `ReliableRuns.QueueSorted` | original/peer.c:849-1028 | in every run the receiver's queue is strictly sorted across the wrap, without duplicates or overlaps, and inside the accepted windows |
| `ReliableRuns.ClosingAcknowledges` | original/peer.c:861-862 | in DISCONNECT_LATER, a command is acknowledged that the receiver does not have then if and only if it did not have it before, it is unfragmented, and it is inside the windows and the size limit |
| `ReliableRuns.ClosingLoses` | original/peer.c:861-862 | a run in which such a command is acknowledged and lost |
| `ReliableProgress.DeliverExactly` | original/peer.c:849-1028 | a delivered fragment is there then if and only if it was before, or its message is not too long, starts at most six windows ahead, and there is room or an entry for it; what is there is acknowledged, each time, if and only if its number is less than seven windows ahead and less than eight behind |
| `ReliableProgress.FirstPiece` | original/protocol.c:554-584 | the first fragment of a message is taken exactly if its numbers are those of a message of at most 1048576 fragments that is not too long |
| `ReliableProgress.CloseOne` | original/protocol.c:1448-1470 | an open number can be delivered and acknowledged when nothing is more than six windows ahead |
| `ReliableProgress.HandOver` | original/peer.c:810-847 | a message all of whose fragments have been transmitted can be handed over |
| `ReliableProgress.NoDeadEnd` | original/peer.c:810-875 | every run can be continued, without new messages, until all messages sent have been handed over, once each and in order, and the sender waits for nothing |
| `WindowBits.MaskBits` | original/protocol.c:1448-1470 | the two shifted masks mark exactly the ten windows from the command's own on, around the turn |
| `ReliableAccounts.FreeWindows` | original/protocol.c:1448-1470 | a command at the start of a window that passes the test finds the windows ahead free of unacknowledged commands |
| `ReliableLimits.TallySize` | original/protocol.c:1494-1505 | a window's counter is the number of its unacknowledged numbers |
| `ReliableLimits.FullBefore` | original/protocol.c:1457-1459 | the counter of the window before has reached its limit exactly when all 4096 of its numbers are unacknowledged |
| `ReliableLimits.MarkedBefore` | original/protocol.c:1460-1461 | a masked bit is set exactly when a number from more than six windows before is unacknowledged |
| `ReliableLimits.BlockedWhen` | original/protocol.c:1448-1470 | the head of the list is held back exactly when it is new, at the start of a window, and one of these is so |
| `ReliableAccounts.SendHeadView` | original/protocol.c:1480-1521 | sending the head moves the channel on by its next number, or not at all if it was sent before |
| `ReliableAccounts.SendHeadGood` | original/protocol.c:1480-1521 | sending keeps counters, bits, transit and the span of unacknowledged numbers right |
| `ReliableAccounts.RemoveSentGood` | original/protocol.c:220-292 | removing an acknowledged command from the sent list keeps them right, and forgets that number only |
| `ReliableAccounts.RemoveQueuedGood` | original/protocol.c:220-292 | so does removing one that was waiting to be sent again |
| `ReliableAccounts.RemoveControlGood` | original/protocol.c:220-292 | removing a control command changes no channel |
| `ReliableAccounts.SendControlGood` | original/protocol.c:1480-1521 | sending a control command changes no channel |
| `ReliableAccounts.RequeueGood` | original/protocol.c:1384-1393 | putting a timed-out command back keeps everything right, and the commands to be sent again in front |
| `ReliableAccounts.QueueGood` | original/peer.c:639-700 | queueing a command gives it the channel's next number |
| `ReliableSenders.SendsView` | original/protocol.c:1411-1521 | a sending step is, for each channel, a transmission that the runs allow, or nothing |
| `ReliableSenders.ChainPlays` | original/protocol.c:1411-1521 | what the sending loop does to a channel is a legal run of transmissions of the reliable channel |
| `ReliableSenders.QueueOn` | original/peer.c:639-700 | every command queued takes the next number of its channel, and is nothing to the others |
| `ReliableSenders.QueuePlays` | original/peer.c:108-223 | queueing as many commands as a packet has fragments, or one for a whole one, is sending that message in the run |
| `ReliableSenders.AnswerPlays` | original/protocol.c:220-292 | taking in an acknowledgement is the event of that for its channel, and none for the others |
| `ReliableSenders.SevenWindows` | original/protocol.c:1448-1470 | unacknowledged numbers of a channel span at most seven windows |
| `ReliableSenders.Sender.constructor` | original/protocol.c:294-444 | a new peer has nothing in transit and all windows free, and each of its channels is at the start of a run |
| `ReliableSenders.Sender.QueuePacket` | original/peer.c:639-700 | a packet is queued with the next number of its channel |
| `ReliableSenders.Sender.QueueControl` | original/peer.c:639-706 | a command of the connection takes the connection's next number and changes no channel |
| `ReliableSenders.Sender.QueueUnreliable` | original/peer.c:639-706 | an unreliable packet takes the last number of its channel and changes no channel |
| `ReliableSenders.Sender.CheckOutgoing` | original/protocol.c:1411-1560 | the loop takes, one per place in the datagram, of the two first commands the one queued earlier, a reliable one only if it may be sent; if any place is left, nothing is left but a reliable command that open numbers of its channel or the data in transit hold back |
| `ReliableSenders.Sender.TransmitHead` | original/protocol.c:1494-1521 | the bookkeeping of one reliable command that goes out |
| `ReliableSenders.Sender.TransmitFirst` | original/protocol.c:1494-1560 | the bookkeeping of one other command, when no earlier reliable one may be sent |
| `ReliableSenders.Sender.PutBack` | original/protocol.c:1384-1393 | a timed-out command goes back with twice its time |
| `ReliableSenders.Sender.CheckTimeouts` | original/protocol.c:1353-1409 | the peer is given up exactly when, at some timed-out command, the earliest timeout is too old; otherwise exactly the timed-out commands are back at the heads of their queues, in order, and no channel has changed |
| `ReliableSenders.ExpiredHas` | original/protocol.c:1384-1393 | every timed-out command is in its queue again, with twice its time, and the others are waited for as before |
| `ReliableSenders.GivenUpWhen` | original/protocol.c:1375-1378 | with the default limit, a peer is given up when the earliest timeout is as old as the maximum, or as the minimum if the command was sent six times, and not before |
| `ReliableSenders.EarliestIs` | original/protocol.c:1371-1373 | the earliest timeout is that of a timed-out command, or the one known before, and no timed-out command is earlier |
| `ReliableSenders.Sender.FindSent` | original/protocol.c:195-218 | stopping at the first command that was never sent, the search finds the first command that the acknowledgement is for |
| `ReliableSenders.Sender.RemoveAcknowledged` | original/protocol.c:220-292 | the first command that the acknowledgement is for is removed, sent ones first, then control commands, then packets to be sent again; on a channel one is found if and only if such a number is waited for, and exactly that number is taken off |
| `ReliableLinks.ReliableLink.constructor` | original/protocol.c:294-444 | a new channel and a new receiver are at the start of a run |
| `ReliableLinks.ReliableLink.Send` | original/peer.c:108-223 | sending a packet, whole or in fragments, is one event of the run |
| `ReliableLinks.ReliableLink.SendOther` | original/peer.c:639-706 | what is queued for other channels, unreliably or for the connection is no event |
| `ReliableLinks.ReliableLink.Flush` | original/protocol.c:1411-1560 | the sending loop is a number of transmissions |
| `ReliableLinks.ReliableLink.CheckTimeouts` | original/protocol.c:1353-1409 | timeouts are no event |
| `ReliableLinks.ReliableLink.Deliver` | original/protocol.c:1157-1222 | handling a copy of a command is its delivery, and it is taken and acknowledged exactly as `ReliableProgress.DeliverExactly` says |
| `ReliableLinks.ReliableLink.Acknowledge` | original/protocol.c:853-920 | handling a copy of an acknowledgement is that event, and takes off the number it is for if and only if it is still waited for |
| `ReliableLinks.ReliableLink.AcknowledgeOther` | original/protocol.c:853-920 | an acknowledgement for another channel or the connection is no event |
| `ReliableLinks.ReliableLink.Delivers` | original/peer.c:810-875 | at any time the receiver object has handed over a prefix of the messages sent, in order and once each, and has every command that the sender object has sent and no longer keeps |
| `IntrusiveLists.Node.constructor` | original/list.c:13-18 | a new node is an empty ring |
| `IntrusiveLists.Node.Clear` | original/list.c:13-18 | clearing makes an empty ring |
| `IntrusiveLists.Insert` | original/list.c:20-32 | the node stands before the position, and the ring is well formed |
| `IntrusiveLists.Remove` | original/list.c:34-41 | exactly that node is gone, and the ring is well formed |
| `IntrusiveLists.CutOut` | original/list.c:49-50 | a segment is taken out whole, and its ring is closed |
| `IntrusiveLists.Splice` | original/list.c:52-56 | a segment is put in before the position, in order |
| `IntrusiveLists.Move` | original/list.c:43-59 | moving a segment takes exactly that segment from its ring and puts it before the position, in the same or in another ring; both are well formed |
| `IntrusiveLists.Size` | original/list.c:61-73 | the loop counts the nodes besides the sentinel |
| `PeerLifecycle.TurnCounts` | original/protocol.c:35-44 | a change of state keeps both counters right, and none is taken below zero |
| `PeerLifecycle.ResetGood` | original/peer.c:384-440 | a reset closes the life of the slot and keeps the counters right |
| `PeerLifecycle.NotifyConnectGood` | original/protocol.c:119-134 | a connection is told once, or is left pending |
| `PeerLifecycle.NotifyDisconnectGood` | original/protocol.c:136-158 | a disconnection is told once, or is left to the dispatch, or is not told of a peer that never connected |
| `PeerLifecycle.AskDisconnectGood` | original/peer.c:540-575 | a local disconnect keeps events and counters right in every state |
| `PeerLifecycle.HandleDisconnectGood` | original/protocol.c:823-850 | a remote disconnect does so too |
| `PeerLifecycle.BandwidthGood` | original/protocol.c:776-808 | a change of the bandwidth limit keeps the count of limited peers right |
| `PeerLifecycle.DispatchGood` | original/protocol.c:60-117 | dispatching an event keeps events and counters right |
| `PeerLifecycle.TakeGood` | original/protocol.c:294-444 | giving a free slot to a new connection starts a new life |
| `PeerLifecycle.VerifyGood` | original/protocol.c:950-1010 | the answer to a connection attempt connects the peer or makes it a zombie |
| `PeerLifecycle.AcknowledgeGood` | original/protocol.c:922-948 | an acknowledgement connects, disconnects or goes on with a deferred disconnect, by the state |
| `PeerLifecycle.StepGood` | original/protocol.c:35-158 | every action keeps the invariant of states, events and counters |
| `PeerLifecycle.After` | original/protocol.c:35-158 | so it holds after every run |
| `PeerLifecycle.EventGrammar` | original/protocol.c:46-158 | in every life of every slot, over all runs: CONNECT at most once and first, RECEIVE only after it and before DISCONNECT, DISCONNECT at most once and last, and never without CONNECT for a peer accepted from a remote host |
| `PeerLifecycle.CountersRight` | original/protocol.c:35-44 | in every reachable state connectedPeers and bandwidthLimitedPeers are the numbers of such peers |
| `PeerEvents.AllPrompt` | original/protocol.c:46-58 | in every run, every peer that was connected or lost without the application having been told, and every connected one with packets, is in the dispatch queue |
| `PeerEvents.DispatchHere` | original/protocol.c:60-117 | what the first peer of the queue becomes and what is told of it: a zombie is told DISCONNECT and its slot is free, a pending connection CONNECT, a connected peer one packet, after which it is queued again if it has more |
| `PeerEvents.EventComes` | original/protocol.c:60-117 | in every run, what is due for a peer is told when the queue has been worked off up to that peer |
| `PeerEvents.LeavesHow` | original/protocol.c:822-850 | a disconnect of the other side makes a connected peer acknowledge, if that was asked for, and a zombie if not |
| `PeerEvents.RemoteGoodbye` | original/protocol.c:822-850 | in every run, after it the application is told DISCONNECT as the last event of that life, when the queue is worked off, or the acknowledgement has gone out before |
| `PeerEvents.ToldOf` | original/protocol.c:119-158 | in every run, whatever makes a connection come about is told as CONNECT, and whatever loses one, a wrong answer, a timeout, an acknowledged or a remote disconnect, as DISCONNECT, at once or from the queue |
| `PeerEvents.AsksHow` | original/peer.c:540-605 | asking a connected peer to leave, now or when nothing is pending, makes it a disconnecting one |
| `PeerEvents.OwnGoodbye` | original/peer.c:535-575 | and the application is told DISCONNECT as the last event of that life once the peer has acknowledged or is given up |
| `PeerEvents.PacketTold` | original/peer.c:810-847 | in every run, a packet that arrives for a connected peer is told as RECEIVE when the queue is worked off |
| `PeerEvents.TakenHow` | original/host.c:184-250 | a new peer takes the first free slot, if there is one, and changes no other |
| `PeerEvents.CutHow` | original/peer.c:509-533 | a peer that the application resets or cuts off is gone, and its life is over without an event |
| `PeerEvents.AcknowledgesWhy` | original/protocol.c:841-844 | in every run, a peer that is to acknowledge a disconnect was connected when the last one asked for that, and has been in this state since |
| `PeerEvents.Goodbyes` | original/protocol.c:136-158 | in every run in which the application resets no peer and cuts none off, every life that is over ends with DISCONNECT, or was never told of |
| `PeerHosts.DispatchUntilGood` | original/protocol.c:60-117 | working off the dispatch queue up to the next event keeps the invariant |
| `PeerHosts.PeerHost.constructor` | original/host.c:28-135 | a new host has only free slots |
| `PeerHosts.PeerHost.ChangeState` | original/protocol.c:35-44 | the counters are updated with the state, as in the model |
| `PeerHosts.PeerHost.Schedule` | original/protocol.c:46-57 | the state is changed and the peer queued once |
| `PeerHosts.PeerHost.ResetPeer` | original/peer.c:384-440 | the peer is disconnected, uncounted and unmarked |
| `PeerHosts.PeerHost.ClearQueues` | original/peer.c:318-353 | what was waiting is gone, and the peer is out of the dispatch queue |
| `PeerHosts.PeerHost.TellConnect` | original/protocol.c:119-134 | as the model: the event is delivered now or left to the dispatch |
| `PeerHosts.PeerHost.TellDisconnect` | original/protocol.c:136-158 | as the model, in each of its three cases |
| `PeerHosts.PeerHost.Leave` | original/peer.c:540-575 | ignored, asked for, or cut off, by the state: an action of the model that keeps the invariant |
| `PeerHosts.PeerHost.TakeSlot` | original/host.c:184-250 | the first free slot is taken, if there is one: an action of the model that keeps the invariant |
| `PeerHosts.PeerHost.RemoteLeaves` | original/protocol.c:823-850 | each case of a remote disconnect, as an action of the model that keeps the invariant |
| `PeerHosts.PeerHost.LimitBandwidth` | original/protocol.c:776-808 | the counter is adjusted on both changes: an action of the model that keeps the invariant |
| `PeerHosts.PeerHost.Verified` | original/protocol.c:950-1010 | the answer to a connection attempt, as an action of the model that keeps the invariant |
| `PeerHosts.PeerHost.Acknowledged` | original/protocol.c:922-948 | an acknowledgement, as an action of the model that keeps the invariant |
| `PeerHosts.PeerHost.TimedOut` | original/protocol.c:1376-1384 | giving up a peer, as an action of the model that keeps the invariant |
| `PeerHosts.PeerHost.LeaveNow` | original/peer.c:509-533 | an immediate disconnect, as an action of the model that keeps the invariant |
| `PeerHosts.PeerHost.LeaveLater` | original/peer.c:594-605 | a deferred disconnect, as an action of the model that keeps the invariant |
| `PeerHosts.PeerHost.SentDisconnectAck` | original/protocol.c:1339-1340 | the end of a peer that has acknowledged a disconnect, as an action of the model that keeps the invariant |
| `PeerHosts.PeerHost.DispatchFirst` | original/protocol.c:60-117 | the first queued peer tells its event if it has one |
| `PeerHosts.PeerHost.DispatchIncoming` | original/protocol.c:60-117 | the queue is worked off exactly up to the first peer with an event, and that is the event returned |
| `BandwidthThrottle.ScaleBounds` | original/host.c:380-383 | the throttle is at most 32, and its part of the data at most the bandwidth |
| `BandwidthThrottle.GreatestShrinks` | original/host.c:380-418 | the common throttle never rises from round to round |
| `BandwidthThrottle.RoundGives` | original/host.c:385-418 | in a round, a peer's own limit never exceeds what is left of bandwidth or data |
| `BandwidthThrottle.Round` | original/host.c:376-419 | a round serves every peer whose own limit is below its share, or ends the loop |
| `BandwidthThrottle.FinalBound` | original/host.c:421-444 | serving the others at the common throttle uses no more than what is left |
| `BandwidthThrottle.ShareOutgoing` | original/host.c:360-444 | the loop ends; a peer that would send more than it can take at the first throttle, and no other, is limited to the greatest part of its data that it can take, but not to 0; the others get the common throttle, the greatest for what is left; and the parts sum up to no more than the bandwidth, but for limits rounded up to 1 |
| `BandwidthThrottle.ThrottleOutgoing` | original/host.c:338-444 | the same for the whole first half, from the peers' data and the host's bandwidth, with an unlimited host served at full throttle and packetThrottle at most its limit, at most 32 |
| `BandwidthThrottle.FillRound` | original/host.c:457-480 | a round takes out the peers that send less than the level, and lets no subtraction run below zero |
| `BandwidthThrottle.LevelUp` | original/host.c:457-461 | the level only rises from round to round |
| `BandwidthThrottle.ShareIncoming` | original/host.c:446-500 | the limits told are the fair ones at one level, sum up to no more than the host's bandwidth, and leave less than one unit per levelled peer; no connected peer is told 0, which means no limit, if and only if all have a rate of their own and the host has a unit for each |
| `BandwidthThrottle.TellsNoLimit` | original/host.c:457-499 | a peer with the default rate is told no limit, whatever the host takes in |
| `BandwidthThrottle.AdjustThrottle` | original/peer.c:62-91 | the throttle moves up, down or to its limit by the round-trip time, and never past the limit or below zero |
| `UnsequencedWindows.NearestWire` | src/channel.rs:188-223 | a 16-bit group is the wire form of the number it is read as, which is at most half a turn from the high-water mark |
| `UnsequencedWindows.SlideOne` | src/channel.rs:188-223 | clearing the slot that comes into view forgets only the group that leaves it |
| `UnsequencedWindows.AcceptOne` | src/channel.rs:188-223 | setting a slot records exactly one group |
| `UnsequencedWindows.UnsequencedWindow.constructor` | src/channel.rs:177-186 | a new window has accepted nothing |
| `UnsequencedWindows.UnsequencedWindow.Advance` | src/channel.rs:188-223 | moving the window, by steps or all at once, keeps what it stands for |
| `UnsequencedWindows.UnsequencedWindow.CheckAndSet` | src/channel.rs:188-223 | over any sequence of calls: true if and only if the group, read as the nearest number, is less than 1024 behind the highest and was never accepted before |
| `FragmentBuffers.FragmentBuffer.constructor` | src/channel.rs:24-36 | a new buffer has nothing |
| `FragmentBuffers.FragmentBuffer.Receive` | src/channel.rs:38-67 | any input, good or bad, has the effect of the model |
| `FragmentBuffers.FeedTallied` | src/channel.rs:38-67 | for any input, the count of fragments received is the number of mask bits set |
| `FragmentBuffers.FedTallied` | src/channel.rs:24-67 | over any sequence of fragments, the count of those received is the number of mask bits set |
| `FragmentBuffers.Split` | src/task.rs:1138-1191 | the loop cuts a payload into numbered fragments with their offsets, which joined give the payload |
| `FragmentBuffers.FeedHolding` | src/channel.rs:38-67 | a fragment of the payload puts its bytes in place; completion is reported exactly when it is new and the last |
| `FragmentBuffers.DeliveredHolding` | src/channel.rs:38-67 | for fragments in any order and number, the buffer holds exactly those that came |
| `FragmentBuffers.CompletesOnce` | src/channel.rs:38-67 | of all arrivals, exactly one completes the message |
| `FragmentBuffers.Reassembles` | src/channel.rs:38-71 | any delivery that has every fragment at least once rebuilds the payload, and exactly one arrival reports completion: that of the last fragment that was new |
| `RoundTripTimes.ReconstructExact` | src/task.rs:996-1005 | the echoed 16-bit time gives the sending time back if its age is at most 32768 ms |
| `RoundTripTimes.ReconstructIff` | src/task.rs:996-1005 | for ages below a wrap, it does so exactly when the low half has not wrapped or the high bits tell that it has |
| `RoundTripTimes.SampleRange` | src/task.rs:996-1005 | every sample is below 2^16 |
| `RoundTripTimes.RttEstimator.constructor` | src/task.rs:162-183 | the estimate starts with its defaults |
| `RoundTripTimes.RttEstimator.Update` | src/task.rs:162-179 | over all samples: the estimate stays between the least and the greatest, and the variance below 2^16 |
| `RoundTripTimes.RttEstimator.InitialTimeout` | src/task.rs:181-183 | the timeout is the estimate plus four variances, at least 200 and at most 327675, without saturation |
| `RoundTripTimes.AgainFollows` | src/task.rs:1440-1459 | a retransmission doubles the timeout, is at most the sixth, and comes before the maximum |
| `RoundTripTimes.PatienceEnds` | src/task.rs:1440-1459 | a command that has not expired is younger than its patience |
| `RoundTripTimes.ExpiredWhen` | src/task.rs:1440-1455 | by an unbounded clock, a command ends the peer exactly if its time is up and it was first sent 30 seconds ago or has been sent six times, so never before 12.6 seconds |
| `RoundTripTimes.Retransmitter.Send` | src/task.rs:319-328 | a new command is out once, with its initial timeout |
| `RoundTripTimes.Retransmitter.Acknowledge` | src/task.rs:1034 | an acknowledged command is gone, the others stay |
| `RoundTripTimes.Retransmitter.Service` | src/task.rs:1432-1480 | over all runs with a clock that may wrap and service gaps below 2^31 ms: the peer is removed exactly when some command's time is up that was first sent 30 seconds ago or has been sent six times, never before 12.6 seconds; otherwise exactly the due commands go out again, none more than six times, and none stays longer than its patience |
| `ReorderBuffers.ReorderBuffer.constructor` | src/channel.rs:96-106 | a new channel waits for the first message |
| `ReorderBuffers.ReorderBuffer.Receive` | src/channel.rs:124-156 | what is handed over is exactly the next part of the messages sent, up to the first that is missing; what comes too early is kept while there is room, what comes again is dropped |
| `ReorderBuffers.SeenFrom` | src/protocol.rs:614-618 | within half a wrap, the 16-bit comparison is the order of the numbers |
| `WireFields.GetPutAll` | src/protocol.rs:322-563 | big-endian fields are read back as written |
| `WireFields.PutGetAll` | src/protocol.rs:322-563 | fields read are those that stood there |
| `WireFields.GetAllShort` | src/protocol.rs:322-488 | reading fails exactly when the bytes run out |
| `WireCommands.LayoutFits` | src/protocol.rs:490-563 | what the writer puts out has the field widths that the parser looks for, for every type of command |
| `WireCommands.BodyBack` | src/protocol.rs:322-488 | the parser's fields make up the body that was written |
| `WireCommands.LayoutBack` | src/protocol.rs:322-488 | the writer's fields of a parsed body are those parsed |
| `WireCommands.ParseBack` | src/protocol.rs:322-488 | whatever parses is well formed and its written form is the bytes consumed |
| `WireCommands.ParseWritten` | src/protocol.rs:322-563 | a written command, followed by anything, parses to that command and what follows, if and only if it is well formed |
| `WireCommands.TooLong` | src/protocol.rs:530-533 | a command with 64 KiB of data announces none and does not come back |
| `WireCommands.SizeWritten` | src/protocol.rs:302-320 | byte_size is the length of the written form |
| `WirePlaces.WrittenWhere` | src/protocol.rs:490-563 | every field of every command stands at its place, the high byte first, and the data behind it, and nothing else |
| `WireCommands.ParseCommands` | src/protocol.rs:597-611 | the loop takes commands off the front, at most 32, up to one that does not parse |
| `WireCommands.ParseAllBack` | src/protocol.rs:597-611 | the commands of any datagram written again are its front, and parsing stopped at 32, at the end, or at bytes that are no command |
| `WireCommands.ParseAllWritten` | src/protocol.rs:597-611 | well-formed commands written one after the other come back, the first 32 of them |
| `WireDatagrams.HeaderWritten` | src/protocol.rs:118-147 | a protocol header comes back if and only if it has a time exactly when its flag is set |
| `WireDatagrams.MakeDatagram` | src/task.rs:256-279 | the loop builds the header, the checksum over the connection's number in its place, and the commands |
| `WirePlaces.DatagramWhere` | src/task.rs:256-279 | flags, session and peer in the first two bytes, the time in the next two, then the checksum, if there is one, and the commands |
| `WireDatagrams.OutgoingHeader` | src/protocol.rs:84-108 | peer and session of an outgoing header read back, the time flag is set and the compression flag is not |
| `WireDatagrams.OpenDatagram` | src/task.rs:431-491 | a datagram made is opened to its first 32 commands and its time, without checksums always, with them exactly when the two sides' connection numbers check alike |
| `Checksums.BuildTable` | src/protocol.rs:568-587 | the table holds eight steps for each byte |
| `Checksums.StepsXor` | src/protocol.rs:568-587 | the register is linear |
| `Checksums.LookUp` | src/protocol.rs:589-595 | eight steps are a shift by a byte and one table entry |
| `Checksums.ShiftSteps` | src/protocol.rs:589-595 | taking in bits one by one is stepping the register with the rest of the byte added |
| `Checksums.ByteStep` | src/protocol.rs:589-595 | one turn of the loop takes in the eight bits of a byte |
| `Checksums.Crc32` | src/protocol.rs:589-596 | for every byte string, the table-driven checksum is the bit-at-a-time one of section 8.1.1.6.2 of ITU-T V.42 |
| `Checksums.StandardGenerator` | src/protocol.rs:568-587 | the polynomial has the exponents of the standard's generator |
| `Checksums.CheckValue` | src/protocol.rs:589-595 | the check of the letter a is E8B7BE43 |

## Left out

What a contract says less of than the source does:

- RangeDecompression.Decompress: which bytes it puts out after a code in no slice is not said, only that it ends, within
  the array and the output, and what it keeps. No stream that compression makes is of that kind.
- RangeStreams.AnyStep: which numbers come out is not said, only what they keep.
- StrayDecoding.StrayAll: as `Decompress`.
- StrayDecoding.StrayFound: which symbol a stray code leads to, and when a subcontext gives up, is not said.
- StrayDecoding.StrayRead: as `StrayFound`.
- StrayDecoding.SeekCode: as `StrayFound`; trees out of order lead a search to places without meaning.
- RangeDecompression.UnpackAll: as `Decompress`.
- RangeCoders.RangeCoder.DescendByCode: requires a code in a slice; other codes are those of `StrayDecoding.SeekCode`.
- RangeCoders.RangeCoder.TryDecode: requires a code in a slice; other codes are those of `StrayDecoding.StrayFound`.
- RangeCoders.RangeCoder.RootDecode: requires a code in a slice, as `TryDecode`.
- RangeCoders.RangeCoder.DecodeIn: requires a code in a slice, as the two above.
- ModelPools.Recover: requires a code in a slice, as the ones above.
- RangeDecompression.ReadFound: requires a code in a slice, as the ones above.
- RangeCompression.Compress: requires the buffers after the first to be non-empty, as the C code reads a byte of each
  without looking at its length.
- ReliableRuns.ReliableDelivery: speaks of runs in which no copy of a command arrives more than eight windows behind the
  receiver, no copy of an acknowledgement is older than one turn of the numbers, messages have at most 4096 fragments,
  and the receiver is CONNECTED. Older copies look like new commands in 16 bits. That a network
  that loses not everything makes everything arrive is not stated, only that it can: `ReliableProgress.NoDeadEnd`.
- ReliableReceivers.Receiver.QueueIncoming: whether there is room for the data is an input, and the memory of a message
  whose fragments have not come holds zeros, where C leaves it as it was allocated.
- ReliableSenders.Sender.CheckOutgoing: how many commands fit into the datagram is an input, and the fields of the
  datagram itself are not modelled; unreliable commands leave the queue without the throttle's choice of what to drop.
- ReliableSenders.Sender.CheckTimeouts: what is left in the queues of a peer that is given up is only said to have the
  same numbers, as the C code then resets the peer.
- ReliableSenders.Sender.QueueUnreliable: the unreliable sequence number, which is not part of the reliable channel, is not
  modelled.
- ReliableLinks.ReliableLink.Deliver: the command is one that the run may deliver, within the lives of copies given above,
  and the receiver is CONNECTED; other peers' commands are those of `ReliableReceivers.Receiver`.
- ReliableSenders.Sender.TransmitFirst: an unreliable command leaves the queue whatever the throttle says.
- BandwidthThrottle.ShareOutgoing: products are not cut to 32 bits.
- BandwidthThrottle.ThrottleOutgoing: requires the peers' data to sum up below 2^32 and the time to differ from the last
  one; products are not cut to 32 bits.
- BandwidthThrottle.AdjustThrottle: sums are not cut to 32 bits.
- PeerHosts.PeerHost.Leave: sending what is queued before the peer is reset, which disconnecting in an early state does,
  is a separate action.
- PeerHosts.PeerHost.Verified: whether the answer to a connection request passes its checks is an input.
- PeerLifecycle.EventGrammar: whether an event can be delivered at once is an input, and the dispatch queue is a sequence
  of peers, in which a slot that was reset may still stand.
- ReorderBuffers.ReorderBuffer.Receive: requires copies to be less than half a turn of the numbers from the next one.
- RoundTripTimes.Retransmitter.Service: the commands stand in one sequence, where the Rust code orders them by channel and
  number; nothing of the contract depends on the order.
- WireDatagrams.OpenDatagram: the checksum is any function of the bytes; that the peer and its session are looked up before
  the checksum is compared is not modelled.

What is not modelled at all:

- Unreliable and unsequenced delivery in C, unreliable fragments, packet loss statistics, pings, broadcast and the setters
  of the interface: more of the same queues with easier properties.
- Round-trip times and time reconstruction in C, which repeat what is proved of the Rust code.
- The branches for symbol exclusion in the range coder, which are not compiled.
- The checks of a connection request against the limits of channels, MTU and window size, the choice of session numbers,
  and the search for a peer that is connected already.
- The ordering of fragmented messages in the Rust code, whose block length is forgotten when a message is complete before
  its predecessor, and the order between queued and new packets of the Rust sender.
- Sockets, clocks, random numbers, allocation failure, and the channels and tasks of the Rust runtime.
- How `enet_host_service` interleaves its parts; each is an action of its own here.
