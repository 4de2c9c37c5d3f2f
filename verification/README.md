# Handel aggregation, modelled and proved

Handel lets thousands of nodes add up their signatures over a binary tree of levels. A node
keeps, for every level, the best multisignature it has seen for the nodes of that level, and
sends its peers at a level everything it holds for the levels below. This project models one
node of the protocol, and pairs of nodes, and proves what the protocol promises in every
state of every run. It also models two smaller pieces of the simulation tooling: the
allocation of nodes to platforms and the streaming statistics of a measure.

How the files fit together:

| files | contents |
|---|---|
| Numbers, Sets, Signatures | integer arithmetic of utils.go, cardinalities, an abstract abelian group of signatures and keys, the registry |
| Partition | the ranges of ids of each level, as loops and as what they mean: tree distance between ids |
| Slots, Scoring, Ranking, Soundness, Discard | one level of the store: merge or replace, the score that predicts it and the order it puts waiting signatures in, validity, and when score 0 is final |
| Combining, Assembly, BitSets, Store | the whole store as a value, and as an object over bitsets updated in place; combining levels |
| Wire | the byte form of a multisignature, with the length it announces and that of the vector it carries |
| Processing | the queue, its filter and counters, and verification |
| Levels | the per-level sending state |
| Protocol | the node as a state machine: each locked region is one step, taken in any order |
| Safety, Pace, Sending, Serving, Outputs, Runs | the invariants and that every step keeps them |
| Updates, Queueing | what each step sends, to whom and how it reads; what an arriving packet puts into the queue |
| Theorems, Progress, Liveness | the results about every reachable state, about two nodes, and about going quiet |
| Mismatch | what a packet does that announces another length than that of its vector |
| Handel | the node as an object, its methods proved against the steps of Protocol |
| Allocator, Stats | simul/lib/allocator.go and simul/monitor/stats.go |

A signature is a point of an abelian group, and a multisignature verifies exactly when it is
the sum of the keys its bitset denotes, so counting a nonzero contribution twice really breaks
it (`Signatures.Scheme.CountedTwice`). A bitset has two lengths, as in the code: the one it
announces and that of the bit vector it wraps.

Whatever the code updates in place is a class here or a method with loops; the value each
object stands for is given by a function, the methods are proved against functions on those
values, and the results are lemmas about these functions over all runs. A run interleaves, in
any order, arbitrary packets, processing steps with arbitrary scores, storing, actors,
periodic updates, level starts and stopping. The packets of a run may hold anything, with one
condition that can be read off their bytes before they are handed over: the length announced
for the bitset is that of the vector (`Wire.Announced`). Without it the results below fail, as
the next section says. Node ids are unbounded integers below a registry
size of at most 65535, which is what the 16-bit length of a marshalled bitset can carry.

## Where the code and its documentation differ

- bitset.go:166-177 reads the length of a bitset from a prefix and decodes the vector with its
  own length; nothing compares the two. A parsed multisignature fits its level if and only if
  they agree (`Safety.ParseGood`). When they do not, a packet with one contribution can mark a
  level complete (`Mismatch.CompletesEarly`), make the node panic (`Mismatch.PanicsTooLong`),
  or make it output a multisignature that does not verify (`Mismatch.OutputsFalse`).
- partitioner.go:230 lets a signature for the requested level itself through, which then has
  no place in the result (`Assembly.SameLevelPanics`).
- processing.go:37-42 promises that a signature scoring 0 "can be discarded definitively".
  For multisignatures this is false: a later, larger signature may replace the best and drop
  what the discarded one held. `Discard.DiscardCounterexample` gives the input, and
  `Discard.DiscardIsFinal` the exact condition under which the promise holds.
- handel.go:271-296: the own signature alone is never sent to the user, even when it reaches
  the threshold, because only a stored signature from a peer runs the actors.
  `Theorems.FinalIsCurrent` states exactly when the user has been sent the best there is, and
  `Theorems.OwnAloneNotSent` gives the input.
- simul/monitor/stats.go:353-383: collecting again after storing a new value weights the
  old values twice (`Stats.MeanAgain`, `Stats.BetweenCollections`), and the maximum starts
  from zero, so it is wrong when all values are negative (`Stats.MaxRight`, `Stats.NegativeOnly`).
- simul/lib/allocator.go:34-90: asking for more offline nodes than there are nodes panics
  (`Allocator.AllocateRoundRobin`), and asking for some with no nodes at all never ends, since
  a round then changes nothing (`Allocator.Round`).

## Model

| member | source | states |
|---|---|---|
| Theorems.NoPanic | store.go:82-262 | in every run, no step ever panics: levels, bests and signatures taken for granted are there, individual signatures have one bit and a position in their level, no bit is read or set out of bounds, and no score is negative |
| Theorems.AllSound | store.go:188-262 | in every run, every best, everything sent and everything output is the sum of exactly the keys in its bitset, each counted once |
| Theorems.Understood | handel.go:216-225 | whatever a node has sent in any run, each receiver validates, parses and verifies, both signatures in it |
| Theorems.HonestAccepted | handel.go:373-436 | a packet that fits the sender's inverse range is accepted by every peer of that level |
| Theorems.ReceiverLevel | partitioner.go:133-211 | the receiver has the sender in the same level and expects there exactly the range the sender covers |
| Theorems.NoContributionLost | store.go:86-97 | over every run the verified individual contributions of a level are in its best; without a best there are none |
| Theorems.FewReplacements | store.go:82-99 | over a whole run the stores that replace a best are no more than the contributions held, hence at most one per node |
| Theorems.InStep | handel.go:301-328 | once the actors have run, a level is complete exactly when its best is full, and the size announced is that of what would be sent, or 0 while no lower level has stored a signature of a peer |
| Theorems.CompleteStarts | handel.go:565-580 | a level whose lower levels are all complete has been started |
| Theorems.FastPathOnce | handel.go:498-519 | the size awaited is that of the inverse range, and the fast path is taken at most once, exactly when that size was announced |
| Theorems.EveryPeerServed | handel.go:526-580 | a started level goes quiet only after every peer was really sent, at this level, a packet that reads as a multisignature at least as large as the current one |
| Theorems.ContactsBounded | handel.go:544-558 | the count of peers contacted stays below twice their number, and is 0 while the level is not started |
| Theorems.OwnAloneNotSent | handel.go:271-296 | with threshold 1 the own signature is enough, and yet not sent |
| Progress.UpdateRaises | handel.go:216-248 | whatever a node has sent in any run, a receiver whose best holds less, at a level not complete, raises that best on receiving, processing with the scores of its store, and storing |
| Progress.PacketRaises | processing.go:171-287 | the same for any accepted packet |
| Progress.LargerScores | store.go:101-183 | a multisignature with more contributions than the best is never discarded |
| Serving.SelectBacked | handel.go:216-225 | every contact remembered by a level is backed by a message that was sent to that peer |
| Theorems.LedgerBalances | processing.go:171-220 | in every run each accepted entry waits, was selected, or was dropped; the counters count the selected and the dropped; no origin has two individual signatures accepted |
| Theorems.ScoresPredict | store.go:101-183 | in every run the score of a waiting signature is not negative, is above the floor exactly when storing it replaces the best, and completing scores lie above all others |
| Theorems.FinalsGrow | handel.go:271-296 | outputs reach the threshold, cover the registry, verify, grow strictly, and are at most n - threshold + 1 |
| Theorems.FinalIsCurrent | handel.go:271-296 | if and only if below the threshold or after a peer's signature was stored, the last output has the cardinality of the full signature |
| Runs.Always | handel.go:239-248 | every reachable state satisfies all invariants |
| Runs.StepKeeps | handel.go:127-248 | every kind of step keeps all invariants |
| Runs.InitialInv | handel.go:70-122 | the invariants hold after NewHandel |
| Runs.CheckCompletedLevels | handel.go:301-328 | the state of every level after checkCompletedLevel does not depend on the order in which the map is visited |
| Runs.Replaced | store.go:82-99 | a store never lowers the total number of contributions, and strictly raises it when it replaces a best |
| Sending.RaiseAllLevel | handel.go:319-327 | each upper level is raised exactly once whatever the order of the others |
| Sending.MessageGood | handel.go:216-225 | a message goes to peers of the level, carries what they expect, and the own signature if any |
| Outputs.CheckFinalOut | handel.go:271-296 | checkFinalSignature keeps the outputs valid and increasing, and leaves the best up to date |
| Outputs.FullGood | store.go:238-246 | the full signature covers the registry, has one bit per contribution held, and verifies |
| Outputs.OutBound | handel.go:277-284 | strictly growing outputs are no more than the cardinalities from the threshold up |
| Pace.LowPace | handel.go:301-317 | the levels up to the one stored at keep pace with the store |
| Pace.HighPace | handel.go:319-327 | the levels above the one stored at keep pace with the store |
| Safety.StoreAtKeeps | store.go:82-99 | storing a verified signature keeps all levels well formed and valid |
| Safety.StoreAtGrows | store.go:188-229 | no level loses cardinality, the stored level has a best, and a best is only replaced by a larger one |
| Safety.ToSendFits | handel.go:216-225 | what is sent at a level is not empty, has the size the peers expect, and is valid for the range it denotes |
| Safety.ParseGood | handel.go:390-436 | whatever the packet, the multisignature parsed fits its level if and only if it announces the length of its vector; an individual signature fits and has exactly its own bit |
| Mismatch.MisfitAccepted | bitset.go:166-177 | a packet that announces a shorter length than that of its vector is parsed and verified |
| Mismatch.CompletesEarly | handel.go:301-317 | stored first, it marks a level complete of whose nodes only one has contributed |
| Mismatch.MergesTooLong | bitset.go:120-137 | merged with an honest signature, it makes the best announce the length of the vector |
| Mismatch.PanicsTooLong | partitioner.go:263-278 | when that is longer than the registry, the full signature sets a bit out of bounds |
| Mismatch.OutputsFalse | partitioner.go:263-278 | when it is as long as the registry, the full signature does not verify, in whatever order the levels are combined |
| Partition.Partitioner.RangeMembers | partitioner.go:133-178 | the range of a level holds exactly the nodes at that tree distance |
| Partition.Partitioner.InverseMembers | partitioner.go:185-211 | the inverse range holds exactly the nodes below that tree distance |
| Partition.Partitioner.Partitions | partitioner.go:133-178 | every node is in exactly one level from 0 to log2(n), and level 0 is the node itself |
| Partition.Partitioner.Symmetric | partitioner.go:133-178 | two nodes put each other in the same level |
| Partition.Partitioner.PeerExpects | partitioner.go:133-211 | the range a peer at a level has for this node's side is this node's inverse range |
| Partition.Partitioner.InverseGrows | partitioner.go:185-211 | one level up the inverse range gains exactly the range of the level, contains the node, and at the top is everything |
| Partition.Partitioner.InverseSize | partitioner.go:185-211 | the size of the inverse range is the sum of the sizes of the levels below |
| Partition.Partitioner.RangeLevel | partitioner.go:133-178 | the bit-by-bit search finds the range of the level, or the right error |
| Partition.Partitioner.RangeLevelInverse | partitioner.go:185-211 | the bit-by-bit search finds the inverse range, or the error |
| Partition.Partitioner.Levels | partitioner.go:95-105 | lists exactly the non-empty levels from 1 up, in increasing order |
| Partition.Partitioner.IdentitiesAt | partitioner.go:81-93 | the identities of a level, in order, or none for an empty or invalid one |
| Partition.Partitioner.IndexAtLevel | partitioner.go:107-119 | the position of a node in its level, if and only if it is in it |
| Partition.Partitioner.Size | partitioner.go:213-222 | the number of nodes of the level |
| Numbers.Log2 | utils.go:8-11 | the least exponent whose power reaches n |
| Slots.StoreKeeps | store.go:82-99 | a slot stays well formed, its verified contributions only grow and stay in the best, and the best is kept or replaced by a larger one |
| Slots.CheckMergeCases | store.go:188-229 | disjoint signatures are merged, others replace, holes are patched, and only more contributions are accepted; the length of the outcome is that of the vectors |
| Slots.StoreIsSafe | store.go:82-99 | storing what fits a level reaches none of the panics of Store |
| Scoring.ScorePredictsStore | store.go:111-183 | the score tells exactly whether storing replaces the best, by how much it grows, and whether it completes the level |
| Ranking.ScoreIs | store.go:165-182 | the score in terms of what storing does: the level, the growth of the best, the contributions that only patches bring, and whether the level is filled |
| Ranking.ScoreOrder | store.go:175-182 | the difference of the scores of two entries that replace their bests |
| Ranking.LowestLevelFirst | processing.go:171-220 | in every run, with the scores of the store, the entry selected fills its level when any waiting one does, and is of the lowest level among those alike in growth and patches |
| Scoring.GainCases | store.go:133-164 | the computed total and added counts are the true cardinalities |
| Scoring.GuardsAddNothing | store.go:111-132 | the early returns only turn away signatures that add nothing |
| Signatures.Scheme.CountedTwice | crypto.go:120-137 | with one nonzero contribution counted once more a signature no longer verifies |
| Soundness.Keys.CheckMergeSound | store.go:188-229 | merging and patching valid signatures gives a valid one, no key counted twice |
| Soundness.Keys.StoreSound | store.go:82-99 | a slot of valid signatures stays valid |
| Discard.DiscardIsFinal | processing.go:37-42 | a multisignature that scores 0 is useless forever if and only if its level is full, or it is individually verified, or held in a best one short of full or a level of at most three |
| Discard.DiscardIndividualIsFinal | processing.go:37-42 | an individual signature that scores 0 is useless forever |
| Discard.DiscardCounterexample | processing.go:37-42 | a signature that scores 0, and scores above 0 after one more verified signature is stored |
| Combining.CombinedExact | store.go:248-262 | the combined bitset has the size of the inverse range, one bit for each node held, none out of bounds |
| Combining.CombinedSound | store.go:248-262 | the combined signature is the sum of the keys of the nodes its re-indexed bits denote |
| Combining.FullExact | store.go:238-246 | the full bitset is indexed by node id and counts every contribution once |
| Combining.FullSound | store.go:238-246 | the full signature is the sum of the keys its bits denote |
| Combining.HeldCard | partitioner.go:280-296 | contributions held below a level are as many as the bests of the levels below have bits |
| Assembly.CombineSize | partitioner.go:280-296 | whatever the lengths, each bit is what the last signature that covers it says |
| Assembly.WrittenMarks | partitioner.go:280-296 | for different levels with bitsets of their size, bit j is set exactly when the local bit of the level that owns node j is set |
| Assembly.Combine | partitioner.go:224-261 | unless a bit is out of bounds: nothing exactly when there is nothing, a level is too high or does not exist; otherwise sized by the inverse range, bits re-indexed |
| Assembly.SameLevelPanics | partitioner.go:230-258 | a signature for the requested level itself has a bit out of bounds |
| Assembly.CombineFull | partitioner.go:263-278 | the same over the whole registry |
| Assembly.Place | partitioner.go:246-258 | writes the bits of one level at its offset and no other |
| Assembly.FoldIsSum | partitioner.go:280-296 | the signature added up does not depend on the order of the levels |
| SignatureStore.CombinedIs | store.go:248-262 | in whatever order the map yields the levels, the combined multisignature is the same |
| SignatureStore.CheckMergeSigs | store.go:188-229 | unsafeCheckMerge on bitset objects gives what the merge on values gives, without touching its inputs |
| SignatureStore.Complement | store.go:211-227 | the loop over the missing bits sets each and adds its individual signature |
| SignatureStore.GainOfSig | store.go:133-164 | the counts computed on bitset objects |
| SignatureStore.NewVerified | store.go:62-80 | one empty bitset for the node and one for each non-empty level, all distinct |
| SignatureStore.SigStore.constructor | store.go:62-80 | an empty slot for the node and for each non-empty level |
| SignatureStore.SigStore.Store | store.go:82-99 | the store becomes the one with the new slot; bitsets stored or handed out before are not changed |
| SignatureStore.SigStore.SetBest | store.go:264-269 | the best of one level is replaced, nothing else |
| SignatureStore.SigStore.BestAt | store.go:231-236 | the best of a level, if there is one |
| SignatureStore.SigStore.Combined | store.go:248-262 | a fresh multisignature equal to the combination of the levels up to the given one, or nothing for a level that is too high |
| SignatureStore.SigStore.FullSignature | store.go:238-246 | a fresh multisignature equal to the combination of all levels |
| SignatureStore.SigStore.EvaluateSig | store.go:101-183 | the score, computed on bitset objects without changing the store |
| BitSets.BitSet.NextSet | bitset.go:199-202 | the first bit set from a position on |
| BitSets.BitSet.Set | bitset.go:88-93 | sets or clears one bit, in bounds |
| Wire.RoundTrip | crypto.go:65-110 | a multisignature survives marshalling, with both lengths, if and only if its bitset announces at most 65535 bits |
| Wire.Layout | crypto.go:65-82 | the bytes are the size of the marshalled bitset and its length, most significant byte first, the vector, and the signature |
| Wire.DecodeBelow | bitset.go:166-177 | whatever the bytes, the bits read lie below the length announced and fill its vector exactly when that is the length of the vector |
| Wire.MarshalBinary | crypto.go:65-82 | writes the length of the bitset, the bitset and the signature |
| Wire.Unmarshal | crypto.go:86-110 | reads them back, or fails on a short buffer or a bad part |
| Processing.ScanSelects | processing.go:171-220 | the entry selected is the first with the highest positive mark |
| Processing.ScanConserves | processing.go:171-220 | the entry selected and the new queue are exactly the entries with a signature and a positive mark |
| Processing.Queue.AddBalanced | processing.go:159-167 | adding keeps the ledger balanced |
| Processing.Queue.ReadBalanced | processing.go:171-220 | reading keeps the ledger balanced, and takes nothing that was not queued |
| Processing.Queue.ReadExactly | processing.go:171-220 | the first entry with the highest mark is counted as selected, the others worth keeping wait, the rest is dropped |
| Processing.EvaluatorProcessing.Accept | processing.go:309-323 | accepts an individual signature once per origin |
| Processing.EvaluatorProcessing.Add | processing.go:159-167 | appends what the filter accepts |
| Processing.EvaluatorProcessing.ReadTodos | processing.go:171-220 | stops at the death pill leaving everything as it was; otherwise selects, keeps and counts |
| Processing.EvaluatorProcessing.ProcessStep | processing.go:258-287 | publishes the selected signature if and only if it verifies |
| Processing.VerifySignature | processing.go:342-368 | accepts exactly the sum of the keys of the bits below the length announced, when that is the size of the level |
| Processing.VerifyMultiSignature | crypto.go:120-137 | accepts exactly the sum of the keys its bits denote, with the length of the registry |
| Levels.LevelState.SelectKeeps | handel.go:544-558 | contacting the next peers keeps the circular window of contacts and its count |
| Levels.LevelState.UpdateKeeps | handel.go:565-580 | a better signature restarts the window |
| Levels.LevelState.Covers | handel.go:526-558 | a started level that is no longer active has contacted each of its peers |
| Levels.Level.SelectNextPeers | handel.go:544-558 | returns the next peers on the ring and advances the position |
| Levels.Level.UpdateSigToSend | handel.go:565-580 | resets on a larger signature, and answers true exactly when it is the awaited size |
| Node.CreateLevels | handel.go:498-519 | the running total gives each level the size of the levels below, and only the lowest non-empty level is started |
| Node.NewHandel | handel.go:70-122 | the new object stands for the initial state of the state machine: levels, store, nothing sent, no best, not done |
| Node.Handel.SendUpdate | handel.go:216-225 | carries out the sending step: peers selected, combined signature and own signature packed |
| Node.Handel.StartLevel | handel.go:198-212 | carries out the timeout step, whose effect Updates.TimeoutSends states |
| Updates.TimeoutSends | handel.go:198-225 | in every run a timeout starts its level and sends one update, to the next peers on the ring, reading as what is held below the level, and does nothing when the level was started before |
| Node.Handel.PeriodicUpdate | handel.go:186-194 | carries out the tick step in some order of all levels, whose effect Updates.TickSends states |
| Updates.TickSends | handel.go:186-225 | in every run a tick sends exactly one update at each started level with peers left, to the next peers on the ring, reading as what is held below the level, and advances exactly those levels |
| Updates.ActorsSend | handel.go:319-327 | in every run the actors send exactly one update at each upper level for which everything below is held for the first time, and no other |
| Updates.SelectAdvances | handel.go:544-558 | the peers selected are the next ones on the ring, and the position and the count move on by as many |
| Updates.OthersSendNothing | handel.go:127-152 | no other step sends, and only the actors give anything to the user |
| Updates.ReplacementsCounted | store.go:264-269 | a best changes only when a signature is stored, for its level, which is counted |
| Updates.StoredInOrder | handel.go:239-248 | verified signatures are stored one by one, in the order in which they were passed on |
| Liveness.GoesQuiet | handel.go:186-194 | after as many ticks as it has peers, and nothing larger to announce, a started level is quiet and every peer was sent what it announces |
| Liveness.StepMoves | handel.go:526-580 | in every run a step never unstarts a level, never lowers what it announces, and until that grows never lowers its count of contacts; a tick raises that count while the level is active |
| Node.Handel.CheckCompletedLevel | handel.go:301-328 | carries out the completion step, in some order of all levels |
| Node.Handel.CheckFinalSignature | handel.go:271-296 | carries out the final-signature step |
| Node.Handel.OnVerified | handel.go:239-248 | stores a verified signature, then runs both actors on the new store |
| Node.Handel.ParseSignatures | handel.go:390-436 | parses or fails as the parsing function says |
| Node.Handel.NewPacket | handel.go:127-152 | carries out the receiving step on the queue, whose effect Queueing.ReceiveQueues states |
| Queueing.ReceiveQueues | handel.go:127-152 | a valid packet for a level not complete appends its multisignature, then an entry with its origin and just its bit for the individual signature of an origin not seen, and nothing else |
| Queueing.ReceiveIgnores | handel.go:127-152 | when done, for a complete level, or for a packet that is not valid or not readable, nothing changes |
| Queueing.IndividualRecorded | handel.go:390-436 | the individual signature of an honest node reaches the queue of its receiver, verifies and is passed on when selected, and is recorded as verified when stored |
| Queueing.FirstStarted | handel.go:498-519 | at first exactly the lowest non-empty level is started |
| Queueing.DoneStaysQuiet | handel.go:127-134 | once done, packets change nothing and nothing more is given to the user |
| Queueing.StopEnds | processing.go:151-153 | after stopping, the next processing step ends the processing |
| Node.Handel.Stop | handel.go:173-182 | stops the ticker, queues the death pill, and marks the node done, after which the output is closed and nothing is sent on it |
| Node.PeriodicSnoc | handel.go:186-194 | updating one more level is one more step of the periodic update |
| Allocator.AllocateRoundRobin | simul/lib/allocator.go:34-90 | ends without panic if and only if offline <= total; then every id below total has one place, on platform id mod n, inactive exactly when it is k * (total / offline) for some k < offline |
| Allocator.PlacedOnce | simul/lib/allocator.go:59-85 | every id has exactly one place, on platform id mod n, and is active unless scheduled |
| Allocator.ScheduleCard | simul/lib/allocator.go:52-58 | exactly the requested number of distinct ids below total is scheduled |
| Allocator.ScheduleIs | simul/lib/allocator.go:52-74 | the scheduled ids are exactly the first multiples of total / offline |
| Allocator.Round | simul/lib/allocator.go:59-85 | one round deals out the next ids, one to a platform; once all are dealt out it changes nothing |
| Allocator.Mark | simul/lib/allocator.go:71-82 | the next id is inactive exactly when it is in the schedule, and the panic is reached only when offline > total |
| Allocator.IdsCount | simul/lib/allocator.go:38-50 | the places reserved by quotient and remainder are as many as the ids dealt |
| Allocator.LoadsEven | simul/lib/allocator.go:38-50 | with distinct names the loads differ by at most one |
| Allocator.AllocateRandomOffline | simul/lib/allocator.go:106-165 | never panics, whatever the random choices; ids dealt as above, inactive nodes spread in turn |
| Allocator.OfflineEven | simul/lib/allocator.go:146-162 | with distinct names the numbers of offline nodes differ by at most one |
| Allocator.DrawPossible | simul/lib/allocator.go:146-162 | every platform visited still has an active node to choose |
| Allocator.VerifyAllocation | simul/lib/allocator.go:167-197 | accepts exactly when all ids are allocated and both counts are as requested, in whatever order the map is visited |
| Stats.Value.Collect | simul/monitor/stats.go:353-383 | the streaming mean, sum of squares, deviation, minimum and maximum are those of everything collected |
| Stats.Value.Stream | simul/monitor/stats.go:368-380 | one more value: the mean, the sum of squared deviations and the sample deviation are the direct ones |
| Stats.MeanIs | simul/monitor/stats.go:368-375 | the mean kept is the quotient of the sum by the number of values |
| Stats.SqDevNext | simul/monitor/stats.go:374-375 | the streaming update of the sum of squared deviations is exact |
| Stats.MeanAgain | simul/monitor/stats.go:353-383 | after collecting again the mean is that of the store if and only if the old mean already was |
| Stats.Twice | simul/monitor/stats.go:353-383 | collecting an unchanged store twice keeps the mean and doubles the sum of squares |
| Stats.BetweenCollections | simul/monitor/stats.go:345-383 | storing a value between two collections makes the mean wrong |
| Stats.MaxRight | simul/monitor/stats.go:362-364 | the maximum is right if and only if some value is not negative |
| Stats.NegativeOnly | simul/monitor/stats.go:362-364 | the maximum of a single negative value is wrong |

## Left out

- Network, encodings of the bitset library and of the curve, and hashing: the codec is a parameter that restores what it encodes and keeps the bits of a decoded vector below its own length; the verifier is ideal.
- BitSets.BitSet: the wrapped library is a finite set with a length; unions are as long as the longer vector, intersections as the shorter one. WilffBitSet.Combine is not used by the protocol.
- Goroutines, locks, channels, tickers and timeouts: each locked region is an atomic step; a channel is a sequence that never blocks; a timeout is a step that may be taken at any time. rangeOnVerified stores without holding the lock of the node, so storing and the actors are two steps.
- SignatureStore.SigStore.Store: for signatures that fit their level, as all those do that runs store; what others lead to is stated on values in Mismatch.
- SignatureStore.SigStore.Combined: for the highest level it panics when that level has a best, so that level must not have one; the protocol never asks for it.
- Node.Handel.NewPacket: the queue holds values, so that a parsed bitset is not an object there; the level and contact order come from the environment, which stands for any shuffle of the peers.
- Node.Handel.StartLevel: only for a level of the node; for any other, getLevel panics, and the timeout strategy never asks for one.
- Node.Handel.Stop: stopping the timeout strategy; stopping a node twice closes its output twice, which panics.
- Levels.Level: the peer counts asked for are not negative.
- Processing.EvaluatorProcessing.ReadTodos: the evaluator's answers are arbitrary numbers, one for each entry; that they predict the store is stated separately by Theorems.ScoresPredict.
- Progress.UpdateRaises: the receiver has nothing else waiting; otherwise other entries may be selected first.
- The sleep that replaces verification in simulations (processing.go:274-277), fifoProcessing, reports, logs and counters other than the ledger of the queue.
- Allocator.AllocateRoundRobin: requires a platform, and a node if some are to be offline; without a platform the division fails, without a node the loop does not end.
- Allocator.AllocateRandomOffline: requires a platform and offline <= total, without which the random search fails or does not end; it picks an active node directly, where the code draws until it finds one.
- Stats.Value.Collect: exact reals, so no rounding; the deviation is kept as the number whose square root it is.
- simul/p2p/aggregator.go and simul/lib/sync.go, whose claims are simple cases of those above; platforms, plots, configuration files and percentile filters.
