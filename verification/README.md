# PhantomLedger kernels

PhantomLedger generates a synthetic bank: people, accounts, payments, fraud and
their exports. This project models the parts of it whose correctness rests on an
algorithm or a protocol, and proves what they are for.

- **Random selection** (`Bounded`, `Sampling`, `Rng`, `Reachability`, `AliasTable`):
  bounded draws by rejection, Floyd's sampler against the partial shuffle, and the
  alias table. The engine is an infinite word stream with a position in it; the
  theorems count draw vectors and engine words.
- **Planned coupling** (`Cogen`, `ShardPacking`): the disjoint-set forest and the
  packing of its components into shards.
- **Temporal export** (`TemporalPlan`, `TemporalExport`): one sequence counter
  stamps planned changes and payments, so that sequence intervals mean what time
  intervals mean for every payment, and so what the raw evidence attests.
- **Crash and resume** (`RunProtocol`, `RunSafety`, `RunStatus`, `RunLedger`,
  `RunJournal`):
  the tables as values, each commit as a statement, an attempt as its list of
  commits. An attempt may stop after any commit and the server may crash between
  attempts; the classes are proved to issue exactly those commits.
- **BLAKE2b** (`Blake2b`, `Blake2bStream`, `Blake2bVector`): the function of
  RFC 7693, the streaming state that computes it, and the worked example of
  Appendix A.
- **Clearing** (`Clearing`, `ClearingRuns`, `ClearingFees`, `ClearingInterest`,
  `ClearingLedger`, `Accrual`, `LocTracker`): postings, overdraft fees and line-of-credit interest
  over whole runs, and the due-time queue against a scan.
- **Windowed regeneration** (`Obligations`, `Calendar`, `Schedule`): replaying
  obligations span by span against the whole stream.
- **Social and family graphs** (`Communities`, `ContactDraws`, `ContactSampler`,
  `HouseholdPartition`, `FamilyLinks`, `OwnParents`, `FamilySupport`): each builder
  computes a function of the word stream, which is then proved sound.
- **Fraud planning** (`FraudPlanning`, `CompromisePlanner`, `IllicitBudget`): two
  runs that differ only in attackers plan the same cases; budgets are shared fairly.
- **Codecs and a solver** (`KeyCodec`, `Decimal`, `Timestamps`, `Csv`,
  `IncomeSelection`).

`Words`, `Arithmetic`, `Lists`, `Counting`, `Sorting` and `Keys` are shared.
Classes follow the source's objects. Methods are proved against functions on
values, and the theorems about runs are lemmas about those functions. Helper
lemmas that only unfold a hidden definition have no row below.

Facts about the code that the proofs brought out, each with its exact condition:

- A resumed run is recognised exactly when the table was not emptied and none of
  its committed spans was empty (`RunSafety.ResumesExactlyWhen`); otherwise the
  run is rewritten, which is safe.
- The deterministic fill of the contact sampler visits everyone exactly when the
  source's index and the population together fit 32 bits
  (`ContactSampling.FillReachesAll`).
- Community blocks advance exactly when the least size is positive and people plus
  greatest size fit 32 bits (`CommunityBlocks.AdvancesExactlyWhen`).
- In a population of students only, everyone stands in as a candidate parent. No
  student can become their own parent exactly when somebody is an adult, nobody is
  there, or no student is ever dependent (`OwnParents.NoOwnParentExactlyWhen`); a
  lone dependent student always does (`OwnParents.LoneStudentsOwnParent`).
- A fraud ring with a death inside the window keeps its 22-day guard before it
  exactly when 23 days are left alive; with fewer it still schedules one day
  (`IllicitBudgets.RingStaysAlive`, `IllicitBudgets.RingOutlivesItsGuard`).
- A weighted pick lands on a person of positive weight exactly when the fraction
  is not zero or the first weight is positive (`FraudPlanning.PickIsWeighted`);
  2048 of the 2^64 words give a fraction of zero.
- The header of the income selector promises exactly one coin per candidate,
  whatever the probability (`include/phantomledger/activity/income/selection.hpp:16-19`).
  The code takes it exactly when the scaled probability lies strictly between 0
  and 1 (`IncomeSelection.OneCoinExactlyWhen`, `IncomeSelection.NoCoinWhenCertain`).
- A sweep at the sentinel timestamp 0 puts a fresh slot's billing clock and its
  queue token out of step (`Accrual.SweepKeepsSchedule`); no other operation does
  (`Accrual.OthersKeepSchedule`).

## Model

| member | source | states |
|---|---|---|
| Bounded.ThresholdIsRemainder | src/primitives/random/rng.cpp:118-135 | The threshold the source computes with a wrapping subtraction, (2^64 - r) mod r, is 2^64 mod r. |
| Bounded.EveryResultEquallyLikely | src/primitives/random/rng.cpp:118-135 | For every range r in 2..2^64-1 and every result v < r, exactly floor(2^64/r) engine words are accepted with result v. |
| Bounded.LargestWordIsFair | src/primitives/random/rng.cpp:118-135 | The assumption made of the word stream is satisfiable: the stream of largest words has an acceptable word for every range at every position. |
| RandomKernel.Rng.Draw | src/primitives/random/rng.cpp:118-135 | The method with its quick test returns the result of the first word whose low half reaches 2^64 mod r, and stops right after it; the quick test changes nothing. |
| RandomKernel.Rng.UniformInt | src/primitives/random/rng.cpp:60-66 | Fails on an empty interval; otherwise low plus one bounded draw over the width. |
| RandomKernel.Rng.ChoiceIndex | src/primitives/random/rng.cpp:68-73 | Fails for n = 0; otherwise one bounded draw below n. |
| RandomKernel.Rng.NextDouble | include/phantomledger/primitives/random/pcg64.hpp:19-22 | One word, its top 53 bits as a fraction of one. |
| RandomKernel.FractionsAreUniform | include/phantomledger/primitives/random/pcg64.hpp:19-22 | For every k up to 2^53 exactly 2048 k of the 2^64 words have a fraction below k / 2^53, so all fractions are equally likely. |
| RandomKernel.FractionIsMultiple | include/phantomledger/primitives/random/pcg64.hpp:19-22 | Every fraction is a whole number of parts of 2^53, fewer than all. |
| RandomKernel.Rng.Coin | include/phantomledger/primitives/random/rng.hpp:23-31 | Probabilities at or outside 0 and 1 consume no word; any other consumes exactly one. |
| RandomKernel.CoinCounts | include/phantomledger/primitives/random/rng.hpp:23-31 | A coin of probability p strictly between 0 and 1 falls on heads for exactly 2048 k words, k being the least number with k / 2^53 at least p. |
| RandomKernel.Rng.FloydSample | src/primitives/random/rng.cpp:30-47 | The loop computes the Floyd sample of the bounded draws below n-k+1, ..., n. |
| RandomKernel.Rng.PartialShuffle | src/primitives/random/rng.cpp:105-113 | The in-place partial Fisher-Yates computes the pool of its draws. |
| RandomKernel.Rng.DrawRepeatedly | src/primitives/random/rng.cpp:88-94 | Sampling with replacement is k independent bounded draws. |
| RandomKernel.Rng.ChoiceIndices | src/primitives/random/rng.cpp:75-116 | The three branches and the failures: none wanted, none available, more wanted than there are. |
| Sampling.FloydIsASample | src/primitives/random/rng.cpp:30-47 | Whatever is drawn in range, Floyd collects k different indices below n. |
| Sampling.FloydFiberSize | src/primitives/random/rng.cpp:22-47 | Each k-subset of the n indices is the Floyd sample of exactly k! draw vectors. |
| Sampling.ShuffledIsPermutation | src/primitives/random/rng.cpp:105-113 | After any number of rounds the pool is a permutation of the indices. |
| Sampling.ShuffleFiberSize | src/primitives/random/rng.cpp:105-113 | Each k-subset is what exactly k! draw vectors leave in the first k slots. |
| RandomKernel.ChosenIsASample | src/primitives/random/rng.cpp:96-116 | Both branches of sampling without replacement give k different indices below n. |
| RandomKernel.OneSetDistribution | src/primitives/random/rng.cpp:22-47 | Either branch is fed by n!/(n-k)! draw vectors and gives each k-subset for k! of them, so choosing a branch by size changes no probability. |
| Reachability.ForceChoice | src/primitives/random/rng.cpp:96-116 | Any k of n indices are chosen by sampling without replacement on some fair word stream, whatever words came before. |
| AliasTables.SettleColumn | include/phantomledger/primitives/random/distributions/alias.hpp:67-83 | Filling a small column from a large one leaves every result its share: what a result still lacks is what its unsettled column holds too much. |
| AliasTables.Leftovers | include/phantomledger/primitives/random/distributions/alias.hpp:86-94 | With exact arithmetic no small column is left over and every left-over large column is exactly whole, so setting them to one is right. |
| AliasTables.AliasTable.Build | include/phantomledger/primitives/random/distributions/alias.hpp:26-95 | Fails exactly for an empty, negative or zero weighting; otherwise the columns give each result i the share n w(i) / sum(w). |
| AliasTables.AliasTable.Sample | include/phantomledger/primitives/random/distributions/alias.hpp:102-110 | One column draw and one fraction decide between a column and its alias; an empty table fails. |
| Cogen.CogenGraph.constructor | src/pipeline/batch/cogen.cpp:57-63 | Everyone starts alone. |
| Cogen.CogenGraph.RootOf | src/pipeline/batch/cogen.cpp:74-81 | Path halving ends at the tree root and keeps the partition, the links, the ranks along every edge and the kept minima. |
| Cogen.CogenGraph.Link | src/pipeline/batch/cogen.cpp:83-104 | An unknown id is refused and changes nothing; otherwise exactly this link is added, and the invariant (ranks rise along parent edges, 2^rank is at most the tree size, least member kept, trees are the connected classes) is kept. |
| Cogen.CogenGraph.LinkAll | src/pipeline/batch/cogen.cpp:106-117 | Links every member to the first; fails exactly at the first unknown id, with exactly the members before it linked. |
| Cogen.StarEqualsClique | src/pipeline/batch/cogen.cpp:106-117 | Linking all to the first connects exactly whom linking every pair would. |
| Cogen.CogenGraph.RepresentativeOf | src/pipeline/batch/cogen.cpp:119-122 | The smallest person the links connect to the given one, whatever order the links came in; none for an unknown id. |
| Cogen.CogenGraph.RankFits | src/pipeline/batch/cogen.cpp:94-103 | Ranks stay below 32, so the 8-bit rank cannot wrap for 32-bit populations. |
| Cogen.CogenGraph.RankWithinComponent | src/pipeline/batch/cogen.cpp:94-103 | 2^rank of a root is at most the number of people its links connect. |
| Cogen.HalvingKeepsForest | src/pipeline/batch/cogen.cpp:74-81 | One halving step keeps every node in its tree with ranks strictly rising. |
| Cogen.MergeRepresents | src/pipeline/batch/cogen.cpp:83-104 | After a merge two people share a root exactly when the links, the new one included, connect them. |
| ShardPacking.CollectComponents | src/pipeline/batch/cogen.cpp:153-181 | The components are exactly the connected classes, members ascending, in the order of their least members, everyone once. |
| ShardPacking.Pack | src/pipeline/batch/cogen.cpp:210-237 | Next-fit loses, splits and reorders nothing; a shard is over the target only when it is one component; a shard is closed only when the next component does not fit. |
| ShardPacking.PairsExceedTarget | src/pipeline/batch/cogen.cpp:223-235 | Any two consecutive shards together exceed the target. |
| ShardPacking.FewShards | src/pipeline/batch/cogen.cpp:210-237 | The number of shards is below 2 n / target + 2. |
| ShardPacking.Build | src/pipeline/batch/cogen.cpp:145-238 | Fails for a zero target, or a component over the cap: then it reports the size of the largest component and the least person in one of that size. Otherwise the shards flatten to the canonical components. |
| TemporalPlan.ClipCovers | src/exporter/mule_temporal/streaming.cpp:261-267 | A clipped tenure covers exactly the instants of the window the evidence covered; nothing is kept when there are none. |
| TemporalPlan.ClippedCovers | src/exporter/mule_temporal/streaming.cpp:261-267 | Inside the window the clipped tenures of any evidence cover exactly what the evidence attests. |
| TemporalPlan.Coalesce | src/exporter/mule_temporal/streaming.cpp:379-402 | Merging leaves every edge the same covered instants, and what stays apart is apart by a positive gap. |
| TemporalPlan.SortedChangesPlanned | src/exporter/mule_temporal/streaming.cpp:402-411 | Every association opens once, closes once exactly when it ends inside the window, and opens before it closes; the list is in time order. |
| TemporalPlan.ChangesInTurn | src/exporter/mule_temporal/streaming.cpp:407-411 | The changes stand by time, a closing before an opening of its time, the associations in turn, none twice. |
| TemporalPlan.Plan | src/exporter/mule_temporal/streaming.cpp:261-411 | Raw evidence in any order gives separated associations that cover, inside the window, exactly what it attests, and their ordered changes. |
| TemporalPlan.FewChanges | src/exporter/mule_temporal/streaming.cpp:402-411 | At most two changes per association, which bounds the numbers a planned export needs. |
| TemporalExport.Exporter.constructor | src/exporter/mule_temporal/streaming.cpp:269-411 | The planned export of raw evidence with nothing stamped yet; the numbers reserved are at most twice the associations. |
| TemporalExport.Exporter.Tick | src/exporter/mule_temporal/streaming.cpp:197-201 | One number more, or none when the 64-bit sequence is exhausted. |
| TemporalExport.Exporter.Advance | src/exporter/mule_temporal/streaming.cpp:421-450 | Everything due by the given time takes the next numbers, in order of time and a token closing before a planned change of its time; each number names its event. It fails exactly when they run past 2^64 - 1, so the "close before open" error is unreachable. |
| TemporalExport.Exporter.EnrollToken | src/exporter/mule_temporal/streaming.cpp:503-526 | A token is bound once; a new one adds its binding and, with an owner, the use of it, each queued for closing exactly when the owner leaves inside the window. It fails exactly when its one or two numbers run out. |
| TemporalExport.EnqueuedBetween | src/exporter/mule_temporal/streaming.cpp:517-523 | A closing waits behind those due no later and before the others. |
| TemporalExport.Exporter.Post | src/exporter/mule_temporal/streaming.cpp:528-602 | A refused payment changes nothing at all. Any other is recorded exactly when the numbers it needs are there: first what is due by its time, then the tokens it enrols, then its own and a Zelle arrival. It names its own payer and payee accounts, both tokens if Zelle, and its device and address, nobody else, all observed by its number. |
| TemporalExport.Exporter.Stamp | src/exporter/mule_temporal/streaming.cpp:552-602 | A payment takes the next number, a Zelle payment one more for its arrival, and is appended with exactly its participants in their roles. |
| TemporalExport.Exporter.Participants | src/exporter/mule_temporal/streaming.cpp:590-601 | Payer, payee, the tokens of a Zelle payment, and the device and address when known, each in its role once. |
| TemporalExport.Exporter.Append | src/exporter/mule_temporal/streaming.cpp:528-602 | A batch is recorded in order up to the first payment that is refused, with its reason, and the export stays consistent; the sequence cannot run out while what is reserved and ten numbers per payment fit 2^64 - 1. |
| TemporalExport.Exporter.Finish | src/exporter/mule_temporal/streaming.cpp:640-655 | Succeeds exactly when what is still due fits the sequence, which the reserved numbers decide beforehand. Then every planned association and token edge is written exactly once; each planned row is live at a payment's number exactly when its tenure covers the payment's time; each endpoint was first seen no later than the row opens. |
| TemporalExport.Exporter.LiveExactlyWhenAttested | src/exporter/mule_temporal/streaming.cpp:421-655 | In the finished export an edge is live at a payment's sequence number exactly when the raw evidence attests it at the payment's time. |
| TemporalExport.Exporter.TokenLiveUntilClosed | src/exporter/mule_temporal/streaming.cpp:503-526 | In the finished export a token edge whose token was enrolled before its owner left is live at a later payment exactly while the owner has not left; a token without an owner stays. |
| TemporalExport.OpeningAgrees | src/exporter/mule_temporal/streaming.cpp:437-441 | Stamping an opening keeps sequence order and time order in agreement for every payment so far. |
| TemporalExport.ClosingAgrees | src/exporter/mule_temporal/streaming.cpp:442-447 | So does stamping a closing. |
| TemporalExport.PaymentAgrees | src/exporter/mule_temporal/streaming.cpp:541-552 | So does stamping a payment once everything due by its time is stamped. |
| RunLedgerClasses.RunLedger.SupersedeRunning | src/exporter/sinks/run_ledger.cpp:92-102 | Two commits: no manifest stays running, then the spans of dead runs go. |
| RunLedgerClasses.RunLedger.BeginRun | src/exporter/sinks/run_ledger.cpp:104-115 | One commit, returning the new manifest's id. |
| RunLedgerClasses.RunLedger.LatestRunning | src/exporter/sinks/run_ledger.cpp:122-127 | The greatest running manifest of the configuration, if any. |
| RunLedgerClasses.RunLedger.ReadJournal | src/exporter/sinks/run_ledger.cpp:164-172 | The journal in span order, refused unless the spans are 0..k-1, every one with a digest. |
| RunLedgerClasses.RunLedger.FindResumable | src/exporter/sinks/run_ledger.cpp:117-177 | The resume plan of the latest running manifest, refused for a gap, a missing digest or no rows. |
| RunLedgerClasses.RunLedger.PrepareResume | src/exporter/sinks/run_ledger.cpp:179-221 | Trims the tail, then accepts exactly when count, greatest row, distinct rows and per-span profile all match the plan; a missing table is refused. |
| RunLedgerClasses.RunLedger.RecordSpan | src/exporter/sinks/run_ledger.cpp:223-231 | One commit of a journal row. |
| RunLedgerClasses.RunLedger.FinishRun | src/exporter/sinks/run_ledger.cpp:233-241 | The manifest is marked complete, then its journal removed, in two commits. |
| RunLedgerClasses.RunLedger.MarkFailed | src/exporter/sinks/run_ledger.cpp:243-253 | Two commits: the run fails, its journal goes. |
| RunLedgerClasses.PostgresSink.constructor | src/exporter/sinks/postgres.cpp:34-53 | A fresh run drops and recreates the table; a resumed one touches nothing and numbers on. |
| RunLedgerClasses.PostgresSink.BeginSpan | src/exporter/sinks/postgres.cpp:55-66 | Refused after finishing or inside a span. |
| RunLedgerClasses.PostgresSink.Append | src/exporter/sinks/postgres.cpp:68-78 | Rows are numbered from 1 with no gap, under the open span; refused outside a span. |
| RunLedgerClasses.PostgresSink.EndSpan | src/exporter/sinks/postgres.cpp:80-88 | The span's rows arrive in one commit. |
| RunLedgerClasses.PostgresSink.Finish | src/exporter/sinks/postgres.cpp:90-95 | Refused while a span is open. |
| RunLedgerClasses.Orchestrator.VerifyPrefix | include/phantomledger/exporter/sinks/run_ledger.hpp:289-420 | The committed prefix is accepted exactly when each span has the regenerated row count and digest and each durable row is the regenerated one. |
| RunLedgerClasses.VerifiedExactlyWhen | include/phantomledger/exporter/sinks/run_ledger.hpp:289-420 | The prefix is accepted exactly when every entry has the stream's count and digest and every row of the prefix its own number and the stream's cell. |
| RunLedgerClasses.Orchestrator.StreamSpans | include/phantomledger/exporter/sinks/run_ledger.hpp:303-372 | Each remaining span is copied and then recorded, in order. |
| RunLedgerClasses.Orchestrator.Pump | src/app/orchestrator.cpp:253-310 | The commits of the whole resume decision and streamed run; it stops early only when the regenerated prefix differs from what is durable, with the unrecorded tail trimmed and nothing else committed. |
| RunLedgerClasses.Orchestrator.FinalizeExports | src/app/orchestrator.cpp:405-413 | The run is found again and marked complete. |
| RunLedgerClasses.Orchestrator.Attempt | src/app/orchestrator.cpp:253-413 | From any tables earlier crashes may have left, an attempt never stops on a prefix mismatch, commits exactly its script, keeps the invariant and leaves the whole stream in the table. |
| RunLedgerClasses.PrefixAlwaysVerifies | include/phantomledger/exporter/sinks/run_ledger.hpp:303-372 | After crashes alone, the committed prefix is what the stream regenerates. |
| RunProtocol.StreamRowsNumbered | src/exporter/sinks/postgres.cpp:68-78 | Row i of the stream carries number i + 1 and the span it came from. |
| RunSafety.TailDeleted | src/exporter/sinks/run_ledger.cpp:184-188 | Trimming at the journal's row count removes exactly the span that was copied but not recorded. |
| RunSafety.ProfileMatches | src/exporter/sinks/run_ledger.cpp:201-216 | The grouped profile equals the journal exactly when no committed span is empty, because empty spans vanish from the grouping. |
| RunSafety.ChecksAccept | src/exporter/sinks/run_ledger.cpp:179-221 | On a prefix of the stream the checks accept exactly when no committed span is empty. |
| RunSafety.MatchedIsNumbered | src/exporter/sinks/run_ledger.cpp:183-220 | A table that passes the checks holds each number from 1 to the journal's count once, and each span as often as the journal says. |
| RunSafety.SpansSafe | src/exporter/sinks/postgres.cpp:55-88 | Stopping after any commit of the span loop leaves the invariant; running it all leaves every span recorded. |
| RunSafety.FreshSafe | src/app/orchestrator.cpp:275-288 | Stopping after any commit of a fresh start (supersede, prune, begin, drop, create, spans) leaves the invariant. |
| RunSafety.GiveUpSafe | src/app/orchestrator.cpp:261-268 | So does giving a run up and starting afresh. |
| RunSafety.ResumesExactlyWhen | src/exporter/sinks/run_ledger.cpp:179-221 | A found run is resumed exactly when the table was not emptied by a server crash and no committed span is empty. |
| RunStatus.FoundExactlyWhen | src/exporter/sinks/run_ledger.cpp:116-180 | A run is found exactly when one of the configuration was left running with committed rows. |
| RunSafety.PumpSafe | src/app/orchestrator.cpp:253-310 | Every prefix of a pump's commits keeps at most one running manifest and a journal that describes a prefix of the table's rows. |
| RunStatus.PumpStatuses | src/app/orchestrator.cpp:253-310 | A resumed run keeps every status; one found but not resumed ends as failed; a fresh start supersedes whatever else was running and begins the new run; nothing else changes. |
| RunStatus.GivenUpExactly | src/exporter/sinks/run_ledger.cpp:243-247 | The run given up is failed and keeps no journal, every other running run is superseded, and all other statuses stay. |
| RunStatus.CompleteMeansWhole | src/exporter/sinks/run_ledger.cpp:233-240 | Over any history of attempts and crashes a run is complete only if some attempt marked it so while the table held its whole stream. |
| RunStatus.EndedStays | src/exporter/sinks/run_ledger.cpp:233-247 | What has ended keeps its status through every later attempt and crash, and no run is lost or reconfigured. |
| RunSafety.AttemptSafe | src/app/orchestrator.cpp:253-413 | Every prefix of a whole attempt does. |
| RunSafety.CrashInv | src/exporter/sinks/postgres.cpp:47-50 | A server crash, which empties the unlogged table, keeps the invariant. |
| RunSafety.AlwaysInv | src/exporter/sinks/run_ledger.cpp:92-231 | Over any history of attempts cut off after any commit and of server crashes, the invariant holds. |
| RunSafety.FinishedRunIsExact | src/app/orchestrator.cpp:253-413 | A run that finishes, after whatever came before, leaves each row of its stream exactly once, numbered from 1 in order and under its own span, is complete, and leaves no journal of any run. |
| RunJournal.ParseJournal | src/exporter/sinks/run_ledger.cpp:143-162 | The loop over the packed text computes the item-by-item reading, failing on a missing colon or a malformed number. |
| RunJournal.ItemExactly | src/exporter/sinks/run_ledger.cpp:143-162 | An item reads exactly when the parts before its first two colons are 64-bit numbers. |
| RunJournal.ItemRefused | src/exporter/sinks/run_ledger.cpp:143-162 | An item that does not split at two colons is refused. |
| RunJournal.JournalReadsBack | src/exporter/sinks/run_ledger.cpp:129-162 | A packed journal reads back line by line, for digests without semicolons. |
| RunJournal.JournalResumes | src/exporter/sinks/run_ledger.cpp:129-175 | The packed rows of a journal read back, the ledger's checks on them (spans 0 to k-1, each with a digest) pass exactly when the journal resumes, and then line i is entry i. |
| Blake2b.DigestOfFed | src/primitives/crypto/blake2b.cpp:129-211 | The digest of section 3.3 of RFC 7693, block list, key block and final offset included, is that of the key block and message as one byte string cut into blocks, an empty string being one zero block. |
| Blake2bVector.AbcDigest | src/primitives/crypto/blake2b.cpp:73-211 | The worked example of RFC 7693, Appendix A: the unkeyed 64-byte digest of "abc". |
| Blake2bVector.Rounds8To12 | src/primitives/crypto/blake2b.cpp:86-126 | The work vector of that example after the last four rounds. |
| Blake2b.InitialVectorIs | src/primitives/crypto/blake2b.cpp:17-22 | The initial words are the first 64 fractional digits of the square roots of the first eight primes. |
| Blake2b.ParametersStand | src/primitives/crypto/blake2b.cpp:142-147 | The digest and key lengths stand in the two lowest bytes of the parameter word. |
| Blake2b.MixingUndone | src/primitives/crypto/blake2b.cpp:73-84 | Mixing loses nothing: its four words are recovered from the mixed ones. |
| Blake2b.RotatedBack | src/primitives/crypto/blake2b.cpp:38-40 | Rotating on by the rest of the word undoes each of the four rotations. |
| Blake2b.XorAssociates | src/primitives/crypto/blake2b.cpp:73-84 | Exclusive or is associative; with XorCommutes and XorZero, each word its own inverse. |
| Blake2b.KeyBlockFirst | src/primitives/crypto/blake2b.cpp:150-154 | A padded key block in front gives the block list of the RFC. |
| Blake2b.FoldIsChain | src/primitives/crypto/blake2b.cpp:166-170 | Folding the RFC's blocks is chaining the string's full blocks. |
| Blake2b.ScheduleRows | src/primitives/crypto/blake2b.cpp:23-36 | The twelve rows the program keeps are the RFC's ten, taken modulo ten. |
| Blake2b.StoredAsLoaded | src/primitives/crypto/blake2b.cpp:42-56 | Storing a loaded little-endian word gives its bytes back. |
| Blake2bStream.MixG | src/primitives/crypto/blake2b.cpp:73-83 | The in-place mixing is G of section 3.1. |
| Blake2bStream.MixRound | src/primitives/crypto/blake2b.cpp:108-120 | Eight in-place mixings are one round. |
| Blake2bStream.State.Compress | src/primitives/crypto/blake2b.cpp:85-123 | The in-place compression is F of section 3.2 for the byte counter and the last-block flag. |
| Blake2bStream.State.AddCount | src/primitives/crypto/blake2b.cpp:65-71 | The two-word counter counts modulo 2^128, carry included. |
| Blake2bStream.CarryIsExact | src/primitives/crypto/blake2b.cpp:65-71 | The carry test is exact, also when the high word wraps. |
| Blake2bStream.State.Start | src/primitives/crypto/blake2b.cpp:129-156 | Fails for a digest size of 0 or over 64, a key over 64 bytes or a missing key, changing nothing; otherwise a keyed state holds its key block back. |
| Blake2bStream.State.Absorb | src/primitives/crypto/blake2b.cpp:158-180 | Appends the input to what was absorbed, however it is split; a full buffer is compressed only when more input follows; fails, changing nothing, for missing data. |
| Blake2bStream.State.Finish | src/primitives/crypto/blake2b.cpp:182-211 | Writes exactly the digest of section 3.3 on everything absorbed, and nothing behind it; fails without an output. |
| Blake2bStream.OneShot | src/primitives/crypto/blake2b.cpp:217-234 | Fails on exactly the invalid arguments, leaving the output alone; otherwise writes the digest. |
| Blake2bStream.Stream.Update | include/phantomledger/primitives/crypto/blake2b.hpp:51-56 | A live stream appends; a spent or invalid one refuses. |
| Blake2bStream.Stream.Finalize | include/phantomledger/primitives/crypto/blake2b.hpp:60-68 | The first finalisation with the right size gives the digest of everything fed and spends the stream. |
| Blake2bStream.State.Wipe | src/primitives/crypto/blake2b.cpp:58-63 | Chain, counters, flags, sizes and buffer are zero afterwards. |
| Accrual.DueIsMature | include/phantomledger/transactions/clearing/loc_accrual.hpp:97-110 | For positive timestamps the queue's due test is the scan's maturity test. |
| Accrual.SweepKeepsSchedule | include/phantomledger/transactions/clearing/loc_accrual.hpp:133-157 | Billing keeps token and billing clock in step exactly unless a slot due at 0 is swept at the sentinel timestamp 0. |
| Accrual.OthersKeepSchedule | src/transactions/clearing/loc_accrual.cpp:30-113 | Enabling, clearing, rolling and copying keep them in step at any time. |
| Accrual.PostingCatchesUp | src/transactions/clearing/loc_accrual.cpp:74-95 | A posting brings a lazily rolled slot and one rolled more often to the same integral. |
| Accrual.SweepBillsAlike | include/phantomledger/transactions/clearing/loc_accrual.hpp:111-160 | A sweep bills both alike, at the same instants. |
| LocTracker.LocAccrualTracker.Enable | src/transactions/clearing/loc_accrual.cpp:30-45 | A fresh slot, queued as due at once. |
| LocTracker.LocAccrualTracker.Disable | src/transactions/clearing/loc_accrual.cpp:47-58 | The slot is cleared; its queue entry stays and is stale. |
| LocTracker.LocAccrualTracker.Update | src/transactions/clearing/loc_accrual.cpp:74-95 | Rolls one slot on its balance before the posting; the queue is untouched. |
| LocTracker.LocAccrualTracker.PopDue | include/phantomledger/transactions/clearing/loc_accrual.hpp:116-126 | Popping by token leaves exactly the due slots, each once, whatever stale entries there are. |
| LocTracker.LocAccrualTracker.Sweep | include/phantomledger/transactions/clearing/loc_accrual.hpp:111-160 | The heap sweep bills what scanning every slot in ascending order bills, and leaves every slot as that scan does. |
| LocTracker.LocAccrualTracker.CopyStateFrom | src/transactions/clearing/loc_accrual.cpp:97-113 | State, queue and tokens are the other's; enablement and rates stay. |
| Clearing.BillsKnown | include/phantomledger/transactions/clearing/loc_accrual.hpp:131-158 | A sweep's accruals name known slots. |
| ClearingLedger.Ledger.AddAccount | src/transactions/clearing/ledger.cpp:131-144 | Internal keys get an index, external ones a boundary policy. |
| ClearingLedger.Ledger.SetProtection | src/transactions/clearing/ledger.cpp:216-243 | Exactly one buffer is set, and accrual is on exactly for a line of credit. |
| ClearingLedger.Ledger.SetOverdraftOnly | src/transactions/clearing/ledger.cpp:202-212 | Cash and other buffers are cleared; a positive limit is courtesy protection. |
| ClearingLedger.Ledger.SetLoc | src/transactions/clearing/ledger.cpp:251-257 | Only a line-of-credit account takes a rate. |
| ClearingLedger.Ledger.ApplyTransfer | src/transactions/clearing/ledger.cpp:313-338 | The decision, both legs moved when accepted and nothing otherwise, and the source's cash before. |
| ClearingLedger.Ledger.TransferAt | src/transactions/clearing/ledger.cpp:431-469 | Both legs rolled on the balances before, the move, and the overdraft fee when it is due. |
| ClearingLedger.Ledger.TransferAtKeys | src/transactions/clearing/ledger.cpp:363-406 | Invalid or unbooked keys and boundary violations are refused and change nothing; anything else is the indexed posting. |
| ClearingLedger.BoundariesHold | src/transactions/clearing/ledger.cpp:25-66 | A boundary channel crosses the book's edge only in its own direction and at its own kind of endpoint, and a typed endpoint takes no other channel. |
| ClearingLedger.ChannelsHold | src/transactions/clearing/ledger.cpp:22-66 | Withdrawals and ramps out leave at terminals and venues, deposits and ramps in arrive from their captures and venues. |
| ClearingLedger.TypedPartiesReached | src/transactions/clearing/ledger.cpp:22-66 | A typed party of the right kind and direction is always reached. |
| ClearingLedger.RoutedExactly | src/transactions/clearing/ledger.cpp:22-66 | On a channel without a boundary routing asks only for valid and booked keys, and posts between the accounts they index. |
| ClearingLedger.OutsidersAreUnbooked | src/transactions/clearing/ledger.cpp:284-297 | A posting between two outside parties is never applied. |
| ClearingLedger.Ledger.DebitAndEmit | src/transactions/clearing/ledger.cpp:408-429 | The integral is rolled before the debit, and the sink hears of it. |
| ClearingLedger.Ledger.AccrueLocInterestThrough | src/transactions/clearing/ledger.cpp:471-484 | The sweep, and one debit per accrual in its order when emission is on. |
| ClearingLedger.Ledger.Restore | src/transactions/clearing/ledger.cpp:488-498 | Balances, buffers and accrual state are the other ledger's. |
| ClearingLedger.RestoreUndoesRun | src/transactions/clearing/ledger.cpp:486-498 | Restoring a snapshot undoes any run made since it, except for debits already announced. |
| ClearingRuns.CashConserved | src/transactions/clearing/ledger.cpp:313-338 | Over any run, internal cash changes by accepted inflow minus accepted outflow minus fee and interest debits. |
| ClearingRuns.FundedExactly | src/transactions/clearing/ledger.cpp:284-311 | An ordinary posting is accepted exactly when its debit alone leaves no negative liquidity, or no negative cash for a transfer between one owner's accounts. |
| ClearingRuns.DecidedExactly | src/transactions/clearing/ledger.cpp:284-311 | The whole decision: no money is invalid, two outside parties are unbooked, and any other posting is refused exactly when it is no charge and its source cannot bear it. |
| ClearingRuns.SolventBeforeFee | src/transactions/clearing/ledger.cpp:299-311 | After an accepted move the source is solvent before any fee, also when it pays itself. |
| ClearingRuns.StepAt | src/transactions/clearing/ledger.cpp:431-484 | Set-up fields never change, only a credit brings negative cash back to zero or more, and a fee fires only on a crossing. |
| ClearingRuns.FeesAreSeparated | src/transactions/clearing/ledger.cpp:86-103 | Between two overdraft fees on one account some accepted credit brought its cash back to at least zero. |
| ClearingFees.FeeExactlyWhen | src/transactions/clearing/ledger.cpp:86-103 | A posting announces one overdraft fee, of the account's amount at its own time and leaving the account, exactly when it overdraws a fee-paying non-card account that accrues no interest; no other posting announces anything. |
| ClearingFees.FeeOrInterest | src/transactions/clearing/ledger.cpp:431-469 | An account a posting overdraws pays a fee or accrues interest, never both. |
| ClearingFees.FeesAreDue | src/transactions/clearing/ledger.cpp:431-469 | Over any run the overdraft fees announced are exactly those due, in order. |
| ClearingFees.StepKeepsSetUp | src/transactions/clearing/ledger.cpp:431-490 | A line of credit and nothing else accrues, and an unprotected account has no buffer, through every posting and sweep. |
| ClearingInterest.StepSlot | src/transactions/clearing/ledger.cpp:431-484 | What one operation does to one account's accrual slot, and that it leaves the cash of accounts it does not touch alone. |
| ClearingInterest.BilledExactly | include/phantomledger/transactions/clearing/loc_accrual.hpp:131-158 | A sweep bills exactly the due accounts that owe something. |
| ClearingInterest.AlwaysTracks | src/transactions/clearing/loc_accrual.cpp:74-95 | Between sweeps the lazy integral is the sum, second by second, of what was owed from the first touch or the last billing to the last touch. |
| ClearingInterest.SinceIs | include/phantomledger/transactions/clearing/loc_accrual.hpp:133-158 | That start is the last operation that billed the account or, when none has, the first that touched it. |
| ClearingInterest.InterestIsIntegral | include/phantomledger/transactions/clearing/loc_accrual.hpp:143-158 | The interest charged is the yearly rate on the owed seconds since that start. |
| ClearingInterest.LazyIsEager | include/phantomledger/transactions/clearing/loc_accrual.hpp:66-110 | Lazy rolling agrees with rolling the account on every operation of any account: same maturities, same interest, fee debits included. |
| Obligations.BetweenIsFilter | include/phantomledger/entities/products/obligation_stream.hpp:56-73 | The two lower bounds of a sorted stream enclose exactly the events in range. |
| Obligations.ObligationStream.Append | include/phantomledger/entities/products/obligation_stream.hpp:27-34 | An event outside the kept range is dropped, any other appended. |
| Obligations.ObligationStream.Sort | include/phantomledger/entities/products/obligation_stream.hpp:36-54 | The stable sort by timestamp; sorting again changes nothing. |
| Obligations.ObligationStream.Between | include/phantomledger/entities/products/obligation_stream.hpp:56-73 | The events in range in order; nothing for an unsorted stream. |
| Obligations.RegeneratedIsSlice | src/pipeline/stages/products.cpp:137-167 | Regenerating a range gives the whole stream's slice, the order of ties included. |
| Obligations.ChunksAreWhole | src/pipeline/stages/products.cpp:137-167 | Regenerating consecutive ranges in turn gives the whole stream over their union. |
| Obligations.ObligationSynthesis.Synthesize | src/pipeline/stages/products.cpp:94-125 | The retained stream is the whole stream's slice over the burden months. |
| Obligations.ObligationSynthesis.GenerateWindow | src/pipeline/stages/products.cpp:137-167 | The replay yields that slice for any range. |
| Sorting.StableSortUnique | include/phantomledger/entities/products/obligation_stream.hpp:36-54 | A sorted list that keeps each group of ties in order is the only stable sort. |
| Sorting.SortFilter | include/phantomledger/entities/products/obligation_stream.hpp:36-54 | Stable sorting commutes with keeping a subset. |
| Calendar.DayOfDate | src/primitives/time/calendar.cpp:39-47 | Every day number has a valid date that leads back to it. |
| Calendar.DateOfDay | src/primitives/time/calendar.cpp:10-23 | Every valid date is recovered from its day number. |
| Calendar.KnownDays | src/primitives/time/calendar.cpp:39-47 | The epoch is day 0, and centuries have the common leap days. |
| Calendar.InstantOfParts | src/primitives/time/calendar.cpp:39-60 | An instant is recovered from its date and time of day. |
| Calendar.PartsOfInstant | src/primitives/time/calendar.cpp:10-23 | A valid date and time are recovered from their instant. |
| Calendar.InMonth | src/primitives/time/calendar.cpp:78-85 | An instant lies in exactly the month its date names. |
| Calendar.AddedMonths | src/primitives/time/calendar.cpp:87-111 | The month moves by the given number, the time of day stays and the day is clipped to the month. |
| Calendar.MonthsUndone | src/primitives/time/calendar.cpp:87-111 | Going back the same number of months undoes the move exactly when the day exists in the month moved to. |
| Calendar.MonthStarts | src/primitives/time/calendar.cpp:113-121 | The loop lists the month starts before the end, from the start's own month on. |
| Calendar.StartsOverlap | src/primitives/time/calendar.cpp:113-121 | Those are the starts of exactly the months that overlap a non-empty interval. |
| Calendar.ClipIsIntersection | src/primitives/time/calendar.cpp:123-142 | The clipped interval holds exactly the instants of both; none when there are none. |
| Schedule.Unpartitioned | src/pipeline/chunk/schedule.cpp:26-41 | One span over the whole window, without lookahead; none for an empty window. |
| Schedule.FutureBounds | src/pipeline/chunk/schedule.cpp:56-73 | The bounds are the start, exactly the month boundaries strictly inside, and the end; the filter against the start drops none. |
| Schedule.Partition | src/pipeline/chunk/schedule.cpp:43-89 | Rejected exactly for an invalid strategy or when a window off midnight would have to be cut; otherwise the spans tile the window. |
| Schedule.SpansTile | src/pipeline/chunk/schedule.cpp:75-88 | Each span starts where the one before ends, they start and end with the window, have at least a day, number their first day, and look ahead no further than the end. |
| Schedule.EachInstantOnce | src/pipeline/chunk/schedule.cpp:75-88 | Every instant of the window lies in exactly one span, and no other does. |
| Schedule.ReplayIsWhole | src/pipeline/chunk/schedule.cpp:75-88 | Regenerating the obligations span by span yields the whole stream of the window in order. |
| CommunityBlocks.BuildCommunities | src/relationships/social/communities.cpp:9-43 | The blocks end where the sizes drawn put them and tile the people in order, none empty, each but the last within the size bounds; membership names the block. |
| CommunityBlocks.AdvancesExactlyWhen | src/relationships/social/communities.cpp:28-41 | Every block advances exactly when the least size is positive and people plus greatest size fit 32 bits, which is what the builder is proved under. |
| CommunityBlocks.OneBlock | src/relationships/social/communities.cpp:36-41 | A person is in exactly the block they are a member of. |
| ContactDraws.Local | src/relationships/social/sampler.cpp:87-110 | Someone else, of the same block when it has a second person. |
| ContactDraws.Global | src/relationships/social/sampler.cpp:111-123 | Someone else. |
| ContactDraws.FirstOutside | src/relationships/social/sampler.cpp:94-101 | A pick in range and outside what is avoided, or none once the tries are used up. |
| ContactDraws.FallbackOther | src/relationships/social/sampler.cpp:80-86 | The next person, and after the last the first. |
| ContactDraws.CandidateKinds | src/relationships/social/sampler.cpp:140-153 | A sure first coin keeps contacts in the block; without it a sure second coin takes the first pick outside the block; without both anyone else may be picked. |
| ContactSampling.ContactSampler.DrawLocal | src/relationships/social/sampler.cpp:87-110 | The loop returns the first of eight picks that is not the source, and the block's first or second person when all are. |
| ContactSampling.ContactSampler.DrawGlobal | src/relationships/social/sampler.cpp:111-123 | The first of eight picks of anyone that is not the source, else the next person. |
| ContactSampling.ContactSampler.DrawCross | src/relationships/social/sampler.cpp:124-139 | The first of 24 picks outside the block, else a global draw. |
| ContactSampling.ContactSampler.DrawCandidate | src/relationships/social/sampler.cpp:140-153 | Two coins choose the kind of contact; a kind that is impossible takes no coin. |
| ContactSampling.FillRemainingUnique | src/relationships/social/sampler.cpp:23-55 | The two loops compute the specified passes, strides taken modulo 2^32. |
| ContactSampling.FillIsComplete | src/relationships/social/sampler.cpp:23-55 | The fill adds distinct others up to the number wanted; it falls short only with everyone its second pass reaches included, and never when index and population fit 32 bits together. |
| ContactSampling.FillReachesAll | src/relationships/social/sampler.cpp:44-54 | The second pass visits everyone else exactly when index plus population is at most 2^32. |
| ContactSampling.ContactSampler.NextEpoch | src/relationships/social/sampler.cpp:170-175 | A new epoch is an empty set but for the source, wrap-around included. |
| ContactSampling.ContactSampler.DrawUnique | src/relationships/social/sampler.cpp:154-189 | The contacts are those drawn, completed by the fill: exactly min(desired, n - 1) distinct others whatever is drawn, for index and population within 2^32 and hence for every population up to 2^31; beyond, short only of people the fill cannot reach. The stamps agree with the contacts drawn, and the last fallback is unreachable. |
| FraudPlanning.PickIsWeighted | src/transfers/fraud/injector.cpp:526-541 | A weighted pick lands on a person of positive weight exactly when the fraction drawn is not zero or the first weight is positive. |
| FraudPlanning.PickedInProportion | src/transfers/fraud/injector.cpp:526-541 | Each person is picked for a stretch of fractions exactly as long as their weight. |
| FraudPlanning.ZeroPicksTheFirst | src/transfers/fraud/injector.cpp:526-541 | The 2048 least engine words pick the first person whatever the weight. |
| FraudPlanning.AcceptedIsSound | src/transfers/fraud/injector.cpp:613-748 | An accepted case has a target within the budget and its rail's range, fits its whole span, and has a member victim and, where needed, a different member payee, neither in a ring. |
| FraudPlanning.CasesByRail | src/transfers/fraud/injector.cpp:613-748 | Each of the four kinds of case has its own numbers of events and hours, its own liveness of the victim, and a drop account exactly for impostor scams and takeovers. |
| FraudPlanning.RailShares | src/transfers/fraud/injector.cpp:613-748 | Of all engine words 48, 12, 12 and 28 in a hundred choose card fraud, the two scams and takeover. |
| FraudPlanning.VictimsAreWeighted | src/transfers/fraud/injector.cpp:526-541 | Scam victims are found by the scam weights of the day and all others by their exposure: past the first person no one without weight. |
| FraudPlanning.StartIsEven | src/transfers/fraud/injector.cpp:613-748 | The start is spread evenly over the seconds of twenty hours. |
| FraudPlanning.RunIsSound | src/transfers/fraud/injector.cpp:608-748 | Accepted cases never sum past the budget and are numbered in order; the run ends on (remaining, 4096 - rejects). |
| FraudPlanning.EndpointsArePaired | src/transfers/fraud/injector.cpp:785-1013 | A case carries a whole endpoint or none, authorised payments none, and an endpoint implies its campaign. |
| FraudPlanning.PlanCarries | src/transfers/fraud/injector.cpp:748-800 | A plan carries its case's and its endpoint's fields, each in its own place. |
| FraudPlanning.PersonIsEven | src/transfers/fraud/injector.cpp:526-541 | Everyone up to the limit has an equal part of the fractions. |
| FraudPlanning.AttackersDoNotInterfere | src/transfers/fraud/injector.cpp:780-1039 | Runs that differ only in attackers and router give plans equal in everything but device, address and campaign, and leave the generator at one position. |
| FraudPlanning.PlansAreSound | src/transfers/fraud/injector.cpp:608-1039 | The plans never sum past the budget and each one is sound. |
| CompromisePlanners.MakeCdf | src/transfers/fraud/injector.cpp:486-502 | The running sums of positive weights, or none when they have no weight. |
| CompromisePlanners.CompromisePlanner.ScamCdfAt | src/transfers/fraud/injector.cpp:509-524 | The cached susceptibility is always that of the requested date. |
| CompromisePlanners.CompromisePlanner.PickFrom | src/transfers/fraud/injector.cpp:526-569 | At most 32 picks; the first eligible one, or nobody. |
| CompromisePlanners.CompromisePlanner.DrawOpening | src/transfers/fraud/injector.cpp:613-672 | Rail, event count, day, time and victim, in this order of draws. |
| CompromisePlanners.CompromisePlanner.DrawClosing | src/transfers/fraud/injector.cpp:674-783 | Payee, span, eligibility, and four uniforms whatever becomes of them. |
| CompromisePlanners.CompromisePlanner.ResolveEndpoint | src/transfers/fraud/injector.cpp:785-1013 | The endpoint of a case; the generator is not consulted. |
| CompromisePlanners.CompromisePlanner.Build | src/transfers/fraud/injector.cpp:604-1043 | The loop gives the plans of the specification, which mentions attackers and router only in the endpoints. |
| CompromisePlanners.BuildCompromisePlans | src/transfers/fraud/injector.cpp:389-1044 | Nothing without a budget or a population; otherwise the loop. |
| IllicitBudgets.RingStaysAlive | src/transfers/fraud/injector.cpp:32-56 | A ring whose first death falls inside the window keeps the guard clear of it exactly when one day more than the guard is left alive, and otherwise schedules the floor of one day; without such a death it schedules the whole window. |
| IllicitBudgets.RingOutlivesItsGuard | src/transfers/fraud/injector.cpp:32-56 | With 22 days and 5 seconds left alive the day scheduled and its guard outlast the first death. |
| IllicitBudgets.BudgetsFit | src/transfers/fraud/injector.cpp:89-120 | Ring and phase budgets are positive when they should be and never exceed what is left. |
| IllicitBudgets.PhaseShareIs | src/transfers/fraud/injector.cpp:97-120 | A phase but the last gets the fewest rows that make up its fraction, at least one, as far as rows are left; the last gets all that 31 bits count. |
| IllicitBudgets.SharesAreFair | src/transfers/fraud/injector.cpp:89-95 | With exact production the whole target is spent and no two rings' budgets differ by more than one. |
| IllicitBudgets.RunRingPlaybook | src/transfers/fraud/injector.cpp:219-256 | The phase loop, with breaks and skips. |
| IllicitBudgets.GenerateIllicit | src/transfers/fraud/injector.cpp:258-319 | The ring loop. |
| IllicitBudgets.PhasesSpendAll | src/transfers/fraud/injector.cpp:219-256 | With exact production a playbook with a phase spends its ring's whole budget. |
| IllicitBudgets.TargetIsMet | src/transfers/fraud/injector.cpp:258-319 | With exact production and no empty playbook the rows add up to the target. |
| HouseholdPartition.ShuffleIdentityPermutation | src/relationships/family/partition.cpp:43-54 | The in-place shuffle computes the specified order of its draws. |
| HouseholdPartition.OneVectorPerOrder | src/relationships/family/partition.cpp:43-54 | Each order of the people comes from exactly one vector of draws, so all orders are equally likely. |
| HouseholdPartition.MakePartition | src/relationships/family/partition.cpp:58-97 | The members are everyone once in the order drawn, the offsets cut them into households of the sizes drawn, none empty, and householdOf is stamped accordingly. |
| HouseholdPartition.CutsAreSizes | src/relationships/family/partition.cpp:58-97 | Every household but the last has a size drawn for it, and none exceeds the greatest size. |
| HouseholdPartition.HouseholdOfIsInverse | src/relationships/family/partition.cpp:84-95 | A person is among a household's members exactly when householdOf names it. |
| FamilyLinking.SplitHouseholdRoles | src/relationships/family/links.cpp:15-30 | Students and others, in member order. |
| FamilyLinking.FamilyLinks.AssignSpouses | src/relationships/family/links.cpp:164-192 | The spouses are those the draws decide, household by household; a spouse is another adult of the same household whose spouse one is. |
| FamilyLinking.SpouseIsDrawn | src/relationships/family/links.cpp:32-44 | Everyone's spouse is their partner in the couple their own household draws at its turn, and nobody otherwise: at most one couple per household, and one exactly for two adults and heads. |
| FamilyLinking.CoupleFacts | src/relationships/family/links.cpp:32-44 | A couple is two different adults of the household. |
| FamilyLinking.CoupleSeated | src/relationships/family/links.cpp:37-44 | Seating a couple keeps the relation a fixpoint-free involution. |
| FamilyLinking.LinkOne | src/relationships/family/links.cpp:117-129 | Filling a slot and listing the child keeps both lists converses with multiplicity one. |
| FamilyLinking.FamilyLinks.AssignParents | src/relationships/family/links.cpp:194-236 | The links are those the draws decide, student by student; parents and children are converses, one or two different parents per dependent student. |
| FamilyLinking.FamilyLinks.AssignFor | src/relationships/family/links.cpp:99-129 | A dependent student gets one parent, or two if the coin falls and the pool allows, picked from the pool the coins select; another gets none. |
| FamilyLinking.ParentsAreDrawn | src/relationships/family/links.cpp:194-236 | Every student ends with the parents drawn at the student's own turn; no later turn overwrites them. |
| FamilyLinking.DrawnFacts | src/relationships/family/links.cpp:61-97 | The parents drawn are different people, all of the household's adults or all of the global candidates. |
| FamilyLinking.FamiliesAreSound | src/relationships/family/links.cpp:194-236 | Whatever is drawn, parents and children stay converses, and households to come have no parents yet. |
| FamilyLinking.ParentsAreConverse | src/relationships/family/links.cpp:117-129 | A child is listed by a parent exactly when the parent fills a slot, and no list repeats anyone. |
| FamilyLinking.ParentsAreOlder | src/relationships/family/links.cpp:136-156 | When anyone is not a student, parents are never students: no one is their own parent or a parent with parents. |
| FamilyLinking.CollectGlobalAdults | src/relationships/family/links.cpp:136-156 | The candidates are exactly the adults in order, or everyone when there are none. |
| FamilyLinking.GlobalIs | src/relationships/family/links.cpp:136-156 | A person is a candidate exactly when they are no student or no one is an adult. |
| OwnParents.NoOwnParentExactlyWhen | src/relationships/family/links.cpp:136-156 | On no word stream does a student become their own parent, exactly when somebody is an adult, nobody is there, or no student is ever dependent. |
| OwnParents.LoneStudentsOwnParent | src/relationships/family/links.cpp:148-153 | A student alone in the population, and always dependent, becomes their own parent and child on every word stream. |
| FamilyLinking.BuildLinks | src/relationships/family/links.cpp:239-256 | Couples, then parents, as the draws decide; both relations are sound together. |
| FamilySupport.TieAll | src/relationships/family/support.cpp:229-260 | Writing one more retired parent's supporters in both directions keeps the relations converses with multiplicity one. |
| FamilySupport.TiesAreConverse | src/relationships/family/support.cpp:170-178 | Supporters and supported are exact converses, from able adults to retired people, without repetition or self-support. |
| FamilySupport.SharedCandidates | src/relationships/family/support.cpp:220-230 | A spouse's supporters can be inherited. |
| FamilySupport.CollectPeople | src/relationships/family/support.cpp:105-122 | Supporters and retired people in order. |
| FamilySupport.AbleExactlyWhen | include/phantomledger/relationships/family/predicates.hpp:22-37 | Anyone is able to support but students and the retired. |
| FamilySupport.OwnHousehold | src/relationships/family/support.cpp:80-103 | In a sound partition everyone's household is the one they live in. |
| FamilySupport.OwnSpouse | src/relationships/family/support.cpp:62-78 | With a spouse recorded inside the population it is the one found. |
| FamilySupport.SupportTies.SupportOne | src/relationships/family/support.cpp:217-261 | A retired person whose retired spouse has supporters inherits exactly that list if the coin falls; otherwise, if they have a child, they get one to three of the able residents or of all able people, as the coins and the fraction decide, both directions written. |
| FamilySupport.TiedIsSound | src/relationships/family/support.cpp:196-264 | Whatever is drawn, ties stay converses; every retired person ends with the supporters drawn or inherited at their own turn; nobody else has any. |
| FamilySupport.DonorsListIs | src/relationships/family/support.cpp:178-190 | What can be inherited is the final list of the retired spouse when the spouse had their turn before, and nothing otherwise. |
| FamilySupport.FreshCandidates | src/relationships/family/support.cpp:232-252 | Supporters drawn afresh are able, different, and not the retired person. |
| FamilySupport.BuildSupportTies | src/relationships/family/support.cpp:196-264 | The ties are those the draws decide for every retired person in order, or none when support is disabled. |
| KeyCodec.TableIsIndexed | include/phantomledger/encoding/lookup.hpp:37-130 | One table entry for each role and bank that go together. |
| KeyCodec.CountDigits | include/phantomledger/encoding/numeric.hpp:9-16 | The digit count is the length of the decimal writing. |
| KeyCodec.Write | include/phantomledger/encoding/render.hpp:36-61 | Fills the buffer from the back with exactly prefix and padded number, and nothing behind; refuses zero. |
| KeyCodec.FitsBuffer | include/phantomledger/encoding/render.hpp:63-96 | Every tabled key fits the 32-byte buffer. |
| KeyCodec.FormatKey | include/phantomledger/encoding/render.hpp:97-101 | The rendering; refused for a role and bank that do not go together, or for zero. |
| KeyCodec.KeysRead | include/phantomledger/encoding/render.hpp:97-101 | How keys of three kinds read, and that a key of the wrong bank or of number zero has no rendering. |
| KeyCodec.AcceptedOnce | include/phantomledger/encoding/parse.hpp:8-14 | At most one entry accepts a text. |
| KeyCodec.ParseKey | include/phantomledger/encoding/parse.hpp:28-74 | The longest-prefix loop finds the accepting entry; overflow and zero are refused. |
| KeyCodec.FormatReadsBack | include/phantomledger/encoding/parse.hpp:28-74 | A rendered key is accepted by its own entry only and reads back. |
| KeyCodec.FormatOneToOne | include/phantomledger/encoding/render.hpp:97-101 | Different keys are rendered differently. |
| KeyCodec.ReadingIsCanonical | include/phantomledger/encoding/parse.hpp:28-74 | What reads as a key is that key's rendering exactly when its digits are as many as the writer would use. |
| Decimal.ValueOfPadded | include/phantomledger/encoding/render.hpp:47-58 | Padding does not change the number written. |
| Timestamps.ParseLedgerTimestamp | src/exporter/sinks/txn_readback.cpp:71-98 | The reader, its shape checks and its failures. |
| Timestamps.TimestampReadsBack | src/exporter/sinks/txn_readback.cpp:71-98 | A timestamp is recovered from its text exactly in the years 0 to 9999. |
| Timestamps.WrittenAs | src/primitives/time/calendar.cpp:144-152 | An instant reads year, month, day, hour, minute and second. |
| Csv.Writer.WriteEscaped | src/exporter/csv.cpp:88-108 | The find-quote loop writes the cell, quoted with every quote doubled when it needs quoting. |
| Csv.QuotedExactlyWhen | src/exporter/csv.cpp:88-108 | A cell is changed exactly when it holds a comma, a quote or a line break, and then stands between quotes. |
| Csv.Writer.Cell | src/exporter/csv.cpp:122-126 | Separator and escaped cell. |
| Csv.Writer.EndRow | src/exporter/csv.cpp:175-179 | The row is finished and the next starts fresh. |
| Csv.Writer.WriteHeader | src/exporter/csv.cpp:164-169 | The header is one row. |
| Csv.FieldReads | src/exporter/csv.cpp:84-108 | A written cell reads back by section 2 of RFC 4180, whatever its characters. |
| Csv.RowsReadBack | src/exporter/csv.cpp:84-179 | All rows are recovered from the text exactly when none of them is empty. |
| IncomeSelection.TotalRises | include/phantomledger/activity/income/selection.hpp:79-93 | The expected number paid rises with the scale, no faster than the sum of the bases. |
| IncomeSelection.Selector.PaidShare | include/phantomledger/activity/income/selection.hpp:25-47 | The mean probability over the candidates; zero without a scale or a candidate. |
| IncomeSelection.Selector.Bisect | include/phantomledger/activity/income/selection.hpp:72-103 | Every step keeps the total below the target at the lower scale and at or above it at the upper. |
| IncomeSelection.Selector.FitScale | include/phantomledger/activity/income/selection.hpp:49-104 | Zero without a target or a candidate; otherwise the share paid at the scale is at least the target and exceeds it by less than mean(base) / (least base * 2^30). |
| IncomeSelection.FittedShare | include/phantomledger/activity/income/selection.hpp:49-104 | The share paid at a fitted scale is at least the target and exceeds it by less than mean(base) / (least base * 2^30). |
| IncomeSelection.ThirtyHalvings | include/phantomledger/activity/income/selection.hpp:72-103 | The bisection divides the bracket by 2^30. |
| IncomeSelection.Selector.Selected | include/phantomledger/activity/income/selection.hpp:106-115 | A candidate takes one coin exactly when the scaled probability is strictly between 0 and 1 and is otherwise paid exactly when it reaches 1; no one else is paid or takes a coin. |
| IncomeSelection.OneCoinExactlyWhen | include/phantomledger/activity/income/selection.hpp:16-19 | One coin per candidate exactly when the scaled probability lies strictly between 0 and 1. |
| IncomeSelection.NoCoinWhenCertain | include/phantomledger/activity/income/selection.hpp:16-19 | Doubling a probability of one half takes the candidate's coin away. |

## Left out

- Floating-point rounding: amounts, probabilities and weights are reals, so NaN, infinities and the printing of amounts do not occur.
- The random engine and its seeding: words are any infinite stream that has, from every position, an acceptable word for every range; the rejection loop needs that to end.
- PostgreSQL, SQL text, files, logging and progress: tables are maps and sequences, a COPY is one atomic statement, and a digest stands for the content it is taken of.
- The configuration hash: a configuration stands for its hash.
- Library sorts and heaps: a sort is the stable sort its order determines, and a heap is a bag whose least entry is taken.
- Opaque identifiers of temporal vertices: a reference stands for its identifier, in the order the identifiers sort.
- The Zelle policy and rail choice: whether a payment is a Zelle payment is part of the payment.
- Emitters of individual obligations, membership, susceptibility, relocation, attacker and router lookups: each is an unknown function of what it is given.
- The Pareto, Zipf and lognormal shapes and every calibration: a distribution is any table of the required shape.
- Account and mule label rows, AML and card-fraud writers, PII, geography, minhash and enumeration tables.
- 32-bit truncation of counts that stay small: event targets, span seconds, chunk indices and budgets below 2^31.
- TemporalExport.Exporter.TokenLiveUntilClosed: token associations open in the middle of a second, so the equivalence with time starts at their opening, and a token enrolled after its owner left is not covered.
- TemporalExport.Exporter.Tick: an exhausted sequence ends the export instead of throwing through it.
- RunSafety.FinishedRunIsExact: safety and the result of an attempt that finishes; that an attempt finishes at all is not claimed.
- RunLedgerClasses.Orchestrator.Attempt: the other exports of an attempt, which write no run tables, are not modelled.
- RunJournal.JournalResumes: a journal's digests are rendered by any function to texts that are not empty and hold no separator; the hexadecimal digits themselves are not modelled.
- Blake2bStream.State.Wipe: that a compiler keeps the wiping writes is not modelled.
- ClearingInterest.AlwaysTracks: for an account from its enabling on, under positive nondecreasing timestamps; direct cash writes and the untimestamped transfer are excluded.
- ClearingInterest.LazyIsEager: the eager reference starts an account at its own first touch, as the lazy one does.
- ClearingLedger.Ledger.Restore: no claim after a change of protection or limits since the snapshot.
- Clearing: the sink is always present; a ledger without one differs only in that no one hears of a debit.
- Calendar.DateOfDay: years are unbounded, so the library's year limits and the failures they cause are not modelled.
- CommunityBlocks.BuildCommunities: proved where `AdvancesExactlyWhen` says that every block advances, which the caller's bounds (at least 20 people a block) ensure but for populations next to 2^32; elsewhere the loop need not end.
- ContactSampling.ContactSampler.DrawUnique: beyond 2^32 for index plus population the exact number of contacts is not claimed, and the retry limit is not taken modulo 2^31.
- ContactSampling.ContactSampler.constructor: takes the alias tables it draws from, already built.
- AliasTables.AliasTable.Build: exact weights; with rounding the left-over columns are only nearly whole.
- FraudPlanning.AttackersDoNotInterfere: attackers and router are functions, so that their queries leave no trace is assumed, not proved.
- IllicitBudgets.SharesAreFair: for rings that produce exactly what they are asked for; what they produce otherwise only bounds what is left.
- HouseholdPartition.MakePartition: the household-size table is a parameter.
- FamilySupport.BuildSupportTies: takes the spouses and the partition as they are; a partition that repeats someone is excluded.
- KeyCodec.FormatKey: landlord types and device identifiers, which have layouts of their own, are not tabled.
- Csv.RowsReadBack: cells are texts; numbers and truth values are texts without special characters.
- IncomeSelection.Selector.FitScale: base probabilities are positive; a zero base makes the upper scale infinite in the source.
- IncomeSelection.FittedShare: stated for the scale's mean over candidates as a real number, not for its rounding.
