# quickchr in Dafny

A model of the parts of quickchr whose correctness is an argument rather than plumbing, with proofs
of what they promise. `dafny verify dfyconfig.toml` checks all of it.

**The cross-process lock** (`LockModel`, `LockInvariant`, `LockSteps`, `LockSafety`, `LockAuthors`,
`LockProgress`, `LockAlone`, `LockSolo`, `LockScan`, `LockCode`). A lock is a directory of records named `<id>.<gen>`; the highest number is its
state. The model is a transition system with any number of contenders in which every filesystem call
is a step of its own: making the directory, linking the id, reading it, listing, reading a record, the
liveness test, writing a temp file, linking a record, the re-list, the re-read of the judged record, the
re-read of the id, each unlink, and the released marker. Between any two calls other contenders move,
processes stop for good, a holder moves the machine directory aside, and the same name is created again.
The invariant (`LockInvariant.Inv`) is about the current top only: the linearization point is the link of
the record just above the top, and a record linked anywhere else is below the top for good. `LockCode`
is the same code with its loops, its early returns and its `released` flag, run by one process while the
others make any moves between its calls: call by call it makes the steps of the transition system, so the
two descriptions cannot drift apart, and what it does when nobody moves is stated besides.

**Creating machines at the same time** (`CreationModel`, `CreationSteps`, `CreationSafety`, `CreationAsked`,
`CreationOverlap`). The same call by call model, with everything a creation goes through: the allocation lock,
the read of every `machine.json`, the scan of the reservations in the machine locks, the second read, the choice
of a port block, the third read, the choice of the NICs' addresses, the machine lock with the reservation in it,
the last look at `machine.json`, and the save, while any number of other creations, other users of the locks,
removals and crashes move between any two calls. Allocated blocks never overlap and no derived address is given
out twice (`CreationSafety`); `CreationAsked` says exactly when a base that was asked for is accepted, and
`CreationOverlap` gives a run from an empty data directory in which two blocks overlap.

Assumptions about the lock: link, unlink, read and list are each atomic; ids and tokens are fresh; the
pid test is exact and pids are not reused, though several contenders may share one; only a holder removes
the directory, in one rename (`src/lib/state.ts:304`). A temp file is modelled by the directory it was
written in: linking it fails with ENOENT once that directory is gone, whatever now has its path.

**Smaller cores**, each an algorithm proved against an independent description:

- `EditDistance`: the rolling row computes the Levenshtein distance, which is a metric and the least number of edits.
- `ApiCodec`: the RouterOS API length prefix, words, sentences, and the parser that is run again on each chunk.
- `CachePrune`: the retention policy, its order, its bounds, and what it may never delete.
- `PortBlocks`, `MacAddresses`: port blocks, port mappings and MAC addresses for new machines.
- `Names`, `DeviceMode`, `ShellWords`, `CliFlags`, `DeviceModeFlags`: a device-mode request from the options
  through the printed flags, the shell, the flag parser and the reader back to the options, and the
  cumulative record of what was applied.
- `Sorting`: the stable sort that the cache, the ports and the names share.
- `Text`, `IpLiterals`: IPv4 and IPv6 literals and CIDR blocks (RFC 4291 sections 2.2 and 2.3, RFC 4632 section 3.1).
- `Json`, `Rollup`, `Ledger`: the versions rollup, the plan guard and the leg ledger of the CI scripts.

**Where the code does less than its documentation says**, the exact condition is proved, and one input
that fails it is given:

- A printed device-mode selection comes back if and only if its mode is not blank and no printed value
  starts with `--` (`DeviceModeFlags.PrintedSelectionReadsBack`); `DeviceModeFlags.DashedFeatureIsLost`.
- The documentation says that an empty change description means nothing moves. It is empty although something
  moves if and only if the text before the colon of every mismatched name is no name of the selection
  (`DeviceMode.EmptyDescriptionMisleads`); `DeviceMode.UndescribedChange`. It shows exactly the rows that would
  move unless the name of one of them contains a colon (`DeviceMode.DescribesTheChanges`).
- Merging into a record is overriding it, unless the record says skip and still lists features the update does
  not name (`DeviceMode.MergeIsOverride`); `DeviceMode.SkipRecordRevives`. Merging a skipped selection into no
  record writes `{}`, which asks for the default mode (`DeviceMode.SkipOverNothing`). A feature called `mode`
  breaks verification exactly when a later update moves the mode alone (`DeviceMode.OverrideVerified`);
  `DeviceMode.FeatureCalledModeBreaks`.
- A length survives the wire if and only if it is below 2^32 (`ApiCodec.LengthRoundTrip`; otherwise it comes back
  modulo 2^32, `ApiCodec.LengthModulo`), and a sentence if and only if it has no empty word
  (`ApiCodec.SentenceRoundTrip`); `ApiCodec.EmptyWordSplits`. A login comes out the
  same for every chunking if and only if, where the first `!done` comes before any `!fatal`, there is no `!fatal`
  at all, and a `!trap` stands before that `!done` or nowhere (`ApiCodec.ChunkingIrrelevant`); `ApiCodec.DoneThenTrap`.
- Automatic host ports stay inside the machine's block if and only if no extra port behind the fourth is automatic
  (`PortBlocks.AutomaticPortsInBlock`); `PortBlocks.FifthAutomaticPortLeavesBlock`.
- Addresses for NICs are found if and only if no NIC is left waiting: none comes to its turn with every address
  its index can get used (`MacAddresses.WaitsExactlyWhenExhausted`); a single NIC without an address waits if and
  only if every address of its index is taken or given (`MacAddresses.OneNicWaits`), which happens for any hash
  when the taken addresses are all of them (`MacAddresses.AllTakenLeavesWaiting`).
- A base that was asked for is meant to overlap no other machine. It is accepted if and only if every saved machine
  that it overlaps was saved after the creation had looked at it (or was to look at it), no machine that it overlaps
  was read and has been removed since, and the scan found no reservation that it overlaps
  (`CreationAsked.AskedBaseOverlapsExactly`). From every empty data directory there is a run that ends with two
  machines of overlapping blocks (`CreationOverlap.AskedBaseCanOverlap`).
- The ledger's counts balance if and only if no two legs without a metrics record share a key
  (`Ledger.LedgerAccounts`); `Ledger.SharedIdentityUnbalances`, `Ledger.StableTwice`.

## Model

| member | source | states |
|---|---|---|
| `LockSafety.MutualExclusion` | src/lib/lock.ts:317-382 | In every reachable state of every interleaving, with crashes, releases, removals and recreations, at most one live contender has a standing claim: validated, marker not yet published, directory not removed by it. |
| `LockSafety.StandingIsTop` | src/lib/lock.ts:334-348 | A standing claim is of the incarnation in the directory, its own record is the top with its own bytes, and that record is not free. |
| `LockSteps.StepKeepsInv` | src/lib/lock.ts:233-382 | Every step of every contender, every crash, every removal and every recreation keeps the invariant. |
| `LockSteps.RunKeepsInv` | src/lib/lock.ts:411-427 | The invariant holds in every state of every run from an empty data directory. |
| `LockSteps.JudgedIsSafe` | src/lib/lock.ts:341-347 | When a claim is linked on top of the record it judged, no other live contender is on its way to unlinking that record, so the re-read cannot be fooled. |
| `LockSteps.DeletesBelowTop` | src/lib/lock.ts:283-294 | Whatever a rejected claim or a collector deletes by path is strictly below the top of the incarnation in the directory at that moment, whoever wrote it. |
| `LockSteps.RemoveStep` | src/lib/lock.ts:358-361 | Removing the directory keeps the invariant, because nobody else stands while its holder removes it. |
| `LockSafety.DeleteKeepsTop` | src/lib/lock.ts:283-294 | A delete leaves the top number and the top record of the current incarnation as they were. |
| `LockSafety.TopStability` | src/lib/lock.ts:280-294 | Between any two moments of one incarnation the top does not fall, and as long as it is the same number the top record has the same bytes: never unlinked, never replaced. |
| `LockSafety.RecordsGoFromBelow` | src/lib/lock.ts:336-347 | A record disappears only with its whole directory, moved by the standing holder, or by a delete of its path while it is strictly below the top; it is never overwritten. |
| `LockSafety.RetiredForever` | src/lib/lock.ts:225-242 | An incarnation id that is no longer in the directory never comes back. |
| `LockSafety.SameIncarnation` | src/lib/lock.ts:225-242 | If a directory is of one incarnation at two moments, it is of that incarnation at every moment between. |
| `LockSafety.IncarnationIsolation` | src/lib/lock.ts:336-347 | Once its incarnation is gone, a contender that still holds the old id never stands again, and none of its links, cleanups, collects or releases changes the id file or a record of any other incarnation. |
| `LockSafety.LateRelease` | src/lib/lock.ts:356-380 | A holder that removed the directory changes nothing on disk from then on, however late and however often it calls release(). |
| `LockAuthors.LiveRecordsAreOwned` | src/lib/lock.ts:334-374 | In every reachable state, every record in the directory whose author is alive is the claim that its author has linked and is still checking, is taking back, or stands or has stood on, with its own bytes, or the bare released marker just above it. |
| `LockAuthors.NothingLeftBehind` | src/lib/lock.ts:341-347 | So a live contender that is before its link, has been refused, or is looking again after a claim was turned away is the author of no record in the directory. |
| `LockAuthors.MarkersReserveNothing` | src/lib/lock.ts:362-374 | No released record in the directory carries a reservation. |
| `LockProgress.RepeatsOnlyAfterInterference` | src/lib/lock.ts:411-427 | The loop goes round again only if, since the listing of this pass, another contender raised the top or the incarnation changed. |
| `LockAlone.LeftAloneEnds` | src/lib/lock.ts:384-427 | From any reachable state, a live contender left alone at any call ends its attempt or its release within a number of calls bounded by the records there are, and until then always has a next one; no pattern of crashes wedges the lock. |
| `LockAlone.LeftAloneAcquires` | src/lib/lock.ts:411-427 | From any reachable state, a live contender left alone at any call of its attempt, with no live holder in the top record or in its hands and with its directory still there, holds the lock in the end, having started over at most once. |
| `LockAlone.AloneAcquires` | src/lib/lock.ts:411-427 | A new attempt, alone, over a free top and in a machine directory that is there, takes the lock in one pass, after at most 20 calls more than there are records. |
| `LockAlone.CanGoOn` | src/lib/lock.ts:411-427 | A live contender has a next call exactly as long as its attempt or release is not over. |
| `LockSolo.TakesAlone` | src/lib/lock.ts:411-427 | From every such state there are calls of this contender alone that end with the lock. |
| `LockSolo.ReleasesAlone` | src/lib/lock.ts:352-382 | A holder on its way out, alone, has calls that end with its released marker as the top record. |
| `LockScan.HeldReservationIsReported` | src/lib/lock.ts:485-500 | A creator that holds its machine lock throughout the scan has its reservation in the result, however the contenders of all locks move between the calls of the scan. |
| `LockScan.NoReservationOfTheDead` | src/lib/lock.ts:467-500 | Every reported reservation was read during the scan from an unreleased record of that machine, and none belongs to a process that was dead when the scan began, or to the excepted name. |
| `LockScan.WorldRunKeepsInv` | src/lib/lock.ts:467-500 | While the scan runs, every lock of the world keeps its own invariant. |
| `LockCode.Process.EnsureLockDir` | src/lib/lock.ts:246-254 | Creates the lock directory, never its parent, and finds it missing exactly when the machine directory is; whatever others do, it makes exactly the step of the transition system. |
| `LockCode.Process.LinkId` | src/lib/lock.ts:258-278 | Publishes the id only if there is none: the first id stays. |
| `LockCode.Process.Incarnation` | src/lib/lock.ts:225-242 | Goes on with an id that it read, or fails because there is none to read; alone, the id is the one in the directory, published by this call only if there was none. |
| `LockCode.Process.Inspect` | src/lib/lock.ts:186-201 | A record is gone, or free because it is released or its process is dead, or live; alone, exactly as the file in the directory is. |
| `LockCode.Process.ReadTop` | src/lib/lock.ts:298-306 | The highest record of the incarnation and its judgement, none, one that vanished between the listing and the read, or a missing directory; alone, exactly what is in the directory. |
| `LockCode.Process.LinkRecord` | src/lib/lock.ts:256-278 | Publishes the claim with a token never used before, only under a number not yet taken; else the number exists, or the directory is gone. |
| `LockCode.Process.Check` | src/lib/lock.ts:336-347 | A claim goes on to stand, is turned away, or finds the directory gone, by the calls of the transition system; alone, it stands exactly when it is the top, follows exactly the record judged, and its id is still the directory's. |
| `LockCode.Process.Collect` | src/lib/lock.ts:280-294 | Works off what it listed in any order; alone, exactly the records of this incarnation below the claim are gone. |
| `LockCode.Process.TakeBack` | src/lib/lock.ts:341-347 | A claim that is turned away is unlinked by its own name, and the attempt looks again; alone, exactly that name is gone from the directory and nothing else has changed. |
| `LockCode.Process.MakeClaim` | src/lib/lock.ts:308-350 | The lock, or undefined because the number was taken or the check failed, or the exception for a missing directory; alone, a claim that follows a free top is won, and its record the only one left of its incarnation. |
| `LockCode.Process.Attempt` | src/lib/lock.ts:404-427 | Goes round as long as the top vanishes or the claim is lost, and gives the lock back when a legacy lock file stands in the way; all its calls, among any moves of others, are a run of the transition system. Alone, it is the lock exactly when the top is free, refused with the live holder's record otherwise, and the directory afterwards is stated in full. |
| `LockCode.Process.Release` | src/lib/lock.ts:352-382 | The first release ends, whatever others do, by the calls of the transition system; alone, it collects and publishes the marker if the own record is still there. A later one makes no call. |
| `LockCode.HeldIsExclusive` | src/lib/lock.ts:309-350 | Whatever the others did between its calls, a process whose attempt returned a lock, and that has not moved the directory away, is the only one that stands. |
| `LockCode.AcquireLockNow` | src/lib/lock.ts:433-437 | After any run of the system, one attempt among any moves of the others ends with the lock and nobody else standing, or with the holder in the way, a missing directory, or a legacy lock. |
| `LockCode.TakenIsBusyUntilDead` | src/lib/lock.ts:186-201 | After an attempt takes a lock, every other attempt is refused with its record while its process lives, and takes the lock over with the next number once it is dead. |
| `LockCode.ReleasedIsFree` | src/lib/lock.ts:362-374 | After a release, the next attempt takes the lock, two numbers above the released claim. |
| `CreationSafety.AllocatedBlocksApart` | src/lib/quickchr.ts:2212-2268 | However creations, removals and crashes interleave, two machines of different names, saved or in flight, whose bases were allocated never have overlapping blocks. |
| `CreationSafety.DerivedAddressesApart` | src/lib/quickchr.ts:2205-2208 | In every run, two machines of different names, saved or in flight, share no address that was derived for a NIC of each. |
| `CreationSafety.OneBlockPerName` | src/lib/quickchr.ts:2258-2264 | A name has one block: whatever is saved or in flight under it has the same base and the same addresses. |
| `CreationSteps.SiteStepKeepsInv` | src/lib/quickchr.ts:2194-2268 | Every call of every creation, every step of any lock, every removal and every crash keeps the invariant of the whole site. |
| `CreationSteps.OnlyOneChooses` | src/lib/quickchr.ts:2230-2233 | While one live creation holds the allocation lock, no other live one is between its first read and its machine lock. |
| `CreationSafety.SearchMayPick` | src/lib/quickchr.ts:2201-2202 | Every base the search goes through, over the used and the reserved bases, is one that the site lets a creation pick. |
| `CreationSafety.SearchMayAssign` | src/lib/quickchr.ts:2205-2207 | What the search for unused addresses assigns, over the saved and the reserved ones, is what the site lets a creation assign. |
| `CreationAsked.AskedBaseAccepted` | src/lib/quickchr.ts:2172-2201 | When its reads are made, a base that was asked for is accepted exactly when it overlaps neither a base that the creation has read, at any step since it came in, nor one in a reservation found by its scan. |
| `CreationAsked.ReadUnlessLate` | src/lib/quickchr.ts:2198-2201 | A saved machine of another name was read with its present base exactly when it was not saved after the creation had last looked at it. |
| `CreationAsked.AskedBaseOverlapsExactly` | src/lib/quickchr.ts:2172-2201 | The base is accepted exactly when every saved machine that it overlaps was saved too late to be read, none that it overlaps was read and has been removed since, and none was found by the scan. |
| `CreationAsked.AskedBaseOverlapsOnly` | src/lib/quickchr.ts:2198-2268 | From the choice until the creation takes off, the base overlaps no creation in flight, and no saved machine but one that was saved between its first read and the end of its scan: nothing saved later overlaps. |
| `CreationOverlap.AskedBaseCanOverlap` | src/lib/quickchr.ts:2194-2268 | From every empty data directory, for any two names and any base that overlaps the default one, there is a run that ends with both machines having their blocks, one saved and one in flight, and the blocks overlap. |
| `EditDistance.ComputeDistance` | src/cli/flags.ts:159-175 | The two-row loop returns the Levenshtein distance. |
| `EditDistance.NoShorter` | src/cli/flags.ts:158-175 | No list of single insertions, deletions and substitutions from one string to the other is shorter than the distance. |
| `EditDistance.SomeExactly` | src/cli/flags.ts:158-175 | And some such list is exactly that long. |
| `EditDistance.Triangle` | src/cli/flags.ts:159-175 | The triangle inequality. |
| `EditDistance.Symmetric` | src/cli/flags.ts:159-175 | The distance is symmetric. |
| `EditDistance.ZeroIffEqual` | src/cli/flags.ts:159-175 | The distance is zero exactly between equal strings. |
| `EditDistance.SuggestFlag` | src/cli/flags.ts:178-191 | A suggestion is given exactly when some candidate is within max(1, len/3) edits, and it is the first of the nearest. |
| `ApiCodec.ReadLength` | src/lib/api-login.ts:53-65 | Reading a length at an offset of the buffer is decoding the bytes from there, with none when they end inside it. |
| `ApiCodec.LengthModulo` | src/lib/api-login.ts:24-65 | Whatever bytes follow, decoding an encoded length gives it modulo 2^32, and the size of its prefix. |
| `ApiCodec.LengthRoundTrip` | src/lib/api-login.ts:24-65 | Decoding inverts encoding, whatever bytes follow, if and only if the length is below 2^32. |
| `ApiCodec.LengthBytes` | src/lib/api-login.ts:24-32 | The bytes of a length: the shortest of the five forms that holds it, told apart by the top bits of the first byte, with the other bits as the length, highest byte first. |
| `ApiCodec.PrefixBytes` | src/lib/api-login.ts:53-65 | Any bytes as a prefix, in the shortest form or not: when they are too few, and otherwise the size by the first byte and the value by the bits behind its tag. |
| `ApiCodec.WriteSentence` | src/lib/api-login.ts:35-50 | The array filled part by part holds every word behind its length, and a zero byte. |
| `ApiCodec.ParseSentences` | src/lib/api-login.ts:68-86 | The loop over offsets returns the sentences that parsing word by word gives. |
| `ApiCodec.SentenceRoundTrip` | src/lib/api-login.ts:35-86 | A sentence survives the wire, whatever follows, if and only if it has no empty word. |
| `ApiCodec.EmptyWordSplits` | src/lib/api-login.ts:35-86 | A sentence with an empty word between two others comes back as two sentences. |
| `ApiCodec.StreamRoundTrip` | src/lib/api-login.ts:35-86 | Parsing any encoded sentences without empty words, followed by any bytes, gives exactly those sentences and then those of the tail. |
| `ApiCodec.ParseGrows` | src/lib/api-login.ts:67-86 | For arbitrary bytes, the parse of a prefix is a prefix of the parse of the whole. |
| `ApiCodec.CutAfter` | src/lib/api-login.ts:67-86 | For every number of complete sentences there is a place to cut the bytes so that exactly those are complete. |
| `ApiCodec.Login.OnData` | src/lib/api-login.ts:127-134 | A chunk is appended to what was received, everything is parsed again, and the first answer stays. |
| `ApiCodec.RunLogin` | src/lib/api-login.ts:111-138 | The outcome of feeding the chunks one after the other. |
| `ApiCodec.ChunkingIrrelevant` | src/lib/api-login.ts:96-134 | The outcome is the same for every way of cutting the bytes into chunks if and only if, when the first `!done` comes before any `!fatal`, the reply has no `!fatal` at all, and a `!trap` stands before that `!done` or nowhere. |
| `ApiCodec.SettledExactly` | src/lib/api-login.ts:96-106 | No prefix of the sentences answers differently from the whole exactly under that condition on their words. |
| `ApiCodec.DoneThenTrap` | src/lib/api-login.ts:96-134 | A done and then a trap: cut between them the login succeeds, uncut it is refused. |
| `ApiCodec.ClassifyAnswers` | src/lib/api-login.ts:96-106 | A reply is unanswered without a fatal or done, fatal with the message of the first fatal whatever else was said, a refusal with that of the first trap, and a login otherwise. |
| `ApiCodec.AnswerExactly` | src/lib/api-login.ts:96-106 | Each answer if and only if the sentences say so, with its message: what follows `=message=` in the first word of the deciding sentence that starts so, and without such a word the words behind the reply word, joined with single blanks. |
| `ApiCodec.LoginIgnoresChunking` | src/lib/api-login.ts:96-134 | A reply whose only `!done` or `!fatal` sentence is its last gives the same result for every chunking. |
| `CachePrune.PruneCache` | src/lib/cache.ts:290-409 | The loops that push, shift and decrement compute the plan: evicted, kept, failed and freed bytes. |
| `CachePrune.Partition` | src/lib/cache.ts:308-324 | The protected entries and the candidates, each in inventory order. |
| `CachePrune.Pruning.TryEvict` | src/lib/cache.ts:335-349 | An entry is evicted unless its delete fails; in a dry run none fails. |
| `CachePrune.Pruning.EvictWhere` | src/lib/cache.ts:351-378 | A threshold pass evicts exactly the entries past it and leaves the others in order. |
| `CachePrune.Pruning.EvictToCap` | src/lib/cache.ts:383-391 | The loop evicts from the front until the running total is at the cap; a failed delete lowers nothing. |
| `CachePrune.Pruning.EvictToTarget` | src/lib/cache.ts:393-400 | The loop evicts from the front until the evicted bytes reach the target. |
| `Sorting.SortSorts` | src/lib/cache.ts:326-332 | Sorting puts any list in the order of the comparator. |
| `Sorting.SortIsStable` | src/lib/cache.ts:326-332 | Elements that tie stay in the order they were in. |
| `Sorting.SortKeeps` | src/lib/cache.ts:326-332 | Sorting keeps every element, as often as it was there. |
| `CachePrune.SortedIsEvictionOrder` | src/lib/cache.ts:326-332 | The comparator orders exactly as documented: interrupted downloads first, then unknown and older versions, then older use. |
| `CachePrune.PruneConserves` | src/lib/cache.ts:308-409 | For every option combination and every pattern of failed deletes, evicted, failed and kept partition the inventory, and the freed bytes are the sum over evicted. |
| `CachePrune.PruneSafe` | src/lib/cache.ts:308-324 | An entry that is in use, of a protected version, skipped or recently used is kept, and its delete is not even tried. |
| `CachePrune.ThresholdsApply` | src/lib/cache.ts:351-378 | Nothing that may be deleted and is past a threshold is kept. |
| `CachePrune.ThresholdsExactly` | src/lib/cache.ts:308-378 | With neither a cap nor a target, an entry of the inventory is deleted or tried if and only if it is not in use, not of a protected version, not skipped and not recently used, and is of a known version below `olderThan` or older than `maxAge`. |
| `CachePrune.PruneExactly` | src/lib/cache.ts:290-409 | What the result evicts, fails and keeps, with every multiplicity: what may go and is past a threshold, and then, of what else may go, in eviction order, the shortest prefix that brings the disk to the cap and frees the target, or all of it; each to failed if its delete fails and to evicted otherwise; and the freed bytes. |
| `CachePrune.RemainingSorted` | src/lib/cache.ts:326-380 | What the thresholds leave is in eviction order. |
| `CachePrune.CapIsShortestPrefix` | src/lib/cache.ts:383-391 | The size-cap phase processes exactly the shortest prefix of the ordered list that brings protected, remaining and undeletable bytes to the cap, or all of it. |
| `CachePrune.ReclaimIsShortestPrefix` | src/lib/cache.ts:393-400 | The reclaim phase goes on from there with exactly the shortest prefix that has the target gone, or all of it. |
| `CachePrune.DryRunIsThePlan` | src/lib/cache.ts:335-349 | A dry run gives the plan of a real run in which no delete fails. |
| `PortBlocks.NextUnusedBase` | src/lib/network.ts:45-51 | For any unsorted, possibly overlapping used bases, the least base at or above the start whose block is free. |
| `PortBlocks.AllocatePortBlock` | src/lib/network.ts:33-42 | A requested base is taken as it is; otherwise the least free one from the default on. |
| `PortBlocks.OverlapSharesPort` | src/lib/network.ts:48 | Two bases less than a block apart are exactly those whose blocks share a port. |
| `PortBlocks.FindAvailablePortBlock` | src/lib/network.ts:207-232 | The probes in order, each the least free base a block after the last; the first without a conflict is returned, and none after twenty conflicts. |
| `PortBlocks.ProbesAvoidUsed` | src/lib/network.ts:217-229 | Every probe after the first avoids all used blocks and all earlier probes. |
| `PortBlocks.AllocateInTurn` | src/lib/network.ts:207-232 | Allocating again and again, with the earlier bases among the used ones, every base avoids all used and earlier blocks. |
| `PortBlocks.AllocationsDisjoint` | src/lib/network.ts:207-232 | So any two bases of such a sequence have disjoint blocks. |
| `PortBlocks.BuildPortMappings` | src/lib/network.ts:54-85 | The record holds exactly one mapping a name, with its protocol: the last extra called so, or else the service, unless it is excluded. |
| `PortBlocks.PortsByName` | src/lib/network.ts:54-85 | What each name maps to: the last extra called so, or `custom-` and its number, at its own host port or six and its number behind the base; without one, unless excluded, its service at its place in the block, with the guest ports 80, 443, 22, 8728, 8729 and 8291; and otherwise nothing. |
| `PortBlocks.AutomaticPortsInBlock` | src/lib/network.ts:71-82 | Automatic host ports lie inside the block if and only if no extra behind the fourth is automatic. |
| `PortBlocks.FifthAutomaticPortLeavesBlock` | src/lib/network.ts:71-82 | Of five automatic extras the fifth gets the first port of the next block. |
| `MacAddresses.AssignMacs` | src/lib/network.ts:451-472 | The loops over the NICs and the salts give the specified assignment, whenever no NIC is left waiting. |
| `MacAddresses.AssignedApart` | src/lib/network.ts:451-472 | Given addresses stay; every other is derived from its index and some salt, is not taken, and differs from those of all other NICs. |
| `MacAddresses.LeastSalt` | src/lib/network.ts:460-471 | Each derived address is that of the least salt whose address was not taken, not given to a NIC, and not assigned to an earlier one. |
| `MacAddresses.WaitsExactlyWhenExhausted` | src/lib/network.ts:460-471 | There is no assignment if and only if some NIC without an address comes to its turn when every address of its index is used. |
| `MacAddresses.OneNicWaits` | src/lib/network.ts:460-471 | If only one NIC has no address, there is no assignment if and only if every address of its index is taken or given to another NIC. |
| `MacAddresses.AllTakenLeavesWaiting` | src/lib/network.ts:417-471 | Whatever the hash, a NIC is left waiting when the taken addresses are all that its index can get. |
| `MacAddresses.EnoughAddresses` | src/lib/network.ts:417-427 | No NIC waits when every index has more addresses than are taken or belong to NICs. |
| `MacAddresses.AssigningAgain` | src/lib/network.ts:451-472 | Assigning again changes nothing, whatever has been taken since. |
| `DeviceMode.ResolveDeviceModeOptions` | src/lib/device-mode.ts:96-156 | The loops over the two lists resolve a request: skip values, mode aliases, disable winning over enable, and a warning exactly where one is due. |
| `DeviceMode.ResolvedWords` | src/lib/device-mode.ts:96-156 | In words, up to case and blanks: skip, none, off and disabled skip; a missing mode and auto are rose, and enterprise is advanced; a feature is there exactly when a comma-separated piece of a list spells it, and is off exactly when one of the disable list does. |
| `DeviceMode.NoWarning` | src/lib/device-mode.ts:96-156 | There is no warning at all exactly when a skip comes with empty lists, or the mode is home, advanced, basic, rose or auto, no feature is on both lists, and every listed one is among the 19 known features. |
| `DeviceMode.ResolvedIsSettled` | src/lib/device-mode.ts:96-156 | What is resolved has a normal mode that is no alias and no skip value, and normal, nonempty names without commas. |
| `DeviceMode.VerifyDeviceMode` | src/lib/device-mode.ts:323-354 | The rows the guest does not meet, with what was wanted and what it reports, and no others; ok exactly when it meets all of them. |
| `DeviceMode.VerifiedMeans` | src/lib/device-mode.ts:323-354 | A selection is verified exactly when the guest reports its mode and the setting of each of its features. |
| `DeviceMode.VerifiedWords` | src/lib/device-mode.ts:77-94 | A settled selection without a feature called `mode` is verified if and only if, up to case and blanks, the guest reports its mode, and one of yes, true, on, enabled and 1 for each feature set to yes, and one of no, false, off, disabled and 0 for each set to no. |
| `DeviceMode.ReportedWords` | src/lib/device-mode.ts:323-354 | What a mismatch gives as reported: nothing for a missing or empty row, yes and no for those words, and any other answer in its normal form. |
| `DeviceMode.DescribesTheChanges` | src/lib/device-mode.ts:378-394 | The description shows exactly the mismatched rows if and only if none of their names contains a colon. |
| `DeviceMode.DescribedRow` | src/lib/device-mode.ts:378-394 | A described row shows what the guest reports, as it reports it, and the mode or setting that was asked for. |
| `DeviceMode.EmptyDescriptionMisleads` | src/lib/device-mode.ts:378-394 | It is empty although something is mismatched if and only if something is, and the text before the colon of every mismatched name is no name of the selection. |
| `DeviceMode.PlainMismatchIsDescribed` | src/lib/device-mode.ts:378-394 | Every mismatched name without a colon is described, so an empty description does not mislead about it. |
| `DeviceMode.UndescribedChange` | src/lib/device-mode.ts:378-394 | A feature `a:b` that the guest lacks: the description is empty, and it would move. |
| `DeviceMode.MergeDeviceModeOptions` | src/lib/device-mode.ts:404-422 | Each feature named in the update leaves the side it was on and joins the one it was set to; the others stay; both lists are sorted. |
| `DeviceMode.MergeResolves` | src/lib/device-mode.ts:404-422 | Resolving the merged record gives what the lists of the record asked for, conflicts included, overridden by what was applied. |
| `DeviceMode.MergeIsOverride` | src/lib/device-mode.ts:396-422 | It is the resolved record overridden by the update, if and only if the record is not a skip record still listing features the update does not name. |
| `DeviceMode.SkipRecordRevives` | src/lib/device-mode.ts:404-422 | A skip record that lists a feature: an update of something else brings the feature back. |
| `DeviceMode.SkipOverNothing` | src/lib/device-mode.ts:408 | Merging a skipped selection into no record gives one that resolves to the default mode, not to skip. |
| `DeviceMode.OverrideVerified` | src/lib/device-mode.ts:323-354 | If the guest verified a selection, then after an update it verifies the overridden one, if and only if no feature called `mode` clashes with the new mode. |
| `DeviceMode.FeatureCalledModeBreaks` | src/lib/device-mode.ts:323-354 | For a request that enables a feature called `mode`, an update that the guest follows is not verified. |
| `DeviceMode.FirstUpdate` | src/lib/device-mode.ts:404-422 | The first selection applied is recorded as it is, and the updated guest verifies it. |
| `DeviceMode.RecordFollowsGuest` | src/lib/device-mode.ts:396-422 | Over any sequence of updates to a guest on which only named settings move, the record always resolves to what the guest verifies, as long as no feature is called `mode`. |
| `Names.NormIsNormal` | src/lib/device-mode.ts:54-56 | Normalising twice is normalising once. |
| `Names.NormSpells` | src/lib/device-mode.ts:54-56 | A value has a word without capitals as its normal form exactly when it is that word in small or capital letters with blanks around it. |
| `Names.AtMostIsFirst` | src/lib/device-mode.ts:419-420 | The order of the lists: the one that is the beginning of the other, or has the smaller character where they first differ. |
| `Names.OrderedUnique` | src/lib/device-mode.ts:419-420 | There is only one sorted list of the same names. |
| `Names.DistinctKeepsFirsts` | src/cli/index.ts:139-141 | What is left without repeats are the first occurrences, in order. |
| `ShellWords.QuotedWord` | src/lib/names.ts:93-96 | The shell reads a quoted value as that value, whatever it contains and whatever follows. |
| `ShellWords.OnlyOrdinaryUnquoted` | src/lib/names.ts:93-96 | A value is returned as it is if and only if it is nonempty and all its characters are ordinary. |
| `ShellWords.CommandLineReadsBack` | src/lib/names.ts:93-96 | Any arguments, quoted and joined with blanks, come out of the shell as they went in (POSIX.1-2017 XCU sections 2.2.1 and 2.2.2). |
| `CliFlags.ParseFlags` | src/cli/index.ts:40-89 | The loop over the arguments parses them as the argument-by-argument description does, removed flags included. |
| `CliFlags.PositionalArguments` | src/cli/index.ts:47-77 | The positional arguments are, in order, the arguments before the first bare `--` that are neither flags nor the values of flags, and then everything behind it. |
| `CliFlags.BehindDashes` | src/cli/index.ts:50-53 | Words without two leading dashes, then `--`, then anything: no flags, and exactly the words and the rest. |
| `CliFlags.KeyMeans` | src/cli/index.ts:54-88 | Each key keeps, in order, the values given to it behind its last `--key` without a value or `--no-key`; with none, it is on or off as that says, and it is not there exactly when nothing mentions it. |
| `CliFlags.RemovedExactly` | src/cli/index.ts:29-33 | The parser stops with an error exactly when a removed flag stands before the first bare `--`, in any spelling, negated or not. |
| `CliFlags.NoSwitchesOff` | src/cli/index.ts:60-62 | `--no-x` alone leaves `x` off, and nothing else. |
| `CliFlags.DeviceModeAsked` | src/cli/index.ts:165-184 | A command line asks to skip when the last said of the mode is `--no-device-mode`, for nothing when it names no mode and no feature, and otherwise for the last mode given, or auto, with its lists. |
| `CliFlags.RefusalIsNotSilence` | src/cli/index.ts:165-184 | `--no-device-mode` is read as a request for skip, and an empty command line as no request. |
| `CliFlags.FlagThenValue` | src/cli/index.ts:63-72 | A value flag takes the next argument exactly when that does not start with two dashes. |
| `CliFlags.BothSpellings` | src/cli/index.ts:54-73 | A value flag means the same with its value behind an equals sign and in the next argument. |
| `CliFlags.RepeatsAccumulate` | src/cli/index.ts:82-101 | A repeated flag keeps all its values in order, its single-value reader sees the last, and no other flag changes. |
| `CliFlags.CsvList` | src/cli/index.ts:139-141 | The trimmed, nonempty pieces of the values and no others, each once, in the order in which they first occur. |
| `DeviceModeFlags.FormatDeviceModeFlags` | src/lib/device-mode.ts:367-376 | The printed text is the flags of the selection, with sorted lists, each value quoted. |
| `DeviceModeFlags.PrintedWords` | src/lib/device-mode.ts:367-376 | The shell splits the printed text into those flags and their unquoted values, whatever they are. |
| `DeviceModeFlags.PrintedArguments` | src/lib/device-mode.ts:367-376 | For a selection those are the mode flag unless the mode is blank, then the names that are on and then those that are off, each list in order behind its own flag unless it is empty. |
| `DeviceModeFlags.DashedLoses` | src/cli/index.ts:54-73 | If a printed value starts with two dashes, parsing fails or some such value is lost: its flag has no value or a shorter one. |
| `DeviceModeFlags.PlainReadsBack` | src/cli/index.ts:164-184 | With plain values, the parsed flags resolve to the selection if and only if the mode is not blank. |
| `DeviceModeFlags.PrintedSelectionReadsBack` | src/lib/device-mode.ts:356-376 | For every request: printing its selection and reading it back through shell, parser, reader and resolver gives the same selection if and only if it is skipped, or its mode is not blank and no printed value starts with two dashes. |
| `DeviceModeFlags.DashedFeatureIsLost` | src/lib/device-mode.ts:356-376 | A feature that starts with two dashes does not come back. |
| `IpLiterals.ParseIpv4` | src/lib/net.ts:261-272 | Four decimal octets between dots, most significant first; nothing else. |
| `IpLiterals.EveryQuad` | src/lib/net.ts:261-272 | Every 32-bit value is read back from its dotted quad. |
| `IpLiterals.ParseIpv6` | src/lib/net.ts:275-298 | The loops over the groups compute the value of the eight groups, zeros filled in at the double colon. |
| `IpLiterals.FullFormReadsBack` | src/lib/net.ts:275-298 | Eight groups between colons, in any case and with any leading zeros, are read as their value (RFC 4291 section 2.2, form 1). |
| `IpLiterals.CompressedFormReadsBack` | src/lib/net.ts:276-295 | With `::` for one or more zero groups they are read as the value with the zeros in place (form 2). |
| `IpLiterals.EveryValueFull` | src/lib/net.ts:275-298 | Every 128-bit value is read back from its eight groups. |
| `IpLiterals.EveryValueCompressed` | src/lib/net.ts:275-298 | And from every text in which one run of its zero groups is replaced by `::`. |
| `IpLiterals.OnlyTheseForms` | src/lib/net.ts:275-298 | Nothing else is accepted. |
| `IpLiterals.InCidrBlock` | src/lib/net.ts:301-320 | True exactly when the prefix is valid, both are addresses of the base's family, and their first `prefix` bits agree, from prefix 0 to full length. |
| `IpLiterals.ShiftsAgree` | src/lib/net.ts:310-319 | Shifted numbers are equal exactly when all the bits that are left agree. |
| `Rollup.VersionIsShaped` | scripts/ci-metrics.ts:205-206 | Two or three numbers between dots, perhaps with a beta or rc number, are a version. |
| `Rollup.ShapedIsVersion` | scripts/ci-metrics.ts:205-206 | And nothing else is. |
| `Rollup.CountBoots` | scripts/ci-metrics.ts:217-223 | Every booted version is counted as often as it was booted, in the order of first boots. |
| `Rollup.ResolvedTargetVersion` | scripts/ci-metrics.ts:213-233 | A version-shaped target is itself; a channel run is credited for a version booted at least as often as any other, the first booted on ties; without boots, for none. |
| `Rollup.ForExactly` | scripts/ci-metrics.ts:207-259 | Which version and platform a file counts for, from its records: the first suite must be a full run of that platform, and the version is its target if that has the parts of a version, and otherwise the first of the versions most often among the boots that name one. |
| `Rollup.FoldTestedVersions` | scripts/ci-metrics.ts:241-259 | The entry of the credited version and platform is replaced when there is none or it is not later; a filtered run, or one without a suite record or a version, changes nothing. |
| `Rollup.FoldMoves` | scripts/ci-metrics.ts:235-259 | No entry ever goes to an earlier date, and the entry of a version and platform moves exactly when the run was a full one credited to them and there was none or it was not later. |
| `Rollup.FoldFiles` | scripts/ci-metrics.ts:299-340 | The loop over the files, onto the earlier rollup or from nothing, folds them one after the other. |
| `Rollup.FoldHoldsLatest` | scripts/ci-metrics.ts:319-340 | After folding any files onto any rollup, the entry of every version and platform is one of the latest results there are for it. |
| `Rollup.OrderDoesNotMatter` | scripts/ci-metrics.ts:319-340 | With distinct timestamps, the same files in any order, each any number of times, give the same rollup. |
| `Rollup.OntoEarlier` | scripts/ci-metrics.ts:286-314 | Folding new files onto the rollup of earlier ones is folding them all. |
| `Json.SortedFormIsCanonical` | scripts/ci-metrics.ts:273-284 | The key-sorted forms of two values are equal if and only if the values are, up to the order of keys at every depth. |
| `Json.SortingKeepsData` | scripts/ci-metrics.ts:273-284 | The key-sorted form is the same value up to the order of keys at every depth. |
| `Json.SortingOrdersKeys` | scripts/ci-metrics.ts:273-284 | In it the keys of every object, at every depth, are in order and each there once. |
| `Ledger.FindDuplicateLegs` | scripts/ci-plan.ts:41-62 | The groups of legs sharing an identity, in key order with their targets in dispatch order; none exactly when all identities differ. |
| `Ledger.DuplicatesAre` | scripts/ci-plan.ts:41-62 | An identity is reported exactly when two legs share it, once, in order of identity, with the platform and version of the first of its legs and the targets of exactly its legs in dispatch order. |
| `Ledger.ClassifyLeg` | scripts/ci-leg-ledger.ts:176-266 | Complete exactly when the key has a metrics record, whatever the instruments say; otherwise lost, attempted or not started by what the job and the checkpoint show, with the reason and the seconds the job took. |
| `Ledger.CheckpointReported` | scripts/ci-leg-ledger.ts:188-203 | What an entry says of its leg and checkpoint: the last file reported and its time, the file it was in, and how many files were reported and planned. |
| `Ledger.JobReported` | scripts/ci-leg-ledger.ts:204-213 | What it says of its job: the conclusion, the whole seconds nearest to its length with halves rounded up, and the first step that started and did not complete. |
| `Ledger.TerminalMeans` | scripts/ci-leg-ledger.ts:215-265 | The terminal state and the reason, each if and only if the record, the checkpoint and the job say so. |
| `Ledger.BuildRunLedger` | scripts/ci-leg-ledger.ts:271-288 | The loop builds the ledger of the legs in order. |
| `Ledger.LedgerAccounts` | scripts/ci-leg-ledger.ts:271-288 | The listed keys are those without a metrics record; planned is complete plus listed if and only if no two legs without a record share a key. |
| `Ledger.SharedIdentityUnbalances` | scripts/ci-leg-ledger.ts:271-288 | Two legs of one identity without a record: two planned, none complete, one listed. |
| `Ledger.LastLegIsListed` | scripts/ci-leg-ledger.ts:271-288 | Under a key without a record stands the entry of the last leg with that key. |
| `Ledger.PlanIsConserved` | scripts/ci-leg-ledger.ts:146-163 | If the plan guard finds no duplicates, planned is complete plus listed, and every leg is counted or listed once, by its own entry. |
| `Ledger.EveryRunLands` | scripts/ci-leg-ledger.ts:290-308 | After any runs have landed, each has its own verdict and every other run's is as it was. |
| `Ledger.LandingOrderDoesNotMatter` | scripts/ci-leg-ledger.ts:290-308 | In whatever order they land, the file is the same. |

## Left out

- LockModel: the lock is modelled on values, a step at a time, because other processes move between any two calls; `LockCode` has the loops, the fields and the `released` flag of one of them.
- LockCode.Process.Attempt: what the others do is a finite list of moves for each gap between calls, so that the retry loop ends; a legacy `.start-lock` is an input, without its grace period.
- Unreadable or unparsable record files, which block as an unknown holder.
- Disk-full and permission errors of the lock, and so the second try that release() allows after one.
- The operation name and the date of a record, all messages, and the sleeping in `acquireLock`: a waiter is a contender that attempts again.
- Names, sizes and removal of temp files; their removal never touches a record.
- Non-atomic deletion of a machine directory: it is one rename here, as in `src/lib/state.ts:304`.
- The socket, the deadline and the rejections of `apiLogin`; words are bytes, so UTF-8 decoding and its byte order mark are not modelled.
- The cache inventory from disk, the storage lock, the leases and the reason texts; an unparsable `olderThan`, and version strings as such: versions are ranks with `unknown` least.
- Port probes are an input, one verdict a block; the checks on extra ports before they are used.
- MacAddresses.AssignMacs: runs only when no NIC is left waiting, because the search of the original does not end otherwise; the hash is any function, with any number of addresses.
- CreationModel: a creation may fail at any call, and tries its machine lock again as often as the directory goes away, where the original gives up after three; the check of an asked base comes at the end of its reads, where the original makes it before the second read, on which it does not depend; the storage lease, the image and the disks are not part of a creation here.
- CreationModel: no reads of a `machine.json` that is being written or is corrupt, and no machines that change their base.
- Names.NormIsNormal: lower case is modelled for ASCII letters only, because Dafny has no Unicode tables.
- String order by UTF-16 code units where it differs from order by code points.
- The texts of warnings, and the wording of a mismatch; what they are about is modelled.
- DeviceMode.VerifyDeviceMode: only for resolved selections, which are all its callers have; names that become equal when normalised do not occur in them.
- Record objects are maps; the order of their keys is not modelled, and of their special keys only `__proto__` in the feature record, the flags and the port mappings.
- What the shell does beyond single quotes, backslashes and blanks: text that needs more is not split.
- Bun's own argument handling, the other flags' readers, and the table of known flags.
- IPv6 texts with an embedded IPv4 address or a zone, which the parser rejects, and the rest of the proxy rules.
- Rollup and Ledger: reading and writing the files, JSON syntax, and numeric-looking keys.
- Json.SortingOrdersKeys: numeric-looking keys come in the order of all others; a JavaScript object lists them first, whatever order they were assigned in.
- Rollup: versions or platforms named like a property every JavaScript object has.
- Ledger.ClassifyLeg: the explanation is the reason with its parts, not its English sentence.
- `console.ts`, `channels.ts`, `license.ts`, `guest-snapshot.ts`, the wizard, the tables and the help: their results rest on timing or on presentation.
