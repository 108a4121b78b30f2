# dnf2b: the ban ledger and the attribution buffer, verified

dnf2b reads log files, runs filters over the parsed messages, attributes every match to an IP, and
bans an IP through a bouncer once the fails pooled for it reach a watcher's limit.  This project
models the two stateful components of that pipeline and the loops that feed them:

- **The ban ledger** (`BanManager`, `BanDB`): an in-memory fail cache, three persistent relations
  (ban counts, fail times, bans), the set of IPs every bouncer blocks, and a clock.  Its steps are:
  log one IP, reload the bans, lift expired bans, restart.
- **The attribution buffer** (`MessageBuffer`, `Watcher::process`): which IP each process was last
  seen with, the matched messages still waiting for an IP, and the batch that the filters rewrite in
  place.  Its steps are: load a batch, run a filter over it, finish the cycle.
- **The loops around them**: placeholder substitution in filter patterns, resumable matching,
  incremental file reading, and the daemon's turn that joins poll, process and log.

`dafny verify dfyconfig.toml` checks everything.

## How it is built

The classes (`BanDB`, `BanManager`, `MessageBuffer`, `FileParser`) and the methods with loops follow
the code statement by statement.  Each is proved equal to a step, or a run of steps, of a state
machine over values (`Tables`, `Ledger`, `Buffer`), and the theorems are about all runs of these
machines.

| file | holds |
|---|---|
| `Tables`, `BanDB` | the three relations as values with SQL NULL and the exact WHERE clauses; the class that queries and changes them in loops |
| `Ledger`, `BanManager` | the ledger's steps over values; the class with the cache, the bouncers and the database |
| `LedgerView` | one IP's share of the ledger, and that a run treats each share as if it were alone |
| `LedgerAgreement` | what every run keeps: cache, tables and bouncer agree, no duration is negative |
| `BanHistory` | the bans of an IP by any bouncers over whole runs, against its rows |
| `Escalation`, `Int64` | ban times and durations over whole runs, with the machine arithmetic written out |
| `LedgerCases` | what `log` does with one report, case by case, loaded bouncer or not |
| `StrikePool` | the pool of fails shared by all watchers, and what a restart forgets |
| `LedgerOrder`, `Folds` | steps for different IPs commute, so the order of a report does not matter |
| `TwoBouncers` | where agreement of the bans ends when two bouncers are loaded |
| `Filters`, `Placeholder` | `checkMessage`, the tester's loop, and filling the IP placeholder |
| `Buffer`, `MessageBuffer` | the buffer's steps over values; the class that performs them in place |
| `BufferOutcome` | what a filter does with every message of a batch, from the patterns and the buffer alone |
| `BufferBatch` | what a batch consists of, and what a cycle can catch of it |
| `BufferIsolation` | removing other processes' messages changes nothing for a process |
| `BufferHistory` | the IP cache refines a five-cycle window over everything ever registered |
| `BufferHold` | conservation, order of release and expiry of held messages |
| `BufferWaiting` | in which cycle held messages are dropped |
| `BufferProvenance` | every IP a message is caught under is vouched for by the input |
| `BufferInterchange` | filter by filter and message by message catch the same when the cache is off |
| `Watcher`, `Pipeline` | `process` with its merge, and one turn of the daemon for one watcher |
| `Turns` | the threads of all files, interleaved step by step, as a run of the ledger |
| `FileParser` | polling a growing file against reading it once |

## What the code does that one might not expect

- The overflow guard on ban durations (`BanManager.cpp:105-109`) says that it caps an overflow to the
  maximum.  It only sees a sign bit.  `GuardedExactly` gives the exact condition under which a ban is
  as long as intended or permanent: nothing overflows; or the product alone overflows and an odd
  number of 2^63 fits into it; or the power itself is out of range and the period is odd.
  `OverflowGuardMisses` is a run of three steps in which the second ban stores a wrapped duration.
  With one loaded bouncer and an increment of one or two, as by default, that cannot happen in any run
  (`SmallIncrementNeverWraps`); with a larger increment it cannot happen to a ban while
  elapsed * (increment - 1) + period, counted from the IP's first ban, fits in an int64
  (`EscalationBound`).
- A restart forgets repeated fails within one second, because `FailRegistry` is `UNIQUE(IP, Time)`:
  `RestartLowersStrikes` gives the exact condition, `RestartForgets` a case.
- A match without an IP does not move the resume index of `checkMessage`, so the line tester names
  the pattern it resumed from; `PrintedIsMatching` gives the exact condition under which it prints
  just the matching patterns, `WrongPatternNamed` a case where it does not.
- `checkMessage` stops at the first matching pattern even when that match yields no IP and a later
  pattern would yield one (`CheckedAtFirstHit`).
- A poll that finds the file ending inside a line tears that line (`PartLineTorn`);
  `PollingReadsOnce` counts the extra lines exactly and shows that, for a file that only grows, this is
  the only way reading in pieces differs from reading once.
- A comment in `poll` says that a wiped file is read from the start again.  The cursor is the only thing
  that decides: a poll reads a file from its start exactly when the cursor is zero, or the file is
  empty (`ReadFromStart`).  So a file written anew is read whole only if a poll has found it empty or
  missing in between; otherwise its first characters, as many as were read of the old one, are skipped
  (`FileParser.Poll`), which is all of it if it is not longer (`ShorterFileSkipped`).  Whether seeking
  behind the end fails does not matter, because a failed stream ignores the second seek.
- `forward` records an IP for a process but does not free what that process has on hold; only `load`
  does.  `HoldConserved` and `LoadReleases` are stated accordingly.
- With two loaded bouncers a cached record can outlive a ban that was lifted, and the next report then
  blocks the IP with no row behind it, which no later cleanup lifts (`BlockedWithoutRow`);
  `BackedThroughout` gives the exact condition for runs with any number of bouncers.

## Model

| member | source | states |
|---|---|---|
| `BanHistory.BansRecorded` | src/dnf2b/data/BanManager.cpp:75-125 | over every run from an empty database, whatever bouncers are loaded, under any configuration and across restarts: the stored ban count is the number of bans of the IP by any bouncer; of two bans by one bouncer the earlier is over when the later starts, by the duration stored for it, which belongs to the number of bans before it; a row is its bouncer's latest ban; without a row all the bouncer's bans are over |
| `BanHistory.CleanupLiftsOver` | src/dnf2b/data/BanManager.cpp:150-167 | after any run from an empty database, whatever bouncers are loaded: a cleanup leaves an IP a row just for each bouncer whose latest ban of it is not over by the time and duration of that ban, loaded or not; a loaded bouncer stops blocking the IP just when its row is of a ban that is over; nothing else changes |
| `BanHistory.RebansBlockRunning` | src/dnf2b/data/BanManager.cpp:134-148 | after any run from an empty database: a reload makes a loaded bouncer block an IP just when its latest ban of it is not over, unblocks nothing, and sets only the reload flag besides |
| `LedgerCases.LogDeals` | src/dnf2b/data/BanManager.cpp:56-131 | for every bouncer, loaded or not, and every `int` limit: nothing happens without messages or to a whitelisted IP; an IP whose record names the bouncer is only blocked again; below the limit the fails go to cache and tables; from the limit on the IP is banned; where blocking takes a bouncer that is not loaded, and only there, it throws and has changed nothing; other IPs are left alone |
| `BanHistory.StepFits` | src/dnf2b/data/BanManager.cpp:55-167 | the invariant behind it is kept by each of the four steps at a later or equal time |
| `Escalation.BansInTurn` | src/dnf2b/data/BanManager.cpp:75-125 | with one loaded bouncer each ban starts when the one before it is over, and a row is the latest ban |
| `Escalation.EveryBouncerEscalates` | src/dnf2b/data/BanManager.cpp:75-125 | whatever bouncers are loaded, an IP's (k+1)-th ban by one bouncer starts no earlier than its first by that bouncer plus period * (1 + inc + ... + inc^(k-1)), if those between were stored as long as intended or permanent |
| `Escalation.EscalationBound` | src/dnf2b/data/BanManager.cpp:75-125 | with one loaded bouncer, over every run from an empty database, every ban of an IP that comes while elapsed * (inc - 1) + period, counted from its first ban, fits in an int64 starts no earlier than its first plus period * (1 + inc + ... + inc^(n-1)); its intended duration is at most that bound; and it is the duration stored |
| `Escalation.SmallIncrementNeverWraps` | src/dnf2b/data/BanManager.cpp:98-114 | with one loaded bouncer and an increment of one or two the geometric distance holds in every run without any range, and every ban is stored as long as intended or permanent |
| `Escalation.BansSpaced` | src/dnf2b/data/BanManager.cpp:75-93 | with one loaded bouncer, after a ban within range of the IP's first one, its next ban starts no earlier than the intended end |
| `Escalation.StoredBanIntended` | src/dnf2b/data/BanManager.cpp:98-125 | with one loaded bouncer, a stored ban within range of the IP's first one has the intended duration, with no wrap-around |
| `Escalation.BanCountFits` | src/dnf2b/data/BanManager.cpp:125 | with one loaded bouncer the stored count is the number of bans, and a count reached within range of the first ban has taken period * (1 + inc + ... + inc^(count-2)) seconds, which bounds the `int` counter |
| `Escalation.DurationExact` | src/dnf2b/data/BanManager.cpp:98-109 | the stored duration is period * inc^n exactly if and only if that product is below 2^63 |
| `Escalation.GuardedExactly` | src/dnf2b/data/BanManager.cpp:98-109 | for every configuration with an increment of at least one, a ban is as long as intended or permanent if and only if nothing overflows, or only the product does and product / 2^63 is odd, or the power does and the period is odd |
| `Escalation.OverflowGuardCatches` | src/dnf2b/data/BanManager.cpp:105-109 | when only the product overflows, the guard stores a permanent ban if and only if product / 2^63 is odd; otherwise the stored duration is shorter than intended |
| `Escalation.PowerOutOfRange` | src/dnf2b/data/BanManager.cpp:101-109 | once the power leaves an int64, an odd period gives a permanent ban and an even one a ban of zero seconds |
| `Escalation.FirstOverflowCaught` | src/dnf2b/data/BanManager.cpp:105-109 | with an increment of one or two the first overflowing duration always becomes a permanent ban |
| `Escalation.OverflowGuardMisses` | src/dnf2b/data/BanManager.cpp:98-114 | a concrete run, with a period of two weeks and an increment of 2 * 10^13: the second ban, taken two weeks after the first, stores a wrapped duration |
| `Escalation.PermanentBanOnce` | src/dnf2b/data/BanManager.cpp:98-114 | with a negative period, whatever bouncers are loaded, each bans an IP at most once in any run, and its row stays, without a duration |
| `BanHistory.RecordedInLog` | src/dnf2b/data/BanManager.cpp:75-93 | the bans the theorems speak of are those `log` itself decides on, with its bouncer and time |
| `LedgerAgreement.CacheTracksRows` | src/dnf2b/data/BanManager.cpp:126-130 | for any loaded bouncers and any clock, after every run a cached record carries the stored ban count and its fails fall into exactly the stored seconds, if it did so before |
| `LedgerAgreement.CacheCoherent` | src/dnf2b/data/BanManager.cpp:75-130 | with one loaded bouncer, in every reachable state a cached IP has no ban row, its cached count equals IPRegistry's, its cached fail seconds equal its FailRegistry rows; a banned IP has neither cache entry nor fail rows, and a positive count |
| `LedgerAgreement.BouncerAgrees` | src/dnf2b/data/BanManager.cpp:134-167 | in every reachable state every blocked IP has a ban row; once bans have been reloaded, a row whose IP is not blocked has expired |
| `LedgerAgreement.CleanupRestoresEquality` | src/dnf2b/data/BanManager.cpp:150-167 | in every reachable state a cleanup leaves exactly the rows the reban query selects, and once bans have been reloaded the blocked IPs are then exactly the banned ones |
| `LedgerAgreement.DurationsNeverNegative` | src/dnf2b/data/BanManager.cpp:98-114 | for any loaded bouncers and any clock, after every run from a ledger without negative durations there is none, and at every time the pending and the reban query split BanRegistry exactly and disjointly |
| `LedgerAgreement.StartOrderly` | src/dnf2b/data/BanDB.cpp:10-41 | an empty database meets what these results ask of the start |
| `LedgerAgreement.NextSound` | src/dnf2b/core/Daemon.cpp:97-113 | the invariant behind these results is kept by every step of the ledger at a later or equal time |
| `Tables.QueriesPartition` | src/dnf2b/data/BanDB.cpp:169-219 | the pending and the reban query never overlap, and together select all of BanRegistry if and only if no stored duration is negative |
| `Tables.PendingStaysPending` | src/dnf2b/data/BanDB.cpp:169-219 | as time grows due bans stay due, running ones only become fewer, and a NULL duration is never due |
| `Tables.UpdateThenLoad` | src/dnf2b/data/BanDB.cpp:74-143 | loading after an update returns the written record, up to repeated fail times, if and only if the record covers every fail time and bouncer already stored for the IP; every other IP loads as before |
| `LedgerView.LogOneViews` | src/dnf2b/data/BanManager.cpp:56-131 | one iteration of `log` changes only its own IP's counts, fails, bans, cache entry and blocks, and its outcome depends on these alone |
| `LedgerView.RunViews` | src/dnf2b/data/BanManager.cpp:55-167 | a whole run acts on each IP's share as if no other IP existed |
| `StrikePool.FirstBanWhenDue` | src/dnf2b/data/BanManager.cpp:70-93 | from any state in which an IP's record names no ban, with any bouncers loaded and any clock, up to the next restart: its strikes are those it had plus everything any watcher reported, whatever the bouncers, and its next ban comes exactly with the first report whose pooled count reaches that report's own limit, through that report's bouncer |
| `StrikePool.NextBanWhenDue` | src/dnf2b/data/BanManager.cpp:70-93 | the same from any state at all, counting only the reports for a bouncer that does not ban the IP already by its record |
| `StrikePool.UnbannedNamesNone` | src/dnf2b/data/BanManager.cpp:75-130 | with one loaded bouncer, in every reachable state the record names no ban if and only if there is no ban row |
| `StrikePool.ReachedMeans` | src/dnf2b/data/BanManager.cpp:87 | the mixed signed and unsigned threshold test is the plain comparison for every `int` limit, so a limit of zero or less bans at once |
| `StrikePool.RestartLowersStrikes` | src/dnf2b/data/BanDB.cpp:20-24 | for any loaded bouncers, after every run a restart leaves an IP its distinct fail seconds: never more strikes than before, and as many if and only if no second occurred twice |
| `StrikePool.RestartForgets` | src/dnf2b/data/BanDB.cpp:20-24 | one report of two messages is two strikes, and one after a restart |
| `StrikePool.WhitelistedUntouched` | src/dnf2b/data/BanManager.cpp:62-68 | for any loaded bouncers and from any ledger, no run adds anything for a whitelisted IP to cache, tables or bouncers, save blocking it for a ban row it already had |
| `LedgerOrder.LogsCommute` | src/dnf2b/data/BanManager.cpp:55-132 | iterations for two different IPs, from any watchers at any times and with any bouncers loaded, give the same ledger in both orders |
| `LedgerOrder.ReportOrderIrrelevant` | src/dnf2b/data/BanManager.cpp:55-132 | every walk through a report that takes its IPs at the same times leaves the same ledger when the watcher's bouncer is loaded |
| `LedgerOrder.LoadedNeverThrows` | src/dnf2b/data/BanManager.cpp:80-91 | with the watcher's bouncer loaded, `log` handles every IP of a report and never throws |
| `Folds.OrderIrrelevant` | src/dnf2b/data/BanManager.cpp:56 | any two walks over the same distinct elements agree when the steps for different elements commute |
| `TwoBouncers.BackedUnlessStale` | src/dnf2b/data/BanManager.cpp:75-83 | for any number of bouncers, `log` leaves every block of the IP backed by a row if and only if it does not trust a stale cached ban |
| `TwoBouncers.BackedThroughout` | src/dnf2b/data/BanManager.cpp:75-83 | for any loaded bouncers, all through a run every block of an IP is backed by a row if and only if no report in it trusts a stale cached ban |
| `TwoBouncers.BlockedWithoutRow` | src/dnf2b/data/BanManager.cpp:126-130 | a concrete run from an empty database with two bouncers that ends with an IP blocked, no row for it, and no cleanup to lift it |
| `BanDatabase.BanDB.LoadIp` | src/dnf2b/data/BanDB.cpp:74-107 | returns the IP's stored count or zero, each of its fail times once, and its bans by bouncer |
| `BanDatabase.BanDB.UpdateIp` | src/dnf2b/data/BanDB.cpp:109-143 | the rows afterwards are the old ones with the count replaced, the fail times added, and the bans inserted or replaced |
| `BanDatabase.BanDB.WipeFailsFor` | src/dnf2b/data/BanDB.cpp:55-62 | removes exactly the IP's fail rows |
| `BanDatabase.BanDB.IsBanned` | src/dnf2b/data/BanDB.cpp:64-72 | true if and only if the IP's bans include the bouncer |
| `BanDatabase.BanDB.UnbanAll` | src/dnf2b/data/BanDB.cpp:157-167 | removes exactly the listed rows from BanRegistry |
| `BanDatabase.BanDB.GetPendingUnbans` | src/dnf2b/data/BanDB.cpp:169-193 | lists exactly the rows whose non-NULL, non-negative duration, counted from their start, has ended by now, each once, with its port |
| `BanDatabase.BanDB.GetBannedMinusPendingUnbans` | src/dnf2b/data/BanDB.cpp:194-219 | lists exactly the rows without a duration and those whose non-negative duration, counted from their start, ends later than now, each once, with its port |
| `BanManagement.BanManager.GetIpInfo` | src/dnf2b/data/BanManager.hpp:39-44 | the cached record if there is one, else the stored one |
| `BanManagement.BanManager.LogEntry` | src/dnf2b/data/BanManager.cpp:57-131 | one iteration of `log` performs exactly the ledger step, and says whether the missing bouncer made it throw |
| `BanManagement.BanManager.Punish` | src/dnf2b/data/BanManager.cpp:87-130 | the banning branch leaves the ledger of a ban: blocked, fails wiped, cache entry gone, row with the int64 duration, count one higher |
| `BanManagement.BanManager.Remember` | src/dnf2b/data/BanManager.cpp:126-130 | the other branch leaves the ledger of a strike: record cached and stored |
| `BanManagement.Restarted` | src/dnf2b/data/BanManager.cpp:17-53 | a manager built again over the same database starts with its rows and nothing cached or blocked |
| `BanManagement.BanManager.Log` | src/dnf2b/data/BanManager.cpp:55-132 | a report, with one clock reading for each IP, leaves the ledger of a run of one step for each IP taken: all of them, or up to the first that throws; with a loaded bouncer none throws and it leaves the ledger of every walk |
| `BanManagement.BanManager.LoadRebans` | src/dnf2b/data/BanManager.cpp:134-148 | blocks exactly the IPs of the reban query for the loaded bouncers, changes nothing else |
| `BanManagement.BanManager.CheckUnbansAndCleanup` | src/dnf2b/data/BanManager.cpp:150-167 | unblocks exactly the due IPs for the loaded bouncers and removes exactly the due rows, loaded or not; due are the rows of the pending query, which in every run are those of bans that are over (`BanHistory.CleanupLiftsOver`) |
| `BufferIsolation.Isolation` | src/dnf2b/data/MessageBuffer.cpp:9-155 | two runs: deleting the messages of all other processes from any run leaves a process's hold, known IP, part of the batch and caught messages unchanged |
| `BufferIsolation.InterleavingIrrelevant` | src/dnf2b/data/MessageBuffer.cpp:9-155 | two interleavings that give a process the same messages in every batch treat it the same |
| `BufferHistory.CacheIsWindow` | src/dnf2b/data/MessageBuffer.cpp:79-138 | in every reachable buffer a process is cached if and only if its latest registration is fewer than five cycles old, with that registration's IP and exactly its age |
| `BufferHistory.LatestMeans` | src/dnf2b/data/MessageBuffer.cpp:125-138 | the latest registration of the history is the one at the last index that names the process, aged by the finished cycles behind it |
| `BufferHold.HoldConserved` | src/dnf2b/data/MessageBuffer.cpp:23-155 | over every run, what was ever put on hold for a process is, in order, what was taken off followed by what is still held |
| `BufferHold.LoadReleases` | src/dnf2b/data/MessageBuffer.cpp:9-21 | loading adds to a process's part of the batch exactly its messages and, at the first that brings an IP, everything on hold; its hold is then empty, and untouched when no message brings an IP |
| `BufferHold.LoadedShape` | src/dnf2b/data/MessageBuffer.cpp:140-155 | released messages keep their order, carry the IP that freed them, and directly precede the message that brought it |
| `BufferHold.HeldIsRecent` | src/dnf2b/data/MessageBuffer.cpp:95-107 | after any steps with five finished cycles, whatever a process still has on hold was put there during these steps |
| `BufferWaiting.HoldAge` | src/dnf2b/data/MessageBuffer.cpp:95-107 | in every reachable buffer a process has messages on hold exactly while its hold is open, and the counter is the number of cycles finished since it was opened |
| `BufferWaiting.ExpiresInFifth` | src/dnf2b/data/MessageBuffer.cpp:102-107 | a cycle drops what a process has on hold if and only if it is the fifth finished since the hold was opened |
| `BufferProvenance.Provenance` | src/dnf2b/data/MessageBuffer.cpp:9-77 | over every run, a caught message's IP came with a loaded message of its own process or was captured by a filter from the text of one |
| `BufferProvenance.ReportSound` | src/dnf2b/data/MessageBuffer.cpp:47-76 | what `forward` files under an IP carries that IP, which is non-empty and valid; no entry is empty and no caught message is lost, added or misfiled |
| `BufferInterchange.ProcessApart` | src/dnf2b/watcher/Watcher.cpp:21-44 | with the cache off, `process` catches under every IP, as a multiset, what each message taken alone through all filters is caught with |
| `BufferInterchange.ProcessSplits` | src/dnf2b/watcher/Watcher.cpp:21-44 | with the cache off, the report of two batches in one is, for every IP, the sum of their reports |
| `Buffering.MessageBuffer.Load` | src/dnf2b/data/MessageBuffer.cpp:9-21 | the loop leaves hold, cache and batch as `Buffer.Load` does |
| `Buffering.MessageBuffer.RegisterAndFree` | src/dnf2b/data/MessageBuffer.cpp:140-155 | appends the held messages of the process under the new IP, in order, empties its hold and caches the IP; does nothing with the cache off |
| `Buffering.MessageBuffer.RegisterMessage` | src/dnf2b/data/MessageBuffer.cpp:125-138 | caches the IP of the process with age zero, unless the cache is off |
| `Buffering.MessageBuffer.TryLoadIp` | src/dnf2b/data/MessageBuffer.cpp:116-123 | gives the message its process's cached IP, if there is one |
| `Buffering.MessageBuffer.Forward` | src/dnf2b/data/MessageBuffer.cpp:23-77 | the loop that rewrites the batch in place leaves the buffer of one sweep and files exactly the caught messages by IP, in order; every message of the batch has met the outcome of `BufferOutcome.SweepOneOutcome` on the way |
| `BufferOutcome.ForwardOutcomes` | src/dnf2b/data/MessageBuffer.cpp:23-77 | `forward` takes every message of the batch in turn, at the buffer the ones before it left, with the outcome of `SweepOneOutcome` |
| `BufferOutcome.SweepOneOutcome` | src/dnf2b/data/MessageBuffer.cpp:26-73 | the first pattern that hits decides: under its capture, or the message's own IP if it captures none, the message is caught when that is a valid IP; only when it is empty, and with the cache on, under the process's known IP if valid; with none known it joins the process's hold; in all other cases nothing happens |
| `BufferBatch.ProcessCatchesGiven` | src/dnf2b/watcher/Watcher.cpp:21-44 | a call of `process` catches, filter by filter, only messages it was given and messages its load took off hold, each at most once for each filter, and leaves the batch empty |
| `BufferBatch.CaughtOfGiven` | src/dnf2b/watcher/Watcher.cpp:21-44 | so it catches messages only of the processes it was given messages of |
| `BufferBatch.DoneEmpties` | src/dnf2b/data/MessageBuffer.cpp:79-83 | after every run that ends a cycle the batch is empty, cache on or off |
| `BufferBatch.LoadedAsGiven` | src/dnf2b/data/MessageBuffer.cpp:9-21 | with the cache off the messages enter the batch just as they came |
| `Buffering.MessageBuffer.Done` | src/dnf2b/data/MessageBuffer.cpp:79-114 | empties the batch, cache on or off; with the cache on it ages every entry by one and drops exactly those that reach five, with the cache off it leaves them |
| `Watching.Merge` | src/dnf2b/watcher/Watcher.cpp:30-37 | merging appends, for every IP of either report, the second list to the first |
| `Watching.MergeGroups` | src/dnf2b/watcher/Watcher.cpp:28-38 | merging the reports of two lists is the report of their concatenation |
| `Watching.Process` | src/dnf2b/watcher/Watcher.cpp:21-44 | returns, for every IP, the concatenation over the filters in order of what each caught, and leaves the buffer after the cycle |
| `Watching.ProcessIsRun` | src/dnf2b/watcher/Watcher.cpp:21-44 | a call of `process` is a run of the buffer, so the theorems on runs hold for every sequence of calls |
| `Pipeline.StrikesPositive` | src/dnf2b/data/BanManager.cpp:57-61 | in a merged report no IP has zero messages, so the zero-fails branch is unreachable; each IP's strikes are the number of messages caught under it, and none goes uncounted |
| `Pipeline.Polled` | src/dnf2b/core/Daemon.cpp:135-145 | a watcher with a process sees exactly that process's messages, each as often as polled and in order, of a parser that serves several; any other sees the whole poll |
| `Pipeline.ShareSees` | src/dnf2b/core/Daemon.cpp:135-145 | the messages are those at all places of the poll with the watcher's process, in order and no others; for another watcher or parser they are the poll |
| `Pipeline.OwnProcessOnly` | src/dnf2b/core/Daemon.cpp:135-147 | in the turn of a watcher of one process, on a parser that serves several, nothing of another process is caught |
| `Pipeline.Turn` | src/dnf2b/core/Daemon.cpp:135-151 | one turn leaves the buffer of `process` and the ledger of a run with one step for each IP caught, whatever their order; nothing caught, nothing logged |
| `Turns.Serve` | src/dnf2b/core/Daemon.cpp:131-151 | one poll of a file leads to a turn of each of its watchers, until one throws; the buffer and the ledger end where the steps of these turns lead, and without messages nothing happens |
| `Turns.ThreadReportsCaught` | src/dnf2b/core/Daemon.cpp:123-158 | over any turns of a file's thread, what its steps report about an IP is, turn by turn, the number of messages caught under it |
| `Turns.BannedByTurn` | src/dnf2b/core/Daemon.cpp:97-158 | from any ledger in which an IP's record names no ban, with any bouncers, buffers and clock, and for every interleaving, step by step, of the files' threads with the unban monitor, up to the next restart: the next ban of the IP comes exactly with the first report that brings the pool shared by all watchers to its own watcher's limit, and the reports pooled are, file by file, what the turns catch under the IP |
| `Filters.CheckMessage` | src/dnf2b/filters/Filter.cpp:50-81 | the loop returns the result and resume index of `Check`, which are the answer of `CheckAnswers` |
| `Filters.CheckedAtFirstHit` | src/dnf2b/filters/Filter.cpp:50-81 | the result is that of the first matching pattern at or behind the start; only a match with an IP moves the index |
| `Filters.CheckAnswers` | src/dnf2b/filters/Filter.cpp:50-81 | from the patterns alone: at the first that hits, a captured IP goes before the message's own and only an IP moves the index; a captured empty IP, or none for a message without one, is an error; without a hit there is no result |
| `Filters.KindsMean` | src/dnf2b/filters/Filter.cpp:57-69 | which patterns match with an IP and which without, by what they capture and the message's own IP |
| `Filters.TestFilter` | src/dnf2b/cli/Tester.cpp:48-59 | the tester's loop ends, never indexes outside the patterns, and prints `Printed` |
| `Filters.PrintedIsMatching` | src/dnf2b/cli/Tester.cpp:48-59 | it prints exactly the matching patterns, ascending and once each, if and only if every match without an IP stands at the start or directly behind another match |
| `Filters.WrongPatternNamed` | src/dnf2b/cli/Tester.cpp:48-59 | a concrete filter on which the tester also prints a pattern that does not match |
| `Filters.PrintedWithOwnIp` | src/dnf2b/cli/Tester.cpp:48-59 | in particular it prints just those for a message that carries an IP, when no pattern captures an empty one |
| `Placeholder.FindMeans` | src/dnf2b/filters/Filter.cpp:37 | the search finds the leftmost placeholder at or behind the position, or there is none |
| `Placeholder.ReplaceAll` | src/dnf2b/filters/Filter.cpp:36-41 | the in-place find and replace loop ends and equals cutting at the placeholders and joining with the group |
| `Placeholder.Substitute` | src/dnf2b/filters/Filter.cpp:33-45 | the same for dnf2b's own placeholder and IP group |
| `Placeholder.FilledInTurn` | src/dnf2b/static/Constants.hpp:18 | behind text without a placeholder the next `${dnf2b.ip}` becomes `(?<IP>\S+)` and the rest is filled likewise; a text without one stays as it is |
| `Placeholder.PiecesCut` | src/dnf2b/filters/Filter.cpp:36-41 | joining the pieces with the placeholder gives the pattern back: it is cut at placeholders only |
| `Placeholder.PiecesFree` | src/dnf2b/filters/Filter.cpp:36-41 | no piece contains a placeholder |
| `Placeholder.NothingLeft` | src/dnf2b/static/Constants.hpp:18 | after the substitution no placeholder is left, not even across a seam |
| `Placeholder.Idempotent` | src/dnf2b/filters/Filter.cpp:36-41 | substituting twice is substituting once |
| `FileParsing.PollingReadsOnce` | src/dnf2b/sources/FileParser.cpp:20-61 | for every way of cutting a file's growth into polls, one line more than the file has is read per line torn; the lines read are those of the file, once each and in order, if and only if none is torn |
| `FileParsing.LinesSplit` | src/dnf2b/sources/FileParser.cpp:38 | reading in two goes gives the lines of one go, or exactly one more when the cut falls inside a line |
| `FileParsing.EachLineParsed` | src/dnf2b/sources/FileParser.cpp:38-47 | the messages are what the pattern makes of each line it takes, once each and in order, and only the other lines are skipped |
| `FileParsing.PartLineTorn` | src/dnf2b/sources/FileParser.cpp:38-59 | a line polled when part of it is written is read as two |
| `FileParsing.ReadFromStart` | src/dnf2b/sources/FileParser.cpp:20-47 | a poll finds the lines of the whole file if and only if the cursor is zero or the file is empty |
| `FileParsing.ShorterFileSkipped` | src/dnf2b/sources/FileParser.cpp:22-59 | what is written to a wiped file before the next poll is never read if it is no longer than what was read before |
| `FileParsing.FileParser.Poll` | src/dnf2b/sources/FileParser.cpp:9-62 | a poll parses exactly the lines behind the cursor, none if the file is shorter than that, and moves the cursor to the end; a file that cannot be opened yields nothing and makes the next poll start over |
| `FileParsing.FileParser.Follow` | src/dnf2b/sources/FileParser.cpp:9-62 | the messages of all polls together are the parse of what each found behind the cursor; for a file that only grows, and no torn line, the parse of the whole file |

## Left out

- `isWhitelisted` internals: a predicate on IPs.  Subnet tests are asio's, and the branch for IPv6
  networks skips IPv6 addresses instead of IPv4 ones (`BanManager.cpp:211-214`), so its CIDR meaning
  is not claimed.
- Thread interleavings inside one step: every iteration of `log`, every reload and every cleanup is
  atomic, and steps of different threads may come in any order.  The cache has no lock in the code, so
  finer interleavings are not covered.
- The clock: where times matter it never runs backwards.
- LedgerAgreement.CacheCoherent: its ban-row halves are for one loaded bouncer, to which all watchers report, because with two they are false; `TwoBouncers` states what happens there.
- LedgerAgreement.BouncerAgrees: for one loaded bouncer, for the same reason.
- Escalation.EscalationBound: for one loaded bouncer, because with several the durations of one depend on the bans of all (`EveryBouncerEscalates` is what remains); a ban beyond the range is left to `BansRecorded`, because there a wrapped duration can be stored.
- StrikePool.FirstBanWhenDue: up to the next restart, where `RestartLowersStrikes` takes over.
- Turns.BannedByTurn: up to the next restart, and for watchers whose bouncer is loaded; through one that is not, a report that is due throws.
- Ban increments below one: of the results on ban times only `BansRecorded`, `BansInTurn` and `PermanentBanOnce` speak of them.
- Databases that do not start empty, where a result speaks of reachable states, and a configuration
  that changes between restarts.
- `std::pow` in floating point: the power is an exact integer; a double rounds from 2^53 on.  The cast
  of a double outside int64 yields the smallest value, as x86-64 does, and signed overflow of the
  product wraps; C++ defines neither.
- Fail times pass through `double` and are exact below 2^53 seconds.
- Row order of SQL results: `currFails` is a multiset, nothing reads its order.
- Bouncer commands: a bouncer is a set of IPs and adding or removing an IP succeeds.  Ports are
  carried in the rows but play no part.  `IPTableBouncer` is not modelled.
- The second test for an existing ban (`BanManager.cpp:94-96`): unreachable behind the first.
- `forgiveFails`, `forgetAfter`, `stats`, `persistentBans`: never called, or without effect on this behaviour.
- The ban count and cycle counters are unbounded; `BanCountFits` bounds the first, five the others.
- PCRE2, `inet_pton`, date parsing, JSON, SQLite's engine and logging: a pattern is a function from
  text to match, address validity a predicate, a line parser a function.
- `inet_pton` with an address family it does not know: the code passes only the two it does.
- Growth of a file during a poll.  Seeking behind the end of a file may fail or not; both are modelled.
- `parseConfigToSeconds`: the ledger is modelled for every period it can return.
- `JournalCTLParser`, `ReadStateDB`, the loaders, filter path lookup, `FilterWizard`, `Main`, output.
