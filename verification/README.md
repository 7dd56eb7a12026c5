# liquid-formula: verified models

liquid-formula feeds sing-box clients. A Go service fetches a node subscription and a set of templates, keeps the last
good generation of both on disk and in memory, and serves configurations from it. Beside it run two C packet tools,
FakeHTTP and FakeSIP, that send decoy packets and steer traffic to themselves with firewall rules. This project states
what the state machines, transactions, parsers and in-place algorithms of these programs are for, and proves it.

Code that changes things step by step is modelled by methods with loops over arrays, classes and linked nodes, each
proved against a specification function; concurrent protocols are step functions over all interleavings, with an
invariant that every step keeps.

| area | modules |
|---|---|
| Multi-file cache transaction | `Disk`, `Batch` |
| Server lifecycle: supervisor, what its calls return, and the server that meets its contract | `Lifecycle`, `Ranks`, `Supervisor`, `Calls`, `Server` |
| Generations: files first, snapshot second, one writer at a time | `CachePath`, `Generation`, `Interrupted`, `History`, `Handler`, `RefreshManager` |
| File watcher: one timer for many debounced paths | `Names`, `Watcher` |
| Template rewriting | `Template`, `TemplateSpans` |
| URI lists and unique tags | `Decimal`, `Subscription` |
| Decoy payloads: ring, TLS ClientHello and the parser that reads it | `PayloadRing`, `TlsHello`, `TlsParser` |
| Packets: Fast Open removal, peers seen, TTL, ports | `TcpOptions`, `Srcinfo`, `Ttl`, `Portmap` |
| Firewall: crash-safe setup, and two backends with one policy | `Runs`, `Chains`, `Iptables`, `Nftables`, `Nfrules`, `FirewallPolicy` |

`Wrappers` holds the shared value types. `dafny verify dfyconfig.toml` verifies everything.

## How failures and concurrency appear

- A disk operation may fail at any time (`Disk.Disk`). `log` records the disk after every single operation, so a
  statement about all of `log` is one about a crash after any of them. `failures` records every operation that failed,
  reads included, and `Handler.setbacks` counts failed fetches and ended contexts: "when nothing fails" says that neither
  has grown.
- `Handler` keeps, besides, every publication of a snapshot and every failed restore, with how far the disk's log was at
  that moment. A failed restore is noted exactly when a failed commit leaves some cached file other than it was. Both
  together are the script of a refresh (`History.Script`): each disk operation and the publication, in the order in which
  they happened. `RefreshManager` runs such scripts under every interleaving of callers and readers.
- A firewall command may be refused, may not be started, or may succeed without its success being seen. A kernel
  (`Chains.Kernel`, `Nftables.NftKernel`) notes the fate of each command in `fates` and the table after it in `log`. What
  a setup or a cleanup does is a list of orders, and `Runs.Play` is what such a list makes of a table for any fates: it
  stops at the first failure of a checked command, and is cut off where the fates end, which is where a process dies.
  The methods are proved to carry out exactly their orders, step for step (`Runs.Went`), and the properties are proved of
  `Play`, for every sequence of fates. No faults means that every fate is `Tried`.
- Fetches, foreign libraries and the moment a context ends are arbitrary values or functions.
- Threads are program counters; every mutex operation, channel operation, once-guard and wait is a step of its own.

## Where the code does not do what it is for

- Template names become cache file names by joining them to the cache directory
  (`openwrt-feed/liquid-formula/src/global/config.go:216-224`), without a check that two of them differ. Names with
  slashes can end in one file, such as `a` and `x/../template_a` (`CachePath.DetoursCollide`), and so can a template and
  the node file, when `node_file` is `template_a.json`. Refreshing such a template on demand publishes a snapshot that the
  files on disk do not give (`Generation.DetourSplitsGenerations`, `Generation.NodeFileSplitsGenerations`).
  `Generation.OnDemandAgreement` gives the exact condition, and `Config.OwnPath` is what the configuration has to meet:
  for names without slashes, exactly that the node file is not named like an enabled template's
  (`Generation.PlainNamesOwnPaths`). A full refresh never succeeds with colliding names (`Handler.Handler.RefreshAll`).
- A process that dies while a full refresh replaces the cached files leaves the new bytes up to some point of their order,
  node list first, and the old ones behind it; the next start publishes what that gives. It can be neither the old
  generation nor the new one (`Interrupted.InterruptedMixesGenerations`); `Interrupted.InterruptedRefresh` says exactly
  what it can be. Every old content still exists in a backup (`Batch.Batch.Commit`), but no code looks for it.
- iptables reads a device name that ends with a plus as a pattern, nft one that ends with an asterisk; the tool passes
  names through unchanged. With `ppp+` a connection that `ppp0` opens is queued by iptables and not by nft
  (`FirewallPolicy.PppSplits`). The two backends treat all packets alike if and only if every pattern of either kind has
  one of the other kind that is at least as wide (`FirewallPolicy.AgreementIsBalance`, for lists of up to 68 names, of the
  length that main accepts); `FirewallPolicy.BackendsAgreeOnPacket` is exact for each packet and any list.
- A port specification is read by `strtoul` with base 0, so a leading zero means octal and a prefix 0x hexadecimal: `010`
  opens port 8, and `08` is refused. A string of digits is read as the decimal number it shows if and only if it has no
  leading zero, or is below 8, or is out of range in either reading (`Portmap.ReadAsDecimal`).
- The Fast Open loop walks on past an end-of-options byte, where a receiver stops. In the option area `0, 34, 4, 7, 7` no
  receiver reads any option, and the last four bytes are erased (`TcpOptions.BytesBehindTheListAreErased`). Only bytes of
  Fast Open options that a receiver reads change if and only if the loop would meet none behind the end of the list
  (`TcpOptions.ErasesOnlyReadOptions`); what receivers do read is as it should be in any case
  (`TcpOptions.ReceiverSeesOthersUnchanged`).
- An empty host name is accepted by the ClientHello builder, but no receiver reads it back (`TlsParser.NameReadBack`).

## Model

| member | source | states |
|---|---|---|
| `Batch.Batch.Stage` | openwrt-feed/liquid-formula/src/internal/cache/batch.go:62-110 | A staged candidate is complete, validated and recorded under its destination; a closed batch and a second use of a destination are refused; no other file ever differs. When no operation fails, valid data for a new destination is staged, and invalid data is what is refused. |
| `Batch.Batch.WriteStage` | openwrt-feed/liquid-formula/src/internal/cache/batch.go:78-106 | Only temporary files made since it began are touched, at every moment; success leaves exactly the data. |
| `Batch.Batch.CreateBackup` | openwrt-feed/liquid-formula/src/internal/cache/batch.go:240-271 | A returned backup is a new file with the exact contents of its source; a failure touches only new temporary files. |
| `Batch.Batch.BackUpAll` | openwrt-feed/liquid-formula/src/internal/cache/batch.go:121-139 | When no operation fails it succeeds if and only if every destination is missing or a regular file; then every existing destination has a backup. Nothing is replaced. Every intermediate disk is safe, and its configured files are the old ones. |
| `Batch.Batch.ReplaceAll` | openwrt-feed/liquid-formula/src/internal/cache/batch.go:141-147 | Renames stage after stage, in the order of staging: every intermediate disk is safe and holds the new contents up to some destination and the old ones behind it; on success every entry is replaced and no stage is left. |
| `Batch.Batch.Install` | openwrt-feed/liquid-formula/src/internal/cache/batch.go:121-150 | Up to the commit point every disk is safe, and success means all entries are replaced. |
| `Batch.Batch.RestoreItem` | openwrt-feed/liquid-formula/src/internal/cache/batch.go:193-208 | Undoes one replacement by one operation, or leaves the entry marked with that operation among the failures. |
| `Batch.Batch.Rollback` | openwrt-feed/liquid-formula/src/internal/cache/batch.go:186-214 | Entries stay replaced only if the operation that would have undone them failed, and none does when nothing fails; every intermediate disk is safe, and, unless an entry that makes a difference stays replaced, holds the new contents up to some destination only. |
| `Batch.Batch.CleanItem` | openwrt-feed/liquid-formula/src/internal/cache/batch.go:218-235 | Deletes the stage, and the backup unless the entry is left replaced; forgets only what is gone. |
| `Batch.Batch.CleanupTransactionFiles` | openwrt-feed/liquid-formula/src/internal/cache/batch.go:216-238 | Removes at most the batch's own stages and the backups nobody needs, and when nothing fails all of these; a failed restore keeps its backup; with nothing to remove it changes nothing. |
| `Batch.Batch.Fail` | openwrt-feed/liquid-formula/src/internal/cache/batch.go:180-184 | Every destination is as before the commit except those whose own restore failed, and of these each that existed has a backup with its exact old contents. |
| `Batch.Batch.DropBackups` | openwrt-feed/liquid-formula/src/internal/cache/batch.go:152-163 | After the commit point every disk has all new contents in place, whatever removal fails. |
| `Batch.Batch.Replace` | openwrt-feed/liquid-formula/src/internal/cache/batch.go:121-164 | The states before the commit point are all safe, those from it on all have every new content installed. |
| `Batch.Batch.Commit` | openwrt-feed/liquid-formula/src/internal/cache/batch.go:115-165 | All or nothing for any pattern of failures: success installs every staged content; failure restores every destination except those whose own restore failed, each of which keeps a backup of what it held; every disk before the commit point loses nothing, and no path outside the transaction ever changes. When no operation fails, it succeeds if and only if every destination is missing or a regular file, and otherwise leaves all as it was. When it succeeds or leaves the destinations as they were, every disk in between holds the new contents up to some destination and the old ones behind it. |
| `Batch.Batch.Abort` | openwrt-feed/liquid-formula/src/internal/cache/batch.go:169-178 | Touches only stages and backups that nobody needs, never a destination or a backup that a failed restore depends on. It forgets only files that are gone, takes up none, and keeps the records of failed restores, so later Aborts can remove only what this one could not; when nothing fails it removes all; after a clean commit, or after an Abort that removed all, it changes nothing. |
| `Batch.TxnOkIsSafe` | openwrt-feed/liquid-formula/src/internal/cache/batch.go:121-151 | Whenever the batch's records agree with the disk, each destination holds its full old or full staged contents and every old content still exists. |
| `Batch.CleanupIsSafe` | openwrt-feed/liquid-formula/src/internal/cache/batch.go:226-235 | Deleting any part of what a cleanup may delete leaves every old content recoverable. |
| `Batch.CleanupOutcome` | openwrt-feed/liquid-formula/src/internal/cache/batch.go:180-184 | What the rollback left standing is what the failed commit leaves standing after its cleanup. |
| `Batch.CommitKeptOrLost` | openwrt-feed/liquid-formula/src/internal/cache/batch.go:180-214 | After a failed commit every configured file is as it was, or the very operation that would have restored it failed and what it held is kept in the file that operation would have taken it from, which no cleanup may remove. |
| `Batch.KeptByCleanup` | openwrt-feed/liquid-formula/src/internal/cache/batch.go:216-238 | Removing what may be removed takes nothing of that away. |
| `Batch.CleanedShrinks` | openwrt-feed/liquid-formula/src/internal/cache/batch.go:216-238 | A cleanup leaves fewer files to remove, and the backups of failed restores where they are. |
| `Batch.RecordedIsDone` | openwrt-feed/liquid-formula/src/internal/cache/batch.go:141-147 | Entries replaced in order mean new contents up to that destination and the old ones behind it. |
| `Batch.UndoneOneMore` | openwrt-feed/liquid-formula/src/internal/cache/batch.go:191-208 | Undoing from the last entry to the first keeps that, unless an entry that makes a difference is left replaced. |
| `Batch.CleanStep` | openwrt-feed/liquid-formula/src/internal/cache/batch.go:216-238 | Cleaning one entry disturbs no other entry's files. |
| `Supervisor.AtMostOneLive` | openwrt-feed/liquid-formula/src/cmd/server_supervisor.go:69-167 | In every interleaving at most one started server is not yet ended and observed. |
| `Supervisor.FactoryRunsDrained` | openwrt-feed/liquid-formula/src/cmd/server_supervisor.go:89-118 | The server factory runs, whether it succeeds or fails, only when all earlier servers have ended and been observed, the supervisor is open, and no finish has begun. |
| `Supervisor.StartsOnlyAfterDrain` | openwrt-feed/liquid-formula/src/cmd/server_supervisor.go:89-118 | So a server is started only then, one at a time. |
| `Supervisor.ErrStableAfterDone` | openwrt-feed/liquid-formula/src/cmd/server_supervisor.go:122-134 | Once Done is closed the error never changes and no server is ever started again. |
| `Supervisor.TerminalIsFinal` | openwrt-feed/liquid-formula/src/cmd/server_supervisor.go:177-184 | From the moment a finish has begun, the error and the number of servers are fixed. |
| `Supervisor.NilResultMeansAllWell` | openwrt-feed/liquid-formula/src/cmd/server_supervisor.go:138-167 | A nil result implies that every server ever started ended without error, and so did every shutdown the supervisor issued. |
| `Supervisor.ShutdownReturnsDrained` | openwrt-feed/liquid-formula/src/cmd/server_supervisor.go:136-159 | After any Shutdown returns nothing is live and nothing is ever started again; all Shutdown callers get the same error. |
| `Supervisor.ClosedForGood` | openwrt-feed/liquid-formula/src/cmd/server_supervisor.go:139-155 | After the shutdown is complete no step of anyone changes the servers or the results. |
| `Supervisor.NoDeadlock` | openwrt-feed/liquid-formula/src/cmd/server_supervisor.go:69-184 | While any call has not returned, a goroutine can move, or a server that was asked to stop has yet to end, or the call only watches a running server. |
| `Supervisor.ShutdownReturns` | openwrt-feed/liquid-formula/src/cmd/server_supervisor.go:136-159 | Every Shutdown returns: without new calls a run has at most as many steps as its rank says, and until the call has returned it can always go on, whoever moves when. |
| `Supervisor.ShutdownCanReturn` | openwrt-feed/liquid-formula/src/cmd/server_supervisor.go:136-159 | From every reachable state with a pending Shutdown there is a run without new calls in which it returns. |
| `Supervisor.StepCounts` | openwrt-feed/liquid-formula/src/cmd/server_supervisor.go:69-184 | Every step but a new call lowers the rank, the watchers and servers that a Reload starts included. |
| `Supervisor.StepKeeps` | openwrt-feed/liquid-formula/src/cmd/server_supervisor.go:69-184 | Every step of Reload, Shutdown, watch and finish keeps the invariant over mutex, once-guards, ownership and errors. |
| `Supervisor.ExecKeeps` | openwrt-feed/liquid-formula/src/cmd/server_supervisor.go:69-184 | So does every run. |
| `Supervisor.NothingPending` | openwrt-feed/liquid-formula/src/cmd/server_supervisor.go:99-104 | With the mutex held, no instance in hand and no error recorded, nobody is inside finish: the check before a start cannot be overtaken. |
| `Calls.CallsFit` | openwrt-feed/liquid-formula/src/cmd/server_supervisor.go:69-184 | Where a call stands tells what it has come upon, in order: a Reload loads its candidate before it asks the current server to stop, has the answer before it runs the factory, and makes current what the factory gave. |
| `Calls.ReloadAnswers` | openwrt-feed/liquid-formula/src/cmd/server_supervisor.go:69-120 | Reload returns nil if and only if it has made a new server current, and otherwise the error it came upon last; then the supervisor is down, unless the call was refused, its candidate did not load beside a running server, or a fatal error had been recorded by someone else. |
| `Calls.FailedLoadDisturbsNothing` | openwrt-feed/liquid-formula/src/cmd/server_supervisor.go:80-87 | When a candidate does not load and a server is current, the Reload returns that error, and server, terminal result and everything else stay as they are. |
| `Calls.AnyCandidateIsAnswered` | openwrt-feed/liquid-formula/src/cmd/server_supervisor.go:80-113 | Whatever the loader or the factory does, the Reload goes on. |
| `Calls.StopsAreMeant` | openwrt-feed/liquid-formula/src/cmd/server_supervisor.go:89-93 | In every run a server has been asked to stop only by a Reload whose candidate had loaded, or by a Shutdown. |
| `Calls.ServersAreOfLoadedCandidates` | openwrt-feed/liquid-formula/src/cmd/server_supervisor.go:80-118 | The factory runs only in a Reload whose candidate has loaded and whose way is free, and every server comes from such a Reload. |
| `Calls.TerminalResultHasCause` | openwrt-feed/liquid-formula/src/cmd/server_supervisor.go:122-184 | A terminal error is one that some Reload, Shutdown or watcher came upon; a terminal nil is that of a Shutdown that found no server, or stopped one without error. |
| `Calls.ShutdownAnswers` | openwrt-feed/liquid-formula/src/cmd/server_supervisor.go:136-159 | Every Shutdown returns what the server answered that was current when the first one came, or nil if there was none. |
| `Server.StepRefines` | openwrt-feed/liquid-formula/src/cmd/run_server.go:295-358 | Each step of serve, the workers, the connections and the Shutdown callers is a move of the instance contract, or invisible to it. |
| `Server.ServerMeetsContract` | openwrt-feed/liquid-formula/src/cmd/server_supervisor.go:11-25 | Every run of the server, seen through its abstraction, is a run of the contract the supervisor relies on. |
| `Server.StartedServerKeepsContract` | openwrt-feed/liquid-formula/src/cmd/run_server.go:159-170 | A started server behaves as a fresh contract instance; Done implies that workers and connections are gone; all Shutdown callers get one result, after Done. |
| `Server.DoneIsFinal` | openwrt-feed/liquid-formula/src/cmd/run_server.go:304-321 | Done closes only when both workers have exited and every connection is drained; from then on nothing comes back and Err is constant. |
| `Server.ErrIsServeResult` | openwrt-feed/liquid-formula/src/cmd/run_server.go:295-316 | From the start on, when Done is closed the published error is e if and only if Serve failed with e, and nil if and only if Serve ended because of a Shutdown. |
| `Server.ResultIsRecorded` | openwrt-feed/liquid-formula/src/cmd/run_server.go:295-316 | The result in hand is what is recorded, whatever Shutdown callers do meanwhile. |
| `Server.ResultHasCause` | openwrt-feed/liquid-formula/src/cmd/run_server.go:295-316 | At every moment the result in hand or on record is the one Serve returned. |
| `Server.ShutdownAnswersDrainResult` | openwrt-feed/liquid-formula/src/cmd/run_server.go:338-358 | Every Shutdown returns the error with which draining HTTP failed, and nil if and only if it did not fail. |
| `Server.EveryEndOccurs` | openwrt-feed/liquid-formula/src/cmd/run_server.go:295-358 | Serve may end with any error or none, and draining too, independently: for each there is a run to the end. |
| `Server.ShutdownIsNeverStuck` | openwrt-feed/liquid-formula/src/cmd/run_server.go:338-358 | Until a Shutdown caller has its answer some goroutine of the server can move, without new connections or new calls. |
| `Server.ShutdownReturns` | openwrt-feed/liquid-formula/src/cmd/run_server.go:338-358 | Every Shutdown returns: without new calls and connections a run has at most as many steps as its rank says, and until the caller is answered it can always go on. |
| `Server.StepCounts` | openwrt-feed/liquid-formula/src/cmd/run_server.go:295-358 | Every step of callers, serve goroutine, workers and connections lowers the rank. |
| `Generation.OutcomeKeepsCoherence` | openwrt-feed/liquid-formula/src/internal/handler/refresh_state.go:279-400 | Work that keeps its contract takes a snapshot that is empty or what the disk gives to one that is again. |
| `Generation.SameCacheSameBuild` | openwrt-feed/liquid-formula/src/internal/handler/refresh_state.go:252-269 | What the disk gives depends on the node file and the enabled templates' files only. |
| `Generation.OnDemandAgreement` | openwrt-feed/liquid-formula/src/internal/handler/refresh_state.go:352-383 | After an on-demand refresh memory equals what the disk gives if and only if every template cached in the same file already had these bytes, and the node file, if it is that file, the same nodes. |
| `Generation.OwnPathAgrees` | openwrt-feed/liquid-formula/src/global/config.go:216-224 | A template with a path of its own always meets that condition. |
| `CachePath.PlainNamesAreApart` | openwrt-feed/liquid-formula/src/global/config.go:221-224 | Template names without slashes never share a cache file. |
| `CachePath.DetoursCollide` | openwrt-feed/liquid-formula/src/global/config.go:221-224 | For all names without slashes, "x/../template_a" is another name than "a" and is cached in the same file. |
| `CachePath.JoinGoesOn` | openwrt-feed/liquid-formula/src/global/config.go:216-224 | Joining a file to a directory goes on from where the directory leads, piece by piece, whatever the pieces are. |
| `CachePath.CleanIsNormal` | openwrt-feed/liquid-formula/src/global/config.go:216-224 | A joined path is left without empty pieces, dots and detours, and cleaning it again changes nothing. |
| `CachePath.UpAtTheStart` | openwrt-feed/liquid-formula/src/global/config.go:216-224 | Two dots stay at the start of a relative path, and are dropped at the root. |
| `Generation.PlainNamesOwnPaths` | openwrt-feed/liquid-formula/src/global/config.go:216-224 | Among names without slashes a template has a path of its own if and only if the node file is not named like its cache file. |
| `Generation.SharedPathSplitsGenerations` | openwrt-feed/liquid-formula/src/global/config.go:221-224 | Without a path of its own, a template for which two contents compile that are different as node files has a disk from which its on-demand refresh publishes what the disk does not give. |
| `Generation.DetourSplitsGenerations` | openwrt-feed/liquid-formula/src/global/config.go:221-224 | So it is with "a" and "x/../template_a", for either of them. |
| `Generation.NodeFileSplitsGenerations` | openwrt-feed/liquid-formula/src/global/config.go:216-224 | And with a node file that is named like the cache file of an enabled template. |
| `Generation.TellingLibrary` | openwrt-feed/liquid-formula/src/internal/handler/refresh_state.go:99-133 | For any two contents there is a parser that tells them apart, so the statements above are about something. |
| `Interrupted.InterruptedRefresh` | openwrt-feed/liquid-formula/src/internal/handler/refresh_state.go:320-337 | Wherever a full refresh dies, what the next start finds is built from the new node list unless nothing was replaced yet, the new templates up to some name, and the old files behind it; it is nothing when one of those cannot be read. |
| `Interrupted.InterruptedBuild` | openwrt-feed/liquid-formula/src/internal/handler/refresh_state.go:252-269 | Exactly what the disk gives when the first files in the order of the refresh are replaced. |
| `Interrupted.WholeGenerations` | openwrt-feed/liquid-formula/src/internal/handler/refresh_state.go:320-337 | With none replaced that is the generation of before, with all replaced the fetched one. |
| `Interrupted.InterruptedMixesGenerations` | openwrt-feed/liquid-formula/src/internal/handler/refresh_state.go:322-335 | With the node list alone replaced it is neither of the two, for every configuration with an enabled template whose node file has its path for itself. |
| `Interrupted.CommitIsPartlyStored` | openwrt-feed/liquid-formula/src/internal/cache/batch.go:121-165 | The disks of a commit are such disks. |
| `History.PublishedOnce` | openwrt-feed/liquid-formula/src/internal/handler/refresh_state.go:333-337 | Work with one publication and only temporary files behind it keeps the order, files first, if and only if the disk gave the snapshot at that moment. |
| `History.DiskRun` | openwrt-feed/liquid-formula/src/internal/handler/refresh_state.go:320-335 | Whatever happens to the disk before the publication, only its last state counts. |
| `History.OrderEndsInOutcome` | openwrt-feed/liquid-formula/src/internal/handler/refresh_state.go:279-400 | Work that keeps the order ends with disk and memory in one generation, or with memory unchanged and the cache too unless a restore failed. |
| `Handler.Handler.constructor` | openwrt-feed/liquid-formula/src/internal/handler/handler.go:32-49 | Starts with what the disk gives, or with the empty snapshot if the disk gives none or cannot be read; when nothing fails, exactly so. |
| `Handler.Handler.EnabledTemplateNames` | openwrt-feed/liquid-formula/src/internal/handler/refresh_state.go:239-250 | Lists exactly the enabled names, in increasing order. |
| `Handler.Handler.BuildSnapshot` | openwrt-feed/liquid-formula/src/internal/handler/refresh_state.go:96-147 | Gives a snapshot if and only if the node bytes parse to some node with a tag and every enabled template is there and compiles; it then holds the first node of each tag, in order, and exactly the enabled templates. |
| `Handler.Handler.LoadSnapshotFromDisk` | openwrt-feed/liquid-formula/src/internal/handler/refresh_state.go:252-269 | A loaded snapshot is what the disk gives; when nothing fails, so is none. |
| `Handler.Handler.ReloadSnapshot` | openwrt-feed/liquid-formula/src/internal/handler/refresh_state.go:388-400 | Publishes what the disk gives, or changes nothing, in the order that work has to keep; when nothing fails and the context has not ended, it publishes if and only if the disk gives something. |
| `Handler.Handler.StageAll` | openwrt-feed/liquid-formula/src/internal/handler/refresh_state.go:322-329 | Stages the node list and every enabled template under its own path, in order; no cached file changes. When nothing fails, valid data is all staged. |
| `Handler.Handler.CommitBatch` | openwrt-feed/liquid-formula/src/internal/handler/refresh_state.go:333-335 | When nothing fails it succeeds if and only if every path is missing or a regular file. Either every staged file holds its new bytes and no other configured file changed; or each configured file is as it was, or the operation that would have restored it failed, with its old content in a backup that the Abort leaves alone. A failed restore is noted exactly when some cached file is not as it was. |
| `Handler.Handler.ApplySnapshot` | openwrt-feed/liquid-formula/src/internal/handler/refresh_state.go:84-94 | The one place where memory changes, and only to a snapshot with nodes and with exactly the enabled templates, all of which compile; the publication is noted with how far the disk had come. |
| `Handler.Handler.Finish` | openwrt-feed/liquid-formula/src/internal/handler/refresh_state.go:320-337 | The snapshot is published after the commit and before the batch is aborted, which changes no cached file and none of the backups that matter; the whole stretch keeps the order if and only if the committed disk gives the snapshot. |
| `Handler.Handler.StoreAndPublish` | openwrt-feed/liquid-formula/src/internal/handler/refresh_state.go:320-337 | When nothing fails and the context has not ended, it succeeds if and only if every enabled template has a path of its own and all paths are missing or regular files. Every disk operation and the publication happen in order: any disk changes, then the one publication of what the disk gives at that moment, then temporary files only. A failure leaves memory as it was, and each configured file too, except where the operation that would have restored it failed and its old content is kept in a backup. |
| `Handler.Handler.RefreshAll` | openwrt-feed/liquid-formula/src/internal/handler/refresh_state.go:279-338 | When no fetch and no operation fails and the context has not ended, it succeeds if and only if the fetched node list can be normalised, a snapshot can be built from what was fetched, every enabled template has a path of its own, and all paths are missing or regular files. On success the disk holds the normalised node list and the templates just fetched, each under its own path, and the snapshot is what the disk gives; otherwise memory is unchanged, and each configured file too, except where the operation that would have restored it failed and its old content is kept in a backup. At each moment in between memory is the old snapshot, or already what the disk gives; and the disk holds the fetched bytes up to some point of the order, node list first, and the old ones behind it, unless some cached file could not be put back. |
| `Handler.Handler.PrepareTemplate` | openwrt-feed/liquid-formula/src/internal/handler/refresh_state.go:342-371 | The candidate is built from the fetched bytes of one enabled template and the cached bytes of everything else. |
| `Handler.Handler.RefreshTemplate` | openwrt-feed/liquid-formula/src/internal/handler/refresh_state.go:340-386 | When nothing fails and the context has not ended, it succeeds if and only if the template is enabled, the other cached files can be read, a snapshot can be built with what was fetched, and the path is missing or a regular file. Replaces exactly one cached file, and publishes when the disk holds it and not before; the order is kept, and memory and disk agree, exactly under the stated condition, and always for a template with its own path. A failure leaves what a failed full refresh leaves. |
| `RefreshManager.PermitsAreConserved` | openwrt-feed/liquid-formula/src/internal/refresh/manager.go:17-48 | In every run, whatever the work does and with contexts that end at any time, free permits plus holders is one, so two pieces of work never overlap. |
| `RefreshManager.OneGenerationWhenIdle` | openwrt-feed/liquid-formula/src/internal/handler/refresh_state.go:271-400 | When all work keeps the order, then whenever nobody works the published snapshot is the empty one or exactly what the bytes on disk give, unless a failed restore is noted, which the refreshes do exactly when a failed commit leaves some cached file other than it was. |
| `RefreshManager.DiskFirst` | openwrt-feed/liquid-formula/src/internal/handler/refresh_state.go:333-337 | At every moment of such a run memory is what it was when the worker began, until he publishes, and from then on what the disk gives; a step that changes memory leaves the disk alone. |
| `RefreshManager.ReadersSeeDiskGenerations` | openwrt-feed/liquid-formula/src/internal/handler/refresh_state.go:77-94 | Every snapshot any reader ever gets is the empty one of the start or was, when it was published, exactly what the disk gave. |
| `RefreshManager.ReadersSeeUsableSnapshots` | openwrt-feed/liquid-formula/src/internal/handler/refresh_state.go:77-147 | So any reader gets the empty snapshot of the start, or one with nodes and with exactly the enabled templates, all of which compile. |
| `RefreshManager.IdlePermitIsFree` | openwrt-feed/liquid-formula/src/internal/refresh/manager.go:37-42 | When nobody works any waiter can take the permit, whatever the work before did and whoever gave up. |
| `RefreshManager.PermitComesBack` | openwrt-feed/liquid-formula/src/internal/refresh/manager.go:42-47 | A worker comes to the end of any work by its own steps, and then the permit is free again and the caller has what the work returned. |
| `RefreshManager.AdmittedGoesOn` | openwrt-feed/liquid-formula/src/internal/refresh/manager.go:42-47 | Who has taken the permit can always go on: to work, or, when the context has ended, by giving it back with the error of the context and everything as it was. |
| `RefreshManager.DoAnswers` | openwrt-feed/liquid-formula/src/internal/refresh/manager.go:27-48 | Do returns the error of the context only when that has ended and the work was never begun, and else what the work, which was begun, has returned. |
| `RefreshManager.NoWorkAfterTheEnd` | openwrt-feed/liquid-formula/src/internal/refresh/manager.go:37-47 | Work begins only behind taking the permit and with a context that has not ended, before the permit was taken or after. |
| `RefreshManager.ScriptIsARun` | openwrt-feed/liquid-formula/src/internal/refresh/manager.go:37-47 | A recorded stretch of work is a run of this machine view by view: after each effect the machine stands where disk and memory stood. |
| `RefreshManager.EffectInStep` | openwrt-feed/liquid-formula/src/internal/handler/refresh_state.go:333-337 | Each effect of orderly work keeps memory in step with the disk. |
| `RefreshManager.StepKeeps` | openwrt-feed/liquid-formula/src/internal/refresh/manager.go:25-48 | Every step of callers, orderly workers and readers keeps the invariant over permit, generations, publications and readers. |
| `RefreshManager.ExecKeeps` | openwrt-feed/liquid-formula/src/internal/refresh/manager.go:25-48 | So does every run. |
| `RefreshManager.GivePermitBackKeeps` | openwrt-feed/liquid-formula/src/internal/refresh/manager.go:42-47 | When work ends, disk and memory are one generation again, or a restore failed. |
| `Names.SortStrings` | openwrt-feed/liquid-formula/src/internal/watcher/watcher.go:155 | Strictly increasing byte order, with exactly the given names. |
| `Names.ListingIsUnique` | openwrt-feed/liquid-formula/src/internal/watcher/watcher.go:155 | A set of names has only one increasing listing, so the order of map iteration cannot show. |
| `Names.LessIsByteOrder` | openwrt-feed/liquid-formula/src/internal/watcher/watcher.go:155 | The order is that of bytes: the smaller name is the beginning of the other, or has the smaller byte where they first differ. |
| `Watcher.Loop.ResetTimer` | openwrt-feed/liquid-formula/src/internal/watcher/watcher.go:84-117 | Set for the earliest deadline, or at once when that has passed; off when nothing is pending. |
| `Watcher.Loop.HandleEvent` | openwrt-feed/liquid-formula/src/internal/watcher/watcher.go:129-145 | Only a write, create or rename of a target moves that target's deadline, to one debounce time from now. |
| `Watcher.Loop.TakeDue` | openwrt-feed/liquid-formula/src/internal/watcher/watcher.go:148-154 | Takes out exactly the passed deadlines, whatever the order of iteration. |
| `Watcher.Loop.HandleTick` | openwrt-feed/liquid-formula/src/internal/watcher/watcher.go:146-175 | Runs the due paths in increasing order, up to where the context is found ended, and sets the timer for the rest. |
| `Watcher.Loop.Watch` | openwrt-feed/liquid-formula/src/internal/watcher/watcher.go:124-182 | For any trace of events, ticks, errors and stops the loop ends in the state of the specification. |
| `Watcher.RefinesOwnTimers` | openwrt-feed/liquid-formula/src/internal/watcher/watcher.go:37-39 | Until it ends, what the one-timer loop does for a path is a run of a trailing debouncer whose timer goes off by itself, with the same pending deadline and the same calls. |
| `Watcher.TimerIsSetForTheEarliest` | openwrt-feed/liquid-formula/src/internal/watcher/watcher.go:95-116 | While a path is pending the timer is set, for the earliest deadline unless that had passed when it was set. |
| `Watcher.NoPathWaits` | openwrt-feed/liquid-formula/src/internal/watcher/watcher.go:95-116 | The shared timer is never set later than the timer of any pending path would be, unless that time has already passed. |
| `Watcher.CallsAreTrailing` | openwrt-feed/liquid-formula/src/internal/watcher/watcher.go:144-156 | Each call of a path follows an event of it by at least the debounce time, with no further event of it between; so only targets are ever called. |
| `Watcher.PendingSince` | openwrt-feed/liquid-formula/src/internal/watcher/watcher.go:144-145 | A pending deadline counts from the last processed event of its path. |
| `Watcher.NothingIsLost` | openwrt-feed/liquid-formula/src/internal/watcher/watcher.go:124-175 | Until the loop ends, every processed event is followed by a call of its path, or the path is still pending. |
| `Watcher.CalledOnceDue` | openwrt-feed/liquid-formula/src/internal/watcher/watcher.go:146-175 | A tick that comes when the debounce time since the last event of a path is over leaves no call of it open, unless its batch is cut off. |
| `Watcher.BatchInOrder` | openwrt-feed/liquid-formula/src/internal/watcher/watcher.go:155-157 | The calls of one batch run in strictly increasing path order. |
| `Watcher.EndsInABatch` | openwrt-feed/liquid-formula/src/internal/watcher/watcher.go:157-160 | A batch that ends the loop has taken all due paths out and called exactly the first ones. |
| `Template.RewriteNotesFilters` | openwrt-feed/liquid-formula/src/internal/handler/refresh_state.go:182-233 | The loop with its quote and escape flags computes the rewriting of the expression. |
| `Template.CopyBar` | openwrt-feed/liquid-formula/src/internal/handler/refresh_state.go:210-230 | At a bar the loop emits the whole filter name, and the argument exactly when no colon follows, or the bar alone. |
| `Template.FilterLengthIff` | openwrt-feed/liquid-formula/src/internal/handler/refresh_state.go:210-216 | The scanner finds a filter exactly where a bar outside quotes, blanks and the whole word stand, and no identifier byte follows. |
| `Template.OneFilterAtATime` | openwrt-feed/liquid-formula/src/internal/handler/refresh_state.go:216-226 | Filters never overlap, so skipping over one misses none. |
| `Template.RewritingInsertsExactly` | openwrt-feed/liquid-formula/src/internal/handler/refresh_state.go:182-233 | The result is the expression with the argument behind exactly the filter names outside quotes that lack one. |
| `Template.RewritingIsIdempotent` | openwrt-feed/liquid-formula/src/internal/handler/refresh_state.go:182-233 | Rewriting an expression twice is rewriting it once. |
| `Template.NoFilterStays` | openwrt-feed/liquid-formula/src/internal/handler/refresh_state.go:210-230 | A bar that starts no filter starts none in the result. |
| `Template.QuotedTextIsKept` | openwrt-feed/liquid-formula/src/internal/handler/refresh_state.go:186-205 | Any text written between quotes, with backslashes before such quotes and backslashes, stays as it is, filter names included, and what follows is rewritten as if it stood alone. |
| `Template.WordIsFilter` | openwrt-feed/liquid-formula/src/internal/handler/refresh_state.go:210-216 | A bar, any blanks and the word NotesName are a filter, unless an identifier byte follows. |
| `TemplateSpans.FoundPair` | openwrt-feed/liquid-formula/src/internal/handler/refresh_state.go:162-169 | The search finds the first pair of braces, and none only when there is none. |
| `TemplateSpans.CopySpan` | openwrt-feed/liquid-formula/src/internal/handler/refresh_state.go:161-178 | One turn of the loop moves past one closed span, or past everything, and keeps the result. |
| `TemplateSpans.InjectNotesFilterContext` | openwrt-feed/liquid-formula/src/internal/handler/refresh_state.go:159-180 | The loop rewrites exactly the closed spans, one after the other. |
| `TemplateSpans.ContextInsertedExactly` | openwrt-feed/liquid-formula/src/internal/handler/refresh_state.go:150-155 | The result is the template with the argument put in behind exactly the filters of closed spans that lack it, and nowhere else. |
| `TemplateSpans.ByteKept` | openwrt-feed/liquid-formula/src/internal/handler/refresh_state.go:159-180 | Every byte of the source is found in the result, moved by the arguments put in before it. |
| `TemplateSpans.RewritingTwice` | openwrt-feed/liquid-formula/src/internal/handler/refresh_state.go:159-180 | Rewriting a template twice is rewriting it once. |
| `TemplateSpans.RewritingCloses` | openwrt-feed/liquid-formula/src/internal/handler/refresh_state.go:168-176 | Rewriting an expression never creates closing braces, so spans stay where they are. |
| `Subscription.LinesReadBack` | openwrt-feed/liquid-formula/src/internal/subscription/subscription.go:224-237 | Lines that are not blank, trimmed or comments, written one per line, are read back exactly. |
| `Subscription.AnyBreaksSplit` | openwrt-feed/liquid-formula/src/internal/subscription/subscription.go:224-239 | Whatever mixture of line feeds and carriage returns ends them, the lines in between are what is worked on. |
| `Subscription.TrimTakesBlanksOff` | openwrt-feed/liquid-formula/src/internal/subscription/subscription.go:230 | Blanks around a line are taken off, and nothing else is. |
| `Subscription.TellingLinesAreKept` | openwrt-feed/liquid-formula/src/internal/subscription/subscription.go:229-236 | Kept are exactly the trimmed lines that are neither empty nor comments, in order. |
| `Subscription.FreeCandidate` | openwrt-feed/liquid-formula/src/internal/subscription/subscription.go:139-148 | The search for a free numbered tag ends, because only finitely many tags are taken. |
| `Subscription.CandidateIsInjective` | openwrt-feed/liquid-formula/src/internal/subscription/subscription.go:141-143 | Different numbers give different candidates. |
| `Subscription.DedupeTags` | openwrt-feed/liquid-formula/src/internal/subscription/subscription.go:130-153 | Every tag ends up as its own, or the number of its place if it had none, when that is free, and else with the smallest number that makes it free; so all are non-empty and different; everything else keeps its place, and an already distinct list is left as it is. |
| `Subscription.NormalizeList` | openwrt-feed/liquid-formula/src/internal/subscription/subscription.go:102-126 | The nodes are what the parser makes of the kept lines it accepts, in order, with tags made different; nodes plus skipped lines is the number of kept lines, and a snapshot built from the nodes drops none. |
| `Subscription.ParseLines` | openwrt-feed/liquid-formula/src/internal/subscription/subscription.go:102-116 | Collects the parsed nodes in order, counts the refused lines and samples the first reasons. |
| `Subscription.EveryLineCounted` | openwrt-feed/liquid-formula/src/internal/subscription/subscription.go:102-116 | Every line gives a node or is counted as skipped. |
| `Subscription.ParsedInOrder` | openwrt-feed/liquid-formula/src/internal/subscription/subscription.go:102-116 | The nodes are those of the lines that the parser accepts, the reasons those of all others, each in the order of the lines. |
| `Subscription.BuildNodes` | openwrt-feed/liquid-formula/src/internal/handler/refresh_state.go:113-130 | Keeps exactly the nodes with a non-empty tag that no earlier node has, in order. |
| `Subscription.FirstsAreKept` | openwrt-feed/liquid-formula/src/internal/handler/refresh_state.go:111-131 | Kept is, of each non-empty tag, the first node, in order. |
| `Subscription.NothingDroppedIffUnique` | openwrt-feed/liquid-formula/src/internal/handler/refresh_state.go:113-130 | A snapshot drops no node if and only if all tags are non-empty and different. |
| `Srcinfo.Ring.Put` | openwrt-feed/liquid-formula/src-dpi/fakehttp/src/srcinfo.c:88-110 | Records a peer in the ring of 500; an unknown family changes nothing. |
| `Srcinfo.Ring.Get` | openwrt-feed/liquid-formula/src-dpi/fakehttp/src/srcinfo.c:113-137 | Returns the newest of the last 500 records with this address, and fails exactly when there is none; stopping at an unused slot hides nothing. |
| `Srcinfo.NewestIsUnique` | openwrt-feed/liquid-formula/src-dpi/fakehttp/src/srcinfo.c:113-137 | The answer is determined by the history. |
| `Srcinfo.BackwardsIndex` | openwrt-feed/liquid-formula/src-dpi/fakehttp/src/srcinfo.c:118-129 | The index of the backward scan names the record put that many places before the last. |
| `PayloadRing.Payloads.Setup` | openwrt-feed/liquid-formula/src-dpi/fakehttp/src/payload.c:230-303 | After success the list from the current node is one cycle of all entries in the order of insertion; after a failure everything built is freed. |
| `PayloadRing.Payloads.Get` | openwrt-feed/liquid-formula/src-dpi/fakehttp/src/payload.c:322-327 | The k-th call serves entry n - 1 - (k mod n) of the command line. |
| `PayloadRing.Payloads.Cleanup` | openwrt-feed/liquid-formula/src-dpi/fakehttp/src/payload.c:306-319 | Frees every node exactly once, from any rotation. |
| `PayloadRing.PlaceCountsDown` | openwrt-feed/liquid-formula/src-dpi/fakehttp/src/payload.c:244-295 | Following the links from the rotated start counts the entries down and wraps. |
| `PayloadRing.AllPassed` | openwrt-feed/liquid-formula/src-dpi/fakehttp/src/payload.c:310-318 | One turn around the ring passes every node. |
| `TlsHello.MakeClientHello` | openwrt-feed/liquid-formula/src-dpi/fakehttp/src/payload.c:129-184 | Fills exactly the record, for host names of up to 262 bytes in buffers that are large enough, and refuses all others; no byte behind the record changes. |
| `TlsParser.BuiltRecordParses` | openwrt-feed/liquid-formula/src-dpi/fakehttp/src/payload.c:65-104 | Read by sections 6.2.1 and 7.4.1.2 of RFC 5246 every built record is consumed exactly, its nested lengths agree, and the five extensions fill their block, the last being zero padding (section 3 of RFC 7685). |
| `TlsParser.NameReadBack` | openwrt-feed/liquid-formula/src-dpi/fakehttp/src/payload.c:160-178 | The server name read by section 3 of RFC 6066 is the host name, for exactly the names that are not empty. |
| `TlsParser.HelloIsNested` | openwrt-feed/liquid-formula/src-dpi/fakehttp/src/payload.c:65-104 | The flat template is the nested record. |
| `TcpOptions.Parse4` | openwrt-feed/liquid-formula/src-dpi/fakehttp/src/ipv4pkt.c:36-103 | Accepts exactly the packets whose header lengths fit, and gives the bounds the option loop relies on. |
| `TcpOptions.RemoveFastOpen` | openwrt-feed/liquid-formula/src-dpi/fakehttp/src/rawsend.c:104-159 | The loop ends within bounds, changes the option area only, byte for byte as stated, and reports nothing found exactly when neither a receiver nor the loop behind the end of the list meets such an option. |
| `TcpOptions.HandleSyn` | openwrt-feed/liquid-formula/src-dpi/fakehttp/src/rawsend.c:491-540 | A packet the parser refuses is untouched; of an accepted one exactly the bytes of Fast Open options become NOPs, those that a receiver reads and those the loop meets behind the end of the list, and the result says whether there are any. |
| `TcpOptions.ReceiverSeesOthersUnchanged` | openwrt-feed/liquid-formula/src-dpi/fakehttp/src/rawsend.c:104-159 | A walk by section 3.2 of RFC 9293 finds afterwards the same other options at the same places, and no Fast Open option. |
| `TcpOptions.OnlyFastOpenBytesChange` | openwrt-feed/liquid-formula/src-dpi/fakehttp/src/rawsend.c:140-150 | A byte changes only where the loop meets a Fast Open option (section 4.1.1 of RFC 7413), and is a NOP then. |
| `TcpOptions.ErasedOrBehind` | openwrt-feed/liquid-formula/src-dpi/fakehttp/src/rawsend.c:112-150 | The loop covers a byte if and only if it belongs to a Fast Open option that a receiver reads, or the loop, started behind the end of the list, covers it. |
| `TcpOptions.ErasesOnlyReadOptions` | openwrt-feed/liquid-formula/src-dpi/fakehttp/src/rawsend.c:104-159 | Only bytes of options that a receiver reads change if and only if the loop meets none behind the end of the list. |
| `TcpOptions.BytesBehindTheListAreErased` | openwrt-feed/liquid-formula/src-dpi/fakehttp/src/rawsend.c:112-122 | An option area without any option to a receiver in which four bytes are erased. |
| `TcpOptions.SecondRunFindsNothing` | openwrt-feed/liquid-formula/src-dpi/fakehttp/src/rawsend.c:104-159 | A second run finds nothing and changes nothing. |
| `TcpOptions.NothingMetNothingChanged` | openwrt-feed/liquid-formula/src-dpi/fakehttp/src/rawsend.c:104-159 | When nothing is found, nothing is changed. |
| `Ttl.DecoyDiesOnTheWay` | openwrt-feed/liquid-formula/src-dpi/fakehttp/src/rawsend.c:394-406 | With estimation on, decoys are sent exactly to peers estimated further away than the configured TTL, and their TTL is at least that and strictly below the estimate. |
| `Ttl.DecoyGoesExactly` | openwrt-feed/liquid-formula/src-dpi/fakehttp/src/rawsend.c:47-73 | The TTL is the configured one, or with estimation the larger one of that and the percentage of the estimated distance, rounded down. |
| `Ttl.EstimateIsExact` | openwrt-feed/liquid-formula/src-dpi/fakehttp/src/rawsend.c:47-56 | For which distances the estimate is right, for each common initial TTL. |
| `Portmap.Map.Parse` | openwrt-feed/liquid-formula/src-dpi/fakesip/src/portmap.c:28-85 | On success the bitmap holds exactly the ports before plus the listed ones; it succeeds exactly for meaningful specifications, as far as memory lasts. |
| `Portmap.Map.Set` | openwrt-feed/liquid-formula/src-dpi/fakesip/src/portmap.c:94-99 | Adds one port and changes no other. |
| `Portmap.SetBit` | openwrt-feed/liquid-formula/src-dpi/fakesip/src/portmap.c:87-99 | Setting a bit of a byte is seen at that bit and at no other. |
| `Portmap.Gate` | openwrt-feed/liquid-formula/src-dpi/fakesip/src/rawsend.c:382-407 | A packet is processed exactly when there is no whitelist or one of its ports is in it, and neither port is in the blacklist. |
| `Portmap.WrittenListReadBack` | openwrt-feed/liquid-formula/src-dpi/fakesip/src/portmap.c:41-79 | Any list of ranges written in decimal is parsed back to exactly these ranges. |
| `Portmap.PortOfDecimal` | openwrt-feed/liquid-formula/src-dpi/fakesip/src/portmap.c:47-65 | A decimal number is a port exactly when it lies in 1 to 65535. |
| `Portmap.PortOfDigits` | openwrt-feed/liquid-formula/src-dpi/fakesip/src/portmap.c:47-65 | Any string of digits is octal with a leading zero and decimal without: a port if every digit is one of that base and the value lies in 1 to 65535, and refused otherwise. |
| `Portmap.ReadAsDecimal` | openwrt-feed/liquid-formula/src-dpi/fakesip/src/portmap.c:47-65 | The exact condition for a string of digits to be read as the decimal number it shows. |
| `Portmap.PortOfHexadecimal` | openwrt-feed/liquid-formula/src-dpi/fakesip/src/portmap.c:47-65 | What stands behind a prefix 0x is hexadecimal, under the same conditions, and nothing else is accepted there. |
| `Portmap.LeadingZeroIsOctal` | openwrt-feed/liquid-formula/src-dpi/fakesip/src/portmap.c:47-61 | For instance 010 is port 8, and 08 is no port. |
| `Chains.Kernel.Execute` | openwrt-feed/liquid-formula/src-dpi/fakehttp/src/process.c:34-139 | A success is reported exactly when the command was tried and accepted and its result seen; otherwise the table is as the command left it, or as it was. |
| `Runs.PlaySplit` | openwrt-feed/liquid-formula/src-dpi/fakehttp/src/ipv4ipt.c:211-227 | A run of two lists of orders is one of the first, and when that comes to its end, it goes on with the second from there. |
| `Runs.StateOnTheWay` | openwrt-feed/liquid-formula/src-dpi/fakehttp/src/ipv4ipt.c:213-219 | Each state on the way is what the same run leaves when it is cut off there. |
| `Runs.WentInTwo` | openwrt-feed/liquid-formula/src-dpi/fakehttp/src/ipv4ipt.c:211-227 | What a kernel went through for one list of orders and then for another, it went through for both. |
| `Iptables.Cleanup` | openwrt-feed/liquid-formula/src-dpi/fakehttp/src/ipv4ipt.c:235-261 | Carries out its eight orders whatever becomes of each, and nothing else; it keeps the invariant at each command, and without faults it leaves the others' table exactly. |
| `Iptables.CleanupRun` | openwrt-feed/liquid-formula/src-dpi/fakehttp/src/ipv4ipt.c:235-261 | From every table that crashes can leave, and for all fates of its commands, a cleanup keeps the invariant at each of them, comes to its end unless it is cut off, and without faults leaves the others' table. |
| `Iptables.CleanupRestores` | openwrt-feed/liquid-formula/src-dpi/fakehttp/src/ipv4ipt.c:238-260 | The eight commands take every such table back to the others' table. |
| `Iptables.CleanupCommandKeeps` | openwrt-feed/liquid-formula/src-dpi/fakehttp/src/ipv4ipt.c:238-260 | Each of them keeps the invariant wherever it comes. |
| `Iptables.AtMostOneJump` | openwrt-feed/liquid-formula/src-dpi/fakehttp/src/ipv4ipt.c:99-103 | In every such table a hook has at most one jump to the tool, to a chain that exists, before the foreign rules in their order. |
| `Iptables.StartsClean` | openwrt-feed/liquid-formula/src-dpi/fakehttp/src/ipv4ipt.c:94-105 | The mandatory commands can only all succeed in a table without any trace of the tool. |
| `Iptables.SetupStepKeeps` | openwrt-feed/liquid-formula/src-dpi/fakehttp/src/ipv4ipt.c:213-219 | Every command of the setup keeps the invariant at its place. |
| `Iptables.RunCommands` | openwrt-feed/liquid-formula/src-dpi/fakehttp/src/ipv4ipt.c:213-219 | Carries out the commands up to the first that fails and nothing else; success means the table is the result of all commands on the others' table. |
| `Iptables.DeviceSetup` | openwrt-feed/liquid-formula/src-dpi/fakehttp/src/ipv4ipt.c:31-86 | Carries out its orders, up to the first failure or the first name that is too long; success means both chains end with one jump for each device, in order, or one for all. |
| `Iptables.MandatoryPart` | openwrt-feed/liquid-formula/src-dpi/fakehttp/src/ipv4ipt.c:213-219 | For all fates the mandatory commands keep the invariant at each of them; they all succeed only with their whole effect, and without faults each succeeds that would. |
| `Iptables.SetupRun` | openwrt-feed/liquid-formula/src-dpi/fakehttp/src/ipv4ipt.c:89-232 | From every table that crashes can leave, and for all fates of its commands, a setup keeps the invariant at each of them; when it comes to its end it leaves exactly the intended table, with the optional rule if and only if that command was tried; and without faults nothing stops it. |
| `Iptables.Setup` | openwrt-feed/liquid-formula/src-dpi/fakehttp/src/ipv4ipt.c:89-232 | Carries out exactly its orders, and reports success if and only if none of the checked ones failed and every device name fits; every table on the way keeps the invariant; a reported success means exactly the intended table; without faults only a device name that is too long makes it fail. |
| `Nftables.NftSetup` | openwrt-feed/liquid-formula/src-dpi/fakehttp/src/ipv4nft.c:98-190 | Carries out exactly its orders; a reported success means exactly the intended table, behind the rules of an earlier run if and only if the deletion was not started, and with the optional rule if and only if that was; without faults only a device name whose text does not fit makes it fail. |
| `Nftables.NftSetupRun` | openwrt-feed/liquid-formula/src-dpi/fakehttp/src/ipv4nft.c:98-190 | The same for every table found and all fates of the commands; without faults nothing stops it. |
| `Nftables.NftDeviceSetup` | openwrt-feed/liquid-formula/src-dpi/fakehttp/src/ipv4nft.c:30-95 | Carries out its orders, up to the first failure or the first text that does not fit; success means both hooks end with one jump for each device, in order, or one for all. |
| `Nftables.NftCleanup` | openwrt-feed/liquid-formula/src-dpi/fakehttp/src/ipv4nft.c:193-198 | Removes the table, or, if the command is not started, leaves it as it was. |
| `Nfrules.Firewall.Setup` | openwrt-feed/liquid-formula/src-dpi/fakehttp/src/nfrules.c:41-91 | The backend is the configured one, or iptables when nft was tried, once, and does not work. Both families' tables keep their invariants at each command, whichever family fails; only the families in use of the chosen backend are touched, the second only after the first has succeeded; success means the intended tables, and without faults it fails if and only if some device name in use does not fit. |
| `Nfrules.Firewall.Cleanup` | openwrt-feed/liquid-formula/src-dpi/fakehttp/src/nfrules.c:94-117 | Carries out the cleanup of every family in use and nothing else; without faults each is left with the others' rules alone. |
| `Nfrules.Firewall.RunOnce` | openwrt-feed/liquid-formula/src-dpi/fakehttp/src/mainfun.c:414-472 | A run, also one that falls back to iptables in its setup or whose setup fails in either family, is for every family in use its setup, as far as that came, and then exactly the commands of one cleanup; when these meet no fault they leave the others' table, or no nft table; families not in use and the other backend are untouched. |
| `Nfrules.HistoryKeeps` | openwrt-feed/liquid-formula/src-dpi/fakehttp/src/ipv4ipt.c:211-261 | Any number of setups and cleanups with any options, for all fates of their commands and each possibly cut off after any of them, keeps the invariant. |
| `Nfrules.HistoryRecovers` | openwrt-feed/liquid-formula/src-dpi/fakehttp/src/ipv4ipt.c:89-261 | After any such history that began with the others' table, one cleanup without faults restores it, and a setup without faults, and with names that fit, succeeds with exactly the intended rules. |
| `Nfrules.ProgramsAreRuns` | openwrt-feed/liquid-formula/src-dpi/fakehttp/src/ipv4ipt.c:89-261 | What a setup or a cleanup leaves, also when its process dies after any of its commands, is the table after a run of such a history. |
| `FirewallPolicy.IptablesCarriesOutPolicy` | openwrt-feed/liquid-formula/src-dpi/fakehttp/src/ipv4ipt.c:94-193 | The installed chains send a packet to the configured queue when its remote address is not local, its device is covered, it does not carry the mark, and it opens a connection or, with the optional rule, is an early pure ACK; they send no other packet to any queue. |
| `FirewallPolicy.NftCarriesOutPolicy` | openwrt-feed/liquid-formula/src-dpi/fakehttp/src/ipv4nft.c:103-153 | The nft table does the same, with the same queue. |
| `FirewallPolicy.LocalNetsAreLocal` | openwrt-feed/liquid-formula/src-dpi/fakehttp/src/ipv4ipt.c:107-159 | The networks that both backends leave out hold exactly the local addresses: 0/8, 10/8, 100.64/10, 127/8, 169.254/16, 172.16/12, 192.168/16 and all from 224.0.0.0 on. |
| `FirewallPolicy.BackendsAgreeOnPacket` | openwrt-feed/liquid-formula/src-dpi/fakehttp/src/ipv4nft.c:30-190 | For one packet the backends agree, in whether they queue it and where, if and only if they cover its device alike or the policy leaves it alone anyway. |
| `FirewallPolicy.BackendsAgree` | openwrt-feed/liquid-formula/src-dpi/fakehttp/src/ipv4nft.c:98-190 | For every list of plain or balanced names, of any length, every packet and both hooks they agree, with the optional rule in both or neither. |
| `FirewallPolicy.AgreementIsBalance` | openwrt-feed/liquid-formula/src-dpi/fakehttp/src/ipv4nft.c:30-190 | The backends treat all packets of all devices a kernel can have alike if and only if the list is balanced, for lists of up to 68 names with patterns of either kind. |
| `FirewallPolicy.AgreementIsCoverage` | openwrt-feed/liquid-formula/src-dpi/fakehttp/src/ipv4nft.c:30-190 | For every list they do if and only if they cover the same devices. |
| `FirewallPolicy.CoverageIsBalance` | openwrt-feed/liquid-formula/src-dpi/fakehttp/src/ipv4ipt.c:66-84 | They cover the same devices if and only if each pattern has one of the other kind that is at least as wide; otherwise some device of at most 15 characters tells. |
| `FirewallPolicy.PppSplits` | openwrt-feed/liquid-formula/src-dpi/fakehttp/src/ipv4ipt.c:66-84 | With "ppp+" alone, a connection that "ppp0" opens is queued by iptables and not by nft. |
| `FirewallPolicy.PlusSplitsBackends` | openwrt-feed/liquid-formula/src-dpi/fakehttp/src/ipv4ipt.c:66-84 | Without names that end with an asterisk, the backends cover the same devices if and only if no name ends with a plus. |
| `FirewallPolicy.AsteriskSplitsBackends` | openwrt-feed/liquid-formula/src-dpi/fakehttp/src/ipv4nft.c:65-93 | And the other way round. |
| `FirewallPolicy.OwnPacketsAreNeverQueued` | openwrt-feed/liquid-formula/src-dpi/fakehttp/src/mainfun.c:335-341 | With the mark and mask that main accepts, a packet with the tool's own mark is queued by neither backend. |

## Left out

- User interface, packaging and shell scripts; YAML loading, configuration checks and environment overrides; logging.
- HTTP handlers, the fetch client and the cache purge: a fetch is an arbitrary result.
- Base64 and JSON payloads of `Normalize`, single URI parsing and JSON encoding: `ParseURI` is an arbitrary function, and encoding is taken to keep tags.
- Template compilation and rendering: a template is identified with its source, and compiling is an arbitrary predicate of it.
- Packet builders, checksums, raw sockets, the netfilter queue and process control: foreign calls.
- The IPv6 and FakeSIP copies of the modelled C files repeat these models with other constants.
- File modes, directory creation and directory syncs beyond "may fail"; rename and remove are atomic, and the names `CreateTemp` gives are new and never those of configured files.
- Writers from outside: no other process changes cached files, or the rules of the tool, while it works.
- Text is modelled by characters that stand for bytes, and a device name is any text.
- Marks and masks are sets of bits, so their width of 32 does not appear.
- Watcher.Loop.Watch: which ready channel the loop takes is part of the trace, and so is the canonical form of each path; a loop that is always offered other events first may delay a tick without bound.
- TlsHello.MakeClientHello: host names of 2^31 bytes or more, where the length conversion wraps, are excluded.
- A firewall command has its effect, if any, before the next one is issued; a write of the nft configuration that breaks off is taken to be refused.
- RefreshManager.OneGenerationWhenIdle: stated for runs in which all work keeps the order of `History.Keeps`, as `Handler` proves of reloads, full refreshes and, for templates with paths of their own, on-demand refreshes; for others it fails, as said above.
- CachePath.Join: paths are cleaned by their text, as `filepath.Join` does; that symbolic links lead two paths to one file is not part of the model.
- FirewallPolicy.NftDevice: nft refuses a lone asterisk as a device name, and reads a trailing backslash and asterisk as an asterisk; the model takes both as patterns.
- FirewallPolicy.AgreementIsBalance: a longer list than 68 names may cover a pattern by naming all its devices; then only `FirewallPolicy.AgreementIsCoverage` says what agreement is. A kernel's device is any name of 1 to 15 characters.
- Supervisor.ShutdownReturns: a server that was asked to stop is taken to end, and goroutines that can move to be run.
- RefreshManager.DoAnswers: work that is nil and a manager that is not set up are refused at once; callers make neither.
- Server.StartedServerKeepsContract: serving and draining HTTP connections is one step each of `net/http`.
