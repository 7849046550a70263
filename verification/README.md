# erbridge, modelled and proved in Dafny

`erbridge` exposes services behind a NAT through a reverse tunnel. A public server (A) keeps one multiplexed,
encrypted session per tenant, reads the server name out of each incoming TLS connection, and relays the connection
through that tenant's session to a client (B), which dials the local target.

This project models the multi-tenant tunnel of `crates/erbridge-core` and proves what it relies on: that revoking a
tenant ends its session whatever races with it, that concurrent writers of the tenant file lose nothing, that a code is
redeemed once, that the encrypted stream and the relay add, lose and reorder no bytes, and that nothing the
server hands out (handshake slots, connection permits, multiplexer waiters) is lost or counted twice.

Concurrent components (`Hub`, `FileStore`, `Enrollment`, `Slots`, `Budgets`, `Mux`, `Stats`) are step systems: one
action per lock region, atomic access or file operation, `Enabled` saying when it may happen and `Do` what it does. A
theorem about `Exec(Do, s0, actions)` for every `actions` that `Runs` is a theorem about every interleaving of any number
of tasks. Where the source updates an object in place, a class carries out the steps on mutable fields: in `Hub`,
`Slots`, `Budgets` and `Mux` it is proved to take exactly `Do`; in `FileStore`, `Enrollment` and `Stats` it carries out
one operation uninterrupted, with its own contract. `Revocation` puts `FileStore` and `Hub` together, and `Connections`
puts `Hub` and `Budgets` together. Sequential components (`Noise`, `Sni`, `Streams`, `Relay`) are
classes and methods over streams that may move any part of what they are asked to, be not ready, or fail, at each call.

| module | models |
|---|---|
| `Basics` | option and result types, sequence helpers |
| `Steps` | runs of a step system |
| `Hosts` | host normalisation |
| `Tenants` | tenant sets: validation, lookup, routing, handshake candidates, edits |
| `Store` | edit histories and the in-memory store |
| `FileStore` | the shared tenant file: lock, load, edit, temporary file, rename, readers, crashes |
| `Enrollment` | enrollments against one store |
| `Hub` | sessions, publishing and sweeping of tenant sets |
| `Revocation` | tenant file and hub together: from a revocation to the live sessions |
| `Slots`, `Budgets` | handshake slots; per-tenant connection permits |
| `Frames`, `Noise` | length-prefixed sealed frames; the resumable transport stream |
| `Sni`, `ClientHello` | the server-name parser; a grammar and printer of ClientHellos |
| `Streams`, `Relay` | byte streams; header, ready byte and pump on both sides |
| `Serve`, `Connections` | one incoming connection from hello to relay; any number of them beside sessions and reloads |
| `Mux`, `Stats` | the multiplexer's driver; byte totals and the event log |

Where the code does not do what one might expect of it:

- Normalising a host twice may differ from normalising it once; `Hosts.NormalizeTwice` gives the exact condition and
  `Hosts.NormalizeTwiceFails` an instance.
- A stored code need not be redeemable: two codes may share a host. Redeeming one blocks the other until the tenant it
  created is revoked (`Store.SecondCodeWaits`), and no longer (`Store.WithdrawalRevivesSecondCode`); a code is
  redeemable exactly while its host is free (`Store.RedeemableWhileHostIsFree`).
- A tenant can have more relays than either limit while its limit changes (`Budgets.ChangingLimitsAddUp`);
  `Budgets.RelaysWithinHeldCapacity` is the bound that does hold, and `Budgets.WithinLimitExactly` says when the current
  limit is kept.
- The published set does not follow the tenant file in order: of two readings the earlier can be published last and stay
  until the next reload, so that a revoked tenant goes on getting sessions (`Revocation.StaleSetCanStay`). The published
  set lacks it exactly when the last publication's reading is later than the revocation
  (`Revocation.RevokedExactlyWhenReadAfter`), and then its sessions end (`Revocation.RevokedTenantIsGone`).
- A total read during a close can count that connection twice (`Stats.MidCloseCountsTwice`), and bytes that an aborted
  copy task counts after the close has loaded the counter are never reported (`Stats.LateBytesAreMissed`).
  `Stats.TotalsAreBounded` says how far off a total can be and `Stats.TotalsAreExactAtRest` when it is exact.
- A shutdown can leave a tenant whose credentials were never delivered: `Enrollment.OrphansHappen` is such a run, and
  `Enrollment.OrphanedExactly` says when it happens.
- A write of the Noise stream that fails once its frame is sealed is reported as failed, but the peer may still read its
  bytes: `Noise.RefusedBytesArrive` is such a run. The peer reads exactly what was accepted if and only if no write
  failed that way (`Noise.EverythingIsDelivered`). A caller can tell: any failure of a non-empty write is one if the
  flush before it succeeded (`Noise.NoiseStream.PollWrite`).

## Model

| member | source | states |
|---|---|---|
| Hosts.NormalizeExactly | crates/erbridge-core/src/tenant.rs:23-28 | A host is white space, a middle, and white space; it normalises to the middle without one final dot, its capital ASCII letters replaced by small ones and everything else kept, said on character codes. |
| Hosts.WhitespaceCodes | crates/erbridge-core/src/tenant.rs:25-26 | The code points that trimming removes. |
| Hosts.NormalizeIgnoresCase | crates/erbridge-core/src/tenant.rs:23-28 | Hosts that differ only in ASCII case normalise alike. |
| Hosts.NormalizeTwice | crates/erbridge-core/src/tenant.rs:25-28 | Normalising is idempotent on a host if and only if the host, trimmed and with one dot dropped, does not end in a dot or white space. |
| Hosts.NormalizeTwiceFails | crates/erbridge-core/src/tenant.rs:25-28 | The host `a..` loses one dot per call. |
| Tenants.Build | crates/erbridge-core/src/tenant.rs:84-110 | The one-pass construction with three sets of things seen accepts what the specification `New` accepts and reports the same first fault. |
| Tenants.NewAcceptsExactlyValid | crates/erbridge-core/src/tenant.rs:84-110 | A set is accepted if and only if names are unique and non-empty, hosts unique once normalised, entries usable, and PSKs pairwise distinct across tenants and codes; and it is stored unchanged. |
| Tenants.NewAcceptsExactly | crates/erbridge-core/src/tenant.rs:84-110 | The same condition spelled out on the entries. |
| Tenants.TenantFaultReported | crates/erbridge-core/src/tenant.rs:84-101 | The fault reported is that of the first tenant that cannot follow those before it: empty name, taken name, empty host, zero limit, taken host, shared PSK, in this order. |
| Tenants.CodeFaultReported | crates/erbridge-core/src/tenant.rs:102-107 | Where the tenants are fine it is that of the first code that cannot follow. |
| Tenants.LookupFindsTheOnly | crates/erbridge-core/src/tenant.rs:120-122 | In a valid set a lookup by name finds a tenant if and only if it is the owner of that name. |
| Tenants.RoutesToTheOnlyHolder | crates/erbridge-core/src/tenant.rs:125-130 | In a valid set a host is routed to a tenant if and only if that tenant is enabled and holds the host. |
| Tenants.Candidates | crates/erbridge-core/src/tenant.rs:134-149 | The parallel vectors hold the enabled tenants then the live codes, and the PSK at an index is the PSK of the identity at that index. |
| Tenants.AcceptAny | crates/erbridge-core/src/noise.rs:167-201 | Trying every PSK on the handshake message yields the least index that verifies, or none if none does. |
| Tenants.CandidatesAreDistinct | crates/erbridge-core/src/tenant.rs:134-149 | In a valid set no PSK is listed for two identities. |
| Tenants.IdentifiedExactly | crates/erbridge-core/src/tenant.rs:65-71 | A client is taken for an identity if and only if that identity is eligible in the set and holds the client's PSK. |
| Tenants.Identify | crates/erbridge-core/src/reverse/tenant_serve.rs:306-318 | Listing the candidates, trying each PSK and taking the identity at the match yields an identity if and only if it is eligible and holds the PSK the client used. |
| Tenants.WithTenantExactly | crates/erbridge-core/src/tenant.rs:200-204 | A tenant can be added if and only if it is usable and its name, host and PSK are free; then it is added and the set stays valid. |
| Tenants.WithCodeExactly | crates/erbridge-core/src/tenant.rs:206-215 | A code can be issued if and only if it is usable, its PSK is new and no tenant holds its host; the error for a held host names a holder. |
| Tenants.WithoutTenantExactly | crates/erbridge-core/src/tenant.rs:217-228 | Removal succeeds if and only if the name is known and takes away that tenant and nothing else. |
| Tenants.WithDisabledExactly | crates/erbridge-core/src/tenant.rs:230-239 | Suspending or resuming succeeds if and only if the name is known and changes that one flag. |
| Tenants.RedeemExactly | crates/erbridge-core/src/tenant.rs:244-273 | A redemption succeeds if and only if a code with that PSK that has not expired is present and its tenant can join, and reports no such code if and only if there is none; it adds that one tenant with the code's host and limit, burns the code, drops the expired codes and keeps the others. |
| Store.FoldIsValid | crates/erbridge-core/src/tenant_store.rs:22-62 | From a valid set, every sequence of edits, failed ones included, leads to a valid set. |
| Store.EditsTakeEffect | crates/erbridge-core/src/tenant_store.rs:30-62 | Adding, issuing, revoking, suspending and redeeming each succeed exactly when said and change exactly what is said, on the entries; a failed edit changes nothing. |
| Store.CodesAreConserved | crates/erbridge-core/src/tenant.rs:206-273 | For every PSK and every sequence of edits: present before + issued = redeemed + pruned as expired + present after, and at most one is present. |
| Store.RedeemedAtMostOnce | crates/erbridge-core/src/tenant_store.rs:51-61 | Of any number of redemptions of a code issued once at most one succeeds, and then the code is gone. |
| Store.RedeemableWhileHostIsFree | crates/erbridge-core/src/tenant.rs:206-273 | A live code can be redeemed under a fresh name and PSK if and only if no tenant holds its host. |
| Store.SecondCodeWaits | crates/erbridge-core/src/tenant.rs:206-273 | Once one of two codes for a host was redeemed, the other cannot be redeemed after any further edits, at any time and under any name and PSK, unless a revocation of the new tenant is among those edits. |
| Store.WithdrawalRevivesSecondCode | crates/erbridge-core/src/reverse/tenant_serve.rs:529-541 | Of two redeemable codes, redeeming one and revoking its tenant leaves the other redeemable. |
| Store.TenantsOnlyLeaveByRevoke | crates/erbridge-core/src/tenant_store.rs:22-62 | A tenant survives an edit, up to its suspension flag, if and only if the edit is not the revocation of its name. |
| Store.TenantsComeFrom | crates/erbridge-core/src/tenant_store.rs:22-62 | A tenant after an edit was there before, was added by it, or was enrolled by it. |
| Store.MemoryStore.ReplaceWith | crates/erbridge-core/src/tenant_store.rs:80-85 | The guarded set becomes the edited one if the edit succeeds and is left alone otherwise; the result is the edit's. |
| Store.MemoryStore.RedeemCode | crates/erbridge-core/src/tenant_store.rs:53-61 | Succeeds if and only if the code is redeemable; hands out exactly the tenant that was added, with the code's host and limit; a failure changes nothing. |
| FileStore.WritesAreLinearizable | crates/erbridge-core/src/tenant_store.rs:116-144 | In every interleaving of writers, readers and crashes, whatever temporary files were left over at the start, the file is the fold of the committed edits in rename order, each of which succeeded on the contents before it, and nothing is committed over an unusable file; a writer told of success committed its edit once and got that commit's result, and one told of failure committed nothing. |
| FileStore.FileStaysValid | crates/erbridge-core/src/tenant_store.rs:116-144 | From a file that loads, the file loads in every reachable state, as the fold of the committed edits, and is a valid set. |
| FileStore.LoadsExactly | crates/erbridge-core/src/tenant.rs:301-309 | A missing file loads as the empty set, a parsed one as its contents if and only if they are valid, and one half written or not parsing not at all. |
| FileStore.BadFileIsLeftAlone | crates/erbridge-core/src/tenant_store.rs:125-127 | A file that is half written, does not parse, or parses to an invalid set is never overwritten. |
| FileStore.ReadersSeeCommittedStates | crates/erbridge-core/src/tenant_store.rs:112-114 | A reader without the lock gets the whole contents as of its open, whatever writers did before it finished reading. |
| FileStore.ContentsChangeByRenameOnly | crates/erbridge-core/src/tenant_store.rs:129-141 | No step but a rename changes what the path reads as, and a rename puts there what its writer prepared. |
| FileStore.CommitAlone | crates/erbridge-core/src/tenant_store.rs:116-144 | A writer that finds the lock free and meets no failure commits its edit, whatever temporary file was left over, if the file loads and the edit applies. |
| FileStore.RefuseAlone | crates/erbridge-core/src/tenant_store.rs:125-127 | A writer that finds an unusable file, or whose edit does not apply, is told so; the file is unchanged and the lock free. |
| FileStore.FailedWriteCleansUp | crates/erbridge-core/src/tenant_store.rs:132-141 | A writer whose file operation fails after its edit is told so; its temporary file is removed if that works, nothing else changed, and the lock is free. |
| FileStore.LockIsFreed | crates/erbridge-core/src/tenant_store.rs:117-123 | However its holder leaves, by finishing or by crashing, the lock is free again. |
| FileStore.RunKeepsInv | crates/erbridge-core/src/tenant_store.rs:116-144 | Exclusive locking, private temporary files and agreement of file and history hold in every reachable state. |
| FileStore.Disk.WritePrivate | crates/erbridge-core/src/tenant_store.rs:148-165 | The private file is written afresh; whatever fails, the real file and other processes' private files are untouched; with no fault it holds the content. |
| FileStore.Disk.ReplaceWith | crates/erbridge-core/src/tenant_store.rs:116-144 | Success means the file holds the edited set and the private file is gone, failure that the file is untouched; an unusable file always means failure; with no fault it succeeds if and only if the file loads and the edit applies. |
| Enrollment.EveryCodeIsAccountedFor | crates/erbridge-core/src/reverse/tenant_serve.rs:502-541 | In every interleaving each code ever stored is present, pruned, or spent on exactly one enrollment that is delivered, withdrawn, failed to withdraw, still under way, or (only at shutdown) orphaned. |
| Enrollment.SendDecides | crates/erbridge-core/src/reverse/tenant_serve.rs:523-541 | In every run an enrollment is delivered if and only if sending succeeded, being or done with withdrawing if and only if sending failed, done with it if and only if the revoke ran, and past its redemption if and only if that ran. |
| Enrollment.CommitDecides | crates/erbridge-core/src/reverse/tenant_serve.rs:506-510 | A redemption creates its tenant if and only if the store can be written and the code is redeemable; otherwise the enrollment is refused and the store as it was. |
| Enrollment.TenantStaysUntilOperatorRevokes | crates/erbridge-core/src/reverse/tenant_serve.rs:523-541 | Once its credentials were sent, or while they may be, an enrollment's tenant stays in the store under its name and PSK in every run without an operator's revocation of that name. |
| Enrollment.EnrollmentsHappen | crates/erbridge-core/src/reverse/tenant_serve.rs:495-547 | For every redeemable code and fresh name, the run in which the credentials arrive and the tenant stays, and the one in which they do not and the tenants are as before. |
| Enrollment.EnrolledTenantsHaveOwners | crates/erbridge-core/src/reverse/tenant_serve.rs:502-541 | A tenant stored under an enrollment's name is the one that enrollment created, with its PSK; a refused or withdrawn enrollment leaves none. |
| Enrollment.CredentialsWorkUntilRevoked | crates/erbridge-core/src/reverse/tenant_serve.rs:502-541 | Once a redemption took effect, the store holds a tenant of that name with the generated PSK in every later state until its name is revoked. |
| Enrollment.OrphanedExactly | crates/erbridge-core/src/reverse/tenant_serve.rs:508-527 | An enrollment is orphaned if and only if its task was dropped at shutdown and its redemption took effect; its tenant then stays in the store until it is revoked. |
| Enrollment.OrphansHappen | crates/erbridge-core/src/reverse/tenant_serve.rs:508-510 | For every redeemable code and fresh name, the run in which shutdown drops the task between submitting the redemption and its taking effect leaves an orphan and its tenant. |
| Enrollment.WithdrawalTakesOnlyItsOwn | crates/erbridge-core/src/reverse/tenant_serve.rs:529-541 | A withdrawal removes the tenant with this enrollment's own PSK and name and no other; with a writable store it fails only if that tenant is already gone. |
| Enrollment.RunEnrollment | crates/erbridge-core/src/reverse/tenant_serve.rs:495-547 | Refused if and only if the code is not redeemable, and then nothing changed; delivered: that one tenant was added; not sendable: the tenants are as before and the code is spent. |
| Enrollment.RunKeepsInv | crates/erbridge-core/src/reverse/tenant_serve.rs:495-547 | The store is the fold of its edits and every enrollment owns what its phase says, in every reachable state. |
| Hub.AllowsExactly | crates/erbridge-core/src/reverse/tenant_serve.rs:351-354 | With a valid set a session may run if and only if the set has an enabled tenant of its name with its PSK. |
| Hub.SweepsExactly | crates/erbridge-core/src/reverse/tenant_serve.rs:470-482 | A sweep for a valid set keeps exactly the entries of enabled tenants with their PSK, unchanged, and ends exactly the other sessions. |
| Hub.CheckDecides | crates/erbridge-core/src/reverse/tenant_serve.rs:351-357 | A session that joined passes its check if and only if the published set has its tenant enabled with its PSK. |
| Hub.SessionsLiveAsRun | crates/erbridge-core/src/reverse/tenant_serve.rs:322-385 | In every run a session has joined, lost its connection, cleaned up or been dropped if and only if that happened in the run. |
| Hub.ShutdownCancelsAll | crates/erbridge-core/src/reverse/tenant_serve.rs:330-332 | Once the server stops, every session there is, and every one still beginning, is cancelled. |
| Hub.RevocationIsSafe | crates/erbridge-core/src/reverse/tenant_serve.rs:339-379 | In every interleaving each live uncancelled session is in the map and its tenant enabled with its PSK in the published set, or has its own check or self-cancel ahead, or is about to be cancelled by its displacer, or is covered by a pending sweep of the very `apply` that published the current set. |
| Hub.QuietMeansAllowedAndUnique | crates/erbridge-core/src/reverse/tenant_serve.rs:339-360 | With no check, cancel or sweep outstanding, every live session is in the map, its tenant is enabled with its PSK in the published set, and a tenant has at most one. |
| Hub.OneSessionPerTenant | crates/erbridge-core/src/reverse/tenant_serve.rs:336-364 | Of two live uncancelled sessions of one tenant, one has a displacer that still owes it its cancel, and it is not the map's. |
| Hub.CleanUpSparesOthers | crates/erbridge-core/src/reverse/tenant_serve.rs:375-379 | Whatever order sessions entered the map in, a session's cleanup removes no other session's entry, and its own if it is still there. |
| Hub.RoutedSessionIsTheTenants | crates/erbridge-core/src/reverse/tenant_serve.rs:396-404 | The session a connection is sent through authenticated as the tenant it is listed under, with the PSK kept beside it. |
| Hub.InnocentSessionsSurvive | crates/erbridge-core/src/reverse/tenant_serve.rs:466-483 | From its insertion on a session stays in the map under its own id, uncancelled, unless displaced, disconnected, shut down, or denied by the set published then, one still to be swept then, or one brought in later. |
| Hub.RunKeepsInv | crates/erbridge-core/src/reverse/tenant_serve.rs:322-385 | The inductive invariant behind the hub theorems holds over every run. |
| Hub.SharedHub.Sweep | crates/erbridge-core/src/reverse/tenant_serve.rs:470-482 | In whatever order the map is visited, exactly the entries of enabled tenants with the PSK they have in the set stay, and exactly the others are cancelled. |
| Hub.RunningHub.Perform | crates/erbridge-core/src/reverse/tenant_serve.rs:322-489 | Every step, done in place through the hub's own operations, changes the whole state exactly as the step system says. |
| Revocation.RevokedIsGone | crates/erbridge-core/src/tenant_store.rs:40-43 | After a revocation, found or not, and any edits that do not bring the name back, no tenant has the name. |
| Revocation.ReadersMissTheRevoked | crates/erbridge-core/src/tenant_store.rs:112-114 | In every interleaving of writers and readers a reader that opens the file once the revocation is committed gets a valid set without the tenant. |
| Revocation.RevokedTenantIsGone | crates/erbridge-core/src/reverse/tenant_serve.rs:438-482 | In every interleaving of file and hub: when the set published last was read from the file after a committed revocation, every live session of that tenant still has a check, a cancel or the sweep of that set ahead of it; once none of these is outstanding the tenant has no live session. |
| Revocation.PublishedIsCommitted | crates/erbridge-core/src/reverse/tenant_serve.rs:438-447 | In every interleaving of file and hub the published set is the fold of the edits committed when the reader behind the last publication opened the file, and is a valid set. |
| Revocation.RevokedExactlyWhenReadAfter | crates/erbridge-core/src/reverse/tenant_serve.rs:438-447 | The published set lacks a revoked tenant if and only if the reader behind the last publication of the run opened the file after the revocation was committed (of readings no older than the last edit that brought the tenant). |
| Revocation.StaleSetCanStay | crates/erbridge-core/src/reverse/tenant_serve.rs:513-516 | For every enabled tenant, a run in which one reader opens the file before its revocation and one after, the first one's set is published last, and with every `apply` finished and nothing outstanding the revoked tenant is published and has a live session. |
| Slots.SlotsAreCounted | crates/erbridge-core/src/reverse/tenant_serve.rs:49-53 | In every interleaving an address's count is the number of slots it holds, is never zero while stored and at most 16, and all slots together are at most the permits taken, which are at most 256. |
| Slots.ReleaseNeverUnderflows | crates/erbridge-core/src/reverse/tenant_serve.rs:108-118 | Whenever a slot is dropped its address has a count of at least one. |
| Slots.RefusalLeavesNoTrace | crates/erbridge-core/src/reverse/tenant_serve.rs:123-137 | An attempt is refused if and only if a limit is reached, and a refused one restores both limits exactly. |
| Slots.TakeThenDropRestores | crates/erbridge-core/src/reverse/tenant_serve.rs:101-137 | Taking a slot and dropping it restores the permits and the map exactly. |
| Slots.SlotTable.TryCount | crates/erbridge-core/src/reverse/tenant_serve.rs:125-130 | Counts an address up if and only if it is below its limit; a refusal leaves the map unchanged. |
| Slots.SlotTable.Uncount | crates/erbridge-core/src/reverse/tenant_serve.rs:109-117 | Counts an address down and forgets it at zero; an unknown address is left alone. |
| Slots.Handshakes.Perform | crates/erbridge-core/src/reverse/tenant_serve.rs:101-137 | Every step done through the table is the step system's step and keeps its invariant. |
| Budgets.PermitsAreConserved | crates/erbridge-core/src/reverse/tenant_serve.rs:147-159 | For every semaphore ever made, permits left plus permits held equal its capacity throughout. |
| Budgets.RelaysWithinHeldCapacity | crates/erbridge-core/src/reverse/tenant_serve.rs:141-159 | A tenant's open relays never exceed the summed capacities of those of its semaphores that still have holders. |
| Budgets.RelaysWithinLimit | crates/erbridge-core/src/reverse/tenant_serve.rs:406-413 | While every request asks for the same limit and no `apply` drops the tenant's budget, its open relays never exceed that limit. |
| Budgets.WithinLimitExactly | crates/erbridge-core/src/reverse/tenant_serve.rs:141-159 | In every reachable state a tenant is within its current limit if and only if no more relays are left on its earlier semaphores than the current one has permits left. |
| Budgets.TrimForgets | crates/erbridge-core/src/reverse/tenant_serve.rs:484 | A trim forgets exactly the budgets of unknown tenants: the next connection of one gets a fresh full semaphore and of a known tenant the one there is. |
| Budgets.ChangingLimitsAddUp | crates/erbridge-core/src/reverse/tenant_serve.rs:141-159 | A run in which a tenant has three relays open although no request asked for more than two. |
| Budgets.BudgetTable.PickSemaphore | crates/erbridge-core/src/reverse/tenant_serve.rs:148-157 | A tenant keeps its semaphore while its limit is the same and otherwise gets a fresh full one. |
| Budgets.BudgetTable.Perform | crates/erbridge-core/src/reverse/tenant_serve.rs:147-159 | Every step in place is the step system's step and keeps its invariant. |
| Frames.FramesInWire | crates/erbridge-core/src/noise.rs:229-283 | Splitting a stream of frames followed by any incomplete rest gives back those frames. |
| Frames.FramesInPrefix | crates/erbridge-core/src/noise.rs:229-283 | More bytes can only add frames at the end. |
| Frames.PrefixHoldsFirstFrames | crates/erbridge-core/src/noise.rs:229-283 | A reader that consumed a prefix of the sender's stream holds the sender's first frames, all of them if it consumed everything. |
| Frames.MessagesArriveInOrder | crates/erbridge-core/src/noise.rs:373-448 | Every message returned opens under its nonce to the chunk the peer sealed at that position. |
| Frames.RoundTrip | crates/erbridge-core/src/noise.rs:373-448 | What was opened is a prefix of the chunks sealed, what was handed on a prefix of the bytes written, and all of them once everything is consumed. |
| Frames.IdealExists | crates/erbridge-core/src/noise.rs:33-36 | The assumptions made about the cipher can be met. |
| Noise.FrameReader.PollFrame | crates/erbridge-core/src/noise.rs:236-283 | However the input is split and interrupted, consumed bytes are completed frames plus the partial one; a frame is returned whole; the end is clean if at a frame boundary and truncated if inside a frame; not being ready and failing are reported only when the inner stream just said so. |
| Noise.FrameReader.ReadsTheDecomposition | crates/erbridge-core/src/noise.rs:229-283 | At every return the frames delivered are exactly the length-prefixed decomposition of the bytes consumed. |
| Noise.FrameWriter.PollDrain | crates/erbridge-core/src/noise.rs:319-342 | Bytes handed to the inner stream plus the unsent rest never change; success if and only if nothing is left; stopping short only as the inner stream's own answer. |
| Noise.FrameWriter.Load | crates/erbridge-core/src/noise.rs:426-432 | Only an empty buffer is overwritten, and what it then holds is the message behind its untruncated 16-bit length. |
| Noise.NoiseStream.Seal | crates/erbridge-core/src/noise.rs:422-432 | Sealing the next chunk keeps bytes out plus unsent rest equal to the framed ciphertexts of all chunks in order. |
| Noise.NoiseStream.PollRead | crates/erbridge-core/src/noise.rs:374-407 | Keeps the stream's invariant; hands out waiting plaintext first and without touching the inner stream; an empty result with room to spare means the peer ended between two frames, so empty messages are never an end. |
| Noise.NoiseStream.PollWrite | crates/erbridge-core/src/noise.rs:410-448 | Keeps the stream's invariant; a pending frame is finished first; what is reported accepted is the first 65519 bytes at most, sealed as one chunk; a failure is the inner stream's own; the stream becomes lossy exactly in a write that reports failure after sealing, which every failure of a non-empty write is when no frame was pending. |
| Frames.FrameBytes | crates/erbridge-core/src/noise.rs:426-432 | A frame is its length in two bytes, the high one first, and the body. |
| Noise.NoiseStream.PollFlush | crates/erbridge-core/src/noise.rs:450-459 | Success means nothing is pending, the inner stream has the framed ciphertexts of all chunks, and it said it was flushed; with nothing pending the answer is the inner stream's. |
| Noise.NoiseStream.PollShutdown | crates/erbridge-core/src/noise.rs:461-470 | The same with closing in place of flushing. |
| Noise.NoMessageIsBad | crates/erbridge-core/src/noise.rs:374-407 | Behind a link that carries a prefix of an honest peer's stream no message ever fails to open. |
| Noise.DeliveredIsPrefix | crates/erbridge-core/src/noise.rs:374-448 | For every chunking and every schedule of the two inner streams, the bytes read are a prefix of the bytes sealed; and a prefix of the bytes accepted as long as no write has failed after sealing, or the reader is not past what was accepted before the first that did. |
| Noise.EverythingIsDelivered | crates/erbridge-core/src/noise.rs:374-459 | With nothing pending at the writer and the reader drained, the bytes read are all the bytes sealed; they are the bytes accepted, or a prefix of them, if and only if no write failed after sealing. |
| Noise.LosslessExactly | crates/erbridge-core/src/noise.rs:441-448 | What was accepted is what was sealed if and only if no write failed after sealing. |
| Noise.RunLink | crates/erbridge-core/src/noise.rs:373-459 | Two ends started afresh and any sequence of writes, flushes, reads and arrivals over a link that keeps order and may end anywhere: both stay sound, what was read is a prefix of what was sealed and, under the condition of `Noise.DeliveredIsPrefix`, of what was accepted; with nothing pending and the reader drained it is what was accepted if and only if no write failed after sealing. |
| Noise.RefusedBytesArrive | crates/erbridge-core/src/noise.rs:441-444 | A run, for any first chunk, in which the write is reported failed, nothing was accepted, and a flush and a read deliver the chunk all the same. |
| Sni.Cursor.Take | crates/erbridge-core/src/sni.rs:151-158 | A read fails if and only if too little is left, and then moves nothing. |
| Sni.HostNameExactly | crates/erbridge-core/src/sni.rs:133-141 | A name is usable, and kept as it is, if and only if it is not empty, has only the bytes of ASCII letters, digits, hyphen, dot and underscore, and is not four decimal numbers below 256 with dots between them. |
| Sni.ReadNames | crates/erbridge-core/src/sni.rs:121-130 | The loop over the name list computes its specification: the first host name, if usable. |
| Sni.ReadExts | crates/erbridge-core/src/sni.rs:105-115 | The loop over the extensions computes its specification: the answer of the first server_name extension. |
| Sni.ReadHandshake | crates/erbridge-core/src/sni.rs:82-116 | The cursor-based parser of a handshake body computes the specification parser. |
| Sni.ReadRecord | crates/erbridge-core/src/sni.rs:44-55 | Reads exactly one record and loses no byte; an error, read failures aside, is the one parsing the whole stream gives. |
| Sni.PeekSni | crates/erbridge-core/src/sni.rs:34-42 | Peeking decides as parsing the whole stream would, and buffered plus unread bytes are the client's stream. |
| Sni.RecordAlone | crates/erbridge-core/src/sni.rs:71-80 | A record followed by anything parses as its own body does. |
| Sni.MoreBytesChangeNothing | crates/erbridge-core/src/sni.rs:71-80 | Bytes after the record leave every answer and every error but truncation unchanged. |
| ClientHello.ParseInvertsPrint | crates/erbridge-core/src/sni.rs:57-141 | Every ClientHello printed with the numbers of section 4.1.2 of RFC 8446 and section 3 of RFC 6066 parses to its first host name if that is usable, byte by byte, and to no name otherwise, whatever follows it. |
| ClientHello.TruncationIsAnError | crates/erbridge-core/src/sni.rs:71-80 | Every strict prefix of a printed ClientHello is an error. |
| ClientHello.PrintInvertsParse | crates/erbridge-core/src/sni.rs:57-141 | Whatever parses is a printed ClientHello followed by ignored bytes, and its result is that hello's answer. |
| ClientHello.AcceptsExactlyPrinted | crates/erbridge-core/src/sni.rs:57-141 | The parser gives an answer if and only if the input is a printed ClientHello with that answer, followed by anything. |
| Streams.Source.ReadExact | crates/erbridge-core/src/sni.rs:46-53 | A stream with no failing read yields the bytes asked for, across any number of short reads, if and only if there are that many. |
| Relay.WriteFrame | crates/erbridge-core/src/reverse/mod.rs:39-47 | Data that fits 16 bits of length goes out as one frame, cut off anywhere only by a failing write; longer data writes nothing. |
| Relay.ReadFrame | crates/erbridge-core/src/reverse/mod.rs:49-65 | Reads the frame at the front of the stream and nothing after it; on a sound stream it succeeds if and only if one of at most the given length is there. |
| Relay.Pump | crates/erbridge-core/src/proxy.rs:21-36 | What is written is what was read, to the end, passed on as a shutdown, and counted; cut off anywhere it is a prefix; sound streams are never cut off. |
| Relay.RelayToB | crates/erbridge-core/src/reverse/serve.rs:211-240 | A puts the framed name, the replayed prefix and the rest of the client's bytes on the stream, or a prefix of that. |
| Relay.RelayFromB | crates/erbridge-core/src/reverse/serve.rs:242-273 | The client gets B's bytes without the first, or a prefix of them, and nothing unless the first is 1. |
| Relay.HandleInbound | crates/erbridge-core/src/reverse/connect.rs:106-165 | B's outcome for every header, target and dial; the target gets exactly what follows the header, and A gets 1 and the target's bytes, or 0, or nothing. |
| Relay.RelayConnection | crates/erbridge-core/src/reverse/serve.rs:197-275 | End to end: the target gets prefix and client's bytes and the client the target's, exactly if the connection completed and a prefix always; with sound streams it completes if and only if the name fits 256 bytes, is known to B and its target answers. |
| Relay.HeaderRoundTrip | crates/erbridge-core/src/reverse/mod.rs:39-65 | B reads back A's name and is left with exactly prefix and rest if and only if the name has at most 256 bytes. |
| Relay.HeaderOfAPrefix | crates/erbridge-core/src/reverse/connect.rs:111-115 | Of a request still on its way B cannot read the header yet if and only if it is not all there, and never reads another name or other bytes. |
| Relay.LongNameNeverRead | crates/erbridge-core/src/reverse/mod.rs:49-65 | A name over the limit is never taken for a header, however much of the request arrived. |
| Serve.HandleSni | crates/erbridge-core/src/reverse/tenant_serve.rs:387-424 | An incoming connection goes to the enabled holder of its server name if that tenant is online and has a permit left, and to nobody otherwise; then the target gets the client's whole stream, hello included, and the client the target's, exactly or cut off to a prefix; the permit is back at the end. |
| Serve.RoutedIsTheHolder | crates/erbridge-core/src/reverse/tenant_serve.rs:396-404 | In a valid set a stream is routed to a tenant if and only if that tenant is enabled, holds the server name in it, read byte by byte as characters, and has a session. |
| Connections.RelayedToItsTenant | crates/erbridge-core/src/reverse/tenant_serve.rs:396-413 | In every interleaving of connections with sessions, reloads and budgets: a connection being relayed goes to the enabled tenant that held its server name in the set it was looked up in, through a session that authenticated as that tenant, on a permit of one of that tenant's semaphores of the size of its limit in that set. |
| Connections.ChooseDecides | crates/erbridge-core/src/reverse/tenant_serve.rs:396-400 | A connection gets a tenant if and only if the set then published has an enabled one for its server name, and then that one. |
| Connections.GoesThrough | crates/erbridge-core/src/reverse/tenant_serve.rs:396-423 | In every reachable state a connection for an enabled tenant's host can go straight through: it is relayed through the tenant's session if there is one and a permit is left, and turned away otherwise. |
| Connections.RelaysHoldPermits | crates/erbridge-core/src/reverse/tenant_serve.rs:401-423 | In every such interleaving the connections relayed to a tenant are exactly the holders of its permits, and at most the capacities of its semaphores still held. |
| Mux.AnsweredInOrder | crates/erbridge-core/src/mux.rs:103-162 | In every run the answered waiters are the first of the callers accepted, none twice; the k-th gets what the connection returned to the k-th pass that found somebody waiting, both read off the run, and the later ones get Closed; the rest are pending, queued or cut off, in order. |
| Mux.StopsExactlyAtTheEnd | crates/erbridge-core/src/mux.rs:134-146 | A pass stops the driver if and only if the connection has ended and there is nobody to serve or pull. |
| Mux.OpenedStreamArrives | crates/erbridge-core/src/mux.rs:52-64 | The run in which a caller is queued, pulled, and served with the stream the connection opened. |
| Mux.NobodyWaitsForever | crates/erbridge-core/src/mux.rs:52-64 | Once the driver is gone every accepted waiter was either answered exactly once or cut off with the channel. |
| Mux.Driver.TrySend | crates/erbridge-core/src/mux.rs:53-58 | A waiter is queued if and only if the driver is there and the channel has room. |
| Mux.Driver.Stop | crates/erbridge-core/src/mux.rs:156-162 | Stopping answers everyone pending and then everyone queued with Closed and leaves none. |
| Stats.TotalsAreBounded | crates/erbridge-core/src/stats.rs:267-283 | In every interleaving with opens, closes and copy tasks that may go on counting after their connection was closed: true sum at the lock + mid-close <= reported + late <= true sum + mid-close, where mid-close is what was added to the total for connections still listed and late is what was counted, for connections off the list, after their close had loaded the counter. |
| Stats.TotalsAreExactAtRest | crates/erbridge-core/src/stats.rs:267-283 | When nothing was counted meanwhile, reported + late = true sum + mid-close; so no byte is missing if and only if late is at most mid-close, and the total is exact if and only if the two are equal. |
| Stats.StillCountersAreNeverMissed | crates/erbridge-core/src/stats.rs:200-207 | In runs where no counter moves once its close has loaded it: true sum at the lock <= reported <= true sum + mid-close, and at rest exact if and only if nothing is mid-close. |
| Stats.LateBytesAreMissed | crates/erbridge-core/src/reverse/serve.rs:259-266 | A run in which any number of bytes, counted by a copy task after the close loaded the counter, is missing from a later total. |
| Stats.MidCloseCountsTwice | crates/erbridge-core/src/stats.rs:200-207 | A run in which a connection's bytes are reported twice, for any number of bytes. |
| Stats.Registry.Close | crates/erbridge-core/src/stats.rs:200-207 | A close with nothing in between moves the connection's bytes into the total and leaves the true sum, the bytes counted twice and the bytes missed as they were. |
| Stats.Registry.Totals | crates/erbridge-core/src/stats.rs:267-283 | The uninterrupted loop reports the true sum, plus the bytes of connections it finds mid-close, minus the late ones. |
| Stats.EventLog.Push | crates/erbridge-core/src/stats.rs:232-240 | The log is always the last lines pushed, 500 of them once there were that many. |

## Left out

- Sockets, accept loops, timeouts, real time and the tokio scheduler: which step comes next, and what each read or write moves, is arbitrary instead.
- TLS, yamux, snow, SHA-256 and `rand`: an ideal cipher with a 16-byte tag, an abstract test of which PSK verifies a handshake message, an ordered mux stream, and fresh names stand for them. The handshake messages themselves are not modelled.
- The nonce is counted without bound; exhaustion at 2^64 is not modelled, nor is the wrap-around of session ids and byte counters.
- A message that fails to open leaves the nonce as it was, as section 5.1 of the Noise Protocol Framework, revision 34, has it; snow's own behaviour is not part of this model.
- TOML and JSON syntax: a file is the lists it parses to, a half-written or unparsable one, or nothing; reading back what was written is assumed. PSKs are abstract values, so their hex form and `constant_time_eq` are left out as easy.
- File permissions, `sync_all` and power loss: a crash is of a process, not of the disk.
- FileStore: concurrent writers are modelled on values; the class `Disk` carries out one writer's critical section in place.
- Stats: interleavings are modelled on values, for one direction of bytes; each connection is closed once, as the callers do.
- Mux.Driver.TrySend: the channel's capacity is any number, because how much room cloned senders add depends on the channel's implementation.
- Relay.RelayConnection: the two directions run one after the other; they share no stream, and stopping one early leaves a prefix, which the contracts cover. Names on the stream are bytes, so the UTF-8 check on B's side is not modelled; A sends names that are UTF-8.
- Serve.HandleSni: one connection from start to end with the hub as it is; `Connections` has the interleavings, without the bytes. How a tenant's name is encoded is a parameter.
- The single-tenant control connection (`crates/erbridge-core/src/reverse/serve.rs:113-143`): its check precedes the handshake, so two clients can pass it; no uniqueness is claimed.
- UDP forwarding (`crates/erbridge-core/src/forward.rs`), reconnect backoff, configuration, command line and terminal interface: easy members or out of the tunnel's core.
- Event broadcast and the JSON log file.
