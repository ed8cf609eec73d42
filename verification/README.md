# Boru core: models and proofs

Boru is a peer-to-peer chat core. This project models its run-level state machines in Dafny 4.11 and proves
what every run of them keeps. One module per component:

| module | component |
|---|---|
| Authorization | the replicated room authorization log: roles, grants, bans, replay protection |
| CandidateAdmission | rolling admission of discovered peers: rate window, cooldown, bounded memory |
| TextOutbox | the crash-safe text outbox: admission, projection into history and threads, repair |
| BufferPool | the reference-counted buffer pool under interleaved threads |
| CatalogueFetch | paginated catalogue retrieval against an arbitrary server, and the honest server |
| ThrottledFetch | the catalogue fetch behind the per-peer limiter |
| Reconnection | the companion client's reconnection coordinator |
| ChatHistory | the delivery reducer, event ids and recent messages |
| MessagePaging, Text | companion message paging with its textual cursor |
| PeerLimiter | the per-peer catalogue limiters |
| PushBroker | the bounded push broker |
| ActivityAlerts | coalesced activity alerts |
| ManifestClosure | the DLL dependency worklist |
| EntryNames | collection entry names and export paths |
| Basics | shared: optional values, integer limits, order facts |

`dafny verify dfyconfig.toml` checks everything.

Objects that the program updates in place are classes; each method is proved equal to a step function on
values, and the run-level results are lemmas about that function. Threads and crashes are interleavings of
atomic steps. Clocks, random ids, byte sizes and store failures are parameters. Signatures and hashes are
symbolic: a hash is the value hashed, a signature check is a function of the event or catalogue.

Results where the code and its documentation differ (the code is followed):

- Candidate admission: the cooldown can be cut short by eviction. It holds in all runs exactly if
  `maxPerWindow * ceil(cooldown / window) <= maxRemembered + 1` (or one of the numbers is trivial); the
  defaults satisfy it.
- Text outbox: thread rows are keyed by content alone, so equal replies share one row. A failure between the
  history row and the conversation metadata can lose the metadata until a new message; the metadata is there
  exactly if not every row of the conversation met that failure. A send whose read-back fails returns an error
  although its command is admitted; a retry returns the admitted id and bytes.
- Buffer pool: the last drop returns the buffer exactly if no other drop of it is half done; two racing last
  drops free it.
- Catalogue: the fetch bound never trips on an honest server, but the server's default request limit does
  above 4,500 files within one window.
- Reconnection: "Connected" means authenticated and caught up for the current registration exactly if the calls
  kept to one registration from before the authentication on; and a snapshot staged on one connection can be
  committed on the next.
- Delivery: a current `Published`, `StartAttempt` or `Retry` takes a receipt back; read evidence is never lost.
- Limiter: the clock is read before the lock is taken, so calls may be recorded late, and the request limit then
  holds only for windows shorter by that lateness (exactly, unless all budgets are one), and answers may differ
  from those of the complete log. `record_invalid` can say "unblocked" when the next request is blocked.
- Push broker: the three-delivery limit holds exactly if each claim is retried at most once; two retries of
  one claim already allow a fourth delivery.
- Manifest: of two listed plugins whose names differ only in case one is not read, nor is a plugin with the name of
  a bin DLL. The list is complete for every import table exactly if there are none of either or every bin DLL is a
  root, and free of unwanted DLLs exactly if every bin DLL with a plugin name is a core library as well.

## Model

| member | source | states |
|---|---|---|
| Authorization.ValidateIffWellFormed | src/authorization.rs:217-233 | validation succeeds exactly on states with one Owner who is the root, matching member and permission keys, and an unbanned owner |
| Authorization.ClosingValidationSucceeds | src/authorization.rs:312-335 | once evaluation accepts an event, validation of the resulting state cannot fail |
| Authorization.AuthorizationState.constructor | src/authorization.rs:191-204 | a new room passes validation |
| Authorization.AuthorizationState.Apply | src/authorization.rs:312-335 | an accepted event takes effect as a whole and leaves a valid state; a rejected one leaves the state as it was |
| Authorization.AuthorizationState.AdmitMember | src/authorization.rs:237-244 | admission succeeds exactly for an unknown, unbanned peer and a role other than Owner, and otherwise changes nothing |
| Authorization.OwnerHoldsEverything | src/authorization.rs:98-108 | the owner role has all eight permissions |
| Authorization.StepKeepsSound | src/authorization.rs:255-335 | one delivery or admission keeps the room sound, its owner and its group |
| Authorization.ReachableSound | src/authorization.rs:191-335 | every reachable room has exactly one Owner, who holds everything and is never banned |
| Authorization.AcceptedIff | src/authorization.rs:255-370 | an event is accepted exactly if the room is well-formed, the event authentic, and a table of literal roles permits it: the owner over everyone else, moderators over guests and members |
| Authorization.RejectedBecause | src/authorization.rs:258-308 | which error an authentic event gets, for each error exactly when |
| Authorization.NotAuthenticBecause | src/authorization.rs:358-370 | which error an event that is not authentic gets, the first reason first |
| Authorization.EffectIs | src/authorization.rs:312-335 | what an accepted event does to the role, ban and every permission of every peer, and that it does nothing else |
| Authorization.BootstrapIs | src/authorization.rs:237-244 | the same for an admission outside the log |
| Authorization.DefaultsAre | src/authorization.rs:98-108 | the permissions of each role, permission by permission |
| Authorization.PowerlessChangeNothing | src/authorization.rs:255-335 | whatever guests, members and strangers send, in any number and order, changes nothing |
| Authorization.CapabilityProvenance | src/authorization.rs:255-335 | every peer but the owner holds a permission, after any run, exactly if an accepted operation gave it and no accepted one has taken it since |
| Authorization.BannedIff | src/authorization.rs:284-331 | who is banned after any run: those with an accepted ban that no accepted unban followed |
| Authorization.AllowsIff | src/authorization.rs:247-251 | what the enforcement boundary allows after any run, from the accepted operations alone |
| Authorization.StateIsFoldOfAccepted | src/authorization.rs:312-335 | after any delivery schedule the state is the fold of the accepted events alone, in order, all of them genuine |
| Authorization.AcceptedNumbering | src/authorization.rs:358-370 | accepted events are numbered consecutively, saturating at the top of the counter |
| Authorization.ReplaySetIsAccepted | src/authorization.rs:312-335 | the replay set grows by exactly the ids of the accepted events, each counted once |
| Authorization.ReplayRejected | src/authorization.rs:358-370 | an event already applied is rejected without effect |
| Authorization.AcceptedStrictlyIncreasing | src/authorization.rs:358-370 | with one genuine event per sequence number, accepted sequence numbers strictly increase; forged events may reuse any number |
| Authorization.ReplicasPrefixRelated | src/authorization.rs:312-370 | with one genuine event per sequence number, two replicas have prefix-related histories under any loss, duplication, reordering and forgery |
| Authorization.HeightCountsAccepted | src/authorization.rs:358-370 | below the top of the counter the last sequence number counts the accepted events |
| Authorization.SameHeightSameState | src/authorization.rs:312-370 | with one genuine event per sequence number, replicas at the same sequence number are in the same state |
| Authorization.AcceptedIsLogPrefix | src/authorization.rs:312-370 | a replica whose genuine deliveries come from a log has accepted a prefix of it |
| Authorization.ReplayConverges | src/authorization.rs:312-370 | with one genuine event per sequence number, replaying a log brings a replica to the state of the log, or leaves it alone if it had already accepted more; forged events and events from outside the log may have been delivered before |
| Authorization.BanFreezes | src/authorization.rs:237-331 | while a peer is banned no event or admission changes its role or permissions and nothing it signs is accepted |
| Authorization.BanUnbanRoundTrip | src/authorization.rs:247-331 | a ban denies everything, and after the next unban every capability is what it was just before the ban |
| Authorization.MembersChangeOnlyByOwner | src/authorization.rs:268-295 | only genuine events of the owner change the member map, and never to Owner |
| Authorization.AuthorityProvenance | src/authorization.rs:98-331 | a non-owner holds ManageRoom or ManageRoles exactly if an owner grant of it was accepted and no role change or revocation for that peer since |
| Authorization.EscalationNeedsOwner | src/authorization.rs:98-331 | holding an owner-only permission beyond the role needs an owner grant that still stands |
| Authorization.HoldingStep | src/authorization.rs:255-331 | one operation changes who holds an owner-only permission exactly by an owner grant or a reset |
| CandidateAdmission.CandidateAdmission.constructor | src/candidate_admission.rs:106-117 | the remembered bound is clamped to 128..256, and the rest kept |
| CandidateAdmission.CandidateAdmission.Prune | src/candidate_admission.rs:176-197 | the two draining loops compute the specified state |
| CandidateAdmission.CandidateAdmission.EnforceBound | src/candidate_admission.rs:200-206 | the eviction loop computes the specified state |
| CandidateAdmission.CandidateAdmission.AdmitCandidate | src/candidate_admission.rs:123-138 | verdict and new state of one candidate |
| CandidateAdmission.CandidateAdmission.AdmitBatch | src/candidate_admission.rs:144-156 | a batch is the run of its candidates up to the cycle cap, and returns exactly the admitted ones in order |
| CandidateAdmission.CandidateAdmission.AttemptsInWindow | src/candidate_admission.rs:169-172 | the count after pruning |
| CandidateAdmission.PruneKeepsInv | src/candidate_admission.rs:176-197 | pruning leaves exactly the admissions still in cooldown and in the window |
| CandidateAdmission.RunKeepsInv | src/candidate_admission.rs:123-206 | over every run deque, map and window are suffixes of one admission log that keeps rate and cooldown promises |
| CandidateAdmission.WindowBound | src/candidate_admission.rs:123-138 | every window of every run holds at most the configured number of admissions |
| CandidateAdmission.WindowsCover | src/candidate_admission.rs:123-138 | as many admissions as fit into n windows take at least n windows of time |
| CandidateAdmission.EarlyReadmissionNeedsFullSet | src/candidate_admission.rs:176-206 | a readmission inside the cooldown needs as many different peers admitted in between as the set remembers |
| CandidateAdmission.FitsImpliesCooldown | src/candidate_admission.rs:123-206 | if the rate limit cannot fill the remembered set within one cooldown, the cooldown holds in every run |
| CandidateAdmission.BurstBreaksCooldown | src/candidate_admission.rs:123-206 | otherwise a concrete burst readmits its first peer inside the cooldown |
| CandidateAdmission.CooldownExactIff | src/candidate_admission.rs:123-206 | the cooldown holds in all runs exactly under that arithmetic condition on the configuration |
| CandidateAdmission.DefaultsKeepCooldown | src/candidate_admission.rs:33-76 | the default configuration meets it |
| CandidateAdmission.DecidesAsLog | src/candidate_admission.rs:123-138 | every verdict is the one the complete admission log gives |
| TextOutbox.ReachableInv | src/application_service.rs:114-297 | under every interleaving of sends, repair workers, failures and restarts the stores stay consistent |
| TextOutbox.RunKeepsInv | src/application_service.rs:114-297 | a run only adds: nothing admitted or projected is lost or rewritten |
| TextOutbox.ProjectionSafety | src/application_service.rs:114-165 | every history row is the projection of an admitted command, no envelope has two rows, and what is marked complete is projected |
| TextOutbox.RowsAreSent | src/application_service.rs:114-297 | every history row of every run is one send's: its topic, time, trimmed text, signed bytes and target |
| TextOutbox.ThreadsAreSent | src/application_service.rs:114-297 | every thread row of every run is one reply as sent |
| TextOutbox.MetaIsSent | src/store/history.rs:309-400 | the metadata of a conversation is the time and text of a message sent to it |
| TextOutbox.CommandsAreSent | src/application_service.rs:227-297 | every stored command is one send's |
| TextOutbox.FinishedIsShown | src/application_service.rs:114-165 | a finished command is shown as its send asked for, thread target included |
| TextOutbox.TrimIs | src/application_service.rs:227-240 | trimming takes blanks off both ends and nothing else |
| TextOutbox.RetryReturnsFirst | src/application_service.rs:227-297 | once a send is admitted, even if its caller got an error from the read-back, a later send under the same key is accepted exactly if it is the same request and does not fail itself, and returns the first event id and bytes |
| TextOutbox.AdmittedIsStored | src/storage/conversation.rs:1888-1938 | an admitted send is stored under its key and event id |
| TextOutbox.ResubmitStored | src/storage/conversation.rs:1888-1938 | a stored key is answered from the stored request, and a different request is refused |
| TextOutbox.ErrorChangedNothingIff | src/application_service.rs:227-297 | an error left the stores unchanged exactly if the text was blank, the commit failed or the key was stored already; a failed read-back leaves the new command admitted and pending |
| TextOutbox.PendingSound | src/storage/conversation.rs:1941-1955 | the pending list holds only incomplete commands, once each and in event order |
| TextOutbox.PendingComplete | src/storage/conversation.rs:1941-1955 | every incomplete command is on the pending list |
| TextOutbox.NoConflict | src/store/history.rs:309-400 | with unique envelopes an existing row never belongs to another conversation |
| TextOutbox.ConversationService.ProjectHistory | src/store/history.rs:309-400 | insert-or-ignore of the row, the binding query, and the separate metadata statement, each of which may fail |
| TextOutbox.ConversationService.ProjectThread | src/threads.rs:280-297 | the thread target and thread row statements |
| TextOutbox.ConversationService.MarkFirst | src/storage/conversation.rs:1957-1966 | marking the projection complete |
| TextOutbox.ConversationService.ProjectFirst | src/application_service.rs:114-165 | the projection of one command is a run of the protocol, and fails only by a fault or a conflicting row |
| TextOutbox.ConversationService.RepairPendingTextProjections | src/application_service.rs:114-165 | a pass is a run of the protocol; the listing, the decoding and every statement may fail; without faults it succeeds, and success leaves nothing pending and every admitted message and thread relation projected |
| TextOutbox.ConversationService.SendText | src/application_service.rs:227-297 | the answer is the specified one for failures of the transaction and of the read-back; an error means no more than the admission happened; an accepted send is durable even if its projection fails, and is projected unless a later statement fails or two admitted envelopes are equal |
| TextOutbox.ConversationService.AdmitOutgoing | src/storage/conversation.rs:1888-1938 | admission is atomic and keyed by the command key |
| TextOutbox.ConversationService.GetOutgoing | src/storage/conversation.rs:2088-2099 | the admitted bytes are read back by event id |
| TextOutbox.OwnThreadRowsIff | src/threads.rs:280-297 | every completed thread reply has a thread row of its own exactly if no two replies have the same text and target, because the row key is the content hash |
| TextOutbox.SharedThreadRow | src/storage/schema.rs:810-818 | two thread replies with the same content never both have a row |
| TextOutbox.TwinRepliesShareARow | src/threads.rs:280-297 | a run without any failure after which two equal replies are complete and the second has no thread row |
| TextOutbox.MetaComplete | src/store/history.rs:309-400 | if no failure falls between row and metadata, every conversation with history has metadata or a worker about to write it |
| TextOutbox.MetaPresentIff | src/store/history.rs:309-400 | an idle system has the metadata of a conversation exactly if it has more history rows than workers were killed between inserting one and writing the metadata |
| TextOutbox.RowsAccounted | src/store/history.rs:309-400 | at every point of every run each row has had its metadata written, lost its worker, or has a worker about to write it |
| TextOutbox.LostMetaStaysLost | src/store/history.rs:309-400 | once that failure has happened, no repair writes the metadata without a new message |
| TextOutbox.MetaLostExample | src/store/history.rs:309-400 | a run that ends idle with nothing pending, a history row and no metadata for its conversation |
| BufferPool.PoolSafety | src/buffer_pool.rs:57-171 | under any interleaving the idle list is bounded, duplicate-free, empty and unowned, nothing live leaks, and writers are alone |
| BufferPool.RunKeepsInv | src/buffer_pool.rs:57-171 | every step keeps the reference count equal to the number of owners |
| BufferPool.FrozenBytesNeverChange | src/buffer_pool.rs:105-110 | bytes read through a frozen handle never change |
| BufferPool.PoolIsInvisible | src/buffer_pool.rs:57-171 | in every interleaving, over a pool of any size, each owner reads exactly what it would if every acquired buffer were fresh and every clone a copy |
| BufferPool.WrittenIsRead | src/buffer_pool.rs:97-149 | after its last write an owner reads the bytes written, whatever all threads do, writable, frozen or taken out |
| BufferPool.CloneReadsTheSame | src/buffer_pool.rs:118-122 | a clone reads what the original read, then and ever after |
| BufferPool.RecycledWasReleased | src/buffer_pool.rs:65-73 | nothing gets into the idle list but by the release of a drop that passed its check |
| BufferPool.AbandonedForever | src/buffer_pool.rs:140-149 | bytes taken out of the pool, and buffers whose drops all failed their check, are never recycled |
| BufferPool.UniqueReleases | src/buffer_pool.rs:157-171 | a drop that passed its uniqueness check reaches the pool under any interleaving |
| BufferPool.ReleaseReturns | src/buffer_pool.rs:67-73 | the buffer is cleared and kept exactly if the pool has room |
| BufferPool.LastDropReturnsIff | src/buffer_pool.rs:157-171 | the last drop returns the buffer exactly if no earlier drop of it is between its failed check and its decrement |
| BufferPool.RacingDropsLoseTheBuffer | src/buffer_pool.rs:157-171 | two racing last drops free the buffer although the pool has room |
| BufferPool.SharedIsReachable | src/buffer_pool.rs:57-110 | the state in which they race is reachable |
| BufferPool.DropOutcome | src/buffer_pool.rs:157-171 | uninterrupted, a drop returns the buffer exactly if its owner was the last and the pool has room |
| BufferPool.AcquireGives | src/buffer_pool.rs:57-63 | acquire gives an empty buffer nobody holds: the latest returned one, or a new one |
| BufferPool.Pooling.constructor | src/buffer_pool.rs:44-50 | a new pool is empty |
| BufferPool.Pooling.AcquireBuffer | src/buffer_pool.rs:57-63 | acquire is the acquire step |
| BufferPool.Pooling.Release | src/buffer_pool.rs:67-73 | release is the clear and push steps |
| BufferPool.Pooling.Drop | src/buffer_pool.rs:157-171 | drop is the check followed by release or decrement |
| CatalogueFetch.WalkOkIff | src/catalogue_client.rs:656-721 | the page walk succeeds exactly with a chain of the server's pages: one revision, linked by its cursors, ending with the first page without one, within the page bound |
| CatalogueFetch.WalkErrIff | src/catalogue_client.rs:656-722 | the walk fails with an error exactly if, after pages of one revision linked by cursors, it reaches the bound or gets a reply that means that error; a changed catalogue gives the new revision |
| CatalogueFetch.WalkPages | src/catalogue_client.rs:656-721 | the loop computes the walk; the requests are, in order, for the first page and for the one behind the cursor of the page before, and the pages are the answers to them |
| CatalogueFetch.ValidatedIff | src/catalogue_client.rs:127-178 | pages are accepted exactly if there are some, of one revision, and the last has no cursor; otherwise the error, with the first other revision |
| CatalogueFetch.ValidatePages | src/catalogue_client.rs:127-178 | the validation loops compute that result and the flattened items |
| CatalogueFetch.ChainValid | src/catalogue_client.rs:127-178 | what the page walk hands over always passes validation |
| CatalogueFetch.FetchOkIff | src/catalogue_client.rs:645-805 | against any server the fetch returns a catalogue exactly if the server gave complete evidence for it: page chain, equal hash sets, signature, structure and owner |
| CatalogueFetch.FetchErrIff | src/catalogue_client.rs:656-806 | against any server the fetch fails with an error exactly if the walk does or its complete pages meet a signed reply that means it |
| CatalogueFetch.SignedErrIff | src/catalogue_client.rs:724-806 | the same for the signed catalogue and its checks |
| CatalogueFetch.RepublishedFetch | src/catalogue_handler/serve.rs:242-264 | if the host republishes between two page requests the fetch ends with the new revision |
| CatalogueFetch.ForeignCursor | src/catalogue_handler/serve.rs:205-275 | a cursor serves only the requester, the owner and the revision it was made for |
| CatalogueFetch.FetchPaginated | src/catalogue_client.rs:645-805 | the whole fetch, with at most two requests after the bounded page requests |
| CatalogueFetch.NextPage | src/catalogue_handler/serve.rs:195-300 | an honest server resumes exactly behind the last file of the previous page |
| CatalogueFetch.HostWalk | src/catalogue_handler/serve.rs:195-312 | the walk over an honest server collects all files if no page request is refused, and ends with the error of the first refusal otherwise |
| CatalogueFetch.HonestFetchIff | src/catalogue_handler/serve.rs:45-440 | against an honest server with at most 10,000 files the fetch succeeds exactly if no request it takes is refused, and otherwise returns the error of the first refusal, whatever its code |
| CatalogueFetch.PagesForIs | src/catalogue_handler/serve.rs:279-300 | the number of pages in closed form |
| CatalogueFetch.EnoughBudget | src/catalogue_client.rs:656-668 | no honest fetch needs more requests than the client bound allows |
| ThrottledFetch.LimitedFetchIff | src/catalogue_handler/serve.rs:44-58 | behind the limiter a fetch that takes more requests than the budget fails within one window, whatever else the limiter is told; in quiet traffic one that does not succeeds |
| ThrottledFetch.DefaultBudget | src/catalogue_rate_limits.rs:76-86 | with the default budgets that is 4,500 files, or 4,000 when cached |
| ThrottledFetch.RefusedBeyond | src/catalogue_rate_limits.rs:149-169 | of more requests than the budget in one window the limiter refuses one |
| ThrottledFetch.ServedWithin | src/catalogue_rate_limits.rs:149-184 | in quiet traffic the limiter admits as many requests as the budget, whatever the clock does |
| ThrottledFetch.OneFileTooMany | src/catalogue_rate_limits.rs:76-86 | a catalogue of 4,501 files that no burst of requests can fetch |
| Reconnection.DelayIs | src/companion_reconnection.rs:73-84 | overflow never shows: doubled initial delay plus capped jitter, cut off at the maximum |
| Reconnection.FactorDoubles | src/companion_reconnection.rs:73-84 | the backoff factor is one after the first failure, doubles with each further one, and stops at 2^30 |
| Reconnection.DelayBounds | src/companion_reconnection.rs:73-84 | the delay is bounded on both sides and never shorter after more failures |
| Reconnection.LossesBackOff | src/companion_reconnection.rs:288-298 | losses in a row schedule the retry that many steps up the ladder |
| Reconnection.RetryWaits | src/companion_reconnection.rs:288-325 | after a loss no tick before the scheduled instant starts a connection, whatever other calls come, and the first from then on does if there is a registration |
| Reconnection.SinceCatchUp | src/companion_reconnection.rs:272-298 | the last sync is the time of the last catch-up, and the failures are the losses since |
| Reconnection.BeforeCatchUp | src/companion_reconnection.rs:272-298 | without a catch-up there is no last sync and every loss counts |
| Reconnection.StepStates | src/companion_reconnection.rs:166-318 | which call can enter each state |
| Reconnection.StepFlags | src/companion_reconnection.rs:166-285 | which calls change readiness while syncing or connected |
| Reconnection.EntriesAre | src/companion_reconnection.rs:166-286 | each state is entered by these calls alone, and by them always |
| Reconnection.LeavesAre | src/companion_reconnection.rs:198-309 | the same for losses, immediate retries, revocation and incompatibility |
| Reconnection.ConnectedIsEarned | src/companion_reconnection.rs:220-286 | every entry into Connected follows uninterrupted syncing since the latest authentication and a completed snapshot or change stream since then and since the last registration change |
| Reconnection.CaughtUpIff | src/companion_reconnection.rs:166-178 | a connected client is caught up exactly if the registration was not replaced since it connected |
| Reconnection.ConnectedHasOrigin | src/companion_reconnection.rs:272-285 | every connected state goes back to one accepted catch-up |
| Reconnection.ConnectedRegistrationIff | src/companion_reconnection.rs:166-286 | the registration a client connects under is the one it authenticated under exactly if none was set since, or the last one set is that one again |
| Reconnection.ConnectedMeansIff | src/companion_reconnection.rs:25-286 | a Connected client has a registration, the one it authenticated under, and is caught up for it exactly if a registration was set before the authentication, the last one set between it and the catch-up is that one again, and all set afterwards are that one |
| Reconnection.ConnectedHasStages | src/companion_reconnection.rs:219-286 | every Connected client has such an authentication and catch-up |
| Reconnection.RegisteredIff | src/companion_reconnection.rs:164-178 | in every run the registration is the one set last; there is one exactly if one was ever set |
| Reconnection.RegistrationIsLastSet | src/companion_reconnection.rs:166-178 | over every run the registration is the last one set since a given call, or the one held then |
| Reconnection.ConnectedForAnotherRegistration | src/companion_reconnection.rs:166-178 | a run from a new client that connects for a registration it did not authenticate for |
| Reconnection.ConnectedUnregistered | src/companion_reconnection.rs:180-298 | a run from a new client that connects without any registration |
| Reconnection.ConnectedNotCaughtUp | src/companion_reconnection.rs:166-286 | a run from a new client that is Connected and not caught up |
| Reconnection.TerminalStays | src/companion_reconnection.rs:185-217 | from Revoked or Incompatible no calls without a new pairing claim connect or schedule a retry |
| Reconnection.RetryOnlyOffline | src/companion_reconnection.rs:180-318 | a retry is scheduled only while offline or syncing |
| Reconnection.OperationsBelong | src/companion_reconnection.rs:326-342 | pending operations belong to the current registration |
| Reconnection.CanonicalWriteOnce | src/companion_reconnection.rs:344-361 | a resolved operation keeps its canonical id until the operations are forgotten as a whole |
| Reconnection.ResolveIs | src/companion_reconnection.rs:344-361 | a pending operation takes its first canonical id, takes it again, and refuses any other |
| Reconnection.PendingIff | src/companion_reconnection.rs:166-342 | an operation is pending exactly if it was registered and neither a revocation nor a new registration followed |
| Reconnection.CacheEmptyOrWhole | src/companion_reconnection.rs:234-259 | the visible cache is empty or one whole staged snapshot |
| Reconnection.CacheIsWhole | src/companion_reconnection.rs:234-259 | the same from any state, counting a snapshot already staged |
| Reconnection.GenerationCountsCommits | src/companion_reconnection.rs:247-259 | the cache generation counts the committed snapshots |
| Reconnection.FreshSnapshotsIff | src/companion_reconnection.rs:247-259 | all continuations commit only snapshots staged in them exactly if none is left staged |
| Reconnection.StaleSnapshotConnects | src/companion_reconnection.rs:247-298 | a run from a new client in which a snapshot staged before a loss is committed after the next authentication |
| Reconnection.DraftsSurvive | src/companion_reconnection.rs:320-322 | drafts are exactly the saved ones, whatever else happens |
| Reconnection.CompanionReconnection.constructor | src/companion_reconnection.rs:119-140 | the initial state |
| Reconnection.CompanionReconnection.SetRegister | src/companion_reconnection.rs:166-178 | `set_registration` is the step of that call, with its return value |
| Reconnection.CompanionReconnection.MarkPending | src/companion_reconnection.rs:180-183 | `mark_pending_approval` is the step of that call, with its return value |
| Reconnection.CompanionReconnection.Begin | src/companion_reconnection.rs:185-196 | `begin_connecting` is the step of that call, with its return value |
| Reconnection.CompanionReconnection.Incompatible | src/companion_reconnection.rs:199-204 | `protocol_incompatible` is the step of that call, with its return value |
| Reconnection.CompanionReconnection.Revoked | src/companion_reconnection.rs:210-217 | `revoked` is the step of that call, with its return value |
| Reconnection.CompanionReconnection.Authenticated | src/companion_reconnection.rs:220-232 | `authenticated` is the step of that call, with its return value |
| Reconnection.CompanionReconnection.Stage | src/companion_reconnection.rs:234-243 | `stage_snapshot` is the step of that call, with its return value |
| Reconnection.CompanionReconnection.CommitSnapshot | src/companion_reconnection.rs:247-259 | `complete_snapshot` is the step of that call, with its return value |
| Reconnection.CompanionReconnection.CommitChanges | src/companion_reconnection.rs:262-269 | `complete_changes` is the step of that call, with its return value |
| Reconnection.CompanionReconnection.CatchUp | src/companion_reconnection.rs:272-286 | `complete_catch_up` is the step of that call, with its return value |
| Reconnection.CompanionReconnection.Lost | src/companion_reconnection.rs:288-298 | `connection_lost` is the step of that call, with its return value |
| Reconnection.CompanionReconnection.RetryNow | src/companion_reconnection.rs:302-309 | `retry_immediately` is the step of that call, with its return value |
| Reconnection.CompanionReconnection.Due | src/companion_reconnection.rs:311-318 | `retry_due` is the step of that call, with its return value |
| Reconnection.CompanionReconnection.Draft | src/companion_reconnection.rs:320-322 | `save_draft` is the step of that call, with its return value |
| Reconnection.CompanionReconnection.Register | src/companion_reconnection.rs:326-342 | `register_operation` is the step of that call, with its return value |
| Reconnection.CompanionReconnection.Resolve | src/companion_reconnection.rs:344-361 | `resolve_operation` is the step of that call, with its return value |
| ChatHistory.EvidenceGrows | src/chat_history.rs:245-308 | over every event sequence generation, publication and read evidence only grow, an ack is awaited exactly while sending, and a read message is never failed |
| ChatHistory.EvidenceIs | src/chat_history.rs:245-318 | publication and reading are recorded, over every run, exactly by the counted events that report them |
| ChatHistory.LastDecides | src/chat_history.rs:245-318 | the last counted event decides generation and phase |
| ChatHistory.AttemptIs | src/chat_history.rs:245-318 | the attempt is that of the last start unless a retry was queued since |
| ChatHistory.FailureIs | src/chat_history.rs:245-318 | the failure code is that of the last counted failure unless an attempt was started since |
| ChatHistory.ReasonIs | src/chat_history.rs:245-318 | the reason is that of the last counted retry |
| ChatHistory.StaleChangesNothing | src/chat_history.rs:256-258 | events of older generations change nothing |
| ChatHistory.BatchOutcome | src/chat_history.rs:245-308 | closed form of any batch of same-generation receipts, reads, timeouts and failures |
| ChatHistory.OrderDoesNotMatter | src/chat_history.rs:245-308 | such a batch gives the same facts, the failure code apart, and the same label in every order |
| ChatHistory.DeliveredStaysIff | src/chat_history.rs:268-305 | a delivered message stays delivered exactly if no current Published, StartAttempt or Retry arrives |
| ChatHistory.LatePublishedErasesReceipt | src/chat_history.rs:276-281 | a late Published takes the receipt back and a timeout then reports failure |
| ChatHistory.TransitionsAre | src/chat_history.rs:88-103 | the allowed transitions of the older states, pair by pair; seen and failed are final |
| ChatHistory.LegacyLabels | src/chat_history.rs:176-213 | adapted facts keep the reducer invariant and their labels tell the old states apart |
| ChatHistory.AssignedIdIsFresh | src/chat_history.rs:625-659 | an assigned event id is above every id assigned, replayed or reserved before |
| ChatHistory.FindIs | src/chat_history.rs:662-669 | lookup finds the first entry with the id |
| ChatHistory.ForTopicSelects | src/chat_history.rs:764-794 | a topic's entries are exactly those of the topic, in the order of the store |
| ChatHistory.WithoutSelects | src/chat_history.rs:733-741 | removing a topic leaves exactly the others, in order |
| ChatHistory.PushIsNewest | src/chat_history.rs:625-653 | a pushed entry becomes the newest of its topic, and other topics do not change |
| ChatHistory.UpdateIs | src/chat_history.rs:680-703 | an allowed update gives the first entry with the id its state and label and touches nothing else |
| ChatHistory.ChatHistoryStore.constructor | src/chat_history.rs:483-490 | an empty store starts at id 1 |
| ChatHistory.ChatHistoryStore.PushWithId | src/chat_history.rs:625-631 | the entry gets the next id |
| ChatHistory.ChatHistoryStore.PushWithExplicitId | src/chat_history.rs:643-649 | the entry keeps its id and the counter moves past it |
| ChatHistory.ChatHistoryStore.SeedNextEventId | src/chat_history.rs:655-659 | the counter moves past the external maximum |
| ChatHistory.ChatHistoryStore.UpdateDeliveryState | src/chat_history.rs:680-703 | only the first entry with the id changes, exactly along an allowed transition; the error names the id, the current and the attempted state |
| ChatHistory.ChatHistoryStore.RecentForTopic | src/chat_history.rs:774-793 | the backward scan returns the last `count` entries of the topic filter, oldest first |
| ChatHistory.DeliveryCell.Apply | src/chat_history.rs:245-308 | the reducer method is the pure reducer |
| MessagePaging.CursorRoundTrip | src/companion_protocol.rs:1090-1179 | printing and parsing a cursor is the identity on all 64-bit triples |
| MessagePaging.SnapshotIsWhole | src/store/history.rs:159-167 | the snapshot watermark shows the whole live history of the topic |
| MessagePaging.GrowthIsInvisible | src/store/history.rs:123-157 | rows stored after the snapshot do not show in it |
| MessagePaging.AppendOnlyIsStable | src/store/history.rs:123-167 | a store that only adds rows of larger ids shows every call the first call's snapshot |
| MessagePaging.AfterIs | src/store/history.rs:123-157 | the keyset condition of a row selects exactly the rows behind it |
| MessagePaging.TakeItems | src/companion_protocol.rs:1062-1089 | the probing loop takes rows up to the limit, stopping before the first response that is too long |
| MessagePaging.GetMessages | src/companion_protocol.rs:1037-1107 | one call: malformed ids, the scope, failed queries, snapshot or cursor, rows, items, state, next and end |
| MessagePaging.PageFacts | src/companion_protocol.rs:1062-1107 | a page is a prefix of what is to come; its state and end say exactly whether that is all; with something to come it is empty exactly if the limit is zero or the first row too long |
| MessagePaging.PageIsMaximal | src/companion_protocol.rs:1062-1090 | a page is as long as it may be: every part of it fits and one row more would not, or exceeds the limit |
| MessagePaging.PageShows | src/companion_protocol.rs:1064-1074 | its items show the rows to come, one by one |
| MessagePaging.HandleShows | src/companion_protocol.rs:1025-1107 | a call fails for an id that does not decode or a failed query, shows nothing outside the scope, and only live rows of the conversation asked for |
| MessagePaging.CallProgress | src/companion_protocol.rs:1037-1107 | a call moves the client on exactly if its limit is not zero and the next row fits |
| MessagePaging.FollowingIsExact | src/companion_protocol.rs:1037-1107 | following the cursor returns the remaining rows once, in order, within one call per row |
| MessagePaging.TraversalIsExact | src/companion_protocol.rs:1037-1107 | from the first call to the end: exactly the rows of the first snapshot |
| Text.SplitJoin | src/companion_protocol.rs:1172-1179 | splitting a joined list of separator-free parts gives the list back |
| Text.JoinSplit | src/companion_protocol.rs:1172-1179 | joining the split parts gives the text back, and no part has the separator |
| Text.IntRoundTrip | src/companion_protocol.rs:1172-1179 | decimal printing and parsing of 64-bit integers is the identity |
| PeerLimiter.PurgeQueue | src/catalogue_rate_limits.rs:136-146 | the purge loop |
| PeerLimiter.PeerCatalogueAbuseLimiter.constructor | src/catalogue_rate_limits.rs:126-134 | budgets are at least one |
| PeerLimiter.PeerCatalogueAbuseLimiter.Purge | src/catalogue_rate_limits.rs:136-146 | all three deques are purged to the cutoff |
| PeerLimiter.PeerCatalogueAbuseLimiter.AdmitRequest | src/catalogue_rate_limits.rs:149-169 | the answer and the new window of one request |
| PeerLimiter.PeerCatalogueAbuseLimiter.RecordResponseBytes | src/catalogue_rate_limits.rs:172-184 | recorded bytes; nothing happens for none |
| PeerLimiter.PeerCatalogueAbuseLimiter.RecordMalformed | src/catalogue_rate_limits.rs:187-197 | a malformed request is recorded and the documented result returned |
| PeerLimiter.PeerCatalogueAbuseLimiter.ResetPeer | src/catalogue_rate_limits.rs:200-205 | one peer starts over, the others are untouched |
| PeerLimiter.PeersDoNotInterfere | src/catalogue_rate_limits.rs:149-205 | a peer's answers depend only on its own calls |
| PeerLimiter.WindowIsRecentLog | src/catalogue_rate_limits.rs:136-205 | along one peer's calls, if their times never go back, the deques are the complete log cut to the window |
| PeerLimiter.AnswersFromFullLog | src/catalogue_rate_limits.rs:136-205 | if the times of the peer's calls never go back, every answer is the one taken from its complete log |
| PeerLimiter.AnswersFromFullLogIff | src/catalogue_rate_limits.rs:136-205 | that holds in all runs recorded at most `d` late exactly if `d` is zero |
| PeerLimiter.AdmitAnswerIs | src/catalogue_rate_limits.rs:149-169 | if the times of the peer's calls never go back, which of the four answers a request gets, from the malformed requests, the response bytes and the allowed requests of the calls in the window |
| PeerLimiter.MalformedAnswerIs | src/catalogue_rate_limits.rs:187-197 | what a malformed request is told, likewise |
| PeerLimiter.WindowBound | src/catalogue_rate_limits.rs:149-169 | between resets, if calls are recorded at most `d` late, no closed window of the configured length less `d` holds more requests of a peer answered "allowed" than the maximum |
| PeerLimiter.WindowBoundIff | src/catalogue_rate_limits.rs:123-205 | the bound holds in every window of length `len` of all runs recorded at most `d` late exactly if `len + d` is at most the configured length, or `len` is and all three budgets are one |
| PeerLimiter.DequeIsEndOfLog | src/catalogue_rate_limits.rs:136-169 | whatever the clock does, the deque is the end of the list of allowed requests, and everything missing from it was outside the window of some call |
| PeerLimiter.LateAnswersDiffer | src/catalogue_rate_limits.rs:149-197 | under every configuration, a request recorded late that is not blocked although the complete log would block it |
| PeerLimiter.LogHoldsAllowed | src/catalogue_rate_limits.rs:149-205 | if the times of the peer's calls never go back, the reference log is the list of requests the code allowed since the last reset |
| PeerLimiter.UnblockedButBlocked | src/catalogue_rate_limits.rs:149-197 | after "remains unblocked" a request at the same moment is blocked exactly if the maximum was just reached |
| PeerLimiter.UnblockedThenBlocked | src/catalogue_rate_limits.rs:149-197 | from a new limiter, the malformed request that reaches the maximum is answered "unblocked" and the next request is blocked |
| PeerLimiter.PeerCatalogueRateLimiter.constructor | src/catalogue_rate_limits.rs:256-262 | the maximum is at least one |
| PeerLimiter.PeerCatalogueRateLimiter.CheckAndRecord | src/catalogue_rate_limits.rs:268-294 | the plain limiter answers and records as the combined one without its other budgets |
| PushBroker.RunKeepsInv | src/background_push.rs:201-280 | the queue stays within 64, holds only registered handles, and no item out of attempts |
| PushBroker.RevocationIsFinal | src/background_push.rs:201-280 | after a revocation nothing delivers, queues or requeues for that handle again |
| PushBroker.NextIs | src/background_push.rs:246-262 | `next` claims the first queued item that can be delivered and keeps exactly those behind it |
| PushBroker.QueuedIs | src/background_push.rs:219-280 | a hint or a retry goes to the end of the queue exactly if it can still be delivered and there is room |
| PushBroker.FirstDeliveriesInOrder | src/background_push.rs:219-280 | hints not yet delivered are queued in the order of acceptance, in every run that retries only what was claimed |
| PushBroker.SessionTokens | src/background_push.rs:219-280 | each hint is queued once or claimed once, with as many attempts as claims |
| PushBroker.DeliveredAtMostThrice | src/background_push.rs:246-280 | a hint whose claims are each retried at most once is delivered at most three times |
| PushBroker.FourthDelivery | src/background_push.rs:201-280 | nine calls from a new broker deliver one hint four times, no claim being retried more than twice |
| PushBroker.AtMostThriceIff | src/background_push.rs:201-280 | with at most k accepted retries per claim, every hint of every session is delivered at most three times exactly if k is at most one |
| PushBroker.RecordingNotificationSink.constructor | src/background_push.rs:175-187 | an empty broker |
| PushBroker.RecordingNotificationSink.RegisterGrant | src/background_push.rs:201-210 | a handle not registered before |
| PushBroker.RecordingNotificationSink.RevokeHandle | src/background_push.rs:212-217 | the handle and all its queued items go |
| PushBroker.RecordingNotificationSink.EnqueueHint | src/background_push.rs:219-244 | queued exactly if registered, not expired and within bounds, and otherwise the first rejection that applies |
| PushBroker.RecordingNotificationSink.NextDelivery | src/background_push.rs:246-262 | the first item neither expired nor revoked, the dead ones before it dropped |
| PushBroker.RecordingNotificationSink.RetryDelivery | src/background_push.rs:264-280 | requeued exactly within attempts, expiry, registration and bounds |
| ActivityAlerts.AcceptedOnce | src/activity_alerts.rs:140-150 | a message id is accepted at most once in a run |
| ActivityAlerts.DispatchIs | src/activity_alerts.rs:140-187 | every dispatch of every run emits its alert, or retains it while syncing, exactly if it is a new incoming message of a granted, unmuted conversation while connected and enabled, all told from the calls alone |
| ActivityAlerts.AlertsHaveOrigins | src/activity_alerts.rs:125-187 | every alert emitted or retained tells of one such dispatch: its message, conversation, sender and preview |
| ActivityAlerts.SettingsAre | src/activity_alerts.rs:93-138 | the settings are the last ones set |
| ActivityAlerts.SilentWhileSyncing | src/activity_alerts.rs:118-174 | nothing is emitted during a sync window |
| ActivityAlerts.OneAlertPerConversation | src/activity_alerts.rs:125-136 | finishing a sync emits at most one alert per conversation |
| ActivityAlerts.CoalescedReports | src/activity_alerts.rs:125-136 | and its count is the retained count |
| ActivityAlerts.CountsAreConserved | src/activity_alerts.rs:118-174 | per conversation, emitted plus retained plus discarded counts equal the accepted dispatches |
| ActivityAlerts.ActivityAlertDispatcher.constructor | src/activity_alerts.rs:79-90 | a connected, enabled dispatcher with nothing seen |
| ActivityAlerts.ActivityAlertDispatcher.ChangeConnected | src/activity_alerts.rs:93-95 | only the connection flag changes |
| ActivityAlerts.ActivityAlertDispatcher.ChangeEnabled | src/activity_alerts.rs:98-100 | only the preference changes |
| ActivityAlerts.ActivityAlertDispatcher.ChangeMuted | src/activity_alerts.rs:103-109 | one conversation is muted or unmuted |
| ActivityAlerts.ActivityAlertDispatcher.ChangeAuthorized | src/activity_alerts.rs:113-115 | the grant is replaced |
| ActivityAlerts.ActivityAlertDispatcher.BeginInitialSync | src/activity_alerts.rs:118-121 | a window starts with nothing retained |
| ActivityAlerts.ActivityAlertDispatcher.FinishInitialSync | src/activity_alerts.rs:125-136 | every retained conversation is walked once, in some order |
| ActivityAlerts.ActivityAlertDispatcher.DispatchCommitted | src/activity_alerts.rs:140-174 | one dispatch and its result |
| ManifestClosure.Closure | scripts/gst_windows_manifest.py:67-85 | the worklist ends on every import graph and lists exactly the bin DLLs reachable from the files it reads |
| ManifestClosure.Manifest | scripts/gst_windows_manifest.py:60-85 | no list exactly if a listed plugin is missing; otherwise the reachable DLLs, which are exactly the wanted ones (those reachable from the core libraries and the imports of every listed plugin file) if no two listed plugins clash and none is shadowed by a bin DLL |
| ManifestClosure.Imports | scripts/gst_windows_manifest.py:83-85 | the imports not yet scanned are appended |
| ManifestClosure.ScanFile | scripts/gst_windows_manifest.py:73-85 | one file scanned |
| ManifestClosure.ClosedHasReachable | scripts/gst_windows_manifest.py:67-85 | a closed set with the starts holds everything reachable |
| ManifestClosure.ListsAllForEveryTableIff | scripts/gst_windows_manifest.py:62-85 | for given files and lists, everything wanted is listed for every import table exactly if no two different listed plugins have the same name up to case and none has the name of a bin DLL, or every bin DLL is a root anyway |
| ManifestClosure.ListsOnlyForEveryTableIff | scripts/gst_windows_manifest.py:60-85 | nothing unwanted is listed for every import table exactly if every bin DLL with the name of a listed plugin is a core library as well |
| ManifestClosure.ListsOnlyIff | scripts/gst_windows_manifest.py:67-85 | for one import table, nothing unwanted is listed exactly if the bin DLLs with plugin names are wanted |
| ManifestClosure.ListsAllIff | scripts/gst_windows_manifest.py:67-85 | for one import table, everything wanted is listed exactly if the direct imports of every listed plugin are |
| ManifestClosure.NoClashListsAll | scripts/gst_windows_manifest.py:67-85 | without a clash or a shadowed plugin everything wanted is listed |
| ManifestClosure.ListsOnlyWanted | scripts/gst_windows_manifest.py:67-85 | if every bin DLL with a plugin name is a core library, everything listed is wanted |
| ManifestClosure.ClashLosesImports | scripts/gst_windows_manifest.py:72-82 | of two plugins that clash only the first is read, and the other's import is missing |
| ManifestClosure.ShadowLosesImports | scripts/gst_windows_manifest.py:77-82 | a plugin with the name of a bin DLL is never read: its import is missing and the DLL is listed in its place |
| EntryNames.PathToName | src/collection_transfer.rs:84-104 | a name exactly for paths of valid ordinary components, `/`-joined |
| EntryNames.ExportPath | src/collection_transfer.rs:217-222 | the lexical export: the root followed by the parts exactly if all parts are valid |
| EntryNames.AcceptedIff | src/collection_transfer.rs:54-104 | exactly the paths of plain names have a name, and exactly the names of plain parts a path |
| EntryNames.ImportExport | src/collection_transfer.rs:84-222 | exporting the name of an imported path gives the root followed by that path; only the empty path has no export |
| EntryNames.NamesAreDistinct | src/collection_transfer.rs:84-104 | distinct paths get distinct names |
| EntryNames.ExportImport | src/collection_transfer.rs:54-222 | an accepted name leads strictly under the root without `.` or `..`, and importing the exported parts gives the name again |

## Left out

- ManifestClosure.ListsOnlyWanted: does not promise that everything listed is wanted when a listed plugin has the name of a bin DLL, because the script lists that DLL; ManifestClosure.ListsOnlyForEveryTableIff says exactly when.
- PeerLimiter.AnswersFromFullLog: not for calls recorded late, because there it fails; PeerLimiter.AnswersFromFullLogIff says so for every configuration.
- Signatures, blake3, postcard and JSON encodings: symbolic values; encoded sizes are arbitrary functions.
- SQLite itself: statements are atomic and either happen or fail; a transaction is one step.
- TextOutbox.ConversationService.RepairPendingTextProjections: success without faults assumes that admitted envelopes differ, which the random message id provides.
- TextOutbox.ConversationService.SendText: does not promise that an error left the stores unchanged, because the read-back can fail after the commit; TextOutbox.ErrorChangedNothingIff says exactly when. Signing and encoding cannot fail, trimming covers the ASCII blanks, and outgoing rows are not deleted by room cleanup.
- QUIC streams, timeouts, frame sizes, diagnostics and the accept loops; a failed connection is one outcome of a request.
- CatalogueFetch.HonestFetchIff: which requests are refused, and how, is an arbitrary function of the request number; only the per-peer limiter is derived from its own model (ThrottledFetch), not the byte sizes of responses or the concurrency limit.
- The signed catalogue's revision is not compared with the page revision, as in the code; nothing is claimed about it.
- MessagePaging.CallProgress: the size probe has no cursor in it, so nothing is claimed about the size of the frame sent; rows deleted or edited during a traversal are outside its stability condition.
- `conversations.list`, scopes, read markers and the other companion queries: pages may end early by design.
- The companion link manager (invitations, claims, approval): short case analyses.
- Authorization.HeightCountsAccepted: the sequence counter saturates at the top of u64, so this and the convergence results start below it.
- BufferPool.PoolSafety: capacities are not modelled, nor is a zero-capacity buffer, which the bytes library replaces by a static value.
- ChatHistory.AssignedIdIsFresh: counters are unbounded; wrap-around at the top of u64 is not modelled.
- PushBroker.RevocationIsFinal: runs of fewer than 2^128 calls, where the saturating nonce cannot repeat.
- PushBroker.AtMostThriceIff: sessions of fewer than 2^64 - 1 calls, where the saturating delivery ids cannot repeat.
- ActivityAlerts.CountsAreConserved: runs of at most 2^32 - 1 calls, where the saturating counts are exact.
- EntryNames.ExportPath: the lexical part only; canonicalisation, symbolic links and Windows drive prefixes are not part of this model.
- ManifestClosure.Manifest: reading import tables and the list file, and writing the sorted file, are not modelled; lower-casing is ASCII.
- Image compression, abuse text filters, previews, discovery cadence, catalogue policy, startup scheduling, UI and release scripts: mostly single-branch or numeric code.
