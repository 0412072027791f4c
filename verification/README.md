# Viewport relay and context vault: a verified model

A Dafny model of the two parts of the repository that are state machines over unbounded runs, with
proofs about every run. `dafny verify dfyconfig.toml` checks all of it.

**The relay** (`services/relay/src`). One process keeps, per scope key, a daemon socket, clients, pending
key-exchange and pairing requests, session owners and channel subscribers.

- `OrderedMap` is a JavaScript `Map` with its insertion order: set, delete, delete-then-set, eviction of the
  oldest, deletion while iterating. It serves the limiters, the replay filter and the request trackers.
- `RateLimiterSpec` has the theorem that a capped limiter answers like one that never forgets, and the grant
  bounds; `RateLimiterAnswers` says exactly which calls are refused; `RateLimiters` has both limiters as classes.
- `BusReplaySpec` has the freshness and replay filter of signed bus frames, `BusDelivery` says exactly which frames
  it lets through, `Backplanes` has both implementations that run it, `BusSigning` the signed text and the padded
  comparison.
- `RelaySpec` is the relay as a state machine: upgrade requests, connects, messages, bus frames, closes and
  pruning over scopes, live connections, open sockets, address counts and a history of what was tracked,
  answered and delivered. `RelayProofs`, `RelayTheorems` and `RelayAccounting` prove what every run keeps,
  `RelayClientFrames` and `RelayDelivery` what exactly becomes of one frame from a client or a daemon,
  `RelayListeners` who listens to a channel and receives from it, `RelaySessionFrames` whom the frames of a
  session reach, `RelayRequests` over which runs a request waits for its answer and a session stays bound, and
  `RelayPublishing` when exactly a response leaves over the bus.
- `RelayRegistry` and `RelayRouting` have the same relay as objects that are changed in place: workspace states
  captured by connection handlers, the registry and the routing handlers. Each handler is proved to do the
  state machine's step, and the state that a live client's handlers captured is proved to stay the registered
  one.

**The context vault** (`packages/context-engine/src`). An event-sourced store with key epochs.

- `EventLog` is the directory of numbered event files, its listing order, export and import.
- `MembershipSpec` is the operating replica: creation, grants, revocation with a new epoch, writes;
  `MembershipEffects` what each operation achieves; `MembershipProofs` what its histories keep, and exactly when;
  `MembershipExamples` histories at the edges; `Vault` the same as an object over an event directory.
- `Materializer` is the two-pass replay, synchronous and asynchronous; `ReplayOrder` says on what it does not
  depend, `StoreTheorems` what the replayed tables mean; `MaterializeRepo` has the tables and the loops as
  objects.
- `RevokedReaders` and `VaultTheorems` connect writing and replaying: what a revoked reader still sees, replicas
  made from an export, readers that can open what is written.
- `AccessModel` is the member and device model that decides and delivers epoch keys, `AccessReaders` what its
  members can read.
- `JsonNumbers`, `JsonStrings`, `JsonText` and `CanonicalJson` have the canonical form that is signed, a parser
  that undoes it, and what survives writing a value to a file; `JsonSpelling` has the exact text of numbers and
  strings.
- `Semantic` and `Selection` have token vectors, cosine scores and the rows that a query selects.

## How the code is represented

- Pure specification functions say what a call computes; the methods of the classes are proved equal to them,
  and the theorems are about the functions and about runs of them.
- Clock readings, the answers of rate limiters in the relay, which open sockets are over the send-buffer
  limit, admission results, the authentication code of bus frames, random keys and random event ids are
  inputs. A socket is an identity; whether it is open is part of the relay state.
- A frame is its class together with the fields that routing reads. A payload is sealed with a key and opens
  with that key; a wrapped key opens for the holder of the matching private key.
- Token counts are scaled by the refill window and semantic weights by twenty, so that they are whole
  numbers; scores are compared by their squares as exact fractions.
- Texts in the vault are sequences of UTF-16 code units, so that the default sort order and the escaping of
  lone surrogates are the program's.
- Identities are filed under their own names, and these are not empty (`WellFiled`); `identities.js` leaves the
  second to its callers. `RotateForIs`, `RevokeExactly`, `CreateExactly`, `PerformExactly`, `PerformTidy`,
  `CreateGrants`, `GrantGoesOut`, `RevokeHandsOn`, `RevokeShuts`, `PerformKeepsShut`, `EnsureLeavesReady`,
  `ReadyReaderOpens` and `AccessModel.PerformKeeps` assume it, and so do the results over histories
  (`IsHistory`), over spans with a revoked reader (`IsSpan`) and over runs of the access model. The results about
  replay, event directories and the vault object do not.
- `ReplayMemory` is the filter code that both backplanes contain; the checks that each has of its own, and
  their different order, are in `BusItem` and `RedisItem`.

## What the code does where one might expect otherwise

- Fetching a scope for a response passes no runtime target, and the registry then overwrites the stored one
  with undefined, unless the workspace id is the empty string. The branch that publishes a response to
  another relay is therefore taken only for the empty workspace id: `NamedWorkspaceNeverPublishes`, the exact
  conditions for all three kinds of responses in `RelayPublishing`, and a run that does publish,
  `EmptyWorkspacePublishes`.
- A client that asks to be upgraded has its scope looked up, and so created, before it is admitted or refused.
- The signed text of a bus frame joins its fields with line breaks. Where identifiers may contain line breaks
  themselves, different frames have one text, and one signature can be accepted twice:
  `MovedBreakAcceptedTwice`. `AcceptedSinglyExactly` says over which frames it cannot.
- On the bus, `routeBusFrame` looks whether a frame is a session-event relay frame before it looks whether it is an
  end-to-end encrypted or key-update frame (relay-routing.ts:750-771). One that has both shapes goes to every
  subscriber of its channel, bound to the session or not, as in `ViewerReceivesSessionFrame`. By websocket it goes
  to the session's owner only. `SessionFrameReachesBinderExactly` says for every run when no one but the owner
  receives it.
- Tracking a request again under an id that is still tracked does not make it younger: `TrackedAgainStaysOld`.
  The trackers evict before they set, also when they overwrite an id that is present, so the id keeps its place
  exactly if it is there after the eviction: `TrackedAt`.
- A key-exchange response binds the trimmed session id, while later frames look the id up as sent. A daemon that
  goes on using the id of its response is understood exactly if trimming leaves that id as it is:
  `EchoedSessionId`, with the id " s" of `SpacedIdIsMissed`.
- `revokeRepo` writes the new key, the new epoch and the revocation before it looks up the recipients of the
  rotation. If one of them is not filed it throws half-way, as in `RotationStopsHalfWay`. `RevokeExactly` says
  for all inputs when active recipients and holders of the current epoch still agree afterwards. What a
  revoked reader sees and what an export rebuilds does not depend on that.
- `createRepo` does not look whether the repository exists. Run again after a rotation it breaks what the
  histories keep, `CreatingAgainBreaks`, and an export then rebuilds the epoch from before, `CreatingAgainLosesEpoch`;
  `CreateExactly` and `EveryHistoryConsistent` say exactly when. A revoked reader stays frozen over it if the
  keys drawn are not its own. Run again before any rotation it draws a second key for the first epoch:
  `CreateGenuineExactly`.
- File order is append order for fewer than 10^8 events and, with distinct ids, for no more than that:
  `ListingIsLog`. An import that keeps file names may leave gaps, and the next local event is then not
  always read last: `AppendAfterImportExactly`, with the directory of `ReadInBetween`.
- The synchronous replay fails at an HPKE grant whose epoch key it does not have yet, so there the places of
  grants can matter, as in `TwoPlaces`. `SyncOrderFreeExactly` says exactly when they do not; behind the
  asynchronous pass they never do.
- `ensureAccess` grants all allowed epochs again when the decision is already ready.
- `rotateEpoch` of the access model writes no event, so it is outside the histories of the operating replica;
  `RotationIsSilent` says what it breaks.
- `canonicalize` prints NaN and infinities like null, minus zero like zero, and an undefined array element like
  null; `CanonicalExactly` counts these as alike.

## Model

| member | source | states |
|---|---|---|
| `OrderedMap.EvictKeeps` | services/relay/src/security.ts:124-130 | A key survives eviction down to a cap exactly when fewer than cap keys are younger than it |
| `OrderedMap.YoungerTouch` | services/relay/src/security.ts:119-122 | delete-then-set puts a key behind all others: nothing is younger than it, and it is younger than every other key |
| `OrderedMap.YoungerKeep` | services/relay/src/security.ts:155-162 | Sweeping only shrinks the set of keys younger than a survivor |
| `OrderedMap.OrderIgnoresValues` | services/relay/src/bus.ts:294-299 | Two maps with the same key order evict the same keys, whatever they hold |
| `OrderedMap.Evict` | services/relay/src/security.ts:124-130 | The loop that deletes the first key while the map is over its cap computes the eviction of the specification |
| `OrderedMap.Sweep` | services/relay/src/security.ts:155-162 | Deleting while iterating keeps exactly the entries that pass, in their order |
| `RateLimiterSpec.FixedSound` | services/relay/src/security.ts:132-163 | A fixed-window bucket old enough to be swept answers like a missing bucket |
| `RateLimiterSpec.TokenSound` | services/relay/src/security.ts:182-231 | A token bucket old enough to be swept has refilled completely, so it answers like a missing bucket |
| `RateLimiterSpec.AnswersLikeIdeal` | services/relay/src/security.ts:132-163 | For a key that the cap never displaces, every answer equals that of a limiter that forgets nothing, under any schedule of sweeps |
| `RateLimiterSpec.CappedEqualsIdeal` | services/relay/src/security.ts:202-232 | If fewer than maxBuckets other keys are called between two calls of a key, the capped limiter answers like the ideal one; both limiters are instances |
| `RateLimiterSpec.ReusedInTimeIsNeverDisplaced` | services/relay/src/security.ts:124-130 | Reuse within the cap implies that the key is never displaced |
| `RateLimiterSpec.FixedWindowBound` | services/relay/src/security.ts:132-161 | A span shorter than the window grants a never displaced key at most twice maxPerWindow, across resets and sweeps |
| `RateLimiterSpec.TokenBucketBound` | services/relay/src/security.ts:182-230 | A span of d ms grants a never displaced key at most capacity + capacity * d / refillWindowMs, across sweeps |
| `RateLimiterAnswers.FixedRefusesExactly` | services/relay/src/security.ts:132-153 | A call of a never displaced key is refused exactly if a window is open in which maxPerWindow calls were granted, a window opening with each call that finds all earlier ones over |
| `RateLimiterAnswers.TokenRefusesExactly` | services/relay/src/security.ts:202-221 | A call of a never displaced key is refused exactly if, since some call of the key, one grant more than there were exceeds a full bucket and the refill since then |
| `RateLimiterAnswers.SweptExactly` | services/relay/src/security.ts:155-162 | Sweeping forgets exactly the buckets that are at least two windows old, in both limiters |
| `RateLimiterAnswers.TableWithinCap` | services/relay/src/security.ts:124-130 | In every run there are at most maxBuckets buckets |
| `RateLimiters.FixedWindowRateLimiter.Allow` | services/relay/src/security.ts:132-153 | The answer and the new table are those of the specification, eviction only on a new key included |
| `RateLimiters.FixedWindowRateLimiter.SweepStale` | services/relay/src/security.ts:155-162 | The table after a sweep is the swept and capped table |
| `RateLimiters.TokenBucketRateLimiter.Allow` | services/relay/src/security.ts:202-221 | The answer and the new table are those of the specification, refill included |
| `RateLimiters.TokenBucketRateLimiter.SweepStale` | services/relay/src/security.ts:223-231 | The table after a sweep is the swept and capped table |
| `BusReplaySpec.AcceptedAtMostOnce` | services/relay/src/bus.ts:233-306 | In every run with a non-decreasing clock where no span of twice the skew accepts more than max(4 * busFreshnessTrackMax, 100000) frames, no signed frame is accepted twice, and one signature under one freshness key is accepted again only with a later issue time |
| `BusReplaySpec.SignatureAcceptedOnce` | services/relay/src/bus.ts:250-255 | If different signed texts have different authentication codes, then under the same condition no signature is accepted twice from frames with as many line breaks in each identifier - none, as a rule |
| `BusReplaySpec.AcceptedSinglyExactly` | services/relay/src/bus.ts:243-306 | Over any set of frames, no run accepts a signature twice exactly when the signed text of a frame decides its freshness key and issue time |
| `BusReplaySpec.OneLineTextDecides` | services/relay/src/bus-signing.ts:14-25 | Frames whose identifiers are on one line each meet that condition |
| `BusReplaySpec.MovedBreakAcceptedTwice` | services/relay/src/bus.ts:208-255 | An input that does not: with a line break moved from the machine id to the relay id, one signature is accepted twice |
| `BusReplaySpec.BothAccepted` | services/relay/src/bus.ts:243-265 | Two frames with one signed text are both accepted if their freshness keys differ or the second was issued later |
| `BusReplaySpec.LockstepAlways` | services/relay/src/bus.ts:288-305 | In every run the two last-accepted maps hold the same keys in the same order, and all three maps are within their caps |
| `BusReplaySpec.TrackedIssueTimesGrow` | services/relay/src/bus.ts:256-265 | While a freshness key stays tracked its accepted issue times never decrease |
| `BusReplaySpec.PulledAreAccepted` | services/relay/src/bus.ts:202-306 | What one pull hands out is, in order, what the filter accepts of its candidates |
| `BusReplaySpec.NoFrameTwice` | services/relay/src/bus.ts:202-306 | No signed frame occurs twice in what all pulls of a run hand out |
| `BusDelivery.FreshIsAccepted` | services/relay/src/bus.ts:233-306 | In every run a frame is accepted that is issued within the skew on either side of now, is signed, is not older than any accepted frame of its origin, workspace and target, and is newer than any that was accepted with its signature as well |
| `BusDelivery.AcceptedExactly` | services/relay/src/bus.ts:233-306 | While origins, workspaces and targets fit into the memory, and the frames of twice the skew into that of the seen ones, the accepted frames are exactly those |
| `BusDelivery.KeysExactly` | services/relay/src/bus.ts:246-251 | With identifiers on one line each, the freshness key stands for origin, workspace and target, and the replay key for these and the signature |
| `BusDelivery.FreshIsPulled` | services/relay/src/bus.ts:203-306 | A pull hands out, with its own fields, every frame with a valid id, from another relay, for a named target, not for yet another relay, of a known direction and not too large, that is fresh when its turn comes, or any such frame without a key |
| `BusDelivery.PulledIsVouched` | services/relay/src/bus.ts:203-306 | All that a pull hands out meets these checks, the skew bound and the signature equation |
| `BusDelivery.FreshIsListed` | services/relay/src/redis-backplane.ts:389-491 | The same for the entries of the Redis list, with the checks of that implementation |
| `BusDelivery.ListedIsVouched` | services/relay/src/redis-backplane.ts:389-491 | All that it hands out meets them |
| `Backplanes.ReplayMemory.Offer` | services/relay/src/bus.ts:233-306 | The branches of the filter pass a candidate exactly when the specification accepts it, and update the three maps accordingly |
| `Backplanes.ReplayMemory.Accept` | services/relay/src/redis-backplane.ts:460-477 | Delete-then-set on three maps and the two eviction loops give the remembered state; the paired loop deletes the same keys from both last-accepted maps |
| `Backplanes.RelayBusClient.Pull` | services/relay/src/bus.ts:202-306 | The frames returned are the accepted candidates in order, and the cursor is the highest valid id seen, rejected candidates included |
| `Backplanes.RedisRelayBackplane.PullFrames` | services/relay/src/redis-backplane.ts:389-491 | The second implementation returns the accepted entries of the same filter, with running ids |
| `BusSigning.BaseExactly` | services/relay/src/bus-signing.ts:14-25 | Frames agree in every field, an absent optional field counting as empty, exactly when their signed texts are equal and each identifier has as many line breaks in one as in the other |
| `BusSigning.SignedTextLines` | services/relay/src/bus-signing.ts:14-25 | With identifiers on one line each, the lines of the signed text are workspace, target, machine, origin, receiver, direction and issue time, in this order, and the payload follows |
| `BusSigning.VerifyBytes` | services/relay/src/bus-signing.ts:34-49 | The padded constant-time comparison together with the length check decides equality |
| `RelayProofs.StepKeeps` | services/relay/src/relay-routing.ts:649-1254 | Every event keeps the invariant: owners and subscribers are connected clients of the scope, no empty subscriber set, trackers within caps, captured scopes registered, open daemons current, address counts exact, deliveries justified |
| `RelayProofs.EveryRunKeeps` | services/relay/src/relay-routing.ts:649-1254 | Every sequence of events from the empty relay, the scope lookups of upgrade requests among them, satisfies the invariant at every point |
| `RelayProofs.TrackData` | services/relay/src/relay-routing.ts:85-134 | Tracking evicts until there is room, even for an id already there, so the tracker is never over its cap and holds the new owner |
| `RelayTheorems.OneOpenDaemon` | services/relay/src/relay-routing.ts:894-940 | In every run at most one accepted daemon socket per scope key is open |
| `RelayTheorems.GenerationNeverDecreases` | services/relay/src/relay-routing.ts:897-938 | While a scope stays registered its daemon issue generation never decreases |
| `RelayTheorems.SupersededCloseIsHarmless` | services/relay/src/registry.ts:92-108 | Closing a superseded daemon changes nothing of its scope but the activity time |
| `RelayTheorems.DaemonConnectExactly` | services/relay/src/relay-routing.ts:894-940 | A connecting daemon takes over the scope with the generation it brings, unless that is older than the known one or another daemon is open; then the daemon of the scope stays |
| `RelayTheorems.OutdatedDaemonIsRefused` | services/relay/src/relay-routing.ts:897-913 | While a scope stays registered, after a daemon of some generation was accepted no older one is |
| `RelayTheorems.ConnectAdmits` | services/relay/src/relay-routing.ts:1034-1066 | A connecting client is a connected client of its scope, whose activity is now; other scopes stay as they are |
| `RelayTheorems.CloseForgets` | services/relay/src/registry.ts:64-108 | A closing client takes its own requests, sessions and subscriptions along and no one else's; the current daemon takes all requests and sessions along, a superseded one nothing |
| `RelayTheorems.PruneExactly` | services/relay/src/registry.ts:52-62 | Pruning takes away exactly the scopes without daemon and clients that have been quiet for the time given |
| `RelayTheorems.UpgradeExactly` | services/relay/src/index.ts:359-362 | An upgrade request registers an unknown scope, empty and under its key, and leaves known ones alone |
| `RelayClientFrames.ClientFrameExactly` | services/relay/src/relay-routing.ts:1066-1245 | In every run a frame of a runtime or pairing client that is within the size limit, of a kind for this client, of its profile and within its rate limits is tracked if it asks, and goes to the daemon of the scope exactly if that is open and not slow; without an open one that is noted. Any other frame goes nowhere and closes the socket, unless it only has an unknown shape |
| `RelayClientFrames.BusClientFrameExactly` | services/relay/src/relay-routing.ts:672-714 | A client frame from the bus for a named target is tracked for the relay it came from, if it asks, and goes to the daemon of that scope exactly if it is open and not slow |
| `RelayClientFrames.SessionEventsOnly` | services/relay/src/relay-routing.ts:1102-1120 | A client for session events reaches no daemon and changes no scope with any other frame |
| `RelayClientFrames.BusTouches` | services/relay/src/relay-routing.ts:659-668 | Every client frame from the bus for a named target makes exactly its scope active now, under that target |
| `RelayListeners.ListenersExactly` | services/relay/src/relay-routing.ts:286-360 | In every run the listeners of a channel in a scope are exactly the connected clients of the scope that are authorized for it and whose last word about it since they connected was to subscribe |
| `RelayListeners.RelayFrameExactly` | services/relay/src/relay-routing.ts:194-229 | A session-event relay frame from the bus goes to exactly the open listeners of its channel that are not slow, and the slow ones are closed |
| `RelayListeners.PresenceExactly` | services/relay/src/relay-routing.ts:238-285 | Presence of a viewer goes to exactly the other open listeners of a channel it is authorized for that are not slow, and without authorization to no one |
| `RelayTheorems.KexResponseReachesAsker` | services/relay/src/relay-routing.ts:547-603 | In every run a delivered key-exchange response goes to an open client of the scope that made the latest tracked request with that id |
| `RelayTheorems.PairingResponseReachesAsker` | services/relay/src/relay-routing.ts:605-647 | The same for pairing responses |
| `RelayTheorems.RequestAnsweredOnce` | services/relay/src/relay-routing.ts:564-574 | Each tracked request is consumed by at most one response: between two key-exchange or pairing answers to one id lies a new tracked request with that id |
| `RelayTheorems.SessionFrameReachesBinder` | services/relay/src/relay-routing.ts:145-182 | In every run, what the owner lookup hands out is an end-to-end encrypted or key-update frame of that session from the daemon side, and it goes to the still connected client whose key exchange last bound the id |
| `RelaySessionFrames.FrameReaches` | services/relay/src/relay-routing.ts:713-784 | Such a frame reaches, on the bus and with the shape of a session-event relay frame, exactly the open subscribers of its channel that are not slow, and otherwise at most the client that holds its session, exactly if that is bound, in time, open and not slow |
| `RelaySessionFrames.SessionFrameReachesBinderExactly` | services/relay/src/relay-routing.ts:750-771 | In every run it reaches no one but the client that last bound the session exactly if it came by websocket, or is no session-event relay frame, or no one else listens to its channel |
| `RelaySessionFrames.ViewerReceivesSessionFrame` | services/relay/src/relay-routing.ts:194-229 | A run in which a channel subscriber that never exchanged keys receives an end-to-end encrypted frame of a session no one bound |
| `RelaySessionFrames.BinderAsked` | services/relay/src/relay-routing.ts:547-583 | The client that last bound a session sent the key-exchange request itself, in the same scope and under the id that the binding response answers |
| `RelaySessionFrames.SessionIdsTrimmed` | services/relay/src/relay-routing.ts:557-574 | In every run sessions are bound under ids without white space at their ends |
| `RelaySessionFrames.EchoedSessionId` | services/relay/src/relay-routing.ts:557-574 | In every run, a frame under the session id as the binding response gave it reaches the reachable client exactly if that id equals its trimmed form |
| `RelaySessionFrames.SpacedIdIsMissed` | services/relay/src/relay-routing.ts:1002-1013 | An input that does not: the response binds " s" as "s", and the next frame for " s" reaches no one |
| `RelayDelivery.KexResponseExactly` | services/relay/src/relay-routing.ts:547-603 | A key-exchange response is answered exactly when its request is tracked and not expired; then it goes to the asker exactly if that is open and not slow, the request is used up and the session belongs to the asker |
| `RelayDelivery.PairingResponseExactly` | services/relay/src/relay-routing.ts:605-647 | A pairing response is answered exactly when its request is tracked and not expired; then it goes to the asker exactly if that is open and not slow, and the request is used up |
| `RelayDelivery.SessionFrameExactly` | services/relay/src/relay-routing.ts:145-182 | A session frame is delivered exactly when its session is bound, not expired, and the owner is open and not slow; the binding stays |
| `RelayDelivery.KexResponseStep` | services/relay/src/relay-routing.ts:985-997 | So every key-exchange response is handled that passes the gates of the daemon handler, or those of the bus |
| `RelayDelivery.PairingResponseStep` | services/relay/src/relay-routing.ts:985-997 | The same for pairing responses |
| `RelayDelivery.SessionFrameStep` | services/relay/src/relay-routing.ts:998-1013 | The same for session frames, on the bus if they are no session-event relay frames too |
| `RelayDelivery.DaemonFrameRefused` | services/relay/src/relay-routing.ts:951-984 | A daemon frame over the rate or size limit, or of a weaker profile than expected, closes the daemon and does nothing else; one that cannot be routed does nothing |
| `RelayDelivery.BusFrameRefused` | services/relay/src/relay-routing.ts:716-735 | A daemon frame from the bus that does not pass the gates answers no one |
| `RelayDelivery.KexRequestExactly` | services/relay/src/relay-routing.ts:1179-1243 | A key-exchange request within its limits is tracked for its sender under the trimmed id, and goes to the daemon exactly if that is open and not slow |
| `RelayRequests.TrackedAt` | services/relay/src/relay-routing.ts:85-97 | Tracking again leaves an id where it was exactly if it survives making room, and else puts it at the young end |
| `RelayRequests.TrackedAgainStaysOld` | services/relay/src/relay-routing.ts:85-97 | An input: with room for three, the older of two requests is tracked again and is still the first to be evicted |
| `RelayRequests.WaitingIsTracked` | services/relay/src/relay-routing.ts:85-134 | In every run a request or bound session of a local client, wherever it stands in its tracker, stays there while no event is later than its time to live, closes its client or changes the daemon of its scope, the log says nothing more about it, and those younger and those tracked since are fewer than the cap |
| `RelayRequests.WaitingKexIsAnswered` | services/relay/src/relay-routing.ts:547-603 | The response of the daemon of the scope to such a key-exchange request is answered to its client, which receives it exactly if open and not slow |
| `RelayRequests.WaitingPairingIsAnswered` | services/relay/src/relay-routing.ts:605-647 | The same for pairing requests |
| `RelayRequests.BoundSessionIsDelivered` | services/relay/src/relay-routing.ts:998-1013 | In every run a session frame of the daemon for a session that stayed bound is delivered to its client exactly if that is open and not slow |
| `RelayRequests.TrackedIsHeld` | services/relay/src/relay-routing.ts:1179-1206 | A key-exchange or pairing request within its limits is held from the step that tracks it, in the place that tracking gives its id |
| `RelayRequests.BoundIsHeld` | services/relay/src/relay-routing.ts:575-583 | A session is held from the response that binds it |
| `RelayTheorems.NamedWorkspaceNeverPublishes` | services/relay/src/relay-routing.ts:168-177 | In every run each response published to another relay was sent on behalf of the empty workspace id |
| `RelayPublishing.KexResponsePublishesExactly` | services/relay/src/relay-routing.ts:554-603 | A key-exchange response is published exactly when its request is tracked, its owner is known to another relay only, the workspace id is empty and the scope has a target |
| `RelayPublishing.PairingResponsePublishesExactly` | services/relay/src/relay-routing.ts:614-646 | The same for a pairing response |
| `RelayPublishing.SessionFramePublishesExactly` | services/relay/src/relay-routing.ts:154-181 | The same for a session frame, whose session must be bound |
| `RelayPublishing.EmptyWorkspacePublishes` | services/relay/src/relay-routing.ts:590-599 | A run with a connected client, so that the bus is polled, in which a response is published |
| `RelayAccounting.AddressCountsBalance` | services/relay/src/index.ts:116-123 | In every run the address counts add up to totalConnectionCount plus the live workers plus the superseded daemons not yet closed |
| `RelayRegistry.TrackInto` | services/relay/src/relay-routing.ts:122-134 | The eviction loop and the set compute the tracker of the specification |
| `RelayRegistry.WorkspaceState.PruneStalePairingRequests` | services/relay/src/relay-routing.ts:76-83 | Exactly the pairing requests past their time to live go |
| `RelayRegistry.WorkspaceState.PruneStaleKeyExchangeRequests` | services/relay/src/relay-routing.ts:99-106 | Exactly the key-exchange requests past their time to live go |
| `RelayRegistry.WorkspaceState.PruneStaleSessionOwners` | services/relay/src/relay-routing.ts:136-143 | Exactly the session owners past their time to live go |
| `RelayRegistry.WorkspaceState.RemoveClient` | services/relay/src/registry.ts:64-90 | The client leaves the client map, three trackers and every channel; channels left empty go |
| `RelayRegistry.WorkspaceState.ClearDaemon` | services/relay/src/registry.ts:92-108 | Daemon and trackers go exactly if this socket is the current daemon |
| `RelayRegistry.WorkspaceState.AdoptDaemon` | services/relay/src/relay-routing.ts:935-940 | A new daemon keeps the generation unless it brings one, and starts key exchanges and sessions over; pairing requests stay |
| `RelayRegistry.WorkspaceState.Subscribe` | services/relay/src/relay-routing.ts:314-320 | The client joins one channel, created if need be |
| `RelayRegistry.WorkspaceState.Unsubscribe` | services/relay/src/relay-routing.ts:339-343 | The client leaves one channel, which goes when nobody is left |
| `RelayRegistry.Unsubscribed` | services/relay/src/registry.ts:83-88 | The loop over channels removes one subscriber everywhere and drops channels left empty |
| `RelayRegistry.IdleKeys` | services/relay/src/registry.ts:55-60 | The loop finds exactly the keys without daemon, clients and recent activity |
| `RelayRegistry.ConnectionRegistry.GetOrCreate` | services/relay/src/registry.ts:7-31 | A new state only for an unknown key; metadata, an undefined target included, overwrite a known one unless the workspace id is empty |
| `RelayRegistry.ConnectionRegistry.Look` | services/relay/src/registry.ts:7-31 | Without metadata a new state goes by its key and a known one is left as it is |
| `RelayRegistry.ConnectionRegistry.TotalConnectionCount` | services/relay/src/registry.ts:43-50 | The loop computes the sum over scopes of clients and daemon |
| `RelayRegistry.ConnectionRegistry.PruneEmpty` | services/relay/src/registry.ts:52-62 | Exactly the idle entries go; the others keep their state objects |
| `RelayRegistry.ConnectionRegistry.RemoveClient` | services/relay/src/registry.ts:64-90 | Only the entry of the key changes |
| `RelayRegistry.ConnectionRegistry.ClearDaemon` | services/relay/src/registry.ts:92-108 | The daemon and all trackers are cleared exactly if this socket is the current daemon |
| `RelayRouting.RelayServer.SafeSend` | services/relay/src/index.ts:130-139 | A socket that is not open gets nothing; an open one over the buffer limit is closed instead |
| `RelayRouting.RelayServer.RouteKeyExchangeResponse` | services/relay/src/relay-routing.ts:547-603 | The handler on shared state objects does the state machine step: prune, consume the request, bind the session, hand over |
| `RelayRouting.RelayServer.RoutePairingResponse` | services/relay/src/relay-routing.ts:605-647 | The handler does the state machine step |
| `RelayRouting.RelayServer.RouteSessionOwnedFrame` | services/relay/src/relay-routing.ts:145-182 | The handler does the state machine step |
| `RelayRouting.RelayServer.FanOut` | services/relay/src/relay-routing.ts:214-221 | Every open member of the group that is not slow receives, the slow ones are closed |
| `RelayRouting.RelayServer.RouteSessionEventRelayFrame` | services/relay/src/relay-routing.ts:194-229 | The handler does the state machine step |
| `RelayRouting.RelayServer.HandleSessionEventClientFrame` | services/relay/src/relay-routing.ts:289-353 | Subscribing and unsubscribing change one channel; a channel left empty goes |
| `RelayRouting.RelayServer.RouteSessionViewerPresenceFrame` | services/relay/src/relay-routing.ts:238-287 | Presence goes to the other subscribers of an authorized channel |
| `RelayRouting.RelayServer.TrackRequester` | services/relay/src/relay-routing.ts:1179-1229 | The request is tracked under the trimmed id before it is passed on |
| `RelayRouting.RelayServer.OnClientFrame` | services/relay/src/relay-routing.ts:1074-1246 | A client frame, handled on the state captured at connect time, does the state machine step |
| `RelayRouting.RelayServer.OnDaemonFrame` | services/relay/src/relay-routing.ts:950-1020 | A daemon frame does the state machine step |
| `RelayRouting.RelayServer.RouteBusFrame` | services/relay/src/relay-routing.ts:649-780 | A bus frame does the state machine step |
| `RelayRouting.RelayServer.RegisterConnection` | services/relay/src/relay-routing.ts:828-1059 | A connection does the state machine step, and the state its handlers capture is the registered one |
| `RelayRouting.RelayServer.OnClose` | services/relay/src/relay-routing.ts:1248-1254 | A close does the state machine step |
| `RelayRouting.RelayServer.LookUp` | services/relay/src/index.ts:358-361 | A client that asks to be upgraded leaves its scope registered, whether it is admitted or not |
| `RelayRouting.RelayServer.PruneEmpty` | services/relay/src/registry.ts:52-62 | Pruning never drops a state that a live client has captured |
| `RelayRouting.RelayServer.AdjustIpConnectionCount` | services/relay/src/index.ts:116-123 | The count of one address changes, and its entry goes at zero |
| `RelayRouting.RelayServer.Handle` | services/relay/src/relay-routing.ts:649-1254 | For every event the objects do the step of the state machine, and the captured states stay the registered ones |
| `EventLog.FileOrderIsAppendOrder` | packages/context-engine/src/repo/events.js:84-88 | Names numbered 1..n are in lexicographic order exactly when n is below 10^8 |
| `EventLog.ListingIsLog` | packages/context-engine/src/repo/files.js:21-31 | A numbered directory with distinct event ids is read back in append order exactly when it has fewer than 10^8 events |
| `EventLog.NamesDiffer` | packages/context-engine/src/repo/events.js:87 | A file name determines its number and its event id, so appending never overwrites |
| `EventLog.NumberedAppend` | packages/context-engine/src/repo/events.js:86-88 | Writing under the next number keeps the numbering 1..n without gaps |
| `EventLog.ListingShared` | packages/context-engine/src/repo/sync.js:55-66 | Reading an export gives the non-private events of the log, in the same order |
| `EventLog.AppendedLastExactly` | packages/context-engine/src/repo/events.js:84-88 | An event written under a new name is read last exactly when all other names sort before the new one |
| `EventLog.AppendAfterImportExactly` | packages/context-engine/src/repo/sync.js:129-134 | After an import that keeps names, the next local event is read last exactly when the exporter had no private event before its last shared one, or a single one and the ids sort so |
| `EventLog.ReadInBetween` | packages/context-engine/src/repo/sync.js:129-134 | With two private events in between, files 1 and 4 arrive and the next event, number 3, is read between them whatever the ids |
| `EventLog.ImportTwice` | packages/context-engine/src/repo/sync.js:92-105 | Importing a batch again adds nothing, whatever was appended in between |
| `EventLog.ImportKeepsDistinct` | packages/context-engine/src/repo/sync.js:96-105 | A batch of distinct ids keeps the ids of the log distinct |
| `EventLog.ImportExactly` | packages/context-engine/src/repo/sync.js:84-115 | An import keeps the log and adds behind it exactly the events of the batch whose ids are not there, each as often as the batch has it and in its order |
| `EventLog.EventDirectory.List` | packages/context-engine/src/repo/files.js:21-31 | The events in file-name order |
| `EventLog.EventDirectory.Append` | packages/context-engine/src/repo/events.js:84-88 | The event is appended and the directory stays numbered |
| `EventLog.EventDirectory.ImportSyncEvents` | packages/context-engine/src/repo/sync.js:92-105 | The batch events with new ids are appended in order and the directory stays numbered |
| `EventLog.EventDirectory.ExportSync` | packages/context-engine/src/repo/sync.js:50-69 | Exactly the non-private files are copied, under their names |
| `EventLog.EventDirectory.ImportSync` | packages/context-engine/src/repo/sync.js:129-134 | Files are copied unless the name is taken |
| `ReplayOrder.AsyncKeyAt` | packages/context-engine/src/repo/materializer.js:276-308 | After the asynchronous pass an epoch has a key handed over by some grant or, without any, the one from before |
| `ReplayOrder.HandsExactly` | packages/context-engine/src/repo/materializer.js:276-308 | A grant hands its key over exactly if the first of the recipients of the reader with its name has the key pair it is wrapped for, in the form it is wrapped in |
| `ReplayOrder.LastGrantDecides` | packages/context-engine/src/repo/materializer.js:276-308 | Of several grants for an epoch the last that hands a key over decides |
| `ReplayOrder.GrantPositionsDoNotMatter` | packages/context-engine/src/repo/materializer.js:266-312 | If all grants of an epoch wrap one key, moving grants in the log does not change keys, entries, index, edges, candidates or the failure |
| `ReplayOrder.ReplayNonGrants` | packages/context-engine/src/repo/materializer.js:196-252 | The second pass does not depend on grants |
| `ReplayOrder.MaterializeTwice` | packages/context-engine/src/repo/materializer.js:266-312 | Materializing again from the keys left behind gives the same outcome, also after a failure |
| `ReplayOrder.SyncTwice` | packages/context-engine/src/repo/materializer.js:106-264 | The same for the synchronous pass alone |
| `ReplayOrder.SyncExactly` | packages/context-engine/src/repo/materializer.js:156-194 | The synchronous pass succeeds exactly if no HPKE grant to the reader meets a missing epoch key, and then has the legacy keys on top of the stored ones |
| `ReplayOrder.LegacyKeyAt` | packages/context-engine/src/repo/materializer.js:181-190 | The keys that the synchronous pass adds are those of the legacy grants to the reader: an epoch is among them exactly if such a grant is in the log |
| `ReplayOrder.SameFate` | packages/context-engine/src/repo/materializer.js:106-264 | If all grants of an epoch wrap one key, two placings of the grants in a signed log give the same keys and store, or the same failure, exactly if both succeed or both fail |
| `ReplayOrder.SyncOrderFreeExactly` | packages/context-engine/src/repo/materializer.js:106-264 | If all grants of an epoch wrap one key, the synchronous outcome on a signed log is the same for every placing of grants exactly if no HPKE grant to the reader is for an epoch without a stored key, or one is for an epoch that no legacy grant brings either |
| `ReplayOrder.TwoPlaces` | packages/context-engine/src/repo/materializer.js:173-190 | A legacy and an HPKE grant of one key: in one order the pass succeeds, in the other it fails |
| `StoreTheorems.ReplayIndex` | packages/context-engine/src/repo/materializer.js:214-222 | After replay the index has exactly one row per entry, with its title and body |
| `StoreTheorems.EntryIsLastWord` | packages/context-engine/src/repo/materializer.js:214-251 | An entry is what the last decryptable approval of its id said, superseded as by the last superseding event since |
| `StoreTheorems.LiveExactly` | packages/context-engine/src/repo/materializer.js:214-251 | An entry is live exactly when the last decryptable approve-or-supersede event naming it is an approval |
| `StoreTheorems.SearchExactly` | packages/context-engine/src/store/search.js:1-15 | Search returns each matching live entry once and nothing else |
| `StoreTheorems.SupersedeReplaces` | packages/context-engine/src/repo/vault.js:253-279 | The two events of superseding leave the old entry not live, the replacement live and every other entry as it was |
| `StoreTheorems.CandidateStatus` | packages/context-engine/src/repo/materializer.js:121-145 | A candidate is there exactly if proposed, carries the last proposal, and its status has the closed form over the transitions since |
| `StoreTheorems.CandidateCredits` | packages/context-engine/src/repo/materializer.js:126-145 | A candidate names whom the last effective assignment since its proposal names, and the reviewer and the reason of the last effective decision and refusal |
| `StoreTheorems.EdgesExactly` | packages/context-engine/src/repo/materializer.js:206-252 | The edges are exactly those that decryptable events draw: from approved entries to what they apply to, and from superseded ones to their replacement |
| `StoreTheorems.ClosedStep` | packages/context-engine/src/repo/materializer.js:126-145 | One update statement moves the status as one more event moves the closed form |
| `MaterializeRepo.Database.DeleteFts` | packages/context-engine/src/repo/materializer.js:118-120 | Exactly the index rows of the id go |
| `MaterializeRepo.Database.UpdateCandidate` | packages/context-engine/src/repo/materializer.js:126-145 | The guarded updates do the transition of the specification |
| `MaterializeRepo.Database.Run` | packages/context-engine/src/repo/materializer.js:214-251 | One opened payload changes the tables as specified |
| `MaterializeRepo.Database.Search` | packages/context-engine/src/store/search.js:1-15 | The join loop returns the rows of the specification |
| `MaterializeRepo.Replica.MaterializeSync` | packages/context-engine/src/repo/materializer.js:106-264 | The two loops compute keys and store of the specification; on failure the key file is left alone |
| `MaterializeRepo.Replica.MaterializeHpke` | packages/context-engine/src/repo/materializer.js:266-312 | The asynchronous loop and the synchronous pass behind it compute the specified outcome; the keys found stay written |
| `MembershipProofs.RevokeExactly` | packages/context-engine/src/repo/membership.js:50-90 | Revocation, also one that throws half-way, keeps active recipients equal to holders of the current epoch exactly when every name that stays sorts before every unknown name |
| `MembershipProofs.PerformExactly` | packages/context-engine/src/repo/membership.js:6-90 | Every operation, whatever it throws, keeps a consistent repository consistent exactly when it is sensible: a creation comes before any rotation, a grant goes to a name, a rotation reaches everybody who stays |
| `MembershipProofs.CreateExactly` | packages/context-engine/src/repo/vault.js:87-119 | Creating the repository keeps it consistent exactly when the owner is unknown, or it has no epoch or only the first |
| `MembershipProofs.PerformTidy` | packages/context-engine/src/repo/membership.js:50-90 | No event is ahead of the epoch and the keys are those of epochs 1 to current after every operation, half-way rotations included, exactly unless it creates anew after a rotation |
| `MembershipProofs.EveryHistoryTidy` | packages/context-engine/src/repo/membership.js:50-90 | The same for histories |
| `MembershipProofs.HistoryAnnounces` | packages/context-engine/src/repo/membership.js:66-76 | In every history, without exception, some shared event announces the current epoch, the first one apart |
| `MembershipProofs.EveryHistoryConsistent` | packages/context-engine/src/repo/membership.js:165-181 | In a history the recipients derived from the log are at every point exactly the holders of a grant at the current epoch, and the keys those of epochs 1 to current, if and only if every operation was sensible |
| `MembershipExamples.CreatingAgainBreaks` | packages/context-engine/src/repo/vault.js:87-119 | Create, grant, revoke, create: a recipient that is not active holds a grant of the current epoch |
| `MembershipExamples.RotationStopsHalfWay` | packages/context-engine/src/repo/membership.js:78-87 | Create, grant an identity that is not filed, revoke another: the rotation throws, and an active recipient has no grant of the new epoch |
| `MembershipProofs.OrdinaryHistoryConsistent` | packages/context-engine/src/repo/membership.js:6-90 | The same under conditions on the operations and the filed identities alone |
| `MembershipProofs.RotateForIs` | packages/context-engine/src/repo/membership.js:78-87 | The rotation adds exactly the names before the first unknown one to the active recipients and to the holders |
| `MembershipEffects.ActiveExactly` | packages/context-engine/src/repo/membership.js:165-184 | A name is active exactly if a grant went to it and no revocation of it came later |
| `MembershipEffects.CreateGrants` | packages/context-engine/src/repo/vault.js:87-135 | Creating a repository for a filed owner starts its first epoch with the key drawn and grants that key to the owner, who is active then |
| `MembershipEffects.GrantGoesOut` | packages/context-engine/src/repo/membership.js:6-48 | A grant hands a filed recipient, or a given identity, the current key, makes it active, and changes nothing else |
| `MembershipEffects.RevokeHandsOn` | packages/context-engine/src/repo/membership.js:50-90 | A revocation whose rotation finds everybody starts the next epoch with the key drawn; exactly those who were active, without the revoked name, and the recipient of the actor are active then and hold the new key |
| `Vault.ContextVault.ActiveRecipientsOf` | packages/context-engine/src/repo/membership.js:165-181 | The loop over the files in listing order computes the active recipients of the log |
| `Vault.ContextVault.CreateRepo` | packages/context-engine/src/repo/vault.js:87-119 | Metadata, keys and the first grant, with what is left behind when the actor is unknown |
| `Vault.ContextVault.GrantRepo` | packages/context-engine/src/repo/membership.js:6-19 | A grant of the current epoch key is appended |
| `Vault.ContextVault.GrantRepoHpkeRecipient` | packages/context-engine/src/repo/membership.js:36-48 | The same for a recipient that need not be filed |
| `Vault.ContextVault.RevokeRepo` | packages/context-engine/src/repo/membership.js:50-90 | New key and epoch, revocation, then one grant per remaining name in sorted order up to the first unknown one |
| `Vault.ContextVault.RotateKeys` | packages/context-engine/src/repo/membership.js:78-87 | The loop of grants stops at the first unknown name |
| `Vault.ContextVault.AppendEvent` | packages/context-engine/src/repo/events.js:9-48 | Shared events are sealed with the current epoch key, private ones with the personal key |
| `Vault.ContextVault.SupersedeEntry` | packages/context-engine/src/repo/vault.js:253-279 | A superseding event, then the approval of the replacement |
| `RevokedReaders.RevokeShuts` | packages/context-engine/src/repo/membership.js:50-90 | A revocation that does not hand certain names the new key leaves them inactive and without it, even if the rotation stops half-way |
| `RevokedReaders.PerformKeepsShut` | packages/context-engine/src/repo/membership.js:50-90 | No later operation that does not itself grant these names gives them a key that is current from then on, creations of the repository included if they draw new keys |
| `RevokedReaders.RevokedReaderIsFrozen` | packages/context-engine/src/repo/materializer.js:86-104 | After a recipient is revoked by someone else, and until its next grant, no shared event changes what it materializes, synchronously or asynchronously - also after half-way rotations and when the repository is created anew with a key that is not its own |
| `RevokedReaders.FrozenWhileShutOut` | packages/context-engine/src/repo/materializer.js:153-253 | The same for a reader with several recipient names, none of them active |
| `VaultTheorems.RebuiltExactly` | packages/context-engine/src/repo/sync.js:27-48 | An export rebuilds the current epoch exactly when some shared event announces it |
| `VaultTheorems.BootstrapFromExport` | packages/context-engine/src/repo/sync.js:50-138 | In every history whose creations come before any rotation, half-way rotations included, a replica made from an export reads the shared events in order, no private one, and rebuilds the epoch of the exporter |
| `VaultTheorems.CreatingAgainLosesEpoch` | packages/context-engine/src/repo/vault.js:95-107 | Created anew after a rotation, a repository exports a log that rebuilds the epoch from before |
| `VaultTheorems.ExportMaterializesAlike` | packages/context-engine/src/repo/sync.js:50-69 | A reader whose private events are not in the log materializes the same from the export as from the log |
| `VaultTheorems.HistoryGenuine` | packages/context-engine/src/repo/membership.js:135-163 | In every history that creates once, half-way rotations included, grants wrap and shared events are sealed with the key of their epoch |
| `VaultTheorems.GrantOpens` | packages/context-engine/src/repo/membership.js:135-163 | A grant to an identity that has the key pairs of a recipient opens for it, in the legacy and in the HPKE form |
| `VaultTheorems.HistoryUnwraps` | packages/context-engine/src/repo/membership.js:135-163 | If the name of a reader is only ever filed with its own key pairs, it can open every grant that a history addresses to it, in either form |
| `VaultTheorems.HistorySigned` | packages/context-engine/src/repo/events.js:84-85 | Every event that a history writes passes the signature check of whoever knows the public keys of the operators |
| `VaultTheorems.EveryEventWasWritten` | packages/context-engine/src/repo/events.js:9-48 | Every written event of a history comes from a write operation with that payload by that author, sealed with the personal key if private and else with the key of the epoch |
| `VaultTheorems.WriteIsThere` | packages/context-engine/src/repo/events.js:9-90 | A write with a key to seal with adds exactly that event to the log |
| `VaultTheorems.PrivateIsOwn` | packages/context-engine/src/repo/materializer.js:86-94 | A private event of a history opens for exactly the readers with the name and the personal key of its author, whatever epoch keys they have |
| `VaultTheorems.CreateGenuineExactly` | packages/context-engine/src/repo/vault.js:93-107 | Creating again before any rotation keeps this exactly when nothing of the epoch is written yet or the same key is drawn |
| `VaultTheorems.HistoryReplaysInAnyGrantOrder` | packages/context-engine/src/repo/materializer.js:266-312 | The log of such a history replays the same wherever its grants stand |
| `VaultTheorems.HolderMaterializes` | packages/context-engine/src/repo/materializer.js:266-312 | A holder of a grant for the current epoch whose name was only filed with its own key pairs materializes successfully, opens every shared event of the epoch, and has every entry approved by one |
| `VaultTheorems.ActiveReaderMaterializes` | packages/context-engine/src/repo/materializer.js:266-312 | In consistent histories every active recipient is such a holder |
| `AccessModel.EnsureLeavesReady` | packages/context-engine/src/repo/access-model.js:103-114 | An allowed user is ready after ensureAccess |
| `AccessModel.PerformKeeps` | packages/context-engine/src/repo/access-model.js:18-125 | Every member and device step keeps the keys complete; what it writes are grants to an active member with an approved device, for allowed epochs |
| `AccessModel.EveryGrantWasAllowed` | packages/context-engine/src/repo/access-model.js:103-125 | In every run each grant was allowed when written, none before a join-date member joined |
| `AccessModel.RemovedGetsNothing` | packages/context-engine/src/repo/access-model.js:69-73 | A removed member is granted nothing until it is added again |
| `AccessModel.RotationIsSilent` | packages/context-engine/src/repo/access-model.js:154-167 | After rotateEpoch nobody holds a grant for the new epoch and an export rebuilds an older one |
| `AccessReaders.DecisionExactly` | packages/context-engine/src/repo/access-model.js:66-101 | Access is allowed exactly for an active member on an approved device of its own, and pending exactly while an allowed epoch is not granted to it as an active recipient; the epochs are those to deliver, or all that are allowed |
| `AccessReaders.AddStartsEpoch` | packages/context-engine/src/repo/access-model.js:18-31 | A join-date member joins in a new epoch above all that have a key, any other in the current one |
| `AccessReaders.RemoveStartsEpoch` | packages/context-engine/src/repo/access-model.js:33-41 | A removal makes the member inactive and starts an epoch above all that have a key |
| `AccessReaders.JoinDateReadsNothingEarlier` | packages/context-engine/src/repo/access-model.js:18-31 | In every run a join-date member that was granted nothing before reads nothing shared of the epochs before it joined |
| `AccessReaders.RemovedReadsNothingLater` | packages/context-engine/src/repo/access-model.js:33-41 | In every run a removed member, until it is added again, reads nothing shared of the epoch that its removal started or of a later one |
| `AccessReaders.EveryGrantOpens` | packages/context-engine/src/repo/access-model.js:141-152 | In every run a reader whose name is only filed with its own key pairs can open every grant addressed to it |
| `AccessReaders.ReadyReaderOpens` | packages/context-engine/src/repo/access-model.js:103-125 | After ensureAccess an allowed member filed with its own key pairs materializes and opens every shared event of all epochs that it is allowed |
| `AccessModel.ContextAccessModel.AddMemberNow` | packages/context-engine/src/repo/access-model.js:18-31 | A join-date member starts a new epoch and joins in it; with any other history but full the member joins in the current one |
| `AccessModel.ContextAccessModel.RemoveMemberNow` | packages/context-engine/src/repo/access-model.js:33-41 | The member becomes inactive and a new epoch starts |
| `AccessModel.ContextAccessModel.AccessDecisionNow` | packages/context-engine/src/repo/access-model.js:69-101 | The decision of the specification, missing epochs in order |
| `AccessModel.ContextAccessModel.EnsureAccessNow` | packages/context-engine/src/repo/access-model.js:103-114 | One grant per epoch of the decision, all epochs again when already ready; the decision afterwards is returned exactly if no grant throws |
| `JsonNumbers.NumberReadBack` | packages/context-engine/src/crypto/canonical.js:6-8 | A printed finite number is read back exactly |
| `JsonStrings.StringReadBack` | packages/context-engine/src/crypto/canonical.js:6-8 | A printed string, control characters, quotes and lone surrogates included, is read back exactly |
| `JsonText.ParseUndoesPrint` | packages/context-engine/src/repo/files.js:8-19 | A parser undoes both the compact and the indented form of every JSON value |
| `CanonicalJson.CanonicalizeIs` | packages/context-engine/src/crypto/canonical.js:1-19 | canonicalize prints the compact form of the value with undefined members dropped and keys sorted |
| `CanonicalJson.CanonicalDense` | packages/context-engine/src/crypto/canonical.js:1-19 | The canonical form has no white space outside its strings |
| `CanonicalJson.SortMembersIs` | packages/context-engine/src/crypto/canonical.js:14-16 | Sorting puts the members of an object in the order of their keys and keeps them all |
| `JsonSpelling.NumberSpelled` | packages/context-engine/src/crypto/canonical.js:6-8 | A number is its sign and, exactly if it is 0 or lies in [10^-6, 10^21), its plain decimal form - for a whole one its decimal digits - and else one digit, a point and the others, and the signed power of ten |
| `JsonSpelling.StringSpelled` | packages/context-engine/src/crypto/canonical.js:6-8 | A string is its units between quotes; exactly quotes, backslashes, control characters and lone surrogates are escaped, in the one-letter form if there is one and else with four lower-case hexadecimal digits |
| `CanonicalJson.ParseUndoesCanonicalize` | packages/context-engine/src/crypto/canonical.js:1-19 | The parser undoes canonicalize up to key order and dropped undefined members |
| `CanonicalJson.CanonicalExactly` | packages/context-engine/src/crypto/canonical.js:1-19 | Two values have the same canonical form exactly when JSON keeps the same of them up to key order |
| `CanonicalJson.SortSame` | packages/context-engine/src/crypto/canonical.js:14-18 | Sorting keys makes values identical exactly when they are equal up to key order |
| `CanonicalJson.CanonicalFormSurvives` | packages/context-engine/src/repo/files.js:8-19 | Writing a value to a file and reading it back leaves its canonical form unchanged |
| `CanonicalJson.SignedBytesSurvive` | packages/context-engine/src/crypto/signatures.js:4-21 | An event written with its signature and read back is verified over the bytes that were signed |
| `Semantic.VectorKeys` | packages/context-engine/src/store/local-semantic.js:23-32 | A vector has exactly the tokens and their synonyms, with positive weights |
| `Semantic.WeightsExactly` | packages/context-engine/src/store/local-semantic.js:23-32 | A token weighs 1 each time it is written and 0.35 each time a synonym of it is |
| `Semantic.TokensExactly` | packages/context-engine/src/store/local-semantic.js:17-21 | The tokens of a lower-cased text are exactly its maximal runs of letters and digits |
| `Semantic.Vectorize` | packages/context-engine/src/store/local-semantic.js:23-32 | The nested loops compute the vector of the specification |
| `Semantic.CauchySchwarz` | packages/context-engine/src/store/local-semantic.js:34-53 | The square of the scalar product is at most the product of the squared lengths |
| `Semantic.DotAnyOrder` | packages/context-engine/src/store/local-semantic.js:43-46 | The scalar product does not depend on the order of summation |
| `Semantic.CosineSimilarity` | packages/context-engine/src/store/local-semantic.js:34-53 | The two loops compute the scalar product and both squared lengths |
| `Semantic.ScoreInUnit` | packages/context-engine/src/store/local-semantic.js:34-53 | Every score lies in [0, 1] and is positive exactly when the expanded vocabularies meet |
| `Semantic.SquaredExactly` | packages/context-engine/src/store/local-semantic.js:34-53 | The squared score times both squared lengths is the squared scalar product, and a vector scores 1 against itself |
| `Selection.SelectExactly` | packages/context-engine/src/repo/bundles.js:44-53 | A query selects the first maxItems, by score, then id, then the order in which they come, of exactly the rows that share a word with it |
| `Selection.NoQueryTakesFirst` | packages/context-engine/src/repo/bundles.js:44-53 | Without a query rows are taken in the order in which they come, all of them or as many as asked for |
| `Selection.SliceIs` | packages/context-engine/src/repo/bundles.js:48 | A slice is a front part as long as asked for, or without so many rows at the end for a negative end |
| `Selection.SelectAnyOrderExactly` | packages/context-engine/src/repo/bundles.js:44-53 | What a query selects does not depend on the order of the rows exactly when no two related rows of equal score have ids that collate alike |
| `Selection.RankingUnique` | packages/context-engine/src/store/local-semantic.js:55-63 | A ranking without ties is determined by its rows |
| `Selection.TiesKeepOrder` | packages/context-engine/src/store/local-semantic.js:55-63 | Rows that rank alike stay in the order in which they come |

## Left out

- RelaySpec.Step: worker frames are forwarded over HTTP and touch no relay state, so they are no events here; worker connects and closes are.
- RelaySpec.OnClientMessage: what happens to a client frame without a local daemon beyond noting it (redirect or publication of the request by the backplane) is network plumbing.
- RelaySpec.OnConnect: resolving the admission claims is an input; a refused admission leaves behind what the event Upgrade does and nothing else.
- RelaySpec.IsRun: the bus is polled only while the registry counts a connection; runs allow bus frames at any time.
- RelaySpec.SessionEventClient: parsing frame text into frame classes is not modelled; the classes and their order in routing are.
- RateLimiterSpec.TokenBucketBound: rounding of floating-point token counts is not modelled.
- BusReplaySpec.AcceptedAtMostOnce: the authentication code is an arbitrary function of the signed text.
- Backplanes.RedisRelayBackplane.PullFrames: the presence resolve cache and the Redis commands are not part of this model.
- BusSigning.BusSignatureBase: the UTF-8 encoding of the signed text is not modelled.
- Materializer.Hands: HPKE also binds the repository id and epoch of a grant; grants written by the program bind their own, so the model has no separate field.
- Materializer.Apply: columns that no result speaks of (source kind, trust state, priority, review times) are left out, and a payload has the shape of its event's type.
- Materializer.Materialize: schema validation of events and the erased-actor shortcut of `vault.js` are left out.
- StoreTheorems.SearchExactly: the full-text match of a phrase is an arbitrary predicate on title and body, and the rank order of results is not modelled.
- MembershipSpec.Perform: a filed identity has both public keys; one without an HPKE key would throw while wrapping.
- EventLog.EventDirectory.ImportSyncEvents: the replay at its end is `MaterializeRepo.Replica.MaterializeHpke`; parent ids and creation times of events are left out.
- JsonNumbers.NumberReadBack: a number is its shortest decimal form; that a double has exactly one, and rounding when a longer decimal is read, is IEEE 754 and not modelled.
- JsonText.ParseUndoesPrint: the order of integer-like keys in objects that are read back is not modelled; the canonical form does not depend on it.
- Semantic.ScoreInUnit: floating-point rounding of weights and square roots is not modelled.
- RevokedReaders.RevokedReaderIsFrozen: that newly drawn keys differ from those a reader has is assumed of the random keys, and only for keys of epochs that a new creation starts over.
- Selection.SelectExactly: the collation of ids, as a rank, and Unicode lower-casing are the runtime's and enter as functions; manifests, digests and resolver pins of bundles are not part of this model.
- Connection caps at upgrade, heartbeats, TLS, metrics and configuration loading: checked or done outside the state that these results are about.
- Device approval, key stores, erase receipts, profiles, adapters and the daemon: library calls and file access that would add only easy members.
